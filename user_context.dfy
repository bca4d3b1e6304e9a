/**
 * The shared user store: the users added through it and the favorite ids,
 * with `addUser` (fresh id, newest first) and `toggleFavorite`.
 */
module UserContext {
  import opened UserTypes
  import opened Seqs
  import opened Favorites

  /** What `addUser` receives: a user without its id. */
  datatype UserData = UserData(
    name: string,
    email: string,
    phone: string,
    website: string,
    company: Company)

  /** `{ ...data, id }`: the user made from `data` and `id`. */
  function WithId(data: UserData, id: int): (u: User)
  {
    User(id, data.name, data.email, data.phone, data.website, data.company)
  }

  /** The user `addUser` would have received to produce `u`. */
  function WithoutId(u: User): UserData
  {
    UserData(u.name, u.email, u.phone, u.website, u.company)
  }

  /** `Math.max(0, ...users.map(u => u.id))`: the largest id, or 0 when none is larger. */
  function MaxId(users: seq<User>): (m: int)
    ensures m >= 0
    ensures forall u :: u in users ==> u.id <= m
    ensures m == 0 || exists u :: u in users && u.id == m
  {
    if users == [] then 0
    else
      var rest := MaxId(users[1..]);
      assert forall u :: u in users[1..] ==> u in users;
      if users[0].id > rest then users[0].id else rest
  }

  /** The id `addUser` assigns: one more than the largest id, at least 1, exactly 1 for an empty store. */
  function NextId(users: seq<User>): (id: int)
    ensures id >= 1
    ensures forall u :: u in users ==> u.id < id
    ensures users == [] ==> id == 1
    ensures id == 1 || exists u :: u in users && u.id == id - 1
  {
    MaxId(users) + 1
  }

  /** No two users share an id. */
  predicate UniqueIds(users: seq<User>)
  {
    forall i, j :: 0 <= i < j < |users| ==> users[i].id != users[j].id
  }

  /** The user `addUser` creates keeps its fields and gets the next id, which no other user has. */
  lemma NewUserSpec(users: seq<User>, data: UserData)
    ensures WithoutId(WithId(data, NextId(users))) == data
    ensures forall u :: u in users ==> u.id != WithId(data, NextId(users)).id
  {
  }

  /** Prepending the user `addUser` creates keeps the ids unique. */
  lemma AddUserKeepsIdsUnique(users: seq<User>, data: UserData)
    requires UniqueIds(users)
    ensures UniqueIds([WithId(data, NextId(users))] + users)
  {
  }

  /** The provider's state. */
  class UserProvider {
    var users: seq<User>
    var favorites: seq<int>

    /** Ids are unique and no favorite is listed twice. */
    ghost predicate Valid()
      reads this
    {
      UniqueIds(users) && NoDuplicates(favorites)
    }

    /** The initial state: no users, no favorites. */
    constructor ()
      ensures Valid()
      ensures users == [] && favorites == []
    {
      users := [];
      favorites := [];
    }

    /** `addUser`: the new user, with the next id, goes first; the favorites are untouched. */
    method AddUser(data: UserData)
      requires Valid()
      modifies this`users
      ensures Valid()
      ensures users == [WithId(data, NextId(old(users)))] + old(users)
      ensures |users| == |old(users)| + 1
      ensures forall u :: u in old(users) ==> u.id < users[0].id
      ensures favorites == old(favorites)
    {
      AddUserKeepsIdsUnique(users, data);
      var newUser := WithId(data, NextId(users));
      users := [newUser] + users;
    }

    /** `toggleFavorite`: remove the id if present, append it otherwise; the users are untouched. */
    method ToggleFavorite(userId: int)
      requires Valid()
      modifies this`favorites
      ensures Valid()
      ensures favorites == Toggle(old(favorites), userId)
      ensures users == old(users)
    {
      ToggleKeepsNoDuplicates(favorites, userId);
      if userId in favorites {
        favorites := Filter(favorites, Other(userId));
      } else {
        favorites := favorites + [userId];
      }
    }
  }
}
