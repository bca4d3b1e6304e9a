/**
 * The favorites list: an array of user ids that a click toggles. The listing
 * page and the user context toggle it with the same expression: remove every
 * occurrence of a present id, append an absent one.
 */
module Favorites {
  import opened Seqs

  /** The predicate `id => id !== userId` of the removal filter. */
  function Other(userId: int): int -> bool
  {
    (id: int) => id != userId
  }

  /** The favorites array after `toggleFavorite(userId)`. */
  function Toggle(favorites: seq<int>, userId: int): seq<int>
  {
    if userId in favorites then Filter(favorites, Other(userId)) else favorites + [userId]
  }

  /** No id occurs twice. */
  predicate NoDuplicates(favorites: seq<int>)
  {
    forall i, j :: 0 <= i < j < |favorites| ==> favorites[i] != favorites[j]
  }

  /** The ids marked as favorite, regardless of order and repetition. */
  function Members(favorites: seq<int>): set<int>
  {
    set id | id in favorites
  }

  /** Membership after a toggle is membership before it, flipped for `userId` alone. */
  lemma ToggleMembership(favorites: seq<int>, userId: int)
    ensures forall id :: id in Toggle(favorites, userId) <==> (id in favorites <==> id != userId)
  {
  }

  /**
   * Toggling a present id removes every occurrence of it and keeps every
   * other id, in order and as often as before.
   */
  lemma ToggleRemoves(favorites: seq<int>, userId: int)
    requires userId in favorites
    ensures userId !in Toggle(favorites, userId)
    ensures IsSubsequence(Toggle(favorites, userId), favorites)
    ensures forall id :: id != userId ==> multiset(Toggle(favorites, userId))[id] == multiset(favorites)[id]
  {
    FilterIsSubsequence(favorites, Other(userId));
    forall id | id != userId
      ensures multiset(Toggle(favorites, userId))[id] == multiset(favorites)[id]
    {
      FilterCount(favorites, Other(userId), id);
    }
  }

  /** Toggling an absent id appends it after the existing ones. */
  lemma ToggleAppends(favorites: seq<int>, userId: int)
    requires userId !in favorites
    ensures |Toggle(favorites, userId)| == |favorites| + 1
    ensures Toggle(favorites, userId)[..|favorites|] == favorites
    ensures Toggle(favorites, userId)[|favorites|] == userId
  {
  }

  /** A toggle keeps a duplicate-free favorites list duplicate-free. */
  lemma ToggleKeepsNoDuplicates(favorites: seq<int>, userId: int)
    requires NoDuplicates(favorites)
    ensures NoDuplicates(Toggle(favorites, userId))
  {
    var r := Toggle(favorites, userId);
    if userId in favorites {
      forall id ensures multiset(r)[id] <= 1 {
        FilterCount(favorites, Other(userId), id);
        NoDuplicatesCount(favorites, id);
      }
      CountAtMostOne(r);
    }
  }

  /** In a duplicate-free list every id is counted at most once. */
  lemma {:induction false} NoDuplicatesCount(s: seq<int>, id: int)
    requires NoDuplicates(s)
    ensures multiset(s)[id] <= 1
  {
    if s != [] {
      assert s == [s[0]] + s[1..];
      NoDuplicatesCount(s[1..], id);
      if s[0] == id {
        assert id !in s[1..];
      }
    }
  }

  /** A list in which every id is counted at most once has no duplicates. */
  lemma CountAtMostOne(s: seq<int>)
    requires forall id :: multiset(s)[id] <= 1
    ensures NoDuplicates(s)
  {
    forall i, j | 0 <= i < j < |s| ensures s[i] != s[j] {
      assert s == s[..i] + [s[i]] + s[i + 1..j] + [s[j]] + s[j + 1..];
      assert multiset(s)[s[i]] >= 1 + multiset([s[j]])[s[i]];
    }
  }

  /** Toggling the same id twice restores the set of favorites. */
  lemma ToggleTwiceMembers(favorites: seq<int>, userId: int)
    ensures Members(Toggle(Toggle(favorites, userId), userId)) == Members(favorites)
  {
    ToggleMembership(favorites, userId);
    ToggleMembership(Toggle(favorites, userId), userId);
  }

  /** Toggling an absent id twice restores the exact favorites list. */
  lemma ToggleTwiceAbsent(favorites: seq<int>, userId: int)
    requires userId !in favorites
    ensures Toggle(Toggle(favorites, userId), userId) == favorites
  {
    FilterAppend(favorites, [userId], Other(userId));
    FilterKeepsAll(favorites, Other(userId));
  }
}
