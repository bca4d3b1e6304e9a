/**
 * The user directory's listing page: the users fetched on mount, the
 * favorites, the search term and the favorites-only switch, and the visible
 * list derived from them by a name search and a favorites filter.
 */
module Listing {
  import opened Wrappers
  import opened Seqs
  import opened Text
  import opened UserTypes
  import opened Favorites

  /** The message shown when the user list cannot be fetched. */
  const FetchError: string := "Failed to fetch users. Please try again later."

  /** The search predicate: the lower-cased name contains `key`, the lower-cased term. */
  function MatchesName(key: string): User -> bool
  {
    (u: User) => Includes(Lower(u.name), key)
  }

  /** The favorites predicate: the user's id is among the favorites. */
  function InFavorites(favorites: seq<int>): User -> bool
  {
    (u: User) => u.id in favorites
  }

  /** The search step of the filtering effect: skipped for an empty term. */
  function SearchStep(users: seq<User>, searchTerm: string): seq<User>
  {
    if searchTerm != "" then Filter(users, MatchesName(Lower(searchTerm))) else users
  }

  /** The favorites step of the filtering effect: skipped unless the switch is on. */
  function FavoritesStep(users: seq<User>, showFavoritesOnly: bool, favorites: seq<int>): seq<User>
  {
    if showFavoritesOnly then Filter(users, InFavorites(favorites)) else users
  }

  /** The list the filtering effect produces: the search step, then the favorites step. */
  function Visible(users: seq<User>, searchTerm: string, showFavoritesOnly: bool, favorites: seq<int>): seq<User>
  {
    FavoritesStep(SearchStep(users, searchTerm), showFavoritesOnly, favorites)
  }

  /** A user passes the search when the term is empty or its name contains the term, ignoring case. */
  predicate PassesSearch(u: User, searchTerm: string)
  {
    searchTerm == "" || Includes(Lower(u.name), Lower(searchTerm))
  }

  /** A user passes the favorites filter when the switch is off or the user is a favorite. */
  predicate PassesFavorites(u: User, showFavoritesOnly: bool, favorites: seq<int>)
  {
    !showFavoritesOnly || u.id in favorites
  }

  /** Both filters as one predicate. */
  function Passes(searchTerm: string, showFavoritesOnly: bool, favorites: seq<int>): User -> bool
  {
    (u: User) => PassesSearch(u, searchTerm) && PassesFavorites(u, showFavoritesOnly, favorites)
  }

  /**
   * The search step excludes nothing for an empty term; otherwise it keeps,
   * in order, exactly the users whose name contains the term ignoring case.
   */
  lemma SearchStepSpec(users: seq<User>, searchTerm: string)
    ensures searchTerm == "" ==> SearchStep(users, searchTerm) == users
    ensures IsSubsequence(SearchStep(users, searchTerm), users)
    ensures forall u :: u in SearchStep(users, searchTerm) <==> u in users && PassesSearch(u, searchTerm)
  {
    if searchTerm != "" {
      FilterIsSubsequence(users, MatchesName(Lower(searchTerm)));
    } else {
      FilterKeepsAll(users, (u: User) => true);
      FilterIsSubsequence(users, (u: User) => true);
    }
  }

  /**
   * The favorites step excludes nothing when the switch is off; otherwise it
   * keeps, in order, exactly the users whose id is a favorite.
   */
  lemma FavoritesStepSpec(users: seq<User>, showFavoritesOnly: bool, favorites: seq<int>)
    ensures !showFavoritesOnly ==> FavoritesStep(users, showFavoritesOnly, favorites) == users
    ensures IsSubsequence(FavoritesStep(users, showFavoritesOnly, favorites), users)
    ensures forall u :: u in FavoritesStep(users, showFavoritesOnly, favorites)
                    <==> u in users && PassesFavorites(u, showFavoritesOnly, favorites)
  {
    if showFavoritesOnly {
      FilterIsSubsequence(users, InFavorites(favorites));
    } else {
      FilterKeepsAll(users, (u: User) => true);
      FilterIsSubsequence(users, (u: User) => true);
    }
  }

  /** The two conditional filters in a row are a single filter by both predicates. */
  lemma VisibleIsOneFilter(users: seq<User>, searchTerm: string, showFavoritesOnly: bool, favorites: seq<int>)
    ensures Visible(users, searchTerm, showFavoritesOnly, favorites)
         == Filter(users, Passes(searchTerm, showFavoritesOnly, favorites))
  {
    var both := Passes(searchTerm, showFavoritesOnly, favorites);
    var search := MatchesName(Lower(searchTerm));
    var favorite := InFavorites(favorites);
    if searchTerm != "" && showFavoritesOnly {
      FilterFilter(users, search, favorite, both);
    } else if searchTerm != "" {
      FilterAgree(users, search, both);
    } else if showFavoritesOnly {
      FilterAgree(users, favorite, both);
    } else {
      FilterKeepsAll(users, both);
    }
  }

  /**
   * The visible list is an order-preserving subsequence of the users, and a
   * user is visible exactly when it passes both the search and the favorites filter.
   */
  lemma VisibleSpec(users: seq<User>, searchTerm: string, showFavoritesOnly: bool, favorites: seq<int>)
    ensures IsSubsequence(Visible(users, searchTerm, showFavoritesOnly, favorites), users)
    ensures |Visible(users, searchTerm, showFavoritesOnly, favorites)| <= |users|
    ensures forall u :: u in Visible(users, searchTerm, showFavoritesOnly, favorites)
                    <==> u in users && PassesSearch(u, searchTerm) && PassesFavorites(u, showFavoritesOnly, favorites)
  {
    VisibleIsOneFilter(users, searchTerm, showFavoritesOnly, favorites);
    FilterIsSubsequence(users, Passes(searchTerm, showFavoritesOnly, favorites));
  }

  /** Applying the favorites step before the search step gives the same list. */
  lemma FilterOrderIrrelevant(users: seq<User>, searchTerm: string, showFavoritesOnly: bool, favorites: seq<int>)
    ensures Visible(users, searchTerm, showFavoritesOnly, favorites)
         == SearchStep(FavoritesStep(users, showFavoritesOnly, favorites), searchTerm)
  {
    if searchTerm != "" && showFavoritesOnly {
      FilterCommutes(users, MatchesName(Lower(searchTerm)), InFavorites(favorites));
    }
  }

  /** Searching for a term and for its lower-cased form shows the same users. */
  lemma SearchIgnoresTermCase(users: seq<User>, searchTerm: string, showFavoritesOnly: bool, favorites: seq<int>)
    ensures Visible(users, searchTerm, showFavoritesOnly, favorites)
         == Visible(users, Lower(searchTerm), showFavoritesOnly, favorites)
  {
    LowerIdempotent(searchTerm);
  }

  /** Users whose names differ only in letter case pass the same searches. */
  lemma SearchIgnoresNameCase(u: User, v: User, searchTerm: string)
    requires EqualIgnoringCase(u.name, v.name)
    ensures PassesSearch(u, searchTerm) == PassesSearch(v, searchTerm)
    ensures MatchesName(Lower(searchTerm))(u) == MatchesName(Lower(searchTerm))(v)
  {
    LowerIgnoresCase(u.name, v.name);
  }

  /**
   * At mount the search term is empty and the switch is off, so setting the
   * visible list to the fetched users directly agrees with the filtering effect.
   */
  lemma MountShowsAllUsers(users: seq<User>, favorites: seq<int>)
    ensures Visible(users, "", false, favorites) == users
  {
    SearchStepSpec(users, "");
    FavoritesStepSpec(users, false, favorites);
  }

  /** The listing page's state. */
  class HomePage {
    var users: seq<User>
    var filteredUsers: seq<User>
    var favorites: seq<int>
    var loading: bool
    var error: Option<string>
    var searchTerm: string
    var showFavoritesOnly: bool

    /** The visible list is the filtering effect's result, and no favorite is listed twice. */
    ghost predicate Valid()
      reads this
    {
      && filteredUsers == Visible(users, searchTerm, showFavoritesOnly, favorites)
      && NoDuplicates(favorites)
    }

    /** The initial state: nothing fetched yet, loading, no search, no favorites. */
    constructor ()
      ensures Valid()
      ensures users == [] && filteredUsers == [] && favorites == []
      ensures loading && error == None && searchTerm == "" && !showFavoritesOnly
    {
      users := [];
      filteredUsers := [];
      favorites := [];
      loading := true;
      error := None;
      searchTerm := "";
      showFavoritesOnly := false;
    }

    /** The filtering effect, re-run whenever the users, the term, the switch or the favorites change. */
    method ApplyFilters()
      modifies this`filteredUsers
      ensures filteredUsers == Visible(users, searchTerm, showFavoritesOnly, favorites)
    {
      var result := users;
      if searchTerm != "" {
        result := Filter(result, MatchesName(Lower(searchTerm)));
      }
      if showFavoritesOnly {
        result := Filter(result, InFavorites(favorites));
      }
      filteredUsers := result;
    }

    /**
     * The mount effect: `fetched` is what fetching the users returned, or the
     * error it threw. On success the users are replaced, on failure the fixed
     * error message is set; loading is off afterwards either way.
     */
    method LoadUsers(fetched: Result<seq<User>>)
      requires Valid()
      modifies this
      ensures Valid()
      ensures !loading
      ensures fetched.Ok? ==> users == fetched.value && error == old(error)
      ensures fetched.Err? ==> users == old(users) && error == Some(FetchError)
      ensures filteredUsers == Visible(users, searchTerm, showFavoritesOnly, favorites)
      ensures favorites == old(favorites) && searchTerm == old(searchTerm)
      ensures showFavoritesOnly == old(showFavoritesOnly)
    {
      loading := true;
      match fetched {
        case Ok(userData) =>
          users := userData;
          filteredUsers := userData;
          ApplyFilters();
        case Err(_) =>
          error := Some(FetchError);
      }
      loading := false;
    }

    /** The search bar's change handler, followed by the filtering effect. */
    method SetSearchTerm(term: string)
      requires Valid()
      modifies this`searchTerm, this`filteredUsers
      ensures Valid()
      ensures searchTerm == term
      ensures filteredUsers == Visible(users, term, showFavoritesOnly, favorites)
    {
      searchTerm := term;
      ApplyFilters();
    }

    /** The favorites-only switch's handler, followed by the filtering effect. */
    method SetShowFavoritesOnly(show: bool)
      requires Valid()
      modifies this`showFavoritesOnly, this`filteredUsers
      ensures Valid()
      ensures showFavoritesOnly == show
      ensures filteredUsers == Visible(users, searchTerm, show, favorites)
    {
      showFavoritesOnly := show;
      ApplyFilters();
    }

    /** `toggleFavorite`: remove the id if present, append it otherwise; then the filtering effect. */
    method ToggleFavorite(userId: int)
      requires Valid()
      modifies this`favorites, this`filteredUsers
      ensures Valid()
      ensures favorites == Toggle(old(favorites), userId)
      ensures filteredUsers == Visible(users, searchTerm, showFavoritesOnly, favorites)
    {
      ToggleKeepsNoDuplicates(favorites, userId);
      if userId in favorites {
        favorites := Filter(favorites, Other(userId));
      } else {
        favorites := favorites + [userId];
      }
      ApplyFilters();
    }
  }
}
