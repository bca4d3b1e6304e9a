# User directory: listing, favorites and add-user state, in Dafny

This project models the state logic of a small Next.js user directory:

- the listing page (`user-app/src/app/page.tsx`), which fetches the users on
  mount and derives the visible list from them with a case-insensitive name
  search and a favorites-only switch, and whose favorites array is toggled
  per user;
- the user context (`user-app/src/context/UserContext.tsx`), a store of users
  and favorite ids whose `addUser` gives the new user an id one more than the
  largest id and puts it first, and whose `toggleFavorite` matches the listing page's;
- the add-user page (`user-app/src/app/add-user/page.tsx`), whose form
  updates one input at a time and whose submit handler validates the name
  and email, builds a user record stamped with the clock, and prepends it to
  the list held in the browser's `newUsers` storage slot.

Files and modules:

- `wrappers.dfy` (`Wrappers`): `Option` for nullable values, `Result` for a
  step that throws.
- `seqs.dfy` (`Seqs`): JavaScript's order-preserving `filter`, and what an
  order-preserving subsequence is.
- `text.dfy` (`Text`): `toLowerCase` and `includes`.
- `user.dfy` (`UserTypes`): the `User` and `UserFormData` records.
- `favorites.dfy` (`Favorites`): the toggle expression that both components
  share, and its properties.
- `listing.dfy` (`Listing`): the filtering effect as functions, and the page
  state as the class `HomePage`.
- `user_context.dfy` (`UserContext`): id assignment, and the store as the
  class `UserProvider`.
- `add_user.dfy` (`AddUser`): validation, record construction, the storage
  slot, and the page state as the class `AddUserPage`.

Each React handler is one atomic transition of its class. A state setter
followed by the effects that depend on that state is one method: the
listing page's setters run the filtering effect before they return. The
storage slot is abstract. It is absent, the empty string, text that is not
JSON (with the parser's message), JSON that is not an array, or an array of
users. The clock reading (`Date.now()`) and the outcome of fetching the users
are parameters.

The code differs from what the app's documentation suggests in three
places, and the model follows the code:

- The listing page never reads the `newUsers` slot. It shows only the
  fetched users (`page.tsx:25-27`), so no merge of remote and local users is
  modelled.
- Unparsable stored text is not treated as an empty list. `JSON.parse` throws,
  the handler shows the parser's message, and nothing is written
  (`add-user/page.tsx:51,63-64`). Only parsed values that are not arrays are
  coerced to `[]`.
- The favorites are an array, not a set. Toggling appends at the end, and
  toggling twice restores the members but not always their order.

## Model

| member | source | states |
|---|---|---|
| `Seqs.Filter` | user-app/src/app/page.tsx:44-46 | `filter` keeps exactly the elements that pass the predicate and never grows the list |
| `Seqs.FilterIsSubsequence` | user-app/src/app/page.tsx:43-54 | a filtered list is an order-preserving subsequence of its input |
| `Seqs.FilterCommutes` | user-app/src/app/page.tsx:43-54 | two filters give the same list in either order |
| `Text.Lower` | user-app/src/app/page.tsx:45 | lower-casing keeps the length, turns each upper-case ASCII letter into its lower-case letter and keeps every other character |
| `Text.LowerIgnoresCase` | user-app/src/app/page.tsx:45 | two strings that differ only in the case of their letters lower-case to the same string |
| `Text.Includes` | user-app/src/app/page.tsx:45 | no contract; `includes`, specified by IncludesIff |
| `Text.LowerIdempotent` | user-app/src/app/page.tsx:45 | lower-casing an already lower-cased string changes nothing |
| `Text.IncludesIff` | user-app/src/app/page.tsx:45 | `includes` holds exactly when the term occurs at some position of the name |
| `Favorites.Toggle` | user-app/src/app/page.tsx:57-63 | no contract; the toggle shared with user-app/src/context/UserContext.tsx:27-33, specified by ToggleMembership, ToggleRemoves, ToggleAppends, ToggleKeepsNoDuplicates and the two double-toggle lemmas |
| `Favorites.ToggleMembership` | user-app/src/app/page.tsx:57-63 | after a toggle an id is a favorite exactly when it was one before, except that the toggled id flips |
| `Favorites.ToggleRemoves` | user-app/src/app/page.tsx:58-59 | toggling a present id removes every occurrence and keeps the other ids in order, each as often as before |
| `Favorites.ToggleAppends` | user-app/src/app/page.tsx:60-61 | toggling an absent id appends it after the existing ids |
| `Favorites.ToggleKeepsNoDuplicates` | user-app/src/app/page.tsx:57-63 | a toggle keeps a duplicate-free favorites array duplicate-free |
| `Favorites.ToggleTwiceMembers` | user-app/src/app/page.tsx:57-63 | toggling one id twice restores the set of favorites |
| `Favorites.ToggleTwiceAbsent` | user-app/src/app/page.tsx:57-63 | toggling an absent id twice restores the exact array |
| `Listing.MatchesName` | user-app/src/app/page.tsx:44-46 | no contract; the search predicate, specified through SearchStepSpec and SearchIgnoresNameCase |
| `Listing.InFavorites` | user-app/src/app/page.tsx:51 | no contract; the favorites predicate, specified through FavoritesStepSpec |
| `Listing.SearchStep` | user-app/src/app/page.tsx:43-47 | no contract; the search step, specified by SearchStepSpec |
| `Listing.FavoritesStep` | user-app/src/app/page.tsx:50-52 | no contract; the favorites step, specified by FavoritesStepSpec |
| `Listing.Visible` | user-app/src/app/page.tsx:40-54 | no contract; the filtering effect's result, specified by VisibleSpec, VisibleIsOneFilter and FilterOrderIrrelevant |
| `Listing.SearchStepSpec` | user-app/src/app/page.tsx:43-47 | an empty term excludes no user; otherwise the search keeps, in order, exactly the users whose name contains the term ignoring case |
| `Listing.FavoritesStepSpec` | user-app/src/app/page.tsx:50-52 | with the switch off nothing is excluded; with it on exactly the users whose id is a favorite are kept, in order |
| `Listing.VisibleIsOneFilter` | user-app/src/app/page.tsx:40-54 | the two conditional filters equal one filter by the conjunction of both predicates |
| `Listing.VisibleSpec` | user-app/src/app/page.tsx:40-54 | the visible list is an order-preserving subsequence of the users, no longer than them, and a user is visible exactly when it passes both the search and the favorites filter |
| `Listing.FilterOrderIrrelevant` | user-app/src/app/page.tsx:43-54 | applying the favorites step first gives the same visible list |
| `Listing.SearchIgnoresTermCase` | user-app/src/app/page.tsx:45 | a term and its lower-cased form show the same users |
| `Listing.SearchIgnoresNameCase` | user-app/src/app/page.tsx:45 | users whose names differ only in letter case pass the same searches |
| `Listing.MountShowsAllUsers` | user-app/src/app/page.tsx:26-27 | at mount (empty term, switch off) the filtering effect shows all fetched users, as the direct assignment does |
| `Listing.HomePage.constructor` | user-app/src/app/page.tsx:13-19 | the page starts loading, with no users, no favorites, an empty term and the switch off |
| `Listing.HomePage.ApplyFilters` | user-app/src/app/page.tsx:39-55 | the step-by-step filtering effect sets the visible list to `Visible` of the current state |
| `Listing.HomePage.LoadUsers` | user-app/src/app/page.tsx:21-37 | a successful fetch replaces the users; a failed one keeps them and sets the fixed error message; loading is off afterwards, and the visible list stays the filtering effect's result |
| `Listing.HomePage.SetSearchTerm` | user-app/src/app/page.tsx:92 | a new search term re-derives the visible list |
| `Listing.HomePage.SetShowFavoritesOnly` | user-app/src/app/page.tsx:99 | switching favorites-only re-derives the visible list |
| `Listing.HomePage.ToggleFavorite` | user-app/src/app/page.tsx:57-63 | the favorites become the toggle of the old favorites, stay duplicate-free, and the visible list is re-derived |
| `UserContext.MaxId` | user-app/src/context/UserContext.tsx:22 | `Math.max(0, ...ids)` is at least 0, at least every id, and is 0 or one of the ids |
| `UserContext.NextId` | user-app/src/context/UserContext.tsx:22 | the new id is at least 1, exceeds every existing id, is 1 for an empty store, and is otherwise 1 or one more than some existing id |
| `UserContext.WithId` | user-app/src/context/UserContext.tsx:20-23 | no contract; `{ ...user, id }`, specified by NewUserSpec |
| `UserContext.NewUserSpec` | user-app/src/context/UserContext.tsx:20-23 | the new user keeps every supplied field and its id differs from every existing id |
| `UserContext.AddUserKeepsIdsUnique` | user-app/src/context/UserContext.tsx:19-25 | prepending the new user keeps the ids unique |
| `UserContext.UserProvider.constructor` | user-app/src/context/UserContext.tsx:16-17 | the store starts with no users and no favorites |
| `UserContext.UserProvider.AddUser` | user-app/src/context/UserContext.tsx:19-25 | the new user is prepended, the length grows by one, its id exceeds every old id, ids stay unique, favorites are unchanged |
| `UserContext.UserProvider.ToggleFavorite` | user-app/src/context/UserContext.tsx:27-33 | the favorites become the toggle of the old favorites and stay duplicate-free; users are unchanged |
| `AddUser.UpdateSpec` | user-app/src/app/add-user/page.tsx:19-22 | a form update sets the edited input and leaves the other four as they were |
| `AddUser.Update` | user-app/src/app/add-user/page.tsx:21 | no contract; the single-field form update, specified by UpdateSpec |
| `AddUser.Validate` | user-app/src/app/add-user/page.tsx:31-33 | no contract; the validation step, specified by ValidateSpec |
| `AddUser.ValidateSpec` | user-app/src/app/add-user/page.tsx:31-33 | a form is rejected exactly when the name or email is the empty string (so whitespace-only values pass), always with "Name and email are required" |
| `AddUser.BuildUser` | user-app/src/app/add-user/page.tsx:36-47 | no contract; the record construction, specified by BuildUserSpec and BlankOptionalFields |
| `AddUser.ReadSlot` | user-app/src/app/add-user/page.tsx:50-51 | no contract; reading and parsing the slot, specified through the Submit lemmas |
| `AddUser.Stored` | user-app/src/app/add-user/page.tsx:53-56 | no contract; the coercion of a non-array to `[]`, specified through SubmitPrepends |
| `AddUser.Submit` | user-app/src/app/add-user/page.tsx:29-65 | no contract; the outcome of a submission, specified by SubmitRejectsMissingFields, SubmitPrepends, SubmitUnparsableFails and SubmitErrorIffNoWrite |
| `AddUser.BuildUserSpec` | user-app/src/app/add-user/page.tsx:36-47 | the built record spells out the form's fields, takes the clock reading as id, and has an empty catch phrase and slogan |
| `AddUser.SubmitRejectsMissingFields` | user-app/src/app/add-user/page.tsx:31-33 | a missing name or email sets the validation message and leaves the slot as it was |
| `AddUser.SubmitPrepends` | user-app/src/app/add-user/page.tsx:50-59 | a valid form over a readable slot clears the error and stores the new user first, ahead of the stored users; an absent, empty or non-array slot ends up holding the new user alone |
| `AddUser.SubmitUnparsableFails` | user-app/src/app/add-user/page.tsx:50-64 | unparsable stored text makes a valid submission show the parser's message and write nothing |
| `AddUser.SubmitErrorIffNoWrite` | user-app/src/app/add-user/page.tsx:29-65 | a submission shows no error exactly when it stores the new user ahead of the stored users |
| `AddUser.BlankOptionalFields` | user-app/src/app/add-user/page.tsx:36-47 | submitting only a name and an email stores first a record whose phone, website and company fields are empty |
| `AddUser.AddUserPage.constructor` | user-app/src/app/add-user/page.tsx:8-16 | the form starts blank, not loading, with no error |
| `AddUser.AddUserPage.HandleChange` | user-app/src/app/add-user/page.tsx:19-22 | the edited input takes the new value |
| `AddUser.AddUserPage.HandleSubmit` | user-app/src/app/add-user/page.tsx:24-69 | the error and the slot become those of `Submit`, so an earlier error never survives a submission; loading is off on every path |

## Left out

- Fetching (`user-app/src/services/userService.ts`): HTTP and JSON decoding are network I/O. The fetched list, or the fact that fetching failed, is the parameter of `LoadUsers`.
- The single-user fetch and the detail page (`user-app/src/app/users/[id]/page.tsx`) are not part of this model.
- Rendering: all JSX, `UserCard`, `UserList`, `SearchBar`. `FavoritesToggle` and `LoadingSpinner` are not part of this model.
- Routing: `router.push('/')` after a successful submission and `router.back()` are navigation only.
- React scheduling: effects, batched updates and `async`/`await` ordering. Each handler, with the effects it triggers, is one atomic transition. So the model cannot show what happens when two `addUser` calls are batched: both read the same `users`, and both would get the same id.
- `Text.Lower`: lowers ASCII letters only, whereas `toLowerCase` applies Unicode case mapping.
- `Date.now()` is the parameter `now`. Its possible collision with other ids is not a property of this code.
- JSON text and `localStorage` internals: the slot is an abstract value. The elements of a stored array are taken to be users, and `JSON.stringify` is taken to write back what was read. A failing `setItem` (a full quota) is not modelled.
- Number semantics: ids are unbounded integers, not doubles. `Math.max` over a spread of a very large array, which can throw, is not modelled.
- `useUserContext`, which throws outside a provider, is React context plumbing.
- The `err instanceof Error` fallback message is not modelled: both errors the handler can throw (the validation error and the parser's) are `Error`s.
