# Campus lending app: client-side state stores, in Dafny

This project models the client-side core of a campus peer-to-peer lending app. The core has two parts.

- **The app store (`AppProvider`).** It holds five state cells: the borrowable items, the transactions, one user profile, the favourite item ids and the search history. It has eight mutators. Each mutator computes a new value from the old one, replaces its cell, and writes that value as JSON under the cell's key in the device's key-value storage.
- **The session store (`AuthProvider`).** It holds the signed-in user (or none) and a loading flag. It can restore the user from the `"currentUser"` key, log in, register and log out.

The model also covers the pure view logic of three screens: the transactions screen's status badges and status filter, and the title-search and category filter that the home and borrow screens share.

`StateManagementFile.tsx` contains a second copy of both providers. The copy is identical except that its `addBorrowItem` and `addTransaction` build the appended list once, where `context/AppContext.tsx` builds it twice. Both forms give the same value, so each operation is modelled once. The table below cites `context/` and names the duplicate lines.

Layout, one module per file:

- `wrappers.dfy`: `Option`.
- `sequences.dfy`: `Filter` (`Array.prototype.filter`), `Take` (`slice(0, n)`), `IsSubsequence`, `NoDup`.
- `strings.dfy`: `trim` with ECMAScript's exact whitespace set, ASCII `toLowerCase`, `includes`, `split("@")[0]`, and the decimal rendering of a number.
- `entities.dfy`: the records and the built-in initial data.
- `updates.dfy`: the pure next-value function of every app-store mutator, with its laws.
- `storage.dfy`: the device storage as a class over a `map<string, Blob>`, with JSON abstracted.
- `appstore.dfy`: `AppProvider` as a class. Its methods are tied to the `updates.dfy` functions.
- `session.dfy`: `AuthProvider` as a class, plus its validation and user-building functions.
- `screens.dfy`: the screen filters and badge maps.

Parameters stand in for the environment:

- `writeOk` and `readOk` say whether a storage call succeeds. A failed write leaves storage unchanged.
- `now` is the clock reading `Date.now()` that `register` uses.

## Model

| member | source | states |
|---|---|---|
| `Sequences.Filter` | screens/HomeScreen.tsx:69-73 | The result holds the elements that satisfy the predicate and no others, in source order. Every kept value satisfies it and occurs in the input. Every satisfying value of the input is kept. The result is a subsequence of the input. If every element satisfies the predicate, the input comes back unchanged |
| `Sequences.FilterCounts` | screens/HomeScreen.tsx:69-73 | A satisfying value occurs in the result exactly as often as in the input, and any other value not at all. With the subsequence clause of `Filter`, this fixes the result completely, repeated values included |
| `Sequences.FilterNoDup` | context/AppContext.tsx:231 | Filtering a list that has no duplicates gives a list with no duplicates |
| `Sequences.PrefixOfSubsequence` | context/AppContext.tsx:240 | Cutting a subsequence short with `slice(0, k)` leaves a subsequence |
| `Sequences.SubsequenceReflexive` | screens/TransactionsScreen.tsx:99-100 | Every list is a subsequence of itself (the "all" case of the status filter) |
| `Strings.TrimStart` | context/AppContext.tsx:239 | Removes exactly the leading whitespace: the result is a suffix of the input, everything removed is whitespace, and the result does not start with whitespace |
| `Strings.TrimEnd` | context/AppContext.tsx:239 | Removes exactly the trailing whitespace: the result is a prefix of the input, everything removed is whitespace, and the result does not end with whitespace |
| `Strings.Trim` | context/AppContext.tsx:239 | `trim` returns a contiguous piece of the input with only whitespace before and after it, and the piece neither starts nor ends with whitespace |
| `Strings.TrimEmptyIffBlank` | context/AppContext.tsx:239 | `query.trim()` is the empty (falsy) string exactly when every character of the query is whitespace |
| `Strings.Lower` | screens/HomeScreen.tsx:70 | Lowercasing keeps the length and leaves no letter A-Z. Each letter A-Z becomes the matching letter a-z, and every other character is kept |
| `Strings.LowerIdempotent` | screens/HomeScreen.tsx:70 | Lowercasing twice is the same as lowercasing once |
| `Strings.Contains` | screens/HomeScreen.tsx:70 | `includes` is false whenever the needle is longer than the haystack, and the empty needle is included in every string |
| `Strings.ContainsIffOccurs` | screens/HomeScreen.tsx:70 | `includes` is true exactly when the needle occurs at some offset of the haystack |
| `Strings.LocalPart` | context/AuthContext.tsx:51 | `split("@")[0]` is the longest prefix with no '@': the character after it, if any, is the first '@' |
| `Strings.Digits` | context/AuthContext.tsx:70 | The rendering of a number is a non-empty string of digits with no leading zero |
| `Strings.DigitsRoundTrip` | context/AuthContext.tsx:70 | Reading the rendered digits back gives the number (round trip) |
| `Strings.DigitsInjective` | context/AuthContext.tsx:70 | Different numbers render as different strings |
| `Updates.WithStatus` | context/AppContext.tsx:203-207 | The length and every id are kept. An item with the given id gets the new status and keeps all its other fields. Items with other ids are untouched (same code at StateManagementFile.tsx:288-292) |
| `Updates.WithStatusUnknownId` | context/AppContext.tsx:204 | An id that no item carries leaves the list exactly as it was |
| `Updates.WithStatusIdempotent` | context/AppContext.tsx:204 | Setting the same status twice is the same as setting it once |
| `Updates.WithStatusLastWins` | context/AppContext.tsx:204 | Of two status updates on one id, the later one wins |
| `Updates.WithStatusCommutes` | context/AppContext.tsx:204 | Status updates on two different ids can be done in either order |
| `Updates.MakeCalculatorAvailable` | context/AppContext.tsx:95-105 | From the built-in items, making item "3" available changes only its status: it keeps owner "Mike Johnson" and price 15, and the other five items are untouched |
| `Updates.Merged` | context/AppContext.tsx:216-220 | Each field present in the patch takes the patch's value, and each absent field keeps the old value (same code at StateManagementFile.tsx:300-304) |
| `Updates.MergedEmpty` | context/AppContext.tsx:217 | Merging an empty patch changes nothing |
| `Updates.MergedIdempotent` | context/AppContext.tsx:217 | Merging the same patch twice is the same as merging it once |
| `Updates.MergedThen` | context/AppContext.tsx:217 | Two merges in a row equal one merge of the combined patch, with the later patch winning field by field |
| `Updates.Credited` | context/AppContext.tsx:222-226 | The balance grows by the amount, with no floor. Every other profile field is unchanged (same code at StateManagementFile.tsx:306-310) |
| `Updates.CreditedIsMerge` | context/AppContext.tsx:222-226 | `addCredits(a)` equals `updateUserProfile({credits: credits + a})` |
| `Updates.CreditedAdditive` | context/AppContext.tsx:223 | Adding credits twice equals adding their sum once |
| `Updates.CreditsMayGoNegative` | context/AppContext.tsx:223 | From the built-in profile (2450 credits), spending 2451 gives a balance of -1 |
| `Updates.Without` | context/AppContext.tsx:231 | `filter(x => x !== id)` removes the id and keeps every other value, in order. If the id is absent, the list is unchanged. A duplicate-free list stays duplicate-free |
| `Updates.WithoutCounts` | context/AppContext.tsx:231 | No copy of the id survives, and every other value keeps all its copies |
| `Updates.WithoutAppended` | context/AppContext.tsx:229-235 | Removing an id that was just appended to a list without it gives the list back |
| `Updates.Toggled` | context/AppContext.tsx:229-235 | The toggled id's membership flips and every other id keeps its membership. An absent id is appended at the end. A present id is removed in place. The list stays duplicate-free (same code at StateManagementFile.tsx:312-318) |
| `Updates.ToggledTwiceMembership` | context/AppContext.tsx:229-235 | Two toggles of one id restore every id's membership |
| `Updates.ToggledTwiceAbsent` | context/AppContext.tsx:229-235 | Two toggles of an id that was not a favourite restore exactly the same list |
| `Updates.TogglesParity` | context/AppContext.tsx:229-235 | After n toggles of one id, its membership has flipped exactly when n is odd |
| `Updates.TogglesKeepOthers` | context/AppContext.tsx:229-235 | Any number of toggles of one id leaves every other id's membership as it was |
| `Updates.TogglesNoDup` | context/AppContext.tsx:229-235 | Any number of toggles keeps a duplicate-free favourites list duplicate-free |
| `Updates.TogglesEvenRestores` | context/AppContext.tsx:229-235 | An even number of toggles of an id that was not a favourite gives back exactly the original list |
| `Updates.PushedFront` | context/AppContext.tsx:240 | The query is at index 0 and occurs only there. It is followed by as many of the other entries as fit, in their old order, up to 10 entries in all. A duplicate-free history stays duplicate-free |
| `Updates.Pushed` | context/AppContext.tsx:238-244 | A blank query changes nothing. Otherwise the query, untrimmed, is at index 0 and occurs only there. It is followed by as many of the other entries as fit, in their old order, up to 10 entries in all. A duplicate-free history stays duplicate-free (same code at StateManagementFile.tsx:320-326) |
| `Updates.PushedAllInvariant` | context/AppContext.tsx:238-244 | From a duplicate-free history of at most 10 entries, any run of queries keeps it duplicate-free and at most 10 long |
| `Updates.PushedAllLatestFirst` | context/AppContext.tsx:238-244 | After a run of queries, the most recent non-blank one is at index 0 |
| `Updates.PushedBlank` | context/AppContext.tsx:239 | The queries "" and "   " leave the history unchanged |
| `Storage.Parse` | context/AuthContext.tsx:33 | Parsing succeeds exactly on text that `JSON.stringify` produced |
| `Storage.Stringify` | context/AppContext.tsx:254 | `JSON.stringify` never yields the empty text, so `checkAuth`'s truthiness test lets it through, and `JSON.parse` reads the value back (round trip) |
| `Storage.AfterSet` | context/AppContext.tsx:252-258 | A successful write puts the text under its key and leaves every other key alone. A failed write changes nothing |
| `Storage.AfterRemove` | context/AuthContext.tsx:82 | A successful removal deletes exactly that key. A failed one changes nothing |
| `Storage.ReadOf` | context/AuthContext.tsx:31 | A read returns the stored text if the key is present, "missing" if it is absent, and a failure when the platform read throws |
| `Entities.InitialItems` | context/AppContext.tsx:72-139 | The constant holding the six built-in items, copied field by field (rating in tenths) (same data in StateManagementFile.tsx) |
| `Entities.InitialTransactions` | context/AppContext.tsx:141-175 | The constant holding the three built-in transactions, copied field by field (same data in StateManagementFile.tsx) |
| `Entities.InitialUser` | context/AppContext.tsx:177-188 | The constant holding the built-in profile, copied field by field (rating in tenths) (same data in StateManagementFile.tsx) |
| `Entities.InitialFavorites` | context/AppContext.tsx:194 | The constant holding the initial favourites ["1","4"] (same data in StateManagementFile.tsx) |
| `Entities.InitialDataFacts` | context/AppContext.tsx:72-195 | The built-in data has six items with distinct ids, all available except item "3", and three transactions with distinct ids. The profile has 2450 credits. The favourites ["1","4"] name the first and fourth item |
| `AppStore.InitialWellformed` | context/AppContext.tsx:191-195 | The initial state (built-in items, transactions and profile, favourites ["1","4"], empty history) has no duplicate favourites and a short, duplicate-free history |
| `AppStore.AppProvider.constructor` | context/AppContext.tsx:191-195 | The store mounts with the built-in data and does not touch storage (same code at StateManagementFile.tsx:276-280) |
| `AppStore.AppProvider.SaveToStorage` | context/AppContext.tsx:252-258 | Writes the stringified value under the key. A failed write is swallowed and leaves storage unchanged |
| `AppStore.AppProvider.AddBorrowItem` | context/AppContext.tsx:198-201 | The items become the old items plus the new one at the end. No other cell changes. "borrowItems" receives the new in-memory list (same at StateManagementFile.tsx:282-286) |
| `AppStore.AppProvider.UpdateItemStatus` | context/AppContext.tsx:203-207 | The items become `WithStatus` of the old items. No other cell changes. "borrowItems" receives the new list |
| `AppStore.AppProvider.AddTransaction` | context/AppContext.tsx:210-213 | The transactions become the old ones plus the new one at the end. No other cell changes. "transactions" receives the new list (same at StateManagementFile.tsx:294-298) |
| `AppStore.AppProvider.UpdateUserProfile` | context/AppContext.tsx:216-220 | The profile becomes the merge of the patch. No other cell changes. "userProfile" receives the new profile |
| `AppStore.AppProvider.AddCredits` | context/AppContext.tsx:222-226 | The profile becomes the credited profile, equal to the merge of a credits-only patch. "userProfile" receives it |
| `AppStore.AppProvider.ToggleFavorite` | context/AppContext.tsx:229-235 | The favourites become `Toggled` of the old list, so the id's membership flips. "favoriteItems" receives the new list. The store invariant (no duplicate favourites) is kept |
| `AppStore.AppProvider.AddSearchHistory` | context/AppContext.tsx:238-244 | The history becomes `Pushed` of the old one. A blank query writes nothing. Otherwise the query is first and "searchHistory" receives the new list. The store invariant (at most 10 entries, no duplicates) is kept |
| `AppStore.AppProvider.ClearSearchHistory` | context/AppContext.tsx:246-249 | The history becomes empty, and "searchHistory" receives the empty list (same at StateManagementFile.tsx:328-331) |
| `AppStore.CalculatorScenario` | context/AppContext.tsx:191-207 | After mounting and `updateItemStatus("3", "available")`, item "3" is available with owner "Mike Johnson" and price 15, and the stored "borrowItems" parses back to the list in memory |
| `Session.LoginCheck` | context/AuthContext.tsx:44-46 | Login is refused, with "Email and password are required", exactly when the email or the password is empty (same at StateManagementFile.tsx:45-47) |
| `Session.RegisterCheck` | context/AuthContext.tsx:61-67 | Registration is refused with "All fields are required" exactly when a field is empty. Otherwise it is refused with "Password must be at least 6 characters" exactly when the password is shorter than 6. It is accepted exactly when all fields are non-empty and the password has at least 6 characters. Emptiness is checked first (same at StateManagementFile.tsx:61-67) |
| `Session.MockUser` | context/AuthContext.tsx:48-53 | The login user has id "user_123", the given email, course "Computer Science", and as name the text of the email before its first '@' (all of it when there is none) |
| `Session.RegisteredId` | context/AuthContext.tsx:70 | A registered id is "user_" followed by decimal digits that read back as the clock reading |
| `Session.RegisteredIdsDistinct` | context/AuthContext.tsx:70 | Registrations at different clock readings get different ids |
| `Session.NewUser` | context/AuthContext.tsx:69-74 | The registered user carries the given email, name and course and the id from the clock |
| `Session.Restored` | context/AuthContext.tsx:31-37 | Only a present, non-empty text that parses changes the user: a stored user is restored, and a stored JSON `null` clears the user. An absent key, an empty text, a failed read or a failed parse leave the user unchanged, not reset |
| `Session.RestoredStored` | context/AuthContext.tsx:56 | A user written under "currentUser" is restored as that same user |
| `Session.AuthProvider.constructor` | context/AuthContext.tsx:25-26 | The session store starts with no user and loading set (same at StateManagementFile.tsx:28-29) |
| `Session.AuthProvider.CheckAuth` | context/AuthContext.tsx:29-40 | The user becomes `Restored` of the old user and what the read of "currentUser" returns. Loading ends on every path (same at StateManagementFile.tsx:31-42) |
| `Session.AuthProvider.Login` | context/AuthContext.tsx:42-57 | With an empty field: refused, with user, loading and storage unchanged. Otherwise: the user becomes the login user, which is also written under "currentUser". A failed write is reported after the user has been set (same at StateManagementFile.tsx:44-58) |
| `Session.AuthProvider.Register` | context/AuthContext.tsx:59-78 | Invalid arguments: refused with the first failing check, and nothing changes. Otherwise: the user becomes the new user, which is also written under "currentUser". A failed write is reported after the user has been set (same at StateManagementFile.tsx:60-78) |
| `Session.AuthProvider.Logout` | context/AuthContext.tsx:80-83 | The user becomes none and "currentUser" is removed. No other key changes, so the app store's data stays (same at StateManagementFile.tsx:80-83) |
| `Session.LogoutThenCheckAuth` | context/AuthContext.tsx:29-40 | After a successful logout, `checkAuth` leaves the user none and loading ended |
| `Session.LoginSurvivesRestart` | context/AuthContext.tsx:29-57 | After a successful login, a session store mounted again over the same storage restores the same user |
| `Session.SampleChecks` | context/AuthContext.tsx:44-67 | A 5-character password is refused and a 10-character one is accepted at registration. An empty email is refused at login, and "x@y.com" logs in with name "x" |
| `Screens.StatusColor` | screens/TransactionsScreen.tsx:65-78 | The colour is "#999" exactly when the status is none of active, completed, pending or overdue |
| `Screens.StatusIcon` | screens/TransactionsScreen.tsx:80-93 | The icon is "•" exactly when the status is none of the four known ones |
| `Screens.StatusBadgesDistinct` | screens/TransactionsScreen.tsx:65-93 | Different known statuses get different colours and different icons |
| `Screens.TransactionStatusesKnown` | screens/TransactionsScreen.tsx:65-93 | Every status a transaction can carry gets a non-default colour and icon |
| `Screens.FilterByStatus` | screens/TransactionsScreen.tsx:99-100 | "all" shows the list unchanged. Any other choice shows exactly the transactions with that status name, in source order |
| `Screens.FilterByStatusCounts` | screens/TransactionsScreen.tsx:99-100 | Every copy of a transaction is shown when the choice is "all" or its status matches, and none otherwise. Repeated equal transactions are therefore all shown |
| `Screens.FilterByStatusIdempotent` | screens/TransactionsScreen.tsx:99-100 | Filtering the result again by the same status changes nothing |
| `Screens.MatchesSearch` | screens/HomeScreen.tsx:70-72 | Empty search text with "All" matches every card. A match needs search text no longer than the title. The same predicate is applied at BorrowScreen.tsx:65-67 |
| `Screens.SearchIgnoresCase` | screens/HomeScreen.tsx:70 | Lowercasing the search text or the title beforehand does not change whether a card matches |
| `Screens.HomeFiltered` | screens/HomeScreen.tsx:69-73 | A card is kept exactly when its lowercased title contains the lowercased search text and the category is "All" or equals the card's. The result keeps source order. With a category other than "All", every kept card has that category |
| `Screens.HomeFilteredCounts` | screens/HomeScreen.tsx:69-73 | Every copy of a matching card is kept, and no copy of any other |
| `Screens.HomeFilteredKeepsAll` | screens/HomeScreen.tsx:69-73 | Empty search text with "All" keeps every card |
| `Screens.HomeFilteredIdempotent` | screens/HomeScreen.tsx:69-73 | Filtering the result again with the same inputs changes nothing |
| `Screens.BorrowFiltered` | screens/BorrowScreen.tsx:64-68 | Same rule as the home screen, over the borrow screen's listings: kept exactly when the title matches and the category is "All" or equal, in source order |
| `Screens.BorrowFilteredCounts` | screens/BorrowScreen.tsx:64-68 | Every copy of a matching listing is kept, and no copy of any other |
| `Screens.BorrowFilteredKeepsAll` | screens/BorrowScreen.tsx:64-68 | Empty search text with "All" keeps every listing |
| `Screens.BorrowFilteredIdempotent` | screens/BorrowScreen.tsx:64-68 | Filtering the result again with the same inputs changes nothing |
| `Screens.ScreensFilterAlike` | screens/BorrowScreen.tsx:64-68 | Two lists with the same titles and categories position by position filter to results with the same length and the same titles and categories position by position: both screens apply one rule |

## Left out

- Asynchrony. Storage writes are fire-and-forget promises in the app store and awaited in the session store. Both are modelled as synchronous map updates, so the order in which concurrent writes finish is not modelled.
- Storage error logging (`console.log`). A failed write is modelled only as "storage unchanged".
- JSON syntax. A stored text is either `Json(value)`, which is what `JSON.stringify` produced, or `Malformed(raw)`.
- `Session.Restored`: if "currentUser" held valid JSON of some other shape, a number or an item list say, `checkAuth` would put that value into `user`. The model cannot represent a non-user value there, so it leaves the user unchanged in that case. Only `login` and `register` ever write that key.
- A load-on-start path for the app store. The code never reads storage. It always starts from the built-in constants.
- React's render closures. Two mutator calls within one render both read the same state snapshot, so the first update is lost. The model treats each call as seeing the latest state.
- Floating point. Prices, credits and counters are integers. Ratings are stored as tenths of a star and never computed on.
- `Updates.Merged`: a patch is an `Option` per field, so a key explicitly set to `undefined` is treated like an absent key and the old value is kept. The object spread in `updateUserProfile` would instead overwrite the field with `undefined`. No caller passes such a key.
- `Strings.Lower`: lowercases only the ASCII letters; full Unicode case mapping is not modelled.
- `Session.RegisterCheck`: counts the password's length in Unicode code points, not UTF-16 code units as JavaScript's `.length` does.
- The `useAuth` and `useAppContext` hooks that throw outside a provider, and all rendering, styles and navigation.
- The camera, barcode, GPS, item-details, onboarding, profile, login, register and lend screens, and the mock data tables. They are presentation around the stores, hardware-bound, or floating-point input parsing.
- The transactions screen's own mock list. The filter is modelled over any list of transactions.
