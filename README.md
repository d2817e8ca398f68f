# Offline-first user list: the data layer's cache policy, in Dafny

This project models the data layer of a React Native app that lists users from a remote
service and shows one user's details. The model covers:

- **The user repository** (`UserRepositoryImpl`). `getUsers` and `getUserById` check
  connectivity first.
  - Online, they read the remote service, and `getUsers` overwrites the cached list.
  - When the remote read (or the cache write) fails, they fall back to the cached list.
  - Offline, they read the cache only.
- **The connectivity helper** (`NetworkInfo`). It gives the two-flag reachability test and
  a dispatcher that runs exactly one of an online and an offline callback.
- **The local data source.** It stores the whole user list as one JSON string under the
  key `userList` of the platform's key-value store (AsyncStorage).
- **Three pure helpers of the home screen.** These are the search filter, the avatar
  initials and the avatar colour.

Modules (`Wrappers` and `Errors` have no source file of their own; each other module follows one source file):

- `Wrappers` holds Option, Result and Outcome.
- `UserEntity` holds the `User` record (app/feature/domain/entity/User.ts).
- `Errors` holds the error kinds a promise of the data layer rejects with.
- `NetworkInfo`, `UserLocalDataSource` and `UserRepository` model the data layer.
- `HomeScreen` models the helpers of `app/index.tsx`.

The platform's answers are parameters of the operations:

- the connectivity state (`NetInfoState`);
- what a remote fetch settles to (`Result`);
- whether a cache write is rejected (`Option<Error>`).

The key-value store is the class `AsyncStorage`, whose `items` map the methods update.
Each repository operation is a method on `UserRepositoryImpl`. Its `ensures` equates its
result and the new store with a specification function: `GetUsersStep` or
`GetUserByIdResult`. Those functions are written with `ExecuteWithConnectivityCheck`, as
the source is, and the lemmas state the policy's properties about them.

Two behaviours of the code are worth knowing:

- **A stored value that is not JSON.** `JSON.parse` (app/feature/data/datasource/UserLocalDataSource.ts:13)
  is unguarded, so `loadUsers` rejects rather than returning null. Inside the repository's
  catch blocks that rejection replaces the original error (`CorruptCacheRejects`, `UserByIdCorruptCacheRejects`).
- **The error on an empty fallback.** The online branch re-throws the caught error
  (app/feature/data/repository/UserRepositoryImpl.ts:25), while the offline branch throws its
  own error (:35). Because `saveUsers` sits inside the same `try` as the fetch (:14), the
  caught error is the cache write's error when the fetch succeeded but the write failed.

## Model

| member | source | states |
|---|---|---|
| `NetworkInfo.IsConnected` | app/core/network/NetworkInfo.ts:11-14 | online exactly when `isConnected` and `isInternetReachable` are both `true`; a null or undefined flag gives offline |
| `NetworkInfo.ExecuteWithConnectivityCheck` | app/core/network/NetworkInfo.ts:39-45 | connectivity is queried first; the online callback runs iff connected and the offline one otherwise; the result is the result of the callback that ran |
| `NetworkInfo.ExactlyOneCallbackRuns` | app/core/network/NetworkInfo.ts:43-44 | one dispatch queries connectivity exactly once, as its first event, and runs exactly one callback |
| `UserLocalDataSource.Load` | app/feature/data/datasource/UserLocalDataSource.ts:10-16 | loading gives null when the key is missing or holds the empty string, gives back the stringified list, and rejects with JSON.parse's error exactly when the stored text is non-empty and not a stringified list |
| `UserLocalDataSource.SaveUsers` | app/feature/data/datasource/UserLocalDataSource.ts:6-8 | a write that is not rejected replaces the value under `userList` with the stringified list and leaves the other keys alone; a rejected write changes nothing and the rejection is returned |
| `UserLocalDataSource.LoadUsers` | app/feature/data/datasource/UserLocalDataSource.ts:10-16 | reads the store without changing it (no `modifies`) and settles to `Load` of its contents |
| `UserLocalDataSource.LoadAfterSave` | app/feature/data/datasource/UserLocalDataSource.ts:6-16 | after a save, loading gives back exactly the saved list; an empty list loads as `[]`, not null |
| `UserLocalDataSource.LastSaveWins` | app/feature/data/datasource/UserLocalDataSource.ts:6-8 | after two saves only the second list loads |
| `UserLocalDataSource.OtherKeysIgnored` | app/feature/data/datasource/UserLocalDataSource.ts:4-16 | writes under keys other than `userList` do not change what loads |
| `UserRepository.FindById` | app/feature/data/repository/UserRepositoryImpl.ts:51 | the result is a user of the list with the requested id, at an index before which no user has that id; there is no result iff no user has that id |
| `UserRepository.UserRepositoryImpl.GetUsers` | app/feature/data/repository/UserRepositoryImpl.ts:8-38 | the result and the store afterwards are those of `GetUsersStep` on the store before the call |
| `UserRepository.UserRepositoryImpl.GetUserById` | app/feature/data/repository/UserRepositoryImpl.ts:40-69 | it never writes the store (no `modifies`), and its result is that of `GetUserByIdResult` on the store |
| `UserRepository.OnlineSuccessRefreshesCache` | app/feature/data/repository/UserRepositoryImpl.ts:12-15 | online, with a successful fetch and write, the result is exactly the fetched list and the cache afterwards loads as that list, even when it is empty |
| `UserRepository.OnlineFailureServesCache` | app/feature/data/repository/UserRepositoryImpl.ts:16-24 | online, when the fetch or the cache write fails and the cache holds a non-empty list, that list is returned and the store is unchanged |
| `UserRepository.OnlineFailureRethrows` | app/feature/data/repository/UserRepositoryImpl.ts:21-25 | online, when the fetch or write fails and the cache is null or empty, the call fails with the caught error itself: the fetch error, or the write error after a successful fetch |
| `UserRepository.OfflineServesCache` | app/feature/data/repository/UserRepositoryImpl.ts:29-34 | offline with a non-empty cache, the cached list is returned and the store is unchanged |
| `UserRepository.OfflineNoCacheFails` | app/feature/data/repository/UserRepositoryImpl.ts:31-35 | offline with a null or empty cache, the call fails with the no-connection-no-cache error |
| `UserRepository.OfflineIgnoresRemote` | app/feature/data/repository/UserRepositoryImpl.ts:29-36 | offline, the outcome does not depend on the remote fetch or the write, which are never invoked |
| `UserRepository.CorruptCacheRejects` | app/feature/data/repository/UserRepositoryImpl.ts:16-35 | on every fallback path, a stored value that is not JSON makes the call reject with JSON.parse's error, and the store is unchanged |
| `UserRepository.OnlyOnlineSuccessWrites` | app/feature/data/repository/UserRepositoryImpl.ts:9-37 | the store changes exactly on the online path where both the fetch and the write succeed, and then only `userList` is set to the fetched list |
| `UserRepository.OnlineFetchesConverge` | app/feature/data/repository/UserRepositoryImpl.ts:13-14 | after any run of successful online calls the cache loads as the latest fetched snapshot, whatever it held before |
| `UserRepository.UserByIdOnlineSuccess` | app/feature/data/repository/UserRepositoryImpl.ts:44-45 | online with a successful fetch, the fetched user is returned unchanged |
| `UserRepository.UserByIdFallbackFromCache` | app/feature/data/repository/UserRepositoryImpl.ts:46-66 | on a fallback path (offline, or online after a failed fetch), a returned user is the first cached user with the requested id |
| `UserRepository.UserByIdFallbackFindsCached` | app/feature/data/repository/UserRepositoryImpl.ts:46-66 | on a fallback path (offline, or online after a failed fetch), when the cache holds a user with the requested id, the first such user is returned |
| `UserRepository.UserByIdCorruptCacheRejects` | app/feature/data/repository/UserRepositoryImpl.ts:46-66 | on a fallback path, a stored value that is not JSON makes `getUserById` reject with JSON.parse's error |
| `UserRepository.UserByIdNotCached` | app/feature/data/repository/UserRepositoryImpl.ts:50-66 | on a fallback path with no cached user of that id, the online path re-throws the fetch error and the offline path fails with the id-specific not-found error |
| `HomeScreen.Lower` | app/index.tsx:24-25 | lower-casing keeps the length, keeps every character up to case, and leaves no upper-case ASCII letter |
| `HomeScreen.Upper` | app/index.tsx:73 | upper-casing keeps the length, keeps every character up to case, and leaves no lower-case ASCII letter |
| `HomeScreen.IncludesIffOccurs` | app/index.tsx:24-25 | `includes` holds exactly when the query occurs at some position of the string |
| `HomeScreen.FilterUsers` | app/index.tsx:23-26 | the filtered list is an order-preserving sub-list of the users; a user is in it iff their lower-cased name or e-mail contains the lower-cased query, and as many times as in the input |
| `HomeScreen.EmptyQueryKeepsAll` | app/index.tsx:23-26 | an empty query keeps every user, in order |
| `HomeScreen.Split` | app/index.tsx:70 | splitting on a space gives at least one piece, and no piece contains a space |
| `HomeScreen.SplitJoin` | app/index.tsx:70 | joining the pieces with single spaces restores the name, so the empty pieces of repeated spaces are kept |
| `HomeScreen.HeadsOfSplit` | app/index.tsx:70-72 | the first characters of the pieces are exactly the characters that start a word, in order; empty pieces contribute nothing |
| `HomeScreen.GetInitials` | app/index.tsx:68-75 | the result has at most two characters, none a lower-case ASCII letter, and they are the upper-cased first word starts of the name, in order |
| `HomeScreen.JsRemainder` | app/index.tsx:82 | JavaScript's `%`: strictly between minus and plus the divisor; Euclidean for a non-negative dividend, never positive for a negative one |
| `HomeScreen.GetRandomColor` | app/index.tsx:77-83 | a defined result is one of the six classes; a non-negative id gets `colors[id % 6]`; a negative multiple of 6 reads `colors[0]` (the index is -0), and any other negative id reads undefined |
| `HomeScreen.SameResidueSameColor` | app/index.tsx:82 | non-negative ids that agree modulo 6 get the same class |

## Left out

- Platform I/O (`NetInfo.fetch`, axios, AsyncStorage) is replaced by inputs and by the `items` map. A rejection of `NetInfo.fetch` or of `AsyncStorage.getItem` is not modelled; a rejected `setItem` is (`writeFailure`).
- `getNetworkState` and `addNetworkChangeListener` (app/core/network/NetworkInfo.ts:20-31) are thin platform wrappers with no logic.
- The remote data source (app/feature/data/datasource/UserRemoteDataSource.ts) is an HTTP client; only what its fetches settle to enters the model.
- The use cases and the repository interface only delegate; they add no behaviour.
- JSON is abstract. `StoredText` distinguishes the text JSON.stringify made from a user list from any other text. Other valid JSON (such as `"null"` or an object) is treated as text JSON.parse rejects. The loss of fields that JSON cannot carry is not modelled.
- Concurrency: the source's asynchronous calls may interleave, with last-writer-wins on the shared key. The model treats each call as atomic.
- `console.log` calls are dropped.
- Rendering, routing, `useQuery`, `useState` and styling in app/index.tsx, app/_layout.tsx and the components are not modelled.
- `HomeScreen.Lower`, `HomeScreen.Upper`: the case mapping covers ASCII letters only. Other characters are left unchanged, and UTF-16 code units are taken to be characters.
- `HomeScreen.GetRandomColor`: ids are integers. A fractional JavaScript number is not modelled.
- `HomeScreen.FilterUsers`: `users` is a list. The case where the query has not yet produced data (`users` undefined) is left to the screen.
- `HomeScreen.JsRemainder`: its contract does not pin the value of a negative dividend's remainder. `GetRandomColor` states what follows from it for the six colours.
