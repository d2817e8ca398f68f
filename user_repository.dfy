/**
 * The repository: a connectivity-gated read-through cache. Online, it reads
 * the remote service and refreshes the cache; when the remote read fails or
 * the device is offline, it falls back to the cached list.
 */
module UserRepository {
  import opened Wrappers
  import opened UserEntity
  import opened Errors
  import opened NetworkInfo
  import opened UserLocalDataSource

  /** The first user in `users` whose id is `id` (Array.prototype.find). */
  function FindById(users: seq<User>, id: int): (r: Option<User>)
    ensures r.Some? ==> exists k :: 0 <= k < |users| && users[k] == r.value && r.value.id == id
                                    && forall j :: 0 <= j < k ==> users[j].id != id
    ensures r.None? <==> forall u :: u in users ==> u.id != id
  {
    if |users| == 0 then None
    else if users[0].id == id then Some(users[0])
    else FindById(users[1..], id)
  }

  /** A settled call of `getUsers`: its result and the store's contents afterwards. */
  datatype Step = Step(result: Result<seq<User>, Error>, items: map<string, StoredText>)

  /**
   * The list fallback: serve the cached list when `loadUsers` yields a
   * non-empty one, propagate a rejection of `loadUsers`, and otherwise fail
   * with `otherwise`.
   */
  function ListFallback(cached: Result<Option<seq<User>>, Error>, otherwise: Error): Result<seq<User>, Error>
  {
    match cached
    case Failure(e) => Failure(e)
    case Success(None) => Failure(otherwise)
    case Success(Some(users)) => if |users| > 0 then Success(users) else Failure(otherwise)
  }

  /**
   * The online callback of `getUsers`. Fetching and saving sit in one try
   * block, so a failed fetch and a failed cache write both reach the catch,
   * which re-throws the caught error when the cache cannot stand in.
   */
  function OnlineGetUsers(fetched: Result<seq<User>, Error>, writeFailure: Option<Error>, items: map<string, StoredText>): Step
  {
    match fetched
    case Success(users) =>
      if writeFailure.None? then Step(Success(users), items[UserListKey := Stringify(users)])
      else Step(ListFallback(Load(items), writeFailure.value), items)
    case Failure(e) => Step(ListFallback(Load(items), e), items)
  }

  /** The offline callback of `getUsers`: the cache or a dedicated error. */
  function OfflineGetUsers(items: map<string, StoredText>): Step
  {
    Step(ListFallback(Load(items), NoConnectionNoCache), items)
  }

  /**
   * One call of `getUsers` when the connectivity check sees `net`, the
   * remote list fetch settles to `fetched` and the cache write, if attempted,
   * is rejected with `writeFailure`.
   */
  function GetUsersStep(net: NetInfoState, fetched: Result<seq<User>, Error>, writeFailure: Option<Error>,
                        items: map<string, StoredText>): Step
  {
    ExecuteWithConnectivityCheck(net,
      () => OnlineGetUsers(fetched, writeFailure, items),
      () => OfflineGetUsers(items)).value
  }

  /**
   * The user fallback: the first cached user with this id, a rejection of
   * `loadUsers` propagated, and otherwise a failure with `otherwise`.
   */
  function UserFallback(cached: Result<Option<seq<User>>, Error>, id: int, otherwise: Error): Result<User, Error>
  {
    match cached
    case Failure(e) => Failure(e)
    case Success(None) => Failure(otherwise)
    case Success(Some(users)) =>
      match FindById(users, id)
      case Some(user) => Success(user)
      case None => Failure(otherwise)
  }

  /** The online callback of `getUserById`: the fetched user, or the cached one with the original error as last resort. */
  function OnlineGetUserById(id: int, fetched: Result<User, Error>, items: map<string, StoredText>): Result<User, Error>
  {
    match fetched
    case Success(user) => Success(user)
    case Failure(e) => UserFallback(Load(items), id, e)
  }

  /** One call of `getUserById(id)`; it reads the store and never writes it. */
  function GetUserByIdResult(net: NetInfoState, id: int, fetched: Result<User, Error>,
                             items: map<string, StoredText>): Result<User, Error>
  {
    ExecuteWithConnectivityCheck(net,
      () => OnlineGetUserById(id, fetched, items),
      () => UserFallback(Load(items), id, NoConnectionUserNotFound(id))).value
  }

  class UserRepositoryImpl {
    /** The persistent store that the local data source reads and writes. */
    const storage: AsyncStorage

    constructor (storage: AsyncStorage)
      ensures this.storage == storage
    {
      this.storage := storage;
    }

    /**
     * `getUsers`: `net` is what the connectivity check sees, `fetched` what
     * the remote list fetch settles to, `writeFailure` the rejection of the
     * cache write, if any.
     */
    method GetUsers(net: NetInfoState, fetched: Result<seq<User>, Error>, writeFailure: Option<Error>)
      returns (r: Result<seq<User>, Error>)
      modifies storage
      ensures Step(r, storage.items) == GetUsersStep(net, fetched, writeFailure, old(storage.items))
    {
      var connected := IsConnected(net);
      if connected {
        var caught: Error;
        match fetched {
          case Success(users) =>
            var saved := SaveUsers(storage, users, writeFailure);
            if saved.Pass? {
              return Success(users);
            }
            caught := saved.error;
          case Failure(e) =>
            caught := e;
        }
        var localUsers := LoadUsers(storage);
        r := ListFallback(localUsers, caught);
      } else {
        var localUsers := LoadUsers(storage);
        r := ListFallback(localUsers, NoConnectionNoCache);
      }
    }

    /** `getUserById(id)`: `fetched` is what the remote single-user fetch settles to. */
    method GetUserById(id: int, net: NetInfoState, fetched: Result<User, Error>) returns (r: Result<User, Error>)
      ensures r == GetUserByIdResult(net, id, fetched, storage.items)
    {
      var connected := IsConnected(net);
      if connected && fetched.Success? {
        return Success(fetched.value);
      }
      var localUsers := LoadUsers(storage);
      r := UserFallback(localUsers, id, if connected then fetched.error else NoConnectionUserNotFound(id));
    }
  }

  // ---------------------------------------------------------------------------
  // getUsers

  /** Online with a successful fetch and write: the fetched list is returned and becomes the cache, even when empty. */
  lemma OnlineSuccessRefreshesCache(net: NetInfoState, users: seq<User>, items: map<string, StoredText>)
    requires IsConnected(net)
    ensures GetUsersStep(net, Success(users), None, items) == Step(Success(users), items[UserListKey := Stringify(users)])
    ensures Load(GetUsersStep(net, Success(users), None, items).items) == Success(Some(users))
  {
    LoadAfterSave(items, users);
  }

  /** Online, a failed fetch or cache write with a non-empty cache: the cached list, cache unchanged. */
  lemma OnlineFailureServesCache(net: NetInfoState, fetched: Result<seq<User>, Error>, writeFailure: Option<Error>,
                                 items: map<string, StoredText>, cached: seq<User>)
    requires IsConnected(net)
    requires fetched.Failure? || writeFailure.Some?
    requires Load(items) == Success(Some(cached)) && |cached| > 0
    ensures GetUsersStep(net, fetched, writeFailure, items) == Step(Success(cached), items)
  {
  }

  /** Online, a failure and no usable cache: the caught error itself is re-thrown. */
  lemma OnlineFailureRethrows(net: NetInfoState, fetched: Result<seq<User>, Error>, writeFailure: Option<Error>,
                              items: map<string, StoredText>)
    requires IsConnected(net)
    requires fetched.Failure? || writeFailure.Some?
    requires Load(items) == Success(None) || Load(items) == Success(Some([]))
    ensures fetched.Failure? ==> GetUsersStep(net, fetched, writeFailure, items) == Step(Failure(fetched.error), items)
    ensures fetched.Success? ==> GetUsersStep(net, fetched, writeFailure, items) == Step(Failure(writeFailure.value), items)
  {
  }

  /** Offline with a non-empty cache: the cached list, cache unchanged. */
  lemma OfflineServesCache(net: NetInfoState, fetched: Result<seq<User>, Error>, writeFailure: Option<Error>,
                           items: map<string, StoredText>, cached: seq<User>)
    requires !IsConnected(net)
    requires Load(items) == Success(Some(cached)) && |cached| > 0
    ensures GetUsersStep(net, fetched, writeFailure, items) == Step(Success(cached), items)
  {
  }

  /** Offline with no usable cache: the dedicated no-connection error. */
  lemma OfflineNoCacheFails(net: NetInfoState, fetched: Result<seq<User>, Error>, writeFailure: Option<Error>,
                            items: map<string, StoredText>)
    requires !IsConnected(net)
    requires Load(items) == Success(None) || Load(items) == Success(Some([]))
    ensures GetUsersStep(net, fetched, writeFailure, items) == Step(Failure(NoConnectionNoCache), items)
  {
  }

  /** Offline, the remote source is never consulted: the outcome of a fetch or write cannot matter. */
  lemma OfflineIgnoresRemote(net: NetInfoState, fetched: Result<seq<User>, Error>, writeFailure: Option<Error>,
                             fetched': Result<seq<User>, Error>, writeFailure': Option<Error>,
                             items: map<string, StoredText>)
    requires !IsConnected(net)
    ensures GetUsersStep(net, fetched, writeFailure, items) == GetUsersStep(net, fetched', writeFailure', items)
  {
  }

  /** A stored text that is not JSON makes every fallback reject with JSON.parse's error. */
  lemma CorruptCacheRejects(net: NetInfoState, fetched: Result<seq<User>, Error>, writeFailure: Option<Error>,
                            items: map<string, StoredText>)
    requires Load(items).Failure?
    requires !IsConnected(net) || fetched.Failure? || writeFailure.Some?
    ensures GetUsersStep(net, fetched, writeFailure, items) == Step(Failure(ParseError), items)
  {
  }

  /** The cache is written exactly on the online path whose fetch and write both succeed. */
  lemma OnlyOnlineSuccessWrites(net: NetInfoState, fetched: Result<seq<User>, Error>, writeFailure: Option<Error>,
                                items: map<string, StoredText>)
    ensures GetUsersStep(net, fetched, writeFailure, items).items ==
      if IsConnected(net) && fetched.Success? && writeFailure.None?
      then items[UserListKey := Stringify(fetched.value)]
      else items
  {
  }

  /** The store after a run of online `getUsers` calls whose fetches return `snapshots` in order. */
  function AfterOnlineFetches(net: NetInfoState, snapshots: seq<seq<User>>, items: map<string, StoredText>): map<string, StoredText>
    decreases |snapshots|
  {
    if |snapshots| == 0 then items
    else AfterOnlineFetches(net, snapshots[1..], GetUsersStep(net, Success(snapshots[0]), None, items).items)
  }

  /** Repeated successful online calls leave the latest remote snapshot in the cache, whatever it held before. */
  lemma {:induction false} OnlineFetchesConverge(net: NetInfoState, snapshots: seq<seq<User>>, items: map<string, StoredText>)
    requires IsConnected(net) && |snapshots| > 0
    ensures Load(AfterOnlineFetches(net, snapshots, items)) == Success(Some(snapshots[|snapshots| - 1]))
    decreases |snapshots|
  {
    var next := GetUsersStep(net, Success(snapshots[0]), None, items).items;
    if |snapshots| == 1 {
      OnlineSuccessRefreshesCache(net, snapshots[0], items);
    } else {
      OnlineFetchesConverge(net, snapshots[1..], next);
    }
  }

  // ---------------------------------------------------------------------------
  // getUserById

  /** Online with a successful fetch: the fetched user, unchanged. */
  lemma UserByIdOnlineSuccess(net: NetInfoState, id: int, user: User, items: map<string, StoredText>)
    requires IsConnected(net)
    ensures GetUserByIdResult(net, id, Success(user), items) == Success(user)
  {
  }

  /** On a fallback path, a user returned is the first cached user carrying the requested id. */
  lemma UserByIdFallbackFromCache(net: NetInfoState, id: int, fetched: Result<User, Error>, items: map<string, StoredText>)
    requires !IsConnected(net) || fetched.Failure?
    requires GetUserByIdResult(net, id, fetched, items).Success?
    ensures Load(items).Success? && Load(items).value.Some?
    ensures var user := GetUserByIdResult(net, id, fetched, items).value;
      FindById(Load(items).value.value, id) == Some(user) && user in Load(items).value.value && user.id == id
  {
  }

  /** On a fallback path, when the cache holds a user with the requested id, the first such user is returned. */
  lemma UserByIdFallbackFindsCached(net: NetInfoState, id: int, fetched: Result<User, Error>,
                                    items: map<string, StoredText>, cached: seq<User>)
    requires !IsConnected(net) || fetched.Failure?
    requires Load(items) == Success(Some(cached)) && exists u :: u in cached && u.id == id
    ensures FindById(cached, id).Some?
    ensures GetUserByIdResult(net, id, fetched, items) == Success(FindById(cached, id).value)
  {
  }

  /** On a fallback path, a stored value that is not JSON makes `getUserById` reject with JSON.parse's error. */
  lemma UserByIdCorruptCacheRejects(net: NetInfoState, id: int, fetched: Result<User, Error>, items: map<string, StoredText>)
    requires !IsConnected(net) || fetched.Failure?
    requires Load(items).Failure?
    ensures GetUserByIdResult(net, id, fetched, items) == Failure(ParseError)
  {
  }

  /** On a fallback path without a cached match: online re-throws the fetch error, offline fails with the id-specific error. */
  lemma UserByIdNotCached(net: NetInfoState, id: int, fetched: Result<User, Error>, items: map<string, StoredText>)
    requires !IsConnected(net) || fetched.Failure?
    requires Load(items).Success?
    requires Load(items).value.Some? ==> forall u :: u in Load(items).value.value ==> u.id != id
    ensures GetUserByIdResult(net, id, fetched, items) ==
      Failure(if IsConnected(net) then fetched.error else NoConnectionUserNotFound(id))
  {
  }
}
