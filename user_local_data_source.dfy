/**
 * The local cache: the whole user list, serialised, under one fixed key of
 * the platform's persistent key-value store.
 */
module UserLocalDataSource {
  import opened Wrappers
  import opened UserEntity
  import opened Errors

  const UserListKey: string := "userList"

  /**
   * A string held by the key-value store, as far as `loadUsers` can tell it
   * apart: the JSON text of a user list, or any other text (which JSON.parse
   * rejects, unless it is empty). `OtherText` never holds the JSON text of a
   * user list, so `OtherText("[]")` does not stand for a possible store state:
   * that text is `UsersJson([])`.
   */
  datatype StoredText = UsersJson(users: seq<User>) | OtherText(text: string)

  /** JSON.stringify of a user list; even the empty list gives the non-empty text "[]". */
  function Stringify(users: seq<User>): StoredText
  {
    UsersJson(users)
  }

  /** JavaScript truthiness of a string: only the empty string is falsy. */
  predicate Truthy(text: StoredText)
  {
    match text
    case UsersJson(_) => true
    case OtherText(s) => s != ""
  }

  /** JSON.parse: gives back the list that was stringified and throws on any other text. */
  function Parse(text: StoredText): Result<seq<User>, Error>
  {
    match text
    case UsersJson(users) => Success(users)
    case OtherText(_) => Failure(ParseError)
  }

  /** The platform's key-value store (AsyncStorage): persisted strings by key. */
  class AsyncStorage {
    var items: map<string, StoredText>

    constructor ()
      ensures items == map[]
    {
      items := map[];
    }
  }

  /**
   * What `loadUsers` settles to for the store's contents: the saved list,
   * `Success(None)` (null) when nothing or an empty string is stored, and a
   * rejection when the stored text is not JSON.
   */
  function Load(items: map<string, StoredText>): (r: Result<Option<seq<User>>, Error>)
    ensures UserListKey !in items ==> r == Success(None)
    ensures r.Failure? ==> r.error == ParseError
    ensures r == Success(None) <==> UserListKey !in items || items[UserListKey] == OtherText("")
    ensures r.Failure? <==> UserListKey in items && items[UserListKey].OtherText? && items[UserListKey].text != ""
    ensures UserListKey in items && items[UserListKey].UsersJson? ==> r == Success(Some(items[UserListKey].users))
  {
    if UserListKey in items && Truthy(items[UserListKey]) then
      match Parse(items[UserListKey])
      case Success(users) => Success(Some(users))
      case Failure(e) => Failure(e)
    else
      Success(None)
  }

  /**
   * Replaces the stored list wholesale. `writeFailure` is the rejection the
   * store reports for this write, if any; a rejected write changes nothing.
   */
  method SaveUsers(storage: AsyncStorage, users: seq<User>, writeFailure: Option<Error>) returns (r: Outcome<Error>)
    modifies storage
    ensures r == if writeFailure.Some? then Fail(writeFailure.value) else Pass
    ensures storage.items == if r.Pass? then old(storage.items)[UserListKey := Stringify(users)] else old(storage.items)
  {
    if writeFailure.Some? {
      return Fail(writeFailure.value);
    }
    storage.items := storage.items[UserListKey := Stringify(users)];
    r := Pass;
  }

  /** Reads the stored list without changing the store. */
  method LoadUsers(storage: AsyncStorage) returns (r: Result<Option<seq<User>>, Error>)
    ensures r == Load(storage.items)
  {
    var usersJson: Option<StoredText> := if UserListKey in storage.items then Some(storage.items[UserListKey]) else None;
    if usersJson.Some? && Truthy(usersJson.value) {
      var parsed := Parse(usersJson.value);
      r := match parsed
        case Success(users) => Success(Some(users))
        case Failure(e) => Failure(e);
    } else {
      r := Success(None);
    }
  }

  /** A saved list loads back unchanged, the empty list included (as `[]`, not null). */
  lemma LoadAfterSave(items: map<string, StoredText>, users: seq<User>)
    ensures Load(items[UserListKey := Stringify(users)]) == Success(Some(users))
    ensures Load(items[UserListKey := Stringify(users)]) != Success(None)
  {
  }

  /** A save replaces the whole stored value: after two saves only the second list loads. */
  lemma LastSaveWins(items: map<string, StoredText>, first: seq<User>, second: seq<User>)
    ensures Load(items[UserListKey := Stringify(first)][UserListKey := Stringify(second)]) == Success(Some(second))
  {
  }

  /** Only the list's key matters to `loadUsers`: writes under other keys leave its answer alone. */
  lemma OtherKeysIgnored(items: map<string, StoredText>, key: string, text: StoredText)
    requires key != UserListKey
    ensures Load(items[key := text]) == Load(items)
  {
  }
}
