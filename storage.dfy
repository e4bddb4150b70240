/**
 * The device's string-keyed store (AsyncStorage), shared by the session
 * store and the app store.
 *
 * Writes are modelled as synchronous: a write that fails leaves the store
 * as it was. JSON syntax is abstracted: a stored text is either the
 * serialisation of a value the app writes, or a text that does not parse.
 */
module Storage {
  import opened Wrappers
  import opened Entities

  /** The values the app serialises under its keys. */
  datatype Value =
    | ItemList(items: seq<Item>)
    | TransactionList(transactions: seq<Transaction>)
    | Profile(profile: UserProfile)
    | StringList(strings: seq<string>)
    | User(user: AuthUser)
    | Null

  /**
   * The text under a key. `Json(v)` is what `JSON.stringify(v)` returns (never
   * the empty string); `Malformed(raw)` is any other text, `""` included.
   */
  datatype Blob = Json(value: Value) | Malformed(raw: string)

  /** `JSON.stringify`: never the empty text, and `JSON.parse` reads the value back. */
  function Stringify(v: Value): (b: Blob)
    ensures !IsEmptyText(b)
    ensures Parse(b) == Some(v)
  {
    Json(v)
  }

  /** `JSON.parse`, which fails (throws) on text that is not JSON. */
  function Parse(b: Blob): (r: Option<Value>)
    ensures r.Some? <==> b.Json?
  {
    match b
    case Json(v) => Some(v)
    case Malformed(_) => None
  }

  /** The text is the empty string, which `if (saved)` treats as absent. */
  predicate IsEmptyText(b: Blob) {
    b == Malformed("")
  }

  /** The outcome of `getItem`: the read threw, the key was absent, or its text. */
  datatype Read = ReadFailed | Missing | Found(blob: Blob)

  /** The entries after `setItem(key, blob)`, which has no effect when it fails. */
  function AfterSet(entries: map<string, Blob>, key: string, blob: Blob, ok: bool): (r: map<string, Blob>)
    ensures ok ==> key in r && r[key] == blob
    ensures forall k :: k != key ==> (k in r <==> k in entries) && (k in r ==> r[k] == entries[k])
    ensures !ok ==> r == entries
  {
    if ok then entries[key := blob] else entries
  }

  /** The entries after `removeItem(key)`, which has no effect when it fails. */
  function AfterRemove(entries: map<string, Blob>, key: string, ok: bool): (r: map<string, Blob>)
    ensures ok ==> key !in r
    ensures forall k :: k != key ==> (k in r <==> k in entries) && (k in r ==> r[k] == entries[k])
    ensures !ok ==> r == entries
  {
    if ok then entries - {key} else entries
  }

  /** What `getItem(key)` returns, given whether the read succeeds. */
  function ReadOf(entries: map<string, Blob>, key: string, ok: bool): (r: Read)
    ensures r.Found? <==> ok && key in entries
    ensures r.Found? ==> r.blob == entries[key]
    ensures r == Missing <==> ok && key !in entries
  {
    if !ok then ReadFailed else if key in entries then Found(entries[key]) else Missing
  }

  class DeviceStorage {
    var entries: map<string, Blob>

    constructor (initial: map<string, Blob>)
      ensures entries == initial
    {
      entries := initial;
    }

    /** `setItem(key, text)`; `ok` says whether the platform write succeeds. */
    method SetItem(key: string, blob: Blob, ok: bool)
      modifies this
      ensures entries == AfterSet(old(entries), key, blob, ok)
    {
      entries := AfterSet(entries, key, blob, ok);
    }

    /** `removeItem(key)`; `ok` says whether the platform removal succeeds. */
    method RemoveItem(key: string, ok: bool)
      modifies this
      ensures entries == AfterRemove(old(entries), key, ok)
    {
      entries := AfterRemove(entries, key, ok);
    }

    /** `getItem(key)`; `ok` says whether the platform read succeeds. */
    method GetItem(key: string, ok: bool) returns (r: Read)
      ensures r == ReadOf(entries, key, ok)
    {
      r := ReadOf(entries, key, ok);
    }
  }
}
