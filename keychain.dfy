/**
 * The secure key store (the platform keychain, reached through the `Key`
 * package) and the query the key manager builds for it.
 *
 * The store is a map from the query's (key, service) pair to the object held
 * there. `Key.read` hands back an untyped object, which is normally `Data`
 * but need not be; `Foreign` stands for anything else.
 */
module Keychain {
  import opened Results
  import opened Base64

  /** (key name, service): what a query looks an item up by. */
  type KeyId = (string, string)

  /** An authentication context (`LAContext`); only its presence matters here. */
  datatype AuthContext = AuthContext

  /** `KeyQuery`, without its access-control object. */
  datatype KeyQuery = KeyQuery(key: string, service: string, accessGroup: Option<string>, context: Option<AuthContext>)

  function Id(q: KeyQuery): (id: KeyId) {
    (q.key, q.service)
  }

  /** `E2EE.getKeyQuery(keyName:service:)`: the query for a key of the E2EE
      scheme, with no access group and no authentication context. Its identity
      is exactly (keyName, service), so distinct pairs never share an item. */
  function GetKeyQuery(keyName: string, service: string): (q: KeyQuery)
    ensures Id(q) == (keyName, service)
    ensures q.accessGroup.None? && q.context.None?
  {
    KeyQuery(keyName, service, None, None)
  }

  /** What `Key.read` returns: `Data`, or an object of another type. */
  datatype Item = Blob(data: Bytes) | Foreign(kind: string)

  type Items = map<KeyId, Item>

  const NotFound: Error := KeychainFailure("item not found")

  /** `Key.read(query)`: the item under the query's identity. It throws
      `NotFound` when there is none, and the platform's error when the read
      itself fails (`fault`, for instance while the device is locked). */
  function ReadItem(items: Items, q: KeyQuery, fault: Option<Error>): (r: Result<Item>)
    ensures r.Success? <==> fault.None? && Id(q) in items
    ensures r.Success? ==> r.value == items[Id(q)]
    ensures fault.Some? ==> r == Failure(fault.value)
  {
    if fault.Some? then Failure(fault.value)
    else if Id(q) in items then Success(items[Id(q)])
    else Failure(NotFound)
  }

  /** The store after `Key.insert(data:query:)`: unchanged if the insert
      throws (`fault`), and otherwise with `data` under the query's identity. */
  function InsertItem(items: Items, data: Bytes, q: KeyQuery, fault: Option<Error>): (r: Items)
    ensures fault.None? ==> Id(q) in r && r[Id(q)] == Blob(data)
    ensures forall id :: id != Id(q) ==> (id in r <==> id in items) && (id in r ==> r[id] == items[id])
    ensures fault.Some? ==> r == items
  {
    if fault.Some? then items else items[Id(q) := Blob(data)]
  }

  /** The keychain of the device. */
  class Keychain {
    var items: Items

    constructor(items: Items)
      ensures this.items == items
    {
      this.items := items;
    }

    /** `Key.read(query)`. */
    method Read(q: KeyQuery, fault: Option<Error>) returns (r: Result<Item>)
      ensures r == ReadItem(items, q, fault)
    {
      if fault.Some? {
        return Failure(fault.value);
      }
      if Id(q) in items {
        return Success(items[Id(q)]);
      }
      return Failure(NotFound);
    }

    /** `Key.insert(data:query:)`. */
    method Insert(data: Bytes, q: KeyQuery, fault: Option<Error>) returns (r: Outcome)
      modifies this
      ensures r == if fault.Some? then Fail(fault.value) else Pass
      ensures items == InsertItem(old(items), data, q, fault)
    {
      if fault.Some? {
        return Fail(fault.value);
      }
      items := items[Id(q) := Blob(data)];
      return Pass;
    }
  }
}
