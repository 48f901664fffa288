/**
 * The browser's key-value store as the program uses it. Every value the program writes is the
 * JSON text of one record; the model keeps the parsed record instead, and `Garbage` stands for
 * text that `JSON.parse` rejects.
 */
module Storage {
  import opened Wrappers

  /** An account (src/types/user.ts). `coins` is the coin balance. */
  datatype User = User(id: string, email: string, createdAt: string, ipAddress: string, coins: int)

  /** A stored file: its metadata and its whole content as a data URL. */
  datatype FileData = FileData(
    id: string,
    name: string,
    mimeType: string,
    size: nat,
    data: string,
    createdAt: string,
    userId: Option<string>)

  /** A coin purchase record. Its floating-point `cost` field is not modelled. */
  datatype PurchaseData = PurchaseData(id: string, userId: string, amount: int, date: string)

  /** What the text stored under one key parses to. */
  datatype Value =
    | UserRecord(user: User)
    | CredentialsRecord(email: string, password: string)
    | FileRecord(file: FileData)
    | PurchaseRecord(purchase: PurchaseData)
    | Garbage

  type Store = map<string, Value>

  /** The key of the signed-in user's session copy. */
  const SessionKey: string := "user"

  function UserKey(id: string): (k: string)
    ensures IsUserKey(k) && |k| == 5 + |id| && k[5..] == id
    ensures forall v :: Fits(k, v) <==> v.UserRecord? || v.Garbage?
  {
    "user_" + id
  }

  function CredentialsKey(email: string): (k: string)
    ensures |k| == 12 + |email| && k[0] == 'c' && k[12..] == email
    ensures forall v :: Fits(k, v) <==> v.CredentialsRecord? || v.Garbage?
  {
    "credentials_" + email
  }

  function FileKey(id: string): (k: string)
    ensures |k| == 5 + |id| && k[0] == 'f' && k[5..] == id
    ensures forall v :: Fits(k, v) <==> v.FileRecord? || v.Garbage?
  {
    "file_" + id
  }

  function PurchaseKey(id: string): (k: string)
    ensures |k| == 9 + |id| && k[0] == 'p' && k[9..] == id
    ensures forall v :: Fits(k, v) <==> v.PurchaseRecord? || v.Garbage?
  {
    "purchase_" + id
  }

  /** `key.startsWith("user_")` */
  predicate IsUserKey(k: string) {
    "user_" <= k
  }

  /** Keys of different kinds never coincide, so a write under one kind leaves the others alone. */
  lemma KeysDistinct(a: string, b: string)
    ensures UserKey(a) != SessionKey && !IsUserKey(SessionKey)
    ensures UserKey(a) != CredentialsKey(b) && UserKey(a) != FileKey(b) && UserKey(a) != PurchaseKey(b)
    ensures SessionKey != CredentialsKey(b) && SessionKey != FileKey(b) && SessionKey != PurchaseKey(b)
    ensures !IsUserKey(CredentialsKey(b)) && !IsUserKey(FileKey(b)) && !IsUserKey(PurchaseKey(b))
  {
  }

  /** The kind of record the program writes under a key, or `true` for a key it never writes. */
  predicate Fits(k: string, v: Value) {
    || v.Garbage?
    || (if k == SessionKey || IsUserKey(k) then v.UserRecord?
        else if "credentials_" <= k then v.CredentialsRecord?
        else if "file_" <= k then v.FileRecord?
        else if "purchase_" <= k then v.PurchaseRecord?
        else true)
  }

  /** Every key holds a record of its own kind, or unparseable text. */
  ghost predicate WellFormed(m: Store) {
    forall k | k in m :: Fits(k, m[k])
  }

  /** Every `user_<id>` key that holds an account holds the account whose id is `<id>`. */
  ghost predicate KeysMatchIds(m: Store) {
    forall k | k in m && IsUserKey(k) && m[k].UserRecord? :: k == UserKey(m[k].user.id)
  }

  /** The session copy, when it is an account, is identical to that account's own record. */
  ghost predicate SessionMirrorsAccount(m: Store) {
    SessionKey in m && m[SessionKey].UserRecord? ==>
      var id := m[SessionKey].user.id;
      UserKey(id) in m && m[UserKey(id)] == m[SessionKey]
  }

  /** The store invariant that every operation of the program keeps. */
  ghost predicate Consistent(m: Store) {
    WellFormed(m) && KeysMatchIds(m) && SessionMirrorsAccount(m)
  }

  /** No stored account has a negative balance. */
  ghost predicate NonNegativeBalances(m: Store) {
    forall k | k in m && m[k].UserRecord? :: m[k].user.coins >= 0
  }

  /** No two account keys hold accounts with the same email. */
  ghost predicate UniqueEmails(m: Store) {
    forall k1, k2 |
      && k1 in m && k2 in m && IsUserKey(k1) && IsUserKey(k2)
      && m[k1].UserRecord? && m[k2].UserRecord? && m[k1].user.email == m[k2].user.email
      :: k1 == k2
  }

  /** The empty store, as on first visit, satisfies every invariant. */
  lemma EmptyStoreConsistent()
    ensures Consistent(map[]) && NonNegativeBalances(map[]) && UniqueEmails(map[])
  {
  }

  /** `window.localStorage`: one shared map from keys to stored values. */
  class LocalStorage {
    var items: Store

    constructor (initial: Store)
      ensures items == initial
    {
      items := initial;
    }

    /** `getItem`: the stored value, or `null` for an absent key. */
    function GetItem(key: string): (r: Option<Value>)
      reads this
      ensures r.Some? <==> key in items
      ensures r.Some? ==> r.value == items[key]
    {
      if key in items then Some(items[key]) else None
    }

    /** `setItem`: replaces the value under `key` and nothing else. */
    method SetItem(key: string, v: Value)
      modifies this
      ensures items == old(items)[key := v]
    {
      items := items[key := v];
    }

    /** `removeItem`: deletes `key` and nothing else. */
    method RemoveItem(key: string)
      modifies this
      ensures items == old(items) - {key}
    {
      items := items - {key};
    }
  }
}
