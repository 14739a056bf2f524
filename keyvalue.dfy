/**
 * The key-value store (Redis) as the application uses it: string keys holding
 * either a text value or a hash of text fields, each with an optional absolute
 * expiry time on an integer clock. An expired entry is treated as absent by
 * every command, as the store does lazily.
 */
module KeyValue {
  import opened Wrappers

  datatype Value = Text(text: string) | Hash(fields: map<string, string>)

  datatype Entry = Entry(value: Value, expiresAt: Option<int>)

  type Entries = map<string, Entry>

  /** An entry is visible at `now` if it has no expiry or the expiry is still ahead. */
  predicate Live(e: Entry, now: int) {
    e.expiresAt.None? || now < e.expiresAt.value
  }

  /** What any command sees under `key` at time `now`. */
  function Lookup(m: Entries, key: string, now: int): Option<Value> {
    if key in m && Live(m[key], now) then Some(m[key].value) else None
  }

  /** The fields of the live hash under `key`, or none when the key is absent or expired. */
  function CurrentFields(m: Entries, key: string, now: int): map<string, string> {
    match Lookup(m, key, now)
    case Some(Hash(f)) => f
    case _ => map[]
  }

  /** SETEX: store a text value that lives for `ttl` seconds from `now`. */
  function WithSetEx(m: Entries, key: string, value: string, ttl: nat, now: int): (m': Entries)
    ensures forall t :: Lookup(m', key, t) == if t < now + ttl then Some(Text(value)) else None
    ensures forall k, t :: k != key ==> Lookup(m', k, t) == Lookup(m, k, t)
  {
    m[key := Entry(Text(value), Some(now + ttl))]
  }

  /** HSET on a key that holds live text fails with a type error. */
  predicate HSetRejects(m: Entries, key: string, now: int) {
    Lookup(m, key, now).Some? && Lookup(m, key, now).value.Text?
  }

  /**
   * HSET: merge `fields` into the live hash under `key`, keeping its expiry; on
   * an absent or expired key a new hash is created that never expires. A
   * rejected command changes nothing.
   */
  function WithHSet(m: Entries, key: string, fields: map<string, string>, now: int): (m': Entries)
    ensures HSetRejects(m, key, now) ==> m' == m
    ensures !HSetRejects(m, key, now) ==>
      Lookup(m', key, now) == Some(Hash(CurrentFields(m, key, now) + fields))
    ensures !HSetRejects(m, key, now) && Lookup(m, key, now).None? ==>
      key in m' && m'[key].expiresAt.None?
    ensures Lookup(m, key, now).Some? ==> key in m' && m'[key].expiresAt == m[key].expiresAt
    ensures forall k, t :: k != key ==> Lookup(m', k, t) == Lookup(m, k, t)
  {
    if key in m && Live(m[key], now) then
      match m[key].value
      case Hash(f) => m[key := Entry(Hash(f + fields), m[key].expiresAt)]
      case Text(_) => m
    else
      assert map[] + fields == fields;
      m[key := Entry(Hash(fields), None)]
  }

  /**
   * EXPIRE: a live key now lives for `ttl` more seconds with its value
   * unchanged; an absent or expired key is left alone.
   */
  function WithExpire(m: Entries, key: string, ttl: nat, now: int): (m': Entries)
    ensures Lookup(m, key, now).Some? ==>
      forall t :: Lookup(m', key, t) == if t < now + ttl then Lookup(m, key, now) else None
    ensures Lookup(m, key, now).None? ==> m' == m
    ensures forall k, t :: k != key ==> Lookup(m', k, t) == Lookup(m, k, t)
  {
    if key in m && Live(m[key], now) then m[key := m[key].(expiresAt := Some(now + ttl))] else m
  }

  /** DEL: the keys are gone, everything else is untouched. */
  function WithoutKeys(m: Entries, keys: set<string>): (m': Entries)
    ensures forall k, t :: k in keys ==> Lookup(m', k, t).None?
    ensures forall k, t :: k !in keys ==> Lookup(m', k, t) == Lookup(m, k, t)
  {
    m - keys
  }

  /** Deleting keys that are already gone changes nothing visible: DEL is idempotent. */
  lemma DeleteIdempotent(m: Entries, keys: set<string>)
    ensures WithoutKeys(WithoutKeys(m, keys), keys) == WithoutKeys(m, keys)
  {
  }

  datatype GetReply = Nil | Found(text: string) | WrongType

  datatype HashReply = Fields(fields: map<string, string>) | HashWrongType

  /** GET: the text under a live key, nil when absent or expired, a type error on a hash. */
  function GetOf(m: Entries, key: string, now: int): (r: GetReply)
    ensures r.Nil? <==> Lookup(m, key, now).None?
    ensures r.Found? ==> Lookup(m, key, now) == Some(Text(r.text))
    ensures r.WrongType? <==> Lookup(m, key, now).Some? && Lookup(m, key, now).value.Hash?
  {
    match Lookup(m, key, now)
    case None => Nil
    case Some(Text(s)) => Found(s)
    case Some(Hash(_)) => WrongType
  }

  /** HGETALL: the fields of a live hash, an empty map when absent, a type error on text. */
  function HGetAllOf(m: Entries, key: string, now: int): (r: HashReply)
    ensures r.HashWrongType? <==> HSetRejects(m, key, now)
    ensures r.Fields? ==> r.fields == CurrentFields(m, key, now)
  {
    match Lookup(m, key, now)
    case Some(Text(_)) => HashWrongType
    case _ => Fields(CurrentFields(m, key, now))
  }

  /** The store as the client sees it; each method is one command. */
  class Store {
    var entries: Entries

    constructor ()
      ensures entries == map[]
    {
      entries := map[];
    }

    method SetEx(key: string, ttl: nat, value: string, now: int)
      requires ttl > 0
      modifies this
      ensures entries == WithSetEx(old(entries), key, value, ttl, now)
    {
      entries := WithSetEx(entries, key, value, ttl, now);
    }

    /** Returns false when the store answers with a type error. */
    method HSet(key: string, fields: map<string, string>, now: int) returns (ok: bool)
      modifies this
      ensures ok <==> !HSetRejects(old(entries), key, now)
      ensures entries == WithHSet(old(entries), key, fields, now)
    {
      ok := !HSetRejects(entries, key, now);
      entries := WithHSet(entries, key, fields, now);
    }

    /** Returns whether a timeout was set, i.e. whether the key was live. */
    method Expire(key: string, ttl: nat, now: int) returns (timeoutSet: bool)
      modifies this
      ensures timeoutSet <==> Lookup(old(entries), key, now).Some?
      ensures entries == WithExpire(old(entries), key, ttl, now)
    {
      timeoutSet := key in entries && Live(entries[key], now);
      entries := WithExpire(entries, key, ttl, now);
    }

    /** Returns how many of the keys were live before the command. */
    method Delete(keys: set<string>, now: int) returns (removed: nat)
      modifies this
      ensures removed == |set k | k in keys && Lookup(old(entries), k, now).Some?|
      ensures entries == WithoutKeys(old(entries), keys)
    {
      removed := |set k | k in keys && Lookup(entries, k, now).Some?|;
      entries := WithoutKeys(entries, keys);
    }

    method Get(key: string, now: int) returns (r: GetReply)
      ensures r == GetOf(entries, key, now)
    {
      r := GetOf(entries, key, now);
    }

    method HGetAll(key: string, now: int) returns (r: HashReply)
      ensures r == HGetAllOf(entries, key, now)
    {
      r := HGetAllOf(entries, key, now);
    }
  }
}
