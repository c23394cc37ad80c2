/** internal/cache: the in-memory cache with a time to live that hits do not extend, and the cacher that
    the authorizer sees, whose reads and writes may also fail. The TTL library and memcached are not part
    of this model beyond the contract stated here. */
module TtlCache {
  import opened Responses

  const NANOS_PER_SECOND := 1_000_000_000

  /** The value of a 64-bit signed multiplication or addition. */
  function Wrap64(x: int): (y: int)
    ensures -0x8000_0000_0000_0000 <= y < 0x8000_0000_0000_0000 && (x - y) % 0x1_0000_0000_0000_0000 == 0
  {
    (x + 0x8000_0000_0000_0000) % 0x1_0000_0000_0000_0000 - 0x8000_0000_0000_0000
  }

  predicate IsInt32(x: int) {
    -0x8000_0000 <= x < 0x8000_0000
  }

  /** Every 32-bit number of seconds is a 64-bit number of nanoseconds, sign included. */
  lemma DurationNeverWraps(expire: int)
    requires IsInt32(expire)
    ensures Wrap64(expire * NANOS_PER_SECOND) == expire * NANOS_PER_SECOND
    ensures Wrap64(expire * NANOS_PER_SECOND) > 0 <==> expire > 0
  {
  }

  /** `nanos` at or below zero means that items never expire; `edge` says whether an item is still served
      at the very instant of its expiry. */
  datatype Ttl = Ttl(nanos: int, edge: bool)

  datatype Item = Item(body: Json, expires: Option<int>)

  function ItemAt(ttl: Ttl, body: Json, now: int): Item {
    Item(body, if ttl.nanos > 0 then Some(now + ttl.nanos) else None)
  }

  predicate Live(ttl: Ttl, item: Item, now: int) {
    item.expires.None? || now < item.expires.value || (ttl.edge && now == item.expires.value)
  }

  function Lookup(ttl: Ttl, items: map<string, Item>, key: string, now: int): Option<Json> {
    if key in items && Live(ttl, items[key], now) then Some(items[key].body) else None
  }

  /** The age of an item that can still be served. */
  predicate Young(ttl: Ttl, at: int, now: int) {
    ttl.nanos > 0 ==> now - at < ttl.nanos || (ttl.edge && now - at == ttl.nanos)
  }

  /** What was stored at one time is served until its time to live has passed, and always when that is zero or
      negative; after that it is not. */
  lemma LivesItsTime(ttl: Ttl, items: map<string, Item>, key: string, body: Json, at: int, now: int)
    requires at <= now
    ensures var found := Lookup(ttl, items[key := ItemAt(ttl, body, at)], key, now);
      && (ttl.nanos <= 0 || now < at + ttl.nanos ==> found == Some(body))
      && (ttl.nanos > 0 && now > at + ttl.nanos ==> found == None)
  {
  }

  datatype Fetch = Hit(response: DataResponse) | Miss | Fault

  class InMemory {
    const ttl: Ttl
    var items: map<string, Item>

    /** Everything stored came from an answer. */
    ghost predicate Valid()
      reads this
    {
      forall k :: k in items ==> exists r :: items[k].body == ToJson(r)
    }

    constructor (expire: int, edge: bool)
      requires IsInt32(expire)
      ensures Valid() && items == map[]
      ensures ttl == Ttl(expire * NANOS_PER_SECOND, edge)
    {
      DurationNeverWraps(expire);
      ttl := Ttl(Wrap64(expire * NANOS_PER_SECOND), edge);
      items := map[];
    }

    /** A read changes nothing, never fails, and returns what is stored and live. */
    method Get(key: string, now: int) returns (f: Fetch)
      requires Valid()
      ensures match Lookup(ttl, items, key, now)
        case None => f == Miss
        case Some(body) => f.Hit? && ToJson(f.response) == body
      ensures f.Hit? ==> key in items && ToJson(f.response) == items[key].body
      ensures key in items && items[key].expires.None? ==> f.Hit?
      ensures key in items && items[key].expires.Some? && now < items[key].expires.value ==> f.Hit?
      ensures key in items && items[key].expires.Some? && now > items[key].expires.value ==> f == Miss
    {
      if key !in items || !Live(ttl, items[key], now) {
        return Miss;
      }
      ghost var r :| items[key].body == ToJson(r);
      StoredBodyStable(r);
      match FromJson(items[key].body)
      case None => assert false; f := Fault;
      case Some(response) => f := Hit(response);
    }

    method Set(key: string, response: DataResponse, now: int)
      requires Valid()
      modifies this
      ensures Valid() && items == old(items)[key := ItemAt(ttl, ToJson(response), now)]
      ensures items[key] == Item(ToJson(response), if ttl.nanos <= 0 then None else Some(now + ttl.nanos))
    {
      items := items[key := ItemAt(ttl, ToJson(response), now)];
    }
  }

  /** One entry through the life of a cache: it is served with its body for the flag's seconds, for ever when
      the flag is not positive, and not after them. */
  method StoreThenRead(expire: int, edge: bool, key: string, response: DataResponse, at: int, now: int)
    returns (f: Fetch)
    requires IsInt32(expire) && at <= now
    ensures expire <= 0 || now < at + expire * 1_000_000_000 ==> f.Hit? && ToJson(f.response) == ToJson(response)
    ensures expire > 0 && now > at + expire * 1_000_000_000 ==> f == Miss
  {
    var cache := new InMemory(expire, edge);
    cache.Set(key, response, at);
    f := cache.Get(key, now);
  }

  /** The cache behind the authorizer: the k-th operation may fail, as one on a remote cache can. */
  class Cacher {
    const store: InMemory
    const fails: nat -> bool
    var operations: nat

    ghost predicate Valid()
      reads this, store
    {
      store.Valid()
    }

    constructor (store: InMemory, fails: nat -> bool)
      requires store.Valid()
      ensures Valid() && this.store == store && this.fails == fails && operations == 0
    {
      this.store := store;
      this.fails := fails;
      this.operations := 0;
    }

    method Get(key: string, now: int) returns (f: Fetch)
      requires Valid()
      modifies this
      ensures Valid() && operations == old(operations) + 1
      ensures if fails(old(operations)) then f == Fault else
        match Lookup(store.ttl, store.items, key, now)
        case None => f == Miss
        case Some(body) => f.Hit? && ToJson(f.response) == body
    {
      operations := operations + 1;
      if fails(operations - 1) {
        return Fault;
      }
      f := store.Get(key, now);
    }

    method Set(key: string, response: DataResponse, now: int) returns (ok: bool)
      requires Valid()
      modifies this, store
      ensures Valid() && operations == old(operations) + 1
      ensures ok == !fails(old(operations))
      ensures store.items ==
        if ok then old(store.items)[key := ItemAt(store.ttl, ToJson(response), now)] else old(store.items)
    {
      operations := operations + 1;
      ok := !fails(operations - 1);
      if ok {
        store.Set(key, response, now);
      }
    }
  }
}
