/** The one caching policy in front of the control-plane store.  Times are nanoseconds. */
module TtlCache {
  import opened Sets
  import opened Wrappers

  const SECOND := 1_000_000_000
  const DEFAULT_TTL := 30 * SECOND
  const DEFAULT_NEGATIVE_TTL := 5 * SECOND
  const DEFAULT_MAX_ENTRIES := 10_000

  /** What a load came back with: a value, a definitive "no such thing", or a failure. */
  datatype Kind = Good | Negative | Failure

  datatype Entry<V> = Entry(answer: V, expiresAt: int)

  type Entries<V> = map<string, Entry<V>>

  predicate Live<V>(e: Entry<V>, now: int) { now < e.expiresAt }

  /** The entries that have not expired. */
  function Swept<V>(entries: Entries<V>, now: int): (r: Entries<V>)
    ensures r.Keys <= entries.Keys
  {
    map key | key in entries && Live(entries[key], now) :: entries[key]
  }

  /** Refuses rather than evicts, even a key it already has. */
  function Stored<V>(entries: Entries<V>, key: string, e: Entry<V>, max: nat, now: int): Entries<V> {
    var room := if |entries| >= max then Swept(entries, now) else entries;
    if |room| >= max then room else room[key := e]
  }

  /** Room is never made at the expense of a live entry, and never too much is held. */
  lemma StoringIsSafe<V>(entries: Entries<V>, key: string, e: Entry<V>, max: nat, now: int)
    requires |entries| <= max
    ensures |Stored(entries, key, e, max, now)| <= max
    ensures forall other | other in entries && other != key && Live(entries[other], now) ::
      other in Stored(entries, key, e, max, now) && Stored(entries, key, e, max, now)[other] == entries[other]
    ensures forall other | other in Stored(entries, key, e, max, now) ::
      (other == key && Stored(entries, key, e, max, now)[other] == e)
      || (other in entries && Stored(entries, key, e, max, now)[other] == entries[other])
  {
    var room := if |entries| >= max then Swept(entries, now) else entries;
    if |room| < max {
      assert room[key := e].Keys == room.Keys + {key};
    } else {
      SubsetSize(room.Keys, entries.Keys);
    }
  }

  /** What is stored is held, for as long as it was given, exactly if fewer live entries than the maximum are held,
      or fewer entries at all; a cache that is full of live entries is left as it is. */
  lemma StoringKeeps<V>(entries: Entries<V>, key: string, e: Entry<V>, max: nat, now: int)
    requires |entries| <= max
    ensures var live := set k | k in entries && now < entries[k].expiresAt;
      var stored := Stored(entries, key, e, max, now);
      && (|entries| < max || |live| < max ==> key in stored && stored[key] == e)
      && (|entries| == max && |live| == max ==> stored == entries)
  {
    var live := set k | k in entries && now < entries[k].expiresAt;
    var swept := Swept(entries, now);
    assert swept.Keys == live;
    assert |swept| == |live|;
    if |live| == |entries| {
      SameSize(live, entries.Keys);
      assert swept == entries;
    }
  }

  lemma {:induction false} SameSize<T>(a: set<T>, b: set<T>)
    requires a <= b && |a| == |b|
    ensures a == b
  {
    if a != {} {
      var x :| x in a;
      SameSize(a - {x}, b - {x});
    }
  }

  class Cache<V(==)> {
    const ttl: int
    const negativeTtl: int
    const maxEntries: nat
    const kind: V -> Kind
    var entries: Entries<V>

    /** Zero and negative options take the defaults. */
    constructor (ttl: int, negativeTtl: int, maxEntries: int, kind: V -> Kind)
      ensures entries == map[] && this.kind == kind && Valid()
      ensures this.ttl == (if ttl <= 0 then DEFAULT_TTL else ttl)
      ensures this.negativeTtl == (if negativeTtl <= 0 then DEFAULT_NEGATIVE_TTL else negativeTtl)
      ensures this.maxEntries == (if maxEntries <= 0 then DEFAULT_MAX_ENTRIES else maxEntries)
    {
      this.ttl := if ttl <= 0 then DEFAULT_TTL else ttl;
      this.negativeTtl := if negativeTtl <= 0 then DEFAULT_NEGATIVE_TTL else negativeTtl;
      this.maxEntries := if maxEntries <= 0 then DEFAULT_MAX_ENTRIES else maxEntries;
      this.kind := kind;
      entries := map[];
    }

    /** Failures are never held. */
    ghost predicate Valid()
      reads this
    {
      && ttl > 0 && negativeTtl > 0 && maxEntries > 0
      && |entries| <= maxEntries
      && forall key | key in entries :: kind(entries[key].answer) != Failure
    }

    method Lookup(key: string, now: int) returns (r: Option<V>)
      ensures r == if key in entries && Live(entries[key], now) then Some(entries[key].answer) else None
    {
      if key !in entries || !(now < entries[key].expiresAt) {
        return None;
      }
      return Some(entries[key].answer);
    }

    method SweepExpired(now: int)
      modifies this
      ensures entries == Swept(old(entries), now)
    {
      var left := entries.Keys;
      while left != {}
        invariant left <= old(entries).Keys
        invariant forall key :: key in entries <==>
          key in old(entries) && (key in left || Live(old(entries)[key], now))
        invariant forall key | key in entries :: entries[key] == old(entries)[key]
      {
        var key :| key in left;
        if !(now < entries[key].expiresAt) {
          entries := entries - {key};
        }
        left := left - {key};
      }
    }

    method Store(key: string, e: Entry<V>, now: int)
      modifies this
      ensures entries == Stored(old(entries), key, e, maxEntries, now)
    {
      if |entries| >= maxEntries {
        SweepExpired(now);
      }
      if |entries| >= maxEntries {
        return;
      }
      entries := entries[key := e];
    }

    method Invalidate(key: string)
      modifies this
      ensures entries == old(entries) - {key}
    {
      entries := entries - {key};
    }

    /** Answers from the cache at `asked` if it can, and otherwise with `loaded`, kept from `stamped` on
        if it is worth keeping; a sweep goes by the clock at `swept`. */
    method Get(key: string, asked: int, loaded: V, stamped: int, swept: int) returns (answer: V)
      requires Valid()
      modifies this
      ensures Valid()
      ensures var hit := key in old(entries) && Live(old(entries)[key], asked);
        if hit then answer == old(entries)[key].answer && entries == old(entries)
        else
          && answer == loaded
          && entries == match kind(loaded)
            case Good => Stored(old(entries), key, Entry(loaded, stamped + ttl), maxEntries, swept)
            case Negative => Stored(old(entries), key, Entry(loaded, stamped + negativeTtl), maxEntries, swept)
            case Failure => old(entries)
    {
      hide Stored;
      var found := Lookup(key, asked);
      if found.Some? {
        return found.value;
      }
      match kind(loaded) {
        case Good =>
          StoringIsSafe(entries, key, Entry(loaded, stamped + ttl), maxEntries, swept);
          Store(key, Entry(loaded, stamped + ttl), swept);
        case Negative =>
          StoringIsSafe(entries, key, Entry(loaded, stamped + negativeTtl), maxEntries, swept);
          Store(key, Entry(loaded, stamped + negativeTtl), swept);
        case Failure =>
      }
      return loaded;
    }
  }
}
