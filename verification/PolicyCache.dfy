/** The decision cache (control_plane/policy/cache.py). The limits are the ones
    its `set` uses, whatever the constructor was given. */
module PolicyCache {
  import opened Wrappers

  const MAX_ENTRIES := 10_000
  const TTL_SECONDS := 300.0

  datatype Entry<D> = Entry(value: D, expires: real)

  type Cache<D> = map<string, Entry<D>>

  // What `get` returns, and what it leaves: an expired entry is dropped.
  function Hit<D>(c: Cache<D>, key: string, now: real): Option<D> {
    if key in c && now < c[key].expires then Some(c[key].value) else None
  }

  function AfterGet<D>(c: Cache<D>, key: string, now: real): Cache<D> {
    if key in c && now >= c[key].expires then c - {key} else c
  }

  predicate IsOldest<D(!new)>(c: Cache<D>, victim: string) {
    victim in c && forall k | k in c :: c[victim].expires <= c[k].expires
  }

  // A full cache gives up its oldest entry first, even when the key is present.
  function AfterSet<D>(c: Cache<D>, key: string, value: D, now: real, victim: string): Cache<D> {
    (if |c| >= MAX_ENTRIES then c - {victim} else c)[key := Entry(value, now + TTL_SECONDS)]
  }

  predicate MayEvict<D(!new)>(c: Cache<D>, victim: string) {
    |c| >= MAX_ENTRIES ==> IsOldest(c, victim)
  }

  lemma {:induction false} OldestExists<D(!new)>(c: Cache<D>, keys: set<string>) returns (victim: string)
    requires keys != {} && keys <= c.Keys
    ensures victim in keys && forall k | k in keys :: c[victim].expires <= c[k].expires
    decreases |keys|
  {
    var first :| first in keys;
    victim := first;
    if keys != {first} {
      var rest := keys - {first};
      assert keys == rest + {first};
      var other := OldestExists(c, rest);
      if c[other].expires <= c[first].expires {
        victim := other;
      }
    }
  }

  lemma SizeBounded<D(!new)>(c: Cache<D>, key: string, value: D, now: real, victim: string)
    requires |c| <= MAX_ENTRIES && MayEvict(c, victim)
    ensures |AfterSet(c, key, value, now, victim)| <= MAX_ENTRIES
  {
    var trimmed := if |c| >= MAX_ENTRIES then c - {victim} else c;
    assert (c - {victim}).Keys == c.Keys - {victim};
    assert trimmed[key := Entry(value, now + TTL_SECONDS)].Keys == trimmed.Keys + {key};
  }

  class InMemoryPolicyCache<D(!new)> {
    var entries: Cache<D>

    ghost predicate Valid()
      reads this
    {
      |entries| <= MAX_ENTRIES
    }

    constructor ()
      ensures Valid() && entries == map[]
    {
      entries := map[];
    }

    /** Never returns an expired value, and drops it when it meets one. */
    method Get(key: string, now: real) returns (value: Option<D>)
      requires Valid()
      modifies this
      ensures Valid() && value == Hit(old(entries), key, now) && entries == AfterGet(old(entries), key, now)
      ensures value.Some? <==> key in old(entries) && now < old(entries)[key].expires
      ensures value.Some? ==> value.value == old(entries)[key].value && entries == old(entries)
      ensures value.None? ==> entries == old(entries) - {key}
    {
      if key !in entries {
        return None;
      }
      if now >= entries[key].expires {
        ghost var before := entries;
        entries := entries - {key};
        assert entries.Keys == before.Keys - {key};
        return None;
      }
      return Some(entries[key].value);
    }

    /** Never holds more than the limit; the evicted entry is an oldest one. */
    method Set(key: string, value: D, now: real) returns (ghost victim: string)
      requires Valid()
      modifies this
      ensures Valid() && MayEvict(old(entries), victim)
      ensures entries == AfterSet(old(entries), key, value, now, victim)
      ensures |entries| <= 10_000 && key in entries && entries[key] == Entry(value, now + 300.0)
      ensures |old(entries)| < 10_000 ==> entries == old(entries)[key := Entry(value, now + 300.0)]
      ensures |old(entries)| == 10_000 ==>
                && victim in old(entries)
                && (forall k | k in old(entries) :: old(entries)[victim].expires <= old(entries)[k].expires)
                && entries == (old(entries) - {victim})[key := Entry(value, now + 300.0)]
    {
      victim := "";
      if |entries| >= MAX_ENTRIES {
        assert |entries.Keys| == |entries|;
        ghost var _ := OldestExists(entries, entries.Keys);
        var oldest :| oldest in entries && forall k | k in entries :: entries[oldest].expires <= entries[k].expires;
        victim := oldest;
        SizeBounded(entries, key, value, now, victim);
        entries := entries - {oldest};
      } else {
        SizeBounded(entries, key, value, now, victim);
      }
      entries := entries[key := Entry(value, now + TTL_SECONDS)];
    }

    method Invalidate()
      modifies this
      ensures Valid() && entries == map[]
    {
      entries := map[];
    }
  }
}
