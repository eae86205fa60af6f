/** The in-memory batch validation cache: time to live and least recently used eviction. */
module BatchCache {
  import opened JsonValues
  import opened Dicts

  datatype Entry = Entry(value: Json, expiresAt: int)

  type Cache = Dict<string, Entry>

  datatype Config = Config(ttl: int, maxSize: int)

  datatype Op =
    | Get(key: string, now: int)
    | Set(key: string, value: Json, now: int)
    | Delete(key: string)
    | Clear

  predicate Expired(e: Entry, now: int) {
    now > e.expiresAt
  }

  function Lookup(c: Cache, key: string, now: int): Option<Json> {
    if key in c.m && !Expired(c.m[key], now) then Some(c.m[key].value) else None
  }

  function AfterGet(c: Cache, key: string, now: int): Cache {
    if key !in c.m then c
    else if Expired(c.m[key], now) then c.Remove(key)
    else c.MoveToEnd(key)
  }

  function AfterSet(c: Cache, key: string, value: Json, now: int, cfg: Config): Cache
    requires cfg.maxSize >= 1
  {
    var e := Entry(value, now + cfg.ttl);
    if key in c.m then c.Put(key, e).MoveToEnd(key) else MakeRoom(c, cfg.maxSize).Put(key, e)
  }

  function Step(c: Cache, op: Op, cfg: Config): Cache
    requires cfg.maxSize >= 1
  {
    match op
    case Get(key, now) => AfterGet(c, key, now)
    case Set(key, value, now) => AfterSet(c, key, value, now, cfg)
    case Delete(key) => c.Remove(key)
    case Clear => Empty()
  }

  function Run(c: Cache, ops: seq<Op>, cfg: Config): Cache
    requires cfg.maxSize >= 1
    decreases |ops|
  {
    if ops == [] then c else Run(Step(c, ops[0], cfg), ops[1..], cfg)
  }

  // ----- the size bound -----

  ghost predicate Inv(c: Cache, cfg: Config) {
    c.Valid() && |c.keys| <= cfg.maxSize
  }

  lemma StepInv(c: Cache, op: Op, cfg: Config)
    requires cfg.maxSize >= 1 && Inv(c, cfg)
    ensures Inv(Step(c, op, cfg), cfg)
  {
    match op
    case Get(key, now) =>
      if key in c.m {
        RemoveValid(c, key);
        MoveToEndValid(c, key);
      }
    case Set(key, value, now) =>
      if key in c.m {
        PutValid(c, key, Entry(value, now + cfg.ttl));
        MoveToEndValid(c.Put(key, Entry(value, now + cfg.ttl)), key);
      } else {
        MakeRoomKeeps(c, cfg.maxSize);
        PutValid(MakeRoom(c, cfg.maxSize), key, Entry(value, now + cfg.ttl));
      }
    case Delete(key) => RemoveValid(c, key);
    case Clear =>
  }

  // ----- stack distance -----

  /** The key this operation sets or finds. */
  function Touched(c: Cache, op: Op): set<string> {
    match op
    case Get(key, now) => if key in c.m && now <= c.m[key].expiresAt then {key} else {}
    case Set(key, _, _) => {key}
    case _ => {}
  }

  function AllTouched(c: Cache, ops: seq<Op>, cfg: Config): set<string>
    requires cfg.maxSize >= 1
    decreases |ops|
  {
    if ops == [] then {} else Touched(c, ops[0]) + AllTouched(Step(c, ops[0], cfg), ops[1..], cfg)
  }

  /** The operations leave key k alone. */
  predicate Spares(ops: seq<Op>, k: string) {
    forall i :: 0 <= i < |ops| ==> ops[i] != Clear && ops[i].key != k
  }

  /** ... and drop no other key either: no deletes, and no look-up of an expired entry. */
  predicate DropsNothing(c: Cache, ops: seq<Op>, cfg: Config)
    requires cfg.maxSize >= 1
    decreases |ops|
  {
    ops == [] ||
      (&& !ops[0].Delete? && !ops[0].Clear?
       && (ops[0].Get? && ops[0].key in c.m ==> ops[0].now <= c.m[ops[0].key].expiresAt)
       && DropsNothing(Step(c, ops[0], cfg), ops[1..], cfg))
  }

  lemma GetNewer(c: Cache, x: string, now: int, k: string, cfg: Config)
    requires cfg.maxSize >= 1 && Inv(c, cfg) && k in c.m && x != k
    ensures var next := AfterGet(c, x, now);
            && k in next.m && next.m[k] == c.m[k]
            && (x in c.m && now <= c.m[x].expiresAt ==> Newer(next.keys, k) == Newer(c.keys, k) + {x})
            && (x in c.m && now > c.m[x].expiresAt ==> Newer(next.keys, k) == Newer(c.keys, k) - {x})
            && (x !in c.m ==> next == c)
  {
    if x in c.m {
      NewerWithout(c.keys, k, x);
      if now <= c.m[x].expiresAt {
        NewerAppend(Without(c.keys, x), k, x);
      }
    }
  }

  /** One operation on another key: key k stays, unless `max` others are newer by then;
      and when nothing is dropped, exactly the touched key joins the newer ones. */
  lemma StepNewer(c: Cache, op: Op, k: string, cfg: Config)
    requires cfg.maxSize >= 1 && Inv(c, cfg) && k in c.m && Spares([op], k)
    ensures var next := Step(c, op, cfg);
            if k in next.m then
              && next.m[k] == c.m[k]
              && Newer(next.keys, k) <= Newer(c.keys, k) + Touched(c, op)
              && (DropsNothing(c, [op], cfg) ==> Newer(next.keys, k) == Newer(c.keys, k) + Touched(c, op))
            else |Newer(c.keys, k) + Touched(c, op)| >= cfg.maxSize
  {
    assert [op][0] == op;
    match op
    case Get(x, now) => GetNewer(c, x, now, k, cfg);
    case Set(x, value, now) =>
      if x in c.m {
        NewerWithout(c.keys, k, x);
        NewerAppend(Without(c.keys, x), k, x);
      } else {
        SetNewer(c, x, value, now, k, cfg);
      }
    case Delete(x) => NewerWithout(c.keys, k, x);
    case Clear =>
  }

  lemma FullCacheRoom(c: Cache, max: int)
    requires c.Valid() && max >= 1 && |c.keys| == max
    ensures MakeRoom(c, max) == c.PopFirst() && c.PopFirst().Valid()
  {
    PopFirstValid(c);
  }

  /** A new key behind a dropped oldest one. */
  lemma PoppedNewer(keys: seq<string>, x: string, k: string)
    requires Distinct(keys) && k in keys && x !in keys
    ensures if keys[0] == k then |Newer(keys, k) + {x}| == |keys|
            else Newer(keys[1..] + [x], k) == Newer(keys, k) + {x}
  {
    NewerCount(keys, k);
    NewerMembers(keys, k);
    assert keys == [keys[0]] + keys[1..];
    if keys[0] == k {
      assert x !in Newer(keys, k);
    } else {
      NewerAppend(keys[1..], k, x);
    }
  }

  lemma SetNewer(c: Cache, x: string, value: Json, now: int, k: string, cfg: Config)
    requires cfg.maxSize >= 1 && Inv(c, cfg) && k in c.m && x !in c.m
    ensures var next := AfterSet(c, x, value, now, cfg);
            if k in next.m then
              next.m[k] == c.m[k] && Newer(next.keys, k) == Newer(c.keys, k) + {x}
            else |Newer(c.keys, k) + {x}| >= cfg.maxSize
  {
    if |c.keys| < cfg.maxSize {
      NewerAppend(c.keys, k, x);
    } else {
      FullCacheRoom(c, cfg.maxSize);
      PoppedNewer(c.keys, x, k);
    }
  }

  /** A key that nobody sets stays absent. */
  lemma {:induction false} StaysAbsent(c: Cache, ops: seq<Op>, k: string, cfg: Config)
    requires cfg.maxSize >= 1 && Inv(c, cfg) && k !in c.m && Spares(ops, k)
    ensures k !in Run(c, ops, cfg).m
    decreases |ops|
  {
    if ops != [] {
      StepInv(c, ops[0], cfg);
      if ops[0].Set? && ops[0].key !in c.m {
        MakeRoomKeeps(c, cfg.maxSize);
      }
      StaysAbsent(Step(c, ops[0], cfg), ops[1..], k, cfg);
    }
  }

  /** The others touched from here on, together with those touched before. */
  lemma TouchedStep(c: Cache, ops: seq<Op>, seen: set<string>, cfg: Config)
    requires cfg.maxSize >= 1 && ops != []
    ensures seen + Touched(c, ops[0]) + AllTouched(Step(c, ops[0], cfg), ops[1..], cfg)
            == seen + AllTouched(c, ops, cfg)
  {
  }

  lemma StepSpares(ops: seq<Op>, k: string)
    requires ops != [] && Spares(ops, k)
    ensures Spares([ops[0]], k) && Spares(ops[1..], k)
  {
  }

  lemma {:induction false} StillThere(c: Cache, ops: seq<Op>, k: string, seen: set<string>, cfg: Config)
    requires cfg.maxSize >= 1 && Inv(c, cfg) && k in c.m && Spares(ops, k)
    requires Newer(c.keys, k) <= seen && |seen + AllTouched(c, ops, cfg)| < cfg.maxSize
    ensures k in Run(c, ops, cfg).m && Run(c, ops, cfg).m[k] == c.m[k]
    decreases |ops|
  {
    if ops != [] {
      StepSpares(ops, k);
      StepNewer(c, ops[0], k, cfg);
      StepInv(c, ops[0], cfg);
      TouchedStep(c, ops, seen, cfg);
      SubsetSize(Newer(c.keys, k) + Touched(c, ops[0]), seen + AllTouched(c, ops, cfg));
      StillThere(Step(c, ops[0], cfg), ops[1..], k, seen + Touched(c, ops[0]), cfg);
    }
  }

  lemma {:induction false} Pushed(c: Cache, ops: seq<Op>, k: string, cfg: Config)
    requires cfg.maxSize >= 1 && Inv(c, cfg) && k in c.m && Spares(ops, k) && DropsNothing(c, ops, cfg)
    requires |Newer(c.keys, k) + AllTouched(c, ops, cfg)| >= cfg.maxSize
    ensures k !in Run(c, ops, cfg).m
    decreases |ops|
  {
    if ops == [] {
      assert Newer(c.keys, k) + {} == Newer(c.keys, k);
      NewerCount(c.keys, k);
    } else {
      var next := Step(c, ops[0], cfg);
      StepSpares(ops, k);
      StepNewer(c, ops[0], k, cfg);
      StepInv(c, ops[0], cfg);
      if k in next.m {
        DropsNothingFirst(c, ops, cfg);
        TouchedStep(c, ops, Newer(c.keys, k), cfg);
        Pushed(next, ops[1..], k, cfg);
      } else {
        StaysAbsent(next, ops[1..], k, cfg);
      }
    }
  }

  lemma DropsNothingFirst(c: Cache, ops: seq<Op>, cfg: Config)
    requires cfg.maxSize >= 1 && ops != [] && DropsNothing(c, ops, cfg)
    ensures DropsNothing(c, [ops[0]], cfg) && DropsNothing(Step(c, ops[0], cfg), ops[1..], cfg)
  {
    assert [ops[0]][1..] == [];
  }

  lemma JustTouched(c: Cache, op: Op, k: string, cfg: Config)
    requires cfg.maxSize >= 1 && Inv(c, cfg) && Touched(c, op) == {k}
    ensures Inv(Step(c, op, cfg), cfg) && k in Step(c, op, cfg).m && Newer(Step(c, op, cfg).keys, k) == {}
    ensures op.Set? ==> Step(c, op, cfg).m[k] == Entry(op.value, op.now + cfg.ttl)
  {
    StepInv(c, op, cfg);
    assert k in Touched(c, op);
    var next := Step(c, op, cfg);
    if op.Set? && k !in c.m {
      MakeRoomKeeps(c, cfg.maxSize);
    }
    assert next.keys[|next.keys| - 1] == k;
    NewestHasNoNewer(next.keys);
  }

  /** A key that is still there after operations on others has the entry it had. */
  lemma {:induction false} KeepsItsEntry(c: Cache, ops: seq<Op>, k: string, cfg: Config)
    requires cfg.maxSize >= 1 && Inv(c, cfg) && k in c.m && Spares(ops, k)
    ensures k in Run(c, ops, cfg).m ==> Run(c, ops, cfg).m[k] == c.m[k]
    decreases |ops|
  {
    if ops != [] {
      StepSpares(ops, k);
      StepNewer(c, ops[0], k, cfg);
      StepInv(c, ops[0], cfg);
      if k in Step(c, ops[0], cfg).m {
        KeepsItsEntry(Step(c, ops[0], cfg), ops[1..], k, cfg);
      } else {
        StaysAbsent(Step(c, ops[0], cfg), ops[1..], k, cfg);
      }
    }
  }

  /** A key that was set or hit, and then left alone, is still there with its value if
      fewer than max_size distinct other keys were set or hit since; when nothing is
      deleted or found expired in between, if and only if. Whatever happened in between,
      its value is served only up to ttl after it was set. */
  lemma StackDistanceTheorem(c: Cache, k: string, touch: Op, ops: seq<Op>, later: int, cfg: Config)
    requires cfg.maxSize >= 1 && Inv(c, cfg) && Spares(ops, k) && Touched(c, touch) == {k}
    ensures var touched := Step(c, touch, cfg);
            var others := AllTouched(touched, ops, cfg);
            && k in touched.m
            && (touch.Set? ==> touched.m[k] == Entry(touch.value, touch.now + cfg.ttl))
            && (|others| < cfg.maxSize && later <= touched.m[k].expiresAt ==>
                  Lookup(Run(touched, ops, cfg), k, later) == Some(touched.m[k].value))
            && (later > touched.m[k].expiresAt ==> Lookup(Run(touched, ops, cfg), k, later) == None)
            && (DropsNothing(touched, ops, cfg) ==>
                  (k in Run(touched, ops, cfg).m <==> |others| < cfg.maxSize))
  {
    var touched := Step(c, touch, cfg);
    JustTouched(c, touch, k, cfg);
    KeepsItsEntry(touched, ops, k, cfg);
    assert {} + AllTouched(touched, ops, cfg) == AllTouched(touched, ops, cfg);
    if |AllTouched(touched, ops, cfg)| < cfg.maxSize {
      StillThere(touched, ops, k, {}, cfg);
    } else if DropsNothing(touched, ops, cfg) {
      Pushed(touched, ops, k, cfg);
    }
  }

  // ----- the cache object -----

  class BatchValidationCache {
    const cfg: Config
    var cache: Cache
    var hits: nat
    var misses: nat
    var evictions: nat

    /** A cache of at least one entry: set on a smaller one fails with a KeyError. */
    ghost predicate Valid()
      reads this`cache
    {
      cfg.maxSize >= 1 && Inv(cache, cfg)
    }

    constructor (ttl: int, maxSize: int)
      requires maxSize >= 1
      ensures Valid() && cache == Empty() && cfg == Config(ttl, maxSize)
      ensures hits == misses == evictions == 0
    {
      cfg := Config(ttl, maxSize);
      cache := Empty();
      hits, misses, evictions := 0, 0, 0;
    }

    method GetEntry(key: string, now: int) returns (value: Option<Json>)
      requires Valid()
      modifies this`cache, this`hits, this`misses
      ensures Valid() && cache == Step(old(cache), Get(key, now), cfg)
      ensures value == Lookup(old(cache), key, now)
      ensures hits == old(hits) + if value.Some? then 1 else 0
      ensures misses == old(misses) + if value.Some? then 0 else 1
    {
      StepInv(cache, Get(key, now), cfg);
      if key !in cache.m {
        misses := misses + 1;
        return None;
      }
      var e := cache.m[key];
      if now > e.expiresAt {
        cache := cache.Remove(key);
        misses := misses + 1;
        return None;
      }
      cache := cache.MoveToEnd(key);
      hits := hits + 1;
      value := Some(e.value);
    }

    method SetEntry(key: string, value: Json, now: int)
      requires Valid()
      modifies this`cache, this`evictions
      ensures Valid() && cache == Step(old(cache), Set(key, value, now), cfg)
      ensures evictions == old(evictions) +
                if key !in old(cache.m) && |old(cache.keys)| == cfg.maxSize then 1 else 0
    {
      StepInv(cache, Set(key, value, now), cfg);
      var e := Entry(value, now + cfg.ttl);
      if key in cache.m {
        cache := cache.Put(key, e);
        cache := cache.MoveToEnd(key);
        return;
      }
      while |cache.keys| >= cfg.maxSize
        invariant MakeRoom(cache, cfg.maxSize) == MakeRoom(old(cache), cfg.maxSize)
        invariant evictions + |cache.keys| == old(evictions) + |old(cache.keys)|
        invariant evictions == old(evictions) || |cache.keys| < cfg.maxSize
        decreases |cache.keys|
      {
        cache := cache.PopFirst();
        evictions := evictions + 1;
      }
      cache := cache.Put(key, e);
    }

    method DeleteEntry(key: string) returns (deleted: bool)
      requires Valid()
      modifies this`cache
      ensures Valid() && deleted == (key in old(cache.m))
      ensures cache.m == old(cache.m) - {key}
      ensures deleted ==> cache == Step(old(cache), Delete(key), cfg)
      ensures !deleted ==> cache == old(cache)
    {
      StepInv(cache, Delete(key), cfg);
      if key in cache.m {
        cache := cache.Remove(key);
        return true;
      }
      deleted := false;
    }

    method ClearEntries()
      requires Valid()
      modifies this`cache
      ensures Valid() && cache == Step(old(cache), Clear, cfg)
    {
      cache := Empty();
    }
  }
}
