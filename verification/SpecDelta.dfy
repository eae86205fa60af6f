/** Spec delta compression: what a sender and a receiver do with one payload. */
module SpecDelta {
  import opened JsonValues
  import opened Dicts

  type Spec = Dict<string, Json>

  /** The digest of a spec's sorted JSON text, taken to be collision free. */
  datatype Digest = Digest(content: map<string, Json>)

  datatype Baseline = Baseline(data: Spec, checksum: Digest, createdAt: int, version: int)

  type Baselines = Dict<string, Baseline>

  /** The payload dictionary; a field that is None is absent from the dictionary. */
  datatype Payload = Payload(
    full: Option<bool>, spec: Option<Spec>, delta: Option<Spec>,
    checksum: Option<Digest>, baselineChecksum: Option<Digest>, version: Option<int>)

  datatype Config = Config(maxBaselines: nat, ttl: int)

  const REMOVED := "__removed__"

  predicate IsRemoval(key: string) {
    REMOVED <= key
  }

  function Marker(key: string): string {
    REMOVED + key
  }

  function Unmarked(marker: string): string
    requires IsRemoval(marker)
  {
    marker[|REMOVED|..]
  }

  lemma MarkerFacts()
    ensures forall k :: IsRemoval(Marker(k)) && Unmarked(Marker(k)) == k
    ensures forall s :: IsRemoval(s) ==> Marker(Unmarked(s)) == s
  {
    forall k ensures IsRemoval(Marker(k)) && Unmarked(Marker(k)) == k {
      assert (REMOVED + k)[|REMOVED|..] == k;
    }
    forall s | IsRemoval(s) ensures Marker(Unmarked(s)) == s {
      assert s == s[..|REMOVED|] + s[|REMOVED|..];
    }
  }

  function GetOr<T>(o: Option<T>, default: T): T {
    match o
    case Some(v) => v
    case None => default
  }

  // ----- computing a delta -----

  predicate Changed(key: string, current: Spec, base: Spec)
    requires key in current.m
  {
    key !in base.m || !PyEq(current.m[key], base.m[key])
  }

  /** The delta after the first n keys of the current spec have been compared. */
  function Changes(current: Spec, base: Spec, n: nat): Spec
    requires current.Valid() && n <= |current.keys|
  {
    if n == 0 then Empty() else
      var d := Changes(current, base, n - 1);
      var key := current.keys[n - 1];
      if Changed(key, current, base) then d.Put(key, current.m[key]) else d
  }

  /** ... and after the first n keys of the baseline have been looked up as well. */
  function Removals(current: Spec, base: Spec, n: nat): Spec
    requires current.Valid() && base.Valid() && n <= |base.keys|
  {
    if n == 0 then Changes(current, base, |current.keys|) else
      var d := Removals(current, base, n - 1);
      var key := base.keys[n - 1];
      if key !in current.m then d.Put(Marker(key), Null) else d
  }

  function Delta(current: Spec, base: Spec): Spec
    requires current.Valid() && base.Valid()
  {
    Removals(current, base, |base.keys|)
  }

  // ----- applying a delta -----

  function ApplyEntry(spec: Spec, key: string, value: Json): Spec {
    if IsRemoval(key) then spec.Remove(Unmarked(key)) else spec.Put(key, value)
  }

  function Applied(base: Spec, delta: Spec, n: nat): Spec
    requires delta.Valid() && n <= |delta.keys|
  {
    if n == 0 then base else
      ApplyEntry(Applied(base, delta, n - 1), delta.keys[n - 1], delta.m[delta.keys[n - 1]])
  }

  function Apply(base: Spec, delta: Spec): Spec
    requires delta.Valid()
  {
    Applied(base, delta, |delta.keys|)
  }

  // ----- the round trip of one delta, and exactly when it is right -----

  /** No key that is new or changed starts with the removal marker. */
  predicate Clean(current: Spec, base: Spec) {
    forall key :: key in current.m && Changed(key, current, base) ==> !IsRemoval(key)
  }

  predicate Removed(marker: string, current: Spec, base: Spec) {
    && IsRemoval(marker)
    && Unmarked(marker) in base.m
    && Unmarked(marker) !in current.m
  }

  lemma PrefixStep(s: seq<string>, n: nat, k: string)
    requires 0 < n <= |s|
    ensures k in s[..n] <==> k in s[..n - 1] || k == s[n - 1]
  {
    assert s[..n] == s[..n - 1] + [s[n - 1]];
  }

  lemma {:induction false} ChangesValid(current: Spec, base: Spec, n: nat)
    requires current.Valid() && base.Valid() && n <= |current.keys|
    ensures Changes(current, base, n).Valid()
  {
    if n > 0 {
      ChangesValid(current, base, n - 1);
    }
  }

  lemma {:induction false} RemovalsValid(current: Spec, base: Spec, n: nat)
    requires current.Valid() && base.Valid() && n <= |base.keys|
    ensures Removals(current, base, n).Valid()
  {
    if n > 0 {
      RemovalsValid(current, base, n - 1);
    } else {
      ChangesValid(current, base, |current.keys|);
    }
  }

  lemma {:induction false} ChangesAt(current: Spec, base: Spec, n: nat, k: string)
    requires current.Valid() && n <= |current.keys|
    ensures k in Changes(current, base, n).m <==> k in current.keys[..n] && Changed(k, current, base)
    ensures k in Changes(current, base, n).m ==> Changes(current, base, n).m[k] == current.m[k]
  {
    if n > 0 {
      ChangesAt(current, base, n - 1, k);
      PrefixStep(current.keys, n, k);
    }
  }

  lemma {:induction false} RemovalsAt(current: Spec, base: Spec, n: nat, k: string)
    requires current.Valid() && base.Valid() && n <= |base.keys|
    ensures k in Removals(current, base, n).m <==>
              || (k in current.m && Changed(k, current, base))
              || (Removed(k, current, base) && Unmarked(k) in base.keys[..n])
    ensures k in Removals(current, base, n).m ==>
              Removals(current, base, n).m[k] ==
              if Removed(k, current, base) && Unmarked(k) in base.keys[..n]
              then Null else current.m[k]
  {
    if n == 0 {
      ChangesAt(current, base, |current.keys|, k);
      assert current.keys[..|current.keys|] == current.keys;
    } else {
      RemovalsAt(current, base, n - 1, k);
      MarkerFacts();
      if IsRemoval(k) {
        PrefixStep(base.keys, n, Unmarked(k));
      }
    }
  }

  /** The delta holds exactly the new and changed keys with their values and
      a marker for every key that went away. */
  lemma DeltaMeaning(current: Spec, base: Spec)
    requires current.Valid() && base.Valid()
    ensures Delta(current, base).Valid()
    ensures forall k :: k in Delta(current, base).m <==>
              (k in current.m && Changed(k, current, base)) || Removed(k, current, base)
    ensures forall k :: k in Delta(current, base).m ==>
              Delta(current, base).m[k] == if Removed(k, current, base) then Null else current.m[k]
  {
    RemovalsValid(current, base, |base.keys|);
    assert base.keys[..|base.keys|] == base.keys;
    forall k {
      RemovalsAt(current, base, |base.keys|, k);
    }
  }

  /** An empty delta is sent for a Python-equal spec and for no other. */
  lemma EmptyDelta(current: Spec, base: Spec)
    requires current.Valid() && base.Valid()
    ensures Delta(current, base).keys == [] <==> SameFields(current.m, base.m)
    ensures Delta(current, base).keys == [] <==> PyEq(Obj(current.m), Obj(base.m))
  {
    SameFieldsIsPyEq(current.m, base.m);
    DeltaMeaning(current, base);
    MarkerFacts();
    var d := Delta(current, base);
    assert d.keys == [] || d.keys[0] in d.m;
    if SameFields(current.m, base.m) {
      assert forall k :: k !in d.m;
    } else if exists k :: k in current.m && Changed(k, current, base) {
      var k :| k in current.m && Changed(k, current, base);
      assert k in d.m;
    } else {
      var k :| k in base.m && k !in current.m;
      assert Removed(Marker(k), current, base);
      assert Marker(k) in d.m;
    }
  }

  /** A payload key that carries the marker never ends up in the result. */
  lemma {:induction false} MarkersAreNeverWritten(base: Spec, delta: Spec, n: nat, key: string)
    requires base.Valid() && delta.Valid() && n <= |delta.keys| && IsRemoval(key)
    ensures key in Applied(base, delta, n).m ==>
              key in base.m && Applied(base, delta, n).m[key] == base.m[key]
  {
    if n > 0 {
      MarkersAreNeverWritten(base, delta, n - 1, key);
    }
  }

  lemma {:induction false} AppliedValid(base: Spec, delta: Spec, n: nat)
    requires base.Valid() && delta.Valid() && n <= |delta.keys|
    ensures Applied(base, delta, n).Valid()
  {
    if n > 0 {
      AppliedValid(base, delta, n - 1);
      var k := delta.keys[n - 1];
      if IsRemoval(k) {
        RemoveValid(Applied(base, delta, n - 1), Unmarked(k));
      } else {
        PutValid(Applied(base, delta, n - 1), k, delta.m[k]);
      }
    }
  }

  /** The effect of the first n delta entries on one key, when no key is both
      written and removed. */
  lemma {:induction false} AppliedAt(held: Spec, d: Spec, n: nat, k: string)
    requires d.Valid() && n <= |d.keys|
    requires !IsRemoval(k) && k in d.m ==> Marker(k) !in d.m
    ensures k in Applied(held, d, n).m <==>
              (k in d.keys[..n] && !IsRemoval(k)) || (k in held.m && Marker(k) !in d.keys[..n])
    ensures k in Applied(held, d, n).m ==>
              Applied(held, d, n).m[k] ==
              if k in d.keys[..n] && !IsRemoval(k) then d.m[k] else held.m[k]
  {
    if n > 0 {
      AppliedAt(held, d, n - 1, k);
      MarkerFacts();
      PrefixStep(d.keys, n, k);
      PrefixStep(d.keys, n, Marker(k));
      assert d.keys[n - 1] in d.m;
      assert k in d.keys[..n - 1] ==> k in d.m;
    }
  }

  lemma Rebuilt(result: map<string, Json>, d: map<string, Json>, held: map<string, Json>,
                current: map<string, Json>, base: map<string, Json>)
    requires SameFields(held, base)
    requires forall k :: k in d && !IsRemoval(k) <==>
               k in current && (k !in base || !PyEq(current[k], base[k]))
    requires forall k :: Marker(k) in d <==> k in base && k !in current
    requires forall k :: k in result <==> (k in d && !IsRemoval(k)) || (k in held && Marker(k) !in d)
    requires forall k :: k in result ==>
               result[k] == if k in d && !IsRemoval(k) then current[k] else held[k]
    ensures SameFields(result, current)
  {
    forall k ensures k in result <==> k in current {
      assert Marker(k) in d <==> k in base && k !in current;
    }
    forall k | k in current ensures PyEq(result[k], current[k]) {
      if !(k in d && !IsRemoval(k)) {
        assert PyEq(held[k], base[k]);
      }
    }
  }

  /** What applying a whole delta without clashing markers makes of a spec. */
  lemma AppliedMeaning(held: Spec, d: Spec)
    requires d.Valid() && forall k :: !IsRemoval(k) && k in d.m ==> Marker(k) !in d.m
    ensures forall k :: k in Apply(held, d).m <==>
              (k in d.m && !IsRemoval(k)) || (k in held.m && Marker(k) !in d.m)
    ensures forall k :: k in Apply(held, d).m ==>
              Apply(held, d).m[k] == if k in d.m && !IsRemoval(k) then d.m[k] else held.m[k]
  {
    assert d.keys[..|d.keys|] == d.keys;
    forall k {
      AppliedAt(held, d, |d.keys|, k);
    }
  }

  /** In a clean delta the marked keys are exactly the removals. */
  lemma CleanDelta(current: Spec, base: Spec)
    requires current.Valid() && base.Valid() && Clean(current, base)
    ensures forall k :: Marker(k) in Delta(current, base).m <==> k in base.m && k !in current.m
    ensures forall k :: !IsRemoval(k) && k in Delta(current, base).m ==> k in current.m
  {
    DeltaMeaning(current, base);
    MarkerFacts();
  }

  lemma CleanRoundTrip(held: Spec, current: Spec, base: Spec)
    requires held.Valid() && current.Valid() && base.Valid()
    requires SameFields(held.m, base.m) && Clean(current, base)
    ensures Delta(current, base).Valid()
    ensures SameFields(Apply(held, Delta(current, base)).m, current.m)
  {
    DeltaMeaning(current, base);
    var d := Delta(current, base);
    CleanDelta(current, base);
    AppliedMeaning(held, d);
    Rebuilt(Apply(held, d).m, d.m, held.m, current.m, base.m);
  }

  /** Applying a sender's delta to any copy of the sender's baseline rebuilds
      the sender's spec exactly when no new or changed key starts with the marker. */
  lemma RoundTrip(held: Spec, current: Spec, base: Spec)
    requires held.Valid() && current.Valid() && base.Valid()
    requires SameFields(held.m, base.m)
    ensures Delta(current, base).Valid() && Apply(held, Delta(current, base)).Valid()
    ensures SameFields(Apply(held, Delta(current, base)).m, current.m) <==> Clean(current, base)
  {
    DeltaMeaning(current, base);
    var d := Delta(current, base);
    AppliedValid(held, d, |d.keys|);
    if Clean(current, base) {
      CleanRoundTrip(held, current, base);
    } else {
      var key :| key in current.m && Changed(key, current, base) && IsRemoval(key);
      MarkersAreNeverWritten(held, d, |d.keys|, key);
      if key in held.m {
        assert PyEq(held.m[key], base.m[key]);
      }
    }
  }

  /** A new key that starts with the marker is lost on the way: the receiver takes it for the
      removal of a key it does not hold. */
  lemma MarkedKeyIsLost()
    ensures var base, current := Empty().Put("b", Int(2)), Empty().Put("b", Int(2)).Put("__removed__a", Int(1));
            && current.Valid() && base.Valid() && !Clean(current, base)
            && Delta(current, base).Valid() && !SameFields(Apply(base, Delta(current, base)).m, current.m)
  {
    var base: Spec, current: Spec := Empty().Put("b", Int(2)), Empty().Put("b", Int(2)).Put("__removed__a", Int(1));
    assert IsRemoval("__removed__a");
    assert "b"[0] != "__removed__a"[0];
    assert Changed("__removed__a", current, base);
    RoundTrip(base, current, base);
  }

  /** Two specs that Python calls equal may still be spelled differently, and the
      receiver then keeps its own spelling. */
  lemma SpellingMayDiffer()
    ensures var base, current := Empty().Put("a", Int(1)), Empty().Put("a", Bool(true));
            && current.Valid() && base.Valid()
            && SameFields(current.m, base.m) && current != base
            && Apply(base, Delta(current, base)) == base
  {
    var base: Spec, current: Spec := Empty().Put("a", Int(1)), Empty().Put("a", Bool(true));
    DeltaMeaning(current, base);
  }

  // ----- one compressor's tables -----

  predicate Stale(b: Baseline, now: int, ttl: int) {
    now - b.createdAt > ttl
  }

  function DropStale(bs: Baselines, keys: seq<string>, now: int, ttl: int): Baselines {
    if keys == [] then bs else
      var rest := DropStale(bs, keys[..|keys| - 1], now, ttl);
      var k := keys[|keys| - 1];
      if k in bs.m && Stale(bs.m[k], now, ttl) then rest.Remove(k) else rest
  }

  function TrimTo(bs: Baselines, max: nat): Baselines
    decreases |bs.keys|
  {
    if |bs.keys| > max then TrimTo(bs.PopFirst(), max) else bs
  }

  function Evict(bs: Baselines, now: int, cfg: Config): Baselines {
    TrimTo(DropStale(bs, bs.keys, now, cfg.ttl), cfg.maxBaselines)
  }

  function FullPayload(spec: Spec): Payload {
    Payload(Some(true), Some(spec), None, None, None, None)
  }

  function UnchangedPayload(b: Baseline): Payload {
    Payload(Some(false), None, Some(Empty()), Some(b.checksum), None, Some(b.version))
  }

  function DeltaPayload(spec: Spec, b: Baseline): Payload
    requires spec.Valid() && b.data.Valid()
  {
    Payload(Some(false), None, Some(Delta(spec, b.data)), Some(Digest(spec.m)),
            Some(b.checksum), Some(b.version + 1))
  }

  ghost predicate ValidTable(bs: Baselines) {
    && bs.Valid()
    && forall id :: id in bs.m ==> bs.m[id].data.Valid()
  }

  /** compress once stale baselines are gone */
  function CompressKept(kept: Baselines, now: int, id: string, spec: Spec): (Baselines, Payload)
    requires spec.Valid()
    requires forall i :: i in kept.m ==> kept.m[i].data.Valid()
  {
    if id !in kept.m then
      (kept.Put(id, Baseline(spec, Digest(spec.m), now, 1)).MoveToEnd(id), FullPayload(spec))
    else
      var b := kept.m[id];
      if Delta(spec, b.data).keys == [] then
        (kept, UnchangedPayload(b))
      else
        (kept.Put(id, Baseline(spec, Digest(spec.m), now, b.version + 1)).MoveToEnd(id),
         DeltaPayload(spec, b))
  }

  function Compress(bs: Baselines, now: int, id: string, spec: Spec, cfg: Config): (Baselines, Payload)
    requires spec.Valid()
    requires forall i :: i in Evict(bs, now, cfg).m ==> Evict(bs, now, cfg).m[i].data.Valid()
  {
    CompressKept(Evict(bs, now, cfg), now, id, spec)
  }

  datatype Received = Received(table: Baselines, spec: Spec, success: bool)

  ghost predicate ValidPayload(p: Payload) {
    && (p.spec.Some? ==> p.spec.value.Valid())
    && (p.delta.Some? ==> p.delta.value.Valid())
  }

  function Decompress(bs: Baselines, now: int, id: string, p: Payload): Received
    requires p.delta.Some? ==> p.delta.value.Valid()
  {
    if GetOr(p.full, true) then
      var spec := GetOr(p.spec, Empty());
      Received(bs.Put(id, Baseline(spec, Digest(spec.m), now, 1)), spec, true)
    else if id !in bs.m then
      Received(bs, Empty(), false)
    else
      var b := bs.m[id];
      if p.baselineChecksum.Some? && p.baselineChecksum.value != b.checksum then
        Received(bs, Empty(), false)
      else
        var rebuilt := Apply(b.data, GetOr(p.delta, Empty()));
        var next := Baseline(rebuilt, GetOr(p.checksum, Digest(rebuilt.m)), b.createdAt,
                             GetOr(p.version, b.version + 1));
        Received(bs.Put(id, next), rebuilt, true)
  }

  /** The keys whose baseline is no older than ttl, least recently used first. */
  function YoungKeys(bs: Baselines, keys: seq<string>, now: int, ttl: int): seq<string>
    requires forall k :: k in keys ==> k in bs.m
  {
    if keys == [] then [] else
      var rest := YoungKeys(bs, keys[1..], now, ttl);
      if now <= bs.m[keys[0]].createdAt + ttl then [keys[0]] + rest else rest
  }

  /** The newest maxBaselines of them. */
  function NewestYoung(bs: Baselines, now: int, cfg: Config): seq<string>
    requires bs.Valid()
  {
    var young := YoungKeys(bs, bs.keys, now, cfg.ttl);
    if |young| > cfg.maxBaselines then young[|young| - cfg.maxBaselines..] else young
  }

  /** The keys without the stale ones among the given. */
  function Unstale(bs: Baselines, keys: seq<string>, among: seq<string>, now: int, ttl: int): seq<string>
    requires forall k :: k in keys ==> k in bs.m
  {
    if keys == [] then [] else
      var rest := Unstale(bs, keys[1..], among, now, ttl);
      if keys[0] in among && Stale(bs.m[keys[0]], now, ttl) then rest else [keys[0]] + rest
  }

  lemma WithoutCons(x: string, rest: seq<string>, k: string)
    ensures Without([x] + rest, k) == if x == k then Without(rest, k) else [x] + Without(rest, k)
  {
    assert ([x] + rest)[1..] == rest;
  }

  lemma {:induction false} UnstaleStep(bs: Baselines, keys: seq<string>, among: seq<string>, k: string,
                                       now: int, ttl: int)
    requires (forall x :: x in keys ==> x in bs.m) && k in bs.m
    ensures Unstale(bs, keys, among + [k], now, ttl) ==
            if Stale(bs.m[k], now, ttl) then Without(Unstale(bs, keys, among, now, ttl), k)
            else Unstale(bs, keys, among, now, ttl)
  {
    if keys != [] {
      UnstaleStep(bs, keys[1..], among, k, now, ttl);
      var rest := Unstale(bs, keys[1..], among, now, ttl);
      assert keys[0] in among + [k] <==> keys[0] in among || keys[0] == k;
      WithoutCons(keys[0], rest, k);
    }
  }

  lemma {:induction false} UnstaleAll(bs: Baselines, keys: seq<string>, among: seq<string>, now: int, ttl: int)
    requires (forall k :: k in keys ==> k in bs.m) && forall k :: k in keys ==> k in among
    ensures Unstale(bs, keys, among, now, ttl) == YoungKeys(bs, keys, now, ttl)
  {
    if keys != [] {
      UnstaleAll(bs, keys[1..], among, now, ttl);
    }
  }

  lemma {:induction false} UnstaleNone(bs: Baselines, keys: seq<string>, now: int, ttl: int)
    requires forall k :: k in keys ==> k in bs.m
    ensures Unstale(bs, keys, [], now, ttl) == keys
  {
    if keys != [] {
      UnstaleNone(bs, keys[1..], now, ttl);
    }
  }

  lemma DropStaleLast(bs: Baselines, front: seq<string>, last: string, now: int, ttl: int)
    requires last in bs.m
    ensures DropStale(bs, front + [last], now, ttl).keys ==
            if Stale(bs.m[last], now, ttl) then Without(DropStale(bs, front, now, ttl).keys, last)
            else DropStale(bs, front, now, ttl).keys
  {
    assert (front + [last])[..|front|] == front;
  }

  lemma {:induction false} DropStaleKeys(bs: Baselines, among: seq<string>, now: int, ttl: int)
    requires bs.Valid() && forall k :: k in among ==> k in bs.m
    ensures DropStale(bs, among, now, ttl).keys == Unstale(bs, bs.keys, among, now, ttl)
  {
    if among == [] {
      UnstaleNone(bs, bs.keys, now, ttl);
    } else {
      var front, last := among[..|among| - 1], among[|among| - 1];
      DropStaleKeys(bs, front, now, ttl);
      DropStaleLast(bs, front, last, now, ttl);
      UnstaleStep(bs, bs.keys, front, last, now, ttl);
      assert among == front + [last];
    }
  }

  /** Eviction keeps exactly the newest maxBaselines of the entries no older than ttl, in order. */
  lemma EvictKeepsTheNewest(bs: Baselines, now: int, cfg: Config)
    requires bs.Valid()
    ensures Evict(bs, now, cfg).keys == NewestYoung(bs, now, cfg)
  {
    DropStaleKeys(bs, bs.keys, now, cfg.ttl);
    UnstaleAll(bs, bs.keys, bs.keys, now, cfg.ttl);
    TrimToIsNewest(DropStale(bs, bs.keys, now, cfg.ttl), cfg.maxBaselines);
  }

  lemma {:induction false} TrimToIsNewest(bs: Baselines, max: nat)
    ensures TrimTo(bs, max).keys == if |bs.keys| > max then bs.keys[|bs.keys| - max..] else bs.keys
    decreases |bs.keys|
  {
    if |bs.keys| > max {
      TrimToIsNewest(bs.PopFirst(), max);
    }
  }

  /** Eviction only forgets: what is left is unchanged. */
  lemma EvictKeeps(bs: Baselines, now: int, cfg: Config)
    requires ValidTable(bs)
    ensures ValidTable(Evict(bs, now, cfg))
    ensures forall id :: id in Evict(bs, now, cfg).m ==>
              id in bs.m && Evict(bs, now, cfg).m[id] == bs.m[id] && now <= bs.m[id].createdAt + cfg.ttl
    ensures |Evict(bs, now, cfg).keys| <= cfg.maxBaselines
  {
    DropStaleKeeps(bs, bs.keys, now, cfg.ttl);
    TrimToKeeps(DropStale(bs, bs.keys, now, cfg.ttl), cfg.maxBaselines);
  }

  lemma {:induction false} DropStaleKeeps(bs: Baselines, keys: seq<string>, now: int, ttl: int)
    requires bs.Valid()
    ensures DropStale(bs, keys, now, ttl).Valid()
    ensures forall id :: id in DropStale(bs, keys, now, ttl).m <==>
              id in bs.m && !(id in keys && Stale(bs.m[id], now, ttl))
    ensures forall id :: id in DropStale(bs, keys, now, ttl).m ==>
              DropStale(bs, keys, now, ttl).m[id] == bs.m[id]
  {
    if keys != [] {
      var k := keys[|keys| - 1];
      DropStaleKeeps(bs, keys[..|keys| - 1], now, ttl);
      assert keys == keys[..|keys| - 1] + [k];
      RemoveValid(DropStale(bs, keys[..|keys| - 1], now, ttl), k);
    }
  }

  lemma {:induction false} TrimToKeeps(bs: Baselines, max: nat)
    requires bs.Valid()
    ensures TrimTo(bs, max).Valid() && |TrimTo(bs, max).keys| <= max
    ensures forall id :: id in TrimTo(bs, max).m ==> id in bs.m && TrimTo(bs, max).m[id] == bs.m[id]
    decreases |bs.keys|
  {
    if |bs.keys| > max {
      PopFirstValid(bs);
      TrimToKeeps(bs.PopFirst(), max);
    }
  }

  lemma StoreKeeps(bs: Baselines, id: string, b: Baseline)
    requires ValidTable(bs) && b.data.Valid()
    ensures ValidTable(bs.Put(id, b)) && ValidTable(bs.Put(id, b).MoveToEnd(id))
  {
    PutValid(bs, id, b);
    MoveToEndValid(bs.Put(id, b), id);
  }

  lemma CompressKeptKeeps(kept: Baselines, now: int, id: string, spec: Spec)
    requires ValidTable(kept) && spec.Valid()
    ensures ValidTable(CompressKept(kept, now, id, spec).0)
    ensures ValidPayload(CompressKept(kept, now, id, spec).1)
  {
    if id in kept.m {
      DeltaMeaning(spec, kept.m[id].data);
      StoreKeeps(kept, id, Baseline(spec, Digest(spec.m), now, kept.m[id].version + 1));
    } else {
      StoreKeeps(kept, id, Baseline(spec, Digest(spec.m), now, 1));
    }
  }

  /** The sender then holds exactly the compressed spec for this id, and every
      other entry is one it held before, unchanged. */
  lemma CompressHolds(bs: Baselines, now: int, id: string, spec: Spec, cfg: Config)
    requires ValidTable(bs) && spec.Valid()
    ensures ValidTable(Evict(bs, now, cfg))
    ensures ValidTable(Compress(bs, now, id, spec, cfg).0)
    ensures ValidPayload(Compress(bs, now, id, spec, cfg).1)
    ensures var after := Compress(bs, now, id, spec, cfg).0.m;
            && id in after && SameFields(spec.m, after[id].data.m)
            && (forall i :: i in after && i != id ==> i in bs.m && after[i] == bs.m[i])
  {
    EvictKeeps(bs, now, cfg);
    var kept := Evict(bs, now, cfg);
    CompressKeptKeeps(kept, now, id, spec);
    if id in kept.m {
      EmptyDelta(spec, kept.m[id].data);
    }
  }

  /** What compress does by the age of the baseline. One that is too old, or was never there,
      gives way to a full payload and a first version; one that is young enough and among the
      newest is built upon; every other entry left is young enough. */
  lemma CompressByAge(bs: Baselines, now: int, id: string, spec: Spec, cfg: Config)
    requires ValidTable(bs) && spec.Valid()
    ensures ValidTable(Evict(bs, now, cfg))
    ensures var (after, payload) := Compress(bs, now, id, spec, cfg);
            && (forall i :: i in after.m && i != id ==> now <= after.m[i].createdAt + cfg.ttl)
            && ((id in bs.m ==> now > bs.m[id].createdAt + cfg.ttl) ==> SendsInFull(after, payload, now, id, spec))
            && (id !in NewestYoung(bs, now, cfg) ==> SendsInFull(after, payload, now, id, spec))
            && (id in NewestYoung(bs, now, cfg) ==> id in bs.m && BuildsOn(bs.m[id], after, payload, now, id, spec))
  {
    EvictKeeps(bs, now, cfg);
    EvictKeepsTheNewest(bs, now, cfg);
    CompressKeptAnswers(Evict(bs, now, cfg), now, id, spec);
  }

  /** The id is then the last key, unless nothing changed. */
  lemma CompressKeptAnswers(kept: Baselines, now: int, id: string, spec: Spec)
    requires ValidTable(kept) && spec.Valid()
    ensures var (after, payload) := CompressKept(kept, now, id, spec);
            && (id !in kept.m ==> SendsInFull(after, payload, now, id, spec))
            && (id in kept.m ==> BuildsOn(kept.m[id], after, payload, now, id, spec))
            && (forall i :: i in after.m && i != id ==> i in kept.m && after.m[i] == kept.m[i])
            && after.keys == (if id in kept.m && SameFields(spec.m, kept.m[id].data.m) then kept.keys
                              else Without(kept.keys, id) + [id])
  {
    if id in kept.m {
      EmptyDelta(spec, kept.m[id].data);
    } else {
      WithoutLast(kept.keys, id);
    }
  }

  /** The whole spec goes out, and is the first version of a baseline made now. */
  ghost predicate SendsInFull(after: Baselines, payload: Payload, now: int, id: string, spec: Spec) {
    && payload == Payload(Some(true), Some(spec), None, None, None, None)
    && id in after.m && after.m[id] == Baseline(spec, Digest(spec.m), now, 1)
  }

  /** An equal spec leaves the baseline as it is, and is announced by its checksum and version;
      another is the next version, made now, and is sent as a delta from the checksum held. */
  ghost predicate BuildsOn(b: Baseline, after: Baselines, payload: Payload, now: int, id: string, spec: Spec) {
    && id in after.m && payload.full == Some(false) && payload.spec == None && payload.delta.Some?
    && if SameFields(spec.m, b.data.m) then
         && after.m[id] == b && payload.delta == Some(Empty())
         && payload.checksum == Some(b.checksum) && payload.baselineChecksum == None
         && payload.version == Some(b.version)
       else
         && after.m[id] == Baseline(spec, Digest(spec.m), now, b.version + 1)
         && payload.checksum == Some(Digest(spec.m)) && payload.baselineChecksum == Some(b.checksum)
         && payload.version == Some(b.version + 1)
  }

  /** What a receiver makes of any payload. One without "full" counts as full, and as empty
      without a spec; a delta from an unknown id or another checksum is refused and changes
      nothing; an accepted delta keeps the age of the baseline, and without a checksum or a
      version of its own gets those of the result. */
  lemma DecompressAnyPayload(bs: Baselines, now: int, id: string, p: Payload)
    requires ValidPayload(p)
    ensures var r := Decompress(bs, now, id, p);
            if p.full != Some(false) then
              var spec := if p.spec.Some? then p.spec.value else Dict([], map[]);
              r.success && r.spec == spec && r.table == bs.Put(id, Baseline(spec, Digest(spec.m), now, 1))
            else if id !in bs.m || (p.baselineChecksum.Some? && p.baselineChecksum.value != bs.m[id].checksum) then
              !r.success && r.spec == Dict([], map[]) && r.table == bs
            else
              && r.success && id in r.table.m && r.table.m[id].data == r.spec
              && r.table.m[id].createdAt == bs.m[id].createdAt
              && r.table.m[id].checksum == (if p.checksum.Some? then p.checksum.value else Digest(r.spec.m))
              && r.table.m[id].version == (if p.version.Some? then p.version.value else bs.m[id].version + 1)
              && (p.delta == None ==> r.spec == bs.m[id].data)
              && forall i :: i != id ==> (i in r.table.m <==> i in bs.m) && (i in bs.m ==> r.table.m[i] == bs.m[i])
  {
  }
}
