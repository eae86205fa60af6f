/** The compressor object: its baseline table is changed in place. */
module SpecCompressor {
  import opened JsonValues
  import opened Dicts
  import opened SpecDelta

  class SpecDeltaCompressor {
    var baselines: Baselines
    const cfg: Config

    ghost predicate Valid()
      reads this
    {
      ValidTable(baselines)
    }

    constructor (maxBaselines: nat, ttl: int)
      ensures Valid() && baselines == Empty() && cfg == Config(maxBaselines, ttl)
    {
      baselines := Empty();
      cfg := Config(maxBaselines, ttl);
    }

    method ComputeDelta(current: Spec, base: Spec) returns (delta: Spec, hasChanges: bool)
      requires current.Valid() && base.Valid()
      ensures delta == Delta(current, base)
      ensures hasChanges <==> delta.keys != []
      ensures hasChanges <==> !SameFields(current.m, base.m)
    {
      delta, hasChanges := CollectChanges(current, base);
      delta, hasChanges := CollectRemovals(current, base, delta, hasChanges);
      EmptyDelta(current, base);
    }

    /** The new and changed keys. */
    method CollectChanges(current: Spec, base: Spec) returns (delta: Spec, hasChanges: bool)
      requires current.Valid() && base.Valid()
      ensures delta == Changes(current, base, |current.keys|) && (hasChanges <==> delta.keys != [])
    {
      delta, hasChanges := Empty(), false;
      for i := 0 to |current.keys|
        invariant delta == Changes(current, base, i)
        invariant hasChanges <==> delta.keys != []
      {
        var key := current.keys[i];
        if key !in base.m || !PyEq(current.m[key], base.m[key]) {
          ChangesValid(current, base, i);
          delta, hasChanges := delta.Put(key, current.m[key]), true;
        }
      }
    }

    /** The markers of the removed keys, on top of those. */
    method CollectRemovals(current: Spec, base: Spec, changes: Spec, changed: bool)
      returns (delta: Spec, hasChanges: bool)
      requires current.Valid() && base.Valid()
      requires changes == Changes(current, base, |current.keys|) && (changed <==> changes.keys != [])
      ensures delta == Delta(current, base) && (hasChanges <==> delta.keys != [])
    {
      delta, hasChanges := changes, changed;
      for i := 0 to |base.keys|
        invariant delta == Removals(current, base, i)
        invariant hasChanges <==> delta.keys != []
      {
        var key := base.keys[i];
        if key !in current.m {
          RemovalsValid(current, base, i);
          delta, hasChanges := delta.Put(Marker(key), Null), true;
        }
      }
    }

    method EvictStaleBaselines(now: int)
      requires Valid()
      modifies this`baselines
      ensures Valid() && baselines == Evict(old(baselines), now, cfg)
    {
      var before := baselines;
      for i := 0 to |before.keys|
        invariant baselines == DropStale(before, before.keys[..i], now, cfg.ttl)
      {
        assert before.keys[..i + 1][..|before.keys[..i + 1]| - 1] == before.keys[..i];
        var key := before.keys[i];
        if now - before.m[key].createdAt > cfg.ttl {
          baselines := baselines.Remove(key);
        }
      }
      assert before.keys[..|before.keys|] == before.keys;
      while |baselines.keys| > cfg.maxBaselines
        invariant TrimTo(baselines, cfg.maxBaselines) == Evict(before, now, cfg)
        decreases |baselines.keys|
      {
        baselines := baselines.PopFirst();
      }
      EvictKeeps(before, now, cfg);
    }

    method Compress(now: int, id: string, spec: Spec) returns (payload: Payload)
      requires Valid() && spec.Valid()
      modifies this`baselines
      ensures Valid() && old(ValidTable(Evict(baselines, now, cfg)))
      ensures (baselines, payload) == old(SpecDelta.Compress(baselines, now, id, spec, cfg))
    {
      EvictKeeps(baselines, now, cfg);
      EvictStaleBaselines(now);
      payload := CompressAgainstBaseline(now, id, spec);
    }

    method CompressAgainstBaseline(now: int, id: string, spec: Spec) returns (payload: Payload)
      requires Valid() && spec.Valid()
      modifies this`baselines
      ensures Valid()
      ensures (baselines, payload) == old(CompressKept(baselines, now, id, spec))
    {
      if id !in baselines.m {
        StoreNewest(id, Baseline(spec, Digest(spec.m), now, 1));
        return FullPayload(spec);
      }
      payload := CompressChanges(baselines.m[id], now, id, spec);
    }

    method CompressChanges(b: Baseline, now: int, id: string, spec: Spec) returns (payload: Payload)
      requires Valid() && spec.Valid() && id in baselines.m && b == baselines.m[id]
      modifies this`baselines
      ensures Valid()
      ensures (baselines, payload) == old(CompressKept(baselines, now, id, spec))
    {
      var delta, hasChanges := ComputeDelta(spec, b.data);
      if !hasChanges {
        return UnchangedPayload(b);
      }
      payload := Payload(Some(false), None, Some(delta), Some(Digest(spec.m)),
                         Some(b.checksum), Some(b.version + 1));
      StoreNewest(id, Baseline(spec, Digest(spec.m), now, b.version + 1));
    }

    method ApplyDelta(base: Spec, delta: Spec) returns (spec: Spec)
      requires base.Valid() && delta.Valid()
      ensures spec.Valid() && spec == Apply(base, delta)
    {
      spec := base;
      for i := 0 to |delta.keys|
        invariant spec == Applied(base, delta, i)
      {
        var key := delta.keys[i];
        if IsRemoval(key) {
          spec := spec.Remove(Unmarked(key));
        } else {
          spec := spec.Put(key, delta.m[key]);
        }
      }
      AppliedValid(base, delta, |delta.keys|);
    }

    method StoreNewest(id: string, b: Baseline)
      requires Valid() && b.data.Valid()
      modifies this`baselines
      ensures Valid() && baselines == old(baselines).Put(id, b).MoveToEnd(id)
    {
      StoreKeeps(baselines, id, b);
      StoreBaseline(id, b);
      baselines := baselines.MoveToEnd(id);
    }

    method StoreBaseline(id: string, b: Baseline)
      requires Valid() && b.data.Valid()
      modifies this`baselines
      ensures Valid() && baselines == old(baselines).Put(id, b)
    {
      StoreKeeps(baselines, id, b);
      baselines := baselines.Put(id, b);
    }

    method Decompress(now: int, id: string, p: Payload) returns (spec: Spec, success: bool)
      requires Valid() && ValidPayload(p)
      modifies this`baselines
      ensures Valid()
      ensures Received(baselines, spec, success) == old(SpecDelta.Decompress(baselines, now, id, p))
    {
      if GetOr(p.full, true) {
        spec := GetOr(p.spec, Empty());
        var b := Baseline(spec, Digest(spec.m), now, 1);
        StoreBaseline(id, b);
        return spec, true;
      }
      if id !in baselines.m {
        return Empty(), false;
      }
      var b := baselines.m[id];
      if p.baselineChecksum.Some? && p.baselineChecksum.value != b.checksum {
        return Empty(), false;
      }
      var delta := GetOr(p.delta, Empty());
      spec := ApplyDelta(b.data, delta);
      var next := Baseline(spec, GetOr(p.checksum, Digest(spec.m)), b.createdAt,
                           GetOr(p.version, b.version + 1));
      StoreBaseline(id, next);
      success := true;
    }
  }
}
