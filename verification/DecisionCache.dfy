/** The governance decision cache. Looking up and storing hold the lock; the upstream call
    between them does not, so lookups, answers and invalidations interleave freely. */
module DecisionCache {
  import opened JsonValues
  import opened Dicts

  datatype Decision = Decision(allowed: bool, reason: string, expiresAt: int)

  type Cache = Dict<string, Decision>

  datatype Config = Config(maxSize: int, negativeCaching: bool)

  datatype State = State(cache: Cache, hits: nat, misses: nat, evictions: nat, upstreamCalls: nat,
                         inFlight: multiset<string>)

  datatype Event =
    | Ask(key: string, now: int)               // the first locked section
    | Answer(key: string, decision: Decision)  // an upstream call returns and is stored
    | GiveUp(key: string)                      // an upstream call is cancelled
    | InvalidateAll
    | InvalidateMatching(pattern: string)

  predicate Expired(d: Decision, now: int) {
    now > d.expiresAt
  }

  predicate Cacheable(d: Decision, cfg: Config) {
    d.allowed || cfg.negativeCaching
  }

  function Lookup(c: Cache, key: string, now: int): Option<Decision> {
    if key in c.m && !Expired(c.m[key], now) then Some(c.m[key]) else None
  }

  function AfterLookup(c: Cache, key: string, now: int): Cache {
    if key !in c.m then c
    else if Expired(c.m[key], now) then c.Remove(key)
    else c.MoveToEnd(key)
  }

  /** _cache_decision: room is made even when the key is there already. */
  function AfterStore(c: Cache, key: string, d: Decision, cfg: Config): Cache
    requires cfg.maxSize >= 1
  {
    if Cacheable(d, cfg) then MakeRoom(c, cfg.maxSize).Put(key, d).MoveToEnd(key) else c
  }

  function Evicted(c: Cache, d: Decision, cfg: Config): nat
    requires cfg.maxSize >= 1
  {
    if Cacheable(d, cfg) then |c.keys| - |MakeRoom(c, cfg.maxSize).keys| else 0
  }

  /** pattern in key */
  predicate Contains(key: string, pattern: string) {
    pattern <= key || (key != "" && Contains(key[1..], pattern))
  }

  /** The pattern occurs somewhere in the key. */
  ghost predicate Occurs(pattern: string, key: string) {
    exists i :: StandsAt(pattern, key, i)
  }

  ghost predicate StandsAt(pattern: string, key: string, i: int) {
    0 <= i <= |key| - |pattern| && key[i..i + |pattern|] == pattern
  }

  lemma {:induction false} ContainsMeaning(key: string, pattern: string)
    ensures Contains(key, pattern) <==> Occurs(pattern, key)
  {
    if pattern <= key {
      assert StandsAt(pattern, key, 0);
    } else if key != "" {
      ContainsMeaning(key[1..], pattern);
      if Occurs(pattern, key[1..]) {
        var i :| StandsAt(pattern, key[1..], i);
        assert key[1..][i..i + |pattern|] == key[i + 1..i + 1 + |pattern|];
        assert StandsAt(pattern, key, i + 1);
      }
      if Occurs(pattern, key) {
        var i :| StandsAt(pattern, key, i);
        assert i > 0;
        assert key[1..][i - 1..i - 1 + |pattern|] == key[i..i + |pattern|];
        assert StandsAt(pattern, key[1..], i - 1);
      }
    }
  }

  /** The keys removed one by one, in order. */
  function DropMatching(c: Cache, pattern: string, keys: seq<string>): Cache {
    if keys == [] then c else
      var rest := DropMatching(c, pattern, keys[..|keys| - 1]);
      if Contains(keys[|keys| - 1], pattern) then rest.Remove(keys[|keys| - 1]) else rest
  }

  function Answered(s: State, key: string, d: Decision, cfg: Config): State
    requires cfg.maxSize >= 1
  {
    s.(cache := AfterStore(s.cache, key, d, cfg),
       evictions := s.evictions + Evicted(s.cache, d, cfg),
       inFlight := s.inFlight - multiset{key})
  }

  function Step(s: State, e: Event, cfg: Config): State
    requires cfg.maxSize >= 1
  {
    match e
    case Ask(key, now) =>
      var asked := s.(cache := AfterLookup(s.cache, key, now));
      if Lookup(s.cache, key, now).Some? then asked.(hits := s.hits + 1)
      else asked.(misses := s.misses + 1, upstreamCalls := s.upstreamCalls + 1,
                  inFlight := s.inFlight + multiset{key})
    case Answer(key, d) => Answered(s, key, d, cfg)
    case GiveUp(key) => s.(inFlight := s.inFlight - multiset{key})
    case InvalidateAll => s.(cache := Empty())
    case InvalidateMatching(pattern) => s.(cache := DropMatching(s.cache, pattern, s.cache.keys))
  }

  function Run(events: seq<Event>, cfg: Config): State
    requires cfg.maxSize >= 1
  {
    if events == [] then State(Empty(), 0, 0, 0, 0, multiset{})
    else Step(Run(events[..|events| - 1], cfg), events[|events| - 1], cfg)
  }

  /** Only a call in flight can be answered or cancelled. */
  ghost predicate Possible(events: seq<Event>, cfg: Config)
    requires cfg.maxSize >= 1
  {
    events == [] ||
      (&& Possible(events[..|events| - 1], cfg)
       && (var e := events[|events| - 1];
           e.Answer? || e.GiveUp? ==> e.key in Run(events[..|events| - 1], cfg).inFlight))
  }

  // ----- the size bound -----

  ghost predicate Sound(c: Cache, cfg: Config) {
    c.Valid() && |c.keys| <= cfg.maxSize
  }

  lemma LookupSound(c: Cache, key: string, now: int, cfg: Config)
    requires Sound(c, cfg)
    ensures Sound(AfterLookup(c, key, now), cfg)
  {
    if key in c.m {
      RemoveValid(c, key);
      MoveToEndValid(c, key);
    }
  }

  lemma StoreSound(c: Cache, key: string, d: Decision, cfg: Config)
    requires Sound(c, cfg) && cfg.maxSize >= 1
    ensures Sound(AfterStore(c, key, d, cfg), cfg)
  {
    MakeRoomKeeps(c, cfg.maxSize);
    var room := MakeRoom(c, cfg.maxSize);
    PutValid(room, key, d);
    MoveToEndValid(room.Put(key, d), key);
  }

  lemma {:induction false} DropMatchingKeeps(c: Cache, pattern: string, keys: seq<string>)
    requires c.Valid()
    ensures var r := DropMatching(c, pattern, keys);
            && r.Valid() && |r.keys| <= |c.keys|
            && forall k :: k in r.m <==> k in c.m && !(k in keys && Contains(k, pattern))
    ensures forall k :: k in DropMatching(c, pattern, keys).m ==>
              DropMatching(c, pattern, keys).m[k] == c.m[k]
  {
    if keys != [] {
      var front, last := keys[..|keys| - 1], keys[|keys| - 1];
      DropMatchingKeeps(c, pattern, front);
      RemoveValid(DropMatching(c, pattern, front), last);
      assert keys == front + [last];
    }
  }

  lemma DropMatchingLast(c: Cache, pattern: string, front: seq<string>, key: string)
    ensures DropMatching(c, pattern, front + [key])
         == if Contains(key, pattern) then DropMatching(c, pattern, front).Remove(key)
            else DropMatching(c, pattern, front)
  {
    assert (front + [key])[..|front|] == front;
  }

  lemma DropNext(c: Cache, pattern: string, i: nat)
    requires c.Valid() && i < |c.keys|
    ensures |DropMatching(c, pattern, c.keys[..i + 1]).keys|
         == |DropMatching(c, pattern, c.keys[..i]).keys| - if Contains(c.keys[i], pattern) then 1 else 0
  {
    var front, key := c.keys[..i], c.keys[i];
    var dropped := DropMatching(c, pattern, front);
    assert key in dropped.m && dropped.Valid() by {
      DropMatchingKeeps(c, pattern, front);
      assert key !in front;
    }
    RemoveValid(dropped, key);
    DropMatchingLast(c, pattern, front, key);
    assert c.keys[..i + 1] == front + [key];
  }

  /** In every interleaving the cache is never over its bound. */
  lemma {:induction false} NeverOverTheBound(events: seq<Event>, cfg: Config)
    requires cfg.maxSize >= 1
    ensures Sound(Run(events, cfg).cache, cfg)
  {
    if events != [] {
      var before, e := Run(events[..|events| - 1], cfg), events[|events| - 1];
      NeverOverTheBound(events[..|events| - 1], cfg);
      match e {
        case Ask(key, now) => LookupSound(before.cache, key, now, cfg);
        case Answer(key, d) => StoreSound(before.cache, key, d, cfg);
        case GiveUp(_) =>
        case InvalidateAll =>
        case InvalidateMatching(pattern) => DropMatchingKeeps(before.cache, pattern, before.cache.keys);
      }
    }
  }

  // ----- the counters -----

  /** The key is cached and has not expired. */
  ghost predicate Serves(c: Cache, key: string, now: int) {
    key in c.m && now <= c.m[key].expiresAt
  }

  /** The lookups that found their key cached and unexpired. */
  ghost function Served(events: seq<Event>, cfg: Config): nat
    requires cfg.maxSize >= 1
  {
    if events == [] then 0 else
      var front, e := events[..|events| - 1], events[|events| - 1];
      Served(front, cfg) + if e.Ask? && Serves(Run(front, cfg).cache, e.key, e.now) then 1 else 0
  }

  /** The answers to be cached that met a full cache. */
  ghost function MetFull(events: seq<Event>, cfg: Config): nat
    requires cfg.maxSize >= 1
  {
    if events == [] then 0 else
      var front, e := events[..|events| - 1], events[|events| - 1];
      MetFull(front, cfg) +
        if e.Answer? && Answers(e, e.key, cfg) && |Run(front, cfg).cache.keys| == cfg.maxSize then 1 else 0
  }

  lemma OneMakesRoom(c: Cache, max: int)
    requires c.Valid() && |c.keys| <= max && max >= 1
    ensures MakeRoom(c, max) == if |c.keys| == max then c.PopFirst() else c
  {
    if |c.keys| == max {
      assert |c.PopFirst().keys| == max - 1;
    }
  }

  lemma StepEvicts(s: State, e: Event, cfg: Config)
    requires cfg.maxSize >= 1 && Sound(s.cache, cfg)
    ensures var full := e.Answer? && Answers(e, e.key, cfg) && |s.cache.keys| == cfg.maxSize;
            Step(s, e, cfg).evictions == s.evictions + if full then 1 else 0
  {
    OneMakesRoom(s.cache, cfg.maxSize);
  }

  /** Each cacheable answer that meets a full cache evicts one entry, and nothing else does. */
  lemma {:induction false} EvictionsAreCounted(events: seq<Event>, cfg: Config)
    requires cfg.maxSize >= 1
    ensures Run(events, cfg).evictions == MetFull(events, cfg)
  {
    if events != [] {
      var front := events[..|events| - 1];
      EvictionsAreCounted(front, cfg);
      NeverOverTheBound(front, cfg);
      StepEvicts(Run(front, cfg), events[|events| - 1], cfg);
    }
  }

  function Asks(events: seq<Event>): nat {
    if events == [] then 0 else Asks(events[..|events| - 1]) + if events[|events| - 1].Ask? then 1 else 0
  }

  function Settled(events: seq<Event>): nat {
    if events == [] then 0 else
      var e := events[|events| - 1];
      Settled(events[..|events| - 1]) + if e.Answer? || e.GiveUp? then 1 else 0
  }

  /** Every lookup is a hit or a miss, a hit just when its key was served; every miss
      is one upstream call, settled or in flight. */
  lemma {:induction false} EveryLookupCounted(events: seq<Event>, cfg: Config)
    requires cfg.maxSize >= 1 && Possible(events, cfg)
    ensures var s := Run(events, cfg);
            && s.hits == Served(events, cfg) && s.hits + s.misses == Asks(events)
            && s.misses == s.upstreamCalls == Settled(events) + |s.inFlight|
  {
    if events != [] {
      EveryLookupCounted(events[..|events| - 1], cfg);
    }
  }

  // ----- what a hit rests on -----

  ghost predicate Invalidates(e: Event, key: string) {
    e.InvalidateAll? || (e.InvalidateMatching? && Occurs(e.pattern, key))
  }

  /** An answer for the key that is to be cached: a denial only with negative caching. */
  predicate Answers(e: Event, key: string, cfg: Config) {
    e.Answer? && e.key == key && (e.decision.allowed || cfg.negativeCaching)
  }

  /** The last cacheable answer for the key, unless the key has been invalidated since, or
      looked up when the answer had expired. */
  ghost function Latest(events: seq<Event>, key: string, cfg: Config): Option<Decision> {
    if events == [] then None else
      var e := events[|events| - 1];
      if Answers(e, key, cfg) then Some(e.decision)
      else if Invalidates(e, key) then None
      else
        var latest := Latest(events[..|events| - 1], key, cfg);
        if latest.Some? && e.Ask? && e.key == key && e.now > latest.value.expiresAt then None else latest
  }

  /** What the key has in `after` is what it had in `before`. */
  ghost predicate Unchanged(before: Cache, after: Cache, key: string) {
    key in after.m ==> key in before.m && after.m[key] == before.m[key]
  }

  lemma LookupKeepsDecision(c: Cache, k: string, now: int, key: string)
    ensures Unchanged(c, AfterLookup(c, k, now), key)
  {
  }

  lemma StoreKeepsLatest(c: Cache, k: string, d: Decision, key: string, cfg: Config)
    requires cfg.maxSize >= 1 && c.Valid()
    ensures var after := AfterStore(c, k, d, cfg);
            if k == key && (d.allowed || cfg.negativeCaching) then key in after.m ==> after.m[key] == d
            else Unchanged(c, after, key)
  {
    MakeRoomKeeps(c, cfg.maxSize);
  }

  lemma DropKeepsDecision(c: Cache, pattern: string, key: string)
    requires c.Valid()
    ensures Unchanged(c, DropMatching(c, pattern, c.keys), key)
    ensures key in DropMatching(c, pattern, c.keys).m <==> key in c.m && !Occurs(pattern, key)
  {
    DropMatchingKeeps(c, pattern, c.keys);
    ContainsMeaning(key, pattern);
  }

  /** A step that leaves a key cached leaves its decision, unless it answers the key. */
  lemma StepKeepsDecision(s: State, e: Event, key: string, cfg: Config)
    requires cfg.maxSize >= 1 && s.cache.Valid()
    ensures var after := Step(s, e, cfg).cache;
            if Answers(e, key, cfg) then key in after.m ==> after.m[key] == e.decision
            else Unchanged(s.cache, after, key) && (Invalidates(e, key) ==> key !in after.m)
  {
    match e {
      case Ask(k, now) => LookupKeepsDecision(s.cache, k, now, key);
      case Answer(k, d) => StoreKeepsLatest(s.cache, k, d, key, cfg);
      case GiveUp(_) =>
      case InvalidateAll =>
      case InvalidateMatching(pattern) => DropKeepsDecision(s.cache, pattern, key);
    }
  }

  lemma ExpiredIsRemoved(s: State, e: Event, key: string, cfg: Config)
    requires cfg.maxSize >= 1 && e.Ask? && e.key == key && key in s.cache.m && e.now > s.cache.m[key].expiresAt
    ensures key !in Step(s, e, cfg).cache.m
  {
  }

  /** In every interleaving a cached decision is the latest one upstream gave for its key. */
  lemma {:induction false} CachedIsLatest(events: seq<Event>, key: string, cfg: Config)
    requires cfg.maxSize >= 1
    ensures var c := Run(events, cfg).cache;
            key in c.m ==> Latest(events, key, cfg) == Some(c.m[key])
  {
    if events != [] {
      var before := events[..|events| - 1];
      CachedIsLatest(before, key, cfg);
      NeverOverTheBound(before, cfg);
      var s, e := Run(before, cfg), events[|events| - 1];
      StepKeepsDecision(s, e, key, cfg);
      if e.Ask? && e.key == key && key in s.cache.m && e.now > s.cache.m[key].expiresAt {
        ExpiredIsRemoved(s, e, key, cfg);
      }
    }
  }

  /** The events after position i neither invalidate the key nor answer it again. */
  ghost predicate UndisturbedSince(events: seq<Event>, i: nat, key: string, cfg: Config) {
    forall j :: i < j < |events| ==>
      && !Invalidates(events[j], key)
      && !Answers(events[j], key, cfg)
  }

  lemma {:induction false} LatestIsAnAnswer(events: seq<Event>, key: string, cfg: Config) returns (i: nat)
    requires Latest(events, key, cfg).Some?
    ensures i < |events| && events[i] == Answer(key, Latest(events, key, cfg).value)
    ensures Latest(events, key, cfg).value.allowed || cfg.negativeCaching
    ensures UndisturbedSince(events, i, key, cfg)
  {
    var e := events[|events| - 1];
    if Answers(e, key, cfg) {
      i := |events| - 1;
    } else {
      i := LatestIsAnAnswer(events[..|events| - 1], key, cfg);
    }
  }

  /** A hit serves an answer upstream gave for that very key, the last one, unexpired and not
      invalidated since; a denial only where negative caching is on. */
  lemma HitsAreBacked(events: seq<Event>, key: string, now: int, cfg: Config)
    requires cfg.maxSize >= 1
    ensures var hit := Lookup(Run(events, cfg).cache, key, now);
            hit.Some? ==>
              && now <= hit.value.expiresAt
              && (hit.value.allowed || cfg.negativeCaching)
              && exists i :: 0 <= i < |events| && events[i] == Answer(key, hit.value)
                             && UndisturbedSince(events, i, key, cfg)
  {
    CachedIsLatest(events, key, cfg);
    if Lookup(Run(events, cfg).cache, key, now).Some? {
      var i := LatestIsAnAnswer(events, key, cfg);
    }
  }

  // ----- answers that arrive after an invalidation -----

  ghost predicate Asked(events: seq<Event>, key: string) {
    exists i :: 0 <= i < |events| && events[i].Ask? && events[i].key == key
  }

  lemma AskedGrows(events: seq<Event>, e: Event, key: string)
    requires Asked(events, key)
    ensures Asked(events + [e], key)
  {
    var i :| 0 <= i < |events| && events[i].Ask? && events[i].key == key;
    assert (events + [e])[i] == events[i];
  }

  lemma StepFromCleared(s: State, e: Event, key: string, cfg: Config)
    requires cfg.maxSize >= 1 && s.cache.Valid()
    requires key !in s.cache.m && key !in s.inFlight
    requires e.Answer? ==> e.key in s.inFlight
    requires !(e.Ask? && e.key == key)
    ensures key !in Step(s, e, cfg).cache.m && key !in Step(s, e, cfg).inFlight
  {
    StepKeepsDecision(s, e, key, cfg);
  }

  /** The key is cached or in flight only once it has been asked for. */
  ghost predicate FreshSince(s: State, after: seq<Event>, key: string) {
    key in s.cache.m || key in s.inFlight ==> Asked(after, key)
  }

  lemma FreshStep(s: State, after: seq<Event>, e: Event, key: string, cfg: Config)
    requires cfg.maxSize >= 1 && s.cache.Valid() && FreshSince(s, after, key)
    requires e.Answer? ==> e.key in s.inFlight
    ensures FreshSince(Step(s, e, cfg), after + [e], key)
  {
    if Asked(after, key) {
      AskedGrows(after, e, key);
    } else if e.Ask? && e.key == key {
      assert (after + [e])[|after|] == e;
    } else {
      StepFromCleared(s, e, key, cfg);
    }
  }

  lemma RunSnoc(events: seq<Event>, e: Event, cfg: Config)
    requires cfg.maxSize >= 1
    ensures Run(events + [e], cfg) == Step(Run(events, cfg), e, cfg)
    ensures Possible(events + [e], cfg) <==>
            Possible(events, cfg) && (e.Answer? || e.GiveUp? ==> e.key in Run(events, cfg).inFlight)
  {
    assert (events + [e])[..|events|] == events;
  }

  lemma {:induction false} FreshAfter(base: seq<Event>, after: seq<Event>, key: string, cfg: Config)
    requires cfg.maxSize >= 1 && Possible(base + after, cfg)
    requires FreshSince(Run(base, cfg), [], key)
    ensures FreshSince(Run(base + after, cfg), after, key)
  {
    if after == [] {
      assert base + after == base;
    } else {
      var front, e := after[..|after| - 1], after[|after| - 1];
      assert after == front + [e] && base + after == (base + front) + [e];
      RunSnoc(base + front, e, cfg);
      FreshAfter(base, front, key, cfg);
      NeverOverTheBound(base + front, cfg);
      FreshStep(Run(base + front, cfg), front, e, key, cfg);
    }
  }

  /** A key without a call in flight when it is invalidated, by itself or with everything, is
      cached, or in flight, only once it has been asked for again. */
  lemma FreshUnlessInFlight(before: seq<Event>, inv: Event, after: seq<Event>, key: string, cfg: Config)
    requires cfg.maxSize >= 1 && Invalidates(inv, key) && Possible(before + [inv] + after, cfg)
    requires key !in Run(before, cfg).inFlight
    ensures FreshSince(Run(before + [inv] + after, cfg), after, key)
  {
    RunSnoc(before, inv, cfg);
    NeverOverTheBound(before, cfg);
    StepKeepsDecision(Run(before, cfg), inv, key, cfg);
    FreshAfter(before + [inv], after, key, cfg);
  }

  /** A key with a call in flight has no such protection: the answer to a question asked
      before the invalidation is cached after it. */
  lemma InFlightAnswersSurviveInvalidation(before: seq<Event>, inv: Event, key: string, d: Decision, cfg: Config)
    requires cfg.maxSize >= 1 && Possible(before, cfg) && Invalidates(inv, key)
    requires key in Run(before, cfg).inFlight && (d.allowed || cfg.negativeCaching)
    ensures var events := before + [inv] + [Answer(key, d)];
            && Possible(events, cfg)
            && forall now :: now <= d.expiresAt ==> Lookup(Run(events, cfg).cache, key, now) == Some(d)
  {
    RunSnoc(before, inv, cfg);
    RunSnoc(before + [inv], Answer(key, d), cfg);
  }

  // ----- what stays cached -----

  /** The event stores this decision for the key, or is a hit on it. */
  ghost predicate Uses(before: State, e: Event, key: string, d: Decision, cfg: Config) {
    || (e == Answer(key, d) && (d.allowed || cfg.negativeCaching))
    || (e.Ask? && e.key == key && Serves(before.cache, key, e.now) && before.cache.m[key] == d)
  }

  /** The event is about other keys. */
  ghost predicate Spares(e: Event, key: string) {
    !Invalidates(e, key) && (e.Ask? || e.Answer? ==> e.key != key)
  }

  function TouchedBy(e: Event): set<string> {
    if e.Ask? || e.Answer? then {e.key} else {}
  }

  function Touched(events: seq<Event>): set<string> {
    if events == [] then {} else Touched(events[..|events| - 1]) + TouchedBy(events[|events| - 1])
  }

  /** The key is cached with this decision, and only these are newer. */
  ghost predicate Recent(c: Cache, key: string, d: Decision, newer: set<string>) {
    key in c.m && c.m[key] == d && Newer(c.keys, key) <= newer
  }

  lemma UsedIsNewest(s: State, e: Event, key: string, d: Decision, cfg: Config)
    requires cfg.maxSize >= 1 && Sound(s.cache, cfg) && Uses(s, e, key, d, cfg)
    ensures Recent(Step(s, e, cfg).cache, key, d, {})
  {
    var c := Step(s, e, cfg).cache;
    if e.Answer? {
      StoreSound(s.cache, key, d, cfg);
    } else {
      LookupSound(s.cache, key, e.now, cfg);
    }
    assert c.keys[|c.keys| - 1] == key;
    NewestHasNoNewer(c.keys);
  }

  lemma MovedKeepsRecent(c: Cache, x: string, key: string, d: Decision, newer: set<string>)
    requires c.Valid() && x in c.m && x != key && Recent(c, key, d, newer)
    ensures Recent(c.Remove(x), key, d, newer) && Recent(c.MoveToEnd(x), key, d, newer + {x})
  {
    NewerWithout(c.keys, key, x);
    NewerAppend(Without(c.keys, x), key, x);
  }

  lemma PutKeepsRecent(c: Cache, x: string, v: Decision, key: string, d: Decision, newer: set<string>)
    requires c.Valid() && x != key && Recent(c, key, d, newer)
    ensures Recent(c.Put(x, v), key, d, newer + {x})
  {
    if x !in c.m {
      NewerAppend(c.keys, key, x);
    }
  }

  /** The oldest entry is not the key while there is room for one more newer. */
  lemma RoomKeepsRecent(c: Cache, key: string, d: Decision, newer: set<string>, cfg: Config)
    requires cfg.maxSize >= 1 && Sound(c, cfg) && Recent(c, key, d, newer) && |newer| < cfg.maxSize - 1
    ensures Recent(MakeRoom(c, cfg.maxSize), key, d, newer) && MakeRoom(c, cfg.maxSize).Valid()
  {
    OneMakesRoom(c, cfg.maxSize);
    NewerCount(c.keys, key);
    SubsetSize(Newer(c.keys, key), newer);
    if |c.keys| == cfg.maxSize {
      PopFirstValid(c);
    }
  }

  lemma AnswerKeepsRecent(c: Cache, x: string, v: Decision, key: string, d: Decision, newer: set<string>, cfg: Config)
    requires cfg.maxSize >= 1 && Sound(c, cfg) && x != key
    requires Recent(c, key, d, newer) && |newer| < cfg.maxSize - 1
    ensures Recent(AfterStore(c, x, v, cfg), key, d, newer + {x})
  {
    var room := MakeRoom(c, cfg.maxSize);
    RoomKeepsRecent(c, key, d, newer, cfg);
    PutKeepsRecent(room, x, v, key, d, newer);
    PutValid(room, x, v);
    MovedKeepsRecent(room.Put(x, v), x, key, d, newer + {x});
    assert newer + {x} + {x} == newer + {x};
  }

  lemma {:induction false} DropKeepsRecent(c: Cache, pattern: string, keys: seq<string>, key: string, d: Decision,
                                           newer: set<string>)
    requires c.Valid() && Recent(c, key, d, newer) && !Contains(key, pattern)
    ensures Recent(DropMatching(c, pattern, keys), key, d, newer)
  {
    if keys != [] {
      var front, last := keys[..|keys| - 1], keys[|keys| - 1];
      DropKeepsRecent(c, pattern, front, key, d, newer);
      DropMatchingKeeps(c, pattern, front);
      if last != key {
        NewerWithout(DropMatching(c, pattern, front).keys, key, last);
      }
    }
  }

  lemma StepKeepsRecent(s: State, e: Event, key: string, d: Decision, newer: set<string>, cfg: Config)
    requires cfg.maxSize >= 1 && Sound(s.cache, cfg) && Spares(e, key)
    requires Recent(s.cache, key, d, newer) && |newer| < cfg.maxSize - 1
    ensures Recent(Step(s, e, cfg).cache, key, d, newer + TouchedBy(e))
  {
    match e
    case Ask(x, now) =>
      if x in s.cache.m {
        MovedKeepsRecent(s.cache, x, key, d, newer);
      }
    case Answer(x, v) => AnswerKeepsRecent(s.cache, x, v, key, d, newer, cfg);
    case GiveUp(_) =>
    case InvalidateAll =>
    case InvalidateMatching(pattern) =>
      ContainsMeaning(key, pattern);
      DropKeepsRecent(s.cache, pattern, s.cache.keys, key, d, newer);
  }

  ghost predicate AllSpare(events: seq<Event>, key: string) {
    forall e :: e in events ==> Spares(e, key)
  }

  lemma {:induction false} RecentStays(base: seq<Event>, after: seq<Event>, key: string, d: Decision, cfg: Config)
    requires cfg.maxSize >= 1 && Recent(Run(base, cfg).cache, key, d, {}) && AllSpare(after, key)
    requires |Touched(after)| < cfg.maxSize - 1
    ensures Recent(Run(base + after, cfg).cache, key, d, Touched(after))
  {
    if after == [] {
      assert base + after == base;
    } else {
      var front, e := after[..|after| - 1], after[|after| - 1];
      assert after == front + [e] && base + after == (base + front) + [e];
      SubsetSize(Touched(front), Touched(after));
      RunSnoc(base + front, e, cfg);
      RecentStays(base, front, key, d, cfg);
      NeverOverTheBound(base + front, cfg);
      StepKeepsRecent(Run(base + front, cfg), e, key, d, Touched(front), cfg);
    }
  }

  /** A decision stored or hit is served until it expires, and no longer, as long as it is not
      invalidated and fewer than maxSize - 1 other keys are asked or answered. */
  lemma RecentlyUsedIsServed(base: seq<Event>, use: Event, after: seq<Event>, key: string, d: Decision, now: int,
                             cfg: Config)
    requires cfg.maxSize >= 1 && Uses(Run(base, cfg), use, key, d, cfg)
    requires AllSpare(after, key) && |Touched(after)| < cfg.maxSize - 1
    ensures Lookup(Run(base + [use] + after, cfg).cache, key, now) == if now <= d.expiresAt then Some(d) else None
  {
    RunSnoc(base, use, cfg);
    NeverOverTheBound(base, cfg);
    UsedIsNewest(Run(base, cfg), use, key, d, cfg);
    RecentStays(base + [use], after, key, d, cfg);
  }

  /** Room is made even for a key that has its place: storing it again in a full cache evicts
      the oldest entry, and leaves a place empty. */
  lemma RestoringEvictsTheOldest(s: State, x: string, v: Decision, cfg: Config)
    requires cfg.maxSize >= 1 && Sound(s.cache, cfg) && |s.cache.keys| == cfg.maxSize
    requires x in s.cache.m && x != s.cache.keys[0] && (v.allowed || cfg.negativeCaching)
    ensures var c := Step(s, Answer(x, v), cfg).cache;
            s.cache.keys[0] !in c.m && |c.keys| == cfg.maxSize - 1 && c.m[x] == v
  {
    OneMakesRoom(s.cache, cfg.maxSize);
    var room := s.cache.PopFirst();
    PopFirstValid(s.cache);
    MoveToEndValid(room.Put(x, v), x);
  }

  lemma StoredNew(c: Cache, key: string, d: Decision, cfg: Config)
    requires |c.keys| < cfg.maxSize && key !in c.m && key !in c.keys && d.allowed
    ensures AfterStore(c, key, d, cfg) == Dict(c.keys + [key], c.m[key := d])
  {
    WithoutLast(c.keys, key);
  }

  function OneAnswered(k: string, d: Decision): seq<Event> {
    [Ask(k, 0)] + [Answer(k, d)]
  }

  lemma OneCached(k: string, d: Decision)
    requires d.allowed
    ensures var s := Run(OneAnswered(k, d), Config(2, true));
            s.cache == Dict([k], map[k := d]) && s.inFlight == multiset{}
    ensures Possible(OneAnswered(k, d), Config(2, true))
  {
    StoredNew(Empty(), k, d, Config(2, true));
    RunSnoc([], Ask(k, 0), Config(2, true));
    RunSnoc([Ask(k, 0)], Answer(k, d), Config(2, true));
    assert [] + [Ask(k, 0)] == [Ask(k, 0)];
  }

  /** After two misses and one answer for it another key is there, and in flight once more. */
  lemma TwoMisses(base: seq<Event>, x: string, v: Decision, cfg: Config)
    requires cfg.maxSize >= 1 && Possible(base, cfg) && v.allowed
    requires var c := Run(base, cfg).cache; x !in c.m && x !in c.keys && |c.keys| < cfg.maxSize
    ensures var after, c := base + [Ask(x, 0)] + [Ask(x, 0)] + [Answer(x, v)], Run(base, cfg).cache;
            && Possible(after, cfg) && x in Run(after, cfg).inFlight
            && Run(after, cfg).cache == Dict(c.keys + [x], c.m[x := v])
  {
    var one, two := base + [Ask(x, 0)], base + [Ask(x, 0)] + [Ask(x, 0)];
    RunSnoc(base, Ask(x, 0), cfg);
    RunSnoc(one, Ask(x, 0), cfg);
    RunSnoc(two, Answer(x, v), cfg);
    StoredNew(Run(two, cfg).cache, x, v, cfg);
  }

  /** Two calls for one key in flight at once do so: with room for two, the second answer evicts
      the other key, though one place is enough for each. */
  lemma TwoCallsEvictAnotherKey(k: string, x: string, d: Decision, v: Decision)
    requires k != x && d.allowed && v.allowed
    ensures var cfg := Config(2, true);
            var after := [Ask(x, 0), Ask(x, 0), Answer(x, v), Answer(x, v)];
            var events := [Ask(k, 0), Answer(k, d)] + after;
            Possible(events, cfg) && k !in Run(events, cfg).cache.m && Touched(after) == {x}
  {
    var cfg, first := Config(2, true), OneAnswered(k, d);
    var after := [Ask(x, 0), Ask(x, 0), Answer(x, v), Answer(x, v)];
    OneCached(k, d);
    TwoMisses(first, x, v, cfg);
    var full := first + [Ask(x, 0)] + [Ask(x, 0)] + [Answer(x, v)];
    RunSnoc(full, Answer(x, v), cfg);
    NeverOverTheBound(full, cfg);
    RestoringEvictsTheOldest(Run(full, cfg), x, v, cfg);
    InOneSequence(k, x, d, v);
    OnlyX(x, v);
  }

  lemma OnlyX(x: string, v: Decision)
    ensures Touched([Ask(x, 0), Ask(x, 0), Answer(x, v), Answer(x, v)]) == {x}
  {
    AllTouchX([Ask(x, 0), Ask(x, 0), Answer(x, v), Answer(x, v)], x);
  }

  lemma InOneSequence(k: string, x: string, d: Decision, v: Decision)
    ensures [Ask(k, 0), Answer(k, d)] + [Ask(x, 0), Ask(x, 0), Answer(x, v), Answer(x, v)]
         == OneAnswered(k, d) + [Ask(x, 0)] + [Ask(x, 0)] + [Answer(x, v)] + [Answer(x, v)]
  {
  }

  lemma {:induction false} AllTouchX(events: seq<Event>, x: string)
    requires events != [] && forall e :: e in events ==> TouchedBy(e) == {x}
    ensures Touched(events) == {x}
  {
    if |events| > 1 {
      AllTouchX(events[..|events| - 1], x);
    }
  }

  // ----- the cache object -----

  class CachedGovernanceValidator {
    const cfg: Config
    var cache: Cache
    var hits: nat
    var misses: nat
    var evictions: nat
    var upstreamCalls: nat
    ghost var inFlight: multiset<string>

    ghost predicate Valid()
      reads this
    {
      cfg.maxSize >= 1 && Sound(cache, cfg)
    }

    ghost function View(): State
      reads this
    {
      State(cache, hits, misses, evictions, upstreamCalls, inFlight)
    }

    constructor (cfg: Config)
      requires cfg.maxSize >= 1
      ensures Valid() && this.cfg == cfg && View() == Run([], cfg)
    {
      this.cfg := cfg;
      cache, hits, misses, evictions, upstreamCalls := Empty(), 0, 0, 0, 0;
      inFlight := multiset{};
    }

    /** The part of validate before the upstream call. */
    method BeginValidate(key: string, now: int) returns (hit: Option<Decision>)
      requires Valid()
      modifies this
      ensures Valid() && View() == Step(old(View()), Ask(key, now), cfg)
      ensures hit == old(Lookup(cache, key, now))
    {
      LookupSound(cache, key, now, cfg);
      if key in cache.m {
        var decision := cache.m[key];
        if !Expired(decision, now) {
          hits := hits + 1;
          cache := cache.MoveToEnd(key);
          return Some(decision);
        }
        cache := cache.Remove(key);
      }
      misses := misses + 1;
      upstreamCalls := upstreamCalls + 1;
      inFlight := inFlight + multiset{key};
      hit := None;
    }

    /** The part of validate after the upstream call. */
    method EndValidate(key: string, d: Decision)
      requires Valid()
      modifies this`cache, this`evictions, this`inFlight
      ensures Valid() && View() == Answered(old(View()), key, d, cfg)
    {
      inFlight := inFlight - multiset{key};
      CacheDecision(key, d);
    }

    method CacheDecision(key: string, d: Decision)
      requires Valid()
      modifies this`cache, this`evictions
      ensures Valid() && cache == AfterStore(old(cache), key, d, cfg)
      ensures evictions == old(evictions + Evicted(cache, d, cfg))
    {
      StoreSound(cache, key, d, cfg);
      if !d.allowed && !cfg.negativeCaching {
        return;
      }
      EvictForOne();
      cache := cache.Put(key, d);
      cache := cache.MoveToEnd(key);
    }

    method EvictForOne()
      requires cfg.maxSize >= 1
      modifies this`cache, this`evictions
      ensures cache == MakeRoom(old(cache), cfg.maxSize)
      ensures evictions == old(evictions) + |old(cache).keys| - |cache.keys|
    {
      while |cache.keys| >= cfg.maxSize
        invariant MakeRoom(cache, cfg.maxSize) == MakeRoom(old(cache), cfg.maxSize)
        invariant evictions == old(evictions) + |old(cache).keys| - |cache.keys|
        decreases |cache.keys|
      {
        cache := cache.PopFirst();
        evictions := evictions + 1;
      }
    }

    method InvalidateEverything() returns (count: nat)
      requires Valid()
      modifies this`cache
      ensures Valid() && View() == Step(old(View()), Event.InvalidateAll, cfg)
      ensures count == |old(cache).keys|
    {
      count := |cache.keys|;
      cache := Empty();
    }

    method InvalidatePattern(pattern: string) returns (count: nat)
      requires Valid()
      modifies this`cache
      ensures Valid() && View() == Step(old(View()), InvalidateMatching(pattern), cfg)
      ensures count + |cache.keys| == |old(cache).keys|
    {
      var before := cache;
      DropMatchingKeeps(before, pattern, before.keys);
      count := 0;
      for i := 0 to |before.keys|
        invariant cache == DropMatching(before, pattern, before.keys[..i])
        invariant count + |cache.keys| == |before.keys|
      {
        DropNext(before, pattern, i);
        assert before.keys[..i + 1][..i] == before.keys[..i];
        var key := before.keys[i];
        if Contains(key, pattern) {
          cache := cache.Remove(key);
          count := count + 1;
        }
      }
      assert before.keys[..|before.keys|] == before.keys;
    }
  }
}
