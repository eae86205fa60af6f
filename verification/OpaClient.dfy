/** The fail-closed OPA client: evaluations overlapping in time around one cache. */
module OpaClient {
  import opened JsonValues

  datatype Config = Config(ttl: int, enableCache: bool)

  /** The part of an evaluation result that callers act on. */
  datatype Result = Result(allowed: Json)

  const DENIED := Result(Bool(false))

  predicate Allows(r: Result) {
    Truthy(r.allowed)
  }

  /** How _evaluate_http reads the "result" member of OPA's reply. */
  function ReadReply(reply: Json): Result {
    match reply
    case Bool(b) => Result(Bool(b))
    case Obj(fields) => Result(if "allow" in fields then fields["allow"] else Bool(false))
    case _ => DENIED
  }

  /** A reply that allows: true itself, or an object whose "allow" counts as true. */
  predicate ReplyAllows(reply: Json) {
    || reply == Bool(true)
    || (reply.Obj? && "allow" in reply.fields && !Falsy(reply.fields["allow"]))
  }

  /** Every other reply is a denial: no "allow", a false one, or nothing that can be read. */
  lemma ReplyMeaning(reply: Json)
    ensures Allows(ReadReply(reply)) <==> ReplyAllows(reply)
  {
    FalsyValues(ReadReply(reply).allowed);
  }

  // ----- the cache: two dictionaries -----

  datatype Cache = Cache(results: map<string, Result>, stamps: map<string, int>)

  function StampOf(c: Cache, key: string): int {
    if key in c.stamps then c.stamps[key] else 0
  }

  function Lookup(c: Cache, key: string, now: int, cfg: Config): Option<Result> {
    if cfg.enableCache && key in c.results && now - StampOf(c, key) <= cfg.ttl
    then Some(c.results[key]) else None
  }

  /** A look-up deletes an entry that is too old. */
  function AfterLookup(c: Cache, key: string, now: int, cfg: Config): Cache {
    if cfg.enableCache && key in c.results && now - StampOf(c, key) > cfg.ttl
    then Cache(c.results - {key}, c.stamps - {key}) else c
  }

  function Store(c: Cache, key: string, r: Result, now: int, cfg: Config): Cache {
    if cfg.enableCache then Cache(c.results[key := r], c.stamps[key := now]) else c
  }

  // ----- overlapping evaluations -----

  /** An evaluation past the breaker and the cache: waiting for OPA's reply, and after
      it for the breaker to record the success. */
  datatype Pending = Pending(key: string, permittedAt: int)

  /** One reply OPA really gave. */
  datatype Reply = Reply(key: string, body: Json, at: int)

  /** The reply to this evaluation was cached. */
  datatype Stored = Stored(key: string, evaluation: nat, at: int)

  /** Where an answer came from; a cached one after how many stores. */
  datatype Source = Denial | FromCache(stores: nat) | FromOpa(evaluation: nat)

  datatype Answer = Answer(key: string, result: Result, at: int, permittedAt: int, source: Source)

  datatype State = State(
    clock: int, cache: Cache,
    started: nat,                // evaluations are numbered as they start
    pending: map<nat, Pending>,
    replies: map<nat, Reply>,    // every reply OPA ever gave, by evaluation
    stores: seq<Stored>,         // every store into the cache, in order
    answers: seq<Answer>)        // every result returned to a caller, in order

  datatype Event =
    | Wait(ticks: nat)
    | Evaluate(key: string, permitted: bool)    // permitted: the breaker's can_execute
    | OpaReplies(evaluation: nat, body: Json)
    | OpaFails(evaluation: nat, caught: bool)   // a listed error is turned into a denial
    | Recorded(evaluation: nat)                 // record_success returned
    | RecordFails(evaluation: nat, caught: bool)

  function Initial(start: int): State {
    State(start, Cache(map[], map[]), 0, map[], map[], [], [])
  }

  predicate Waiting(s: State, id: nat) {
    id in s.pending && id !in s.replies
  }

  predicate Recording(s: State, id: nat) {
    id in s.pending && id in s.replies
  }

  function Return(s: State, key: string, r: Result, permittedAt: int, source: Source): State {
    s.(answers := s.answers + [Answer(key, r, s.clock, permittedAt, source)])
  }

  function Step(s: State, e: Event, cfg: Config): State {
    match e
    case Wait(ticks) => s.(clock := s.clock + ticks)
    case Evaluate(key, permitted) =>
      if permitted then Evaluated(s, key, cfg) else Return(s, key, DENIED, s.clock, Denial)
    case OpaReplies(id, body) =>
      if Waiting(s, id) then s.(replies := s.replies[id := Reply(s.pending[id].key, body, s.clock)]) else s
    case OpaFails(id, caught) => if Waiting(s, id) then Fail(s, id, caught) else s
    case Recorded(id) => if Recording(s, id) then Finish(s, id, cfg) else s
    case RecordFails(id, caught) => if Recording(s, id) then Fail(s, id, caught) else s
  }

  /** With the breaker's permission: answered from the cache, or sent to OPA. */
  function Evaluated(s: State, key: string, cfg: Config): State {
    var next := s.(cache := AfterLookup(s.cache, key, s.clock, cfg));
    match Lookup(s.cache, key, s.clock, cfg)
    case Some(r) => Return(next, key, r, s.clock, FromCache(|s.stores|))
    case None => next.(pending := s.pending[s.started := Pending(key, s.clock)], started := s.started + 1)
  }

  /** The success is recorded: the result is cached and returned. */
  function Finish(s: State, id: nat, cfg: Config): State
    requires Recording(s, id)
  {
    var p := s.pending[id];
    var r := ReadReply(s.replies[id].body);
    Return(s.(cache := Store(s.cache, p.key, r, s.clock, cfg), pending := s.pending - {id},
              stores := if cfg.enableCache then s.stores + [Stored(p.key, id, s.clock)] else s.stores),
           p.key, r, p.permittedAt, FromOpa(id))
  }

  /** An error: denied if it is a listed one, otherwise raised to the caller. */
  function Fail(s: State, id: nat, caught: bool): State
    requires id in s.pending
  {
    var next := s.(pending := s.pending - {id});
    if caught then Return(next, s.pending[id].key, DENIED, s.pending[id].permittedAt, Denial) else next
  }

  function Run(start: int, events: seq<Event>, cfg: Config): State {
    if events == [] then Initial(start)
    else Step(Run(start, events[..|events| - 1], cfg), events[|events| - 1], cfg)
  }

  // ----- what every allow rests on -----

  /** The last store of the key. */
  function LastStore(stores: seq<Stored>, key: string): Option<Stored> {
    if stores == [] then None
    else if stores[|stores| - 1].key == key then Some(stores[|stores| - 1])
    else LastStore(stores[..|stores| - 1], key)
  }

  /** OPA replied to this evaluation of the key, at some time in the interval, with this result;
      the result allows exactly if the reply does. */
  ghost predicate Replied(replies: map<nat, Reply>, id: nat, key: string, r: Result, from: int, to: int) {
    && id in replies && replies[id].key == key
    && ReadReply(replies[id].body) == r && (Allows(r) <==> ReplyAllows(replies[id].body))
    && from <= replies[id].at <= to
  }

  /** The last store of the key was of this result, a reply by then. */
  ghost predicate LastStored(replies: map<nat, Reply>, stores: seq<Stored>, key: string, r: Result, at: int) {
    && LastStore(stores, key).Some?
    && var st := LastStore(stores, key).value;
    st.at == at && st.evaluation in replies
    && Replied(replies, st.evaluation, key, r, replies[st.evaluation].at, at)
  }

  /** Each entry is what the last store of its key put there, stamped with the time of that store. */
  ghost predicate CacheBacked(s: State) {
    && s.cache.results.Keys == s.cache.stamps.Keys
    && forall key :: key in s.cache.results ==> EntryBacked(s, key)
  }

  ghost predicate EntryBacked(s: State, key: string)
    requires key in s.cache.results && key in s.cache.stamps
  {
    && s.cache.stamps[key] <= s.clock
    && LastStored(s.replies, s.stores, key, s.cache.results[key], s.cache.stamps[key])
  }

  /** A reply to a pending evaluation is for its key and came after it was permitted. */
  ghost predicate PendingBacked(s: State) {
    && (forall id :: id in s.pending ==> PendingSound(s, id))
    && forall id :: id in s.replies ==> id < s.started
  }

  ghost predicate PendingSound(s: State, id: nat)
    requires id in s.pending
  {
    var p := s.pending[id];
    && id < s.started && p.permittedAt <= s.clock
    && (id in s.replies ==>
          s.replies[id].key == p.key && p.permittedAt <= s.replies[id].at <= s.clock)
  }

  /** An allow from OPA rests on the reply to that very evaluation, given between the breaker's
      permission and the answer. A cached allow was permitted when answered, and rests on the
      very reply that the last store of the key put there, at most ttl after that store. */
  ghost predicate Justified(a: Answer, replies: map<nat, Reply>, stores: seq<Stored>, cfg: Config) {
    Allows(a.result) ==>
      match a.source
      case Denial => false
      case FromOpa(id) => Replied(replies, id, a.key, a.result, a.permittedAt, a.at)
      case FromCache(n) => n <= |stores| && CachedJustified(a, replies, stores[..n], cfg)
  }

  ghost predicate CachedJustified(a: Answer, replies: map<nat, Reply>, stores: seq<Stored>, cfg: Config) {
    && LastStore(stores, a.key).Some?
    && var cachedAt := LastStore(stores, a.key).value.at;
    LastStored(replies, stores, a.key, a.result, cachedAt)
    && cachedAt <= a.at <= cachedAt + cfg.ttl && a.permittedAt == a.at
  }

  ghost predicate AllJustified(s: State, cfg: Config) {
    forall a :: a in s.answers ==> Justified(a, s.replies, s.stores, cfg)
  }

  ghost predicate Inv(s: State, cfg: Config) {
    CacheBacked(s) && PendingBacked(s) && AllJustified(s, cfg)
  }

  lemma ReturnInv(s: State, key: string, r: Result, permittedAt: int, source: Source, cfg: Config)
    requires Inv(s, cfg)
    requires Justified(Answer(key, r, s.clock, permittedAt, source), s.replies, s.stores, cfg)
    ensures Inv(Return(s, key, r, permittedAt, source), cfg)
  {
    var next := Return(s, key, r, permittedAt, source);
    forall k | k in next.cache.results ensures EntryBacked(next, k) {
      assert EntryBacked(s, k);
    }
    forall id | id in next.pending ensures PendingSound(next, id) {
      assert PendingSound(s, id);
    }
  }

  lemma FailInv(s: State, id: nat, caught: bool, cfg: Config)
    requires Inv(s, cfg) && id in s.pending
    ensures Inv(Fail(s, id, caught), cfg)
  {
    var next := s.(pending := s.pending - {id});
    forall i | i in next.pending ensures PendingSound(next, i) {
      assert PendingSound(s, i);
    }
    forall k | k in next.cache.results ensures EntryBacked(next, k) {
      assert EntryBacked(s, k);
    }
    if caught {
      ReturnInv(next, s.pending[id].key, DENIED, s.pending[id].permittedAt, Denial, cfg);
    }
  }

  lemma WaitInv(s: State, ticks: nat, cfg: Config)
    requires Inv(s, cfg)
    ensures Inv(s.(clock := s.clock + ticks), cfg)
  {
    var next := s.(clock := s.clock + ticks);
    forall id | id in next.pending ensures PendingSound(next, id) {
      assert PendingSound(s, id);
    }
    forall k | k in next.cache.results ensures EntryBacked(next, k) {
      assert EntryBacked(s, k);
    }
  }

  lemma LookedUpInv(s: State, key: string, cfg: Config)
    requires Inv(s, cfg)
    ensures Inv(s.(cache := AfterLookup(s.cache, key, s.clock, cfg)), cfg)
  {
    var next := s.(cache := AfterLookup(s.cache, key, s.clock, cfg));
    forall k | k in next.cache.results ensures EntryBacked(next, k) {
      assert EntryBacked(s, k);
    }
    forall id | id in next.pending ensures PendingSound(next, id) {
      assert PendingSound(s, id);
    }
  }

  lemma StartedInv(s: State, key: string, cfg: Config)
    requires Inv(s, cfg)
    ensures Inv(s.(pending := s.pending[s.started := Pending(key, s.clock)], started := s.started + 1), cfg)
  {
    var next := s.(pending := s.pending[s.started := Pending(key, s.clock)], started := s.started + 1);
    forall k | k in next.cache.results ensures EntryBacked(next, k) {
      assert EntryBacked(s, k);
    }
    forall id | id in next.pending ensures PendingSound(next, id) {
      if id != s.started {
        assert PendingSound(s, id);
      }
    }
  }

  lemma EvaluatedInv(s: State, key: string, cfg: Config)
    requires Inv(s, cfg)
    ensures Inv(Evaluated(s, key, cfg), cfg)
  {
    var next := s.(cache := AfterLookup(s.cache, key, s.clock, cfg));
    LookedUpInv(s, key, cfg);
    match Lookup(s.cache, key, s.clock, cfg)
    case Some(r) =>
      assert EntryBacked(s, key);
      assert s.stores[..|s.stores|] == s.stores;
      ReturnInv(next, key, r, s.clock, FromCache(|s.stores|), cfg);
    case None => StartedInv(next, key, cfg);
  }

  /** A reply to an evaluation that had none takes nothing from what rests on other replies. */
  lemma JustifiedAfterReply(a: Answer, s: State, id: nat, reply: Reply, cfg: Config)
    requires id !in s.replies && Justified(a, s.replies, s.stores, cfg)
    ensures Justified(a, s.replies[id := reply], s.stores, cfg)
  {
  }

  lemma RepliesInv(s: State, id: nat, body: Json, cfg: Config)
    requires Inv(s, cfg) && Waiting(s, id)
    ensures Inv(Step(s, OpaReplies(id, body), cfg), cfg)
  {
    var next := Step(s, OpaReplies(id, body), cfg);
    forall k | k in next.cache.results ensures EntryBacked(next, k) {
      assert EntryBacked(s, k);
    }
    assert PendingSound(s, id);
    forall i | i in next.pending ensures PendingSound(next, i) {
      assert PendingSound(s, i);
    }
    forall a | a in next.answers ensures Justified(a, next.replies, next.stores, cfg) {
      JustifiedAfterReply(a, s, id, Reply(s.pending[id].key, body, s.clock), cfg);
    }
  }

  lemma JustifiedAfterStore(a: Answer, s: State, st: Stored, cfg: Config)
    requires Justified(a, s.replies, s.stores, cfg)
    ensures Justified(a, s.replies, s.stores + [st], cfg)
  {
    if Allows(a.result) && a.source.FromCache? {
      assert (s.stores + [st])[..a.source.stores] == s.stores[..a.source.stores];
    }
  }

  lemma StoreInv(s: State, id: nat, cfg: Config)
    requires Inv(s, cfg) && Recording(s, id) && cfg.enableCache
    ensures var p := s.pending[id];
            Inv(s.(cache := Store(s.cache, p.key, ReadReply(s.replies[id].body), s.clock, cfg),
                   stores := s.stores + [Stored(p.key, id, s.clock)]), cfg)
  {
    var p, st := s.pending[id], Stored(s.pending[id].key, id, s.clock);
    var next := s.(cache := Store(s.cache, p.key, ReadReply(s.replies[id].body), s.clock, cfg),
                   stores := s.stores + [st]);
    assert PendingSound(s, id);
    assert next.stores[..|next.stores| - 1] == s.stores;
    forall k | k in next.cache.results ensures EntryBacked(next, k) {
      if k != p.key {
        assert EntryBacked(s, k);
      }
    }
    forall i | i in next.pending ensures PendingSound(next, i) {
      assert PendingSound(s, i);
    }
    forall a | a in next.answers ensures Justified(a, next.replies, next.stores, cfg) {
      JustifiedAfterStore(a, s, st, cfg);
    }
  }

  lemma FinishInv(s: State, id: nat, cfg: Config)
    requires Inv(s, cfg) && Recording(s, id)
    ensures Inv(Finish(s, id, cfg), cfg)
  {
    var p, r := s.pending[id], ReadReply(s.replies[id].body);
    assert PendingSound(s, id);
    var stored := if cfg.enableCache
                  then s.(cache := Store(s.cache, p.key, r, s.clock, cfg),
                          stores := s.stores + [Stored(p.key, id, s.clock)])
                  else s;
    if cfg.enableCache {
      StoreInv(s, id, cfg);
    }
    FailInv(stored, id, false, cfg);
    ReturnInv(stored.(pending := s.pending - {id}), p.key, r, p.permittedAt, FromOpa(id), cfg);
  }

  lemma StepInv(s: State, e: Event, cfg: Config)
    requires Inv(s, cfg)
    ensures Inv(Step(s, e, cfg), cfg)
  {
    match e
    case Wait(ticks) => WaitInv(s, ticks, cfg);
    case Evaluate(key, permitted) =>
      if permitted {
        EvaluatedInv(s, key, cfg);
      } else {
        ReturnInv(s, key, DENIED, s.clock, Denial, cfg);
      }
    case OpaReplies(id, body) =>
      if Waiting(s, id) {
        RepliesInv(s, id, body, cfg);
      }
    case OpaFails(id, caught) =>
      if Waiting(s, id) {
        FailInv(s, id, caught, cfg);
      }
    case Recorded(id) =>
      if Recording(s, id) {
        FinishInv(s, id, cfg);
      }
    case RecordFails(id, caught) =>
      if Recording(s, id) {
        FailInv(s, id, caught, cfg);
      }
  }

  lemma {:induction false} RunInv(start: int, events: seq<Event>, cfg: Config)
    ensures Inv(Run(start, events, cfg), cfg)
  {
    if events != [] {
      RunInv(start, events[..|events| - 1], cfg);
      StepInv(Run(start, events[..|events| - 1], cfg), events[|events| - 1], cfg);
    }
  }

  // ----- the labels, read off the run -----

  /** The stores of a run, read off its events: each time a success was recorded for an
      evaluation that OPA had replied to, of its key, at that time. */
  function StoresOf(start: int, events: seq<Event>, cfg: Config): seq<Stored> {
    if events == [] then [] else
      var front, e := events[..|events| - 1], events[|events| - 1];
      var s := Run(start, front, cfg);
      StoresOf(start, front, cfg) +
        if e.Recorded? && Recording(s, e.evaluation) && cfg.enableCache
        then [Stored(s.pending[e.evaluation].key, e.evaluation, s.clock)] else []
  }

  lemma {:induction false} StoresAreRecorded(start: int, events: seq<Event>, cfg: Config)
    ensures Run(start, events, cfg).stores == StoresOf(start, events, cfg)
  {
    if events != [] {
      StoresAreRecorded(start, events[..|events| - 1], cfg);
    }
  }

  /** The answer was given at the event at position p, with as many stores made as it says. */
  ghost predicate GivenAt(start: int, events: seq<Event>, a: Answer, p: nat, cfg: Config) {
    && p < |events|
    && var before := Run(start, events[..p], cfg);
    a.at == before.clock
    && (a.source.FromCache? ==> events[p] == Evaluate(a.key, true) && a.source.stores == |before.stores|)
    && (a.source.FromOpa? ==> events[p] == Recorded(a.source.evaluation) && Recording(before, a.source.evaluation))
  }

  lemma StepAnswers(s: State, e: Event, a: Answer, cfg: Config)
    requires a in Step(s, e, cfg).answers && a !in s.answers
    ensures a.at == s.clock
    ensures a.source.FromCache? ==> e == Evaluate(a.key, true) && a.source.stores == |s.stores|
    ensures a.source.FromOpa? ==> e == Recorded(a.source.evaluation) && Recording(s, a.source.evaluation)
  {
  }

  /** Every answer is given at some event of the run, and says truly where it came from. */
  lemma {:induction false} AnswersAreGiven(start: int, events: seq<Event>, a: Answer, cfg: Config) returns (p: nat)
    requires a in Run(start, events, cfg).answers
    ensures GivenAt(start, events, a, p, cfg)
  {
    var n := |events| - 1;
    if a in Run(start, events[..n], cfg).answers {
      p := AnswersAreGiven(start, events[..n], a, cfg);
      assert events[..n][..p] == events[..p];
    } else {
      p := n;
      StepAnswers(Run(start, events[..n], cfg), events[n], a, cfg);
    }
  }

  lemma {:induction false} StoresGrow(start: int, events: seq<Event>, p: nat, cfg: Config)
    requires p <= |events|
    ensures var before, after := Run(start, events[..p], cfg), Run(start, events, cfg);
            && before.clock <= after.clock && |before.stores| <= |after.stores|
            && after.stores[..|before.stores|] == before.stores
            && forall j :: |before.stores| <= j < |after.stores| ==> after.stores[j].at >= before.clock
  {
    if p == |events| {
      assert events[..p] == events;
    } else {
      StoresGrow(start, events[..|events| - 1], p, cfg);
      assert events[..|events| - 1][..p] == events[..p];
    }
  }

  /** So the stores that a cached answer counts are those made before it: all later ones of
      the run have a time no earlier than its own. */
  lemma LaterStoresAreLater(start: int, events: seq<Event>, a: Answer, cfg: Config)
    requires a in Run(start, events, cfg).answers && a.source.FromCache?
    ensures var stores := Run(start, events, cfg).stores;
            && a.source.stores <= |stores|
            && (forall j :: 0 <= j < a.source.stores ==> stores[j].at <= a.at)
            && forall j :: a.source.stores <= j < |stores| ==> stores[j].at >= a.at
  {
    var p := AnswersAreGiven(start, events, a, cfg);
    StoresGrow(start, events, p, cfg);
    StoresAreInTime(start, events[..p], cfg);
    var before := Run(start, events[..p], cfg).stores;
    forall j | 0 <= j < |before| ensures Run(start, events, cfg).stores[j].at <= a.at {
      assert Run(start, events, cfg).stores[..|before|][j] == before[j];
    }
  }

  lemma {:induction false} StoresAreInTime(start: int, events: seq<Event>, cfg: Config)
    ensures forall j :: 0 <= j < |Run(start, events, cfg).stores| ==>
              Run(start, events, cfg).stores[j].at <= Run(start, events, cfg).clock
  {
    if events != [] {
      StoresAreInTime(start, events[..|events| - 1], cfg);
    }
  }

  /** Over every interleaving of evaluations, replies and errors: the two dictionaries have one
      domain and each entry is the result last stored for its key; the stores are the recorded
      successes of the run; and every allow was given at an event of the run, justified by
      the replies and the stores made before it. */
  lemma EveryAllowIsBacked(start: int, events: seq<Event>, a: Answer, cfg: Config) returns (p: nat)
    requires a in Run(start, events, cfg).answers
    ensures CacheBacked(Run(start, events, cfg))
    ensures Run(start, events, cfg).stores == StoresOf(start, events, cfg)
    ensures GivenAt(start, events, a, p, cfg)
    ensures Justified(a, Run(start, events, cfg).replies, Run(start, events, cfg).stores, cfg)
    ensures Allows(a.result) && a.source.FromCache? ==>
              CachedJustified(a, Run(start, events, cfg).replies, StoresOf(start, events[..p], cfg), cfg)
  {
    RunInv(start, events, cfg);
    StoresAreRecorded(start, events, cfg);
    p := AnswersAreGiven(start, events, a, cfg);
    StoresGrow(start, events, p, cfg);
    StoresAreRecorded(start, events[..p], cfg);
    assert Justified(a, Run(start, events, cfg).replies, Run(start, events, cfg).stores, cfg);
  }

  // ----- each evaluation is answered once -----

  ghost predicate AnsweredFor(s: State, i: int, id: nat) {
    0 <= i < |s.answers| && s.answers[i].source == FromOpa(id)
  }

  /** What has been answered from OPA is no longer pending, and was answered once. */
  ghost predicate AnsweredOnce(s: State) {
    && (forall i, id: nat :: AnsweredFor(s, i, id) ==> id !in s.pending && id < s.started)
    && forall i, j, id: nat :: AnsweredFor(s, i, id) && AnsweredFor(s, j, id) ==> i == j
  }

  lemma StepAnswersOnce(s: State, e: Event, cfg: Config)
    requires AnsweredOnce(s) && PendingBacked(s)
    ensures AnsweredOnce(Step(s, e, cfg))
  {
    var next := Step(s, e, cfg);
    forall i, id: nat | AnsweredFor(next, i, id) ensures id !in next.pending && id < next.started {
      if i < |s.answers| {
        assert AnsweredFor(s, i, id);
      } else {
        assert PendingSound(s, id);
      }
    }
    forall i, j, id: nat | AnsweredFor(next, i, id) && AnsweredFor(next, j, id) ensures i == j {
      if i < |s.answers| {
        assert AnsweredFor(s, i, id);
      }
      if j < |s.answers| {
        assert AnsweredFor(s, j, id);
      }
    }
  }

  /** Over every interleaving no evaluation is answered twice from OPA's reply. */
  lemma {:induction false} EvaluationsAreAnsweredOnce(start: int, events: seq<Event>, cfg: Config)
    ensures AnsweredOnce(Run(start, events, cfg))
  {
    if events != [] {
      EvaluationsAreAnsweredOnce(start, events[..|events| - 1], cfg);
      RunInv(start, events[..|events| - 1], cfg);
      StepAnswersOnce(Run(start, events[..|events| - 1], cfg), events[|events| - 1], cfg);
    }
  }

  // ----- how old a cached allow can be -----

  /** The reply behind the entry of a key. */
  function ReplyBehind(s: State, key: string): Option<Reply> {
    match LastStore(s.stores, key)
    case None => None
    case Some(st) => if st.evaluation in s.replies then Some(s.replies[st.evaluation]) else None
  }

  /** How long after OPA's reply the entry of a key was stored. */
  function RecordDelay(s: State, key: string): int
    requires key in s.cache.stamps && ReplyBehind(s, key).Some?
  {
    s.cache.stamps[key] - ReplyBehind(s, key).value.at
  }

  /** An entry is served exactly as long as the reply behind it is no older than ttl plus the
      time the breaker took to record the success. So OPA's answer is never served after ttl
      if and only if it was recorded at once. */
  lemma ServedWhileYoung(start: int, events: seq<Event>, key: string, later: nat, cfg: Config)
    requires cfg.enableCache && key in Run(start, events, cfg).cache.results
    ensures var s := Run(start, events, cfg);
            var reply := ReplyBehind(s, key);
            && key in s.cache.stamps && reply.Some? && RecordDelay(s, key) >= 0
            && Lookup(s.cache, key, s.clock + later, cfg) ==
               (if s.clock + later - reply.value.at <= cfg.ttl + RecordDelay(s, key)
                then Some(ReadReply(reply.value.body)) else None)
            && (RecordDelay(s, key) == 0 <==>
                  forall now :: Lookup(s.cache, key, now, cfg).Some? ==> now - reply.value.at <= cfg.ttl)
  {
    RunInv(start, events, cfg);
    EntryServed(Run(start, events, cfg), key, later, cfg);
  }

  lemma EntryServed(s: State, key: string, later: nat, cfg: Config)
    requires cfg.enableCache && key in s.cache.results && key in s.cache.stamps && EntryBacked(s, key)
    ensures var reply := ReplyBehind(s, key);
            && reply.Some? && RecordDelay(s, key) >= 0
            && Lookup(s.cache, key, s.clock + later, cfg) ==
               (if s.clock + later - reply.value.at <= cfg.ttl + RecordDelay(s, key)
                then Some(ReadReply(reply.value.body)) else None)
            && (RecordDelay(s, key) == 0 <==>
                  forall now :: Lookup(s.cache, key, now, cfg).Some? ==> now - reply.value.at <= cfg.ttl)
  {
    if RecordDelay(s, key) > 0 {
      assert Lookup(s.cache, key, s.cache.stamps[key] + cfg.ttl, cfg).Some?;
    }
  }

  /** Each success of the run was recorded at the time of the reply. */
  ghost predicate RecordedAtOnce(start: int, events: seq<Event>, cfg: Config) {
    events == [] ||
      var front, e := events[..|events| - 1], events[|events| - 1];
      var s := Run(start, front, cfg);
      && RecordedAtOnce(start, front, cfg)
      && (e.Recorded? && Recording(s, e.evaluation) ==> s.replies[e.evaluation].at == s.clock)
  }

  lemma StepKeepsReplies(s: State, e: Event, id: nat, cfg: Config)
    requires id in s.replies
    ensures id in Step(s, e, cfg).replies && Step(s, e, cfg).replies[id] == s.replies[id]
  {
  }

  lemma {:induction false} StoredAtOnce(start: int, events: seq<Event>, cfg: Config)
    requires RecordedAtOnce(start, events, cfg)
    ensures var s := Run(start, events, cfg);
            forall st :: st in s.stores ==> st.evaluation in s.replies && st.at == s.replies[st.evaluation].at
  {
    if events != [] {
      var front, e := events[..|events| - 1], events[|events| - 1];
      var before, s := Run(start, front, cfg), Run(start, events, cfg);
      StoredAtOnce(start, front, cfg);
      forall st | st in s.stores ensures st.evaluation in s.replies && st.at == s.replies[st.evaluation].at {
        if st in before.stores {
          StepKeepsReplies(before, e, st.evaluation, cfg);
        }
      }
    }
  }

  /** An allow whose reply is no older than ttl. */
  ghost predicate Fresh(a: Answer, s: State, cfg: Config) {
    match a.source
    case Denial => false
    case FromOpa(id) => id in s.replies && a.permittedAt <= s.replies[id].at
    case FromCache(n) =>
      && n <= |s.stores| && LastStore(s.stores[..n], a.key).Some?
      && var id := LastStore(s.stores[..n], a.key).value.evaluation;
      id in s.replies && a.at - s.replies[id].at <= cfg.ttl
  }

  lemma {:induction false} LastStoreIsOne(stores: seq<Stored>, key: string)
    ensures LastStore(stores, key).Some? ==> LastStore(stores, key).value in stores
  {
    if stores != [] {
      LastStoreIsOne(stores[..|stores| - 1], key);
    }
  }

  /** With every success recorded at once, every allow of the run is fresh. */
  lemma RecordedAtOnceMeansFresh(start: int, events: seq<Event>, a: Answer, cfg: Config)
    requires RecordedAtOnce(start, events, cfg)
    requires a in Run(start, events, cfg).answers && Allows(a.result)
    ensures Fresh(a, Run(start, events, cfg), cfg)
  {
    var s := Run(start, events, cfg);
    RunInv(start, events, cfg);
    StoredAtOnce(start, events, cfg);
    assert Justified(a, s.replies, s.stores, cfg);
    if a.source.FromCache? {
      LastStoreIsOne(s.stores[..a.source.stores], a.key);
    }
  }

  /** A run that answers allow on a reply a thousand times older than ttl. */
  lemma SlowRecordServesAnOldAllow()
    ensures var cfg := Config(1, true);
            var s := Run(0, [Evaluate("k", true), OpaReplies(0, Bool(true)), Wait(1000), Recorded(0),
                             Evaluate("k", true)], cfg);
            && |s.answers| == 2 && Allows(s.answers[1].result) && s.answers[1].source == FromCache(1)
            && s.answers[1].at == 1000 && s.replies == map[0 := Reply("k", Bool(true), 0)]
            && !Fresh(s.answers[1], s, cfg)
  {
    var cfg := Config(1, true);
    var e1 := [Evaluate("k", true)];
    var e2 := e1 + [OpaReplies(0, Bool(true))];
    var e3 := e2 + [Wait(1000)];
    var e4 := e3 + [Recorded(0)];
    var e5 := e4 + [Evaluate("k", true)];
    assert e2[..1] == e1 && e3[..2] == e2 && e4[..3] == e3 && e5[..4] == e4;
    assert Run(0, e1, cfg) == Step(Initial(0), e1[0], cfg);
    assert Run(0, e2, cfg).replies == map[0 := Reply("k", Bool(true), 0)];
    assert Run(0, e3, cfg).clock == 1000;
    assert Run(0, e4, cfg).stores == [Stored("k", 0, 1000)];
    assert e5 == [Evaluate("k", true), OpaReplies(0, Bool(true)), Wait(1000), Recorded(0), Evaluate("k", true)];
    assert Run(0, e5, cfg) == Step(Run(0, e4, cfg), Evaluate("k", true), cfg);
    assert Run(0, e5, cfg).stores[..1] == [Stored("k", 0, 1000)];
  }

  // ----- the client object -----

  /** What becomes of the request and of record_success. */
  datatype Fate = Success(body: Json) | ListedError | OtherError

  class CircuitBreakerOPAClient {
    const cfg: Config
    var memoryCache: map<string, Result>
    var cacheTimestamps: map<string, int>

    constructor (cfg: Config)
      ensures this.cfg == cfg && View() == Cache(map[], map[])
    {
      this.cfg := cfg;
      memoryCache, cacheTimestamps := map[], map[];
    }

    function View(): Cache
      reads this`memoryCache, this`cacheTimestamps
    {
      Cache(memoryCache, cacheTimestamps)
    }

    method GetFromCache(key: string, now: int) returns (cached: Option<Result>)
      modifies this`memoryCache, this`cacheTimestamps
      ensures cached == old(Lookup(View(), key, now, cfg))
      ensures View() == old(AfterLookup(View(), key, now, cfg))
    {
      if !cfg.enableCache || key !in memoryCache {
        return None;
      }
      var timestamp := if key in cacheTimestamps then cacheTimestamps[key] else 0;
      if now - timestamp > cfg.ttl {
        memoryCache := memoryCache - {key};
        cacheTimestamps := cacheTimestamps - {key};
        return None;
      }
      cached := Some(memoryCache[key]);
    }

    method SetCache(key: string, r: Result, now: int)
      modifies this`memoryCache, this`cacheTimestamps
      ensures View() == old(Store(View(), key, r, now, cfg))
    {
      if cfg.enableCache {
        memoryCache := memoryCache[key := r];
        cacheTimestamps := cacheTimestamps[key := now];
      }
    }

    /** One evaluation with nobody else at work, to its answer or to the error it raises. */
    method EvaluatePolicy(key: string, permitted: bool, now: int, fate: Fate, later: int) returns (r: Option<Result>)
      modifies this`memoryCache, this`cacheTimestamps
      ensures !permitted ==> r == Some(DENIED) && View() == old(View())
      ensures permitted && old(Lookup(View(), key, now, cfg)).Some? ==>
                r == old(Lookup(View(), key, now, cfg)) && View() == old(View())
      ensures permitted && old(Lookup(View(), key, now, cfg)).None? ==>
                var looked := old(AfterLookup(View(), key, now, cfg));
                match fate
                case Success(body) =>
                  r == Some(ReadReply(body)) && View() == Store(looked, key, ReadReply(body), later, cfg)
                case ListedError => r == Some(DENIED) && View() == looked
                case OtherError => r == None && View() == looked
    {
      if !permitted {
        return Some(DENIED);
      }
      r := GetFromCache(key, now);
      if r.Some? {
        return;
      }
      match fate
      case Success(body) =>
        r := Some(ReadReply(body));
        SetCache(key, ReadReply(body), later);
      case ListedError => r := Some(DENIED);
      case OtherError =>
    }
  }
}
