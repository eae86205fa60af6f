/** The audit client: batching under concurrent reporters, flush workers and submissions. */
module Audit {
  import opened JsonValues

  datatype Config = Config(batchSize: int, maxRetries: int)

  /** What one POST brings back. Escape stands for a cancellation or an exception that
      neither submission catches; a body that is not the expected JSON raises too. */
  datatype Response = Accepted(hashes: nat) | BadBody | OtherStatus | RequestError | Escape

  /** Whether the entries can be serialised, or raise one of the errors that a single
      submission lists (RuntimeError, ValueError, TypeError, OSError), or another. */
  datatype Serialised = Serialised | ListedError | OtherError

  /** The circumstances of one submission: the breaker's state when it is checked, the
      serialisation, and the response to each attempt. */
  datatype Weather = Weather(breakerOpen: bool, serialised: Serialised, response: nat -> Response)

  datatype Stats = Stats(submitted: int, successful: int, failed: int, rejections: int, batchesSent: int)

  /** What a submission of n entries does to the statistics, and whether it ended in an
      exception that leaves its entries uncounted. */
  datatype Tally = Tally(successful: int, failed: int, rejections: int, sent: int, escaped: bool)

  function BatchAttempts(n: nat, cfg: Config, wx: Weather, attempt: nat): Tally
    decreases cfg.maxRetries - attempt
  {
    if attempt >= cfg.maxRetries then Tally(0, n, 0, 0, false)
    else match wx.response(attempt)
      case Accepted(hashes) => Tally(hashes, n - hashes, 0, 1, false)
      case OtherStatus => BatchAttempts(n, cfg, wx, attempt + 1)
      case RequestError => BatchAttempts(n, cfg, wx, attempt + 1)
      case _ => Tally(0, 0, 0, 0, true)
  }

  function BatchTally(n: nat, cfg: Config, wx: Weather): Tally {
    if wx.breakerOpen then Tally(0, 0, n, 0, false)
    else if !wx.serialised.Serialised? then Tally(0, 0, 0, 0, true)
    else BatchAttempts(n, cfg, wx, 0)
  }

  function SingleAttempts(cfg: Config, wx: Weather, attempt: nat): Tally
    decreases cfg.maxRetries - attempt
  {
    if attempt >= cfg.maxRetries then Tally(0, 1, 0, 0, false)
    else match wx.response(attempt)
      case Accepted(_) => Tally(1, 0, 0, 0, false)
      case OtherStatus => SingleAttempts(cfg, wx, attempt + 1)
      case RequestError => SingleAttempts(cfg, wx, attempt + 1)
      case BadBody => Tally(0, 1, 0, 0, false)
      case Escape => Tally(0, 0, 0, 0, true)
  }

  /** A single submission catches the errors of serialisation and of a bad body. */
  function SingleTally(cfg: Config, wx: Weather): Tally {
    if wx.breakerOpen then Tally(0, 0, 1, 0, false)
    else match wx.serialised
      case Serialised => SingleAttempts(cfg, wx, 0)
      case ListedError => Tally(0, 1, 0, 0, false)
      case OtherError => Tally(0, 0, 0, 0, true)
  }

  function Add(s: Stats, t: Tally): Stats {
    s.(successful := s.successful + t.successful, failed := s.failed + t.failed,
       rejections := s.rejections + t.rejections, batchesSent := s.batchesSent + t.sent)
  }

  /** A submission counts each of its entries exactly once, unless it escapes. */
  ghost predicate CountsAll(t: Tally, n: nat) {
    t.successful + t.failed + t.rejections == if t.escaped then 0 else n
  }

  lemma {:induction false} BatchAttemptsCount(n: nat, cfg: Config, wx: Weather, attempt: nat)
    ensures CountsAll(BatchAttempts(n, cfg, wx, attempt), n)
    decreases cfg.maxRetries - attempt
  {
    if attempt < cfg.maxRetries {
      BatchAttemptsCount(n, cfg, wx, attempt + 1);
    }
  }

  lemma {:induction false} SingleAttemptsCount(cfg: Config, wx: Weather, attempt: nat)
    ensures CountsAll(SingleAttempts(cfg, wx, attempt), 1)
    decreases cfg.maxRetries - attempt
  {
    if attempt < cfg.maxRetries {
      SingleAttemptsCount(cfg, wx, attempt + 1);
    }
  }

  // ----- reporters, flushers and submissions, interleaved -----

  /** A batch taken from the queue; open while its submission is in flight. */
  datatype Flight = Flight(entries: seq<Json>, open: bool)

  datatype State = State(
    queue: seq<Json>, flights: seq<Flight>, singles: nat, stats: Stats,
    queued: seq<Json>,   // every report ever queued, in order
    lost: nat)           // entries of submissions that escaped

  datatype Event =
    | Report(entry: Json, batching: bool)   // batching is enabled and the client is running
    | Flush
    | BatchDone(index: nat, wx: Weather)
    | SingleDone(wx: Weather)

  function Initial(): State {
    State([], [], 0, Stats(0, 0, 0, 0, 0), [], 0)
  }

  /** Under the lock: the whole queue becomes one batch. */
  function Take(s: State): State {
    s.(queue := [], flights := s.flights + [Flight(s.queue, true)])
  }

  function Step(s: State, e: Event, cfg: Config): State {
    match e
    case Report(entry, batching) =>
      var s := s.(stats := s.stats.(submitted := s.stats.submitted + 1));
      if !batching then s.(singles := s.singles + 1)
      else
        var s := s.(queue := s.queue + [entry], queued := s.queued + [entry]);
        if |s.queue| >= cfg.batchSize then Take(s) else s
    case Flush => if s.queue == [] then s else Take(s)
    case BatchDone(i, wx) =>
      if i < |s.flights| && s.flights[i].open then
        var n := |s.flights[i].entries|;
        var t := BatchTally(n, cfg, wx);
        s.(flights := s.flights[i := s.flights[i].(open := false)], stats := Add(s.stats, t),
           lost := s.lost + if t.escaped then n else 0)
      else s
    case SingleDone(wx) =>
      if s.singles > 0 then
        var t := SingleTally(cfg, wx);
        s.(singles := s.singles - 1, stats := Add(s.stats, t), lost := s.lost + if t.escaped then 1 else 0)
      else s
  }

  function Run(s: State, events: seq<Event>, cfg: Config): State {
    if events == [] then s else Step(Run(s, events[..|events| - 1], cfg), events[|events| - 1], cfg)
  }

  /** The reports of a run that were to be batched, in order. */
  function BatchedReports(events: seq<Event>): seq<Json> {
    if events == [] then [] else
      var e := events[|events| - 1];
      BatchedReports(events[..|events| - 1]) + if e.Report? && e.batching then [e.entry] else []
  }

  function Reports(events: seq<Event>): nat {
    if events == [] then 0 else Reports(events[..|events| - 1]) + if events[|events| - 1].Report? then 1 else 0
  }

  lemma {:induction false} QueuedAreTheReports(events: seq<Event>, cfg: Config)
    ensures var s := Run(Initial(), events, cfg);
            s.queued == BatchedReports(events) && s.stats.submitted == Reports(events)
  {
    if events != [] {
      QueuedAreTheReports(events[..|events| - 1], cfg);
    }
  }

  function InFlight(flights: seq<Flight>): nat {
    if flights == [] then 0 else
      InFlight(flights[..|flights| - 1]) +
        if flights[|flights| - 1].open then |flights[|flights| - 1].entries| else 0
  }

  function Entries(flights: seq<Flight>): seq<Json> {
    if flights == [] then [] else Entries(flights[..|flights| - 1]) + flights[|flights| - 1].entries
  }

  function Limit(cfg: Config): nat {
    if cfg.batchSize > 1 then cfg.batchSize else 1
  }

  ghost predicate Conserved(s: State) {
    s.stats.submitted == s.stats.successful + s.stats.failed + s.stats.rejections
                         + |s.queue| + InFlight(s.flights) + s.singles + s.lost
  }

  ghost predicate InOrder(s: State, cfg: Config) {
    && s.queued == Entries(s.flights) + s.queue
    && |s.queue| < Limit(cfg)
    && forall f :: f in s.flights ==> 1 <= |f.entries| <= Limit(cfg)
  }

  lemma {:induction false} CloseFlight(flights: seq<Flight>, i: nat)
    requires i < |flights| && flights[i].open
    ensures var closed := flights[i := flights[i].(open := false)];
            && InFlight(closed) == InFlight(flights) - |flights[i].entries|
            && Entries(closed) == Entries(flights)
  {
    var n := |flights| - 1;
    var closed := flights[i := flights[i].(open := false)];
    if i < n {
      CloseFlight(flights[..n], i);
      assert closed[..n] == flights[..n][i := flights[i].(open := false)];
    } else {
      assert closed[..n] == flights[..n];
    }
  }

  lemma TakeKeeps(s: State, cfg: Config)
    requires Conserved(s) && s.queue != [] && |s.queue| <= Limit(cfg)
    requires s.queued == Entries(s.flights) + s.queue
    requires forall f :: f in s.flights ==> 1 <= |f.entries| <= Limit(cfg)
    ensures Conserved(Take(s)) && InOrder(Take(s), cfg)
  {
    var f := Take(s).flights;
    assert f[..|f| - 1] == s.flights;
  }

  lemma BatchDoneKeeps(s: State, i: nat, wx: Weather, cfg: Config)
    requires Conserved(s) && InOrder(s, cfg)
    ensures Conserved(Step(s, BatchDone(i, wx), cfg)) && InOrder(Step(s, BatchDone(i, wx), cfg), cfg)
  {
    if i < |s.flights| && s.flights[i].open {
      CloseFlight(s.flights, i);
      BatchAttemptsCount(|s.flights[i].entries|, cfg, wx, 0);
      var next := Step(s, BatchDone(i, wx), cfg);
      forall f | f in next.flights ensures 1 <= |f.entries| <= Limit(cfg) {
        var j :| 0 <= j < |next.flights| && next.flights[j] == f;
        assert s.flights[j] in s.flights;
      }
    }
  }

  lemma ReportKeeps(s: State, entry: Json, batching: bool, cfg: Config)
    requires Conserved(s) && InOrder(s, cfg)
    ensures Conserved(Step(s, Report(entry, batching), cfg)) && InOrder(Step(s, Report(entry, batching), cfg), cfg)
  {
    if batching {
      var more := s.(stats := s.stats.(submitted := s.stats.submitted + 1),
                     queue := s.queue + [entry], queued := s.queued + [entry]);
      assert more.queued == Entries(more.flights) + more.queue;
      if |more.queue| >= cfg.batchSize {
        TakeKeeps(more, cfg);
      }
    }
  }

  lemma SingleDoneKeeps(s: State, wx: Weather, cfg: Config)
    requires Conserved(s) && InOrder(s, cfg)
    ensures Conserved(Step(s, SingleDone(wx), cfg)) && InOrder(Step(s, SingleDone(wx), cfg), cfg)
  {
    SingleAttemptsCount(cfg, wx, 0);
  }

  lemma StepKeeps(s: State, e: Event, cfg: Config)
    requires Conserved(s) && InOrder(s, cfg)
    ensures Conserved(Step(s, e, cfg)) && InOrder(Step(s, e, cfg), cfg)
  {
    match e
    case Report(entry, batching) => ReportKeeps(s, entry, batching, cfg);
    case Flush =>
      if s.queue != [] {
        TakeKeeps(s, cfg);
      }
    case BatchDone(i, wx) => BatchDoneKeeps(s, i, wx, cfg);
    case SingleDone(wx) => SingleDoneKeeps(s, wx, cfg);
  }

  lemma {:induction false} RunKeeps(events: seq<Event>, cfg: Config)
    ensures Conserved(Run(Initial(), events, cfg)) && InOrder(Run(Initial(), events, cfg), cfg)
  {
    if events != [] {
      RunKeeps(events[..|events| - 1], cfg);
      StepKeeps(Run(Initial(), events[..|events| - 1], cfg), events[|events| - 1], cfg);
    }
  }

  /** Over every interleaving: each report of the run is successful, failed, rejected by the
      breaker, queued, in flight, or lost with a submission that escaped; so the statistics
      account for all of them if and only if nothing was lost. The batches taken and the
      queue are the batched reports of the run in order, each batch within its limit. */
  lemma Conservation(events: seq<Event>, cfg: Config)
    ensures var s := Run(Initial(), events, cfg);
            && s.stats.submitted == Reports(events)
            && Entries(s.flights) + s.queue == BatchedReports(events)
            && (forall f :: f in s.flights ==> 1 <= |f.entries| <= Limit(cfg))
            && Reports(events) == s.stats.successful + s.stats.failed + s.stats.rejections
                                  + |s.queue| + InFlight(s.flights) + s.singles + s.lost
  {
    RunKeeps(events, cfg);
    QueuedAreTheReports(events, cfg);
  }

  // ----- what is lost -----

  /** All attempts before number k were answered by an error status or a request error. */
  ghost predicate RetriedUpTo(wx: Weather, from: nat, k: nat) {
    forall j :: from <= j < k ==> wx.response(j) in {OtherStatus, RequestError}
  }

  /** The first attempt that decides brings a body that does not parse, or an exception that
      is no request error. */
  ghost predicate BatchBreaks(cfg: Config, wx: Weather, from: nat) {
    exists k :: from <= k < cfg.maxRetries && wx.response(k) in {BadBody, Escape} && RetriedUpTo(wx, from, k)
  }

  ghost predicate SingleBreaks(cfg: Config, wx: Weather, from: nat) {
    exists k :: from <= k < cfg.maxRetries && wx.response(k) == Escape && RetriedUpTo(wx, from, k)
  }

  /** A batch is lost past a closed breaker when an entry cannot be serialised, or so. */
  ghost predicate BatchIsLost(cfg: Config, wx: Weather) {
    !wx.breakerOpen && (!wx.serialised.Serialised? || BatchBreaks(cfg, wx, 0))
  }

  /** A single report is lost only with an error that its submission does not list. */
  ghost predicate SingleIsLost(cfg: Config, wx: Weather) {
    !wx.breakerOpen && (wx.serialised.OtherError? || (wx.serialised.Serialised? && SingleBreaks(cfg, wx, 0)))
  }

  lemma {:induction false} BatchAttemptsEscape(n: nat, cfg: Config, wx: Weather, attempt: nat)
    ensures BatchAttempts(n, cfg, wx, attempt).escaped <==> BatchBreaks(cfg, wx, attempt)
    decreases cfg.maxRetries - attempt
  {
    if attempt < cfg.maxRetries {
      BatchAttemptsEscape(n, cfg, wx, attempt + 1);
      if wx.response(attempt) in {OtherStatus, RequestError} {
        if BatchBreaks(cfg, wx, attempt) {
          var k :| attempt <= k < cfg.maxRetries && wx.response(k) in {BadBody, Escape} && RetriedUpTo(wx, attempt, k);
          assert RetriedUpTo(wx, attempt + 1, k);
        }
        if BatchBreaks(cfg, wx, attempt + 1) {
          var k :| attempt < k < cfg.maxRetries && wx.response(k) in {BadBody, Escape}
                   && RetriedUpTo(wx, attempt + 1, k);
          assert RetriedUpTo(wx, attempt, k);
        }
      } else if wx.response(attempt) in {BadBody, Escape} {
        assert RetriedUpTo(wx, attempt, attempt);
      }
    }
  }

  lemma {:induction false} SingleAttemptsEscape(cfg: Config, wx: Weather, attempt: nat)
    ensures SingleAttempts(cfg, wx, attempt).escaped <==> SingleBreaks(cfg, wx, attempt)
    decreases cfg.maxRetries - attempt
  {
    if attempt < cfg.maxRetries {
      SingleAttemptsEscape(cfg, wx, attempt + 1);
      if wx.response(attempt) in {OtherStatus, RequestError} {
        if SingleBreaks(cfg, wx, attempt) {
          var k :| attempt <= k < cfg.maxRetries && wx.response(k) == Escape && RetriedUpTo(wx, attempt, k);
          assert RetriedUpTo(wx, attempt + 1, k);
        }
        if SingleBreaks(cfg, wx, attempt + 1) {
          var k :| attempt < k < cfg.maxRetries && wx.response(k) == Escape && RetriedUpTo(wx, attempt + 1, k);
          assert RetriedUpTo(wx, attempt, k);
        }
      } else if wx.response(attempt) == Escape {
        assert RetriedUpTo(wx, attempt, attempt);
      }
    }
  }

  /** A submission leaves its entries uncounted under exactly these circumstances. */
  lemma EscapesExactly(n: nat, cfg: Config, wx: Weather)
    ensures BatchTally(n, cfg, wx).escaped <==> BatchIsLost(cfg, wx)
    ensures SingleTally(cfg, wx).escaped <==> SingleIsLost(cfg, wx)
  {
    BatchAttemptsEscape(n, cfg, wx, 0);
    SingleAttemptsEscape(cfg, wx, 0);
  }

  /** How many reports an event loses. */
  ghost function LossOf(e: Event, s: State, cfg: Config): nat {
    match e
    case BatchDone(i, wx) =>
      if i < |s.flights| && s.flights[i].open && BatchIsLost(cfg, wx) then |s.flights[i].entries| else 0
    case SingleDone(wx) => if s.singles > 0 && SingleIsLost(cfg, wx) then 1 else 0
    case _ => 0
  }

  ghost function Losses(events: seq<Event>, cfg: Config): nat {
    if events == [] then 0 else
      var prefix := events[..|events| - 1];
      Losses(prefix, cfg) + LossOf(events[|events| - 1], Run(Initial(), prefix, cfg), cfg)
  }

  /** What the statistics never account for is exactly what the submissions of the run lost. */
  lemma {:induction false} LostExactlyByEscapes(events: seq<Event>, cfg: Config)
    ensures Run(Initial(), events, cfg).lost == Losses(events, cfg)
  {
    if events != [] {
      var prefix, last := events[..|events| - 1], events[|events| - 1];
      LostExactlyByEscapes(prefix, cfg);
      match last {
        case BatchDone(i, wx) =>
          var flights := Run(Initial(), prefix, cfg).flights;
          EscapesExactly(if i < |flights| then |flights[i].entries| else 0, cfg, wx);
        case SingleDone(wx) => EscapesExactly(0, cfg, wx);
        case _ =>
      }
    }
  }

  /** Entries that serialise, answers that parse, no cancellation, and request errors at worst. */
  predicate Mild(e: Event, cfg: Config) {
    e.BatchDone? || e.SingleDone? ==>
      e.wx.serialised.Serialised?
      && forall k :: 0 <= k < cfg.maxRetries ==> e.wx.response(k) !in {BadBody, Escape}
  }

  /** A run of such submissions loses nothing, so its statistics account for every report. */
  lemma {:induction false} MildRunsLoseNothing(events: seq<Event>, cfg: Config)
    requires forall e :: e in events ==> Mild(e, cfg)
    ensures var s := Run(Initial(), events, cfg);
            s.lost == 0 && Reports(events) == s.stats.successful + s.stats.failed + s.stats.rejections
                                              + |s.queue| + InFlight(s.flights) + s.singles
  {
    Conservation(events, cfg);
    if events != [] {
      var prefix, last := events[..|events| - 1], events[|events| - 1];
      assert forall e :: e in prefix ==> e in events;
      assert last in events && Mild(last, cfg);
      MildRunsLoseNothing(prefix, cfg);
      LostExactlyByEscapes(prefix, cfg);
      LostExactlyByEscapes(events, cfg);
    }
  }

  lemma OneReport(entry: Json, cfg: Config)
    requires cfg.batchSize == 1
    ensures Run(Initial(), [Report(entry, true)], cfg).flights == [Flight([entry], true)]
    ensures Losses([Report(entry, true)], cfg) == 0
  {
    assert [Report(entry, true)][..0] == [];
    assert [] + [entry] == [entry];
  }

  /** One report, one answer with status 200 whose body does not parse: no statistic and no
      queue accounts for the report. */
  lemma UnparsedAnswerLosesTheBatch(entry: Json, wx: Weather)
    requires !wx.breakerOpen && wx.serialised.Serialised? && wx.response(0) == BadBody
    ensures var events := [Report(entry, true), BatchDone(0, wx)];
            var s := Run(Initial(), events, Config(1, 3));
            && s.stats.submitted == 1 && s.lost == 1
            && s.stats.successful + s.stats.failed + s.stats.rejections
               + |s.queue| + InFlight(s.flights) + s.singles == 0
  {
    var events, cfg := [Report(entry, true), BatchDone(0, wx)], Config(1, 3);
    assert events[..1] == [Report(entry, true)] && [Report(entry, true)][..0] == [];
    OneReport(entry, cfg);
    assert RetriedUpTo(wx, 0, 0);
    Conservation(events, cfg);
    LostExactlyByEscapes(events, cfg);
  }

  // ----- what each submission is counted as -----

  /** Attempt number k decides: all before it are retried, and it is not, or is one too many. */
  ghost predicate DecidedAt(cfg: Config, wx: Weather, k: nat) {
    && RetriedUpTo(wx, 0, k) && (k == 0 || k <= cfg.maxRetries)
    && (k < cfg.maxRetries ==> wx.response(k) !in {OtherStatus, RequestError})
  }

  lemma {:induction false} AttemptsAgree(n: nat, cfg: Config, wx: Weather, attempt: nat, k: nat)
    requires attempt <= k && (attempt == k || k <= cfg.maxRetries) && RetriedUpTo(wx, attempt, k)
    ensures BatchAttempts(n, cfg, wx, attempt) == BatchAttempts(n, cfg, wx, k)
    ensures SingleAttempts(cfg, wx, attempt) == SingleAttempts(cfg, wx, k)
    decreases k - attempt
  {
    if attempt < k {
      AttemptsAgree(n, cfg, wx, attempt + 1, k);
    }
  }

  lemma {:induction false} SomeAttemptDecides(cfg: Config, wx: Weather, attempt: nat) returns (k: nat)
    requires RetriedUpTo(wx, 0, attempt) && (attempt == 0 || attempt <= cfg.maxRetries)
    ensures DecidedAt(cfg, wx, k)
    decreases cfg.maxRetries - attempt
  {
    k := attempt;
    if attempt < cfg.maxRetries && wx.response(attempt) in {OtherStatus, RequestError} {
      k := SomeAttemptDecides(cfg, wx, attempt + 1);
    }
  }

  /** The submission moved the counters by these amounts and no other. */
  ghost predicate Counted(s: State, next: State, successful: int, failed: int, rejections: int, sent: int, lost: nat) {
    && next.stats == Stats(s.stats.submitted, s.stats.successful + successful, s.stats.failed + failed,
                           s.stats.rejections + rejections, s.stats.batchesSent + sent)
    && next.lost == s.lost + lost && next.queue == s.queue && next.queued == s.queued
  }

  /** A batch of n: rejected whole by an open breaker, lost whole with a bad entry; failed whole when
      no attempt decides; and otherwise as many are successful as hashes came back. */
  lemma BatchFate(s: State, i: nat, wx: Weather, cfg: Config) returns (k: nat)
    requires i < |s.flights| && s.flights[i].open
    ensures DecidedAt(cfg, wx, k)
    ensures var next, n := Step(s, BatchDone(i, wx), cfg), |s.flights[i].entries|;
            && next.flights == s.flights[i := Flight(s.flights[i].entries, false)] && next.singles == s.singles
            && if wx.breakerOpen then Counted(s, next, 0, 0, n, 0, 0)
               else if !wx.serialised.Serialised? then Counted(s, next, 0, 0, 0, 0, n)
               else if k >= cfg.maxRetries then Counted(s, next, 0, n, 0, 0, 0)
               else match wx.response(k)
                 case Accepted(hashes) => Counted(s, next, hashes, n - hashes, 0, 1, 0)
                 case _ => Counted(s, next, 0, 0, 0, 0, n)
  {
    k := SomeAttemptDecides(cfg, wx, 0);
    AttemptsAgree(|s.flights[i].entries|, cfg, wx, 0, k);
  }

  /** A single report: an error of its own, and a body that does not parse, count as failed. */
  lemma SingleFate(s: State, wx: Weather, cfg: Config) returns (k: nat)
    requires s.singles > 0
    ensures DecidedAt(cfg, wx, k)
    ensures var next := Step(s, SingleDone(wx), cfg);
            && next.flights == s.flights && next.singles == s.singles - 1
            && if wx.breakerOpen then Counted(s, next, 0, 0, 1, 0, 0)
               else if wx.serialised.OtherError? then Counted(s, next, 0, 0, 0, 0, 1)
               else if wx.serialised.ListedError? || k >= cfg.maxRetries then Counted(s, next, 0, 1, 0, 0, 0)
               else match wx.response(k)
                 case Accepted(_) => Counted(s, next, 1, 0, 0, 0, 0)
                 case Escape => Counted(s, next, 0, 0, 0, 0, 1)
                 case _ => Counted(s, next, 0, 1, 0, 0, 0)
  {
    k := SomeAttemptDecides(cfg, wx, 0);
    AttemptsAgree(0, cfg, wx, 0, k);
  }

  // ----- the client object -----

  class AuditClient {
    const cfg: Config
    var batch: seq<Json>
    var stats: Stats

    constructor (cfg: Config)
      ensures this.cfg == cfg && batch == [] && stats == Stats(0, 0, 0, 0, 0)
    {
      this.cfg := cfg;
      batch, stats := [], Stats(0, 0, 0, 0, 0);
    }

    /** The locked part of _queue_for_batch; a non-empty result is to be submitted. */
    method QueueForBatch(entry: Json) returns (toSend: seq<Json>)
      modifies this`batch
      ensures toSend + batch == old(batch) + [entry]
      ensures toSend == [] || batch == []
      ensures batch == [] <==> |old(batch)| + 1 >= cfg.batchSize
    {
      batch, toSend := batch + [entry], [];
      if |batch| >= cfg.batchSize {
        toSend := batch;
        batch := [];
      }
    }

    /** The locked part of _flush_batch. */
    method TakeBatch() returns (toSend: seq<Json>)
      modifies this`batch
      ensures toSend == old(batch) && batch == []
    {
      toSend := batch;
      batch := [];
    }

    method SubmitBatch(entries: seq<Json>, wx: Weather) returns (escaped: bool)
      requires entries != []
      modifies this`stats
      ensures stats == Add(old(stats), BatchTally(|entries|, cfg, wx))
      ensures escaped <==> BatchTally(|entries|, cfg, wx).escaped
    {
      if wx.breakerOpen {
        stats := stats.(rejections := stats.rejections + |entries|);
        return false;
      }
      if !wx.serialised.Serialised? {
        return true;
      }
      var attempt := 0;
      while attempt < cfg.maxRetries
        invariant attempt >= 0 && stats == old(stats)
        invariant BatchAttempts(|entries|, cfg, wx, attempt) == BatchAttempts(|entries|, cfg, wx, 0)
        decreases cfg.maxRetries - attempt
      {
        match wx.response(attempt) {
          case Accepted(hashes) =>
            stats := stats.(batchesSent := stats.batchesSent + 1,
                            successful := stats.successful + hashes,
                            failed := stats.failed + |entries| - hashes);
            return false;
          case BadBody => return true;
          case Escape => return true;
          case OtherStatus =>
          case RequestError =>
        }
        attempt := attempt + 1;
      }
      stats := stats.(failed := stats.failed + |entries|);
      escaped := false;
    }

    method SubmitSingle(wx: Weather) returns (escaped: bool)
      modifies this`stats
      ensures stats == Add(old(stats), SingleTally(cfg, wx))
      ensures escaped <==> SingleTally(cfg, wx).escaped
    {
      escaped := false;
      if wx.breakerOpen {
        stats := stats.(rejections := stats.rejections + 1);
        return;
      }
      match wx.serialised {
        case Serialised =>
        case ListedError =>
          stats := stats.(failed := stats.failed + 1);
          return;
        case OtherError => return true;
      }
      var attempt := 0;
      while attempt < cfg.maxRetries
        invariant attempt >= 0 && stats == old(stats)
        invariant SingleAttempts(cfg, wx, attempt) == SingleAttempts(cfg, wx, 0)
        decreases cfg.maxRetries - attempt
      {
        match wx.response(attempt) {
          case Accepted(_) =>
            stats := stats.(successful := stats.successful + 1);
            return;
          case BadBody =>
            stats := stats.(failed := stats.failed + 1);
            return;
          case Escape => return true;
          case OtherStatus =>
          case RequestError =>
        }
        attempt := attempt + 1;
      }
      stats := stats.(failed := stats.failed + 1);
    }
  }
}
