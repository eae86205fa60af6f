/** Chains of crashes, cancels and resumes over one workflow's checkpoint rows. */
module DurableChain {
  import opened JsonValues
  import opened Durable

  /** One call of execute. It is dead once its process has died; it is registered until it
      ends or is cancelled, which does not stop it. Its origin is what the execution that
      it goes back to, by way of resumes, was started with. */
  datatype Run = Run(phase: Phase, st: State, alive: bool, registered: bool, origin: Vars)

  /** Any number of runs of the workflow share its rows. `origins` has that of the run which
      wrote each row; `lost` counts the resumes from rows that lacked their own step's result. */
  datatype Sys = Sys(runs: seq<Run>, rows: Rows, origins: map<int, Vars>, lost: nat)

  datatype Event =
    | Execute(initial: Vars)    // a fresh run, over whatever rows there are
    | Resume(k: int)            // a run from the row at index k
    | Tick(run: nat)            // a run reaches its next await
    | Cancel(run: nat, mid: Vars)   // mid: the variables, should a step be in the middle of its work
    | Crash(run: nat)           // the run's process dies at the await where it is

  function Start(): Sys {
    Sys([], map[], map[], 0)
  }

  function MachineOf(s: Sys, i: nat): Machine
    requires i < |s.runs|
  {
    Machine(s.runs[i].phase, s.runs[i].st, s.rows)
  }

  predicate Going(s: Sys, i: nat) {
    i < |s.runs| && s.runs[i].alive && !Finished(MachineOf(s, i))
  }

  function Origin(s: Sys, k: int): Vars {
    if k in s.origins then s.origins[k] else map[]
  }

  function Launch(s: Sys, m: Machine, origin: Vars, lost: nat): Sys {
    Sys(s.runs + [Run(m.phase, m.st, true, !Finished(m), origin)], m.rows, s.origins, s.lost + lost)
  }

  function Fresh(w: Workflow, cfg: Config, initial: Vars, rows: Rows): Machine {
    Enter(w, cfg, 0, State(initial, map[], 0, None), rows)
  }

  function ResumeAt(w: Workflow, cfg: Config, k: int, rows: Rows): Machine
    requires k in rows && k >= -1
  {
    Enter(w, cfg, k + 1, rows[k].state, rows)
  }

  /** The row at index k already holds step k's result (an empty workflow has none to hold). */
  predicate Covers(w: Workflow, k: int, row: Row) {
    Has(row.state.results, k) || w == []
  }

  function PausedState(m: Machine, mid: Vars): State {
    if m.phase.Running? then m.st.(vars := mid) else m.st
  }

  /** The index of the row that the next await writes. */
  function SavedAt(w: Workflow, m: Machine): Option<int> {
    match m.phase
    case Before(i, false) => Some(i)
    case After(i, false) => Some(i)
    case Failing(i, false) => Some(i)
    case Completing(false) => Some(|w| - 1)
    case _ => None
  }

  function SavedStatus(m: Machine): Status {
    match m.phase
    case Failing(_, _) => Failed
    case Completing(_) => Completed
    case _ => Checkpointed
  }

  function Ticked(w: Workflow, cfg: Config, s: Sys, i: nat): Sys
    requires Going(s, i) && WellFormed(w, MachineOf(s, i))
  {
    var m := Advance(w, cfg, MachineOf(s, i));
    var run := Run(m.phase, m.st, true, s.runs[i].registered && !Finished(m), s.runs[i].origin);
    Sys(s.runs[i := run], m.rows,
        match SavedAt(w, MachineOf(s, i))
        case Some(k) => s.origins[k := run.origin]
        case None => s.origins,
        s.lost)
  }

  function Cancelled(s: Sys, i: nat, mid: Vars): Sys
    requires i < |s.runs|
  {
    var st := PausedState(MachineOf(s, i), mid);
    s.(runs := s.runs[i := s.runs[i].(registered := false)],
       rows := Save(s.rows, st.currentStep, st, Paused),
       origins := s.origins[st.currentStep := s.runs[i].origin])
  }

  function Crashed(s: Sys, i: nat): Sys {
    if i < |s.runs| then s.(runs := s.runs[i := s.runs[i].(alive := false, registered := false)]) else s
  }

  function Happen(w: Workflow, cfg: Config, s: Sys, e: Event): Sys
    requires forall i :: 0 <= i < |s.runs| ==> WellFormed(w, MachineOf(s, i))
  {
    match e
    case Execute(initial) => Launch(s, Fresh(w, cfg, initial, s.rows), initial, 0)
    case Resume(k) =>
      if k in s.rows && k >= -1
      then Launch(s, ResumeAt(w, cfg, k, s.rows), Origin(s, k), if Covers(w, k, s.rows[k]) then 0 else 1) else s
    case Tick(i) => if Going(s, i) then Ticked(w, cfg, s, i) else s
    case Cancel(i, mid) => if Going(s, i) && s.runs[i].registered then Cancelled(s, i, mid) else s
    case Crash(i) => Crashed(s, i)
  }

  // ----- what every chain keeps -----

  /** How many of the first i steps have no result. */
  function Missing(r: Results, i: int): nat {
    if i <= 0 then 0 else Missing(r, i - 1) + if Has(r, i - 1) then 0 else 1
  }

  lemma {:induction false} MissingBelow(a: Results, b: Results, i: int)
    requires forall j :: 0 <= j < i ==> (Has(a, j) <==> Has(b, j))
    ensures Missing(a, i) == Missing(b, i)
  {
    if i > 0 {
      MissingBelow(a, b, i - 1);
    }
  }

  /** No index occurs both as an int and as a text key, so no JSON key is ever written twice. */
  ghost predicate NoClash(r: Results) {
    forall i :: !(Live(i) in r && Stored(i) in r)
  }

  ghost predicate ResultsBelow(st: State, i: int) {
    forall j :: Has(st.results, j) ==> 0 <= j < i
  }

  ghost predicate AtEnd(w: Workflow, st: State, lost: nat) {
    && ResultsBelow(st, |w|)
    && Missing(st.results, |w|) <= lost
    && st.currentStep == if w == [] then 0 else |w| - 1
  }

  /** Step i is being worked on and has no result yet. */
  ghost predicate Pending(st: State, i: nat, lost: nat) {
    st.currentStep == i && ResultsBelow(st, i) && Missing(st.results, i) <= lost
  }

  ghost predicate RunInv(w: Workflow, m: Machine, lost: nat) {
    && WellFormed(w, m)
    && NoClash(m.st.results)
    && match m.phase
       case After(i, _) =>
         && m.st.currentStep == i && ResultsBelow(m.st, i + 1)
         && Has(m.st.results, i) && Missing(m.st.results, i + 1) <= lost
       case Completing(_) => AtEnd(w, m.st, lost)
       case Returned(success) => success ==> AtEnd(w, m.st, lost)
       case Raised => true
       case Before(i, _) => Pending(m.st, i, lost)
       case Running(i, _) => Pending(m.st, i, lost)
       case Failing(i, _) => Pending(m.st, i, lost)
  }

  /** A row at index k holds results for indices up to k only, and lacks at most
      `lost` of those below k. */
  ghost predicate RowInv(w: Workflow, k: int, row: Row, lost: nat) {
    && -1 <= k < |w| + 1 && (k < |w| || w == [])
    && NoClash(row.state.results)
    && ResultsBelow(row.state, k + 1) && ResultsBelow(row.state, |w|)
    && row.state.currentStep == (if w == [] then 0 else k)
    && Missing(row.state.results, k) <= lost
  }

  ghost predicate RunsInv(w: Workflow, s: Sys) {
    forall i :: 0 <= i < |s.runs| ==> RunInv(w, MachineOf(s, i), s.lost)
  }

  ghost predicate RowsInv(w: Workflow, rows: Rows, lost: nat) {
    forall k :: k in rows ==> RowInv(w, k, rows[k], lost)
  }

  ghost predicate ChainInv(w: Workflow, s: Sys) {
    RunsInv(w, s) && RowsInv(w, s.rows, s.lost)
  }

  lemma SnapshotKeeps(st: State)
    ensures forall i :: Has(Snapshot(st).results, i) <==> Has(st.results, i)
    ensures NoClash(Snapshot(st).results)
    ensures ByIndex(Snapshot(st).results) == ByIndex(st.results)
  {
    var r := Snapshot(st).results;
    assert forall i :: Live(i) !in r && (Stored(i) in r <==> Has(st.results, i));
  }

  lemma RecordAt(st: State, i: int, value: Json, lost: nat)
    requires NoClash(st.results) && ResultsBelow(st, i) && 0 <= i
    requires Missing(st.results, i) <= lost
    ensures var st' := Record(st, i, value);
            && NoClash(st'.results) && ResultsBelow(st', i + 1)
            && Has(st'.results, i) && Missing(st'.results, i + 1) <= lost
  {
    assert !Has(st.results, i);
    assert forall j :: Has(Record(st, i, value).results, j) <==> Has(st.results, j) || j == i;
    MissingBelow(st.results, Record(st, i, value).results, i);
  }

  /** Entering the loop at index i with results for smaller indices only. */
  lemma {:induction false} EnterInv(w: Workflow, cfg: Config, i: nat, st: State, rows: Rows, lost: nat)
    requires NoClash(st.results) && ResultsBelow(st, i) && ResultsBelow(st, |w|)
    requires Missing(st.results, if i < |w| then i else |w|) <= lost
    requires i >= |w| ==> st.currentStep == (if w == [] then 0 else i - 1) && (w == [] || i == |w|)
    ensures RunInv(w, Enter(w, cfg, i, st, rows), lost)
    ensures Enter(w, cfg, i, st, rows).rows == rows
    decreases |w| - i, 1
  {
    EnterWellFormed(w, cfg, i, st, rows);
    if i < |w| {
      StartInv(w, cfg, i, st.(currentStep := i), rows, lost);
    }
  }

  lemma {:induction false} StartInv(w: Workflow, cfg: Config, i: nat, st: State, rows: Rows, lost: nat)
    requires i < |w| && NoClash(st.results) && ResultsBelow(st, i) && st.currentStep == i
    requires Missing(st.results, i) <= lost
    ensures RunInv(w, StartStep(w, cfg, i, st, rows), lost)
    ensures StartStep(w, cfg, i, st, rows).rows == rows
    decreases |w| - i, 0, 1
  {
    if w[i].maxRetries < 0 {
      GiveUpInv(w, cfg, i, "None", st, rows, lost);
    }
  }

  lemma {:induction false} GiveUpInv(w: Workflow, cfg: Config, i: nat, text: string, st: State, rows: Rows, lost: nat)
    requires i < |w| && NoClash(st.results) && ResultsBelow(st, i) && st.currentStep == i
    requires Missing(st.results, i) <= lost
    ensures RunInv(w, GiveUp(w, cfg, i, text, st, rows), lost)
    ensures GiveUp(w, cfg, i, text, st, rows).rows == rows
    decreases |w| - i, 0, 0
  {
    if w[i].skipOnFailure {
      RecordAt(st, i, Skipped(text), lost);
      EnterInv(w, cfg, i + 1, Record(st, i, Skipped(text)), rows, lost);
    }
  }

  /** A row written from a live run. */
  lemma SaveInv(w: Workflow, m: Machine, k: int, st: State, status: Status, lost: nat)
    requires RunInv(w, m, lost) && !Finished(m)
    requires st.results == m.st.results && st.currentStep == m.st.currentStep
    requires k == m.st.currentStep || (m.phase.Completing? && k == |w| - 1)
    requires m.phase.Completing? && w == [] ==> -1 <= k <= 0
    ensures RowInv(w, k, Row(Snapshot(st), status), lost)
  {
    SnapshotKeeps(st);
    MissingBelow(Snapshot(st).results, st.results, k);
  }

  lemma SucceedInv(w: Workflow, cfg: Config, i: nat, value: Json, st: State, rows: Rows, lost: nat)
    requires i < |w| && NoClash(st.results) && ResultsBelow(st, i) && st.currentStep == i
    requires Missing(st.results, i) <= lost
    ensures RunInv(w, Succeed(w, cfg, i, value, st, rows), lost)
    ensures Succeed(w, cfg, i, value, st, rows).rows == rows
  {
    RecordAt(st, i, value, lost);
    EnterInv(w, cfg, i + 1, Record(st, i, value), rows, lost);
  }

  lemma AttemptInv(w: Workflow, cfg: Config, m: Machine, lost: nat)
    requires RunInv(w, m, lost) && m.phase.Running?
    ensures RunInv(w, Advance(w, cfg, m), lost)
    ensures Advance(w, cfg, m).rows == m.rows
  {
    var i := m.phase.i;
    var (vars, end) := w[i].run(m.st.vars);
    var st := m.st.(vars := vars);
    match end
    case Return(value) => SucceedInv(w, cfg, i, value, st, m.rows, lost);
    case Error(text) => GiveUpInv(w, cfg, i, text, st, m.rows, lost);
    case Escape =>
  }

  lemma AdvanceInv(w: Workflow, cfg: Config, m: Machine, lost: nat)
    requires RunInv(w, m, lost) && !Finished(m)
    ensures RunInv(w, Advance(w, cfg, m), lost)
    ensures forall k :: k in Advance(w, cfg, m).rows ==>
              || (k in m.rows && Advance(w, cfg, m).rows[k] == m.rows[k])
              || RowInv(w, k, Advance(w, cfg, m).rows[k], lost)
  {
    match m.phase
    case Before(i, false) => SaveInv(w, m, i, m.st, Checkpointed, lost);
    case Before(i, true) => StartInv(w, cfg, i, m.st, m.rows, lost);
    case Running(_, _) => AttemptInv(w, cfg, m, lost);
    case After(i, false) => SaveInv(w, m, i, m.st, Checkpointed, lost);
    case After(i, true) => EnterInv(w, cfg, i + 1, m.st, m.rows, lost);
    case Failing(i, false) => SaveInv(w, m, i, m.st, Failed, lost);
    case Completing(false) => SaveInv(w, m, |w| - 1, m.st, Completed, lost);
    case _ =>
  }

  lemma TickInv(w: Workflow, cfg: Config, s: Sys, i: nat)
    requires ChainInv(w, s) && Going(s, i)
    ensures WellFormed(w, MachineOf(s, i)) && ChainInv(w, Ticked(w, cfg, s, i))
  {
    assert RunInv(w, MachineOf(s, i), s.lost);
    var next := Ticked(w, cfg, s, i);
    AdvanceInv(w, cfg, MachineOf(s, i), s.lost);
    forall k | k in next.rows ensures RowInv(w, k, next.rows[k], s.lost) {
    }
    forall j | 0 <= j < |next.runs| ensures RunInv(w, MachineOf(next, j), s.lost) {
      assert j != i ==> RunInv(w, MachineOf(s, j), s.lost);
    }
  }

  lemma PausedInv(w: Workflow, rows: Rows, m: Machine, mid: Vars, lost: nat)
    requires RowsInv(w, rows, lost) && RunInv(w, m, lost) && !Finished(m)
    ensures var st := PausedState(m, mid);
            RowsInv(w, Save(rows, st.currentStep, st, Paused), lost)
  {
    var st := PausedState(m, mid);
    SaveInv(w, m, st.currentStep, st, Paused, lost);
  }

  lemma CancelInv(w: Workflow, s: Sys, i: nat, mid: Vars)
    requires ChainInv(w, s) && Going(s, i)
    ensures ChainInv(w, Cancelled(s, i, mid))
  {
    var next := Cancelled(s, i, mid);
    assert RunInv(w, MachineOf(s, i), s.lost);
    PausedInv(w, s.rows, MachineOf(s, i), mid, s.lost);
    forall j | 0 <= j < |next.runs| ensures RunInv(w, MachineOf(next, j), s.lost) {
      assert RunInv(w, MachineOf(s, j), s.lost);
    }
  }

  lemma LaunchInv(w: Workflow, s: Sys, m: Machine, origin: Vars, lost: nat)
    requires ChainInv(w, s) && RunInv(w, m, s.lost + lost) && m.rows == s.rows
    ensures ChainInv(w, Launch(s, m, origin, lost))
  {
    var next := Launch(s, m, origin, lost);
    forall k | k in next.rows ensures RowInv(w, k, next.rows[k], next.lost) {
      assert RowInv(w, k, s.rows[k], s.lost);
    }
    forall j | 0 <= j < |next.runs| ensures RunInv(w, MachineOf(next, j), next.lost) {
      if j < |s.runs| {
        assert RunInv(w, MachineOf(s, j), s.lost);
      }
    }
  }

  lemma FreshInv(w: Workflow, cfg: Config, initial: Vars, rows: Rows, lost: nat)
    ensures RunInv(w, Fresh(w, cfg, initial, rows), lost)
    ensures Fresh(w, cfg, initial, rows).rows == rows
  {
    EnterInv(w, cfg, 0, State(initial, map[], 0, None), rows, lost);
  }

  /** A resume loses at most the row's own step, and nothing if the row holds its result. */
  lemma ResumedInv(w: Workflow, cfg: Config, k: int, rows: Rows, lost: nat)
    requires k in rows && RowInv(w, k, rows[k], lost)
    ensures var m := ResumeAt(w, cfg, k, rows);
            RunInv(w, m, lost + if Covers(w, k, rows[k]) then 0 else 1) && m.rows == rows
  {
    var st := rows[k].state;
    assert Missing(st.results, if k + 1 < |w| then k + 1 else |w|)
           <= lost + if Covers(w, k, rows[k]) then 0 else 1;
    EnterInv(w, cfg, k + 1, st, rows, lost + if Covers(w, k, rows[k]) then 0 else 1);
  }

  lemma CrashInv(w: Workflow, s: Sys, i: nat)
    requires ChainInv(w, s)
    ensures ChainInv(w, Crashed(s, i))
  {
    var next := Crashed(s, i);
    forall j | 0 <= j < |next.runs| ensures RunInv(w, MachineOf(next, j), s.lost) {
      assert RunInv(w, MachineOf(s, j), s.lost);
    }
  }

  /** Every event keeps the invariant, however many runs share the rows. */
  lemma HappenInv(w: Workflow, cfg: Config, s: Sys, e: Event)
    requires ChainInv(w, s)
    ensures ChainInv(w, Happen(w, cfg, s, e))
  {
    match e
    case Execute(initial) =>
      FreshInv(w, cfg, initial, s.rows, s.lost);
      LaunchInv(w, s, Fresh(w, cfg, initial, s.rows), initial, 0);
    case Resume(k) =>
      if k in s.rows && k >= -1 {
        assert RowInv(w, k, s.rows[k], s.lost);
        ResumedInv(w, cfg, k, s.rows, s.lost);
        LaunchInv(w, s, ResumeAt(w, cfg, k, s.rows), Origin(s, k), if Covers(w, k, s.rows[k]) then 0 else 1);
      }
    case Tick(i) =>
      if Going(s, i) {
        TickInv(w, cfg, s, i);
      }
    case Cancel(i, mid) =>
      if Going(s, i) && s.runs[i].registered {
        CancelInv(w, s, i, mid);
      }
    case Crash(i) => CrashInv(w, s, i);
  }

  ghost function Chain(w: Workflow, cfg: Config, s: Sys, events: seq<Event>): (end: Sys)
    requires ChainInv(w, s)
    ensures ChainInv(w, end)
    decreases |events|
  {
    if events == [] then s else
      HappenInv(w, cfg, s, events[0]);
      Chain(w, cfg, Happen(w, cfg, s, events[0]), events[1..])
  }

  /** How many resumes of the chain were from a row without its own step's result. */
  ghost function UncoveredResumes(w: Workflow, cfg: Config, s: Sys, events: seq<Event>): nat
    requires ChainInv(w, s)
    decreases |events|
  {
    if events == [] then 0 else
      HappenInv(w, cfg, s, events[0]);
      (if Uncovered(w, s, events[0]) then 1 else 0)
      + UncoveredResumes(w, cfg, Happen(w, cfg, s, events[0]), events[1..])
  }

  predicate Uncovered(w: Workflow, s: Sys, e: Event) {
    e.Resume? && e.k in s.rows && e.k >= -1 && !Covers(w, e.k, s.rows[e.k])
  }

  lemma {:induction false} LostIsUncovered(w: Workflow, cfg: Config, s: Sys, events: seq<Event>)
    requires ChainInv(w, s)
    ensures Chain(w, cfg, s, events).lost == s.lost + UncoveredResumes(w, cfg, s, events)
    decreases |events|
  {
    if events != [] {
      HappenInv(w, cfg, s, events[0]);
      LostIsUncovered(w, cfg, Happen(w, cfg, s, events[0]), events[1..]);
    }
  }

  ghost predicate RunPromise(w: Workflow, m: Machine, lost: nat) {
    && (m.phase.Running? ==> !Has(m.st.results, m.phase.i))
    && (m.phase == Returned(true) ==>
          && (forall j :: Has(m.st.results, j) ==> 0 <= j < |w|)
          && Missing(m.st.results, |w|) <= lost)
  }

  ghost predicate RowPromise(k: int, row: Row) {
    && NoClash(row.state.results)
    && forall j :: Has(row.state.results, j) ==> 0 <= j <= k
  }

  /** Over any chain of executions, crashes, cancels and resumes, one after the other or at
      once: a row at index k has results for indices up to k only, each once; a step is never
      executed when it already has a result; and at success at most as many steps lack a
      result as there were resumes from rows that lacked their own step's. */
  lemma ChainTheorem(w: Workflow, cfg: Config, events: seq<Event>)
    ensures ChainInv(w, Start())
    ensures var end := Chain(w, cfg, Start(), events);
            && (forall k :: k in end.rows ==> RowPromise(k, end.rows[k]))
            && (forall i :: 0 <= i < |end.runs| ==>
                  RunPromise(w, MachineOf(end, i), UncoveredResumes(w, cfg, Start(), events)))
  {
    var end := Chain(w, cfg, Start(), events);
    LostIsUncovered(w, cfg, Start(), events);
    forall k | k in end.rows ensures RowPromise(k, end.rows[k]) {
      assert RowInv(w, k, end.rows[k], end.lost);
    }
    forall i | 0 <= i < |end.runs| ensures RunPromise(w, MachineOf(end, i), end.lost) {
      assert RunInv(w, MachineOf(end, i), end.lost);
    }
  }

  /** Left alone, a run of the chain ends exactly as the execution does. */
  lemma {:induction false} UndisturbedRunCompletes(w: Workflow, cfg: Config, s: Sys, i: nat) returns (ticks: seq<Event>)
    requires ChainInv(w, s) && i < |s.runs| && s.runs[i].alive
    ensures WellFormed(w, MachineOf(s, i))
    ensures forall j :: 0 <= j < |ticks| ==> ticks[j] == Tick(i)
    ensures var end := Chain(w, cfg, s, ticks);
            |end.runs| == |s.runs| && MachineOf(end, i) == Complete(w, cfg, MachineOf(s, i))
    decreases StepsLeft(w, MachineOf(s, i)), PhasesLeft(w, MachineOf(s, i)), RetriesLeft(w, MachineOf(s, i))
  {
    assert RunInv(w, MachineOf(s, i), s.lost);
    if Finished(MachineOf(s, i)) {
      ticks := [];
    } else {
      AdvanceProgress(w, cfg, MachineOf(s, i));
      HappenInv(w, cfg, s, Tick(i));
      var rest := UndisturbedRunCompletes(w, cfg, Happen(w, cfg, s, Tick(i)), i);
      ticks := [Tick(i)] + rest;
      assert ticks[1..] == rest;
    }
  }

  // ----- what a crash and a cancel end -----

  /** Run i was, and is, past being cancelled: it has been, or its process is dead. */
  ghost predicate Deaf(s: Sys, i: nat) {
    i < |s.runs| && !s.runs[i].registered
  }

  ghost predicate Dead(s: Sys, i: nat) {
    Deaf(s, i) && !s.runs[i].alive
  }

  lemma StepKeepsDeaf(w: Workflow, cfg: Config, s: Sys, e: Event, i: nat)
    requires ChainInv(w, s) && Deaf(s, i)
    ensures Deaf(Happen(w, cfg, s, e), i)
    ensures e.Cancel? && e.run == i ==> Happen(w, cfg, s, e) == s
    ensures Dead(s, i) ==> Happen(w, cfg, s, e).runs[i] == s.runs[i]
    ensures Dead(s, i) && e == Tick(i) ==> Happen(w, cfg, s, e) == s
  {
  }

  /** A crash leaves the rows as they are, and the run where it was, for good. */
  lemma {:induction false} CrashedForGood(w: Workflow, cfg: Config, s: Sys, i: nat, more: seq<Event>)
    requires ChainInv(w, s) && i < |s.runs|
    ensures var crashed := Happen(w, cfg, s, Crash(i));
            && ChainInv(w, crashed) && crashed.rows == s.rows && crashed.origins == s.origins
            && var end := Chain(w, cfg, crashed, more);
            Dead(end, i) && end.runs[i].phase == s.runs[i].phase && end.runs[i].st == s.runs[i].st
  {
    HappenInv(w, cfg, s, Crash(i));
    DeadStays(w, cfg, Happen(w, cfg, s, Crash(i)), i, more);
  }

  lemma {:induction false} DeadStays(w: Workflow, cfg: Config, s: Sys, i: nat, more: seq<Event>)
    requires ChainInv(w, s) && Dead(s, i)
    ensures Dead(Chain(w, cfg, s, more), i) && Chain(w, cfg, s, more).runs[i] == s.runs[i]
    decreases |more|
  {
    if more != [] {
      HappenInv(w, cfg, s, more[0]);
      StepKeepsDeaf(w, cfg, s, more[0], i);
      DeadStays(w, cfg, Happen(w, cfg, s, more[0]), i, more[1..]);
    }
  }

  lemma {:induction false} DeafStays(w: Workflow, cfg: Config, s: Sys, i: nat, more: seq<Event>)
    requires ChainInv(w, s) && Deaf(s, i)
    ensures Deaf(Chain(w, cfg, s, more), i)
    decreases |more|
  {
    if more != [] {
      HappenInv(w, cfg, s, more[0]);
      StepKeepsDeaf(w, cfg, s, more[0], i);
      DeafStays(w, cfg, Happen(w, cfg, s, more[0]), i, more[1..]);
    }
  }

  /** A cancel saves the paused state and does not stop the run; no later cancel finds it again. */
  lemma CancelledOnce(w: Workflow, cfg: Config, s: Sys, i: nat, mid: Vars, more: seq<Event>, later: Vars)
    requires ChainInv(w, s) && Going(s, i) && s.runs[i].registered
    ensures var after := Happen(w, cfg, s, Cancel(i, mid));
            && ChainInv(w, after) && Going(after, i)
            && after.runs[i].phase == s.runs[i].phase && after.runs[i].st == s.runs[i].st
            && var st := s.runs[i].st;
            && st.currentStep in after.rows && after.rows[st.currentStep].status == Paused
            && var end := Chain(w, cfg, after, more);
            Happen(w, cfg, end, Cancel(i, later)) == end
  {
    HappenInv(w, cfg, s, Cancel(i, mid));
    var after := Happen(w, cfg, s, Cancel(i, mid));
    DeafStays(w, cfg, after, i, more);
    StepKeepsDeaf(w, cfg, Chain(w, cfg, after, more), Cancel(i, later), i);
  }

  // ----- origins -----

  /** Every run and every row goes back to an execution among these events. */
  ghost predicate Sourced(s: Sys, past: seq<Event>) {
    && (forall i :: 0 <= i < |s.runs| ==> Execute(s.runs[i].origin) in past)
    && s.origins.Keys == s.rows.Keys
    && forall k :: k in s.origins ==> Execute(s.origins[k]) in past
  }

  /** What one await does to the rows. */
  lemma AdvanceSaves(w: Workflow, cfg: Config, m: Machine, lost: nat)
    requires RunInv(w, m, lost) && !Finished(m)
    ensures Advance(w, cfg, m).rows ==
            match SavedAt(w, m)
            case Some(k) => Save(m.rows, k, m.st, SavedStatus(m))
            case None => m.rows
  {
    match m.phase
    case Before(i, true) => StartInv(w, cfg, i, m.st, m.rows, lost);
    case Running(_, _) => AttemptInv(w, cfg, m, lost);
    case After(i, true) => EnterInv(w, cfg, i + 1, m.st, m.rows, lost);
    case _ =>
  }

  lemma HappenSourced(w: Workflow, cfg: Config, s: Sys, e: Event, past: seq<Event>)
    requires ChainInv(w, s) && Sourced(s, past)
    ensures Sourced(Happen(w, cfg, s, e), past + [e])
  {
    match e
    case Execute(initial) => FreshInv(w, cfg, initial, s.rows, s.lost);
    case Resume(k) =>
      if k in s.rows && k >= -1 {
        assert RowInv(w, k, s.rows[k], s.lost);
        ResumedInv(w, cfg, k, s.rows, s.lost);
      }
    case Tick(i) =>
      if Going(s, i) {
        assert RunInv(w, MachineOf(s, i), s.lost);
        AdvanceSaves(w, cfg, MachineOf(s, i), s.lost);
      }
    case Cancel(_, _) =>
    case Crash(_) =>
  }

  lemma {:induction false} ChainSourced(w: Workflow, cfg: Config, s: Sys, past: seq<Event>, events: seq<Event>)
    requires ChainInv(w, s) && Sourced(s, past)
    ensures Sourced(Chain(w, cfg, s, events), past + events)
    decreases |events|
  {
    if events == [] {
      assert past + events == past;
    } else {
      HappenInv(w, cfg, s, events[0]);
      HappenSourced(w, cfg, s, events[0], past);
      ChainSourced(w, cfg, Happen(w, cfg, s, events[0]), past + [events[0]], events[1..]);
      assert past + events == past + [events[0]] + events[1..];
    }
  }

  /** Every run of a chain, and every row, goes back to an execution of that chain. */
  lemma OriginsAreExecuted(w: Workflow, cfg: Config, events: seq<Event>)
    ensures ChainInv(w, Start()) && Sourced(Chain(w, cfg, Start(), events), events)
  {
    ChainSourced(w, cfg, Start(), [], events);
    assert [] + events == events;
  }
}
