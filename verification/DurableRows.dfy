/** Which rows a run leaves, and what its results are, read off the step flags, the interval
    and what the steps do. */
module DurableRows {
  import opened JsonValues
  import opened Durable
  import opened DurableChain
  import opened DurableExecutors

  /** All the attempts of step i, from these variables. */
  function Tried(w: Workflow, i: nat, vars: Vars): (Vars, Settled)
    requires i < |w|
  {
    if w[i].maxRetries < 0 then (vars, GaveUp("None")) else Attempts(w[i], 0, vars)
  }

  /** n divides i. */
  ghost predicate Divides(n: int, i: int) {
    exists q: int :: i == q * n
  }

  /** Checkpoints are automatic, and i is a multiple of the interval. */
  ghost predicate IsDue(cfg: Config, i: nat) {
    cfg.auto && Divides(cfg.interval, i)
  }

  lemma Multiples(n: int, i: int)
    requires n != 0
    ensures i % n == 0 <==> Divides(n, i)
  {
    if i % n == 0 {
      assert i == (i / n) * n;
    }
    if Divides(n, i) {
      var q: int :| i == q * n;
      RemainderOfMultiple(q, n);
    }
  }

  lemma RemainderOfMultiple(q: int, n: int)
    requires n != 0
    ensures (q * n) % n == 0
  {
    var i := q * n;
    assert i == (i / n) * n + i % n;
    var d := q - i / n;
    assert d * n == i % n;
    var size := if n > 0 then n else -n;
    assert 0 <= i % n < size;
    if d >= 1 {
      SignedBounds(d, n);
    } else if d <= -1 {
      SignedBounds(-d, n);
    }
  }

  lemma SignedBounds(d: int, n: int)
    requires d >= 1
    ensures n > 0 ==> d * n >= n
    ensures n < 0 ==> d * n <= n
  {
  }

  lemma DueMeansDivisible(cfg: Config, i: nat)
    requires cfg.auto ==> cfg.interval != 0
    ensures !ShouldCheckpoint(cfg, i).ZeroDivision?
    ensures ShouldCheckpoint(cfg, i).Yes? <==> IsDue(cfg, i)
  {
    if cfg.auto {
      Multiples(cfg.interval, i);
    }
  }

  /** The run goes on past a step that returned, or that was given up and may be skipped. */
  predicate Passes(step: Step, settled: Settled) {
    settled.Done? || (settled.GaveUp? && step.skipOnFailure)
  }

  /** The run that is about to enter step i gets as far as entering step k. */
  predicate Gets(w: Workflow, i: nat, vars: Vars, k: nat)
    decreases k - i
  {
    i == k ||
      (i < k && i < |w| && Passes(w[i], Tried(w, i, vars).1) && Gets(w, i + 1, Tried(w, i, vars).0, k))
  }

  /** The variables with which it enters step k. */
  function VarsAt(w: Workflow, i: nat, vars: Vars, k: nat): Vars
    requires Gets(w, i, vars, k)
    decreases k - i
  {
    if i == k then vars else VarsAt(w, i + 1, Tried(w, i, vars).0, k)
  }

  /** What becomes of step k. */
  function FateOf(w: Workflow, i: nat, vars: Vars, k: nat): Settled
    requires k < |w| && Gets(w, i, vars, k)
  {
    Tried(w, k, VarsAt(w, i, vars, k)).1
  }

  /** The run leaves a row at index k. */
  ghost predicate Leaves(w: Workflow, cfg: Config, i: nat, vars: Vars, k: int) {
    || (k == |w| - 1 && i <= |w| && Gets(w, i, vars, |w|))
    || (&& i <= k < |w| && Gets(w, i, vars, k)
        && var fate := FateOf(w, i, vars, k);
           || (w[k].checkpointBefore && IsDue(cfg, k))
           || (w[k].checkpointAfter && IsDue(cfg, k) && fate.Done?)
           || (fate.GaveUp? && !w[k].skipOnFailure))
  }

  /** The run leaves a row at index k with the result of step k. */
  ghost predicate LeavesResult(w: Workflow, cfg: Config, i: nat, vars: Vars, k: int) {
    || (k == |w| - 1 && i <= |w| && w != [] && Gets(w, i, vars, |w|))
    || (&& i <= k < |w| && Gets(w, i, vars, k)
        && w[k].checkpointAfter && IsDue(cfg, k) && FateOf(w, i, vars, k).Done?)
  }

  /** Step i itself leaves a row. */
  ghost predicate LeavesHere(w: Workflow, cfg: Config, i: nat, settled: Settled)
    requires i < |w|
  {
    || (w[i].checkpointBefore && IsDue(cfg, i))
    || (w[i].checkpointAfter && IsDue(cfg, i) && settled.Done?)
    || (settled.GaveUp? && !w[i].skipOnFailure)
  }

  ghost predicate LeavesResultHere(w: Workflow, cfg: Config, i: nat, settled: Settled)
    requires i < |w|
  {
    w[i].checkpointAfter && IsDue(cfg, i) && settled.Done?
  }

  lemma LeavesStep(w: Workflow, cfg: Config, i: nat, vars: Vars, k: int)
    requires i < |w|
    ensures var (vars', settled) := Tried(w, i, vars);
            var on := Passes(w[i], settled);
            && (Leaves(w, cfg, i, vars, k) <==>
                  (k == i && LeavesHere(w, cfg, i, settled)) || (on && Leaves(w, cfg, i + 1, vars', k)))
            && (LeavesResult(w, cfg, i, vars, k) <==>
                  (k == i && LeavesResultHere(w, cfg, i, settled)) || (on && LeavesResult(w, cfg, i + 1, vars', k)))
  {
  }

  // ----- one turn of the loop -----

  ghost predicate AllHave(st: State, i: nat) {
    forall j :: 0 <= j < i ==> Has(st.results, j)
  }

  /** The rows once the before-step checkpoint of step i is made, or not. */
  ghost function RowsBefore(w: Workflow, cfg: Config, i: nat, st: State, rows: Rows): Rows
    requires i < |w|
  {
    if w[i].checkpointBefore && IsDue(cfg, i) then Save(rows, i, st.(currentStep := i), Checkpointed) else rows
  }

  /** The state in which step i leaves the run, its result recorded. */
  function StateAfter(w: Workflow, i: nat, st: State): State
    requires i < |w|
  {
    var (vars, settled) := Tried(w, i, st.vars);
    var st' := st.(currentStep := i, vars := vars);
    match settled
    case Done(value) => Record(st', i, value)
    case GaveUp(text) => Record(st', i, Obj(map["skipped" := Bool(true), "error" := Str(text)]))
    case Escaped => st'
  }

  ghost function RowsAfter(w: Workflow, cfg: Config, i: nat, st: State, rows: Rows): Rows
    requires i < |w|
  {
    var before := RowsBefore(w, cfg, i, st, rows);
    if LeavesResultHere(w, cfg, i, Tried(w, i, st.vars).1)
    then Save(before, i, StateAfter(w, i, st), Checkpointed) else before
  }

  lemma TurnBegins(w: Workflow, cfg: Config, i: nat, st: State, rows: Rows)
    requires i < |w| && (cfg.auto ==> cfg.interval != 0)
    ensures WellFormed(w, Enter(w, cfg, i, st, rows))
    ensures var (vars, settled) := Tried(w, i, st.vars);
            var before := RowsBefore(w, cfg, i, st, rows);
            var next := Settle(w, cfg, i, settled, st.(currentStep := i, vars := vars), before);
            && WellFormed(w, next)
            && Ending(w, cfg, Enter(w, cfg, i, st, rows)) == Ending(w, cfg, next)
  {
    EnterWellFormed(w, cfg, i, st, rows);
    DueMeansDivisible(cfg, i);
    EnterSteps(w, cfg, i, st, rows);
    StartSteps(w, cfg, i, st.(currentStep := i), RowsBefore(w, cfg, i, st, rows));
  }

  /** A step that the run passes: on to the next one. */
  lemma TurnPasses(w: Workflow, cfg: Config, i: nat, st: State, rows: Rows)
    requires i < |w| && (cfg.auto ==> cfg.interval != 0)
    requires Passes(w[i], Tried(w, i, st.vars).1)
    ensures WellFormed(w, Enter(w, cfg, i, st, rows))
    ensures var next := Enter(w, cfg, i + 1, StateAfter(w, i, st), RowsAfter(w, cfg, i, st, rows));
            && WellFormed(w, next)
            && Ending(w, cfg, Enter(w, cfg, i, st, rows)) == Ending(w, cfg, next)
  {
    TurnBegins(w, cfg, i, st, rows);
    var (vars, settled) := Tried(w, i, st.vars);
    var before := RowsBefore(w, cfg, i, st, rows);
    EnterWellFormed(w, cfg, i + 1, StateAfter(w, i, st), RowsAfter(w, cfg, i, st, rows));
    if settled.Done? {
      DueMeansDivisible(cfg, i);
      SucceedSteps(w, cfg, i, settled.value, st.(currentStep := i, vars := vars), before);
    }
  }

  /** A step that it does not pass: the end. */
  lemma TurnEnds(w: Workflow, cfg: Config, i: nat, st: State, rows: Rows)
    requires i < |w| && (cfg.auto ==> cfg.interval != 0)
    requires !Passes(w[i], Tried(w, i, st.vars).1)
    ensures WellFormed(w, Enter(w, cfg, i, st, rows))
    ensures var (vars, settled) := Tried(w, i, st.vars);
            var st' := st.(currentStep := i, vars := vars);
            var end := Ending(w, cfg, Enter(w, cfg, i, st, rows));
            var before := RowsBefore(w, cfg, i, st, rows);
            match settled
            case GaveUp(text) =>
              var failed := st'.(error := Some(text));
              end == Machine(Returned(false), failed, Save(before, i, failed, Failed))
            case _ => end == Machine(Raised, st', before)
  {
    TurnBegins(w, cfg, i, st, rows);
    var (vars, settled) := Tried(w, i, st.vars);
    if settled.GaveUp? {
      FailingSteps(w, cfg, i, st.(currentStep := i, vars := vars, error := Some(settled.text)),
                   RowsBefore(w, cfg, i, st, rows));
    }
  }

  lemma LoopDone(w: Workflow, cfg: Config, i: nat, st: State, rows: Rows)
    requires i >= |w|
    ensures WellFormed(w, Enter(w, cfg, i, st, rows))
    ensures Ending(w, cfg, Enter(w, cfg, i, st, rows)) ==
            Machine(Returned(true), st, Save(rows, |w| - 1, st, Completed))
  {
    var m := Enter(w, cfg, i, st, rows);
    Onward(w, cfg, m);
    Onward(w, cfg, Advance(w, cfg, m));
  }

  // ----- whole runs -----

  /** Whether there is a row at index k, and whether it has the result of step k. */
  predicate HasRow(rows: Rows, k: int) {
    k in rows
  }

  predicate HasResultRow(rows: Rows, k: int) {
    k in rows && Has(rows[k].state.results, k)
  }

  lemma SavedRowAt(rows: Rows, i: int, st: State, status: Status, k: int)
    ensures HasRow(Save(rows, i, st, status), k) <==> HasRow(rows, k) || k == i
    ensures HasResultRow(Save(rows, i, st, status), k) <==>
            if k == i then Has(st.results, i) else HasResultRow(rows, k)
  {
    SnapshotKeeps(st);
  }

  /** What one passed step does to the row at index k. */
  lemma RowsAfterAt(w: Workflow, cfg: Config, i: nat, st: State, rows: Rows, k: int)
    requires i < |w| && ResultsBelow(st, i) && Passes(w[i], Tried(w, i, st.vars).1)
    ensures var settled := Tried(w, i, st.vars).1;
            var after := RowsAfter(w, cfg, i, st, rows);
            && (HasRow(after, k) <==> HasRow(rows, k) || (k == i && LeavesHere(w, cfg, i, settled)))
            && (HasResultRow(after, k) <==>
                  if k == i && LeavesHere(w, cfg, i, settled) then LeavesResultHere(w, cfg, i, settled)
                  else HasResultRow(rows, k))
  {
    assert !Has(st.results, i);
    SavedRowAt(rows, i, st.(currentStep := i), Checkpointed, k);
    SavedRowAt(RowsBefore(w, cfg, i, st, rows), i, StateAfter(w, i, st), Checkpointed, k);
  }

  lemma StateAfterHas(w: Workflow, i: nat, st: State)
    requires i < |w| && ResultsBelow(st, i) && AllHave(st, i) && Passes(w[i], Tried(w, i, st.vars).1)
    ensures ResultsBelow(StateAfter(w, i, st), i + 1) && AllHave(StateAfter(w, i, st), i + 1)
    ensures StateAfter(w, i, st).vars == Tried(w, i, st.vars).0
  {
    assert forall j :: Has(StateAfter(w, i, st).results, j) <==> Has(st.results, j) || j == i;
  }

  ghost predicate RowsAsSaid(w: Workflow, cfg: Config, i: nat, vars: Vars, rows: Rows, end: Rows, k: int) {
    && (HasRow(end, k) <==> HasRow(rows, k) || Leaves(w, cfg, i, vars, k))
    && (HasResultRow(end, k) <==>
          if Leaves(w, cfg, i, vars, k) then LeavesResult(w, cfg, i, vars, k) else HasResultRow(rows, k))
  }

  lemma {:induction false} RowsFrom(w: Workflow, cfg: Config, i: nat, st: State, rows: Rows, k: int)
    requires i <= |w| && (cfg.auto ==> cfg.interval != 0) && ResultsBelow(st, i) && AllHave(st, i)
    requires i < |w| ==> forall j :: j in rows ==> j < i
    ensures WellFormed(w, Enter(w, cfg, i, st, rows))
    ensures RowsAsSaid(w, cfg, i, st.vars, rows, Ending(w, cfg, Enter(w, cfg, i, st, rows)).rows, k)
    decreases |w| - i
  {
    if i == |w| {
      LoopDone(w, cfg, i, st, rows);
      SavedRowAt(rows, |w| - 1, st, Completed, k);
      assert w == [] ==> !Has(st.results, -1);
    } else {
      LeavesStep(w, cfg, i, st.vars, k);
      if Passes(w[i], Tried(w, i, st.vars).1) {
        TurnPasses(w, cfg, i, st, rows);
        StateAfterHas(w, i, st);
        RowsAfterAt(w, cfg, i, st, rows, k);
        RowsFrom(w, cfg, i + 1, StateAfter(w, i, st), RowsAfter(w, cfg, i, st, rows), k);
      } else {
        TurnEnds(w, cfg, i, st, rows);
        var (vars, settled) := Tried(w, i, st.vars);
        SavedRowAt(rows, i, st.(currentStep := i), Checkpointed, k);
        if settled.GaveUp? {
          SavedRowAt(RowsBefore(w, cfg, i, st, rows), i,
                     st.(currentStep := i, vars := vars, error := Some(settled.text)), Failed, k);
        }
      }
    }
  }

  ghost function RunToEnd(w: Workflow, cfg: Config, initial: Vars): Machine {
    FreshInv(w, cfg, initial, map[], 0);
    Complete(w, cfg, Fresh(w, cfg, initial, map[]))
  }

  /** A run over no rows leaves exactly these: at the last index if it gets through; at a failed
      step; and at the multiples of the interval that it enters, for steps that ask for a
      checkpoint before, or that return and ask for one after. The last and those after a step
      have the step's result. */
  lemma RowsOfARun(w: Workflow, cfg: Config, initial: Vars, k: int)
    requires cfg.auto ==> cfg.interval != 0
    ensures HasRow(RunToEnd(w, cfg, initial).rows, k) <==> Leaves(w, cfg, 0, initial, k)
    ensures HasResultRow(RunToEnd(w, cfg, initial).rows, k) <==> LeavesResult(w, cfg, 0, initial, k)
  {
    RowsFrom(w, cfg, 0, State(initial, map[], 0, None), map[], k);
  }

  /** So a step before the last that returns and asks for it leaves its result if and only if
      the interval divides its index: with interval 1, always. */
  lemma AfterStepRows(w: Workflow, cfg: Config, initial: Vars, k: nat)
    requires cfg.auto && cfg.interval != 0 && k < |w| - 1
    requires Gets(w, 0, initial, k) && FateOf(w, 0, initial, k).Done? && w[k].checkpointAfter
    ensures HasResultRow(RunToEnd(w, cfg, initial).rows, k) <==> Divides(cfg.interval, k)
    ensures cfg.interval == 1 ==> HasResultRow(RunToEnd(w, cfg, initial).rows, k)
  {
    RowsOfARun(w, cfg, initial, k);
    assert k == k * 1;
  }

  /** Without automatic checkpoints only the end of the run leaves a row. */
  lemma RowsWithoutAutoCheckpoints(w: Workflow, cfg: Config, initial: Vars, k: int)
    requires !cfg.auto
    ensures HasRow(RunToEnd(w, cfg, initial).rows, k) <==>
              || (k == |w| - 1 && Gets(w, 0, initial, |w|))
              || (0 <= k < |w| && Gets(w, 0, initial, k)
                  && FateOf(w, 0, initial, k).GaveUp? && !w[k].skipOnFailure)
  {
    RowsOfARun(w, cfg, initial, k);
  }

  /** An interval of zero makes a run raise at the first checkpoint it asks for. */
  lemma ZeroIntervalRaises(w: Workflow, cfg: Config, initial: Vars)
    requires cfg.auto && cfg.interval == 0 && w != [] && w[0].checkpointBefore
    ensures RunToEnd(w, cfg, initial).phase == Raised && RunToEnd(w, cfg, initial).rows == map[]
  {
  }

  // ----- results -----

  /** What is recorded for a step the run passes. */
  function ResultOf(settled: Settled): Json {
    match settled
    case Done(value) => value
    case GaveUp(text) => Obj(map["skipped" := Bool(true), "error" := Str(text)])
    case Escaped => Null
  }

  /** How a run ends that stops at step k. */
  predicate StopsAt(end: Machine, k: nat, settled: Settled) {
    && end.st.currentStep == k
    && match settled
       case GaveUp(text) => end.phase == Returned(false) && end.st.error == Some(text)
       case _ => end.phase == Raised
  }

  ghost predicate EndAsSaid(w: Workflow, i: nat, st: State, end: Machine, k: nat) {
    && (Gets(w, i, st.vars, |w|) ==>
          end.phase == Returned(true) && end.st.vars == VarsAt(w, i, st.vars, |w|))
    && (i <= k < |w| && Gets(w, i, st.vars, k) ==>
          var fate := FateOf(w, i, st.vars, k);
          if Passes(w[k], fate) then Live(k) in end.st.results && end.st.results[Live(k)] == ResultOf(fate)
          else StopsAt(end, k, fate))
    && (k < i && Live(k) in st.results ==>
          Live(k) in end.st.results && end.st.results[Live(k)] == st.results[Live(k)])
  }

  lemma {:induction false} EndFrom(w: Workflow, cfg: Config, i: nat, st: State, rows: Rows, k: nat)
    requires i <= |w| && (cfg.auto ==> cfg.interval != 0)
    ensures WellFormed(w, Enter(w, cfg, i, st, rows))
    ensures EndAsSaid(w, i, st, Ending(w, cfg, Enter(w, cfg, i, st, rows)), k)
    decreases |w| - i
  {
    if i == |w| {
      LoopDone(w, cfg, i, st, rows);
    } else if Passes(w[i], Tried(w, i, st.vars).1) {
      TurnPasses(w, cfg, i, st, rows);
      EndFrom(w, cfg, i + 1, StateAfter(w, i, st), RowsAfter(w, cfg, i, st, rows), k);
      assert StateAfter(w, i, st).vars == Tried(w, i, st.vars).0;
    } else {
      TurnEnds(w, cfg, i, st, rows);
    }
  }

  /** A run that gets through has each step's value, or the note that it was skipped and why,
      and the variables the steps made; one that stops, stops at the first step it cannot pass,
      with its error if it was given up. */
  lemma EndOfARun(w: Workflow, cfg: Config, initial: Vars, k: nat)
    requires cfg.auto ==> cfg.interval != 0
    ensures EndAsSaid(w, 0, State(initial, map[], 0, None), RunToEnd(w, cfg, initial), k)
  {
    EndFrom(w, cfg, 0, State(initial, map[], 0, None), map[], k);
  }
}
