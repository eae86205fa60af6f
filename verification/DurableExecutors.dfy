/** The executor object: its loops, and the checkpoint table it writes in place. */
module DurableExecutors {
  import opened JsonValues
  import opened Durable

  datatype Settled = Done(value: Json) | GaveUp(text: string) | Escaped

  datatype Result = Finished(success: bool, state: State) | Exception(state: State) | CheckpointNotFound

  /** A stored row, by its workflow and step index. */
  datatype Checkpoint = Checkpoint(owner: string, index: int)

  function Pow2(n: nat): nat {
    if n == 0 then 1 else 2 * Pow2(n - 1)
  }

  /** The attempts from number a on, and what they leave of the variables. */
  function Attempts(step: Step, a: nat, vars: Vars): (Vars, Settled)
    requires a <= step.maxRetries
    decreases step.maxRetries - a
  {
    var (vars', end) := step.run(vars);
    match end
    case Return(value) => (vars', Done(value))
    case Escape => (vars', Escaped)
    case Error(text) =>
      if a < step.maxRetries then Attempts(step, a + 1, vars') else (vars', GaveUp(text))
  }

  function Settle(w: Workflow, cfg: Config, i: nat, settled: Settled, st: State, rows: Rows): Machine
    requires i < |w|
  {
    match settled
    case Done(value) => Succeed(w, cfg, i, value, st, rows)
    case GaveUp(text) => GiveUp(w, cfg, i, text, st, rows)
    case Escaped => Machine(Raised, st, rows)
  }

  ghost function Ending(w: Workflow, cfg: Config, m: Machine): Machine
    requires WellFormed(w, m)
  {
    Complete(w, cfg, m)
  }

  lemma Onward(w: Workflow, cfg: Config, m: Machine)
    requires WellFormed(w, m)
    ensures WellFormed(w, Advance(w, cfg, m))
    ensures Ending(w, cfg, Advance(w, cfg, m)) == Ending(w, cfg, m)
  {
    if !Durable.Finished(m) {
      AdvanceProgress(w, cfg, m);
    }
  }

  /** All the attempts of a step, one await point after another. */
  lemma {:induction false} AttemptsEnd(w: Workflow, cfg: Config, i: nat, a: nat, st: State, rows: Rows)
    requires i < |w| && a <= w[i].maxRetries
    ensures var (vars, settled) := Attempts(w[i], a, st.vars);
            var next := Settle(w, cfg, i, settled, st.(vars := vars), rows);
            && WellFormed(w, next)
            && Ending(w, cfg, Machine(Running(i, a), st, rows)) == Ending(w, cfg, next)
    decreases w[i].maxRetries - a
  {
    var m := Machine(Running(i, a), st, rows);
    Onward(w, cfg, m);
    var (vars', end) := w[i].run(st.vars);
    if end.Error? && a < w[i].maxRetries {
      AttemptsEnd(w, cfg, i, a + 1, st.(vars := vars'), rows);
      assert st.(vars := vars').(vars := Attempts(w[i], a, st.vars).0) == st.(vars := Attempts(w[i], a, st.vars).0);
    }
  }

  /** The before-step save, as await points. */
  lemma EnterSteps(w: Workflow, cfg: Config, i: nat, st: State, rows: Rows)
    requires i < |w|
    requires WellFormed(w, Enter(w, cfg, i, st, rows))
    ensures var st' := st.(currentStep := i);
            var due := ShouldCheckpoint(cfg, i);
            var rows' := if w[i].checkpointBefore && due.Yes? then Save(rows, i, st', Checkpointed) else rows;
            var next := if w[i].checkpointBefore && due.ZeroDivision? then Machine(Raised, st', rows)
                        else StartStep(w, cfg, i, st', rows');
            && WellFormed(w, next)
            && Ending(w, cfg, Enter(w, cfg, i, st, rows)) == Ending(w, cfg, next)
  {
    var m := Enter(w, cfg, i, st, rows);
    if w[i].checkpointBefore && ShouldCheckpoint(cfg, i).Yes? {
      Onward(w, cfg, m);
      Onward(w, cfg, Advance(w, cfg, m));
    }
  }

  lemma StartSteps(w: Workflow, cfg: Config, i: nat, st: State, rows: Rows)
    requires i < |w| && WellFormed(w, StartStep(w, cfg, i, st, rows))
    ensures var (vars, settled) := if w[i].maxRetries < 0 then (st.vars, GaveUp("None"))
                                   else Attempts(w[i], 0, st.vars);
            var next := Settle(w, cfg, i, settled, st.(vars := vars), rows);
            && WellFormed(w, next)
            && Ending(w, cfg, StartStep(w, cfg, i, st, rows)) == Ending(w, cfg, next)
  {
    if w[i].maxRetries >= 0 {
      AttemptsEnd(w, cfg, i, 0, st, rows);
    } else {
      assert st.(vars := st.vars) == st;
    }
  }

  /** The after-step save, as await points. */
  lemma SucceedSteps(w: Workflow, cfg: Config, i: nat, value: Json, st: State, rows: Rows)
    requires i < |w| && WellFormed(w, Succeed(w, cfg, i, value, st, rows))
    ensures var st' := Record(st, i, value);
            var due := ShouldCheckpoint(cfg, i);
            var rows' := if w[i].checkpointAfter && due.Yes? then Save(rows, i, st', Checkpointed) else rows;
            var next := if w[i].checkpointAfter && due.ZeroDivision? then Machine(Raised, st', rows)
                        else Enter(w, cfg, i + 1, st', rows');
            && WellFormed(w, next)
            && Ending(w, cfg, Succeed(w, cfg, i, value, st, rows)) == Ending(w, cfg, next)
  {
    var m := Succeed(w, cfg, i, value, st, rows);
    if w[i].checkpointAfter && ShouldCheckpoint(cfg, i).Yes? {
      Onward(w, cfg, m);
      Onward(w, cfg, Advance(w, cfg, m));
    }
  }

  lemma FailingSteps(w: Workflow, cfg: Config, i: nat, st: State, rows: Rows)
    requires i < |w|
    ensures Ending(w, cfg, Machine(Failing(i, false), st, rows)) ==
            Machine(Returned(false), st, Save(rows, i, st, Failed))
  {
    var m := Machine(Failing(i, false), st, rows);
    Onward(w, cfg, m);
    Onward(w, cfg, Advance(w, cfg, m));
  }

  lemma EmptyOrNot(s: set<int>)
    ensures s == {} || exists x :: x in s
  {
    if forall x :: x !in s {
      assert s == {};
    }
  }

  /** ORDER BY step_index DESC LIMIT 1 */
  method LargestIndex(indices: set<int>) returns (k: Option<int>)
    ensures k.None? <==> indices == {}
    ensures k.Some? ==> k.value in indices && forall j :: j in indices ==> j <= k.value
  {
    k := None;
    var left: set<int>, seen: set<int> := indices, {};
    while left != {}
      invariant seen + left == indices
      invariant k.None? <==> seen == {}
      invariant k.Some? ==> k.value in seen && forall j :: j in seen ==> j <= k.value
      decreases left
    {
      EmptyOrNot(left);
      var j :| j in left;
      left, seen := left - {j}, seen + {j};
      if k.None? || j > k.value {
        k := Some(j);
      }
    }
  }

  class DurableExecutor {
    var store: map<string, Rows>
    const cfg: Config

    constructor (cfg: Config)
      ensures store == map[] && this.cfg == cfg
    {
      this.cfg := cfg;
      store := map[];
    }

    function RowsOf(id: string): Rows
      reads this
    {
      if id in store then store[id] else map[]
    }

    /** The table is unique in (workflow, step index): a second row replaces the first. */
    method CreateCheckpoint(id: string, i: int, st: State, status: Status)
      modifies this`store
      ensures RowsOf(id) == Save(old(RowsOf(id)), i, st, status)
      ensures forall other :: other != id ==> RowsOf(other) == old(RowsOf(other))
    {
      store := store[id := Save(RowsOf(id), i, st, status)];
    }

    method GetLatestCheckpoint(id: string) returns (k: Option<int>)
      ensures k.None? <==> RowsOf(id) == map[]
      ensures k.Some? ==> k.value in RowsOf(id) && forall j :: j in RowsOf(id) ==> j <= k.value
    {
      k := LargestIndex(RowsOf(id).Keys);
      assert RowsOf(id).Keys == {} <==> RowsOf(id) == map[];
    }

    /** The backoff doubles, so all retries together sleep retryDelay * (2^retries - 1). */
    method ExecuteStep(step: Step, vars: Vars)
      returns (vars': Vars, settled: Settled, ghost slept: real, ghost retries: nat)
      ensures if step.maxRetries < 0 then (vars', settled) == (vars, GaveUp("None"))
              else (vars', settled) == Attempts(step, 0, vars)
      ensures slept == step.retryDelay * (Pow2(retries) - 1) as real
      ensures settled.GaveUp? && step.maxRetries >= 0 ==> retries == step.maxRetries
    {
      vars', settled := vars, GaveUp("None");
      slept, retries := 0.0, 0;
      var attempt := 0;
      while attempt <= step.maxRetries
        invariant attempt >= 0 && retries == attempt
        invariant 0 < attempt ==> attempt <= step.maxRetries
        invariant attempt == 0 ==> vars' == vars && settled == GaveUp("None")
        invariant attempt <= step.maxRetries ==> Attempts(step, attempt, vars') == Attempts(step, 0, vars)
        invariant slept == step.retryDelay * (Pow2(retries) - 1) as real
        decreases step.maxRetries - attempt
      {
        var (next, end) := step.run(vars');
        vars' := next;
        match end
        case Return(value) => settled := Done(value); return;
        case Escape => settled := Escaped; return;
        case Error(text) =>
          settled := GaveUp(text);
          if attempt == step.maxRetries {
            return;
          }
          slept, retries := slept + step.retryDelay * Pow2(attempt) as real, retries + 1;
          attempt := attempt + 1;
      }
    }

    /** The run that stands at `m` ends with result r and with the rows now stored. */
    ghost predicate Ends(id: string, w: Workflow, m: Machine, r: Result)
      reads this
    {
      && WellFormed(w, m)
      && var end := Ending(w, cfg, m);
      && RowsOf(id) == end.rows
      && r == if end.phase.Raised? then Exception(end.st) else Finished(end.phase.success, end.st)
    }

    /** A checkpoint before or after a step: written, skipped, or a division by zero. */
    method MaybeCheckpoint(id: string, i: nat, st: State, wanted: bool) returns (ok: bool)
      modifies this`store
      ensures ok <==> !(wanted && ShouldCheckpoint(cfg, i).ZeroDivision?)
      ensures RowsOf(id) == if wanted && ShouldCheckpoint(cfg, i).Yes?
                            then Save(old(RowsOf(id)), i, st, Checkpointed) else old(RowsOf(id))
      ensures forall other :: other != id ==> RowsOf(other) == old(RowsOf(other))
    {
      ok := true;
      if wanted {
        var due := ShouldCheckpoint(cfg, i);
        if due.Yes? {
          CreateCheckpoint(id, i, st, Checkpointed);
        }
        ok := !due.ZeroDivision?;
      }
    }

    /** One turn of the loop: on to the next index, or out of execute. */
    method RunStep(id: string, w: Workflow, i: nat, before: State) returns (st: State, exit: Option<Result>)
      requires i < |w|
      modifies this`store
      ensures WellFormed(w, Enter(w, cfg, i, before, old(RowsOf(id))))
      ensures exit.Some? ==> Ends(id, w, Enter(w, cfg, i, before, old(RowsOf(id))), exit.value)
      ensures exit.None? ==> WellFormed(w, Enter(w, cfg, i + 1, st, RowsOf(id)))
      ensures exit.None? ==> Ending(w, cfg, Enter(w, cfg, i, before, old(RowsOf(id)))) ==
                             Ending(w, cfg, Enter(w, cfg, i + 1, st, RowsOf(id)))
      ensures forall other :: other != id ==> RowsOf(other) == old(RowsOf(other))
    {
      var step := w[i];
      exit, st := None, before.(currentStep := i);
      EnterWellFormed(w, cfg, i, before, RowsOf(id));
      EnterSteps(w, cfg, i, before, RowsOf(id));
      var ok := MaybeCheckpoint(id, i, st, step.checkpointBefore);
      if !ok {
        return st, Some(Exception(st));
      }
      StartWellFormed(w, cfg, i, st, RowsOf(id));
      StartSteps(w, cfg, i, st, RowsOf(id));
      var vars, settled, _, _ := ExecuteStep(step, st.vars);
      st := st.(vars := vars);
      match settled
      case Done(value) =>
        SucceedSteps(w, cfg, i, value, st, RowsOf(id));
        st := Record(st, i, value);
        ok := MaybeCheckpoint(id, i, st, step.checkpointAfter);
        if !ok {
          return st, Some(Exception(st));
        }
        EnterWellFormed(w, cfg, i + 1, st, RowsOf(id));
      case GaveUp(text) =>
        if step.skipOnFailure {
          st := Record(st, i, Skipped(text));
          EnterWellFormed(w, cfg, i + 1, st, RowsOf(id));
        } else {
          st := st.(error := Some(text));
          FailingSteps(w, cfg, i, st, RowsOf(id));
          CreateCheckpoint(id, i, st, Failed);
          return st, Some(Finished(false, st));
        }
      case Escaped => return st, Some(Exception(st));
    }

    /** The loop of execute, from step `start` with state `begin`. */
    method RunFrom(id: string, w: Workflow, start: nat, begin: State) returns (r: Result)
      modifies this`store
      ensures Ends(id, w, Enter(w, cfg, start, begin, old(RowsOf(id))), r)
      ensures forall other :: other != id ==> RowsOf(other) == old(RowsOf(other))
    {
      var i, st := start, begin;
      ghost var first := Enter(w, cfg, start, begin, RowsOf(id));
      EnterWellFormed(w, cfg, start, begin, RowsOf(id));
      while i < |w|
        invariant start <= i
        invariant WellFormed(w, Enter(w, cfg, i, st, RowsOf(id)))
        invariant Ending(w, cfg, Enter(w, cfg, i, st, RowsOf(id))) == Ending(w, cfg, first)
        invariant forall other :: other != id ==> RowsOf(other) == old(RowsOf(other))
        decreases |w| - i
      {
        var next, exit := RunStep(id, w, i, st);
        if exit.Some? {
          return exit.value;
        }
        st, i := next, i + 1;
      }
      ghost var m := Enter(w, cfg, i, st, RowsOf(id));
      Onward(w, cfg, m);
      Onward(w, cfg, Advance(w, cfg, m));
      CreateCheckpoint(id, |w| - 1, st, Completed);
      return Finished(true, st);
    }

    /** Resumes from any stored row, be it this workflow's or another's. */
    method Execute(id: string, w: Workflow, initial: Vars, resumeFrom: Option<Checkpoint>) returns (r: Result)
      requires resumeFrom.Some? ==> resumeFrom.value.index >= -1
      modifies this`store
      ensures resumeFrom.Some? && resumeFrom.value.index !in old(RowsOf(resumeFrom.value.owner)) ==>
                r.CheckpointNotFound? && store == old(store)
      ensures resumeFrom.Some? ==> resumeFrom.value.index in old(RowsOf(resumeFrom.value.owner)) ==>
                var row := old(RowsOf(resumeFrom.value.owner))[resumeFrom.value.index];
                Ends(id, w, Enter(w, cfg, resumeFrom.value.index + 1, row.state, old(RowsOf(id))), r)
      ensures resumeFrom.None? ==>
                Ends(id, w, Enter(w, cfg, 0, State(initial, map[], 0, None), old(RowsOf(id))), r)
      ensures forall other :: other != id ==> RowsOf(other) == old(RowsOf(other))
    {
      if resumeFrom.Some? {
        var rows, k := RowsOf(resumeFrom.value.owner), resumeFrom.value.index;
        if k !in rows {
          return CheckpointNotFound;
        }
        EnterWellFormed(w, cfg, k + 1, rows[k].state, RowsOf(id));
        r := RunFrom(id, w, k + 1, rows[k].state);
      } else {
        r := RunFrom(id, w, 0, State(initial, map[], 0, None));
      }
    }

    method Resume(id: string, w: Workflow) returns (r: Result)
      requires forall k :: k in RowsOf(id) ==> k >= -1
      modifies this`store
      ensures old(RowsOf(id)) == map[] ==> r.CheckpointNotFound? && store == old(store)
      ensures old(RowsOf(id)) != map[] ==>
                exists k :: k in old(RowsOf(id)) && k >= -1
                  && (forall j :: j in old(RowsOf(id)) ==> j <= k)
                  && if old(RowsOf(id))[k].status.Completed?
                     then r == Finished(true, old(RowsOf(id))[k].state) && store == old(store)
                     else Ends(id, w, Enter(w, cfg, k + 1, old(RowsOf(id))[k].state, old(RowsOf(id))), r)
      ensures forall other :: other != id ==> RowsOf(other) == old(RowsOf(other))
    {
      var latest := GetLatestCheckpoint(id);
      if latest.None? {
        return CheckpointNotFound;
      }
      var k := latest.value;
      if RowsOf(id)[k].status.Completed? {
        return Finished(true, RowsOf(id)[k].state);
      }
      r := Execute(id, w, map[], Some(Checkpoint(id, k)));
    }
  }
}
