/** When a resumed run ends exactly as the run that never crashed. */
module DurableResume {
  import opened JsonValues
  import opened Durable
  import opened DurableChain

  /** What a caller sees of a finished run, result keys up to their spelling. */
  datatype View = View(end: Phase, vars: Vars, results: map<int, Json>, currentStep: int, error: Option<string>)

  function ViewOf(m: Machine): View {
    View(m.phase, m.st.vars, ByIndex(m.st.results), m.st.currentStep, m.st.error)
  }

  ghost function EndOf(w: Workflow, cfg: Config, m: Machine): View
    requires WellFormed(w, m)
  {
    ViewOf(Complete(w, cfg, m))
  }

  // ----- the same view leads to the same view -----

  predicate Alike(a: State, b: State) {
    && a.vars == b.vars && ByIndex(a.results) == ByIndex(b.results)
    && a.currentStep == b.currentStep && a.error == b.error
  }

  lemma RecordAlike(a: State, b: State, i: int, value: Json)
    requires Alike(a, b)
    ensures Alike(Record(a, i, value), Record(b, i, value))
  {
    RecordByIndex(a, i, value);
    RecordByIndex(b, i, value);
  }

  lemma RecordByIndex(st: State, i: int, value: Json)
    ensures ByIndex(Record(st, i, value).results) == ByIndex(st.results)[i := value]
  {
    var r, r' := st.results, Record(st, i, value).results;
    assert forall j :: Has(r', j) <==> Has(r, j) || j == i;
    assert Indices(r') == Indices(r) + {i};
  }

  lemma {:induction false} EnterAlike(w: Workflow, cfg: Config, i: nat, a: State, b: State, ra: Rows, rb: Rows)
    requires Alike(a, b)
    ensures var ma, mb := Enter(w, cfg, i, a, ra), Enter(w, cfg, i, b, rb);
            ma.phase == mb.phase && Alike(ma.st, mb.st)
    decreases |w| - i, 1
  {
    if i < |w| {
      MovedAlike(a, b, i);
      StartAlike(w, cfg, i, a.(currentStep := i), b.(currentStep := i), ra, rb);
    }
  }

  lemma MovedAlike(a: State, b: State, i: nat)
    requires Alike(a, b)
    ensures Alike(a.(currentStep := i), b.(currentStep := i))
  {
  }

  lemma {:induction false} StartAlike(w: Workflow, cfg: Config, i: nat, a: State, b: State, ra: Rows, rb: Rows)
    requires i < |w| && Alike(a, b)
    ensures var ma, mb := StartStep(w, cfg, i, a, ra), StartStep(w, cfg, i, b, rb);
            ma.phase == mb.phase && Alike(ma.st, mb.st)
    decreases |w| - i, 0, 1
  {
    if w[i].maxRetries < 0 {
      GiveUpAlike(w, cfg, i, "None", a, b, ra, rb);
    }
  }

  lemma {:induction false} GiveUpAlike(w: Workflow, cfg: Config, i: nat, text: string, a: State, b: State,
                                         ra: Rows, rb: Rows)
    requires i < |w| && Alike(a, b)
    ensures var ma, mb := GiveUp(w, cfg, i, text, a, ra), GiveUp(w, cfg, i, text, b, rb);
            ma.phase == mb.phase && Alike(ma.st, mb.st)
    decreases |w| - i, 0, 0
  {
    if w[i].skipOnFailure {
      RecordAlike(a, b, i, Skipped(text));
      EnterAlike(w, cfg, i + 1, Record(a, i, Skipped(text)), Record(b, i, Skipped(text)), ra, rb);
    }
  }

  lemma RecordedAlike(w: Workflow, cfg: Config, i: nat, a: State, b: State, ra: Rows, rb: Rows)
    requires i < |w| && Alike(a, b)
    ensures var ma, mb := Recorded(w, cfg, i, a, ra), Recorded(w, cfg, i, b, rb);
            ma.phase == mb.phase && Alike(ma.st, mb.st)
  {
    EnterAlike(w, cfg, i + 1, a, b, ra, rb);
  }

  lemma SucceedAlike(w: Workflow, cfg: Config, i: nat, value: Json, a: State, b: State, ra: Rows, rb: Rows)
    requires i < |w| && Alike(a, b)
    ensures var ma, mb := Succeed(w, cfg, i, value, a, ra), Succeed(w, cfg, i, value, b, rb);
            ma.phase == mb.phase && Alike(ma.st, mb.st)
  {
    RecordAlike(a, b, i, value);
    RecordedAlike(w, cfg, i, Record(a, i, value), Record(b, i, value), ra, rb);
  }

  lemma AttemptAlike(w: Workflow, cfg: Config, a: Machine, b: Machine)
    requires WellFormed(w, a) && a.phase == b.phase && Alike(a.st, b.st) && a.phase.Running?
    ensures var ma, mb := Advance(w, cfg, a), Advance(w, cfg, b);
            ma.phase == mb.phase && Alike(ma.st, mb.st)
  {
    var i := a.phase.i;
    var (vars, end) := w[i].run(a.st.vars);
    var sa, sb := a.st.(vars := vars), b.st.(vars := vars);
    match end
    case Return(value) => SucceedAlike(w, cfg, i, value, sa, sb, a.rows, b.rows);
    case Error(text) => GiveUpAlike(w, cfg, i, text, sa, sb, a.rows, b.rows);
    case Escape =>
  }

  lemma AdvanceAlike(w: Workflow, cfg: Config, a: Machine, b: Machine)
    requires WellFormed(w, a) && a.phase == b.phase && Alike(a.st, b.st)
    ensures var ma, mb := Advance(w, cfg, a), Advance(w, cfg, b);
            ma.phase == mb.phase && Alike(ma.st, mb.st)
  {
    match a.phase
    case Before(i, true) => StartAlike(w, cfg, i, a.st, b.st, a.rows, b.rows);
    case Running(_, _) => AttemptAlike(w, cfg, a, b);
    case After(i, true) => EnterAlike(w, cfg, i + 1, a.st, b.st, a.rows, b.rows);
    case _ =>
  }

  lemma {:induction false} CompleteAlike(w: Workflow, cfg: Config, a: Machine, b: Machine)
    requires WellFormed(w, a) && WellFormed(w, b) && a.phase == b.phase && Alike(a.st, b.st)
    ensures EndOf(w, cfg, a) == EndOf(w, cfg, b)
    decreases StepsLeft(w, a), PhasesLeft(w, a), RetriesLeft(w, a)
  {
    if !Finished(a) {
      AdvanceProgress(w, cfg, a);
      AdvanceProgress(w, cfg, b);
      AdvanceAlike(w, cfg, a, b);
      CompleteAlike(w, cfg, Advance(w, cfg, a), Advance(w, cfg, b));
    }
  }

  // ----- a step that is passed over is missed for good -----

  /** From step j-1 without its result, passed over: the run is beyond it. */
  ghost predicate Beyond(w: Workflow, m: Machine, j: nat) {
    && WellFormed(w, m) && !Has(m.st.results, j - 1)
    && match m.phase
       case Before(i, _) => j <= i == m.st.currentStep
       case Running(i, _) => j <= i == m.st.currentStep
       case After(i, _) => j <= i == m.st.currentStep
       case Failing(i, _) => j <= i == m.st.currentStep
       case Completing(_) => true
       case Returned(success) => success || j <= m.st.currentStep
       case Raised => j <= m.st.currentStep
  }

  /** Step i is due or done, or the run stopped at it. */
  ghost predicate Reaches(w: Workflow, m: Machine, i: nat) {
    && Beyond(w, m, 0)
    && (|| Has(m.st.results, i)
        || Awaits(m, i)
        || ((m.phase.Raised? || m.phase == Returned(false)) && m.st.currentStep == i))
  }

  predicate Awaits(m: Machine, i: nat) {
    match m.phase
    case Before(j, _) => j == i
    case Running(j, _) => j == i
    case Failing(j, _) => j == i
    case _ => false
  }

  lemma {:induction false} EnterBeyond(w: Workflow, cfg: Config, i: nat, st: State, rows: Rows, j: nat, t: nat)
    requires j <= i && !Has(st.results, j - 1)
    ensures Beyond(w, Enter(w, cfg, i, st, rows), j)
    ensures Has(st.results, t) ==> Has(Enter(w, cfg, i, st, rows).st.results, t)
    decreases |w| - i, 1
  {
    if i < |w| {
      StartBeyond(w, cfg, i, st.(currentStep := i), rows, j, t);
    }
  }

  lemma {:induction false} StartBeyond(w: Workflow, cfg: Config, i: nat, st: State, rows: Rows, j: nat, t: nat)
    requires j <= i < |w| && !Has(st.results, j - 1) && st.currentStep == i
    ensures Beyond(w, StartStep(w, cfg, i, st, rows), j)
    ensures Has(st.results, t) ==> Has(StartStep(w, cfg, i, st, rows).st.results, t)
    decreases |w| - i, 0, 1
  {
    if w[i].maxRetries < 0 {
      GiveUpBeyond(w, cfg, i, "None", st, rows, j, t);
    }
  }

  lemma {:induction false} GiveUpBeyond(w: Workflow, cfg: Config, i: nat, text: string, st: State, rows: Rows,
                                          j: nat, t: nat)
    requires j <= i < |w| && !Has(st.results, j - 1) && st.currentStep == i
    ensures var m := GiveUp(w, cfg, i, text, st, rows);
            && Beyond(w, m, j)
            && (Has(st.results, t) ==> Has(m.st.results, t))
            && (Has(m.st.results, i) || (m.phase == Failing(i, false) && m.st.currentStep == i))
    decreases |w| - i, 0, 0
  {
    if w[i].skipOnFailure {
      var st' := Record(st, i, Skipped(text));
      EnterBeyond(w, cfg, i + 1, st', rows, j, t);
      EnterBeyond(w, cfg, i + 1, st', rows, j, i);
    }
  }

  lemma AdvanceBeyond(w: Workflow, cfg: Config, m: Machine, j: nat, t: nat)
    requires WellFormed(w, m) && Beyond(w, m, j)
    ensures Beyond(w, Advance(w, cfg, m), j)
    ensures Has(m.st.results, t) ==> Has(Advance(w, cfg, m).st.results, t)
  {
    match m.phase
    case Before(i, true) => StartBeyond(w, cfg, i, m.st, m.rows, j, t);
    case Running(i, _) =>
      var (vars, end) := w[i].run(m.st.vars);
      var st := m.st.(vars := vars);
      match end {
        case Return(value) => EnterBeyond(w, cfg, i + 1, Record(st, i, value), m.rows, j, t);
        case Error(text) => GiveUpBeyond(w, cfg, i, text, st, m.rows, j, t);
        case Escape =>
      }
    case After(i, true) => EnterBeyond(w, cfg, i + 1, m.st, m.rows, j, t);
    case _ =>
  }

  lemma {:induction false} CompleteBeyond(w: Workflow, cfg: Config, m: Machine, j: nat)
    requires WellFormed(w, m) && Beyond(w, m, j)
    ensures Beyond(w, Complete(w, cfg, m), j)
    decreases StepsLeft(w, m), PhasesLeft(w, m), RetriesLeft(w, m)
  {
    if !Finished(m) {
      AdvanceProgress(w, cfg, m);
      AdvanceBeyond(w, cfg, m, j, 0);
      CompleteBeyond(w, cfg, Advance(w, cfg, m), j);
    }
  }

  lemma AdvanceReaches(w: Workflow, cfg: Config, m: Machine, i: nat)
    requires WellFormed(w, m) && Reaches(w, m, i)
    ensures Reaches(w, Advance(w, cfg, m), i)
  {
    AdvanceBeyond(w, cfg, m, 0, i);
    if !Has(m.st.results, i) && !Finished(m) {
      match m.phase {
        case Before(_, true) =>
          if w[i].maxRetries < 0 {
            GiveUpBeyond(w, cfg, i, "None", m.st, m.rows, 0, 0);
          }
        case Running(_, _) =>
          var (vars, end) := w[i].run(m.st.vars);
          var st := m.st.(vars := vars);
          match end {
            case Return(value) => EnterBeyond(w, cfg, i + 1, Record(st, i, value), m.rows, 0, i);
            case Error(text) => GiveUpBeyond(w, cfg, i, text, st, m.rows, 0, 0);
            case Escape =>
          }
        case _ =>
      }
    }
  }

  lemma {:induction false} CompleteReaches(w: Workflow, cfg: Config, m: Machine, i: nat)
    requires WellFormed(w, m) && Reaches(w, m, i)
    ensures Reaches(w, Complete(w, cfg, m), i)
    decreases StepsLeft(w, m), PhasesLeft(w, m), RetriesLeft(w, m)
  {
    if !Finished(m) {
      AdvanceProgress(w, cfg, m);
      AdvanceReaches(w, cfg, m, i);
      CompleteReaches(w, cfg, Advance(w, cfg, m), i);
    }
  }

  /** A run that still has step i to do never ends like one that passed it over. */
  lemma PassedOverDiffers(w: Workflow, cfg: Config, m: Machine, i: nat, r: Machine)
    requires WellFormed(w, m) && Reaches(w, m, i)
    requires WellFormed(w, r) && Beyond(w, r, i + 1)
    ensures EndOf(w, cfg, m) != EndOf(w, cfg, r)
  {
    CompleteReaches(w, cfg, m, i);
    CompleteBeyond(w, cfg, r, i + 1);
    var f, g := Complete(w, cfg, m), Complete(w, cfg, r);
    assert i in ByIndex(f.st.results) <==> Has(f.st.results, i);
    assert i in ByIndex(g.st.results) <==> Has(g.st.results, i);
  }

  // ----- which rows are safe to resume from -----

  ghost function ResumedEnd(w: Workflow, cfg: Config, k: int, row: Row): View
    requires k >= -1
  {
    EnterWellFormed(w, cfg, k + 1, row.state, map[]);
    EndOf(w, cfg, Enter(w, cfg, k + 1, row.state, map[]))
  }

  lemma AdvanceKeepsEnd(w: Workflow, cfg: Config, m: Machine)
    requires WellFormed(w, m)
    ensures WellFormed(w, Advance(w, cfg, m))
    ensures EndOf(w, cfg, Advance(w, cfg, m)) == EndOf(w, cfg, m)
  {
    if !Finished(m) {
      AdvanceProgress(w, cfg, m);
    }
  }

  lemma CompletingEnd(w: Workflow, cfg: Config, written: bool, st: State, rows: Rows)
    ensures EndOf(w, cfg, Machine(Completing(written), st, rows)) ==
            View(Returned(true), st.vars, ByIndex(st.results), st.currentStep, st.error)
  {
    var m := Machine(Completing(written), st, rows);
    AdvanceKeepsEnd(w, cfg, m);
    if !written {
      AdvanceKeepsEnd(w, cfg, Advance(w, cfg, m));
    }
  }

  /** The stored rows have no say in how a run ends. */
  lemma EnterEnd(w: Workflow, cfg: Config, i: nat, a: State, b: State, ra: Rows, rb: Rows)
    requires Alike(a, b)
    ensures WellFormed(w, Enter(w, cfg, i, a, ra)) && WellFormed(w, Enter(w, cfg, i, b, rb))
    ensures EndOf(w, cfg, Enter(w, cfg, i, a, ra)) == EndOf(w, cfg, Enter(w, cfg, i, b, rb))
  {
    EnterWellFormed(w, cfg, i, a, ra);
    EnterWellFormed(w, cfg, i, b, rb);
    EnterAlike(w, cfg, i, a, b, ra, rb);
    CompleteAlike(w, cfg, Enter(w, cfg, i, a, ra), Enter(w, cfg, i, b, rb));
  }

  lemma ResumedEndAlike(w: Workflow, cfg: Config, k: int, st: State, rows: Rows, status: Status)
    requires k >= -1
    ensures WellFormed(w, Enter(w, cfg, k + 1, st, rows))
    ensures ResumedEnd(w, cfg, k, Row(Snapshot(st), status)) == EndOf(w, cfg, Enter(w, cfg, k + 1, st, rows))
  {
    SnapshotKeeps(st);
    EnterEnd(w, cfg, k + 1, st, Snapshot(st), rows, map[]);
  }

  lemma {:induction false} AfterEnd(w: Workflow, cfg: Config, i: nat, written: bool, st: State, rows: Rows)
    requires i < |w|
    ensures WellFormed(w, Enter(w, cfg, i + 1, st, rows))
    ensures EndOf(w, cfg, Machine(After(i, written), st, rows)) == EndOf(w, cfg, Enter(w, cfg, i + 1, st, rows))
    decreases !written
  {
    var m := Machine(After(i, written), st, rows);
    AdvanceKeepsEnd(w, cfg, m);
    if !written {
      var saved := Save(rows, i, st, Checkpointed);
      AfterEnd(w, cfg, i, true, st, saved);
      EnterEnd(w, cfg, i + 1, st, st, rows, saved);
    }
  }

  /** A row written once step i has its result: resuming from it loses nothing. */
  lemma ResumedAfterStep(w: Workflow, cfg: Config, i: nat, written: bool, st: State, rows: Rows, status: Status)
    requires i < |w|
    ensures ResumedEnd(w, cfg, i, Row(Snapshot(st), status)) == EndOf(w, cfg, Machine(After(i, written), st, rows))
  {
    AfterEnd(w, cfg, i, written, st, rows);
    ResumedEndAlike(w, cfg, i, st, rows, status);
  }

  lemma ResumedAtEnd(w: Workflow, cfg: Config, m: Machine, k: int, status: Status)
    requires m.phase.Completing? && k >= -1 && k + 1 >= |w|
    ensures ResumedEnd(w, cfg, k, Row(Snapshot(m.st), status)) == EndOf(w, cfg, m)
  {
    ResumedEndAlike(w, cfg, k, m.st, m.rows, status);
    CompletingEnd(w, cfg, m.phase.written, m.st, m.rows);
    CompletingEnd(w, cfg, false, m.st, m.rows);
  }

  lemma PendingReaches(w: Workflow, m: Machine, i: nat)
    requires RunInv(w, m, 0) && Awaits(m, i)
    ensures Reaches(w, m, i) && !Has(m.st.results, i) && i < |w|
  {
    assert Pending(m.st, i, 0);
    assert !Has(m.st.results, i) && !Has(m.st.results, -1);
  }

  /** A row written while step i has no result: resuming from it never ends alike. */
  lemma ResumedPastStep(w: Workflow, cfg: Config, m: Machine, i: nat, st: State, status: Status)
    requires RunInv(w, m, 0) && Awaits(m, i)
    requires st.results == m.st.results
    ensures !Has(Snapshot(st).results, i) && w != []
    ensures ResumedEnd(w, cfg, i, Row(Snapshot(st), status)) != EndOf(w, cfg, m)
  {
    PendingReaches(w, m, i);
    SnapshotKeeps(st);
    var r := Enter(w, cfg, i + 1, Snapshot(st), map[]);
    EnterWellFormed(w, cfg, i + 1, Snapshot(st), map[]);
    EnterBeyond(w, cfg, i + 1, Snapshot(st), map[], i + 1, 0);
    PassedOverDiffers(w, cfg, m, i, r);
  }

  /** The verdict on a row written from a live run that lost nothing. */
  lemma SavedRow(w: Workflow, cfg: Config, m: Machine, k: int, st: State, status: Status)
    requires RunInv(w, m, 0) && !Finished(m)
    requires st.results == m.st.results && (!m.phase.Running? ==> st == m.st)
    requires k == m.st.currentStep || (m.phase.Completing? && k == |w| - 1)
    ensures k >= -1
    ensures ResumedEnd(w, cfg, k, Row(Snapshot(st), status)) == EndOf(w, cfg, m) <==>
            Covers(w, k, Row(Snapshot(st), status))
  {
    SnapshotKeeps(st);
    match m.phase
    case After(i, written) => ResumedAfterStep(w, cfg, i, written, m.st, m.rows, status);
    case Completing(_) => ResumedAtEnd(w, cfg, m, k, status);
    case Before(i, _) => ResumedPastStep(w, cfg, m, i, st, status);
    case Running(i, _) => ResumedPastStep(w, cfg, m, i, st, status);
    case Failing(i, _) => ResumedPastStep(w, cfg, m, i, st, status);
    case _ =>
  }

  ghost predicate Judged(w: Workflow, cfg: Config, k: int, row: Row, o: View) {
    k >= -1 && (ResumedEnd(w, cfg, k, row) == o <==> Covers(w, k, row))
  }

  /** The end of a run from these variables that nothing ever interrupts. */
  ghost function UninterruptedEnd(w: Workflow, cfg: Config, initial: Vars): View {
    FreshInv(w, cfg, initial, map[], 0);
    EndOf(w, cfg, Fresh(w, cfg, initial, map[]))
  }

  /** Each row leads to the end of its own origin if and only if it is covered. */
  ghost predicate RowsJudged(w: Workflow, cfg: Config, s: Sys) {
    forall k :: k in s.rows ==> RowJudged(w, cfg, s, k)
  }

  ghost predicate RowJudged(w: Workflow, cfg: Config, s: Sys, k: int)
    requires k in s.rows
  {
    Judged(w, cfg, k, s.rows[k], UninterruptedEnd(w, cfg, Origin(s, k)))
  }

  /** Nothing is lost, every run still ends as its origin does, and so is every row judged. */
  ghost predicate Lossless(w: Workflow, cfg: Config, s: Sys) {
    && ChainInv(w, s) && s.lost == 0
    && (forall i :: 0 <= i < |s.runs| ==> EndsAsItsOrigin(w, cfg, s, i))
    && RowsJudged(w, cfg, s)
  }

  ghost predicate EndsAsItsOrigin(w: Workflow, cfg: Config, s: Sys, i: nat)
    requires i < |s.runs|
  {
    EndsLike(w, cfg, MachineOf(s, i), UninterruptedEnd(w, cfg, s.runs[i].origin))
  }

  ghost predicate EndsLike(w: Workflow, cfg: Config, m: Machine, o: View) {
    WellFormed(w, m) && EndOf(w, cfg, m) == o
  }

  /** The rows have no say in it. */
  lemma EndsLikeWithRows(w: Workflow, cfg: Config, m: Machine, rows: Rows, o: View)
    requires EndsLike(w, cfg, m, o)
    ensures EndsLike(w, cfg, m.(rows := rows), o)
  {
    CompleteAlike(w, cfg, m, m.(rows := rows));
  }

  lemma RunOf(w: Workflow, cfg: Config, s: Sys, i: nat)
    requires Lossless(w, cfg, s) && i < |s.runs|
    ensures RunInv(w, MachineOf(s, i), 0) && EndsAsItsOrigin(w, cfg, s, i)
  {
  }

  /** The run is where it was. */
  predicate SamePlace(s: Sys, next: Sys, i: nat) {
    && i < |s.runs| && i < |next.runs|
    && next.runs[i].phase == s.runs[i].phase && next.runs[i].st == s.runs[i].st
    && next.runs[i].origin == s.runs[i].origin
  }

  /** Every run is where it was, or ends as its origin does. */
  ghost predicate RunsStay(w: Workflow, cfg: Config, s: Sys, next: Sys) {
    forall i :: 0 <= i < |next.runs| ==> SamePlace(s, next, i) || EndsAsItsOrigin(w, cfg, next, i)
  }

  /** Where nothing is lost it stays so, if every row is judged and every run is where it was or
      ends as its origin does. */
  lemma StaysLossless(w: Workflow, cfg: Config, s: Sys, next: Sys)
    requires Lossless(w, cfg, s)
    requires ChainInv(w, next) && next.lost == 0 && RowsJudged(w, cfg, next)
    requires RunsStay(w, cfg, s, next)
    ensures Lossless(w, cfg, next)
  {
    forall i | 0 <= i < |next.runs| ensures EndsAsItsOrigin(w, cfg, next, i) {
      if SamePlace(s, next, i) {
        RunOf(w, cfg, s, i);
        EndsLikeWithRows(w, cfg, MachineOf(s, i), next.rows, UninterruptedEnd(w, cfg, s.runs[i].origin));
      }
    }
  }

  /** The verdict on the row that one await writes. */
  lemma AdvanceJudged(w: Workflow, cfg: Config, m: Machine)
    requires RunInv(w, m, 0) && !Finished(m) && SavedAt(w, m).Some?
    ensures Judged(w, cfg, SavedAt(w, m).value, Row(Snapshot(m.st), SavedStatus(m)), EndOf(w, cfg, m))
  {
    SavedRow(w, cfg, m, SavedAt(w, m).value, m.st, SavedStatus(m));
  }

  lemma SameRowJudged(w: Workflow, cfg: Config, s: Sys, next: Sys, k: int)
    requires k in s.rows && RowJudged(w, cfg, s, k)
    requires k in next.rows && next.rows[k] == s.rows[k] && Origin(next, k) == Origin(s, k)
    ensures RowJudged(w, cfg, next, k)
  {
  }

  /** Rows are still judged when one is written, judged by the origin of its writer. */
  lemma SavedJudged(w: Workflow, cfg: Config, s: Sys, next: Sys, k: int, row: Row, origin: Vars)
    requires RowsJudged(w, cfg, s) && Judged(w, cfg, k, row, UninterruptedEnd(w, cfg, origin))
    requires next.rows == s.rows[k := row] && next.origins == s.origins[k := origin]
    ensures RowsJudged(w, cfg, next)
  {
    assert RowJudged(w, cfg, next, k);
    forall j | j in next.rows && j != k ensures RowJudged(w, cfg, next, j) {
      SameRowJudged(w, cfg, s, next, j);
    }
  }

  lemma KeptJudged(w: Workflow, cfg: Config, s: Sys, next: Sys)
    requires RowsJudged(w, cfg, s) && next.rows == s.rows && next.origins == s.origins
    ensures RowsJudged(w, cfg, next)
  {
    forall j | j in next.rows ensures RowJudged(w, cfg, next, j) {
      SameRowJudged(w, cfg, s, next, j);
    }
  }

  lemma TickedRows(w: Workflow, cfg: Config, s: Sys, i: nat)
    requires Lossless(w, cfg, s) && Going(s, i) && WellFormed(w, MachineOf(s, i))
    ensures RowsJudged(w, cfg, Ticked(w, cfg, s, i))
  {
    var m := MachineOf(s, i);
    RunOf(w, cfg, s, i);
    AdvanceSaves(w, cfg, m, 0);
    match SavedAt(w, m)
    case Some(k) =>
      AdvanceJudged(w, cfg, m);
      SavedJudged(w, cfg, s, Ticked(w, cfg, s, i), k, Row(Snapshot(m.st), SavedStatus(m)), s.runs[i].origin);
    case None => KeptJudged(w, cfg, s, Ticked(w, cfg, s, i));
  }

  lemma TickedPlace(w: Workflow, cfg: Config, s: Sys, i: nat)
    requires Going(s, i) && WellFormed(w, MachineOf(s, i))
    ensures |Ticked(w, cfg, s, i).runs| == |s.runs|
    ensures MachineOf(Ticked(w, cfg, s, i), i) == Advance(w, cfg, MachineOf(s, i))
    ensures Ticked(w, cfg, s, i).runs[i].origin == s.runs[i].origin
    ensures forall j :: 0 <= j < |s.runs| && j != i ==> SamePlace(s, Ticked(w, cfg, s, i), j)
  {
  }

  lemma TickedRuns(w: Workflow, cfg: Config, s: Sys, i: nat)
    requires Lossless(w, cfg, s) && Going(s, i) && WellFormed(w, MachineOf(s, i))
    ensures RunsStay(w, cfg, s, Ticked(w, cfg, s, i))
  {
    TickedPlace(w, cfg, s, i);
    RunOf(w, cfg, s, i);
    AdvanceKeepsEnd(w, cfg, MachineOf(s, i));
    assert EndsAsItsOrigin(w, cfg, Ticked(w, cfg, s, i), i);
  }

  lemma TickLossless(w: Workflow, cfg: Config, s: Sys, i: nat)
    requires Lossless(w, cfg, s) && Going(s, i) && WellFormed(w, MachineOf(s, i))
    ensures Lossless(w, cfg, Ticked(w, cfg, s, i))
  {
    TickInv(w, cfg, s, i);
    TickedRows(w, cfg, s, i);
    TickedRuns(w, cfg, s, i);
    StaysLossless(w, cfg, s, Ticked(w, cfg, s, i));
  }

  /** The PAUSED row is judged by the end of the run it was taken from. */
  lemma PausedJudged(w: Workflow, cfg: Config, m: Machine, mid: Vars, o: View)
    requires RunInv(w, m, 0) && !Finished(m) && EndsLike(w, cfg, m, o)
    ensures var st := PausedState(m, mid);
            Judged(w, cfg, st.currentStep, Row(Snapshot(st), Paused), o)
  {
    var st := PausedState(m, mid);
    SavedRow(w, cfg, m, st.currentStep, st, Paused);
  }

  lemma CancelledRows(w: Workflow, cfg: Config, s: Sys, i: nat, mid: Vars)
    requires Lossless(w, cfg, s) && Going(s, i)
    ensures RowsJudged(w, cfg, Cancelled(s, i, mid))
  {
    RunOf(w, cfg, s, i);
    var st := PausedState(MachineOf(s, i), mid);
    PausedJudged(w, cfg, MachineOf(s, i), mid, UninterruptedEnd(w, cfg, s.runs[i].origin));
    SavedJudged(w, cfg, s, Cancelled(s, i, mid), st.currentStep, Row(Snapshot(st), Paused), s.runs[i].origin);
  }

  lemma CancelledRuns(w: Workflow, cfg: Config, s: Sys, i: nat, mid: Vars)
    requires i < |s.runs|
    ensures RunsStay(w, cfg, s, Cancelled(s, i, mid))
  {
    assert forall j :: 0 <= j < |s.runs| ==> SamePlace(s, Cancelled(s, i, mid), j);
  }

  lemma CancelLossless(w: Workflow, cfg: Config, s: Sys, i: nat, mid: Vars)
    requires Lossless(w, cfg, s) && Going(s, i)
    ensures Lossless(w, cfg, Cancelled(s, i, mid))
  {
    CancelInv(w, s, i, mid);
    CancelledRows(w, cfg, s, i, mid);
    CancelledRuns(w, cfg, s, i, mid);
    StaysLossless(w, cfg, s, Cancelled(s, i, mid));
  }

  lemma CrashLossless(w: Workflow, cfg: Config, s: Sys, i: nat)
    requires Lossless(w, cfg, s)
    ensures Lossless(w, cfg, Crashed(s, i))
  {
    CrashInv(w, s, i);
    assert forall j :: 0 <= j < |s.runs| ==> SamePlace(s, Crashed(s, i), j);
    KeptJudged(w, cfg, s, Crashed(s, i));
    StaysLossless(w, cfg, s, Crashed(s, i));
  }

  lemma LaunchLossless(w: Workflow, cfg: Config, s: Sys, m: Machine, origin: Vars)
    requires Lossless(w, cfg, s) && m.rows == s.rows
    requires RunInv(w, m, 0) && EndsLike(w, cfg, m, UninterruptedEnd(w, cfg, origin))
    ensures Lossless(w, cfg, Launch(s, m, origin, 0))
  {
    LaunchInv(w, s, m, origin, 0);
    var next := Launch(s, m, origin, 0);
    assert forall j :: 0 <= j < |s.runs| ==> SamePlace(s, next, j);
    KeptJudged(w, cfg, s, next);
    assert MachineOf(next, |s.runs|) == m;
    StaysLossless(w, cfg, s, next);
  }

  lemma ResumedRunEnd(w: Workflow, cfg: Config, k: int, row: Row, rows: Rows)
    requires k >= -1
    ensures WellFormed(w, Enter(w, cfg, k + 1, row.state, rows))
    ensures EndOf(w, cfg, Enter(w, cfg, k + 1, row.state, rows)) == ResumedEnd(w, cfg, k, row)
  {
    EnterEnd(w, cfg, k + 1, row.state, row.state, rows, map[]);
  }

  /** A run resumed from a covered row has lost nothing and ends where the row leads. */
  lemma CoveredLaunch(w: Workflow, cfg: Config, k: int, rows: Rows, o: View)
    requires k in rows && RowInv(w, k, rows[k], 0) && Judged(w, cfg, k, rows[k], o) && Covers(w, k, rows[k])
    ensures var m := ResumeAt(w, cfg, k, rows);
            RunInv(w, m, 0) && m.rows == rows && EndsLike(w, cfg, m, o)
  {
    ResumedInv(w, cfg, k, rows, 0);
    ResumedRunEnd(w, cfg, k, rows[k], rows);
  }

  lemma ResumeLossless(w: Workflow, cfg: Config, s: Sys, k: int)
    requires Lossless(w, cfg, s) && k in s.rows && k >= -1 && Covers(w, k, s.rows[k])
    ensures Lossless(w, cfg, Launch(s, ResumeAt(w, cfg, k, s.rows), Origin(s, k), 0))
  {
    var o := UninterruptedEnd(w, cfg, Origin(s, k));
    assert RowInv(w, k, s.rows[k], 0) && RowJudged(w, cfg, s, k);
    CoveredLaunch(w, cfg, k, s.rows, o);
    LaunchLossless(w, cfg, s, ResumeAt(w, cfg, k, s.rows), Origin(s, k));
  }

  lemma ExecuteLossless(w: Workflow, cfg: Config, s: Sys, initial: Vars)
    requires Lossless(w, cfg, s)
    ensures Lossless(w, cfg, Launch(s, Fresh(w, cfg, initial, s.rows), initial, 0))
  {
    var st := State(initial, map[], 0, None);
    FreshInv(w, cfg, initial, s.rows, 0);
    EnterEnd(w, cfg, 0, st, st, s.rows, map[]);
    LaunchLossless(w, cfg, s, Fresh(w, cfg, initial, s.rows), initial);
  }

  /** Every resume of the chain is from a row that holds its own step's result. */
  ghost predicate AllCovered(w: Workflow, cfg: Config, s: Sys, events: seq<Event>)
    requires ChainInv(w, s)
    decreases |events|
  {
    events == [] ||
      (&& !Uncovered(w, s, events[0])
       && (HappenInv(w, cfg, s, events[0]);
           AllCovered(w, cfg, Happen(w, cfg, s, events[0]), events[1..])))
  }

  lemma HappenLossless(w: Workflow, cfg: Config, s: Sys, e: Event)
    requires Lossless(w, cfg, s) && !Uncovered(w, s, e)
    ensures Lossless(w, cfg, Happen(w, cfg, s, e))
  {
    match e
    case Execute(initial) => ExecuteLossless(w, cfg, s, initial);
    case Resume(k) =>
      if k in s.rows && k >= -1 {
        ResumeLossless(w, cfg, s, k);
      }
    case Tick(i) =>
      if Going(s, i) {
        RunOf(w, cfg, s, i);
        TickLossless(w, cfg, s, i);
      }
    case Cancel(i, mid) =>
      if Going(s, i) && s.runs[i].registered {
        CancelLossless(w, cfg, s, i, mid);
      }
    case Crash(i) => CrashLossless(w, cfg, s, i);
  }

  lemma {:induction false} ChainLossless(w: Workflow, cfg: Config, s: Sys, events: seq<Event>)
    requires ChainInv(w, s) && AllCovered(w, cfg, s, events) && Lossless(w, cfg, s)
    ensures Lossless(w, cfg, Chain(w, cfg, s, events))
    decreases |events|
  {
    if events != [] {
      HappenInv(w, cfg, s, events[0]);
      HappenLossless(w, cfg, s, events[0]);
      ChainLossless(w, cfg, Happen(w, cfg, s, events[0]), events[1..]);
    }
  }

  /** However often the workflow is executed, from whatever variables, crashes, is cancelled and
      resumed, one run after the other or several at once, wherever they crash and whatever
      the checkpoint interval: as long as every resume is from a covered row, each finished
      run ends exactly as the execution it goes back to would, uninterrupted; and any stored
      row, resumed from next, leads to the end of its own execution if and only if it is
      covered. Each of these executions is one of the chain. */
  lemma ResumeTheorem(w: Workflow, cfg: Config, events: seq<Event>)
    requires AllCovered(w, cfg, Start(), events)
    ensures var end := Chain(w, cfg, Start(), events);
            && Sourced(end, events)
            && (forall i :: 0 <= i < |end.runs| && Finished(MachineOf(end, i)) ==>
                  ViewOf(MachineOf(end, i)) == UninterruptedEnd(w, cfg, end.runs[i].origin))
            && RowsJudged(w, cfg, end)
  {
    ChainLossless(w, cfg, Start(), events);
    OriginsAreExecuted(w, cfg, events);
    var end := Chain(w, cfg, Start(), events);
    forall i | 0 <= i < |end.runs| && Finished(MachineOf(end, i))
      ensures ViewOf(MachineOf(end, i)) == UninterruptedEnd(w, cfg, end.runs[i].origin) {
      RunOf(w, cfg, end, i);
    }
  }

  // ----- which rows are covered -----

  /** The phase of a run whose current step has its result. */
  predicate HasItsResult(m: Machine) {
    m.phase.After? || m.phase.Completing?
  }

  /** A row written by a run that lost nothing is covered if and only if the run is past its
      step: waiting after it, or at the end. */
  lemma WrittenCovered(w: Workflow, m: Machine, k: int, st: State, status: Status)
    requires RunInv(w, m, 0) && !Finished(m) && st.results == m.st.results
    requires k == m.st.currentStep || (m.phase.Completing? && k == |w| - 1)
    ensures Covers(w, k, Row(Snapshot(st), status)) <==> HasItsResult(m)
  {
    SnapshotKeeps(st);
    if m.phase.Completing? && w != [] {
      NothingMissing(m.st.results, |w|, |w| - 1);
    } else if !HasItsResult(m) {
      PendingReaches(w, m, m.phase.i);
    }
  }

  lemma {:induction false} NothingMissing(r: Results, n: int, k: int)
    requires Missing(r, n) == 0 && 0 <= k < n
    ensures Has(r, k)
  {
    if k < n - 1 {
      NothingMissing(r, n - 1, k);
    }
  }

  /** The event writes a row from a run that is not past its step. */
  predicate WritesEarly(w: Workflow, s: Sys, e: Event) {
    match e
    case Tick(i) => Going(s, i) && SavedAt(w, MachineOf(s, i)).Some? && !HasItsResult(MachineOf(s, i))
    case Cancel(i, _) => Going(s, i) && s.runs[i].registered && !HasItsResult(MachineOf(s, i))
    case _ => false
  }

  ghost predicate AllRowsCovered(w: Workflow, s: Sys) {
    forall k :: k in s.rows ==> Covers(w, k, s.rows[k])
  }

  /** As long as no event writes a row early, every row is covered and nothing is ever lost. */
  ghost predicate NeverEarly(w: Workflow, cfg: Config, s: Sys, events: seq<Event>)
    requires ChainInv(w, s)
    decreases |events|
  {
    events == [] ||
      (&& !WritesEarly(w, s, events[0])
       && (HappenInv(w, cfg, s, events[0]);
           NeverEarly(w, cfg, Happen(w, cfg, s, events[0]), events[1..])))
  }

  lemma HappenCovered(w: Workflow, cfg: Config, s: Sys, e: Event)
    requires ChainInv(w, s) && s.lost == 0 && AllRowsCovered(w, s) && !WritesEarly(w, s, e)
    ensures !Uncovered(w, s, e)
    ensures Happen(w, cfg, s, e).lost == 0 && AllRowsCovered(w, Happen(w, cfg, s, e))
  {
    match e
    case Execute(initial) => FreshInv(w, cfg, initial, s.rows, 0);
    case Resume(k) =>
      if k in s.rows && k >= -1 {
        assert RowInv(w, k, s.rows[k], 0);
        ResumedInv(w, cfg, k, s.rows, 0);
      }
    case Tick(i) =>
      if Going(s, i) {
        TickCovered(w, cfg, s, i);
      }
    case Cancel(i, mid) =>
      if Going(s, i) && s.runs[i].registered {
        assert RunInv(w, MachineOf(s, i), 0);
        var st := PausedState(MachineOf(s, i), mid);
        WrittenCovered(w, MachineOf(s, i), st.currentStep, st, Paused);
      }
    case Crash(_) =>
  }

  lemma TickCovered(w: Workflow, cfg: Config, s: Sys, i: nat)
    requires ChainInv(w, s) && s.lost == 0 && AllRowsCovered(w, s) && Going(s, i)
    requires !WritesEarly(w, s, Tick(i))
    ensures WellFormed(w, MachineOf(s, i)) && AllRowsCovered(w, Ticked(w, cfg, s, i))
  {
    var m := MachineOf(s, i);
    assert RunInv(w, m, 0);
    AdvanceSaves(w, cfg, m, 0);
    match SavedAt(w, m)
    case Some(k) => WrittenCovered(w, m, k, m.st, SavedStatus(m));
    case None =>
  }

  lemma {:induction false} ChainCovered(w: Workflow, cfg: Config, s: Sys, events: seq<Event>)
    requires ChainInv(w, s) && s.lost == 0 && AllRowsCovered(w, s) && NeverEarly(w, cfg, s, events)
    ensures AllCovered(w, cfg, s, events)
    ensures Chain(w, cfg, s, events).lost == 0 && AllRowsCovered(w, Chain(w, cfg, s, events))
    decreases |events|
  {
    if events != [] {
      HappenInv(w, cfg, s, events[0]);
      HappenCovered(w, cfg, s, events[0]);
      ChainCovered(w, cfg, Happen(w, cfg, s, events[0]), events[1..]);
    }
  }

  /** Where no row is ever written early, the row that resume() picks, the one at the greatest
      index, is covered: the resumed run ends as the execution of that row would. */
  lemma ResumePicksACoveredRow(w: Workflow, cfg: Config, events: seq<Event>, k: int)
    requires NeverEarly(w, cfg, Start(), events)
    requires k in Chain(w, cfg, Start(), events).rows
    ensures var end := Chain(w, cfg, Start(), events);
            && Covers(w, k, end.rows[k]) && k >= -1
            && ResumedEnd(w, cfg, k, end.rows[k]) == UninterruptedEnd(w, cfg, Origin(end, k))
  {
    ChainCovered(w, cfg, Start(), events);
    ResumeTheorem(w, cfg, events);
    var end := Chain(w, cfg, Start(), events);
    assert RowJudged(w, cfg, end, k);
  }

  // ----- when no row is written early -----

  /** No before-step checkpoint is due, and every step returns or raises through, or may be
      skipped. */
  ghost predicate Quiet(w: Workflow, cfg: Config) {
    forall i :: 0 <= i < |w| ==>
      && !(w[i].checkpointBefore && ShouldCheckpoint(cfg, i).Yes?)
      && (w[i].skipOnFailure || (w[i].maxRetries >= 0 && NeverFails(w[i])))
  }

  ghost predicate NeverFails(step: Step) {
    forall vars :: !step.run(vars).1.Error?
  }

  predicate QuietPhase(p: Phase) {
    !p.Before? && !p.Failing?
  }

  lemma {:induction false} QuietEnter(w: Workflow, cfg: Config, i: nat, st: State, rows: Rows)
    requires Quiet(w, cfg)
    ensures QuietPhase(Enter(w, cfg, i, st, rows).phase)
    decreases |w| - i, 1
  {
    if i < |w| {
      QuietStart(w, cfg, i, st.(currentStep := i), rows);
    }
  }

  lemma {:induction false} QuietStart(w: Workflow, cfg: Config, i: nat, st: State, rows: Rows)
    requires Quiet(w, cfg) && i < |w|
    ensures QuietPhase(StartStep(w, cfg, i, st, rows).phase)
    decreases |w| - i, 0
  {
    if w[i].maxRetries < 0 {
      assert w[i].skipOnFailure;
      QuietEnter(w, cfg, i + 1, Record(st, i, Skipped("None")), rows);
      assert StartStep(w, cfg, i, st, rows) == GiveUp(w, cfg, i, "None", st, rows);
    }
  }

  lemma QuietAdvance(w: Workflow, cfg: Config, m: Machine)
    requires Quiet(w, cfg) && WellFormed(w, m) && QuietPhase(m.phase)
    ensures QuietPhase(Advance(w, cfg, m).phase)
  {
    match m.phase
    case Running(i, a) =>
      var (vars, end) := w[i].run(m.st.vars);
      var st := m.st.(vars := vars);
      match end {
        case Return(value) => QuietEnter(w, cfg, i + 1, Record(st, i, value), m.rows);
        case Error(text) => QuietEnter(w, cfg, i + 1, Record(st, i, Skipped(text)), m.rows);
        case Escape =>
      }
    case After(i, _) => QuietEnter(w, cfg, i + 1, m.st, m.rows);
    case _ =>
  }

  /** No cancel in the middle of a step. */
  predicate CancelsBetweenSteps(s: Sys, e: Event) {
    e.Cancel? && Going(s, e.run) && s.runs[e.run].registered ==> HasItsResult(MachineOf(s, e.run))
  }

  ghost predicate AllCancelsBetweenSteps(w: Workflow, cfg: Config, s: Sys, events: seq<Event>)
    requires ChainInv(w, s)
    decreases |events|
  {
    events == [] ||
      (&& CancelsBetweenSteps(s, events[0])
       && (HappenInv(w, cfg, s, events[0]);
           AllCancelsBetweenSteps(w, cfg, Happen(w, cfg, s, events[0]), events[1..])))
  }

  ghost predicate AllQuiet(s: Sys) {
    forall i :: 0 <= i < |s.runs| ==> QuietPhase(s.runs[i].phase)
  }

  lemma LaunchQuiet(s: Sys, m: Machine, origin: Vars, lost: nat)
    requires AllQuiet(s) && QuietPhase(m.phase)
    ensures AllQuiet(Launch(s, m, origin, lost))
  {
  }

  lemma HappenQuiet(w: Workflow, cfg: Config, s: Sys, e: Event)
    requires ChainInv(w, s) && Quiet(w, cfg) && AllQuiet(s) && CancelsBetweenSteps(s, e)
    ensures !WritesEarly(w, s, e) && AllQuiet(Happen(w, cfg, s, e))
  {
    match e
    case Execute(initial) =>
      QuietEnter(w, cfg, 0, State(initial, map[], 0, None), s.rows);
      LaunchQuiet(s, Fresh(w, cfg, initial, s.rows), initial, 0);
    case Resume(k) =>
      if k in s.rows && k >= -1 {
        QuietEnter(w, cfg, k + 1, s.rows[k].state, s.rows);
        LaunchQuiet(s, ResumeAt(w, cfg, k, s.rows), Origin(s, k), if Covers(w, k, s.rows[k]) then 0 else 1);
      }
    case Tick(i) =>
      if Going(s, i) {
        assert RunInv(w, MachineOf(s, i), s.lost);
        QuietAdvance(w, cfg, MachineOf(s, i));
      }
    case Cancel(_, _) =>
    case Crash(_) =>
  }

  lemma {:induction false} QuietIsNeverEarly(w: Workflow, cfg: Config, s: Sys, events: seq<Event>)
    requires ChainInv(w, s) && Quiet(w, cfg) && AllQuiet(s) && AllCancelsBetweenSteps(w, cfg, s, events)
    ensures NeverEarly(w, cfg, s, events)
    decreases |events|
  {
    if events != [] {
      HappenInv(w, cfg, s, events[0]);
      HappenQuiet(w, cfg, s, events[0]);
      QuietIsNeverEarly(w, cfg, Happen(w, cfg, s, events[0]), events[1..]);
    }
  }

  /** So where no before-step checkpoint is due, no step is given up and no cancel falls into a
      step, whatever else happens, resume() always continues as if nothing had happened. */
  lemma QuietWorkflowsResumeWell(w: Workflow, cfg: Config, events: seq<Event>, k: int)
    requires Quiet(w, cfg) && AllCancelsBetweenSteps(w, cfg, Start(), events)
    requires k in Chain(w, cfg, Start(), events).rows
    ensures var end := Chain(w, cfg, Start(), events);
            && Covers(w, k, end.rows[k]) && k >= -1
            && ResumedEnd(w, cfg, k, end.rows[k]) == UninterruptedEnd(w, cfg, Origin(end, k))
  {
    QuietIsNeverEarly(w, cfg, Start(), events);
    ResumePicksACoveredRow(w, cfg, events, k);
  }

  // ----- a row that is not covered -----

  /** Executing one step with a before-step checkpoint as far as its first row. */
  lemma FirstRow(step: Step, interval: int, initial: Vars)
    requires step.checkpointBefore && interval != 0
    ensures var w, cfg, st := [step], Config(true, interval), State(initial, map[], 0, None);
            Happen(w, cfg, Happen(w, cfg, Start(), Execute(initial)), Tick(0)) ==
            Sys([Run(Before(0, true), st, true, true, initial)], map[0 := Row(Snapshot(st), Checkpointed)],
                map[0 := initial], 0)
  {
    var w, cfg, st := [step], Config(true, interval), State(initial, map[], 0, None);
    assert 0 % interval == 0;
    assert Fresh(w, cfg, initial, map[]) == Machine(Before(0, false), st, map[]);
    assert Happen(w, cfg, Start(), Execute(initial)) ==
           Sys([Run(Before(0, false), st, true, true, initial)], map[], map[], 0);
  }

  lemma TwoEvents(w: Workflow, cfg: Config, first: Event, second: Event)
    requires ChainInv(w, Start())
    ensures ChainInv(w, Happen(w, cfg, Start(), first))
    ensures Chain(w, cfg, Start(), [first, second]) == Happen(w, cfg, Happen(w, cfg, Start(), first), second)
    ensures first.Execute? && second.Tick? ==> AllCovered(w, cfg, Start(), [first, second])
  {
    var s := Happen(w, cfg, Start(), first);
    HappenInv(w, cfg, Start(), first);
    HappenInv(w, cfg, s, second);
    assert [first, second][1..] == [second] && [second][1..] == [];
    assert Chain(w, cfg, s, [second]) == Chain(w, cfg, Happen(w, cfg, s, second), []);
    assert AllCovered(w, cfg, Happen(w, cfg, s, second), []);
    assert second.Tick? ==> AllCovered(w, cfg, s, [second]);
  }

  /** The row of a before-step checkpoint lacks its step's result, so a run that crashes right
      after it and resumes from it ends otherwise than the run that nothing interrupts. */
  lemma BeforeRowsAreUncovered(step: Step, interval: int, initial: Vars)
    requires step.checkpointBefore && interval != 0
    ensures var w, cfg := [step], Config(true, interval);
            var end := Chain(w, cfg, Start(), [Execute(initial), Tick(0)]);
            && 0 in end.rows && !Covers(w, 0, end.rows[0])
            && ResumedEnd(w, cfg, 0, end.rows[0]) != UninterruptedEnd(w, cfg, initial)
  {
    var w, cfg, st := [step], Config(true, interval), State(initial, map[], 0, None);
    FirstRow(step, interval, initial);
    TwoEvents(w, cfg, Execute(initial), Tick(0));
    SnapshotKeeps(st);
    ResumeTheorem(w, cfg, [Execute(initial), Tick(0)]);
    var end := Chain(w, cfg, Start(), [Execute(initial), Tick(0)]);
    assert end.rows[0] == Row(Snapshot(st), Checkpointed) && !Has(st.results, 0) && Origin(end, 0) == initial;
    assert RowJudged(w, cfg, end, 0);
  }
}
