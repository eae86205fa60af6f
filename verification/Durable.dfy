/** Durable execution: a workflow run as a sequence of await points, with the
    checkpoint rows it writes, and what crashes, cancels and resumes make of it. */
module Durable {
  import opened JsonValues

  type Vars = map<string, Json>

  /** How one attempt at a step ends. Error stands for a timeout or one of the
      listed exceptions, Escape for any other exception. */
  datatype Attempt = Return(value: Json) | Error(text: string) | Escape

  /** A step function reads and changes the workflow variables only. */
  datatype Step = Step(
    run: Vars -> (Vars, Attempt), maxRetries: int, retryDelay: real,
    checkpointBefore: bool, checkpointAfter: bool, skipOnFailure: bool)

  type Workflow = seq<Step>

  datatype Config = Config(auto: bool, interval: int)

  /** JSON object keys are strings: an index written as an int comes back as text. */
  datatype StepKey = Live(index: int) | Stored(index: int)

  type Results = map<StepKey, Json>

  datatype State = State(vars: Vars, results: Results, currentStep: int, error: Option<string>)

  datatype Status = Checkpointed | Failed | Completed | Paused

  datatype Row = Row(state: State, status: Status)

  type Rows = map<int, Row>

  predicate Has(r: Results, i: int) {
    Live(i) in r || Stored(i) in r
  }

  function Indices(r: Results): (s: set<int>)
    ensures forall i :: i in s <==> Has(r, i)
  {
    var s := set k | k in r :: k.index;
    assert forall i :: Live(i) in r ==> Live(i).index in s;
    assert forall i :: Stored(i) in r ==> Stored(i).index in s;
    s
  }

  /** The results by step index, however the key is spelled; a later int key wins. */
  function ByIndex(r: Results): map<int, Json> {
    map i | i in Indices(r) :: if Live(i) in r then r[Live(i)] else r[Stored(i)]
  }

  /** The state as the JSON text of a row gives it back. */
  function Snapshot(st: State): State {
    st.(results := map k | k in (set i | i in Indices(st.results) :: Stored(i)) :: ByIndex(st.results)[k.index])
  }

  function Record(st: State, i: int, value: Json): State {
    st.(results := st.results[Live(i) := value])
  }

  // ----- one run -----

  /** Where a run is waiting; a save is waiting before or after its row is written. */
  datatype Phase =
    | Before(i: nat, written: bool)
    | Running(i: nat, attempt: nat)
    | After(i: nat, written: bool)
    | Failing(i: nat, written: bool)
    | Completing(written: bool)
    | Returned(success: bool)
    | Raised

  datatype Machine = Machine(phase: Phase, st: State, rows: Rows)

  datatype Due = Yes | No | ZeroDivision

  function ShouldCheckpoint(cfg: Config, i: nat): Due {
    if !cfg.auto then No
    else if cfg.interval == 0 then ZeroDivision
    else if i % cfg.interval == 0 then Yes else No
  }

  function Skipped(text: string): Json {
    Obj(map["skipped" := Bool(true), "error" := Str(text)])
  }

  /** From the head of the loop at index i to the next await. */
  function Enter(w: Workflow, cfg: Config, i: nat, st: State, rows: Rows): Machine
    decreases |w| - i, 1
  {
    if i >= |w| then Machine(Completing(false), st, rows) else
      var st' := st.(currentStep := i);
      if !w[i].checkpointBefore then StartStep(w, cfg, i, st', rows)
      else match ShouldCheckpoint(cfg, i)
        case Yes => Machine(Before(i, false), st', rows)
        case No => StartStep(w, cfg, i, st', rows)
        case ZeroDivision => Machine(Raised, st', rows)
  }

  function StartStep(w: Workflow, cfg: Config, i: nat, st: State, rows: Rows): Machine
    requires i < |w|
    decreases |w| - i, 0, 1
  {
    if w[i].maxRetries < 0 then GiveUp(w, cfg, i, "None", st, rows)
    else Machine(Running(i, 0), st, rows)
  }

  function GiveUp(w: Workflow, cfg: Config, i: nat, text: string, st: State, rows: Rows): Machine
    requires i < |w|
    decreases |w| - i, 0, 0
  {
    if w[i].skipOnFailure then Enter(w, cfg, i + 1, Record(st, i, Skipped(text)), rows)
    else Machine(Failing(i, false), st.(error := Some(text)), rows)
  }

  /** A step returned a value. */
  function Succeed(w: Workflow, cfg: Config, i: nat, value: Json, st: State, rows: Rows): Machine
    requires i < |w|
  {
    Recorded(w, cfg, i, Record(st, i, value), rows)
  }

  /** The result is in the state. */
  function Recorded(w: Workflow, cfg: Config, i: nat, st: State, rows: Rows): Machine
    requires i < |w|
  {
    if !w[i].checkpointAfter then Enter(w, cfg, i + 1, st, rows)
    else match ShouldCheckpoint(cfg, i)
      case Yes => Machine(After(i, false), st, rows)
      case No => Enter(w, cfg, i + 1, st, rows)
      case ZeroDivision => Machine(Raised, st, rows)
  }

  function Save(rows: Rows, i: int, st: State, status: Status): Rows {
    rows[i := Row(Snapshot(st), status)]
  }

  predicate Finished(m: Machine) {
    m.phase.Returned? || m.phase.Raised?
  }

  ghost predicate WellFormed(w: Workflow, m: Machine) {
    match m.phase
    case Before(i, _) => i < |w|
    case Running(i, a) => i < |w| && a <= w[i].maxRetries
    case After(i, _) => i < |w|
    case Failing(i, _) => i < |w|
    case _ => true
  }

  /** One await point further. */
  function Advance(w: Workflow, cfg: Config, m: Machine): Machine
    requires WellFormed(w, m)
  {
    match m.phase
    case Before(i, false) =>
      Machine(Before(i, true), m.st, Save(m.rows, i, m.st, Checkpointed))
    case Before(i, true) => StartStep(w, cfg, i, m.st, m.rows)
    case Running(i, a) =>
      var (vars, end) := w[i].run(m.st.vars);
      var st := m.st.(vars := vars);
      (match end
       case Return(value) => Succeed(w, cfg, i, value, st, m.rows)
       case Error(text) =>
         if a < w[i].maxRetries then Machine(Running(i, a + 1), st, m.rows)
         else GiveUp(w, cfg, i, text, st, m.rows)
       case Escape => Machine(Raised, st, m.rows))
    case After(i, false) =>
      Machine(After(i, true), m.st, Save(m.rows, i, m.st, Checkpointed))
    case After(i, true) => Enter(w, cfg, i + 1, m.st, m.rows)
    case Failing(i, false) =>
      Machine(Failing(i, true), m.st, Save(m.rows, i, m.st, Failed))
    case Failing(i, true) => m.(phase := Returned(false))
    case Completing(false) =>
      Machine(Completing(true), m.st, Save(m.rows, |w| - 1, m.st, Completed))
    case Completing(true) => m.(phase := Returned(true))
    case Returned(_) => m
    case Raised => m
  }

  function StepsLeft(w: Workflow, m: Machine): nat
    requires WellFormed(w, m)
  {
    match m.phase
    case Before(i, _) => |w| - i + 1
    case Running(i, _) => |w| - i + 1
    case After(i, _) => |w| - i + 1
    case Failing(i, _) => |w| - i + 1
    case Completing(_) => 1
    case _ => 0
  }

  function PhasesLeft(w: Workflow, m: Machine): nat
    requires WellFormed(w, m)
  {
    match m.phase
    case Before(_, written) => if written then 6 else 7
    case Running(_, _) => 5
    case After(_, written) => if written then 3 else 4
    case Failing(_, written) => if written then 1 else 2
    case Completing(written) => if written then 1 else 2
    case _ => 0
  }

  function RetriesLeft(w: Workflow, m: Machine): nat
    requires WellFormed(w, m)
  {
    match m.phase
    case Running(i, a) => w[i].maxRetries - a
    case _ => 0
  }

  lemma {:induction false} EnterWellFormed(w: Workflow, cfg: Config, i: nat, st: State, rows: Rows)
    ensures WellFormed(w, Enter(w, cfg, i, st, rows))
    ensures StepsLeft(w, Enter(w, cfg, i, st, rows)) <= if i <= |w| then |w| - i + 1 else 1
    decreases |w| - i, 1
  {
    if i < |w| {
      StartWellFormed(w, cfg, i, st.(currentStep := i), rows);
    }
  }

  lemma {:induction false} StartWellFormed(w: Workflow, cfg: Config, i: nat, st: State, rows: Rows)
    requires i < |w|
    ensures var m := StartStep(w, cfg, i, st, rows);
            && WellFormed(w, m)
            && (StepsLeft(w, m) < |w| - i + 1 || m.phase == Running(i, 0) || m.phase == Failing(i, false))
    decreases |w| - i, 0, 1
  {
    if w[i].maxRetries < 0 {
      GiveUpWellFormed(w, cfg, i, "None", st, rows);
    }
  }

  lemma {:induction false} GiveUpWellFormed(w: Workflow, cfg: Config, i: nat, text: string, st: State, rows: Rows)
    requires i < |w|
    ensures var m := GiveUp(w, cfg, i, text, st, rows);
            && WellFormed(w, m)
            && (StepsLeft(w, m) < |w| - i + 1 || m.phase == Failing(i, false))
    decreases |w| - i, 0, 0
  {
    if w[i].skipOnFailure {
      EnterWellFormed(w, cfg, i + 1, Record(st, i, Skipped(text)), rows);
    }
  }

  lemma AdvanceProgress(w: Workflow, cfg: Config, m: Machine)
    requires WellFormed(w, m) && !Finished(m)
    ensures var next := Advance(w, cfg, m);
            && WellFormed(w, next)
            && (|| StepsLeft(w, next) < StepsLeft(w, m)
                || (&& StepsLeft(w, next) == StepsLeft(w, m)
                    && (|| PhasesLeft(w, next) < PhasesLeft(w, m)
                        || (PhasesLeft(w, next) == PhasesLeft(w, m)
                            && RetriesLeft(w, next) < RetriesLeft(w, m)))))
  {
    match m.phase
    case Before(i, written) => StartWellFormed(w, cfg, i, m.st, m.rows);
    case Running(i, a) =>
      var (vars, end) := w[i].run(m.st.vars);
      var st := m.st.(vars := vars);
      match end {
        case Return(value) => EnterWellFormed(w, cfg, i + 1, Record(st, i, value), m.rows);
        case Error(text) => GiveUpWellFormed(w, cfg, i, text, st, m.rows);
        case Escape =>
      }
    case After(i, written) => EnterWellFormed(w, cfg, i + 1, m.st, m.rows);
    case _ =>
  }

  /** The run taken to its end without a crash. */
  ghost function Complete(w: Workflow, cfg: Config, m: Machine): (end: Machine)
    requires WellFormed(w, m)
    ensures Finished(end) && WellFormed(w, end)
    decreases StepsLeft(w, m), PhasesLeft(w, m), RetriesLeft(w, m)
  {
    if Finished(m) then m else
      AdvanceProgress(w, cfg, m);
      Complete(w, cfg, Advance(w, cfg, m))
  }
}
