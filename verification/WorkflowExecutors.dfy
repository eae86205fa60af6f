/** The workflow executor object: its worklist loop and counters. */
module WorkflowExecutors {
  import opened JsonValues
  import opened WorkflowGraph

  datatype ExecutionState = NotStarted | RunningState | CompletedState | FailedState

  class WorkflowExecutor {
    const workflow: Workflow
    var pending: set<string>
    var executed: set<string>
    var failed: set<string>
    var history: seq<string>
    var nodeResults: map<string, NodeState>
    var executionState: ExecutionState
    var totalExecutions: nat
    var successfulExecutions: nat
    var failedExecutions: nat

    constructor (w: Workflow)
      ensures workflow == w && totalExecutions == 0 && successfulExecutions == 0 && failedExecutions == 0
    {
      workflow := w;
      pending, executed, failed, history, nodeResults := {}, {}, {}, [], map[];
      executionState, totalExecutions, successfulExecutions, failedExecutions := NotStarted, 0, 0, 0;
    }

    function View(): Board
      reads this`pending, this`executed, this`failed, this`history
    {
      Board(pending, executed, failed, history)
    }

    method RecordNodeExecution(id: string, state: NodeState)
      modifies this`pending, this`executed, this`failed, this`history, this`nodeResults
      ensures View() == RecordNode(old(View()), id, state)
      ensures nodeResults == old(nodeResults)[id := state]
    {
      nodeResults := nodeResults[id := state];
      executed := executed + {id};
      if id in pending {
        pending := pending - {id};
      }
      if state.NodeFailed? {
        failed := failed + {id};
      }
      history := history + [id];
    }

    /** The result of each executed node says whether it failed. */
    ghost predicate ResultsMatch()
      reads this
    {
      && nodeResults.Keys == executed && failed <= executed
      && forall id :: id in executed ==> (nodeResults[id].NodeFailed? <==> id in failed)
    }

    /** One turn: on to the next, or the exception it raises. */
    method VisitNode(id: string) returns (raised: Option<Outcome>)
      requires id in pending && id !in executed && ResultsMatch()
      modifies this`pending, this`executed, this`failed, this`history, this`nodeResults
      ensures ResultsMatch()
      ensures View() == Visit(workflow, old(View()), id).board
      ensures raised == match Visit(workflow, old(View()), id)
                        case Continue(_) => None
                        case NodeError(_) => Some(NodeException(id))
                        case NodeThrows(_, listed) => Some(NodeRaised(id, listed))
    {
      pending := pending - {id};
      if id !in workflow.nodes {
        return None;
      }
      var state := workflow.nodes[id](history);
      if state.NodeRaises? {
        return Some(NodeRaised(id, state.listed));
      }
      RecordNodeExecution(id, state);
      if state.NodeFailed? {
        return Some(NodeException(id));
      }
      AddNextNodes(NextNodes(workflow, id, history));
      raised := None;
    }

    /** The loop, with its picks. */
    method ExecuteWorkflow() returns (outcome: Outcome, ghost picks: seq<string>)
      requires View() == FirstBoard(workflow) && ResultsMatch()
      modifies this`pending, this`executed, this`failed, this`history, this`nodeResults
      ensures Ends(workflow, picks, outcome) && View() == BoardAfter(workflow, picks)
      ensures ResultsMatch()
    {
      var iteration := 0;
      picks := [];
      while pending != {} && iteration < MAX_ITERATIONS
        invariant iteration == |picks| <= MAX_ITERATIONS
        invariant Legal(workflow, picks) && View() == BoardAfter(workflow, picks)
        invariant ResultsMatch()
        decreases MAX_ITERATIONS - iteration
      {
        iteration := iteration + 1;
        var id :| id in pending;
        PendingNotExecuted(workflow, picks, id);
        assert (picks + [id])[..|picks|] == picks;
        picks := picks + [id];
        var raised := VisitNode(id);
        if raised.Some? {
          return raised.value, picks;
        }
      }
      outcome := if iteration >= MAX_ITERATIONS then TooManyIterations else Completed;
    }

    method AddNextNodes(next: seq<string>)
      modifies this`pending
      ensures View() == AddPending(old(View()), next)
    {
      for i := 0 to |next|
        invariant View() == AddPending(old(View()), next[..i])
      {
        assert next[..i + 1] == next[..i] + [next[i]];
        if next[i] !in executed {
          pending := pending + {next[i]};
        }
      }
      assert next[..|next|] == next;
    }

    /** A fresh global state with the entry point pending. */
    method ResetState()
      modifies this`pending, this`executed, this`failed, this`history, this`nodeResults
      ensures View() == FirstBoard(workflow) && ResultsMatch()
    {
      pending, executed, failed, history, nodeResults := {}, {}, {}, [], map[];
      pending := pending + {workflow.entry};
    }

    /** Only an error that a node itself raises, and that execute lists, is counted as a failure;
        the loop's own exceptions are not among those it catches, and leave the state running. */
    method Execute() returns (outcome: Outcome, ghost picks: seq<string>)
      modifies this
      ensures Ends(workflow, picks, outcome) && View() == BoardAfter(workflow, picks)
      ensures totalExecutions == old(totalExecutions) + 1
      ensures executionState == if outcome.Completed? then CompletedState
                                else if outcome.NodeRaised? && outcome.listed then FailedState else RunningState
      ensures successfulExecutions == old(successfulExecutions) + if outcome.Completed? then 1 else 0
      ensures failedExecutions == old(failedExecutions) + if outcome.NodeRaised? && outcome.listed then 1 else 0
    {
      executionState := RunningState;
      totalExecutions := totalExecutions + 1;
      ResetState();
      outcome, picks := ExecuteWorkflow();
      match outcome
      case Completed =>
        executionState := CompletedState;
        successfulExecutions := successfulExecutions + 1;
      case NodeRaised(_, true) =>
        executionState := FailedState;
        failedExecutions := failedExecutions + 1;
      case _ =>
    }
  }
}
