/** The workflow graph executor: a worklist over a possibly cyclic graph. */
module WorkflowGraph {
  import opened JsonValues
  import opened Dicts

  /** How a node's execute ends: with a result in one of two states, or with an exception,
      which may or may not be among the errors the executor lists. */
  datatype NodeState = NodeCompleted | NodeFailed | NodeRaises(listed: bool)

  /** A node's outcome may depend on everything executed before it. */
  type NodeBody = seq<string> -> NodeState

  /** A conditional node's answer: the next node, or None when its condition fails. */
  type Condition = seq<string> -> Option<string>

  datatype Workflow = Workflow(
    nodes: map<string, NodeBody>, edges: map<string, seq<string>>,
    conditional: map<string, Condition>, entry: string)

  const MAX_ITERATIONS := 100

  /** get_next_nodes, asked once `history` has been executed. */
  function NextNodes(w: Workflow, id: string, history: seq<string>): seq<string> {
    if id in w.conditional then
      match w.conditional[id](history)
      case Some(next) => if next != "" then [next] else []
      case None => []
    else if id in w.edges then w.edges[id] else []
  }

  /** The edges a run followed: for each executed node, the next nodes it was given. */
  type Taken = map<string, seq<string>>

  // ----- reachability -----

  /** A path from the entry point through existing nodes, along the edges. */
  ghost predicate IsPath(w: Workflow, taken: Taken, p: seq<string>)
    decreases |p|
  {
    && p != []
    && p[|p| - 1] in w.nodes
    && if |p| == 1 then p[0] == w.entry
       else IsPath(w, taken, p[..|p| - 1]) && Edge(taken, p[|p| - 2], p[|p| - 1])
  }

  predicate Edge(taken: Taken, from: string, to: string) {
    from in taken && to in taken[from]
  }

  ghost predicate Reachable(w: Workflow, taken: Taken, id: string) {
    exists p :: IsPath(w, taken, p) && p[|p| - 1] == id
  }

  /** The edges of a workflow without conditional ones. */
  function StaticEdges(w: Workflow): Taken {
    map id | id in w.nodes :: if id in w.edges then w.edges[id] else []
  }

  /** How the loop ends: normally, with one of its own two exceptions, or with a node's. */
  datatype Outcome =
    | Completed
    | NodeException(id: string)
    | TooManyIterations
    | NodeRaised(id: string, listed: bool)

  // ----- one turn of the loop -----

  datatype Board = Board(
    pending: set<string>, executed: set<string>, failed: set<string>, history: seq<string>)

  datatype Turn = Continue(board: Board) | NodeError(board: Board) | NodeThrows(board: Board, listed: bool)

  /** record_node_execution */
  function RecordNode(b: Board, id: string, state: NodeState): Board {
    Board(b.pending - {id}, b.executed + {id},
          if state.NodeFailed? then b.failed + {id} else b.failed, b.history + [id])
  }

  function AddPending(b: Board, next: seq<string>): Board {
    b.(pending := b.pending + (set id | id in next && id !in b.executed))
  }

  /** The body of the loop for the node taken from the pending set. */
  function Visit(w: Workflow, b: Board, id: string): Turn {
    var b := b.(pending := b.pending - {id});
    if id !in w.nodes then Continue(b) else
      var state := w.nodes[id](b.history);
      if state.NodeRaises? then NodeThrows(b, state.listed) else
        var b := RecordNode(b, id, state);
        if state.NodeFailed? then NodeError(b) else
          Continue(AddPending(b, NextNodes(w, id, b.history)))
  }

  /** The edges followed so far, read off the history. */
  function TakenBy(w: Workflow, history: seq<string>): Taken {
    if history == [] then map[] else
      TakenBy(w, history[..|history| - 1])[history[|history| - 1] := NextNodes(w, history[|history| - 1], history)]
  }

  // ----- what the loop keeps -----

  ghost predicate BoardInv(w: Workflow, b: Board) {
    && Distinct(b.history)
    && (forall id :: id in b.executed <==> id in b.history)
    && (forall id :: id in b.executed ==> id in w.nodes)
    && b.pending !! b.executed
    && TakenBy(w, b.history).Keys == b.executed
  }

  /** The entry point and every existing node that a done node led to is done or pending. */
  ghost predicate Closed(w: Workflow, b: Board) {
    && (w.entry in w.nodes ==> w.entry in b.executed || w.entry in b.pending)
    && forall id, next :: Edge(TakenBy(w, b.history), id, next) && next in w.nodes ==>
         next in b.executed || next in b.pending
  }

  /** Some node executed before leads to this one; the entry point needs none. */
  ghost predicate Justified(w: Workflow, history: seq<string>, id: string) {
    if history == [] then id == w.entry
    else exists from :: Edge(TakenBy(w, history), from, id)
  }

  /** Existing nodes, each once, the entry point first and every other one led to by an
      earlier one. */
  ghost predicate HistoryJustified(w: Workflow, history: seq<string>) {
    history == [] ||
      var before, last := history[..|history| - 1], history[|history| - 1];
      && HistoryJustified(w, before)
      && last in w.nodes && last !in before && Justified(w, before, last)
  }

  ghost predicate LoopInv(w: Workflow, b: Board) {
    && BoardInv(w, b) && Closed(w, b)
    && HistoryJustified(w, b.history)
    && forall id :: id in b.pending ==> Justified(w, b.history, id)
  }

  function FirstBoard(w: Workflow): Board {
    Board({w.entry}, {}, {}, [])
  }

  lemma TakenStep(w: Workflow, history: seq<string>, id: string)
    ensures TakenBy(w, history + [id]) == TakenBy(w, history)[id := NextNodes(w, id, history + [id])]
  {
    var h := history + [id];
    assert h[..|h| - 1] == history;
  }

  lemma TakenGrows(w: Workflow, history: seq<string>, id: string)
    requires id !in TakenBy(w, history)
    ensures TakenBy(w, history + [id]) == TakenBy(w, history)[id := NextNodes(w, id, history + [id])]
    ensures forall a, b :: Edge(TakenBy(w, history), a, b) ==> Edge(TakenBy(w, history + [id]), a, b)
  {
    TakenStep(w, history, id);
    var before, after := TakenBy(w, history), TakenBy(w, history + [id]);
    assert forall a :: a in before ==> a in after && after[a] == before[a];
  }

  /** The node exists and gives a result. */
  predicate Records(w: Workflow, b: Board, id: string) {
    id in w.nodes && !w.nodes[id](b.history).NodeRaises?
  }

  /** Executing a node moves it from pending to executed and to the end of the history. */
  lemma VisitMoves(w: Workflow, b: Board, id: string)
    requires Records(w, b, id)
    ensures var next := Visit(w, b, id).board;
            && next.history == b.history + [id]
            && next.executed == b.executed + {id}
            && (forall x :: x in next.pending ==> (x in b.pending && x != id) || x !in next.executed)
  {
  }

  lemma VisitHistory(w: Workflow, b: Board, id: string)
    requires BoardInv(w, b) && id in b.pending && Records(w, b, id)
    ensures var next := Visit(w, b, id).board;
            && Distinct(next.history)
            && (forall x :: x in next.executed <==> x in next.history)
            && TakenBy(w, next.history).Keys == next.executed
  {
    VisitMoves(w, b, id);
    assert id !in b.history;
    TakenStep(w, b.history, id);
  }

  lemma VisitBoardInv(w: Workflow, b: Board, id: string)
    requires BoardInv(w, b) && id in b.pending
    ensures BoardInv(w, Visit(w, b, id).board)
  {
    if Records(w, b, id) {
      VisitMoves(w, b, id);
      VisitHistory(w, b, id);
    }
  }

  lemma PendingJustified(w: Workflow, b: Board, id: string, x: string)
    requires LoopInv(w, b) && id in b.pending && Records(w, b, id) && Visit(w, b, id).Continue?
    requires x in Visit(w, b, id).board.pending
    ensures Justified(w, b.history + [id], x)
  {
    TakenGrows(w, b.history, id);
    if x in b.pending && x != id {
      assert Justified(w, b.history, x) && Justified(w, b.history, id);
      var from :| Edge(TakenBy(w, b.history), from, x);
      assert Edge(TakenBy(w, b.history + [id]), from, x);
    } else {
      assert Edge(TakenBy(w, b.history + [id]), id, x);
    }
  }

  lemma VisitJustified(w: Workflow, b: Board, id: string)
    requires LoopInv(w, b) && id in b.pending && Records(w, b, id)
    ensures var next := Visit(w, b, id).board;
            && HistoryJustified(w, next.history)
            && forall x :: x in next.pending && Visit(w, b, id).Continue? ==> Justified(w, next.history, x)
  {
    var next := Visit(w, b, id).board;
    VisitMoves(w, b, id);
    assert (b.history + [id])[..|b.history|] == b.history;
    forall x | x in next.pending && Visit(w, b, id).Continue? ensures Justified(w, next.history, x) {
      PendingJustified(w, b, id, x);
    }
  }

  lemma VisitClosed(w: Workflow, b: Board, id: string)
    requires LoopInv(w, b) && id in b.pending && Records(w, b, id) && Visit(w, b, id).Continue?
    ensures Closed(w, Visit(w, b, id).board)
  {
    TakenGrows(w, b.history, id);
    var next := Visit(w, b, id).board;
    forall x, y | Edge(TakenBy(w, next.history), x, y) && y in w.nodes
      ensures y in next.executed || y in next.pending
    {
      if x != id {
        assert Edge(TakenBy(w, b.history), x, y);
      }
    }
  }

  /** Visiting a pending node keeps the loop invariant, whichever node is picked. */
  lemma VisitInv(w: Workflow, b: Board, id: string)
    requires LoopInv(w, b) && id in b.pending
    ensures Visit(w, b, id).Continue? ==> LoopInv(w, Visit(w, b, id).board)
    ensures BoardInv(w, Visit(w, b, id).board) && HistoryJustified(w, Visit(w, b, id).board.history)
  {
    VisitBoardInv(w, b, id);
    if Records(w, b, id) {
      VisitJustified(w, b, id);
      if Visit(w, b, id).Continue? {
        VisitClosed(w, b, id);
      }
    }
  }

  // ----- a finished run has executed exactly what is reachable -----

  lemma PathGrows(w: Workflow, taken: Taken, more: Taken, p: seq<string>)
    requires IsPath(w, taken, p) && forall a, b :: Edge(taken, a, b) ==> Edge(more, a, b)
    ensures IsPath(w, more, p)
    decreases |p|
  {
    if |p| > 1 {
      PathGrows(w, taken, more, p[..|p| - 1]);
    }
  }

  lemma {:induction false} TakenKeys(w: Workflow, history: seq<string>)
    ensures forall x :: x in TakenBy(w, history) <==> x in history
  {
    if history != [] {
      TakenKeys(w, history[..|history| - 1]);
      assert history == history[..|history| - 1] + [history[|history| - 1]];
    }
  }

  lemma LongerPath(w: Workflow, taken: Taken, p: seq<string>, id: string)
    requires IsPath(w, taken, p) && Edge(taken, p[|p| - 1], id) && id in w.nodes
    ensures IsPath(w, taken, p + [id])
  {
    assert (p + [id])[..|p|] == p;
  }

  lemma {:induction false} PathTo(w: Workflow, history: seq<string>, id: string) returns (p: seq<string>)
    requires HistoryJustified(w, history) && id in history
    ensures IsPath(w, TakenBy(w, history), p) && p[|p| - 1] == id
    decreases |history|
  {
    var before, last := history[..|history| - 1], history[|history| - 1];
    assert history == before + [last];
    TakenKeys(w, before);
    TakenGrows(w, before, last);
    if id != last {
      p := PathTo(w, before, id);
      PathGrows(w, TakenBy(w, before), TakenBy(w, history), p);
    } else if before == [] {
      p := [id];
    } else {
      var from :| Edge(TakenBy(w, before), from, id);
      p := PathTo(w, before, from);
      PathGrows(w, TakenBy(w, before), TakenBy(w, history), p);
      LongerPath(w, TakenBy(w, history), p, id);
      p := p + [id];
    }
  }

  lemma {:induction false} PathIsExecuted(w: Workflow, b: Board, taken: Taken, p: seq<string>)
    requires LoopInv(w, b) && b.pending == {} && IsPath(w, taken, p)
    requires forall x, y :: x in b.executed && Edge(taken, x, y) ==> Edge(TakenBy(w, b.history), x, y)
    ensures p[|p| - 1] in b.executed
    decreases |p|
  {
    if |p| > 1 {
      PathIsExecuted(w, b, taken, p[..|p| - 1]);
    }
  }

  /** With nothing left pending, exactly the existing nodes reachable from the entry
      point along the edges followed have been executed, each once. */
  lemma FinishedIsReachable(w: Workflow, b: Board, id: string)
    requires LoopInv(w, b) && b.pending == {}
    ensures id in b.executed <==> Reachable(w, TakenBy(w, b.history), id)
    ensures Distinct(b.history) && (id in b.executed <==> id in b.history)
  {
    if id in b.executed {
      var p := PathTo(w, b.history, id);
    }
    if Reachable(w, TakenBy(w, b.history), id) {
      var p :| IsPath(w, TakenBy(w, b.history), p) && p[|p| - 1] == id;
      PathIsExecuted(w, b, TakenBy(w, b.history), p);
    }
  }

  lemma {:induction false} TakenIsStatic(w: Workflow, history: seq<string>, x: string)
    requires w.conditional == map[] && x in history && x in w.nodes
    ensures x in TakenBy(w, history) && TakenBy(w, history)[x] == StaticEdges(w)[x]
  {
    var before := history[..|history| - 1];
    assert history == before + [history[|history| - 1]];
    if x != history[|history| - 1] {
      TakenIsStatic(w, before, x);
    }
  }

  /** Without conditional edges the set executed does not depend on the pick order. */
  lemma FinishedIsStaticallyReachable(w: Workflow, b: Board, id: string)
    requires LoopInv(w, b) && b.pending == {} && w.conditional == map[]
    ensures id in b.executed <==> Reachable(w, StaticEdges(w), id)
  {
    var taken := TakenBy(w, b.history);
    forall x | x in b.executed ensures x in taken && taken[x] == StaticEdges(w)[x] {
      TakenIsStatic(w, b.history, x);
    }
    if id in b.executed {
      FinishedIsReachable(w, b, id);
      var p :| IsPath(w, taken, p) && p[|p| - 1] == id;
      assert forall x, y :: Edge(taken, x, y) ==> Edge(StaticEdges(w), x, y);
      PathGrows(w, taken, StaticEdges(w), p);
    }
    if Reachable(w, StaticEdges(w), id) {
      var p :| IsPath(w, StaticEdges(w), p) && p[|p| - 1] == id;
      PathIsExecuted(w, b, StaticEdges(w), p);
    }
  }

  // ----- how long the loop can run -----

  /** The targets outside the graph that visiting this node can make pending. */
  ghost function Dangling(w: Workflow, id: string): nat {
    if id in w.conditional then 1
    else if id in w.edges then |set x | x in w.edges[id] && x !in w.nodes|
    else 0
  }

  ghost function Weight(w: Workflow, ids: set<string>): nat {
    if ids == {} then 0 else
      var id :| id in ids;
      1 + Dangling(w, id) + Weight(w, ids - {id})
  }

  lemma {:induction false} WeightWithout(w: Workflow, ids: set<string>, id: string)
    requires id in ids
    ensures Weight(w, ids) == 1 + Dangling(w, id) + Weight(w, ids - {id})
  {
    var pick :| pick in ids && Weight(w, ids) == 1 + Dangling(w, pick) + Weight(w, ids - {pick});
    if pick != id {
      WeightWithout(w, ids - {pick}, id);
      WeightWithout(w, ids - {id}, pick);
      assert ids - {pick} - {id} == ids - {id} - {pick};
    }
  }

  /** An upper bound on the turns still to come. */
  ghost function TurnsLeft(w: Workflow, b: Board): nat {
    Weight(w, w.nodes.Keys - b.executed) + |b.pending - w.nodes.Keys|
  }

  lemma StrayTargets(w: Workflow, id: string, history: seq<string>)
    ensures |set x | x in NextNodes(w, id, history) && x !in w.nodes| <= Dangling(w, id)
  {
    var next := NextNodes(w, id, history);
    var stray := set x | x in next && x !in w.nodes;
    if next == [] {
      assert stray == {};
    } else if id in w.conditional {
      assert stray <= {next[0]};
      SubsetSize(stray, {next[0]});
    }
  }

  lemma StraySource(w: Workflow, b: Board, id: string)
    requires id in w.nodes
    ensures Visit(w, b, id).board.pending - w.nodes.Keys <=
            (b.pending - w.nodes.Keys) + set x | x in NextNodes(w, id, b.history + [id]) && x !in w.nodes
  {
  }

  lemma StrayPending(w: Workflow, b: Board, id: string)
    requires id in w.nodes
    ensures |Visit(w, b, id).board.pending - w.nodes.Keys| <= |b.pending - w.nodes.Keys| + Dangling(w, id)
  {
    var before := b.pending - w.nodes.Keys;
    var stray := set x | x in NextNodes(w, id, b.history + [id]) && x !in w.nodes;
    StraySource(w, b, id);
    StrayTargets(w, id, b.history + [id]);
    SubsetSize(Visit(w, b, id).board.pending - w.nodes.Keys, before + stray);
    UnionAtMost(before, stray);
  }

  lemma UnionAtMost<T>(a: set<T>, b: set<T>)
    ensures |a + b| <= |a| + |b|
  {
    assert a + b == a + (b - a);
    SubsetSize(b - a, b);
  }

  lemma ExecutedWeight(w: Workflow, b: Board, id: string)
    requires Records(w, b, id) && id !in b.executed
    ensures Weight(w, w.nodes.Keys - Visit(w, b, id).board.executed) + 1 + Dangling(w, id)
         == Weight(w, w.nodes.Keys - b.executed)
  {
    VisitMoves(w, b, id);
    WeightWithout(w, w.nodes.Keys - b.executed, id);
    assert w.nodes.Keys - (b.executed + {id}) == w.nodes.Keys - b.executed - {id};
  }

  lemma ExecuteProgress(w: Workflow, b: Board, id: string)
    requires Records(w, b, id) && id !in b.executed
    ensures TurnsLeft(w, Visit(w, b, id).board) < TurnsLeft(w, b)
  {
    StrayPending(w, b, id);
    ExecutedWeight(w, b, id);
  }

  lemma SkipProgress(w: Workflow, b: Board, id: string)
    requires id in b.pending && id !in w.nodes
    ensures TurnsLeft(w, Visit(w, b, id).board) < TurnsLeft(w, b)
  {
    assert Visit(w, b, id).board.pending - w.nodes.Keys == (b.pending - w.nodes.Keys) - {id};
  }

  /** Every turn uses up at least one, in any pick order, cycles and dangling targets
      included: the loop would end without its iteration guard. A turn in which the node
      raises is the last, and there was one left for it. */
  lemma VisitProgress(w: Workflow, b: Board, id: string)
    requires BoardInv(w, b) && id in b.pending
    ensures TurnsLeft(w, b) >= 1
    ensures !Visit(w, b, id).NodeThrows? ==> TurnsLeft(w, Visit(w, b, id).board) < TurnsLeft(w, b)
  {
    if Records(w, b, id) {
      ExecuteProgress(w, b, id);
    } else if id in w.nodes {
      WeightWithout(w, w.nodes.Keys - b.executed, id);
    } else {
      SkipProgress(w, b, id);
    }
  }

  /** A sequence of picks, each pending when it is taken. */
  ghost predicate IsRun(w: Workflow, b: Board, picks: seq<string>)
    decreases |picks|
  {
    picks == [] ||
      (picks[0] in b.pending && Visit(w, b, picks[0]).Continue?
       && IsRun(w, Visit(w, b, picks[0]).board, picks[1..]))
  }

  /** Without its guard, the loop ends: no sequence of picks is longer than the bound. */
  lemma {:induction false} UnguardedRunsEnd(w: Workflow, b: Board, picks: seq<string>)
    requires LoopInv(w, b) && IsRun(w, b, picks)
    ensures |picks| <= TurnsLeft(w, b)
    decreases |picks|
  {
    if picks != [] {
      VisitInv(w, b, picks[0]);
      VisitProgress(w, b, picks[0]);
      UnguardedRunsEnd(w, Visit(w, b, picks[0]).board, picks[1..]);
    }
  }

  /** Every node an edge can lead to exists, and no node fails. */
  ghost predicate SelfContained(w: Workflow) {
    && w.conditional == map[] && w.entry in w.nodes
    && (forall id, to :: Edge(StaticEdges(w), id, to) ==> to in w.nodes)
    && forall id, history :: id in w.nodes ==> w.nodes[id](history) == NodeCompleted
  }

  ghost function ReachableNodes(w: Workflow): set<string> {
    set id | id in w.nodes && Reachable(w, StaticEdges(w), id)
  }

  lemma NoDangling(w: Workflow, id: string)
    requires SelfContained(w) && id in w.nodes
    ensures Dangling(w, id) == 0
  {
    if id in w.edges {
      var stray := set x | x in w.edges[id] && x !in w.nodes;
      forall x ensures x !in stray {
        if x in w.edges[id] {
          assert Edge(StaticEdges(w), id, x);
        }
      }
      assert stray == {};
    }
  }

  lemma {:induction false} SelfContainedWeight(w: Workflow, ids: set<string>)
    requires SelfContained(w) && ids <= w.nodes.Keys
    ensures Weight(w, ids) == |ids|
  {
    if ids != {} {
      var id :| id in ids && Weight(w, ids) == 1 + Dangling(w, id) + Weight(w, ids - {id});
      NoDangling(w, id);
      SelfContainedWeight(w, ids - {id});
    }
  }

  /** With at most 99 nodes, all of them existing and none failing, the bound stays
      below the guard. */
  lemma SmallGraphsStayBelowTheGuard(w: Workflow)
    requires SelfContained(w)
    ensures TurnsLeft(w, FirstBoard(w)) == |w.nodes|
  {
    SelfContainedWeight(w, w.nodes.Keys);
    assert w.nodes.Keys - {} == w.nodes.Keys;
    assert {w.entry} - w.nodes.Keys == {};
  }

  lemma SelfContainedVisit(w: Workflow, b: Board, id: string)
    requires SelfContained(w) && LoopInv(w, b) && id in b.pending && b.pending <= w.nodes.Keys
    ensures Visit(w, b, id).Continue?
    ensures Visit(w, b, id).board.pending <= w.nodes.Keys
    ensures |Visit(w, b, id).board.history| == |b.history| + 1
  {
    forall x | x in NextNodes(w, id, b.history + [id]) ensures x in w.nodes {
      assert Edge(StaticEdges(w), id, x);
    }
  }

  /** Everything executed so far is reachable, so many executed nodes are many reachable ones. */
  lemma ExecutedCount(w: Workflow, b: Board)
    requires BoardInv(w, b) && HistoryJustified(w, b.history) && w.conditional == map[]
    ensures |b.history| <= |ReachableNodes(w)|
    ensures LoopInv(w, b) && b.pending == {} ==> |b.history| == |ReachableNodes(w)|
  {
    var done := set x | x in b.history;
    DistinctSize(b.history);
    forall x | x in done ensures x in ReachableNodes(w) {
      var p := PathTo(w, b.history, x);
      forall a, c | Edge(TakenBy(w, b.history), a, c) ensures Edge(StaticEdges(w), a, c) {
        TakenIsStatic(w, b.history, a);
      }
      PathGrows(w, TakenBy(w, b.history), StaticEdges(w), p);
    }
    SubsetSize(done, ReachableNodes(w));
    if LoopInv(w, b) && b.pending == {} {
      forall x | x in ReachableNodes(w) ensures x in done {
        FinishedIsStaticallyReachable(w, b, x);
      }
      assert done == ReachableNodes(w);
    }
  }

  /** What a normal end of the loop means. */
  ghost predicate NormalEnd(w: Workflow, b: Board) {
    && LoopInv(w, b) && b.pending == {} && b.failed == {}
    && (forall id :: id in b.executed <==> Reachable(w, TakenBy(w, b.history), id))
    && (w.conditional == map[] ==> b.executed == ReachableNodes(w))
  }

  lemma NormalEndReached(w: Workflow, b: Board)
    requires LoopInv(w, b) && b.pending == {} && b.failed == {}
    ensures NormalEnd(w, b)
  {
    forall id ensures id in b.executed <==> Reachable(w, TakenBy(w, b.history), id) {
      FinishedIsReachable(w, b, id);
    }
    if w.conditional == map[] {
      forall id ensures id in b.executed <==> id in ReachableNodes(w) {
        FinishedIsStaticallyReachable(w, b, id);
      }
    }
  }

  /** The turns taken so far and the most still to come stay within the first bound. */
  ghost predicate WithinBound(w: Workflow, b: Board, iteration: nat) {
    iteration + TurnsLeft(w, b) <= TurnsLeft(w, FirstBoard(w))
  }

  /** In a self-contained graph every turn executes a node. */
  ghost predicate EachTurnExecutes(w: Workflow, b: Board, iteration: nat) {
    SelfContained(w) ==> b.pending <= w.nodes.Keys && |b.history| == iteration
  }

  /** The loop after some turns without a failed node. */
  ghost predicate LoopState(w: Workflow, b: Board, iteration: nat) {
    && LoopInv(w, b) && b.failed == {}
    && WithinBound(w, b, iteration) && EachTurnExecutes(w, b, iteration)
  }

  lemma FirstState(w: Workflow)
    ensures LoopState(w, FirstBoard(w), 0)
  {
  }

  /** What a loop that raised or ran out says about the graph. */
  ghost predicate VerdictOf(w: Workflow, b: Board, outcome: Outcome, iteration: nat) {
    && BoardInv(w, b) && HistoryJustified(w, b.history)
    && iteration <= TurnsLeft(w, FirstBoard(w))
    && (match outcome
        case Completed => NormalEnd(w, b) && iteration < 100
        case NodeException(id) => b.failed == {id} && b.history != [] && b.history[|b.history| - 1] == id
        case TooManyIterations => iteration == 100
        case NodeRaised(id, listed) =>
          && b.failed == {} && id in w.nodes && id !in b.executed
          && w.nodes[id](b.history) == NodeRaises(listed))
    && (SelfContained(w) ==>
          outcome == if |ReachableNodes(w)| >= 100 then TooManyIterations else Completed)
  }

  lemma NextBound(w: Workflow, b: Board, iteration: nat, id: string)
    requires BoardInv(w, b) && id in b.pending && WithinBound(w, b, iteration)
    requires !Visit(w, b, id).NodeThrows?
    ensures WithinBound(w, Visit(w, b, id).board, iteration + 1)
  {
    VisitProgress(w, b, id);
  }

  lemma NextExecutes(w: Workflow, b: Board, iteration: nat, id: string)
    requires LoopInv(w, b) && id in b.pending && EachTurnExecutes(w, b, iteration)
    ensures EachTurnExecutes(w, Visit(w, b, id).board, iteration + 1)
    ensures SelfContained(w) ==> Visit(w, b, id).Continue?
  {
    if SelfContained(w) {
      SelfContainedVisit(w, b, id);
    }
  }

  lemma VisitFailed(w: Workflow, b: Board, id: string)
    requires b.failed == {}
    ensures Visit(w, b, id).Continue? ==> Visit(w, b, id).board.failed == {}
    ensures Visit(w, b, id).NodeError? ==>
              Visit(w, b, id).board.failed == {id} && Visit(w, b, id).board.history == b.history + [id]
  {
  }

  lemma NextState(w: Workflow, b: Board, iteration: nat, id: string)
    requires LoopState(w, b, iteration) && id in b.pending && Visit(w, b, id).Continue?
    ensures LoopState(w, Visit(w, b, id).board, iteration + 1)
  {
    VisitFailed(w, b, id);
    VisitInv(w, b, id);
    NextBound(w, b, iteration, id);
    NextExecutes(w, b, iteration, id);
  }

  lemma NodeErrorVerdict(w: Workflow, b: Board, iteration: nat, id: string)
    requires LoopState(w, b, iteration) && id in b.pending && Visit(w, b, id).NodeError?
    ensures VerdictOf(w, Visit(w, b, id).board, NodeException(id), iteration + 1)
  {
    VisitFailed(w, b, id);
    VisitInv(w, b, id);
    NextBound(w, b, iteration, id);
    NextExecutes(w, b, iteration, id);
  }

  lemma RaisingTurn(w: Workflow, b: Board, id: string)
    requires Visit(w, b, id).NodeThrows?
    ensures id in w.nodes && w.nodes[id](b.history) == NodeRaises(Visit(w, b, id).listed)
    ensures Visit(w, b, id).board == b.(pending := b.pending - {id})
  {
  }

  lemma NodeRaisedVerdict(w: Workflow, b: Board, iteration: nat, id: string)
    requires LoopState(w, b, iteration) && id in b.pending && Visit(w, b, id).NodeThrows?
    ensures VerdictOf(w, Visit(w, b, id).board, NodeRaised(id, Visit(w, b, id).listed), iteration + 1)
  {
    RaisingTurn(w, b, id);
    VisitProgress(w, b, id);
    assert WithinBound(w, b, iteration) && !SelfContained(w);
  }

  lemma LoopVerdict(w: Workflow, b: Board, iteration: nat)
    requires LoopState(w, b, iteration) && iteration <= MAX_ITERATIONS
    requires iteration < MAX_ITERATIONS ==> b.pending == {}
    ensures VerdictOf(w, b, if iteration >= MAX_ITERATIONS then TooManyIterations else Completed, iteration)
  {
    if w.conditional == map[] {
      ExecutedCount(w, b);
    }
    if iteration < MAX_ITERATIONS {
      NormalEndReached(w, b);
    }
  }

  // ----- whole runs, for any order of picks -----

  /** The board after these picks. */
  function BoardAfter(w: Workflow, picks: seq<string>): Board {
    if picks == [] then FirstBoard(w)
    else Visit(w, BoardAfter(w, picks[..|picks| - 1]), picks[|picks| - 1]).board
  }

  /** Each pick was pending, and its turn went on to the next one. */
  predicate Legal(w: Workflow, picks: seq<string>) {
    picks == [] ||
      var before, id := picks[..|picks| - 1], picks[|picks| - 1];
      Legal(w, before) && id in BoardAfter(w, before).pending
      && Visit(w, BoardAfter(w, before), id).Continue?
  }

  /** The last pick's turn ended this way, after legal ones. */
  predicate LastTurn(w: Workflow, picks: seq<string>, id: string, turn: Turn) {
    && 0 < |picks| <= MAX_ITERATIONS && picks[|picks| - 1] == id
    && Legal(w, picks[..|picks| - 1])
    && id in BoardAfter(w, picks[..|picks| - 1]).pending
    && turn == Visit(w, BoardAfter(w, picks[..|picks| - 1]), id)
  }

  /** The loop ends this way after these picks. */
  predicate Ends(w: Workflow, picks: seq<string>, outcome: Outcome) {
    match outcome
    case Completed => Legal(w, picks) && |picks| < MAX_ITERATIONS && BoardAfter(w, picks).pending == {}
    case TooManyIterations => Legal(w, picks) && |picks| == MAX_ITERATIONS
    case NodeException(id) => LastTurn(w, picks, id, NodeError(BoardAfter(w, picks)))
    case NodeRaised(id, listed) => LastTurn(w, picks, id, NodeThrows(BoardAfter(w, picks), listed))
  }

  lemma {:induction false} LegalState(w: Workflow, picks: seq<string>)
    requires Legal(w, picks)
    ensures LoopState(w, BoardAfter(w, picks), |picks|)
  {
    if picks == [] {
      FirstState(w);
    } else {
      var before := picks[..|picks| - 1];
      LegalState(w, before);
      NextState(w, BoardAfter(w, before), |before|, picks[|picks| - 1]);
    }
  }

  /** However the nodes are picked: a normal end has executed exactly the reachable nodes, a
      run is never longer than the bound, a node that fails or raises ends it, and in a
      self-contained graph the iteration error is raised if and only if 100 or more nodes
      are reachable. */
  lemma RunVerdict(w: Workflow, picks: seq<string>, outcome: Outcome)
    requires Ends(w, picks, outcome)
    ensures VerdictOf(w, BoardAfter(w, picks), outcome, |picks|)
  {
    match outcome
    case NodeException(id) =>
      var before := picks[..|picks| - 1];
      LegalState(w, before);
      NodeErrorVerdict(w, BoardAfter(w, before), |before|, id);
    case NodeRaised(id, _) =>
      var before := picks[..|picks| - 1];
      LegalState(w, before);
      NodeRaisedVerdict(w, BoardAfter(w, before), |before|, id);
    case _ =>
      LegalState(w, picks);
      LoopVerdict(w, BoardAfter(w, picks), |picks|);
  }

  /** No node is pending and executed at the same time. */
  lemma PendingNotExecuted(w: Workflow, picks: seq<string>, id: string)
    requires Legal(w, picks) && id in BoardAfter(w, picks).pending
    ensures id !in BoardAfter(w, picks).executed
  {
    LegalState(w, picks);
  }

  // ----- routing, read off the workflow -----

  /** What the node at position k of the history leads to: a conditional node to the one node
      its condition answered on the history up to it, if any, and another to its own edges. */
  predicate LeadsTo(w: Workflow, history: seq<string>, k: nat, x: string)
    requires k < |history|
  {
    var id := history[k];
    if id in w.conditional then x != "" && w.conditional[id](history[..k + 1]) == Some(x)
    else id in w.edges && x in w.edges[id]
  }

  /** Existing nodes, each once, beginning with the entry point; each later one is led to by an
      earlier one. */
  ghost predicate FollowsItsEdges(w: Workflow, history: seq<string>) {
    && Distinct(history)
    && (forall j :: 0 <= j < |history| ==> history[j] in w.nodes)
    && (history != [] ==> history[0] == w.entry)
    && forall j :: 0 < j < |history| ==> LedTo(w, history, j)
  }

  ghost predicate LedTo(w: Workflow, history: seq<string>, j: nat)
    requires j < |history|
  {
    exists k :: 0 <= k < j && LeadsTo(w, history, k, history[j])
  }

  /** Nothing that a node of the history leads to is left out, if it exists. */
  ghost predicate LeavesNothingOut(w: Workflow, history: seq<string>) {
    && (w.entry in w.nodes ==> w.entry in history)
    && forall k, x :: 0 <= k < |history| && x in w.nodes && LeadsTo(w, history, k, x) ==> x in history
  }

  /** The edges followed are those of the workflow. */
  lemma {:induction false} EdgesFollowed(w: Workflow, history: seq<string>, k: nat, x: string)
    requires Distinct(history) && k < |history|
    ensures Edge(TakenBy(w, history), history[k], x) <==> LeadsTo(w, history, k, x)
  {
    var n := |history| - 1;
    if k == n {
      assert history[..n + 1] == history;
    } else {
      EdgesFollowed(w, history[..n], k, x);
      assert history[..n][..k + 1] == history[..k + 1];
      assert history[k] != history[n];
    }
  }

  lemma LastIsLedTo(w: Workflow, history: seq<string>)
    requires HistoryJustified(w, history) && Distinct(history) && |history| > 1
    ensures LedTo(w, history, |history| - 1)
  {
    var n := |history| - 1;
    var before := history[..n];
    var from :| Edge(TakenBy(w, before), from, history[n]);
    TakenKeys(w, before);
    var k :| 0 <= k < n && before[k] == from;
    EdgesFollowed(w, before, k, history[n]);
    assert before[..k + 1] == history[..k + 1];
    assert LeadsTo(w, history, k, history[n]);
  }

  lemma {:induction false} JustifiedFollows(w: Workflow, history: seq<string>)
    requires HistoryJustified(w, history) && Distinct(history)
    ensures FollowsItsEdges(w, history)
  {
    if |history| > 0 {
      var before, n := history[..|history| - 1], |history| - 1;
      JustifiedFollows(w, before);
      forall j | 0 < j < |history| ensures LedTo(w, history, j) {
        if j < n {
          LedToEarlier(w, before, history, j);
        } else {
          LastIsLedTo(w, history);
        }
      }
    }
  }

  lemma LedToEarlier(w: Workflow, before: seq<string>, history: seq<string>, j: nat)
    requires j < |before| <= |history| && before == history[..|before|] && LedTo(w, before, j)
    ensures LedTo(w, history, j)
  {
    var k :| 0 <= k < j && LeadsTo(w, before, k, before[j]);
    assert before[..k + 1] == history[..k + 1];
    assert LeadsTo(w, history, k, history[j]);
  }

  /** However the nodes are picked, the history of every run follows the workflow's own edges and
      conditions; and a normal end has left nothing out that they lead to. */
  lemma RunsFollowTheirEdges(w: Workflow, picks: seq<string>, outcome: Outcome)
    requires Ends(w, picks, outcome)
    ensures var b := BoardAfter(w, picks);
            && FollowsItsEdges(w, b.history)
            && (forall x :: x in b.executed <==> x in b.history)
            && (outcome.Completed? ==> LeavesNothingOut(w, b.history))
  {
    var b := BoardAfter(w, picks);
    RunVerdict(w, picks, outcome);
    JustifiedFollows(w, b.history);
    if outcome.Completed? {
      forall k, x | 0 <= k < |b.history| && x in w.nodes && LeadsTo(w, b.history, k, x) ensures x in b.history {
        EdgesFollowed(w, b.history, k, x);
      }
    }
  }
}
