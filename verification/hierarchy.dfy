/**
 * The circuit hierarchy of the design database (db/DesignDB.cpp): a sequence
 * of circuits (`CktGraph`), each holding nodes (`CktNode`).  A non-leaf node
 * instantiates the circuit at index `subgraphIdx`.  `findRootCkt` walks these
 * references depth first and records the root circuit in `_rootCkt`.
 */
module Hierarchy {
  import Geometry

  /** `OriType`: the eight placement orientations. */
  datatype Orient = N | S | W | E | FN | FS | FW | FE

  /** A node of a circuit: a leaf device or an instance of the circuit `subgraphIdx`. */
  datatype CktNode = CktNode(
    name: string,
    isLeaf: bool,
    subgraphIdx: nat,
    offset: Geometry.XY,
    orient: Orient,
    refName: string)

  /** A rectangle of a circuit's layout, with its GDSII datatype. */
  datatype LayoutRect = LayoutRect(rect: Geometry.Box, dataType: int)

  /** A text label of a circuit's layout. */
  datatype LayoutText = LayoutText(coord: Geometry.XY, text: string)

  /** The shapes of one layer. */
  datatype LayerShapes = LayerShapes(rects: seq<LayoutRect>, texts: seq<LayoutText>)

  /** `Layout`: the shapes of every layer, indexed by database layer. */
  datatype Layout = Layout(layers: seq<LayerShapes>)

  /** `CktGraph`: a named circuit with its nodes and its layout. */
  datatype CktGraph = CktGraph(name: string, nodes: seq<CktNode>, layout: Layout)

  // ---------------------------------------------------------------------------
  // The reference relation and reachability
  // ---------------------------------------------------------------------------

  /** Node `k` of circuit `p` is a non-leaf node, that is, a reference to a sub circuit. */
  predicate IsRef(ckts: seq<CktGraph>, p: nat, k: nat)
  {
    p < |ckts| && k < |ckts[p].nodes| && !ckts[p].nodes[k].isLeaf
  }

  /** Every reference names a circuit of the design. */
  ghost predicate WellFormed(ckts: seq<CktGraph>)
  {
    forall p: nat, k: nat :: IsRef(ckts, p, k) ==> ckts[p].nodes[k].subgraphIdx < |ckts|
  }

  /** Circuit `p` holds a non-leaf node that instantiates circuit `c`. */
  ghost predicate Edge(ckts: seq<CktGraph>, p: nat, c: nat)
  {
    exists k: nat :: IsRef(ckts, p, k) && ckts[p].nodes[k].subgraphIdx == c
  }

  /** A non-empty sequence of circuits, each instantiating the next. */
  ghost predicate IsPath(ckts: seq<CktGraph>, path: seq<nat>)
  {
    |path| > 0 &&
    (forall i :: 0 <= i < |path| ==> path[i] < |ckts|) &&
    (forall i :: 0 <= i < |path| - 1 ==> Edge(ckts, path[i], path[i + 1]))
  }

  /** A path that starts below `bound` and ends at `v`. */
  ghost predicate PathTo(ckts: seq<CktGraph>, path: seq<nat>, bound: nat, v: nat)
  {
    IsPath(ckts, path) && path[0] < bound && path[|path| - 1] == v
  }

  /** Circuit `s` is reached by references from some circuit of a smaller index. */
  ghost predicate ReachableFromBelow(ckts: seq<CktGraph>, s: nat)
  {
    exists path: seq<nat> :: PathTo(ckts, path, s, s)
  }

  /**
   * `r` is the start of the last search the outer loop of `findRootCkt`
   * launches: no smaller circuit reaches it, and every larger circuit is
   * reached from a smaller one (so it is visited before its turn).
   */
  ghost predicate IsLastStart(ckts: seq<CktGraph>, r: nat)
  {
    r < |ckts| && !ReachableFromBelow(ckts, r) &&
    forall s: nat :: r < s < |ckts| ==> ReachableFromBelow(ckts, s)
  }

  /** A path extended by one reference is a path. */
  lemma {:induction false} PathExtend(ckts: seq<CktGraph>, path: seq<nat>, k: nat)
    requires IsPath(ckts, path) && WellFormed(ckts)
    requires IsRef(ckts, path[|path| - 1], k)
    ensures IsPath(ckts, path + [ckts[path[|path| - 1]].nodes[k].subgraphIdx])
  {
    var c := ckts[path[|path| - 1]].nodes[k].subgraphIdx;
    var q := path + [c];
    forall i | 0 <= i < |q| - 1
      ensures Edge(ckts, q[i], q[i + 1])
    {
      if i == |path| - 1 {
        assert IsRef(ckts, q[i], k) && ckts[q[i]].nodes[k].subgraphIdx == q[i + 1];
      } else {
        assert Edge(ckts, path[i], path[i + 1]);
      }
    }
  }

  /** The step of a path at position `i` is a reference. */
  lemma {:induction false} PathStep(ckts: seq<CktGraph>, path: seq<nat>, i: nat)
    ensures IsPath(ckts, path) && i + 1 < |path| ==> Edge(ckts, path[i], path[i + 1])
  {
  }

  /** Two paths joined where the first ends and the second starts form a path. */
  lemma {:induction false} PathConcat(ckts: seq<CktGraph>, p: seq<nat>, q: seq<nat>)
    requires IsPath(ckts, p) && IsPath(ckts, q) && p[|p| - 1] == q[0]
    ensures IsPath(ckts, p + q[1..])
  {
    var r := p + q[1..];
    forall i | 0 <= i < |r| - 1
      ensures Edge(ckts, r[i], r[i + 1])
    {
      if i < |p| - 1 {
        assert Edge(ckts, p[i], p[i + 1]);
      } else {
        var j := i - (|p| - 1);
        assert r[i] == q[j] && r[i + 1] == q[j + 1];
        assert Edge(ckts, q[j], q[j + 1]);
      }
    }
  }

  // ---------------------------------------------------------------------------
  // Sets of visited circuits
  // ---------------------------------------------------------------------------

  /** Every reference out of a visited circuit leads to a visited circuit or to one on `stack`. */
  ghost predicate ClosedBut(ckts: seq<CktGraph>, visited: seq<bool>, stack: seq<nat>)
    requires |visited| == |ckts| && WellFormed(ckts)
  {
    forall v: nat, k: nat :: v < |ckts| && visited[v] && IsRef(ckts, v, k) ==>
      visited[ckts[v].nodes[k].subgraphIdx] || ckts[v].nodes[k].subgraphIdx in stack
  }

  /** A visited set closed under references contains the whole of every path that starts in it. */
  lemma {:induction false} ClosedPathVisited(ckts: seq<CktGraph>, visited: seq<bool>, path: seq<nat>)
    requires |visited| == |ckts| && WellFormed(ckts) && ClosedBut(ckts, visited, [])
    requires IsPath(ckts, path) && visited[path[0]]
    ensures visited[path[|path| - 1]]
  {
    var i := 0;
    while i < |path| - 1
      invariant 0 <= i < |path| && visited[path[i]]
    {
      assert Edge(ckts, path[i], path[i + 1]);
      var k: nat :| IsRef(ckts, path[i], k) && ckts[path[i]].nodes[k].subgraphIdx == path[i + 1];
      i := i + 1;
    }
  }

  /**
   * For a visited entry of the DFS stack, every reference leads to a visited
   * circuit or to an entry above it.  So a visited entry on top pushes nothing.
   */
  ghost predicate StackCovered(ckts: seq<CktGraph>, visited: seq<bool>, stack: seq<nat>)
    requires |visited| == |ckts| && WellFormed(ckts)
    requires forall j :: 0 <= j < |stack| ==> stack[j] < |ckts|
  {
    forall i, k: nat :: 0 <= i < |stack| && visited[stack[i]] && IsRef(ckts, stack[i], k) ==>
      visited[ckts[stack[i]].nodes[k].subgraphIdx] || ckts[stack[i]].nodes[k].subgraphIdx in stack[i + 1..]
  }

  /** Every recorded witness is a path from a circuit below `bound` to the circuit it is recorded for. */
  ghost predicate WitnessesValid(ckts: seq<CktGraph>, w: map<nat, seq<nat>>, bound: nat)
  {
    forall v :: v in w ==> PathTo(ckts, w[v], bound, v)
  }

  /** The number of circuits not visited yet. */
  function CountFalse(visited: seq<bool>): (r: nat)
    ensures r <= |visited|
  {
    if visited == [] then 0 else (if visited[0] then 0 else 1) + CountFalse(visited[1..])
  }

  /** Marking an unvisited circuit lowers the count by one; marking a visited one changes nothing. */
  lemma {:induction false} CountFalseMark(visited: seq<bool>, i: nat)
    requires i < |visited|
    ensures !visited[i] ==> CountFalse(visited[i := true]) == CountFalse(visited) - 1
    ensures visited[i] ==> CountFalse(visited[i := true]) == CountFalse(visited)
  {
    if i > 0 {
      CountFalseMark(visited[1..], i - 1);
      assert visited[i := true][1..] == visited[1..][i - 1 := true];
    }
  }

  // ---------------------------------------------------------------------------
  // The depth-first search
  // ---------------------------------------------------------------------------

  /**
   * The loop over the nodes of the popped circuit `nodeIdx` (DesignDB.cpp
   * lines 45-58): leaves are skipped, visited circuits are skipped, and every
   * other referenced circuit is pushed.
   */
  method PushChildren(ckts: seq<CktGraph>, visited: seq<bool>, nodeIdx: nat, stack0: seq<nat>,
                      ghost w0: map<nat, seq<nat>>, ghost bound: nat)
    returns (stack: seq<nat>, ghost w: map<nat, seq<nat>>)
    requires WellFormed(ckts) && |visited| == |ckts| && nodeIdx < |ckts|
    requires WitnessesValid(ckts, w0, bound) && nodeIdx in w0
    ensures |stack| >= |stack0| && stack[..|stack0|] == stack0
    ensures forall j :: |stack0| <= j < |stack| ==> stack[j] < |ckts| && !visited[stack[j]] && stack[j] in w
    ensures forall j :: |stack0| <= j < |stack| ==> Edge(ckts, nodeIdx, stack[j])
    ensures forall k: nat :: IsRef(ckts, nodeIdx, k) ==>
      visited[ckts[nodeIdx].nodes[k].subgraphIdx] || ckts[nodeIdx].nodes[k].subgraphIdx in stack[|stack0|..]
    ensures (forall k: nat :: IsRef(ckts, nodeIdx, k) ==> visited[ckts[nodeIdx].nodes[k].subgraphIdx]) ==> stack == stack0
    ensures WitnessesValid(ckts, w, bound) && w0.Keys <= w.Keys
  {
    stack, w := stack0, w0;
    var nodes := ckts[nodeIdx].nodes;
    for k := 0 to |nodes|
      invariant |stack| >= |stack0| && stack[..|stack0|] == stack0
      invariant forall j :: |stack0| <= j < |stack| ==> stack[j] < |ckts| && !visited[stack[j]] && stack[j] in w
      invariant forall j :: |stack0| <= j < |stack| ==> Edge(ckts, nodeIdx, stack[j])
      invariant forall k': nat :: k' < k && IsRef(ckts, nodeIdx, k') ==>
        visited[nodes[k'].subgraphIdx] || nodes[k'].subgraphIdx in stack[|stack0|..]
      invariant WitnessesValid(ckts, w, bound) && w0.Keys <= w.Keys
    {
      if nodes[k].isLeaf {
        continue;
      }
      assert IsRef(ckts, nodeIdx, k);
      var graphIdx := nodes[k].subgraphIdx;
      if visited[graphIdx] {
        continue;
      }
      PathExtend(ckts, w[nodeIdx], k);
      w := w[graphIdx := w[nodeIdx] + [graphIdx]];
      ghost var pushed := stack[|stack0|..];
      stack := stack + [graphIdx];
      assert stack[|stack0|..] == pushed + [graphIdx];
    }
    if |stack| > |stack0| {
      assert Edge(ckts, nodeIdx, stack[|stack0|]);
      var k: nat :| IsRef(ckts, nodeIdx, k) && nodes[k].subgraphIdx == stack[|stack0|];
      assert !visited[nodes[k].subgraphIdx];
    }
  }

  /** A visited circuit on top of the stack has all its sub circuits visited already. */
  lemma {:induction false} TopVisitedPushesNothing(ckts: seq<CktGraph>, visited: seq<bool>, stack: seq<nat>, nodeIdx: nat)
    requires WellFormed(ckts) && |visited| == |ckts| && |stack| > 0 && nodeIdx == stack[|stack| - 1]
    requires forall j :: 0 <= j < |stack| ==> stack[j] < |ckts|
    requires StackCovered(ckts, visited, stack) && visited[nodeIdx]
    ensures forall k: nat :: IsRef(ckts, nodeIdx, k) ==> visited[ckts[nodeIdx].nodes[k].subgraphIdx]
  {
    var top := |stack| - 1;
    forall k: nat | IsRef(ckts, stack[top], k)
      ensures visited[ckts[stack[top]].nodes[k].subgraphIdx]
    {
      assert stack[top + 1..] == [];
    }
  }

  /**
   * Popping the top circuit, marking it visited and pushing its unvisited sub
   * circuits keeps every reference out of a visited circuit covered.
   */
  lemma {:induction false} StepKeepsClosed(ckts: seq<CktGraph>, visitedBefore: seq<bool>, stackBefore: seq<nat>, stack: seq<nat>)
    requires WellFormed(ckts) && |visitedBefore| == |ckts| && |stackBefore| > 0
    requires stackBefore[|stackBefore| - 1] < |ckts|
    requires ClosedBut(ckts, visitedBefore, stackBefore)
    requires |stack| >= |stackBefore| - 1 && stack[..|stackBefore| - 1] == stackBefore[..|stackBefore| - 1]
    requires var top := stackBefore[|stackBefore| - 1];
      forall k: nat :: IsRef(ckts, top, k) ==>
        visitedBefore[top := true][ckts[top].nodes[k].subgraphIdx] || ckts[top].nodes[k].subgraphIdx in stack[|stackBefore| - 1..]
    ensures ClosedBut(ckts, visitedBefore[stackBefore[|stackBefore| - 1] := true], stack)
  {
    var nodeIdx := stackBefore[|stackBefore| - 1];
    var visited := visitedBefore[nodeIdx := true];
    var base := |stackBefore| - 1;
    forall v: nat, k: nat | v < |ckts| && visited[v] && IsRef(ckts, v, k)
      ensures visited[ckts[v].nodes[k].subgraphIdx] || ckts[v].nodes[k].subgraphIdx in stack
    {
      var c := ckts[v].nodes[k].subgraphIdx;
      if v != nodeIdx && !visited[c] {
        assert c in stackBefore;
        var j :| 0 <= j < |stackBefore| && stackBefore[j] == c;
        assert j < base && stack[j] == c;
      } else if !visited[c] {
        var j :| 0 <= j < |stack[base..]| && stack[base..][j] == c;
        assert stack[base + j] == c;
      }
    }
  }

  /** The same step keeps the termination invariant `StackCovered`. */
  lemma {:induction false} StepKeepsCovered(ckts: seq<CktGraph>, visitedBefore: seq<bool>, stackBefore: seq<nat>, stack: seq<nat>)
    requires WellFormed(ckts) && |visitedBefore| == |ckts| && |stackBefore| > 0
    requires forall j :: 0 <= j < |stackBefore| ==> stackBefore[j] < |ckts|
    requires StackCovered(ckts, visitedBefore, stackBefore)
    requires |stack| >= |stackBefore| - 1 && stack[..|stackBefore| - 1] == stackBefore[..|stackBefore| - 1]
    requires var top := stackBefore[|stackBefore| - 1];
      forall k: nat :: IsRef(ckts, top, k) ==>
        visitedBefore[top := true][ckts[top].nodes[k].subgraphIdx] || ckts[top].nodes[k].subgraphIdx in stack[|stackBefore| - 1..]
    requires forall j :: |stackBefore| - 1 <= j < |stack| ==>
      stack[j] < |ckts| && !visitedBefore[stackBefore[|stackBefore| - 1] := true][stack[j]]
    ensures forall j :: 0 <= j < |stack| ==> stack[j] < |ckts|
    ensures StackCovered(ckts, visitedBefore[stackBefore[|stackBefore| - 1] := true], stack)
  {
    var nodeIdx := stackBefore[|stackBefore| - 1];
    var visited := visitedBefore[nodeIdx := true];
    var base := |stackBefore| - 1;
    forall j | 0 <= j < |stack|
      ensures stack[j] < |ckts|
    {
      if j < base {
        assert stack[j] == stackBefore[j];
      }
    }
    forall i, k: nat | 0 <= i < |stack| && visited[stack[i]] && IsRef(ckts, stack[i], k)
      ensures visited[ckts[stack[i]].nodes[k].subgraphIdx] || ckts[stack[i]].nodes[k].subgraphIdx in stack[i + 1..]
    {
      var c := ckts[stack[i]].nodes[k].subgraphIdx;
      assert i < base;
      assert stack[i] == stackBefore[i];
      if !visited[c] {
        if stack[i] == nodeIdx {
          var j :| 0 <= j < |stack[base..]| && stack[base..][j] == c;
          assert stack[i + 1..][base + j - i - 1] == c;
        } else {
          assert visitedBefore[stack[i]];
          assert c in stackBefore[i + 1..];
          var j :| 0 <= j < |stackBefore[i + 1..]| && stackBefore[i + 1..][j] == c;
          assert i + 1 + j < base;
          assert stack[i + 1..][j] == c;
        }
      }
    }
  }

  /**
   * One search of the outer loop (DesignDB.cpp lines 34-60), from the
   * unvisited circuit `start`: pop a circuit, mark it visited, push its
   * unvisited sub circuits, and record it on `innerStack`.
   */
  method Dfs(ckts: seq<CktGraph>, visited0: seq<bool>, start: nat, ghost w0: map<nat, seq<nat>>)
    returns (visited: seq<bool>, innerStack: seq<nat>, ghost w: map<nat, seq<nat>>)
    requires WellFormed(ckts) && |visited0| == |ckts| && start < |ckts| && !visited0[start]
    requires ClosedBut(ckts, visited0, [])
    requires WitnessesValid(ckts, w0, start) && forall v :: 0 <= v < |ckts| && visited0[v] ==> v in w0
    ensures |visited| == |ckts| && visited[start]
    ensures forall v :: 0 <= v < |ckts| && visited0[v] ==> visited[v]
    ensures ClosedBut(ckts, visited, [])
    ensures WitnessesValid(ckts, w, start + 1) && forall v :: 0 <= v < |ckts| && visited[v] ==> v in w
    ensures |innerStack| > 0 && innerStack[0] == start
  {
    visited := visited0;
    w := w0[start := [start]];
    var stack := [start];
    innerStack := [];
    while stack != []
      invariant |visited| == |ckts|
      invariant forall v :: 0 <= v < |ckts| && visited0[v] ==> visited[v]
      invariant forall j :: 0 <= j < |stack| ==> stack[j] < |ckts| && stack[j] in w
      invariant ClosedBut(ckts, visited, stack)
      invariant StackCovered(ckts, visited, stack)
      invariant WitnessesValid(ckts, w, start + 1) && forall v :: 0 <= v < |ckts| && visited[v] ==> v in w
      invariant innerStack == [] ==> stack == [start]
      invariant innerStack != [] ==> innerStack[0] == start && visited[start]
      decreases CountFalse(visited), |stack|
    {
      var nodeIdx;
      nodeIdx, visited, stack, w := DfsStep(ckts, visited, stack, w, start + 1);
      innerStack := innerStack + [nodeIdx];
    }
  }

  /**
   * One pass of the search loop: pop the top circuit, mark it visited and
   * push its unvisited sub circuits.  Either one more circuit is visited or
   * the stack shrinks.
   */
  method DfsStep(ckts: seq<CktGraph>, visited0: seq<bool>, stack0: seq<nat>, ghost w0: map<nat, seq<nat>>, ghost bound: nat)
    returns (nodeIdx: nat, visited: seq<bool>, stack: seq<nat>, ghost w: map<nat, seq<nat>>)
    requires WellFormed(ckts) && |visited0| == |ckts| && stack0 != []
    requires forall j :: 0 <= j < |stack0| ==> stack0[j] < |ckts| && stack0[j] in w0
    requires ClosedBut(ckts, visited0, stack0) && StackCovered(ckts, visited0, stack0)
    requires WitnessesValid(ckts, w0, bound)
    ensures nodeIdx == stack0[|stack0| - 1] && nodeIdx in w0 && visited == visited0[nodeIdx := true]
    ensures forall j :: 0 <= j < |stack| ==> stack[j] < |ckts| && stack[j] in w
    ensures ClosedBut(ckts, visited, stack) && StackCovered(ckts, visited, stack)
    ensures WitnessesValid(ckts, w, bound) && w0.Keys <= w.Keys
    ensures CountFalse(visited) < CountFalse(visited0) || (CountFalse(visited) == CountFalse(visited0) && |stack| < |stack0|)
  {
    nodeIdx := stack0[|stack0| - 1];
    stack := stack0[..|stack0| - 1];
    CountFalseMark(visited0, nodeIdx);
    visited := visited0[nodeIdx := true];
    if visited0[nodeIdx] {
      TopVisitedPushesNothing(ckts, visited0, stack0, nodeIdx);
    }
    stack, w := PushChildren(ckts, visited, nodeIdx, stack, w0, bound);
    StepKeepsClosed(ckts, visited0, stack0, stack);
    StepKeepsCovered(ckts, visited0, stack0, stack);
  }

  /** The design database: the circuits and the index of the root circuit. */
  class DesignDB {
    var ckts: seq<CktGraph>
    var rootCkt: nat

    /** A database over the given circuits, with the given root index until `findRootCkt` sets it. */
    constructor (ckts: seq<CktGraph>, root: nat)
      ensures this.ckts == ckts && rootCkt == root
    {
      this.ckts := ckts;
      rootCkt := root;
    }

    /** `numCkts()`. */
    function NumCkts(): nat
      reads this
    {
      |ckts|
    }

    /**
     * `findRootCkt()`: a depth-first search launched from every circuit not
     * visited yet, in index order.  Each search's circuits are moved from
     * `innerStack` to `sortStack`, so the top of `sortStack` is the start of
     * the last search, and that circuit becomes the root.
     */
    method FindRootCkt() returns (ok: bool)
      requires WellFormed(ckts)
      modifies this`rootCkt
      ensures ok
      ensures |ckts| == 0 ==> rootCkt == old(rootCkt)
      ensures |ckts| > 0 ==> IsLastStart(ckts, rootCkt)
    {
      if NumCkts() == 0 {
        return true;
      }
      var n := NumCkts();
      var sortStack: seq<nat> := [];
      var visited := seq(n, _ => false);
      ghost var w: map<nat, seq<nat>> := map[];
      ghost var lastStart: nat := 0;
      for startIdx := 0 to n
        invariant |visited| == n
        invariant forall t :: 0 <= t < startIdx ==> visited[t]
        invariant ClosedBut(ckts, visited, [])
        invariant WitnessesValid(ckts, w, startIdx) && forall v :: 0 <= v < n && visited[v] ==> v in w
        invariant startIdx > 0 ==> lastStart < startIdx && !ReachableFromBelow(ckts, lastStart)
        invariant startIdx > 0 ==> forall u: nat :: lastStart < u < startIdx ==> ReachableFromBelow(ckts, u)
        invariant startIdx > 0 ==> |sortStack| > 0 && sortStack[|sortStack| - 1] == lastStart
      {
        if visited[startIdx] {
          assert PathTo(ckts, w[startIdx], startIdx, startIdx);
          continue;
        }
        if ReachableFromBelow(ckts, startIdx) {
          var path: seq<nat> :| PathTo(ckts, path, startIdx, startIdx);
          ClosedPathVisited(ckts, visited, path);
          assert false;
        }
        var innerStack;
        visited, innerStack, w := Dfs(ckts, visited, startIdx, w);
        lastStart := startIdx;
        ghost var drained := innerStack;
        while innerStack != []
          invariant |innerStack| <= |drained| && innerStack == drained[..|innerStack|]
          invariant |innerStack| < |drained| ==> |sortStack| > 0 && sortStack[|sortStack| - 1] == drained[|innerStack|]
        {
          sortStack := sortStack + [innerStack[|innerStack| - 1]];
          innerStack := innerStack[..|innerStack| - 1];
        }
      }
      rootCkt := sortStack[|sortStack| - 1];
      return true;
    }
  }

  // ---------------------------------------------------------------------------
  // Properties of the root
  // ---------------------------------------------------------------------------

  /** The root described by `IsLastStart` is unique. */
  lemma {:induction false} RootUnique(ckts: seq<CktGraph>, r1: nat, r2: nat)
    requires IsLastStart(ckts, r1) && IsLastStart(ckts, r2)
    ensures r1 == r2
  {
  }

  /** With no non-leaf node anywhere, every search visits only its start, and the root is the last circuit. */
  lemma {:induction false} NoReferencesRootIsLast(ckts: seq<CktGraph>)
    requires |ckts| > 0
    requires forall p: nat, k: nat :: !IsRef(ckts, p, k)
    ensures IsLastStart(ckts, |ckts| - 1)
  {
    var r := |ckts| - 1;
    if ReachableFromBelow(ckts, r) {
      var path: seq<nat> :| PathTo(ckts, path, r, r);
      PathStep(ckts, path, 0);
      assert false;
    }
  }

  /** No cycle of references: a path of two or more circuits never returns to its start. */
  ghost predicate Acyclic(ckts: seq<CktGraph>)
  {
    forall path: seq<nat> :: IsPath(ckts, path) && |path| > 1 ==> path[0] != path[|path| - 1]
  }

  /** Below the root nothing is reached; so every later circuit is reached from the root or from below it. */
  lemma {:induction false} ReachedFromRootOrBelow(ckts: seq<CktGraph>, r: nat, s: nat) returns (path: seq<nat>)
    requires IsLastStart(ckts, r) && r < s < |ckts|
    ensures PathTo(ckts, path, r + 1, s)
    decreases s
  {
    assert ReachableFromBelow(ckts, s);
    var p: seq<nat> :| PathTo(ckts, p, s, s);
    if p[0] <= r {
      path := p;
    } else {
      var q := ReachedFromRootOrBelow(ckts, r, p[0]);
      PathConcat(ckts, q, p);
      path := q + p[1..];
    }
  }

  /**
   * When references form no cycle, no circuit instantiates the root: the root
   * is a true top of the hierarchy, whatever the circuits' indices.
   */
  lemma {:induction false} RootUnreferencedWhenAcyclic(ckts: seq<CktGraph>, r: nat)
    requires WellFormed(ckts) && Acyclic(ckts) && IsLastStart(ckts, r)
    ensures forall p: nat :: !Edge(ckts, p, r)
  {
    forall p: nat | Edge(ckts, p, r)
      ensures false
    {
      var k: nat :| IsRef(ckts, p, k) && ckts[p].nodes[k].subgraphIdx == r;
      var q: seq<nat>;
      if p <= r {
        q := [p];
      } else {
        q := ReachedFromRootOrBelow(ckts, r, p);
      }
      PathExtend(ckts, q, k);
      ghost var below := PathTo(ckts, q + [r], r, r);
      assert false;
    }
  }

  /** A leaf-only circuit for the examples below. */
  function LeafCkt(name: string): CktGraph
  {
    CktGraph(name, [], Layout([]))
  }

  /** A circuit with one instance of circuit `sub`. */
  function ParentCkt(name: string, sub: nat): CktGraph
  {
    CktGraph(name, [CktNode("x0", false, sub, Geometry.XY(0, 0), N, "")], Layout([]))
  }

  /** A referencing B makes A the root, whichever of the two comes first. */
  lemma {:induction false} ParentIsRootInEitherOrder()
    ensures IsLastStart([ParentCkt("A", 1), LeafCkt("B")], 0)
    ensures IsLastStart([LeafCkt("B"), ParentCkt("A", 0)], 1)
  {
    var first := [ParentCkt("A", 1), LeafCkt("B")];
    assert IsRef(first, 0, 0);
    assert PathTo(first, [0, 1], 1, 1);
    var second := [LeafCkt("B"), ParentCkt("A", 0)];
    if ReachableFromBelow(second, 1) {
      var path: seq<nat> :| PathTo(second, path, 1, 1);
      PathStep(second, path, 0);
      assert false;
    }
  }
}
