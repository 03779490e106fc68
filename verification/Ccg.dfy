/**
  The capability contention graph: construction from the registry, and the
  iterative depth-first cycle detector with its fixed-size explicit stack.
 */
module Ccg {
  import opened Words
  import opened Tasks
  import opened Graph

  /** `l` holds an exclusive peripheral that the other slot `h` requires. */
  ghost predicate Contends(reg: Registry, l: nat, h: nat) {
    && l < MAX_TASKS && h < MAX_TASKS && l != h && reg[l].Some? && reg[h].Some?
    && reg[l].value.exclusive * reg[h].value.required != {}
  }

  /** The contention graph of a registry, as a matrix. */
  ghost function GraphOf(reg: Registry): (g: Matrix)
    ensures forall l, h :: Edge(g, l, h) <==> Contends(reg, l, h)
  {
    seq(MAX_TASKS, l requires 0 <= l < MAX_TASKS => seq(MAX_TASKS, h requires 0 <= h < MAX_TASKS => Contends(reg, l, h)))
  }

  /** A cycle only passes through occupied slots. */
  lemma CycleIsOccupied(reg: Registry, u: nat)
    requires OnCycle(GraphOf(reg), u)
    ensures u < MAX_TASKS && reg[u].Some?
  {
    var v :| Edge(GraphOf(reg), u, v) && Reach(GraphOf(reg), v, u);
    assert Contends(reg, u, v);
  }

  /** What the detector decides: no slot below the number of tasks reaches a cycle. */
  ghost predicate NoneFound(reg: Registry) {
    forall s, u :: 0 <= s < |Occupied(reg, MAX_TASKS)| && Reach(GraphOf(reg), s, u) ==> !OnCycle(GraphOf(reg), u)
  }

  ghost predicate Acyclic(reg: Registry) {
    forall u :: !OnCycle(GraphOf(reg), u)
  }

  /** Slot `i` is occupied but not below the number of tasks. */
  predicate High(reg: Registry, i: nat) {
    |Occupied(reg, MAX_TASKS)| <= i < MAX_TASKS && reg[i].Some?
  }

  /** At most one task sits at or above the number of tasks. */
  ghost predicate FewHigh(reg: Registry) {
    forall i, j :: High(reg, i) && High(reg, j) ==> i == j
  }

  /** A missed cycle needs two slots the search does not start from. */
  lemma CycleIsEntered(reg: Registry, u: nat)
    requires FewHigh(reg) && OnCycle(GraphOf(reg), u)
    ensures exists s :: 0 <= s < |Occupied(reg, MAX_TASKS)| && Reach(GraphOf(reg), s, u)
  {
    var g := GraphOf(reg);
    CycleIsOccupied(reg, u);
    ReachSelf(g, u);
    var v :| Edge(g, u, v) && Reach(g, v, u);
    assert Contends(reg, u, v);
    assert !High(reg, u) || !High(reg, v);
  }

  lemma FewHighNoMiss(reg: Registry)
    requires FewHigh(reg)
    ensures NoneFound(reg) <==> Acyclic(reg)
  {
    forall u: nat | OnCycle(GraphOf(reg), u) ensures !NoneFound(reg) {
      CycleIsEntered(reg, u);
    }
  }

  /** A registry with tasks in the same slots. */
  ghost predicate SameSlots(reg: Registry, reg': Registry) {
    forall i :: 0 <= i < MAX_TASKS ==> (reg[i].Some? <==> reg'[i].Some?)
  }

  lemma {:induction false} SameOccupied(reg: Registry, reg': Registry, n: nat)
    requires n <= MAX_TASKS && SameSlots(reg, reg')
    ensures Occupied(reg, n) == Occupied(reg', n)
  {
    if n > 0 { SameOccupied(reg, reg', n - 1); }
  }

  /** The tasks in `a` and `b` hold what the other one needs; nobody else holds or needs anything. */
  function Entangled(reg: Registry, a: nat, b: nat): Registry {
    seq(MAX_TASKS, i requires 0 <= i < MAX_TASKS =>
      if reg[i].None? then None
      else if i == a then Some(reg[i].value.(exclusive := {0}, required := {1}))
      else if i == b then Some(reg[i].value.(exclusive := {1}, required := {0}))
      else Some(reg[i].value.(exclusive := {}, required := {})))
  }

  /** With two such tasks there is a registry whose only cycle is missed. */
  lemma HighPairMisses(reg: Registry, a: nat, b: nat)
    requires High(reg, a) && High(reg, b) && a != b
    ensures var bad := Entangled(reg, a, b);
            SameSlots(reg, bad) && NoneFound(bad) && !Acyclic(bad)
  {
    var bad := Entangled(reg, a, b);
    var g := GraphOf(bad);
    SameOccupied(reg, bad, MAX_TASKS);
    assert bad[a].value.exclusive * bad[b].value.required == {0} && bad[b].value.exclusive * bad[a].value.required == {1};
    assert Contends(bad, a, b) && Contends(bad, b, a);
    ReachSelf(g, b);
    ReachStep(g, b, b, a);
    assert OnCycle(g, a);
    forall s: nat, u: nat | 0 <= s < |Occupied(bad, MAX_TASKS)| && Reach(g, s, u) ensures !OnCycle(g, u) {
      assert s != a && s != b;
      HolderlessIsSink(bad, s, u);
    }
  }

  /** Who holds nothing reaches only itself, and is on no cycle. */
  lemma HolderlessIsSink(reg: Registry, s: nat, u: nat)
    requires s < MAX_TASKS && (reg[s].Some? ==> reg[s].value.exclusive == {}) && Reach(GraphOf(reg), s, u)
    ensures !OnCycle(GraphOf(reg), u)
  {
    var g := GraphOf(reg);
    assert forall v: nat :: Edge(g, s, v) == Contends(reg, s, v);
    ClosedContainsReach(g, {s}, s, u);
  }

  /** Which slots are occupied decides whether the detector can be relied on. */
  lemma CompleteIffFewHigh(reg: Registry)
    ensures FewHigh(reg) <==> forall reg': Registry :: SameSlots(reg, reg') ==> (NoneFound(reg') <==> Acyclic(reg'))
  {
    if FewHigh(reg) {
      forall reg': Registry | SameSlots(reg, reg') ensures NoneFound(reg') <==> Acyclic(reg') {
        SameOccupied(reg, reg', MAX_TASKS);
        assert forall i: nat :: High(reg', i) == High(reg, i);
        FewHighNoMiss(reg');
      }
    } else {
      var a, b :| High(reg, a) && High(reg, b) && a != b;
      HighPairMisses(reg, a, b);
    }
  }

  lemma {:induction false} CountFilled(reg: Registry, n: nat, m: nat)
    requires FilledFromZero(reg, n) && m <= MAX_TASKS
    ensures |Occupied(reg, m)| == Min(m, n)
  {
    if m > 0 { CountFilled(reg, n, m - 1); }
  }

  /** `register_task` fills from slot 0, so nothing is missed. */
  lemma FilledHasFewHigh(reg: Registry, n: nat)
    requires FilledFromZero(reg, n)
    ensures FewHigh(reg) && |Occupied(reg, MAX_TASKS)| == n
  {
    CountFilled(reg, n, MAX_TASKS);
  }

  /** Occupied slots, in increasing order. */
  function Occupied(reg: Registry, n: nat): (s: seq<nat>)
    requires n <= MAX_TASKS
    ensures |s| <= n
    ensures forall k :: 0 <= k < |s| ==> s[k] < n && reg[s[k]].Some?
    ensures forall i :: 0 <= i < n && reg[i].Some? ==> i in s
    ensures Distinct(s)
  {
    if n == 0 then []
    else if reg[n - 1].Some? then Occupied(reg, n - 1) + [n - 1]
    else Occupied(reg, n - 1)
  }

  // ---------------------------------------------------------------------
  // The state of the depth-first search
  // ---------------------------------------------------------------------

  type Frames = seq<(nat, nat)>

  /** Nodes on the explicit stack, bottom first; `size` is depth + 1. */
  function Nodes(dfs: Frames, size: nat): seq<nat>
    requires size <= |dfs|
  {
    seq(size, i requires 0 <= i < size => dfs[i].0)
  }

  /** `post` lists finished nodes so that every edge leads strictly backwards. */
  ghost predicate Topo(g: Matrix, post: seq<nat>) {
    && Distinct(post) && AllBelow(post, MAX_TASKS)
    && forall i, y :: 0 <= i < |post| && Edge(g, post[i], y) ==> y in post[..i]
  }

  /** The stack is a path of distinct nodes, none of them finished. */
  ghost predicate StackOk(g: Matrix, dfs: Frames, size: nat, post: seq<nat>) {
    && size <= |dfs| == MAX_TASKS
    && Distinct(post + Nodes(dfs, size))
    && (forall k :: 0 <= k < size ==> dfs[k].0 < MAX_TASKS && dfs[k].1 <= MAX_TASKS)
    && (forall k :: 0 < k < size ==> Edge(g, dfs[k - 1].0, dfs[k].0))
  }

  /** The successors of `u` below `hi` are finished, apart from `child`. */
  ghost predicate Passed(g: Matrix, u: nat, hi: nat, child: int, post: seq<nat>) {
    forall y :: 0 <= y < hi && Edge(g, u, y) ==> y in post || y == child
  }

  /** The node above position `k` on the stack, or -1. */
  function Child(dfs: Frames, size: nat, k: nat): int
    requires k < size <= |dfs|
  {
    if k + 1 < size then dfs[k + 1].0 else -1
  }

  /** Successors already passed over are finished, or next on the stack. */
  ghost predicate Explored(g: Matrix, dfs: Frames, size: nat, post: seq<nat>)
    requires size <= |dfs|
  {
    forall k :: 0 <= k < size ==> Passed(g, dfs[k].0, dfs[k].1, Child(dfs, size, k), post)
  }

  /** What the two boolean arrays mean. */
  ghost predicate Marks(visited: seq<bool>, rec: seq<bool>, nodes: seq<nat>, post: seq<nat>) {
    && |visited| == |rec| == MAX_TASKS
    && forall x :: 0 <= x < MAX_TASKS ==>
         (rec[x] <==> x in nodes) && (visited[x] <==> (x in nodes || x in post))
  }

  lemma MarksPush(visited: seq<bool>, rec: seq<bool>, nodes: seq<nat>, post: seq<nat>, y: nat)
    requires Marks(visited, rec, nodes, post) && y < MAX_TASKS
    ensures Marks(visited[y := true], rec[y := true], nodes + [y], post)
  {
  }

  lemma MarksPop(visited: seq<bool>, rec: seq<bool>, nodes: seq<nat>, post: seq<nat>, u: nat)
    requires Marks(visited, rec, nodes + [u], post) && u < MAX_TASKS && u !in nodes
    ensures Marks(visited, rec[u := false], nodes, post + [u])
  {
    assert forall x :: x in nodes + [u] <==> x in nodes || x == u;
    assert forall x :: x in post + [u] <==> x in post || x == u;
  }

  lemma NodesAdvance(dfs: Frames, size: nat, next: nat)
    requires 0 < size <= |dfs|
    ensures Nodes(dfs[size - 1 := (dfs[size - 1].0, next)], size) == Nodes(dfs, size)
  {
  }

  lemma NodesPop(dfs: Frames, size: nat)
    requires 0 < size <= |dfs|
    ensures Nodes(dfs, size) == Nodes(dfs, size - 1) + [dfs[size - 1].0]
  {
  }

  /** No successor of `u` lies in `lo .. hi`. */
  ghost predicate NoEdges(g: Matrix, u: nat, lo: nat, hi: nat) {
    forall x :: lo <= x < hi ==> !Edge(g, u, x)
  }

  /** An unvisited successor always fits on the stack. */
  lemma RoomToPush(g: Matrix, dfs: Frames, size: nat, post: seq<nat>, y: nat)
    requires StackOk(g, dfs, size, post) && Topo(g, post)
    requires y < MAX_TASKS && y !in post && y !in Nodes(dfs, size)
    ensures |post| + size < MAX_TASKS
  {
    var all := post + Nodes(dfs, size);
    forall i | 0 <= i < |all| ensures all[i] < MAX_TASKS {
      if i >= |post| { assert all[i] == dfs[i - |post|].0; }
    }
    assert y !in all;
    DistinctFits(all, MAX_TASKS);
  }

  lemma StartKeeps(g: Matrix, dfs: Frames, post: seq<nat>, start: nat)
    requires |dfs| == MAX_TASKS && start < MAX_TASKS && Distinct(post) && start !in post
    ensures var dfs' := dfs[0 := (start, 0)];
            StackOk(g, dfs', 1, post) && Explored(g, dfs', 1, post) && Nodes(dfs', 1) == [] + [start]
  {
    assert Nodes(dfs[0 := (start, 0)], 1) == [start];
  }

  /** Moving the cursor past the finished successor `y`. */
  lemma AdvanceKeeps(g: Matrix, dfs: Frames, size: nat, post: seq<nat>, y: nat)
    requires 0 < size && StackOk(g, dfs, size, post) && Explored(g, dfs, size, post)
    requires dfs[size - 1].1 <= y < MAX_TASKS && NoEdges(g, dfs[size - 1].0, dfs[size - 1].1, y)
    requires y in post
    ensures var dfs' := dfs[size - 1 := (dfs[size - 1].0, y + 1)];
            StackOk(g, dfs', size, post) && Explored(g, dfs', size, post)
  {
    var dfs' := dfs[size - 1 := (dfs[size - 1].0, y + 1)];
    NodesAdvance(dfs, size, y + 1);
    forall k | 0 <= k < size
      ensures Passed(g, dfs'[k].0, dfs'[k].1, Child(dfs', size, k), post)
    {
      assert Passed(g, dfs[k].0, dfs[k].1, Child(dfs, size, k), post);
    }
  }

  /** Pushing the successor the cursor has just passed. */
  lemma DescendKeeps(g: Matrix, dfs: Frames, size: nat, post: seq<nat>, y: nat)
    requires 0 < size < MAX_TASKS && StackOk(g, dfs, size, post) && Explored(g, dfs, size, post)
    requires dfs[size - 1].1 <= y < MAX_TASKS && NoEdges(g, dfs[size - 1].0, dfs[size - 1].1, y)
    requires Edge(g, dfs[size - 1].0, y) && y !in post && y !in Nodes(dfs, size)
    ensures var dfs' := dfs[size - 1 := (dfs[size - 1].0, y + 1)][size := (y, 0)];
            && StackOk(g, dfs', size + 1, post) && Explored(g, dfs', size + 1, post)
            && Nodes(dfs', size + 1) == Nodes(dfs, size) + [y]
  {
    var dfs' := dfs[size - 1 := (dfs[size - 1].0, y + 1)][size := (y, 0)];
    assert Nodes(dfs', size + 1) == Nodes(dfs, size) + [y];
    assert post + Nodes(dfs', size + 1) == (post + Nodes(dfs, size)) + [y];
    forall k | 0 <= k < size + 1
      ensures Passed(g, dfs'[k].0, dfs'[k].1, Child(dfs', size + 1, k), post)
    {
      if k < size { assert Passed(g, dfs[k].0, dfs[k].1, Child(dfs, size, k), post); }
    }
  }

  lemma PopMarks(g: Matrix, visited: seq<bool>, rec: seq<bool>, dfs: Frames, size: nat, post: seq<nat>)
    requires 0 < size && StackOk(g, dfs, size, post) && Marks(visited, rec, Nodes(dfs, size), post)
    ensures Marks(visited, rec[dfs[size - 1].0 := false], Nodes(dfs, size - 1), post + [dfs[size - 1].0])
  {
    var u := dfs[size - 1].0;
    NodesPop(dfs, size);
    var all := post + Nodes(dfs, size);
    assert all[|all| - 1] == u;
    var below := Nodes(dfs, size - 1);
    assert forall k :: 0 <= k < |below| ==> all[|post| + k] == below[k];
    MarksPop(visited, rec, below, post, u);
  }

  /** A node whose successors are all passed is finished next in topological order. */
  lemma FinishKeeps(g: Matrix, dfs: Frames, size: nat, post: seq<nat>)
    requires 0 < size && Topo(g, post) && StackOk(g, dfs, size, post) && Explored(g, dfs, size, post)
    requires NoEdges(g, dfs[size - 1].0, dfs[size - 1].1, MAX_TASKS)
    ensures var post' := post + [dfs[size - 1].0];
            Topo(g, post') && StackOk(g, dfs, size - 1, post') && Explored(g, dfs, size - 1, post')
  {
    var u := dfs[size - 1].0;
    var post' := post + [u];
    NodesPop(dfs, size);
    assert post + Nodes(dfs, size) == post + Nodes(dfs, size - 1) + [u];
    FinishDistinct(post, Nodes(dfs, size - 1), u);
    FinishTopo(g, post, u, dfs[size - 1].1);
    forall k | 0 <= k < size - 1
      ensures Passed(g, dfs[k].0, dfs[k].1, Child(dfs, size - 1, k), post')
    {
      assert Passed(g, dfs[k].0, dfs[k].1, Child(dfs, size, k), post);
    }
  }

  lemma FinishTopo(g: Matrix, post: seq<nat>, u: nat, hi: nat)
    requires Topo(g, post) && Passed(g, u, hi, -1, post) && NoEdges(g, u, hi, MAX_TASKS)
    ensures var post' := post + [u];
            forall i, y :: 0 <= i < |post'| && Edge(g, post'[i], y) ==> y in post'[..i]
  {
    var post' := post + [u];
    forall i, y | 0 <= i < |post'| && Edge(g, post'[i], y)
      ensures y in post'[..i]
    {
      if i < |post| {
        assert Edge(g, post[i], y) && post'[..i] == post[..i];
      } else {
        assert Edge(g, u, y) && post'[..i] == post;
      }
    }
  }

  lemma FinishDistinct(post: seq<nat>, nodes: seq<nat>, u: nat)
    requires Distinct(post + nodes + [u])
    ensures Distinct(post + [u] + nodes) && Distinct(post + [u])
  {
    var a, b := post + nodes + [u], post + [u] + nodes;
    forall i, j | 0 <= i < j < |b| ensures b[i] != b[j] {
      var i' := if i == |post| then |a| - 1 else if i > |post| then i - 1 else i;
      var j' := if j == |post| then |a| - 1 else if j > |post| then j - 1 else j;
      assert a[i'] == b[i] && a[j'] == b[j] && i' != j';
    }
    assert forall i :: 0 <= i < |post| ==> b[i] == post[i];
    assert b[|post|] == u;
  }

  /** The invariant of the search loop; `size` is depth + 1. */
  ghost predicate Searching(g: Matrix, visited: seq<bool>, rec: seq<bool>, dfs: Frames, size: nat, post: seq<nat>) {
    && 0 < size <= |dfs| == MAX_TASKS && |post| + size <= MAX_TASKS
    && Topo(g, post) && StackOk(g, dfs, size, post) && Explored(g, dfs, size, post)
    && Marks(visited, rec, Nodes(dfs, size), post)
  }

  lemma StartSearching(g: Matrix, visited: seq<bool>, rec: seq<bool>, dfs: Frames, post: seq<nat>, start: nat)
    requires |dfs| == MAX_TASKS && start < MAX_TASKS && Topo(g, post)
    requires Marks(visited, rec, [], post) && !visited[start]
    ensures Searching(g, visited[start := true], rec[start := true], dfs[0 := (start, 0)], 1, post)
  {
    StartKeeps(g, dfs, post, start);
    MarksPush(visited, rec, [], post, start);
    DistinctFits(post, MAX_TASKS);
  }

  lemma Descend(g: Matrix, visited: seq<bool>, rec: seq<bool>, dfs: Frames, size: nat, post: seq<nat>, y: nat)
    requires Searching(g, visited, rec, dfs, size, post) == true
    requires dfs[size - 1].1 <= y < MAX_TASKS && NoEdges(g, dfs[size - 1].0, dfs[size - 1].1, y)
    requires Edge(g, dfs[size - 1].0, y) && !visited[y]
    ensures |post| + size < MAX_TASKS
    ensures Searching(g, visited[y := true], rec[y := true],
                      dfs[size - 1 := (dfs[size - 1].0, y + 1)][size := (y, 0)], size + 1, post)
  {
    RoomToPush(g, dfs, size, post, y);
    DescendKeeps(g, dfs, size, post, y);
    MarksPush(visited, rec, Nodes(dfs, size), post, y);
  }

  lemma Advance(g: Matrix, visited: seq<bool>, rec: seq<bool>, dfs: Frames, size: nat, post: seq<nat>, y: nat)
    requires Searching(g, visited, rec, dfs, size, post) == true
    requires dfs[size - 1].1 <= y < MAX_TASKS && NoEdges(g, dfs[size - 1].0, dfs[size - 1].1, y)
    requires visited[y] && !rec[y]
    ensures Searching(g, visited, rec, dfs[size - 1 := (dfs[size - 1].0, y + 1)], size, post)
  {
    AdvanceKeeps(g, dfs, size, post, y);
    NodesAdvance(dfs, size, y + 1);
  }

  lemma Finish(g: Matrix, visited: seq<bool>, rec: seq<bool>, dfs: Frames, size: nat, post: seq<nat>)
    requires Searching(g, visited, rec, dfs, size, post) == true
    requires NoEdges(g, dfs[size - 1].0, dfs[size - 1].1, MAX_TASKS)
    ensures var post' := post + [dfs[size - 1].0];
            var rec' := rec[dfs[size - 1].0 := false];
            && (size > 1 ==> Searching(g, visited, rec', dfs, size - 1, post'))
            && (size == 1 ==> Marks(visited, rec', [], post') && Topo(g, post'))
  {
    FinishKeeps(g, dfs, size, post);
    PopMarks(g, visited, rec, dfs, size, post);
    assert size == 1 ==> Nodes(dfs, 0) == [];
  }

  /**
    After a turn of the loop: the search goes on, or the node it started from is
    finished, or `r` closes a cycle reachable from there.
   */
  ghost predicate Outcome(g: Matrix, visited: seq<bool>, rec: seq<bool>, dfs: Frames, depth: nat, post: seq<nat>, more: bool, r: Option<(nat, nat)>)
    requires depth < |dfs|
  {
    match r
    case Some((u, v)) => !more && Edge(g, u, v) && Reach(g, v, u) && Reach(g, dfs[0].0, u)
    case None =>
      if more then Searching(g, visited, rec, dfs, depth + 1, post)
      else Marks(visited, rec, [], post) && Topo(g, post) && dfs[0].0 in post
  }

  lemma SearchingFits(g: Matrix, visited: seq<bool>, rec: seq<bool>, dfs: Frames, size: nat, post: seq<nat>)
    requires 0 < size && Searching(g, visited, rec, dfs, size, post) == true
    ensures |post| + size <= MAX_TASKS && size <= |dfs| && dfs[size - 1].1 <= MAX_TASKS
  {
    DistinctFits(post + Nodes(dfs, size), MAX_TASKS);
  }

  lemma BackEdge(g: Matrix, visited: seq<bool>, rec: seq<bool>, dfs: Frames, size: nat, post: seq<nat>, y: nat)
    requires Searching(g, visited, rec, dfs, size, post) == true && y < MAX_TASKS && rec[y]
    ensures Reach(g, y, dfs[size - 1].0) && Reach(g, dfs[0].0, dfs[size - 1].0)
  {
    var k :| 0 <= k < size && Nodes(dfs, size)[k] == y;
    StackReaches(g, dfs, size, post, k, size - 1);
    StackReaches(g, dfs, size, post, 0, size - 1);
  }

  /** Everything between two stack positions is connected. */
  lemma {:induction false} StackReaches(g: Matrix, dfs: Frames, size: nat, post: seq<nat>, i: nat, j: nat)
    requires StackOk(g, dfs, size, post) && i <= j < size
    ensures Reach(g, dfs[i].0, dfs[j].0)
    decreases j
  {
    if i == j {
      ReachSelf(g, dfs[i].0);
    } else {
      StackReaches(g, dfs, size, post, i, j - 1);
      ReachStep(g, dfs[i].0, dfs[j - 1].0, dfs[j].0);
    }
  }

  /** Finished nodes reach only finished nodes, and none of them is on a cycle. */
  lemma TopoAcyclic(g: Matrix, post: seq<nat>, s: nat, u: nat)
    requires Topo(g, post) && s in post && Reach(g, s, u)
    ensures !OnCycle(g, u)
  {
    assert forall a, b :: a in Elems(post) && Edge(g, a, b) ==> b in Elems(post);
    ClosedContainsReach(g, Elems(post), s, u);
    var i :| 0 <= i < |post| && post[i] == u;
    if OnCycle(g, u) {
      var v :| Edge(g, u, v) && Reach(g, v, u);
      TopoPrefixClosed(g, post, i);
      ClosedContainsReach(g, Elems(post[..i]), v, u);
      assert false;
    }
  }

  lemma TopoPrefixClosed(g: Matrix, post: seq<nat>, i: nat)
    requires Topo(g, post) && i <= |post|
    ensures forall a, b :: a in Elems(post[..i]) && Edge(g, a, b) ==> b in Elems(post[..i])
  {
    forall a, b | a in Elems(post[..i]) && Edge(g, a, b) ensures b in Elems(post[..i]) {
      var k :| 0 <= k < i && post[..i][k] == a;
      assert b in post[..k];
      assert post[..k] <= post[..i];
    }
  }

  lemma SameMatrix(g: Matrix, reg: Registry)
    requires forall i, j :: 0 <= i < MAX_TASKS && 0 <= j < MAX_TASKS ==> (g[i][j] <==> Contends(reg, i, j))
    ensures g == GraphOf(reg)
  {
    forall i | 0 <= i < MAX_TASKS ensures g[i] == GraphOf(reg)[i] {
      assert forall j :: 0 <= j < MAX_TASKS ==> g[i][j] == GraphOf(reg)[i][j];
    }
  }

  class CapabilityContentionGraph {
    const edges: array2<bool>
    var taskCount: nat

    ghost predicate Valid()
      reads this, edges
    {
      edges.Length0 == MAX_TASKS && edges.Length1 == MAX_TASKS && taskCount <= MAX_TASKS
    }

    ghost function Matrix(): (g: Matrix)
      requires Valid()
      reads this, edges
      ensures forall i, j :: 0 <= i < MAX_TASKS && 0 <= j < MAX_TASKS ==> g[i][j] == edges[i, j]
    {
      seq(MAX_TASKS, i requires 0 <= i < MAX_TASKS reads this, edges requires Valid() =>
        seq(MAX_TASKS, j requires 0 <= j < MAX_TASKS reads this, edges requires Valid() => edges[i, j]))
    }

    /** There is an edge exactly where one occupied slot holds what another requires. */
    constructor Build(reg: Registry)
      ensures Valid() && fresh(edges) && taskCount == |Occupied(reg, MAX_TASKS)|
      ensures forall i, j :: 0 <= i < MAX_TASKS && 0 <= j < MAX_TASKS ==> (edges[i, j] <==> Contends(reg, i, j))
      ensures Matrix() == GraphOf(reg)
    {
      edges := new bool[MAX_TASKS, MAX_TASKS]((_, _) => false);
      taskCount := 0;
      new;
      var indices := OccupiedIndices(reg);
      taskCount := |indices|;
      for li := 0 to |indices|
        invariant Valid() && taskCount == |indices|
        invariant forall a, b :: 0 <= a < MAX_TASKS && 0 <= b < MAX_TASKS ==>
                    (edges[a, b] <==> a in indices[..li] && Contends(reg, a, b))
      {
        FillRow(reg, indices, li);
        assert indices[..li + 1] == indices[..li] + [indices[li]];
      }
      assert indices[..|indices|] == indices;
      SameMatrix(Matrix(), reg);
    }

    static method OccupiedIndices(reg: Registry) returns (s: seq<nat>)
      ensures s == Occupied(reg, MAX_TASKS)
    {
      var indices: seq<nat> := seq(MAX_TASKS, _ => 0);
      var count := 0;
      for i := 0 to MAX_TASKS
        invariant |indices| == MAX_TASKS && count == |Occupied(reg, i)|
        invariant indices[..count] == Occupied(reg, i)
      {
        if reg[i].Some? {
          indices := indices[count := i];
          count := count + 1;
        }
      }
      s := indices[..count];
    }

    /** The inner loop: all edges out of the `li`-th occupied slot. */
    method FillRow(reg: Registry, indices: seq<nat>, li: nat)
      requires Valid() && indices == Occupied(reg, MAX_TASKS) && li < |indices|
      requires forall b :: 0 <= b < MAX_TASKS ==> !edges[indices[li], b]
      modifies edges
      ensures forall a, b :: 0 <= a < MAX_TASKS && 0 <= b < MAX_TASKS ==>
                edges[a, b] == (if a == indices[li] then Contends(reg, a, b) else old(edges[a, b]))
    {
      var l := indices[li];
      for hi := 0 to |indices|
        invariant forall a, b :: 0 <= a < MAX_TASKS && 0 <= b < MAX_TASKS ==>
                    edges[a, b] == (if a == l then b in indices[..hi] && Contends(reg, a, b) else old(edges[a, b]))
      {
        var h := indices[hi];
        assert indices[..hi + 1] == indices[..hi] + [h];
        if li != hi && reg[l].value.exclusive * reg[h].value.required != {} {
          edges[l, h] := true;
        }
      }
      assert indices[..|indices|] == indices;
    }

    /**
      `None` exactly when no slot below `taskCount` reaches a cycle; otherwise an
      edge of such a cycle.
     */
    method DetectCycle(ghost g: Matrix) returns (r: Option<(nat, nat)>)
      requires Valid() && g == Matrix()
      ensures r.None? ==> forall s, u :: 0 <= s < taskCount && Reach(g, s, u) ==> !OnCycle(g, u)
      ensures r.Some? ==> var (u, v) := r.value;
                          && Edge(g, u, v) && Reach(g, v, u)
                          && exists s :: 0 <= s < taskCount && Reach(g, s, u)
    {
      var visited := seq(MAX_TASKS, _ => false);
      var rec := seq(MAX_TASKS, _ => false);
      ghost var post: seq<nat> := [];
      for start := 0 to taskCount
        invariant Marks(visited, rec, [], post) && Topo(g, post)
        invariant forall s :: 0 <= s < start ==> s in post
      {
        if !visited[start] {
          var found: Option<(nat, nat)>;
          found, visited, rec, post := SearchFrom(g, start, visited, rec, post);
          if found.Some? {
            return found;
          }
        }
      }
      forall s, u | 0 <= s < taskCount && Reach(g, s, u) ensures !OnCycle(g, u) {
        TopoAcyclic(g, post, s, u);
      }
      return None;
    }

    /** The body of the outer loop: search everything reachable from `start`. */
    method SearchFrom(ghost g: Matrix, start: nat, visited0: seq<bool>, rec0: seq<bool>, ghost post0: seq<nat>)
      returns (r: Option<(nat, nat)>, visited: seq<bool>, rec: seq<bool>, ghost post: seq<nat>)
      requires Valid() && g == Matrix() && start < taskCount
      requires Marks(visited0, rec0, [], post0) && Topo(g, post0) && !visited0[start]
      ensures r.None? ==> Marks(visited, rec, [], post) && Topo(g, post)
      ensures r.None? ==> start in post && forall x :: x in post0 ==> x in post
      ensures r.Some? ==> var (u, v) := r.value;
                          Edge(g, u, v) && Reach(g, v, u) && Reach(g, start, u)
    {
      visited, rec, post := visited0, rec0, post0;
      var dfs: Frames := seq(MAX_TASKS, _ => (0, 0));
      var depth := 0;
      StartSearching(g, visited, rec, dfs, post, start);
      dfs := dfs[0 := (start, 0)];
      visited := visited[start := true];
      rec := rec[start := true];
      r := None;
      var more := true;
      while more
        invariant 0 <= depth < |dfs| && dfs[0].0 == start
        invariant Outcome(g, visited, rec, dfs, depth, post, more, r) == true
        invariant forall x :: x in post0 ==> x in post
        decreases more, MAX_TASKS - |post| - depth, depth, MAX_TASKS - dfs[depth].1
      {
        SearchingFits(g, visited, rec, dfs, depth + 1, post);
        r, visited, rec, dfs, depth, post, more := SearchTurn(g, visited, rec, dfs, depth, post);
        assert more ==> Searching(g, visited, rec, dfs, depth + 1, post) == true;
      }
    }

    /** Take the next successor of the node on top of the stack, or finish the node. */
    method SearchTurn(ghost g: Matrix, visited0: seq<bool>, rec0: seq<bool>, dfs0: Frames, depth0: nat, ghost post0: seq<nat>)
      returns (r: Option<(nat, nat)>, visited: seq<bool>, rec: seq<bool>, dfs: Frames, depth: nat, ghost post: seq<nat>, more: bool)
      requires Valid() && g == Matrix() && Searching(g, visited0, rec0, dfs0, depth0 + 1, post0) == true
      ensures depth < |dfs| && dfs[0].0 == dfs0[0].0
      ensures Outcome(g, visited, rec, dfs, depth, post, more, r) == true
      ensures forall x :: x in post0 ==> x in post
      ensures more ==>
                || |post| + depth > |post0| + depth0
                || (|post| + depth == |post0| + depth0 && depth < depth0)
                || (post == post0 && depth == depth0 && dfs[depth].1 > dfs0[depth0].1)
    {
      visited, dfs, post := visited0, dfs0, post0;
      var (node, next) := dfs[depth0];
      var succ := NextSuccessor(g, node, next);
      if succ < MAX_TASKS {
        r, visited, rec, dfs, depth := Visit(g, visited, rec0, dfs, depth0, post, succ);
        more := r.None?;
      } else {
        r, more := None, depth0 > 0;
        rec, depth, post := Backtrack(g, visited, rec0, dfs, depth0, post);
        assert more ==> depth0 == depth + 1;
      }
    }

    /** The node on top of the stack has no successor left: finish it. */
    static method Backtrack(ghost g: Matrix, visited: seq<bool>, rec0: seq<bool>, dfs: Frames, depth0: nat, ghost post0: seq<nat>)
      returns (rec: seq<bool>, depth: nat, ghost post: seq<nat>)
      requires Searching(g, visited, rec0, dfs, depth0 + 1, post0)
      requires NoEdges(g, dfs[depth0].0, dfs[depth0].1, MAX_TASKS)
      ensures post == post0 + [dfs[depth0].0] && depth == if depth0 == 0 then 0 else depth0 - 1
      ensures depth0 > 0 ==> Searching(g, visited, rec, dfs, depth0, post) == true
      ensures depth0 == 0 ==> (Marks(visited, rec, [], post) && Topo(g, post)) == true
    {
      Finish(g, visited, rec0, dfs, depth0 + 1, post0);
      var node := dfs[depth0].0;
      rec := rec0[node := false];
      post := post0 + [node];
      depth := if depth0 == 0 then 0 else depth0 - 1;
    }

    /** One turn of the search loop: `succ` is the next successor of the node on top of the stack. */
    static method Visit(ghost g: Matrix, visited0: seq<bool>, rec0: seq<bool>, dfs0: Frames, depth0: nat, ghost post: seq<nat>, succ: nat)
      returns (r: Option<(nat, nat)>, visited: seq<bool>, rec: seq<bool>, dfs: Frames, depth: nat)
      requires Searching(g, visited0, rec0, dfs0, depth0 + 1, post)
      requires dfs0[depth0].1 <= succ < MAX_TASKS
      requires NoEdges(g, dfs0[depth0].0, dfs0[depth0].1, succ) && Edge(g, dfs0[depth0].0, succ)
      ensures depth < |dfs| && dfs[0].0 == dfs0[0].0
      ensures r.None? ==> Searching(g, visited, rec, dfs, depth + 1, post) == true
      ensures r.None? ==> depth > depth0 || (depth == depth0 && dfs[depth].1 > dfs0[depth0].1)
      ensures r.Some? ==> Edge(g, r.value.0, r.value.1)
      ensures r.Some? ==> Reach(g, r.value.1, r.value.0) && Reach(g, dfs0[0].0, r.value.0)
    {
      r, visited, rec, dfs, depth := None, visited0, rec0, dfs0, depth0;
      var node := dfs[depth].0;
      if rec[succ] {
        BackEdge(g, visited, rec, dfs, depth + 1, post, succ);
        r := Some((node, succ));
      } else if !visited[succ] {
        Descend(g, visited, rec, dfs, depth + 1, post, succ);
        dfs := dfs[depth := (node, succ + 1)];
        visited := visited[succ := true];
        rec := rec[succ := true];
        depth := depth + 1;
        dfs := dfs[depth := (succ, 0)];
      } else {
        Advance(g, visited, rec, dfs, depth + 1, post, succ);
        dfs := dfs[depth := (node, succ + 1)];
      }
    }

    /** The first successor of `node` from `next` on, or MAX_TASKS. */
    method NextSuccessor(ghost g: Matrix, node: nat, next: nat) returns (succ: nat)
      requires Valid() && g == Matrix() && node < MAX_TASKS && next <= MAX_TASKS
      ensures next <= succ <= MAX_TASKS && NoEdges(g, node, next, succ)
      ensures succ < MAX_TASKS ==> Edge(g, node, succ)
    {
      succ := next;
      while succ < MAX_TASKS && !edges[node, succ]
        invariant next <= succ <= MAX_TASKS
        invariant NoEdges(g, node, next, succ)
      {
        succ := succ + 1;
      }
    }
  }
  /**
    Build, then detect: exact on every registry with at most one task at or above
    the task count, so on every registry filled from slot 0.
   */
  method BuildAndDetect(reg: Registry) returns (r: Option<(nat, nat)>)
    ensures r.None? <==> NoneFound(reg)
    ensures FewHigh(reg) ==> (r.None? <==> Acyclic(reg))
    ensures forall n :: FilledFromZero(reg, n) ==> (r.None? <==> Acyclic(reg))
    ensures r.Some? ==> Edge(GraphOf(reg), r.value.0, r.value.1) && Reach(GraphOf(reg), r.value.1, r.value.0)
  {
    var ccg := new CapabilityContentionGraph.Build(reg);
    r := ccg.DetectCycle(GraphOf(reg));
    if r.Some? {
      assert OnCycle(GraphOf(reg), r.value.0);
    }
    forall n | FilledFromZero(reg, n) ensures FewHigh(reg) {
      FilledHasFewHigh(reg, n);
    }
    if FewHigh(reg) { FewHighNoMiss(reg); }
  }
}
