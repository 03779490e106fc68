/**
  MaxInheritedPriority: the breadth-first search, what it computes, and the
  ordering of effective priorities that the scheduler relies on.
 */
module Mip {
  import opened Words
  import opened Tasks
  import opened Graph
  import opened Ccg

  /** The edges the search follows: those into occupied slots. */
  ghost function Occupying(g: Matrix, reg: Registry): (o: Matrix)
    ensures forall a: nat, b: nat :: Edge(o, a, b) <==> Edge(g, a, b) && reg[b].Some?
  {
    seq(MAX_TASKS, i requires 0 <= i < MAX_TASKS => seq(MAX_TASKS, j requires 0 <= j < MAX_TASKS => g[i][j] && reg[j].Some?))
  }

  /** In a graph built from the registry these are all the edges. */
  lemma BuiltIsOccupying(reg: Registry)
    ensures Occupying(GraphOf(reg), reg) == GraphOf(reg)
  {
    SameMatrix(Occupying(GraphOf(reg), reg), reg);
  }

  /** `m` is the greatest base priority among the slots reachable from `src`, itself included. */
  ghost predicate IsMip(g: Matrix, reg: Registry, src: nat, m: int) {
    && (exists v: nat :: v < MAX_TASKS && Reach(g, src, v) && reg[v].Some? && reg[v].value.priority == m)
    && (forall v: nat :: v < MAX_TASKS && Reach(g, src, v) && reg[v].Some? ==> reg[v].value.priority <= m)
  }

  // ---------------------------------------------------------------------
  // The breadth-first search
  // ---------------------------------------------------------------------

  /** The queue holds distinct occupied slots reachable from `src`; `visited` marks exactly those. */
  ghost predicate Frontier(g: Matrix, reg: Registry, src: nat, queue: seq<nat>, visited: seq<bool>) {
    && |visited| == MAX_TASKS
    && Distinct(queue) && AllBelow(queue, MAX_TASKS) && src in queue
    && (forall x :: x in queue ==> reg[x].Some? && Reach(Occupying(g, reg), src, x))
    && (forall x :: 0 <= x < MAX_TASKS ==> (visited[x] <==> x in queue))
  }

  /** Successors of `u` below `hi` are in the queue. */
  ghost predicate Seen(g: Matrix, reg: Registry, u: nat, hi: nat, queue: seq<nat>) {
    forall y :: 0 <= y < hi && Edge(Occupying(g, reg), u, y) ==> y in queue
  }

  /** `m` is the greatest priority among the source and the slots already taken off the queue. */
  ghost predicate BestSoFar(reg: Registry, src: nat, taken: seq<nat>, m: int)
    requires src < MAX_TASKS && reg[src].Some?
  {
    && (m == reg[src].value.priority || exists x :: x in taken && x < MAX_TASKS && reg[x].Some? && reg[x].value.priority == m)
    && reg[src].value.priority <= m
    && (forall x :: x in taken && x < MAX_TASKS && reg[x].Some? ==> reg[x].value.priority <= m)
  }

  lemma EnqueueKeeps(g: Matrix, reg: Registry, src: nat, queue: seq<nat>, visited: seq<bool>, u: nat, y: nat)
    requires Frontier(g, reg, src, queue, visited) && u in queue
    requires Edge(Occupying(g, reg), u, y) && !visited[y]
    ensures Frontier(g, reg, src, queue + [y], visited[y := true]) && |queue| < MAX_TASKS
  {
    ReachStep(Occupying(g, reg), src, u, y);
    DistinctFits(queue, MAX_TASKS);
  }

  /** When every queued slot has been expanded, the queue is everything reachable. */
  lemma DrainedIsMip(g: Matrix, reg: Registry, src: nat, queue: seq<nat>, visited: seq<bool>, m: int)
    requires src < MAX_TASKS && reg[src].Some?
    requires Frontier(g, reg, src, queue, visited) && BestSoFar(reg, src, queue, m)
    requires forall k :: 0 <= k < |queue| ==> Seen(g, reg, queue[k], MAX_TASKS, queue)
    ensures IsMip(Occupying(g, reg), reg, src, m)
  {
    var o := Occupying(g, reg);
    var s := Elems(queue);
    forall a, b | a in s && Edge(o, a, b) ensures b in s {
      var k :| 0 <= k < |queue| && queue[k] == a;
      assert Seen(g, reg, queue[k], MAX_TASKS, queue);
    }
    forall v: nat | v < MAX_TASKS && Reach(o, src, v) && reg[v].Some?
      ensures reg[v].value.priority <= m
    {
      ClosedContainsReach(o, s, src, v);
    }
  }

  /** Expand `cur`: queue its unvisited occupied successors.  `q` is the used part of the queue. */
  method Expand(ghost g: Matrix, ccg: CapabilityContentionGraph, reg: Registry, ghost src: nat,
                queue0: seq<nat>, visited0: seq<bool>, tail0: nat, ghost q0: seq<nat>, cur: nat)
    returns (queue: seq<nat>, visited: seq<bool>, tail: nat, ghost q: seq<nat>)
    requires ccg.Valid() && g == ccg.Matrix() && cur < MAX_TASKS && cur in q0
    requires |queue0| == MAX_TASKS && tail0 <= MAX_TASKS && q0 == queue0[..tail0]
    requires Frontier(g, reg, src, q0, visited0)
    ensures |queue| == MAX_TASKS && tail <= MAX_TASKS && q == queue[..tail] && q0 <= q
    ensures Frontier(g, reg, src, q, visited) == true
    ensures Seen(g, reg, cur, MAX_TASKS, q)
  {
    queue, visited, tail, q := queue0, visited0, tail0, q0;
    for succ := 0 to MAX_TASKS
      invariant |queue| == MAX_TASKS && tail <= MAX_TASKS && q == queue[..tail] && q0 <= q
      invariant Frontier(g, reg, src, q, visited) == true
      invariant Seen(g, reg, cur, succ, q)
    {
      if ccg.edges[cur, succ] && !visited[succ] && reg[succ].Some? {
        EnqueueKeeps(g, reg, src, q, visited, cur, succ);
        visited := visited[succ := true];
        queue := queue[tail := succ];
        tail := tail + 1;
        q := q + [succ];
      }
    }
  }

  lemma SeenGrows(g: Matrix, reg: Registry, q: seq<nat>, q': seq<nat>, n: nat)
    requires n <= |q| && q <= q'
    requires forall k :: 0 <= k < n ==> Seen(g, reg, q[k], MAX_TASKS, q)
    ensures forall k :: 0 <= k < n ==> Seen(g, reg, q'[k], MAX_TASKS, q')
  {
    forall k | 0 <= k < n ensures Seen(g, reg, q'[k], MAX_TASKS, q') {
      assert q'[k] == q[k];
    }
  }

  lemma BestGrows(reg: Registry, src: nat, taken: seq<nat>, m: int, x: nat)
    requires src < MAX_TASKS && reg[src].Some? && x < MAX_TASKS && reg[x].Some?
    requires BestSoFar(reg, src, taken, m)
    ensures BestSoFar(reg, src, taken + [x], Max(m, reg[x].value.priority))
  {
    assert x in taken + [x];
  }

  /** The loop invariant: `head` slots of the queue `q` have been expanded. */
  ghost predicate Searched(g: Matrix, reg: Registry, src: nat, q: seq<nat>, visited: seq<bool>, head: nat, m: int) {
    && src < MAX_TASKS && reg[src].Some? && head <= |q| <= MAX_TASKS
    && Frontier(g, reg, src, q, visited)
    && BestSoFar(reg, src, q[..head], m)
    && forall k :: 0 <= k < head ==> Seen(g, reg, q[k], MAX_TASKS, q)
  }

  lemma StartSearched(g: Matrix, reg: Registry, src: nat, visited: seq<bool>)
    requires src < MAX_TASKS && reg[src].Some?
    requires |visited| == MAX_TASKS && forall x :: 0 <= x < MAX_TASKS ==> (visited[x] <==> x == src)
    ensures Searched(g, reg, src, [src], visited, 0, reg[src].value.priority)
  {
    ReachSelf(Occupying(g, reg), src);
  }

  lemma TurnKeeps(g: Matrix, reg: Registry, src: nat, q0: seq<nat>, visited0: seq<bool>, head: nat, m: int,
                  q: seq<nat>, visited: seq<bool>)
    requires Searched(g, reg, src, q0, visited0, head, m) && head < |q0| <= |q| <= MAX_TASKS && q0 <= q
    requires Frontier(g, reg, src, q, visited) && Seen(g, reg, q0[head], MAX_TASKS, q)
    ensures Searched(g, reg, src, q, visited, head + 1, Max(m, reg[q0[head]].value.priority))
  {
    BestGrows(reg, src, q0[..head], m, q0[head]);
    assert q[..head + 1] == q0[..head] + [q0[head]];
    SeenGrows(g, reg, q0, q, head);
  }

  /** The search from one source. */
  method Bfs(ghost g: Matrix, ccg: CapabilityContentionGraph, reg: Registry, src: nat) returns (mip: u8)
    requires ccg.Valid() && g == ccg.Matrix() && src < MAX_TASKS && reg[src].Some?
    ensures IsMip(Occupying(g, reg), reg, src, mip)
  {
    mip := reg[src].value.priority;
    var queue: seq<nat> := seq(MAX_TASKS, _ => 0);
    var visited := seq(MAX_TASKS, _ => false);
    var head, tail := 0, 0;
    queue := queue[tail := src];
    tail := tail + 1;
    visited := visited[src := true];
    ghost var q: seq<nat> := [src];
    StartSearched(g, reg, src, visited);
    while head < tail
      invariant |queue| == MAX_TASKS && 0 <= head <= tail <= MAX_TASKS && q == queue[..tail]
      invariant Searched(g, reg, src, q, visited, head, mip) == true
      decreases MAX_TASKS - head
    {
      var cur := queue[head];
      ghost var q0, visited0, mip0 := q, visited, mip;
      assert cur == q0[head] && cur in q0;
      if reg[cur].Some? {
        mip := Max(mip, reg[cur].value.priority);
      }
      queue, visited, tail, q := Expand(g, ccg, reg, src, queue, visited, tail, q, cur);
      TurnKeeps(g, reg, src, q0, visited0, head, mip0, q, visited);
      head := head + 1;
    }
    assert q[..head] == q;
    DrainedIsMip(g, reg, src, q, visited, mip);
  }

  /** Every occupied slot gets the greatest base priority it reaches; empty slots get 0. */
  method ComputeMipValues(ghost g: Matrix, ccg: CapabilityContentionGraph, reg: Registry) returns (mip: seq<u8>)
    requires ccg.Valid() && g == ccg.Matrix()
    ensures |mip| == MAX_TASKS
    ensures forall src :: 0 <= src < MAX_TASKS && reg[src].Some? ==> IsMip(Occupying(g, reg), reg, src, mip[src])
    ensures forall src :: 0 <= src < MAX_TASKS && reg[src].None? ==> mip[src] == 0
  {
    mip := seq(MAX_TASKS, _ => 0);
    for src := 0 to MAX_TASKS
      invariant |mip| == MAX_TASKS
      invariant forall i :: 0 <= i < src && reg[i].Some? ==> IsMip(Occupying(g, reg), reg, i, mip[i])
      invariant forall i :: 0 <= i < MAX_TASKS && (i >= src || reg[i].None?) ==> mip[i] == 0
    {
      if reg[src].Some? {
        var m := Bfs(g, ccg, reg, src);
        mip := mip[src := m];
      }
    }
  }

  // ---------------------------------------------------------------------
  // Effective priorities along contention
  // ---------------------------------------------------------------------

  lemma MipMonotone(g: Matrix, reg: Registry, l: nat, h: nat, ml: int, mh: int)
    requires Reach(g, l, h) && IsMip(g, reg, l, ml) && IsMip(g, reg, h, mh)
    ensures ml >= mh
  {
    var v: nat :| v < MAX_TASKS && Reach(g, h, v) && reg[v].Some? && reg[v].value.priority == mh;
    ReachTransitive(g, l, h, v);
  }

  /** The table `init` copies: exact where the task holds anything, zero allowed where it holds nothing. */
  ghost predicate MipTable(reg: Registry) {
    forall i :: 0 <= i < MAX_TASKS && reg[i].Some? ==>
      || IsMip(GraphOf(reg), reg, i, reg[i].value.maxInheritedPriority)
      || (reg[i].value.exclusive == {} && reg[i].value.maxInheritedPriority == 0)
  }

  /** Either way, the effective priority is the exact MaxInheritedPriority. */
  lemma EffectiveIsMip(reg: Registry, i: nat)
    requires MipTable(reg) && i < MAX_TASKS && reg[i].Some?
    ensures IsMip(GraphOf(reg), reg, i, EffectivePriority(reg[i].value))
  {
    var g := GraphOf(reg);
    ReachSelf(g, i);
    if reg[i].value.exclusive == {} {
      assert forall a, b :: a in {i} && Edge(g, a, b) ==> Contends(reg, a, b);
      forall v: nat | v < MAX_TASKS && Reach(g, i, v) && reg[v].Some? ensures v == i {
        ClosedContainsReach(g, {i}, i, v);
      }
    }
  }

  /** Whoever can hold up `h`, directly or through others, ranks at least as high as `h`. */
  lemma EffectiveMonotone(reg: Registry, l: nat, h: nat)
    requires MipTable(reg) && l < MAX_TASKS && h < MAX_TASKS && reg[l].Some? && reg[h].Some?
    requires Reach(GraphOf(reg), l, h)
    ensures EffectivePriority(reg[l].value) >= EffectivePriority(reg[h].value)
  {
    EffectiveIsMip(reg, l);
    EffectiveIsMip(reg, h);
    MipMonotone(GraphOf(reg), reg, l, h, EffectivePriority(reg[l].value), EffectivePriority(reg[h].value));
  }

  // ---------------------------------------------------------------------
  // Storing the table
  // ---------------------------------------------------------------------

  /** The registry with the table's values in its first `n` slots. */
  ghost function Stored(reg: Registry, table: seq<u8>, n: nat): (r: Registry)
    requires |table| == MAX_TASKS
  {
    seq(MAX_TASKS, i requires 0 <= i < MAX_TASKS =>
      if i < n && reg[i].Some? then Some(reg[i].value.(maxInheritedPriority := table[i])) else reg[i])
  }

  /** `write_precomputed_mip` */
  method WritePrecomputedMip(reg: Registry, table: seq<u8>, count: nat) returns (r: Registry)
    requires |table| == MAX_TASKS && count <= MAX_TASKS
    ensures r == Stored(reg, table, count)
  {
    r := reg;
    for i := 0 to count
      invariant r == Stored(reg, table, i)
    {
      if r[i].Some? {
        r := r[i := Some(r[i].value.(maxInheritedPriority := table[i]))];
      }
    }
  }

  /** Contention does not depend on the stored values. */
  lemma StoredGraph(reg: Registry, table: seq<u8>, n: nat)
    requires |table| == MAX_TASKS
    ensures GraphOf(Stored(reg, table, n)) == GraphOf(reg)
  {
    assert forall l, h :: Contends(Stored(reg, table, n), l, h) == Contends(reg, l, h);
    SameMatrix(GraphOf(Stored(reg, table, n)), reg);
  }

  lemma StoredMip(reg: Registry, table: seq<u8>, n: nat, g: Matrix, i: nat, m: int)
    requires |table| == MAX_TASKS && IsMip(g, reg, i, m)
    ensures IsMip(g, Stored(reg, table, n), i, m)
  {
    var v: nat :| v < MAX_TASKS && Reach(g, i, v) && reg[v].Some? && reg[v].value.priority == m;
    assert Stored(reg, table, n)[v].Some? && Stored(reg, table, n)[v].value.priority == m;
  }

  ghost predicate ExactFor(reg: Registry, table: seq<u8>) {
    |table| == MAX_TASKS && forall i :: 0 <= i < MAX_TASKS && reg[i].Some? ==> IsMip(GraphOf(reg), reg, i, table[i])
  }

  lemma StoredIsTable(reg: Registry, table: seq<u8>, count: nat)
    requires FilledFromZero(reg, count) && ExactFor(reg, table)
    ensures MipTable(Stored(reg, table, count))
  {
    var r := Stored(reg, table, count);
    StoredGraph(reg, table, count);
    forall i | 0 <= i < MAX_TASKS && r[i].Some? ensures IsMip(GraphOf(r), r, i, r[i].value.maxInheritedPriority) {
      StoredMip(reg, table, count, GraphOf(reg), i, table[i]);
    }
  }

  /** Building the graph and searching it from every slot. */
  method ComputeTable(reg: Registry) returns (table: seq<u8>)
    ensures ExactFor(reg, table)
  {
    var ccg := new CapabilityContentionGraph.Build(reg);
    table := ComputeMipValues(GraphOf(reg), ccg, reg);
    BuiltIsOccupying(reg);
  }

  /** Storing what the search computes gives a registry the scheduler can rely on. */
  method ComputeAndStore(reg: Registry, count: nat) returns (r: Registry)
    requires FilledFromZero(reg, count)
    ensures MipTable(r) && GraphOf(r) == GraphOf(reg)
  {
    var table := ComputeTable(reg);
    r := WritePrecomputedMip(reg, table, count);
    StoredIsTable(reg, table, count);
    StoredGraph(reg, table, count);
  }
}
