/** Reachability in a directed graph over the registry slots. */
module Graph {
  import opened Words

  ghost predicate Square(g: seq<seq<bool>>) {
    |g| == MAX_TASKS && forall i :: 0 <= i < MAX_TASKS ==> |g[i]| == MAX_TASKS
  }

  type Matrix = g: seq<seq<bool>> | Square(g)
    ghost witness seq(MAX_TASKS, _ => seq(MAX_TASKS, _ => false))

  ghost predicate Edge(g: Matrix, u: nat, v: nat) {
    u < MAX_TASKS && v < MAX_TASKS && g[u][v]
  }

  ghost predicate IsPath(g: Matrix, p: seq<nat>) {
    && p != [] && p[0] < MAX_TASKS
    && forall i :: 0 < i < |p| ==> Edge(g, p[i - 1], p[i])
  }

  /** `v` can be reached from `u` by zero or more edges. */
  ghost predicate Reach(g: Matrix, u: nat, v: nat) {
    exists p :: IsPath(g, p) && p[0] == u && p[|p| - 1] == v
  }

  ghost predicate OnCycle(g: Matrix, u: nat) {
    exists v :: Edge(g, u, v) && Reach(g, v, u)
  }

  lemma ReachSelf(g: Matrix, u: nat)
    requires u < MAX_TASKS
    ensures Reach(g, u, u)
  {
    assert IsPath(g, [u]);
  }

  lemma ReachStep(g: Matrix, u: nat, v: nat, w: nat)
    requires Reach(g, u, v) && Edge(g, v, w)
    ensures Reach(g, u, w)
  {
    var p :| IsPath(g, p) && p[0] == u && p[|p| - 1] == v;
    assert IsPath(g, p + [w]);
  }

  lemma ReachTransitive(g: Matrix, u: nat, v: nat, w: nat)
    requires Reach(g, u, v) && Reach(g, v, w)
    ensures Reach(g, u, w)
  {
    var p :| IsPath(g, p) && p[0] == u && p[|p| - 1] == v;
    var q :| IsPath(g, q) && q[0] == v && q[|q| - 1] == w;
    var r := p + q[1..];
    forall i | 0 < i < |r| ensures Edge(g, r[i - 1], r[i]) {
      if i > |p| { assert Edge(g, q[i - |p|], q[i - |p| + 1]); }
      else if i == |p| { assert r[i] == q[1] && r[i - 1] == q[0]; }
    }
    assert IsPath(g, r);
  }

  /** A set that edges never leave contains everything reachable from its members. */
  lemma ClosedContainsReach(g: Matrix, s: set<nat>, u: nat, v: nat)
    requires u in s && Reach(g, u, v)
    requires forall a, b :: a in s && Edge(g, a, b) ==> b in s
    ensures v in s
  {
    var p :| IsPath(g, p) && p[0] == u && p[|p| - 1] == v;
    PathStaysIn(g, s, p, |p| - 1);
  }

  lemma {:induction false} PathStaysIn(g: Matrix, s: set<nat>, p: seq<nat>, i: nat)
    requires IsPath(g, p) && p[0] in s && i < |p|
    requires forall a, b :: a in s && Edge(g, a, b) ==> b in s
    ensures p[i] in s
    decreases i
  {
    if i > 0 {
      PathStaysIn(g, s, p, i - 1);
      assert Edge(g, p[i - 1], p[i]);
    }
  }

  ghost predicate Distinct(s: seq<nat>) {
    forall i, j :: 0 <= i < j < |s| ==> s[i] != s[j]
  }

  ghost predicate AllBelow(s: seq<nat>, n: nat) {
    forall i :: 0 <= i < |s| ==> s[i] < n
  }

  function Elems(s: seq<nat>): set<nat> {
    set x | x in s
  }

  lemma {:induction false} DistinctSize(s: seq<nat>)
    requires Distinct(s)
    ensures |Elems(s)| == |s|
  {
    if s != [] {
      var t := s[..|s| - 1];
      DistinctSize(t);
      assert s == t + [s[|s| - 1]];
      assert Elems(s) == Elems(t) + {s[|s| - 1]};
    }
  }

  /** The slots below `n`. */
  function Below(n: nat): (s: set<nat>)
    ensures |s| == n && forall x :: x in s <==> 0 <= x < n
  {
    if n == 0 then {} else Below(n - 1) + {n - 1}
  }

  /** Distinct slots are at most `n` many; with a slot missing, fewer. */
  lemma DistinctFits(s: seq<nat>, n: nat)
    requires Distinct(s) && AllBelow(s, n)
    ensures |s| <= n
    ensures forall x :: 0 <= x < n && x !in s ==> |s| < n
  {
    DistinctSize(s);
    SubsetSize(Elems(s), Below(n));
    forall x | 0 <= x < n && x !in s ensures |s| < n {
      SubsetSize(Elems(s), Below(n) - {x});
    }
  }

  lemma {:induction false} SubsetSize(a: set<nat>, b: set<nat>)
    requires a <= b
    ensures |a| <= |b| && (forall x :: x in b && x !in a ==> |a| < |b|)
  {
    if a != {} {
      var x :| x in a;
      SubsetSize(a - {x}, b - {x});
      assert forall y :: y in b && y !in a ==> y in b - {x} && y !in a - {x};
    } else {
      assert forall x :: x in b ==> b != {};
    }
  }
}
