/**
  The reference for the ready queue: a list in insertion order from which the
  first entry of the highest priority is taken.  No heap, no stamps.
 */
module StableList {
  import opened Words
  import opened ReadyQueue

  /** Insertion order: later entries were born later, before `n`. */
  ghost predicate ByBirth(l: seq<Item>, n: nat) {
    && (forall i, j :: 0 <= i < j < |l| ==> l[i].birth < l[j].birth)
    && (forall i :: 0 <= i < |l| ==> l[i].birth < n)
  }

  /** Position of the first entry of highest priority. */
  function FirstBest(l: seq<Item>): (k: nat)
    requires l != []
    ensures k < |l|
    ensures forall i :: 0 <= i < |l| ==> l[i].prio <= l[k].prio
    ensures forall i :: 0 <= i < k ==> l[i].prio < l[k].prio
  {
    if |l| == 1 then 0
    else
      var k := FirstBest(l[1..]);
      if l[0].prio >= l[1..][k].prio then 0 else k + 1
  }

  function Without(l: seq<Item>, k: nat): seq<Item>
    requires k < |l|
  {
    l[..k] + l[k + 1..]
  }

  lemma WithoutMultiset(l: seq<Item>, k: nat)
    requires k < |l|
    ensures multiset(Without(l, k)) == multiset(l) - multiset{l[k]}
  {
    assert l == l[..k] + [l[k]] + l[k + 1..];
    assert multiset(l) == multiset(l[..k]) + multiset{l[k]} + multiset(l[k + 1..]);
  }

  lemma WithoutKeeps(l: seq<Item>, k: nat, n: nat)
    requires k < |l| && ByBirth(l, n) && OneEach(l)
    ensures ByBirth(Without(l, k), n) && OneEach(Without(l, k))
  {
    var t := Without(l, k);
    assert forall i :: 0 <= i < |t| ==> t[i] == l[if i < k then i else i + 1];
  }

  /** The greatest item by priority and age is the first best of the list. */
  lemma GreatestIsFirstBest(l: seq<Item>, n: nat, top: Item)
    requires ByBirth(l, n) && top in l
    requires forall x :: x in l ==> Ge(true, top, x)
    ensures l[FirstBest(l)] == top
  {
    assert l[FirstBest(l)] in l;
  }

  ghost predicate OneEach(l: seq<Item>) {
    forall i, j :: 0 <= i < j < |l| ==> l[i].id != l[j].id
  }

  // ---------------------------------------------------------------------
  // Whole histories of operations
  // ---------------------------------------------------------------------

  datatype Op = Insert(id: u8, prio: u8) | Pop | Remove(id: u8)

  /** Contents, and the number of insertions made. */
  datatype Store = Store(items: seq<Item>, births: nat)

  /** One operation on the list, with what it returns. */
  function ListStep(l: Store, op: Op): (Store, Option<u8>) {
    match op
    case Insert(id, prio) => (Store(l.items + [Item(id, prio, l.births)], l.births + 1), None)
    case Pop =>
      if l.items == [] then (l, None)
      else
        var k := FirstBest(l.items);
        (Store(Without(l.items, k), l.births), Some(l.items[k].id))
    case Remove(id) =>
      var k := IndexOf(l.items, id);
      if k == |l.items| then (l, None) else (Store(Without(l.items, k), l.births), Some(id))
  }

  /** One operation on the heap, with what it returns. */
  function HeapStep(h: Store, op: Op): (Store, Option<u8>) {
    match op
    case Insert(id, prio) => (Store(Inserted(h.items, Item(id, prio, h.births)), h.births + 1), None)
    case Pop =>
      if h.items == [] then (h, None) else (Store(Popped(h.items), h.births), Some(h.items[0].id))
    case Remove(id) =>
      var k := IndexOf(h.items, id);
      if k == |h.items| then (h, None) else (Store(Removed(h.items, k), h.births), Some(id))
  }

  /** The operation keeps each id in the queue at most once, and the window. */
  ghost predicate Allowed(l: Store, op: Op) {
    op.Insert? ==>
      && IndexOf(l.items, op.id) == |l.items|
      && Window(multiset(ListStep(l, op).0.items))
  }

  /** Heap and list hold the same items, each in its own order. */
  ghost predicate Same(h: Store, l: Store) {
    && h.births == l.births
    && multiset(h.items) == multiset(l.items)
    && Good(true, multiset(l.items), l.births)
    && Ordered(true, h.items) && ByBirth(l.items, l.births) && OneEach(l.items)
  }

  lemma MemberOfBoth(s: seq<Item>, t: seq<Item>, x: Item)
    requires multiset(s) == multiset(t)
    ensures x in s <==> x in t
  {
    assert x in s <==> x in multiset(s);
    assert x in t <==> x in multiset(t);
  }

  lemma AppendKeeps(l: seq<Item>, it: Item)
    requires ByBirth(l, it.birth) && OneEach(l) && IndexOf(l, it.id) == |l|
    ensures multiset(l + [it]) == multiset(l) + multiset{it}
    ensures ByBirth(l + [it], it.birth + 1) && OneEach(l + [it])
  {
  }

  lemma InsertAgrees(h: Store, l: Store, op: Op)
    requires Same(h, l) && op.Insert? && Allowed(l, op)
    ensures Same(HeapStep(h, op).0, ListStep(l, op).0)
  {
    var it := Item(op.id, op.prio, l.births);
    AppendKeeps(l.items, it);
    InsertOrders(true, h.items, it);
  }

  /** Dropping one item from both sides. */
  lemma DropAgrees(h: Store, l: Store, h': seq<Item>, k: nat)
    requires Same(h, l) && k < |l.items|
    requires multiset(h') == multiset(h.items) - multiset{l.items[k]}
    requires Good(true, multiset(h'), h.births) && Ordered(true, h')
    ensures Same(Store(h', h.births), Store(Without(l.items, k), l.births))
  {
    WithoutKeeps(l.items, k, l.births);
    WithoutMultiset(l.items, k);
  }

  lemma TopAgrees(h: Store, l: Store)
    requires Same(h, l) && h.items != [] && l.items != []
    ensures h.items[0] == l.items[FirstBest(l.items)]
  {
    RootIsMax(true, h.items);
    forall x | x in l.items ensures Ge(true, h.items[0], x) {
      MemberOfBoth(h.items, l.items, x);
    }
    MemberOfBoth(h.items, l.items, h.items[0]);
    GreatestIsFirstBest(l.items, l.births, h.items[0]);
  }

  lemma PopAgrees(h: Store, l: Store)
    requires Same(h, l)
    ensures Same(HeapStep(h, Pop).0, ListStep(l, Pop).0)
    ensures HeapStep(h, Pop).1 == ListStep(l, Pop).1
  {
    assert |multiset(h.items)| == |h.items| && |multiset(l.items)| == |l.items|;
    if h.items != [] {
      TopAgrees(h, l);
      PopOrders(true, h.items, h.births);
      DropAgrees(h, l, Popped(h.items), FirstBest(l.items));
    }
  }

  lemma IndexAgrees(h: Store, l: Store, id: u8)
    requires Same(h, l)
    ensures var i, k := IndexOf(h.items, id), IndexOf(l.items, id);
            (i < |h.items| <==> k < |l.items|) && (i < |h.items| ==> h.items[i] == l.items[k])
  {
    var i, k := IndexOf(h.items, id), IndexOf(l.items, id);
    if i < |h.items| { MemberOfBoth(h.items, l.items, h.items[i]); }
    if k < |l.items| { MemberOfBoth(h.items, l.items, l.items[k]); }
  }

  lemma RemoveAgrees(h: Store, l: Store, id: u8)
    requires Same(h, l)
    ensures Same(HeapStep(h, Remove(id)).0, ListStep(l, Remove(id)).0)
    ensures HeapStep(h, Remove(id)).1 == ListStep(l, Remove(id)).1
  {
    var i, k := IndexOf(h.items, id), IndexOf(l.items, id);
    IndexAgrees(h, l, id);
    if i < |h.items| {
      RemoveOrders(true, h.items, i, h.births);
      DropAgrees(h, l, Removed(h.items, i), k);
    }
  }

  function Outputs(ops: seq<Op>, s: Store, step: (Store, Op) -> (Store, Option<u8>)): seq<Option<u8>> {
    if ops == [] then [] else [step(s, ops[0]).1] + Outputs(ops[1..], step(s, ops[0]).0, step)
  }

  ghost predicate AllAllowed(ops: seq<Op>, l: Store) {
    ops == [] || (Allowed(l, ops[0]) && AllAllowed(ops[1..], ListStep(l, ops[0]).0))
  }

  /**
    Over any history that stays in the window, the heap answers exactly what the
    stable list answers.
   */
  lemma {:induction false} HeapRefinesStableList(ops: seq<Op>, h: Store, l: Store)
    requires Same(h, l) && AllAllowed(ops, l)
    ensures Outputs(ops, h, HeapStep) == Outputs(ops, l, ListStep)
  {
    if ops != [] {
      match ops[0] {
        case Insert(_, _) => InsertAgrees(h, l, ops[0]);
        case Pop => PopAgrees(h, l);
        case Remove(id) => RemoveAgrees(h, l, id);
      }
      HeapRefinesStableList(ops[1..], HeapStep(h, ops[0]).0, ListStep(l, ops[0]).0);
    }
  }

  /** The array code performs exactly the operations of such a history. */
  method Perform(q: PriorityQueue, op: Op) returns (out: Option<u8>)
    requires q.Valid() && (op.Insert? ==> q.len < q.heap.Length)
    modifies q, q.heap
    ensures q.Valid() == true
    ensures (Store(q.items, q.births), out) == HeapStep(old(Store(q.items, q.births)), op)
  {
    out := None;
    match op {
      case Insert(id, prio) => q.Insert(id, prio);
      case Pop =>
        ghost var top;
        out, top := q.PopMax();
      case Remove(id) =>
        var found, _ := q.Remove(id);
        out := if found then Some(id) else None;
    }
  }

  // ---------------------------------------------------------------------
  // Outside the window
  // ---------------------------------------------------------------------

  /** What a history leaves. */
  function Ends(ops: seq<Op>, s: Store, step: (Store, Op) -> (Store, Option<u8>)): Store {
    if ops == [] then s else Ends(ops[1..], step(s, ops[0]).0, step)
  }

  /** The largest number of entries held along the way. */
  function Peak(ops: seq<Op>, s: Store, step: (Store, Op) -> (Store, Option<u8>)): nat {
    if ops == [] then |s.items| else Max(|s.items|, Peak(ops[1..], step(s, ops[0]).0, step))
  }

  lemma {:induction false} EndsInTwo(a: seq<Op>, b: seq<Op>, s: Store, step: (Store, Op) -> (Store, Option<u8>))
    ensures Ends(a + b, s, step) == Ends(b, Ends(a, s, step), step)
    ensures Outputs(a + b, s, step) == Outputs(a, s, step) + Outputs(b, Ends(a, s, step), step)
    ensures Peak(a + b, s, step) == Max(Peak(a, s, step), Peak(b, Ends(a, s, step), step))
  {
    if a == [] {
      assert a + b == b;
    } else {
      assert (a + b)[1..] == a[1..] + b;
      EndsInTwo(a[1..], b, step(s, a[0]).0, step);
    }
  }

  /** `n` times, a task of priority `prio` is queued and dispatched at once. */
  function Rounds(prio: u8, n: nat): seq<Op> {
    if n == 0 then [] else [Insert(3, prio), Pop] + Rounds(prio, n - 1)
  }

  /** Task 1 is queued, starved for `n` rounds, joined by task 2 of its own priority, and then one of them is popped. */
  function Starving(prio: u8, n: nat): seq<Op>
    requires prio < 255
  {
    [Insert(1, prio)] + Rounds(prio + 1, n) + [Insert(2, prio), Pop]
  }

  lemma TwoOps(x: Op, y: Op, s: Store, step: (Store, Op) -> (Store, Option<u8>))
    ensures var mid := step(s, x).0;
            && Ends([x, y], s, step) == step(mid, y).0
            && Outputs([x, y], s, step) == [step(s, x).1, step(mid, y).1]
            && Peak([x, y], s, step) == Max(|s.items|, Max(|mid.items|, |step(mid, y).0.items|))
  {
    assert [x, y][1..] == [y] && [y][1..] == [];
    assert Ends([y], step(s, x).0, step) == step(step(s, x).0, y).0;
    assert Outputs([y], step(s, x).0, step) == [step(step(s, x).0, y).1];
    assert Peak([y], step(s, x).0, step) == Max(|step(s, x).0.items|, |step(step(s, x).0, y).0.items|);
  }

  lemma InsertIntoOne(a: Item, b: Item)
    ensures Inserted([a], b) == if Beats(b, a) then [b, a] else [a, b]
  {
    assert [a] + [b] == [a, b];
    assert Swap([a, b], 1, 0) == [b, a];
    assert Parent(1) == 0;
    assert SiftedUp([b, a], 0) == [b, a];
  }

  lemma OneRound(a: Item, births: nat, prio: u8)
    requires prio > a.prio
    ensures var s := Store([a], births);
            && Ends([Insert(3, prio), Pop], s, HeapStep) == Store([a], births + 1)
            && Ends([Insert(3, prio), Pop], s, ListStep) == Store([a], births + 1)
            && Peak([Insert(3, prio), Pop], s, HeapStep) == 2
  {
    var c := Item(3, prio, births);
    InsertIntoOne(a, c);
    TwoOps(Insert(3, prio), Pop, Store([a], births), HeapStep);
    TwoOps(Insert(3, prio), Pop, Store([a], births), ListStep);
    PopOfTwo(births + 1, c, a);
    assert [a] + [c] == [a, c] && FirstBest([a, c]) == 1 && Without([a, c], 1) == [a];
  }

  lemma {:induction false} RoundsStarve(a: Item, births: nat, prio: u8, n: nat)
    requires prio > a.prio
    ensures Ends(Rounds(prio, n), Store([a], births), HeapStep) == Store([a], births + n)
    ensures Ends(Rounds(prio, n), Store([a], births), ListStep) == Store([a], births + n)
    ensures Peak(Rounds(prio, n), Store([a], births), HeapStep) <= 2
    decreases n
  {
    if n > 0 {
      OneRound(a, births, prio);
      EndsInTwo([Insert(3, prio), Pop], Rounds(prio, n - 1), Store([a], births), HeapStep);
      EndsInTwo([Insert(3, prio), Pop], Rounds(prio, n - 1), Store([a], births), ListStep);
      RoundsStarve(a, births + 1, prio, n - 1);
    }
  }

  /** The last two operations, on the starved entry. */
  lemma LastPopOfList(a: Item, births: nat)
    requires a.id == 1
    ensures Outputs([Insert(2, a.prio), Pop], Store([a], births), ListStep) == [None, Some(1)]
  {
    var b := Item(2, a.prio, births);
    TwoOps(Insert(2, a.prio), Pop, Store([a], births), ListStep);
    assert [a] + [b] == [a, b] && FirstBest([a, b]) == 0;
  }

  lemma PopOfTwo(births: nat, x: Item, y: Item)
    ensures HeapStep(Store([x, y], births), Pop) == (Store([y], births), Some(x.id))
  {
    assert Filled([x, y], 0) == [y];
    assert SiftedDown([y], 0) == [y];
  }

  lemma LastPopOfHeap(a: Item, births: nat)
    requires a.id == 1 && a.birth < births
    ensures var s := Store([a], births);
            && Outputs([Insert(2, a.prio), Pop], s, HeapStep) ==
                 [None, Some(if (births - a.birth) % TWO32 <= TWO31 then 1 else 2)]
            && Peak([Insert(2, a.prio), Pop], s, HeapStep) == 2
  {
    var b := Item(2, a.prio, births);
    OutranksExactly(a, b);
    InsertIntoOne(a, b);
    PopOfTwo(births + 1, a, b);
    PopOfTwo(births + 1, b, a);
    TwoOps(Insert(2, a.prio), Pop, Store([a], births), HeapStep);
  }

  /**
    Few live entries do not keep the order: with never more than two of them, the
    starved entry is served first if and only if the number of insertions since
    its own is, modulo 2^32, at most 2^31.
   */
  lemma StarvedIsServedFirst(prio: u8, n: nat)
    requires prio < 255
    ensures var empty := Store([], 0);
            var heap, list := Outputs(Starving(prio, n), empty, HeapStep), Outputs(Starving(prio, n), empty, ListStep);
            && Peak(Starving(prio, n), empty, HeapStep) == 2
            && |heap| == |list| > 0 && list[|list| - 1] == Some(1)
            && heap[|heap| - 1] == Some(if (n + 1) % TWO32 <= TWO31 then 1 else 2)
  {
    var a := Item(1, prio, 0);
    var empty, one := Store([], 0), Store([a], 1);
    var head, last := [Insert(1, prio)] + Rounds(prio + 1, n), [Insert(2, prio), Pop];
    assert [] + [a] == [a] && Inserted([], a) == [a];
    RoundsStarve(a, 1, prio + 1, n);
    LastPopOfList(a, n + 1);
    LastPopOfHeap(a, n + 1);
    SplitHistory(Insert(1, prio), Rounds(prio + 1, n), last, empty, HeapStep);
    SplitHistory(Insert(1, prio), Rounds(prio + 1, n), last, empty, ListStep);
    SameLength(Starving(prio, n), empty, HeapStep);
    SameLength(Starving(prio, n), empty, ListStep);
  }

  lemma SplitHistory(first: Op, mid: seq<Op>, last: seq<Op>, s: Store, step: (Store, Op) -> (Store, Option<u8>))
    ensures var m := Ends(mid, step(s, first).0, step);
            var ops := [first] + mid + last;
            && Peak(ops, s, step) == Max(|s.items|, Max(Peak(mid, step(s, first).0, step), Peak(last, m, step)))
            && |last| <= |Outputs(ops, s, step)| && Outputs(ops, s, step)[|Outputs(ops, s, step)| - |last|..] == Outputs(last, m, step)
  {
    assert ([first] + mid)[1..] == mid;
    EndsInTwo([first] + mid, last, s, step);
    SameLength(last, Ends([first] + mid, s, step), step);
  }

  lemma {:induction false} SameLength(ops: seq<Op>, s: Store, step: (Store, Op) -> (Store, Option<u8>))
    ensures |Outputs(ops, s, step)| == |ops|
  {
    if ops != [] { SameLength(ops[1..], step(s, ops[0]).0, step); }
  }
}
