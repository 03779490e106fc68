/**
  The ready queue: a fixed-capacity binary max-heap on effective priority whose
  ties are broken by a wrapping 32-bit insertion stamp.

  An `Item` is an entry together with the unbounded number of the insertion that
  created it; the heap array only holds that number modulo 2^32.
 */
module ReadyQueue {
  import opened Words

  /** What the heap array stores. */
  datatype Entry = Entry(taskId: u8, prio: u8, stamp: u32)

  /** An entry and the true number of its insertion. */
  datatype Item = Item(id: u8, prio: u8, birth: nat)

  function Stamped(it: Item): Entry {
    Entry(it.id, it.prio, it.birth % TWO32)
  }

  /** Higher priority first, then the smaller wrapping distance. */
  predicate Outranks(a: Entry, b: Entry) {
    if a.prio != b.prio then a.prio > b.prio
    else AsI32(WrapSub(b.stamp, a.stamp)) > 0
  }

  /** The comparison the code makes between two items. */
  predicate Beats(a: Item, b: Item) {
    Outranks(Stamped(a), Stamped(b))
  }

  /**
    The intended order: priority, then (when `fifo`) age.  For either value of
    `fifo` this is a total preorder, whatever the stamps do.
   */
  predicate Ge(fifo: bool, a: Item, b: Item) {
    a.prio > b.prio || (a.prio == b.prio && (fifo ==> a.birth <= b.birth))
  }

  /** Equal-priority items were inserted fewer than 2^31 insertions apart. */
  predicate Near(a: Item, b: Item) {
    a.prio == b.prio ==> WithinWindow(a.birth, b.birth)
  }

  ghost predicate Window(m: multiset<Item>) {
    forall a, b {:trigger Near(a, b)} :: a in m && b in m ==> Near(a, b)
  }

  /** A birth number names one item. */
  predicate OneBirth(a: Item, b: Item) {
    a.birth == b.birth ==> a == b
  }

  /** Birth numbers are unique, and `n` has not been given out yet. */
  ghost predicate Numbered(m: multiset<Item>, n: nat) {
    && (forall a :: a in m ==> a.birth < n)
    && (forall a, b {:trigger OneBirth(a, b)} :: a in m && b in m ==> OneBirth(a, b))
  }

  ghost predicate Good(fifo: bool, m: multiset<Item>, n: nat) {
    Numbered(m, n) && (fifo ==> Window(m))
  }

  function Parent(i: nat): nat
    requires i > 0
  {
    (i - 1) / 2
  }

  ghost predicate Ordered(fifo: bool, s: seq<Item>) {
    forall i :: 0 < i < |s| ==> Ge(fifo, s[Parent(i)], s[i])
  }

  // ---------------------------------------------------------------------
  // What the stamp comparison decides
  // ---------------------------------------------------------------------

  /**
    Between an older and a newer item of one priority the code picks the older
    exactly when the number of insertions between them, modulo 2^32, is in
    (0, 2^31); past 2^31 it picks the newer, and at 0 and 2^31 neither.
   */
  lemma OutranksExactly(older_: Item, newer: Item)
    requires older_.prio == newer.prio && older_.birth < newer.birth
    ensures var d := (newer.birth - older_.birth) % TWO32;
            && (Beats(older_, newer) <==> 0 < d < TWO31)
            && (Beats(newer, older_) <==> d > TWO31)
  {
    var d := (newer.birth - older_.birth) % TWO32;
    var q := (newer.birth - older_.birth) / TWO32;
    WrapSubOfMod(newer.birth, older_.birth);
    WrapSubOfMod(older_.birth, newer.birth);
    if d != 0 {
      assert older_.birth - newer.birth == (-q - 1) * TWO32 + (TWO32 - d);
      ModIs(older_.birth - newer.birth, TWO32, -q - 1, TWO32 - d);
    } else {
      assert older_.birth - newer.birth == (-q) * TWO32 + 0;
      ModIs(older_.birth - newer.birth, TWO32, -q, 0);
    }
  }

  /** Inside the window, or when only priorities matter, the code's comparison is the intended one. */
  lemma BeatsIsGe(fifo: bool, a: Item, b: Item)
    requires fifo ==> Near(a, b) && OneBirth(a, b)
    ensures if Beats(a, b) then Ge(fifo, a, b) else Ge(fifo, b, a)
  {
    if fifo && a.prio == b.prio && a != b {
      var o, n := if a.birth < b.birth then a else b, if a.birth < b.birth then b else a;
      OutranksExactly(o, n);
      ModIs(n.birth - o.birth, TWO32, 0, n.birth - o.birth);
    }
  }

  lemma GeTransitive(fifo: bool, a: Item, b: Item, c: Item)
    requires Ge(fifo, a, b) && Ge(fifo, b, c)
    ensures Ge(fifo, a, c)
  {
  }

  /** The root of an ordered heap dominates every entry. */
  lemma {:induction false} RootIsGreatest(fifo: bool, s: seq<Item>, i: nat)
    requires Ordered(fifo, s) && i < |s|
    ensures Ge(fifo, s[0], s[i])
    decreases i
  {
    if i > 0 {
      RootIsGreatest(fifo, s, Parent(i));
    }
  }

  lemma RootIsMax(fifo: bool, s: seq<Item>)
    requires Ordered(fifo, s) && s != []
    ensures s[0] in s
    ensures forall x :: x in s ==> Ge(fifo, s[0], x)
  {
    forall x | x in s ensures Ge(fifo, s[0], x) {
      var i :| 0 <= i < |s| && s[i] == x;
      RootIsGreatest(fifo, s, i);
    }
  }

  // ---------------------------------------------------------------------
  // Sifting, on sequences
  // ---------------------------------------------------------------------

  function Swap(s: seq<Item>, i: nat, j: nat): seq<Item>
    requires i < |s| && j < |s|
  {
    s[i := s[j]][j := s[i]]
  }

  lemma SwapPermutes(s: seq<Item>, i: nat, j: nat)
    requires i < |s| && j < |s|
    ensures multiset(Swap(s, i, j)) == multiset(s)
  {
  }

  /** The sequence `sift_up(k)` leaves behind. */
  function SiftedUp(s: seq<Item>, k: nat): seq<Item>
    requires k < |s|
    decreases k
  {
    if k > 0 && Beats(s[k], s[Parent(k)]) then SiftedUp(Swap(s, k, Parent(k)), Parent(k)) else s
  }

  /** The child `sift_down` would swap `k` with, or `k` itself. */
  function Largest(s: seq<Item>, k: nat): (c: nat)
    requires k < |s|
    ensures c < |s| && (c == k || (c > k && Parent(c) == k))
  {
    var l := if 2 * k + 1 < |s| && Beats(s[2 * k + 1], s[k]) then 2 * k + 1 else k;
    if 2 * k + 2 < |s| && Beats(s[2 * k + 2], s[l]) then 2 * k + 2 else l
  }

  /** The sequence `sift_down(k)` leaves behind. */
  function SiftedDown(s: seq<Item>, k: nat): seq<Item>
    requires k < |s|
    decreases |s| - k
  {
    var c := Largest(s, k);
    if c == k then s else SiftedDown(Swap(s, k, c), c)
  }

  /** The parent of `k` dominates the children of `k`. */
  ghost predicate SkipsOver(fifo: bool, s: seq<Item>, k: nat) {
    forall i :: 0 < i < |s| && Parent(i) == k && 0 < k ==> Ge(fifo, s[Parent(k)], s[i])
  }

  /** Ordered, except that the entry at `k` may be too large for its parent. */
  ghost predicate OrderedBelow(fifo: bool, s: seq<Item>, k: nat) {
    && (forall i :: 0 < i < |s| && i != k ==> Ge(fifo, s[Parent(i)], s[i]))
    && SkipsOver(fifo, s, k)
  }

  /** Ordered, except for the edges that touch `k`. */
  ghost predicate OrderedAround(fifo: bool, s: seq<Item>, k: nat) {
    && (forall i :: 0 < i < |s| && i != k && Parent(i) != k ==> Ge(fifo, s[Parent(i)], s[i]))
    && SkipsOver(fifo, s, k)
  }

  lemma MemberPair(fifo: bool, s: seq<Item>, n: nat, i: nat, j: nat)
    requires Good(fifo, multiset(s), n) && i < |s| && j < |s|
    ensures if Beats(s[i], s[j]) then Ge(fifo, s[i], s[j]) else Ge(fifo, s[j], s[i])
  {
    assert s[i] in multiset(s) && s[j] in multiset(s);
    BeatsIsGe(fifo, s[i], s[j]);
  }

  lemma SiftUpStep(fifo: bool, s: seq<Item>, k: nat)
    requires 0 < k < |s| && OrderedBelow(fifo, s, k)
    requires Ge(fifo, s[k], s[Parent(k)])
    ensures OrderedBelow(fifo, Swap(s, k, Parent(k)), Parent(k))
  {
    var p := Parent(k);
    var t := Swap(s, k, p);
    forall i | 0 < i < |t| && i != p
      ensures Ge(fifo, t[Parent(i)], t[i])
    {
      if i != k && Parent(i) == k { assert Ge(fifo, s[p], s[i]); }
    }
    forall i | 0 < i < |t| && Parent(i) == p && 0 < p
      ensures Ge(fifo, t[Parent(p)], t[i])
    {
      assert Ge(fifo, s[Parent(p)], s[p]);
      if i != k { assert Ge(fifo, s[p], s[i]); }
    }
  }

  /** Sifting up mends a heap whose only fault is a large entry at `k`. */
  lemma {:induction false} SiftUpMends(fifo: bool, s: seq<Item>, k: nat, n: nat)
    requires k < |s| && Good(fifo, multiset(s), n) && OrderedBelow(fifo, s, k)
    ensures multiset(SiftedUp(s, k)) == multiset(s) && Ordered(fifo, SiftedUp(s, k))
    decreases k
  {
    if k > 0 {
      MemberPair(fifo, s, n, k, Parent(k));
      if Beats(s[k], s[Parent(k)]) {
        SiftUpStep(fifo, s, k);
        SwapPermutes(s, k, Parent(k));
        SiftUpMends(fifo, Swap(s, k, Parent(k)), Parent(k), n);
      }
    }
  }

  lemma LargestDominates(fifo: bool, s: seq<Item>, k: nat, n: nat)
    requires k < |s| && Good(fifo, multiset(s), n)
    ensures var c := Largest(s, k);
            && Ge(fifo, s[c], s[k])
            && forall i :: 0 < i < |s| && Parent(i) == k ==> Ge(fifo, s[c], s[i])
  {
    var a, b := 2 * k + 1, 2 * k + 2;
    var l := if a < |s| && Beats(s[a], s[k]) then a else k;
    if a < |s| { MemberPair(fifo, s, n, a, k); }
    if b < |s| { MemberPair(fifo, s, n, b, l); }
    forall i | 0 < i < |s| && Parent(i) == k
      ensures Ge(fifo, s[Largest(s, k)], s[i])
    {
      assert i == a || i == b;
    }
  }

  lemma SiftDownStep(fifo: bool, s: seq<Item>, k: nat, c: nat)
    requires 0 < c < |s| && Parent(c) == k && OrderedAround(fifo, s, k)
    requires Ge(fifo, s[c], s[k])
    requires forall i :: 0 < i < |s| && Parent(i) == k ==> Ge(fifo, s[c], s[i])
    ensures var t := Swap(s, k, c);
            && OrderedAround(fifo, t, c) && Ge(fifo, t[k], t[c])
            && (0 < k ==> Ge(fifo, t[Parent(k)], t[k]))
  {
    var t := Swap(s, k, c);
    if 0 < k { assert Ge(fifo, s[Parent(k)], s[c]); }
    forall i | 0 < i < |t| && i != c && Parent(i) != c
      ensures Ge(fifo, t[Parent(i)], t[i])
    {
      if Parent(i) == k { assert Ge(fifo, s[c], s[i]); }
    }
    forall i | 0 < i < |t| && Parent(i) == c
      ensures Ge(fifo, t[Parent(c)], t[i])
    {
      assert Ge(fifo, s[c], s[i]);
    }
  }

  /**
    Sifting down mends every edge below `k`; if the entry at `k` was not too
    large for its parent (`settled`), the whole heap is then in order.
   */
  lemma {:induction false} SiftDownMends(fifo: bool, s: seq<Item>, k: nat, n: nat)
    requires k < |s| && Good(fifo, multiset(s), n) && OrderedAround(fifo, s, k)
    ensures var t := SiftedDown(s, k);
            && multiset(t) == multiset(s) && OrderedBelow(fifo, t, k)
            && (k == 0 || Ge(fifo, s[Parent(k)], s[k]) ==> Ordered(fifo, t))
    decreases |s| - k
  {
    var c := Largest(s, k);
    LargestDominates(fifo, s, k, n);
    if c != k {
      SiftDownStep(fifo, s, k, c);
      SwapPermutes(s, k, c);
      SiftDownMends(fifo, Swap(s, k, c), c, n);
      OrderedSkips(fifo, SiftedDown(s, k), k);
    }
  }

  lemma OrderedSkips(fifo: bool, s: seq<Item>, k: nat)
    requires Ordered(fifo, s)
    ensures OrderedBelow(fifo, s, k)
  {
    forall i | 0 < i < |s| && Parent(i) == k && 0 < k
      ensures Ge(fifo, s[Parent(k)], s[i])
    {
      GeTransitive(fifo, s[Parent(k)], s[k], s[i]);
    }
  }

  // ---------------------------------------------------------------------
  // The three operations, on sequences
  // ---------------------------------------------------------------------

  function Inserted(s: seq<Item>, it: Item): seq<Item> {
    SiftedUp(s + [it], |s|)
  }

  /** Appending a freshly numbered item and sifting it up keeps the heap in order. */
  lemma InsertOrders(fifo: bool, s: seq<Item>, it: Item)
    requires Good(fifo, multiset(s), it.birth) && Ordered(fifo, s)
    ensures var t := Inserted(s, it);
            var fifo' := fifo && Window(multiset(t));
            && multiset(t) == multiset(s) + multiset{it}
            && Good(fifo', multiset(t), it.birth + 1) && Ordered(fifo', t)
  {
    var u := s + [it];
    var m := multiset(s) + multiset{it};
    assert multiset(u) == m;
    assert Numbered(m, it.birth + 1) by {
      forall a | a in m ensures a in multiset(s) || a == it {}
    }
    SiftUpMends(fifo && Window(m), u, |s|, it.birth + 1);
  }

  /** The items after the last one has been moved into position `k`. */
  function Filled(s: seq<Item>, k: nat): seq<Item>
    requires k < |s|
  {
    var n := |s| - 1;
    if k == n then s[..n] else s[..n][k := s[n]]
  }

  lemma FilledKeeps(s: seq<Item>, k: nat)
    requires k < |s|
    ensures multiset(Filled(s, k)) == multiset(s) - multiset{s[k]}
  {
    var n := |s| - 1;
    assert s == s[..n] + [s[n]];
  }

  lemma SmallerIsGood(fifo: bool, m: multiset<Item>, x: Item, n: nat)
    requires Good(fifo, m, n)
    ensures Good(fifo, m - multiset{x}, n)
  {
    forall a | a in m - multiset{x} ensures a in m {}
  }

  lemma FilledIsOrderedAround(fifo: bool, s: seq<Item>, k: nat)
    requires k < |s| - 1 && Ordered(fifo, s)
    ensures OrderedAround(fifo, Filled(s, k), k)
  {
    var t := Filled(s, k);
    forall i | 0 < i < |t| && Parent(i) == k && 0 < k
      ensures Ge(fifo, t[Parent(k)], t[i])
    {
      GeTransitive(fifo, s[Parent(k)], s[k], s[i]);
    }
  }

  /** `pop_max` on the sequence. */
  function Popped(s: seq<Item>): seq<Item>
    requires s != []
  {
    var t := Filled(s, 0);
    if t == [] then t else SiftedDown(t, 0)
  }

  /** `remove` of position `k` on the sequence. */
  function Removed(s: seq<Item>, k: nat): seq<Item>
    requires k < |s|
  {
    var t := Filled(s, k);
    if k < |t| then RepairAt(t, k) else t
  }

  function RepairAt(t: seq<Item>, k: nat): seq<Item>
    requires k < |t|
  {
    SiftedDownLength(t, k);
    SiftedUp(SiftedDown(t, k), k)
  }

  lemma {:induction false} SiftedDownLength(s: seq<Item>, k: nat)
    requires k < |s|
    ensures |SiftedDown(s, k)| == |s|
    decreases |s| - k
  {
    var c := Largest(s, k);
    if c != k { SiftedDownLength(Swap(s, k, c), c); }
  }

  /** Taking the root out leaves an ordered heap of exactly the other items. */
  lemma PopOrders(fifo: bool, s: seq<Item>, n: nat)
    requires s != [] && Good(fifo, multiset(s), n) && Ordered(fifo, s)
    ensures var t := Popped(s);
            multiset(t) == multiset(s) - multiset{s[0]} && Good(fifo, multiset(t), n) && Ordered(fifo, t)
  {
    FilledKeeps(s, 0);
    SmallerIsGood(fifo, multiset(s), s[0], n);
    if |s| > 1 {
      FilledIsOrderedAround(fifo, s, 0);
      SiftDownMends(fifo, Filled(s, 0), 0, n);
    }
  }

  /** Taking any one position out leaves an ordered heap of exactly the other items. */
  lemma RemoveOrders(fifo: bool, s: seq<Item>, k: nat, n: nat)
    requires k < |s| && Good(fifo, multiset(s), n) && Ordered(fifo, s)
    ensures var t := Removed(s, k);
            multiset(t) == multiset(s) - multiset{s[k]} && Good(fifo, multiset(t), n) && Ordered(fifo, t)
  {
    FilledKeeps(s, k);
    SmallerIsGood(fifo, multiset(s), s[k], n);
    if k < |s| - 1 {
      FilledIsOrderedAround(fifo, s, k);
      SiftedDownLength(Filled(s, k), k);
      SiftDownMends(fifo, Filled(s, k), k, n);
      SiftUpMends(fifo, SiftedDown(Filled(s, k), k), k, n);
    }
  }

  /** The first position that holds `id`, or the length. */
  function IndexOf(l: seq<Item>, id: u8): (k: nat)
    ensures k <= |l| && (k < |l| ==> l[k].id == id)
    ensures forall i :: 0 <= i < k ==> l[i].id != id
  {
    if l == [] || l[0].id == id then 0 else 1 + IndexOf(l[1..], id)
  }

  class PriorityQueue {
    const heap: array<Option<Entry>>
    var len: nat
    var nextSeq: u32
    /** The entries with their true insertion numbers, in heap order. */
    ghost var items: seq<Item>
    /** Number of insertions so far. */
    ghost var births: nat
    /** Whether the window has held after every insertion so far. */
    ghost var fifo: bool

    /** The array holds the stamped items, and nothing after them. */
    ghost predicate Stores()
      reads this, heap
    {
      && len == |items| <= heap.Length
      && (forall i :: 0 <= i < len ==> heap[i] == Some(Stamped(items[i])))
      && (forall i :: len <= i < heap.Length ==> heap[i] == None)
      && nextSeq == births % TWO32
    }

    ghost predicate Valid()
      reads this, heap
    {
      Stores() && Good(fifo, multiset(items), births) && Ordered(fifo, items)
    }

    constructor (capacity: nat)
      ensures Valid() && fresh(heap) && heap.Length == capacity
      ensures items == [] && births == 0 && fifo
    {
      heap := new Option<Entry>[capacity](_ => None);
      len, nextSeq := 0, 0;
      items, births, fifo := [], 0, true;
    }

    method OutranksAt(a: nat, b: nat) returns (r: bool)
      requires Stores() && a < heap.Length && b < heap.Length
      ensures a < len && b < len ==> r == Beats(items[a], items[b])
      ensures a < len <= b ==> r
      ensures len <= a ==> !r
    {
      match (heap[a], heap[b]) {
        case (Some(x), Some(y)) => r := Outranks(x, y);
        case (Some(_), None) => r := true;
        case (None, _) => r := false;
      }
    }

    /** `heap.swap(i, j)` */
    method SwapSlots(i: nat, j: nat)
      requires Stores() && i < len && j < len
      modifies heap, this`items
      ensures Stores() && items == Swap(old(items), i, j)
    {
      heap[i], heap[j] := heap[j], heap[i];
      items := Swap(items, i, j);
    }

    method SiftUp(start: nat)
      requires Stores() && start < len
      modifies heap, this`items
      ensures Stores() && items == SiftedUp(old(items), start)
    {
      var idx := start;
      while idx > 0
        invariant Stores() && 0 <= idx < len
        invariant SiftedUp(items, idx) == SiftedUp(old(items), start)
      {
        var parent := (idx - 1) / 2;
        var up := OutranksAt(idx, parent);
        if up {
          SwapSlots(idx, parent);
          idx := parent;
        } else {
          break;
        }
      }
    }

    /** The largest of an entry and its children, the entry itself winning ties. */
    method LargestAt(idx: nat) returns (largest: nat)
      requires Stores() && idx < len
      ensures largest == Largest(items, idx)
    {
      var left := 2 * idx + 1;
      var right := 2 * idx + 2;
      largest := idx;
      if left < len {
        var up := OutranksAt(left, largest);
        if up { largest := left; }
      }
      if right < len {
        var up := OutranksAt(right, largest);
        if up { largest := right; }
      }
    }

    method SiftDown(start: nat)
      requires Stores() && start < len
      modifies heap, this`items
      ensures Stores() && items == SiftedDown(old(items), start)
    {
      var idx := start;
      while true
        invariant Stores() && 0 <= idx < len
        invariant SiftedDown(items, idx) == SiftedDown(old(items), start)
        decreases len - idx
      {
        var largest := LargestAt(idx);
        if largest == idx {
          break;
        }
        SwapSlots(idx, largest);
        idx := largest;
      }
    }

    /** Write the new entry, with the next stamp, into the first free slot. */
    method Append(id: u8, prio: u8)
      requires Stores() && len < heap.Length
      modifies this`len, this`nextSeq, this`items, this`births, heap
      ensures Stores() && births == old(births) + 1
      ensures items == old(items) + [Item(id, prio, old(births))]
    {
      WrapAddOfMod(births, 1);
      var stamp := nextSeq;
      nextSeq := WrapAdd(nextSeq, 1);
      heap[len] := Some(Entry(id, prio, stamp));
      len := len + 1;
      items, births := items + [Item(id, prio, births)], births + 1;
    }

    method Place(id: u8, prio: u8)
      requires Stores() && len < heap.Length
      modifies this`len, this`nextSeq, this`items, this`births, heap
      ensures Stores() && births == old(births) + 1
      ensures items == Inserted(old(items), Item(id, prio, old(births)))
    {
      Append(id, prio);
      SiftUp(len - 1);
    }

    /** Adds one item with the next insertion number; the order survives as far as the window does. */
    method Insert(id: u8, prio: u8)
      requires Valid() && len < heap.Length
      modifies this, heap
      ensures Valid() && births == old(births) + 1
      ensures multiset(items) == old(multiset(items)) + multiset{Item(id, prio, old(births))}
      ensures items == Inserted(old(items), Item(id, prio, old(births)))
      ensures fifo == (old(fifo) && Window(multiset(items)))
    {
      InsertOrders(fifo, items, Item(id, prio, births));
      Place(id, prio);
      fifo := fifo && Window(multiset(items));
    }

    /** `heap[k] = heap[len - 1]; heap[len - 1] = None`, with the length reduced. */
    method FillHole(k: nat)
      requires Stores() && k < len
      modifies this`len, heap, this`items
      ensures Stores() && items == Filled(old(items), k)
    {
      len := len - 1;
      heap[k] := heap[len];
      heap[len] := None;
      items := Filled(items, k);
    }

    /** The popped item is greatest in the queue: always by priority, and by age too while `fifo`. */
    method PopMax() returns (r: Option<u8>, ghost top: Item)
      requires Valid()
      modifies this, heap
      ensures Valid() == true && births == old(births) && fifo == old(fifo)
      ensures r.None? <==> old(items) == []
      ensures r.None? ==> items == old(items)
      ensures r.Some? ==>
                && top == old(items)[0] && r.value == top.id && items == Popped(old(items))
                && multiset(items) == old(multiset(items)) - multiset{top}
                && forall x :: x in old(items) ==> Ge(fifo, top, x)
    {
      top := Item(0, 0, 0);
      if len == 0 {
        return None, top;
      }
      top := items[0];
      RootIsMax(fifo, items);
      var root := PopRoot();
      r := Some(root);
    }

    /** `pop_max` once the heap is known not to be empty. */
    method PopRoot() returns (root: u8)
      requires Valid() && len > 0
      modifies this`len, heap, this`items
      ensures Valid() == true && root == old(items)[0].id && items == Popped(old(items))
      ensures multiset(items) == old(multiset(items)) - multiset{old(items)[0]}
    {
      PopOrders(fifo, items, births);
      root := TakeRoot();
    }

    method TakeRoot() returns (root: u8)
      requires Stores() && len > 0
      modifies this`len, heap, this`items
      ensures Stores() && root == old(items)[0].id && items == Popped(old(items))
    {
      root := heap[0].value.taskId;
      FillHole(0);
      if len > 0 {
        SiftDown(0);
      }
    }

    method PeekMax() returns (r: Option<u8>)
      requires Valid() && 0 < heap.Length
      ensures r.None? <==> items == []
      ensures r.Some? ==> exists x :: x in items && x.id == r.value && forall y :: y in items ==> Ge(fifo, x, y)
    {
      if heap[0].Some? {
        r := Some(heap[0].value.taskId);
        RootIsMax(fifo, items);
      } else {
        r := None;
      }
    }

    method PeekMaxPriority() returns (p: u8)
      requires Valid() && 0 < heap.Length
      ensures items == [] ==> p == 0
      ensures forall y :: y in items ==> y.prio <= p
      ensures items != [] ==> exists x :: x in items && x.prio == p
    {
      if heap[0].Some? {
        p := heap[0].value.prio;
        RootIsMax(fifo, items);
      } else {
        p := 0;
      }
    }

    /** The first position that holds `id`, or `len`. */
    method Find(id: u8) returns (idx: nat)
      requires Stores()
      ensures idx == IndexOf(items, id)
    {
      idx := 0;
      while idx < len && !(heap[idx].Some? && heap[idx].value.taskId == id)
        invariant 0 <= idx <= len
        invariant forall i :: 0 <= i < idx ==> items[i].id != id
      {
        idx := idx + 1;
      }
    }

    /** Take position `idx` out and repair: down first, then up. */
    method RemoveAt(idx: nat)
      requires Stores() && idx < len
      modifies this`len, heap, this`items
      ensures Stores() && items == Removed(old(items), idx)
    {
      FillHole(idx);
      if idx < len {
        SiftedDownLength(items, idx);
        SiftDown(idx);
        SiftUp(idx);
      }
    }

    /** Deletes exactly one entry of `id` if there is one, and keeps the order. */
    method Remove(id: u8) returns (found: bool, ghost gone: Item)
      requires Valid()
      modifies this, heap
      ensures Valid() == true && births == old(births) && fifo == old(fifo)
      ensures !found ==> items == old(items) && forall x :: x in items ==> x.id != id
      ensures found <==> IndexOf(old(items), id) < |old(items)|
      ensures found ==>
                && gone == old(items)[IndexOf(old(items), id)] && gone.id == id
                && items == Removed(old(items), IndexOf(old(items), id))
                && multiset(items) == old(multiset(items)) - multiset{gone}
    {
      var idx := Find(id);
      found := idx < len;
      gone := if found then items[idx] else Item(0, 0, 0);
      if found {
        TakeOut(idx);
      }
    }

    method TakeOut(idx: nat)
      requires Valid() && idx < len
      modifies this`len, heap, this`items
      ensures Valid() == true && items == Removed(old(items), idx)
      ensures multiset(items) == old(multiset(items)) - multiset{old(items)[idx]}
    {
      RemoveOrders(fifo, items, idx, births);
      RemoveAt(idx);
    }
  }
}
