/** The scheduler as the kernel runs it: heap, descriptors and registers changed in place. */
module SchedulerImpl {
  import opened Words
  import opened Tasks
  import opened ReadyQueue
  import S = Scheduler
  import Pmp
  import Graph

  // ---------------------------------------------------------------------
  // The heap represents the abstract queue
  // ---------------------------------------------------------------------

  function KeyOf(it: Item): S.Key {
    S.Key(it.prio, it.birth)
  }

  /** The entry that stands for the queued slot `i`. */
  predicate Stands(q: S.Queue, it: Item) {
    S.Queued(q, it.id) && q.slots[it.id].value == KeyOf(it)
  }

  /** The heap holds exactly one entry for every queued slot. */
  ghost predicate Represents(m: multiset<Item>, births: nat, fifo: bool, q: S.Queue) {
    match q
    case Queue(slots, b, f) =>
      && b == births && f == fifo && |slots| <= MAX_TASKS
      && forall it :: m[it] == if Stands(q, it) then 1 else 0
  }

  /** The item of a queued slot. */
  function ItemOf(q: S.Queue, i: nat): (it: Item)
    requires S.Queued(q, i) && |q.slots| <= MAX_TASKS
    ensures Stands(q, it) && it.id == i && KeyOf(it) == q.slots[i].value
  {
    Item(i, q.slots[i].value.prio, q.slots[i].value.birth)
  }

  lemma WindowIsNear(m: multiset<Item>, births: nat, fifo: bool, q: S.Queue)
    requires Represents(m, births, fifo, q)
    ensures Window(m) <==> S.KeysNear(q)
  {
    if S.KeysNear(q) {
      forall a, b | a in m && b in m ensures Near(a, b) {
        assert Stands(q, a) && Stands(q, b);
        assert S.KeyNear(q.slots[a.id].value, q.slots[b.id].value);
      }
    }
    if Window(m) {
      forall i, j | S.Queued(q, i) && S.Queued(q, j) ensures S.KeyNear(q.slots[i].value, q.slots[j].value) {
        var a, b := ItemOf(q, i), ItemOf(q, j);
        assert m[a] == 1 && m[b] == 1;
        assert Near(a, b);
      }
    }
  }

  lemma InsertRepresents(m: multiset<Item>, births: nat, fifo: bool, q: S.Queue, i: u8, prio: u8)
    requires Represents(m, births, fifo, q) && i < |q.slots| && !S.Queued(q, i)
    ensures var m' := m + multiset{Item(i, prio, births)};
            Represents(m', births + 1, fifo && Window(m'), S.Enqueue(q, i, prio))
  {
    var m' := m + multiset{Item(i, prio, births)};
    var q1 := S.Queue(q.slots[i := Some(S.Key(prio, q.births))], q.births + 1, q.fifo);
    forall it ensures m'[it] == if Stands(q1, it) then 1 else 0 {
      assert m[it] == if Stands(q, it) then 1 else 0;
    }
    WindowIsNear(m', births + 1, fifo, q1);
  }

  lemma PopRepresents(m: multiset<Item>, births: nat, fifo: bool, q: S.Queue, top: Item)
    requires Represents(m, births, fifo, q) && top in m
    ensures S.Queued(q, top.id) && Represents(m - multiset{top}, births, fifo, S.Dequeue(q, top.id))
    ensures (forall x :: x in m ==> Ge(fifo, top, x)) ==> S.Legal(q, top.id)
  {
    assert Stands(q, top);
    var m', q' := m - multiset{top}, S.Dequeue(q, top.id);
    forall it ensures m'[it] == if Stands(q', it) then 1 else 0 {
      assert m[it] == if Stands(q, it) then 1 else 0;
    }
    if forall x :: x in m ==> Ge(fifo, top, x) {
      forall j | S.Queued(q, j) ensures S.Better(q.fifo, q.slots[top.id].value, q.slots[j].value) {
        assert m[ItemOf(q, j)] == 1;
        assert Ge(fifo, top, ItemOf(q, j));
      }
    }
  }

  lemma EmptyRepresents(m: multiset<Item>, births: nat, fifo: bool, q: S.Queue)
    requires Represents(m, births, fifo, q)
    ensures m == multiset{} <==> S.Empty(q)
  {
    if m != multiset{} {
      var it :| it in m;
      assert Stands(q, it);
    }
    if !S.Empty(q) {
      var i :| 0 <= i < |q.slots| && q.slots[i].Some?;
      assert S.Queued(q, i);
      assert m[ItemOf(q, i)] == 1;
    }
  }

  /** The heap's greatest priority is the abstract queue's. */
  lemma PeekIsTop(m: multiset<Item>, births: nat, fifo: bool, q: S.Queue, top: u8)
    requires Represents(m, births, fifo, q)
    requires (exists x :: x in m && x.prio == top) && (forall x :: x in m ==> x.prio <= top)
    ensures S.TopPriority(q) == Some(top)
  {
    var x :| x in m && x.prio == top;
    assert Stands(q, x);
    EmptyRepresents(m, births, fifo, q);
    var p := S.TopPriority(q).value;
    var j :| S.Queued(q, j) && q.slots[j].value.prio == p;
    assert m[ItemOf(q, j)] == 1;
  }

  lemma TwiceCountsTwice(s: seq<Item>, a: nat, b: nat)
    requires a < b < |s| && s[a] == s[b]
    ensures multiset(s)[s[a]] >= 2
  {
    assert s == s[..b] + s[b..];
    assert s[a] in s[..b] && s[b] in s[b..];
    assert multiset(s) == multiset(s[..b]) + multiset(s[b..]);
    assert s[b] == s[b..][0] && s[a] == s[..b][a];
    assert multiset(s[..b])[s[a]] >= 1 && multiset(s[b..])[s[a]] >= 1;
  }

  /** A slot that is not queued always finds room in the heap. */
  lemma RoomToInsert(items: seq<Item>, births: nat, fifo: bool, q: S.Queue, i: nat)
    requires Represents(multiset(items), births, fifo, q) && i < |q.slots| && !S.Queued(q, i)
    ensures |items| < MAX_TASKS
  {
    var ids: seq<nat> := seq(|items|, k requires 0 <= k < |items| => items[k].id);
    forall k | 0 <= k < |items| ensures Stands(q, items[k]) {
      assert items[k] in multiset(items);
    }
    forall a, b | 0 <= a < b < |ids| ensures ids[a] != ids[b] {
      if ids[a] == ids[b] { TwiceCountsTwice(items, a, b); }
    }
    assert i !in ids;
    Graph.DistinctFits(ids, |q.slots|);
  }

  lemma {:induction false} NotYetQueued(tasks: seq<Task>, n: nat, i: nat)
    requires n <= i < |tasks|
    ensures !S.Queued(S.Filled(tasks, n), i)
  {
    if n > 0 { NotYetQueued(tasks, n - 1, i); }
  }

  /** Slot `j` is woken if it is a due sleeper. */
  ghost function WokenAt(w: S.Sched, now: u32, j: nat): S.Sched {
    if j < |w.tasks| && j < |w.ready.slots| && S.Due(w.tasks[j], now) then S.Wake(w, j) else w
  }

  /** The states between the iterations of the `wake_sleepers` loop. */
  ghost predicate WakeTrace(ws: seq<S.Sched>, now: u32) {
    forall j :: 0 < j < |ws| ==> ws[j] == WokenAt(ws[j - 1], now, j - 1)
  }

  lemma {:induction false} TraceIsWakeSleepers(ws: seq<S.Sched>, now: u32, i: nat)
    requires i < |ws| && WakeTrace(ws, now) && S.Consistent(ws[0]) && i <= |ws[0].tasks|
    ensures ws[i] == S.WakeSleepers(ws[0], now, i) && S.Consistent(ws[i])
  {
    if i > 0 { TraceIsWakeSleepers(ws, now, i - 1); }
    S.WakeSleepersKeeps(ws[0], now, i);
  }

  /**
    `ws` leads from `w0` to `w` in `i` iterations.  The `match`, which uses no part
    of `w`, keeps the verifier from taking the predicate apart.
   */
  ghost predicate TraceTo(ws: seq<S.Sched>, w0: S.Sched, now: u32, i: nat, w: S.Sched) {
    match w
    case Sched(_, _, _, _, _, _) => |ws| == i + 1 && ws[0] == w0 && ws[i] == w && WakeTrace(ws, now)
  }

  lemma TraceGrows(ws: seq<S.Sched>, w0: S.Sched, now: u32, i: nat, w: S.Sched, w': S.Sched)
    requires TraceTo(ws, w0, now, i, w) && w' == WokenAt(w, now, i)
    ensures TraceTo(ws + [w'], w0, now, i + 1, w')
  {
  }

  lemma TraceConsistent(ws: seq<S.Sched>, w0: S.Sched, now: u32, i: nat, w: S.Sched)
    requires TraceTo(ws, w0, now, i, w) && S.Consistent(w0) && i <= |w0.tasks|
    ensures S.Consistent(w)
  {
    TraceIsWakeSleepers(ws, now, i);
  }

  lemma TraceEnds(ws: seq<S.Sched>, w0: S.Sched, now: u32, i: nat, w: S.Sched)
    requires TraceTo(ws, w0, now, i, w) && S.Consistent(w0) && i <= |w0.tasks|
    ensures w == S.WakeSleepers(w0, now, i)
  {
    TraceIsWakeSleepers(ws, now, i);
  }

  class SchedulerState {
    var tasks: seq<Task>
    const ready: PriorityQueue
    var current: nat
    var quantum: u32
    const pmp: Pmp.PmpUnit
    var halted: bool
    /** The abstract queue the heap stands for. */
    ghost var queue: S.Queue
    /** The descriptor memory protection was last set up for. */
    ghost var active: Option<TaskInfo>
    /** The protection registers at boot. */
    ghost const boot: Pmp.Regs

    /** Before `populate_ready_queue`: nothing queued, nothing running. */
    constructor (tasks: seq<Task>, pmp: Pmp.PmpUnit)
      requires |tasks| <= MAX_TASKS && pmp.regs.cfg0[1] == 0
      ensures Valid() && this.pmp == pmp && fresh(ready) && fresh(ready.heap)
      ensures View() == S.Sched(tasks, S.Queue(seq(|tasks|, _ => None), 0, true), S.NO_TASK, 0, None, false)
    {
      this.tasks := tasks;
      ready := new PriorityQueue(MAX_TASKS);
      current, quantum, halted := S.NO_TASK, 0, false;
      this.pmp := pmp;
      queue := S.Queue(seq(|tasks|, _ => None), 0, true);
      active := None;
      boot := pmp.regs;
    }

    ghost function View(): S.Sched
      reads this
    {
      S.Sched(tasks, queue, current, quantum, active, halted)
    }

    ghost predicate Valid()
      reads this, ready, ready.heap, pmp
    {
      && ready.Valid() && ready.heap.Length == MAX_TASKS
      && Represents(multiset(ready.items), ready.births, ready.fifo, queue)
      && boot.cfg0[1] == 0 && pmp.regs == Pmp.Programmed(boot, active)
    }

    /** `READY_QUEUE.insert(i, prio)` */
    method InsertReady(i: nat, prio: u8)
      requires Valid() && i < |queue.slots| && !S.Queued(queue, i)
      modifies this`queue, ready, ready.heap
      ensures Valid() && queue == S.Enqueue(old(queue), i, prio)
    {
      RoomToInsert(ready.items, ready.births, ready.fifo, queue, i);
      InsertRepresents(multiset(ready.items), ready.births, ready.fifo, queue, i, prio);
      ready.Insert(i, prio);
      queue := S.Enqueue(queue, i, prio);
    }

    /** `READY_QUEUE.pop_max()`; the popped slot is one the abstract queue allows. */
    method PopReady() returns (r: Option<u8>)
      requires Valid()
      modifies this`queue, ready, ready.heap
      ensures Valid() == true && (r.None? <==> S.Empty(old(queue)))
      ensures r.None? ==> queue == old(queue)
      ensures r.Some? ==> S.Legal(old(queue), r.value) && queue == S.Dequeue(old(queue), r.value)
    {
      EmptyRepresents(multiset(ready.items), ready.births, ready.fifo, queue);
      ghost var m := multiset(ready.items);
      ghost var top;
      r, top := ready.PopMax();
      if r.Some? {
        assert top in m;
        PopRepresents(m, ready.births, ready.fifo, queue, top);
        queue := S.Dequeue(queue, top.id);
        assert ready.Valid() == true;
        assert Represents(multiset(ready.items), ready.births, ready.fifo, queue) == true;
      }
    }

    /** The loop that queues every ready task. */
    method FillReady()
      requires Valid() && queue == S.Filled(tasks, 0)
      modifies this`queue, ready, ready.heap
      ensures Valid() == true && View() == old(View()).(ready := S.Filled(tasks, |tasks|))
    {
      var i := 0;
      while i < |tasks|
        invariant 0 <= i <= |tasks| && Valid() == true && queue == S.Filled(tasks, i)
      {
        NotYetQueued(tasks, i, i);
        if tasks[i].state.Ready? {
          InsertReady(i, EffectivePriority(tasks[i].info));
        }
        i := i + 1;
      }
    }

    /** `populate_ready_queue`: queue every ready task, then run the best one if there is one. */
    method PopulateReadyQueue() returns (ghost pick: nat)
      requires Valid() && queue == S.Filled(tasks, 0)
      modifies this, ready, ready.heap, pmp
      ensures Valid()
      ensures var filled := old(View()).(ready := S.Filled(old(tasks), |old(tasks)|));
              View() == if S.Empty(filled.ready) then filled else S.DispatchNext(filled, pick)
    {
      pick := 0;
      FillReady();
      var next := PopReady();
      if next.Some? {
        pick := next.value;
        MarkRunning(next.value);
      }
    }

    /** `save_current` */
    method SaveCurrent(framePtr: int)
      requires Valid()
      modifies this`tasks
      ensures Valid() && View() == S.SaveCurrent(old(View()), framePtr)
    {
      if current < |tasks| {
        tasks := tasks[current := tasks[current].(framePtr := framePtr)];
      }
    }

    /** The body of the `prepare_frames` loop that concerns the descriptor. */
    method SetFrame(i: nat, framePtr: int)
      requires Valid() && i < |tasks|
      modifies this`tasks
      ensures Valid() == true && View() == old(View()).(tasks := old(tasks)[i := old(tasks)[i].(framePtr := framePtr)])
    {
      tasks := tasks[i := tasks[i].(framePtr := framePtr)];
    }

    /** `mark_running` */
    method MarkRunning(i: nat)
      requires Valid()
      modifies this`tasks, this`current, this`quantum, this`active, pmp
      ensures Valid() && View() == S.MarkRunning(old(View()), i)
    {
      current, quantum := i, 0;
      if i < |tasks| {
        tasks := tasks[i := tasks[i].(state := Running)];
        Pmp.ProgrammedTwice(boot, active, tasks[i].info);
        pmp.ActivateTaskRegion(tasks[i].info);
        active := Some(tasks[i].info);
      }
    }

    /** `dispatch_next`; `pick` is the slot the heap chose. */
    method DispatchNext() returns (ghost pick: nat)
      requires Valid()
      modifies this, ready, ready.heap, pmp
      ensures Valid() && View() == S.DispatchNext(old(View()), pick)
    {
      pick := 0;
      var next := PopReady();
      if next.Some? {
        pick := next.value;
        MarkRunning(next.value);
      } else {
        halted := true;
      }
    }

    /** `requeue_current` */
    method RequeueCurrent()
      requires Valid() && S.Consistent(View())
      modifies this`tasks, this`queue, ready, ready.heap
      ensures Valid() && View() == S.RequeueCurrent(old(View()))
    {
      assert S.KeyOk(tasks[current], queue.slots[current], queue.births);
      InsertReady(current, EffectivePriority(tasks[current].info));
      tasks := tasks[current := tasks[current].(state := Ready)];
    }

    /** Make the blocked task in slot `i` ready and queue it. */
    method Wake(i: nat)
      requires Valid() && S.Consistent(View()) && i < |tasks| && tasks[i].state.Blocked?
      modifies this`tasks, this`queue, ready, ready.heap
      ensures Valid() && View() == S.Wake(old(View()), i)
    {
      assert S.KeyOk(tasks[i], queue.slots[i], queue.births);
      InsertReady(i, EffectivePriority(tasks[i].info));
      tasks := tasks[i := tasks[i].(state := Ready, blockedOn := NotBlocked)];
    }

    /** `peek_max_priority`, with `is_empty` */
    method TopPriority() returns (p: Option<u8>)
      requires Valid()
      ensures p == S.TopPriority(queue)
    {
      EmptyRepresents(multiset(ready.items), ready.births, ready.fifo, queue);
      var top := ready.PeekMaxPriority();
      p := if ready.len == 0 then None else Some(top);
      if ready.len != 0 {
        PeekIsTop(multiset(ready.items), ready.births, ready.fifo, queue, top);
      }
    }

    /** The body of the `wake_sleepers` loop. */
    method WakeIfDue(i: nat, now: u32)
      requires Valid() == true && S.Consistent(View()) == true && i < |tasks|
      modifies this`tasks, this`queue, ready, ready.heap
      ensures Valid() == true && View() == WokenAt(old(View()), now, i) && |tasks| == old(|tasks|)
    {
      if tasks[i].state.Blocked? && tasks[i].blockedOn == Sleep && S.TickReached(now, tasks[i].wakeAt) {
        Wake(i);
      }
    }

    /** The `wake_sleepers` loop, with the states between its iterations. */
    method WakeEach(now: u32) returns (ghost ws: seq<S.Sched>)
      requires Valid() && S.Consistent(View())
      modifies this`tasks, this`queue, ready, ready.heap
      ensures Valid() == true && TraceTo(ws, old(View()), now, |old(tasks)|, View()) == true
    {
      ghost var w0 := View();
      ws := [w0];
      var i := 0;
      while i < |tasks|
        invariant 0 <= i <= |tasks| == |w0.tasks| && Valid() == true && TraceTo(ws, w0, now, i, View()) == true
      {
        ghost var w := View();
        TraceConsistent(ws, w0, now, i, w);
        WakeIfDue(i, now);
        TraceGrows(ws, w0, now, i, w, View());
        i, ws := i + 1, ws + [View()];
      }
    }

    /** `wake_sleepers` */
    method WakeSleepers(now: u32)
      requires Valid() && S.Consistent(View())
      modifies this`tasks, this`queue, ready, ready.heap
      ensures Valid() == true && View() == S.WakeSleepers(old(View()), now, |old(tasks)|)
    {
      ghost var w0 := View();
      ghost var ws := WakeEach(now);
      TraceEnds(ws, w0, now, |w0.tasks|, View());
    }

    /** `tick`: the preemption check; the result says whether another task runs now. */
    method Tick() returns (switched: bool, ghost pick: nat)
      requires Valid() && S.Consistent(View())
      modifies this, ready, ready.heap, pmp
      ensures Valid() && View() == S.Tick(old(View()), pick)
      ensures switched <==> current != old(current)
    {
      pick := 0;
      var cur := current;
      quantum := WrapAdd(quantum, 1);
      assert S.Consistent(View());
      var curEff: u8 := EffectivePriority(tasks[current].info);
      var nextEff := TopPriority();
      if !S.ShouldPreempt(curEff, nextEff, quantum) {
        return false, pick;
      }
      pick := YieldHere();
      switched := current != cur;
    }

    /** Requeue the running task and dispatch. */
    method YieldHere() returns (ghost pick: nat)
      requires Valid() && S.Consistent(View())
      modifies this, ready, ready.heap, pmp
      ensures Valid() && View() == S.YieldCurrent(old(View()), pick)
    {
      RequeueCurrent();
      pick := DispatchNext();
    }

    /** `yield_current` */
    method YieldCurrent(framePtr: int) returns (ghost pick: nat)
      requires Valid() && S.Consistent(View())
      modifies this, ready, ready.heap, pmp
      ensures Valid() && View() == S.YieldCurrent(S.SaveCurrent(old(View()), framePtr), pick)
    {
      S.SaveKeeps(View(), framePtr);
      SaveCurrent(framePtr);
      pick := YieldHere();
    }

    /** `sleep_current` */
    method SleepCurrent(framePtr: int, now: u32, ticks: u32) returns (ghost pick: nat)
      requires Valid()
      modifies this, ready, ready.heap, pmp
      ensures Valid() && View() == S.SleepCurrent(S.SaveCurrent(old(View()), framePtr), now, ticks, pick)
    {
      SaveCurrent(framePtr);
      if current < |tasks| {
        tasks := tasks[current := tasks[current].(state := Blocked, blockedOn := Sleep, wakeAt := WrapAdd(now, Max(ticks, 1)))];
      }
      pick := DispatchNext();
    }

    /** `block_current` */
    method BlockCurrent(framePtr: int, reason: BlockReason) returns (ghost pick: nat)
      requires Valid()
      modifies this, ready, ready.heap, pmp
      ensures Valid() && View() == S.BlockCurrent(S.SaveCurrent(old(View()), framePtr), reason, pick)
    {
      SaveCurrent(framePtr);
      if current < |tasks| {
        tasks := tasks[current := tasks[current].(state := Blocked, blockedOn := reason)];
      }
      pick := DispatchNext();
    }

    /** `wake_blocked_on` */
    method WakeBlockedOn(reason: BlockReason) returns (woken: Option<nat>)
      requires Valid() && S.Consistent(View())
      modifies this`tasks, this`queue, ready, ready.heap
      ensures Valid() && View() == S.WakeBlockedOn(old(View()), reason)
      ensures woken.Some? ==> woken.value == S.FirstWaiting(old(tasks), reason)
    {
      var i := 0;
      while i < |tasks|
        invariant 0 <= i <= S.FirstWaiting(tasks, reason)
      {
        if tasks[i].state.Blocked? && tasks[i].blockedOn == reason {
          assert i == S.FirstWaiting(tasks, reason);
          Wake(i);
          return Some(i);
        }
        assert i != S.FirstWaiting(tasks, reason);
        i := i + 1;
      }
      return None;
    }

    /** `preempt_if_outranked`: whether another dispatch was made. */
    method PreemptIfOutranked(framePtr: int) returns (dispatched: bool, ghost pick: nat)
      requires Valid() && S.Consistent(View())
      modifies this, ready, ready.heap, pmp
      ensures Valid() && View() == S.PreemptIfOutranked(old(View()), framePtr, pick)
      ensures dispatched == S.Outranked(old(View()))
    {
      pick := 0;
      var top := TopPriority();
      if top.None? || top.value <= EffectivePriority(tasks[current].info) {
        return false, pick;
      }
      pick := YieldCurrent(framePtr);
      dispatched := true;
    }
  }
}
