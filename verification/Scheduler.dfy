/**
  The CA-PIP scheduler as a function on its state.  The heap appears as the map
  from queued slots to their keys; `hint` stands for the choice the heap makes
  among equally good entries once ages no longer decide.
 */
module Scheduler {
  import opened Words
  import opened Tasks

  const TIME_QUANTUM_TICKS: nat := 5

  /** The index that means "no task is running", before the first dispatch. */
  const NO_TASK: nat := 0xFF

  // ---------------------------------------------------------------------
  // The ready queue, abstractly
  // ---------------------------------------------------------------------

  datatype Key = Key(prio: u8, birth: nat)

  /** `slots[i]` is the key of slot `i` if it is queued. */
  datatype Queue = Queue(slots: seq<Option<Key>>, births: nat, fifo: bool)

  predicate Queued(q: Queue, i: int) {
    0 <= i < |q.slots| && q.slots[i].Some?
  }

  predicate Better(fifo: bool, a: Key, b: Key) {
    a.prio > b.prio || (a.prio == b.prio && (fifo ==> a.birth <= b.birth))
  }

  predicate KeyNear(a: Key, b: Key) {
    a.prio == b.prio ==> WithinWindow(a.birth, b.birth)
  }

  ghost predicate KeysNear(q: Queue) {
    forall i, j {:trigger KeyNear(q.slots[i].value, q.slots[j].value)} ::
      Queued(q, i) && Queued(q, j) ==> KeyNear(q.slots[i].value, q.slots[j].value)
  }

  /** A birth number names one slot. */
  predicate BornOnce(q: Queue, i: int, j: int) {
    Queued(q, i) && Queued(q, j) && q.slots[i].value.birth == q.slots[j].value.birth ==> i == j
  }

  /** Slot `i` may be popped next. */
  ghost predicate Legal(q: Queue, i: nat) {
    Queued(q, i) && forall j :: Queued(q, j) ==> Better(q.fifo, q.slots[i].value, q.slots[j].value)
  }

  predicate Empty(q: Queue) {
    forall i :: 0 <= i < |q.slots| ==> q.slots[i].None?
  }

  /** The best queued slot among the first `n`. */
  function BestBelow(q: Queue, n: nat): (b: Option<nat>)
    requires n <= |q.slots|
    ensures b.None? ==> forall i :: 0 <= i < n ==> !Queued(q, i)
    ensures b.Some? ==> Queued(q, b.value)
    ensures b.Some? ==> forall i :: 0 <= i < n && Queued(q, i) ==> Better(q.fifo, q.slots[b.value].value, q.slots[i].value)
  {
    if n == 0 then None
    else
      var b := BestBelow(q, n - 1);
      if q.slots[n - 1].None? then b
      else if b.Some? && Better(q.fifo, q.slots[b.value].value, q.slots[n - 1].value) then b
      else Some(n - 1)
  }

  lemma LegalExists(q: Queue)
    requires !Empty(q)
    ensures exists i :: Legal(q, i)
  {
    var some :| 0 <= some < |q.slots| && q.slots[some].Some?;
    assert Queued(q, some);
    assert Legal(q, BestBelow(q, |q.slots|).value);
  }

  /** The slot that is popped. */
  ghost function Pick(q: Queue, hint: nat): (i: nat)
    requires !Empty(q)
    ensures Legal(q, i) && (Legal(q, hint) ==> i == hint)
  {
    LegalExists(q);
    if Legal(q, hint) then hint else var i :| Legal(q, i); i
  }

  /** `peek_max_priority`, or `None` for an empty queue. */
  ghost function TopPriority(q: Queue): (p: Option<u8>)
    ensures p.None? <==> Empty(q)
    ensures p.Some? ==> forall j :: Queued(q, j) ==> q.slots[j].value.prio <= p.value
    ensures p.Some? ==> exists j :: Queued(q, j) && q.slots[j].value.prio == p.value
  {
    if Empty(q) then None else Some(q.slots[Pick(q, 0)].value.prio)
  }

  ghost function Enqueue(q: Queue, i: nat, prio: u8): Queue
    requires i < |q.slots|
  {
    var q' := Queue(q.slots[i := Some(Key(prio, q.births))], q.births + 1, q.fifo);
    q'.(fifo := q.fifo && KeysNear(q'))
  }

  function Dequeue(q: Queue, i: nat): Queue
    requires i < |q.slots|
  {
    q.(slots := q.slots[i := None])
  }

  // ---------------------------------------------------------------------
  // The operations
  // ---------------------------------------------------------------------

  /**
    `active` is the descriptor that `activate_task_region` was last called with;
    the registers that call leaves behind are `Pmp.Activated` of it.
   */
  datatype Sched = Sched(
    tasks: seq<Task>,
    ready: Queue,
    current: nat,
    quantum: u32,
    active: Option<TaskInfo>,
    halted: bool)

  function Eff(t: Task): u8 {
    EffectivePriority(t.info)
  }

  /** `populate_ready_queue`: the queue after the ready ones among the first `n` tasks have been inserted. */
  ghost function Filled(tasks: seq<Task>, n: nat): (q: Queue)
    requires n <= |tasks|
    ensures |q.slots| == |tasks|
  {
    if n == 0 then Queue(seq(|tasks|, _ => None), 0, true)
    else if tasks[n - 1].state.Ready? then Enqueue(Filled(tasks, n - 1), n - 1, Eff(tasks[n - 1]))
    else Filled(tasks, n - 1)
  }

  function SaveCurrent(s: Sched, framePtr: int): Sched {
    if s.current >= |s.tasks| then s
    else s.(tasks := s.tasks[s.current := s.tasks[s.current].(framePtr := framePtr)])
  }

  function MarkRunning(s: Sched, i: nat): Sched {
    var s' := s.(current := i, quantum := 0);
    if i >= |s.tasks| then s'
    else s'.(tasks := s.tasks[i := s.tasks[i].(state := Running)], active := Some(s.tasks[i].info))
  }

  /** Pop the best ready task and run it; with nothing to pop the kernel halts. */
  ghost function DispatchNext(s: Sched, hint: nat): Sched {
    if Empty(s.ready) then s.(halted := true)
    else
      var i := Pick(s.ready, hint);
      MarkRunning(s.(ready := Dequeue(s.ready, i)), i)
  }

  ghost function RequeueCurrent(s: Sched): Sched {
    if s.current >= |s.tasks| || s.current >= |s.ready.slots| then s
    else
      var t := s.tasks[s.current];
      s.(tasks := s.tasks[s.current := t.(state := Ready)], ready := Enqueue(s.ready, s.current, Eff(t)))
  }

  /** Make the blocked task in slot `i` ready. */
  ghost function Wake(s: Sched, i: nat): Sched
    requires i < |s.tasks| && i < |s.ready.slots|
  {
    var t := s.tasks[i];
    s.(tasks := s.tasks[i := t.(state := Ready, blockedOn := NotBlocked)], ready := Enqueue(s.ready, i, Eff(t)))
  }

  /** `now` has reached `deadline`, by wrapping distance. */
  predicate TickReached(now: u32, deadline: u32) {
    AsI32(WrapSub(now, deadline)) >= 0
  }

  predicate Due(t: Task, now: u32) {
    t.state.Blocked? && t.blockedOn.Sleep? && TickReached(now, t.wakeAt)
  }

  /** Wake every due sleeper among the first `n` slots, in slot order. */
  ghost function WakeSleepers(s: Sched, now: u32, n: nat): (s': Sched)
    requires n <= |s.tasks| && n <= |s.ready.slots|
    ensures |s'.tasks| == |s.tasks| && |s'.ready.slots| == |s.ready.slots|
  {
    if n == 0 then s
    else
      var r := WakeSleepers(s, now, n - 1);
      if Due(r.tasks[n - 1], now) then Wake(r, n - 1) else r
  }

  predicate ShouldPreempt(curEff: u8, nextEff: Option<u8>, ticksSinceSwitch: u32) {
    nextEff.Some? &&
    (nextEff.value > curEff || (ticksSinceSwitch >= TIME_QUANTUM_TICKS && nextEff.value >= curEff))
  }

  function CurrentEff(s: Sched): u8 {
    if s.current < |s.tasks| then Eff(s.tasks[s.current]) else 0
  }

  /** The preemption check of one timer tick. */
  ghost function Tick(s: Sched, hint: nat): Sched {
    var s1 := s.(quantum := WrapAdd(s.quantum, 1));
    if ShouldPreempt(CurrentEff(s1), TopPriority(s1.ready), s1.quantum)
    then DispatchNext(RequeueCurrent(s1), hint)
    else s1
  }

  ghost function YieldCurrent(s: Sched, hint: nat): Sched {
    DispatchNext(RequeueCurrent(s), hint)
  }

  /** Block the running task, without dispatching. */
  function BlockTask(s: Sched, reason: BlockReason, wakeAt: u32): Sched {
    if s.current >= |s.tasks| then s
    else s.(tasks := s.tasks[s.current := s.tasks[s.current].(state := Blocked, blockedOn := reason, wakeAt := wakeAt)])
  }

  function WakeAt(s: Sched): u32 {
    if s.current < |s.tasks| then s.tasks[s.current].wakeAt else 0
  }

  ghost function SleepCurrent(s: Sched, now: u32, ticks: u32, hint: nat): Sched {
    DispatchNext(BlockTask(s, Sleep, WrapAdd(now, Max(ticks, 1))), hint)
  }

  ghost function BlockCurrent(s: Sched, reason: BlockReason, hint: nat): Sched {
    DispatchNext(BlockTask(s, reason, WakeAt(s)), hint)
  }

  /** The first slot blocked on `reason`, or the number of tasks. */
  function FirstWaiting(tasks: seq<Task>, reason: BlockReason): (i: nat)
    ensures i <= |tasks|
    ensures i < |tasks| ==> tasks[i].state.Blocked? && tasks[i].blockedOn == reason
    ensures forall j :: 0 <= j < i ==> !(tasks[j].state.Blocked? && tasks[j].blockedOn == reason)
  {
    if tasks == [] then 0
    else if tasks[0].state.Blocked? && tasks[0].blockedOn == reason then 0
    else 1 + FirstWaiting(tasks[1..], reason)
  }

  ghost function WakeBlockedOn(s: Sched, reason: BlockReason): Sched {
    var i := FirstWaiting(s.tasks, reason);
    if i < |s.tasks| && i < |s.ready.slots| then Wake(s, i) else s
  }

  /** Whether a queued task strictly outranks the running one. */
  ghost predicate Outranked(s: Sched) {
    var top := TopPriority(s.ready);
    top.Some? && top.value > CurrentEff(s)
  }

  ghost function PreemptIfOutranked(s: Sched, framePtr: int, hint: nat): Sched {
    if Outranked(s) then DispatchNext(RequeueCurrent(SaveCurrent(s, framePtr)), hint) else s
  }

  // ---------------------------------------------------------------------
  // The invariant
  // ---------------------------------------------------------------------

  /** The key of a ready task is its effective priority and a birth number given out before; nothing is suspended. */
  predicate KeyOk(t: Task, k: Option<Key>, births: nat) {
    && !t.state.Suspended?
    && (k.Some? <==> t.state.Ready?)
    && (k.Some? ==> k.value.prio == Eff(t) && k.value.birth < births)
  }

  /**
    The queue holds exactly the ready slots, keyed by their effective priority,
    each born once.  Ages are in order at least until 2^31 insertions have been made.
   */
  ghost predicate QueueOk(tasks: seq<Task>, q: Queue) {
    match q
    case Queue(slots, births, fifo) =>
      && |slots| == |tasks|
      && (forall i :: 0 <= i < |tasks| ==> KeyOk(tasks[i], slots[i], births))
      && (forall i, j :: BornOnce(q, i, j))
      && (fifo ==> KeysNear(q)) && (births <= TWO31 ==> fifo)
  }

  ghost predicate Shape(s: Sched) {
    && 0 < |s.tasks| <= MAX_TASKS && !s.halted
    && QueueOk(s.tasks, s.ready)
    && Runnable(s.tasks[|s.tasks| - 1])
  }

  predicate Runnable(t: Task) {
    t.state.Ready? || t.state.Running?
  }

  /** Between traps: exactly the current task is running, and memory protection was set up for it. */
  ghost predicate Consistent(s: Sched) {
    && Shape(s) && s.current < |s.tasks| && s.active == Some(s.tasks[s.current].info)
    && forall i :: 0 <= i < |s.tasks| ==> (s.tasks[i].state.Running? <==> i == s.current)
  }

  /** Inside a trap, after the current task has been taken off the CPU. */
  ghost predicate Deciding(s: Sched) {
    Shape(s) && forall i :: 0 <= i < |s.tasks| ==> !s.tasks[i].state.Running?
  }

  /** No ready task outranks the running one. */
  ghost predicate TopRuns(s: Sched) {
    forall i :: Queued(s.ready, i) ==> s.ready.slots[i].value.prio <= CurrentEff(s)
  }

  lemma EnqueueOk(tasks: seq<Task>, q: Queue, i: nat, t: Task)
    requires QueueOk(tasks, q) && i < |tasks| && !tasks[i].state.Ready? && t.state.Ready?
    ensures QueueOk(tasks[i := t], Enqueue(q, i, Eff(t)))
  {
    var q' := Enqueue(q, i, Eff(t));
    forall a, b ensures BornOnce(q', a, b) {
      assert BornOnce(q, a, b);
      if 0 <= a < |tasks| { assert KeyOk(tasks[a], q.slots[a], q.births); }
      if 0 <= b < |tasks| { assert KeyOk(tasks[b], q.slots[b], q.births); }
    }
  }

  lemma DequeueOk(tasks: seq<Task>, q: Queue, i: nat)
    requires QueueOk(tasks, q) && Queued(q, i)
    ensures i < |tasks| && QueueOk(tasks[i := tasks[i].(state := Running)], Dequeue(q, i))
  {
    var q' := Dequeue(q, i);
    forall a, b ensures BornOnce(q', a, b) {
      assert BornOnce(q, a, b);
    }
    forall a, b | Queued(q', a) && Queued(q', b) ensures q.fifo ==> KeyNear(q'.slots[a].value, q'.slots[b].value) {
      assert Queued(q, a) && Queued(q, b);
    }
  }

  lemma WakeKeeps(s: Sched, i: nat)
    requires Consistent(s) && i < |s.tasks| && s.tasks[i].state.Blocked?
    ensures Consistent(Wake(s, i))
  {
    EnqueueOk(s.tasks, s.ready, i, Wake(s, i).tasks[i]);
  }

  lemma RequeueDecides(s: Sched)
    requires Consistent(s)
    ensures Deciding(RequeueCurrent(s))
  {
    EnqueueOk(s.tasks, s.ready, s.current, RequeueCurrent(s).tasks[s.current]);
  }

  /** Anything but the idle task may block. */
  lemma BlockDecides(s: Sched, reason: BlockReason, wakeAt: u32)
    requires Consistent(s) && s.current != |s.tasks| - 1
    ensures Deciding(BlockTask(s, reason, wakeAt))
  {
  }

  /** A dispatch never finds the queue empty, and the task it picks is the best one. */
  lemma DispatchKeeps(s: Sched, hint: nat)
    requires Deciding(s)
    ensures var s' := DispatchNext(s, hint);
            && Consistent(s') && TopRuns(s')
            && s'.current < |s.ready.slots| && Legal(s.ready, s'.current) && s'.quantum == 0
            && s'.ready == Dequeue(s.ready, s'.current)
            && s'.tasks == s.tasks[s'.current := s.tasks[s'.current].(state := Running)]
            && s'.active == Some(s.tasks[s'.current].info)
  {
    assert KeyOk(s.tasks[|s.tasks| - 1], s.ready.slots[|s.tasks| - 1], s.ready.births);
    DequeueOk(s.tasks, s.ready, Pick(s.ready, hint));
  }

  lemma SaveKeeps(s: Sched, framePtr: int)
    requires Consistent(s)
    ensures Consistent(SaveCurrent(s, framePtr)) && (TopRuns(s) ==> TopRuns(SaveCurrent(s, framePtr)))
  {
    assert QueueOk(SaveCurrent(s, framePtr).tasks, s.ready);
  }

  lemma YieldKeeps(s: Sched, hint: nat)
    requires Consistent(s)
    ensures Consistent(YieldCurrent(s, hint)) && TopRuns(YieldCurrent(s, hint))
  {
    RequeueDecides(s);
    DispatchKeeps(RequeueCurrent(s), hint);
  }

  lemma BlockKeeps(s: Sched, reason: BlockReason, wakeAt: u32, hint: nat)
    requires Consistent(s) && s.current != |s.tasks| - 1
    ensures var s' := DispatchNext(BlockTask(s, reason, wakeAt), hint);
            Consistent(s') && TopRuns(s')
  {
    BlockDecides(s, reason, wakeAt);
    DispatchKeeps(BlockTask(s, reason, wakeAt), hint);
  }

  lemma {:induction false} WakeSleepersKeeps(s: Sched, now: u32, n: nat)
    requires Consistent(s) == true && n <= |s.tasks| && n <= |s.ready.slots|
    ensures Consistent(WakeSleepers(s, now, n)) == true
  {
    if n > 0 {
      WakeSleepersKeeps(s, now, n - 1);
      WakeStepKeeps(s, now, n, WakeSleepers(s, now, n - 1));
    }
  }

  lemma WakeStepKeeps(s: Sched, now: u32, n: nat, r: Sched)
    requires 0 < n <= |s.tasks| && n <= |s.ready.slots| && r == WakeSleepers(s, now, n - 1) && Consistent(r) == true
    ensures Consistent(WakeSleepers(s, now, n)) == true
  {
    WakeSleepersStep(s, now, n);
    WakeIfDueKeeps(r, now, n - 1);
  }

  lemma WakeSleepersStep(s: Sched, now: u32, n: nat)
    requires 0 < n <= |s.tasks| && n <= |s.ready.slots|
    ensures var r := WakeSleepers(s, now, n - 1);
            WakeSleepers(s, now, n) == if Due(r.tasks[n - 1], now) then Wake(r, n - 1) else r
  {
  }

  lemma WakeIfDueKeeps(s: Sched, now: u32, i: nat)
    requires Consistent(s) == true && i < |s.tasks| && i < |s.ready.slots|
    ensures Consistent(if Due(s.tasks[i], now) then Wake(s, i) else s) == true
  {
    if Due(s.tasks[i], now) { WakeKeeps(s, i); }
  }

  lemma WakeBlockedKeeps(s: Sched, reason: BlockReason)
    requires Consistent(s)
    ensures Consistent(WakeBlockedOn(s, reason))
  {
    var i := FirstWaiting(s.tasks, reason);
    if i < |s.tasks| {
      WakeKeeps(s, i);
    }
  }

  /** After a tick the best task runs, whether or not there was a switch. */
  lemma TickKeeps(s: Sched, hint: nat)
    requires Consistent(s)
    ensures Consistent(Tick(s, hint)) && TopRuns(Tick(s, hint))
  {
    var s1 := s.(quantum := WrapAdd(s.quantum, 1));
    assert Consistent(s1);
    if ShouldPreempt(CurrentEff(s1), TopPriority(s1.ready), s1.quantum) {
      YieldKeeps(s1, hint);
    }
  }

  lemma PreemptKeeps(s: Sched, framePtr: int, hint: nat)
    requires Consistent(s)
    ensures Consistent(PreemptIfOutranked(s, framePtr, hint)) && TopRuns(PreemptIfOutranked(s, framePtr, hint))
  {
    if Outranked(s) {
      SaveKeeps(s, framePtr);
      YieldKeeps(SaveCurrent(s, framePtr), hint);
    }
  }

  // ---------------------------------------------------------------------
  // What happens to each task
  // ---------------------------------------------------------------------

  /** What a task waits for, if it is blocked. */
  function Wait(t: Task): Option<BlockReason> {
    if t.state.Blocked? then Some(t.blockedOn) else None
  }

  /** Equal up to being queued or running. */
  predicate SameTask(a: Task, b: Task) {
    a.info == b.info && Wait(a) == Wait(b) && a.wakeAt == b.wakeAt && a.framePtr == b.framePtr
  }

  ghost predicate SameTasks(a: seq<Task>, b: seq<Task>) {
    |a| == |b| && forall i :: 0 <= i < |a| ==> SameTask(a[i], b[i])
  }

  /** Equal apart from slot `i`. */
  ghost predicate SameOthers(a: seq<Task>, b: seq<Task>, i: nat) {
    |a| == |b| && forall j :: 0 <= j < |a| && j != i ==> SameTask(a[j], b[j])
  }

  lemma DispatchSame(s: Sched, hint: nat)
    requires Deciding(s)
    ensures SameTasks(s.tasks, DispatchNext(s, hint).tasks)
  {
    DispatchKeeps(s, hint);
    assert s.tasks[DispatchNext(s, hint).current].state.Ready?;
  }

  lemma YieldSame(s: Sched, hint: nat)
    requires Consistent(s)
    ensures SameTasks(s.tasks, YieldCurrent(s, hint).tasks)
  {
    RequeueDecides(s);
    DispatchSame(RequeueCurrent(s), hint);
    assert s.tasks[s.current].state.Running?;
  }

  lemma TickSame(s: Sched, hint: nat)
    requires Consistent(s)
    ensures SameTasks(s.tasks, Tick(s, hint).tasks)
  {
    var s1 := s.(quantum := WrapAdd(s.quantum, 1));
    assert Consistent(s1);
    if ShouldPreempt(CurrentEff(s1), TopPriority(s1.ready), s1.quantum) {
      YieldSame(s1, hint);
    }
  }

  /** The blocked task waits for `reason`; nobody else is affected. */
  lemma BlockEffect(s: Sched, reason: BlockReason, wakeAt: u32, hint: nat)
    requires Consistent(s) && s.current != |s.tasks| - 1
    ensures var s' := DispatchNext(BlockTask(s, reason, wakeAt), hint);
            && SameOthers(s.tasks, s'.tasks, s.current)
            && Wait(s'.tasks[s.current]) == Some(reason)
            && s'.tasks[s.current].wakeAt == wakeAt
            && s'.tasks[s.current].framePtr == s.tasks[s.current].framePtr
            && s'.tasks[s.current].info == s.tasks[s.current].info
            && s'.current != s.current
  {
    BlockDecides(s, reason, wakeAt);
    DispatchSame(BlockTask(s, reason, wakeAt), hint);
    DispatchKeeps(BlockTask(s, reason, wakeAt), hint);
  }

  /** Exactly the due sleepers among the first `n` slots stop waiting. */
  lemma {:induction false} WakeSleepersEffect(s: Sched, now: u32, n: nat, j: nat)
    requires n <= |s.tasks| == |s.ready.slots| && j < |s.tasks|
    ensures var t, t' := s.tasks[j], WakeSleepers(s, now, n).tasks[j];
            && t'.info == t.info && t'.wakeAt == t.wakeAt && t'.framePtr == t.framePtr
            && (if j < n && Due(t, now) then t'.state.Ready? else t' == t)
  {
    if n > 0 {
      WakeSleepersEffect(s, now, n - 1, j);
    }
  }

  ghost predicate AtMostOneWaits(tasks: seq<Task>, reason: BlockReason) {
    forall a, b ::
      (0 <= a < |tasks| && 0 <= b < |tasks| && Wait(tasks[a]) == Some(reason) && Wait(tasks[b]) == Some(reason)) ==> a == b
  }

  /** If at most one task waits for `reason`, none does afterwards; nobody else is affected. */
  lemma WakeBlockedEffect(s: Sched, reason: BlockReason, j: nat)
    requires j < |s.tasks| == |s.ready.slots| && AtMostOneWaits(s.tasks, reason)
    ensures var t, t' := s.tasks[j], WakeBlockedOn(s, reason).tasks[j];
            && |WakeBlockedOn(s, reason).tasks| == |s.tasks|
            && t'.info == t.info && t'.wakeAt == t.wakeAt && t'.framePtr == t.framePtr
            && (if Wait(t) == Some(reason) then t'.state.Ready? else t' == t)
  {
  }

  lemma PreemptSame(s: Sched, framePtr: int, hint: nat)
    requires Consistent(s) && s.tasks[s.current].framePtr == framePtr
    ensures SameTasks(s.tasks, PreemptIfOutranked(s, framePtr, hint).tasks)
  {
    if Outranked(s) {
      SaveKeeps(s, framePtr);
      YieldSame(SaveCurrent(s, framePtr), hint);
      assert SaveCurrent(s, framePtr).tasks == s.tasks;
    }
  }
}
