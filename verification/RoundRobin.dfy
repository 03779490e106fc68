/** Tasks of equal priority take turns: a bound on how long a ready task waits for its peers. */
module RoundRobin {
  import opened Words
  import opened Tasks
  import opened Channels
  import opened Scheduler
  import opened Kernel
  import opened Invariant
  import opened Runs
  import opened Effects
  import opened SleepExact
  import Graph

  /** Queued slots of the same priority that were queued before `i`. */
  function AheadOf(q: Queue, i: nat): set<nat>
    requires Queued(q, i)
  {
    set j | 0 <= j < |q.slots| && Ahead(q, i, j)
  }

  predicate Ahead(q: Queue, i: nat, j: nat)
    requires Queued(q, i)
  {
    Queued(q, j) && q.slots[j].value.prio == q.slots[i].value.prio && q.slots[j].value.birth < q.slots[i].value.birth
  }

  /** `i` keeps its place: entries are removed, or added behind everything that was there. */
  ghost predicate KeepsPlace(q: Queue, q': Queue, i: nat) {
    && Queued(q, i) && |q'.slots| == |q.slots| && q'.slots[i] == q.slots[i] && q.births <= q'.births
    && (q'.fifo ==> q.fifo)
    && forall j :: Queued(q', j) ==>
         (Queued(q, j) && q'.slots[j] == q.slots[j]) || q'.slots[j].value.birth >= q.births
  }

  lemma KeepsTransitive(a: Queue, b: Queue, c: Queue, i: nat)
    requires KeepsPlace(a, b, i) && KeepsPlace(b, c, i)
    ensures KeepsPlace(a, c, i)
  {
  }

  lemma EnqueueKeepsPlace(q: Queue, i: nat, j: nat, prio: u8)
    requires Queued(q, i) && j < |q.slots| && j != i
    ensures KeepsPlace(q, Enqueue(q, j, prio), i)
  {
  }

  /** Whoever was behind `i` stays behind. */
  lemma AheadShrinks(tasks: seq<Task>, q: Queue, q': Queue, i: nat)
    requires QueueOk(tasks, q) && KeepsPlace(q, q', i)
    ensures Queued(q', i) && AheadOf(q', i) <= AheadOf(q, i)
  {
    assert KeyOk(tasks[i], q.slots[i], q.births);
    forall j | j in AheadOf(q', i) ensures j in AheadOf(q, i) {
      assert Queued(q', j);
    }
  }

  /** Waking another task leaves `i` where it is. */
  lemma WakeKeepsPlace(s: Sched, j: nat, i: nat)
    requires j < |s.tasks| == |s.ready.slots| && Queued(s.ready, i) && j != i
    ensures KeepsPlace(s.ready, Wake(s, j).ready, i) && Wake(s, j).tasks[i] == s.tasks[i]
    ensures Wake(s, j).current == s.current && Wake(s, j).quantum == s.quantum
  {
    EnqueueKeepsPlace(s.ready, i, j, Eff(s.tasks[j]));
  }

  lemma {:induction false} WakeSleepersKeepPlace(s: Sched, now: u32, n: nat, i: nat)
    requires n <= |s.tasks| == |s.ready.slots| && Queued(s.ready, i) && s.tasks[i].state.Ready?
    ensures KeepsPlace(s.ready, WakeSleepers(s, now, n).ready, i)
    ensures WakeSleepers(s, now, n).tasks[i] == s.tasks[i]
  {
    if n > 0 {
      WakeSleepersKeepPlace(s, now, n - 1, i);
      var r := WakeSleepers(s, now, n - 1);
      if Due(r.tasks[n - 1], now) {
        WakeKeepsPlace(r, n - 1, i);
        KeepsTransitive(s.ready, r.ready, Wake(r, n - 1).ready, i);
      }
    }
  }

  /**
    A dispatch that picks a peer of `i` picks one that was ahead of it from the
    start (`q`), so one fewer is ahead afterwards.
   */
  lemma DispatchAdvances(q: Queue, m: Sched, hint: nat, i: nat)
    requires Deciding(m) && KeepsPlace(q, m.ready, i) && m.ready.fifo && q.slots[i].value.birth < q.births
    requires var s := DispatchNext(m, hint);
             s.current != i && s.current < |m.tasks| && Eff(m.tasks[s.current]) == Eff(m.tasks[i])
    ensures var s := DispatchNext(m, hint);
            && KeepsPlace(q, s.ready, i) && s.quantum == 0
            && s.current in AheadOf(q, i) && Queued(s.ready, i) && s.current !in AheadOf(s.ready, i)
  {
    DispatchKeeps(m, hint);
    var c := DispatchNext(m, hint).current;
    assert KeyOk(m.tasks[c], m.ready.slots[c], m.ready.births);
    assert KeyOk(m.tasks[i], m.ready.slots[i], m.ready.births);
    assert Better(true, m.ready.slots[c].value, m.ready.slots[i].value);
    assert BornOnce(m.ready, c, i);
    assert Ahead(q, i, c);
  }

  // ---------------------------------------------------------------------
  // One scheduler step
  // ---------------------------------------------------------------------

  /** The same task goes on (and its quantum is not used up), or a peer ahead of `i` takes over. */
  ghost predicate Turn(s: Sched, s': Sched, i: nat, timer: bool) {
    match s'
    case Sched(_, ready, current, quantum, _, _) =>
      && KeepsPlace(s.ready, ready, i)
      && ((current == s.current && SameQuantum(s.quantum, quantum, timer)) || HandedOver(s.ready, s', i))
  }

  /** The task that runs now was ahead of `i` in `q`, and is not any more. */
  ghost predicate HandedOver(q: Queue, s: Sched, i: nat) {
    && Queued(q, i) && Queued(s.ready, i) && s.quantum == 0
    && s.current in AheadOf(q, i) && s.current !in AheadOf(s.ready, i)
  }

  predicate SameQuantum(q: u32, q': u32, timer: bool) {
    if timer then q' == WrapAdd(q, 1) && q' < TIME_QUANTUM_TICKS else q' == q
  }

  /** `i` waits, and whoever runs after the step is its peer. */
  ghost predicate PeerRuns(s: Sched, s': Sched, i: nat) {
    && i < |s.tasks| == |s'.tasks| && s.tasks[i].state.Ready? && s'.current < |s.tasks| && s'.current != i
    && s'.ready.fifo && Eff(s.tasks[s'.current]) == Eff(s.tasks[i])
  }

  lemma YieldTurn(s: Sched, i: nat, hint: nat)
    requires Consistent(s) && PeerRuns(s, YieldCurrent(s, hint), i)
    ensures KeepsPlace(s.ready, YieldCurrent(s, hint).ready, i) && HandedOver(s.ready, YieldCurrent(s, hint), i)
  {
    assert KeyOk(s.tasks[i], s.ready.slots[i], s.ready.births);
    RequeueDecides(s);
    EnqueueKeepsPlace(s.ready, i, s.current, Eff(s.tasks[s.current]));
    DispatchKeeps(RequeueCurrent(s), hint);
    DispatchAdvances(s.ready, RequeueCurrent(s), hint, i);
  }

  lemma BlockTurn(s: Sched, reason: BlockReason, wakeAt: u32, i: nat, hint: nat)
    requires Consistent(s) && s.current != |s.tasks| - 1
    requires PeerRuns(s, DispatchNext(BlockTask(s, reason, wakeAt), hint), i)
    ensures Turn(s, DispatchNext(BlockTask(s, reason, wakeAt), hint), i, false)
  {
    assert KeyOk(s.tasks[i], s.ready.slots[i], s.ready.births);
    var m := BlockTask(s, reason, wakeAt);
    BlockDecides(s, reason, wakeAt);
    DispatchKeeps(m, hint);
    assert m.tasks[i] == s.tasks[i];
    assert s.current !in AheadOf(s.ready, i);
    DispatchAdvances(s.ready, m, hint, i);
  }

  lemma TickTurn(s: Sched, i: nat, hint: nat)
    requires Consistent(s) && PeerRuns(s, Tick(s, hint), i)
    ensures Turn(s, Tick(s, hint), i, true)
  {
    var s1 := s.(quantum := WrapAdd(s.quantum, 1));
    assert Consistent(s1);
    if ShouldPreempt(CurrentEff(s1), TopPriority(s1.ready), s1.quantum) {
      assert PeerRuns(s1, YieldCurrent(s1, hint), i);
      YieldTurn(s1, i, hint);
    } else {
      QuantumLeft(s1, i);
    }
  }

  /** With a peer waiting, a tick that does not switch leaves the quantum unexpired. */
  lemma QuantumLeft(s: Sched, i: nat)
    requires Consistent(s) && i < |s.tasks| && s.tasks[i].state.Ready? && CurrentEff(s) == Eff(s.tasks[i])
    requires !ShouldPreempt(CurrentEff(s), TopPriority(s.ready), s.quantum)
    ensures s.quantum < TIME_QUANTUM_TICKS && KeepsPlace(s.ready, s.ready, i)
  {
    assert KeyOk(s.tasks[i], s.ready.slots[i], s.ready.births);
    assert Queued(s.ready, i);
  }

  /** A turn after some wake-ups is a turn. */
  lemma TurnAfterWakes(s: Sched, m: Sched, s': Sched, i: nat, timer: bool)
    requires QueueOk(s.tasks, s.ready) && KeepsPlace(s.ready, m.ready, i) && m.current == s.current && m.quantum == s.quantum
    requires Turn(m, s', i, timer)
    ensures Turn(s, s', i, timer)
  {
    KeepsTransitive(s.ready, m.ready, s'.ready, i);
    AheadShrinks(s.tasks, s.ready, m.ready, i);
  }

  lemma NoTurn(s: Sched, i: nat)
    requires Consistent(s) && i < |s.tasks| && s.tasks[i].state.Ready?
    ensures Turn(s, s, i, false)
  {
    assert KeyOk(s.tasks[i], s.ready.slots[i], s.ready.births);
  }

  lemma PreemptTurn(s: Sched, framePtr: int, i: nat, hint: nat)
    requires Consistent(s) && i < |s.tasks| && s.tasks[i].state.Ready?
    requires PeerRuns(s, PreemptIfOutranked(s, framePtr, hint), i)
    ensures Turn(s, PreemptIfOutranked(s, framePtr, hint), i, false)
  {
    if Outranked(s) {
      var s1 := SaveCurrent(s, framePtr);
      SaveKeeps(s, framePtr);
      assert PeerRuns(s1, YieldCurrent(s1, hint), i);
      YieldTurn(s1, i, hint);
    } else {
      NoTurn(s, i);
    }
  }

  lemma WakeBlockedPlace(s: Sched, reason: BlockReason, i: nat)
    requires Consistent(s) && i < |s.tasks| && s.tasks[i].state.Ready?
    ensures var s1 := WakeBlockedOn(s, reason);
            && KeepsPlace(s.ready, s1.ready, i) && s1.current == s.current && s1.quantum == s.quantum
            && |s1.tasks| == |s.tasks| && s1.tasks[i] == s.tasks[i]
  {
    assert KeyOk(s.tasks[i], s.ready.slots[i], s.ready.births);
    var w := FirstWaiting(s.tasks, reason);
    if w < |s.tasks| {
      WakeKeepsPlace(s, w, i);
    }
  }

  lemma WakePeerTurn(s: Sched, reason: BlockReason, framePtr: int, i: nat, hint: nat)
    requires Consistent(s) && i < |s.tasks| && s.tasks[i].state.Ready?
    requires PeerRuns(WakeBlockedOn(s, reason), PreemptIfOutranked(WakeBlockedOn(s, reason), framePtr, hint), i)
    ensures Turn(s, PreemptIfOutranked(WakeBlockedOn(s, reason), framePtr, hint), i, false)
  {
    var s1 := WakeBlockedOn(s, reason);
    WakeBlockedKeeps(s, reason);
    WakeBlockedPlace(s, reason, i);
    PreemptTurn(s1, framePtr, i, hint);
    TurnAfterWakes(s, s1, PreemptIfOutranked(s1, framePtr, hint), i, false);
  }

  lemma AfterTickTurn(s: Sched, now: u32, i: nat, hint: nat)
    requires Consistent(s) && PeerRuns(WakeSleepers(s, now, |s.tasks|), AfterTick(s, now, hint), i)
    requires s.tasks[i].state.Ready?
    ensures Turn(s, AfterTick(s, now, hint), i, true)
  {
    var s1 := WakeSleepers(s, now, |s.tasks|);
    assert KeyOk(s.tasks[i], s.ready.slots[i], s.ready.births);
    WakeSleepersKeeps(s, now, |s.tasks|);
    WakeSleepersKeepPlace(s, now, |s.tasks|, i);
    WakeSleepersCurrent(s, now, |s.tasks|);
    TickTurn(s1, i, hint);
    TurnAfterWakes(s, s1, Tick(s1, hint), i, true);
  }

  // ---------------------------------------------------------------------
  // One kernel step
  // ---------------------------------------------------------------------

  /** Task `i` is ready while a task of its own priority runs. */
  ghost predicate BehindPeer(cfg: Config, k: State, i: nat) {
    && i < |k.sched.tasks| == |cfg.infos| && k.sched.tasks[i].state.Ready?
    && k.sched.current < |cfg.infos|
    && EffectivePriority(cfg.infos[k.sched.current]) == EffectivePriority(cfg.infos[i])
  }

  /** And the queue's ages are sound. */
  ghost predicate Contended(cfg: Config, k: State, i: nat) {
    BehindPeer(cfg, k, i) && k.sched.ready.fifo
  }

  /** Before and after a step, in scheduler terms. */
  lemma ContendedPeers(cfg: Config, s: Sched, k': State, i: nat)
    requires Placed(cfg, s.tasks) && Inv(cfg, k') && Contended(cfg, k', i) && i < |s.tasks| && s.tasks[i].state.Ready?
    ensures PeerRuns(s, k'.sched, i)
  {
  }

  lemma TimerTurn(cfg: Config, k: State, hint: nat, i: nat)
    requires Core(cfg, k) && i < |k.sched.tasks| && k.sched.tasks[i].state.Ready?
    requires var k' := TrapExit(OnTimerInterrupt(k, FrameAddr(cfg, k.sched.current), hint));
             Inv(cfg, k') && Contended(cfg, k', i)
    ensures Turn(k.sched, OnTimerInterrupt(k, FrameAddr(cfg, k.sched.current), hint).k.sched, i, true)
  {
    var now := WrapAdd(k.ticks, 1);
    TimerForm(cfg, k, hint);
    var s1 := WakeSleepers(k.sched, now, |k.sched.tasks|);
    WakeSleepersWaits(cfg, k.sched, now, k.frames, k.chans);
    WakeSleepersEffect(k.sched, now, |k.sched.tasks|, i);
    ContendedPeers(cfg, s1, TrapExit(OnTimerInterrupt(k, FrameAddr(cfg, k.sched.current), hint)), i);
    AfterTickTurn(k.sched, now, i, hint);
  }

  /** After a transfer, and after the peer may have been woken. */
  lemma TransferTurn(cfg: Config, k: State, reason: BlockReason, hint: nat, obs: Observation, i: nat)
    requires Consistent(k.sched) && Placed(cfg, k.sched.tasks) && i < |k.sched.tasks| && k.sched.tasks[i].state.Ready?
    requires AtMostOneWaits(k.sched.tasks, reason)
    requires var k' := TrapExit(WakePeer(k, FrameAddr(cfg, k.sched.current), reason, hint, obs));
             Inv(cfg, k') == true && Contended(cfg, k', i) == true
    ensures Turn(k.sched, WakePeer(k, FrameAddr(cfg, k.sched.current), reason, hint, obs).k.sched, i, false)
  {
    var a := FrameAddr(cfg, k.sched.current);
    var s1 := WakeBlockedOn(k.sched, reason);
    WakeBlockedEffect(k.sched, reason, i);
    forall j | 0 <= j < |s1.tasks| ensures s1.tasks[j].info == cfg.infos[j] && s1.tasks[j].framePtr == FrameAddr(cfg, j) {
      WakeBlockedEffect(k.sched, reason, j);
    }
    ContendedPeers(cfg, s1, TrapExit(WakePeer(k, a, reason, hint, obs)), i);
    WakePeerTurn(k.sched, reason, a, i, hint);
  }

  /** Blocking hands over to a peer. */
  lemma BlockStepTurn(cfg: Config, k: State, reason: BlockReason, wakeAt: u32, hint: nat, i: nat, k': State)
    requires Core(cfg, k) && k.sched.current != |k.sched.tasks| - 1 && i < |k.sched.tasks| && k.sched.tasks[i].state.Ready?
    requires k'.sched == DispatchNext(BlockTask(k.sched, reason, wakeAt), hint)
    requires Inv(cfg, k') && Contended(cfg, k', i)
    ensures Turn(k.sched, k'.sched, i, false)
  {
    ContendedPeers(cfg, k.sched, k', i);
    BlockTurn(k.sched, reason, wakeAt, i, hint);
  }

  /** A send that goes through. */
  lemma SentTurn(cfg: Config, k: State, ch: nat, hint: nat, i: nat)
    requires ConfigOk(cfg) && Core(cfg, k) && i < |k.sched.tasks| && k.sched.tasks[i].state.Ready?
    requires var r := Load(k.frames, FrameAddr(cfg, k.sched.current)).regs;
             ch == r[REG_A0] && SendError(cfg, k.sched, ch, r[REG_A1], r[REG_A2]).None? && |k.chans[ch]| < CHANNEL_CAPACITY
    requires var k' := TrapExit(SendOutcome(cfg, k, hint)); Inv(cfg, k') == true && Contended(cfg, k', i) == true
    ensures Turn(k.sched, SendOutcome(cfg, k, hint).k.sched, i, false)
  {
    SentForm(cfg, k, ch, hint);
    SingleWaiter(cfg, k.sched.tasks, k.frames, k.chans, Receive(ch));
    var msg := SentMessage(cfg, k).value;
    TransferTurn(cfg, AfterSend(cfg, k, ch, msg), Receive(ch), hint, Sent(k.sched.current, ch, msg), i);
  }

  lemma SendTurn(cfg: Config, k: State, pc: u32, hint: nat, i: nat)
    requires ConfigOk(cfg) && Core(cfg, k) && AtCall(cfg, k, pc) && i < |k.sched.tasks| && k.sched.tasks[i].state.Ready?
    requires var k' := TrapExit(SendOutcome(cfg, k, hint)); Inv(cfg, k') && Contended(cfg, k', i)
    ensures Turn(k.sched, SendOutcome(cfg, k, hint).k.sched, i, false)
  {
    var a := FrameAddr(cfg, k.sched.current);
    var r := Load(k.frames, a).regs;
    var ch := r[REG_A0];
    if SendError(cfg, k.sched, ch, r[REG_A1], r[REG_A2]).Some? {
      NoTurn(k.sched, i);
    } else if |k.chans[ch]| < CHANNEL_CAPACITY {
      SentTurn(cfg, k, ch, hint, i);
    } else if r[REG_A3] % 2 == 1 {
      NoTurn(k.sched, i);
    } else {
      SaveIsIdentity(cfg, k.sched);
      BlockStepTurn(cfg, k, Send(ch), WakeAt(k.sched), hint, i, TrapExit(SendOutcome(cfg, k, hint)));
    }
  }

  lemma ReceiveTurn(cfg: Config, k: State, pc: u32, hint: nat, i: nat)
    requires ConfigOk(cfg) && Core(cfg, k) && AtCall(cfg, k, pc) && i < |k.sched.tasks| && k.sched.tasks[i].state.Ready?
    requires var k' := TrapExit(ReceiveOutcome(cfg, k, hint)); Inv(cfg, k') && Contended(cfg, k', i)
    ensures Turn(k.sched, ReceiveOutcome(cfg, k, hint).k.sched, i, false)
  {
    var a := FrameAddr(cfg, k.sched.current);
    var r := Load(k.frames, a).regs;
    var ch := r[REG_A0];
    NoTurn(k.sched, i);
    if ReceiveError(k.sched, ch, r[REG_A1], r[REG_A2]).None? {
      if k.chans[ch] == [] {
        if r[REG_A3] % 2 == 0 {
          SaveIsIdentity(cfg, k.sched);
          BlockStepTurn(cfg, k, Receive(ch), WakeAt(k.sched), hint, i, TrapExit(ReceiveOutcome(cfg, k, hint)));
        }
      } else {
        var msg := k.chans[ch][0];
        SingleWaiter(cfg, k.sched.tasks, k.frames, k.chans, Send(ch));
        var k1 := k.(chans := k.chans[ch := k.chans[ch][1..]], ram := Deliver(k.ram, r[REG_A1], Truncated(msg, r[REG_A2])));
        TransferTurn(cfg, Ret(k1, a, msg.len), Send(ch), hint, Received(k.sched.current, ch, msg), i);
      }
    }
  }

  lemma CallTurn(cfg: Config, k: State, pc: u32, hint: nat, i: nat)
    requires ConfigOk(cfg) && Core(cfg, k) && AtCall(cfg, k, pc) && i < |k.sched.tasks| && k.sched.tasks[i].state.Ready?
    requires var k' := TrapExit(Dispatch(cfg, k, FrameAddr(cfg, k.sched.current), hint)); Inv(cfg, k') && Contended(cfg, k', i)
    ensures Turn(k.sched, Dispatch(cfg, k, FrameAddr(cfg, k.sched.current), hint).k.sched, i, false)
  {
    var a := FrameAddr(cfg, k.sched.current);
    var k' := TrapExit(Dispatch(cfg, k, a, hint));
    SaveIsIdentity(cfg, k.sched);
    DispatchForms(cfg, k, hint);
    if Calling(cfg, k, SYS_YIELD) {
      ContendedPeers(cfg, k.sched, k', i);
      YieldTurn(k.sched, i, hint);
    } else if Calling(cfg, k, SYS_SLEEP) {
      BlockStepTurn(cfg, k, Sleep, WrapAdd(k.ticks, Max(Load(k.frames, a).regs[REG_A0], 1)), hint, i, k');
    } else if Calling(cfg, k, SYS_SEND) {
      SendTurn(cfg, k, pc, hint, i);
    } else if Calling(cfg, k, SYS_RECEIVE) {
      ReceiveTurn(cfg, k, pc, hint, i);
    } else {
      NoTurn(k.sched, i);
    }
  }

  lemma StepTurn(cfg: Config, k: State, e: Event, i: nat)
    requires ConfigOk(cfg) && Inv(cfg, k) && Enabled(cfg, k, e) && i < |k.sched.tasks| && k.sched.tasks[i].state.Ready?
    requires Contended(cfg, Step(cfg, k, e), i)
    ensures Turn(k.sched, Step(cfg, k, e).sched, i, e.Timer?)
  {
    StepKeeps(cfg, k, e);
    match e {
      case Timer(hint) =>
        EntryInv(cfg, k);
        HandleForm(cfg, k, hint);
        TimerTurn(cfg, TrapEntry(k), hint, i);
      case Ecall(hint) =>
        CallInv(cfg, k);
        CallEntryForm(cfg, k);
        HandleForm(cfg, k, hint);
        CallTurn(cfg, CallEntry(cfg, k), k.cpu.pc, hint, i);
      case _ => NoTurn(k.sched, i);
    }
  }

  // ---------------------------------------------------------------------
  // The bound
  // ---------------------------------------------------------------------

  /** Timer interrupts until the running task's quantum expires; the counter may be about to wrap. */
  function Remaining(quantum: u32): (r: nat)
    ensures 1 <= r <= 6
  {
    if quantum < TIME_QUANTUM_TICKS then TIME_QUANTUM_TICKS - quantum
    else if quantum == TWO32 - 1 then TIME_QUANTUM_TICKS + 1 else 1
  }

  /** Timer interrupts that can pass before `i` is dispatched. */
  function Patience(s: Sched, i: nat): nat {
    if Queued(s.ready, i) then TIME_QUANTUM_TICKS * |AheadOf(s.ready, i)| + Remaining(s.quantum) else 0
  }

  /** Every turn uses patience up, and a timer interrupt at least one unit of it. */
  lemma TurnCosts(s: Sched, s': Sched, i: nat, timer: bool)
    requires QueueOk(s.tasks, s.ready) && Turn(s, s', i, timer)
    ensures Patience(s', i) + (if timer then 1 else 0) <= Patience(s, i)
  {
    AheadShrinks(s.tasks, s.ready, s'.ready, i);
    Graph.SubsetSize(AheadOf(s'.ready, i), AheadOf(s.ready, i));
  }

  /** Throughout the run `i` is contended. */
  ghost predicate AlwaysContended(cfg: Config, k: State, es: seq<Event>, i: nat) {
    forall n :: 0 <= n <= |es| ==> Contended(cfg, After(cfg, k, es[..n]), i)
  }

  lemma ContendedPrefix(cfg: Config, k: State, es: seq<Event>, i: nat)
    requires es != [] && AlwaysContended(cfg, k, es, i)
    ensures AlwaysContended(cfg, k, es[..|es| - 1], i)
    ensures Contended(cfg, After(cfg, k, es[..|es| - 1]), i) && Contended(cfg, After(cfg, k, es), i)
  {
    var p := es[..|es| - 1];
    forall j | 0 <= j <= |p| ensures Contended(cfg, After(cfg, k, p[..j]), i) {
      assert p[..j] == es[..j];
    }
    assert es[..|es|] == es;
  }

  lemma StepCosts(cfg: Config, k: State, e: Event, i: nat)
    requires ConfigOk(cfg) && Inv(cfg, k) && Enabled(cfg, k, e)
    requires Contended(cfg, k, i) && Contended(cfg, Step(cfg, k, e), i)
    ensures Patience(Step(cfg, k, e).sched, i) + (if e.Timer? then 1 else 0) <= Patience(k.sched, i)
  {
    StepTurn(cfg, k, e, i);
    TurnCosts(k.sched, Step(cfg, k, e).sched, i, e.Timer?);
  }

  lemma {:induction false} PatienceRunsOut(cfg: Config, k: State, es: seq<Event>, i: nat)
    requires ConfigOk(cfg) && Inv(cfg, k) && Possible(cfg, k, es) && AlwaysContended(cfg, k, es, i)
    ensures Patience(After(cfg, k, es).sched, i) + Ticks(es) <= Patience(k.sched, i)
  {
    if es != [] {
      var n := |es| - 1;
      ContendedPrefix(cfg, k, es, i);
      PatienceRunsOut(cfg, k, es[..n], i);
      RunKeeps(cfg, k, es[..n]);
      StepCosts(cfg, After(cfg, k, es[..n]), es[n], i);
    }
  }

  /**
    While only tasks of `i`'s own priority run and `i` is not dispatched, at most
    5(a + 1) timer interrupts pass, where `a` peers were ahead of it: so it is
    dispatched within 5(a + 1) + 1.
   */
  lemma BoundedWait(cfg: Config, k: State, es: seq<Event>, i: nat)
    requires ConfigOk(cfg) && Inv(cfg, k) && Possible(cfg, k, es) && AlwaysContended(cfg, k, es, i)
    ensures Queued(k.sched.ready, i)
    ensures Ticks(es) <= TIME_QUANTUM_TICKS * (|AheadOf(k.sched.ready, i)| + 1)
  {
    PatienceRunsOut(cfg, k, es, i);
    assert es[..0] == [] && Contended(cfg, After(cfg, k, es[..0]), i);
    RunKeeps(cfg, k, es);
    assert es[..|es|] == es && Contended(cfg, After(cfg, k, es[..|es|]), i);
    ContendedIsQueued(cfg, k, i);
    ContendedIsQueued(cfg, After(cfg, k, es), i);
  }

  lemma ContendedIsQueued(cfg: Config, k: State, i: nat)
    requires Inv(cfg, k) && Contended(cfg, k, i)
    ensures Queued(k.sched.ready, i)
  {
    assert KeyOk(k.sched.tasks[i], k.sched.ready.slots[i], k.sched.ready.births);
  }
}
