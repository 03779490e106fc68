/** When the processor changes hands, and when it does not. */
module Switching {
  import opened Words
  import opened Tasks
  import opened Channels
  import opened Scheduler
  import opened Kernel
  import opened Invariant
  import opened Runs
  import opened Effects

  // ---------------------------------------------------------------------
  // In the scheduler
  // ---------------------------------------------------------------------

  /** Task `j` is ready with at least the priority `p`. */
  predicate ReadyAt(tasks: seq<Task>, j: nat, p: int) {
    j < |tasks| && tasks[j].state.Ready? && Eff(tasks[j]) >= p
  }

  lemma ReadyIsQueued(s: Sched, j: nat)
    requires QueueOk(s.tasks, s.ready) && j < |s.tasks|
    ensures Queued(s.ready, j) <==> s.tasks[j].state.Ready?
    ensures Queued(s.ready, j) ==> s.ready.slots[j].value.prio == Eff(s.tasks[j]) && s.ready.slots[j].value.birth < s.ready.births
  {
    assert KeyOk(s.tasks[j], s.ready.slots[j], s.ready.births);
  }

  /** What a dispatch of the requeued task leads to. */
  ghost predicate Rotated(s: Sched, s': Sched) {
    match s'
    case Sched(tasks, ready, current, quantum, _, _) =>
      && s.current < |s.tasks| && current < |s.tasks| && quantum == 0
      && tasks == s.tasks[s.current := s.tasks[s.current].(state := Ready)][current := s.tasks[current].(state := Running)]
      && (forall j: nat :: ReadyAt(s.tasks, j, 0) ==> Eff(s.tasks[j]) <= Eff(s.tasks[current]))
      && Eff(s.tasks[s.current]) <= Eff(s.tasks[current])
      && (current != s.current ==> s.tasks[current].state.Ready?)
  }

  lemma YieldRotates(s: Sched, hint: nat)
    requires Consistent(s)
    ensures Rotated(s, YieldCurrent(s, hint)) == true
  {
    var s1, s' := RequeueCurrent(s), YieldCurrent(s, hint);
    RequeueDecides(s);
    DispatchKeeps(s1, hint);
    var c := s'.current;
    assert Queued(s1.ready, s.current);
    forall j: nat | ReadyAt(s.tasks, j, 0) ensures Eff(s.tasks[j]) <= Eff(s.tasks[c]) {
      ReadyIsQueued(s1, j);
      ReadyIsQueued(s1, c);
    }
    ReadyIsQueued(s1, s.current);
    ReadyIsQueued(s1, c);
  }

  /** While ages are sound, the task that takes over from its peer is the one that was queued first. */
  lemma YieldIsFair(s: Sched, hint: nat, j: nat)
    requires Consistent(s) && ReadyAt(s.tasks, j, Eff(s.tasks[s.current])) && YieldCurrent(s, hint).ready.fifo
    ensures var c := YieldCurrent(s, hint).current;
            && c != s.current && Queued(s.ready, c) && Queued(s.ready, j)
            && (Eff(s.tasks[j]) == Eff(s.tasks[c]) ==> s.ready.slots[c].value.birth <= s.ready.slots[j].value.birth)
  {
    var s1 := RequeueCurrent(s);
    RequeueDecides(s);
    DispatchKeeps(s1, hint);
    var c := YieldCurrent(s, hint).current;
    ReadyIsQueued(s, j);
    ReadyIsQueued(s1, j);
    ReadyIsQueued(s1, s.current);
    assert Better(s1.ready.fifo, s1.ready.slots[c].value, s1.ready.slots[j].value);
    ReadyIsQueued(s1, c);
  }

  // ---------------------------------------------------------------------
  // Yield
  // ---------------------------------------------------------------------

  lemma YieldForm(cfg: Config, k: State, hint: nat)
    requires Core(cfg, k) && Calling(cfg, k, SYS_YIELD)
    ensures var a, s' := FrameAddr(cfg, k.sched.current), YieldCurrent(k.sched, hint);
            Dispatch(cfg, k, a, hint) == Outcome(Ret(k, a, 0).(sched := s'), FrameOf(s'), Quiet)
  {
    SaveIsIdentity(cfg, k.sched);
  }

  /** The effective priority of the running task. */
  function RunningPriority(cfg: Config, k: State): int {
    if k.sched.current < |cfg.infos| then EffectivePriority(cfg.infos[k.sched.current]) else 0
  }

  /** Task `j` is ready, with the running task's effective priority. */
  predicate ReadyPeer(cfg: Config, k: State, j: nat) {
    && j < |cfg.infos| && j < |k.sched.tasks| && k.sched.tasks[j].state.Ready?
    && EffectivePriority(cfg.infos[j]) == RunningPriority(cfg, k)
  }

  /** Task `i` was queued no later than `j`. */
  predicate NoLater(q: Queue, i: nat, j: nat) {
    Queued(q, i) && Queued(q, j) && q.slots[i].value.birth <= q.slots[j].value.birth
  }

  /** The caller goes to the back of its peers. */
  ghost predicate Yielded(cfg: Config, k: State, k': State) {
    match k'.sched
    case Sched(tasks, ready, current, quantum, _, _) =>
      var c := k.sched.current;
      && quantum == 0 && |tasks| == |k.sched.tasks| && c < |tasks| && current < |cfg.infos|
      && EffectivePriority(cfg.infos[current]) == RunningPriority(cfg, k)
      && ((forall j: nat :: !ReadyPeer(cfg, k, j)) ==> current == c)
      && (forall j: nat :: ReadyPeer(cfg, k, j) && ready.fifo ==>
            current != c && tasks[c].state.Ready? && NoLater(k.sched.ready, current, j))
      && (forall i: nat :: i < |tasks| && i != c && i != current ==> tasks[i] == k.sched.tasks[i])
  }

  lemma YieldedFrom(cfg: Config, k: State, hint: nat, k': State)
    requires Inv(cfg, k) && k'.sched == YieldCurrent(k.sched, hint)
    ensures Yielded(cfg, k, k') == true
  {
    var s, s' := k.sched, k'.sched;
    YieldRotates(s, hint);
    var c := s'.current;
    if c != s.current {
      ReadyIsQueued(s, c);
      assert ReadyPeer(cfg, k, c);
    }
    forall j: nat | ReadyPeer(cfg, k, j) && s'.ready.fifo
      ensures c != s.current && NoLater(s.ready, c, j)
    {
      assert ReadyAt(s.tasks, j, Eff(s.tasks[s.current]));
      YieldIsFair(s, hint, j);
    }
  }

  /**
    `SYS_YIELD` returns 0 and touches neither memory nor channels.  With a ready
    peer the caller is requeued and, while ages are sound, the peer that has
    waited longest runs; without one the caller goes on with a fresh quantum.
   */
  lemma YieldCall(cfg: Config, k: State, hint: nat)
    requires ConfigOk(cfg) && Inv(cfg, k) && Enabled(cfg, k, Ecall(hint)) && k.cpu.regs[REG_A7] == SYS_YIELD
    ensures var k' := Step(cfg, k, Ecall(hint));
            && Yielded(cfg, k, k') == true && k'.chans == k.chans && k'.ram == k.ram && k'.ticks == k.ticks
            && ContextOf(cfg, k', k.sched.current) == ReturnedWith(k.cpu, 0)
  {
    CallInv(cfg, k);
    CallEntryForm(cfg, k);
    YieldForm(cfg, CallEntry(cfg, k), hint);
    ReturnsZero(cfg, k, hint, YieldCurrent(k.sched, hint));
    YieldedFrom(cfg, k, hint, Step(cfg, k, Ecall(hint)));
  }

  // ---------------------------------------------------------------------
  // After a transfer
  // ---------------------------------------------------------------------

  /** Task `j` is blocked on `reason`. */
  predicate WaitsFor(tasks: seq<Task>, j: nat, reason: BlockReason) {
    j < |tasks| && Wait(tasks[j]) == Some(reason)
  }

  /** The waiter, and nobody else, can outrank the running task. */
  lemma WokenOutranks(s: Sched, reason: BlockReason, j: nat)
    requires Consistent(s) && TopRuns(s) && AtMostOneWaits(s.tasks, reason) && WaitsFor(s.tasks, j, reason)
    ensures Outranked(WakeBlockedOn(s, reason)) <==> Eff(s.tasks[j]) > Eff(s.tasks[s.current])
    ensures forall i :: Queued(WakeBlockedOn(s, reason).ready, i) && i != j ==>
              WakeBlockedOn(s, reason).ready.slots[i].value.prio <= Eff(s.tasks[s.current])
  {
    var s1 := WakeBlockedOn(s, reason);
    WakeBlockedKeeps(s, reason);
    WakeBlockedEffect(s, reason, j);
    ReadyIsQueued(s1, j);
    assert FirstWaiting(s.tasks, reason) == j;
    assert forall i :: Queued(s1.ready, i) && i != j ==> Queued(s.ready, i) && s1.ready.slots[i] == s.ready.slots[i];
  }

  lemma NobodyWoken(s: Sched, reason: BlockReason)
    requires Consistent(s) && TopRuns(s) && forall j: nat :: !WaitsFor(s.tasks, j, reason)
    ensures WakeBlockedOn(s, reason) == s && !Outranked(s)
  {
    var i := FirstWaiting(s.tasks, reason);
    assert !WaitsFor(s.tasks, i, reason);
  }

  /** The woken task takes over exactly when it ranks strictly higher. */
  ghost predicate HandedOn(s: Sched, s': Sched, reason: BlockReason) {
    match s'
    case Sched(tasks, _, current, quantum, _, _) =>
      && |tasks| == |s.tasks| && s.current < |tasks|
      && (forall j: nat :: WaitsFor(s.tasks, j, reason) ==>
            if Eff(s.tasks[j]) > Eff(s.tasks[s.current])
            then current == j && quantum == 0 && tasks[s.current].state.Ready?
            else current == s.current && quantum == s.quantum && tasks[j].state.Ready?)
      && ((forall j: nat :: !WaitsFor(s.tasks, j, reason)) ==> s' == s)
  }

  lemma HandsOn(s: Sched, frame: int, reason: BlockReason, hint: nat)
    requires Consistent(s) && TopRuns(s) && AtMostOneWaits(s.tasks, reason) && s.tasks[s.current].framePtr == frame
    ensures HandedOn(s, PreemptIfOutranked(WakeBlockedOn(s, reason), frame, hint), reason) == true
  {
    if j: nat :| WaitsFor(s.tasks, j, reason) {
      OneHandsOn(s, frame, reason, hint, j);
      forall i: nat | WaitsFor(s.tasks, i, reason) ensures i == j {}
    } else {
      NobodyWoken(s, reason);
    }
  }

  lemma OneHandsOn(s: Sched, frame: int, reason: BlockReason, hint: nat, j: nat)
    requires Consistent(s) && TopRuns(s) && AtMostOneWaits(s.tasks, reason) && s.tasks[s.current].framePtr == frame
    requires WaitsFor(s.tasks, j, reason)
    ensures var s' := PreemptIfOutranked(WakeBlockedOn(s, reason), frame, hint);
            && |s'.tasks| == |s.tasks|
            && if Eff(s.tasks[j]) > Eff(s.tasks[s.current])
               then s'.current == j && s'.quantum == 0 && s'.tasks[s.current].state.Ready?
               else s'.current == s.current && s'.quantum == s.quantum && s'.tasks[j].state.Ready?
  {
    var s1 := WakeBlockedOn(s, reason);
    WokenOutranks(s, reason, j);
    WakeBlockedKeeps(s, reason);
    WakeBlockedEffect(s, reason, j);
    WakeBlockedEffect(s, reason, s.current);
    if Outranked(s1) {
      assert s1.tasks[s1.current := s1.tasks[s1.current].(framePtr := frame)] == s1.tasks;
      OutrankerRuns(s1, hint, j);
    }
  }

  /** The only queued task that outranks the running one is dispatched. */
  lemma OutrankerRuns(s: Sched, hint: nat, j: nat)
    requires Consistent(s) && Queued(s.ready, j) && s.ready.slots[j].value.prio > Eff(s.tasks[s.current])
    requires forall i :: Queued(s.ready, i) && i != j ==> s.ready.slots[i].value.prio <= Eff(s.tasks[s.current])
    ensures var s' := YieldCurrent(s, hint); s'.current == j && Rotated(s, s') == true
  {
    YieldRotates(s, hint);
    var c := YieldCurrent(s, hint).current;
    ReadyIsQueued(s, j);
    assert ReadyAt(s.tasks, j, 0);
    ReadyIsQueued(s, c);
  }

  /** A call that sent something was an allowed send with room. */
  lemma SentCase(cfg: Config, k: State, hint: nat)
    requires Dispatch(cfg, k, FrameAddr(cfg, k.sched.current), hint).obs.Sent?
    ensures var r := Load(k.frames, FrameAddr(cfg, k.sched.current)).regs;
            && Calling(cfg, k, SYS_SEND) && SendError(cfg, k.sched, r[REG_A0], r[REG_A1], r[REG_A2]).None?
            && |k.chans[r[REG_A0]]| < CHANNEL_CAPACITY
            && Dispatch(cfg, k, FrameAddr(cfg, k.sched.current), hint).obs.ch == r[REG_A0]
  {
  }

  lemma ReceivedCase(cfg: Config, k: State, hint: nat)
    requires Dispatch(cfg, k, FrameAddr(cfg, k.sched.current), hint).obs.Received?
    ensures var r := Load(k.frames, FrameAddr(cfg, k.sched.current)).regs;
            && Calling(cfg, k, SYS_RECEIVE) && ReceiveError(k.sched, r[REG_A0], r[REG_A1], r[REG_A2]).None?
            && k.chans[r[REG_A0]] != []
            && Dispatch(cfg, k, FrameAddr(cfg, k.sched.current), hint).obs.ch == r[REG_A0]
  {
  }

  lemma SentHandsOn(cfg: Config, k: State, hint: nat)
    requires ConfigOk(cfg) && Core(cfg, k) && TopRuns(k.sched) && Dispatch(cfg, k, FrameAddr(cfg, k.sched.current), hint).obs.Sent?
    ensures var o := Dispatch(cfg, k, FrameAddr(cfg, k.sched.current), hint);
            HandedOn(k.sched, o.k.sched, Receive(o.obs.ch)) == true
  {
    var a := FrameAddr(cfg, k.sched.current);
    var ch := Load(k.frames, a).regs[REG_A0];
    SentCase(cfg, k, hint);
    DispatchForms(cfg, k, hint);
    SentForm(cfg, k, ch, hint);
    SingleWaiter(cfg, k.sched.tasks, k.frames, k.chans, Receive(ch));
    HandsOn(k.sched, a, Receive(ch), hint);
  }

  lemma ReceivedHandsOn(cfg: Config, k: State, hint: nat)
    requires ConfigOk(cfg) && Core(cfg, k) && TopRuns(k.sched) && Dispatch(cfg, k, FrameAddr(cfg, k.sched.current), hint).obs.Received?
    ensures var o := Dispatch(cfg, k, FrameAddr(cfg, k.sched.current), hint);
            HandedOn(k.sched, o.k.sched, Send(o.obs.ch)) == true
  {
    var a := FrameAddr(cfg, k.sched.current);
    var ch := Load(k.frames, a).regs[REG_A0];
    ReceivedCase(cfg, k, hint);
    DispatchForms(cfg, k, hint);
    ReceivedForm(cfg, k, ch, hint);
    SingleWaiter(cfg, k.sched.tasks, k.frames, k.chans, Send(ch));
    HandsOn(k.sched, a, Send(ch), hint);
  }

  /** The other end of the channel waits for what `obs` did, and ranks strictly above the running task. */
  predicate OutrankingPeer(cfg: Config, k: State, obs: Observation, j: nat) {
    && j < |cfg.infos| && EffectivePriority(cfg.infos[j]) > RunningPriority(cfg, k)
    && match obs
       case Quiet => false
       case Sent(_, ch, _) => WaitsFor(k.sched.tasks, j, Receive(ch))
       case Received(_, ch, _) => WaitsFor(k.sched.tasks, j, Send(ch))
  }

  ghost predicate SwitchedByTransfer(cfg: Config, k: State, k': State, obs: Observation) {
    match k'.sched
    case Sched(tasks, _, current, quantum, _, _) =>
      && |tasks| == |k.sched.tasks| && k.sched.current < |tasks|
      && (forall j: nat :: OutrankingPeer(cfg, k, obs, j) ==>
            current == j != k.sched.current && quantum == 0 && tasks[k.sched.current].state.Ready?)
      && ((forall j: nat :: !OutrankingPeer(cfg, k, obs, j)) ==> current == k.sched.current && quantum == k.sched.quantum)
  }

  lemma SwitchedFrom(cfg: Config, k: State, k': State, obs: Observation, reason: BlockReason)
    requires Placed(cfg, k.sched.tasks) && Consistent(k.sched) && HandedOn(k.sched, k'.sched, reason) == true
    requires (obs.Sent? && reason == Receive(obs.ch)) || (obs.Received? && reason == Send(obs.ch))
    ensures SwitchedByTransfer(cfg, k, k', obs) == true
  {
    if j: nat :| WaitsFor(k.sched.tasks, j, reason) {
      assert OutrankingPeer(cfg, k, obs, j) <==> Eff(k.sched.tasks[j]) > Eff(k.sched.tasks[k.sched.current]);
      forall i: nat | OutrankingPeer(cfg, k, obs, i) ensures WaitsFor(k.sched.tasks, i, reason) {}
    }
  }

  /**
    A send or receive takes the processor from its caller exactly when the
    task waiting at the other end ranks strictly above it; that task then
    runs.  Otherwise the caller goes on, in the same quantum.
   */
  lemma TransferSwitches(cfg: Config, k: State, hint: nat)
    requires ConfigOk(cfg) && Inv(cfg, k) && Enabled(cfg, k, Ecall(hint)) && Observe(cfg, k, Ecall(hint)) != Quiet
    ensures SwitchedByTransfer(cfg, k, Step(cfg, k, Ecall(hint)), Observe(cfg, k, Ecall(hint))) == true
  {
    CallInv(cfg, k);
    CallEntryForm(cfg, k);
    EcallForm(cfg, k, hint);
    var obs, k' := Observe(cfg, k, Ecall(hint)), Step(cfg, k, Ecall(hint));
    if obs.Sent? {
      SentHandsOn(cfg, CallEntry(cfg, k), hint);
      SwitchedFrom(cfg, k, k', obs, Receive(obs.ch));
    } else {
      ReceivedHandsOn(cfg, CallEntry(cfg, k), hint);
      SwitchedFrom(cfg, k, k', obs, Send(obs.ch));
    }
  }

  // ---------------------------------------------------------------------
  // Timer interrupts
  // ---------------------------------------------------------------------

  /** Some ready task has at least the priority `p`. */
  ghost predicate SomeReady(tasks: seq<Task>, p: int) {
    exists j: nat :: ReadyAt(tasks, j, p)
  }

  function NextQuantum(q: u32): u32 {
    if q == TWO32 - 1 then 0 else q + 1
  }

  lemma TopIsReady(s: Sched, p: int)
    requires QueueOk(s.tasks, s.ready)
    ensures SomeReady(s.tasks, p) <==> TopPriority(s.ready).Some? && TopPriority(s.ready).value >= p
  {
    var top := TopPriority(s.ready);
    if top.Some? {
      var j :| Queued(s.ready, j) && s.ready.slots[j].value.prio == top.value;
      ReadyIsQueued(s, j);
      assert top.value >= p ==> ReadyAt(s.tasks, j, p);
    }
    if SomeReady(s.tasks, p) {
      var j: nat :| ReadyAt(s.tasks, j, p);
      ReadyIsQueued(s, j);
    }
  }

  /** The check fires for a ready task that ranks higher, or after five ticks for one that ranks as high. */
  lemma PreemptsExactly(s: Sched)
    requires Consistent(s)
    ensures var p: int := Eff(s.tasks[s.current]);
            ShouldPreempt(CurrentEff(s), TopPriority(s.ready), s.quantum) <==>
            SomeReady(s.tasks, p + 1) || (s.quantum >= 5 && SomeReady(s.tasks, p))
  {
    TopIsReady(s, Eff(s.tasks[s.current]));
    TopIsReady(s, Eff(s.tasks[s.current]) + 1);
  }

  /** One preemption check, by the ready tasks it finds. */
  ghost predicate Checked(s: Sched, s': Sched) {
    match s'
    case Sched(_, ready, current, quantum, _, _) =>
      s.current < |s.tasks| &&
      var p: int, q := Eff(s.tasks[s.current]), NextQuantum(s.quantum);
      if SomeReady(s.tasks, p + 1) then current != s.current && quantum == 0
      else if q >= 5 && SomeReady(s.tasks, p) then quantum == 0 && (ready.fifo ==> current != s.current)
      else s' == s.(quantum := q)
  }

  lemma TickChecks(s: Sched, hint: nat)
    requires Consistent(s)
    ensures Checked(s, Tick(s, hint)) == true
  {
    var s1 := s.(quantum := NextQuantum(s.quantum));
    assert WrapAdd(s.quantum, 1) == NextQuantum(s.quantum);
    assert Consistent(s1);
    PreemptsExactly(s1);
    if ShouldPreempt(CurrentEff(s1), TopPriority(s1.ready), s1.quantum) {
      RotatedIsChecked(s, s1, hint);
    }
  }

  lemma RotatedIsChecked(s: Sched, s1: Sched, hint: nat)
    requires s1 == s.(quantum := NextQuantum(s.quantum)) && Consistent(s1)
    requires var p: int := Eff(s.tasks[s.current]); SomeReady(s.tasks, p + 1) || (s1.quantum >= 5 && SomeReady(s.tasks, p))
    ensures Checked(s, YieldCurrent(s1, hint)) == true
  {
    var p: int := Eff(s.tasks[s.current]);
    YieldRotates(s1, hint);
    if SomeReady(s.tasks, p + 1) {
      var j: nat :| ReadyAt(s.tasks, j, p + 1);
      assert ReadyAt(s1.tasks, j, 0);
    } else if YieldCurrent(s1, hint).ready.fifo {
      var j: nat :| ReadyAt(s.tasks, j, p);
      YieldIsFair(s1, hint, j);
    }
  }

  /** Task `j` can run, with at least the priority `p`. */
  predicate RunnableAt(cfg: Config, k: State, j: nat, p: int) {
    && j < |cfg.infos| && j < |k.sched.tasks| && Runnable(k.sched.tasks[j])
    && EffectivePriority(cfg.infos[j]) >= p
  }

  /** Somebody other than `c` can. */
  ghost predicate Rival(cfg: Config, k: State, c: nat, p: int) {
    exists j: nat :: j != c && RunnableAt(cfg, k, j, p)
  }

  /**
    What a timer interrupt does to the running task: it loses the processor to
    a task that ranks higher and can run once the sleepers are awake, or after
    its fifth tick to one that ranks as high; otherwise it goes on.
   */
  ghost predicate Ticked(cfg: Config, k: State, k': State) {
    match k'.sched
    case Sched(_, ready, current, quantum, _, _) =>
      var c, p, q := k.sched.current, RunningPriority(cfg, k), NextQuantum(k.sched.quantum);
      if Rival(cfg, k', c, p + 1) then current != c && quantum == 0
      else if q >= 5 && Rival(cfg, k', c, p) then quantum == 0 && (ready.fifo ==> current != c)
      else current == c && quantum == q
  }

  /** After the check, the ready tasks it found are those that can run, apart from the one that ran. */
  lemma RivalsAreReady(cfg: Config, s: Sched, k': State, c: nat, p: int)
    requires Consistent(s) && Placed(cfg, s.tasks) && s.current == c && SameTasks(s.tasks, k'.sched.tasks) && Inv(cfg, k')
    ensures SomeReady(s.tasks, p) <==> Rival(cfg, k', c, p)
  {
    forall j: nat | j < |s.tasks| && j != c ensures s.tasks[j].state.Ready? <==> Runnable(k'.sched.tasks[j]) {
      assert SameTask(s.tasks[j], k'.sched.tasks[j]);
      ReadyIsQueued(s, j);
      ReadyIsQueued(k'.sched, j);
      assert KeyOk(s.tasks[j], s.ready.slots[j], s.ready.births);
      assert KeyOk(k'.sched.tasks[j], k'.sched.ready.slots[j], k'.sched.ready.births);
    }
    if SomeReady(s.tasks, p) {
      var j: nat :| ReadyAt(s.tasks, j, p);
      assert RunnableAt(cfg, k', j, p);
    }
    if Rival(cfg, k', c, p) {
      var j: nat :| j != c && RunnableAt(cfg, k', j, p);
      assert ReadyAt(s.tasks, j, p);
    }
  }

  lemma TickedFrom(cfg: Config, k: State, s: Sched, k': State)
    requires Consistent(s) && Placed(cfg, s.tasks) && SameTasks(s.tasks, k'.sched.tasks) && Inv(cfg, k')
    requires s.current == k.sched.current && s.quantum == k.sched.quantum && Checked(s, k'.sched) == true
    ensures Ticked(cfg, k, k') == true
  {
    var c, p := k.sched.current, RunningPriority(cfg, k);
    RivalsAreReady(cfg, s, k', c, p);
    RivalsAreReady(cfg, s, k', c, p + 1);
  }

  /** The scheduler a timer step leaves, and the one its preemption check started from. */
  lemma TimerStepForm(cfg: Config, k: State, hint: nat) returns (s: Sched)
    requires Inv(cfg, k)
    ensures Consistent(s) && Placed(cfg, s.tasks) && s.current == k.sched.current && s.quantum == k.sched.quantum
    ensures s == WakeSleepers(k.sched, WrapAdd(k.ticks, 1), |k.sched.tasks|)
    ensures Step(cfg, k, Timer(hint)).sched == Tick(s, hint)
  {
    var now := WrapAdd(k.ticks, 1);
    EntryInv(cfg, k);
    HandleForm(cfg, k, hint);
    TimerForm(cfg, TrapEntry(k), hint);
    s := WakeSleepers(k.sched, now, |k.sched.tasks|);
    WakeSleepersKeeps(k.sched, now, |k.sched.tasks|);
    WakeSleepersWaits(cfg, k.sched, now, k.frames, k.chans);
    WakeSleepersCurrent(k.sched, now, |k.sched.tasks|);
  }

  lemma TimerSwitches(cfg: Config, k: State, hint: nat)
    requires ConfigOk(cfg) && Inv(cfg, k)
    ensures Ticked(cfg, k, Step(cfg, k, Timer(hint))) == true
  {
    var s := TimerStepForm(cfg, k, hint);
    TickChecks(s, hint);
    TickSame(s, hint);
    StepKeeps(cfg, k, Timer(hint));
    TickedFrom(cfg, k, s, Step(cfg, k, Timer(hint)));
  }

  // ---------------------------------------------------------------------
  // The order sleepers are woken in
  // ---------------------------------------------------------------------

  /** The loop has not touched the tasks from `n` on. */
  lemma {:induction false} NotYetWoken(s: Sched, now: u32, n: nat, i: nat)
    requires n <= i < |s.tasks| == |s.ready.slots|
    ensures WakeSleepers(s, now, n).tasks[i] == s.tasks[i]
  {
    if n > 0 {
      WakeSleepersStep(s, now, n);
      NotYetWoken(s, now, n - 1, i);
    }
  }

  /** One turn of the loop, as the queue sees it. */
  ghost predicate QueueTurn(q: Queue, q': Queue, n: nat, due: bool) {
    match q'
    case Queue(slots, births, _) =>
      && |slots| == |q.slots| && n < |slots|
      && (if due then slots[n].Some? && slots[n].value.birth == q.births && births == q.births + 1
          else slots[n] == q.slots[n] && births == q.births)
      && forall i :: 0 <= i < |slots| && i != n ==> slots[i] == q.slots[i]
  }

  lemma TurnsQueue(s: Sched, now: u32, n: nat)
    requires 0 < n <= |s.tasks| == |s.ready.slots|
    ensures QueueTurn(WakeSleepers(s, now, n - 1).ready, WakeSleepers(s, now, n).ready, n - 1, Due(s.tasks[n - 1], now)) == true
  {
    NotYetWoken(s, now, n - 1, n - 1);
    WakeSleepersStep(s, now, n);
  }

  lemma {:induction false} WokenOne(s: Sched, now: u32, n: nat, i: nat)
    requires i < n <= |s.tasks| == |s.ready.slots| && Due(s.tasks[i], now)
    ensures var q := WakeSleepers(s, now, n).ready;
            Queued(q, i) && s.ready.births <= q.slots[i].value.birth < q.births
  {
    TurnsQueue(s, now, n);
    if i < n - 1 { WokenOne(s, now, n - 1, i); } else { BirthsGrow(s, now, n - 1); }
  }

  lemma {:induction false} BirthsGrow(s: Sched, now: u32, n: nat)
    requires n <= |s.tasks| == |s.ready.slots|
    ensures s.ready.births <= WakeSleepers(s, now, n).ready.births
  {
    if n > 0 {
      BirthsGrow(s, now, n - 1);
      TurnsQueue(s, now, n);
    }
  }

  /** Sleepers woken together are queued in slot order, behind everybody who was queued. */
  lemma {:induction false} WokenInOrder(s: Sched, now: u32, n: nat, i: nat, j: nat)
    requires i < j < n <= |s.tasks| == |s.ready.slots| && Due(s.tasks[i], now) && Due(s.tasks[j], now)
    ensures var q := WakeSleepers(s, now, n).ready;
            Queued(q, i) && Queued(q, j) && s.ready.births <= q.slots[i].value.birth < q.slots[j].value.birth
  {
    TurnsQueue(s, now, n);
    if j < n - 1 {
      WokenInOrder(s, now, n - 1, i, j);
    } else {
      WokenOne(s, now, n - 1, i);
    }
  }

  /** A preemption check leaves the key of every task that stays queued. */
  lemma TickKeepsKeys(s: Sched, hint: nat, i: nat)
    requires Consistent(s) && i != s.current && Queued(Tick(s, hint).ready, i)
    ensures Queued(s.ready, i) && Tick(s, hint).ready.slots[i] == s.ready.slots[i]
  {
    var s1 := s.(quantum := WrapAdd(s.quantum, 1));
    assert Consistent(s1);
    if ShouldPreempt(CurrentEff(s1), TopPriority(s1.ready), s1.quantum) {
      RequeueDecides(s1);
      DispatchKeeps(RequeueCurrent(s1), hint);
    }
  }

  /** Tasks a timer interrupt wakes, and that still wait for the processor after it, wait in slot order. */
  lemma SleepersQueueInOrder(cfg: Config, k: State, hint: nat, i: nat, j: nat)
    requires ConfigOk(cfg) && Inv(cfg, k) && i < j < |k.sched.tasks|
    requires var now := WrapAdd(k.ticks, 1); Due(k.sched.tasks[i], now) && Due(k.sched.tasks[j], now)
    requires var q := Step(cfg, k, Timer(hint)).sched.ready; Queued(q, i) && Queued(q, j)
    ensures var q := Step(cfg, k, Timer(hint)).sched.ready;
            k.sched.ready.births <= q.slots[i].value.birth < q.slots[j].value.birth
  {
    var now := WrapAdd(k.ticks, 1);
    var s := TimerStepForm(cfg, k, hint);
    TickKeepsKeys(s, hint, i);
    TickKeepsKeys(s, hint, j);
    WokenInOrder(k.sched, now, |k.sched.tasks|, i, j);
  }
}
