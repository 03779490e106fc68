/** The invariant of the kernel and its preservation by every step. */
module Invariant {
  import opened Words
  import opened Tasks
  import opened Channels
  import opened Scheduler
  import opened Kernel
  import Detectors

  // ---------------------------------------------------------------------
  // Boot-time facts
  // ---------------------------------------------------------------------

  /** The registry, with empty slots after the registered tasks. */
  function RegistryOf(infos: seq<TaskInfo>): Registry {
    seq(MAX_TASKS, i requires 0 <= i < MAX_TASKS => if i < |infos| then Some(infos[i]) else None)
  }

  /** At least the idle task is registered, and the channel detector passed. */
  ghost predicate ConfigOk(cfg: Config) {
    0 < |cfg.infos| <= MAX_TASKS && Detectors.SingleEnded(RegistryOf(cfg.infos))
  }

  lemma OneSender(cfg: Config, i: nat, j: nat, ch: nat)
    requires ConfigOk(cfg) && i < |cfg.infos| && j < |cfg.infos|
    requires ch in cfg.infos[i].sends && ch in cfg.infos[j].sends
    ensures i == j
  {
    var f := Detectors.Endpoints(Detectors.Sender);
    assert Detectors.Claims(RegistryOf(cfg.infos), f, i, ch) && Detectors.Claims(RegistryOf(cfg.infos), f, j, ch);
  }

  lemma OneReceiver(cfg: Config, i: nat, j: nat, ch: nat)
    requires ConfigOk(cfg) && i < |cfg.infos| && j < |cfg.infos|
    requires ch in cfg.infos[i].receives && ch in cfg.infos[j].receives
    ensures i == j
  {
    var f := Detectors.Endpoints(Detectors.Receiver);
    assert Detectors.Claims(RegistryOf(cfg.infos), f, i, ch) && Detectors.Claims(RegistryOf(cfg.infos), f, j, ch);
  }

  // ---------------------------------------------------------------------
  // The invariant
  // ---------------------------------------------------------------------

  /** A saved context about to execute a blocking send on `ch` that will pass every check. */
  predicate SendPending(cfg: Config, t: TaskInfo, f: Context, ch: nat) {
    && f.pc in cfg.ecalls && f.regs[REG_A7] == SYS_SEND && f.regs[REG_A0] == ch && f.regs[REG_A3] % 2 == 0
    && ch < MAX_CHANNELS && ch in t.sends && f.regs[REG_A2] <= MSG_MAX
    && BufferReadable(f.regs[REG_A1], f.regs[REG_A2], ReadableRanges(cfg, t))
  }

  predicate ReceivePending(cfg: Config, t: TaskInfo, f: Context, ch: nat) {
    && f.pc in cfg.ecalls && f.regs[REG_A7] == SYS_RECEIVE && f.regs[REG_A0] == ch && f.regs[REG_A3] % 2 == 0
    && ch < MAX_CHANNELS && ch in t.receives
    && BufferReadable(f.regs[REG_A1], f.regs[REG_A2], WritableRanges(t))
  }

  /** A task waits only for something that is not there, at the call it will retry. */
  predicate WaitOk(cfg: Config, t: TaskInfo, w: Option<BlockReason>, f: Context, chans: Chans) {
    match w
    case None => true
    case Some(Sleep) => true
    case Some(NotBlocked) => false
    case Some(Send(ch)) => SendPending(cfg, t, f, ch) && |chans[ch]| == CHANNEL_CAPACITY
    case Some(Receive(ch)) => ReceivePending(cfg, t, f, ch) && chans[ch] == []
  }

  ghost predicate Waits(cfg: Config, tasks: seq<Task>, frames: map<int, Context>, chans: Chans) {
    |tasks| == |cfg.infos| && forall i :: 0 <= i < |tasks| ==>
      WaitOk(cfg, cfg.infos[i], Wait(tasks[i]), Load(frames, FrameAddr(cfg, i)), chans)
  }

  /** Descriptors are as declared, and every frame sits at the top of its own kernel stack. */
  ghost predicate Placed(cfg: Config, tasks: seq<Task>) {
    |tasks| == |cfg.infos| && forall i :: 0 <= i < |tasks| ==>
      tasks[i].info == cfg.infos[i] && tasks[i].framePtr == FrameAddr(cfg, i)
  }

  ghost predicate Bounded(k: State) {
    |k.ram| == TWO32 && forall ch :: 0 <= ch < MAX_CHANNELS ==> |k.chans[ch]| <= CHANNEL_CAPACITY
  }

  /** Holds in the handler too, while the current task's context is in its frame. */
  ghost predicate Core(cfg: Config, k: State) {
    match k
    case State(sched, chans, frames, _, _, _, _) =>
      && Consistent(sched) && Placed(cfg, sched.tasks)
      && Waits(cfg, sched.tasks, frames, chans) && Bounded(k)
  }

  /** Holds whenever a task runs. */
  ghost predicate Inv(cfg: Config, k: State) {
    Core(cfg, k) && TopRuns(k.sched) && k.mscratch == StackTop(cfg, k.sched.current)
  }

  // ---------------------------------------------------------------------
  // Pieces
  // ---------------------------------------------------------------------

  /** Overwriting the running task's frame disturbs nobody's wait. */
  lemma FrameWriteKeeps(cfg: Config, tasks: seq<Task>, frames: map<int, Context>, chans: Chans, c: nat, f: Context)
    requires Waits(cfg, tasks, frames, chans) && c < |tasks| && Wait(tasks[c]).None?
    ensures Waits(cfg, tasks, frames[FrameAddr(cfg, c) := f], chans)
  {
    var frames' := frames[FrameAddr(cfg, c) := f];
    forall i | 0 <= i < |tasks|
      ensures WaitOk(cfg, cfg.infos[i], Wait(tasks[i]), Load(frames', FrameAddr(cfg, i)), chans)
    {
      if i != c {
        assert Load(frames', FrameAddr(cfg, i)) == Load(frames, FrameAddr(cfg, i));
      }
    }
  }

  /** Queueing and running are not waiting. */
  lemma SameKeeps(cfg: Config, a: seq<Task>, b: seq<Task>, frames: map<int, Context>, chans: Chans)
    requires SameTasks(a, b) && Placed(cfg, a) && Waits(cfg, a, frames, chans)
    ensures Placed(cfg, b) && Waits(cfg, b, frames, chans)
  {
    forall i | 0 <= i < |b|
      ensures b[i].info == cfg.infos[i] && b[i].framePtr == FrameAddr(cfg, i)
      ensures WaitOk(cfg, cfg.infos[i], Wait(b[i]), Load(frames, FrameAddr(cfg, i)), chans)
    {
      assert SameTask(a[i], b[i]);
    }
  }

  /** `save_current` writes what is already there. */
  lemma SaveIsIdentity(cfg: Config, s: Sched)
    requires Placed(cfg, s.tasks) && s.current < |s.tasks|
    ensures SaveCurrent(s, FrameAddr(cfg, s.current)) == s
  {
    assert s.tasks[s.current := s.tasks[s.current].(framePtr := FrameAddr(cfg, s.current))] == s.tasks;
  }

  /** A handler result that can be resumed. */
  ghost predicate Resumable(cfg: Config, o: Outcome) {
    match o
    case Outcome(k, frame, _) => Core(cfg, k) && TopRuns(k.sched) && frame == FrameAddr(cfg, k.sched.current)
  }

  lemma EntryKeeps(cfg: Config, k: State, f: Context)
    requires Core(cfg, k)
    ensures Core(cfg, k.(frames := k.frames[FrameAddr(cfg, k.sched.current) := f]))
  {
    FrameWriteKeeps(cfg, k.sched.tasks, k.frames, k.chans, k.sched.current, f);
  }

  lemma DoneKeeps(cfg: Config, k: State, value: u32)
    requires Core(cfg, k) && TopRuns(k.sched)
    ensures Resumable(cfg, Done(k, FrameAddr(cfg, k.sched.current), value))
  {
    var a := FrameAddr(cfg, k.sched.current);
    EntryKeeps(cfg, k, Ret(k, a, value).frames[a]);
  }

  /** A dispatched scheduler state with the same waits is resumable at its own frame. */
  lemma SwitchKeeps(cfg: Config, k: State, s: Sched, obs: Observation)
    requires Core(cfg, k) && Consistent(s) && TopRuns(s)
    requires SameTasks(k.sched.tasks, s.tasks)
    ensures Resumable(cfg, Outcome(k.(sched := s), FrameOf(s), obs))
  {
    SameKeeps(cfg, k.sched.tasks, s.tasks, k.frames, k.chans);
  }

  // ---------------------------------------------------------------------
  // Timer, yield, sleep
  // ---------------------------------------------------------------------

  lemma WakeSleepersWaits(cfg: Config, s: Sched, now: u32, frames: map<int, Context>, chans: Chans)
    requires |s.tasks| == |s.ready.slots| && Placed(cfg, s.tasks) && Waits(cfg, s.tasks, frames, chans)
    ensures var tasks := WakeSleepers(s, now, |s.tasks|).tasks;
            Placed(cfg, tasks) && Waits(cfg, tasks, frames, chans)
  {
    var tasks := WakeSleepers(s, now, |s.tasks|).tasks;
    forall i | 0 <= i < |tasks|
      ensures tasks[i].info == cfg.infos[i] && tasks[i].framePtr == FrameAddr(cfg, i)
      ensures WaitOk(cfg, cfg.infos[i], Wait(tasks[i]), Load(frames, FrameAddr(cfg, i)), chans)
    {
      WakeSleepersEffect(s, now, |s.tasks|, i);
    }
  }

  /** The scheduler after the timer interrupt that makes the tick count `now`. */
  ghost function AfterTick(s: Sched, now: u32, hint: nat): Sched
    requires |s.tasks| == |s.ready.slots|
  {
    Tick(WakeSleepers(s, now, |s.tasks|), hint)
  }

  lemma AfterTickKeeps(cfg: Config, k: State, hint: nat)
    requires Core(cfg, k)
    ensures var now := WrapAdd(k.ticks, 1);
            var s := AfterTick(k.sched, now, hint);
            Resumable(cfg, Outcome(k.(ticks := now, sched := s), FrameOf(s), Quiet))
  {
    var now := WrapAdd(k.ticks, 1);
    var s1 := WakeSleepers(k.sched, now, |k.sched.tasks|);
    WakeSleepersKeeps(k.sched, now, |k.sched.tasks|);
    WakeSleepersWaits(cfg, k.sched, now, k.frames, k.chans);
    var k1 := k.(ticks := now, sched := s1);
    assert Core(cfg, k1);
    TickKeeps(s1, hint);
    TickSame(s1, hint);
    SwitchKeeps(cfg, k1, Tick(s1, hint), Quiet);
  }

  /** The handler always returns the frame of the task that is current afterwards. */
  lemma TimerForm(cfg: Config, k: State, hint: nat)
    requires Core(cfg, k)
    ensures var now := WrapAdd(k.ticks, 1);
            var s := AfterTick(k.sched, now, hint);
            OnTimerInterrupt(k, FrameAddr(cfg, k.sched.current), hint) == Outcome(k.(ticks := now, sched := s), FrameOf(s), Quiet)
  {
    var now := WrapAdd(k.ticks, 1);
    SaveIsIdentity(cfg, k.sched);
    AfterTickKeeps(cfg, k, hint);
    WakeSleepersCurrent(k.sched, now, |k.sched.tasks|);
  }

  lemma {:induction false} WakeSleepersCurrent(s: Sched, now: u32, n: nat)
    requires n <= |s.tasks| == |s.ready.slots|
    ensures WakeSleepers(s, now, n).current == s.current && WakeSleepers(s, now, n).quantum == s.quantum
    ensures WakeSleepers(s, now, n).active == s.active
  {
    if n > 0 { WakeSleepersCurrent(s, now, n - 1); }
  }

  lemma TimerKeeps(cfg: Config, k: State, hint: nat)
    requires Core(cfg, k)
    ensures Resumable(cfg, OnTimerInterrupt(k, FrameAddr(cfg, k.sched.current), hint))
  {
    TimerForm(cfg, k, hint);
    AfterTickKeeps(cfg, k, hint);
  }

  lemma YieldStepKeeps(cfg: Config, k: State, value: u32, hint: nat)
    requires Core(cfg, k)
    ensures var a := FrameAddr(cfg, k.sched.current);
            var s := YieldCurrent(SaveCurrent(k.sched, a), hint);
            Resumable(cfg, Outcome(Ret(k, a, value).(sched := s), FrameOf(s), Quiet))
  {
    var a := FrameAddr(cfg, k.sched.current);
    SaveIsIdentity(cfg, k.sched);
    EntryKeeps(cfg, k, Ret(k, a, value).frames[a]);
    YieldKeeps(k.sched, hint);
    YieldSame(k.sched, hint);
    SwitchKeeps(cfg, Ret(k, a, value), YieldCurrent(k.sched, hint), Quiet);
  }

  lemma BlockWaits(cfg: Config, a: seq<Task>, b: seq<Task>, frames: map<int, Context>, chans: Chans, c: nat)
    requires Placed(cfg, a) && Waits(cfg, a, frames, chans) && c < |a| && SameOthers(a, b, c)
    requires b[c].info == a[c].info && b[c].framePtr == a[c].framePtr
    requires WaitOk(cfg, cfg.infos[c], Wait(b[c]), Load(frames, FrameAddr(cfg, c)), chans)
    ensures Placed(cfg, b) && Waits(cfg, b, frames, chans)
  {
    forall i | 0 <= i < |b| && i != c
      ensures b[i].info == cfg.infos[i] && b[i].framePtr == FrameAddr(cfg, i)
      ensures WaitOk(cfg, cfg.infos[i], Wait(b[i]), Load(frames, FrameAddr(cfg, i)), chans)
    {
      assert SameTask(a[i], b[i]);
    }
  }

  /** Blocking the running task on something its frame justifies. */
  lemma BlockStepKeeps(cfg: Config, k: State, reason: BlockReason, wakeAt: u32, hint: nat)
    requires Core(cfg, k) && k.sched.current != |k.sched.tasks| - 1
    requires WaitOk(cfg, cfg.infos[k.sched.current], Some(reason), Load(k.frames, FrameAddr(cfg, k.sched.current)), k.chans)
    ensures var s := DispatchNext(BlockTask(k.sched, reason, wakeAt), hint);
            Resumable(cfg, Outcome(k.(sched := s), FrameOf(s), Quiet))
  {
    var s := DispatchNext(BlockTask(k.sched, reason, wakeAt), hint);
    BlockKeeps(k.sched, reason, wakeAt, hint);
    BlockEffect(k.sched, reason, wakeAt, hint);
    BlockWaits(cfg, k.sched.tasks, s.tasks, k.frames, k.chans, k.sched.current);
  }

  // ---------------------------------------------------------------------
  // Send and receive
  // ---------------------------------------------------------------------

  /** Everyone but those waiting for `reason` is still right to wait. */
  ghost predicate WaitsExcept(cfg: Config, tasks: seq<Task>, frames: map<int, Context>, chans: Chans, reason: BlockReason) {
    |tasks| == |cfg.infos| && forall i :: 0 <= i < |tasks| && Wait(tasks[i]) != Some(reason) ==>
      WaitOk(cfg, cfg.infos[i], Wait(tasks[i]), Load(frames, FrameAddr(cfg, i)), chans)
  }

  lemma SingleWaiter(cfg: Config, tasks: seq<Task>, frames: map<int, Context>, chans: Chans, reason: BlockReason)
    requires ConfigOk(cfg) && Waits(cfg, tasks, frames, chans) && (reason.Send? || reason.Receive?)
    ensures AtMostOneWaits(tasks, reason)
  {
    forall a, b | (0 <= a < |tasks| && 0 <= b < |tasks| && Wait(tasks[a]) == Some(reason) && Wait(tasks[b]) == Some(reason))
      ensures a == b
    {
      assert WaitOk(cfg, cfg.infos[a], Wait(tasks[a]), Load(frames, FrameAddr(cfg, a)), chans);
      assert WaitOk(cfg, cfg.infos[b], Wait(tasks[b]), Load(frames, FrameAddr(cfg, b)), chans);
      if reason.Send? { OneSender(cfg, a, b, reason.ch); } else { OneReceiver(cfg, a, b, reason.ch); }
    }
  }

  lemma WokenWaits(cfg: Config, s: Sched, frames: map<int, Context>, chans: Chans, reason: BlockReason)
    requires |s.tasks| == |s.ready.slots| && Placed(cfg, s.tasks) && AtMostOneWaits(s.tasks, reason)
    requires WaitsExcept(cfg, s.tasks, frames, chans, reason)
    ensures var tasks := WakeBlockedOn(s, reason).tasks;
            Placed(cfg, tasks) && Waits(cfg, tasks, frames, chans)
  {
    var tasks := WakeBlockedOn(s, reason).tasks;
    forall i | 0 <= i < |tasks|
      ensures tasks[i].info == cfg.infos[i] && tasks[i].framePtr == FrameAddr(cfg, i)
      ensures WaitOk(cfg, cfg.infos[i], Wait(tasks[i]), Load(frames, FrameAddr(cfg, i)), chans)
    {
      WakeBlockedEffect(s, reason, i);
    }
  }

  lemma WakePeerKeeps(cfg: Config, k: State, reason: BlockReason, hint: nat, obs: Observation)
    requires Consistent(k.sched) && Placed(cfg, k.sched.tasks) && Bounded(k)
    requires AtMostOneWaits(k.sched.tasks, reason) && WaitsExcept(cfg, k.sched.tasks, k.frames, k.chans, reason)
    ensures Resumable(cfg, WakePeer(k, FrameAddr(cfg, k.sched.current), reason, hint, obs))
  {
    var a := FrameAddr(cfg, k.sched.current);
    var s1 := WakeBlockedOn(k.sched, reason);
    WakeBlockedKeeps(k.sched, reason);
    WokenWaits(cfg, k.sched, k.frames, k.chans, reason);
    var k1 := k.(sched := s1);
    assert Core(cfg, k1);
    PreemptKeeps(s1, a, hint);
    PreemptSame(s1, a, hint);
    SwitchKeeps(cfg, k1, PreemptIfOutranked(s1, a, hint), obs);
  }

  lemma SendChans(cfg: Config, tasks: seq<Task>, frames: map<int, Context>, chans: Chans, ch: nat, msg: Message)
    requires Waits(cfg, tasks, frames, chans) && ch < MAX_CHANNELS && |chans[ch]| < CHANNEL_CAPACITY
    ensures WaitsExcept(cfg, tasks, frames, chans[ch := chans[ch] + [msg]], Receive(ch))
  {
    forall i | 0 <= i < |tasks| && Wait(tasks[i]) != Some(Receive(ch))
      ensures WaitOk(cfg, cfg.infos[i], Wait(tasks[i]), Load(frames, FrameAddr(cfg, i)), chans[ch := chans[ch] + [msg]])
    {
      assert WaitOk(cfg, cfg.infos[i], Wait(tasks[i]), Load(frames, FrameAddr(cfg, i)), chans);
    }
  }

  lemma ReceiveChans(cfg: Config, tasks: seq<Task>, frames: map<int, Context>, chans: Chans, ch: nat)
    requires Waits(cfg, tasks, frames, chans) && ch < MAX_CHANNELS && chans[ch] != []
    ensures WaitsExcept(cfg, tasks, frames, chans[ch := chans[ch][1..]], Send(ch))
  {
    forall i | 0 <= i < |tasks| && Wait(tasks[i]) != Some(Send(ch))
      ensures WaitOk(cfg, cfg.infos[i], Wait(tasks[i]), Load(frames, FrameAddr(cfg, i)), chans[ch := chans[ch][1..]])
    {
      assert WaitOk(cfg, cfg.infos[i], Wait(tasks[i]), Load(frames, FrameAddr(cfg, i)), chans);
    }
  }

  /** The running task's frame holds a call made by the `ecall` at `pc`. */
  ghost predicate AtCall(cfg: Config, k: State, pc: u32) {
    && k.sched.current < |k.sched.tasks| - 1 && pc in cfg.ecalls
    && Load(k.frames, FrameAddr(cfg, k.sched.current)).pc == WrapAdd(pc, 4)
  }

  lemma PcBack(pc: u32)
    ensures WrapAdd(WrapAdd(pc, 4), -4) == pc
  {
  }

  /** Rewinding and blocking, when the frame's arguments have passed the checks. */
  lemma RestartKeeps(cfg: Config, k: State, pc: u32, reason: BlockReason, hint: nat)
    requires Core(cfg, k) && AtCall(cfg, k, pc)
    requires WaitOk(cfg, cfg.infos[k.sched.current], Some(reason),
                    Load(k.frames, FrameAddr(cfg, k.sched.current)).(pc := pc), k.chans)
    ensures Resumable(cfg, BlockAndRestart(k, FrameAddr(cfg, k.sched.current), reason, hint))
  {
    var a := FrameAddr(cfg, k.sched.current);
    var k1 := MovePc(k, a, -4);
    PcBack(pc);
    EntryKeeps(cfg, k, k1.frames[a]);
    SaveIsIdentity(cfg, k1.sched);
    BlockStepKeeps(cfg, k1, reason, WakeAt(k1.sched), hint);
  }

  ghost predicate Calling(cfg: Config, k: State, number: nat) {
    Load(k.frames, FrameAddr(cfg, k.sched.current)).regs[REG_A7] == number
  }

  /** The system call in the running task's frame, taken apart. */
  ghost function SendOutcome(cfg: Config, k: State, hint: nat): Outcome {
    var a := FrameAddr(cfg, k.sched.current);
    var r := Load(k.frames, a).regs;
    SysSend(cfg, k, a, r[REG_A0], r[REG_A1], r[REG_A2], r[REG_A3], hint)
  }

  ghost function ReceiveOutcome(cfg: Config, k: State, hint: nat): Outcome {
    var a := FrameAddr(cfg, k.sched.current);
    var r := Load(k.frames, a).regs;
    SysReceive(k, a, r[REG_A0], r[REG_A1], r[REG_A2], r[REG_A3], hint)
  }

  lemma TransferKeeps(cfg: Config, k: State, chans: Chans, ram: seq<u8>, value: u32, reason: BlockReason, hint: nat, obs: Observation)
    requires Core(cfg, k) && Bounded(k.(chans := chans, ram := ram)) && AtMostOneWaits(k.sched.tasks, reason)
    requires WaitsExcept(cfg, k.sched.tasks, k.frames, chans, reason)
    ensures var a := FrameAddr(cfg, k.sched.current);
            Resumable(cfg, WakePeer(Ret(k.(chans := chans, ram := ram), a, value), a, reason, hint, obs))
  {
    var a := FrameAddr(cfg, k.sched.current);
    var k1 := Ret(k.(chans := chans, ram := ram), a, value);
    forall i | 0 <= i < |k.sched.tasks| && Wait(k.sched.tasks[i]) != Some(reason)
      ensures WaitOk(cfg, cfg.infos[i], Wait(k.sched.tasks[i]), Load(k1.frames, FrameAddr(cfg, i)), chans)
    {
      assert WaitOk(cfg, cfg.infos[i], Wait(k.sched.tasks[i]), Load(k.frames, FrameAddr(cfg, i)), chans);
      assert i != k.sched.current ==> FrameAddr(cfg, i) != a;
    }
    WakePeerKeeps(cfg, k1, reason, hint, obs);
  }

  lemma SendKeeps(cfg: Config, k: State, pc: u32, hint: nat)
    requires ConfigOk(cfg) && Core(cfg, k) && TopRuns(k.sched) && AtCall(cfg, k, pc) && Calling(cfg, k, SYS_SEND)
    ensures Resumable(cfg, SendOutcome(cfg, k, hint))
  {
    var a := FrameAddr(cfg, k.sched.current);
    var r := Load(k.frames, a).regs;
    var ch := r[REG_A0];
    var err := SendError(cfg, k.sched, ch, r[REG_A1], r[REG_A2]);
    if err.Some? {
      DoneKeeps(cfg, k, err.value);
    } else if |k.chans[ch]| >= CHANNEL_CAPACITY {
      if r[REG_A3] % 2 == 1 { DoneKeeps(cfg, k, EAGAIN); } else { RestartKeeps(cfg, k, pc, Send(ch), hint); }
    } else {
      var msg := FromBytes(Read(k.ram, r[REG_A1], r[REG_A2])).value;
      SingleWaiter(cfg, k.sched.tasks, k.frames, k.chans, Receive(ch));
      SendChans(cfg, k.sched.tasks, k.frames, k.chans, ch, msg);
      TransferKeeps(cfg, k, k.chans[ch := k.chans[ch] + [msg]], k.ram, 0, Receive(ch), hint, Sent(k.sched.current, ch, msg));
    }
  }

  lemma ReceiveKeeps(cfg: Config, k: State, pc: u32, hint: nat)
    requires ConfigOk(cfg) && Core(cfg, k) && TopRuns(k.sched) && AtCall(cfg, k, pc) && Calling(cfg, k, SYS_RECEIVE)
    ensures Resumable(cfg, ReceiveOutcome(cfg, k, hint))
  {
    var a := FrameAddr(cfg, k.sched.current);
    var r := Load(k.frames, a).regs;
    var ch := r[REG_A0];
    var err := ReceiveError(k.sched, ch, r[REG_A1], r[REG_A2]);
    if err.Some? {
      DoneKeeps(cfg, k, err.value);
    } else if k.chans[ch] == [] {
      if r[REG_A3] % 2 == 1 { DoneKeeps(cfg, k, EAGAIN); } else { RestartKeeps(cfg, k, pc, Receive(ch), hint); }
    } else {
      var msg := k.chans[ch][0];
      SingleWaiter(cfg, k.sched.tasks, k.frames, k.chans, Send(ch));
      ReceiveChans(cfg, k.sched.tasks, k.frames, k.chans, ch);
      TransferKeeps(cfg, k, k.chans[ch := k.chans[ch][1..]], Deliver(k.ram, r[REG_A1], Truncated(msg, r[REG_A2])),
                    msg.len, Send(ch), hint, Received(k.sched.current, ch, msg));
    }
  }

  lemma DispatchSyscallKeeps(cfg: Config, k: State, pc: u32, hint: nat)
    requires ConfigOk(cfg) && Core(cfg, k) && TopRuns(k.sched) && AtCall(cfg, k, pc)
    ensures Resumable(cfg, Dispatch(cfg, k, FrameAddr(cfg, k.sched.current), hint))
  {
    var a := FrameAddr(cfg, k.sched.current);
    var r := Load(k.frames, a).regs;
    var a7 := r[REG_A7];
    if a7 == SYS_YIELD {
      YieldStepKeeps(cfg, k, 0, hint);
    } else if a7 == SYS_SLEEP {
      SleepStepKeeps(cfg, k, r[REG_A0], hint);
    } else if a7 == SYS_LOG {
      DoneKeeps(cfg, k, LogResult(cfg, k.sched, r[REG_A0], Min(r[REG_A1], LOG_MAX_LEN)));
    } else if a7 == SYS_NOW {
      DoneKeeps(cfg, k, k.ticks);
    } else if a7 == SYS_SEND {
      SendKeeps(cfg, k, pc, hint);
    } else if a7 == SYS_RECEIVE {
      ReceiveKeeps(cfg, k, pc, hint);
    } else {
      DoneKeeps(cfg, k, ENOSYS);
    }
  }

  lemma SleepStepKeeps(cfg: Config, k: State, ticks: u32, hint: nat)
    requires Core(cfg, k) && k.sched.current != |k.sched.tasks| - 1
    ensures var a := FrameAddr(cfg, k.sched.current);
            var s := SleepCurrent(SaveCurrent(k.sched, a), k.ticks, ticks, hint);
            Resumable(cfg, Outcome(Ret(k, a, 0).(sched := s), FrameOf(s), Quiet))
  {
    var a := FrameAddr(cfg, k.sched.current);
    SaveIsIdentity(cfg, k.sched);
    EntryKeeps(cfg, k, Ret(k, a, 0).frames[a]);
    BlockStepKeeps(cfg, Ret(k, a, 0), Sleep, WrapAdd(k.ticks, Max(ticks, 1)), hint);
  }

  // ---------------------------------------------------------------------
  // Steps
  // ---------------------------------------------------------------------

  /**
    What can happen in a state.  The instruction at an `ecall` address does
    nothing but trap; the idle task makes no system calls.
   */
  ghost predicate Enabled(cfg: Config, k: State, e: Event) {
    match e
    case User(cpu, ram) => k.cpu.pc !in cfg.ecalls && cpu.mstatus == k.cpu.mstatus && |ram| == |k.ram|
    case Ecall(_) => k.cpu.pc in cfg.ecalls && k.sched.current != |k.sched.tasks| - 1
    case _ => true
  }

  /** The state the handler starts from: the running context is in its frame. */
  lemma EntryInv(cfg: Config, k: State)
    requires Inv(cfg, k)
    ensures Core(cfg, TrapEntry(k)) && TopRuns(TrapEntry(k).sched)
    ensures k.mscratch - TRAP_FRAME_SIZE == FrameAddr(cfg, k.sched.current)
  {
    EntryKeeps(cfg, k, k.cpu);
  }

  lemma ExitInv(cfg: Config, o: Outcome)
    requires Resumable(cfg, o)
    ensures Inv(cfg, TrapExit(o))
  {
  }

  /** The state `dispatch` sees: past the `ecall`. */
  lemma CallInv(cfg: Config, k: State)
    requires Inv(cfg, k) && k.cpu.pc in cfg.ecalls && k.sched.current != |k.sched.tasks| - 1
    ensures var k1 := CallEntry(cfg, k);
            Core(cfg, k1) && TopRuns(k1.sched) && AtCall(cfg, k1, k.cpu.pc)
    ensures k.mscratch - TRAP_FRAME_SIZE == FrameAddr(cfg, k.sched.current)
  {
    EntryInv(cfg, k);
    EntryKeeps(cfg, TrapEntry(k), CallEntry(cfg, k).frames[FrameAddr(cfg, k.sched.current)]);
  }

  /** The state `dispatch` starts from: the frame saved, and its `pc` past the `ecall`. */
  function CallEntry(cfg: Config, k: State): State {
    MovePc(TrapEntry(k), FrameAddr(cfg, k.sched.current), 4)
  }

  /** The handler starts from the saved frame. */
  lemma SavedIsHandled(cfg: Config, k: State, e: Event, k1: State, frame: int)
    requires !e.User? && k1 == TrapEntry(k) && frame == k.mscratch - TRAP_FRAME_SIZE
    ensures Handle(cfg, k, e) == Handled(cfg, k1, frame, e)
  {
  }

  /** The handler of each trap works on the running task's own frame. */
  lemma HandleForm(cfg: Config, k: State, hint: nat)
    requires k.mscratch - TRAP_FRAME_SIZE == FrameAddr(cfg, k.sched.current)
    ensures Handle(cfg, k, Timer(hint)) == OnTimerInterrupt(TrapEntry(k), FrameAddr(cfg, k.sched.current), hint)
    ensures Handle(cfg, k, Ecall(hint)) == Dispatch(cfg, CallEntry(cfg, k), FrameAddr(cfg, k.sched.current), hint)
  {
    SavedIsHandled(cfg, k, Timer(hint), TrapEntry(k), FrameAddr(cfg, k.sched.current));
    SavedIsHandled(cfg, k, Ecall(hint), TrapEntry(k), FrameAddr(cfg, k.sched.current));
  }

  lemma HandleTimerKeeps(cfg: Config, k: State, hint: nat)
    requires Inv(cfg, k)
    ensures Resumable(cfg, Handle(cfg, k, Timer(hint)))
  {
    EntryInv(cfg, k);
    TimerKeeps(cfg, TrapEntry(k), hint);
    HandleForm(cfg, k, hint);
  }

  lemma HandleEcallKeeps(cfg: Config, k: State, hint: nat)
    requires ConfigOk(cfg) && Inv(cfg, k) && Enabled(cfg, k, Ecall(hint))
    ensures Resumable(cfg, Handle(cfg, k, Ecall(hint)))
  {
    CallInv(cfg, k);
    DispatchSyscallKeeps(cfg, CallEntry(cfg, k), k.cpu.pc, hint);
    HandleForm(cfg, k, hint);
  }

  lemma HandleKeeps(cfg: Config, k: State, e: Event)
    requires ConfigOk(cfg) && Inv(cfg, k) && Enabled(cfg, k, e) && !e.User?
    ensures Resumable(cfg, Handle(cfg, k, e))
  {
    match e {
      case Timer(hint) => HandleTimerKeeps(cfg, k, hint);
      case Ecall(hint) => HandleEcallKeeps(cfg, k, hint);
      case OtherInterrupt => EntryInv(cfg, k);
    }
  }

  /** Every step keeps the invariant. */
  lemma StepKeeps(cfg: Config, k: State, e: Event)
    requires ConfigOk(cfg) && Inv(cfg, k) && Enabled(cfg, k, e)
    ensures Inv(cfg, Step(cfg, k, e))
  {
    if !e.User? {
      HandleKeeps(cfg, k, e);
      ExitInv(cfg, Handle(cfg, k, e));
    }
  }
}
