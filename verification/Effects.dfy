/** What one step does to each task: its context, its memory and what it waits for. */
module Effects {
  import opened Words
  import opened Tasks
  import opened Channels
  import opened Scheduler
  import opened Kernel
  import opened Invariant

  /** The context a task has: live if it runs, in its frame otherwise. */
  ghost function ContextOf(cfg: Config, k: State, i: nat): Context {
    if i == k.sched.current then k.cpu else Load(k.frames, FrameAddr(cfg, i))
  }

  // ---------------------------------------------------------------------
  // The system call behind an `ecall`
  // ---------------------------------------------------------------------

  lemma DispatchForms(cfg: Config, k: State, hint: nat)
    ensures Calling(cfg, k, SYS_SEND) ==> Dispatch(cfg, k, FrameAddr(cfg, k.sched.current), hint) == SendOutcome(cfg, k, hint)
    ensures Calling(cfg, k, SYS_RECEIVE) ==> Dispatch(cfg, k, FrameAddr(cfg, k.sched.current), hint) == ReceiveOutcome(cfg, k, hint)
  {
  }

  /** The handler sees the live registers in the frame, and nothing else changed. */
  lemma CallEntryForm(cfg: Config, k: State)
    requires k.mscratch - TRAP_FRAME_SIZE == FrameAddr(cfg, k.sched.current)
    ensures var k1 := CallEntry(cfg, k);
            && k1 == k.(frames := k1.frames)
            && Load(k1.frames, FrameAddr(cfg, k.sched.current)) == k.cpu.(pc := WrapAdd(k.cpu.pc, 4))
  {
  }

  /** What an `ecall` step does, in terms of the call's outcome. */
  lemma EcallForm(cfg: Config, k: State, hint: nat)
    requires k.mscratch - TRAP_FRAME_SIZE == FrameAddr(cfg, k.sched.current)
    ensures var o := Dispatch(cfg, CallEntry(cfg, k), FrameAddr(cfg, k.sched.current), hint);
            Observe(cfg, k, Ecall(hint)) == o.obs && Step(cfg, k, Ecall(hint)).sched == o.k.sched
  {
    HandleForm(cfg, k, hint);
  }

  lemma NotWaitingIsRunnable(cfg: Config, k: State, i: nat)
    requires Inv(cfg, k) && i < |k.sched.tasks| && Wait(k.sched.tasks[i]) == None
    ensures Runnable(k.sched.tasks[i])
  {
    assert KeyOk(k.sched.tasks[i], k.sched.ready.slots[i], k.sched.ready.births);
  }

  lemma RunnableAfter(cfg: Config, k: State, e: Event, i: nat)
    requires ConfigOk(cfg) && Inv(cfg, k) && Enabled(cfg, k, e)
    requires i < |Step(cfg, k, e).sched.tasks| && Wait(Step(cfg, k, e).sched.tasks[i]) == None
    ensures Runnable(Step(cfg, k, e).sched.tasks[i])
  {
    StepKeeps(cfg, k, e);
    NotWaitingIsRunnable(cfg, Step(cfg, k, e), i);
  }

  // ---------------------------------------------------------------------
  // Contexts
  // ---------------------------------------------------------------------

  /** Past the call, with a result in `a0`. */
  predicate Completed(before: Context, after: Context) {
    after.pc == before.pc && after.regs == before.regs[REG_A0 := after.regs[REG_A0]] && after.mstatus == before.mstatus
  }

  /** The caller's context after a call that returned `value`. */
  function ReturnedWith(cpu: Context, value: u32): Context {
    cpu.(pc := WrapAdd(cpu.pc, 4), regs := cpu.regs[REG_A0 := value])
  }

  /** Back at the call, with nothing else changed. */
  predicate Rewound(before: Context, after: Context) {
    after == before.(pc := WrapAdd(before.pc, -4))
  }

  /** Only the caller's frame is written: the call completes, or will be made again. */
  ghost predicate OnlyFrame(before: map<int, Context>, after: map<int, Context>, frame: int) {
    match Load(after, frame)
    case Context(regs, pc, mstatus) =>
      && after == before[frame := Load(after, frame)]
      && (Completed(Load(before, frame), Load(after, frame)) || Rewound(Load(before, frame), Load(after, frame)))
  }

  lemma SendFrames(cfg: Config, k: State, frame: int, ch: u32, ptr: u32, len: u32, flags: u32, hint: nat)
    ensures OnlyFrame(k.frames, SysSend(cfg, k, frame, ch, ptr, len, flags, hint).k.frames, frame)
  {
  }

  lemma ReceiveFrames(k: State, frame: int, ch: u32, ptr: u32, cap: u32, flags: u32, hint: nat)
    ensures OnlyFrame(k.frames, SysReceive(k, frame, ch, ptr, cap, flags, hint).k.frames, frame)
  {
  }

  lemma DispatchFrames(cfg: Config, k: State, frame: int, hint: nat)
    ensures OnlyFrame(k.frames, Dispatch(cfg, k, frame, hint).k.frames, frame)
  {
    var r := Load(k.frames, frame).regs;
    if r[REG_A7] == SYS_SEND {
      SendFrames(cfg, k, frame, r[REG_A0], r[REG_A1], r[REG_A2], r[REG_A3], hint);
    } else if r[REG_A7] == SYS_RECEIVE {
      ReceiveFrames(k, frame, r[REG_A0], r[REG_A1], r[REG_A2], r[REG_A3], hint);
    }
  }

  /** The frames after a system call, from the registers at the `ecall`. */
  lemma CallFrames(cfg: Config, k: State, hint: nat)
    requires k.mscratch - TRAP_FRAME_SIZE == FrameAddr(cfg, k.sched.current)
    ensures var a := FrameAddr(cfg, k.sched.current);
            var after := Dispatch(cfg, CallEntry(cfg, k), a, hint).k.frames;
            && after == k.frames[a := Load(after, a)]
            && (Completed(k.cpu.(pc := WrapAdd(k.cpu.pc, 4)), Load(after, a)) || Load(after, a) == k.cpu)
  {
    var a := FrameAddr(cfg, k.sched.current);
    CallEntryForm(cfg, k);
    DispatchFrames(cfg, CallEntry(cfg, k), a, hint);
    PcBack(k.cpu.pc);
    CallEntryFrames(cfg, k, Load(Dispatch(cfg, CallEntry(cfg, k), a, hint).k.frames, a));
  }

  lemma CallEntryFrames(cfg: Config, k: State, f: Context)
    requires k.mscratch - TRAP_FRAME_SIZE == FrameAddr(cfg, k.sched.current)
    ensures var a := FrameAddr(cfg, k.sched.current);
            CallEntry(cfg, k).frames[a := f] == k.frames[a := f]
  {
  }

  lemma TimerFrames(cfg: Config, k: State, frame: int, hint: nat)
    ensures OnTimerInterrupt(k, frame, hint).k.frames == k.frames
  {
  }

  /** The frames after the handler of a trap. */
  lemma HandleFrames(cfg: Config, k: State, e: Event)
    requires k.mscratch - TRAP_FRAME_SIZE == FrameAddr(cfg, k.sched.current) && !e.User?
    ensures var a := FrameAddr(cfg, k.sched.current);
            var after := Handle(cfg, k, e).k.frames;
            && after == k.frames[a := Load(after, a)]
            && (if e.Ecall? then
                  Completed(k.cpu.(pc := WrapAdd(k.cpu.pc, 4)), Load(after, a)) || Load(after, a) == k.cpu
                else Load(after, a) == k.cpu)
  {
    match e {
      case Ecall(hint) =>
        HandleForm(cfg, k, hint);
        CallFrames(cfg, k, hint);
      case Timer(hint) =>
        HandleForm(cfg, k, hint);
        TimerFrames(cfg, TrapEntry(k), FrameAddr(cfg, k.sched.current), hint);
      case OtherInterrupt =>
    }
  }

  /** Saving, switching and resuming restores every task's context exactly. */
  lemma ResumeContext(cfg: Config, o: Outcome, i: nat)
    requires Resumable(cfg, o)
    ensures ContextOf(cfg, TrapExit(o), i) == Load(o.k.frames, FrameAddr(cfg, i))
  {
  }

  /** No step touches the context of a task that is switched out. */
  lemma ContextPreserved(cfg: Config, k: State, e: Event, i: nat)
    requires ConfigOk(cfg) && Inv(cfg, k) && Enabled(cfg, k, e) && i != k.sched.current
    ensures ContextOf(cfg, Step(cfg, k, e), i) == ContextOf(cfg, k, i)
  {
    if !e.User? {
      HandleKeeps(cfg, k, e);
      HandleFrames(cfg, k, e);
      ResumeContext(cfg, Handle(cfg, k, e), i);
      assert FrameAddr(cfg, i) != FrameAddr(cfg, k.sched.current);
    }
  }

  /** An interrupt is invisible to the task it interrupts; a call changes only `a0` and moves on, or repeats. */
  lemma OwnContext(cfg: Config, k: State, e: Event)
    requires ConfigOk(cfg) && Inv(cfg, k) && Enabled(cfg, k, e) && !e.User?
    ensures var after := ContextOf(cfg, Step(cfg, k, e), k.sched.current);
            if e.Ecall? then Completed(k.cpu.(pc := WrapAdd(k.cpu.pc, 4)), after) || after == k.cpu
            else after == k.cpu
  {
    HandleKeeps(cfg, k, e);
    HandleFrames(cfg, k, e);
    ResumeContext(cfg, Handle(cfg, k, e), k.sched.current);
  }

  /** Calls that return 0 and then go through the scheduler: what the step does. */
  lemma ReturnsZero(cfg: Config, k: State, hint: nat, s': Sched)
    requires ConfigOk(cfg) && Inv(cfg, k) && Enabled(cfg, k, Ecall(hint))
    requires var a, k1 := FrameAddr(cfg, k.sched.current), CallEntry(cfg, k);
             Dispatch(cfg, k1, a, hint) == Outcome(Ret(k1, a, 0).(sched := s'), FrameOf(s'), Quiet)
    ensures var k' := Step(cfg, k, Ecall(hint));
            && k'.sched == s' && k'.chans == k.chans && k'.ram == k.ram && k'.ticks == k.ticks
            && ContextOf(cfg, k', k.sched.current) == ReturnedWith(k.cpu, 0) && Observe(cfg, k, Ecall(hint)) == Quiet
  {
    EntryInv(cfg, k);
    CallEntryForm(cfg, k);
    HandleForm(cfg, k, hint);
    HandleKeeps(cfg, k, Ecall(hint));
    ResumeContext(cfg, Handle(cfg, k, Ecall(hint)), k.sched.current);
  }

  // ---------------------------------------------------------------------
  // Waiting
  // ---------------------------------------------------------------------

  /** How a switched-out task's wait may change: not at all, or it ends for the one right reason. */
  predicate WaitStep(w: Option<BlockReason>, w': Option<BlockReason>, timer: bool, reached: bool, obs: Observation) {
    match w
    case None => w' == None
    case Some(NotBlocked) => w' == w
    case Some(Sleep) => w' == (if timer && reached then None else w)
    case Some(Send(ch)) => w' == (if obs.Received? && obs.ch == ch then None else w)
    case Some(Receive(ch)) => w' == (if obs.Sent? && obs.ch == ch then None else w)
  }

  /** Task `i`, not running, across one scheduler step. */
  ghost predicate TaskStep(s: Sched, s': Sched, i: nat, now: u32, timer: bool, obs: Observation)
    requires i < |s.tasks|
  {
    match s.tasks[i]
    case Task(_, _, _, wakeAt, _) =>
      && |s'.tasks| == |s.tasks|
      && s'.tasks[i].wakeAt == wakeAt
      && WaitStep(Wait(s.tasks[i]), Wait(s'.tasks[i]), timer, TickReached(now, wakeAt), obs)
  }

  /** A transfer on `ch` ends exactly the wait `ended` of the other end. */
  lemma TransferIsStep(s: Sched, s': Sched, i: nat, obs: Observation, ended: BlockReason)
    requires i < |s.tasks| == |s'.tasks| && s'.tasks[i].wakeAt == s.tasks[i].wakeAt
    requires (obs.Sent? && ended == Receive(obs.ch)) || (obs.Received? && ended == Send(obs.ch))
    requires Wait(s'.tasks[i]) == if Wait(s.tasks[i]) == Some(ended) then None else Wait(s.tasks[i])
    ensures TaskStep(s, s', i, 0, false, obs)
  {
  }

  lemma TimerTasks(cfg: Config, k: State, i: nat, hint: nat)
    requires Core(cfg, k) && i < |k.sched.tasks|
    ensures var o := OnTimerInterrupt(k, FrameAddr(cfg, k.sched.current), hint);
            TaskStep(k.sched, o.k.sched, i, WrapAdd(k.ticks, 1), true, o.obs)
  {
    var now := WrapAdd(k.ticks, 1);
    TimerForm(cfg, k, hint);
    var s1 := WakeSleepers(k.sched, now, |k.sched.tasks|);
    WakeSleepersKeeps(k.sched, now, |k.sched.tasks|);
    WakeSleepersEffect(k.sched, now, |k.sched.tasks|, i);
    TickSame(s1, hint);
    assert SameTask(s1.tasks[i], Tick(s1, hint).tasks[i]);
  }

  lemma WakePeerTasks(cfg: Config, k: State, i: nat, reason: BlockReason, hint: nat, obs: Observation)
    requires Consistent(k.sched) && Placed(cfg, k.sched.tasks) && i < |k.sched.tasks| && AtMostOneWaits(k.sched.tasks, reason)
    ensures var s' := WakePeer(k, FrameAddr(cfg, k.sched.current), reason, hint, obs).k.sched;
            && |s'.tasks| == |k.sched.tasks| && s'.tasks[i].wakeAt == k.sched.tasks[i].wakeAt
            && Wait(s'.tasks[i]) == if Wait(k.sched.tasks[i]) == Some(reason) then None else Wait(k.sched.tasks[i])
  {
    var a := FrameAddr(cfg, k.sched.current);
    var s1 := WakeBlockedOn(k.sched, reason);
    WakeBlockedKeeps(k.sched, reason);
    WakeBlockedEffect(k.sched, reason, i);
    WakeBlockedEffect(k.sched, reason, k.sched.current);
    PreemptSame(s1, a, hint);
    assert SameTask(s1.tasks[i], PreemptIfOutranked(s1, a, hint).tasks[i]);
  }

  lemma BlockTasks(cfg: Config, k: State, i: nat, reason: BlockReason, wakeAt: u32, hint: nat)
    requires Core(cfg, k) && i < |k.sched.tasks| && i != k.sched.current && k.sched.current != |k.sched.tasks| - 1
    ensures var s := SaveCurrent(k.sched, FrameAddr(cfg, k.sched.current));
            TaskStep(k.sched, DispatchNext(BlockTask(s, reason, wakeAt), hint), i, 0, false, Quiet)
  {
    SaveIsIdentity(cfg, k.sched);
    BlockEffect(k.sched, reason, wakeAt, hint);
    assert SameTask(k.sched.tasks[i], DispatchNext(BlockTask(k.sched, reason, wakeAt), hint).tasks[i]);
  }

  /** The message a send on the running task's frame makes, and the state once it is queued and the call has returned 0. */
  function SentMessage(cfg: Config, k: State): Option<Message> {
    var r := Load(k.frames, FrameAddr(cfg, k.sched.current)).regs;
    FromBytes(Read(k.ram, r[REG_A1], r[REG_A2]))
  }

  function AfterSend(cfg: Config, k: State, ch: nat, msg: Message): State
    requires ch < MAX_CHANNELS
  {
    Ret(k.(chans := k.chans[ch := k.chans[ch] + [msg]]), FrameAddr(cfg, k.sched.current), 0)
  }

  lemma SentForm(cfg: Config, k: State, ch: nat, hint: nat)
    requires var r := Load(k.frames, FrameAddr(cfg, k.sched.current)).regs;
             ch == r[REG_A0] && SendError(cfg, k.sched, ch, r[REG_A1], r[REG_A2]).None? && |k.chans[ch]| < CHANNEL_CAPACITY
    ensures ch < MAX_CHANNELS && SentMessage(cfg, k).Some?
    ensures var msg := SentMessage(cfg, k).value;
            SendOutcome(cfg, k, hint) ==
              WakePeer(AfterSend(cfg, k, ch, msg), FrameAddr(cfg, k.sched.current), Receive(ch), hint, Sent(k.sched.current, ch, msg))
  {
  }

  function AfterReceive(cfg: Config, k: State, ch: nat): State
    requires ch < MAX_CHANNELS && k.chans[ch] != []
  {
    var a, msg := FrameAddr(cfg, k.sched.current), k.chans[ch][0];
    var r := Load(k.frames, a).regs;
    Ret(k.(chans := k.chans[ch := k.chans[ch][1..]], ram := Deliver(k.ram, r[REG_A1], Truncated(msg, r[REG_A2]))), a, msg.len)
  }

  lemma ReceivedForm(cfg: Config, k: State, ch: nat, hint: nat)
    requires var r := Load(k.frames, FrameAddr(cfg, k.sched.current)).regs;
             ch == r[REG_A0] && ReceiveError(k.sched, ch, r[REG_A1], r[REG_A2]).None? && k.chans[ch] != []
    ensures ch < MAX_CHANNELS
    ensures ReceiveOutcome(cfg, k, hint) ==
              WakePeer(AfterReceive(cfg, k, ch), FrameAddr(cfg, k.sched.current), Send(ch), hint,
                       Received(k.sched.current, ch, k.chans[ch][0]))
  {
  }

  /** A send that goes through ends exactly the wait for a message on its channel. */
  lemma SentTasks(cfg: Config, k: State, ch: nat, i: nat, hint: nat)
    requires ConfigOk(cfg) && Core(cfg, k) && i < |k.sched.tasks|
    requires var r := Load(k.frames, FrameAddr(cfg, k.sched.current)).regs;
             ch == r[REG_A0] && SendError(cfg, k.sched, ch, r[REG_A1], r[REG_A2]).None? && |k.chans[ch]| < CHANNEL_CAPACITY
    ensures var o := SendOutcome(cfg, k, hint);
            && o.obs.Sent? && o.obs.task == k.sched.current && o.obs.ch == ch
            && |o.k.sched.tasks| == |k.sched.tasks| && o.k.sched.tasks[i].wakeAt == k.sched.tasks[i].wakeAt
            && Wait(o.k.sched.tasks[i]) == if Wait(k.sched.tasks[i]) == Some(Receive(ch)) then None else Wait(k.sched.tasks[i])
  {
    var a := FrameAddr(cfg, k.sched.current);
    var r := Load(k.frames, a).regs;
    var msg := FromBytes(Read(k.ram, r[REG_A1], r[REG_A2])).value;
    SingleWaiter(cfg, k.sched.tasks, k.frames, k.chans, Receive(ch));
    var k1 := Ret(k.(chans := k.chans[ch := k.chans[ch] + [msg]]), a, 0);
    WakePeerTasks(cfg, k1, i, Receive(ch), hint, Sent(k.sched.current, ch, msg));
  }

  /** Likewise a receive and the wait for space. */
  lemma ReceivedTasks(cfg: Config, k: State, ch: nat, i: nat, hint: nat)
    requires ConfigOk(cfg) && Core(cfg, k) && i < |k.sched.tasks|
    requires var r := Load(k.frames, FrameAddr(cfg, k.sched.current)).regs;
             ch == r[REG_A0] && ReceiveError(k.sched, ch, r[REG_A1], r[REG_A2]).None? && k.chans[ch] != []
    ensures var o := ReceiveOutcome(cfg, k, hint);
            && o.obs.Received? && o.obs.task == k.sched.current && o.obs.ch == ch
            && |o.k.sched.tasks| == |k.sched.tasks| && o.k.sched.tasks[i].wakeAt == k.sched.tasks[i].wakeAt
            && Wait(o.k.sched.tasks[i]) == if Wait(k.sched.tasks[i]) == Some(Send(ch)) then None else Wait(k.sched.tasks[i])
  {
    var a := FrameAddr(cfg, k.sched.current);
    var r := Load(k.frames, a).regs;
    var msg := k.chans[ch][0];
    SingleWaiter(cfg, k.sched.tasks, k.frames, k.chans, Send(ch));
    var k1 := k.(chans := k.chans[ch := k.chans[ch][1..]], ram := Deliver(k.ram, r[REG_A1], Truncated(msg, r[REG_A2])));
    WakePeerTasks(cfg, Ret(k1, a, msg.len), i, Send(ch), hint, Received(k.sched.current, ch, msg));
  }

  /** A send that blocks wakes nobody. */
  lemma SendBlocksTasks(cfg: Config, k: State, pc: u32, ch: nat, i: nat, hint: nat)
    requires ConfigOk(cfg) && Core(cfg, k) && AtCall(cfg, k, pc) && i < |k.sched.tasks| && i != k.sched.current
    requires var r := Load(k.frames, FrameAddr(cfg, k.sched.current)).regs;
             && ch == r[REG_A0] && SendError(cfg, k.sched, ch, r[REG_A1], r[REG_A2]).None?
             && |k.chans[ch]| >= CHANNEL_CAPACITY
    ensures TaskStep(k.sched, SendOutcome(cfg, k, hint).k.sched, i, 0, false, SendOutcome(cfg, k, hint).obs)
  {
    BlockTasks(cfg, k, i, Send(ch), WakeAt(k.sched), hint);
    SaveIsIdentity(cfg, k.sched);
  }

  lemma SendTasks(cfg: Config, k: State, pc: u32, i: nat, hint: nat)
    requires ConfigOk(cfg) && Core(cfg, k) && AtCall(cfg, k, pc) && i < |k.sched.tasks| && i != k.sched.current
    ensures TaskStep(k.sched, SendOutcome(cfg, k, hint).k.sched, i, 0, false, SendOutcome(cfg, k, hint).obs)
  {
    var r := Load(k.frames, FrameAddr(cfg, k.sched.current)).regs;
    var ch := r[REG_A0];
    if SendError(cfg, k.sched, ch, r[REG_A1], r[REG_A2]).None? {
      if |k.chans[ch]| >= CHANNEL_CAPACITY {
        SendBlocksTasks(cfg, k, pc, ch, i, hint);
      } else {
        SentTasks(cfg, k, ch, i, hint);
        TransferIsStep(k.sched, SendOutcome(cfg, k, hint).k.sched, i, SendOutcome(cfg, k, hint).obs, Receive(ch));
      }
    } else {
      assert SendOutcome(cfg, k, hint).k.sched == k.sched;
    }
  }

  lemma ReceiveBlocksTasks(cfg: Config, k: State, pc: u32, ch: nat, i: nat, hint: nat)
    requires ConfigOk(cfg) && Core(cfg, k) && AtCall(cfg, k, pc) && i < |k.sched.tasks| && i != k.sched.current
    requires var r := Load(k.frames, FrameAddr(cfg, k.sched.current)).regs;
             && ch == r[REG_A0] && ReceiveError(k.sched, ch, r[REG_A1], r[REG_A2]).None? && k.chans[ch] == []
    ensures TaskStep(k.sched, ReceiveOutcome(cfg, k, hint).k.sched, i, 0, false, ReceiveOutcome(cfg, k, hint).obs)
  {
    BlockTasks(cfg, k, i, Receive(ch), WakeAt(k.sched), hint);
    SaveIsIdentity(cfg, k.sched);
  }

  lemma ReceiveTasks(cfg: Config, k: State, pc: u32, i: nat, hint: nat)
    requires ConfigOk(cfg) && Core(cfg, k) && AtCall(cfg, k, pc) && i < |k.sched.tasks| && i != k.sched.current
    ensures TaskStep(k.sched, ReceiveOutcome(cfg, k, hint).k.sched, i, 0, false, ReceiveOutcome(cfg, k, hint).obs)
  {
    var r := Load(k.frames, FrameAddr(cfg, k.sched.current)).regs;
    var ch := r[REG_A0];
    if ReceiveError(k.sched, ch, r[REG_A1], r[REG_A2]).None? {
      if k.chans[ch] == [] {
        ReceiveBlocksTasks(cfg, k, pc, ch, i, hint);
      } else {
        ReceivedTasks(cfg, k, ch, i, hint);
        TransferIsStep(k.sched, ReceiveOutcome(cfg, k, hint).k.sched, i, ReceiveOutcome(cfg, k, hint).obs, Send(ch));
      }
    }
  }

  lemma DispatchTasks(cfg: Config, k: State, pc: u32, i: nat, hint: nat)
    requires ConfigOk(cfg) && Core(cfg, k) && AtCall(cfg, k, pc) && i < |k.sched.tasks| && i != k.sched.current
    ensures var o := Dispatch(cfg, k, FrameAddr(cfg, k.sched.current), hint);
            TaskStep(k.sched, o.k.sched, i, 0, false, o.obs)
  {
    var r := Load(k.frames, FrameAddr(cfg, k.sched.current)).regs;
    if r[REG_A7] == SYS_YIELD {
      SaveIsIdentity(cfg, k.sched);
      YieldSame(k.sched, hint);
      assert SameTask(k.sched.tasks[i], YieldCurrent(k.sched, hint).tasks[i]);
    } else if r[REG_A7] == SYS_SLEEP {
      BlockTasks(cfg, k, i, Sleep, WrapAdd(k.ticks, Max(r[REG_A0], 1)), hint);
    } else if r[REG_A7] == SYS_SEND {
      SendTasks(cfg, k, pc, i, hint);
    } else if r[REG_A7] == SYS_RECEIVE {
      ReceiveTasks(cfg, k, pc, i, hint);
    }
  }

  /** A switched-out task stops waiting exactly when what it waits for has happened. */
  lemma OthersWait(cfg: Config, k: State, e: Event, i: nat)
    requires ConfigOk(cfg) && Inv(cfg, k) && Enabled(cfg, k, e) && i < |k.sched.tasks| && i != k.sched.current
    ensures TaskStep(k.sched, Step(cfg, k, e).sched, i, WrapAdd(k.ticks, 1), e.Timer?, Observe(cfg, k, e))
  {
    match e {
      case Ecall(hint) =>
        CallInv(cfg, k);
        HandleForm(cfg, k, hint);
        DispatchTasks(cfg, CallEntry(cfg, k), k.cpu.pc, i, hint);
      case Timer(hint) =>
        EntryInv(cfg, k);
        HandleForm(cfg, k, hint);
        TimerTasks(cfg, TrapEntry(k), i, hint);
      case _ =>
    }
  }
}
