/** What a caller sees of a call that transfers nothing. */
module Refusals {
  import opened Words
  import opened Tasks
  import opened Channels
  import opened Scheduler
  import opened Kernel
  import opened Invariant
  import opened Effects
  import opened Transfers

  /** The call returned `value`, and nothing else happened. */
  ghost predicate OnlyReturned(k: State, k': State, value: u32) {
    match k'
    case State(sched, chans, _, cpu, mscratch, ram, ticks) =>
      && cpu == ReturnedWith(k.cpu, value) && sched == k.sched && chans == k.chans
      && mscratch == k.mscratch && ram == k.ram && ticks == k.ticks
  }

  /** The caller waits for `reason`, back at its `ecall` with its registers as they were. */
  ghost predicate Parked(cfg: Config, k: State, k': State, reason: BlockReason) {
    match k'
    case State(sched, chans, _, _, _, ram, _) =>
      && |sched.tasks| == |k.sched.tasks| && sched.current != k.sched.current < |sched.tasks|
      && Wait(sched.tasks[k.sched.current]) == Some(reason)
      && ContextOf(cfg, k', k.sched.current) == k.cpu && chans == k.chans && ram == k.ram
  }

  lemma DoneReturns(cfg: Config, k: State, hint: nat, value: u32)
    requires Inv(cfg, k)
    requires var a := FrameAddr(cfg, k.sched.current);
             Dispatch(cfg, CallEntry(cfg, k), a, hint) == Done(CallEntry(cfg, k), a, value)
    ensures OnlyReturned(k, Step(cfg, k, Ecall(hint)), value)
  {
    EntryInv(cfg, k);
    CallEntryForm(cfg, k);
    HandleForm(cfg, k, hint);
  }

  lemma RestartParks(cfg: Config, k: State, hint: nat, reason: BlockReason)
    requires ConfigOk(cfg) && Inv(cfg, k) && Enabled(cfg, k, Ecall(hint))
    requires var a := FrameAddr(cfg, k.sched.current);
             Dispatch(cfg, CallEntry(cfg, k), a, hint) == BlockAndRestart(CallEntry(cfg, k), a, reason, hint)
    ensures Parked(cfg, k, Step(cfg, k, Ecall(hint)), reason)
  {
    CallInv(cfg, k);
    CallEntryForm(cfg, k);
    HandleForm(cfg, k, hint);
    SaveIsIdentity(cfg, k.sched);
    BlockEffect(k.sched, reason, WakeAt(k.sched), hint);
    PcBack(k.cpu.pc);
    HandleKeeps(cfg, k, Ecall(hint));
    ResumeContext(cfg, Handle(cfg, k, Ecall(hint)), k.sched.current);
  }

  /** What the declaration of task `t` allows: the endpoint, a message that fits, and memory it may read. */
  predicate MaySend(cfg: Config, t: TaskInfo, r: RegFile) {
    && r[REG_A0] < MAX_CHANNELS && r[REG_A0] in t.sends && r[REG_A2] <= MSG_MAX
    && BufferReadable(r[REG_A1], r[REG_A2], ReadableRanges(cfg, t))
  }

  predicate MayReceive(t: TaskInfo, r: RegFile) {
    && r[REG_A0] < MAX_CHANNELS && r[REG_A0] in t.receives
    && BufferReadable(r[REG_A1], r[REG_A2], WritableRanges(t))
  }

  /**
    A send transfers exactly when it is allowed and there is room; allowed but
    without room it waits or reports EAGAIN; not allowed it reports why.
   */
  ghost predicate SendFate(cfg: Config, k: State, k': State, obs: Observation) {
    match k.cpu
    case Context(r, _, _) =>
      var ch := r[REG_A0];
      && k.sched.current < |cfg.infos|
      && (obs.Sent? <==> MaySend(cfg, cfg.infos[k.sched.current], r) && |k.chans[ch]| < CHANNEL_CAPACITY)
      && (!obs.Sent? && MaySend(cfg, cfg.infos[k.sched.current], r) ==>
            if r[REG_A3] % 2 == 1 then OnlyReturned(k, k', EAGAIN) else Parked(cfg, k, k', Send(ch)))
      && (!MaySend(cfg, cfg.infos[k.sched.current], r) ==>
            if ch >= MAX_CHANNELS then OnlyReturned(k, k', EINVAL)
            else if ch !in cfg.infos[k.sched.current].sends then OnlyReturned(k, k', EPERM)
            else OnlyReturned(k, k', if r[REG_A2] > MSG_MAX then EINVAL else EFAULT))
  }

  ghost predicate ReceiveFate(cfg: Config, k: State, k': State, obs: Observation) {
    match k.cpu
    case Context(r, _, _) =>
      var ch := r[REG_A0];
      && k.sched.current < |cfg.infos|
      && (obs.Received? <==> MayReceive(cfg.infos[k.sched.current], r) && k.chans[ch] != [])
      && (!obs.Received? && MayReceive(cfg.infos[k.sched.current], r) ==>
            if r[REG_A3] % 2 == 1 then OnlyReturned(k, k', EAGAIN) else Parked(cfg, k, k', Receive(ch)))
      && (!MayReceive(cfg.infos[k.sched.current], r) ==>
            if ch >= MAX_CHANNELS then OnlyReturned(k, k', EINVAL)
            else if ch !in cfg.infos[k.sched.current].receives then OnlyReturned(k, k', EPERM)
            else OnlyReturned(k, k', EFAULT))
  }

  /** The four ways through `sys_send`, for the registers at the `ecall`. */
  lemma SendCases(cfg: Config, k: State, hint: nat)
    requires k.mscratch - TRAP_FRAME_SIZE == FrameAddr(cfg, k.sched.current) && k.cpu.regs[REG_A7] == SYS_SEND
    ensures var r, k1, a := k.cpu.regs, CallEntry(cfg, k), FrameAddr(cfg, k.sched.current);
            var err, o := SendError(cfg, k.sched, r[REG_A0], r[REG_A1], r[REG_A2]), Dispatch(cfg, k1, a, hint);
            if err.Some? then o == Done(k1, a, err.value)
            else if |k.chans[r[REG_A0]]| < CHANNEL_CAPACITY then o.obs.Sent?
            else if r[REG_A3] % 2 == 1 then o == Done(k1, a, EAGAIN)
            else o == BlockAndRestart(k1, a, Send(r[REG_A0]), hint)
  {
    CallEntryForm(cfg, k);
    DispatchForms(cfg, CallEntry(cfg, k), hint);
  }

  lemma ReceiveCases(cfg: Config, k: State, hint: nat)
    requires k.mscratch - TRAP_FRAME_SIZE == FrameAddr(cfg, k.sched.current) && k.cpu.regs[REG_A7] == SYS_RECEIVE
    ensures var r, k1, a := k.cpu.regs, CallEntry(cfg, k), FrameAddr(cfg, k.sched.current);
            var err, o := ReceiveError(k.sched, r[REG_A0], r[REG_A1], r[REG_A2]), Dispatch(cfg, k1, a, hint);
            if err.Some? then o == Done(k1, a, err.value)
            else if k.chans[r[REG_A0]] != [] then o.obs.Received?
            else if r[REG_A3] % 2 == 1 then o == Done(k1, a, EAGAIN)
            else o == BlockAndRestart(k1, a, Receive(r[REG_A0]), hint)
  {
    CallEntryForm(cfg, k);
    DispatchForms(cfg, CallEntry(cfg, k), hint);
  }

  lemma SendHasFate(cfg: Config, k: State, hint: nat)
    requires ConfigOk(cfg) && Inv(cfg, k) && Enabled(cfg, k, Ecall(hint)) && k.cpu.regs[REG_A7] == SYS_SEND
    ensures SendFate(cfg, k, Step(cfg, k, Ecall(hint)), Observe(cfg, k, Ecall(hint)))
  {
    var r := k.cpu.regs;
    EntryInv(cfg, k);
    EcallForm(cfg, k, hint);
    SendCases(cfg, k, hint);
    assert k.sched.tasks[k.sched.current].info == cfg.infos[k.sched.current];
    var err := SendError(cfg, k.sched, r[REG_A0], r[REG_A1], r[REG_A2]);
    if err.Some? {
      DoneReturns(cfg, k, hint, err.value);
    } else if |k.chans[r[REG_A0]]| >= CHANNEL_CAPACITY {
      if r[REG_A3] % 2 == 1 { DoneReturns(cfg, k, hint, EAGAIN); } else { RestartParks(cfg, k, hint, Send(r[REG_A0])); }
    }
  }

  lemma ReceiveHasFate(cfg: Config, k: State, hint: nat)
    requires ConfigOk(cfg) && Inv(cfg, k) && Enabled(cfg, k, Ecall(hint)) && k.cpu.regs[REG_A7] == SYS_RECEIVE
    ensures ReceiveFate(cfg, k, Step(cfg, k, Ecall(hint)), Observe(cfg, k, Ecall(hint)))
  {
    var r := k.cpu.regs;
    EntryInv(cfg, k);
    EcallForm(cfg, k, hint);
    ReceiveCases(cfg, k, hint);
    assert k.sched.tasks[k.sched.current].info == cfg.infos[k.sched.current];
    var err := ReceiveError(k.sched, r[REG_A0], r[REG_A1], r[REG_A2]);
    if err.Some? {
      DoneReturns(cfg, k, hint, err.value);
    } else if k.chans[r[REG_A0]] == [] {
      if r[REG_A3] % 2 == 1 { DoneReturns(cfg, k, hint, EAGAIN); } else { RestartParks(cfg, k, hint, Receive(r[REG_A0])); }
    }
  }

  /** `SYS_NOW` returns the tick count, an unknown number ENOSYS, and neither does anything else. */
  lemma OtherCallsOnlyReturn(cfg: Config, k: State, hint: nat)
    requires Inv(cfg, k) && (k.cpu.regs[REG_A7] == SYS_NOW || k.cpu.regs[REG_A7] > SYS_RECEIVE)
    ensures OnlyReturned(k, Step(cfg, k, Ecall(hint)), if k.cpu.regs[REG_A7] == SYS_NOW then k.ticks else ENOSYS)
  {
    EntryInv(cfg, k);
    CallEntryForm(cfg, k);
    DoneReturns(cfg, k, hint, if k.cpu.regs[REG_A7] == SYS_NOW then k.ticks else ENOSYS);
  }

  /**
    `SYS_LOG` does nothing to the system: a task without the console gets EPERM, one
    that names memory it may not read EFAULT, and otherwise the length comes
    back, cut to 256.
   */
  lemma LogHasFate(cfg: Config, k: State, hint: nat)
    requires Inv(cfg, k) && k.cpu.regs[REG_A7] == SYS_LOG
    ensures k.sched.current < |cfg.infos| && Observe(cfg, k, Ecall(hint)) == Quiet
    ensures var t, n := cfg.infos[k.sched.current], (if k.cpu.regs[REG_A1] <= 256 then k.cpu.regs[REG_A1] else 256);
            OnlyReturned(k, Step(cfg, k, Ecall(hint)),
              if CONSOLE_CAP !in t.shared_ then EPERM
              else if BufferReadable(k.cpu.regs[REG_A0], n, ReadableRanges(cfg, t)) then n
              else EFAULT)
  {
    EntryInv(cfg, k);
    CallEntryForm(cfg, k);
    EcallForm(cfg, k, hint);
    assert k.sched.tasks[k.sched.current].info == cfg.infos[k.sched.current];
    DoneReturns(cfg, k, hint, LogResult(cfg, k.sched, k.cpu.regs[REG_A0], Min(k.cpu.regs[REG_A1], LOG_MAX_LEN)));
  }
}
