/** What a successful send or receive does, byte for byte. */
module Transfers {
  import opened Words
  import opened Tasks
  import opened Channels
  import opened Scheduler
  import opened Kernel
  import opened Invariant
  import opened Effects

  /** What a call did to memory and to the caller's frame at `a`, given the frame `f` it started from. */
  ghost predicate Transferred(f: Context, before: seq<u8>, o: Outcome, a: int) {
    match o.obs
    case Quiet => o.k.ram == before
    case Sent(_, ch, msg) =>
      && o.k.ram == before && ch == f.regs[REG_A0]
      && f.regs[REG_A1] + f.regs[REG_A2] <= |before|
      && Bytes(msg) == Read(before, f.regs[REG_A1], f.regs[REG_A2])
      && Load(o.k.frames, a) == f.(regs := f.regs[REG_A0 := 0])
    case Received(_, ch, msg) =>
      && ch == f.regs[REG_A0]
      && f.regs[REG_A1] + |Truncated(msg, f.regs[REG_A2])| <= |before|
      && o.k.ram == Write(before, f.regs[REG_A1], Truncated(msg, f.regs[REG_A2]))
      && Load(o.k.frames, a) == f.(regs := f.regs[REG_A0 := msg.len])
  }

  lemma BufferFits(ptr: u32, len: u32, ranges: seq<(int, int)>)
    requires BufferReadable(ptr, len, ranges)
    ensures ptr + len <= TWO32
  {
  }

  lemma SendTransfers(cfg: Config, k: State, a: int, hint: nat)
    requires |k.ram| == TWO32
    ensures var f := Load(k.frames, a);
            Transferred(f, k.ram, SysSend(cfg, k, a, f.regs[REG_A0], f.regs[REG_A1], f.regs[REG_A2], f.regs[REG_A3], hint), a)
  {
    var r := Load(k.frames, a).regs;
    if SendError(cfg, k.sched, r[REG_A0], r[REG_A1], r[REG_A2]).None? {
      BufferFits(r[REG_A1], r[REG_A2], ReadableRanges(cfg, k.sched.tasks[k.sched.current].info));
      MessageRoundTrip(Read(k.ram, r[REG_A1], r[REG_A2]));
    }
  }

  lemma ReceiveTransfers(k: State, a: int, hint: nat)
    requires |k.ram| == TWO32
    ensures var f := Load(k.frames, a);
            Transferred(f, k.ram, SysReceive(k, a, f.regs[REG_A0], f.regs[REG_A1], f.regs[REG_A2], f.regs[REG_A3], hint), a)
  {
    var r := Load(k.frames, a).regs;
    if ReceiveError(k.sched, r[REG_A0], r[REG_A1], r[REG_A2]).None? {
      BufferFits(r[REG_A1], r[REG_A2], WritableRanges(k.sched.tasks[k.sched.current].info));
    }
  }

  lemma DispatchTransfers(cfg: Config, k: State, hint: nat)
    requires |k.ram| == TWO32
    ensures var a := FrameAddr(cfg, k.sched.current);
            Transferred(Load(k.frames, a), k.ram, Dispatch(cfg, k, a, hint), a)
  {
    DispatchForms(cfg, k, hint);
    var a := FrameAddr(cfg, k.sched.current);
    if Calling(cfg, k, SYS_SEND) {
      SendTransfers(cfg, k, a, hint);
    } else if Calling(cfg, k, SYS_RECEIVE) {
      ReceiveTransfers(k, a, hint);
    }
  }

  /**
    A message is the bytes the sender's buffer held; a receive leaves the message,
    cut to the buffer, in the receiver's buffer and its length in `a0`; nothing
    else in memory changes, and every other call leaves memory alone.
   */
  lemma CallTransfers(cfg: Config, k: State, hint: nat)
    requires ConfigOk(cfg) && Inv(cfg, k) && Enabled(cfg, k, Ecall(hint))
    ensures var k', obs := Step(cfg, k, Ecall(hint)), Observe(cfg, k, Ecall(hint));
            var r := k.cpu.regs;
            match obs
            case Quiet => k'.ram == k.ram
            case Sent(i, ch, msg) =>
              && k'.ram == k.ram && ch == r[REG_A0] && r[REG_A1] + r[REG_A2] <= |k.ram|
              && Bytes(msg) == Read(k.ram, r[REG_A1], r[REG_A2])
              && ContextOf(cfg, k', k.sched.current) == ReturnedWith(k.cpu, 0)
            case Received(i, ch, msg) =>
              && ch == r[REG_A0] && r[REG_A1] + |Truncated(msg, r[REG_A2])| <= |k.ram|
              && k'.ram == Write(k.ram, r[REG_A1], Truncated(msg, r[REG_A2]))
              && ContextOf(cfg, k', k.sched.current) == ReturnedWith(k.cpu, msg.len)
  {
    CallInv(cfg, k);
    CallEntryForm(cfg, k);
    HandleForm(cfg, k, hint);
    DispatchTransfers(cfg, CallEntry(cfg, k), hint);
    HandleKeeps(cfg, k, Ecall(hint));
    ResumeContext(cfg, Handle(cfg, k, Ecall(hint)), k.sched.current);
  }
}
