/**
  The kernel as a state machine: registers, memory, saved frames, channels and
  scheduler, with one step per trap and one for the running task's own work.
 */
module Kernel {
  import opened Words
  import opened Tasks
  import opened Channels
  import opened Scheduler

  // ---------------------------------------------------------------------
  // Machine state
  // ---------------------------------------------------------------------

  const REG_RA: nat := 1
  const REG_SP: nat := 2
  const REG_GP: nat := 3
  const REG_A0: nat := 10
  const REG_A1: nat := 11
  const REG_A2: nat := 12
  const REG_A3: nat := 13
  const REG_A7: nat := 17

  type RegFile = r: seq<u32> | |r| == 32 witness seq(32, _ => 0)

  /** A register file, a program counter and a status word: live on the CPU, or saved in a trap frame. */
  datatype Context = Context(regs: RegFile, pc: u32, mstatus: u32)

  const TRAP_FRAME_SIZE: nat := 144
  const KERNEL_STACK_SIZE: nat := 1024

  /**
    What is fixed at boot: the descriptors, where the kernel stacks and the
    read-only flash image are, and which addresses hold an `ecall` instruction.
   */
  datatype Config = Config(
    infos: seq<TaskInfo>,
    kernelStacks: int,
    flashStart: int,
    flashEnd: int,
    ecalls: set<int>,
    exitTrap: u32,
    gp: u32)

  /** The contents of every channel, oldest message first. */
  type Chans = c: seq<seq<Message>> | |c| == MAX_CHANNELS witness seq(MAX_CHANNELS, _ => [])

  datatype State = State(
    sched: Sched,
    chans: Chans,
    frames: map<int, Context>,
    cpu: Context,
    mscratch: int,
    ram: seq<u8>,
    ticks: u32)

  /** What a step did to a channel. */
  datatype Observation =
    | Quiet
    | Sent(task: nat, ch: nat, msg: Message)
    | Received(task: nat, ch: nat, msg: Message)

  /** A state, the address of the frame to resume, and what was observed. */
  datatype Outcome = Outcome(k: State, frame: int, obs: Observation)

  /** One-past-the-end address of a slot's kernel stack. */
  function StackTop(cfg: Config, slot: nat): int {
    cfg.kernelStacks + slot * KERNEL_STACK_SIZE + KERNEL_STACK_SIZE
  }

  function FrameAddr(cfg: Config, slot: nat): int {
    StackTop(cfg, slot) - TRAP_FRAME_SIZE
  }

  /** The frame at an address; the kernel stacks are zero-initialised. */
  function Load(frames: map<int, Context>, addr: int): Context {
    if addr in frames then frames[addr] else Context(seq(32, _ => 0), 0, 0)
  }

  // ---------------------------------------------------------------------
  // System calls
  // ---------------------------------------------------------------------

  const SYS_YIELD: nat := 0
  const SYS_SLEEP: nat := 1
  const SYS_LOG: nat := 2
  const SYS_NOW: nat := 3
  const SYS_SEND: nat := 4
  const SYS_RECEIVE: nat := 5

  const ENOSYS: u32 := 0xFFFF_FFFF
  const EPERM: u32 := 0xFFFF_FFFE
  const EFAULT: u32 := 0xFFFF_FFFD
  const EAGAIN: u32 := 0xFFFF_FFFC
  const EINVAL: u32 := 0xFFFF_FFFB

  const LOG_MAX_LEN: nat := 256
  const CONSOLE_CAP: nat := 31

  /** `[ptr, ptr + len)` does not wrap and lies inside one of the ranges. */
  predicate BufferReadable(ptr: u32, len: u32, ranges: seq<(int, int)>) {
    len == 0 || (ptr + len < TWO32 && exists r :: r in ranges && r.0 <= ptr && ptr + len <= r.1)
  }

  function WritableRanges(t: TaskInfo): seq<(int, int)> {
    [(t.memStart, t.memEnd), (t.stackBase, t.stackBase + t.stackSize)]
  }

  function ReadableRanges(cfg: Config, t: TaskInfo): seq<(int, int)> {
    WritableRanges(t) + [(cfg.flashStart, cfg.flashEnd)]
  }

  /** Store `value` in the caller's `a0`. */
  function Ret(k: State, frame: int, value: u32): State {
    var f := Load(k.frames, frame);
    k.(frames := k.frames[frame := f.(regs := f.regs[REG_A0 := value])])
  }

  /** Add `d` to the saved program counter. */
  function MovePc(k: State, frame: int, d: int): State {
    var f := Load(k.frames, frame);
    k.(frames := k.frames[frame := f.(pc := WrapAdd(f.pc, d))])
  }

  function Done(k: State, frame: int, value: u32): Outcome {
    Outcome(Ret(k, frame, value), frame, Quiet)
  }

  /** The frame of the task that is current now. */
  function FrameOf(s: Sched): int {
    if s.current < |s.tasks| then s.tasks[s.current].framePtr else 0
  }

  ghost function BlockAndRestart(k: State, frame: int, reason: BlockReason, hint: nat): Outcome {
    var k1 := MovePc(k, frame, -4);
    var s := BlockCurrent(SaveCurrent(k1.sched, frame), reason, hint);
    Outcome(k1.(sched := s), FrameOf(s), Quiet)
  }

  /** `ram` with `bytes` at `ptr`. */
  function Write(ram: seq<u8>, ptr: nat, bytes: seq<u8>): seq<u8>
    requires ptr + |bytes| <= |ram|
  {
    ram[..ptr] + bytes + ram[ptr + |bytes|..]
  }

  function Read(ram: seq<u8>, ptr: nat, len: nat): seq<u8> {
    if ptr + len <= |ram| then ram[ptr..ptr + len] else seq(len, _ => 0)
  }

  /** After a transfer: wake the peer waiting for `reason`, and switch if it outranks the caller. */
  ghost function WakePeer(k: State, frame: int, reason: BlockReason, hint: nat, obs: Observation): Outcome {
    var s1 := WakeBlockedOn(k.sched, reason);
    var s2 := PreemptIfOutranked(s1, frame, hint);
    Outcome(k.(sched := s2), if Outranked(s1) then FrameOf(s2) else frame, obs)
  }

  /** Why a send is refused before the channel is looked at. */
  function SendError(cfg: Config, s: Sched, ch: u32, ptr: u32, len: u32): Option<u32> {
    if s.current >= |s.tasks| then Some(EPERM)
    else
      var t := s.tasks[s.current].info;
      if ch >= MAX_CHANNELS then Some(EINVAL)
      else if ch !in t.sends then Some(EPERM)
      else if len > MSG_MAX then Some(EINVAL)
      else if !BufferReadable(ptr, len, ReadableRanges(cfg, t)) then Some(EFAULT)
      else None
  }

  ghost function SysSend(cfg: Config, k: State, frame: int, ch: u32, ptr: u32, len: u32, flags: u32, hint: nat): Outcome
  {
    var err := SendError(cfg, k.sched, ch, ptr, len);
    if err.Some? then Done(k, frame, err.value)
    else if |k.chans[ch]| >= CHANNEL_CAPACITY then
      if flags % 2 == 1 then Done(k, frame, EAGAIN) else BlockAndRestart(k, frame, Send(ch), hint)
    else
      var msg := FromBytes(Read(k.ram, ptr, len)).value;
      var k1 := Ret(k.(chans := k.chans[ch := k.chans[ch] + [msg]]), frame, 0);
      WakePeer(k1, frame, Receive(ch), hint, Sent(k.sched.current, ch, msg))
  }

  function ReceiveError(s: Sched, ch: u32, ptr: u32, cap: u32): Option<u32> {
    if s.current >= |s.tasks| then Some(EPERM)
    else
      var t := s.tasks[s.current].info;
      if ch >= MAX_CHANNELS then Some(EINVAL)
      else if ch !in t.receives then Some(EPERM)
      else if !BufferReadable(ptr, cap, WritableRanges(t)) then Some(EFAULT)
      else None
  }

  /** The bytes of `msg` that fit a buffer of `cap` bytes. */
  function Truncated(msg: Message, cap: u32): seq<u8> {
    Bytes(msg)[..Min(msg.len, cap)]
  }

  /** Copy the message out, unless nothing is copied. */
  function Deliver(ram: seq<u8>, ptr: nat, bytes: seq<u8>): seq<u8> {
    if ptr + |bytes| <= |ram| then Write(ram, ptr, bytes) else ram
  }

  ghost function SysReceive(k: State, frame: int, ch: u32, ptr: u32, cap: u32, flags: u32, hint: nat): Outcome
  {
    var err := ReceiveError(k.sched, ch, ptr, cap);
    if err.Some? then Done(k, frame, err.value)
    else if k.chans[ch] == [] then
      if flags % 2 == 1 then Done(k, frame, EAGAIN) else BlockAndRestart(k, frame, Receive(ch), hint)
    else
      var msg := k.chans[ch][0];
      var k1 := k.(chans := k.chans[ch := k.chans[ch][1..]], ram := Deliver(k.ram, ptr, Truncated(msg, cap)));
      var k2 := Ret(k1, frame, msg.len);
      WakePeer(k2, frame, Send(ch), hint, Received(k.sched.current, ch, msg))
  }

  /** What `SYS_LOG` returns; the bytes themselves go to the console. */
  function LogResult(cfg: Config, s: Sched, ptr: u32, len: u32): u32 {
    if s.current >= |s.tasks| then EPERM
    else
      var t := s.tasks[s.current].info;
      if CONSOLE_CAP !in t.shared_ then EPERM
      else if !BufferReadable(ptr, len, ReadableRanges(cfg, t)) then EFAULT
      else len
  }

  /** The syscall in the caller's saved frame, whose `pc` is already past the `ecall`. */
  ghost function Dispatch(cfg: Config, k: State, frame: int, hint: nat): Outcome
  {
    var f := Load(k.frames, frame);
    var a0, a1, a2, a3, a7 := f.regs[REG_A0], f.regs[REG_A1], f.regs[REG_A2], f.regs[REG_A3], f.regs[REG_A7];
    if a7 == SYS_YIELD then
      var s := YieldCurrent(SaveCurrent(k.sched, frame), hint);
      Outcome(Ret(k, frame, 0).(sched := s), FrameOf(s), Quiet)
    else if a7 == SYS_SLEEP then
      var s := SleepCurrent(SaveCurrent(k.sched, frame), k.ticks, a0, hint);
      Outcome(Ret(k, frame, 0).(sched := s), FrameOf(s), Quiet)
    else if a7 == SYS_LOG then Done(k, frame, LogResult(cfg, k.sched, a0, Min(a1, LOG_MAX_LEN)))
    else if a7 == SYS_NOW then Done(k, frame, k.ticks)
    else if a7 == SYS_SEND then SysSend(cfg, k, frame, a0, a1, a2, a3, hint)
    else if a7 == SYS_RECEIVE then SysReceive(k, frame, a0, a1, a2, a3, hint)
    else Done(k, frame, ENOSYS)
  }

  // ---------------------------------------------------------------------
  // Traps
  // ---------------------------------------------------------------------

  ghost function OnTimerInterrupt(k: State, frame: int, hint: nat): Outcome
  {
    var now := WrapAdd(k.ticks, 1);
    var s0 := SaveCurrent(k.sched, frame);
    var s1 := WakeSleepers(s0, now, Min(|s0.tasks|, |s0.ready.slots|));
    var s2 := Tick(s1, hint);
    Outcome(k.(ticks := now, sched := s2), if s2.current != s1.current then FrameOf(s2) else frame, Quiet)
  }

  /** The stub saves the live context just below the kernel stack top in `mscratch`. */
  function TrapEntry(k: State): State {
    k.(frames := k.frames[k.mscratch - TRAP_FRAME_SIZE := k.cpu])
  }

  /** The stub resumes the returned frame and points `mscratch` past it. */
  function TrapExit(o: Outcome): State {
    o.k.(cpu := Load(o.k.frames, o.frame), mscratch := o.frame + TRAP_FRAME_SIZE)
  }

  /** What can happen next; `hint` feeds the ready queue's choice. */
  datatype Event =
    | User(cpu: Context, ram: seq<u8>)
    | Timer(hint: nat)
    | Ecall(hint: nat)
    | OtherInterrupt

  /** `trap_handler`, once the frame has been saved. */
  ghost function Handled(cfg: Config, k: State, frame: int, e: Event): Outcome {
    match e
    case Timer(hint) => OnTimerInterrupt(k, frame, hint)
    case Ecall(hint) => Dispatch(cfg, MovePc(k, frame, 4), frame, hint)
    case _ => Outcome(k, frame, Quiet)
  }

  ghost function Handle(cfg: Config, k: State, e: Event): Outcome
    requires !e.User?
  {
    Handled(cfg, TrapEntry(k), k.mscratch - TRAP_FRAME_SIZE, e)
  }

  ghost function Step(cfg: Config, k: State, e: Event): State
  {
    match e
    case User(cpu, ram) => k.(cpu := cpu, ram := ram)
    case _ => TrapExit(Handle(cfg, k, e))
  }

  ghost function Observe(cfg: Config, k: State, e: Event): Observation
  {
    if e.User? then Quiet else Handle(cfg, k, e).obs
  }
}
