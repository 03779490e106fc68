/** The trap path in its imperative form, proved against the state machine. */
module KernelImpl {
  import opened Words
  import opened Tasks
  import opened Channels
  import opened Kernel
  import opened Invariant
  import S = Scheduler
  import opened SchedulerImpl
  import Clint
  import Pmp
  import Runs

  ghost predicate Idle(c: Channel<Message>)
    reads c, c.buffer
  {
    c.buffer.Length == CHANNEL_CAPACITY && c.Valid() && c.Contents() == []
  }

  /** `const { Channel::new() }`, eight times. */
  method NewChannels() returns (table: seq<Channel<Message>>)
    ensures |table| == MAX_CHANNELS
    ensures forall i :: 0 <= i < |table| ==> fresh(table[i]) && fresh(table[i].buffer) && Idle(table[i])
    ensures forall i, j :: 0 <= i < j < |table| ==> table[i] != table[j] && table[i].buffer != table[j].buffer
  {
    table := [];
    while |table| < MAX_CHANNELS
      invariant |table| <= MAX_CHANNELS
      invariant forall i :: 0 <= i < |table| ==> fresh(table[i]) && fresh(table[i].buffer) && Idle(table[i])
      invariant forall i, j :: 0 <= i < j < |table| ==> table[i] != table[j] && table[i].buffer != table[j].buffer
    {
      var c := new Channel<Message>(CHANNEL_CAPACITY);
      table := table + [c];
    }
  }

  /** The system's channels, addressed by number. */
  class ChannelTable {
    const chans: seq<Channel<Message>>
    ghost const repr: set<object>
    /** What is queued on each. */
    ghost var contents: Chans

    /** Eight separate channels of eight messages. */
    ghost predicate Shaped() {
      && |chans| == MAX_CHANNELS && this !in repr
      && (forall i :: 0 <= i < MAX_CHANNELS ==> chans[i] in repr && chans[i].buffer in repr)
      && (forall i :: 0 <= i < MAX_CHANNELS ==> chans[i].buffer.Length == CHANNEL_CAPACITY)
      && (forall i, j :: 0 <= i < j < MAX_CHANNELS ==> chans[i] != chans[j] && chans[i].buffer != chans[j].buffer)
    }

    ghost predicate Valid()
      reads this, repr
    {
      Shaped() && forall i :: 0 <= i < MAX_CHANNELS ==> Holds(i)
    }

    ghost predicate Holds(i: nat)
      requires Shaped() && i < MAX_CHANNELS
      reads this, repr
    {
      chans[i].Valid() && chans[i].Contents() == contents[i]
    }

    constructor ()
      ensures Valid() && fresh(repr) && contents == seq(MAX_CHANNELS, _ => [])
    {
      var table := NewChannels();
      chans := table;
      repr := (set c | c in table :: c as object) + (set c | c in table :: c.buffer as object);
      contents := seq(MAX_CHANNELS, _ => []);
      new;
      forall i | 0 <= i < MAX_CHANNELS ensures chans[i] in repr && chans[i].buffer in repr && Idle(chans[i]) {
        assert chans[i] in table;
      }
    }

    method IsFull(ch: nat) returns (full: bool)
      requires Valid() && ch < MAX_CHANNELS
      ensures full <==> |contents[ch]| >= CHANNEL_CAPACITY
    {
      assert Holds(ch);
      full := chans[ch].IsFull();
    }

    /** Only the addressed channel changes, and none if it is full. */
    method TrySend(ch: nat, msg: Message) returns (back: Option<Message>)
      requires Valid() && ch < MAX_CHANNELS
      modifies this, repr
      ensures Valid() && (back.Some? <==> |old(contents)[ch]| >= CHANNEL_CAPACITY)
      ensures back.Some? ==> back.value == msg && contents == old(contents)
      ensures back.None? ==> contents == old(contents)[ch := old(contents)[ch] + [msg]]
    {
      assert Holds(ch);
      back := chans[ch].TrySend(msg);
      if back.None? {
        contents := contents[ch := contents[ch] + [msg]];
      }
      forall i | 0 <= i < MAX_CHANNELS ensures Holds(i) {
        assert i != ch ==> old(Holds(i));
      }
    }

    method TryReceive(ch: nat) returns (r: Option<Message>)
      requires Valid() && ch < MAX_CHANNELS
      modifies this, repr
      ensures Valid() && (r.None? <==> old(contents)[ch] == [])
      ensures r.None? ==> contents == old(contents)
      ensures r.Some? ==> r.value == old(contents)[ch][0] && contents == old(contents)[ch := old(contents)[ch][1..]]
    {
      assert Holds(ch);
      r := chans[ch].TryReceive();
      if r.Some? {
        contents := contents[ch := contents[ch][1..]];
      }
      forall i | 0 <= i < MAX_CHANNELS ensures Holds(i) {
        assert i != ch ==> old(Holds(i));
      }
    }
  }

  /** What `mcause` says: bit 31 distinguishes interrupts from exceptions. */
  datatype Cause = TimerTick | SystemCall | Unhandled | Fault

  function CauseOf(mcause: u32): Cause {
    if mcause >= TWO31 then
      if mcause - TWO31 == 7 then TimerTick else Unhandled
    else if mcause == 8 || mcause == 11 then SystemCall
    else Fault
  }

  /** The event a cause stands for. */
  predicate Caused(mcause: u32, e: Event) {
    match e
    case User(_, _) => false
    case Timer(_) => CauseOf(mcause) == TimerTick
    case Ecall(_) => CauseOf(mcause) == SystemCall
    case OtherInterrupt => CauseOf(mcause) == Unhandled
  }

  /** `k` is what the stub leaves after the outcome `o`. */
  ghost predicate Resumed(k: State, obs: Observation, o: Outcome) {
    match o
    case Outcome(_, _, what) => k == TrapExit(o) && obs == what
  }

  lemma OutcomeIsResumed(cfg: Config, k: State, e: Event, k1: State, frame: int, o: Outcome, k': State)
    requires !e.User? && k1 == TrapEntry(k) && frame == k.mscratch - TRAP_FRAME_SIZE
    requires o == Handled(cfg, k1, frame, e) && k' == TrapExit(o)
    ensures Resumed(k', o.obs, Handle(cfg, k, e)) == true
  {
    SavedIsHandled(cfg, k, e, k1, frame);
    ExitIsResumed(o, k');
  }

  lemma ExitIsResumed(o: Outcome, k': State)
    requires k' == TrapExit(o)
    ensures Resumed(k', o.obs, o) == true
  {
  }

  /**
    From `k` to `k'` by an event the cause stands for, with the invariant kept.
    The `match` only keeps the verifier from taking the predicate apart.
   */
  ghost predicate IsStep(cfg: Config, mcause: u32, k: State, e: Event, k': State, obs: Observation) {
    match k'
    case State(_, _, _, _, _, _, _) =>
      && Caused(mcause, e) && Enabled(cfg, k, e) && k' == Step(cfg, k, e) && obs == Observe(cfg, k, e)
      && Inv(cfg, k')
  }

  lemma HandledIsStep(cfg: Config, mcause: u32, k: State, e: Event, k': State, obs: Observation)
    requires ConfigOk(cfg) == true && Inv(cfg, k) == true && Caused(mcause, e) == true
    requires CauseOf(mcause) == SystemCall ==> Enabled(cfg, k, Ecall(0)) == true
    requires Resumed(k', obs, Handle(cfg, k, e)) == true
    ensures IsStep(cfg, mcause, k, e, k', obs) == true
  {
    StepKeeps(cfg, k, e);
  }

  lemma StepStaysReachable(cfg: Config, mcause: u32, k: State, e: Event, k': State, obs: Observation)
    requires IsStep(cfg, mcause, k, e, k', obs) == true
    ensures Runs.Reachable(cfg, k) ==> Runs.Reachable(cfg, k')
  {
    if Runs.Reachable(cfg, k) { Runs.ReachableStep(cfg, k, e); }
  }

  lemma BootIsReachable(cfg: Config, ram: seq<u8>, hint: nat)
    requires ConfigOk(cfg) == true
    ensures |ram| == TWO32 ==> Runs.Reachable(cfg, Runs.Boot(cfg, ram, hint)) && Inv(cfg, Runs.Boot(cfg, ram, hint)) == true
  {
    if |ram| == TWO32 {
      Runs.BootReachable(cfg, ram, hint);
      Runs.BootInv(cfg, ram, hint);
    }
  }

  lemma InvIsConsistent(cfg: Config, k: State)
    requires Inv(cfg, k) == true
    ensures S.Consistent(k.sched) == true
  {
  }

  /** `register_task` leaves every task ready, without a frame. */
  function RegisteredTasks(infos: seq<TaskInfo>): seq<Task> {
    seq(|infos|, i requires 0 <= i < |infos| => Task(infos[i], Ready, NotBlocked, 0, 0))
  }

  ghost function Registered(cfg: Config, ram: seq<u8>): State {
    var tasks := RegisteredTasks(cfg.infos);
    State(S.Sched(tasks, S.Queue(seq(|tasks|, _ => None), 0, true), S.NO_TASK, 0, None, false),
          seq(MAX_CHANNELS, _ => []), map[], Context(seq(32, _ => 0), 0, 0), 0, ram, 0)
  }

  /** The descriptors with the frames of the first `n` slots recorded. */
  ghost function Framed(cfg: Config, tasks: seq<Task>, n: nat): (r: seq<Task>)
    ensures |r| == |tasks|
  {
    seq(|tasks|, i requires 0 <= i < |tasks| => if i < n then tasks[i].(framePtr := FrameAddr(cfg, i)) else tasks[i])
  }

  /** The first `n` frames are written and recorded; nothing else has changed since `v`. */
  ghost predicate Prepared(cfg: Config, v: S.Sched, n: nat, frames: map<int, Context>, w: S.Sched)
    requires n <= |cfg.infos|
  {
    match w
    case Sched(tasks, _, _, _, _, _) =>
      frames == Runs.BootFrames(cfg, n) && tasks == Framed(cfg, v.tasks, n) && w == v.(tasks := tasks)
  }

  lemma PreparedNone(cfg: Config, v: S.Sched)
    ensures Prepared(cfg, v, 0, map[], v) == true
  {
    FramedNone(cfg, v.tasks);
  }

  lemma PreparedStep(cfg: Config, v: S.Sched, n: nat, frames: map<int, Context>, w: S.Sched, frames': map<int, Context>, w': S.Sched)
    requires n < |cfg.infos| && n < |v.tasks| && Prepared(cfg, v, n, frames, w) == true
    requires frames' == frames[FrameAddr(cfg, n) := Runs.InitContext(cfg, cfg.infos[n])]
    requires w' == w.(tasks := w.tasks[n := w.tasks[n].(framePtr := FrameAddr(cfg, n))])
    ensures Prepared(cfg, v, n + 1, frames', w') == true
  {
    FramedStep(cfg, v.tasks, n);
  }

  lemma FramedStep(cfg: Config, tasks: seq<Task>, n: nat)
    requires n < |tasks|
    ensures Framed(cfg, tasks, n + 1) == Framed(cfg, tasks, n)[n := Framed(cfg, tasks, n)[n].(framePtr := FrameAddr(cfg, n))]
  {
  }

  lemma FramedNone(cfg: Config, tasks: seq<Task>)
    ensures Framed(cfg, tasks, 0) == tasks
  {
  }

  /** Queueing looks at states and priorities only. */
  lemma {:induction false} FilledSame(a: seq<Task>, b: seq<Task>, n: nat)
    requires n <= |a| == |b| && forall i :: 0 <= i < |a| ==> a[i].state == b[i].state && a[i].info == b[i].info
    ensures S.Filled(a, n) == S.Filled(b, n)
  {
    if n > 0 { FilledSame(a, b, n - 1); }
  }

  /** Choosing the first task before or after its frame is prepared makes no difference. */
  lemma BootCommutes(cfg: Config, hint: nat)
    requires 0 < |cfg.infos|
    ensures var tasks := RegisteredTasks(cfg.infos);
            var s := S.DispatchNext(S.Sched(tasks, S.Filled(tasks, |tasks|), S.NO_TASK, 0, None, false), hint);
            && !S.Empty(S.Filled(tasks, |tasks|))
            && s.(tasks := Framed(cfg, s.tasks, |cfg.infos|)) == Runs.BootSched(cfg, hint)
  {
    var tasks, boot := RegisteredTasks(cfg.infos), Runs.BootTasks(cfg);
    FilledSame(tasks, boot, |tasks|);
    var q := S.Filled(boot, |boot|);
    assert S.Queued(q, |tasks| - 1);
    var i := S.Pick(q, hint);
    var running := tasks[i := tasks[i].(state := Running)];
    assert Framed(cfg, running, |tasks|) == boot[i := boot[i].(state := Running)];
  }

  /** The scheduler's part of the end of a transfer, and the frame it resumes. */
  ghost predicate WokeThenPreempted(s: S.Sched, frame: int, reason: BlockReason, hint: nat, s': S.Sched, next: int) {
    match S.WakeBlockedOn(s, reason)
    case woken => s' == S.PreemptIfOutranked(woken, frame, hint) && next == if S.Outranked(woken) then FrameOf(s') else frame
  }

  lemma WakePeerForm(k: State, frame: int, reason: BlockReason, hint: nat, obs: Observation, s': S.Sched, next: int)
    requires WokeThenPreempted(k.sched, frame, reason, hint, s', next) == true
    ensures Outcome(k.(sched := s'), next, obs) == Kernel.WakePeer(k, frame, reason, hint, obs)
  {
  }

  /** The scheduler's part of a timer interrupt, and the frame it resumes. */
  ghost predicate Ticked(s: S.Sched, frame: int, now: u32, hint: nat, s': S.Sched, next: int)
    requires |s.tasks| <= |s.ready.slots|
  {
    match S.SaveCurrent(s, frame)
    case s0 =>
      var s1 := S.WakeSleepers(s0, now, |s0.tasks|);
      s' == S.Tick(s1, hint) && next == if s'.current != s1.current then FrameOf(s') else frame
  }

  lemma TimerOutcome(k: State, frame: int, hint: nat, s': S.Sched, next: int)
    requires |k.sched.tasks| <= |k.sched.ready.slots|
    requires Ticked(k.sched, frame, WrapAdd(k.ticks, 1), hint, s', next) == true
    ensures Outcome(k.(ticks := WrapAdd(k.ticks, 1), sched := s'), next, Quiet) == Kernel.OnTimerInterrupt(k, frame, hint)
  {
  }

  /** Frames, memory and registers, with the scheduler, the channels and the timer. */
  class KernelState {
    const cfg: Config
    const sched: SchedulerState
    const table: ChannelTable
    const timer: Clint.Timer
    var frames: map<int, Context>
    var cpu: Context
    var mscratch: int
    var ram: seq<u8>

    /** Before the first dispatch: tasks registered, nothing queued, no frame prepared. */
    constructor (cfg: Config, pmp: Pmp.PmpUnit, timer: Clint.Timer, ram: seq<u8>)
      requires |cfg.infos| <= MAX_TASKS && pmp.regs.cfg0[1] == 0 && timer.tickCount == 0
      ensures Valid() && this.cfg == cfg && View() == Registered(cfg, ram)
    {
      var s := new SchedulerState(RegisteredTasks(cfg.infos), pmp);
      var t := new ChannelTable();
      this.cfg, this.timer, this.ram := cfg, timer, ram;
      sched, table := s, t;
      frames, cpu, mscratch := map[], Context(seq(32, _ => 0), 0, 0), 0;
    }

    /** Nothing of the scheduler is part of the channels. */
    ghost predicate Apart() {
      var t: object := table;
      && t != this && t != timer && t != sched && t != sched.ready && t != sched.ready.heap && t != sched.pmp
      && this !in table.repr && timer !in table.repr
      && sched !in table.repr && sched.ready !in table.repr && sched.ready.heap !in table.repr && sched.pmp !in table.repr
    }

    ghost predicate Valid()
      reads sched, sched.ready, sched.ready.heap, sched.pmp, table, table.repr
    {
      Apart() && sched.Valid() && table.Valid()
    }

    ghost function View(): State
      reads this, sched, table, timer
    {
      State(sched.View(), table.contents, frames, cpu, mscratch, ram, timer.tickCount)
    }

    /** `frame_of(current)` */
    function CurrentFrame(): (frame: int)
      reads sched
      ensures frame == FrameOf(sched.View())
    {
      if sched.current < |sched.tasks| then sched.tasks[sched.current].framePtr else 0
    }

    /** `ret` */
    method Ret(frame: int, value: u32)
      modifies this`frames
      ensures View() == Kernel.Ret(old(View()), frame, value)
    {
      var f := Load(frames, frame);
      frames := frames[frame := f.(regs := f.regs[REG_A0 := value])];
    }

    /** `mepc += d` */
    method MovePc(frame: int, d: int)
      modifies this`frames
      ensures View() == Kernel.MovePc(old(View()), frame, d)
    {
      var f := Load(frames, frame);
      frames := frames[frame := f.(pc := WrapAdd(f.pc, d))];
    }

    /** `block_and_restart` */
    method BlockAndRestart(frame: int, reason: BlockReason) returns (next: int, ghost pick: nat)
      requires Valid()
      modifies this`frames, sched, sched.ready, sched.ready.heap, sched.pmp
      ensures Valid() == true && Outcome(View(), next, Quiet) == Kernel.BlockAndRestart(old(View()), frame, reason, pick)
    {
      MovePc(frame, -4);
      pick := sched.BlockCurrent(frame, reason);
      next := CurrentFrame();
    }

    /** `wake_blocked_on`, then `preempt_if_outranked`, on the scheduler. */
    method WakeThenPreempt(frame: int, reason: BlockReason) returns (dispatched: bool, ghost pick: nat)
      requires sched.Valid() && S.Consistent(sched.View())
      modifies sched, sched.ready, sched.ready.heap, sched.pmp
      ensures sched.Valid() == true && sched.View() == S.PreemptIfOutranked(S.WakeBlockedOn(old(sched.View()), reason), frame, pick)
      ensures dispatched == S.Outranked(S.WakeBlockedOn(old(sched.View()), reason))
    {
      S.WakeBlockedKeeps(sched.View(), reason);
      var _ := sched.WakeBlockedOn(reason);
      dispatched, pick := sched.PreemptIfOutranked(frame);
    }

    /** The end of a transfer. */
    method WakePeer(frame: int, reason: BlockReason, ghost obs: Observation) returns (next: int, ghost pick: nat)
      requires Valid() == true && S.Consistent(sched.View()) == true
      modifies sched, sched.ready, sched.ready.heap, sched.pmp
      ensures Valid() == true && Outcome(View(), next, obs) == Kernel.WakePeer(old(View()), frame, reason, pick, obs)
    {
      ghost var k := View();
      next, pick := WakeThenResume(frame, reason);
      assert View() == k.(sched := sched.View());
      WakePeerForm(k, frame, reason, pick, obs, sched.View(), next);
    }

    /** The same on the scheduler, with the frame to resume. */
    method WakeThenResume(frame: int, reason: BlockReason) returns (next: int, ghost pick: nat)
      requires Valid() == true && S.Consistent(sched.View()) == true
      modifies sched, sched.ready, sched.ready.heap, sched.pmp
      ensures Valid() == true && WokeThenPreempted(old(sched.View()), frame, reason, pick, sched.View(), next) == true
    {
      var dispatched;
      dispatched, pick := WakeThenPreempt(frame, reason);
      next := if dispatched then CurrentFrame() else frame;
    }

    // -------------------------------------------------------------------
    // System calls
    // -------------------------------------------------------------------

    /** The checks at the start of `sys_send`. */
    method CheckSend(ch: u32, ptr: u32, len: u32) returns (err: Option<u32>)
      ensures err == SendError(cfg, sched.View(), ch, ptr, len)
    {
      if sched.current >= |sched.tasks| {
        return Some(EPERM);
      }
      var t := sched.tasks[sched.current].info;
      if ch >= MAX_CHANNELS {
        return Some(EINVAL);
      }
      if ch !in t.sends {
        return Some(EPERM);
      }
      if len > MSG_MAX {
        return Some(EINVAL);
      }
      if !BufferReadable(ptr, len, ReadableRanges(cfg, t)) {
        return Some(EFAULT);
      }
      return None;
    }

    method CheckReceive(ch: u32, ptr: u32, cap: u32) returns (err: Option<u32>)
      ensures err == ReceiveError(sched.View(), ch, ptr, cap)
    {
      if sched.current >= |sched.tasks| {
        return Some(EPERM);
      }
      var t := sched.tasks[sched.current].info;
      if ch >= MAX_CHANNELS {
        return Some(EINVAL);
      }
      if ch !in t.receives {
        return Some(EPERM);
      }
      if !BufferReadable(ptr, cap, WritableRanges(t)) {
        return Some(EFAULT);
      }
      return None;
    }

    /** `sys_log`, without its output. */
    method SysLog(ptr: u32, len: u32) returns (r: u32)
      ensures r == LogResult(cfg, sched.View(), ptr, len)
    {
      if sched.current >= |sched.tasks| {
        return EPERM;
      }
      var t := sched.tasks[sched.current].info;
      if CONSOLE_CAP !in t.shared_ {
        return EPERM;
      }
      if !BufferReadable(ptr, len, ReadableRanges(cfg, t)) {
        return EFAULT;
      }
      return len;
    }

    /** `sys_send` once the message fits. */
    method PutMessage(frame: int, ch: u32, ptr: u32, len: u32, ghost flags: u32) returns (next: int, ghost pick: nat, ghost obs: Observation)
      requires Valid() && S.Consistent(sched.View())
      requires SendError(cfg, sched.View(), ch, ptr, len).None? && |table.contents[ch]| < CHANNEL_CAPACITY
      modifies this`frames, sched, sched.ready, sched.ready.heap, sched.pmp, table, table.repr
      ensures Valid() == true
      ensures Outcome(View(), next, obs) == Kernel.SysSend(cfg, old(View()), frame, ch, ptr, len, flags, pick)
    {
      var msg := FromBytes(Read(ram, ptr, len)).value;
      obs := Sent(sched.current, ch, msg);
      var _ := table.TrySend(ch, msg);
      Ret(frame, 0);
      next, pick := WakePeer(frame, Receive(ch), obs);
    }

    /** `sys_send` */
    method SysSend(frame: int, ch: u32, ptr: u32, len: u32, flags: u32) returns (next: int, ghost pick: nat, ghost obs: Observation)
      requires Valid() && S.Consistent(sched.View())
      modifies this`frames, sched, sched.ready, sched.ready.heap, sched.pmp, table, table.repr
      ensures Valid() == true
      ensures Outcome(View(), next, obs) == Kernel.SysSend(cfg, old(View()), frame, ch, ptr, len, flags, pick)
    {
      next, pick, obs := frame, 0, Quiet;
      var err := CheckSend(ch, ptr, len);
      if err.Some? {
        Ret(frame, err.value);
        return;
      }
      var full := table.IsFull(ch);
      if !full {
        next, pick, obs := PutMessage(frame, ch, ptr, len, flags);
      } else if flags % 2 == 1 {
        Ret(frame, EAGAIN);
      } else {
        next, pick := BlockAndRestart(frame, Send(ch));
      }
    }

    /** `sys_receive` with a message at hand. */
    method HandOver(frame: int, ch: u32, ptr: u32, cap: u32, msg: Message) returns (next: int, ghost pick: nat)
      requires Valid() && S.Consistent(sched.View())
      modifies this`frames, this`ram, sched, sched.ready, sched.ready.heap, sched.pmp
      ensures Valid() == true
      ensures var k := Kernel.Ret(old(View()).(ram := Deliver(old(ram), ptr, Truncated(msg, cap))), frame, msg.len);
              var obs := Received(old(sched.current), ch, msg);
              Outcome(View(), next, obs) == Kernel.WakePeer(k, frame, Send(ch), pick, obs)
    {
      ram := Deliver(ram, ptr, Truncated(msg, cap));
      Ret(frame, msg.len);
      next, pick := WakePeer(frame, Send(ch), Received(sched.current, ch, msg));
    }

    /** `sys_receive` */
    method SysReceive(frame: int, ch: u32, ptr: u32, cap: u32, flags: u32) returns (next: int, ghost pick: nat, ghost obs: Observation)
      requires Valid() && S.Consistent(sched.View())
      modifies this`frames, this`ram, sched, sched.ready, sched.ready.heap, sched.pmp, table, table.repr
      ensures Valid() == true
      ensures Outcome(View(), next, obs) == Kernel.SysReceive(old(View()), frame, ch, ptr, cap, flags, pick)
    {
      next, pick, obs := frame, 0, Quiet;
      var err := CheckReceive(ch, ptr, cap);
      if err.Some? {
        Ret(frame, err.value);
        return;
      }
      var got := table.TryReceive(ch);
      if got.Some? {
        obs := Received(sched.current, ch, got.value);
        next, pick := HandOver(frame, ch, ptr, cap, got.value);
      } else if flags % 2 == 1 {
        Ret(frame, EAGAIN);
      } else {
        next, pick := BlockAndRestart(frame, Receive(ch));
      }
    }

    method SysYield(frame: int) returns (next: int, ghost pick: nat)
      requires Valid() && S.Consistent(sched.View())
      modifies this`frames, sched, sched.ready, sched.ready.heap, sched.pmp
      ensures Valid() == true
      ensures var s := S.YieldCurrent(S.SaveCurrent(old(sched.View()), frame), pick);
              Outcome(View(), next, Quiet) == Outcome(Kernel.Ret(old(View()), frame, 0).(sched := s), FrameOf(s), Quiet)
    {
      Ret(frame, 0);
      next, pick := YieldThere(frame);
    }

    method YieldThere(frame: int) returns (next: int, ghost pick: nat)
      requires Valid() == true && S.Consistent(sched.View()) == true
      modifies sched, sched.ready, sched.ready.heap, sched.pmp
      ensures Valid() == true && next == FrameOf(sched.View())
      ensures sched.View() == S.YieldCurrent(S.SaveCurrent(old(sched.View()), frame), pick)
    {
      pick := sched.YieldCurrent(frame);
      next := CurrentFrame();
    }

    method SysSleep(frame: int, ticks: u32) returns (next: int, ghost pick: nat)
      requires Valid()
      modifies this`frames, sched, sched.ready, sched.ready.heap, sched.pmp
      ensures Valid() == true
      ensures var s := S.SleepCurrent(S.SaveCurrent(old(sched.View()), frame), old(timer.tickCount), ticks, pick);
              Outcome(View(), next, Quiet) == Outcome(Kernel.Ret(old(View()), frame, 0).(sched := s), FrameOf(s), Quiet)
    {
      Ret(frame, 0);
      pick := sched.SleepCurrent(frame, timer.tickCount, ticks);
      next := CurrentFrame();
    }

    /** `dispatch`: the call in the saved frame, and the frame to resume. */
    method Dispatch(frame: int) returns (next: int, ghost pick: nat, ghost obs: Observation)
      requires Valid() && S.Consistent(sched.View())
      modifies this`frames, this`ram, sched, sched.ready, sched.ready.heap, sched.pmp, table, table.repr
      ensures Valid() == true
      ensures Outcome(View(), next, obs) == Kernel.Dispatch(cfg, old(View()), frame, pick)
    {
      next, pick, obs := frame, 0, Quiet;
      var r := Load(frames, frame).regs;
      var a0, a1, a2, a3, a7 := r[REG_A0], r[REG_A1], r[REG_A2], r[REG_A3], r[REG_A7];
      if a7 == SYS_YIELD {
        next, pick := SysYield(frame);
      } else if a7 == SYS_SLEEP {
        next, pick := SysSleep(frame, a0);
      } else if a7 == SYS_LOG {
        var n := SysLog(a0, Min(a1, LOG_MAX_LEN));
        Ret(frame, n);
      } else if a7 == SYS_NOW {
        Ret(frame, timer.tickCount);
      } else if a7 == SYS_SEND {
        next, pick, obs := SysSend(frame, a0, a1, a2, a3);
      } else if a7 == SYS_RECEIVE {
        next, pick, obs := SysReceive(frame, a0, a1, a2, a3);
      } else {
        Ret(frame, ENOSYS);
      }
    }

    // -------------------------------------------------------------------
    // Traps
    // -------------------------------------------------------------------

    /** `on_timer_interrupt` */
    method OnTimerInterrupt(frame: int) returns (next: int, ghost pick: nat)
      requires Valid() == true && S.Consistent(sched.View()) == true
      modifies timer, sched, sched.ready, sched.ready.heap, sched.pmp
      ensures Valid() == true
      ensures Outcome(View(), next, Quiet) == Kernel.OnTimerInterrupt(old(View()), frame, pick)
    {
      ghost var k := View();
      var now := CountTick();
      next, pick := TickThenResume(frame, now);
      assert View() == k.(ticks := now, sched := sched.View());
      TimerOutcome(k, frame, pick, sched.View(), next);
    }

    /** `timer_isr` */
    method CountTick() returns (now: u32)
      requires Valid() == true
      modifies timer
      ensures Valid() == true && now == WrapAdd(old(timer.tickCount), 1) && View() == old(View()).(ticks := now)
    {
      ghost var read;
      now, read := timer.TimerIsr();
    }

    /** `save_current`, `wake_sleepers` and `tick`, with the frame to resume. */
    method TickThenResume(frame: int, now: u32) returns (next: int, ghost pick: nat)
      requires Valid() == true && S.Consistent(sched.View()) == true
      modifies sched, sched.ready, sched.ready.heap, sched.pmp
      ensures Valid() == true && Ticked(old(sched.View()), frame, now, pick, sched.View(), next) == true
    {
      var switched;
      switched, pick := WakeThenTick(frame, now);
      next := if switched then CurrentFrame() else frame;
    }

    method WakeThenTick(frame: int, now: u32) returns (switched: bool, ghost pick: nat)
      requires sched.Valid() && S.Consistent(sched.View())
      modifies sched, sched.ready, sched.ready.heap, sched.pmp
      ensures sched.Valid() == true
      ensures var s0 := S.SaveCurrent(old(sched.View()), frame);
              var s1 := S.WakeSleepers(s0, now, |s0.tasks|);
              sched.View() == S.Tick(s1, pick) && (switched <==> sched.current != s1.current)
    {
      S.SaveKeeps(sched.View(), frame);
      sched.SaveCurrent(frame);
      S.WakeSleepersKeeps(sched.View(), now, |sched.tasks|);
      sched.WakeSleepers(now);
      switched, pick := sched.Tick();
    }

    /** `trap_handler`; a synchronous exception other than a system call halts the kernel. */
    method TrapHandler(frame: int, mcause: u32) returns (next: Option<int>, ghost e: Event, ghost obs: Observation)
      requires Valid() && S.Consistent(sched.View())
      modifies this`frames, this`ram, timer, sched, sched.ready, sched.ready.heap, sched.pmp, table, table.repr
      ensures Valid() == true
      ensures next.None? <==> CauseOf(mcause) == Fault
      ensures next.None? ==> View() == old(View())
      ensures next.Some? ==> Caused(mcause, e) && Outcome(View(), next.value, obs) == Handled(cfg, old(View()), frame, e)
      ensures next.None? <==> mcause < TWO31 && mcause != 8 && mcause != 11
      ensures mcause == 8 || mcause == 11 ==> e.Ecall?
      ensures mcause >= TWO31 ==> if mcause == TWO31 + 7 then e.Timer? else e == OtherInterrupt
    {
      var after := frame;
      ghost var pick := 0;
      e, obs := OtherInterrupt, Quiet;
      match CauseOf(mcause) {
        case TimerTick =>
          after, pick := OnTimerInterrupt(frame);
          e := Timer(pick);
        case SystemCall =>
          MovePc(frame, 4);
          after, pick, obs := Dispatch(frame);
          e := Ecall(pick);
        case Unhandled =>
        case Fault =>
          return None, e, obs;
      }
      next := Some(after);
    }

    /** The stub's entry: the live context goes just below `mscratch`. */
    method SaveContext()
      requires Valid() == true
      modifies this`frames
      ensures Valid() == true && View() == TrapEntry(old(View()))
    {
      frames := frames[mscratch - TRAP_FRAME_SIZE := cpu];
    }

    /** The stub's exit, and `start_first_task`. */
    method Resume(frame: int, ghost obs: Observation)
      requires Valid() == true
      modifies this`cpu, this`mscratch
      ensures Valid() == true && View() == TrapExit(Outcome(old(View()), frame, obs))
    {
      cpu, mscratch := Load(frames, frame), frame + TRAP_FRAME_SIZE;
    }

    /** The stub around the handler. */
    method TrapEntryStub(mcause: u32) returns (resumed: bool, ghost e: Event, ghost obs: Observation)
      requires Valid() == true && S.Consistent(sched.View()) == true
      modifies this, timer, sched, sched.ready, sched.ready.heap, sched.pmp, table, table.repr
      ensures Valid() == true
      ensures resumed <==> CauseOf(mcause) != Fault
      ensures !resumed ==> View() == TrapEntry(old(View()))
      ensures resumed ==> Caused(mcause, e) == true
      ensures resumed ==> Resumed(View(), obs, Handle(cfg, old(View()), e)) == true
    {
      ghost var k := View();
      var frame := mscratch - TRAP_FRAME_SIZE;
      assert frame == k.mscratch - TRAP_FRAME_SIZE;
      SaveContext();
      ghost var k1 := View();
      assert k1 == TrapEntry(k);
      var next;
      next, e, obs := TrapHandler(frame, mcause);
      resumed := next.Some?;
      if resumed {
        ghost var o := Outcome(View(), next.value, obs);
        assert o == Handled(cfg, k1, frame, e);
        Resume(next.value, obs);
        OutcomeIsResumed(cfg, k, e, k1, frame, o, View());
      }
    }

    /** Every trap is one step of the state machine, and keeps its invariant. */
    method Trap(mcause: u32) returns (resumed: bool, ghost e: Event, ghost obs: Observation)
      requires Valid() == true && ConfigOk(cfg) == true && Inv(cfg, View()) == true
      requires mcause == 8 || mcause == 11 ==> Enabled(cfg, View(), Ecall(0))
      modifies this, timer, sched, sched.ready, sched.ready.heap, sched.pmp, table, table.repr
      ensures Valid() == true
      ensures !resumed <==> mcause < TWO31 && mcause != 8 && mcause != 11
      ensures mcause == 8 || mcause == 11 ==> e.Ecall?
      ensures mcause >= TWO31 ==> if mcause == TWO31 + 7 then e.Timer? else e == OtherInterrupt
      ensures resumed ==> IsStep(cfg, mcause, old(View()), e, View(), obs) == true
      ensures resumed && old(Runs.Reachable(cfg, View())) ==> Runs.Reachable(cfg, View())
    {
      ghost var k := View();
      InvIsConsistent(cfg, k);
      resumed, e, obs := TrapEntryStub(mcause);
      if resumed {
        HandledIsStep(cfg, mcause, k, e, View(), obs);
        StepStaysReachable(cfg, mcause, k, e, View(), obs);
      }
    }

    // -------------------------------------------------------------------
    // Boot
    // -------------------------------------------------------------------

    /** The body of the `prepare_frames` loop. */
    method PrepareFrame(i: nat)
      requires Valid() == true && i < |sched.tasks| == |cfg.infos|
      modifies this`frames, sched`tasks
      ensures Valid() == true && frames == old(frames)[FrameAddr(cfg, i) := Runs.InitContext(cfg, cfg.infos[i])]
      ensures var v := old(sched.View());
              sched.View() == v.(tasks := v.tasks[i := v.tasks[i].(framePtr := FrameAddr(cfg, i))])
    {
      frames := frames[FrameAddr(cfg, i) := Runs.InitContext(cfg, cfg.infos[i])];
      sched.SetFrame(i, FrameAddr(cfg, i));
    }

    /** `prepare_frames` */
    method PrepareFrames()
      requires Valid() == true && frames == map[] && |sched.tasks| == |cfg.infos|
      modifies this`frames, sched`tasks
      ensures Valid() == true && Prepared(cfg, old(sched.View()), |cfg.infos|, frames, sched.View()) == true
    {
      ghost var v := sched.View();
      PreparedNone(cfg, v);
      var i := 0;
      while i < |cfg.infos|
        invariant 0 <= i <= |cfg.infos| == |sched.tasks| && Valid() == true && Prepared(cfg, v, i, frames, sched.View()) == true
      {
        ghost var fs, w := frames, sched.View();
        PrepareFrame(i);
        PreparedStep(cfg, v, i, fs, w, frames, sched.View());
        i := i + 1;
      }
    }

    /** `init`, then `prepare_frames`. */
    method InitScheduler() returns (ghost pick: nat)
      requires Valid() && ConfigOk(cfg) && View() == Registered(cfg, ram)
      modifies this`frames, sched, sched.ready, sched.ready.heap, sched.pmp
      ensures Valid() == true && sched.View() == Runs.BootSched(cfg, pick) && frames == Runs.BootFrames(cfg, |cfg.infos|)
    {
      pick := sched.PopulateReadyQueue();
      BootCommutes(cfg, pick);
      PrepareFrames();
    }

    method StartTimer()
      requires Valid() == true
      modifies timer
      ensures Valid() == true && View() == old(View())
    {
      var _ := timer.StartTicks();
    }

    /** The rest of the boot sequence: `start_ticks` and `start_first_task`. */
    method Start() returns (ghost pick: nat)
      requires Valid() == true && ConfigOk(cfg) == true && View() == Registered(cfg, ram)
      modifies this, timer, sched, sched.ready, sched.ready.heap, sched.pmp
      ensures Valid() == true && View() == Runs.Boot(cfg, old(ram), pick)
      ensures |old(ram)| == TWO32 ==> Runs.Reachable(cfg, View()) && Inv(cfg, View()) == true
    {
      pick := InitScheduler();
      StartTimer();
      Resume(CurrentFrame(), Quiet);
      BootIsReachable(cfg, old(ram), pick);
    }
  }
}
