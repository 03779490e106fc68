/** Channels over whole runs: no lost wake-ups, and first in, first out. */
module Ipc {
  import opened Words
  import opened Tasks
  import opened Channels
  import opened Scheduler
  import opened Kernel
  import opened Invariant
  import opened Runs

  // ---------------------------------------------------------------------
  // No lost wake-up
  // ---------------------------------------------------------------------

  /** A task is blocked on a channel only while the channel is empty, or full. */
  lemma NoLostWakeup(cfg: Config, k: State, i: nat)
    requires ConfigOk(cfg) && Reachable(cfg, k) && i < |k.sched.tasks| && k.sched.tasks[i].state.Blocked?
    ensures match k.sched.tasks[i].blockedOn
            case Receive(ch) => ch < MAX_CHANNELS && k.chans[ch] == []
            case Send(ch) => ch < MAX_CHANNELS && |k.chans[ch]| == CHANNEL_CAPACITY
            case Sleep => true
            case NotBlocked => false
  {
    ReachableInv(cfg, k);
    assert WaitOk(cfg, cfg.infos[i], Wait(k.sched.tasks[i]), Load(k.frames, FrameAddr(cfg, i)), k.chans);
  }

  // ---------------------------------------------------------------------
  // Conservation
  // ---------------------------------------------------------------------

  /** What an observation says about the channels before and after. */
  ghost predicate Explains(obs: Observation, before: Chans, after: Chans) {
    match obs
    case Quiet => after == before
    case Sent(_, ch, msg) =>
      ch < MAX_CHANNELS && |before[ch]| < CHANNEL_CAPACITY && after == before[ch := before[ch] + [msg]]
    case Received(_, ch, msg) =>
      ch < MAX_CHANNELS && before[ch] != [] && msg == before[ch][0] && after == before[ch := before[ch][1..]]
  }

  lemma SendExplains(cfg: Config, k: State, frame: int, ch: u32, ptr: u32, len: u32, flags: u32, hint: nat)
    ensures var o := SysSend(cfg, k, frame, ch, ptr, len, flags, hint);
            Explains(o.obs, k.chans, o.k.chans)
  {
  }

  lemma ReceiveExplains(k: State, frame: int, ch: u32, ptr: u32, cap: u32, flags: u32, hint: nat)
    ensures var o := SysReceive(k, frame, ch, ptr, cap, flags, hint);
            Explains(o.obs, k.chans, o.k.chans)
  {
  }

  /** Every other call leaves the channels alone. */
  lemma OthersExplain(cfg: Config, k: State, frame: int, hint: nat)
    requires var a7 := Load(k.frames, frame).regs[REG_A7]; a7 != SYS_SEND && a7 != SYS_RECEIVE
    ensures var o := Dispatch(cfg, k, frame, hint); o.obs == Quiet && o.k.chans == k.chans
  {
  }

  lemma DispatchExplains(cfg: Config, k: State, frame: int, hint: nat)
    ensures var o := Dispatch(cfg, k, frame, hint);
            Explains(o.obs, k.chans, o.k.chans) == true
  {
    var r := Load(k.frames, frame).regs;
    if r[REG_A7] == SYS_SEND {
      SendExplains(cfg, k, frame, r[REG_A0], r[REG_A1], r[REG_A2], r[REG_A3], hint);
    } else if r[REG_A7] == SYS_RECEIVE {
      ReceiveExplains(k, frame, r[REG_A0], r[REG_A1], r[REG_A2], r[REG_A3], hint);
    } else {
      OthersExplain(cfg, k, frame, hint);
    }
  }

  /** A trap's step is what its handler did. */
  lemma TrapForm(cfg: Config, k: State, e: Event)
    requires !e.User?
    ensures Observe(cfg, k, e) == Handle(cfg, k, e).obs && Step(cfg, k, e).chans == Handle(cfg, k, e).k.chans
  {
  }

  lemma HandlerExplains(cfg: Config, k: State, frame: int, hint: nat)
    ensures var o := Handled(cfg, k, frame, Ecall(hint)); Explains(o.obs, k.chans, o.k.chans) == true
  {
    DispatchExplains(cfg, MovePc(k, frame, 4), frame, hint);
  }

  lemma HandleExplains(cfg: Config, k: State, hint: nat, k1: State, frame: int)
    requires k1 == TrapEntry(k) && frame == k.mscratch - TRAP_FRAME_SIZE
    ensures var o := Handle(cfg, k, Ecall(hint)); Explains(o.obs, k1.chans, o.k.chans) == true
  {
    SavedIsHandled(cfg, k, Ecall(hint), k1, frame);
    HandlerExplains(cfg, k1, frame, hint);
  }

  lemma CallExplains(cfg: Config, k: State, hint: nat)
    ensures Explains(Observe(cfg, k, Ecall(hint)), k.chans, Step(cfg, k, Ecall(hint)).chans) == true
  {
    TrapForm(cfg, k, Ecall(hint));
    HandleExplains(cfg, k, hint, TrapEntry(k), k.mscratch - TRAP_FRAME_SIZE);
  }

  lemma TimerIsQuiet(cfg: Config, k: State, hint: nat)
    ensures Observe(cfg, k, Timer(hint)) == Quiet && Step(cfg, k, Timer(hint)).chans == k.chans
  {
  }

  lemma StepExplains(cfg: Config, k: State, e: Event)
    ensures Explains(Observe(cfg, k, e), k.chans, Step(cfg, k, e).chans)
  {
    match e {
      case Ecall(hint) => CallExplains(cfg, k, hint);
      case Timer(hint) => TimerIsQuiet(cfg, k, hint);
      case _ =>
    }
  }

  /** The observations of a run, in order. */
  ghost function Trace(cfg: Config, k: State, es: seq<Event>): (t: seq<Observation>)
    ensures |t| == |es|
  {
    if es == [] then []
    else
      var n := |es| - 1;
      Trace(cfg, k, es[..n]) + [Observe(cfg, After(cfg, k, es[..n]), es[n])]
  }

  /** The messages successfully sent on `ch`. */
  function SentOn(trace: seq<Observation>, ch: nat): seq<Message> {
    if trace == [] then []
    else
      var n := |trace| - 1;
      SentOn(trace[..n], ch) + if trace[n].Sent? && trace[n].ch == ch then [trace[n].msg] else []
  }

  /** The messages received from `ch`. */
  function ReceivedOn(trace: seq<Observation>, ch: nat): seq<Message> {
    if trace == [] then []
    else
      var n := |trace| - 1;
      ReceivedOn(trace[..n], ch) + if trace[n].Received? && trace[n].ch == ch then [trace[n].msg] else []
  }

  lemma TraceExtends(trace: seq<Observation>, o: Observation, ch: nat)
    ensures SentOn(trace + [o], ch) == SentOn(trace, ch) + if o.Sent? && o.ch == ch then [o.msg] else []
    ensures ReceivedOn(trace + [o], ch) == ReceivedOn(trace, ch) + if o.Received? && o.ch == ch then [o.msg] else []
  {
    assert (trace + [o])[..|trace|] == trace;
  }

  /** One observation keeps the books balanced. */
  lemma Balances(sent: seq<Message>, received: seq<Message>, o: Observation, before: Chans, after: Chans, ch: nat)
    requires ch < MAX_CHANNELS && Explains(o, before, after) && sent == received + before[ch]
    ensures sent + (if o.Sent? && o.ch == ch then [o.msg] else [])
            == received + (if o.Received? && o.ch == ch then [o.msg] else []) + after[ch]
  {
    if o.Received? && o.ch == ch {
      assert before[ch] == [o.msg] + after[ch];
    }
  }

  /** Over any run: what was queued, then everything sent, is what was received, then what is queued. */
  lemma {:induction false} RunBalances(cfg: Config, k: State, es: seq<Event>, ch: nat)
    requires ch < MAX_CHANNELS
    ensures k.chans[ch] + SentOn(Trace(cfg, k, es), ch) == ReceivedOn(Trace(cfg, k, es), ch) + After(cfg, k, es).chans[ch]
  {
    if es != [] {
      var n := |es| - 1;
      var k', t, o := After(cfg, k, es[..n]), Trace(cfg, k, es[..n]), Observe(cfg, After(cfg, k, es[..n]), es[n]);
      RunBalances(cfg, k, es[..n], ch);
      StepExplains(cfg, k', es[n]);
      TraceExtends(t, o, ch);
      Balances(k.chans[ch] + SentOn(t, ch), ReceivedOn(t, ch), o, k'.chans, Step(cfg, k', es[n]).chans, ch);
    }
  }

  /**
    End to end: from boot, on every channel, the messages sent are the messages
    received followed by at most eight still queued.
   */
  lemma FifoConservation(cfg: Config, ram: seq<u8>, hint: nat, es: seq<Event>, ch: nat)
    requires ConfigOk(cfg) && |ram| == TWO32 && Possible(cfg, Boot(cfg, ram, hint), es) && ch < MAX_CHANNELS
    ensures var k := Boot(cfg, ram, hint);
            var queued := After(cfg, k, es).chans[ch];
            && SentOn(Trace(cfg, k, es), ch) == ReceivedOn(Trace(cfg, k, es), ch) + queued
            && |queued| <= 8
  {
    RunBalances(cfg, Boot(cfg, ram, hint), es, ch);
    BootInv(cfg, ram, hint);
    RunKeeps(cfg, Boot(cfg, ram, hint), es);
  }
}
