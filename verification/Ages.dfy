/** How long the queue's 32-bit ages can be relied on, and the wait that is bounded until then. */
module Ages {
  import opened Words
  import opened Tasks
  import opened Channels
  import opened Scheduler
  import opened Kernel
  import opened Invariant
  import opened Runs
  import opened Effects
  import opened SleepExact
  import opened RoundRobin

  /** Between no insertion and `n` insertions were made. */
  predicate Inserts(s: Sched, s': Sched, n: nat) {
    s.ready.births <= s'.ready.births <= s.ready.births + n
  }

  lemma DispatchInserts(s: Sched, hint: nat)
    ensures Inserts(s, DispatchNext(s, hint), 0)
  {
  }

  lemma YieldInserts(s: Sched, hint: nat)
    ensures Inserts(s, YieldCurrent(s, hint), 1)
  {
    DispatchInserts(RequeueCurrent(s), hint);
  }

  lemma TickInserts(s: Sched, hint: nat)
    ensures Inserts(s, Tick(s, hint), 1)
  {
    YieldInserts(s.(quantum := WrapAdd(s.quantum, 1)), hint);
  }

  lemma {:induction false} WakeSleepersInserts(s: Sched, now: u32, n: nat)
    requires n <= |s.tasks| && n <= |s.ready.slots|
    ensures Inserts(s, WakeSleepers(s, now, n), n)
  {
    if n > 0 { WakeSleepersInserts(s, now, n - 1); }
  }

  lemma WakePeerInserts(k: State, frame: int, reason: BlockReason, hint: nat, obs: Observation)
    ensures Inserts(k.sched, WakePeer(k, frame, reason, hint, obs).k.sched, 2)
  {
    YieldInserts(SaveCurrent(WakeBlockedOn(k.sched, reason), frame), hint);
  }

  lemma BlockInserts(k: State, frame: int, reason: BlockReason, hint: nat)
    ensures Inserts(k.sched, BlockAndRestart(k, frame, reason, hint).k.sched, 0)
  {
    var s := SaveCurrent(k.sched, frame);
    DispatchInserts(BlockTask(s, reason, WakeAt(s)), hint);
  }

  lemma SendInserts(cfg: Config, k: State, a: int, ch: u32, ptr: u32, len: u32, flags: u32, hint: nat)
    ensures Inserts(k.sched, SysSend(cfg, k, a, ch, ptr, len, flags, hint).k.sched, 2) == true
  {
    if SendError(cfg, k.sched, ch, ptr, len).None? {
      if |k.chans[ch]| >= CHANNEL_CAPACITY {
        BlockInserts(k, a, Send(ch), hint);
      } else {
        SentInserts(cfg, k, a, ch, ptr, len, flags, hint, FromBytes(Read(k.ram, ptr, len)).value);
      }
    }
  }

  lemma SentInserts(cfg: Config, k: State, a: int, ch: u32, ptr: u32, len: u32, flags: u32, hint: nat, msg: Message)
    requires SendError(cfg, k.sched, ch, ptr, len).None? && |k.chans[ch]| < CHANNEL_CAPACITY
    requires FromBytes(Read(k.ram, ptr, len)) == Some(msg)
    ensures Inserts(k.sched, SysSend(cfg, k, a, ch, ptr, len, flags, hint).k.sched, 2) == true
  {
    WakePeerInserts(Ret(k.(chans := k.chans[ch := k.chans[ch] + [msg]]), a, 0), a, Receive(ch), hint, Sent(k.sched.current, ch, msg));
  }

  lemma ReceiveInserts(k: State, a: int, ch: u32, ptr: u32, cap: u32, flags: u32, hint: nat)
    ensures Inserts(k.sched, SysReceive(k, a, ch, ptr, cap, flags, hint).k.sched, 2) == true
  {
    if ReceiveError(k.sched, ch, ptr, cap).None? {
      if k.chans[ch] == [] {
        BlockInserts(k, a, Receive(ch), hint);
      } else {
        var msg := k.chans[ch][0];
        var k1 := k.(chans := k.chans[ch := k.chans[ch][1..]], ram := Deliver(k.ram, ptr, Truncated(msg, cap)));
        WakePeerInserts(Ret(k1, a, msg.len), a, Send(ch), hint, Received(k.sched.current, ch, msg));
      }
    }
  }

  lemma CallInserts(cfg: Config, k: State, a: int, hint: nat)
    ensures Inserts(k.sched, Dispatch(cfg, k, a, hint).k.sched, 2)
  {
    var r := Load(k.frames, a).regs;
    var s := SaveCurrent(k.sched, a);
    if r[REG_A7] == SYS_YIELD {
      YieldInserts(s, hint);
    } else if r[REG_A7] == SYS_SLEEP {
      DispatchInserts(BlockTask(s, Sleep, WrapAdd(k.ticks, Max(r[REG_A0], 1))), hint);
    } else if r[REG_A7] == SYS_SEND {
      SendInserts(cfg, k, a, r[REG_A0], r[REG_A1], r[REG_A2], r[REG_A3], hint);
    } else if r[REG_A7] == SYS_RECEIVE {
      ReceiveInserts(k, a, r[REG_A0], r[REG_A1], r[REG_A2], r[REG_A3], hint);
    }
  }

  lemma TimerInserts(cfg: Config, k: State, hint: nat)
    requires Core(cfg, k)
    ensures Inserts(k.sched, OnTimerInterrupt(k, FrameAddr(cfg, k.sched.current), hint).k.sched, MAX_TASKS + 1)
  {
    TimerForm(cfg, k, hint);
    var now := WrapAdd(k.ticks, 1);
    WakeSleepersInserts(k.sched, now, |k.sched.tasks|);
    TickInserts(WakeSleepers(k.sched, now, |k.sched.tasks|), hint);
  }

  /** No trap makes more insertions: each task is woken at most once, and the running one requeued at most once. */
  const PER_TRAP: nat := MAX_TASKS + 1

  lemma StepInserts(cfg: Config, k: State, e: Event)
    requires Inv(cfg, k)
    ensures Inserts(k.sched, Step(cfg, k, e).sched, if e.User? then 0 else PER_TRAP)
  {
    EntryInv(cfg, k);
    match e {
      case User(_, _) =>
      case OtherInterrupt =>
      case Timer(hint) =>
        HandleForm(cfg, k, hint);
        TimerInserts(cfg, TrapEntry(k), hint);
      case Ecall(hint) =>
        EcallForm(cfg, k, hint);
        CallEntryForm(cfg, k);
        CallInserts(cfg, CallEntry(cfg, k), FrameAddr(cfg, k.sched.current), hint);
    }
  }

  // ---------------------------------------------------------------------
  // Runs
  // ---------------------------------------------------------------------

  /** Number of traps. */
  function Traps(es: seq<Event>): nat {
    if es == [] then 0 else Traps(es[..|es| - 1]) + if es[|es| - 1].User? then 0 else 1
  }

  lemma {:induction false} RunInserts(cfg: Config, k: State, es: seq<Event>)
    requires ConfigOk(cfg) && Inv(cfg, k) && Possible(cfg, k, es)
    ensures Inserts(k.sched, After(cfg, k, es).sched, PER_TRAP * Traps(es))
  {
    if es != [] {
      var n := |es| - 1;
      RunInserts(cfg, k, es[..n]);
      RunKeeps(cfg, k, es[..n]);
      StepInserts(cfg, After(cfg, k, es[..n]), es[n]);
    }
  }

  /** Until 2^31 insertions have been made since boot, ages are in order. */
  lemma EarlyAgesAreSound(cfg: Config, k: State)
    requires ConfigOk(cfg) && Reachable(cfg, k) && k.sched.ready.births <= TWO31
    ensures k.sched.ready.fifo
  {
    ReachableInv(cfg, k);
  }

  lemma BootInserts(cfg: Config, ram: seq<u8>, hint: nat)
    requires ConfigOk(cfg)
    ensures Boot(cfg, ram, hint).sched.ready.births == |cfg.infos|
  {
    FillKeeps(BootTasks(cfg), |cfg.infos|);
    DispatchInserts(Sched(BootTasks(cfg), Filled(BootTasks(cfg), |cfg.infos|), NO_TASK, 0, None, false), hint);
  }

  /** So they are after any run from boot of at most 2^31 / 17 - 1 traps. */
  lemma ShortRunsAreSound(cfg: Config, ram: seq<u8>, hint: nat, es: seq<Event>)
    requires ConfigOk(cfg) && |ram| == TWO32 && Possible(cfg, Boot(cfg, ram, hint), es)
    requires PER_TRAP * (Traps(es) + 1) <= TWO31
    ensures After(cfg, Boot(cfg, ram, hint), es).sched.ready.fifo
  {
    BootInserts(cfg, ram, hint);
    BootInv(cfg, ram, hint);
    RunInserts(cfg, Boot(cfg, ram, hint), es);
    RunKeeps(cfg, Boot(cfg, ram, hint), es);
  }

  /** Throughout the run a task of `i`'s own priority runs while `i` is ready. */
  ghost predicate AlwaysBehindPeer(cfg: Config, k: State, es: seq<Event>, i: nat) {
    forall n :: 0 <= n <= |es| ==> BehindPeer(cfg, After(cfg, k, es[..n]), i)
  }

  lemma {:induction false} TrapsPrefix(es: seq<Event>, n: nat)
    requires n <= |es|
    ensures Traps(es[..n]) <= Traps(es)
    decreases |es|
  {
    Cuts(es, n);
    if n < |es| { TrapsPrefix(es[..|es| - 1], n); }
  }

  /** The bounded wait, with nothing assumed about the queue but the number of insertions made so far. */
  lemma BoundedWaitEarly(cfg: Config, k: State, es: seq<Event>, i: nat)
    requires ConfigOk(cfg) && Inv(cfg, k) && Possible(cfg, k, es) && AlwaysBehindPeer(cfg, k, es, i)
    requires k.sched.ready.births + PER_TRAP * Traps(es) <= TWO31
    ensures Queued(k.sched.ready, i)
    ensures Ticks(es) <= TIME_QUANTUM_TICKS * (|AheadOf(k.sched.ready, i)| + 1)
  {
    forall n | 0 <= n <= |es| ensures Contended(cfg, After(cfg, k, es[..n]), i) {
      PossiblePrefix(cfg, k, es, n);
      TrapsPrefix(es, n);
      RunInserts(cfg, k, es[..n]);
      RunKeeps(cfg, k, es[..n]);
    }
    BoundedWait(cfg, k, es, i);
  }
}
