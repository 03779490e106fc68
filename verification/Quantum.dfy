/** What a running task is guaranteed: the processor for its quantum, unless somebody outranks it. */
module Quantum {
  import opened Words
  import opened Tasks
  import opened Channels
  import opened Scheduler
  import opened Kernel
  import opened Invariant
  import opened Runs
  import opened Effects
  import opened SleepExact
  import opened Switching

  // ---------------------------------------------------------------------
  // The counter
  // ---------------------------------------------------------------------

  /** The counter is reset, or left alone. */
  predicate Resets(s: Sched, s': Sched) {
    s'.quantum == 0 || s'.quantum == s.quantum
  }

  lemma DispatchResets(s: Sched, hint: nat)
    ensures Resets(s, DispatchNext(s, hint))
  {
  }

  lemma YieldResets(s: Sched, hint: nat)
    ensures Resets(s, YieldCurrent(s, hint))
  {
    DispatchResets(RequeueCurrent(s), hint);
  }

  lemma WakePeerResets(k: State, frame: int, reason: BlockReason, hint: nat, obs: Observation)
    ensures Resets(k.sched, WakePeer(k, frame, reason, hint, obs).k.sched)
  {
    YieldResets(SaveCurrent(WakeBlockedOn(k.sched, reason), frame), hint);
  }

  lemma BlockResets(k: State, frame: int, reason: BlockReason, hint: nat)
    ensures Resets(k.sched, BlockAndRestart(k, frame, reason, hint).k.sched)
  {
    var s := SaveCurrent(k.sched, frame);
    DispatchResets(BlockTask(s, reason, WakeAt(s)), hint);
  }

  lemma SendResets(cfg: Config, k: State, a: int, ch: u32, ptr: u32, len: u32, flags: u32, hint: nat)
    ensures Resets(k.sched, SysSend(cfg, k, a, ch, ptr, len, flags, hint).k.sched) == true
  {
    if SendError(cfg, k.sched, ch, ptr, len).None? {
      if |k.chans[ch]| >= CHANNEL_CAPACITY {
        BlockResets(k, a, Send(ch), hint);
      } else {
        var msg := FromBytes(Read(k.ram, ptr, len)).value;
        WakePeerResets(Ret(k.(chans := k.chans[ch := k.chans[ch] + [msg]]), a, 0), a, Receive(ch), hint, Sent(k.sched.current, ch, msg));
      }
    }
  }

  lemma ReceiveResets(k: State, a: int, ch: u32, ptr: u32, cap: u32, flags: u32, hint: nat)
    ensures Resets(k.sched, SysReceive(k, a, ch, ptr, cap, flags, hint).k.sched) == true
  {
    if ReceiveError(k.sched, ch, ptr, cap).None? {
      if k.chans[ch] == [] {
        BlockResets(k, a, Receive(ch), hint);
      } else {
        var msg := k.chans[ch][0];
        var k1 := k.(chans := k.chans[ch := k.chans[ch][1..]], ram := Deliver(k.ram, ptr, Truncated(msg, cap)));
        WakePeerResets(Ret(k1, a, msg.len), a, Send(ch), hint, Received(k.sched.current, ch, msg));
      }
    }
  }

  lemma CallResets(cfg: Config, k: State, a: int, hint: nat)
    ensures Resets(k.sched, Dispatch(cfg, k, a, hint).k.sched) == true
  {
    var r := Load(k.frames, a).regs;
    var s := SaveCurrent(k.sched, a);
    if r[REG_A7] == SYS_YIELD {
      YieldResets(s, hint);
    } else if r[REG_A7] == SYS_SLEEP {
      DispatchResets(BlockTask(s, Sleep, WrapAdd(k.ticks, Max(r[REG_A0], 1))), hint);
    } else if r[REG_A7] == SYS_SEND {
      SendResets(cfg, k, a, r[REG_A0], r[REG_A1], r[REG_A2], r[REG_A3], hint);
    } else if r[REG_A7] == SYS_RECEIVE {
      ReceiveResets(k, a, r[REG_A0], r[REG_A1], r[REG_A2], r[REG_A3], hint);
    }
  }

  /** An interrupt other than the timer's changes nothing but the frame it was saved in. */
  lemma OtherInterruptIsInvisible(cfg: Config, k: State)
    ensures Step(cfg, k, OtherInterrupt) == k.(frames := k.frames[k.mscratch - TRAP_FRAME_SIZE := k.cpu])
  {
  }

  /** Only a timer interrupt advances the counter, by one. */
  lemma StepQuantum(cfg: Config, k: State, e: Event)
    requires ConfigOk(cfg) && Inv(cfg, k)
    ensures Step(cfg, k, e).sched.quantum <= k.sched.quantum + if e.Timer? then 1 else 0
  {
    match e {
      case User(_, _) =>
      case OtherInterrupt => OtherInterruptIsInvisible(cfg, k);
      case Timer(hint) => TimerSwitches(cfg, k, hint);
      case Ecall(hint) =>
        EntryInv(cfg, k);
        EcallForm(cfg, k, hint);
        CallEntryForm(cfg, k);
        CallResets(cfg, CallEntry(cfg, k), FrameAddr(cfg, k.sched.current), hint);
    }
  }

  lemma {:induction false} QuantumGrows(cfg: Config, k: State, es: seq<Event>)
    requires ConfigOk(cfg) && Inv(cfg, k) && Possible(cfg, k, es)
    ensures After(cfg, k, es).sched.quantum <= k.sched.quantum + Ticks(es)
  {
    if es != [] {
      var n := |es| - 1;
      QuantumGrows(cfg, k, es[..n]);
      RunKeeps(cfg, k, es[..n]);
      StepQuantum(cfg, After(cfg, k, es[..n]), es[n]);
    }
  }

  // ---------------------------------------------------------------------
  // The guarantee
  // ---------------------------------------------------------------------

  /** If the step takes the processor, it is for somebody who ranks higher, or as high after `ticks` of at least 5. */
  ghost predicate TakenFairly(cfg: Config, k: State, k': State, ticks: nat) {
    match k'.sched.current
    case current =>
      current != k.sched.current ==>
        || Rival(cfg, k', k.sched.current, RunningPriority(cfg, k) + 1)
        || (ticks >= 5 && Rival(cfg, k', k.sched.current, RunningPriority(cfg, k)))
  }

  lemma TickedFairly(cfg: Config, k: State, k': State, ticks: nat)
    requires Ticked(cfg, k, k') == true && k.sched.quantum < ticks
    ensures TakenFairly(cfg, k, k', ticks) == true
  {
  }

  /**
    Whatever happens after a dispatch, a timer interrupt that takes the
    processor from a task finds somebody who ranks higher, or is at least the
    fifth one since and finds somebody who ranks as high.
   */
  lemma NotPreemptedEarly(cfg: Config, k: State, es: seq<Event>, hint: nat)
    requires ConfigOk(cfg) && Inv(cfg, k) && Possible(cfg, k, es) && k.sched.quantum == 0
    ensures TakenFairly(cfg, After(cfg, k, es), Step(cfg, After(cfg, k, es), Timer(hint)), Ticks(es) + 1) == true
  {
    QuantumGrows(cfg, k, es);
    RunKeeps(cfg, k, es);
    TimerTakesFairly(cfg, After(cfg, k, es), hint, Ticks(es) + 1);
  }

  lemma TimerTakesFairly(cfg: Config, k: State, hint: nat, ticks: nat)
    requires ConfigOk(cfg) == true && Inv(cfg, k) == true && k.sched.quantum < ticks
    ensures TakenFairly(cfg, k, Step(cfg, k, Timer(hint)), ticks) == true
  {
    TimerSwitches(cfg, k, hint);
    TickedFairly(cfg, k, Step(cfg, k, Timer(hint)), ticks);
  }

  /** The state has `c` running, with its counter at `q`. */
  predicate RunsAt(k: State, c: nat, q: int) {
    k.sched.current == c && k.sched.quantum == q
  }

  /** Nobody who can run ranks above `c`. */
  ghost predicate Unrivalled(cfg: Config, k: State, c: nat) {
    c < |cfg.infos| && !Rival(cfg, k, c, EffectivePriority(cfg.infos[c]) + 1)
  }

  /** Whoever runs has no superior among those who can. */
  lemma RunningIsUnrivalled(cfg: Config, k: State)
    requires Inv(cfg, k)
    ensures Unrivalled(cfg, k, k.sched.current)
  {
    forall j: nat | j < |k.sched.tasks| && Runnable(k.sched.tasks[j])
      ensures EffectivePriority(cfg.infos[j]) <= EffectivePriority(cfg.infos[k.sched.current])
    {
      ReadyIsQueued(k.sched, j);
    }
  }

  /** One step without a system call, inside the quantum. */
  lemma KeepsStep(cfg: Config, k: State, e: Event)
    requires ConfigOk(cfg) && Inv(cfg, k) && Enabled(cfg, k, e) && !e.Ecall?
    requires k.sched.quantum < 4 || !e.Timer?
    requires Unrivalled(cfg, Step(cfg, k, e), k.sched.current)
    ensures RunsAt(Step(cfg, k, e), k.sched.current, k.sched.quantum + if e.Timer? then 1 else 0)
  {
    match e {
      case User(_, _) =>
      case OtherInterrupt => OtherInterruptIsInvisible(cfg, k);
      case Timer(hint) => TimerSwitches(cfg, k, hint);
    }
  }

  /** The run makes no system call. */
  predicate NoCalls(es: seq<Event>) {
    forall n :: 0 <= n < |es| ==> !es[n].Ecall?
  }

  ghost predicate AlwaysUnrivalled(cfg: Config, k: State, es: seq<Event>, c: nat) {
    forall n :: 0 <= n <= |es| ==> Unrivalled(cfg, After(cfg, k, es[..n]), c)
  }

  lemma UnrivalledPrefix(cfg: Config, k: State, es: seq<Event>, c: nat)
    requires es != [] && AlwaysUnrivalled(cfg, k, es, c)
    ensures AlwaysUnrivalled(cfg, k, es[..|es| - 1], c) && Unrivalled(cfg, After(cfg, k, es), c)
  {
    var p := es[..|es| - 1];
    forall j | 0 <= j <= |p| ensures Unrivalled(cfg, After(cfg, k, p[..j]), c) {
      assert p[..j] == es[..j];
    }
    assert es[..|es|] == es;
  }

  /** Up to the fourth tick, a task nobody outranks keeps the processor, and its counter counts the ticks. */
  lemma {:induction false} KeepsProcessor(cfg: Config, k: State, es: seq<Event>)
    requires ConfigOk(cfg) && Inv(cfg, k) && Possible(cfg, k, es) && NoCalls(es) && k.sched.quantum + Ticks(es) <= 4
    requires AlwaysUnrivalled(cfg, k, es, k.sched.current)
    ensures RunsAt(After(cfg, k, es), k.sched.current, k.sched.quantum + Ticks(es))
  {
    if es != [] {
      var n := |es| - 1;
      UnrivalledPrefix(cfg, k, es, k.sched.current);
      KeepsProcessor(cfg, k, es[..n]);
      RunKeeps(cfg, k, es[..n]);
      KeepsStep(cfg, After(cfg, k, es[..n]), es[n]);
    }
  }

  /**
    Exactly: within the first four ticks of its quantum, a task that makes no
    call stays the running one throughout a run if and only if at no moment of
    it somebody who ranks higher can run.
   */
  lemma KeepsProcessorExactly(cfg: Config, k: State, es: seq<Event>)
    requires ConfigOk(cfg) && Inv(cfg, k) && Possible(cfg, k, es) && NoCalls(es) && k.sched.quantum + Ticks(es) <= 4
    ensures (forall n :: 0 <= n <= |es| ==> After(cfg, k, es[..n]).sched.current == k.sched.current)
            <==> AlwaysUnrivalled(cfg, k, es, k.sched.current)
  {
    if AlwaysUnrivalled(cfg, k, es, k.sched.current) {
      forall n | 0 <= n <= |es| ensures After(cfg, k, es[..n]).sched.current == k.sched.current {
        KeptSoFar(cfg, k, es, n);
      }
    }
    forall n | 0 <= n <= |es| && After(cfg, k, es[..n]).sched.current == k.sched.current
      ensures Unrivalled(cfg, After(cfg, k, es[..n]), k.sched.current)
    {
      PossiblePrefix(cfg, k, es, n);
      RunKeeps(cfg, k, es[..n]);
      RunningIsUnrivalled(cfg, After(cfg, k, es[..n]));
    }
  }

  lemma KeptSoFar(cfg: Config, k: State, es: seq<Event>, n: nat)
    requires ConfigOk(cfg) && Inv(cfg, k) && Possible(cfg, k, es) && NoCalls(es) && k.sched.quantum + Ticks(es) <= 4
    requires AlwaysUnrivalled(cfg, k, es, k.sched.current) && n <= |es|
    ensures After(cfg, k, es[..n]).sched.current == k.sched.current
  {
    PossiblePrefix(cfg, k, es, n);
    TicksPrefix(es, n);
    forall j | 0 <= j <= n ensures Unrivalled(cfg, After(cfg, k, es[..n][..j]), k.sched.current) {
      assert es[..n][..j] == es[..j];
    }
    KeepsProcessor(cfg, k, es[..n]);
  }

  lemma {:induction false} TicksPrefix(es: seq<Event>, n: nat)
    requires n <= |es|
    ensures Ticks(es[..n]) <= Ticks(es)
    decreases |es|
  {
    Cuts(es, n);
    if n < |es| { TicksPrefix(es[..|es| - 1], n); }
  }
}
