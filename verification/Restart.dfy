/** Blocking calls are made again after a wake-up, and then succeed: exactly one transfer per call. */
module Restart {
  import opened Words
  import opened Tasks
  import opened Channels
  import opened Scheduler
  import opened Kernel
  import opened Invariant
  import opened Runs
  import opened Effects
  import opened Ipc

  /** The call in `f` is the one that blocks for `reason`, and would pass every check. */
  predicate Pending(cfg: Config, t: TaskInfo, f: Context, reason: BlockReason) {
    match reason
    case Send(ch) => SendPending(cfg, t, f, ch)
    case Receive(ch) => ReceivePending(cfg, t, f, ch)
    case _ => false
  }

  /** What the call needs is there. */
  predicate Available(chans: Chans, reason: BlockReason) {
    match reason
    case Send(ch) => ch < MAX_CHANNELS && |chans[ch]| < CHANNEL_CAPACITY
    case Receive(ch) => ch < MAX_CHANNELS && chans[ch] != []
    case _ => false
  }

  /** Blocked for `reason` at the call in `f`. */
  ghost predicate Waiting(cfg: Config, k: State, i: nat, reason: BlockReason, f: Context) {
    && i < |k.sched.tasks| && i < |cfg.infos| && Wait(k.sched.tasks[i]) == Some(reason)
    && ContextOf(cfg, k, i) == f && Pending(cfg, cfg.infos[i], f, reason)
  }

  /** Woken, back at the call in `f`, and what it waited for is still there. */
  ghost predicate Retrying(cfg: Config, k: State, i: nat, reason: BlockReason, f: Context) {
    && i < |k.sched.tasks| && i < |cfg.infos| && Wait(k.sched.tasks[i]) == None
    && ContextOf(cfg, k, i) == f && Pending(cfg, cfg.infos[i], f, reason) && Available(k.chans, reason)
  }

  /** Every task blocked on a channel is waiting in this sense. */
  lemma BlockedIsWaiting(cfg: Config, k: State, i: nat, reason: BlockReason)
    requires Inv(cfg, k) && i < |k.sched.tasks| && (reason.Send? || reason.Receive?)
    requires Wait(k.sched.tasks[i]) == Some(reason)
    ensures Waiting(cfg, k, i, reason, Load(k.frames, FrameAddr(cfg, i)))
  {
    assert WaitOk(cfg, cfg.infos[i], Wait(k.sched.tasks[i]), Load(k.frames, FrameAddr(cfg, i)), k.chans);
  }

  /** The observation that completes the call of task `i`. */
  predicate Completes(obs: Observation, i: nat, reason: BlockReason) {
    match reason
    case Send(ch) => obs.Sent? && obs.task == i && obs.ch == ch
    case Receive(ch) => obs.Received? && obs.task == i && obs.ch == ch
    case _ => false
  }

  // ---------------------------------------------------------------------
  // Who transfers
  // ---------------------------------------------------------------------

  /** Only the holder of the endpoint, while running, sends or receives. */
  ghost predicate ByHolder(cfg: Config, s: Sched, obs: Observation) {
    match obs
    case Quiet => true
    case Sent(i, ch, _) => i == s.current < |cfg.infos| && ch in cfg.infos[i].sends
    case Received(i, ch, _) => i == s.current < |cfg.infos| && ch in cfg.infos[i].receives
  }

  lemma DispatchByHolder(cfg: Config, k: State, frame: int, hint: nat)
    requires Placed(cfg, k.sched.tasks)
    ensures ByHolder(cfg, k.sched, Dispatch(cfg, k, frame, hint).obs)
  {
  }

  lemma StepByHolder(cfg: Config, k: State, e: Event)
    requires Inv(cfg, k)
    ensures ByHolder(cfg, k.sched, Observe(cfg, k, e))
    ensures !e.Ecall? ==> Observe(cfg, k, e) == Quiet
  {
    if e.Ecall? {
      EntryInv(cfg, k);
      HandleForm(cfg, k, e.hint);
      DispatchByHolder(cfg, CallEntry(cfg, k), FrameAddr(cfg, k.sched.current), e.hint);
    }
  }

  // ---------------------------------------------------------------------
  // One step
  // ---------------------------------------------------------------------

  /** A wait on a channel goes on, or ends because what it is for is there. */
  lemma ServedOrWaiting(w': Option<BlockReason>, reason: BlockReason, before: Chans, after: Chans, obs: Observation, timer: bool, reached: bool)
    requires (reason.Send? || reason.Receive?) && reason.ch < MAX_CHANNELS && |before[reason.ch]| <= CHANNEL_CAPACITY
    requires WaitStep(Some(reason), w', timer, reached, obs) && Explains(obs, before, after)
    ensures w' == Some(reason) || (w' == None && Available(after, reason))
  {
  }

  /** While blocked, a task is untouched until the event it waits for. */
  lemma WaitingStep(cfg: Config, k: State, e: Event, i: nat, reason: BlockReason, f: Context)
    requires ConfigOk(cfg) && Inv(cfg, k) && Enabled(cfg, k, e) && Waiting(cfg, k, i, reason, f)
    ensures var k' := Step(cfg, k, e);
            Waiting(cfg, k', i, reason, f) || Retrying(cfg, k', i, reason, f)
  {
    ContextPreserved(cfg, k, e, i);
    OthersWait(cfg, k, e, i);
    StepExplains(cfg, k, e);
    var k', now := Step(cfg, k, e), WrapAdd(k.ticks, 1);
    ServedOrWaiting(Wait(k'.sched.tasks[i]), reason, k.chans, k'.chans, Observe(cfg, k, e),
                    e.Timer?, TickReached(now, k.sched.tasks[i].wakeAt));
  }

  /** While its call is pending, nobody takes away what a woken task waited for. */
  lemma RetryingOthers(cfg: Config, k: State, e: Event, i: nat, reason: BlockReason, f: Context)
    requires ConfigOk(cfg) && Inv(cfg, k) && Enabled(cfg, k, e) && Retrying(cfg, k, i, reason, f)
    requires i != k.sched.current
    ensures Retrying(cfg, Step(cfg, k, e), i, reason, f)
  {
    ContextPreserved(cfg, k, e, i);
    OthersWait(cfg, k, e, i);
    StepExplains(cfg, k, e);
    StepByHolder(cfg, k, e);
    var obs := Observe(cfg, k, e);
    if reason.Send? && obs.Sent? && obs.ch == reason.ch {
      OneSender(cfg, i, k.sched.current, reason.ch);
    } else if reason.Receive? && obs.Received? && obs.ch == reason.ch {
      OneReceiver(cfg, i, k.sched.current, reason.ch);
    }
  }

  /** An interrupt before the call is made leaves everything as it was. */
  lemma RetryingInterrupted(cfg: Config, k: State, e: Event, i: nat, reason: BlockReason, f: Context)
    requires ConfigOk(cfg) && Inv(cfg, k) && Enabled(cfg, k, e) && Retrying(cfg, k, i, reason, f)
    requires i == k.sched.current && !e.Ecall?
    ensures Retrying(cfg, Step(cfg, k, e), i, reason, f)
  {
    assert !e.User?;
    OwnContext(cfg, k, e);
    StepExplains(cfg, k, e);
    StepByHolder(cfg, k, e);
    if e.Timer? {
      EntryInv(cfg, k);
      HandleForm(cfg, k, e.hint);
      TimerTasks(cfg, TrapEntry(k), i, e.hint);
    }
  }

  /** The second time, a send goes through. */
  lemma SendCompletes(cfg: Config, k: State, ch: nat, hint: nat)
    requires ConfigOk(cfg) && Inv(cfg, k) && Enabled(cfg, k, Ecall(hint))
    requires SendPending(cfg, cfg.infos[k.sched.current], k.cpu, ch) && |k.chans[ch]| < CHANNEL_CAPACITY
    ensures var k' := Step(cfg, k, Ecall(hint));
            && Completes(Observe(cfg, k, Ecall(hint)), k.sched.current, Send(ch))
            && |k'.sched.tasks| == |k.sched.tasks| && Wait(k'.sched.tasks[k.sched.current]) == None
  {
    CallInv(cfg, k);
    EcallForm(cfg, k, hint);
    CallEntryForm(cfg, k);
    DispatchForms(cfg, CallEntry(cfg, k), hint);
    SentTasks(cfg, CallEntry(cfg, k), ch, k.sched.current, hint);
  }

  lemma ReceiveCompletes(cfg: Config, k: State, ch: nat, hint: nat)
    requires ConfigOk(cfg) && Inv(cfg, k) && Enabled(cfg, k, Ecall(hint))
    requires ReceivePending(cfg, cfg.infos[k.sched.current], k.cpu, ch) && k.chans[ch] != []
    ensures var k' := Step(cfg, k, Ecall(hint));
            && Completes(Observe(cfg, k, Ecall(hint)), k.sched.current, Receive(ch))
            && |k'.sched.tasks| == |k.sched.tasks| && Wait(k'.sched.tasks[k.sched.current]) == None
  {
    CallInv(cfg, k);
    EcallForm(cfg, k, hint);
    CallEntryForm(cfg, k);
    DispatchForms(cfg, CallEntry(cfg, k), hint);
    ReceivedTasks(cfg, CallEntry(cfg, k), ch, k.sched.current, hint);
  }

  /** A retried call transfers its message and does not block again. */
  lemma RetryCompletes(cfg: Config, k: State, e: Event, i: nat, reason: BlockReason, f: Context)
    requires ConfigOk(cfg) && Inv(cfg, k) && Enabled(cfg, k, e) && Retrying(cfg, k, i, reason, f)
    requires i == k.sched.current && e.Ecall?
    ensures var k' := Step(cfg, k, e);
            && Completes(Observe(cfg, k, e), i, reason)
            && |k'.sched.tasks| == |k.sched.tasks| && Wait(k'.sched.tasks[i]) == None
  {
    if reason.Send? {
      SendCompletes(cfg, k, reason.ch, e.hint);
    } else {
      ReceiveCompletes(cfg, k, reason.ch, e.hint);
    }
  }

  /** Blocked, or woken and not yet back at the call. */
  ghost predicate Unfinished(cfg: Config, k: State, i: nat, reason: BlockReason, f: Context) {
    Waiting(cfg, k, i, reason, f) || Retrying(cfg, k, i, reason, f)
  }

  lemma UnfinishedStep(cfg: Config, k: State, e: Event, i: nat, reason: BlockReason, f: Context)
    requires ConfigOk(cfg) && Inv(cfg, k) && Enabled(cfg, k, e) && Unfinished(cfg, k, i, reason, f)
    requires e.Ecall? ==> k.sched.current != i
    ensures Unfinished(cfg, Step(cfg, k, e), i, reason, f)
  {
    if Waiting(cfg, k, i, reason, f) {
      WaitingStep(cfg, k, e, i, reason, f);
    } else if i == k.sched.current {
      RetryingInterrupted(cfg, k, e, i, reason, f);
    } else {
      RetryingOthers(cfg, k, e, i, reason, f);
    }
  }

  // ---------------------------------------------------------------------
  // Runs
  // ---------------------------------------------------------------------

  /** Event `j` of the run is a system call by task `i`. */
  ghost predicate OwnCall(cfg: Config, k: State, es: seq<Event>, j: nat, i: nat)
    requires j < |es|
  {
    es[j].Ecall? && After(cfg, k, es[..j]).sched.current == i
  }

  /** Task `i` makes no system call during the run. */
  ghost predicate NoCall(cfg: Config, k: State, es: seq<Event>, i: nat) {
    forall j :: 0 <= j < |es| ==> !OwnCall(cfg, k, es, j, i)
  }

  lemma NoCallPrefix(cfg: Config, k: State, es: seq<Event>, i: nat)
    requires es != [] && NoCall(cfg, k, es, i)
    ensures NoCall(cfg, k, es[..|es| - 1], i) && !OwnCall(cfg, k, es, |es| - 1, i)
  {
    var p := es[..|es| - 1];
    forall j | 0 <= j < |p| ensures !OwnCall(cfg, k, p, j, i) {
      assert p[..j] == es[..j] && !OwnCall(cfg, k, es, j, i);
    }
  }

  /**
    From the moment a task blocks on a channel until it next makes a call, it
    stays at that call with its registers unchanged, first blocked, then with
    what it waited for reserved for it.
   */
  lemma {:induction false} BlockedUntilRetry(cfg: Config, k: State, es: seq<Event>, i: nat, reason: BlockReason, f: Context)
    requires ConfigOk(cfg) && Inv(cfg, k) && Possible(cfg, k, es) && Waiting(cfg, k, i, reason, f)
    requires NoCall(cfg, k, es, i)
    ensures Unfinished(cfg, After(cfg, k, es), i, reason, f)
  {
    if es != [] {
      var n := |es| - 1;
      var p := es[..n];
      var m, e := After(cfg, k, p), es[n];
      NoCallPrefix(cfg, k, es, i);
      BlockedUntilRetry(cfg, k, p, i, reason, f);
      RunKeeps(cfg, k, p);
      UnfinishedStep(cfg, m, e, i, reason, f);
    }
  }

  /** The next call the task makes is that same call, and it completes with exactly one transfer. */
  lemma RestartCompletesOnce(cfg: Config, k: State, es: seq<Event>, e: Event, i: nat, reason: BlockReason, f: Context)
    requires ConfigOk(cfg) && Inv(cfg, k) && Waiting(cfg, k, i, reason, f)
    requires Possible(cfg, k, es) && Enabled(cfg, After(cfg, k, es), e)
    requires NoCall(cfg, k, es, i)
    requires e.Ecall? && After(cfg, k, es).sched.current == i
    ensures var m := After(cfg, k, es);
            && m.cpu == f && Completes(Observe(cfg, m, e), i, reason)
            && |Step(cfg, m, e).sched.tasks| == |m.sched.tasks| && i < |m.sched.tasks|
            && !Step(cfg, m, e).sched.tasks[i].state.Blocked?
  {
    BlockedUntilRetry(cfg, k, es, i, reason, f);
    RunKeeps(cfg, k, es);
    var m := After(cfg, k, es);
    assert Wait(m.sched.tasks[i]) == None;
    RetryCompletes(cfg, m, e, i, reason, f);
  }
}
