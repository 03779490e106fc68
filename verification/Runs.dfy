/** The boot state, and what holds along every run from it. */
module Runs {
  import opened Words
  import opened Tasks
  import opened Channels
  import opened Scheduler
  import opened Kernel
  import opened Invariant

  // ---------------------------------------------------------------------
  // Boot
  // ---------------------------------------------------------------------

  const MSTATUS_MPIE: nat := 0x80
  const MSTATUS_MPP_MACHINE: nat := 0x1800

  /** Registered tasks start ready, with a frame prepared on their kernel stack. */
  function BootTasks(cfg: Config): (tasks: seq<Task>)
    ensures |tasks| == |cfg.infos|
    ensures forall i :: 0 <= i < |tasks| ==> tasks[i] == Task(cfg.infos[i], Ready, NotBlocked, 0, FrameAddr(cfg, i))
  {
    seq(|cfg.infos|, i requires 0 <= i < |cfg.infos| => Task(cfg.infos[i], Ready, NotBlocked, 0, FrameAddr(cfg, i)))
  }

  /** `init_frame`: the first context of a task. */
  function InitContext(cfg: Config, t: TaskInfo): Context {
    var regs: RegFile := seq(32, _ => 0);
    Context(
      regs[REG_RA := cfg.exitTrap][REG_SP := WrapAdd(t.stackBase, t.stackSize)][REG_GP := cfg.gp],
      t.entry,
      MSTATUS_MPIE + if t.mode.Machine? then MSTATUS_MPP_MACHINE else 0)
  }

  /** `prepare_frames`, for the first `n` slots. */
  function BootFrames(cfg: Config, n: nat): (frames: map<int, Context>)
    requires n <= |cfg.infos|
    ensures forall i :: 0 <= i < n ==> Load(frames, FrameAddr(cfg, i)) == InitContext(cfg, cfg.infos[i])
  {
    if n == 0 then map[]
    else BootFrames(cfg, n - 1)[FrameAddr(cfg, n - 1) := InitContext(cfg, cfg.infos[n - 1])]
  }

  ghost function BootSched(cfg: Config, hint: nat): Sched {
    var tasks := BootTasks(cfg);
    DispatchNext(Sched(tasks, Filled(tasks, |tasks|), NO_TASK, 0, None, false), hint)
  }

  /** The state in which the first task starts; `ram` is whatever memory holds. */
  ghost function Boot(cfg: Config, ram: seq<u8>, hint: nat): State {
    var s := BootSched(cfg, hint);
    var frames := BootFrames(cfg, |cfg.infos|);
    var chans: Chans := seq(MAX_CHANNELS, _ => []);
    TrapExit(Outcome(State(s, chans, frames, Context(seq(32, _ => 0), 0, 0), 0, ram, 0), FrameOf(s), Quiet))
  }

  /** The first `n` slots are queued in slot order. */
  ghost predicate FilledOk(tasks: seq<Task>, n: nat, q: Queue)
    requires n <= |tasks|
  {
    && |q.slots| == |tasks| && q.births == n && q.fifo
    && (forall i :: 0 <= i < n ==> q.slots[i] == Some(Key(Eff(tasks[i]), i)))
    && (forall i :: n <= i < |tasks| ==> q.slots[i] == None)
  }

  lemma {:induction false} FillKeeps(tasks: seq<Task>, n: nat)
    requires n <= |tasks| <= MAX_TASKS && forall i :: 0 <= i < |tasks| ==> tasks[i].state.Ready?
    ensures FilledOk(tasks, n, Filled(tasks, n))
  {
    if n > 0 {
      FillKeeps(tasks, n - 1);
      var q := Filled(tasks, n);
      assert forall i :: Queued(q, i) ==> 0 <= q.slots[i].value.birth < MAX_TASKS;
    }
  }

  lemma BootDecides(cfg: Config)
    requires ConfigOk(cfg)
    ensures var tasks := BootTasks(cfg);
            Deciding(Sched(tasks, Filled(tasks, |tasks|), NO_TASK, 0, None, false))
  {
    var tasks := BootTasks(cfg);
    FillKeeps(tasks, |tasks|);
    assert QueueOk(tasks, Filled(tasks, |tasks|));
  }

  lemma BootWaits(cfg: Config, tasks: seq<Task>, frames: map<int, Context>, chans: Chans)
    requires SameTasks(BootTasks(cfg), tasks)
    ensures Placed(cfg, tasks) && Waits(cfg, tasks, frames, chans)
  {
    forall i | 0 <= i < |tasks|
      ensures tasks[i].info == cfg.infos[i] && tasks[i].framePtr == FrameAddr(cfg, i) && Wait(tasks[i]).None?
    {
      assert SameTask(BootTasks(cfg)[i], tasks[i]);
    }
  }

  /** The boot sequence ends in a state that satisfies the invariant. */
  lemma BootInv(cfg: Config, ram: seq<u8>, hint: nat)
    requires ConfigOk(cfg) && |ram| == TWO32
    ensures Inv(cfg, Boot(cfg, ram, hint))
  {
    BootDecides(cfg);
    var s0 := Sched(BootTasks(cfg), Filled(BootTasks(cfg), |cfg.infos|), NO_TASK, 0, None, false);
    DispatchKeeps(s0, hint);
    DispatchSame(s0, hint);
    BootWaits(cfg, BootSched(cfg, hint).tasks, BootFrames(cfg, |cfg.infos|), seq(MAX_CHANNELS, _ => []));
  }

  // ---------------------------------------------------------------------
  // Runs
  // ---------------------------------------------------------------------

  /** The state after a sequence of events. */
  ghost function After(cfg: Config, k: State, es: seq<Event>): State {
    if es == [] then k else Step(cfg, After(cfg, k, es[..|es| - 1]), es[|es| - 1])
  }

  /** Every event could happen when it did. */
  ghost predicate Possible(cfg: Config, k: State, es: seq<Event>) {
    es == [] ||
    (Possible(cfg, k, es[..|es| - 1]) && Enabled(cfg, After(cfg, k, es[..|es| - 1]), es[|es| - 1]))
  }

  /** The invariant holds along every run from a state that has it. */
  lemma {:induction false} RunKeeps(cfg: Config, k: State, es: seq<Event>)
    requires ConfigOk(cfg) && Inv(cfg, k) && Possible(cfg, k, es)
    ensures Inv(cfg, After(cfg, k, es))
  {
    if es != [] {
      RunKeeps(cfg, k, es[..|es| - 1]);
      StepKeeps(cfg, After(cfg, k, es[..|es| - 1]), es[|es| - 1]);
    }
  }

  lemma Splits(es: seq<Event>, p: nat)
    requires p < |es|
    ensures es[..p + 1] == es[..p] + [es[p]]
  {
  }

  lemma Cuts(es: seq<Event>, n: nat)
    requires n <= |es|
    ensures if n == |es| then es[..n] == es
            else es == es[..|es| - 1] + [es[|es| - 1]] && es[..|es| - 1][..n] == es[..n]
  {
  }

  lemma PossibleInit(cfg: Config, k: State, es: seq<Event>, p: seq<Event>, e: Event)
    requires es == p + [e] && Possible(cfg, k, es) == true
    ensures Possible(cfg, k, p) == true && Enabled(cfg, After(cfg, k, p), e) == true
  {
    assert es[..|es| - 1] == p;
  }

  lemma {:induction false} PossiblePrefix(cfg: Config, k: State, es: seq<Event>, n: nat)
    requires Possible(cfg, k, es) == true && n <= |es|
    ensures Possible(cfg, k, es[..n]) == true
    decreases |es|
  {
    Cuts(es, n);
    if n < |es| {
      PossibleInit(cfg, k, es, es[..|es| - 1], es[|es| - 1]);
      PossiblePrefix(cfg, k, es[..|es| - 1], n);
    }
  }

  /** Every event of a run could happen when it did. */
  lemma MomentEnabled(cfg: Config, k: State, es: seq<Event>, p: nat)
    requires Possible(cfg, k, es) == true && p < |es|
    ensures Possible(cfg, k, es[..p]) == true && Enabled(cfg, After(cfg, k, es[..p]), es[p]) == true
  {
    PossiblePrefix(cfg, k, es, p + 1);
    Splits(es, p);
    PossibleInit(cfg, k, es[..p + 1], es[..p], es[p]);
  }

  /** And in a state that has the invariant. */
  lemma MomentInv(cfg: Config, k: State, es: seq<Event>, p: nat)
    requires ConfigOk(cfg) == true && Inv(cfg, k) == true && Possible(cfg, k, es) == true && p < |es|
    ensures Inv(cfg, After(cfg, k, es[..p])) == true
  {
    MomentEnabled(cfg, k, es, p);
    RunKeeps(cfg, k, es[..p]);
  }

  lemma AfterStep(cfg: Config, k: State, es: seq<Event>, q: nat)
    requires q < |es|
    ensures After(cfg, k, es[..q + 1]) == Step(cfg, After(cfg, k, es[..q]), es[q])
  {
    Splits(es, q);
  }

  /** A state some run from boot leads to. */
  ghost predicate Reachable(cfg: Config, k: State) {
    exists ram: seq<u8>, hint: nat, es: seq<Event> ::
      |ram| == TWO32 && Possible(cfg, Boot(cfg, ram, hint), es) && k == After(cfg, Boot(cfg, ram, hint), es)
  }

  /** Whatever a possible step leads to from a reachable state is reachable. */
  lemma ReachableStep(cfg: Config, k: State, e: Event)
    requires Reachable(cfg, k) && Enabled(cfg, k, e)
    ensures Reachable(cfg, Step(cfg, k, e))
  {
    var ram: seq<u8>, hint: nat, es: seq<Event> :|
      |ram| == TWO32 && Possible(cfg, Boot(cfg, ram, hint), es) && k == After(cfg, Boot(cfg, ram, hint), es);
    var longer := es + [e];
    assert longer[..|longer| - 1] == es;
    assert Possible(cfg, Boot(cfg, ram, hint), longer);
    assert Step(cfg, k, e) == After(cfg, Boot(cfg, ram, hint), longer);
  }

  lemma BootReachable(cfg: Config, ram: seq<u8>, hint: nat)
    requires |ram| == TWO32
    ensures Reachable(cfg, Boot(cfg, ram, hint))
  {
    assert Possible(cfg, Boot(cfg, ram, hint), []) && After(cfg, Boot(cfg, ram, hint), []) == Boot(cfg, ram, hint);
  }

  lemma ReachableInv(cfg: Config, k: State)
    requires ConfigOk(cfg) && Reachable(cfg, k)
    ensures Inv(cfg, k)
  {
    var ram: seq<u8>, hint: nat, es: seq<Event> :|
      |ram| == TWO32 && Possible(cfg, Boot(cfg, ram, hint), es) && k == After(cfg, Boot(cfg, ram, hint), es);
    BootInv(cfg, ram, hint);
    RunKeeps(cfg, Boot(cfg, ram, hint), es);
  }
}
