/** The privilege mode each task runs in, and the context it starts with. */
module Privilege {
  import opened Words
  import opened Tasks
  import opened Channels
  import opened Scheduler
  import opened Kernel
  import opened Invariant
  import opened Runs
  import opened Effects

  /** The MPP field of a saved status word: 0 for U-mode, 3 for M-mode. */
  function Mpp(mstatus: u32): nat {
    (mstatus / 0x800) % 4
  }

  /** The MPIE bit: interrupts are on while the task runs. */
  function Mpie(mstatus: u32): nat {
    (mstatus / 0x80) % 2
  }

  /** The status word puts the task in its declared mode, with interrupts on. */
  predicate StatusOk(t: TaskInfo, mstatus: u32) {
    Mpp(mstatus) == (if t.mode.User? then 0 else 3) && Mpie(mstatus) == 1
  }

  ghost predicate Modes(cfg: Config, k: State) {
    forall i: nat :: i < |cfg.infos| ==> StatusOk(cfg.infos[i], ContextOf(cfg, k, i).mstatus)
  }

  /** A context no instruction of the task has run in. */
  predicate IsFirst(cfg: Config, t: TaskInfo, f: Context) {
    && f.pc == t.entry && StatusOk(t, f.mstatus)
    && f.regs[1] == cfg.exitTrap && f.regs[3] == cfg.gp
    && f.regs[2] == (if t.stackBase + t.stackSize < TWO32 then t.stackBase + t.stackSize else t.stackBase + t.stackSize - TWO32)
    && forall r :: 0 <= r < 32 && r != 1 && r != 2 && r != 3 ==> f.regs[r] == 0
  }

  lemma InitIsFirst(cfg: Config, t: TaskInfo)
    ensures IsFirst(cfg, t, InitContext(cfg, t)) == true
  {
    var sp := t.stackBase + t.stackSize;
    if sp < TWO32 { ModIs(sp, TWO32, 0, sp); } else { ModIs(sp, TWO32, 1, sp - TWO32); }
  }

  /** At boot every task has its first context, the one that starts to run included. */
  lemma BootContexts(cfg: Config, ram: seq<u8>, hint: nat, i: nat)
    requires ConfigOk(cfg) && i < |cfg.infos|
    ensures ContextOf(cfg, Boot(cfg, ram, hint), i) == InitContext(cfg, cfg.infos[i])
  {
    BootDecides(cfg);
    var tasks := BootTasks(cfg);
    var s0 := Sched(tasks, Filled(tasks, |tasks|), NO_TASK, 0, None, false);
    DispatchKeeps(s0, hint);
  }

  /** No step changes a task's status word. */
  lemma StepStatus(cfg: Config, k: State, e: Event, i: nat)
    requires ConfigOk(cfg) && Inv(cfg, k) && Enabled(cfg, k, e)
    ensures ContextOf(cfg, Step(cfg, k, e), i).mstatus == ContextOf(cfg, k, i).mstatus
  {
    if i != k.sched.current {
      ContextPreserved(cfg, k, e, i);
    } else if !e.User? {
      OwnContext(cfg, k, e);
    }
  }

  lemma StepModes(cfg: Config, k: State, e: Event)
    requires ConfigOk(cfg) && Inv(cfg, k) && Enabled(cfg, k, e) && Modes(cfg, k)
    ensures Modes(cfg, Step(cfg, k, e)) == true
  {
    forall i: nat | i < |cfg.infos| ensures StatusOk(cfg.infos[i], ContextOf(cfg, Step(cfg, k, e), i).mstatus) {
      StepStatus(cfg, k, e, i);
    }
  }

  lemma {:induction false} RunModes(cfg: Config, k: State, es: seq<Event>)
    requires ConfigOk(cfg) && Inv(cfg, k) && Possible(cfg, k, es) && Modes(cfg, k)
    ensures Modes(cfg, After(cfg, k, es)) == true
  {
    if es != [] {
      var n := |es| - 1;
      RunModes(cfg, k, es[..n]);
      RunKeeps(cfg, k, es[..n]);
      StepModes(cfg, After(cfg, k, es[..n]), es[n]);
    }
  }

  lemma BootModes(cfg: Config, ram: seq<u8>, hint: nat)
    requires ConfigOk(cfg)
    ensures Modes(cfg, Boot(cfg, ram, hint)) == true
  {
    forall i: nat | i < |cfg.infos| ensures StatusOk(cfg.infos[i], ContextOf(cfg, Boot(cfg, ram, hint), i).mstatus) {
      BootContexts(cfg, ram, hint, i);
      InitIsFirst(cfg, cfg.infos[i]);
    }
  }

  /** In every reachable state every task is in its declared mode, and interruptible. */
  lemma ModesAlways(cfg: Config, k: State)
    requires ConfigOk(cfg) && Reachable(cfg, k)
    ensures Modes(cfg, k) == true
  {
    var ram: seq<u8>, hint: nat, es: seq<Event> :|
      |ram| == TWO32 && Possible(cfg, Boot(cfg, ram, hint), es) && k == After(cfg, Boot(cfg, ram, hint), es);
    BootInv(cfg, ram, hint);
    BootModes(cfg, ram, hint);
    RunModes(cfg, Boot(cfg, ram, hint), es);
  }

  /** Task `i` does not run before the end of the run. */
  ghost predicate NotYetRun(cfg: Config, k: State, es: seq<Event>, i: nat) {
    es == [] ||
    (NotYetRun(cfg, k, es[..|es| - 1], i) && After(cfg, k, es[..|es| - 1]).sched.current != i)
  }

  lemma {:induction false} KeepsContext(cfg: Config, k: State, es: seq<Event>, i: nat)
    requires ConfigOk(cfg) && Inv(cfg, k) && Possible(cfg, k, es) && NotYetRun(cfg, k, es, i)
    ensures ContextOf(cfg, After(cfg, k, es), i) == ContextOf(cfg, k, i)
  {
    if es != [] {
      var n := |es| - 1;
      KeepsContext(cfg, k, es[..n], i);
      RunKeeps(cfg, k, es[..n]);
      ContextPreserved(cfg, After(cfg, k, es[..n]), es[n], i);
    }
  }

  /**
    Until a task first runs, and at the moment it does, its context is the
    first one: at its entry point, on its own stack, in its declared mode.
   */
  lemma FirstContext(cfg: Config, ram: seq<u8>, hint: nat, es: seq<Event>, i: nat)
    requires ConfigOk(cfg) && |ram| == TWO32 && Possible(cfg, Boot(cfg, ram, hint), es) && i < |cfg.infos|
    requires NotYetRun(cfg, Boot(cfg, ram, hint), es, i)
    ensures IsFirst(cfg, cfg.infos[i], ContextOf(cfg, After(cfg, Boot(cfg, ram, hint), es), i)) == true
  {
    BootInv(cfg, ram, hint);
    KeepsContext(cfg, Boot(cfg, ram, hint), es, i);
    BootContexts(cfg, ram, hint, i);
    InitIsFirst(cfg, cfg.infos[i]);
  }

  /** Boot leaves every task able to run, every channel empty, and time at zero. */
  lemma BootIsFresh(cfg: Config, ram: seq<u8>, hint: nat)
    requires ConfigOk(cfg)
    ensures var k := Boot(cfg, ram, hint);
            && k.ticks == 0 && k.sched.quantum == 0 && k.ram == ram && (forall ch :: 0 <= ch < MAX_CHANNELS ==> k.chans[ch] == [])
            && |k.sched.tasks| == |cfg.infos|
            && (forall i :: 0 <= i < |cfg.infos| ==> Runnable(k.sched.tasks[i]))
            && (forall i :: Queued(k.sched.ready, i) ==> k.sched.ready.slots[i].value.birth == i)
  {
    BootDecides(cfg);
    var tasks := BootTasks(cfg);
    FillKeeps(tasks, |tasks|);
    var s0 := Sched(tasks, Filled(tasks, |tasks|), NO_TASK, 0, None, false);
    DispatchKeeps(s0, hint);
  }
}
