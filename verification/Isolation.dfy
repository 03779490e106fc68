/** Memory isolation: what the protection registers, the buffer checks and the layout give together. */
module Isolation {
  import opened Words
  import opened Tasks
  import opened Channels
  import opened Scheduler
  import opened Kernel
  import opened Invariant
  import opened Runs
  import opened Effects
  import opened Transfers
  import opened Privilege
  import opened Restart
  import Pmp

  /** Memory that belongs to a task: its region and its stack. */
  predicate Private(t: TaskInfo, x: int) {
    t.memStart <= x < t.memEnd || t.stackBase <= x < t.stackBase + t.stackSize
  }

  predicate InKernelStacks(cfg: Config, x: int) {
    cfg.kernelStacks <= x < cfg.kernelStacks + MAX_TASKS * KERNEL_STACK_SIZE
  }

  /** Regions and stacks of different tasks are disjoint, and disjoint from the kernel stacks. */
  ghost predicate LayoutOk(cfg: Config) {
    && (forall i :: 0 <= i < |cfg.infos| ==> Pmp.Aligned(cfg.infos[i]))
    && (forall i, j, x :: 0 <= i < |cfg.infos| && 0 <= j < |cfg.infos| && i != j ==>
          !(Private(cfg.infos[i], x) && Private(cfg.infos[j], x)))
    && (forall i, x :: 0 <= i < |cfg.infos| && Private(cfg.infos[i], x) ==> !InKernelStacks(cfg, x))
  }

  /** The protection registers in a state, after a boot that left `r0`. */
  function Registers(r0: Pmp.Regs, s: Sched): Pmp.Regs {
    Pmp.Programmed(r0, s.active)
  }

  /** The hart runs in U-mode: the mode it will return to after the next trap. */
  predicate InUserMode(k: State) {
    Mpp(k.cpu.mstatus) == 0
  }

  /** In U-mode the hardware decides what can be stored to; the kernel's own idle task, in M-mode, keeps to its stack. */
  predicate MayStore(r0: Pmp.Regs, k: State, x: nat) {
    k.sched.current < |k.sched.tasks| &&
    var t := k.sched.tasks[k.sched.current].info;
    if InUserMode(k) then Pmp.UserMayWrite(Registers(r0, k.sched), x) else t.stackBase <= x < t.stackBase + t.stackSize
  }

  /** Between traps memory changes only where the running task may store. */
  ghost predicate Protected(r0: Pmp.Regs, k: State, e: Event) {
    e.User? ==> |e.ram| == |k.ram| && forall x :: 0 <= x < |k.ram| && e.ram[x] != k.ram[x] ==> MayStore(r0, k, x)
  }

  /** Whenever a task runs, entries 1 and 2 match exactly its region. */
  lemma ProtectionTracksRunning(cfg: Config, r0: Pmp.Regs, k: State, x: nat)
    requires ConfigOk(cfg) && LayoutOk(cfg) && Reachable(cfg, k)
    ensures k.sched.current < |cfg.infos|
    ensures Pmp.TaskEntriesMatch(Registers(r0, k.sched), x) <==> Pmp.InRegion(cfg.infos[k.sched.current], x)
  {
    ReachableInv(cfg, k);
    Pmp.ActivatedMatches(r0, cfg.infos[k.sched.current], x);
  }

  /** A store the hardware allows goes to the running task's own memory. */
  lemma StoresAreOwn(cfg: Config, r0: Pmp.Regs, k: State, x: nat)
    requires LayoutOk(cfg) && Inv(cfg, k) && Modes(cfg, k) && Pmp.FlashOnly(r0) && MayStore(r0, k, x)
    ensures Private(cfg.infos[k.sched.current], x)
  {
    var t := cfg.infos[k.sched.current];
    assert StatusOk(t, ContextOf(cfg, k, k.sched.current).mstatus);
    Pmp.ActivatedWrites(r0, t, x);
  }

  /** A checked buffer is private to its owner, byte by byte. */
  lemma BufferIsPrivate(t: TaskInfo, ptr: u32, cap: u32, x: int)
    requires BufferReadable(ptr, cap, WritableRanges(t)) && ptr <= x < ptr + cap
    ensures Private(t, x)
  {
    var r :| r in WritableRanges(t) && r.0 <= ptr && ptr + cap <= r.1;
  }

  lemma WriteOnlyThere(ram: seq<u8>, ptr: nat, bytes: seq<u8>, x: nat)
    requires ptr + |bytes| <= |ram| && x < |ram| && !(ptr <= x < ptr + |bytes|)
    ensures |Write(ram, ptr, bytes)| == |ram| && Write(ram, ptr, bytes)[x] == ram[x]
  {
  }

  lemma ReceiveIsChecked(cfg: Config, k: State, hint: nat)
    requires Placed(cfg, k.sched.tasks) && ReceiveOutcome(cfg, k, hint).obs.Received?
    ensures var r := Load(k.frames, FrameAddr(cfg, k.sched.current)).regs;
            k.sched.current < |cfg.infos| && BufferReadable(r[REG_A1], r[REG_A2], WritableRanges(cfg.infos[k.sched.current])) == true
  {
  }

  /** A receive that goes through had its buffer checked against the caller's own memory. */
  lemma ReceivedIsChecked(cfg: Config, k: State, hint: nat)
    requires Inv(cfg, k) && Observe(cfg, k, Ecall(hint)).Received?
    ensures k.sched.current < |cfg.infos|
    ensures BufferReadable(k.cpu.regs[REG_A1], k.cpu.regs[REG_A2], WritableRanges(cfg.infos[k.sched.current])) == true
  {
    EntryInv(cfg, k);
    EcallForm(cfg, k, hint);
    CallEntryForm(cfg, k);
    DispatchForms(cfg, CallEntry(cfg, k), hint);
    ReceiveIsChecked(cfg, CallEntry(cfg, k), hint);
  }

  /** A system call changes memory only in the caller's own. */
  lemma CallStoresAreOwn(cfg: Config, k: State, hint: nat, x: nat)
    requires ConfigOk(cfg) && Inv(cfg, k) && Enabled(cfg, k, Ecall(hint)) && x < |k.ram|
    ensures |Step(cfg, k, Ecall(hint)).ram| == |k.ram|
    ensures Step(cfg, k, Ecall(hint)).ram[x] != k.ram[x] ==> Private(cfg.infos[k.sched.current], x)
  {
    CallTransfers(cfg, k, hint);
    var obs, r := Observe(cfg, k, Ecall(hint)), k.cpu.regs;
    if obs.Received? {
      var bytes := Truncated(obs.msg, r[REG_A2]);
      if r[REG_A1] <= x < r[REG_A1] + |bytes| {
        ReceivedIsChecked(cfg, k, hint);
        BufferIsPrivate(cfg.infos[k.sched.current], r[REG_A1], r[REG_A2], x);
      } else {
        WriteOnlyThere(k.ram, r[REG_A1], bytes, x);
      }
    }
  }

  /** No step changes any byte outside the running task's own memory. */
  lemma StepStoresAreOwn(cfg: Config, r0: Pmp.Regs, k: State, e: Event, x: nat)
    requires ConfigOk(cfg) && LayoutOk(cfg) && Pmp.FlashOnly(r0) && Inv(cfg, k) && Modes(cfg, k) && Enabled(cfg, k, e) && Protected(r0, k, e)
    requires x < |k.ram|
    ensures |Step(cfg, k, e).ram| == |k.ram|
    ensures Step(cfg, k, e).ram[x] != k.ram[x] ==> Private(cfg.infos[k.sched.current], x)
  {
    match e {
      case User(_, ram) => if ram[x] != k.ram[x] { StoresAreOwn(cfg, r0, k, x); }
      case Ecall(hint) => CallStoresAreOwn(cfg, k, hint, x);
      case Timer(hint) => TimerKeepsRam(cfg, k, hint);
      case OtherInterrupt =>
    }
  }

  lemma TimerKeepsRam(cfg: Config, k: State, hint: nat)
    ensures Step(cfg, k, Timer(hint)).ram == k.ram
  {
  }

  /** Hence neither another task's memory nor any saved frame changes. */
  lemma StepIsolates(cfg: Config, r0: Pmp.Regs, k: State, e: Event, i: nat, x: nat)
    requires ConfigOk(cfg) && LayoutOk(cfg) && Pmp.FlashOnly(r0) && Inv(cfg, k) && Modes(cfg, k) && Enabled(cfg, k, e) && Protected(r0, k, e)
    requires i < |cfg.infos| && i != k.sched.current && x < |k.ram|
    requires Private(cfg.infos[i], x) || InKernelStacks(cfg, x)
    ensures |Step(cfg, k, e).ram| == |k.ram| && Step(cfg, k, e).ram[x] == k.ram[x]
  {
    StepStoresAreOwn(cfg, r0, k, e, x);
  }

  // ---------------------------------------------------------------------
  // Runs
  // ---------------------------------------------------------------------

  /** Every event respects the protection registers of its moment, and `i` never runs. */
  ghost predicate SwitchedOut(cfg: Config, r0: Pmp.Regs, k: State, es: seq<Event>, i: nat) {
    es == [] ||
    var n := |es| - 1;
    var m := After(cfg, k, es[..n]);
    SwitchedOut(cfg, r0, k, es[..n], i) && Protected(r0, m, es[n]) && m.sched.current != i
  }

  /**
    While a task is switched out, however long and whatever the others do, its
    registers and its memory stay exactly as they were.
   */
  lemma {:induction false} SwitchedOutIsUntouched(cfg: Config, r0: Pmp.Regs, k: State, es: seq<Event>, i: nat, x: nat)
    requires ConfigOk(cfg) && LayoutOk(cfg) && Pmp.FlashOnly(r0) && Inv(cfg, k) && Modes(cfg, k) && Possible(cfg, k, es)
    requires i < |cfg.infos| && SwitchedOut(cfg, r0, k, es, i)
    ensures ContextOf(cfg, After(cfg, k, es), i) == ContextOf(cfg, k, i)
    ensures |After(cfg, k, es).ram| == |k.ram|
    ensures x < |k.ram| && Private(cfg.infos[i], x) ==> After(cfg, k, es).ram[x] == k.ram[x]
  {
    if es != [] {
      var n := |es| - 1;
      var m := After(cfg, k, es[..n]);
      SwitchedOutIsUntouched(cfg, r0, k, es[..n], i, x);
      RunKeeps(cfg, k, es[..n]);
      RunModes(cfg, k, es[..n]);
      ContextPreserved(cfg, m, es[n], i);
      StepStoresAreOwn(cfg, r0, m, es[n], 0);
      if x < |k.ram| && Private(cfg.infos[i], x) {
        StepIsolates(cfg, r0, m, es[n], i, x);
      }
    }
  }

  /** Every event respects the protection registers of its moment. */
  ghost predicate AllProtected(cfg: Config, r0: Pmp.Regs, k: State, es: seq<Event>) {
    es == [] ||
    var n := |es| - 1;
    AllProtected(cfg, r0, k, es[..n]) && Protected(r0, After(cfg, k, es[..n]), es[n])
  }

  /** No store of a task, and no copy a system call makes, ever goes to where the frames are. */
  lemma {:induction false} KernelStacksUntouched(cfg: Config, r0: Pmp.Regs, k: State, es: seq<Event>, x: nat)
    requires ConfigOk(cfg) && LayoutOk(cfg) && Pmp.FlashOnly(r0) && Inv(cfg, k) && Modes(cfg, k) && Possible(cfg, k, es)
    requires AllProtected(cfg, r0, k, es) && x < |k.ram| && InKernelStacks(cfg, x)
    ensures |After(cfg, k, es).ram| == |k.ram| && After(cfg, k, es).ram[x] == k.ram[x]
  {
    if es != [] {
      var n := |es| - 1;
      KernelStacksUntouched(cfg, r0, k, es[..n], x);
      RunKeeps(cfg, k, es[..n]);
      RunModes(cfg, k, es[..n]);
      StepStoresAreOwn(cfg, r0, After(cfg, k, es[..n]), es[n], x);
    }
  }

  /** Trap entry always lands on the running task's own kernel stack, and every frame on its owner's. */
  lemma FramesAreInPlace(cfg: Config, k: State, i: nat)
    requires ConfigOk(cfg) && Reachable(cfg, k) && i < |k.sched.tasks|
    ensures k.mscratch == StackTop(cfg, k.sched.current)
    ensures k.sched.tasks[i].framePtr == StackTop(cfg, i) - TRAP_FRAME_SIZE
    ensures cfg.kernelStacks + i * KERNEL_STACK_SIZE <= k.sched.tasks[i].framePtr
    ensures k.sched.tasks[i].framePtr + TRAP_FRAME_SIZE <= cfg.kernelStacks + (i + 1) * KERNEL_STACK_SIZE
  {
    ReachableInv(cfg, k);
  }
}
