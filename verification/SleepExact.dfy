/** How long `sleep` sleeps, across wraparound of the tick counter. */
module SleepExact {
  import opened Words
  import opened Tasks
  import opened Scheduler
  import opened Kernel
  import opened Invariant
  import opened Runs
  import opened Effects

  /** The longest sleep that is not cut short. */
  const LONGEST: int := TWO31 + 1

  /** Number of timer interrupts. */
  function Ticks(es: seq<Event>): nat {
    if es == [] then 0 else Ticks(es[..|es| - 1]) + if es[|es| - 1].Timer? then 1 else 0
  }

  /** Task `i` sleeps until the tick counter reads `wakeAt`. */
  ghost predicate Asleep(k: State, i: nat, wakeAt: u32) {
    i < |k.sched.tasks| && Wait(k.sched.tasks[i]) == Some(Sleep) && k.sched.tasks[i].wakeAt == wakeAt
  }

  /**
    `j` ticks into a sleep of `d`, the wrapping comparison says "reached" exactly
    at the end, or when more than 2^31 ticks are still to go.
   */
  lemma ReachedExactly(start: u32, d: int, j: int)
    requires 1 <= j <= d < TWO32
    ensures TickReached(WrapAdd(start, j), WrapAdd(start, d)) <==> j == d || d - j > TWO31
  {
    WrapSubOfMod(start + j, start + d);
    if j == d {
      ModIs(0, TWO32, 0, 0);
    } else {
      ModIs(j - d, TWO32, -1, TWO32 - (d - j));
    }
  }

  /** The same, for the tick that the j-th timer interrupt computes. */
  lemma ReachedNext(start: u32, d: int, j: nat)
    requires j < d < TWO32
    ensures TickReached(WrapAdd(WrapAdd(start, j), 1), WrapAdd(start, d)) <==> j + 1 == d || d - (j + 1) > TWO31
  {
    WrapAddOfMod(start + j, 1);
    ReachedExactly(start, d, j + 1);
  }

  lemma StepTicks(cfg: Config, k: State, e: Event)
    ensures Step(cfg, k, e).ticks == if e.Timer? then WrapAdd(k.ticks, 1) else k.ticks
  {
  }

  lemma NextTick(start: u32, n: nat)
    ensures WrapAdd(WrapAdd(start, n), 1) == WrapAdd(start, n + 1) && WrapAdd(start, 0) == start
  {
    WrapAddOfMod(start + n, 1);
  }

  lemma {:induction false} RunTicks(cfg: Config, k: State, es: seq<Event>)
    ensures After(cfg, k, es).ticks == WrapAdd(k.ticks, Ticks(es))
  {
    if es == [] {
      NextTick(k.ticks, 0);
    } else {
      var n := |es| - 1;
      RunTicks(cfg, k, es[..n]);
      StepTicks(cfg, After(cfg, k, es[..n]), es[n]);
      NextTick(k.ticks, Ticks(es[..n]));
    }
  }

  /** One step of a sleeper: only a timer interrupt at which its tick has been reached wakes it. */
  lemma AsleepStep(cfg: Config, k: State, e: Event, i: nat, wakeAt: u32)
    requires ConfigOk(cfg) && Inv(cfg, k) && Enabled(cfg, k, e) && Asleep(k, i, wakeAt)
    ensures var k' := Step(cfg, k, e);
            && |k'.sched.tasks| == |k.sched.tasks|
            && (if e.Timer? && TickReached(WrapAdd(k.ticks, 1), wakeAt) then Wait(k'.sched.tasks[i]) == None
                else Asleep(k', i, wakeAt))
  {
    OthersWait(cfg, k, e, i);
  }

  /** Outside the last tick, a sleep that is not too long goes on. */
  lemma AsleepGoesOn(cfg: Config, k: State, start: u32, seen: nat, d: int, e: Event, i: nat)
    requires ConfigOk(cfg) && Inv(cfg, k) && Enabled(cfg, k, e)
    requires 1 <= d <= LONGEST && k.ticks == WrapAdd(start, seen) && Asleep(k, i, WrapAdd(start, d))
    requires seen + (if e.Timer? then 1 else 0) < d
    ensures Asleep(Step(cfg, k, e), i, WrapAdd(start, d))
  {
    AsleepStep(cfg, k, e, i, WrapAdd(start, d));
    ReachedNext(start, d, seen);
  }

  /** A sleep of at most 2^31 + 1 ticks lasts through every run with fewer timer interrupts. */
  lemma {:induction false} NotWokenEarly(cfg: Config, k: State, es: seq<Event>, i: nat, d: int)
    requires ConfigOk(cfg) && Inv(cfg, k) && Possible(cfg, k, es)
    requires 1 <= d <= LONGEST && Asleep(k, i, WrapAdd(k.ticks, d)) && Ticks(es) < d
    ensures Asleep(After(cfg, k, es), i, WrapAdd(k.ticks, d))
  {
    if es != [] {
      var n := |es| - 1;
      NotWokenEarly(cfg, k, es[..n], i, d);
      RunKeeps(cfg, k, es[..n]);
      RunTicks(cfg, k, es[..n]);
      AsleepGoesOn(cfg, After(cfg, k, es[..n]), k.ticks, Ticks(es[..n]), d, es[n], i);
    }
  }

  /** The last tick wakes the sleeper. */
  lemma LastTick(start: u32, d: int)
    requires 1 <= d < TWO32
    ensures TickReached(WrapAdd(WrapAdd(start, d - 1), 1), WrapAdd(start, d)) == true
  {
    ReachedNext(start, d, d - 1);
  }

  lemma AsleepEnds(cfg: Config, k: State, start: u32, d: int, hint: nat, i: nat)
    requires ConfigOk(cfg) && Inv(cfg, k)
    requires 1 <= d <= LONGEST && k.ticks == WrapAdd(start, d - 1) && Asleep(k, i, WrapAdd(start, d))
    ensures var k' := Step(cfg, k, Timer(hint));
            |k'.sched.tasks| == |k.sched.tasks| && Wait(k'.sched.tasks[i]) == None
  {
    LastTick(start, d);
    AsleepStep(cfg, k, Timer(hint), i, WrapAdd(start, d));
  }

  /** ... and ends with the d-th timer interrupt. */
  lemma WokenOnTime(cfg: Config, k: State, es: seq<Event>, hint: nat, i: nat, d: int)
    requires ConfigOk(cfg) && Inv(cfg, k) && Possible(cfg, k, es)
    requires 1 <= d <= LONGEST && Asleep(k, i, WrapAdd(k.ticks, d)) && Ticks(es) == d - 1
    ensures var k' := Step(cfg, After(cfg, k, es), Timer(hint));
            i < |k'.sched.tasks| && Runnable(k'.sched.tasks[i])
  {
    NotWokenEarly(cfg, k, es, i, d);
    RunKeeps(cfg, k, es);
    RunTicks(cfg, k, es);
    AsleepEnds(cfg, After(cfg, k, es), k.ticks, d, hint, i);
    RunnableAfter(cfg, After(cfg, k, es), Timer(hint), i);
  }

  /** A longer sleep is cut short: the very first timer interrupt ends it. */
  lemma TooLongIsTooShort(cfg: Config, k: State, hint: nat, i: nat, d: int)
    requires ConfigOk(cfg) && Inv(cfg, k)
    requires LONGEST < d < TWO32 && Asleep(k, i, WrapAdd(k.ticks, d))
    ensures var k' := Step(cfg, k, Timer(hint));
            |k'.sched.tasks| == |k.sched.tasks| && Wait(k'.sched.tasks[i]) == None
  {
    AsleepStep(cfg, k, Timer(hint), i, WrapAdd(k.ticks, d));
    ReachedExactly(k.ticks, d, 1);
  }

  /** The scheduler after the running task's call to sleep. */
  ghost function AfterSleep(k: State, ticks: u32, hint: nat): Sched {
    SleepCurrent(k.sched, k.ticks, ticks, hint)
  }

  lemma SleepForm(cfg: Config, k: State, hint: nat)
    requires Core(cfg, k) && Calling(cfg, k, SYS_SLEEP)
    ensures var a := FrameAddr(cfg, k.sched.current);
            var s' := AfterSleep(k, Load(k.frames, a).regs[REG_A0], hint);
            Dispatch(cfg, k, a, hint) == Outcome(Ret(k, a, 0).(sched := s'), FrameOf(s'), Quiet)
  {
    SaveIsIdentity(cfg, k.sched);
  }

  /** The call itself: `a0` ticks, but at least one; it returns 0 when the sleep is over. */
  lemma SleepCall(cfg: Config, k: State, hint: nat)
    requires ConfigOk(cfg) && Inv(cfg, k) && Enabled(cfg, k, Ecall(hint)) && k.cpu.regs[REG_A7] == SYS_SLEEP
    ensures var k', d := Step(cfg, k, Ecall(hint)), (if k.cpu.regs[REG_A0] == 0 then 1 else k.cpu.regs[REG_A0]);
            && Asleep(k', k.sched.current, WrapAdd(k.ticks, d)) && k'.sched.current != k.sched.current
            && k'.ticks == k.ticks && k'.chans == k.chans && k'.ram == k.ram
            && ContextOf(cfg, k', k.sched.current) == ReturnedWith(k.cpu, 0)
  {
    CallInv(cfg, k);
    CallEntryForm(cfg, k);
    SleepForm(cfg, CallEntry(cfg, k), hint);
    var ticks := k.cpu.regs[REG_A0];
    ReturnsZero(cfg, k, hint, AfterSleep(k, ticks, hint));
    BlockEffect(k.sched, Sleep, WrapAdd(k.ticks, Max(ticks, 1)), hint);
  }
}
