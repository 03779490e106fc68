/** What the scheduler guarantees in every reachable state. */
module CaPip {
  import opened Words
  import opened Tasks
  import opened Scheduler
  import opened Kernel
  import opened Invariant
  import opened Runs
  import Graph
  import Ccg
  import Mip

  /**
    The queue holds exactly the ready tasks under their effective priorities,
    exactly the current task runs, and the kernel has not halted for want of one.
   */
  lemma SchedulerIsConsistent(cfg: Config, k: State)
    requires ConfigOk(cfg) && Reachable(cfg, k)
    ensures !k.sched.halted && k.sched.current < |k.sched.tasks| == |cfg.infos| == |k.sched.ready.slots|
    ensures forall i :: 0 <= i < |cfg.infos| ==>
              && (k.sched.tasks[i].state.Running? <==> i == k.sched.current)
              && (k.sched.ready.slots[i].Some? <==> k.sched.tasks[i].state.Ready?)
              && (k.sched.ready.slots[i].Some? ==> k.sched.ready.slots[i].value.prio == EffectivePriority(cfg.infos[i]))
  {
    ReachableInv(cfg, k);
    forall i | 0 <= i < |cfg.infos|
      ensures KeyOk(k.sched.tasks[i], k.sched.ready.slots[i], k.sched.ready.births) && k.sched.tasks[i].info == cfg.infos[i]
    {
    }
  }

  lemma OneTaskPerInfo(cfg: Config, k: State)
    requires ConfigOk(cfg) && Reachable(cfg, k)
    ensures k.sched.current < |cfg.infos| == |k.sched.tasks|
  {
    ReachableInv(cfg, k);
  }

  /** Whenever a task runs, no ready task has a higher effective priority. */
  lemma TopPriorityRuns(cfg: Config, k: State, i: nat)
    requires ConfigOk(cfg) && Reachable(cfg, k)
    requires i < |k.sched.tasks| && k.sched.tasks[i].state.Ready?
    ensures i < |cfg.infos| && k.sched.current < |cfg.infos|
    ensures EffectivePriority(cfg.infos[i]) <= EffectivePriority(cfg.infos[k.sched.current])
  {
    ReachableInv(cfg, k);
    assert KeyOk(k.sched.tasks[i], k.sched.ready.slots[i], k.sched.ready.births);
    assert Queued(k.sched.ready, i);
  }

  /** Who can hold up `h` ranks at least as high. */
  lemma HoldersRank(infos: seq<TaskInfo>, l: nat, h: nat)
    requires |infos| <= MAX_TASKS && Mip.MipTable(RegistryOf(infos)) && l < |infos| && h < |infos|
    requires Graph.Reach(Ccg.GraphOf(RegistryOf(infos)), l, h)
    ensures EffectivePriority(infos[l]) >= EffectivePriority(infos[h])
  {
    Mip.EffectiveMonotone(RegistryOf(infos), l, h);
  }

  /** Whoever outranks the running task is not ready. */
  lemma OutrankingIsNotReady(cfg: Config, k: State, i: nat)
    requires ConfigOk(cfg) && Reachable(cfg, k) && i < |cfg.infos|
    ensures k.sched.current < |cfg.infos| == |k.sched.tasks|
    ensures EffectivePriority(cfg.infos[k.sched.current]) < EffectivePriority(cfg.infos[i]) ==> !k.sched.tasks[i].state.Ready?
  {
    OneTaskPerInfo(cfg, k);
    if k.sched.tasks[i].state.Ready? { TopPriorityRuns(cfg, k, i); }
  }

  /**
    No priority inversion over capabilities: while something ranked below `h`
    runs, neither `h` nor any task that directly or indirectly holds what `h`
    needs is ready to run.
   */
  lemma NoPriorityInversion(cfg: Config, k: State, l: nat, h: nat)
    requires ConfigOk(cfg) && Reachable(cfg, k) && Mip.MipTable(RegistryOf(cfg.infos))
    requires l < |cfg.infos| && h < |cfg.infos| && Graph.Reach(Ccg.GraphOf(RegistryOf(cfg.infos)), l, h)
    ensures |k.sched.tasks| == |cfg.infos| && k.sched.current < |cfg.infos|
    ensures EffectivePriority(cfg.infos[k.sched.current]) < EffectivePriority(cfg.infos[h]) ==>
              !k.sched.tasks[l].state.Ready? && !k.sched.tasks[h].state.Ready?
  {
    OutrankingIsNotReady(cfg, k, l);
    OutrankingIsNotReady(cfg, k, h);
    HoldersRank(cfg.infos, l, h);
  }
}
