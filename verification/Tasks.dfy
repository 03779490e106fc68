/** Task descriptors: what is declared at boot, and what the scheduler changes. */
module Tasks {
  import opened Words

  datatype TaskMode = User | Machine

  datatype TaskState = Ready | Running | Blocked | Suspended

  datatype BlockReason =
    | NotBlocked
    | Sleep
    | Send(ch: nat)
    | Receive(ch: nat)

  /** The part of a descriptor that is fixed once the boot sequence is over. */
  datatype TaskInfo = TaskInfo(
    id: u8,
    priority: u8,
    maxInheritedPriority: u8,
    exclusive: Mask,
    shared_: Mask,
    required: Mask,
    sends: Mask,
    receives: Mask,
    stackBase: u32,
    stackSize: u32,
    memStart: u32,
    memEnd: u32,
    mode: TaskMode,
    entry: u32)

  /** A descriptor while the system runs. */
  datatype Task = Task(
    info: TaskInfo,
    state: TaskState,
    blockedOn: BlockReason,
    wakeAt: u32,
    framePtr: int)

  function EffectivePriority(t: TaskInfo): u8 {
    Max(t.priority, t.maxInheritedPriority)
  }

  /** The registry, one optional descriptor per slot. */
  type Registry = r: seq<Option<TaskInfo>> | |r| == MAX_TASKS
    witness seq(MAX_TASKS, _ => None)

  /** Slots 0 .. n are occupied and the others are empty, as `register_task` leaves them. */
  ghost predicate FilledFromZero(reg: Registry, n: nat) {
    n <= MAX_TASKS && forall i :: 0 <= i < MAX_TASKS ==> (reg[i].Some? <==> i < n)
  }

  /** The static registry and its count. */
  class TaskRegistry {
    var slots: Registry
    var count: nat

    ghost predicate Valid()
      reads this
    {
      FilledFromZero(slots, count)
    }

    /** The registered descriptors, in slot order. */
    ghost function Descriptors(): (s: seq<TaskInfo>)
      requires Valid()
      reads this
    {
      var all, n := slots, count;
      seq(n, i requires 0 <= i < n => all[i].value)
    }

    constructor ()
      ensures Valid() && Descriptors() == []
    {
      slots := seq(MAX_TASKS, _ => None);
      count := 0;
    }

    /** `register_task`: appends, or refuses when full (where the source panics). */
    method RegisterTask(desc: TaskInfo) returns (ok: bool)
      requires Valid()
      modifies this
      ensures Valid() && (ok <==> |old(Descriptors())| < MAX_TASKS)
      ensures Descriptors() == if ok then old(Descriptors()) + [desc] else old(Descriptors())
    {
      ok := count < MAX_TASKS;
      if ok {
        slots := slots[count := Some(desc)];
        count := count + 1;
      }
    }
  }
}
