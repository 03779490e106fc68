/** The boot-time scans that refuse conflicting capability declarations. */
module Detectors {
  import opened Words
  import opened Tasks

  datatype Endpoint = Sender | Receiver

  /** The outcome of a scan: it returns, or it reports and halts. */
  datatype Verdict =
    | Passed
    | OutOfRange(bit: nat, slot: nat)
    | Duplicate(bit: nat, slot: nat, prior: nat)

  /** The mask a scan looks at. */
  datatype Field = Exclusive | Endpoints(end: Endpoint)

  function MaskOf(t: TaskInfo, f: Field): Mask {
    match f
    case Exclusive => t.exclusive
    case Endpoints(Sender) => t.sends
    case Endpoints(Receiver) => t.receives
  }

  /** Slot `i` is occupied and claims `bit`. */
  predicate Claims(reg: seq<Option<TaskInfo>>, f: Field, i: nat, bit: nat) {
    i < |reg| && reg[i].Some? && bit in MaskOf(reg[i].value, f)
  }

  /** No bit is claimed twice, and every claimed bit is below `limit`. */
  ghost predicate Unshared(reg: seq<Option<TaskInfo>>, f: Field, limit: nat) {
    && (forall i: nat, j: nat, bit: nat :: Claims(reg, f, i, bit) && Claims(reg, f, j, bit) ==> i == j)
    && (forall i: nat, bit: nat :: Claims(reg, f, i, bit) ==> bit < limit)
  }

  /** `owners[bit]` is the slot below `n` (or slot `n` for bits below `b`) that claims `bit`. */
  ghost predicate Owned(reg: seq<Option<TaskInfo>>, f: Field, owners: seq<Option<nat>>, n: nat, b: nat) {
    && (forall i: nat, bit: nat :: Before(i, bit, n, b) && Claims(reg, f, i, bit) ==>
          bit < |owners| && owners[bit] == Some(i))
    && (forall bit: nat :: bit < |owners| && owners[bit].Some? ==>
          Claims(reg, f, owners[bit].value, bit) && Before(owners[bit].value, bit, n, b))
  }

  predicate Before(i: nat, bit: nat, n: nat, b: nat) {
    i < n || (i == n && bit < b)
  }

  lemma NextSlot(reg: seq<Option<TaskInfo>>, f: Field, owners: seq<Option<nat>>, n: nat)
    requires Owned(reg, f, owners, n, 32)
    ensures Owned(reg, f, owners, n + 1, 0)
  {
    forall i: nat, bit: nat | Before(i, bit, n + 1, 0) && Claims(reg, f, i, bit)
      ensures Before(i, bit, n, 32)
    {
    }
  }

  lemma AllOwned(reg: seq<Option<TaskInfo>>, f: Field, owners: seq<Option<nat>>)
    requires Owned(reg, f, owners, |reg|, 0)
    ensures Unshared(reg, f, |owners|)
  {
    forall i: nat, bit: nat | Claims(reg, f, i, bit)
      ensures bit < |owners| && owners[bit] == Some(i)
    {
      assert Before(i, bit, |reg|, 0);
    }
  }

  /** One bit of one slot: claim it, or report. */
  method ClaimBit(reg: seq<Option<TaskInfo>>, f: Field, owners0: seq<Option<nat>>, i: nat, bit: nat)
    returns (v: Verdict, owners: seq<Option<nat>>)
    requires i < |reg| && reg[i].Some? && bit < 32 && Owned(reg, f, owners0, i, bit)
    ensures |owners| == |owners0|
    ensures v.Passed? ==> Owned(reg, f, owners, i, bit + 1)
    ensures v.OutOfRange? ==> v.bit >= |owners0| && Claims(reg, f, v.slot, v.bit)
    ensures v.Duplicate? ==> v.prior != v.slot && Claims(reg, f, v.slot, v.bit) && Claims(reg, f, v.prior, v.bit)
  {
    owners := owners0;
    if bit !in MaskOf(reg[i].value, f) {
      return Passed, owners;
    }
    if bit >= |owners| {
      return OutOfRange(bit, i), owners;
    }
    if owners[bit].Some? {
      return Duplicate(bit, i, owners[bit].value), owners;
    }
    owners := owners[bit := Some(i)];
    v := Passed;
  }

  /** Returns normally exactly when no two tasks hold one exclusive peripheral. */
  method CheckCapabilityConflicts(reg: seq<Option<TaskInfo>>) returns (v: Verdict)
    ensures v.Passed? <==> Unshared(reg, Exclusive, MAX_PERIPHERALS)
    ensures v.Duplicate? ==> v.prior != v.slot && Claims(reg, Exclusive, v.slot, v.bit) && Claims(reg, Exclusive, v.prior, v.bit)
  {
    var claimed: seq<Option<nat>> := seq(MAX_PERIPHERALS, _ => None);
    for i := 0 to |reg|
      invariant |claimed| == MAX_PERIPHERALS && Owned(reg, Exclusive, claimed, i, 0)
    {
      if reg[i].Some? {
        for bit := 0 to 32
          invariant |claimed| == MAX_PERIPHERALS && Owned(reg, Exclusive, claimed, i, bit)
        {
          v, claimed := ClaimBit(reg, Exclusive, claimed, i, bit);
          if !v.Passed? {
            return;
          }
        }
      }
      NextSlot(reg, Exclusive, claimed, i);
    }
    AllOwned(reg, Exclusive, claimed);
    v := Passed;
  }

  /** Each channel has at most one sending and one receiving task, and all ids are in range. */
  ghost predicate SingleEnded(reg: seq<Option<TaskInfo>>) {
    && Unshared(reg, Endpoints(Sender), MAX_CHANNELS)
    && Unshared(reg, Endpoints(Receiver), MAX_CHANNELS)
  }

  /** Returns normally exactly when every channel is single-producer and single-consumer. */
  method CheckChannelConflicts(reg: seq<Option<TaskInfo>>) returns (v: Verdict, end: Endpoint)
    ensures v.Passed? <==> SingleEnded(reg)
    ensures v.Duplicate? ==> v.prior != v.slot && Claims(reg, Endpoints(end), v.slot, v.bit) && Claims(reg, Endpoints(end), v.prior, v.bit)
  {
    end := Sender;
    var senders: seq<Option<nat>> := seq(MAX_CHANNELS, _ => None);
    var receivers: seq<Option<nat>> := seq(MAX_CHANNELS, _ => None);
    for i := 0 to |reg|
      invariant |senders| == MAX_CHANNELS && Owned(reg, Endpoints(Sender), senders, i, 0)
      invariant |receivers| == MAX_CHANNELS && Owned(reg, Endpoints(Receiver), receivers, i, 0)
    {
      if reg[i].Some? {
        for id := 0 to 32
          invariant |senders| == MAX_CHANNELS && Owned(reg, Endpoints(Sender), senders, i, id)
          invariant |receivers| == MAX_CHANNELS && Owned(reg, Endpoints(Receiver), receivers, i, id)
        {
          v, senders := ClaimBit(reg, Endpoints(Sender), senders, i, id);
          if !v.Passed? {
            end := Sender;
            return;
          }
          v, receivers := ClaimBit(reg, Endpoints(Receiver), receivers, i, id);
          if !v.Passed? {
            end := Receiver;
            return;
          }
        }
      }
      NextSlot(reg, Endpoints(Sender), senders, i);
      NextSlot(reg, Endpoints(Receiver), receivers, i);
    }
    AllOwned(reg, Endpoints(Sender), senders);
    AllOwned(reg, Endpoints(Receiver), receivers);
    v := Passed;
  }
}
