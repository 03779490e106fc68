/** From the sender's buffer to the receiver's: the bytes that are moved, over whole runs. */
module Delivery {
  import opened Words
  import opened Tasks
  import opened Channels
  import opened Scheduler
  import opened Kernel
  import opened Invariant
  import opened Runs
  import opened Effects
  import opened Ipc
  import opened Transfers
  import opened Refusals
  import opened Switching

  // ---------------------------------------------------------------------
  // One call
  // ---------------------------------------------------------------------

  /** The first `n` bytes of the message stand at `ptr`. */
  predicate HoldsAt(ram: seq<u8>, ptr: nat, msg: Message, n: nat) {
    n <= MSG_MAX && ptr + n <= |ram| && forall j :: 0 <= j < n ==> msg.data[j] == ram[ptr + j]
  }

  /** Outside `[ptr, ptr + n)` nothing differs. */
  predicate SameOutside(ram: seq<u8>, ram': seq<u8>, ptr: nat, n: nat) {
    |ram'| == |ram| && forall x :: 0 <= x < |ram| && !(ptr <= x < ptr + n) ==> ram'[x] == ram[x]
  }

  /** A message queued by a send is the sender's buffer, byte for byte; memory does not change. */
  lemma SentBytes(cfg: Config, k: State, hint: nat)
    requires ConfigOk(cfg) && Inv(cfg, k) == true && Enabled(cfg, k, Ecall(hint)) && Observe(cfg, k, Ecall(hint)).Sent?
    ensures var r, msg := k.cpu.regs, Observe(cfg, k, Ecall(hint)).msg;
            && msg.len == r[REG_A2] && HoldsAt(k.ram, r[REG_A1], msg, msg.len) == true
            && Step(cfg, k, Ecall(hint)).ram == k.ram
  {
    CallTransfers(cfg, k, hint);
    var r, msg := k.cpu.regs, Observe(cfg, k, Ecall(hint)).msg;
    SameBytes(msg, k.ram, r[REG_A1], r[REG_A2]);
  }

  lemma SameBytes(msg: Message, ram: seq<u8>, ptr: nat, len: nat)
    requires ptr + len <= |ram| && Bytes(msg) == Read(ram, ptr, len)
    ensures msg.len == len && HoldsAt(ram, ptr, msg, msg.len) == true
  {
    assert |Read(ram, ptr, len)| == len && |Bytes(msg)| == msg.len;
    forall j | 0 <= j < msg.len ensures msg.data[j] == ram[ptr + j] {
      assert Bytes(msg)[j] == msg.data[j] && Read(ram, ptr, len)[j] == ram[ptr + j];
    }
  }

  /** How many bytes of the message a receive copies. */
  function Copied(msg: Message, cap: u32): nat {
    if msg.len <= cap then msg.len else cap
  }

  /**
    A receive leaves the message, as far as the buffer holds it, in the
    receiver's buffer, its whole length in `a0`, and every other byte as it was.
   */
  lemma ReceivedBytes(cfg: Config, k: State, hint: nat)
    requires ConfigOk(cfg) && Inv(cfg, k) == true && Enabled(cfg, k, Ecall(hint)) && Observe(cfg, k, Ecall(hint)).Received?
    ensures var r, msg, k' := k.cpu.regs, Observe(cfg, k, Ecall(hint)).msg, Step(cfg, k, Ecall(hint));
            var n := Copied(msg, r[REG_A2]);
            && HoldsAt(k'.ram, r[REG_A1], msg, n) == true && SameOutside(k.ram, k'.ram, r[REG_A1], n) == true
            && ContextOf(cfg, k', k.sched.current).regs[REG_A0] == msg.len
  {
    CallTransfers(cfg, k, hint);
    var r, msg := k.cpu.regs, Observe(cfg, k, Ecall(hint)).msg;
    WrittenBytes(k.ram, r[REG_A1], msg, r[REG_A2]);
  }

  lemma WrittenBytes(ram: seq<u8>, ptr: nat, msg: Message, cap: u32)
    requires ptr + |Truncated(msg, cap)| <= |ram|
    ensures var ram', n := Write(ram, ptr, Truncated(msg, cap)), Copied(msg, cap);
            HoldsAt(ram', ptr, msg, n) == true && SameOutside(ram, ram', ptr, n) == true
  {
    var bytes := Truncated(msg, cap);
    assert forall j :: 0 <= j < |bytes| ==> bytes[j] == msg.data[j];
  }

  // ---------------------------------------------------------------------
  // Which buffers are allowed
  // ---------------------------------------------------------------------

  /** `[ptr, ptr + len)` lies inside `[lo, hi)`. */
  predicate Inside(ptr: int, len: int, lo: int, hi: int) {
    lo <= ptr && ptr + len <= hi
  }

  /** Exactly the empty buffers, and those that do not wrap and lie in the task's region, its stack or flash. */
  lemma ReadableExactly(cfg: Config, t: TaskInfo, ptr: u32, len: u32)
    ensures BufferReadable(ptr, len, ReadableRanges(cfg, t)) <==>
            len == 0 || (ptr + len < TWO32 &&
              (Inside(ptr, len, t.memStart, t.memEnd) || Inside(ptr, len, t.stackBase, t.stackBase + t.stackSize)
               || Inside(ptr, len, cfg.flashStart, cfg.flashEnd)))
  {
    var ranges := ReadableRanges(cfg, t);
    assert ranges[0] == (t.memStart as int, t.memEnd as int) && ranges[1] == (t.stackBase as int, t.stackBase + t.stackSize)
           && ranges[2] == (cfg.flashStart, cfg.flashEnd);
    assert forall r :: r in ranges ==> r == ranges[0] || r == ranges[1] || r == ranges[2];
  }

  /** The same without flash. */
  lemma WritableExactly(t: TaskInfo, ptr: u32, len: u32)
    ensures BufferReadable(ptr, len, WritableRanges(t)) <==>
            len == 0 || (ptr + len < TWO32 &&
              (Inside(ptr, len, t.memStart, t.memEnd) || Inside(ptr, len, t.stackBase, t.stackBase + t.stackSize)))
  {
    var ranges := WritableRanges(t);
    assert ranges[0] == (t.memStart as int, t.memEnd as int) && ranges[1] == (t.stackBase as int, t.stackBase + t.stackSize);
    assert forall r :: r in ranges ==> r == ranges[0] || r == ranges[1];
  }

  /** What a sent message holds was read from the sender's own region, its stack or flash. */
  lemma SentReadsOwn(cfg: Config, k: State, hint: nat, x: int)
    requires ConfigOk(cfg) && Inv(cfg, k) && Enabled(cfg, k, Ecall(hint)) && Observe(cfg, k, Ecall(hint)).Sent?
    requires k.cpu.regs[REG_A1] <= x < k.cpu.regs[REG_A1] + k.cpu.regs[REG_A2]
    ensures k.sched.current < |cfg.infos|
    ensures var t := cfg.infos[k.sched.current];
            || t.memStart <= x < t.memEnd || t.stackBase <= x < t.stackBase + t.stackSize
            || cfg.flashStart <= x < cfg.flashEnd
  {
    var r := k.cpu.regs;
    SendObserved(cfg, k, hint);
    ReadableExactly(cfg, cfg.infos[k.sched.current], r[REG_A1], r[REG_A2]);
  }

  lemma SendObserved(cfg: Config, k: State, hint: nat)
    requires ConfigOk(cfg) && Inv(cfg, k) && Enabled(cfg, k, Ecall(hint)) && Observe(cfg, k, Ecall(hint)).Sent?
    ensures k.sched.current < |cfg.infos| && MaySend(cfg, cfg.infos[k.sched.current], k.cpu.regs) == true
  {
    CallInv(cfg, k);
    CallEntryForm(cfg, k);
    EcallForm(cfg, k, hint);
    SentCase(cfg, CallEntry(cfg, k), hint);
    SendHasFate(cfg, k, hint);
  }

  // ---------------------------------------------------------------------
  // Whole runs
  // ---------------------------------------------------------------------

  predicate IsSend(o: Observation, ch: nat) {
    o.Sent? && o.ch == ch
  }

  predicate IsReceive(o: Observation, ch: nat) {
    o.Received? && o.ch == ch
  }

  /** How many of the first `p` observations are sends on `ch`. */
  function SendsBefore(trace: seq<Observation>, p: nat, ch: nat): nat
    requires p <= |trace|
  {
    if p == 0 then 0 else SendsBefore(trace, p - 1, ch) + if IsSend(trace[p - 1], ch) then 1 else 0
  }

  function ReceivesBefore(trace: seq<Observation>, p: nat, ch: nat): nat
    requires p <= |trace|
  {
    if p == 0 then 0 else ReceivesBefore(trace, p - 1, ch) + if IsReceive(trace[p - 1], ch) then 1 else 0
  }

  /** They account for that many messages. */
  lemma {:induction false} Counts(trace: seq<Observation>, p: nat, ch: nat)
    requires p <= |trace|
    ensures |SentOn(trace[..p], ch)| == SendsBefore(trace, p, ch)
    ensures |ReceivedOn(trace[..p], ch)| == ReceivesBefore(trace, p, ch)
  {
    if p > 0 {
      Counts(trace, p - 1, ch);
      assert trace[..p] == trace[..p - 1] + [trace[p - 1]];
      TraceExtends(trace[..p - 1], trace[p - 1], ch);
    }
  }

  /** The messages of a prefix come first. */
  lemma {:induction false} Prefixes(trace: seq<Observation>, p: nat, q: nat, ch: nat)
    requires p <= q <= |trace|
    ensures SentOn(trace[..p], ch) <= SentOn(trace[..q], ch) && ReceivedOn(trace[..p], ch) <= ReceivedOn(trace[..q], ch)
    decreases q
  {
    if p < q {
      Prefixes(trace, p, q - 1, ch);
      assert trace[..q] == trace[..q - 1] + [trace[q - 1]];
      TraceExtends(trace[..q - 1], trace[q - 1], ch);
    }
  }

  /** The message of the send or receive at `p` has the number of those before it. */
  lemma Numbers(trace: seq<Observation>, p: nat, q: nat, ch: nat)
    requires p < q <= |trace|
    ensures IsSend(trace[p], ch) ==>
              var n := SendsBefore(trace, p, ch); n < |SentOn(trace[..q], ch)| && SentOn(trace[..q], ch)[n] == trace[p].msg
    ensures IsReceive(trace[p], ch) ==>
              var n := ReceivesBefore(trace, p, ch); n < |ReceivedOn(trace[..q], ch)| && ReceivedOn(trace[..q], ch)[n] == trace[p].msg
  {
    Counts(trace, p, ch);
    assert trace[..p + 1] == trace[..p] + [trace[p]];
    TraceExtends(trace[..p], trace[p], ch);
    Prefixes(trace, p + 1, q, ch);
  }

  /** Some observation is the `n`-th send, if there are that many. */
  lemma {:induction false} NthSend(trace: seq<Observation>, q: nat, ch: nat, n: nat) returns (p: nat)
    requires q <= |trace| && n < SendsBefore(trace, q, ch)
    ensures p < q && IsSend(trace[p], ch) && SendsBefore(trace, p, ch) == n
  {
    if IsSend(trace[q - 1], ch) && SendsBefore(trace, q - 1, ch) == n {
      p := q - 1;
    } else {
      p := NthSend(trace, q - 1, ch, n);
    }
  }

  /** What is received was sent, in the same order. */
  ghost predicate InOrder(trace: seq<Observation>, ch: nat) {
    ReceivedOn(trace, ch) <= SentOn(trace, ch)
  }

  /** The message received at `q` is that of the send with the same number, which came before. */
  lemma ReceivedWasSent(trace: seq<Observation>, q: nat, ch: nat) returns (p: nat)
    requires q < |trace| && IsReceive(trace[q], ch) && InOrder(trace[..q + 1], ch)
    ensures p < q && IsSend(trace[p], ch) && trace[p].msg == trace[q].msg
    ensures SendsBefore(trace, p, ch) == ReceivesBefore(trace, q, ch)
  {
    var n := ReceivesBefore(trace, q, ch);
    Numbers(trace, q, q + 1, ch);
    Counts(trace, q + 1, ch);
    p := NthSend(trace, q + 1, ch, n);
    Numbers(trace, p, q + 1, ch);
  }

  lemma TraceInit(cfg: Config, k: State, es: seq<Event>, p: seq<Event>, e: Event)
    requires es == p + [e]
    ensures Trace(cfg, k, es)[..|p|] == Trace(cfg, k, p)
    ensures Trace(cfg, k, es)[|p|] == Observe(cfg, After(cfg, k, p), e)
  {
    assert es[..|es| - 1] == p;
  }

  lemma {:induction false} TracePrefix(cfg: Config, k: State, es: seq<Event>, p: nat)
    requires p <= |es|
    ensures Trace(cfg, k, es)[..p] == Trace(cfg, k, es[..p])
    decreases |es|
  {
    if p == |es| {
      assert es[..p] == es;
    } else {
      var n := |es| - 1;
      TraceInit(cfg, k, es, es[..n], es[n]);
      TracePrefix(cfg, k, es[..n], p);
      assert es[..n][..p] == es[..p];
      assert Trace(cfg, k, es)[..p] == Trace(cfg, k, es)[..n][..p];
    }
  }

  /** The trace of a run, event by event. */
  lemma TraceAt(cfg: Config, k: State, es: seq<Event>, p: nat)
    requires p < |es|
    ensures Trace(cfg, k, es)[p] == Observe(cfg, After(cfg, k, es[..p]), es[p])
  {
    TracePrefix(cfg, k, es, p + 1);
    assert es[..p + 1] == es[..p] + [es[p]];
    TraceInit(cfg, k, es[..p + 1], es[..p], es[p]);
    assert Trace(cfg, k, es)[p] == Trace(cfg, k, es)[..p + 1][p];
  }

  /** A channel that was empty gives in order. */
  lemma RunInOrder(cfg: Config, k: State, es: seq<Event>, ch: nat)
    requires ch < MAX_CHANNELS && k.chans[ch] == []
    ensures InOrder(Trace(cfg, k, es), ch)
  {
    RunBalances(cfg, k, es, ch);
    var sent := SentOn(Trace(cfg, k, es), ch);
    assert k.chans[ch] + sent == sent;
  }

  /** Only an `ecall` transfers. */
  lemma TransfersAreCalls(cfg: Config, k: State, e: Event)
    ensures Observe(cfg, k, e) != Quiet ==> e.Ecall?
  {
    match e {
      case Timer(hint) => TimerIsQuiet(cfg, k, hint);
      case _ =>
    }
  }

  /** The first bytes of the buffer at `to` are those of the buffer at `from`, as far as both reach. */
  predicate SameBuffer(a: seq<u8>, from: nat, len: nat, b: seq<u8>, to: nat, cap: nat) {
    match if len <= cap then len else cap
    case n => from + n <= |a| && to + n <= |b| && b[to..to + n] == a[from..from + n]
  }

  /** The send made in `s` and the receive made in `k` moved the sender's buffer and its length. */
  ghost predicate Delivered(cfg: Config, s: State, k: State, k': State) {
    match (s.cpu.regs, k.cpu.regs)
    case (a, b) =>
      && SameBuffer(s.ram, a[REG_A1], a[REG_A2], k'.ram, b[REG_A1], b[REG_A2])
      && ContextOf(cfg, k', k.sched.current).regs[REG_A0] == a[REG_A2]
  }

  lemma PayloadMoves(a: seq<u8>, from: nat, b: seq<u8>, to: nat, cap: u32, msg: Message)
    requires HoldsAt(a, from, msg, msg.len) == true && HoldsAt(b, to, msg, Copied(msg, cap)) == true
    ensures SameBuffer(a, from, msg.len, b, to, cap) == true
  {
    var n := Copied(msg, cap);
    var x, y := a[from..from + n], b[to..to + n];
    forall j | 0 <= j < n ensures x[j] == y[j] {
      assert msg.data[j] == a[from + j] && msg.data[j] == b[to + j];
    }
    assert x == y;
  }

  lemma BytesDelivered(cfg: Config, s: State, h: nat, k: State, h': nat)
    requires ConfigOk(cfg) == true && Inv(cfg, s) == true && Enabled(cfg, s, Ecall(h)) && Inv(cfg, k) == true && Enabled(cfg, k, Ecall(h'))
    requires Observe(cfg, s, Ecall(h)).Sent? && Observe(cfg, k, Ecall(h')).Received?
    requires Observe(cfg, s, Ecall(h)).msg == Observe(cfg, k, Ecall(h')).msg
    ensures Delivered(cfg, s, k, Step(cfg, k, Ecall(h'))) == true
  {
    SentBytes(cfg, s, h);
    ReceivedBytes(cfg, k, h');
    PayloadMoves(s.ram, s.cpu.regs[REG_A1], Step(cfg, k, Ecall(h')).ram, k.cpu.regs[REG_A1], k.cpu.regs[REG_A2],
                 Observe(cfg, s, Ecall(h)).msg);
  }

  /** Two events of a run that move the same message. */
  lemma SameMessageDelivered(cfg: Config, k: State, es: seq<Event>, p: nat, q: nat)
    requires ConfigOk(cfg) && Inv(cfg, k) == true && Possible(cfg, k, es) && p < q < |es|
    requires var t := Trace(cfg, k, es); t[p].Sent? && t[q].Received? && t[p].msg == t[q].msg
    ensures Delivered(cfg, After(cfg, k, es[..p]), After(cfg, k, es[..q]), After(cfg, k, es[..q + 1])) == true
  {
    var s, r := After(cfg, k, es[..p]), After(cfg, k, es[..q]);
    TraceAt(cfg, k, es, p);
    TraceAt(cfg, k, es, q);
    MomentEnabled(cfg, k, es, p);
    MomentInv(cfg, k, es, p);
    MomentEnabled(cfg, k, es, q);
    MomentInv(cfg, k, es, q);
    TransfersAreCalls(cfg, s, es[p]);
    TransfersAreCalls(cfg, r, es[q]);
    BytesDelivered(cfg, s, es[p].hint, r, es[q].hint);
    AfterStep(cfg, k, es, q);
  }

  /**
    End to end, over every run that starts with the channel empty: a receive
    stores, byte for byte, what the sender's buffer held at the send with the
    same number on that channel, and returns the length that was sent.
   */
  lemma EndToEnd(cfg: Config, k: State, es: seq<Event>, q: nat, ch: nat) returns (p: nat)
    requires ConfigOk(cfg) && Inv(cfg, k) == true && Possible(cfg, k, es) && ch < MAX_CHANNELS && k.chans[ch] == []
    requires q < |es| && IsReceive(Trace(cfg, k, es)[q], ch)
    ensures var t := Trace(cfg, k, es);
            p < q && IsSend(t[p], ch) && SendsBefore(t, p, ch) == ReceivesBefore(t, q, ch)
    ensures Delivered(cfg, After(cfg, k, es[..p]), After(cfg, k, es[..q]), After(cfg, k, es[..q + 1])) == true
  {
    TracePrefix(cfg, k, es, q + 1);
    RunInOrder(cfg, k, es[..q + 1], ch);
    p := ReceivedWasSent(Trace(cfg, k, es), q, ch);
    SameMessageDelivered(cfg, k, es, p, q);
  }

  /** So it is from boot, on every channel. */
  lemma EndToEndFromBoot(cfg: Config, ram: seq<u8>, hint: nat, es: seq<Event>, q: nat, ch: nat) returns (p: nat)
    requires ConfigOk(cfg) && |ram| == TWO32 && Possible(cfg, Boot(cfg, ram, hint), es) && ch < MAX_CHANNELS && q < |es|
    requires var t := Trace(cfg, Boot(cfg, ram, hint), es); IsReceive(t[q], ch)
    ensures var k := Boot(cfg, ram, hint);
            var t := Trace(cfg, k, es);
            && p < q && IsSend(t[p], ch) && SendsBefore(t, p, ch) == ReceivesBefore(t, q, ch)
            && Delivered(cfg, After(cfg, k, es[..p]), After(cfg, k, es[..q]), After(cfg, k, es[..q + 1])) == true
  {
    BootInv(cfg, ram, hint);
    BootEmpty(cfg, ram, hint, ch);
    p := EndToEnd(cfg, Boot(cfg, ram, hint), es, q, ch);
  }

  lemma BootEmpty(cfg: Config, ram: seq<u8>, hint: nat, ch: nat)
    requires ch < MAX_CHANNELS
    ensures Boot(cfg, ram, hint).chans[ch] == []
  {
  }
}
