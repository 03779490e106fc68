/**
  Physical memory protection: the NAPOT/TOR encoding of a region, the address
  matching rule of section 3.7.1 of the RISC-V Privileged Architecture, and the
  register-by-register reprogramming done on every dispatch.
 */
module Pmp {
  import opened Words
  import opened Tasks

  // ---------------------------------------------------------------------
  // Powers of two and bitwise or, on natural numbers
  // ---------------------------------------------------------------------

  function Pow2(k: nat): (p: nat)
    ensures p >= 1
  {
    if k == 0 then 1 else 2 * Pow2(k - 1)
  }

  /** `a | b` */
  function BitOr(a: nat, b: nat): nat {
    if a == 0 then b
    else 2 * BitOr(a / 2, b / 2) + (if a % 2 == 1 then 1 else b % 2)
  }

  predicate IsPow2(n: nat) {
    n != 0 && (n == 1 || (n % 2 == 0 && IsPow2(n / 2)))
  }

  function Log2(n: nat): (k: nat)
    requires IsPow2(n)
    ensures Pow2(k) == n
  {
    if n == 1 then 0 else 1 + Log2(n / 2)
  }

  /** Or-ing bits into a number that has zeros there is adding. */
  lemma {:induction false} OrIsAdd(m: nat, b: nat, k: nat)
    requires b < Pow2(k)
    ensures BitOr(m * Pow2(k), b) == m * Pow2(k) + b
  {
    if k == 0 {
      OrZeroRight(m);
    } else {
      var p := Pow2(k - 1);
      DoubleMul(m, p);
      OrIsAdd(m, b / 2, k - 1);
      Halves(m * p, 0);
      OrUnfold(2 * (m * p), b);
    }
  }

  lemma OrUnfold(a: nat, b: nat)
    ensures BitOr(a, b) == 2 * BitOr(a / 2, b / 2) + (if a % 2 == 1 then 1 else b % 2)
  {
  }

  lemma {:induction false} OrZeroRight(a: nat)
    ensures BitOr(a, 0) == a
  {
    if a != 0 { OrZeroRight(a / 2); }
  }

  /** `a & !b` */
  function AndNot(a: nat, b: nat): nat {
    if a == 0 then 0
    else 2 * AndNot(a / 2, b / 2) + (if b % 2 == 1 then 0 else a % 2)
  }

  lemma Halves(x: nat, low: nat)
    ensures (2 * x + low) / 2 == x + low / 2 && (2 * x + low) % 2 == low % 2
  {
  }

  lemma DoubleMul(a: nat, p: nat)
    ensures a * (2 * p) == 2 * (a * p)
  {
  }

  lemma {:induction false} AndNotZero(a: nat)
    ensures AndNot(a, 0) == a
  {
    if a != 0 { AndNotZero(a / 2); }
  }

  /** Clearing at least as many bits as the number has leaves nothing. */
  lemma {:induction false} AndNotOnes(a: nat, n: nat)
    requires a < Pow2(n)
    ensures AndNot(a, Pow2(n) - 1) == 0
  {
    if a != 0 {
      Halves(Pow2(n - 1) - 1, 1);
      AndNotOnes(a / 2, n - 1);
    }
  }

  // ---------------------------------------------------------------------
  // Encoding
  // ---------------------------------------------------------------------

  const PMP_R: nat := 1
  const PMP_W: nat := 2
  const PMP_X: nat := 4
  const PMP_TOR: nat := 0x08
  const PMP_NAPOT: nat := 0x18

  datatype EntryPair = EntryPair(addrLo: nat, addrHi: nat, cfgLo: nat, cfgHi: nat)

  /** `a % d == 0`, see `MultipleIsRemainder`. */
  predicate IsMultiple(a: nat, d: nat) {
    if d == 0 || a < d then a == 0 else IsMultiple(a - d, d)
  }

  lemma {:induction false} MultipleIsRemainder(a: nat, d: nat)
    requires d > 0
    ensures IsMultiple(a, d) <==> a % d == 0
    decreases a
  {
    if a < d {
      ModIs(a, d, 0, a);
    } else {
      MultipleIsRemainder(a - d, d);
      var q, r := (a - d) / d, (a - d) % d;
      assert a == (q + 1) * d + r;
      ModIs(a, d, q + 1, r);
    }
  }

  predicate IsNapot(start: nat, end: nat) {
    start <= end && end - start >= 8 && IsPow2(end - start) && IsMultiple(start, end - start)
  }

  function NapotAddr(start: nat, end: nat): nat
    requires IsNapot(start, end)
  {
    BitOr(start, (end - start) / 2 - 1) / 4
  }

  function EncodeRegion(start: nat, end: nat, perms: nat): EntryPair {
    if end <= start then EntryPair(0, 0, 0, 0)
    else if IsNapot(start, end) then EntryPair(0, NapotAddr(start, end), 0, BitOr(PMP_NAPOT, perms))
    else EntryPair(start / 4, end / 4, 0, BitOr(PMP_TOR, perms))
  }

  function TaskEntries(t: TaskInfo): EntryPair {
    match t.mode
    case User => EncodeRegion(t.memStart, t.memEnd, BitOr(PMP_R, PMP_W))
    case Machine => EncodeRegion(0, 0, 0)
  }

  // ---------------------------------------------------------------------
  // The hardware's matching rule
  // ---------------------------------------------------------------------

  datatype AddressMode = Off | Tor | Na4 | Napot

  /** Bits 4:3 of a configuration byte. */
  function ModeOf(cfg: nat): AddressMode {
    match (cfg / 8) % 4
    case 0 => Off
    case 1 => Tor
    case 2 => Na4
    case _ => Napot
  }

  /** Number of consecutive one bits at the bottom of a `pmpaddr`. */
  function TrailingOnes(a: nat): (t: nat)
    decreases a
  {
    if a % 2 == 0 then 0 else 1 + TrailingOnes(a / 2)
  }

  /** An entry with address register `addr`, after an entry with `prev`, matches byte address `x`. */
  predicate Matches(prev: nat, addr: nat, cfg: nat, x: nat) {
    match ModeOf(cfg)
    case Off => false
    case Tor => 4 * prev <= x < 4 * addr
    case Na4 => 4 * addr <= x < 4 * addr + 4
    case Napot =>
      var t := TrailingOnes(addr);
      4 * (addr + 1 - Pow2(t)) <= x < 4 * (addr + 1 - Pow2(t)) + 8 * Pow2(t)
  }

  lemma {:induction false} OnesAtBottom(m: nat, t: nat)
    ensures TrailingOnes(2 * (m * Pow2(t)) + (Pow2(t) - 1)) == t
    decreases t
  {
    var a := 2 * (m * Pow2(t)) + (Pow2(t) - 1);
    if t == 0 {
      assert a == 2 * m;
    } else {
      var p := Pow2(t - 1);
      assert m * (2 * p) == 2 * (m * p);
      assert a == 2 * (2 * (m * p) + (p - 1)) + 1;
      OnesAtBottom(m, t - 1);
    }
  }

  lemma SizeForm(size: nat) returns (t: nat)
    requires IsPow2(size) && size >= 8
    ensures size == 8 * Pow2(t) == Pow2(t + 3)
  {
    assert IsPow2(size / 2) && IsPow2(size / 2 / 2) && IsPow2(size / 2 / 2 / 2);
    t := Log2(size / 2 / 2 / 2);
    assert Pow2(t + 3) == 2 * Pow2(t + 2) && Pow2(t + 2) == 2 * Pow2(t + 1) && Pow2(t + 1) == 2 * Pow2(t);
  }

  lemma DividesExactly(a: nat, d: nat) returns (m: nat)
    requires d > 0 && a % d == 0
    ensures a == m * d
  {
    m := a / d;
  }

  /** A naturally aligned region is encoded as its base, then a zero bit, then size/8 - 1 in ones. */
  lemma NapotForm(start: nat, end: nat) returns (m: nat, t: nat)
    requires IsNapot(start, end)
    ensures end - start == 8 * Pow2(t) && start == 8 * (m * Pow2(t))
    ensures NapotAddr(start, end) == 2 * (m * Pow2(t)) + (Pow2(t) - 1)
  {
    var size := end - start;
    t := SizeForm(size);
    MultipleIsRemainder(start, size);
    m := DividesExactly(start, size);
    var p := Pow2(t);
    EightOut(m, p);
    HalfOfEight(p);
    OrIsAdd(m, 4 * p - 1, t + 3);
    QuarterOf(m * p, p);
  }

  /** Size 8 * 2^t, at `m` times that size. */
  predicate Natural(start: int, end: int, t: nat, m: nat) {
    end - start == 8 * Pow2(t) && start == m * (8 * Pow2(t))
  }

  /** Exactly the regions of a power-of-two size of at least 8, at a multiple of it. */
  lemma NapotExactly(start: nat, end: nat)
    ensures IsNapot(start, end) <==> exists t: nat, m: nat :: Natural(start, end, t, m)
  {
    if IsNapot(start, end) {
      var m, t := NapotForm(start, end);
      EightOut(m, Pow2(t));
      assert Natural(start, end, t, m);
    }
    forall t: nat, m: nat | Natural(start, end, t, m) ensures IsNapot(start, end) {
      SizeIsPower(t);
      MultipleOf(m, 8 * Pow2(t));
    }
  }

  lemma SizeIsPower(t: nat)
    ensures IsPow2(8 * Pow2(t)) && Pow2(t) >= 1
  {
    PowersArePowers(t + 3);
    assert Pow2(t + 3) == 2 * Pow2(t + 2) && Pow2(t + 2) == 2 * Pow2(t + 1) && Pow2(t + 1) == 2 * Pow2(t);
  }

  lemma {:induction false} MultipleOf(m: nat, d: nat)
    requires d > 0
    ensures IsMultiple(m * d, d)
  {
    MultipleIsRemainder(m * d, d);
    ModIs(m * d, d, m, 0);
  }

  lemma EightOut(m: nat, p: nat)
    ensures m * (8 * p) == 8 * (m * p)
  {
  }

  lemma HalfOfEight(p: nat)
    ensures 8 * p / 2 - 1 == 4 * p - 1
  {
  }

  lemma QuarterOf(q: nat, p: nat)
    requires p >= 1
    ensures (8 * q + (4 * p - 1)) / 4 == 2 * q + (p - 1)
  {
  }

  lemma Pow2Of3()
    ensures Pow2(3) == 8
  {
    assert Pow2(1) == 2 && Pow2(2) == 4;
  }

  lemma ModeBits(perms: nat)
    requires perms < 8
    ensures ModeOf(BitOr(PMP_NAPOT, perms)) == Napot && ModeOf(BitOr(PMP_TOR, perms)) == Tor && ModeOf(0) == Off
    ensures BitOr(PMP_NAPOT, perms) == 24 + perms && BitOr(PMP_TOR, perms) == 8 + perms
  {
    Pow2Of3();
    OrIsAdd(3, perms, 3);
    OrIsAdd(1, perms, 3);
    ModIs(24 + perms, 8, 3, perms);
    ModIs(8 + perms, 8, 1, perms);
  }

  /** The naturally aligned power-of-two case of the encoding. */
  lemma NapotIsExact(start: nat, end: nat)
    requires IsNapot(start, end)
    ensures var a := NapotAddr(start, end);
            var t := TrailingOnes(a);
            4 * (a + 1 - Pow2(t)) == start && 8 * Pow2(t) == end - start
  {
    var m, t := NapotForm(start, end);
    OnesAtBottom(m, t);
  }

  /** The high entry of an encoded region matches exactly the bytes of the region. */
  lemma EncodingIsExact(start: nat, end: nat, perms: nat, x: nat)
    requires perms < 8 && start % 4 == 0 && end % 4 == 0
    ensures var e := EncodeRegion(start, end, perms);
            Matches(e.addrLo, e.addrHi, e.cfgHi, x) <==> start <= x < end
  {
    if end <= start {
      assert ModeOf(0) == Off;
    } else {
      ModeBits(perms);
      if IsNapot(start, end) {
        NapotIsExact(start, end);
      } else {
        assert 4 * (start / 4) == start && 4 * (end / 4) == end;
      }
    }
  }

  /** A non-empty region carries the requested permissions; the low entry is always off. */
  lemma EncodingPermits(start: nat, end: nat, perms: nat)
    requires perms < 8
    ensures var e := EncodeRegion(start, end, perms);
            && e.cfgLo == 0 && e.cfgHi < 256
            && (start < end ==> e.cfgHi == 24 + perms || e.cfgHi == 8 + perms)
            && (start >= end ==> e.cfgHi == 0)
  {
    ModeBits(perms);
  }

  /** A non-empty region that is not word aligned is not matched exactly: both bounds are rounded down. */
  lemma ExactIffAligned(start: nat, end: nat, perms: nat)
    requires perms < 8 && start < end
    ensures var e := EncodeRegion(start, end, perms);
            (forall x: nat :: Matches(e.addrLo, e.addrHi, e.cfgHi, x) <==> start <= x < end)
            <==> (start % 4 == 0 && end % 4 == 0)
  {
    var e := EncodeRegion(start, end, perms);
    ModeBits(perms);
    if IsNapot(start, end) { NapotIsAligned(start, end); }
    if start % 4 == 0 && end % 4 == 0 {
      forall x: nat ensures Matches(e.addrLo, e.addrHi, e.cfgHi, x) <==> start <= x < end {
        EncodingIsExact(start, end, perms, x);
      }
    } else if start % 4 != 0 {
      assert Matches(e.addrLo, e.addrHi, e.cfgHi, start - 1) || !Matches(e.addrLo, e.addrHi, e.cfgHi, start);
    } else {
      assert !Matches(e.addrLo, e.addrHi, e.cfgHi, end - 1);
    }
  }

  lemma NapotIsAligned(start: nat, end: nat)
    requires IsNapot(start, end)
    ensures start % 4 == 0 && end % 4 == 0
  {
    var m, t := NapotForm(start, end);
    ModIs(start, 4, 2 * (m * Pow2(t)), 0);
    ModIs(end, 4, 2 * (m * Pow2(t)) + 2 * Pow2(t), 0);
  }

  // ---------------------------------------------------------------------
  // Registers
  // ---------------------------------------------------------------------

  /** A `pmpcfg` register, least significant byte first; bitwise operations act byte by byte. */
  type Word = w: seq<u8> | |w| == 4 witness [0, 0, 0, 0]

  /** `b << (8 * i)` for a byte `b`. */
  function ShiftedByte(b: u8, i: nat): Word
    requires i < 4
  {
    [0, 0, 0, 0][i := b]
  }

  lemma {:induction false} OrBelow(a: nat, b: nat, n: nat)
    requires a < Pow2(n) && b < Pow2(n)
    ensures BitOr(a, b) < Pow2(n)
  {
    if a != 0 { OrBelow(a / 2, b / 2, n - 1); }
  }

  lemma {:induction false} AndNotBelow(a: nat, b: nat)
    ensures AndNot(a, b) <= a
  {
    if a != 0 { AndNotBelow(a / 2, b / 2); }
  }

  function OrByte(a: u8, b: u8): u8 {
    Pow2Of8();
    OrBelow(a, b, 8);
    BitOr(a, b)
  }

  function AndNotByte(a: u8, b: u8): u8 {
    AndNotBelow(a, b);
    AndNot(a, b)
  }

  /** `csrs reg, bits` */
  function CsrSet(w: Word, bits: Word): Word {
    [OrByte(w[0], bits[0]), OrByte(w[1], bits[1]), OrByte(w[2], bits[2]), OrByte(w[3], bits[3])]
  }

  /** `csrc reg, bits` */
  function CsrClear(w: Word, bits: Word): Word {
    [AndNotByte(w[0], bits[0]), AndNotByte(w[1], bits[1]), AndNotByte(w[2], bits[2]), AndNotByte(w[3], bits[3])]
  }

  lemma Pow2Of8()
    ensures Pow2(8) == 256
  {
    Pow2Of3();
    assert Pow2(4) == 16 && Pow2(5) == 32 && Pow2(6) == 64 && Pow2(7) == 128;
  }

  lemma ByteCleared(w: Word, i: nat)
    requires i < 4
    ensures CsrClear(w, ShiftedByte(0xFF, i)) == w[i := 0]
  {
    Pow2Of8();
    AndNotOnes(w[i], 8);
    forall j | 0 <= j < 4 ensures AndNotByte(w[j], 0) == w[j] {
      AndNotZero(w[j]);
    }
  }

  lemma ByteSet(w: Word, i: nat, b: u8)
    requires i < 4 && w[i] == 0
    ensures CsrSet(w, ShiftedByte(b, i)) == w[i := b]
  {
    forall j | 0 <= j < 4 ensures OrByte(w[j], 0) == w[j] {
      OrZeroRight(w[j]);
    }
  }

  /** An entry's configuration byte and address register. */
  datatype Entry = Entry(cfg: u8, addr: nat)

  /** `pmpcfg0` with the address registers of its four entries, and the entries above them. */
  datatype Regs = Regs(cfg0: Word, addr0: nat, addr1: nat, addr2: nat, addr3: nat, upper: seq<Entry>)

  /** The first of the entries from `n` on that matches; `prev` is the address register before them. */
  function FirstMatch(prev: nat, entries: seq<Entry>, n: nat, x: nat): Option<(nat, u8)>
    decreases |entries|
  {
    if entries == [] then None
    else if Matches(prev, entries[0].addr, entries[0].cfg, x) then Some((n, entries[0].cfg))
    else FirstMatch(entries[0].addr, entries[1..], n + 1, x)
  }

  /** The entries in order. */
  function Entries(r: Regs): seq<Entry> {
    [Entry(r.cfg0[0], r.addr0), Entry(r.cfg0[1], r.addr1), Entry(r.cfg0[2], r.addr2), Entry(r.cfg0[3], r.addr3)] + r.upper
  }

  /** The entry that decides about address `x`: the lowest-numbered one that matches, with its configuration. */
  function Deciding(r: Regs, x: nat): Option<(nat, u8)> {
    FirstMatch(0, Entries(r), 0, x)
  }

  /** U-mode may store to `x`: the deciding entry has the W bit. */
  predicate UserMayWrite(r: Regs, x: nat) {
    var e := Deciding(r, x);
    e.Some? && (e.value.1 / PMP_W) % 2 == 1
  }

  /** Entry 3 and everything above it is off. */
  ghost predicate RestOff(r: Regs) {
    ModeOf(r.cfg0[3]) == Off && UpperOff(r)
  }

  /** As after reset: nothing above the first four entries is in use. */
  ghost predicate UpperOff(r: Regs) {
    forall i :: 0 <= i < |r.upper| ==> ModeOf(r.upper[i].cfg) == Off
  }

  lemma {:induction false} OffNeverMatches(prev: nat, entries: seq<Entry>, n: nat, x: nat)
    requires forall i :: 0 <= i < |entries| ==> ModeOf(entries[i].cfg) == Off
    ensures FirstMatch(prev, entries, n, x) == None
    decreases |entries|
  {
    if entries != [] { OffNeverMatches(entries[0].addr, entries[1..], n + 1, x); }
  }

  /** With the rest off, the first three entries decide, in order. */
  lemma FirstThreeDecide(r: Regs, x: nat)
    requires RestOff(r)
    ensures Deciding(r, x) ==
            if Matches(0, r.addr0, r.cfg0[0], x) then Some((0, r.cfg0[0]))
            else if Matches(r.addr0, r.addr1, r.cfg0[1], x) then Some((1, r.cfg0[1]))
            else if Matches(r.addr1, r.addr2, r.cfg0[2], x) then Some((2, r.cfg0[2]))
            else None
  {
    var es := Entries(r);
    var rest := es[3..];
    assert es[1..][1..][1..] == rest && es[1..][0] == es[1] && es[1..][1..][0] == es[2];
    assert forall i :: 0 <= i < |rest| ==> rest[i] == if i == 0 then Entry(r.cfg0[3], r.addr3) else r.upper[i - 1];
    OffNeverMatches(r.addr2, rest, 3, x);
    assert FirstMatch(r.addr1, es[1..][1..], 2, x) ==
           if Matches(r.addr1, r.addr2, r.cfg0[2], x) then Some((2, r.cfg0[2])) else None;
    assert FirstMatch(r.addr0, es[1..], 1, x) ==
           if Matches(r.addr0, r.addr1, r.cfg0[1], x) then Some((1, r.cfg0[1])) else FirstMatch(r.addr1, es[1..][1..], 2, x);
  }

  /** Entries 1 and 2 match `x`. */
  predicate TaskEntriesMatch(r: Regs, x: nat) {
    Matches(r.addr0, r.addr1, r.cfg0[1], x) || Matches(r.addr1, r.addr2, r.cfg0[2], x)
  }

  // ---------------------------------------------------------------------
  // Reprogramming
  // ---------------------------------------------------------------------

  /** The registers after entries 1 and 2 have been pointed at `t`'s region. */
  function Activated(r: Regs, t: TaskInfo): Regs {
    var e := TaskEntries(t);
    TaskEntriesFit(t);
    r.(cfg0 := r.cfg0[1 := e.cfgLo][2 := e.cfgHi], addr1 := e.addrLo, addr2 := e.addrHi)
  }

  lemma TaskEntriesFit(t: TaskInfo)
    ensures TaskEntries(t).cfgLo == 0 && TaskEntries(t).cfgHi < 256
  {
    ReadWrite();
    EncodingPermits(t.memStart, t.memEnd, 3);
  }

  lemma ReadWrite()
    ensures BitOr(PMP_R, PMP_W) == 3
  {
    assert BitOr(0, 1) == 1;
  }

  /** The bytes of the running task's region; nothing for a machine-mode task. */
  predicate InRegion(t: TaskInfo, x: nat) {
    t.mode.User? && t.memStart <= x < t.memEnd
  }

  /** A region the encoding is exact for. */
  predicate Aligned(t: TaskInfo) {
    t.memStart % 4 == 0 && t.memEnd % 4 == 0
  }

  /** The pair computed for a task matches exactly its region. */
  lemma TaskEntriesExact(t: TaskInfo, x: nat)
    requires Aligned(t)
    ensures var e := TaskEntries(t);
            e.cfgLo == 0 && (Matches(e.addrLo, e.addrHi, e.cfgHi, x) <==> InRegion(t, x))
  {
    TaskEntriesFit(t);
    ReadWrite();
    if t.mode.User? {
      EncodingIsExact(t.memStart, t.memEnd, 3, x);
    } else {
      EncodingIsExact(0, 0, 0, x);
    }
  }

  /** After a dispatch, entries 1 and 2 grant exactly the dispatched task's region. */
  lemma ActivatedMatches(r: Regs, t: TaskInfo, x: nat)
    requires Aligned(t)
    ensures TaskEntriesMatch(Activated(r, t), x) <==> InRegion(t, x)
  {
    TaskEntriesExact(t, x);
    OffMatchesNothing(r.addr0, TaskEntries(t).addrLo, x);
  }

  lemma OffMatchesNothing(prev: nat, addr: nat, x: nat)
    ensures !Matches(prev, addr, 0, x)
  {
    assert ModeOf(0) == Off;
  }

  /** Entry 0 covers the flash image, readable and executable; entry 1 is only ever a TOR base; the rest is off. */
  ghost predicate FlashOnly(r: Regs) {
    r.cfg0[0] == PMP_NAPOT + PMP_R + PMP_X && r.cfg0[1] == 0 && RestOff(r)
  }

  const FLASH_ORIGIN: nat := 0x8000_0000
  const FLASH_SIZE: nat := 0x8_0000

  lemma {:induction false} PowersArePowers(k: nat)
    ensures IsPow2(Pow2(k))
  {
    if k > 0 {
      PowersArePowers(k - 1);
      Halves(Pow2(k - 1), 0);
    }
  }

  lemma FlashIsNapot()
    ensures IsNapot(FLASH_ORIGIN, FLASH_ORIGIN + FLASH_SIZE)
  {
    Pow2Of8();
    assert Pow2(9) == 512 && Pow2(10) == 1024 && Pow2(11) == 2048 && Pow2(12) == 4096 && Pow2(13) == 8192;
    assert Pow2(14) == 16384 && Pow2(15) == 32768 && Pow2(16) == 65536 && Pow2(17) == 131072 && Pow2(18) == 262144;
    PowersArePowers(19);
    assert Pow2(19) == FLASH_SIZE;
    ModIs(FLASH_ORIGIN, FLASH_SIZE, 4096, 0);
    MultipleIsRemainder(FLASH_ORIGIN, FLASH_SIZE);
  }

  /** The registers `configure_pmp` leaves behind. */
  function Configured(r: Regs): Regs {
    FlashIsNapot();
    r.(cfg0 := [PMP_NAPOT + PMP_R + PMP_X, 0, 0, 0], addr0 := NapotAddr(FLASH_ORIGIN, FLASH_ORIGIN + FLASH_SIZE))
  }

  /** After boot, exactly the flash image is matched, and U-mode can store nowhere. */
  lemma ConfiguredProtects(r: Regs, x: nat)
    requires UpperOff(r)
    ensures FlashOnly(Configured(r)) && !UserMayWrite(Configured(r), x)
    ensures Deciding(Configured(r), x).Some? <==> FLASH_ORIGIN <= x < FLASH_ORIGIN + FLASH_SIZE
  {
    FlashIsNapot();
    NapotIsExact(FLASH_ORIGIN, FLASH_ORIGIN + FLASH_SIZE);
    assert ModeOf(0) == Off;
    FirstThreeDecide(Configured(r), x);
  }

  /** The registers when the last activation since boot, if any, was for `active`. */
  function Programmed(r0: Regs, active: Option<TaskInfo>): Regs {
    match active
    case None => r0
    case Some(t) => Activated(r0, t)
  }

  /** Only the last activation matters. */
  lemma ProgrammedTwice(r0: Regs, active: Option<TaskInfo>, t: TaskInfo)
    ensures Activated(Programmed(r0, active), t) == Programmed(r0, Some(t))
    ensures r0.cfg0[1] == 0 ==> Programmed(r0, active).cfg0[1] == 0
  {
    TaskEntriesFit(t);
    if active.Some? { TaskEntriesFit(active.value); }
  }

  /** A byte that is off matches nothing; one with mode bits and R, W permits stores. */
  lemma BytePermits(cfg: nat)
    requires cfg == 0 || cfg == 24 + 3 || cfg == 8 + 3
    ensures ModeOf(0) == Off && (cfg != 0 ==> (cfg / PMP_W) % 2 == 1)
  {
  }

  lemma TaskByte(r: Regs, t: TaskInfo)
    ensures var r' := Activated(r, t);
            && r'.cfg0[0] == r.cfg0[0] && r'.cfg0[3] == r.cfg0[3] && r'.addr0 == r.addr0 && r'.upper == r.upper && r'.cfg0[1] == 0
            && (r'.cfg0[2] == 0 || r'.cfg0[2] == 24 + 3 || r'.cfg0[2] == 8 + 3)
  {
    TaskEntriesFit(t);
    ReadWrite();
    EncodingPermits(t.memStart, t.memEnd, 3);
    EncodingPermits(0, 0, 0);
  }

  /** With a readable flash entry in front, U-mode may store where entry 2 matches and entry 0 does not. */
  lemma WritableIsTaskEntry(r: Regs, x: nat)
    requires FlashOnly(r) && (r.cfg0[2] == 0 || r.cfg0[2] == 24 + 3 || r.cfg0[2] == 8 + 3)
    ensures UserMayWrite(r, x) <==> TaskEntriesMatch(r, x) && !Matches(0, r.addr0, r.cfg0[0], x)
  {
    BytePermits(r.cfg0[2]);
    FirstThreeDecide(r, x);
  }

  /** U-mode stores are possible exactly in the region of the dispatched task, outside flash. */
  lemma ActivatedWrites(r: Regs, t: TaskInfo, x: nat)
    requires FlashOnly(r) && Aligned(t)
    ensures FlashOnly(Activated(r, t))
    ensures UserMayWrite(Activated(r, t), x) <==> InRegion(t, x) && !Matches(0, r.addr0, r.cfg0[0], x)
  {
    ActivatedMatches(r, t, x);
    TaskByte(r, t);
    WritableIsTaskEntry(Activated(r, t), x);
  }

  /** The R, W and X bits U-mode has at `x`: none where no entry matches. */
  function UserAccess(r: Regs, x: nat): nat {
    var e := Deciding(r, x);
    if e.None? then 0 else e.value.1 % 8
  }

  lemma AccessBits()
    ensures ModeOf(0) == Off && (24 + 3) % 8 == 3 && (8 + 3) % 8 == 3 && (PMP_NAPOT + PMP_R + PMP_X) % 8 == 5
  {
  }

  lemma FlashMatches(r: Regs, x: nat)
    ensures Matches(0, Configured(r).addr0, Configured(r).cfg0[0], x) <==> FLASH_ORIGIN <= x < FLASH_ORIGIN + FLASH_SIZE
  {
    FlashIsNapot();
    NapotIsExact(FLASH_ORIGIN, FLASH_ORIGIN + FLASH_SIZE);
  }

  /** With a task dispatched, U-mode reads and executes flash, reads and writes the task's region, and has nothing else. */
  lemma ActivatedAccess(r: Regs, t: TaskInfo, x: nat)
    requires UpperOff(r) && Aligned(t)
    ensures UserAccess(Activated(Configured(r), t), x) ==
            if FLASH_ORIGIN <= x < FLASH_ORIGIN + FLASH_SIZE then 4 + 1
            else if InRegion(t, x) then 2 + 1
            else 0
  {
    var r1 := Activated(Configured(r), t);
    AccessBits();
    FlashMatches(r, x);
    TaskByte(Configured(r), t);
    ActivatedMatches(Configured(r), t, x);
    FirstThreeDecide(r1, x);
  }

  lemma FlashByte()
    ensures BitOr(BitOr(PMP_NAPOT, PMP_R), PMP_X) == PMP_NAPOT + PMP_R + PMP_X
  {
    ModeBits(1);
    OrUnfold(25, 4);
    OrUnfold(12, 2);
    OrUnfold(6, 1);
    OrZeroRight(3);
  }

  /** The PMP registers of the hart, with every register state a CSR write has produced. */
  class PmpUnit {
    var regs: Regs
    ghost var history: seq<Regs>

    /** `csrw pmpaddr<idx>, val` for entries 0, 1 and 2. */
    method WritePmpAddr(idx: nat, val: nat)
      requires idx < 3
      modifies this
      ensures regs == (match idx case 0 => old(regs).(addr0 := val) case 1 => old(regs).(addr1 := val) case _ => old(regs).(addr2 := val))
      ensures history == old(history) + [regs]
    {
      match idx {
        case 0 => regs := regs.(addr0 := val);
        case 1 => regs := regs.(addr1 := val);
        case _ => regs := regs.(addr2 := val);
      }
      history := history + [regs];
    }

    /** One configuration byte changes, by a clear and a set; the other entries' bytes never do. */
    method WriteCfgByte(idx: nat, byte: u8)
      requires idx < 4
      modifies this
      ensures regs == old(regs).(cfg0 := old(regs).cfg0[idx := byte])
      ensures history == old(history) + [old(regs).(cfg0 := old(regs).cfg0[idx := 0]), regs]
    {
      var clear := ShiftedByte(0xFF, idx);
      var bits := ShiftedByte(byte, idx);
      ByteCleared(regs.cfg0, idx);
      regs := regs.(cfg0 := CsrClear(regs.cfg0, clear));
      history := history + [regs];
      ByteSet(regs.cfg0, idx, byte);
      regs := regs.(cfg0 := CsrSet(regs.cfg0, bits));
      history := history + [regs];
    }

    /** `configure_pmp`, from any register state. */
    method ConfigurePmp()
      modifies this
      ensures regs == Configured(old(regs))
    {
      FlashIsNapot();
      regs := regs.(cfg0 := [0, 0, 0, 0]);
      history := history + [regs];
      WritePmpAddr(0, NapotAddr(FLASH_ORIGIN, FLASH_ORIGIN + FLASH_SIZE));
      FlashByte();
      WriteCfgByte(0, BitOr(BitOr(PMP_NAPOT, PMP_R), PMP_X));
    }

    /**
      On the way from the old task's region to `t`'s, every intermediate register
      state has entries 1 and 2 exactly as before, or off, or exactly as they end.
     */
    method ActivateTaskRegion(t: TaskInfo)
      requires regs.cfg0[1] == 0
      modifies this
      ensures regs == Activated(old(regs), t)
      ensures |history| == |old(history)| + 8 && old(history) <= history
      ensures forall k, x :: |old(history)| <= k < |history| ==>
                || TaskEntriesMatch(history[k], x) == false
                || (k == |history| - 1 && history[k] == regs)
      ensures forall k :: |old(history)| <= k < |history| ==>
                history[k].cfg0[0] == old(regs).cfg0[0] && history[k].cfg0[3] == old(regs).cfg0[3] && history[k].addr0 == old(regs).addr0
    {
      var e := TaskEntries(t);
      TaskEntriesFit(t);
      assert ModeOf(0) == Off;
      WriteCfgByte(2, 0);
      WritePmpAddr(1, e.addrLo);
      WritePmpAddr(2, e.addrHi);
      WriteCfgByte(1, e.cfgLo);
      WriteCfgByte(2, e.cfgHi);
    }
  }
}
