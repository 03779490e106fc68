/**
  The timer: 64-bit `mtime` and `mtimecmp` accessed as two 32-bit words each
  (section 3.2.1 of the RISC-V Privileged Architecture), and the tick deadline.
 */
module Clint {
  import opened Words

  const TWO64: int := 0x1_0000_0000_0000_0000
  const TICK_CYCLES: int := 10_000
  /** While the high word is all ones, no compare value is below this. */
  const SAFE: int := 0xFFFF_FFFF_0000_0000

  type u64 = x: int | 0 <= x < 0x1_0000_0000_0000_0000

  function Hi(x: u64): u32 { x / TWO32 }

  function Lo(x: u64): u32 { x % TWO32 }

  function Join(hi: u32, lo: u32): u64 { hi * TWO32 + lo }

  /**
    Three reads at times t0 <= t1 <= t2: if the two high words agree, the result
    is the counter's value at the middle read.
   */
  lemma AgreeingReads(t0: u64, t1: u64, t2: u64)
    requires t0 <= t1 <= t2 && Hi(t0) == Hi(t2)
    ensures Join(Hi(t0), Lo(t1)) == t1
  {
    assert Hi(t0) <= Hi(t1) <= Hi(t2);
  }

  /** Without the second look at the high word the result can be off by 2^32 or worse. */
  lemma CarryNeedsReread()
    ensures exists t0: u64, t1: u64 :: t0 <= t1 && t1 == t0 + 1 && Join(Hi(t0), Lo(t1)) == t1 - TWO32
  {
    var t0: u64, t1: u64 := TWO32 - 1, TWO32;
    assert Join(Hi(t0), Lo(t1)) == t1 - TWO32;
  }

  /** One period later, in 64 bits. */
  function Later(t: u64): (r: u64)
    ensures t + TICK_CYCLES < TWO64 ==> r == t + TICK_CYCLES
  {
    if t + TICK_CYCLES < TWO64 then t + TICK_CYCLES else t + TICK_CYCLES - TWO64
  }

  /** What a deadline becomes when the handler reads the time `now`. */
  function NextDeadline(deadline: int, now: int): (next: int)
    ensures next > now
    ensures next >= deadline + TICK_CYCLES
    ensures deadline + TICK_CYCLES > now ==> next == deadline + TICK_CYCLES
    ensures deadline + TICK_CYCLES <= now ==> next == now + TICK_CYCLES
  {
    if deadline + TICK_CYCLES <= now then now + TICK_CYCLES else deadline + TICK_CYCLES
  }

  /** The deadline after the interrupts that read the times `nows`. */
  function Deadlines(first: int, nows: seq<int>): int {
    if nows == [] then first
    else NextDeadline(Deadlines(first, nows[..|nows| - 1]), nows[|nows| - 1])
  }

  /** No handler ran a whole period late. */
  ghost predicate Punctual(first: int, nows: seq<int>) {
    forall k :: 0 <= k < |nows| ==> nows[k] < first + (k + 1) * TICK_CYCLES
  }

  /** The n-th deadline is at least n periods after the first: exactly n if and only if no handler overran. */
  lemma {:induction false} DriftFree(first: int, nows: seq<int>)
    ensures Deadlines(first, nows) >= first + |nows| * TICK_CYCLES
    ensures Deadlines(first, nows) == first + |nows| * TICK_CYCLES <==> Punctual(first, nows)
  {
    if nows != [] {
      var n := |nows| - 1;
      var rest := nows[..n];
      DriftFree(first, rest);
      assert Punctual(first, nows) <==> Punctual(first, rest) && nows[n] < first + (n + 1) * TICK_CYCLES by {
        assert forall k :: 0 <= k < n ==> nows[k] == rest[k];
      }
      assert (n + 1) * TICK_CYCLES == n * TICK_CYCLES + TICK_CYCLES;
    }
  }

  class Timer {
    /** The counter; it may advance at any access. */
    var mtime: u64
    var cmpLo: u32
    var cmpHi: u32
    var tickCount: u32
    var nextDeadline: u64
    /** Every value `mtimecmp` has held after a word write. */
    ghost var exposed: seq<int>
    /** The deadline `start_ticks` armed, and the times the handler has read since. */
    ghost var first: int
    ghost var nows: seq<int>

    /** The deadline is the one those readings lead to, as long as it fits 64 bits. */
    ghost predicate OnTrack()
      reads this
    {
      Deadlines(first, nows) < TWO64 ==> nextDeadline == Deadlines(first, nows)
    }

    function Mtimecmp(): u64
      reads this
    {
      Join(cmpHi, cmpLo)
    }

    /** Time passes. */
    method Elapse()
      modifies this`mtime
      ensures old(mtime) <= mtime
    {
      var t: u64 :| mtime <= t;
      mtime := t;
    }

    method ReadHi() returns (hi: u32)
      modifies this`mtime
      ensures old(mtime) <= mtime && hi == Hi(mtime)
    {
      Elapse();
      hi := Hi(mtime);
    }

    method ReadLo() returns (lo: u32)
      modifies this`mtime
      ensures old(mtime) <= mtime && lo == Lo(mtime)
    {
      Elapse();
      lo := Lo(mtime);
    }

    /** Returns a value the counter had during the call; every retry sees a larger high word. */
    method GetMtime() returns (now: u64)
      modifies this`mtime
      ensures old(mtime) <= now <= mtime
    {
      while true
        invariant old(mtime) <= mtime
        decreases TWO32 - Hi(mtime)
      {
        var hi0 := ReadHi();
        ghost var t0 := mtime;
        var lo := ReadLo();
        ghost var t1 := mtime;
        var hi1 := ReadHi();
        if hi0 == hi1 {
          AgreeingReads(t0, t1, mtime);
          return Join(hi0, lo);
        }
      }
    }

    /** Between the old and the new value, the compare register is never below SAFE. */
    method SetMtimecmp(val: u64)
      modifies this`cmpLo, this`cmpHi, this`exposed
      ensures Mtimecmp() == val
      ensures exists a, b :: exposed == old(exposed) + [a, b, val] && a >= SAFE && b >= SAFE
    {
      var lo := Lo(val);
      var hi := Hi(val);
      cmpHi := 0xFFFF_FFFF;
      ghost var a := Mtimecmp();
      cmpLo := lo;
      ghost var b := Mtimecmp();
      cmpHi := hi;
      exposed := exposed + [a, b, Mtimecmp()];
    }

    /**
      Counts the tick and arms the next deadline; `now` is the time it read.
      Successive deadlines drift exactly when some call overran its period.
     */
    method TimerIsr() returns (tick: u32, ghost now: u64)
      modifies this
      ensures first == old(first) && nows == old(nows) + [now]
      ensures old(OnTrack()) ==> OnTrack()
      ensures old(OnTrack()) && Deadlines(first, nows) < TWO64 ==>
                && nextDeadline > now && nextDeadline >= old(nextDeadline) + TICK_CYCLES
                && nextDeadline >= first + |nows| * TICK_CYCLES
                && (nextDeadline == first + |nows| * TICK_CYCLES <==> Punctual(first, nows))
      ensures tick == tickCount == WrapAdd(old(tickCount), 1)
      ensures old(mtime) <= now <= mtime
      ensures Mtimecmp() == nextDeadline
      ensures old(nextDeadline) + TICK_CYCLES < TWO64 && now + TICK_CYCLES < TWO64 ==>
                nextDeadline == NextDeadline(old(nextDeadline), now)
    {
      tickCount := WrapAdd(tickCount, 1);
      tick := tickCount;
      nextDeadline := Later(nextDeadline);
      var t := GetMtime();
      now := t;
      if nextDeadline <= t {
        nextDeadline := Later(t);
      }
      SetMtimecmp(nextDeadline);
      nows := nows + [now];
      assert nows[..|nows| - 1] == old(nows);
      DriftFree(first, nows);
    }

    /** The first deadline is one period after a time read during the call. */
    method StartTicks() returns (ghost now: u64)
      modifies this
      ensures old(mtime) <= now <= mtime && tickCount == old(tickCount)
      ensures now + TICK_CYCLES < TWO64 ==> nextDeadline == now + TICK_CYCLES && Mtimecmp() == nextDeadline
      ensures first == now + TICK_CYCLES && nows == [] && OnTrack()
    {
      var t := GetMtime();
      now := t;
      nextDeadline := Later(t);
      SetMtimecmp(nextDeadline);
      first, nows := now + TICK_CYCLES, [];
    }
  }
}
