/** The environment of the STM32 RNG driver: the peripheral's register window
    as a scripted register bank, and the platform services the driver calls
    (microsecond delay, timeout tracking, clock, reset and secure-iomem
    registration) as a log of calls over a virtual clock. */
module Stm32RngHw {

  /** The three RNG registers, at offsets 0x00 (CR), 0x04 (SR) and 0x08 (DR) from the base. */
  datatype Reg = CR | SR | DR

  /** One 32-bit access to the register window, with the value read or written. */
  datatype Access = Rd(reg: Reg, value: bv32) | Wr(reg: Reg, value: bv32)

  // Control register bits.
  const RNG_CR_RNGEN: bv32 := 1 << 2
  const RNG_CR_IE: bv32 := 1 << 3
  const RNG_CR_CED: bv32 := 1 << 5
  const RNG_CR_CONDRST: bv32 := 1 << 30

  // Status register bits.
  const RNG_SR_DRDY: bv32 := 1 << 0
  const RNG_SR_CECS: bv32 := 1 << 1
  const RNG_SR_SECS: bv32 := 1 << 2
  const RNG_SR_CEIS: bv32 := 1 << 5
  const RNG_SR_SEIS: bv32 := 1 << 6

  /** The seed-error condition, sticky or live, as the driver tests it. */
  predicate SeedError(sr: bv32) {
    sr & (RNG_SR_SECS | RNG_SR_SEIS) != 0
  }

  /** The sticky seed-error flag. */
  predicate SeisSet(sr: bv32) {
    sr & RNG_SR_SEIS != 0
  }

  /** Data ready. */
  predicate DataReady(sr: bv32) {
    sr & RNG_SR_DRDY != 0
  }

  /** What a read-modify-write that clears `clr` and sets `setMask` writes back. */
  function ClrSet(v: bv32, clr: bv32, setMask: bv32): bv32 {
    (v & !clr) | setMask
  }

  /** The log of `n` data-register reads starting at read number `from`. */
  function DrLog(drFeed: nat -> bv32, from: nat, n: nat): (r: seq<Access>)
    ensures |r| == n
    ensures forall i :: 0 <= i < n ==> r[i] == Rd(DR, drFeed(from + i))
  {
    if n == 0 then [] else DrLog(drFeed, from, n - 1) + [Rd(DR, drFeed(from + n - 1))]
  }

  /** One more DR read extends the log of a run of DR reads. */
  lemma DrLogSnoc(l0: seq<Access>, l1: seq<Access>, l2: seq<Access>, drFeed: nat -> bv32, from: nat, n: nat)
    requires l1 == l0 + DrLog(drFeed, from, n) && l2 == l1 + [Rd(DR, drFeed(from + n))]
    ensures l2 == l0 + DrLog(drFeed, from, n + 1)
  {
  }

  /** The values of `n` data-register reads starting at read number `from`. */
  function DrWords(drFeed: nat -> bv32, from: nat, n: nat): (r: seq<bv32>)
    ensures |r| == n
    ensures forall i :: 0 <= i < n ==> r[i] == drFeed(from + i)
  {
    if n == 0 then [] else DrWords(drFeed, from, n - 1) + [drFeed(from + n - 1)]
  }

  /** The read numbers from, from + 1, ..., from + n - 1. */
  function Consec(from: nat, n: nat): (r: seq<nat>)
    ensures |r| == n
    ensures forall i :: 0 <= i < n ==> r[i] == from + i
  {
    if n == 0 then [] else Consec(from, n - 1) + [from + n - 1]
  }

  /** Two adjacent runs of read numbers are one run. */
  lemma {:induction false} ConsecAppend(from: nat, m: nat, mid: nat, n: nat)
    requires mid == from + m
    ensures Consec(from, m) + Consec(mid, n) == Consec(from, m + n)
    decreases n
  {
    if n != 0 {
      ConsecAppend(from, m, mid, n - 1);
      assert Consec(from, m) + Consec(mid, n) == (Consec(from, m) + Consec(mid, n - 1)) + [mid + n - 1];
    }
  }

  /** When the words so far came from consecutive reads starting at `lo` and
      the next run starts right after them, all of them did. */
  lemma ConsecRun(lo: nat, words: seq<bv32>, idx: seq<nat>, ws: seq<bv32>, from: nat, cond: bool)
    requires cond ==> idx == Consec(lo, |words|) && from == lo + |words|
    ensures cond ==> idx + Consec(from, |ws|) == Consec(lo, |words + ws|)
  {
    if cond {
      ConsecAppend(lo, |words|, from, |ws|);
    }
  }

  /** `words` were read from DR at the read numbers `idx`, which increase
      strictly and lie in [lo, hi). */
  ghost predicate Tracked(drFeed: nat -> bv32, words: seq<bv32>, idx: seq<nat>, lo: nat, hi: nat)
    decreases |idx|
  {
    && |words| == |idx|
    && (idx != [] ==>
      && lo <= idx[|idx| - 1] < hi
      && words[|words| - 1] == drFeed(idx[|idx| - 1])
      && Tracked(drFeed, words[..|words| - 1], idx[..|idx| - 1], lo, idx[|idx| - 1]))
  }

  /** What Tracked says, element by element. */
  lemma {:induction false} TrackedMeans(drFeed: nat -> bv32, words: seq<bv32>, idx: seq<nat>, lo: nat, hi: nat)
    requires Tracked(drFeed, words, idx, lo, hi)
    ensures |words| == |idx|
    ensures forall i :: 0 <= i < |idx| ==> words[i] == drFeed(idx[i]) && lo <= idx[i] < hi
    ensures forall i, j :: 0 <= i < j < |idx| ==> idx[i] < idx[j]
    decreases |idx|
  {
    if idx != [] {
      var n := |idx| - 1;
      TrackedMeans(drFeed, words[..n], idx[..n], lo, idx[n]);
      assert forall i :: 0 <= i < n ==> words[..n][i] == words[i] && idx[..n][i] == idx[i];
    }
  }

  /** Tracked survives raising the upper bound. */
  lemma TrackedWiden(drFeed: nat -> bv32, words: seq<bv32>, idx: seq<nat>, lo: nat, hi: nat, hi': nat)
    requires Tracked(drFeed, words, idx, lo, hi) && hi <= hi'
    ensures Tracked(drFeed, words, idx, lo, hi')
  {
  }

  /** Appending one DR read numbered at or after the bound. */
  lemma TrackedSnoc(drFeed: nat -> bv32, words: seq<bv32>, idx: seq<nat>, lo: nat, hi: nat, i: nat, to: nat)
    requires Tracked(drFeed, words, idx, lo, hi) && lo <= hi <= i && to == i + 1
    ensures Tracked(drFeed, words + [drFeed(i)], idx + [i], lo, to)
  {
    TrackedWiden(drFeed, words, idx, lo, hi, i);
    assert (words + [drFeed(i)])[..|words|] == words;
    assert (idx + [i])[..|idx|] == idx;
  }

  /** Appending the words `ws` read at the consecutive read numbers from
      `from` up to `to`, which start at the bound. */
  lemma {:induction false} TrackedRun(drFeed: nat -> bv32, words: seq<bv32>, idx: seq<nat>, lo: nat, from: nat, ws: seq<bv32>, to: nat)
    requires Tracked(drFeed, words, idx, lo, from) && lo <= from
    requires ws == DrWords(drFeed, from, |ws|) && to == from + |ws|
    ensures Tracked(drFeed, words + ws, idx + Consec(from, |ws|), lo, to)
    decreases |ws|
  {
    if ws == [] {
      assert words + ws == words;
      assert idx + Consec(from, |ws|) == idx;
    } else {
      var v := ws[..|ws| - 1];
      assert v == DrWords(drFeed, from, |ws| - 1);
      TrackedRun(drFeed, words, idx, lo, from, v, from + (|ws| - 1));
      TrackedSnoc(drFeed, words + v, idx + Consec(from, |v|), lo, from + (|ws| - 1), from + |ws| - 1, to);
      assert words + ws == (words + v) + [drFeed(from + |ws| - 1)];
      assert idx + Consec(from, |ws|) == (idx + Consec(from, |v|)) + [from + |ws| - 1];
    }
  }

  /** The register window. SR and DR are scripted: their k-th reads return
      srFeed(k) and drFeed(k), whatever was written before. CR reads back the
      last value written to it. Every access is appended to `log`. */
  class RngBank {
    const srFeed: nat -> bv32
    const drFeed: nat -> bv32
    var cr: bv32
    var srReads: nat
    var drReads: nat
    var log: seq<Access>

    constructor (srFeed: nat -> bv32, drFeed: nat -> bv32, cr: bv32)
      ensures this.srFeed == srFeed && this.drFeed == drFeed && this.cr == cr
      ensures srReads == 0 && drReads == 0 && log == []
    {
      this.srFeed := srFeed;
      this.drFeed := drFeed;
      this.cr := cr;
      srReads := 0;
      drReads := 0;
      log := [];
    }

    /** mmio_read_32(base + RNG_SR) */
    method ReadSr() returns (v: bv32)
      modifies this
      ensures v == srFeed(old(srReads))
      ensures srReads == old(srReads) + 1 && drReads == old(drReads) && cr == old(cr)
      ensures log == old(log) + [Rd(SR, v)]
    {
      v := srFeed(srReads);
      srReads := srReads + 1;
      log := log + [Rd(SR, v)];
    }

    /** mmio_read_32(base + RNG_DR) */
    method ReadDr() returns (v: bv32)
      modifies this
      ensures v == drFeed(old(drReads))
      ensures drReads == old(drReads) + 1 && srReads == old(srReads) && cr == old(cr)
      ensures log == old(log) + [Rd(DR, v)]
    {
      v := drFeed(drReads);
      drReads := drReads + 1;
      log := log + [Rd(DR, v)];
    }

    /** mmio_read_32(base + RNG_CR) */
    method ReadCr() returns (v: bv32)
      modifies this
      ensures v == cr && cr == old(cr)
      ensures srReads == old(srReads) && drReads == old(drReads)
      ensures log == old(log) + [Rd(CR, v)]
    {
      v := cr;
      log := log + [Rd(CR, v)];
    }

    /** mmio_write_32(base + RNG_CR, v) */
    method WriteCr(v: bv32)
      modifies this
      ensures cr == v
      ensures srReads == old(srReads) && drReads == old(drReads)
      ensures log == old(log) + [Wr(CR, v)]
    {
      cr := v;
      log := log + [Wr(CR, v)];
    }

    /** mmio_clrsetbits_32(base + RNG_CR, clr, set): read, clear, set, write back. */
    method ClrSetBitsCr(clr: bv32, setMask: bv32)
      modifies this
      ensures cr == ClrSet(old(cr), clr, setMask)
      ensures srReads == old(srReads) && drReads == old(drReads)
      ensures log == old(log) + [Rd(CR, old(cr)), Wr(CR, ClrSet(old(cr), clr, setMask))]
    {
      var v := ReadCr();
      WriteCr(ClrSet(v, clr, setMask));
    }

    /** mmio_clrbits_32(base + RNG_SR, clr): the read consumes one SR value. */
    method ClrBitsSr(clr: bv32)
      modifies this
      ensures srReads == old(srReads) + 1 && drReads == old(drReads) && cr == old(cr)
      ensures log == old(log) + [Rd(SR, srFeed(old(srReads))), Wr(SR, ClrSet(srFeed(old(srReads)), clr, 0))]
    {
      var v := ReadSr();
      log := log + [Wr(SR, ClrSet(v, clr, 0))];
    }
  }

  /** Calls into the clock, reset and secure-iomem collaborators. */
  datatype Call =
    | ClkEnable(clock: nat)
    | ResetAssert(id: nat, timeoutUs: nat)
    | ResetDeassert(id: nat, timeoutUs: nat)
    | RegisterSecure(base: nat)
    | RegisterNonSecure(base: nat)

  /** The platform: a virtual microsecond clock that only busy-wait delays
      advance, and the log of collaborator calls. */
  class Platform {
    var now: nat
    var calls: seq<Call>

    constructor ()
      ensures now == 0 && calls == []
    {
      now := 0;
      calls := [];
    }

    /** udelay(us) */
    method Delay(us: nat)
      modifies this
      ensures now == old(now) + us && calls == old(calls)
    {
      now := now + us;
    }

    /** A call into a collaborator; it takes no virtual time. */
    method Invoke(c: Call)
      modifies this
      ensures calls == old(calls) + [c] && now == old(now)
    {
      calls := calls + [c];
    }

    /** timeout_init_us(us): the deadline `us` microseconds from now. */
    function TimeoutInit(us: nat): nat
      reads this
    {
      now + us
    }

    /** timeout_elapsed(t): the clock has passed the deadline. */
    predicate TimeoutElapsed(t: nat)
      reads this
    {
      now > t
    }
  }
}
