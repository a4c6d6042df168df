/** The STM32MP RNG acquisition driver: the singleton driver state
    {base, clock}, seed-error recovery, the enable sequence, the byte reader
    and the initialiser. The STM32MP13/MP15 build variants and the boot image
    (BL2, BL32, other) are construction-time parameters. */
module Stm32Rng {
  import opened WordBytes
  import opened Stm32RngHw

  datatype Variant = Stm32Mp13 | Stm32Mp15

  /** The firmware image the driver is built into (IMAGE_BL2, IMAGE_BL32, neither). */
  datatype Image = Bl2 | Bl32 | OtherImage

  /** What a driver entry point ends in. Ok, EPerm and ETimedOut are the return
      values 0, -EPERM and -ETIMEDOUT; Panic is a call to panic(), which never
      returns. OutOfFuel exists only in the model: Enable used up the
      recoveries it was allowed (the source itself has no such bound). */
  datatype Rc = Ok | EPerm | ETimedOut | Panic | OutOfFuel

  const RNG_TIMEOUT_US: nat := 100000
  const RNG_TIMEOUT_STEP_US: nat := 10
  const TIMEOUT_US_1MS: nat := 1000
  const RESET_HOLD_US: nat := 20

  /** The retry budget of one group of words in the reader: the 100 ms
      timeout spent in 10 us steps. */
  const MAX_TRIES: nat := RNG_TIMEOUT_US / RNG_TIMEOUT_STEP_US

  /** Words the hardware buffers per data-ready event. */
  const WORDS_PER_READY: nat := 4

  // Device-tree status values (stm32mp_dt.h, which is not part of this model).
  const DT_DISABLED: bv32 := 0
  const DT_NON_SECURE: bv32 := 1
  const DT_SECURE: bv32 := 2

  /** The result of the device-tree lookup of the RNG node: whether a node was
      found, its status, its register base, and its clock and reset references
      (negative when absent or invalid). */
  datatype DtNode = DtNode(found: bool, status: bv32, base: nat, clock: int, reset: int)

  /** Discard reads of DR after a seed error: only STM32MP15 lacks the FIFO auto-reset. */
  function Discards(v: Variant): nat
  {
    if v == Stm32Mp15 then 12 else 0
  }

  /** The DR words that `n` seed-error recoveries throw away: Discards(v) * n. */
  function Dropped(v: Variant, n: nat): nat
  {
    if v == Stm32Mp15 then 12 * n else 0
  }

  /** Discards add up over separate runs of recoveries, and there are none
      exactly when the variant has none or no recovery happened. */
  lemma DroppedAdd(v: Variant, a: nat, b: nat)
    ensures Dropped(v, a + b) == Dropped(v, a) + Dropped(v, b)
    ensures Dropped(v, a) == 0 <==> Discards(v) == 0 || a == 0
  {
  }

  /** The control-register value the bring-up sequence leaves behind, from `cr` before it. */
  function BringUpCr(v: Variant, cr: bv32): (r: bv32)
    ensures r & RNG_CR_RNGEN != 0 && r & RNG_CR_CED != 0 && r & RNG_CR_CONDRST == 0
    ensures v == Stm32Mp15 ==> r & !(RNG_CR_RNGEN | RNG_CR_CED) == 0
    ensures v == Stm32Mp13 ==>
      r & !(RNG_CR_RNGEN | RNG_CR_CED | RNG_CR_CONDRST) == cr & !(RNG_CR_RNGEN | RNG_CR_CED | RNG_CR_CONDRST)
  {
    match v
    case Stm32Mp13 => ClrSet(ClrSet(cr, 0, RNG_CR_CONDRST | RNG_CR_CED), RNG_CR_CONDRST, RNG_CR_RNGEN)
    case Stm32Mp15 => RNG_CR_RNGEN | RNG_CR_CED
  }

  /** The register accesses of the bring-up sequence: on STM32MP13 a set of
      CONDRST and CED, then a clear of CONDRST with a set of RNGEN (each a
      read-modify-write); on STM32MP15 one write of RNGEN and CED. */
  function BringUpLog(v: Variant, cr: bv32): (r: seq<Access>)
    ensures |r| > 0 && r[|r| - 1] == Wr(CR, BringUpCr(v, cr))
  {
    match v
    case Stm32Mp13 =>
      var c1 := ClrSet(cr, 0, RNG_CR_CONDRST | RNG_CR_CED);
      [Rd(CR, cr), Wr(CR, c1), Rd(CR, c1), Wr(CR, ClrSet(c1, RNG_CR_CONDRST, RNG_CR_RNGEN))]
    case Stm32Mp15 =>
      [Wr(CR, RNG_CR_RNGEN | RNG_CR_CED)]
  }

  /** No access of `log` from position `k` on touches CR. */
  predicate NoCrFrom(log: seq<Access>, k: nat)
  {
    forall i :: k <= i < |log| ==> log[i].reg != CR
  }

  /** A log that grows in two steps, neither touching CR, grows without
      touching CR. */
  lemma LogGrow(a: seq<Access>, b: seq<Access>, c: seq<Access>)
    requires a <= b <= c && NoCrFrom(b, |a|) && NoCrFrom(c, |b|)
    ensures a <= c && NoCrFrom(c, |a|)
  {
  }

  /** How a group's wait extends the log from `l0` to `l1`: without
      touching CR and, when it succeeds, ending with the SR read of its last
      DRDY check. */
  predicate WaitLogged(l0: seq<Access>, l1: seq<Access>, srFeed: nat -> bv32, rc: Rc, checks: seq<nat>)
  {
    && l0 <= l1 && NoCrFrom(l1, |l0|)
    && (rc == Ok ==> checks != [] && |l0| < |l1| && l1[|l1| - 1] == Rd(SR, srFeed(checks[|checks| - 1])))
  }

  /** Earlier accesses that do not touch CR keep a wait's log so. */
  lemma WaitLoggedFrom(l0: seq<Access>, l1: seq<Access>, l2: seq<Access>, srFeed: nat -> bv32, rc: Rc, checks: seq<nat>)
    requires l0 <= l1 && NoCrFrom(l1, |l0|) && WaitLogged(l1, l2, srFeed, rc, checks)
    ensures WaitLogged(l0, l2, srFeed, rc, checks)
  {
  }

  /** A run of DR reads appended to a log that does not touch CR from `k`
      on leaves it so. */
  lemma DrLogNoCr(l0: seq<Access>, l1: seq<Access>, l2: seq<Access>, srFeed: nat -> bv32, rc: Rc, checks: seq<nat>,
                  drFeed: nat -> bv32, d: nat, n: nat)
    requires WaitLogged(l0, l1, srFeed, rc, checks) && l2 == l1 + DrLog(drFeed, d, n)
    ensures l0 <= l2 && NoCrFrom(l2, |l0|)
  {
  }

  /** The register accesses of one seed-error recovery whose SEIS clear
      reads SR number `s`, after `d` DR reads: the read-modify-write of SR,
      the discard reads of DR, and the read-back of SR. None touches CR, and
      the last is the read-back. */
  function RecoveryLog(v: Variant, srFeed: nat -> bv32, drFeed: nat -> bv32, s: nat, d: nat): (r: seq<Access>)
    ensures |r| == 3 + Discards(v) && NoCrFrom(r, 0)
    ensures r[0] == Rd(SR, srFeed(s)) && r[|r| - 1] == Rd(SR, srFeed(s + 1))
  {
    [Rd(SR, srFeed(s)), Wr(SR, ClrSet(srFeed(s), RNG_SR_SEIS, 0))] + DrLog(drFeed, d, Discards(v)) + [Rd(SR, srFeed(s + 1))]
  }

  /** The node is enabled for this image: in BL2 anything but disabled, in
      the other images only a node marked secure. */
  predicate EnabledFor(image: Image, status: bv32)
  {
    if image == Bl2 then status != DT_DISABLED else status & DT_SECURE != 0
  }

  /** The secure-iomem registration BL32 performs for the register window. */
  function Registration(image: Image, status: bv32, base: nat): seq<Call>
  {
    if image != Bl32 then []
    else if status & DT_NON_SECURE == DT_NON_SECURE then [RegisterNonSecure(base)]
    else [RegisterSecure(base)]
  }

  /** The reset-line calls: none without a reset reference; otherwise an
      assert, and a deassert only when the assert succeeded. */
  function ResetCalls(reset: int, assertRc: int): seq<Call>
  {
    if reset < 0 then []
    else [ResetAssert(reset, TIMEOUT_US_1MS)] + (if assertRc == 0 then [ResetDeassert(reset, TIMEOUT_US_1MS)] else [])
  }

  /** Initialisation goes as far as touching the hardware: not yet
      initialised, a device tree, and an enabled node. */
  predicate Attempts(oldBase: nat, fdtPresent: bool, node: DtNode, image: Image)
  {
    oldBase == 0 && fdtPresent && node.found && EnabledFor(image, node.status)
  }

  /** None of the fatal checks of the initialiser fires. */
  predicate Sound(node: DtNode, resetAssertRc: int, resetDeassertRc: int)
  {
    node.base != 0 && node.clock >= 0 && (node.reset >= 0 ==> resetAssertRc == 0 && resetDeassertRc == 0)
  }

  // ---- The two SR poll loops as functions of what SR reads return ----
  // SR read number k returns srFeed(k). A seed-error recovery whose status
  // read is number s clears SEIS with a read-modify-write (read s + 1) and
  // reads SR back (read s + 2).

  /** The SR read number after the first half of one try of the reader's
      do-while whose status read is number s: one read, and two more for the
      recovery when the status shows a seed error. */
  function AfterSettle(srFeed: nat -> bv32, s: nat): nat
  {
    s + (if SeedError(srFeed(s)) then 3 else 1)
  }

  /** That try panics: the status shows a seed error and SEIS reads back set
      after the recovery has cleared it. */
  predicate SettlePanics(srFeed: nat -> bv32, s: nat)
  {
    SeedError(srFeed(s)) && SeisSet(srFeed(s + 2))
  }

  /** How one group's do-while ends: its result, the SR read numbers of its
      DRDY checks in order, the recoveries it ran, and the next SR read number. */
  datatype Wait = Wait(rc: Rc, checks: seq<nat>, recs: nat, end: nat)

  /** The reader's do-while from a try whose status read is number `s`, with
      `left` tries on the counter before its decrement; `checks` and `recs`
      are those of the earlier tries. A group starts with MAX_TRIES. */
  function WaitFrom(srFeed: nat -> bv32, s: nat, left: nat, checks: seq<nat>, recs: nat): Wait
    decreases left
  {
    var recs' := if SeedError(srFeed(s)) then recs + 1 else recs;
    var c := AfterSettle(srFeed, s);
    if SettlePanics(srFeed, s) then Wait(Panic, checks, recs', c)
    else if left <= 1 then Wait(ETimedOut, checks, recs', c)
    else if DataReady(srFeed(c)) then Wait(Ok, checks + [c], recs', c + 1)
    else WaitFrom(srFeed, c + 1, left - 1, checks + [c], recs')
  }

  /** The counts of a wait: it ends in success, a timeout or a panic, makes
      fewer checks than it has tries, at least one on success and exactly one
      per try but the last on a timeout. */
  lemma {:induction false} WaitCount(srFeed: nat -> bv32, s: nat, left: nat, checks: seq<nat>, recs: nat)
    requires left >= 1
    ensures var w := WaitFrom(srFeed, s, left, checks, recs);
      && (w.rc == Ok || w.rc == ETimedOut || w.rc == Panic)
      && |checks| <= |w.checks| < |checks| + left
      && (w.rc == Ok ==> |checks| < |w.checks|)
      && (w.rc == ETimedOut ==> |w.checks| == |checks| + left - 1)
      && recs <= w.recs
    decreases left
  {
    var c := AfterSettle(srFeed, s);
    var recs' := if SeedError(srFeed(s)) then recs + 1 else recs;
    if !SettlePanics(srFeed, s) && left > 1 && !DataReady(srFeed(c)) {
      WaitCount(srFeed, c + 1, left - 1, checks + [c], recs');
    }
  }

  /** What the checks of a wait saw: DRDY clear at every check but the last,
      and set at the last exactly when the wait succeeds; the checks are
      strictly increasing SR read numbers between `lo` and the end, and on
      success the last check is the last SR read. */
  lemma {:induction false} WaitSeen(srFeed: nat -> bv32, s: nat, left: nat, checks: seq<nat>, recs: nat, lo: nat)
    requires forall i :: 0 <= i < |checks| ==> lo <= checks[i] < s && !DataReady(srFeed(checks[i]))
    requires forall i :: 0 < i < |checks| ==> checks[i - 1] < checks[i]
    requires lo <= s + 1
    ensures var w := WaitFrom(srFeed, s, left, checks, recs);
      && s < w.end
      && (forall i :: 0 <= i < |w.checks| - 1 ==> !DataReady(srFeed(w.checks[i])))
      && (w.rc == Ok <==> w.checks != [] && DataReady(srFeed(w.checks[|w.checks| - 1])))
      && (w.rc == Ok ==> w.end == w.checks[|w.checks| - 1] + 1)
      && (forall i :: 0 <= i < |w.checks| ==> lo <= w.checks[i] < w.end)
      && (forall i :: 0 < i < |w.checks| ==> w.checks[i - 1] < w.checks[i])
    decreases left
  {
    var c := AfterSettle(srFeed, s);
    var recs' := if SeedError(srFeed(s)) then recs + 1 else recs;
    if !SettlePanics(srFeed, s) && left > 1 && !DataReady(srFeed(c)) {
      WaitSeen(srFeed, c + 1, left - 1, checks + [c], recs', lo);
    }
  }

  /** One group's full budget: the counts and the checks as above, from the
      group's first SR read `s`. */
  lemma WaitBudget(srFeed: nat -> bv32, s: nat)
    ensures var w := WaitFrom(srFeed, s, MAX_TRIES, [], 0);
      && (w.rc == Ok || w.rc == ETimedOut || w.rc == Panic)
      && |w.checks| < MAX_TRIES
      && (w.rc == Ok ==> 1 <= |w.checks|)
      && (w.rc == ETimedOut ==> |w.checks| == MAX_TRIES - 1)
      && (forall i :: 0 <= i < |w.checks| - 1 ==> !DataReady(srFeed(w.checks[i])))
      && (w.rc == Ok <==> w.checks != [] && DataReady(srFeed(w.checks[|w.checks| - 1])))
      && (w.rc == Ok ==> w.end == w.checks[|w.checks| - 1] + 1)
      && (forall i :: 0 <= i < |w.checks| ==> s < w.checks[i] < w.end)
      && (forall i :: 0 < i < |w.checks| ==> w.checks[i - 1] < w.checks[i])
  {
    WaitCount(srFeed, s, MAX_TRIES, [], 0);
    WaitSeen(srFeed, s, MAX_TRIES, [], 0, s + 1);
  }

  /** Where group g's wait starts: at the reader's first SR read, or where
      the previous group's wait ended. */
  function WaitStart(s0: nat, waits: seq<Wait>, g: nat): nat
    requires g <= |waits|
  {
    if g == 0 then s0 else waits[g - 1].end
  }

  /** The waits of consecutive groups, each a full budget on the SR reads
      after the previous one. */
  predicate Chained(srFeed: nat -> bv32, s0: nat, waits: seq<Wait>)
    decreases |waits|
  {
    waits == [] ||
    (&& Chained(srFeed, s0, waits[..|waits| - 1])
     && waits[|waits| - 1] == WaitFrom(srFeed, WaitStart(s0, waits, |waits| - 1), MAX_TRIES, [], 0))
  }

  /** The recoveries of all the waits. */
  function TotalRecs(waits: seq<Wait>): nat
  {
    if waits == [] then 0 else TotalRecs(waits[..|waits| - 1]) + waits[|waits| - 1].recs
  }

  /** Appending the next group's wait keeps the chain, which then ends
      where that wait ends, with its recoveries added. */
  lemma ChainedSnoc(srFeed: nat -> bv32, s0: nat, waits: seq<Wait>, w: Wait)
    requires Chained(srFeed, s0, waits)
    requires w == WaitFrom(srFeed, WaitStart(s0, waits, |waits|), MAX_TRIES, [], 0)
    ensures Chained(srFeed, s0, waits + [w])
    ensures WaitStart(s0, waits + [w], |waits| + 1) == w.end
    ensures TotalRecs(waits + [w]) == TotalRecs(waits) + w.recs
  {
    var ws := waits + [w];
    assert ws[..|waits|] == waits;
    assert WaitStart(s0, ws, |waits|) == WaitStart(s0, waits, |waits|);
  }

  /** Every group of a chain is a full budget of WaitFrom from its start,
      and keeps to that budget: fewer than 10000 DRDY checks, at least one
      when it succeeds and 9999 when it times out. */
  lemma {:induction false} ChainedBudget(srFeed: nat -> bv32, s0: nat, waits: seq<Wait>)
    requires Chained(srFeed, s0, waits)
    ensures forall g :: 0 <= g < |waits| ==> waits[g] == WaitFrom(srFeed, WaitStart(s0, waits, g), MAX_TRIES, [], 0)
    ensures forall g :: 0 <= g < |waits| ==>
      && |waits[g].checks| < MAX_TRIES
      && (waits[g].rc == Ok ==> 1 <= |waits[g].checks|)
      && (waits[g].rc == ETimedOut ==> |waits[g].checks| == MAX_TRIES - 1)
    decreases |waits|
  {
    if waits != [] {
      var n := |waits| - 1;
      var v := waits[..n];
      ChainedBudget(srFeed, s0, v);
      forall g | 0 <= g < |waits|
        ensures waits[g] == WaitFrom(srFeed, WaitStart(s0, waits, g), MAX_TRIES, [], 0)
      {
        if g < n {
          assert waits[g] == v[g];
          assert WaitStart(s0, waits, g) == WaitStart(s0, v, g) by {
            if g > 0 { assert waits[g - 1] == v[g - 1]; }
          }
        }
      }
      forall g | 0 <= g < |waits|
        ensures |waits[g].checks| < MAX_TRIES
        ensures waits[g].rc == Ok ==> 1 <= |waits[g].checks|
        ensures waits[g].rc == ETimedOut ==> |waits[g].checks| == MAX_TRIES - 1
      {
        WaitBudget(srFeed, WaitStart(s0, waits, g));
      }
    }
  }

  /** A device whose SR shows DRDY and no seed error at every read passes
      every wait at its first check. */
  lemma AlwaysReady(srFeed: nat -> bv32, s0: nat, waits: seq<Wait>)
    requires Chained(srFeed, s0, waits)
    requires forall k :: DataReady(srFeed(k)) && !SeedError(srFeed(k))
    ensures forall g :: 0 <= g < |waits| ==> waits[g].rc == Ok && |waits[g].checks| == 1 && waits[g].recs == 0
  {
    ChainedBudget(srFeed, s0, waits);
    forall g | 0 <= g < |waits|
      ensures waits[g].rc == Ok && |waits[g].checks| == 1 && waits[g].recs == 0
    {
      var s := WaitStart(s0, waits, g);
      assert !SeedError(srFeed(s)) && DataReady(srFeed(s + 1));
    }
  }

  /** How stm32_rng_enable's poll loop ends: its result, the SR values it
      examined in order, its recoveries, and the next SR read number. */
  datatype Poll = Poll(rc: Rc, polls: seq<bv32>, recs: nat, end: nat)

  /** That poll loop at its test, with the SR values seen so far in `polls`
      (the last is the one under test), SR read number `k` next, the clock at
      `now`, the timeout at `deadline` and `left` recoveries allowed. */
  function PollFrom(srFeed: nat -> bv32, k: nat, now: nat, deadline: nat, left: nat, polls: seq<bv32>, recs: nat): Poll
    requires polls != []
    decreases left, deadline + RNG_TIMEOUT_STEP_US - now
  {
    var sr := polls[|polls| - 1];
    if DataReady(sr) then Poll(Ok, polls, recs, k)
    else if now > deadline then Poll(ETimedOut, polls, recs, k)
    else if !SeedError(sr) then
      PollFrom(srFeed, k + 1, now + RNG_TIMEOUT_STEP_US, deadline, left, polls + [srFeed(k)], recs)
    else if left == 0 then Poll(OutOfFuel, polls, recs, k)
    else if SeisSet(srFeed(k + 1)) then Poll(Panic, polls, recs + 1, k + 2)
    else PollFrom(srFeed, k + 3, now + RNG_TIMEOUT_STEP_US, now + RNG_TIMEOUT_US, left - 1,
                  polls + [srFeed(k + 2)], recs + 1)
  }

  /** The whole poll loop after the bring-up, from SR read number k at time
      t: the facts of PollSeen, PollTimeout and PollFuel from its start. */
  lemma PollBudget(srFeed: nat -> bv32, k: nat, t: nat, fuel: nat, r: Poll)
    requires r == PollFrom(srFeed, k + 1, t, t + RNG_TIMEOUT_US, fuel, [srFeed(k)], 0)
    ensures r.rc == Ok || r.rc == ETimedOut || r.rc == Panic || r.rc == OutOfFuel
    ensures |r.polls| > 0 && r.polls[0] == srFeed(k)
    ensures forall i :: 0 <= i < |r.polls| - 1 ==> !DataReady(r.polls[i])
    ensures r.rc == Ok <==> DataReady(r.polls[|r.polls| - 1])
    ensures r.rc == ETimedOut ==>
      |r.polls| > MAX_TRIES && forall i :: |r.polls| - 1 - MAX_TRIES <= i < |r.polls| - 1 ==> !SeedError(r.polls[i])
    ensures r.recs <= fuel && (r.rc == OutOfFuel ==> r.recs == fuel)
  {
    PollSeen(srFeed, k + 1, t, t + RNG_TIMEOUT_US, fuel, [srFeed(k)], 0);
    PollTimeout(srFeed, k + 1, t, t + RNG_TIMEOUT_US, fuel, [srFeed(k)], 0, 1);
    PollFuel(srFeed, k + 1, t, t + RNG_TIMEOUT_US, fuel, [srFeed(k)], 0);
  }

  /** What the polls of the loop saw: DRDY clear at every poll but the
      last, and set at the last exactly on success. */
  lemma {:induction false} PollSeen(srFeed: nat -> bv32, k: nat, now: nat, deadline: nat, left: nat,
                                    polls: seq<bv32>, recs: nat)
    requires polls != []
    requires forall i :: 0 <= i < |polls| - 1 ==> !DataReady(polls[i])
    ensures var r := PollFrom(srFeed, k, now, deadline, left, polls, recs);
      && (r.rc == Ok || r.rc == ETimedOut || r.rc == Panic || r.rc == OutOfFuel)
      && |polls| <= |r.polls| && r.polls[..|polls|] == polls
      && (forall i :: 0 <= i < |r.polls| - 1 ==> !DataReady(r.polls[i]))
      && (r.rc == Ok <==> DataReady(r.polls[|r.polls| - 1]))
    decreases left, deadline + RNG_TIMEOUT_STEP_US - now
  {
    var sr := polls[|polls| - 1];
    if DataReady(sr) || now > deadline {
    } else if !SeedError(sr) {
      PollSeen(srFeed, k + 1, now + RNG_TIMEOUT_STEP_US, deadline, left, polls + [srFeed(k)], recs);
    } else if left != 0 && !SeisSet(srFeed(k + 1)) {
      PollSeen(srFeed, k + 3, now + RNG_TIMEOUT_STEP_US, now + RNG_TIMEOUT_US, left - 1, polls + [srFeed(k + 2)], recs + 1);
    }
  }

  /** A timeout of the loop comes only after more than 10000 polls since the
      last restart of the timeout, the 10000 before the last without a seed
      error; `quiet` counts the polls since that restart. */
  lemma {:induction false} PollTimeout(srFeed: nat -> bv32, k: nat, now: nat, deadline: nat, left: nat,
                                       polls: seq<bv32>, recs: nat, quiet: nat)
    requires polls != [] && 1 <= quiet <= |polls|
    requires forall i :: |polls| - quiet <= i < |polls| - 1 ==> !SeedError(polls[i])
    requires now + RNG_TIMEOUT_US <= deadline + RNG_TIMEOUT_STEP_US * quiet
    ensures var r := PollFrom(srFeed, k, now, deadline, left, polls, recs);
      r.rc == ETimedOut ==>
        |r.polls| > MAX_TRIES && forall i :: |r.polls| - 1 - MAX_TRIES <= i < |r.polls| - 1 ==> !SeedError(r.polls[i])
    decreases left, deadline + RNG_TIMEOUT_STEP_US - now
  {
    var sr := polls[|polls| - 1];
    if DataReady(sr) || now > deadline {
    } else if !SeedError(sr) {
      PollTimeout(srFeed, k + 1, now + RNG_TIMEOUT_STEP_US, deadline, left, polls + [srFeed(k)], recs, quiet + 1);
    } else if left != 0 && !SeisSet(srFeed(k + 1)) {
      PollTimeout(srFeed, k + 3, now + RNG_TIMEOUT_STEP_US, now + RNG_TIMEOUT_US, left - 1,
                  polls + [srFeed(k + 2)], recs + 1, 1);
    }
  }

  /** The loop runs at most `left` recoveries, and all of them when the
      model's bound stops it. */
  lemma {:induction false} PollFuel(srFeed: nat -> bv32, k: nat, now: nat, deadline: nat, left: nat,
                                    polls: seq<bv32>, recs: nat)
    requires polls != []
    ensures var r := PollFrom(srFeed, k, now, deadline, left, polls, recs);
      recs <= r.recs <= recs + left && (r.rc == OutOfFuel ==> r.recs == recs + left)
    decreases left, deadline + RNG_TIMEOUT_STEP_US - now
  {
    var sr := polls[|polls| - 1];
    if DataReady(sr) || now > deadline {
    } else if !SeedError(sr) {
      PollFuel(srFeed, k + 1, now + RNG_TIMEOUT_STEP_US, deadline, left, polls + [srFeed(k)], recs);
    } else if left != 0 && !SeisSet(srFeed(k + 1)) {
      PollFuel(srFeed, k + 3, now + RNG_TIMEOUT_STEP_US, now + RNG_TIMEOUT_US, left - 1, polls + [srFeed(k + 2)], recs + 1);
    }
  }


  /** The buffer image `img` with `src` written at offset `at`, byte by byte. */
  function Put(img: seq<bv8>, at: nat, src: seq<bv8>): (r: seq<bv8>)
    requires at + |src| <= |img|
    ensures |r| == |img|
    decreases |src|
  {
    if src == [] then img else Put(img[at := src[0]], at + 1, src[1..])
  }

  /** Where the write lands, byte i reads back from `src`; elsewhere it is untouched. */
  lemma {:induction false} PutAt(img: seq<bv8>, at: nat, src: seq<bv8>, i: nat)
    requires at + |src| <= |img| && i < |img|
    ensures Put(img, at, src)[i] == if at <= i < at + |src| then src[i - at] else img[i]
    decreases |src|
  {
    if src != [] {
      PutAt(img[at := src[0]], at + 1, src[1..], i);
    }
  }

  /** The same in terms of the three slices. */
  lemma PutParts(img: seq<bv8>, at: nat, src: seq<bv8>)
    requires at + |src| <= |img|
    ensures Put(img, at, src)[..at] == img[..at]
    ensures Put(img, at, src)[at..at + |src|] == src
    ensures Put(img, at, src)[at + |src|..] == img[at + |src|..]
  {
    var r := Put(img, at, src);
    forall i | 0 <= i < |img| {
      PutAt(img, at, src, i);
    }
    assert r[..at] == img[..at];
    assert r[at..at + |src|] == src;
    assert r[at + |src|..] == img[at + |src|..];
  }

  /** Two adjacent writes are one write of the concatenation. */
  lemma PutPut(img: seq<bv8>, at: nat, s: seq<bv8>, mid: nat, t: seq<bv8>)
    requires mid == at + |s| && mid + |t| <= |img|
    ensures Put(Put(img, at, s), mid, t) == Put(img, at, s + t)
  {
    var m := Put(img, at, s);
    forall i | 0 <= i < |img|
      ensures Put(m, mid, t)[i] == Put(img, at, s + t)[i]
    {
      PutAt(m, mid, t, i);
      PutAt(img, at, s, i);
      PutAt(img, at, s + t, i);
    }
  }

  /** Cutting a concatenation inside its second part. */
  lemma PrefixAppend(s: seq<bv8>, t: seq<bv8>, k: nat, end: nat)
    requires k <= |t| && end == |s| + k
    ensures (s + t)[..end] == s + t[..k]
  {
  }

  /** The image after one group of the reader: when `mid` holds the stream
      of the earlier words, writing the stream of the group's words cut at k
      right after it gives the stream of all of them, cut at the same point. */
  lemma GroupImage(img: seq<bv8>, mid: seq<bv8>, words: seq<bv32>, ws: seq<bv32>, at: nat, k: nat, end: nat)
    requires at == 4 * |words| && end == at + k
    requires k <= 4 * |ws| && end <= |img|
    requires mid == Put(img, 0, Stream(words))
    ensures Put(mid, at, Stream(ws)[..k]) == Put(img, 0, Stream(words + ws)[..end])
  {
    PutPut(img, 0, Stream(words), at, Stream(ws)[..k]);
    StreamPrefix(words, ws, k, end);
  }

  /** The bookkeeping of one group of the reader: the buffer image, the
      tracked reads and, without discards, their run of read numbers all
      extend by the group's words `ws`, read from `d0` up to `d1`. */
  lemma GroupStep(img0: seq<bv8>, mid: seq<bv8>, cur: seq<bv8>, words: seq<bv32>, ws: seq<bv32>,
                  pos: nat, pos': nat, drFeed: nat -> bv32, idx: seq<nat>, lo: nat, d0: nat, d1: nat, cond: bool)
    requires pos == 4 * |words| && pos <= pos' <= pos + 4 * |ws| && pos' <= |img0|
    requires mid == Put(img0, 0, Stream(words))
    requires cur == Put(mid, pos, Stream(ws)[..pos' - pos])
    requires Tracked(drFeed, words, idx, lo, d0) && lo <= d0
    requires ws == DrWords(drFeed, d0, |ws|) && d1 == d0 + |ws|
    requires cond ==> idx == Consec(lo, |words|) && d0 == lo + |words|
    ensures cur == Put(img0, 0, Stream(words + ws)[..pos'])
    ensures Tracked(drFeed, words + ws, idx + Consec(d0, |ws|), lo, d1)
    ensures cond ==> idx + Consec(d0, |ws|) == Consec(lo, |words + ws|)
  {
    GroupImage(img0, mid, words, ws, pos, pos' - pos, pos');
    TrackedRun(drFeed, words, idx, lo, d0, ws, d1);
    ConsecRun(lo, words, idx, ws, d0, cond);
  }

  /** memcpy(out + at, src, n) */
  method Memcpy(out: array<bv8>, at: nat, src: seq<bv8>, n: nat)
    requires n <= |src| && at + n <= out.Length
    modifies out
    ensures out[..] == Put(old(out[..]), at, src[..n])
  {
    forall i | at <= i < at + n {
      out[i] := src[i - at];
    }
    forall i | 0 <= i < out.Length
      ensures out[i] == Put(old(out[..]), at, src[..n])[i]
    {
      PutAt(old(out[..]), at, src[..n], i);
    }
  }

  /** The driver instance: the static `stm32_rng` {base, clock}, bound to the
      register window and platform it runs on. */
  class Driver {
    var base: nat
    var clock: nat
    const variant: Variant
    const image: Image
    const hw: RngBank
    const plat: Platform

    /** The zero-initialised static instance. */
    constructor (variant: Variant, image: Image, hw: RngBank, plat: Platform)
      ensures base == 0 && clock == 0
      ensures this.variant == variant && this.image == image && this.hw == hw && this.plat == plat
    {
      base := 0;
      clock := 0;
      this.variant := variant;
      this.image := image;
      this.hw := hw;
      this.plat := plat;
    }

    /** seed_error_recovery: clear SEIS, flush the FIFO with 12 discard reads
        on STM32MP15, then panic if SEIS reads back set. */
    method SeedErrorRecovery() returns (rc: Rc)
      modifies hw
      ensures rc == Ok || rc == Panic
      ensures hw.cr == old(hw.cr)
      ensures hw.srReads == old(hw.srReads) + 2
      ensures hw.drReads == old(hw.drReads) + Discards(variant)
      ensures hw.log == old(hw.log) + RecoveryLog(variant, hw.srFeed, hw.drFeed, old(hw.srReads), old(hw.drReads))
      ensures rc == Panic <==> SeisSet(hw.srFeed(old(hw.srReads) + 1))
    {
      hw.ClrBitsSr(RNG_SR_SEIS);
      ghost var cleared := hw.log;
      // The STM32MP15 FIFO flush; on STM32MP13 the loop is compiled out (zero iterations).
      var i: nat := Discards(variant);
      while i != 0
        invariant i <= Discards(variant)
        invariant hw.drReads == old(hw.drReads) + (Discards(variant) - i)
        invariant hw.srReads == old(hw.srReads) + 1 && hw.cr == old(hw.cr)
        invariant hw.log == cleared + DrLog(hw.drFeed, old(hw.drReads), Discards(variant) - i)
      {
        var discarded := hw.ReadDr();
        i := i - 1;
      }
      var sr := hw.ReadSr();
      rc := if SeisSet(sr) then Panic else Ok;
    }

    /** stm32_rng_enable: run the bring-up sequence, then poll SR every 10 us
        until DRDY, recovering from seed errors and restarting the 100 ms
        timeout after each recovery. `polls` are the SR values the loop
        examined, in order; the model allows at most `fuel` recoveries. The
        loop is PollFrom on the SR reads and the clock after the bring-up. */
    method Enable(fuel: nat) returns (rc: Rc, ghost polls: seq<bv32>, ghost recoveries: nat)
      modifies hw, plat
      ensures Poll(rc, polls, recoveries, hw.srReads)
           == PollFrom(hw.srFeed, old(hw.srReads) + 1, old(plat.now), old(plat.now) + RNG_TIMEOUT_US, fuel,
                       [hw.srFeed(old(hw.srReads))], 0)
      ensures rc == Ok || rc == ETimedOut || rc == Panic || rc == OutOfFuel
      ensures old(hw.log) + BringUpLog(variant, old(hw.cr)) <= hw.log
      ensures hw.cr == BringUpCr(variant, old(hw.cr))
      ensures hw.drReads == old(hw.drReads) + Dropped(variant, recoveries)
      // after the bring-up the loop never touches CR
      ensures NoCrFrom(hw.log, |old(hw.log)| + |BringUpLog(variant, old(hw.cr))|)
      ensures plat.calls == old(plat.calls)
      ensures |polls| > 0
      ensures forall i :: 0 <= i < |polls| - 1 ==> !DataReady(polls[i])
      ensures rc == Ok <==> DataReady(polls[|polls| - 1])
      ensures rc == Ok ==> hw.log[|hw.log| - 1] == Rd(SR, polls[|polls| - 1])
      // a timeout needs 10001 polls since the last restart, none of the first 10000 with a seed error
      ensures rc == ETimedOut ==>
        |polls| > MAX_TRIES && forall i :: |polls| - 1 - MAX_TRIES <= i < |polls| - 1 ==> !SeedError(polls[i])
      ensures recoveries <= fuel && (rc == OutOfFuel ==> recoveries == fuel)
    {
      BringUp();
      ghost var k, t := hw.srReads, plat.now;
      rc, polls, recoveries := PollReady(fuel);
      PollBudget(hw.srFeed, k, t, fuel, Poll(rc, polls, recoveries, hw.srReads));
    }

    /** The register sequence that starts the RNG: on STM32MP13 set CONDRST
        and CED, then clear CONDRST and set RNGEN; on STM32MP15 write RNGEN
        and CED. */
    method BringUp()
      modifies hw
      ensures hw.cr == BringUpCr(variant, old(hw.cr))
      ensures hw.log == old(hw.log) + BringUpLog(variant, old(hw.cr))
      ensures hw.srReads == old(hw.srReads) && hw.drReads == old(hw.drReads)
    {
      match variant {
        case Stm32Mp13 =>
          hw.ClrSetBitsCr(0, RNG_CR_CONDRST | RNG_CR_CED);  // mmio_setbits_32
          hw.ClrSetBitsCr(RNG_CR_CONDRST, RNG_CR_RNGEN);
        case Stm32Mp15 =>
          hw.WriteCr(RNG_CR_RNGEN | RNG_CR_CED);
      }
    }

    /** The poll loop of stm32_rng_enable, after the bring-up: the loop of
        PollFrom on the SR reads and the clock from here on. */
    method PollReady(fuel: nat) returns (rc: Rc, ghost polls: seq<bv32>, ghost recoveries: nat)
      modifies hw, plat
      ensures Poll(rc, polls, recoveries, hw.srReads)
           == PollFrom(hw.srFeed, old(hw.srReads) + 1, old(plat.now), old(plat.now) + RNG_TIMEOUT_US, fuel,
                       [hw.srFeed(old(hw.srReads))], 0)
      ensures old(hw.log) <= hw.log && hw.cr == old(hw.cr) && plat.calls == old(plat.calls)
      ensures hw.drReads == old(hw.drReads) + Dropped(variant, recoveries)
      ensures NoCrFrom(hw.log, |old(hw.log)|)
      ensures rc == Ok ==> |polls| > 0 && |hw.log| > 0 && hw.log[|hw.log| - 1] == Rd(SR, polls[|polls| - 1])
    {
      var timeout: nat := plat.TimeoutInit(RNG_TIMEOUT_US);
      var sr := hw.ReadSr();
      polls, recoveries := [sr], 0;
      var left: nat := fuel;
      ghost var p0 := PollFrom(hw.srFeed, hw.srReads, plat.now, timeout, fuel, polls, 0);
      while !DataReady(sr)
        invariant |polls| > 0 && polls[|polls| - 1] == sr
        invariant p0 == PollFrom(hw.srFeed, hw.srReads, plat.now, timeout, left, polls, recoveries)
        invariant old(hw.log) <= hw.log && |hw.log| > 0 && hw.log[|hw.log| - 1] == Rd(SR, sr)
        invariant hw.cr == old(hw.cr) && plat.calls == old(plat.calls)
        invariant hw.drReads == old(hw.drReads) + Dropped(variant, recoveries)
        invariant NoCrFrom(hw.log, |old(hw.log)|)
        invariant plat.now <= timeout + RNG_TIMEOUT_STEP_US
        decreases left, timeout + RNG_TIMEOUT_STEP_US - plat.now
      {
        ghost var l0 := hw.log;
        var done;
        done, rc, sr, timeout, left, polls, recoveries := PollTurn(sr, timeout, left, polls, recoveries);
        LogGrow(old(hw.log), l0, hw.log);
        if done {
          return;
        }
      }
      rc := Ok;
    }

    /** One turn of that loop, with SR value `sr` under test and without
        DRDY: give up on a timeout; on a seed error recover (the model stops
        when its recovery bound is spent) and restart the timeout; then wait
        10 us and read SR again. It is one turn of PollFrom: the loop from
        before the turn ends as the loop from after it, or, when the turn ends
        the loop, as `rc` with the SR values and recoveries so far. */
    method PollTurn(sr: bv32, timeout: nat, left: nat, ghost polls: seq<bv32>, ghost recs: nat)
      returns (done: bool, rc: Rc, sr': bv32, timeout': nat, left': nat, ghost polls': seq<bv32>, ghost recs': nat)
      requires polls != [] && polls[|polls| - 1] == sr && !DataReady(sr)
      requires plat.now <= timeout + RNG_TIMEOUT_STEP_US
      modifies hw, plat
      ensures polls' != [] && (done ==> rc == ETimedOut || rc == OutOfFuel || rc == Panic)
      ensures PollFrom(hw.srFeed, old(hw.srReads), old(plat.now), timeout, left, polls, recs)
           == if done then Poll(rc, polls', recs', hw.srReads)
              else PollFrom(hw.srFeed, hw.srReads, plat.now, timeout', left', polls', recs')
      ensures old(hw.log) <= hw.log && hw.cr == old(hw.cr) && plat.calls == old(plat.calls)
      ensures hw.drReads + Dropped(variant, recs) == old(hw.drReads) + Dropped(variant, recs')
      // the accesses of the turn: none on a timeout, else the recovery's on a seed error, then the next SR read
      ensures old(plat.now) > timeout || rc == OutOfFuel ==> hw.log == old(hw.log)
      ensures old(plat.now) <= timeout && !SeedError(sr) ==> hw.log == old(hw.log) + [Rd(SR, sr')]
      ensures old(plat.now) <= timeout && SeedError(sr) && rc != OutOfFuel ==>
        hw.log == old(hw.log) + RecoveryLog(variant, hw.srFeed, hw.drFeed, old(hw.srReads), old(hw.drReads))
                  + (if done then [] else [Rd(SR, sr')])
      ensures NoCrFrom(hw.log, |old(hw.log)|)
      ensures !done ==>
        && polls'[|polls'| - 1] == sr'
        && |hw.log| > 0 && hw.log[|hw.log| - 1] == Rd(SR, sr')
        && plat.now <= timeout' + RNG_TIMEOUT_STEP_US
        && (left' < left || (left' == left && timeout' + RNG_TIMEOUT_STEP_US - plat.now < timeout + RNG_TIMEOUT_STEP_US - old(plat.now)))
    {
      done, rc, sr', timeout', left', polls', recs' := true, Ok, sr, timeout, left, polls, recs;
      if plat.TimeoutElapsed(timeout) {
        rc := ETimedOut;
      } else if SeedError(sr) {
        done, rc, sr', timeout', left', polls', recs' := RecoverTurn(sr, timeout, left, polls, recs);
      } else {
        plat.Delay(RNG_TIMEOUT_STEP_US);
        sr' := hw.ReadSr();
        done, polls' := false, polls + [sr'];
      }
    }

    /** The rest of a turn of that loop when `sr` shows a seed error and the
        timeout has not elapsed: stop if the model's recovery bound is spent,
        recover (a panic ends the loop), restart the timeout, wait 10 us and
        read SR again. */
    method RecoverTurn(sr: bv32, timeout: nat, left: nat, ghost polls: seq<bv32>, ghost recs: nat)
      returns (done: bool, rc: Rc, sr': bv32, timeout': nat, left': nat, ghost polls': seq<bv32>, ghost recs': nat)
      requires polls != [] && polls[|polls| - 1] == sr && !DataReady(sr) && SeedError(sr)
      requires plat.now <= timeout
      modifies hw, plat
      ensures polls' != [] && (done ==> rc == OutOfFuel || rc == Panic)
      ensures PollFrom(hw.srFeed, old(hw.srReads), old(plat.now), timeout, left, polls, recs)
           == if done then Poll(rc, polls', recs', hw.srReads)
              else PollFrom(hw.srFeed, hw.srReads, plat.now, timeout', left', polls', recs')
      ensures old(hw.log) <= hw.log && hw.cr == old(hw.cr) && plat.calls == old(plat.calls)
      ensures hw.drReads + Dropped(variant, recs) == old(hw.drReads) + Dropped(variant, recs')
      // the accesses of the turn: none when the bound is spent, else the recovery's, then the next SR read
      ensures rc == OutOfFuel <==> left == 0
      ensures rc == OutOfFuel ==> hw.log == old(hw.log)
      ensures rc != OutOfFuel ==>
        hw.log == old(hw.log) + RecoveryLog(variant, hw.srFeed, hw.drFeed, old(hw.srReads), old(hw.drReads))
                  + (if done then [] else [Rd(SR, sr')])
      ensures NoCrFrom(hw.log, |old(hw.log)|)
      ensures !done ==>
        && polls'[|polls'| - 1] == sr'
        && |hw.log| > 0 && hw.log[|hw.log| - 1] == Rd(SR, sr')
        && plat.now <= timeout' + RNG_TIMEOUT_STEP_US
        && left' < left
    {
      done, rc, sr', timeout', left', polls', recs' := true, Ok, sr, timeout, left, polls, recs;
      if left == 0 {
        rc := OutOfFuel;
        return;
      }
      var r := SeedErrorRecovery();
      left', recs' := left - 1, recs + 1;
      if r == Panic {
        rc := Panic;
        return;
      }
      timeout' := plat.TimeoutInit(RNG_TIMEOUT_US);
      plat.Delay(RNG_TIMEOUT_STEP_US);
      sr' := hw.ReadSr();
      done, polls' := false, polls + [sr'];
    }

    /** The do-while of stm32_rng_read: one budget of 10000 tries. Each try
        reads SR, recovers from a seed error if it sees one, waits 10 us and
        spends a try; with tries left it reads SR again for DRDY. It is the
        do-while of WaitFrom on the SR reads from here on; `checks` are the SR
        read numbers of its DRDY checks and `recs` its recoveries. */
    method WaitReady() returns (rc: Rc, ghost checks: seq<nat>, ghost recs: nat)
      modifies hw, plat
      ensures Wait(rc, checks, recs, hw.srReads) == WaitFrom(hw.srFeed, old(hw.srReads), MAX_TRIES, [], 0)
      ensures hw.drReads == old(hw.drReads) + Dropped(variant, recs)
      ensures hw.cr == old(hw.cr) && plat.calls == old(plat.calls)
      ensures WaitLogged(old(hw.log), hw.log, hw.srFeed, rc, checks)
    {
      var nbTries: nat := MAX_TRIES;
      checks, recs := [], 0;
      ghost var w0 := WaitFrom(hw.srFeed, hw.srReads, MAX_TRIES, [], 0);
      while true
        invariant 0 < nbTries <= MAX_TRIES
        invariant w0 == WaitFrom(hw.srFeed, hw.srReads, nbTries, checks, recs)
        invariant hw.drReads == old(hw.drReads) + Dropped(variant, recs)
        invariant hw.cr == old(hw.cr) && plat.calls == old(plat.calls)
        invariant old(hw.log) <= hw.log && NoCrFrom(hw.log, |old(hw.log)|)
        decreases nbTries
      {
        ghost var l0 := hw.log;
        var done;
        done, rc, nbTries, checks, recs := WaitTurn(nbTries, checks, recs);
        LogGrow(old(hw.log), l0, hw.log);
        if done {
          WaitLoggedFrom(old(hw.log), l0, hw.log, hw.srFeed, rc, checks);
          return;
        }
      }
    }

    /** One try of that do-while with `left` tries on the counter: settle,
        spend a try, and with tries left check DRDY. It is one step of
        WaitFrom: the do-while from before the try ends as the do-while from
        after it, or, when the try ends the loop, as `rc` with the checks and
        recoveries so far. */
    method WaitTurn(left: nat, ghost checks: seq<nat>, ghost recs: nat)
      returns (done: bool, rc: Rc, left': nat, ghost checks': seq<nat>, ghost recs': nat)
      requires left > 0
      modifies hw, plat
      ensures WaitFrom(hw.srFeed, old(hw.srReads), left, checks, recs)
           == if done then Wait(rc, checks', recs', hw.srReads)
              else WaitFrom(hw.srFeed, hw.srReads, left', checks', recs')
      ensures !done ==> 0 < left' == left - 1
      ensures hw.drReads + Dropped(variant, recs) == old(hw.drReads) + Dropped(variant, recs')
      ensures hw.cr == old(hw.cr) && plat.calls == old(plat.calls)
      ensures old(hw.log) <= hw.log && NoCrFrom(hw.log, |old(hw.log)|)
      ensures done ==> WaitLogged(old(hw.log), hw.log, hw.srFeed, rc, checks')
    {
      var r, recovered := Settle();
      ghost var l1 := hw.log;
      ghost var step: nat := if recovered then 1 else 0;
      DroppedAdd(variant, recs, step);
      recs' := recs + step;
      checks' := checks;
      done, left' := true, left;
      if r == Panic {
        return done, Panic, left', checks', recs';
      }
      left' := left - 1;
      if left' == 0 {
        return done, ETimedOut, left', checks', recs';
      }
      checks' := checks + [hw.srReads];
      var ready := CheckReady();
      LogGrow(old(hw.log), l1, hw.log);
      rc := Ok;
      done := ready;
    }

    /** The loop test of that do-while: read SR and test DRDY. */
    method CheckReady() returns (ready: bool)
      modifies hw
      ensures hw.srReads == old(hw.srReads) + 1 && hw.drReads == old(hw.drReads) && hw.cr == old(hw.cr)
      ensures ready == DataReady(hw.srFeed(hw.srReads - 1))
      ensures hw.log == old(hw.log) + [Rd(SR, hw.srFeed(old(hw.srReads)))]
      ensures old(hw.log) <= hw.log && NoCrFrom(hw.log, |old(hw.log)|) && hw.log[|hw.log| - 1] == Rd(SR, hw.srFeed(hw.srReads - 1))
    {
      var sr := hw.ReadSr();
      ready := DataReady(sr);
    }

    /** The first half of one try of that do-while: read SR, run the
        seed-error recovery if it shows a seed error, then wait 10 us (a
        panic in the recovery comes first). */
    method Settle() returns (rc: Rc, ghost recovered: bool)
      modifies hw, plat
      ensures rc == Ok || rc == Panic
      ensures recovered == SeedError(hw.srFeed(old(hw.srReads)))
      ensures hw.srReads == old(hw.srReads) + (if recovered then 3 else 1)
      ensures rc == Panic <==> recovered && SeisSet(hw.srFeed(old(hw.srReads) + 2))
      ensures rc == Ok ==> plat.now == old(plat.now) + RNG_TIMEOUT_STEP_US
      ensures hw.drReads == old(hw.drReads) + (if recovered then Discards(variant) else 0)
      ensures hw.cr == old(hw.cr) && plat.calls == old(plat.calls)
      ensures hw.log == old(hw.log) + [Rd(SR, hw.srFeed(old(hw.srReads)))]
                        + (if recovered then RecoveryLog(variant, hw.srFeed, hw.drFeed, old(hw.srReads) + 1, old(hw.drReads)) else [])
      ensures old(hw.log) <= hw.log && NoCrFrom(hw.log, |old(hw.log)|)
    {
      var status := hw.ReadSr();
      rc, recovered := Ok, false;
      if SeedError(status) {
        rc := SeedErrorRecovery();
        recovered := true;
      }
      if rc == Ok {
        plat.Delay(RNG_TIMEOUT_STEP_US);
      }
    }

    /** The inner while of stm32_rng_read: up to four DR reads, each copied
        to out + pos in memory order and cut at the remaining length. It
        returns the new position and length and the words `ws` it read:
        out[pos .. pos') holds the stream of `ws`, nothing else is touched. */
    method Drain(out: array<bv8>, pos: nat, len: nat) returns (pos': nat, len': nat, ghost ws: seq<bv32>)
      requires len != 0 && pos + len <= out.Length
      modifies out, hw
      ensures 1 <= |ws| <= WORDS_PER_READY
      ensures len' == 0 || |ws| == WORDS_PER_READY
      ensures pos' + len' == pos + len
      ensures pos + 4 * (|ws| - 1) < pos' <= pos + 4 * |ws|
      ensures len' != 0 ==> pos' == pos + 4 * |ws|
      ensures out[..] == Put(old(out[..]), pos, Stream(ws)[..pos' - pos])
      ensures ws == DrWords(hw.drFeed, old(hw.drReads), |ws|)
      ensures hw.drReads == old(hw.drReads) + |ws|
      ensures hw.srReads == old(hw.srReads) && hw.cr == old(hw.cr)
      ensures hw.log == old(hw.log) + DrLog(hw.drFeed, old(hw.drReads), |ws|)
    {
      pos', len', ws := pos, len, [];
      ghost var orig := out[..];
      ghost var d0 := hw.drReads;
      ghost var log0 := hw.log;
      // The source breaks out after the fourth word; since count starts at
      // four, testing it with the loop condition is the same.
      var count := WORDS_PER_READY;
      while len' != 0 && count != 0
        invariant 0 <= count <= WORDS_PER_READY && |ws| + count == WORDS_PER_READY
        invariant pos' + len' == pos + len
        invariant len' != 0 ==> pos' == pos + 4 * |ws|
        invariant ws == [] ==> len' == len
        invariant pos' <= pos + 4 * |ws|
        invariant ws == [] || pos + 4 * (|ws| - 1) < pos'
        invariant out[..] == Put(orig, pos, Stream(ws)[..pos' - pos])
        invariant ws == DrWords(hw.drFeed, d0, |ws|)
        invariant hw.drReads == d0 + |ws|
        invariant hw.srReads == old(hw.srReads) && hw.cr == old(hw.cr)
        invariant hw.log == log0 + DrLog(hw.drFeed, d0, |ws|)
        decreases len'
      {
        count := count - 1;
        assert Stream(ws)[..pos' - pos] == Stream(ws);
        pos', len', ws := DrainWord(out, pos', len', orig, pos, ws, d0, log0);
      }
    }

    /** One pass of that loop: read DR and copy MIN(len, 4) of its bytes to
        out + at, the end of the stream of the words `ws` read so far. */
    method DrainWord(out: array<bv8>, at: nat, len: nat, ghost orig: seq<bv8>, ghost pos: nat, ghost ws: seq<bv32>, ghost d0: nat,
                     ghost log0: seq<Access>)
      returns (at': nat, len': nat, ghost ws': seq<bv32>)
      requires len != 0 && at + len <= out.Length == |orig|
      requires at == pos + 4 * |ws| && out[..] == Put(orig, pos, Stream(ws))
      requires ws == DrWords(hw.drFeed, d0, |ws|) && hw.drReads == d0 + |ws|
      requires hw.log == log0 + DrLog(hw.drFeed, d0, |ws|)
      modifies out, hw
      ensures at' == at + (if len < 4 then len else 4) && at' + len' == at + len
      ensures len' != 0 ==> len' == len - 4
      ensures |ws'| == |ws| + 1 && at' <= pos + 4 * |ws'| && pos + 4 * (|ws'| - 1) < at'
      ensures at' - pos == 4 * |ws| + (at' - at)
      ensures out[..] == Put(orig, pos, Stream(ws')[..at' - pos])
      ensures ws' == DrWords(hw.drFeed, d0, |ws'|)
      ensures hw.drReads == d0 + |ws'| && hw.srReads == old(hw.srReads) && hw.cr == old(hw.cr)
      ensures hw.log == old(hw.log) + [Rd(DR, ws'[|ws'| - 1])]
      ensures hw.log == log0 + DrLog(hw.drFeed, d0, |ws'|)
    {
      ghost var l := hw.log;
      var data32 := hw.ReadDr();
      DrLogSnoc(log0, l, hw.log, hw.drFeed, d0, |ws|);
      assert DrWords(hw.drFeed, d0, |ws| + 1) == ws + [data32];
      ws' := ws + [data32];
      at', len' := CopyWord(out, at, len, data32, orig, pos, ws);
    }

    /** The copy in one pass of that loop: MIN(len, 4) bytes of `data32` to
        out + at, the end of the stream of the words `ws` read so far, and
        the advance of buf and len past them. */
    method CopyWord(out: array<bv8>, at: nat, len: nat, data32: bv32, ghost orig: seq<bv8>, ghost pos: nat, ghost ws: seq<bv32>)
      returns (at': nat, len': nat)
      requires len != 0 && at + len <= out.Length == |orig|
      requires at == pos + 4 * |ws| && out[..] == Put(orig, pos, Stream(ws))
      modifies out
      ensures at' == at + (if len < 4 then len else 4) && at' + len' == at + len
      ensures at' - pos == 4 * |ws| + (at' - at)
      ensures out[..] == Put(orig, pos, Stream(ws + [data32])[..at' - pos])
    {
      var chunk := if len < 4 then len else 4;  // MIN(len, sizeof(uint32_t))
      var b := LeBytes(data32);
      Memcpy(out, at, b, chunk);
      at', len' := at + chunk, len - chunk;
      PutPut(orig, pos, Stream(ws), at, b[..chunk]);
      StreamSnoc(ws, data32);
      PrefixAppend(Stream(ws), b, chunk, at' - pos);
    }

    /** One pass of the outer while of stm32_rng_read, from a group
        boundary: wait for DRDY with a fresh budget, then drain up to four
        words. The ghost parameters are the reader's bookkeeping so far
        (`img0` the buffer on entry, `lo` the DR read count on entry) and the
        primed results are the same after this group; `w` is the group's
        wait, the do-while of WaitFrom on the SR reads from here on. */
    method ReadGroup(out: array<bv8>, pos: nat, len: nat, ghost img0: seq<bv8>, ghost lo: nat,
                     ghost words: seq<bv32>, ghost idx: seq<nat>, ghost recoveries: nat)
      returns (rc: Rc, pos': nat, len': nat, ghost words': seq<bv32>, ghost idx': seq<nat>, ghost recoveries': nat, ghost w: Wait,
               ghost mid: seq<Access>, ghost d: nat)
      requires len != 0 && pos + len <= out.Length == |img0|
      requires pos == 4 * |words|
      requires out[..] == Put(img0, 0, Stream(words))
      requires Tracked(hw.drFeed, words, idx, lo, hw.drReads)
      requires hw.drReads == lo + |words| + Dropped(variant, recoveries)
      requires Discards(variant) == 0 || recoveries == 0 ==> idx == Consec(lo, |words|)
      modifies out, hw, plat
      ensures w == WaitFrom(hw.srFeed, old(hw.srReads), MAX_TRIES, [], 0)
      ensures rc == w.rc && hw.srReads == w.end && recoveries' == recoveries + w.recs
      ensures rc == Ok || rc == ETimedOut || rc == Panic
      ensures rc != Panic ==> 1 <= |w.checks| < MAX_TRIES
      ensures rc == ETimedOut ==> |w.checks| == MAX_TRIES - 1
      ensures rc != Ok ==> words' == words && pos' == pos && len' == len
      ensures rc == Ok ==> |words| < |words'| <= |words| + WORDS_PER_READY && len' < len
      ensures rc == Ok && len' != 0 ==> |words'| == |words| + WORDS_PER_READY
      ensures pos' + len' == pos + len
      ensures pos' <= 4 * |words'| && (|words'| == 0 || 4 * (|words'| - 1) < pos')
      ensures len' != 0 ==> pos' == 4 * |words'|
      ensures out[..] == Put(img0, 0, Stream(words')[..pos'])
      ensures Tracked(hw.drFeed, words', idx', lo, hw.drReads)
      ensures hw.drReads == lo + |words'| + Dropped(variant, recoveries')
      ensures Discards(variant) == 0 || recoveries' == 0 ==> idx' == Consec(lo, |words'|)
      ensures hw.cr == old(hw.cr) && plat.calls == old(plat.calls)
      ensures old(hw.log) <= hw.log && NoCrFrom(hw.log, |old(hw.log)|)
      // on success the group's DR reads come right after the SR read that saw DRDY
      // `mid` is the log after the wait: it does not touch CR and, on success, ends with the
      // SR read that saw DRDY; then come the group's DR reads and nothing else
      ensures WaitLogged(old(hw.log), mid, hw.srFeed, rc, w.checks)
      ensures rc != Ok ==> hw.log == mid
      ensures d == lo + |words| + Dropped(variant, recoveries')
      ensures rc == Ok ==> hw.log == mid + DrLog(hw.drFeed, d, |words'| - |words|)
    {
      ghost var r0 := hw.drReads;
      ghost var checks, recs;
      ghost var s := hw.srReads;
      rc, checks, recs := WaitReady();
      w := Wait(rc, checks, recs, hw.srReads);
      mid := hw.log;
      d := hw.drReads;
      WaitBudget(hw.srFeed, s);
      TrackedWiden(hw.drFeed, words, idx, lo, r0, hw.drReads);
      DroppedAdd(variant, recoveries, recs);
      DroppedAdd(variant, recs, 0);
      recoveries' := recoveries + recs;
      words', idx', pos', len' := words, idx, pos, len;
      if rc != Ok {
        assert Stream(words)[..pos] == Stream(words);
      } else {
        pos', len', words', idx' := DrainGroup(out, pos, len, img0, lo, words, idx, recoveries');
        DrLogNoCr(old(hw.log), mid, hw.log, hw.srFeed, rc, checks, hw.drFeed, d, |words'| - |words|);
      }
    }

    /** The drain of one group, with the reader's bookkeeping: the words of
        the group extend `words`, their read numbers extend `idx`, and the
        buffer holds the stream of all words so far, cut at the new position. */
    method DrainGroup(out: array<bv8>, pos: nat, len: nat, ghost img0: seq<bv8>, ghost lo: nat,
                      ghost words: seq<bv32>, ghost idx: seq<nat>, ghost recoveries: nat)
      returns (pos': nat, len': nat, ghost words': seq<bv32>, ghost idx': seq<nat>)
      requires len != 0 && pos + len <= out.Length == |img0|
      requires pos == 4 * |words|
      requires out[..] == Put(img0, 0, Stream(words))
      requires Tracked(hw.drFeed, words, idx, lo, hw.drReads)
      requires hw.drReads == lo + |words| + Dropped(variant, recoveries)
      requires Discards(variant) == 0 || recoveries == 0 ==> idx == Consec(lo, |words|)
      modifies out, hw
      ensures |words| < |words'| <= |words| + WORDS_PER_READY && len' < len
      ensures len' != 0 ==> |words'| == |words| + WORDS_PER_READY
      ensures pos' + len' == pos + len
      ensures pos' <= 4 * |words'| && (|words'| == 0 || 4 * (|words'| - 1) < pos')
      ensures len' != 0 ==> pos' == 4 * |words'|
      ensures out[..] == Put(img0, 0, Stream(words')[..pos'])
      ensures Tracked(hw.drFeed, words', idx', lo, hw.drReads)
      ensures hw.drReads == lo + |words'| + Dropped(variant, recoveries)
      ensures Discards(variant) == 0 || recoveries == 0 ==> idx' == Consec(lo, |words'|)
      ensures hw.cr == old(hw.cr) && hw.srReads == old(hw.srReads)
      ensures hw.drReads == old(hw.drReads) + (|words'| - |words|)
      ensures hw.log == old(hw.log) + DrLog(hw.drFeed, old(hw.drReads), |words'| - |words|)
    {
      ghost var d0 := hw.drReads;
      ghost var mid := out[..];
      ghost var ws;
      pos', len', ws := Drain(out, pos, len);
      GroupStep(img0, mid, out[..], words, ws, pos, pos', hw.drFeed, idx, lo, d0, hw.drReads,
                Discards(variant) == 0 || recoveries == 0);
      words', idx' := words + ws, idx + Consec(d0, |ws|);
    }

    /** The outer while of stm32_rng_read, from the start of the buffer:
        groups until `size` bytes are in or a group fails. `pos` is buf - out
        on exit; the ghost results are as for Read. A panic in a group ends
        the loop (the real program never returns from it). */
    method ReadGroups(out: array<bv8>, size: nat)
      returns (rc: Rc, pos: nat, ghost words: seq<bv32>, ghost idx: seq<nat>, ghost waits: seq<Wait>, ghost recoveries: nat)
      requires size <= out.Length
      modifies out, hw, plat
      ensures rc == Ok || rc == ETimedOut || rc == Panic
      ensures size == 0 ==> rc == Ok
      ensures pos <= size && pos <= 4 * |words|
      ensures rc == Ok ==> pos == size && (|waits| == 0 || 4 * (|waits| - 1) < |words|)
      ensures rc == ETimedOut ==> pos < size && pos == 4 * |words| && |waits| > 0 && |words| == 4 * (|waits| - 1)
      ensures |words| == 0 || 4 * (|words| - 1) < pos
      ensures |words| <= 4 * |waits|
      ensures out[..] == Put(old(out[..]), 0, Stream(words)[..pos])
      ensures size == 0 ==> unchanged(hw) && unchanged(plat)
      ensures Chained(hw.srFeed, old(hw.srReads), waits) && hw.srReads == WaitStart(old(hw.srReads), waits, |waits|)
      ensures forall g :: 0 <= g < |waits| ==> waits[g].rc == (if g == |waits| - 1 then rc else Ok)
      ensures rc != Ok ==> waits != []
      ensures recoveries == TotalRecs(waits)
      ensures Tracked(hw.drFeed, words, idx, old(hw.drReads), hw.drReads)
      ensures hw.drReads == old(hw.drReads) + |words| + Dropped(variant, recoveries)
      ensures Discards(variant) == 0 || recoveries == 0 ==> idx == Consec(old(hw.drReads), |words|)
      ensures hw.cr == old(hw.cr) && plat.calls == old(plat.calls)
      ensures old(hw.log) <= hw.log && NoCrFrom(hw.log, |old(hw.log)|)
    {
      words, idx, waits, recoveries := [], [], [], 0;
      rc := Ok;
      pos := 0;  // buf - out
      var len: nat := size;
      ghost var img0 := out[..];
      ghost var lo := hw.drReads;
      ghost var s0 := hw.srReads;
      // The source leaves the loop on a timeout with a goto to the cleanup;
      // testing rc with the loop condition is the same.
      while len != 0 && rc == Ok
        invariant rc == Ok || rc == ETimedOut || rc == Panic
        invariant size == 0 ==> rc == Ok
        invariant pos + len == size && pos <= 4 * |words|
        invariant rc == Ok && len != 0 ==> pos == 4 * |words| && |words| == 4 * |waits|
        invariant rc == ETimedOut ==> len != 0 && pos == 4 * |words| && |waits| > 0 && |words| == 4 * (|waits| - 1)
        invariant |words| == 0 || 4 * (|words| - 1) < pos
        invariant rc == Ok ==> |waits| == 0 || 4 * (|waits| - 1) < |words|
        invariant |words| <= 4 * |waits|
        invariant out[..] == Put(img0, 0, Stream(words)[..pos])
        invariant size == 0 ==> unchanged(hw) && unchanged(plat)
        invariant Chained(hw.srFeed, s0, waits) && hw.srReads == WaitStart(s0, waits, |waits|)
        invariant forall g :: 0 <= g < |waits| ==> waits[g].rc == (if g == |waits| - 1 then rc else Ok)
        invariant rc != Ok ==> waits != []
        invariant recoveries == TotalRecs(waits)
        invariant Tracked(hw.drFeed, words, idx, lo, hw.drReads)
        invariant hw.drReads == lo + |words| + Dropped(variant, recoveries)
        invariant Discards(variant) == 0 || recoveries == 0 ==> idx == Consec(lo, |words|)
        invariant hw.cr == old(hw.cr) && plat.calls == old(plat.calls)
        invariant old(hw.log) <= hw.log && NoCrFrom(hw.log, |old(hw.log)|)
        decreases len, if rc == Ok then 1 else 0
      {
        assert Stream(words)[..pos] == Stream(words);
        ghost var l0 := hw.log;
        ghost var w;
        ghost var mid, d;
        rc, pos, len, words, idx, recoveries, w, mid, d := ReadGroup(out, pos, len, img0, lo, words, idx, recoveries);
        LogGrow(old(hw.log), l0, hw.log);
        ChainedSnoc(hw.srFeed, s0, waits, w);
        waits := waits + [w];
      }
    }

    /** stm32_rng_read: fill out[0 .. size) with random bytes. Per group of up
        to four words it polls SR with a fresh budget of 10000 tries,
        recovering from seed errors inline, then drains up to four DR words
        and copies each in memory order, the last one truncated. On failure
        the bytes written so far are zeroed.
        Ghost results: `words` are the DR words copied out, `idx` the DR read
        numbers they came from, `waits[g]` the wait of group g (its DRDY
        checks and recoveries), and `recoveries` the seed-error recoveries run. */
    method Read(out: array<bv8>, size: nat)
      returns (rc: Rc, ghost words: seq<bv32>, ghost idx: seq<nat>, ghost waits: seq<Wait>, ghost recoveries: nat)
      requires size <= out.Length
      modifies out, hw, plat
      ensures rc == Ok || rc == EPerm || rc == ETimedOut || rc == Panic
      ensures rc == EPerm <==> base == 0
      ensures base != 0 && size == 0 ==> rc == Ok
      ensures base == 0 || size == 0 ==> unchanged(hw) && unchanged(plat) && out[..] == old(out[..])
      ensures hw.cr == old(hw.cr) && plat.calls == old(plat.calls)
      // the reader only reads SR and DR and clears SEIS: no access of its own touches CR
      ensures old(hw.log) <= hw.log && NoCrFrom(hw.log, |old(hw.log)|)
      // success: exactly ceil(size / 4) words, one group per four of them, the stream of their bytes cut at size
      ensures rc == Ok ==>
        && |words| == WordsFor(size)
        && |waits| == WordsFor(|words|)
        && out[..size] == Stream(words)[..size]
        && out[size..] == old(out[size..])
      // timeout: the groups before the last each copied four words; what was written is zeroed, nothing after it is touched
      ensures rc == ETimedOut ==>
        && 4 * |words| < size
        && |waits| > 0 && |words| == 4 * (|waits| - 1)
        && (forall i :: 0 <= i < 4 * |words| ==> out[i] == 0)
        && out[4 * |words|..] == old(out[4 * |words|..])
      // each group's wait is the do-while of WaitFrom on the SR reads after the previous group's;
      // all succeed but the last, whose result is the reader's
      ensures Chained(hw.srFeed, old(hw.srReads), waits) && hw.srReads == WaitStart(old(hw.srReads), waits, |waits|)
      ensures forall g :: 0 <= g < |waits| ==> waits[g].rc == (if g == |waits| - 1 then rc else Ok)
      ensures rc == ETimedOut || rc == Panic ==> waits != []
      // the retry budget is per group and recovery does not refill it
      ensures forall g :: 0 <= g < |waits| ==>
        && |waits[g].checks| < MAX_TRIES
        && (waits[g].rc == Ok ==> 1 <= |waits[g].checks|)
        && (waits[g].rc == ETimedOut ==> |waits[g].checks| == MAX_TRIES - 1)
      ensures recoveries == TotalRecs(waits)
      // the copied words are DR reads, in read order, interleaved only with recovery discards
      ensures |idx| == |words|
      ensures forall i :: 0 <= i < |words| ==> words[i] == hw.drFeed(idx[i]) && old(hw.drReads) <= idx[i] < hw.drReads
      ensures forall i, j :: 0 <= i < j < |idx| ==> idx[i] < idx[j]
      ensures hw.drReads == old(hw.drReads) + |words| + Dropped(variant, recoveries)
      ensures Discards(variant) == 0 || recoveries == 0 ==> idx == Consec(old(hw.drReads), |words|)
    {
      if base == 0 {
        return EPerm, [], [], [], 0;
      }
      ghost var img0 := out[..];
      var pos;
      rc, pos, words, idx, waits, recoveries := ReadGroups(out, size);
      ChainedBudget(hw.srFeed, old(hw.srReads), waits);
      TrackedMeans(hw.drFeed, words, idx, old(hw.drReads), hw.drReads);
      PutParts(img0, 0, Stream(words)[..pos]);
      if rc == Ok {
        WordsForUnique(size, |words|);
        WordsForUnique(|words|, |waits|);
      } else if rc == ETimedOut {
        // bail: memset(out, 0, buf - out)
        ghost var before := out[..];
        forall i | 0 <= i < pos {
          out[i] := 0;
        }
        assert out[pos..] == before[pos..];
      }
    }

    /** The secure-iomem registration of the register window in BL32: as
        non-secure when the node's status has the non-secure bit, as secure
        otherwise. */
    method Register(status: bv32)
      modifies plat
      ensures plat.calls == old(plat.calls) + Registration(image, status, base)
      ensures plat.now == old(plat.now)
    {
      if image == Bl32 {
        if status & DT_NON_SECURE == DT_NON_SECURE {
          plat.Invoke(RegisterNonSecure(base));
        } else {
          plat.Invoke(RegisterSecure(base));
        }
      }
    }

    /** The reset pulse of stm32_rng_init: without a reset reference nothing
        happens; otherwise assert the reset, hold it 20 us, deassert it. A
        failure of either call is fatal. */
    method ResetPulse(reset: int, assertRc: int, deassertRc: int) returns (rc: Rc)
      modifies plat
      ensures rc == Ok || rc == Panic
      ensures rc == Ok <==> reset < 0 || (assertRc == 0 && deassertRc == 0)
      ensures plat.calls == old(plat.calls) + ResetCalls(reset, assertRc)
      ensures plat.now == old(plat.now) + (if reset >= 0 && assertRc == 0 then RESET_HOLD_US else 0)
    {
      rc := Ok;
      if reset >= 0 {
        plat.Invoke(ResetAssert(reset, TIMEOUT_US_1MS));
        if assertRc != 0 {
          return Panic;
        }
        plat.Delay(RESET_HOLD_US);
        plat.Invoke(ResetDeassert(reset, TIMEOUT_US_1MS));
        if deassertRc != 0 {
          return Panic;
        }
      }
    }

    /** stm32_rng_init. The device-tree lookup is the input: `fdtPresent`
        says whether a device tree was found and `node` is the RNG node
        found in it; `resetAssertRc` and `resetDeassertRc` are what the reset
        controller returns, `fuel` bounds the recoveries of Enable. The
        debug assert that the node has a base address is a panic here.
        When it gets that far, the result is that of Enable's poll loop,
        PollFrom from the first SR read, started after the reset pulse. */
    method Init(fdtPresent: bool, node: DtNode, resetAssertRc: int, resetDeassertRc: int, fuel: nat)
      returns (rc: Rc, ghost polls: seq<bv32>, ghost recoveries: nat)
      modifies this, hw, plat
      ensures rc == Ok || rc == ETimedOut || rc == Panic || rc == OutOfFuel
      // already initialised: nothing happens
      ensures old(base) != 0 ==> rc == Ok && unchanged(this) && unchanged(hw) && unchanged(plat)
      // no device tree is fatal
      ensures old(base) == 0 && !fdtPresent ==> rc == Panic && unchanged(this) && unchanged(hw) && unchanged(plat)
      // an absent or disabled node is a benign success that leaves the driver uninitialised
      ensures old(base) == 0 && fdtPresent && !(node.found && EnabledFor(image, node.status)) ==>
        rc == Ok && base == 0 && unchanged(this) && unchanged(hw) && unchanged(plat)
      // otherwise the base is published before anything can fail, and stays published
      ensures Attempts(old(base), fdtPresent, node, image) ==> base == node.base
      ensures Attempts(old(base), fdtPresent, node, image) && !Sound(node, resetAssertRc, resetDeassertRc) ==> rc == Panic
      ensures Attempts(old(base), fdtPresent, node, image) && Sound(node, resetAssertRc, resetDeassertRc) ==>
        && clock == node.clock
        && plat.calls == old(plat.calls) + Registration(image, node.status, node.base) + [ClkEnable(node.clock)]
                         + ResetCalls(node.reset, resetAssertRc)
        && old(hw.log) + BringUpLog(variant, old(hw.cr)) <= hw.log
        && hw.cr == BringUpCr(variant, old(hw.cr))
        && hw.drReads == old(hw.drReads) + Dropped(variant, recoveries)
        && NoCrFrom(hw.log, |old(hw.log)| + |BringUpLog(variant, old(hw.cr))|)
        && |polls| > 0
        && (rc == Ok <==> DataReady(polls[|polls| - 1]))
      ensures Attempts(old(base), fdtPresent, node, image) && Sound(node, resetAssertRc, resetDeassertRc) ==>
        var t0 := old(plat.now) + (if node.reset >= 0 then RESET_HOLD_US else 0);
        Poll(rc, polls, recoveries, hw.srReads)
        == PollFrom(hw.srFeed, old(hw.srReads) + 1, t0, t0 + RNG_TIMEOUT_US, fuel, [hw.srFeed(old(hw.srReads))], 0)
    {
      polls, recoveries := [], 0;
      if base != 0 {
        return Ok, polls, 0;
      }
      if !fdtPresent {
        return Panic, polls, 0;
      }
      if !node.found || !EnabledFor(image, node.status) {
        return Ok, polls, 0;
      }
      if node.base == 0 {
        return Panic, polls, 0;
      }
      base := node.base;
      Register(node.status);
      if node.clock < 0 {
        return Panic, polls, 0;
      }
      clock := node.clock;
      plat.Invoke(ClkEnable(clock));
      rc := ResetPulse(node.reset, resetAssertRc, resetDeassertRc);
      if rc == Ok {
        rc, polls, recoveries := Enable(fuel);
      }
    }
  }
}
