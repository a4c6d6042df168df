/** The MT8192 DFD (design-for-debug) service of the secure monitor: the
    static DFD settings, the setup sequence that programs the DFD block, the
    replay of that sequence on resume, and the SiP call dispatcher. The
    register block is an ordered trace of accesses; the constants of the
    platform header (command magics, cache-dump flags, the *_VAL register
    values, the SiP error code) are a parameter record. */
module Mt8192Dfd {

  /** The registers the service touches. Misc1Cfg(off) is the register at
      MISC1_CFG_BASE + off. */
  datatype Reg =
    | InternalCtl | InternalPwrOn | ChainLength0 | InternalShiftClkRatio | InternalTestSoOver64
    | TestSi0 | TestSi1 | TestSi2 | TestSi3 | PowerCtl | SetBaseAddr | ProtectEn | McuPwrCtlMask
    | CleanStatus | V30Ctl | V35Enable | V35TapNumber | V35TapEn | V35Seq0 | HwTriggerMask
    | Misc1Cfg(off: bv64)

  /** One register access: mmio_write_32, sync_writel (a write followed by a
      barrier), mmio_setbits_32, mmio_clrbits_32 and mmio_read_32. */
  datatype Access =
    | Write(reg: Reg, value: bv32)
    | SyncWrite(reg: Reg, value: bv32)
    | SetBits(reg: Reg, mask: bv32)
    | ClrBits(reg: Reg, mask: bv32)
    | Read(reg: Reg, value: bv32)

  /** Constants of the platform header. */
  datatype Consts = Consts(
    setupMagic: bv64, readMagic: bv64, writeMagic: bv64, invalidParam: bv64,
    cacheDumpEnable: bv64, parityErrTrigger: bv64,
    testSi0CacheDis: bv32, testSi0CacheEn: bv32, testSi1: bv32, testSi2: bv32, testSi3: bv32,
    v35TapEn: bv32, v35Seq0: bv32)

  /** The three command magics are distinct, as the case labels of a C switch must be. */
  predicate WellFormed(k: Consts)
  {
    k.setupMagic != k.readMagic && k.setupMagic != k.writeMagic && k.readMagic != k.writeMagic
  }

  /** The largest offset the READ and WRITE commands may reach from MISC1_CFG_BASE. */
  const WINDOW: bv64 := 0x200

  /** Conversion of a 64-bit argument to the 32-bit register value: its low word. */
  function Low32(x: bv64): bv32
  {
    (x & 0xFFFF_FFFF) as bv32
  }

  /** A value that fits in 32 bits survives the conversion. */
  lemma Low32Exact(x: bv64)
    requires x < 0x1_0000_0000
    ensures Low32(x) as bv64 == x
  {
  }

  /** The register an access targets. */
  function Target(a: Access): Reg
  {
    match a
    case Write(r, _) => r
    case SyncWrite(r, _) => r
    case SetBits(r, _) => r
    case ClrBits(r, _) => r
    case Read(r, _) => r
  }

  /** Some access of the trace targets register r. */
  ghost predicate Touches(t: seq<Access>, r: Reg)
  {
    exists i :: 0 <= i < |t| && Target(t[i]) == r
  }

  /** The part of dfd_setup every call performs, up to the DFD-3.0 enable. */
  function CommonTrace(k: Consts, base: bv64, chain: bv64): (r: seq<Access>)
    ensures |r| == COMMON_LEN
  {
    [ SyncWrite(InternalCtl, 0x5),
      SetBits(InternalCtl, 1 << 13),
      SetBits(InternalCtl, 1 << 3),
      SetBits(InternalCtl, 3 << 19),
      Write(InternalPwrOn, 0xB),
      Write(ChainLength0, Low32(chain)),
      Write(InternalShiftClkRatio, 0),
      Write(InternalTestSoOver64, 1),
      Write(TestSi0, k.testSi0CacheDis),
      Write(TestSi1, k.testSi1),
      Write(TestSi2, k.testSi2),
      Write(TestSi3, k.testSi3),
      SyncWrite(PowerCtl, 0xF9),
      Write(SetBaseAddr, Low32(base >> 24)),
      ClrBits(ProtectEn, 1 << 8),
      ClrBits(McuPwrCtlMask, 1 << 2),
      SyncWrite(CleanStatus, 1),
      SyncWrite(CleanStatus, 0),
      SyncWrite(V30Ctl, 1) ]
  }

  const COMMON_LEN: nat := 19

  /** The DFD-3.5 cache-dump programming. */
  function CacheDumpWrites(k: Consts): (r: seq<Access>)
    ensures |r| == 5
  {
    [ Write(TestSi0, k.testSi0CacheEn),
      SyncWrite(V35Enable, 1),
      SyncWrite(V35TapNumber, 0xB),
      SyncWrite(V35TapEn, k.v35TapEn),
      SyncWrite(V35Seq0, k.v35Seq0) ]
  }

  /** The parity-error trigger programming. */
  function ParityWrites(): (r: seq<Access>)
    ensures |r| == 2
  {
    [ SyncWrite(HwTriggerMask, 0xC),
      SetBits(InternalCtl, 1 << 4) ]
  }

  /** The cache-dump flag of a setup request. */
  predicate CacheDumpOn(k: Consts, cache: bv64)
  {
    cache & k.cacheDumpEnable != 0
  }

  /** The parity-trigger flag of a setup request. */
  predicate ParityOn(k: Consts, cache: bv64)
  {
    cache & k.parityErrTrigger != 0
  }

  /** The accesses of dfd_setup(base, chain, cache), in order. */
  function SetupTrace(k: Consts, base: bv64, chain: bv64, cache: bv64): seq<Access>
  {
    CommonTrace(k, base, chain)
    + (if CacheDumpOn(k, cache) then CacheDumpWrites(k) + (if ParityOn(k, cache) then ParityWrites() else []) else [])
  }

  /** The setup sequence is 19 accesses, 5 more with cache dump, 2 more again with the parity trigger. */
  lemma SetupTraceLength(k: Consts, base: bv64, chain: bv64, cache: bv64)
    ensures |SetupTrace(k, base, chain, cache)|
         == COMMON_LEN + (if CacheDumpOn(k, cache) then 5 + (if ParityOn(k, cache) then 2 else 0) else 0)
  {
  }

  /** The first 19 accesses do not depend on the cache-dump request. */
  lemma SetupCommonPrefix(k: Consts, base: bv64, chain: bv64, cache: bv64)
    ensures SetupTrace(k, base, chain, cache)[..COMMON_LEN] == CommonTrace(k, base, chain)
  {
  }

  /** The base-address register receives base >> 24, cut to 32 bits; below
      2^56 nothing is cut. The scan-chain register receives the chain length
      cut to 32 bits. */
  lemma SetupValues(k: Consts, base: bv64, chain: bv64, cache: bv64)
    ensures SetupTrace(k, base, chain, cache)[13] == Write(SetBaseAddr, Low32(base >> 24))
    ensures base < 1 << 56 ==> Low32(base >> 24) as bv64 == base >> 24
    ensures SetupTrace(k, base, chain, cache)[5] == Write(ChainLength0, Low32(chain))
  {
    SetupCommonPrefix(k, base, chain, cache);
    if base < 1 << 56 {
      assert base >> 24 < 0x1_0000_0000;
      Low32Exact(base >> 24);
    }
  }

  /** Only the cache-dump part touches V35Enable. */
  lemma CommonTraceQuiet(k: Consts, base: bv64, chain: bv64)
    ensures !Touches(CommonTrace(k, base, chain), V35Enable)
    ensures !Touches(CommonTrace(k, base, chain), HwTriggerMask)
  {
    var c := CommonTrace(k, base, chain);
    forall i | 0 <= i < |c|
      ensures Target(c[i]) != V35Enable && Target(c[i]) != HwTriggerMask
    {
      if i < 10 {
        assert c[i] in c[..10];
      } else {
        assert c[i] in c[10..];
      }
    }
  }

  /** The DFD-3.5 enable is written exactly when cache dump is requested. */
  lemma CacheDumpGate(k: Consts, base: bv64, chain: bv64, cache: bv64)
    ensures Touches(SetupTrace(k, base, chain, cache), V35Enable) <==> CacheDumpOn(k, cache)
  {
    var t := SetupTrace(k, base, chain, cache);
    CommonTraceQuiet(k, base, chain);
    if CacheDumpOn(k, cache) {
      assert Target(t[COMMON_LEN + 1]) == V35Enable;
    } else {
      assert t == CommonTrace(k, base, chain);
    }
  }

  /** The hardware-trigger mask is written exactly when both cache dump and
      the parity trigger are requested. */
  lemma ParityGate(k: Consts, base: bv64, chain: bv64, cache: bv64)
    ensures Touches(SetupTrace(k, base, chain, cache), HwTriggerMask) <==> CacheDumpOn(k, cache) && ParityOn(k, cache)
  {
    var t := SetupTrace(k, base, chain, cache);
    var c := CommonTrace(k, base, chain);
    CommonTraceQuiet(k, base, chain);
    if CacheDumpOn(k, cache) && ParityOn(k, cache) {
      assert Target(t[COMMON_LEN + 5]) == HwTriggerMask;
    } else if CacheDumpOn(k, cache) {
      assert t == c + CacheDumpWrites(k);
      forall i | 0 <= i < |t|
        ensures Target(t[i]) != HwTriggerMask
      {
        if i >= COMMON_LEN {
          assert t[i] == CacheDumpWrites(k)[i - COMMON_LEN];
        } else {
          assert t[i] == c[i];
        }
      }
    } else {
      assert t == c;
    }
  }

  /** The command an SMC selects, in the order of the switch. */
  datatype Cmd = SetupCmd | ReadCmd | WriteCmd | Invalid

  function Command(k: Consts, arg0: bv64): Cmd
  {
    if arg0 == k.setupMagic then SetupCmd
    else if arg0 == k.readMagic then ReadCmd
    else if arg0 == k.writeMagic then WriteCmd
    else Invalid
  }

  /** With distinct magics each magic selects its own command and nothing
      else selects a command. */
  lemma CommandExact(k: Consts, arg0: bv64)
    requires WellFormed(k)
    ensures Command(k, arg0) == SetupCmd <==> arg0 == k.setupMagic
    ensures Command(k, arg0) == ReadCmd <==> arg0 == k.readMagic
    ensures Command(k, arg0) == WriteCmd <==> arg0 == k.writeMagic
    ensures Command(k, arg0) == Invalid <==> arg0 != k.setupMagic && arg0 != k.readMagic && arg0 != k.writeMagic
  {
  }

  /** The DFD service: the statics dfd_enabled, dfd_base_addr,
      dfd_chain_length and dfd_cache_dump, and the register accesses made so
      far. Reads of the MISC1_CFG window are scripted: the j-th read returns
      misc1Feed(j). */
  class Dfd {
    var enabled: bool
    var baseAddr: bv64
    var chainLength: bv64
    var cacheDump: bv64
    var trace: seq<Access>
    var readCount: nat
    const k: Consts
    const misc1Feed: nat -> bv32

    /** The zero-initialised statics. */
    constructor (k: Consts, misc1Feed: nat -> bv32)
      ensures !enabled && baseAddr == 0 && chainLength == 0 && cacheDump == 0
      ensures trace == [] && readCount == 0 && this.k == k && this.misc1Feed == misc1Feed
    {
      enabled, baseAddr, chainLength, cacheDump := false, 0, 0, 0;
      trace, readCount := [], 0;
      this.k, this.misc1Feed := k, misc1Feed;
    }

    /** dfd_setup: program the DFD block and record the request. */
    method Setup(base: bv64, chain: bv64, cache: bv64)
      modifies this
      ensures enabled && baseAddr == base && chainLength == chain && cacheDump == cache
      ensures trace == old(trace) + SetupTrace(k, base, chain, cache)
      ensures readCount == old(readCount)
    {
      // The request is recorded before the accesses are issued; nothing in
      // the model observes the order of the two.
      var tail: seq<Access> := [];
      enabled, baseAddr, chainLength, cacheDump := true, base, chain, cache;
      if CacheDumpOn(k, cache) {
        tail := CacheDumpWrites(k);
        if ParityOn(k, cache) {
          tail := tail + ParityWrites();
        }
      }
      trace := trace + (CommonTrace(k, base, chain) + tail);
    }

    /** dfd_resume: replay the recorded setup, if there is one. The recorded
        request itself does not change. */
    method Resume()
      modifies this
      ensures enabled == old(enabled) && baseAddr == old(baseAddr)
      ensures chainLength == old(chainLength) && cacheDump == old(cacheDump) && readCount == old(readCount)
      ensures trace == old(trace) + (if old(enabled) then SetupTrace(k, baseAddr, chainLength, cacheDump) else [])
    {
      if enabled {
        Setup(baseAddr, chainLength, cacheDump);
      }
    }

    /** dfd_smc_dispatcher: SETUP(base, chain, cache) programs the block;
        READ(off) returns the 32-bit register at MISC1_CFG_BASE + off,
        zero-extended, and WRITE(off, v) writes the low word of v there, both
        only for off <= 0x200; any other command is refused. */
    method SmcDispatch(arg0: bv64, arg1: bv64, arg2: bv64, arg3: bv64) returns (ret: bv64)
      modifies this
      ensures Command(k, arg0) == SetupCmd ==>
        && ret == 0 && enabled && baseAddr == arg1 && chainLength == arg2 && cacheDump == arg3
        && trace == old(trace) + SetupTrace(k, arg1, arg2, arg3) && readCount == old(readCount)
      ensures Command(k, arg0) == ReadCmd && arg1 <= WINDOW ==>
        && ret == misc1Feed(old(readCount)) as bv64
        && trace == old(trace) + [Read(Misc1Cfg(arg1), misc1Feed(old(readCount)))] && readCount == old(readCount) + 1
      ensures Command(k, arg0) == WriteCmd && arg1 <= WINDOW ==>
        && ret == 0
        && trace == old(trace) + [SyncWrite(Misc1Cfg(arg1), Low32(arg2))] && readCount == old(readCount)
      ensures Command(k, arg0) == Invalid ==> ret == k.invalidParam
      // refused and out-of-window commands touch nothing
      ensures Command(k, arg0) == Invalid || (Command(k, arg0) != SetupCmd && arg1 > WINDOW) ==>
        unchanged(this) && (Command(k, arg0) != Invalid ==> ret == 0)
      // only SETUP changes the recorded request
      ensures Command(k, arg0) != SetupCmd ==>
        enabled == old(enabled) && baseAddr == old(baseAddr) && chainLength == old(chainLength) && cacheDump == old(cacheDump)
    {
      ret := 0;
      match Command(k, arg0)
      case SetupCmd =>
        Setup(arg1, arg2, arg3);
      case ReadCmd =>
        if arg1 <= WINDOW {
          var v := misc1Feed(readCount);
          readCount := readCount + 1;
          trace := trace + [Read(Misc1Cfg(arg1), v)];
          ret := v as bv64;
        }
      case WriteCmd =>
        if arg1 <= WINDOW {
          trace := trace + [SyncWrite(Misc1Cfg(arg1), Low32(arg2))];
        }
      case Invalid =>
        ret := k.invalidParam;
    }
  }
}
