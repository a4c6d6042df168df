# STM32MP RNG driver and MT8192 DFD service, modelled in Dafny

This project models two drivers of an Arm Trusted Firmware tree: the STM32MP
RNG driver and the MT8192 DFD service.

**The STM32MP RNG driver** (`drivers/st/rng/stm32_rng.c`) has these parts:

- the singleton instance `{base, clock}`;
- its initialisation from the device tree (`stm32_rng_init`);
- the enable sequence, which polls for data-ready (`stm32_rng_enable`);
- seed-error recovery (`seed_error_recovery`);
- the byte reader `stm32_rng_read`. It fills a caller buffer from the 32-bit data register, in groups of up to four words per data-ready event. Each group has a budget of 10000 tries. On a timeout the reader zeroes what it has written.

How the model represents it:

- **Hardware.** The RNG register window is a class `RngBank`. The k-th read of SR or DR returns a scripted value, `srFeed(k)` or `drFeed(k)`. CR reads back what was last written. Every access is logged.
- **Platform.** Module `Stm32RngHw` holds a virtual microsecond clock and a log of calls to the clock, reset and iomem-registration collaborators. Delays advance the clock.
- **Build options.** The STM32MP13/STM32MP15 variant and the image (BL2, BL32, other) are fixed when the driver is constructed.
- **panic().** It is the outcome `Panic`.
- **What is proved about the reader:**
  - on success it copies exactly ceil(size / 4) DR words, in memory order (little-endian), cut at `size`;
  - on a timeout the copied prefix is zeroed and nothing after it is touched;
  - the copied words are DR reads in read order, consecutive unless seed-error recoveries discarded words in between;
  - each group's wait is the source's do-while run on the SR values read, as the reference function `WaitFrom` defines it. Each group therefore makes fewer than 10000 data-ready checks: at least one when it succeeds and exactly 9999 when it times out. DRDY is clear at every check but a successful last one. The checks fall on strictly increasing SR reads, and each recovery takes two more SR reads;
  - the groups' waits follow each other on the SR reads, and all of them succeed but the last, whose result is the reader's;
  - the reader never touches CR: its accesses are SR reads, SEIS clears and DR reads. In each group the DR reads come right after the SR read that saw DRDY.
- **What is proved about the enable:** its poll loop is the source's loop run on the SR values read and the clock, as `PollFrom` defines it. DRDY is clear at every poll but a successful last one. A timeout comes only after more than 10000 polls since the last restart of the timeout, the 10000 before the last one without a seed error. After the bring-up the loop never touches CR, and each of its turns logs exactly its recovery's accesses and the next SR read.

**The MT8192 DFD service** (`plat/mediatek/mt8192/drivers/dfd/plat_dfd.c`) has these parts:

- the statics `dfd_enabled`, `dfd_base_addr`, `dfd_chain_length` and `dfd_cache_dump`;
- `dfd_setup`, which programs the design-for-debug block and records the request;
- `dfd_resume`, which replays the recorded request;
- the SiP call dispatcher `dfd_smc_dispatcher`. It serves SETUP, and READ and WRITE of a 0x200-byte register window; any other command is refused.

How the model represents it:

- **The statics.** They are the fields of a class `Dfd`.
- **The register block.** It is an ordered trace of accesses.
- **Header constants.** The command magics, the cache-dump flags, the `*_VAL` values and the SiP error code come in a parameter record `Consts`.
- **What is proved:**
  - the exact access sequence of a setup;
  - the DFD-3.5 enable is written exactly when cache dump is requested;
  - the hardware-trigger mask is written exactly when the parity trigger is requested too;
  - resume replays the recorded request;
  - each command touches only what it should.

Files:

- `word_bytes.dfy` (module `WordBytes`): byte order of a copied word, and the byte stream of a run of words.
- `stm32_rng_hw.dfy` (module `Stm32RngHw`): the RNG registers, the platform services, and bookkeeping of which DR reads ended up in the buffer.
- `stm32_rng.dfy` (module `Stm32Rng`): the driver.
- `plat_dfd.dfy` (module `Mt8192Dfd`): the DFD service.

## Model

| member | source | states |
|---|---|---|
| WordBytes.LeBytes | drivers/st/rng/stm32_rng.c:156 | memcpy of a uint32_t on a little-endian core yields four bytes, and assembling those bytes again gives back the word |
| WordBytes.LeWordBytes | drivers/st/rng/stm32_rng.c:156 | the other direction of the round trip: any four bytes assembled into a word copy out as the same four bytes |
| WordBytes.Stream | drivers/st/rng/stm32_rng.c:151-163 | the bytes of n copied words number 4n |
| WordBytes.StreamAt | drivers/st/rng/stm32_rng.c:151-163 | byte i of the copied stream is byte i mod 4 of word i / 4 |
| WordBytes.StreamSnoc | drivers/st/rng/stm32_rng.c:153-158 | copying one more word appends exactly its four bytes |
| WordBytes.StreamAppend | drivers/st/rng/stm32_rng.c:133-164 | the stream of two runs of words is the concatenation of their streams |
| WordBytes.StreamPrefix | drivers/st/rng/stm32_rng.c:133-164 | earlier words followed by a cut of later words is the stream of all words cut at the same point |
| WordBytes.WordsFor | drivers/st/rng/stm32_rng.c:152-158 | the number of words needed for size bytes covers them with no spare word |
| WordBytes.WordsForUnique | drivers/st/rng/stm32_rng.c:152-158 | that covering count is unique |
| Stm32RngHw.DrWords | drivers/st/rng/stm32_rng.c:153 | n consecutive DR reads from read number k yield drFeed(k), ..., drFeed(k + n - 1) |
| Stm32RngHw.DrLog | drivers/st/rng/stm32_rng.c:65-67 | the access log of n consecutive DR reads, element by element |
| Stm32RngHw.ConsecAppend | drivers/st/rng/stm32_rng.c:151-163 | two adjacent runs of read numbers form one run |
| Stm32RngHw.TrackedMeans | drivers/st/rng/stm32_rng.c:153 | tracked words come from DR at their read numbers, which lie in the bounds and strictly increase |
| Stm32RngHw.TrackedRun | drivers/st/rng/stm32_rng.c:151-163 | appending a run of consecutive DR reads keeps the words tracked |
| Stm32RngHw.RngBank.ReadSr | drivers/st/rng/stm32_rng.c:93 | an SR read returns the next scripted SR value, logs it and changes nothing else |
| Stm32RngHw.RngBank.ReadDr | drivers/st/rng/stm32_rng.c:153 | a DR read returns the next scripted DR value, logs it and changes nothing else |
| Stm32RngHw.RngBank.ReadCr | drivers/st/rng/stm32_rng.c:85-86 | a CR read returns the value last written, logs it and changes nothing else |
| Stm32RngHw.RngBank.WriteCr | drivers/st/rng/stm32_rng.c:89 | a CR write stores and logs the value |
| Stm32RngHw.RngBank.ClrSetBitsCr | drivers/st/rng/stm32_rng.c:85-86 | clrsetbits on CR is a read of v followed by a write of v with the clr bits cleared and the set bits set |
| Stm32RngHw.RngBank.ClrBitsSr | drivers/st/rng/stm32_rng.c:60 | clrbits on SR consumes one SR value and writes it back with the bits cleared |
| Stm32RngHw.Platform.Delay | drivers/st/rng/stm32_rng.c:105 | udelay advances the clock by exactly its argument and calls nothing |
| Stm32RngHw.Platform.Invoke | drivers/st/rng/stm32_rng.c:214-238 | a call to a collaborator (registration, clock, reset) is appended to the call log and takes no time |
| Stm32RngHw.Platform.TimeoutInit | drivers/st/rng/stm32_rng.c:92 | timeout_init_us(us) is the deadline us microseconds after the current time of the clock |
| Stm32RngHw.Platform.TimeoutElapsed | drivers/st/rng/stm32_rng.c:95 | timeout_elapsed(t) holds exactly once the clock has passed the deadline t |
| Stm32Rng.DroppedAdd | drivers/st/rng/stm32_rng.c:63-70 | the DR words discarded by recoveries add up; none are discarded exactly on STM32MP13 or when no recovery happened |
| Stm32Rng.BringUpCr | drivers/st/rng/stm32_rng.c:83-90 | after bring-up RNGEN and CED are set and CONDRST is clear; on STM32MP15 no other CR bit is set; on STM32MP13 the other bits keep their values |
| Stm32Rng.BringUpLog | drivers/st/rng/stm32_rng.c:83-90 | the bring-up ends with a write of that CR value |
| Stm32Rng.EnabledFor | drivers/st/rng/stm32_rng.c:198-206 | BL2 uses any node that is not disabled; the other images only a node with the secure bit |
| Stm32Rng.WaitFrom | drivers/st/rng/stm32_rng.c:134-149 | the reference definition of the do-while on SR values: a try reads SR, recovers on a seed error with two more SR reads (panicking when SEIS reads back set) and spends a try; with tries left a DRDY check reads SR again |
| Stm32Rng.WaitCount | drivers/st/rng/stm32_rng.c:134-149 | a wait ends in success, a timeout or a panic; it makes fewer checks than it has tries, at least one on success and one per try but the last on a timeout; recoveries only add up |
| Stm32Rng.WaitSeen | drivers/st/rng/stm32_rng.c:134-149 | DRDY is clear at every check but the last and set at the last exactly on success; the checks are strictly increasing SR read numbers within the wait's reads, and a success ends right after its last check |
| Stm32Rng.WaitBudget | drivers/st/rng/stm32_rng.c:134-149 | a full budget from SR read s: fewer than 10000 checks, at least one on success, 9999 on a timeout; DRDY clear everywhere but a successful last check; checks after s, strictly increasing |
| Stm32Rng.ChainedSnoc | drivers/st/rng/stm32_rng.c:133-164 | the next group's wait, started where the previous one ended, extends the chain; the chain then ends with it and its recoveries add up |
| Stm32Rng.ChainedBudget | drivers/st/rng/stm32_rng.c:133-164 | every group of a chain is a full budget from where the previous one ended, and keeps to it: fewer than 10000 checks, at least one on success, 9999 on a timeout |
| Stm32Rng.AlwaysReady | drivers/st/rng/stm32_rng.c:134-149 | on a device whose SR always shows DRDY and never a seed error, every group succeeds at its first check with no recovery |
| Stm32Rng.PollFrom | drivers/st/rng/stm32_rng.c:92-111 | the reference definition of the enable poll loop on SR values and the clock: DRDY ends it, then an elapsed timeout; a seed error runs a recovery (two SR reads, a panic when SEIS reads back set) and restarts the timeout; each turn waits 10 us and reads SR again |
| Stm32Rng.PollBudget | drivers/st/rng/stm32_rng.c:92-111 | the loop from its first SR read: DRDY clear at every poll but the last, set at the last exactly on success; a timeout only after more than 10000 polls since the last restart, the 10000 before the last without a seed error; at most fuel recoveries |
| Stm32Rng.PollSeen | drivers/st/rng/stm32_rng.c:94-108 | the polls extend those seen so far; DRDY clear at all but the last, set at the last exactly on success |
| Stm32Rng.PollTimeout | drivers/st/rng/stm32_rng.c:92-108 | with the clock, the deadline and the polls since the restart in step, a timeout needs more than 10000 of those polls, none of the last 10000 before it with a seed error |
| Stm32Rng.PollFuel | drivers/st/rng/stm32_rng.c:100-103 | recoveries only grow, by at most the bound, and the bound is spent when the model stops on it |
| Stm32Rng.PutAt | drivers/st/rng/stm32_rng.c:156 | a copy into the buffer changes exactly the bytes in the target range |
| Stm32Rng.PutPut | drivers/st/rng/stm32_rng.c:156-157 | two adjacent copies are one copy of the concatenation |
| Stm32Rng.GroupImage | drivers/st/rng/stm32_rng.c:133-164 | after a group the buffer holds the stream of all words so far, cut at the new position |
| Stm32Rng.GroupStep | drivers/st/rng/stm32_rng.c:151-164 | after a group's drain the buffer holds the stream of all words so far cut at the new position, the reads stay tracked in order, and without discards their read numbers stay one run |
| Stm32Rng.Memcpy | drivers/st/rng/stm32_rng.c:156 | memcpy writes the first n source bytes at the offset and nothing else |
| Stm32Rng.RecoveryLog | drivers/st/rng/stm32_rng.c:55-76 | a recovery's accesses: the SEIS clear (a read and a write-back of SR), the variant's discard DR reads, then the SR read-back; none touches CR |
| Stm32Rng.Driver.constructor | drivers/st/rng/stm32_rng.c:48-53 | the static instance starts with base 0 and clock 0 |
| Stm32Rng.Driver.SeedErrorRecovery | drivers/st/rng/stm32_rng.c:55-76 | clears SEIS, makes 12 discard DR reads only on STM32MP15, re-reads SR, and panics exactly when SEIS reads back set; the full access log |
| Stm32Rng.Driver.Enable | drivers/st/rng/stm32_rng.c:78-112 | the bring-up, then the poll loop: the result, the SR values examined, the recoveries and the SR reads used are those of PollFrom from the first SR read, with the timeout 100 ms after the call. Hence success exactly when the last polled SR has DRDY, and no earlier poll had it; a timeout needs more than 10000 polls since the last restart, the 10000 before the last one without a seed error. DR is read only by the recoveries' discards, and after the bring-up no access touches CR |
| Stm32Rng.Driver.BringUp | drivers/st/rng/stm32_rng.c:83-90 | the variant's CR sequence: the new CR value and the exact log |
| Stm32Rng.Driver.PollReady | drivers/st/rng/stm32_rng.c:92-111 | the poll loop is PollFrom on the SR reads and the clock from its first SR read; CR keeps its value; DR is read only by the recoveries' discards (12 per recovery on STM32MP15); no access touches CR; on success the last access is the read of the last polled SR |
| Stm32Rng.Driver.PollTurn | drivers/st/rng/stm32_rng.c:95-107 | one turn of the loop: the loop before the turn ends as the loop after it, or, if the turn ends it, in a timeout, a panic or the model's bound; a turn that goes on leaves the next SR value under test and makes progress towards the end. Its log: nothing on a timeout or when the bound is spent, the next SR read on a plain turn, and on a seed error the recovery's accesses followed, unless it panics, by the next SR read |
| Stm32Rng.Driver.RecoverTurn | drivers/st/rng/stm32_rng.c:100-107 | the seed-error part of a turn: the bound, the recovery, the restarted timeout, the delay and the next SR read, as one turn of PollFrom. It stops on the bound exactly when no recovery is left, logging nothing; otherwise its log is RecoveryLog followed, unless it panics, by the next SR read |
| Stm32Rng.Driver.WaitReady | drivers/st/rng/stm32_rng.c:134-149 | one budget of 10000 tries, exactly WaitFrom on the SR reads from the call: its result, the SR read numbers of its DRDY checks, its recoveries, and where its SR reads end; the DR reads taken are the recoveries' discards; no access touches CR, and a successful wait's last access is the SR read that saw DRDY |
| Stm32Rng.Driver.WaitTurn | drivers/st/rng/stm32_rng.c:135-149 | one try of the do-while is one step of WaitFrom: the settle, the spent try, the timeout when no try is left, and the DRDY check; the DR reads are the recovery's discards; the log only grows and never touches CR, and a successful try ends with the SR read that saw DRDY |
| Stm32Rng.Driver.CheckReady | drivers/st/rng/stm32_rng.c:148-149 | the loop test reads SR once, logs only that read, and reports exactly its DRDY bit |
| Stm32Rng.Driver.Settle | drivers/st/rng/stm32_rng.c:136-142 | one try: the status read, then, exactly when that status shows a seed error, a recovery (three SR reads in all, else one) and its DR discards; a panic exactly when the recovery reads SEIS back set; otherwise the clock advances 10 us; the log gains the status read followed by the recovery's accesses, none touching CR |
| Stm32Rng.Driver.Drain | drivers/st/rng/stm32_rng.c:151-163 | 1 to 4 DR reads, each read's bytes copied to the buffer cut at the remaining length; position plus length is preserved; a short drain means the buffer is full; the log gains exactly those DR reads |
| Stm32Rng.Driver.DrainWord | drivers/st/rng/stm32_rng.c:153-158 | one DR read and a copy of MIN(len, 4) bytes at the end of the stream so far; the position advances and the length drops by that amount; the log gains exactly that DR read |
| Stm32Rng.Driver.CopyWord | drivers/st/rng/stm32_rng.c:156-158 | the copy of MIN(len, 4) bytes of one word extends the buffer image by that cut of its bytes, and buf and len advance by that amount |
| Stm32Rng.Driver.ReadGroup | drivers/st/rng/stm32_rng.c:133-163 | one outer pass: its wait is WaitFrom from the pass's first SR read, with 1 to 9999 checks unless it panics and 9999 on a timeout; a failed wait leaves words and position alone; a successful pass adds 1 to 4 words and keeps the buffer, read-order and discard bookkeeping. The log gains the wait's accesses, none touching CR and on success ending with the SR read that saw DRDY, then on success the group's DR reads and nothing else |
| Stm32Rng.Driver.DrainGroup | drivers/st/rng/stm32_rng.c:151-163 | the drain of one group extends the words, their read numbers and the buffer image consistently, and logs exactly its DR reads |
| Stm32Rng.Driver.ReadGroups | drivers/st/rng/stm32_rng.c:133-164 | the outer loop. It stops on a full buffer (success) or on a failed group, and a zero size succeeds at once. The groups' waits are chained WaitFrom runs over the SR reads; all succeed but the last, whose result is the loop's. A timeout comes after whole groups of four words. The log only grows, and no access touches CR |
| Stm32Rng.Driver.Read | drivers/st/rng/stm32_rng.c:120-172 | EPerm exactly when the driver is not initialised, success for size 0. Success yields ceil(size / 4) words, one group per 4, with out[..size] their stream and out[size..] untouched; a timeout zeroes the written prefix only. The groups' waits are chained WaitFrom runs, all successful but the last, each with fewer than 10000 checks (9999 on a timeout). The recoveries are the waits' recoveries. The words are DR reads in strictly increasing read order, consecutive without recoveries. The log only grows, and no access of the reader touches CR |
| Stm32Rng.Driver.Register | drivers/st/rng/stm32_rng.c:212-218 | only BL32 registers the window: as non-secure when the status has the non-secure bit, as secure otherwise |
| Stm32Rng.Driver.ResetPulse | drivers/st/rng/stm32_rng.c:227-243 | without a reset reference nothing happens. Otherwise assert, a 20 us hold and deassert, with a failure of either fatal; the calls made and the time spent |
| Stm32Rng.Driver.Init | drivers/st/rng/stm32_rng.c:178-246 | already initialised: no effect. No device tree: panic. Absent or disabled node: success, uninitialised. Otherwise a zero base is fatal; else the base is published before anything else can fail, and a negative clock or a failed reset is fatal. Else the clock, the registration and the reset calls, and then the enable outcome: PollFrom from the first SR read, started after the 20 us reset hold when there is a reset |
| Mt8192Dfd.Low32Exact | plat/mediatek/mt8192/drivers/dfd/plat_dfd.c:66 | a value below 2^32 survives the cut to a 32-bit register value |
| Mt8192Dfd.CommonTrace | plat/mediatek/mt8192/drivers/dfd/plat_dfd.c:22-81 | the unconditional part of the setup is 19 accesses |
| Mt8192Dfd.CacheDumpWrites | plat/mediatek/mt8192/drivers/dfd/plat_dfd.c:91-95 | the DFD-3.5 programming is 5 accesses |
| Mt8192Dfd.ParityWrites | plat/mediatek/mt8192/drivers/dfd/plat_dfd.c:98-99 | the parity-trigger programming is 2 accesses |
| Mt8192Dfd.SetupTrace | plat/mediatek/mt8192/drivers/dfd/plat_dfd.c:17-103 | the accesses of dfd_setup: the common part, then the DFD-3.5 part when cache dump is requested, followed by the parity part when that is requested too |
| Mt8192Dfd.SetupTraceLength | plat/mediatek/mt8192/drivers/dfd/plat_dfd.c:17-103 | a setup is 19 accesses, plus 5 with cache dump, plus 2 more with the parity trigger as well |
| Mt8192Dfd.SetupCommonPrefix | plat/mediatek/mt8192/drivers/dfd/plat_dfd.c:22-81 | the first 19 accesses do not depend on the cache-dump flags |
| Mt8192Dfd.SetupValues | plat/mediatek/mt8192/drivers/dfd/plat_dfd.c:48-66 | the chain-length register gets the low word of the chain length; the base-address register gets base >> 24 cut to 32 bits, exact below 2^56 |
| Mt8192Dfd.CommonTraceQuiet | plat/mediatek/mt8192/drivers/dfd/plat_dfd.c:22-81 | the common part touches neither the DFD-3.5 enable nor the hardware-trigger mask |
| Mt8192Dfd.CacheDumpGate | plat/mediatek/mt8192/drivers/dfd/plat_dfd.c:89-96 | the DFD-3.5 enable is written if and only if the cache-dump flag is set |
| Mt8192Dfd.ParityGate | plat/mediatek/mt8192/drivers/dfd/plat_dfd.c:89-100 | the hardware-trigger mask is written if and only if both the cache-dump and the parity flag are set |
| Mt8192Dfd.Command | plat/mediatek/mt8192/drivers/dfd/plat_dfd.c:117-136 | the switch on arg0: the first matching magic selects its case, any other value the default |
| Mt8192Dfd.CommandExact | plat/mediatek/mt8192/drivers/dfd/plat_dfd.c:117-135 | with distinct magics each selects its own case, and every other value falls to the default |
| Mt8192Dfd.Dfd.constructor | plat/mediatek/mt8192/drivers/dfd/plat_dfd.c:12-15 | the statics start disabled and zero |
| Mt8192Dfd.Dfd.Setup | plat/mediatek/mt8192/drivers/dfd/plat_dfd.c:17-103 | records the request, enables the service, and issues exactly the setup sequence |
| Mt8192Dfd.Dfd.Resume | plat/mediatek/mt8192/drivers/dfd/plat_dfd.c:105-110 | replays the recorded request's setup only when enabled; the recorded request is unchanged |
| Mt8192Dfd.Dfd.SmcDispatch | plat/mediatek/mt8192/drivers/dfd/plat_dfd.c:112-139 | SETUP behaves as Setup and returns 0. READ within the window returns the register zero-extended; WRITE within it writes the argument's low word. Out-of-window READ/WRITE and unknown commands change nothing; unknown commands return the invalid-parameter code; only SETUP changes the recorded request |

## Left out

- The device-tree lookup (`fdt_get_address`, `dt_get_node`) is not modelled: its result is an input of `Init`. So are the return values of the reset controller.
- The clock and reset drivers and the secure-iomem registration are not modelled as code: they are recorded as calls in the platform log.
- The device-tree status values are assumed to be 0 (disabled), 1 (non-secure) and 2 (secure), because `stm32mp_dt.h` is not part of this model.
- The DFD header constants and `MISC1_CFG_BASE` are parameters, because `plat_dfd.h` is not part of this model.
- Memory barriers (`dmbsy`, `dsbsy`, the barrier in `sync_writel`) are not modelled: the model has one thread and no reordering. `sync_writel` appears only as a distinct kind of write in the DFD trace.
- Log output (`ERROR`, `WARN`, `VERBOSE`) is not modelled: it has no effect on state.
- Time passes only in `udelay`, by exactly its argument: register accesses and reading the counter in `timeout_elapsed` take no time. The proved lower bound of more than 10000 polls before an enable timeout belongs to this step-counter model; on hardware those costs make the timeout come after at most about that many polls.
- Stm32Rng.Driver.PollReady: each turn's accesses are stated exactly by `PollTurn` and `RecoverTurn`, but the loop's whole log is stated only as never touching CR and, on success, ending with the last SR read; the turns' logs are not assembled into one sequence.
- Stm32Rng.Driver.Enable: the source retries without bound as long as seed errors keep arriving. The model allows at most `fuel` recoveries and then ends in `OutOfFuel`, which the source has no counterpart for.
- Stm32Rng.Driver.Init: `assert(dt_rng.base != 0)` is a panic here, as in a build with assertions enabled. In a build without them the driver would go on with base 0.
- Panic: `panic()` is an outcome. Inside `ReadGroups` a panic in one group ends the loop, standing for a call that does not return.
- On a timeout `memset(out, 0, buf - out)` zeroes only the bytes already written; later bytes keep their values, and so they do in the model.
- The `goto bail` and `break` of `stm32_rng_read` are loop guards on `rc` and on a word count. Its nested loops are split into `ReadGroups`, `ReadGroup`, `DrainGroup`, `WaitReady`, `WaitTurn`, `Settle`, `CheckReady`, `Drain`, `DrainWord` and `CopyWord`. `stm32_rng_enable` is split into `BringUp` and `PollReady`, whose loop body is `PollTurn` and `RecoverTurn`, and `stm32_rng_init` hands off to `Register` and `ResetPulse`.
- The values read from the MISC1 window by READ are scripted (`misc1Feed`), since the hardware behind it is not part of this model.
- The read-modify-write of `mmio_setbits_32`/`mmio_clrbits_32` in the DFD block is recorded as one access with its mask. The DFD register values are not tracked, only the order and arguments of accesses.
- The `stm32_rng.clock` field is an unbounded natural number, the `unsigned long` cast of a non-negative `int`, so the cast loses nothing.
- Stm32Rng.Driver.Read: its contract says that the access log only grows and that no access touches CR. The order of SR and DR accesses within a group, stated by `ReadGroup`, is not carried up to `Read`.
- Stm32Rng.WaitFrom: a wait follows the SR reads but not the clock. The 10 us delay of each try is stated per try by `Settle`, not summed over a group.
