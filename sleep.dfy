/**
 * Sleep entry of the NUC472 (source/sleep.c) and the ticker's
 * sleep-until operation built on it (source/lp_ticker.c).
 *
 * `mbed_enter_sleep` first asks four peripherals whether power-down is
 * allowed, then measures the sleep with the low-power ticker, waits in
 * power-down or CPU-halt mode with the protected registers unlocked, and
 * records the elapsed period. The peripherals' answers, the decision of
 * `us_ticker_prepare_sleep` and the counter values the ticker reads are
 * inputs; the actions on the chip are recorded as a sequence of steps.
 */
module Sleep {
  import opened Machine
  import opened LpTicker

  /** The peripherals asked for permission to power down. */
  datatype Peripheral = Serial | Spi | I2c | Pwmout

  /** The order in which the peripherals are asked. */
  const POLL_ORDER: seq<Peripheral> := [Serial, Spi, I2c, Pwmout]

  /** What each peripheral's `*_allow_powerdown` query answers. */
  datatype Answers = Answers(serial: bool, spi: bool, i2c: bool, pwmout: bool) {
    function Of(p: Peripheral): bool {
      match p
      case Serial => serial
      case Spi => spi
      case I2c => i2c
      case Pwmout => pwmout
    }
  }

  /** Every peripheral allows power-down. */
  predicate Granted(a: Answers) {
    forall k :: 0 <= k < |POLL_ORDER| ==> a.Of(POLL_ORDER[k])
  }

  /**
   * How many peripherals are asked: the questions stop at the first
   * refusal, so every peripheral asked before the last one agreed, and the
   * last one refused unless all four were asked.
   */
  function AskedCount(a: Answers): (n: nat)
    ensures 1 <= n <= |POLL_ORDER|
    ensures forall k :: 0 <= k < n - 1 ==> a.Of(POLL_ORDER[k])
    ensures n < |POLL_ORDER| ==> !a.Of(POLL_ORDER[n - 1])
  {
    if !a.serial then 1 else if !a.spi then 2 else if !a.i2c then 3 else 4
  }

  /** Permission is granted exactly when all four are asked and the last also agrees. */
  lemma GrantedWhenAllAgree(a: Answers)
    ensures Granted(a) <==> AskedCount(a) == 4 && a.pwmout
  {
    if Granted(a) {
      assert a.Of(POLL_ORDER[0]) && a.Of(POLL_ORDER[1]) && a.Of(POLL_ORDER[2]) && a.Of(POLL_ORDER[3]);
    }
  }

  /** The actions of mbed_enter_sleep on the chip, in the order they happen. */
  datatype Step =
    | Ask(who: Peripheral)
    | PrepareSleep
    | UnlockReg
    | SetSleepDeep
    | ClearSleepDeep
    | SetPowerDownEnable
    | ClearPowerDownEnable
    | WaitForInterrupt
    | LockReg
    | WakeupFromSleep

  /** The questions asked for the given answers. */
  function AskSteps(a: Answers): (s: seq<Step>)
    ensures |s| == AskedCount(a)
    ensures forall k :: 0 <= k < |s| ==> s[k] == Ask(POLL_ORDER[k])
  {
    seq(AskedCount(a), k requires 0 <= k < AskedCount(a) => Ask(POLL_ORDER[k]))
  }

  /** The power-down branch: unlock, set SLEEPDEEP and PDEN, wait for an interrupt, lock. */
  const POWER_DOWN_STEPS: seq<Step> := [UnlockReg, SetSleepDeep, SetPowerDownEnable, WaitForInterrupt, LockReg]

  /** The CPU-halt branch: unlock, clear SLEEPDEEP and PDEN, wait for an interrupt, lock. */
  const HALT_STEPS: seq<Step> := [UnlockReg, ClearSleepDeep, ClearPowerDownEnable, WaitForInterrupt, LockReg]

  /** The lock state after one step: SYS_UnlockReg unlocks, SYS_LockReg locks, nothing else touches it. */
  function AfterStep(locked: bool, s: Step): bool {
    match s
    case UnlockReg => false
    case LockReg => true
    case _ => locked
  }

  /** Whether the protected registers are locked after `steps`, starting from `locked`. */
  function LockedAfter(locked: bool, steps: seq<Step>): bool
    decreases |steps|
  {
    if steps == [] then locked else LockedAfter(AfterStep(locked, steps[0]), steps[1..])
  }

  /** A step that writes a protected clock register. */
  predicate Protected(s: Step) {
    s == SetPowerDownEnable || s == ClearPowerDownEnable
  }

  /** Every protected write in `steps` happens while the registers are unlocked. */
  ghost predicate ProtectedWritesUnlocked(locked: bool, steps: seq<Step>) {
    forall i :: 0 <= i < |steps| && Protected(steps[i]) ==> !LockedAfter(locked, steps[..i])
  }

  /** One step more of the lock computation. */
  lemma LockedAfterCons(locked: bool, s: Step, rest: seq<Step>)
    ensures LockedAfter(locked, [s] + rest) == LockedAfter(AfterStep(locked, s), rest)
  {
    assert ([s] + rest)[1..] == rest;
  }

  /**
   * Both branches write protected registers only while unlocked and end
   * with the registers locked, whatever the lock state before.
   */
  lemma {:induction false} BranchesRelock(locked: bool)
    ensures ProtectedWritesUnlocked(locked, POWER_DOWN_STEPS) && LockedAfter(locked, POWER_DOWN_STEPS)
    ensures ProtectedWritesUnlocked(locked, HALT_STEPS) && LockedAfter(locked, HALT_STEPS)
  {
    LockedAfterCons(true, LockReg, []);
    LockedAfterCons(false, WaitForInterrupt, [LockReg]);
    LockedAfterCons(false, SetPowerDownEnable, [WaitForInterrupt, LockReg]);
    LockedAfterCons(false, SetSleepDeep, [SetPowerDownEnable, WaitForInterrupt, LockReg]);
    LockedAfterCons(locked, UnlockReg, [SetSleepDeep, SetPowerDownEnable, WaitForInterrupt, LockReg]);
    LockedAfterCons(false, ClearPowerDownEnable, [WaitForInterrupt, LockReg]);
    LockedAfterCons(false, ClearSleepDeep, [ClearPowerDownEnable, WaitForInterrupt, LockReg]);
    LockedAfterCons(locked, UnlockReg, [ClearSleepDeep, ClearPowerDownEnable, WaitForInterrupt, LockReg]);
    LockedAfterCons(locked, UnlockReg, []);
    LockedAfterCons(false, SetSleepDeep, []);
    LockedAfterCons(false, ClearSleepDeep, []);
    assert [UnlockReg, SetSleepDeep] == [UnlockReg] + [SetSleepDeep];
    assert [UnlockReg, ClearSleepDeep] == [UnlockReg] + [ClearSleepDeep];
    forall i | 0 <= i < |POWER_DOWN_STEPS| && Protected(POWER_DOWN_STEPS[i])
      ensures !LockedAfter(locked, POWER_DOWN_STEPS[..i])
    {
      assert i == 2 && POWER_DOWN_STEPS[..2] == [UnlockReg] + [SetSleepDeep];
    }
    forall i | 0 <= i < |HALT_STEPS| && Protected(HALT_STEPS[i])
      ensures !LockedAfter(locked, HALT_STEPS[..i])
    {
      assert i == 2 && HALT_STEPS[..2] == [UnlockReg] + [ClearSleepDeep];
    }
  }

  /**
   * The elapsed period of sleep.c:95: the plain difference when the end is
   * later than the start, otherwise `end + 0xFFFFFFFF - start` in 64 bits,
   * truncated to 32.
   */
  function Period(start: u32, end: u32): (p: u32)
  {
    if end > start then end - start else (end + U32_MAX - start) % 0x1_0000_0000
  }

  /** The true elapsed time modulo 2^32. */
  function ModularDiff(start: u32, end: u32): (d: u32)
  {
    (end - start) % 0x1_0000_0000
  }

  /**
   * The period is the modular difference when the end is later than the
   * start, and one less than it (modulo 2^32) otherwise; equal instants give
   * 0xFFFFFFFF.
   */
  lemma PeriodAgainstModularDiff(start: u32, end: u32)
    ensures end > start ==> Period(start, end) == ModularDiff(start, end)
    ensures end <= start ==> (Period(start, end) + 1) % 0x1_0000_0000 == ModularDiff(start, end)
    ensures end == start ==> Period(start, end) == U32_MAX
  {
    if end < start {
      assert Period(start, end) == end + U32_MAX - start;
      assert ModularDiff(start, end) == end + 0x1_0000_0000 - start;
    }
  }

  /** A wrapped counter: starting 16 below the top and ending at 16 gives 0x1F, not 0x20. */
  lemma PeriodAcrossWrap()
    ensures Period(0xFFFF_FFF0, 0x10) == 0x1F
    ensures ModularDiff(0xFFFF_FFF0, 0x10) == 0x20
  {
  }

  /** `ticks * MINAR_PLATFORM_TIME_BASE` in `uint32_t` arithmetic. */
  function TicksToUs(ticks: u32, base: u32): u32 {
    (ticks * base) % 0x1_0000_0000
  }

  /** The scaled reading is the plain product whenever that fits in 32 bits. */
  lemma TicksToUsExact(ticks: u32, base: u32)
    requires ticks * base < 0x1_0000_0000
    ensures TicksToUs(ticks, base) == ticks * base
  {
    var product: nat := ticks * base;
    assert product % 0x1_0000_0000 == product;
  }

  /** The `sleep_t` object mbed_enter_sleep fills in. */
  class SleepObj {
    var powerdown: bool
    var startUs: u32
    var endUs: u32
    var periodUs: u32

    constructor ()
      ensures !powerdown && startUs == 0 && endUs == 0 && periodUs == 0
    {
      powerdown := false;
      startUs := 0;
      endUs := 0;
      periodUs := 0;
    }
  }

  /** The parts of the chip that sleep entry changes. */
  class Chip {
    /** Whether the protected registers are write-locked. */
    var locked: bool
    /** SCB->SCR.SLEEPDEEP */
    var sleepDeep: bool
    /** CLK->PWRCTL.PDEN */
    var powerDownEnable: bool
    /** What has been done to the chip so far. */
    var steps: seq<Step>

    constructor (locked: bool)
      ensures this.locked == locked && !sleepDeep && !powerDownEnable && steps == []
    {
      this.locked := locked;
      sleepDeep := false;
      powerDownEnable := false;
      steps := [];
    }

    /**
     * The power-down branch: SYS_UnlockReg, set SLEEPDEEP, set PDEN (with
     * the wakeup delay), wait for an interrupt, SYS_LockReg.
     */
    method PowerDownWait()
      modifies this
      ensures locked && sleepDeep && powerDownEnable && steps == old(steps) + POWER_DOWN_STEPS
    {
      locked := false;
      steps := steps + [UnlockReg];
      sleepDeep := true;
      steps := steps + [SetSleepDeep];
      powerDownEnable := true;
      steps := steps + [SetPowerDownEnable];
      steps := steps + [WaitForInterrupt];
      locked := true;
      steps := steps + [LockReg];
    }

    /**
     * The CPU-halt branch: SYS_UnlockReg, clear SLEEPDEEP, clear PDEN,
     * wait for an interrupt, SYS_LockReg.
     */
    method HaltWait()
      modifies this
      ensures locked && !sleepDeep && !powerDownEnable && steps == old(steps) + HALT_STEPS
    {
      locked := false;
      steps := steps + [UnlockReg];
      sleepDeep := false;
      steps := steps + [ClearSleepDeep];
      powerDownEnable := false;
      steps := steps + [ClearPowerDownEnable];
      steps := steps + [WaitForInterrupt];
      locked := true;
      steps := steps + [LockReg];
    }

  }

  /**
   * The permission poll: the flag starts at 1 and each peripheral in turn
   * is asked only while it is still 1. `flags` holds the flag after each of
   * the five assignments.
   */
  method Poll(obj: SleepObj, chip: Chip, a: Answers) returns (ghost flags: seq<bool>)
    modifies obj`powerdown, chip`steps
    ensures obj.powerdown == Granted(a)
    ensures chip.steps == old(chip.steps) + AskSteps(a)
    ensures |flags| == 5 && flags[0] && flags[4] == obj.powerdown
    ensures forall i, j :: 0 <= i < j < |flags| && !flags[i] ==> !flags[j]
  {
    obj.powerdown := true;
    flags := [obj.powerdown];
    if obj.powerdown {
      obj.powerdown := a.serial;
      chip.steps := chip.steps + [Ask(Serial)];
    }
    flags := flags + [obj.powerdown];
    if obj.powerdown {
      obj.powerdown := a.spi;
      chip.steps := chip.steps + [Ask(Spi)];
    }
    flags := flags + [obj.powerdown];
    if obj.powerdown {
      obj.powerdown := a.i2c;
      chip.steps := chip.steps + [Ask(I2c)];
    }
    flags := flags + [obj.powerdown];
    if obj.powerdown {
      obj.powerdown := a.pwmout;
      chip.steps := chip.steps + [Ask(Pwmout)];
    }
    flags := flags + [obj.powerdown];
    GrantedWhenAllAgree(a);
    assert AskSteps(a) == seq(AskedCount(a), k requires 0 <= k < AskedCount(a) => Ask(POLL_ORDER[k]));
  }

  /**
   * mbed_enter_sleep. `a` holds the peripherals' answers, `prepared` the
   * flag as us_ticker_prepare_sleep leaves it, and `startCount` and
   * `endCount` the ticker counter before and after the wait.
   */
  method EnterSleep(obj: SleepObj, chip: Chip, ticker: Ticker, a: Answers, prepared: bool,
                    startCount: u32, endCount: u32)
    requires ticker.Valid() && (!ticker.inited ==> PrescaleAccepted(ticker.clk, ticker.freq))
    modifies obj, chip, ticker
    ensures ticker.Valid() && ticker.inited && ticker.counterTick == endCount
    ensures old(ticker.inited) ==> ticker.wakeupTick == old(ticker.wakeupTick) && ticker.cmp == old(ticker.cmp)
    ensures !old(ticker.inited) ==> ticker.wakeupTick == TMR_CMP_MAX && ticker.cmp == TMR_CMP_MAX
    ensures obj.powerdown == prepared
    ensures obj.startUs == TicksToUs(startCount, ticker.freq) && obj.endUs == TicksToUs(endCount, ticker.freq)
    ensures obj.periodUs == Period(obj.startUs, obj.endUs)
    ensures chip.steps == old(chip.steps) + AskSteps(a) + [PrepareSleep]
                          + (if prepared then POWER_DOWN_STEPS else HALT_STEPS) + [WakeupFromSleep]
    ensures chip.locked
    ensures prepared ==> chip.sleepDeep && chip.powerDownEnable
    ensures !prepared ==> !chip.sleepDeep && !chip.powerDownEnable
  {
    ghost var flags := Poll(obj, chip, a);
    var t := ticker.Read(startCount);
    obj.startUs := TicksToUs(t, ticker.freq);
    obj.powerdown := prepared;
    chip.steps := chip.steps + [PrepareSleep];
    if obj.powerdown {
      chip.PowerDownWait();
    } else {
      chip.HaltWait();
    }
    t := ticker.Read(endCount);
    obj.endUs := TicksToUs(t, ticker.freq);
    obj.periodUs := Period(obj.startUs, obj.endUs);
    chip.steps := chip.steps + [WakeupFromSleep];
  }

  /** mbed_exit_sleep: does nothing. */
  method ExitSleep(obj: SleepObj)
    ensures unchanged(obj)
  {
  }

  /**
   * lp_ticker_sleep_until: sets the deadline, then sleeps. On a ticker not
   * yet initialised the read inside the sleep initialises it, which resets
   * the deadline to TMR_CMP_MAX.
   */
  method SleepUntil(ticker: Ticker, chip: Chip, a: Answers, prepared: bool, now: u32, time: u32,
                    startCount: u32, endCount: u32) returns (obj: SleepObj)
    requires ticker.Valid() && (!ticker.inited ==> PrescaleAccepted(ticker.clk, ticker.freq))
    requires CmpInRange(time)
    modifies chip, ticker
    ensures fresh(obj)
    ensures ticker.Valid() && ticker.inited
    ensures old(ticker.inited) ==> ticker.wakeupTick == time && ticker.cmp == time
    ensures !old(ticker.inited) ==> ticker.wakeupTick == TMR_CMP_MAX && ticker.cmp == TMR_CMP_MAX
    ensures ticker.counterTick == endCount
    ensures obj.powerdown == prepared
    ensures obj.startUs == TicksToUs(startCount, ticker.freq) && obj.endUs == TicksToUs(endCount, ticker.freq)
    ensures obj.periodUs == Period(obj.startUs, obj.endUs)
    ensures chip.steps == old(chip.steps) + AskSteps(a) + [PrepareSleep]
                          + (if prepared then POWER_DOWN_STEPS else HALT_STEPS) + [WakeupFromSleep]
    ensures chip.locked
    ensures prepared ==> chip.sleepDeep && chip.powerDownEnable
    ensures !prepared ==> !chip.sleepDeep && !chip.powerDownEnable
  {
    ticker.SetInterrupt(now, time);
    obj := new SleepObj();
    EnterSleep(obj, chip, ticker, a, prepared, startCount, endCount);
    ExitSleep(obj);
  }
}
