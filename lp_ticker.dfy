/**
 * The low-power ticker of the NUC472 (source/lp_ticker.c): timer 2 counts
 * continuously and its compare register holds the next wakeup deadline.
 *
 * The module variables `lp_ticker_inited`, `counter_tick` and
 * `wakeup_tick` and the timer's CTL prescale field and CMP register are the
 * fields of `Ticker`. The timer's clock (`TIMER_GetModuleClock`) and the
 * time base `TMR_CLK_FREQ` are constants of the object; the hardware
 * counter is a parameter of every operation that reads it.
 */
module LpTicker {
  import opened Machine

  /** TMR_CMP_MIN and TMR_CMP_MAX: the range the compare register accepts. */
  const TMR_CMP_MIN: u32 := 2
  const TMR_CMP_MAX: u32 := 0xFF_FFFF

  /** A deadline the compare register accepts. */
  predicate CmpInRange(t: u32) {
    TMR_CMP_MIN <= t <= TMR_CMP_MAX
  }

  /**
   * The prescaler `clk / freq - 1` in `uint32_t` arithmetic: a clock slower
   * than the time base divides to 0 and wraps round to 0xFFFFFFFF.
   */
  function Prescale(clk: u32, freq: u32): (p: u32)
    requires freq > 0
    ensures clk >= freq ==> p + 1 == clk / freq
    ensures clk < freq ==> p == U32_MAX
  {
    QuotientAtLeast(clk, freq, 1);
    (clk / freq + U32_MAX) % 0x1_0000_0000
  }

  /** The assertion lp_ticker_init makes about the prescaler: not wrapped, and at most 127. */
  predicate PrescaleAccepted(clk: u32, freq: u32)
    requires freq > 0
  {
    Prescale(clk, freq) != U32_MAX && Prescale(clk, freq) <= 127
  }

  /** Scaling both sides of `a <= b` by a natural number. */
  lemma {:induction false} MulMonotone(a: nat, b: nat, d: nat)
    requires a <= b
    ensures a * d <= b * d
  {
    assert b * d == a * d + (b - a) * d;
  }

  /** A quotient reaches `k` exactly when the dividend reaches `k` times the divisor. */
  lemma {:induction false} QuotientAtLeast(x: nat, d: nat, k: nat)
    requires d > 0
    ensures x / d >= k <==> x >= k * d
  {
    var q, r := x / d, x % d;
    assert x == q * d + r && 0 <= r < d;
    if q >= k {
      MulMonotone(k, q, d);
    } else {
      MulMonotone(q + 1, k, d);
      assert (q + 1) * d == q * d + d;
    }
  }

  /** The prescaler assertion holds exactly when the clock is 1 to 128 times the time base. */
  lemma {:induction false} PrescaleRange(clk: u32, freq: u32)
    requires freq > 0
    ensures PrescaleAccepted(clk, freq) <==> freq <= clk < 129 * freq
  {
    QuotientAtLeast(clk, freq, 1);
    QuotientAtLeast(clk, freq, 129);
  }

  /** lp_ticker_get_overflows_counter: the ticker never reports an overflow. */
  function OverflowsCounter(): (n: u32)
    ensures n == 0
  {
    0
  }

  class Ticker {
    /** TMR_CLK_FREQ, the platform time base (MINAR_PLATFORM_TIME_BASE). */
    const freq: u32
    /** The clock of timer 2, as TIMER_GetModuleClock reports it. */
    const clk: u32
    /** lp_ticker_inited */
    var inited: bool
    /** counter_tick: the counter value last read. */
    var counterTick: u32
    /** wakeup_tick: the deadline last set. */
    var wakeupTick: u32
    /** The prescale field last written to timer 2's CTL register. */
    var prescale: u32
    /** Timer 2's CMP register. */
    var cmp: u32

    /** Once initialised, the timer runs with the checked prescaler and the compare register holds the deadline. */
    ghost predicate Valid()
      reads this
    {
      freq > 0 &&
      (inited ==> PrescaleAccepted(clk, freq) && prescale == Prescale(clk, freq) &&
                  CmpInRange(cmp) && cmp == wakeupTick)
    }

    /** The static initialisers: not initialised, deadline `(uint32_t) -1`, registers at reset. */
    constructor (freq: u32, clk: u32)
      requires freq > 0
      ensures Valid() && !inited
      ensures this.freq == freq && this.clk == clk
      ensures counterTick == 0 && wakeupTick == U32_MAX && prescale == 0 && cmp == 0
    {
      this.freq := freq;
      this.clk := clk;
      inited := false;
      counterTick := 0;
      wakeupTick := U32_MAX;
      prescale := 0;
      cmp := 0;
    }

    /**
     * lp_ticker_init: the first call resets the counter copy, sets the
     * deadline to TMR_CMP_MAX, raises the flag, programs the prescaler and
     * the compare register, and re-arms the deadline through a nested read;
     * every later call changes nothing. `counter` is what the hardware
     * counter reads during the nested read.
     */
    method Init(counter: u32)
      requires Valid()
      requires !inited ==> PrescaleAccepted(clk, freq)
      modifies this
      decreases if inited then 0 else 1
      ensures Valid() && inited
      ensures old(inited) ==> unchanged(this)
      ensures !old(inited) ==> counterTick == counter && wakeupTick == TMR_CMP_MAX && cmp == TMR_CMP_MAX
      ensures !old(inited) ==> prescale == Prescale(clk, freq)
    {
      if inited {
        return;
      }
      counterTick := 0;
      wakeupTick := TMR_CMP_MAX;
      inited := true;
      var p := Prescale(clk, freq);
      var c := wakeupTick;
      assert CmpInRange(c);
      prescale := p;
      cmp := c;
      // The flag is already raised, so this read does not re-enter Init.
      var now := Read(counter);
      SetInterrupt(now, wakeupTick);
    }

    /**
     * lp_ticker_read: initialises the ticker if needed, then caches and
     * returns the hardware counter.
     */
    method Read(counter: u32) returns (now: u32)
      requires Valid()
      requires !inited ==> PrescaleAccepted(clk, freq)
      modifies this
      decreases if inited then 0 else 2
      ensures Valid() && inited
      ensures now == counter && counterTick == counter
      ensures old(inited) ==> wakeupTick == old(wakeupTick) && cmp == old(cmp) && prescale == old(prescale)
      ensures !old(inited) ==> wakeupTick == TMR_CMP_MAX && cmp == TMR_CMP_MAX && prescale == Prescale(clk, freq)
    {
      if !inited {
        Init(counter);
      }
      counterTick := counter;
      now := counterTick;
    }

    /** lp_ticker_get_compare_match: the deadline last set, which the compare register holds once initialised. */
    method GetCompareMatch() returns (t: u32)
      requires Valid()
      ensures t == wakeupTick
      ensures inited ==> t == cmp && CmpInRange(t)
    {
      t := wakeupTick;
    }

    /**
     * lp_ticker_set_interrupt: records the deadline `time` and writes it to
     * the compare register; `now` plays no part. A deadline outside
     * [TMR_CMP_MIN, TMR_CMP_MAX] is a fatal assertion.
     */
    method SetInterrupt(now: u32, time: u32)
      requires Valid() && CmpInRange(time)
      modifies this`wakeupTick, this`cmp
      ensures Valid()
      ensures wakeupTick == time && cmp == time
    {
      wakeupTick := time;
      var c := wakeupTick;
      cmp := c;
    }
  }
}
