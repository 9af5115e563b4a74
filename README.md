# NUC472 HAL core in Dafny

This is a verified model of five parts of the Nuvoton NUC472 hardware-abstraction layer for mbed:

- **Pin names and register layout** (`PinDefs.h`), module `PinDefs`:
  - the encoding of a port and a pin into one 32-bit pin name;
  - the stride of the GPIO register blocks;
  - the multi-function-pin (MFP) field layout;
  - the `PinMode` enumeration.
- **Edge interrupt dispatcher** (`gpio_irq_api.c`), module `GpioIrqApi`, class `GpioIrq`:
  - a table of 9 ports × 16 slots;
  - each port's INTEN, INTSRC and pin-level registers;
  - the per-port interrupt line;
  - the log of handler calls.
  
  The dispatcher snapshots INTSRC and INTEN. It then visits the pending pins lowest first through a count-trailing-zeros loop, calls the matching handlers, and clears the pending flags by writing INTSRC back (write one to clear).
- **Low-power ticker** (`lp_ticker.c`), module `LpTicker`, class `Ticker`:
  - the `inited` flag, the cached counter and the wakeup deadline;
  - timer 2's prescaler and compare register;
  - lazy, idempotent initialisation.
- **Sleep entry** (`sleep.c`), module `Sleep`:
  - the power-down permission poll;
  - the power-down and CPU-halt branches, with the protected registers unlocked around the wait;
  - the elapsed-period formula.
  
  `lp_ticker_sleep_until` lives here too, because it is built on sleep entry.
- **Pin multiplexing and mode** (`pinmap.c`), module `PinMap`, class `PinMux`:
  - the read-modify-write of a pin's 4-bit MFP field;
  - the mapping from `PinMode` to a GPIO mode.

Module `Machine` holds the shared types:

- `Word`, a 32-bit bit-vector, for registers;
- `u32`, an integer in `[0, 2^32)`, for counters and addresses;
- `Option`, whose `None` stands for NULL.

Memory-mapped registers are ordinary fields. Some constants are not defined in these files: `NC`, the `GPIO_INT_RISING`/`GPIO_INT_FALLING` bit positions, the GPIO mode codes, `MINAR_PLATFORM_TIME_BASE`, and the address of port A's register block. These are parameters of the constructors or abstract datatypes. Every `MBED_ASSERT` is a fatal stop, so it becomes a precondition.

Two behaviours of the code are worth stating:

- **The elapsed period** (sleep.c:95) is computed in 32 bits with the constant `0xFFFFFFFF`, not as a 24-bit wrap.
  - Equal start and end give `0xFFFFFFFF`.
  - A wrapped counter gives one less than the true modular difference. For example, start `0xFFFFFFF0` and end `0x10` give `0x1F`, while the true elapsed time is `0x20`.
- **`lp_ticker_sleep_until` on a ticker that is not yet initialised.** The read inside sleep entry initialises the ticker, and initialisation resets the deadline just set to `0xFFFFFF`. `Sleep.SleepUntil` states this.

## Model

| member | source | states |
|---|---|---|
| PinDefs.PortOf | mbed-hal-nuc472/mbed-hal/PinDefs.h:26 | The port part of any name is below 2^20. Shifted back up, it is the name with the pin field cleared. |
| PinDefs.PinOf | mbed-hal-nuc472/mbed-hal/PinDefs.h:27 | The pin part of any name is below 4096. ORed with the name's port field, it gives back the name. |
| PinDefs.PinName | mbed-hal-nuc472/mbed-hal/PinDefs.h:25-28 | For pin < 4096, decoding gives back the pin. For port < 2^20 as well, it also gives back the port. |
| PinDefs.NameRoundTrip | mbed-hal-nuc472/mbed-hal/PinDefs.h:26-28 | Re-encoding the decoded port and pin of any 32-bit name reproduces the name. |
| PinDefs.WidePinCorruptsPort | mbed-hal-nuc472/mbed-hal/PinDefs.h:28 | A pin of 4096 is not range-checked and lands in the port field (port 1). |
| PinDefs.PortBase | mbed-hal-nuc472/mbed-hal/PinDefs.h:29 | The block address is base + 0x40·port in 32-bit arithmetic, and equals the plain sum when that does not overflow. |
| PinDefs.PortBlocksDisjoint | mbed-hal-nuc472/mbed-hal/PinDefs.h:29 | When no block overflows, the 0x40-byte blocks of distinct ports do not overlap: a lower port's block ends before a higher one's begins. |
| PinDefs.MfpPos | mbed-hal-nuc472/mbed-hal/PinDefs.h:30 | The field position is a multiple of 4 in 0..28, namely 4·(pin mod 8). |
| PinDefs.MfpMask | mbed-hal-nuc472/mbed-hal/PinDefs.h:31 | The mask is a 4-bit field of ones at MFP_POS, with no other bit set. |
| PinDefs.MfpMasksDisjoint | mbed-hal-nuc472/mbed-hal/PinDefs.h:30-31 | Pins in different eighths have disjoint masks; pins in the same eighth have identical masks. |
| PinDefs.PinModeValue | mbed-hal-nuc472/mbed-hal/PinDefs.h:38-48 | Each mode's enumerator value is below 6. |
| PinDefs.PinModeValuesDistinct | mbed-hal-nuc472/mbed-hal/PinDefs.h:38-48 | Two modes have the same enumerator value exactly when they are the same mode. |
| GpioIrqApi.EdgeShifts.EdgePos | source/gpio_irq_api.c:199-207 | The INTEN bit of an edge of a pin in the port lies within the 32-bit register. |
| GpioIrqApi.PinCalls | source/gpio_irq_api.c:199-213 | For one reading of the pin level, a pending pin makes at most one call. The call is made only through a live slot whose handler is not 0. It needs the edge's INTEN bit set. It is RISE exactly when the pin reads high, so FALL needs the pin low. Conversely, a live slot with the rising edge armed and the pin high gets exactly one RISE call. With the falling edge armed and the pin low, it gets exactly one FALL call. |
| GpioIrqApi.PendingPins | source/gpio_irq_api.c:196-215 | The visited pins are all below the bound. |
| GpioIrqApi.PendingPinsExact | source/gpio_irq_api.c:194-216 | A pin below the bound is visited exactly when its bit is set in the INTSRC snapshot. |
| GpioIrqApi.PendingPinsAscending | source/gpio_irq_api.c:196-215 | Pins are visited in strictly ascending order, so each at most once. |
| GpioIrqApi.PendingPinsSkip | source/gpio_irq_api.c:196-197 | Clear bits in a range add no visits. |
| GpioIrqApi.PendingThreeAndSeven | source/gpio_irq_api.c:194-216 | A snapshot of 0x88 visits pin 3 and then pin 7. |
| GpioIrqApi.NoCallsWhenDisarmed | source/gpio_irq_api.c:195-213 | With INTEN zero, no pending pin produces a call. |
| GpioIrqApi.CtzFrom | source/gpio_irq_api.c:197 | The count of trailing zeros of a nonzero word is the position of its lowest set bit (`w & -w`). |
| GpioIrqApi.NextPending | source/gpio_irq_api.c:196-215 | In the loop, the lowest set bit of the working copy is the next pin of the snapshot still to visit. Clearing it leaves exactly the pins after it. |
| GpioIrqApi.PendingIsSnapshotBit | source/gpio_irq_api.c:196-198 | Every pin the loop visits is a pin of the port (below 16) whose bit is set in the INTSRC snapshot. |
| GpioIrqApi.CallsForSnoc | source/gpio_irq_api.c:196-216 | Visiting one more pin appends exactly that pin's calls to the log. |
| GpioIrqApi.WriteOneToClear | source/gpio_irq_api.c:218 | Writing a mask to a write-one-to-clear register clears the written bits and keeps the rest. |
| GpioIrqApi.ArmEdgeBits | source/gpio_irq_api.c:110-130 | The new INTEN has the chosen bit equal to `enable`, and every other bit unchanged. |
| GpioIrqApi.EdgePosDistinct | source/gpio_irq_api.c:117-127 | Two edge-and-pin pairs of a port share an INTEN bit only when they are the same pair. |
| GpioIrqApi.ArmEdgeOtherEdges | source/gpio_irq_api.c:104-131 | Arming or disarming one edge of one pin sets that edge's bit to `enable`. Every other edge of every pin in the port keeps its bit. |
| GpioIrqApi.GpioIrq.constructor | source/gpio_irq_api.c:48-58 | All 9×16 slots start NULL, registers zero, lines disabled, no calls. |
| GpioIrqApi.GpioIrq.Init | source/gpio_irq_api.c:62-89 | Returns 0 iff the pin is not NC and lies in the table; otherwise returns -1 and leaves every slot unchanged. On success it stores the registration in slot [port][pin], overwriting any previous one, and no other slot changes. |
| GpioIrqApi.GpioIrq.Free | source/gpio_irq_api.c:91-102 | Nulls only slot [port][pin]. Zeroes the whole port's INTEN and disables the port's line. Other ports are unchanged. |
| GpioIrqApi.GpioIrq.Set | source/gpio_irq_api.c:104-131 | The port's INTEN becomes ArmEdge of the requested edge bit. Nothing else in any port changes. |
| GpioIrqApi.GpioIrq.Enable | source/gpio_irq_api.c:133-141 | The port's line is enabled. Other ports' lines are unchanged. |
| GpioIrqApi.GpioIrq.Disable | source/gpio_irq_api.c:143-150 | The port's line is disabled. Other ports' lines are unchanged. |
| GpioIrqApi.GpioIrq.CallHandlers | source/gpio_irq_api.c:198-213 | The log grows by exactly the pin's calls (PinCalls). The slot is dereferenced only when an armed edge agrees with the level. |
| GpioIrqApi.GpioIrq.ServicePin | source/gpio_irq_api.c:196-216 | One iteration picks the first pin still pending. It appends that pin's calls and leaves the remaining pins in the working copy. |
| GpioIrqApi.GpioIrq.VisitNext | source/gpio_irq_api.c:196-216 | One iteration moves the first pending pin from the unvisited to the visited pins. The log gains exactly that pin's calls. |
| GpioIrqApi.GpioIrq.VisitPending | source/gpio_irq_api.c:194-216 | The loop terminates. It visits exactly the pending pins of the snapshot in ascending order, and the log grows by their calls in that order. |
| GpioIrqApi.GpioIrq.Dispatch | source/gpio_irq_api.c:152-219 | The vector runs only while the port's line is enabled. It visits the pins pending in INTSRC and logs their calls. INTSRC is then all clear and nothing else changes. |
| LpTicker.Prescale | source/lp_ticker.c:65 | `clk / freq - 1` in uint32: one less than the quotient when clk ≥ freq, and 0xFFFFFFFF (wrapped) when clk < freq. |
| LpTicker.PrescaleRange | source/lp_ticker.c:65-66 | The prescaler assertion holds exactly when freq ≤ clk < 129·freq. |
| LpTicker.OverflowsCounter | source/lp_ticker.c:96-100 | Always 0. |
| LpTicker.Ticker.constructor | source/lp_ticker.c:29-31 | Not initialised; counter copy 0; deadline 0xFFFFFFFF. |
| LpTicker.Ticker.Init | source/lp_ticker.c:46-84 | The first call sets the flag, a prescaler equal to Prescale, and a deadline and compare register of 0xFFFFFF. The nested read runs with the flag already set. Every later call changes nothing. |
| LpTicker.Ticker.Read | source/lp_ticker.c:86-94 | Initialises first if needed, then caches and returns the counter. On an initialised ticker the deadline and registers are untouched. |
| LpTicker.Ticker.GetCompareMatch | source/lp_ticker.c:102-105 | Returns the deadline last set. Once initialised, it equals the compare register and is within [2, 0xFFFFFF]. |
| LpTicker.Ticker.SetInterrupt | source/lp_ticker.c:107-115 | Requires 2 ≤ time ≤ 0xFFFFFF. Afterwards the deadline and the compare register both equal `time`; `now` has no effect. |
| Sleep.AskedCount | source/sleep.c:39-54 | Every peripheral asked before the last one agreed. The last one refused, unless all four were asked. |
| Sleep.GrantedWhenAllAgree | source/sleep.c:37-54 | The permission flag is granted iff all four peripherals are asked and the last one agrees as well. |
| Sleep.AskSteps | source/sleep.c:40-54 | The questions are asked in the order serial, spi, i2c, pwmout, and stop at the first refusal. |
| Sleep.Poll | source/sleep.c:37-54 | Afterwards the flag equals serial ∧ spi ∧ i2c ∧ pwmout. Exactly AskSteps is recorded. The flag starts at 1 and never goes from 0 back to 1. |
| Sleep.BranchesRelock | source/sleep.c:66-88 | In both branches every protected clock-register write happens while unlocked, and the registers end locked whatever the state before. |
| Sleep.Chip.PowerDownWait | source/sleep.c:66-76 | Unlocks, sets SLEEPDEEP and PDEN, waits for an interrupt and locks. It ends locked with both bits set. |
| Sleep.Chip.HaltWait | source/sleep.c:77-88 | Records unlock, SLEEPDEEP and PDEN cleared, WFI, lock. Ends locked with SLEEPDEEP and PDEN clear. |
| Sleep.PeriodAgainstModularDiff | source/sleep.c:95 | With end > start, the period is end − start. Otherwise it is one less (mod 2^32) than the true modular difference, and 0xFFFFFFFF when end == start. |
| Sleep.PeriodAcrossWrap | source/sleep.c:95 | Start 0xFFFFFFF0 and end 0x10 give 0x1F, while the true difference is 0x20. |
| Sleep.TicksToUsExact | source/sleep.c:94 | The uint32 product of ticks and time base equals the plain product when that fits in 32 bits. |
| Sleep.EnterSleep | source/sleep.c:31-98 | The start and end times are the scaled ticker reads, and the period is Period of them. The recorded steps are: the poll, the prepare, the branch chosen by the flag the prepare left, and the wakeup. The chip ends locked. SLEEPDEEP and PDEN end set in the power-down branch and clear in the halt branch. |
| Sleep.ExitSleep | source/sleep.c:100-105 | Changes nothing. |
| Sleep.SleepUntil | source/lp_ticker.c:117-123 | Sets the deadline, then sleeps as Sleep.EnterSleep does. The recorded steps are the poll, the prepare, the chosen branch and the wakeup. SLEEPDEEP and PDEN follow the branch, and the chip ends locked. The sleep object holds the prepared flag, the scaled start and end reads and their Period. On an initialised ticker the deadline and CMP end as `time`. On an uninitialised ticker the initialisation inside the sleep resets them to TMR_CMP_MAX. |
| PinMap.MfpWord | source/pinmap.c:30 | Pins 0–7 use the port's low word 2·port, and pins 8–15 its high word 2·port+1. |
| PinMap.MfpUpdateField | source/pinmap.c:32-35 | With data inside the mask, the masked bits become the data and every other bit keeps its value. |
| PinMap.MfpUpdateIdempotent | source/pinmap.c:35 | With data inside the mask, applying the update twice equals applying it once. |
| PinMap.MfpUpdateOutsideField | source/pinmap.c:35 | Outside the mask the new word is old OR data: stray data bits are set in neighbouring fields and never cleared. |
| PinMap.PinFunctionField | source/pinmap.c:30-35 | For data inside the pin's MFP mask, the pin's field ends equal to the data. The fields of the other pins sharing the word are preserved. |
| PinMap.OtherPinKept | source/pinmap.c:30-35 | The field of any pin in a different eighth of the word is unchanged by the update. |
| PinMap.PinMux.PinFunction | source/pinmap.c:25-45 | Requires pin ≠ NC. Word MfpWord(pin) becomes the masked update of its old value with the pin's mask, and no other MFP word changes. |
| PinMap.ModeFor | source/pinmap.c:57-80 | No mode is selected exactly for PullDown and PullNone. |
| PinMap.ModeForBijective | source/pinmap.c:59-80 | Distinct supported modes select distinct GPIO modes, and every GPIO mode is selected by some PinMode. |
| PinMap.PinMux.PinModeSet | source/pinmap.c:50-83 | Requires pin ≠ NC. PullDown and PullNone make no library call. Every other mode makes one GPIO_SetMode call on the port's block, with mask 1 << pin and the mode ModeFor selects. |

## Left out

- GpioIrqApi.GpioIrq.Dispatch: reads the port's slots once, at entry, where the source reads them pin by pin. Handlers are not modelled as code, so they cannot change the slots.
- GpioIrqApi.GpioIrq.Dispatch: the pin levels and INTSRC are assumed stable during dispatch, because they are hardware inputs the model reads once. This has two consequences the model does not capture:
  - The source reads a pending pin's level twice (gpio_irq_api.c:200 and :208). If the level changes between the reads, that pin gets both a RISE and a FALL call.
  - The final write (gpio_irq_api.c:218) re-reads INTSRC. A flag raised after the snapshot of line 194 is cleared without its handler being called. The model clears only the snapshot's flags.
- GpioIrqApi.GpioIrq.Dispatch: requires INTSRC to have no bit above 15, since `obj_arr` has 16 entries and a higher pending bit would index past it. It also requires that no pending pin whose armed edge agrees with its level has a NULL slot, since the source dereferences that slot.
- GpioIrqApi.GpioIrq.Free and GpioIrqApi.GpioIrq.Set: require a pin name inside the 9×16 table, because the source indexes the table and register blocks without checking.
- GpioIrqApi.GpioIrq.Enable and GpioIrqApi.GpioIrq.Disable: require a port below 9, because the source indexes the port table without checking.
- Handler calls are logged as values rather than executed. The caller's `gpio_irq_t` is stored as a value copy, so aliasing between that object and the table is not modelled.
- Interrupt preemption and concurrency between foreground code and the dispatcher are not modelled; the model is sequential.
- Interrupt-controller calls are not modelled: `NVIC_SetVector`, `NVIC_EnableIRQ` and `NVIC_DisableIRQ` become a per-port enabled flag; the ticker's are not modelled at all.
- The debounce set-up (`GPIO_SET_DEBOUNCE_TIME`, `GPIO_ENABLE_DEBOUNCE`) has no stated effect on the modelled state.
- GPIO library calls are abstract: `GPIO_EnableInt` sets the edge's INTEN bit, and `GPIO_SetMode` is recorded as the call it receives.
- Clock and reset plumbing is left out: `SYS_ResetModule`, `CLK_SetModuleClock`, `CLK_EnableModuleClock`, `TIMER_Start`, `TIMER_EnableInt`, `TIMER_EnableWakeup`, and the flag clearing in `tmr2_vec`. The timer clock is a constant of the ticker.
- LpTicker.Ticker.Init: the CTL register holds only the prescale field. The mode bits `TIMER_CONTINUOUS_MODE` and `TIMER_CTL_CNTDATEN_Msk` are not defined in these files.
- LpTicker.Ticker.Read: the hardware counter is a parameter. When the read initialises the ticker, the nested read and the outer read see the same counter value. The counter's hardware width is not modelled.
- Sleep.Chip.PowerDownWait: models the power-down branch by the register writes of sleep.c:69-71: SLEEPDEEP set, PDEN set, then `__WFI`. `CLK_PowerDown` (sleep.c:73) is not part of this model; it is taken to perform the same writes. The PDWKDLY bit written with PDEN is not modelled.
- The uVisor accessors `uvisor_read32` and `uvisor_write32` (sleep.c:69, 81) are plain register writes in the model. Apart from the power-down branch above, the model follows the build without `YOTTA_CFG_UVISOR_PRESENT`; both builds clear SLEEPDEEP in the halt branch.
- The four `__NOP`s after the wait (sleep.c:89-92) are not modelled.
- `us_ticker_prepare_sleep` and `us_ticker_wakeup_from_sleep` are external. The first may set the power-down flag to any value, so that value is a parameter. The second is a recorded step.
- The peripherals' `*_allow_powerdown` queries are boolean inputs.
- PinMap.PinMux.PinFunction: requires the selected MFP word to be one of the 18 words GPA_MFPL..GPI_MFPH. The source would write past them for a port above 8.
- PinMap.PinMux.PinModeSet: requires a pin below 32, where `1 << pin` is defined.
- The `PinDirection` enumeration is not part of this model.
- Commented-out code is not modelled: the relative-wakeup formula in `lp_ticker_set_interrupt` and the JTAG handling in `pin_function`.
