/**
 * Pin multiplexing and pin mode of the NUC472 (source/pinmap.c).
 *
 * The multi-function-pin registers GPA_MFPL .. GPI_MFPH are 18 consecutive
 * words, a low and a high word per port; each pin owns a 4-bit field of
 * its port's low word (pins 0..7) or high word (pins 8..15). The GPIO
 * library's GPIO_SetMode is recorded as the call it receives.
 */
module PinMap {
  import opened Machine
  import opened PinDefs

  /** The number of MFP words: two for each of the nine ports. */
  const MFP_WORDS: nat := 18

  /** The index of the MFP word that holds a pin's field: `port * 2 + pin / 8`. */
  function MfpWord(name: Word): (idx: nat)
    ensures PinOf(name) < 8 ==> idx == 2 * PortOf(name) as int
    ensures 8 <= PinOf(name) < 16 ==> idx == 2 * PortOf(name) as int + 1
  {
    PortOf(name) as int * 2 + PinOf(name) as int / 8
  }

  /** The masked update of pin_function: clear the field, then OR the new value in. */
  function MfpUpdate(current: Word, mask: Word, data: Word): Word {
    (current & !mask) | data
  }

  /** With data inside the mask, the masked bits become the data and the others keep their value. */
  lemma MfpUpdateField(current: Word, mask: Word, data: Word)
    requires data & !mask == 0
    ensures MfpUpdate(current, mask, data) & mask == data
    ensures MfpUpdate(current, mask, data) & !mask == current & !mask
  {
  }

  /** Writing the same field value twice is the same as writing it once. */
  lemma MfpUpdateIdempotent(current: Word, mask: Word, data: Word)
    requires data & !mask == 0
    ensures MfpUpdate(MfpUpdate(current, mask, data), mask, data) == MfpUpdate(current, mask, data)
  {
  }

  /**
   * Data that strays outside the field is ORed into the neighbouring fields
   * too: the update only ever sets bits there, never clears them.
   */
  lemma MfpUpdateOutsideField(current: Word, mask: Word, data: Word)
    ensures MfpUpdate(current, mask, data) & !mask == (current | data) & !mask
  {
  }

  /** The GPIO mode codes GPIO_SetMode accepts. */
  datatype GpioMode = ModeInput | ModeOutput | ModeOpenDrain | ModeQuasi

  /** The GPIO mode a PinMode selects; `None` for the modes pin_mode does not support. */
  function ModeFor(m: PinMode): (r: Option<GpioMode>)
    ensures r.None? <==> m == PullDown || m == PullNone
  {
    match m
    case PullUp => Some(ModeInput)
    case PullDown => None
    case PullNone => None
    case PushPull => Some(ModeOutput)
    case OpenDrain => Some(ModeOpenDrain)
    case Quasi => Some(ModeQuasi)
  }

  /** Distinct supported modes select distinct GPIO modes, and every GPIO mode is selected by one. */
  lemma ModeForBijective(a: PinMode, b: PinMode, g: GpioMode)
    ensures ModeFor(a).Some? && ModeFor(a) == ModeFor(b) ==> a == b
    ensures exists m :: ModeFor(m) == Some(g)
  {
    match g
    case ModeInput => assert ModeFor(PullUp) == Some(g);
    case ModeOutput => assert ModeFor(PushPull) == Some(g);
    case ModeOpenDrain => assert ModeFor(OpenDrain) == Some(g);
    case ModeQuasi => assert ModeFor(Quasi) == Some(g);
  }

  /** A call of GPIO_SetMode: the port's register block, the pin mask and the mode. */
  datatype SetModeCall = SetModeCall(portBase: u32, pinMask: Word, mode: GpioMode)

  /** The pin-configuration registers and the GPIO library calls made so far. */
  class PinMux {
    /** The NC pin name. */
    const nc: Word
    /** The address of port A's GPIO register block. */
    const gpioaBase: u32
    /** GPA_MFPL .. GPI_MFPH */
    const mfp: array<Word>
    /** The GPIO_SetMode calls made so far, oldest first. */
    var modeCalls: seq<SetModeCall>

    ghost predicate Valid()
      reads this
    {
      mfp.Length == MFP_WORDS
    }

    constructor (nc: Word, gpioaBase: u32)
      ensures Valid() && this.nc == nc && this.gpioaBase == gpioaBase
      ensures fresh(mfp) && forall i :: 0 <= i < MFP_WORDS ==> mfp[i] == 0
      ensures modeCalls == []
    {
      this.nc := nc;
      this.gpioaBase := gpioaBase;
      mfp := new Word[MFP_WORDS](_ => 0);
      modeCalls := [];
    }

    /**
     * pin_function: read-modify-writes the pin's MFP word, replacing the
     * pin's 4-bit field; the other words are untouched. NC is a fatal
     * assertion, and the word must be one of the 18.
     */
    method PinFunction(pin: Word, data: Word)
      requires Valid() && pin != nc && MfpWord(pin) < MFP_WORDS
      modifies mfp
      ensures mfp[MfpWord(pin)] == MfpUpdate(old(mfp[MfpWord(pin)]), MfpMask(PinOf(pin)), data)
      ensures forall i :: 0 <= i < MFP_WORDS && i != MfpWord(pin) ==> mfp[i] == old(mfp[i])
    {
      var pinIndex := PinOf(pin);
      var portIndex := PortOf(pin);
      var word := portIndex as int * 2 + pinIndex as int / 8;
      var mask := MfpMask(pinIndex);
      mfp[word] := (mfp[word] & !mask) | data;
    }

    /**
     * pin_mode: PullDown and PullNone are unsupported and change nothing;
     * every other mode becomes one GPIO_SetMode call on the pin's port with
     * the mask `1 << pin`. NC is a fatal assertion, and the shift needs a
     * pin below 32.
     */
    method PinModeSet(pin: Word, mode: PinMode)
      requires Valid() && pin != nc && PinOf(pin) < 32
      modifies this`modeCalls
      ensures ModeFor(mode).None? ==> modeCalls == old(modeCalls)
      ensures ModeFor(mode).Some? ==>
        modeCalls == old(modeCalls) + [SetModeCall(PortBase(gpioaBase, PortOf(pin) as int), Bit(PinOf(pin)), ModeFor(mode).value)]
    {
      var pinIndex := PinOf(pin);
      var portIndex := PortOf(pin);
      var base := PortBase(gpioaBase, portIndex as int);
      var modeIntern := ModeInput;
      match mode {
        case PullUp =>
          modeIntern := ModeInput;
        case PullDown =>
          return;
        case PullNone =>
          return;
        case PushPull =>
          modeIntern := ModeOutput;
        case OpenDrain =>
          modeIntern := ModeOpenDrain;
        case Quasi =>
          modeIntern := ModeQuasi;
      }
      modeCalls := modeCalls + [SetModeCall(base, Bit(pinIndex), modeIntern)];
    }
  }

  /**
   * pin_function with data inside the pin's field sets that field to the
   * data and keeps the fields of the seven other pins sharing the word.
   */
  lemma PinFunctionField(current: Word, pin: Word, data: Word)
    requires data & !MfpMask(pin) == 0
    ensures MfpUpdate(current, MfpMask(pin), data) & MfpMask(pin) == data
    ensures forall q: Word :: q % 8 != pin % 8 ==>
      MfpUpdate(current, MfpMask(pin), data) & MfpMask(q) == current & MfpMask(q)
  {
    MfpUpdateField(current, MfpMask(pin), data);
    forall q: Word | q % 8 != pin % 8
      ensures MfpUpdate(current, MfpMask(pin), data) & MfpMask(q) == current & MfpMask(q)
    {
      OtherPinKept(current, pin, data, q);
    }
  }

  /** The field of one other pin of the word survives pin_function. */
  lemma OtherPinKept(current: Word, pin: Word, data: Word, q: Word)
    requires data & !MfpMask(pin) == 0 && q % 8 != pin % 8
    ensures MfpUpdate(current, MfpMask(pin), data) & MfpMask(q) == current & MfpMask(q)
  {
    MfpMasksDisjoint(pin, q);
    OtherField(current, MfpMask(pin), data, MfpMask(q));
  }

  /** A field disjoint from the mask sees neither the clearing nor the data. */
  lemma OtherField(current: Word, mask: Word, data: Word, other: Word)
    requires data & !mask == 0 && mask & other == 0
    ensures MfpUpdate(current, mask, data) & other == current & other
  {
  }
}
