/**
 * Pin names and the pin-related register layout of the NUC472
 * (mbed-hal-nuc472/mbed-hal/PinDefs.h).
 *
 * A pin name is one 32-bit word: the port number in bits 12 and up, the
 * pin number within the port in bits 0..11.
 */
module PinDefs {
  import opened Machine

  const PORT_SHIFT: Word := 12

  /** Encoded port numbers are below 2^20: what is left of 32 bits above the pin field. */
  const PORT_LIMIT: Word := 0x10_0000

  /** Encoded pin numbers are below 2^12. */
  const PIN_LIMIT: Word := 0x1000

  /** PINNAME_TO_PORT: the port part of a pin name. */
  function PortOf(name: Word): (port: Word)
    ensures port < PORT_LIMIT
    ensures port << PORT_SHIFT == name & !(PIN_LIMIT - 1)
  {
    name >> PORT_SHIFT
  }

  /** PINNAME_TO_PIN: the pin-within-port part of a pin name. */
  function PinOf(name: Word): (pin: Word)
    ensures pin < PIN_LIMIT
    ensures pin | (name & !(PIN_LIMIT - 1)) == name
  {
    name & !(0xFFFF_FFFF << PORT_SHIFT)
  }

  /**
   * PORT_N_PIN_TO_PINNAME: shifts the port up by 12 bits (dropping what
   * falls off the top of the word) and ORs the pin in.
   */
  function PinName(port: Word, pin: Word): (name: Word)
    ensures pin < PIN_LIMIT ==> PinOf(name) == pin
    ensures pin < PIN_LIMIT && port < PORT_LIMIT ==> PortOf(name) == port
  {
    (port << PORT_SHIFT) | pin
  }

  /** Every word is the name of the port and pin it decodes to. */
  lemma NameRoundTrip(name: Word)
    ensures PinName(PortOf(name), PinOf(name)) == name
  {
  }

  /** A pin number of 4096 or more spills into the port field. */
  lemma WidePinCorruptsPort()
    ensures PortOf(PinName(0, PIN_LIMIT)) == 1
  {
  }

  /**
   * PORT_BASE: the address of a port's GPIO register block, a 0x40-byte
   * stride from the block of port A, in 32-bit address arithmetic.
   */
  function PortBase(gpioaBase: u32, port: u32): (addr: u32)
    ensures gpioaBase + 0x40 * port < 0x1_0000_0000 ==> addr == gpioaBase + 0x40 * port
  {
    (gpioaBase + 0x40 * port) % 0x1_0000_0000
  }

  /**
   * When the nine port blocks lie below the top of the address space, the
   * block of a lower port ends before the block of a higher one begins.
   */
  lemma {:induction false} PortBlocksDisjoint(gpioaBase: u32, p: u32, q: u32)
    requires p < q < 9
    requires gpioaBase + 0x40 * 9 <= 0x1_0000_0000
    ensures PortBase(gpioaBase, p) + 0x40 <= PortBase(gpioaBase, q)
  {
    assert 0x40 * q < 0x40 * 9;
    assert 0x40 * (p + 1) <= 0x40 * q;
  }

  /** MFP_POS: bit position of a pin's 4-bit multi-function field within its MFP word. */
  function MfpPos(pin: Word): (pos: Word)
    ensures pos % 4 == 0 && pos <= 28
    ensures pos / 4 == pin % 8
  {
    (pin % 8) * 4
  }

  /** MFP_MSK: the mask of a pin's multi-function field. */
  function MfpMask(pin: Word): (mask: Word)
    ensures mask >> MfpPos(pin) == 0xF
    ensures mask & !(0xF << MfpPos(pin)) == 0
  {
    0xF << MfpPos(pin)
  }

  /** Pins in different eighths share no multi-function bits; pins in the same eighth share the whole field. */
  lemma MfpMasksDisjoint(a: Word, b: Word)
    ensures a % 8 != b % 8 ==> MfpMask(a) & MfpMask(b) == 0
    ensures a % 8 == b % 8 ==> MfpMask(a) == MfpMask(b)
  {
  }

  /** The pin configurations of PinMode, in declaration order. */
  datatype PinMode = PullNone | PullDown | PullUp | PushPull | OpenDrain | Quasi

  /** PullDefault is an alias of PullUp. */
  const PullDefault: PinMode := PullUp

  /** The C enumerator value of each PinMode. */
  function PinModeValue(m: PinMode): (v: nat)
    ensures v < 6
  {
    match m
    case PullNone => 0
    case PullDown => 1
    case PullUp => 2
    case PushPull => 3
    case OpenDrain => 4
    case Quasi => 5
  }

  /** Distinct pin modes have distinct enumerator values. */
  lemma PinModeValuesDistinct(a: PinMode, b: PinMode)
    ensures PinModeValue(a) == PinModeValue(b) <==> a == b
  {
  }
}
