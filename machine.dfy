/** Machine-level value types shared by the HAL modules. */
module Machine {

  /** A 32-bit register or `unsigned int`, manipulated bitwise. */
  type Word = bv32

  /** A `uint32_t` used arithmetically (counters, durations). */
  type u32 = x: int | 0 <= x < 0x1_0000_0000

  const U32_MAX: u32 := 0xFFFF_FFFF

  /** An optional value; `None` stands for a NULL pointer. */
  datatype Option<+T> = None | Some(value: T)

  /** The single-bit mask `1 << i`. */
  function Bit(i: Word): Word
    requires i < 32
  {
    1 << i
  }

  /** Whether bit `i` of `w` is set. */
  predicate IsSet(w: Word, i: Word)
    requires i < 32
  {
    (w >> i) & 1 == 1
  }

  /** Clearing bit `p` leaves every other bit as it was. */
  lemma ClearBit(w: Word, p: Word, i: Word)
    requires p < 32 && i < 32
    ensures IsSet(w & !Bit(p), i) <==> IsSet(w, i) && i != p
  {
  }

  /** Setting bit `p` leaves every other bit as it was. */
  lemma SetBit(w: Word, p: Word, i: Word)
    requires p < 32 && i < 32
    ensures IsSet(w | Bit(p), i) <==> IsSet(w, i) || i == p
  {
  }
}
