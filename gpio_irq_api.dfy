/**
 * Edge interrupt dispatcher (source/gpio_irq_api.c).
 *
 * Nine GPIO ports of sixteen pins share one registration table. Each port
 * has an interrupt-enable register INTEN (one rising and one falling bit per
 * pin), a pending-source register INTSRC (write 1 to clear) and a pin-level
 * register. The port's interrupt vector runs the dispatcher, which calls the
 * registered handler of every pending pin whose enabled edge agrees with the
 * pin's current level.
 */
module GpioIrqApi {
  import opened Machine
  import opened PinDefs

  const MAX_PIN_PER_PORT: Word := 16
  const MAX_PORT: Word := 9

  /** gpio_irq_event: the edge a handler is told about. */
  datatype IrqEvent = IrqRise | IrqFall

  /**
   * The bit positions of GPIO_INT_RISING and GPIO_INT_FALLING. An edge's
   * enable bit for pin `p` is that constant shifted left by `p`, so both
   * positions leave room for sixteen pins in a 32-bit INTEN, and the two
   * sixteen-bit ranges do not overlap.
   */
  datatype EdgeShifts = EdgeShifts(rising: Word, falling: Word) {
    predicate Valid() {
      rising <= 16 && falling <= 16 && (rising + 16 <= falling || falling + 16 <= rising)
    }

    /** The INTEN bit that arms `event` for pin `pin`. */
    function EdgePos(event: IrqEvent, pin: Word): (pos: Word)
      requires Valid() && pin < MAX_PIN_PER_PORT
      ensures pos < 32
    {
      match event
      case IrqRise => rising + pin
      case IrqFall => falling + pin
    }
  }

  /** What gpio_irq_init records in the caller's gpio_irq_t: pin name, handler address (0: none) and id. */
  datatype Registration = Registration(pin: Word, handler: Word, id: Word)

  /** One handler invocation `handler(id, event)`. */
  datatype Call = Call(handler: Word, id: Word, event: IrqEvent)

  /** A port's INTEN, INTSRC and pin-level registers. */
  datatype PortRegs = PortRegs(inten: Word, intsrc: Word, level: Word)

  /** The pin name addresses a slot of the table. */
  predicate InTable(name: Word) {
    PinOf(name) < MAX_PIN_PER_PORT && PortOf(name) < MAX_PORT
  }

  /** The mask of bits below position `k`. */
  function LowMask(k: Word): Word
    requires k <= 16
  {
    Bit(k) - 1
  }

  /** Whether the dispatcher, visiting pending pin `pin`, dereferences its slot. */
  predicate Dereferences(e: EdgeShifts, regs: PortRegs, pin: Word)
    requires e.Valid() && pin < MAX_PIN_PER_PORT
  {
    (IsSet(regs.inten, e.EdgePos(IrqRise, pin)) && IsSet(regs.level, pin))
    || (IsSet(regs.inten, e.EdgePos(IrqFall, pin)) && !IsSet(regs.level, pin))
  }

  /** No pending pin that the dispatcher dereferences has an empty (NULL) slot. */
  ghost predicate NoNullDeref(e: EdgeShifts, regs: PortRegs, row: seq<Option<Registration>>)
    requires e.Valid() && |row| == 16
  {
    forall i: Word :: i < MAX_PIN_PER_PORT && IsSet(regs.intsrc, i) && Dereferences(e, regs, i) ==> row[i].Some?
  }

  /**
   * The handler calls made for one pending pin: RISE when the rising edge
   * is armed and the pin reads high, FALL when the falling edge is armed and
   * the pin reads low, and none when the slot's handler is 0.
   */
  function PinCalls(e: EdgeShifts, inten: Word, level: Word, slot: Option<Registration>, pin: Word): (calls: seq<Call>)
    requires e.Valid() && pin < MAX_PIN_PER_PORT
    ensures |calls| <= 1
    ensures forall c :: c in calls ==> slot.Some? && slot.value.handler != 0 && c == Call(slot.value.handler, slot.value.id, c.event)
    ensures forall c :: c in calls ==> IsSet(inten, e.EdgePos(c.event, pin))
    ensures forall c :: c in calls ==> (c.event == IrqRise <==> IsSet(level, pin))
    ensures slot.Some? && slot.value.handler != 0 && IsSet(inten, e.EdgePos(IrqRise, pin)) && IsSet(level, pin)
      ==> calls == [Call(slot.value.handler, slot.value.id, IrqRise)]
    ensures slot.Some? && slot.value.handler != 0 && IsSet(inten, e.EdgePos(IrqFall, pin)) && !IsSet(level, pin)
      ==> calls == [Call(slot.value.handler, slot.value.id, IrqFall)]
  {
    var live := slot.Some? && slot.value.handler != 0;
    if live && IsSet(inten, e.EdgePos(IrqRise, pin)) && IsSet(level, pin) then
      [Call(slot.value.handler, slot.value.id, IrqRise)]
    else if live && IsSet(inten, e.EdgePos(IrqFall, pin)) && !IsSet(level, pin) then
      [Call(slot.value.handler, slot.value.id, IrqFall)]
    else
      []
  }

  /** The set bits of `w` below position `k`, lowest first. */
  function PendingPins(w: Word, k: Word): (pins: seq<Word>)
    requires k <= 16
    ensures forall i :: 0 <= i < |pins| ==> pins[i] < k
    decreases k
  {
    if k == 0 then []
    else PendingPins(w, k - 1) + (if IsSet(w, k - 1) then [k - 1] else [])
  }

  /**
   * The handler calls for a sequence of visited pins, in visiting order (a
   * pin outside the port, which the dispatcher never visits, adds none).
   */
  function CallsFor(e: EdgeShifts, regs: PortRegs, row: seq<Option<Registration>>, pins: seq<Word>): seq<Call>
    requires e.Valid() && |row| == 16
  {
    if pins == [] then []
    else
      var last := pins[|pins| - 1];
      CallsFor(e, regs, row, pins[..|pins| - 1])
        + if last < MAX_PIN_PER_PORT then PinCalls(e, regs.inten, regs.level, row[last], last) else []
  }

  /** PendingPins lists exactly the set bits of `w` below `k`. */
  lemma {:induction false} PendingPinsExact(w: Word, k: Word)
    requires k <= 16
    ensures forall i: Word :: i < k ==> (i in PendingPins(w, k) <==> IsSet(w, i))
  {
    if k > 0 {
      PendingPinsExact(w, k - 1);
    }
  }

  /** A sequence of pins in strictly ascending order. */
  ghost predicate Ascending(s: seq<Word>) {
    forall a, b :: 0 <= a < b < |s| ==> s[a] < s[b]
  }

  /** PendingPins lists the pins lowest first, each once. */
  lemma {:induction false} PendingPinsAscending(w: Word, k: Word)
    requires k <= 16
    ensures Ascending(PendingPins(w, k))
  {
    if k > 0 {
      PendingPinsAscending(w, k - 1);
    }
  }

  /** Bits of `w` that are clear between `k` and `j` add nothing to the pending list. */
  lemma {:induction false} PendingPinsSkip(w: Word, k: Word, j: Word)
    requires k <= j <= 16
    requires w & !LowMask(k) & LowMask(j) == 0
    ensures PendingPins(w, j) == PendingPins(w, k)
    decreases j
  {
    if j > k {
      assert !IsSet(w, j - 1);
      assert w & !LowMask(k) & LowMask(j - 1) == 0;
      PendingPinsSkip(w, k, j - 1);
    }
  }

  /** When INTEN is zero, no pending pin produces a call. */
  lemma {:induction false} NoCallsWhenDisarmed(e: EdgeShifts, regs: PortRegs, row: seq<Option<Registration>>, pins: seq<Word>)
    requires e.Valid() && |row| == 16
    requires regs.inten == 0
    ensures CallsFor(e, regs, row, pins) == []
  {
    if pins != [] {
      NoCallsWhenDisarmed(e, regs, row, pins[..|pins| - 1]);
    }
  }

  /** Pending bits 3 and 7 are visited in that order. */
  lemma PendingThreeAndSeven()
    ensures PendingPins(0x88, 16) == [3, 7]
  {
    assert PendingPins(0x88, 3) == [] by {
      PendingPinsSkip(0x88, 0, 3);
    }
    assert PendingPins(0x88, 7) == [3] by {
      PendingPinsSkip(0x88, 4, 7);
    }
    PendingPinsSkip(0x88, 8, 16);
  }

  /** Below position `i` of a nonzero word all bits are clear and bit `i` is clear too: a higher bit is set. */
  lemma SkipClearBit(w: Word, i: Word)
    requires w != 0 && i < 32
    requires w & (Bit(i) - 1) == 0 && !IsSet(w, i)
    ensures i < 31 && w & (Bit(i + 1) - 1) == 0
  {
  }

  /**
   * nu_ctz, the count of trailing zeros of a nonzero word, searched upwards
   * from a position below which every bit is clear: `Bit(r)` is the lowest
   * set bit of `w`, which two's complement isolates as `w & -w`.
   */
  function CtzFrom(w: Word, i: Word): (r: Word)
    requires w != 0 && i < 32
    requires w & (Bit(i) - 1) == 0
    ensures r < 32 && Bit(r) == w & -w
    decreases 32 - i
  {
    if IsSet(w, i) then i
    else
      SkipClearBit(w, i);
      CtzFrom(w, i + 1)
  }

  /** Visiting one more pin appends that pin's calls. */
  lemma CallsForSnoc(e: EdgeShifts, regs: PortRegs, row: seq<Option<Registration>>, pins: seq<Word>, p: Word)
    requires e.Valid() && |row| == 16 && p < MAX_PIN_PER_PORT
    ensures CallsFor(e, regs, row, pins + [p]) == CallsFor(e, regs, row, pins) + PinCalls(e, regs.inten, regs.level, row[p], p)
  {
    var extended := pins + [p];
    assert extended[..|extended| - 1] == pins;
  }

  /** The working copy `w` has exactly the pins of `rest` set. */
  ghost predicate Holds(w: Word, rest: seq<Word>) {
    forall i: Word {:trigger i in rest} :: i in rest <==> i < 32 && IsSet(w, i)
  }

  /** `Bit(r) == w & -w` makes `r` the lowest set bit of `w`. */
  lemma LowestSet(w: Word, r: Word)
    requires r < 32 && Bit(r) == w & -w
    ensures IsSet(w, r)
    ensures forall j: Word :: j < r ==> !IsSet(w, j)
  {
    forall j: Word | j < r
      ensures !IsSet(w, j)
    {
    }
  }

  /** A tail of an ascending sequence is ascending. */
  lemma TailAscending(all: seq<Word>, visited: seq<Word>, rest: seq<Word>)
    requires visited + rest == all && Ascending(all)
    ensures Ascending(rest)
  {
    var n := |visited|;
    forall a, b | 0 <= a < b < |rest|
      ensures rest[a] < rest[b]
    {
      assert rest[a] == all[n + a] && rest[b] == all[n + b];
    }
  }

  /** The first element of an ascending sequence is below every later one. */
  lemma AscendingFirst(s: seq<Word>, m: int)
    requires Ascending(s) && 0 < m < |s|
    ensures s[0] < s[m]
  {
  }

  /** Every pin of `rest` is a set bit of the working copy. */
  lemma MemberHolds(w: Word, rest: seq<Word>, a: int)
    requires Holds(w, rest) && 0 <= a < |rest|
    ensures rest[a] < 32 && IsSet(w, rest[a])
  {
    assert rest[a] in rest;
  }

  /** The lowest set bit of the working copy is the first pin still pending. */
  lemma FirstOfRest(rest: seq<Word>, w: Word, p: Word)
    requires Ascending(rest) && Holds(w, rest) && p < 32
    requires IsSet(w, p) && forall j: Word :: j < p ==> !IsSet(w, j)
    ensures rest != [] && p == rest[0]
  {
    assert p in rest;
    var m :| 0 <= m < |rest| && rest[m] == p;
    if m > 0 {
      AscendingFirst(rest, m);
      assert rest[0] in rest;
    }
  }

  /** Dropping the first pin of an ascending sequence removes that pin and no other. */
  lemma TailMembers(rest: seq<Word>)
    requires Ascending(rest) && rest != []
    ensures forall i :: i in rest[1..] <==> i in rest && i != rest[0]
  {
    assert rest == [rest[0]] + rest[1..];
    forall i | i in rest[1..]
      ensures i != rest[0]
    {
      var b :| 0 <= b < |rest[1..]| && rest[1..][b] == i;
      assert rest[1 + b] == i;
    }
  }

  /** Clearing the first pending pin's bit leaves exactly the other pins set. */
  lemma ClearFirst(rest: seq<Word>, w: Word)
    requires Ascending(rest) && Holds(w, rest) && rest != [] && rest[0] < 32
    ensures Holds(w & !Bit(rest[0]), rest[1..])
  {
    TailMembers(rest);
    ClearedBits(w, rest[0]);
  }

  /** Clearing bit `p` keeps exactly the other set bits. */
  lemma ClearedBits(w: Word, p: Word)
    requires p < 32
    ensures forall i: Word :: i < 32 ==> (IsSet(w & !Bit(p), i) <==> IsSet(w, i) && i != p)
  {
    forall i: Word | i < 32
      ensures IsSet(w & !Bit(p), i) <==> IsSet(w, i) && i != p
    {
      ClearBit(w, p, i);
    }
  }

  /** The lowest set bit of the working copy is the first of the pins still pending, which are ascending. */
  lemma FirstPending(snap: Word, visited: seq<Word>, rest: seq<Word>, w: Word, p: Word)
    requires visited + rest == PendingPins(snap, 16)
    requires Holds(w, rest)
    requires p < 32 && Bit(p) == w & -w
    ensures Ascending(rest) && rest != [] && p == rest[0]
  {
    PendingPinsAscending(snap, 16);
    TailAscending(PendingPins(snap, 16), visited, rest);
    LowestSet(w, p);
    FirstOfRest(rest, w, p);
  }

  /** A pin of the pending list is a pin of the port whose bit is set in the snapshot. */
  lemma PendingIsSnapshotBit(snap: Word, visited: seq<Word>, rest: seq<Word>)
    requires visited + rest == PendingPins(snap, 16) && rest != []
    ensures rest[0] < 16 && IsSet(snap, rest[0])
  {
    PendingPinsExact(snap, 16);
    assert rest[0] == PendingPins(snap, 16)[|visited|];
    assert rest[0] in PendingPins(snap, 16);
  }

  /**
   * One iteration of the dispatch loop: when the working copy `w` holds the
   * pins `rest` that follow the visited ones in the snapshot's pending list,
   * its lowest set bit `p` is the first of them, a pending pin of the
   * snapshot, and clearing that bit leaves the others.
   */
  lemma NextPending(snap: Word, visited: seq<Word>, rest: seq<Word>, w: Word, p: Word)
    requires visited + rest == PendingPins(snap, 16)
    requires Holds(w, rest)
    requires p < 32 && Bit(p) == w & -w
    ensures rest != [] && p == rest[0] && p < 16 && IsSet(snap, p)
    ensures Holds(w & !Bit(p), rest[1..])
  {
    FirstPending(snap, visited, rest, w, p);
    ClearFirst(rest, w);
    PendingIsSnapshotBit(snap, visited, rest);
  }

  /** A snapshot with no bit above 15 has exactly its pending pins set. */
  lemma InitialHolds(snap: Word)
    requires snap & !0xFFFF == 0
    ensures Holds(snap, PendingPins(snap, 16))
  {
    PendingPinsExact(snap, 16);
    forall i: Word | 16 <= i < 32
      ensures !IsSet(snap, i)
    {
    }
  }

  /** An empty working copy means no pin is left. */
  lemma FinalHolds(rest: seq<Word>)
    requires Holds(0, rest)
    ensures rest == []
  {
    if rest != [] {
      MemberHolds(0, rest, 0);
      assert false;
    }
  }

  /** Moving the first pending pin to the visited list keeps their concatenation. */
  lemma Shift(visited: seq<Word>, rest: seq<Word>)
    requires rest != []
    ensures (visited + [rest[0]]) + rest[1..] == visited + rest
  {
    assert rest == [rest[0]] + rest[1..];
  }

  /** The NULL-dereference guard at one pending pin. */
  lemma NoNullDerefAt(e: EdgeShifts, regs: PortRegs, row: seq<Option<Registration>>, p: Word)
    requires e.Valid() && |row| == 16 && p < MAX_PIN_PER_PORT
    requires NoNullDeref(e, regs, row) && IsSet(regs.intsrc, p)
    ensures Dereferences(e, PortRegs(regs.inten, 0, regs.level), p) ==> row[p].Some?
  {
  }

  /** Write-one-to-clear: writing `written` to a W1C register clears the written bits. */
  function WriteOneToClear(reg: Word, written: Word): (r: Word)
    ensures r & written == 0
    ensures r | (reg & written) == reg
  {
    reg & !written
  }

  /**
   * The INTEN update of gpio_irq_set: arming sets the edge's bit (what
   * GPIO_EnableInt does to INTEN), disarming clears it.
   */
  function ArmEdge(inten: Word, pos: Word, enable: bool): Word
    requires pos < 32
  {
    if enable then inten | Bit(pos) else inten & !Bit(pos)
  }

  /**
   * ArmEdge makes the edge's bit equal to `enable`; every other bit, the
   * other edge of the pin and every edge of the other pins, keeps its value.
   */
  lemma ArmEdgeBits(inten: Word, pos: Word, enable: bool)
    requires pos < 32
    ensures forall b: Word :: b < 32 ==> (IsSet(ArmEdge(inten, pos, enable), b) <==> if b == pos then enable else IsSet(inten, b))
  {
    forall b: Word | b < 32
      ensures IsSet(ArmEdge(inten, pos, enable), b) <==> if b == pos then enable else IsSet(inten, b)
    {
      if enable {
        SetBit(inten, pos, b);
      } else {
        ClearBit(inten, pos, b);
      }
    }
  }

  /** Different edges, or the same edge of different pins, have different INTEN bits. */
  lemma EdgePosDistinct(e: EdgeShifts, ev: IrqEvent, p: Word, ev': IrqEvent, q: Word)
    requires e.Valid() && p < MAX_PIN_PER_PORT && q < MAX_PIN_PER_PORT
    ensures e.EdgePos(ev, p) == e.EdgePos(ev', q) <==> ev == ev' && p == q
  {
  }

  /**
   * Arming or disarming one edge of one pin changes that edge's bit to
   * `enable` and keeps the bit of every other edge of every pin of the port.
   */
  lemma ArmEdgeOtherEdges(e: EdgeShifts, inten: Word, event: IrqEvent, pin: Word, enable: bool)
    requires e.Valid() && pin < MAX_PIN_PER_PORT
    ensures IsSet(ArmEdge(inten, e.EdgePos(event, pin), enable), e.EdgePos(event, pin)) == enable
    ensures forall ev, q: Word {:trigger e.EdgePos(ev, q)} :: q < MAX_PIN_PER_PORT && (ev != event || q != pin) ==>
      IsSet(ArmEdge(inten, e.EdgePos(event, pin), enable), e.EdgePos(ev, q)) == IsSet(inten, e.EdgePos(ev, q))
  {
    var pos := e.EdgePos(event, pin);
    ArmEdgeBits(inten, pos, enable);
    forall ev, q: Word | q < MAX_PIN_PER_PORT && (ev != event || q != pin)
      ensures IsSet(ArmEdge(inten, pos, enable), e.EdgePos(ev, q)) == IsSet(inten, e.EdgePos(ev, q))
    {
      EdgePosDistinct(e, ev, q, event, pin);
    }
  }

  /**
   * The module state of the dispatcher together with the port registers
   * it touches: the slot table gpio_irq_var_arr, each port's INTEN, INTSRC
   * and pin level, whether the port's line is enabled at the interrupt
   * controller, and the log of handler calls made.
   */
  class GpioIrq {
    /** NC, the pin name of an unconnected pin. */
    const nc: Word
    const edges: EdgeShifts
    /** slots[port, pin] is gpio_irq_var_arr[port].obj_arr[pin]; None is NULL. */
    const slots: array2<Option<Registration>>
    const ports: array<PortRegs>
    const lineEnabled: array<bool>
    var calls: seq<Call>

    ghost predicate Valid() {
      edges.Valid()
      && slots.Length0 == MAX_PORT as int && slots.Length1 == MAX_PIN_PER_PORT as int
      && ports.Length == MAX_PORT as int && lineEnabled.Length == MAX_PORT as int
    }

    /** The slots of one port, as a sequence indexed by pin. */
    function Row(port: Word): (row: seq<Option<Registration>>)
      requires Valid() && port < MAX_PORT
      reads slots
      ensures |row| == 16
      ensures forall i :: 0 <= i < 16 ==> row[i] == slots[port as int, i]
    {
      seq(16, i requires 0 <= i < 16 reads slots => slots[port as int, i])
    }

    /** The table at start-up: all slots NULL, registers zero, lines disabled, no calls. */
    constructor (nc: Word, edges: EdgeShifts)
      requires edges.Valid()
      ensures Valid() && this.nc == nc && this.edges == edges
      ensures fresh(slots) && fresh(ports) && fresh(lineEnabled)
      ensures forall p, q :: 0 <= p < 9 && 0 <= q < 16 ==> slots[p, q] == None
      ensures forall p :: 0 <= p < 9 ==> ports[p] == PortRegs(0, 0, 0) && !lineEnabled[p]
      ensures calls == []
    {
      this.nc := nc;
      this.edges := edges;
      slots := new Option<Registration>[9, 16]((p, q) => None);
      ports := new PortRegs[9](p => PortRegs(0, 0, 0));
      lineEnabled := new bool[9](p => false);
      calls := [];
    }

    /**
     * gpio_irq_init: rejects NC and pin names outside the table with -1;
     * otherwise stores the registration in its slot, replacing any previous
     * one, and returns 0.
     */
    method Init(pin: Word, handler: Word, id: Word) returns (status: int)
      requires Valid()
      modifies slots
      ensures status == 0 <==> pin != nc && InTable(pin)
      ensures status != 0 ==> status == -1 && unchanged(slots)
      ensures status == 0 ==> slots[PortOf(pin) as int, PinOf(pin) as int] == Some(Registration(pin, handler, id))
      ensures forall p, q ::
                0 <= p < 9 && 0 <= q < 16 && (p != PortOf(pin) as int || q != PinOf(pin) as int) ==>
                  slots[p, q] == old(slots[p, q])
    {
      if pin == nc {
        return -1;
      }
      var pinIndex := PinOf(pin);
      var portIndex := PortOf(pin);
      if pinIndex >= MAX_PIN_PER_PORT || portIndex >= MAX_PORT {
        return -1;
      }
      slots[portIndex as int, pinIndex as int] := Some(Registration(pin, handler, id));
      return 0;
    }

    /**
     * gpio_irq_free: disables the port's line, zeroes the whole port's
     * INTEN (disarming every pin of the port) and empties the pin's slot.
     */
    method Free(obj: Registration)
      requires Valid() && InTable(obj.pin)
      modifies slots, ports, lineEnabled
      ensures var port, pin := PortOf(obj.pin) as int, PinOf(obj.pin) as int;
        && slots[port, pin] == None
        && (forall p, q :: 0 <= p < 9 && 0 <= q < 16 && (p != port || q != pin) ==> slots[p, q] == old(slots[p, q]))
        && ports[port] == old(ports[port]).(inten := 0)
        && (forall p :: 0 <= p < 9 && p != port ==> ports[p] == old(ports[p]))
        && !lineEnabled[port]
        && (forall p :: 0 <= p < 9 && p != port ==> lineEnabled[p] == old(lineEnabled[p]))
    {
      var pinIndex := PinOf(obj.pin);
      var portIndex := PortOf(obj.pin);
      lineEnabled[portIndex as int] := false;
      ports[portIndex as int] := ports[portIndex as int].(inten := 0);
      slots[portIndex as int, pinIndex as int] := None;
    }

    /**
     * gpio_irq_set: sets (enable != 0) or clears (enable == 0) the enable
     * bit of one edge of one pin. No other INTEN bit and no other register
     * changes.
     */
    method Set(obj: Registration, event: IrqEvent, enable: Word)
      requires Valid() && InTable(obj.pin)
      modifies ports
      ensures var port := PortOf(obj.pin);
        && ports[port] == old(ports[port]).(inten := ArmEdge(old(ports[port].inten), edges.EdgePos(event, PinOf(obj.pin)), enable != 0))
        && (forall p :: 0 <= p < 9 && p != port as int ==> ports[p] == old(ports[p]))
    {
      var pinIndex := PinOf(obj.pin);
      var portIndex := PortOf(obj.pin);
      var bit := edges.EdgePos(event, pinIndex);
      // With enable set, GPIO_EnableInt arms the edge; the debounce set-up is not modelled.
      ports[portIndex] := ports[portIndex].(inten := ArmEdge(ports[portIndex].inten, bit, enable != 0));
    }

    /** gpio_irq_enable: enables the port's interrupt line. */
    method Enable(obj: Registration)
      requires Valid() && PortOf(obj.pin) < MAX_PORT
      modifies lineEnabled
      ensures lineEnabled[PortOf(obj.pin) as int]
      ensures forall p :: 0 <= p < 9 && p != PortOf(obj.pin) as int ==> lineEnabled[p] == old(lineEnabled[p])
    {
      lineEnabled[PortOf(obj.pin) as int] := true;
    }

    /** gpio_irq_disable: disables the port's interrupt line. */
    method Disable(obj: Registration)
      requires Valid() && PortOf(obj.pin) < MAX_PORT
      modifies lineEnabled
      ensures !lineEnabled[PortOf(obj.pin) as int]
      ensures forall p :: 0 <= p < 9 && p != PortOf(obj.pin) as int ==> lineEnabled[p] == old(lineEnabled[p])
    {
      lineEnabled[PortOf(obj.pin) as int] := false;
    }

    /**
     * The body of the dispatch loop for one pending pin: call the handler
     * with RISE if the rising edge is armed and the pin reads high, then
     * with FALL if the falling edge is armed and the pin reads low. The
     * slot `obj` is dereferenced only when an armed edge agrees with the level.
     */
    method CallHandlers(obj: Option<Registration>, level: Word, pinIndex: Word, inten: Word)
      requires edges.Valid() && pinIndex < MAX_PIN_PER_PORT
      requires Dereferences(edges, PortRegs(inten, 0, level), pinIndex) ==> obj.Some?
      modifies this`calls
      ensures calls == old(calls) + PinCalls(edges, inten, level, obj, pinIndex)
    {
      if IsSet(inten, edges.EdgePos(IrqRise, pinIndex)) {
        if IsSet(level, pinIndex) {
          if obj.value.handler != 0 {
            calls := calls + [Call(obj.value.handler, obj.value.id, IrqRise)];
          }
        }
      }
      if IsSet(inten, edges.EdgePos(IrqFall, pinIndex)) {
        if !IsSet(level, pinIndex) {
          if obj.value.handler != 0 {
            calls := calls + [Call(obj.value.handler, obj.value.id, IrqFall)];
          }
        }
      }
    }

    /**
     * The body of one iteration of the dispatch loop: nu_ctz picks the
     * lowest bit of the working copy, which is the first pin of `rest`, the
     * snapshot's pending pins not yet visited; that pin's handler calls are
     * made; and the working copy comes back with the pin's bit cleared.
     */
    method ServicePin(regs: PortRegs, row: seq<Option<Registration>>, intsrc: Word,
                      ghost visited: seq<Word>, ghost rest: seq<Word>)
      returns (pinIndex: Word, remaining: Word)
      requires edges.Valid() && |row| == 16
      requires NoNullDeref(edges, regs, row)
      requires visited + rest == PendingPins(regs.intsrc, 16)
      requires Holds(intsrc, rest) && intsrc != 0
      modifies this`calls
      ensures rest != [] && pinIndex == rest[0] && pinIndex < MAX_PIN_PER_PORT
      ensures Holds(remaining, rest[1..])
      ensures calls == old(calls) + PinCalls(edges, regs.inten, regs.level, row[pinIndex], pinIndex)
    {
      pinIndex := CtzFrom(intsrc, 0);
      NextPending(regs.intsrc, visited, rest, intsrc, pinIndex);
      NoNullDerefAt(edges, regs, row, pinIndex);
      CallHandlers(row[pinIndex], regs.level, pinIndex, regs.inten);
      remaining := intsrc & !Bit(pinIndex);
    }

    /**
     * One iteration of the dispatch loop, stated in terms of the loop's
     * invariant: the serviced pin moves from `rest` to `visited` and the log,
     * which held the calls of the visited pins after `prior`, gains its calls.
     */
    method VisitNext(regs: PortRegs, row: seq<Option<Registration>>, intsrc: Word,
                     ghost visited: seq<Word>, ghost rest: seq<Word>, ghost prior: seq<Call>)
      returns (pinIndex: Word, remaining: Word)
      requires edges.Valid() && |row| == 16
      requires NoNullDeref(edges, regs, row)
      requires visited + rest == PendingPins(regs.intsrc, 16)
      requires Holds(intsrc, rest) && intsrc != 0
      requires calls == prior + CallsFor(edges, regs, row, visited)
      modifies this`calls
      ensures rest != [] && pinIndex == rest[0]
      ensures (visited + [pinIndex]) + rest[1..] == PendingPins(regs.intsrc, 16)
      ensures Holds(remaining, rest[1..])
      ensures calls == prior + CallsFor(edges, regs, row, visited + [pinIndex])
    {
      pinIndex, remaining := ServicePin(regs, row, intsrc, visited, rest);
      CallsForSnoc(edges, regs, row, visited, pinIndex);
      Shift(visited, rest);
    }

    /**
     * The dispatch loop of gpio_irq over a snapshot `regs` of the port's
     * registers and `row` of its slots: visits every pending pin, lowest
     * first, and makes the handler calls PinCalls prescribes for each.
     */
    method VisitPending(regs: PortRegs, row: seq<Option<Registration>>) returns (ghost visited: seq<Word>)
      requires edges.Valid() && |row| == 16
      requires regs.intsrc & !0xFFFF == 0
      requires NoNullDeref(edges, regs, row)
      modifies this`calls
      ensures visited == PendingPins(regs.intsrc, 16)
      ensures calls == old(calls) + CallsFor(edges, regs, row, visited)
    {
      var intsrc := regs.intsrc;
      ghost var rest := PendingPins(regs.intsrc, 16);
      ghost var prior := calls;
      InitialHolds(regs.intsrc);
      visited := [];
      while intsrc != 0
        invariant visited + rest == PendingPins(regs.intsrc, 16)
        invariant Holds(intsrc, rest)
        invariant calls == prior + CallsFor(edges, regs, row, visited)
        decreases |rest|
      {
        var pinIndex;
        pinIndex, intsrc := VisitNext(regs, row, intsrc, visited, rest, prior);
        visited := visited + [pinIndex];
        rest := rest[1..];
      }
      FinalHolds(rest);
    }

    /**
     * gpio_irq (reached through the port's vector, which runs only while
     * the port's line is enabled): takes one snapshot of
     * INTSRC and INTEN, visits the pending pins lowest first, calls the
     * handlers PinCalls prescribes, and finally clears every pending flag
     * by writing INTSRC back to itself.
     */
    method Dispatch(port: Word) returns (ghost visited: seq<Word>)
      requires Valid() && port < MAX_PORT && lineEnabled[port]
      requires ports[port].intsrc & !0xFFFF == 0
      requires NoNullDeref(edges, ports[port], Row(port))
      modifies this`calls, ports
      ensures visited == PendingPins(old(ports[port].intsrc), 16)
      ensures calls == old(calls) + CallsFor(edges, old(ports[port]), Row(port), visited)
      ensures ports[port] == old(ports[port]).(intsrc := 0)
      ensures forall p :: 0 <= p < 9 && p != port as int ==> ports[p] == old(ports[p])
    {
      visited := VisitPending(ports[port], Row(port));
      var current := ports[port].intsrc;
      ports[port] := ports[port].(intsrc := WriteOneToClear(current, current));
    }
  }
}
