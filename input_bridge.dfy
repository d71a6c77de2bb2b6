/** The input bridge: the engine asks SNESInput for the joypad state, and it
    polls the host once, queries the eight buttons of btn_map on port 0 and
    ORs together the engine bits of the buttons the host reports held. */
module InputBridge {
  import opened Bits

  /** Host-side ids from the libretro API (libretro.h is not part of this
      model; these are the values the published API assigns). */
  const DeviceJoypad: nat := 1
  const JoypadB: nat := 0
  const JoypadSelect: nat := 2
  const JoypadStart: nat := 3
  const JoypadUp: nat := 4
  const JoypadDown: nat := 5
  const JoypadLeft: nat := 6
  const JoypadRight: nat := 7
  const JoypadA: nat := 8

  /** The engine-side bit of each button, gambatte::InputGetter's constants
      (their header is not part of this model, so they are parameters). */
  datatype EngineButtons = EngineButtons(
    a: bv32, b: bv32, select: bv32, start: bv32,
    right: bv32, left: bv32, up: bv32, down: bv32)

  /** One entry of btn_map: a host button id and the engine bit it sets. */
  datatype Mapping = Mapping(snes: nat, gb: bv32)

  /** input::btn_map, in table order: every joypad button but X, Y, L and R,
      each listed once. */
  function BtnMap(bits: EngineButtons): (m: seq<Mapping>)
    ensures |m| == 8
    ensures forall i, j :: 0 <= i < j < |m| ==> m[i].snes != m[j].snes
    ensures forall e :: e in m ==> e.snes in {JoypadB, JoypadSelect, JoypadStart, JoypadUp,
                                              JoypadDown, JoypadLeft, JoypadRight, JoypadA}
  {
    [ Mapping(JoypadA, bits.a), Mapping(JoypadB, bits.b),
      Mapping(JoypadSelect, bits.select), Mapping(JoypadStart, bits.start),
      Mapping(JoypadRight, bits.right), Mapping(JoypadLeft, bits.left),
      Mapping(JoypadUp, bits.up), Mapping(JoypadDown, bits.down) ]
  }

  /** A call the bridge makes into the host. */
  datatype InputEvent =
    | Poll
    | StateQuery(port: nat, device: nat, index: nat, id: nat)

  /** The state queries for the entries of a table, in table order. */
  function Queries(m: seq<Mapping>): seq<InputEvent> {
    seq(|m|, i requires 0 <= i < |m| => StateQuery(0, DeviceJoypad, 0, m[i].snes))
  }

  /** The engine bit an entry contributes: its gb bit when the host reports
      its button held, 0 otherwise (the `? gb : 0` of the loop body). */
  function Contribution(e: Mapping, held: set<nat>): bv32 {
    if e.snes in held then e.gb else 0
  }

  /** The OR of the contributions of a table's entries, folded from the
      first entry to the last as the loop does. */
  function PressedBits(m: seq<Mapping>, held: set<nat>): bv32 {
    if m == [] then 0 else PressedBits(m[..|m| - 1], held) | Contribution(m[|m| - 1], held)
  }

  /** The OR of every engine bit in a table. */
  function AllBits(m: seq<Mapping>): bv32 {
    if m == [] then 0 else AllBits(m[..|m| - 1]) | m[|m| - 1].gb
  }

  /** SNESInput::operator(): one poll, then the eight queries in table order;
      the result is the OR of the engine bits of the held buttons. */
  method GetInput(bits: EngineButtons, held: set<nat>) returns (res: bv32, trace: seq<InputEvent>)
    ensures trace == [Poll] + Queries(BtnMap(bits))
    ensures res == PressedBits(BtnMap(bits), held)
  {
    var m := BtnMap(bits);
    trace := [Poll];
    res := 0;
    for i := 0 to |m|
      invariant trace == [Poll] + Queries(m[..i])
      invariant res == PressedBits(m[..i], held)
    {
      trace := trace + [StateQuery(0, DeviceJoypad, 0, m[i].snes)];
      res := res | (if m[i].snes in held then m[i].gb else 0);
      QueriesStep(m, i);
      PressedStep(m, i, held);
    }
    assert m[..|m|] == m;
  }

  /** One more entry of the table: one more query. */
  lemma QueriesStep(m: seq<Mapping>, i: nat)
    requires i < |m|
    ensures Queries(m[..i + 1]) == Queries(m[..i]) + [StateQuery(0, DeviceJoypad, 0, m[i].snes)]
  {
  }

  /** One more entry of the table: one more OR. */
  lemma PressedStep(m: seq<Mapping>, i: nat, held: set<nat>)
    requires i < |m|
    ensures PressedBits(m[..i + 1], held) ==
            PressedBits(m[..i], held) | (if m[i].snes in held then m[i].gb else 0)
  {
    assert m[..i + 1][..i] == m[..i];
  }

  /** Bit k of the result is set exactly when some held entry's engine bit
      has it set. */
  lemma {:induction false} PressedBitsExactly(m: seq<Mapping>, held: set<nat>, k: bv32)
    requires k < 32
    ensures Bit(PressedBits(m, held), k) <==>
            exists i :: 0 <= i < |m| && m[i].snes in held && Bit(m[i].gb, k)
  {
    if m == [] {
      BitZero(k);
    } else {
      var init, n := m[..|m| - 1], |m| - 1;
      PressedBitsExactly(init, held, k);
      BitOr(PressedBits(init, held), Contribution(m[n], held), k);
      BitZero(k);
      assert Bit(Contribution(m[n], held), k) <==> m[n].snes in held && Bit(m[n].gb, k);
      if Bit(PressedBits(init, held), k) {
        var i :| 0 <= i < |init| && init[i].snes in held && Bit(init[i].gb, k);
        assert m[i] == init[i];
      }
      if exists i :: 0 <= i < |m| && m[i].snes in held && Bit(m[i].gb, k) {
        var i :| 0 <= i < |m| && m[i].snes in held && Bit(m[i].gb, k);
        if i < n {
          assert init[i] == m[i];
        }
      }
    }
  }

  /** No held button gives 0. */
  lemma {:induction false} NothingHeld(m: seq<Mapping>, held: set<nat>)
    requires forall i :: 0 <= i < |m| ==> m[i].snes !in held
    ensures PressedBits(m, held) == 0
  {
    if m == [] {
    } else {
      NothingHeld(m[..|m| - 1], held);
      assert (0 as bv32) | 0 == 0;
    }
  }

  /** The result sets no bit outside the union of the table's engine bits. */
  lemma {:induction false} WithinUnion(m: seq<Mapping>, held: set<nat>)
    ensures PressedBits(m, held) & !AllBits(m) == 0
  {
    if m == [] {
      assert (0 as bv32) & !0 == 0;
    } else {
      var init, e := m[..|m| - 1], m[|m| - 1];
      WithinUnion(init, held);
      OrWithin(PressedBits(init, held), AllBits(init), Contribution(e, held), e.gb);
    }
  }

  /** Holding only A yields exactly the engine's A bit. */
  lemma OnlyA(bits: EngineButtons)
    ensures PressedBits(BtnMap(bits), {JoypadA}) == bits.a
  {
    var m := BtnMap(bits);
    NothingHeld(m[1..], {JoypadA});
    assert m[..1] == [m[0]] && m[..1][..0] == [];
    var a := Contribution(m[0], {JoypadA});
    assert a == bits.a;
    OrZeroLeft(a);
    PressedBitsSplit(m, 1, {JoypadA});
    OrZeroRight(a);
  }

  /** The fold over a table is the OR of the folds over its two halves. */
  lemma {:induction false} PressedBitsSplit(m: seq<Mapping>, n: nat, held: set<nat>)
    requires n <= |m|
    ensures PressedBits(m, held) == PressedBits(m[..n], held) | PressedBits(m[n..], held)
    decreases |m|
  {
    if |m| == n {
      assert m[..n] == m;
      assert m[n..] == [];
      OrZeroRight(PressedBits(m, held));
    } else {
      var init, e, rest := m[..|m| - 1], m[|m| - 1], m[n..];
      PressedBitsSplit(init, n, held);
      assert init[..n] == m[..n];
      assert rest != [] && rest[..|rest| - 1] == init[n..] && rest[|rest| - 1] == e;
      OrAssoc(PressedBits(m[..n], held), PressedBits(init[n..], held), Contribution(e, held));
    }
  }
}
