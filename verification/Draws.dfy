/** What the draws from the filler's data stand for: operands, boundary cases, depths. */
module Draws {
  import opened Bytes
  import opened Evm
  import opened Prefix
  import opened Fill
  import opened Assembler
  import opened Emission

  /** The byte a draw at position t gives. */
  function Drawn(data: seq<byte>, t: nat): (b: int)
    requires |data| > 0
    ensures 0 <= b < 256
  {
    Cyclic(data, t, 1)[0]
  }

  lemma DrawnByte(data: seq<byte>, t: nat, b: byte)
    requires |data| > 0 && [b] == Cyclic(data, t, 1)
    ensures Drawn(data, t) == b
  {
    assert [b][0] == b;
  }

  // ---------------------------------------------------------------- operands

  predicate AllPushes(ins: seq<Instr>)
  {
    forall j :: 0 <= j < |ins| ==> ins[j].Push?
  }

  /** The operand drawn at position t: a random word for a quarter of the first bytes, else
      a boundary value; and how many bytes it takes. */
  function OperandAt(data: seq<byte>, t: nat): Word
    requires |data| > 0
  {
    if Drawn(data, t) < 64 then Wrap(BigEndian(Cyclic(data, t + 1, 32)))
    else INTERESTING[Drawn(data, t + 1) % |INTERESTING|]
  }

  /** Which values an operand takes: with a first byte of 64 or more one of ten at the
      boundaries, by the second byte. */
  lemma OperandExactly(data: seq<byte>, t: nat)
    requires |data| > 0
    ensures Drawn(data, t) < 64 ==> OperandAt(data, t) == BigEndian(Cyclic(data, t + 1, 32))
    ensures Drawn(data, t) >= 64 ==>
              var k := Drawn(data, t + 1) % 10;
              OperandAt(data, t) ==
                if k == 0 then 0 else if k == 1 then 1 else if k == 2 then 2 else if k == 3 then 31
                else if k == 4 then 32 else if k == 5 then 255 else if k == 6 then 256
                else if k == 7 then WORD - 1 else if k == 8 then WORD / 2 else WORD / 2 - 1
  {
    hide Drawn;
    hide Cyclic;
    hide BigEndian;
    BigEndianBound(Cyclic(data, t + 1, 32));
    PowerOfWord();
    hide Pow256;
  }

  function OperandCost(data: seq<byte>, t: nat): nat
    requires |data| > 0
  {
    if Drawn(data, t) < 64 then 33 else 2
  }

  /** The bytes n operands take, and the pushes of them in the order of the draws. */
  function OperandsCost(data: seq<byte>, t: nat, n: nat): nat
    requires |data| > 0
  {
    if n == 0 then 0 else OperandsCost(data, t, n - 1) + OperandCost(data, t + OperandsCost(data, t, n - 1))
  }

  function OperandPushes(data: seq<byte>, t: nat, n: nat): (r: seq<Instr>)
    requires |data| > 0
    ensures |r| == n && AllPushes(r)
  {
    if n == 0 then [] else OperandPushes(data, t, n - 1) + [Push(OperandAt(data, t + OperandsCost(data, t, n - 1)))]
  }

  // ---------------------------------------------------------------- boundary cases

  /** A boundary case: the operation and its operands in the order in which it pops them. */
  datatype Edge = Edge(op: byte, operands: seq<Word>)

  /** Operands are pushed last to first. */
  function PushReversed(vs: seq<Word>): (r: seq<Instr>)
    ensures |r| == |vs| && AllPushes(r)
  {
    if vs == [] then [] else PushReversed(vs[1..]) + [Push(vs[0])]
  }

  function EdgeInstrs(e: Edge): seq<Instr>
  {
    PushReversed(e.operands) + [Op(e.op)]
  }

  /** The boundary case drawn at position t, and how many bytes it takes. */
  function EdgeAt(data: seq<byte>, t: nat): Edge
    requires |data| > 0
  {
    match Drawn(data, t) % 9
    case 0 => Edge(ADDMOD, [MAX_WORD, MAX_WORD, 0])
    case 1 => Edge(MULMOD, [MAX_WORD, MAX_WORD, 0])
    case 2 => Edge(SDIV, [MIN_INT, MAX_WORD])
    case 3 => Edge(SMOD, [MIN_INT, MAX_WORD])
    case 4 => Edge(EXP, [0, 0])
    case 5 => Edge(EXP, [2, MAX_WORD])
    case 6 => Edge(ShiftAt(data, t + 2), [if Drawn(data, t + 1) > 127 then 256 else 255, MIN_INT])
    case 7 => Edge(SIGNEXTEND, [0, MAX_WORD])
    case _ => Edge(BYTE, [if Drawn(data, t + 1) > 127 then 32 else 31, MAX_WORD])
  }

  function ShiftAt(data: seq<byte>, t: nat): byte
    requires |data| > 0
  {
    if Drawn(data, t) % 3 == 1 then SHR else if Drawn(data, t) % 3 == 2 then SAR else SHL
  }

  /** What the boundary cases are about. */
  lemma EdgesAre(data: seq<byte>, t: nat)
    requires |data| > 0
    ensures var c, e := Drawn(data, t) % 9, EdgeAt(data, t);
            // Modular arithmetic with modulus zero.
            && (e.op == ADDMOD <==> c == 0) && (e.op == MULMOD <==> c == 1)
            && (c <= 1 ==> e.operands == [WORD - 1, WORD - 1, 0])
            // The least signed number divided by minus one.
            && (e.op == SDIV <==> c == 2) && (e.op == SMOD <==> c == 3)
            && (c == 2 || c == 3 ==> e.operands == [WORD / 2, WORD - 1])
            // Zero to the power of zero, and a large exponent.
            && (e.op == EXP <==> c == 4 || c == 5)
            && (c == 4 ==> e.operands == [0, 0]) && (c == 5 ==> e.operands == [2, WORD - 1])
            // Shifts by one bit less than a word and by a word.
            && (e.op == SHL || e.op == SHR || e.op == SAR <==> c == 6)
            && (c == 6 ==> e.operands == [if Drawn(data, t + 1) > 127 then 256 else 255, WORD / 2]
                           && (e.op == SHR <==> Drawn(data, t + 2) % 3 == 1) && (e.op == SAR <==> Drawn(data, t + 2) % 3 == 2))
            // Sign extension of a negative byte, and bytes at and past the end of a word.
            && (e.op == SIGNEXTEND <==> c == 7) && (c == 7 ==> e.operands == [0, WORD - 1])
            && (e.op == BYTE <==> c == 8)
            && (c == 8 ==> e.operands == [if Drawn(data, t + 1) > 127 then 32 else 31, WORD - 1])
  {
    hide Drawn;
  }

  function EdgeCost(data: seq<byte>, t: nat): nat
    requires |data| > 0
  {
    if Drawn(data, t) % 9 == 6 then 3 else if Drawn(data, t) % 9 == 8 then 2 else 1
  }

  // ---------------------------------------------------------------- jumps and fills

  /** How many bytes the two jump strategies take when there is a label. */
  function JumpCost(data: seq<byte>, t: nat): nat
    requires |data| > 0
  {
    if Drawn(data, t + 1) > 127 then 2 else if Drawn(data, t + 2) > 127 then 7 else 3
  }

  function LabelJumpCost(data: seq<byte>, t: nat): nat
    requires |data| > 0
  {
    if Drawn(data, t + 1) > 127 then 3 else 2
  }

  /** How often the top is duplicated: drawn, and cut to the budget. */
  function FillDepth(data: seq<byte>, total: nat, budget: Option<int>): int
    requires |data| > 0
  {
    var drawn := if Drawn(data, total) < 32 then 1024 + Drawn(data, total + 2) % 16
                 else 1000 + Drawn(data, total + 1) % 22;
    match budget
    case None => drawn
    case Some(left) => if drawn > GoDiv(left - 8, 2) then GoDiv(left - 8, 2) else drawn
  }

  /** The depth that is drawn lies within 24 of the stack limit, below it or, to overflow, at
      or above it; and the budget cuts it as little as it can. */
  lemma FillDepthExactly(data: seq<byte>, total: nat, left: int)
    requires |data| > 0
    ensures var drawn, depth := FillDepth(data, total, None), FillDepth(data, total, Some(left));
            && (Drawn(data, total) >= 32 ==> drawn == 1000 + Drawn(data, total + 1) % 22 < 1022)
            && (Drawn(data, total) < 32 ==> drawn == 1024 + Drawn(data, total + 2) % 16)
            && depth <= drawn && (depth > 0 ==> 8 + 2 * depth <= left)
            && (depth < drawn ==> 8 + 2 * (depth + 1) > left)
  {
    hide Drawn;
  }

  function FillDraws(data: seq<byte>, t: nat): nat
    requires |data| > 0
  {
    if Drawn(data, t) < 32 then 3 else 2
  }
}
