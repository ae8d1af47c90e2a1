/** How many bytes the emitted code takes. */
module Cost {
  import opened Evm
  import opened Bytes
  import opened Assembler
  import opened BoundedLoop
  import opened Emission
  import opened Draws
  import opened Strategies
  import opened Jumps

  lemma {:induction false} AtMost33(ins: seq<Instr>)
    ensures |Assemble(ins)| <= 33 * |ins|
  {
    if ins == [] {
    } else {
      AtMost33(ins[..|ins| - 1]);
      if ins[|ins| - 1].Push? {
        PushLenRange(ins[|ins| - 1].v);
      }
    }
  }

  lemma PushSize(v: Word, k: nat)
    requires 1 <= k && v < Pow256(k)
    ensures 2 <= |InstrBytes(Push(v))| <= 1 + k
  {
    PushLenFits(v, k);
  }

  lemma ByteSize(v: Word)
    requires v < 256
    ensures |InstrBytes(Push(v))| == 2
  {
    ShortPush(v);
  }

  lemma OpSize(b: byte)
    ensures |InstrBytes(Op(b))| == 1
  {
  }

  lemma Length3(a: Instr, b: Instr, c: Instr)
    ensures |Assemble([a, b, c])| == |InstrBytes(a)| + |InstrBytes(b)| + |InstrBytes(c)|
  {
    hide InstrBytes;
    AssembleLast([a, b], c);
    AssembleLast([a], b);
    AssembleOne(a);
    assert [a, b, c] == [a, b] + [c] && [a, b] == [a] + [b];
  }

  lemma WordCost(data: seq<byte>, idx: nat)
    requires idx + 32 <= |data|
    ensures |Assemble(MstoreWord(data, idx))| <= 39
  {
    hide InstrBytes;
    hide Assemble;
    hide BigEndian;
    var v, i := Wrap(BigEndian(data[idx..idx + 32])), idx % TWO_32;
    PowersOf256();
    PushSize(i, 4);
    Length3(Push(v), Push(i), Op(MSTORE));
    OpSize(MSTORE);
    WordSize(v);
  }

  lemma WordSize(v: Word)
    ensures 2 <= |InstrBytes(Push(v))| <= 33
  {
    PushLenRange(v);
  }

  lemma ByteCost(data: seq<byte>, idx: nat)
    requires idx < |data|
    ensures |Assemble(MstoreByte(data, idx))| <= 8
  {
    hide InstrBytes;
    hide Assemble;
    PowersOf256();
    PushSize(idx % TWO_32, 4);
    Length3(Push(data[idx]), Push(idx % TWO_32), Op(MSTORE8));
    OpSize(MSTORE8);
    ByteSize(data[idx]);
  }

  /** What n bytes cost at most: 39 for every word and 8 for every byte left over. */
  function StoreBound(n: nat): nat
  {
    39 * (n / 32) + 8 * (n % 32)
  }

  lemma StoreBoundWord(n: nat)
    ensures StoreBound(n + 32) == 39 + StoreBound(n)
  {
  }

  lemma StoreBoundByte(n: nat)
    requires n < 31
    ensures StoreBound(n + 1) == 8 + StoreBound(n)
  {
  }

  lemma {:induction false} MstoreCost(data: seq<byte>, idx: nat)
    requires idx <= |data|
    ensures |Assemble(MstoreInstrs(data, idx))| <= StoreBound(|data| - idx)
    decreases |data| - idx
  {
    hide MstoreWord;
    hide MstoreByte;
    hide Assemble;
    hide StoreBound;
    if idx + 32 <= |data| {
      WordCost(data, idx);
      MstoreCost(data, idx + 32);
      AssembleJoin(MstoreWord(data, idx), MstoreInstrs(data, idx + 32));
      StoreBoundWord(|data| - idx - 32);
    } else if idx < |data| {
      ByteCost(data, idx);
      MstoreCost(data, idx + 1);
      AssembleJoin(MstoreByte(data, idx), MstoreInstrs(data, idx + 1));
      StoreBoundByte(|data| - idx - 1);
    } else {
      AssembleNone();
    }
  }

  lemma CreateCost(size: Word, isCreate2: bool)
    ensures 7 <= |Assemble(CreateInstrs(size, isCreate2))| <= 7 + |InstrBytes(Push(size))|
  {
    hide Assemble;
    hide InstrBytes;
    var op := Op(if isCreate2 then CREATE2 else CREATE);
    var salt := if isCreate2 then [Push(0)] else [];
    var tail := [Push(0), Push(0), op];
    assert CreateInstrs(size, isCreate2) == salt + ([Push(size)] + tail);
    AssembleJoin(salt, [Push(size)] + tail);
    AssemblePrepend(Push(size), tail);
    Length3(Push(0), Push(0), op);
    ByteSize(0);
    WordSize(size);
    OpSize(op.b);
    AssembleOne(Push(0));
    AssembleNone();
  }

  lemma CallCost(callOp: byte)
    ensures 11 <= |Assemble(CallOperands(callOp) + [Op(callOp)])| <= 13
  {
    hide Assemble;
    hide InstrBytes;
    var dup := Op(if TakesValue(callOp) then DUP6 else DUP5);
    var tail := [dup, Op(GAS), Op(callOp)];
    var two := [Push(0), Push(0), Push(0)];
    var value := if TakesValue(callOp) then [Push(0)] else [];
    assert CallOperands(callOp) + [Op(callOp)] == two + ([Push(0)] + (value + tail));
    AssembleJoin(two, [Push(0)] + (value + tail));
    AssemblePrepend(Push(0), value + tail);
    AssembleJoin(value, tail);
    Length3(dup, Op(GAS), Op(callOp));
    Length3(Push(0), Push(0), Push(0));
    ByteSize(0);
    OpSize(dup.b);
    OpSize(GAS);
    OpSize(callOp);
    AssembleOne(Push(0));
    AssembleNone();
  }

  /** Of a create-then-call with its init code cut to the budget: at least 18 bytes, at most
      22 once the budget is used up, and before that never more than 146 past its end. */
  lemma CreateAndCallCost(init: seq<byte>, left: int, isCreate2: bool, callOp: byte)
    ensures var cost := |Assemble(CreateAndCallInstrs(Clip(init, left), isCreate2, callOp))|;
            && 18 <= cost
            && (left <= 0 ==> cost <= 22)
            && (left > 0 ==> left - cost >= -146)
  {
    hide *;
    ClipFits(init, left);
    var c := Clip(init, left);
    MstoreCost(c, 0);
    CreateCost(Wrap(|c|), isCreate2);
    CallCost(callOp);
    CostParts(c, isCreate2, callOp);
    SizeOfLength(|c|);
    StoreBoundIs(|c|);
  }

  lemma StoreBoundIs(n: nat)
    ensures n == 0 ==> StoreBound(n) == 0
    ensures n < 256 ==> StoreBound(n) <= 4 * n + 124
    ensures n >= 256 ==> StoreBound(n) <= 4 * n
  {
  }

  lemma ClipFits(init: seq<byte>, left: int)
    ensures left <= 0 ==> |Clip(init, left)| == 0
    ensures left > 0 ==> 4 * |Clip(init, left)| <= left
  {
  }

  lemma SizeOfLength(n: nat)
    ensures 2 <= |InstrBytes(Push(Wrap(n)))| <= 33
    ensures n < 256 ==> |InstrBytes(Push(Wrap(n)))| == 2
  {
    WordSize(Wrap(n));
    if n < 256 {
      ByteSize(n);
    }
  }

  lemma CostParts(init: seq<byte>, isCreate2: bool, callOp: byte)
    ensures |Assemble(CreateAndCallInstrs(init, isCreate2, callOp))|
            == |Assemble(MstoreInstrs(init, 0))| + |Assemble(CreateInstrs(Wrap(|init|), isCreate2))|
               + |Assemble(CallOperands(callOp) + [Op(callOp)])|
  {
    hide MstoreInstrs;
    hide CreateInstrs;
    hide CallOperands;
    hide Assemble;
    hide Wrap;
    var a, b, c := MstoreInstrs(init, 0), CreateInstrs(Wrap(|init|), isCreate2), CallOperands(callOp) + [Op(callOp)];
    assert CreateAndCallInstrs(init, isCreate2, callOp) == a + (b + c);
    AssembleJoin(a, b + c);
    AssembleJoin(b, c);
  }

  /** A stack fill never spends more than there is. */
  lemma FillCost(data: seq<byte>, total: nat, left: int)
    requires |data| > 0
    ensures var depth := FillDepth(data, total, Some(left));
            depth > 0 ==> forall overflow :: |Assemble(StackFillInstrs(depth, overflow))| <= left - 7
  {
    var depth := FillDepth(data, total, Some(left));
    hide FillDepth;
    hide Assemble;
    if depth > 0 {
      assert 2 * depth <= left - 8 by { DepthFits(data, total, left); }
      forall overflow
        ensures |Assemble(StackFillInstrs(depth, overflow))| <= left - 7
      {
        FillLength(depth, overflow);
      }
    }
  }

  lemma DepthFits(data: seq<byte>, total: nat, left: int)
    requires |data| > 0 && FillDepth(data, total, Some(left)) > 0
    ensures 2 * FillDepth(data, total, Some(left)) <= left - 8
  {
    hide Drawn;
  }

  lemma FillLength(depth: nat, overflow: bool)
    ensures |Assemble(StackFillInstrs(depth, overflow))| == 1 + depth + if overflow then 0 else depth
  {
    hide Assemble;
    var ups, downs := Repeat(Op(DUP1), depth), if overflow then [] else Repeat(Op(POP), depth);
    assert StackFillInstrs(depth, overflow) == [Op(PUSH0)] + (ups + downs);
    AssemblePrepend(Op(PUSH0), ups + downs);
    BareOp(PUSH0);
    AssembleJoin(ups, downs);
    LengthOfOps(DUP1, depth);
    LengthOfOps(POP, depth);
    AssembleNone();
  }
}
