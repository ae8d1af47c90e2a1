/** Instructions as the generator emits them, and what they are on the machine. */
module Assembler {
  import opened Bytes
  import opened Evm
  import opened Prefix

  /** A push of a word, encoded as short as it goes, or a bare opcode byte. */
  datatype Instr = Push(v: Word) | Op(b: byte)

  /** Bytes needed for v, at least one. */
  function PushLen(v: nat): (n: nat)
    ensures n >= 1
  {
    if v < 256 then 1 else PushLen(v / 256) + 1
  }

  function InstrBytes(i: Instr): (s: seq<byte>)
    ensures |s| >= 1
  {
    match i
    case Push(v) => PushLenRange(v); [PUSH0 + PushLen(v)] + ToBigEndian(v, PushLen(v))
    case Op(b) => [b]
  }

  function Assemble(ins: seq<Instr>): (s: seq<byte>)
    ensures |s| >= |ins|
  {
    if ins == [] then [] else Assemble(ins[..|ins| - 1]) + InstrBytes(ins[|ins| - 1])
  }

  /** No raw opcode byte that would swallow what follows. */
  predicate Clean(ins: seq<Instr>)
  {
    forall j :: 0 <= j < |ins| && ins[j].Op? ==> Immediate(ins[j].b) == 0
  }

  // ---------------------------------------------------------------- encodings

  lemma {:induction false} PushLenFits(v: nat, k: nat)
    requires k >= 1 && v < Pow256(k)
    ensures PushLen(v) <= k
    decreases k
  {
    if v < 256 {
    } else {
      assert Pow256(1) == 256;
      PushLenFits(v / 256, k - 1);
    }
  }

  lemma PushLenRange(v: Word)
    ensures 1 <= PushLen(v) <= 32
  {
    hide Pow256;
    PowerOfWord();
    PushLenFits(v, 32);
  }

  lemma {:induction false} PushLenCovers(v: nat)
    ensures v < Pow256(PushLen(v))
  {
    if v >= 256 {
      PushLenCovers(v / 256);
    } else {
      assert Pow256(1) == 256;
    }
  }

  lemma {:induction false} AssembleJoin(a: seq<Instr>, b: seq<Instr>)
    ensures Assemble(a + b) == Assemble(a) + Assemble(b)
    decreases |b|
  {
    hide InstrBytes;
    if b == [] {
      assert a + b == a;
    } else {
      var n := |b| - 1;
      AssembleLast(a + b[..n], b[n]);
      assert a + b == (a + b[..n]) + [b[n]];
      hide Assemble;
      AssembleJoin(a, b[..n]);
      AssembleLast(b[..n], b[n]);
      assert b == b[..n] + [b[n]];
    }
  }

  lemma AssembleLast(a: seq<Instr>, i: Instr)
    ensures Assemble(a + [i]) == Assemble(a) + InstrBytes(i)
  {
    hide InstrBytes;
    assert (a + [i])[..|a + [i]| - 1] == a;
  }

  lemma AssembleOne(i: Instr)
    ensures Assemble([i]) == InstrBytes(i)
  {
    assert [i][..0] == [];
  }

  lemma AssembleFirst(ins: seq<Instr>)
    requires ins != []
    ensures Assemble(ins) == InstrBytes(ins[0]) + Assemble(ins[1..])
  {
    assert ins == [ins[0]] + ins[1..];
    AssembleJoin([ins[0]], ins[1..]);
    AssembleOne(ins[0]);
  }

  /** Clean code decodes into the instructions it was assembled from: its end is an
      instruction boundary. */
  lemma {:induction false} CleanIsWhole(ins: seq<Instr>)
    requires Clean(ins)
    ensures Boundary(Assemble(ins), 0, |Assemble(ins)|)
  {
    if ins == [] {
    } else {
      var n := |ins| - 1;
      var front, last := Assemble(ins[..n]), InstrBytes(ins[n]);
      CleanIsWhole(ins[..n]);
      BoundaryOfPrefix(front, front + last, 0, |front|);
      BoundaryShift(front, last, 0, |last|);
      assert Boundary(last, 0, |last|) by { InstrIsWhole(ins[n]); }
      BoundaryJoin(front + last, 0, |front|, |front + last|);
    }
  }

  lemma InstrIsWhole(i: Instr)
    requires i.Op? ==> Immediate(i.b) == 0
    ensures Boundary(InstrBytes(i), 0, |InstrBytes(i)|)
  {
    if i.Push? {
      PushLenRange(i.v);
    }
    var s := InstrBytes(i);
    assert 1 + Immediate(s[0]) == |s|;
    assert Boundary(s, |s|, |s|);
  }

  /** A JUMPDEST byte is a valid destination of the code exactly if the code before it ends
      on an instruction boundary; what comes after it does not matter. */
  lemma LabelValidExactly(before: seq<byte>, after: seq<byte>)
    ensures ValidDest(before + [JUMPDEST] + after, |before|) <==> Boundary(before, 0, |before|)
  {
    var code := before + [JUMPDEST] + after;
    assert code[..|before|] == before[..|before|];
    BoundaryOfPrefix(before, code, 0, |before|);
  }

  /** A raw PUSH byte before a label makes the label a part of its immediate. */
  lemma RawPushSpoilsLabel(after: seq<byte>)
    ensures !ValidDest([PUSH1] + [JUMPDEST] + after, 1)
  {
    LabelValidExactly([PUSH1], after);
  }

  /** A destination that is valid stays so when code is appended. */
  lemma ValidDestStays(code: seq<byte>, more: seq<byte>, d: nat)
    requires ValidDest(code, d)
    ensures ValidDest(code + more, d)
  {
    assert (code + more)[..|code|] == code;
    ValidDestOfPrefix(code + more, |code|, d);
  }

  // ---------------------------------------------------------------- on the machine

  /** The bytes at position `at` of the code are s. */
  predicate Holds(code: seq<byte>, at: nat, s: seq<byte>)
  {
    at + |s| <= |code| && code[at..at + |s|] == s
  }

  lemma HoldsSplit(code: seq<byte>, at: nat, s: seq<byte>, t: seq<byte>)
    ensures Holds(code, at, s + t) <==> Holds(code, at, s) && Holds(code, at + |s|, t)
  {
    if Holds(code, at, s + t) {
      assert code[at..at + |s|] == code[at..at + |s + t|][..|s|] == s;
      assert code[at + |s|..at + |s| + |t|] == code[at..at + |s + t|][|s|..] == t;
    }
    if Holds(code, at, s) && Holds(code, at + |s|, t) {
      assert code[at..at + |s + t|] == code[at..at + |s|] + code[at + |s|..at + |s| + |t|];
    }
  }

  lemma {:induction false} PushedIsBigEndian(code: seq<byte>, at: nat, k: nat)
    requires at + k <= |code|
    ensures Pushed(code, at, k) == BigEndian(code[at..at + k])
  {
    if k == 0 {
    } else {
      PushedIsBigEndian(code, at, k - 1);
      assert code[at..at + k][..k - 1] == code[at..at + k - 1];
    }
  }

  /** What an emitted push reads back as. */
  lemma PushReadsBack(code: seq<byte>, at: nat, v: Word)
    requires Holds(code, at, InstrBytes(Push(v)))
    ensures PushedWord(code, at + 1, PushLen(v)) == v
  {
    var n := PushLen(v);
    hide ToBigEndian;
    hide Wrap;
    hide BigEndian;
    hide Pushed;
    PushLenRange(v);
    assert code[at + 1..at + 1 + n] == InstrBytes(Push(v))[1..] == ToBigEndian(v, n);
    hide InstrBytes;
    PushedIsBigEndian(code, at + 1, n);
    PushLenCovers(v);
    hide PushLen;
    hide Pow256;
    PushedFits(code, at + 1, n);
    ReadAfterWrite(v, n);
  }

  lemma PushOpcode(code: seq<byte>, at: nat, v: Word)
    requires Holds(code, at, InstrBytes(Push(v)))
    ensures OpAt(code, at) == PUSH0 + PushLen(v) && |InstrBytes(Push(v))| == 1 + PushLen(v)
    ensures PUSH1 <= OpAt(code, at) <= PUSH32
  {
    PushLenRange(v);
    assert code[at] == code[at..at + |InstrBytes(Push(v))|][0];
  }

  /** Any instruction with immediate bytes. */
  lemma StepImmediate(m: Machine, code: seq<byte>, st: State)
    requires PUSH1 <= OpAt(code, st.pc) <= PUSH32
    ensures var k := Immediate(OpAt(code, st.pc));
            Step(m, code, st) ==
              if |st.stack| >= STACK_LIMIT then Halted(Overflow)
              else if st.gas < 3 then Halted(OutOfGas)
              else Next(State(st.pc + 1 + k, st.gas - 3, st.stack + [PushedWord(code, st.pc + 1, k)], st.world))
  {
    hide PushedWord;
  }

  /** Executing an emitted push. */
  lemma StepPush(m: Machine, code: seq<byte>, st: State, v: Word)
    requires Holds(code, st.pc, InstrBytes(Push(v)))
    ensures Step(m, code, st) ==
              if |st.stack| >= STACK_LIMIT then Halted(Overflow)
              else if st.gas < 3 then Halted(OutOfGas)
              else Next(State(st.pc + |InstrBytes(Push(v))|, st.gas - 3, st.stack + [v], st.world))
  {
    hide Step;
    hide PushedWord;
    hide PushLen;
    PushReadsBack(code, st.pc, v);
    PushOpcode(code, st.pc, v);
    StepImmediate(m, code, st);
    hide InstrBytes;
  }

  /** Executing a core instruction that finds its operands, room and gas. */
  lemma StepCore(m: Machine, code: seq<byte>, st: State, op: byte)
    requires OpAt(code, st.pc) == op && Core(op) && |st.stack| >= Pops(op)
    requires |st.stack| - Pops(op) + Pushes(op) <= STACK_LIMIT && st.gas >= CorePrice(op)
    ensures Step(m, code, st) == Execute(code, op, st)
  {
    hide Execute;
  }
}
