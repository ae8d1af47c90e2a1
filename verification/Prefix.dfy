/** Running a prefix of a program: why "has the original trace" is monotone in the
    length of the prefix, the fact the binary search of the minimiser rests on. */
module Prefix {
  import opened Bytes
  import opened Evm

  /** The traced instruction gets to see code. */
  predicate LooksAt(e: Entry)
  {
    Inspects(e.op) && |e.stack| >= Pops(e.op)
  }

  /** Some instruction of the traced run gets to see code. */
  predicate Looks(t: seq<Entry>)
  {
    exists i :: 0 <= i < |t| && LooksAt(t[i])
  }

  /** The machines differ in nothing but what they make of code c. */
  ghost predicate AgreesOff(a: Machine, m: Machine, c: seq<byte>)
  {
    && a.host == m.host
    && forall op, d, operands, gas, w :: d != c ==> a.inspect(op, d, operands, gas, w) == m.inspect(op, d, operands, gas, w)
  }

  /** Along the run of code c on m, every instruction that can see code, with its operands
      present, comes to the same on machine a with code ca. Calls and creations that do not
      get to see the difference are such instructions. */
  ghost predicate SeenAlike(a: Machine, ca: seq<byte>, m: Machine, c: seq<byte>, st: State)
    decreases st.gas
  {
    && SeesAlike(a, ca, m, c, st)
    && match Step(m, c, st)
       case Next(st') => SeenAlike(a, ca, m, c, st')
       case Halted(_) => true
  }

  predicate SeesAlike(a: Machine, ca: seq<byte>, m: Machine, c: seq<byte>, st: State)
  {
    var op := OpAt(c, st.pc);
    Inspects(op) && |st.stack| >= Pops(op) ==> CallHost(a, ca, op, st) == CallHost(m, c, op, st)
  }

  /** States a trace cannot tell apart. */
  predicate Alike(s: State, t: State)
  {
    s.pc == t.pc && s.gas == t.gas && s.stack == t.stack
  }

  lemma PowerOfWord()
    ensures Pow256(32) == WORD
  {
    PowersOf256();
    assert Pow256(12) == 0x1_0000_0000_0000_0000_0000_0000 by { assert Pow256(10) == 0x1_0000_0000_0000_0000_0000; }
    assert Pow256(16) == 0x1_0000_0000_0000_0000_0000_0000_0000_0000 by { assert Pow256(14) == 0x1_0000_0000_0000_0000_0000_0000_0000; }
    PowAdd(16, 16);
  }

  lemma {:induction false} PowAdd(a: nat, b: nat)
    ensures Pow256(a + b) == Pow256(a) * Pow256(b)
  {
    if b == 0 {
    } else {
      PowAdd(a, b - 1);
    }
  }

  lemma {:induction false} PowMonotone(a: nat, b: nat)
    requires a <= b
    ensures Pow256(a) <= Pow256(b)
  {
    if a == b {
    } else {
      PowMonotone(a, b - 1);
    }
  }

  lemma {:induction false} PushedBound(code: seq<byte>, at: nat, w: nat)
    ensures Pushed(code, at, w) < Pow256(w)
  {
    if w == 0 {
    } else {
      PushedBound(code, at, w - 1);
    }
  }

  /** An immediate of at most 32 bytes is a word as it stands. */
  lemma PushedFits(code: seq<byte>, at: nat, w: nat)
    requires w <= 32
    ensures PushedWord(code, at, w) == Pushed(code, at, w)
  {
    hide Pow256;
    PushedBound(code, at, w);
    PowerOfWord();
    PowMonotone(w, 32);
  }

  /** Cutting the code off inside an immediate can only lower the pushed value. */
  lemma {:induction false} PushedGrows(code: seq<byte>, n: nat, at: nat, w: nat)
    requires n <= |code|
    ensures Pushed(code[..n], at, w) <= Pushed(code, at, w)
  {
    if w == 0 {
    } else {
      PushedGrows(code, n, at, w - 1);
    }
  }

  /** If the short and the full code push the same word, so does every code between. */
  lemma PushedBetween(code: seq<byte>, n: nat, k: nat, at: nat, w: nat)
    requires n <= k <= |code| && w <= 32
    requires PushedWord(code[..n], at, w) == PushedWord(code, at, w)
    ensures PushedWord(code[..k], at, w) == PushedWord(code, at, w)
  {
    PushedFits(code[..n], at, w);
    PushedFits(code[..k], at, w);
    PushedFits(code, at, w);
    assert code[..k][..n] == code[..n];
    PushedGrows(code[..k], n, at, w);
    PushedGrows(code, k, at, w);
  }

  /** A destination valid in the short code is valid in every longer one, and one
      valid in a longer code is valid in the full code. */
  lemma DestBetween(code: seq<byte>, n: nat, k: nat, d: nat)
    requires n <= k <= |code|
    ensures ValidDest(code[..n], d) ==> ValidDest(code[..k], d)
    ensures ValidDest(code[..k], d) ==> ValidDest(code, d)
  {
    if d < n {
      ValidDestOfPrefix(code, n, d);
    }
    if d < k {
      ValidDestOfPrefix(code, k, d);
    }
  }

  /** Where the short and the full code read the same opcode, so does every code between. */
  lemma OpBetween(code: seq<byte>, n: nat, k: nat, pc: nat)
    requires n <= k <= |code|
    requires OpAt(code[..n], pc) == OpAt(code, pc)
    ensures OpAt(code[..k], pc) == OpAt(code, pc)
  {
  }

  /** One core instruction, run in three codes at once. */
  lemma ExecuteBetween(code: seq<byte>, n: nat, k: nat, op: byte, st: State)
    requires n <= k <= |code|
    requires Core(op) && |st.stack| >= Pops(op) && st.gas >= CorePrice(op)
    requires var a := Execute(code[..n], op, st); var c := Execute(code, op, st);
             a.Next? == c.Next? && (c.Next? ==> a.st.stack == c.st.stack)
    ensures var b := Execute(code[..k], op, st); var c := Execute(code, op, st);
            b == c && (c.Next? ==> Execute(code[..n], op, st) == c)
  {
    hide ValidDest;
    hide PushedWord;
    hide Arith;
    hide Wrap;
    var s := st.stack;
    if op == JUMP || op == JUMPI {
      DestBetween(code, n, k, s[|s| - 1]);
    } else if PUSH0 <= op <= PUSH32 {
      var a := Execute(code[..n], op, st);
      var c := Execute(code, op, st);
      assert a.st.stack[|s|] == c.st.stack[|s|];
      PushedBetween(code, n, k, st.pc + 1, Immediate(op));
    }
  }

  /** The effect of a core instruction does not depend on the world. */
  lemma ExecuteAlike(code: seq<byte>, op: byte, s: State, t: State)
    requires Alike(s, t) && Core(op) && |t.stack| >= Pops(op) && t.gas >= CorePrice(op)
    ensures var a := Execute(code, op, s); var b := Execute(code, op, t);
            a.Next? == b.Next? && (b.Next? ==> a.st.stack == b.st.stack)
  {
    hide ValidDest;
    hide Arith;
    hide PushedWord;
    hide Wrap;
  }

  /** Core instructions fault alike wherever they are run. */
  lemma CoreFaults(m: Machine, a: Machine, code: seq<byte>, code': seq<byte>, op: byte, s: State, t: State)
    requires Core(op) && Alike(s, t)
    ensures Fault(a, code', op, s).Next? == Fault(m, code, op, t).Next?
    ensures Fault(a, code', op, s).Halted? ==> Fault(a, code', op, s) == Fault(m, code, op, t)
    ensures Cost(a, code', op, s) == Cost(m, code, op, t)
  {
    hide Pops;
    hide Pushes;
    hide CorePrice;
  }

  /** The step of a core instruction, with its faults. */
  lemma CoreIs(m: Machine, code: seq<byte>, st: State)
    requires Core(OpAt(code, st.pc))
    ensures var op := OpAt(code, st.pc); var f := Fault(m, code, op, st);
            Step(m, code, st) == if f.Halted? then f else Execute(code, op, st)
    ensures Fault(m, code, OpAt(code, st.pc), st).Next? ==>
              |st.stack| >= Pops(OpAt(code, st.pc)) && st.gas >= CorePrice(OpAt(code, st.pc))
  {
    hide Execute;
    hide Pops;
    hide Pushes;
  }

  /** An instruction of the host comes to the same where the host answers the same. */
  lemma HostAlike(a: Machine, m: Machine, ca: seq<byte>, c: seq<byte>, st: State)
    requires OpAt(ca, st.pc) == OpAt(c, st.pc) && !Core(OpAt(c, st.pc))
    requires a.host == m.host && SeesAlike(a, ca, m, c, st)
    ensures Step(a, ca, st) == Step(m, c, st) && Log(a, ca, st) == Log(m, c, st)
  {
    hide Pops;
    hide Pushes;
    hide Inspects;
    hide Defined;
  }

  /** One step, run three times: by the short code in a state the trace cannot tell from the
      other, by the full code, and by the code between in the state of the full one. If the
      short and the full code log the same entry and agree on whether there is a next entry
      and on its stack, the code between takes the very step of the full code. */
  lemma StepBetween(mn: Machine, mk: Machine, m: Machine, code: seq<byte>, n: nat, k: nat, sn: State, st: State)
    requires n <= k <= |code| && Alike(sn, st) && mk.host == m.host
    requires OpAt(code[..n], st.pc) == OpAt(code, st.pc) && SeesAlike(mk, code[..k], m, code, st)
    requires var a := Step(mn, code[..n], sn); var c := Step(m, code, st);
             a.Next? == c.Next? && (c.Next? ==> a.st.stack == c.st.stack)
    ensures Log(mk, code[..k], st) == Log(m, code, st)
    ensures Step(mk, code[..k], st) == Step(m, code, st)
  {
    hide Step;
    hide Execute;
    hide Fault;
    hide Core;
    hide SeesAlike;
    var op := OpAt(code, st.pc);
    OpBetween(code, n, k, st.pc);
    if Core(op) {
      CoreIs(mn, code[..n], sn);
      CoreIs(mk, code[..k], st);
      CoreIs(m, code, st);
      CoreFaults(m, mk, code, code[..k], op, st, st);
      CoreFaults(m, mn, code, code[..n], op, sn, st);
      if Fault(m, code, op, st).Next? {
        ExecuteAlike(code[..n], op, sn, st);
        ExecuteBetween(code, n, k, op, st);
      }
      FaultIs(m, mk, code, code[..k], op, st);
    } else {
      HostAlike(mk, m, code[..k], code, st);
    }
  }

  lemma FaultIs(m: Machine, a: Machine, code: seq<byte>, code': seq<byte>, op: byte, st: State)
    requires Core(op)
    ensures Fault(a, code', op, st) == Fault(m, code, op, st)
  {
    hide Pops;
    hide Pushes;
    hide CorePrice;
  }

  /** Equal traces start with equal entries and go on alike. */
  lemma TraceHead(a: Machine, m: Machine, ca: seq<byte>, c: seq<byte>, s: State, t: State)
    requires Trace(a, ca, s) == Trace(m, c, t)
    ensures Log(a, ca, s) == Log(m, c, t) && Alike(s, t)
    ensures Step(a, ca, s).Next? == Step(m, c, t).Next?
    ensures Step(m, c, t).Next? ==>
              && Alike(Step(a, ca, s).st, Step(m, c, t).st)
              && Trace(a, ca, Step(a, ca, s).st) == Trace(m, c, Step(m, c, t).st)
  {
    hide Step;
    hide Cost;
    var ta, tc := Trace(a, ca, s), Trace(m, c, t);
    assert ta[0] == tc[0];
    if Step(a, ca, s).Next? {
      assert ta[1..] == Trace(a, ca, Step(a, ca, s).st);
    } else {
      assert |ta| == 1;
    }
    if Step(m, c, t).Next? {
      assert tc[1..] == Trace(m, c, Step(m, c, t).st);
      assert ta[1] == tc[1];
    } else {
      assert |tc| == 1;
    }
  }

  /** Monotonicity: if the n-byte prefix has the trace of the full program, so does every
      longer prefix which the instructions that can see code cannot tell from the full
      program, whatever the states the runs start in. What such instructions make of the
      n-byte prefix does not matter as long as the trace is the same. */
  lemma {:induction false} TraceBetween(mn: Machine, mk: Machine, m: Machine, code: seq<byte>, n: nat, k: nat,
                                        sn: State, st: State)
    requires n <= k <= |code| && mk.host == m.host
    requires Trace(mn, code[..n], sn) == Trace(m, code, st)
    requires SeenAlike(mk, code[..k], m, code, st)
    ensures Trace(mk, code[..k], st) == Trace(m, code, st)
    decreases st.gas
  {
    hide Step;
    hide SeesAlike;
    TraceHead(mn, m, code[..n], code, sn, st);
    StepBetween(mn, mk, m, code, n, k, sn, st);
    var r := Step(m, code, st);
    if r.Halted? {
    } else {
      TraceBetween(mn, mk, m, code, n, k, Step(mn, code[..n], sn).st, r.st);
    }
  }

  /** Where no instruction of the run looks at code, nothing can be seen. */
  lemma {:induction false} NothingSeen(a: Machine, ca: seq<byte>, m: Machine, c: seq<byte>, st: State)
    requires !Looks(Trace(m, c, st))
    ensures SeenAlike(a, ca, m, c, st)
    decreases st.gas
  {
    hide Step;
    LooksFirst(m, c, st);
    LogLooks(m, c, st);
    hide Looks;
    hide LooksAt;
    if Step(m, c, st).Halted? {
    } else {
      NothingSeen(a, ca, m, c, Step(m, c, st).st);
    }
  }

  /** A run looks at code if its first instruction does or the rest of it. */
  lemma LooksFirst(m: Machine, c: seq<byte>, st: State)
    ensures Looks(Trace(m, c, st)) <==>
              LooksAt(Log(m, c, st)) || (Step(m, c, st).Next? && Looks(Trace(m, c, Step(m, c, st).st)))
  {
    hide Step;
    hide Log;
    hide LooksAt;
    var t := Trace(m, c, st);
    assert t[0] == Log(m, c, st);
    if Step(m, c, st).Next? {
      var rest := Trace(m, c, Step(m, c, st).st);
      assert t == [t[0]] + rest;
      assert forall i :: 0 <= i < |rest| ==> t[i + 1] == rest[i];
      if Looks(rest) {
        var i :| 0 <= i < |rest| && LooksAt(rest[i]);
        assert LooksAt(t[i + 1]);
      }
      if Looks(t) && !LooksAt(t[0]) {
        var i :| 0 <= i < |t| && LooksAt(t[i]);
        assert LooksAt(rest[i - 1]);
      }
    }
  }

  /** An instruction that does not look sees alike. */
  lemma LogLooks(m: Machine, c: seq<byte>, st: State)
    ensures LooksAt(Log(m, c, st)) <==> Inspects(OpAt(c, st.pc)) && |st.stack| >= Pops(OpAt(c, st.pc))
    ensures forall a, ca :: !LooksAt(Log(m, c, st)) ==> SeesAlike(a, ca, m, c, st)
  {
    hide Cost;
    hide CallHost;
  }

  // ---------------------------------------------------------------- the exact condition

  /** Instructions that look at code ca on a stop the frame, for one unit more than the
      instruction would cost on m with code c. */
  ghost predicate Stops(a: Machine, ca: seq<byte>, m: Machine, c: seq<byte>)
  {
    && a.host == m.host
    && forall op, operands, gas, w :: a.inspect(op, ca, operands, gas, w) == HostStop(m.inspect(op, c, operands, gas, w).Price() + 1)
  }

  /** On such a machine looking is noticed: it shows in the cost that is logged. */
  lemma CostDiffers(a: Machine, ca: seq<byte>, m: Machine, c: seq<byte>, st: State)
    requires Stops(a, ca, m, c) && Log(a, ca, st) == Log(m, c, st)
    ensures !LooksAt(Log(m, c, st))
  {
    var op := OpAt(c, st.pc);
    InspectsHost(op);
    hide Pops;
    hide Defined;
    hide Core;
    hide Inspects;
  }

  lemma InspectsHost(op: byte)
    ensures Inspects(op) ==> Defined(op) && !Core(op)
  {
  }

  lemma {:induction false} LookingIsNoticed(a: Machine, m: Machine, code: seq<byte>, k: nat, st: State)
    requires k <= |code| && Stops(a, code[..k], m, code)
    requires Trace(a, code[..k], st) == Trace(m, code, st)
    ensures !Looks(Trace(m, code, st))
    decreases st.gas
  {
    hide Step;
    hide Looks;
    hide LooksAt;
    hide SeesAlike;
    hide Log;
    TraceHead(a, m, code[..k], code, st, st);
    CostDiffers(a, code[..k], m, code, st);
    LogLooks(m, code, st);
    LooksFirst(m, code, st);
    var r := Step(m, code, st);
    if r.Halted? {
    } else {
      SameOp(a, m, code[..k], code, st);
      StepBetween(a, a, m, code, k, k, st, st);
      LookingIsNoticed(a, m, code, k, r.st);
    }
  }

  lemma SameOp(a: Machine, m: Machine, ca: seq<byte>, c: seq<byte>, st: State)
    requires Log(a, ca, st) == Log(m, c, st)
    ensures OpAt(ca, st.pc) == OpAt(c, st.pc)
  {
  }

  /** The machine that stops where code c is looked at. */
  function Stopper(m: Machine, c: seq<byte>, code: seq<byte>): Machine
  {
    Machine(m.host, (op: byte, d: seq<byte>, operands: seq<Word>, gas: nat, w: World) =>
              if d == c then HostStop(m.inspect(op, code, operands, gas, w).Price() + 1)
              else m.inspect(op, d, operands, gas, w))
  }

  /** Exactly when a longer prefix is sure to keep a trace that a shorter one has: if and only
      if the original run never looks at code. If it looks, there is a machine that answers
      otherwise about the longer prefix and about no other code, and the trace is lost. */
  lemma BetweenExactly(m: Machine, code: seq<byte>, n: nat, k: nat, st: State)
    requires n <= k < |code| && Trace(m, code[..n], st) == Trace(m, code, st)
    ensures (forall a: Machine | AgreesOff(a, m, code[..k]) :: Trace(a, code[..k], st) == Trace(m, code, st))
            <==> !Looks(Trace(m, code, st))
  {
    hide Trace;
    hide Looks;
    hide SeenAlike;
    if !Looks(Trace(m, code, st)) {
      forall a: Machine | AgreesOff(a, m, code[..k])
        ensures Trace(a, code[..k], st) == Trace(m, code, st)
      {
        NothingSeen(a, code[..k], m, code, st);
        TraceBetween(m, a, m, code, n, k, st, st);
      }
    } else {
      var a := Stopper(m, code[..k], code);
      assert AgreesOff(a, m, code[..k]);
      assert Stops(a, code[..k], m, code);
      if Trace(a, code[..k], st) == Trace(m, code, st) {
        LookingIsNoticed(a, m, code, k, st);
      }
    }
  }
}
