/**
 A program that reads its own code, and what minimisation makes of it. It copies 64 bytes
 from behind its end and calls the addition precompile of the curve alt_bn128 on them. The
 precompile accepts the copied point in the whole program, where it is the generator (1, 2),
 and in the shortest prefixes, where it is the point at infinity (0, 0); in between it sees
 (1, 0), which is not on the curve.
 */
module CodeReader {
  import opened Bytes
  import opened Evm
  import opened Prefix
  import opened Assembler
  import opened Minimizer

  const CODECOPY: byte := 0x39

  /** The field of the curve. */
  const FIELD: nat := 21888242871839275222246405745257275088696311157297823662689037894645226208583

  predicate OnCurve(x: nat, y: nat)
  {
    x < FIELD && y < FIELD && ((x == 0 && y == 0) || (y * y) % FIELD == (x * x * x + 3) % FIELD)
  }

  /** Memory with bs written at `at`. */
  function Overwrite(mem: seq<byte>, at: nat, bs: seq<byte>): seq<byte>
  {
    var n := if |mem| < at + |bs| then at + |bs| else |mem|;
    seq(n, i requires 0 <= i < n => if at <= i < at + |bs| then bs[i - at] else if i < |mem| then mem[i] else 0)
  }

  /** Whether the addition precompile accepts two points. */
  predicate Adds(input: seq<byte>)
    requires |input| == 128
  {
    && OnCurve(BigEndian(input[..32]), BigEndian(input[32..64]))
    && OnCurve(BigEndian(input[64..96]), BigEndian(input[96..]))
  }

  /** The two instructions of the program that can see code or call. */
  function Inspect(op: byte, pre: Accounts, operands: seq<Word>, gas: nat, w: World): HostResult
  {
    if op == CODECOPY && |operands| == 3 then
      HostGo(2, 0, w.(memory := Overwrite(w.memory, operands[2], Window(CodeOf(pre, 0), operands[1], operands[0]))))
    else if op == STATICCALL && |operands| == 6 && operands[4] == 6 then
      var ok := Adds(Window(w.memory, operands[3], 128));
      HostGo(if ok then 249 else 299, if ok then 1 else 0, w)
    else HostStop(0)
  }

  const EMPTY_WORLD := World([], map[], map[], [], [])

  const HARNESS := Harness((op: byte, operands: seq<Word>, gas: nat, w: World) => HostStop(0), Inspect,
                           0, 1000, EMPTY_WORLD, (e: Entry) => [], true)

  const COPY_OPERANDS: seq<Word> := [64, 80, 0]
  const CALL_OPERANDS: seq<Word> := [0, 0, 128, 0, 6, 200]

  const INSTRUCTIONS: seq<byte> := [
    PUSH1, 64, PUSH1, 80, PUSH1, 0, CODECOPY,
    PUSH1, 0, PUSH1, 0, PUSH1, 128, PUSH1, 0, PUSH1, 6, PUSH1, 200, STATICCALL]

  /** The point (1, 2) lies at position 80: its coordinates end at 111 and at 143. */
  function Code(): (s: seq<byte>)
    ensures |s| == 300
  {
    INSTRUCTIONS + seq(280, i requires 0 <= i < 280 => if i == 91 then 1 else if i == 123 then 2 else 0)
  }

  function Accounts0(): Accounts
  {
    map[0 := Code()]
  }

  // ---------------------------------------------------------------- traces of pushes

  predicate PushesAt(code: seq<byte>, pc: nat, vs: seq<Word>)
  {
    && pc + 2 * |vs| <= |code|
    && forall j :: 0 <= j < |vs| ==> code[pc + 2 * j] == PUSH1 && code[pc + 2 * j + 1] == vs[j]
  }

  /** The entries of a row of pushes, and those of the tail. */
  function PushLog(pc: nat, gas: nat, stack: seq<Word>, vs: seq<Word>, tail: seq<Entry>): (t: seq<Entry>)
    requires gas >= 3 * |vs|
    ensures |t| == |vs| + |tail|
    decreases |vs|
  {
    if vs == [] then tail
    else [Entry(pc, PUSH1, gas, 3, stack)] + PushLog(pc + 2, gas - 3, stack + [vs[0]], vs[1..], tail)
  }

  lemma {:induction false} PushLogTail(pc: nat, gas: nat, stack: seq<Word>, vs: seq<Word>, tail: seq<Entry>, i: nat)
    requires gas >= 3 * |vs| && i < |tail|
    ensures PushLog(pc, gas, stack, vs, tail)[|vs| + i] == tail[i]
    decreases |vs|
  {
    if vs == [] {
    } else {
      PushLogTail(pc + 2, gas - 3, stack + [vs[0]], vs[1..], tail, i);
    }
  }

  lemma OnePush(m: Machine, code: seq<byte>, st: State, v: Word)
    requires st.pc + 2 <= |code| && code[st.pc] == PUSH1 && code[st.pc + 1] == v
    requires |st.stack| < STACK_LIMIT && st.gas >= 3
    ensures Step(m, code, st) == Next(State(st.pc + 2, st.gas - 3, st.stack + [v], st.world))
    ensures Log(m, code, st) == Entry(st.pc, PUSH1, st.gas, 3, st.stack)
  {
    StepImmediate(m, code, st);
    hide Step;
    PushedOne(code, st.pc + 1);
    hide PushedWord;
  }

  lemma PushedOne(code: seq<byte>, at: nat)
    requires at < |code|
    ensures PushedWord(code, at, 1) == code[at]
  {
    assert Pushed(code, at, 0) == 0;
  }

  lemma TraceStep(m: Machine, code: seq<byte>, st: State)
    ensures Trace(m, code, st) ==
              [Log(m, code, st)] + (match Step(m, code, st) case Next(t) => Trace(m, code, t) case Halted(_) => [])
  {
  }

  lemma {:induction false} TracePushes(m: Machine, code: seq<byte>, st: State, vs: seq<Word>)
    requires PushesAt(code, st.pc, vs) && |st.stack| + |vs| <= STACK_LIMIT && st.gas >= 3 * |vs|
    ensures Trace(m, code, st) ==
              PushLog(st.pc, st.gas, st.stack, vs,
                      Trace(m, code, State(st.pc + 2 * |vs|, st.gas - 3 * |vs|, st.stack + vs, st.world)))
    decreases |vs|
  {
    hide *;
    if vs == [] {
      NoPushes(st.pc, st.gas, st.stack, Trace(m, code, st));
      assert st.stack + vs == st.stack;
    } else {
      FirstPush(code, st.pc, vs);
      OnePush(m, code, st, vs[0]);
      TraceStep(m, code, st);
      var t := State(st.pc + 2, st.gas - 3, st.stack + [vs[0]], st.world);
      TracePushes(m, code, t, vs[1..]);
      assert t.stack + vs[1..] == st.stack + vs;
      var last := State(st.pc + 2 * |vs|, st.gas - 3 * |vs|, st.stack + vs, st.world);
      PushLogFirst(st.pc, st.gas, st.stack, vs, Trace(m, code, last));
    }
  }

  lemma NoPushes(pc: nat, gas: nat, stack: seq<Word>, tail: seq<Entry>)
    ensures PushLog(pc, gas, stack, [], tail) == tail
  {
  }

  lemma PushLogFirst(pc: nat, gas: nat, stack: seq<Word>, vs: seq<Word>, tail: seq<Entry>)
    requires vs != [] && gas >= 3 * |vs|
    ensures PushLog(pc, gas, stack, vs, tail) ==
              [Entry(pc, PUSH1, gas, 3, stack)] + PushLog(pc + 2, gas - 3, stack + [vs[0]], vs[1..], tail)
  {
  }

  lemma FirstPush(code: seq<byte>, pc: nat, vs: seq<Word>)
    requires PushesAt(code, pc, vs) && vs != []
    ensures code[pc] == PUSH1 && code[pc + 1] == vs[0] && PushesAt(code, pc + 2, vs[1..])
  {
    assert code[pc + 2 * 0] == PUSH1 && code[pc + 2 * 0 + 1] == vs[0];
    forall j | 0 <= j < |vs| - 1
      ensures code[pc + 2 + 2 * j] == PUSH1 && code[pc + 2 + 2 * j + 1] == vs[1..][j]
    {
      assert code[pc + 2 * (j + 1)] == PUSH1 && code[pc + 2 * (j + 1) + 1] == vs[j + 1];
    }
  }

  /** An instruction of the host that takes the whole stack. */
  lemma HostStepIs(m: Machine, code: seq<byte>, st: State, op: byte, h: HostResult)
    requires OpAt(code, st.pc) == op && Defined(op) && !Core(op) && Pops(op) == |st.stack| <= 100 && Pushes(op) <= 1
    requires h == (if Inspects(op) then m.inspect(op, code, st.stack, st.gas, st.world)
                   else m.host(op, st.stack, st.gas, st.world))
    requires h.HostGo? && st.gas >= h.Price()
    ensures Step(m, code, st) ==
              Next(State(st.pc + 1, st.gas - h.Price(), if Pushes(op) == 1 then [h.out] else [], h.world))
    ensures Log(m, code, st) == Entry(st.pc, op, st.gas, h.Price(), st.stack)
  {
    hide Pops;
    hide Pushes;
    hide Defined;
    hide Core;
    hide Inspects;
    assert Operands(op, st.stack) == st.stack;
    assert st.stack[..0] == [];
  }

  lemma Arities()
    ensures Defined(CODECOPY) && !Core(CODECOPY) && Inspects(CODECOPY) && Pops(CODECOPY) == 3 && Pushes(CODECOPY) == 0
    ensures Defined(STATICCALL) && !Core(STATICCALL) && Inspects(STATICCALL) && Pops(STATICCALL) == 6 && Pushes(STATICCALL) == 1
  {
  }

  // ---------------------------------------------------------------- the program

  function MachineAt(k: nat): Machine
    requires k <= 300
  {
    MachineOf(HARNESS, Accounts0()[0 := Code()[..k]])
  }

  /** The memory after the copy, and what the call makes of it. */
  function Copied(k: nat): seq<byte>
    requires k <= 300
  {
    Overwrite([], 0, Window(Code()[..k], 80, 64))
  }

  predicate Accepted(k: nat)
    requires k <= 300
  {
    Adds(Window(Copied(k), 0, 128))
  }

  /** The trace of the program, given what the call comes to. */
  function Whole(ok: bool): seq<Entry>
  {
    PushLog(0, 1000, [], COPY_OPERANDS,
            [Entry(6, CODECOPY, 991, 3, [64, 80, 0])] + PushLog(7, 988, [], CALL_OPERANDS, Ending(ok)))
  }

  function Ending(ok: bool): (t: seq<Entry>)
    ensures |t| == 2
  {
    var fee := if ok then 250 else 300;
    [Entry(19, STATICCALL, 970, fee, [0, 0, 128, 0, 6, 200]), Entry(20, STOP, 970 - fee, 0, [if ok then 1 else 0])]
  }

  lemma WholeEnds(ok: bool)
    ensures |Whole(ok)| == 12 && Whole(ok)[10] == Ending(ok)[0] && Whole(ok)[11] == Ending(ok)[1]
  {
    hide PushLog;
    hide Ending;
    Widened();
    var inner := PushLog(7, 988, [], CALL_OPERANDS, Ending(ok));
    PushLogTail(7, 988, [], CALL_OPERANDS, Ending(ok), 0);
    PushLogTail(7, 988, [], CALL_OPERANDS, Ending(ok), 1);
    var tail := [Entry(6, CODECOPY, 991, 3, [64, 80, 0])] + inner;
    PushLogTail(0, 1000, [], COPY_OPERANDS, tail, 7);
    PushLogTail(0, 1000, [], COPY_OPERANDS, tail, 8);
  }

  lemma CopyStep(k: nat)
    requires 20 <= k <= 300
    ensures var c, st := Code()[..k], State(6, 991, [64, 80, 0], EMPTY_WORLD);
            && Step(MachineAt(k), c, st) == Next(State(7, 988, [], EMPTY_WORLD.(memory := Copied(k))))
            && Log(MachineAt(k), c, st) == Entry(6, CODECOPY, 991, 3, [64, 80, 0])
  {
    var c, st := Code()[..k], State(6, 991, [64, 80, 0], EMPTY_WORLD);
    InspectCopy(c, st.gas, EMPTY_WORLD);
    InspectOf(k, CODECOPY, st);
    assert OpAt(c, 6) == CODECOPY by { ProgramLayout(k); }
    Arities();
    hide *;
    HostStepIs(MachineAt(k), c, st, CODECOPY, HostGo(2, 0, EMPTY_WORLD.(memory := Copied(k))));
  }

  lemma InspectCopy(c: seq<byte>, gas: nat, w: World)
    ensures Inspect(CODECOPY, Accounts0()[0 := c], [64, 80, 0], gas, w)
            == HostGo(2, 0, w.(memory := Overwrite(w.memory, 0, Window(c, 80, 64))))
  {
    hide Window;
    hide Overwrite;
  }

  lemma InspectCall(pre: Accounts, gas: nat, w: World)
    ensures var ok := Adds(Window(w.memory, 0, 128));
            Inspect(STATICCALL, pre, [0, 0, 128, 0, 6, 200], gas, w)
            == HostGo(if ok then 249 else 299, if ok then 1 else 0, w)
  {
    hide Window;
    hide Adds;
  }

  lemma InspectOf(k: nat, op: byte, st: State)
    requires k <= 300
    ensures MachineAt(k).inspect(op, Code()[..k], st.stack, st.gas, st.world)
            == Inspect(op, Accounts0()[0 := Code()[..k]], st.stack, st.gas, st.world)
  {
    hide Inspect;
  }

  lemma CallStep(k: nat)
    requires 20 <= k <= 300
    ensures var c := Code()[..k];
            var w, fee := EMPTY_WORLD.(memory := Copied(k)), if Accepted(k) then 250 else 300;
            var st := State(19, 970, [0, 0, 128, 0, 6, 200], w);
            && Step(MachineAt(k), c, st) == Next(State(20, 970 - fee, [if Accepted(k) then 1 else 0], w))
            && Log(MachineAt(k), c, st) == Entry(19, STATICCALL, 970, fee, [0, 0, 128, 0, 6, 200])
  {
    var c, w := Code()[..k], EMPTY_WORLD.(memory := Copied(k));
    var st := State(19, 970, [0, 0, 128, 0, 6, 200], w);
    InspectCall(Accounts0()[0 := c], 970, w);
    InspectOf(k, STATICCALL, st);
    assert OpAt(c, 19) == STATICCALL by { ProgramLayout(k); }
    Arities();
    assert Accepted(k) == Adds(Window(w.memory, 0, 128));
    hide *;
    HostStepIs(MachineAt(k), c, st, STATICCALL,
               HostGo(if Accepted(k) then 249 else 299, if Accepted(k) then 1 else 0, w));
  }

  lemma StopStep(m: Machine, code: seq<byte>, st: State)
    requires OpAt(code, st.pc) == STOP && |st.stack| <= STACK_LIMIT
    ensures Trace(m, code, st) == [Entry(st.pc, STOP, st.gas, 0, st.stack)]
  {
  }

  lemma ProgramLayout(k: nat)
    requires 20 <= k <= 300
    ensures var c := Code()[..k];
            PushesAt(c, 0, COPY_OPERANDS) && PushesAt(c, 7, CALL_OPERANDS)
            && OpAt(c, 6) == CODECOPY && OpAt(c, 19) == STATICCALL && OpAt(c, 20) == STOP
  {
    var c := Code()[..k];
    PrefixHolds(k);
    hide Code;
    PushesOf(INSTRUCTIONS, c);
    hide INSTRUCTIONS;
  }

  lemma PrefixHolds(k: nat)
    requires 20 <= k <= 300
    ensures |INSTRUCTIONS| == 20 && Code()[..k][..20] == INSTRUCTIONS && OpAt(Code()[..k], 20) == STOP
  {
    assert Code()[..k][..20] == Code()[..20];
  }

  lemma PushesOf(head: seq<byte>, c: seq<byte>)
    requires head == INSTRUCTIONS && |c| >= 20 && c[..20] == head
    ensures PushesAt(c, 0, COPY_OPERANDS) && PushesAt(c, 7, CALL_OPERANDS)
    ensures OpAt(c, 6) == CODECOPY && OpAt(c, 19) == STATICCALL
  {
    SevenBytes(head);
    forall i | 0 <= i < 20
      ensures c[i] == head[i]
    {
      assert c[i] == c[..20][i];
    }
    hide INSTRUCTIONS;
  }

  lemma SevenBytes(head: seq<byte>)
    requires head == INSTRUCTIONS
    ensures |head| == 20 && PushesAt(head, 0, COPY_OPERANDS) && PushesAt(head, 7, CALL_OPERANDS)
    ensures head[6] == CODECOPY && head[19] == STATICCALL
  {
    CopyBytes(head);
    CallBytes(head);
    assert |head| == 20 && head[6] == CODECOPY && head[19] == STATICCALL;
    hide INSTRUCTIONS;
    hide PushesAt;
  }

  lemma CopyBytes(head: seq<byte>)
    requires head == INSTRUCTIONS
    ensures PushesAt(head, 0, COPY_OPERANDS)
  {
    assert |head| == 20 && head[0] == head[2] == head[4] == PUSH1 && head[1] == 64 && head[3] == 80 && head[5] == 0;
    hide INSTRUCTIONS;
    assert |COPY_OPERANDS| == 3 && COPY_OPERANDS[0] == 64 && COPY_OPERANDS[1] == 80 && COPY_OPERANDS[2] == 0;
    hide COPY_OPERANDS;
    forall j | 0 <= j < 3
      ensures head[0 + 2 * j] == PUSH1 && head[0 + 2 * j + 1] == COPY_OPERANDS[j]
    {
      assert j == 0 || j == 1 || j == 2;
    }
  }

  lemma CallBytes(head: seq<byte>)
    requires head == INSTRUCTIONS
    ensures PushesAt(head, 7, CALL_OPERANDS)
  {
    assert |head| == 20 && head[7] == head[9] == head[11] == head[13] == head[15] == head[17] == PUSH1;
    assert head[8] == 0 && head[10] == 0 && head[12] == 128 && head[14] == 0 && head[16] == 6 && head[18] == 200;
    hide INSTRUCTIONS;
    var vs := CALL_OPERANDS;
    assert |vs| == 6 && vs[0] == 0 && vs[1] == 0 && vs[2] == 128 && vs[3] == 0 && vs[4] == 6 && vs[5] == 200;
    hide CALL_OPERANDS;
    forall j | 0 <= j < 6
      ensures head[7 + 2 * j] == PUSH1 && head[7 + 2 * j + 1] == vs[j]
    {
      assert j == 0 || j == 1 || j == 2 || j == 3 || j == 4 || j == 5;
    }
  }

  /** The trace of every prefix that still holds the call. */
  lemma TraceIs(k: nat)
    requires 20 <= k <= 300
    ensures PrefixTrace(HARNESS, Accounts0(), 0, Code(), k) == Whole(Accepted(k))
  {
    hide Trace;
    hide Step;
    hide Log;
    hide Code;
    hide MachineAt;
    hide Copied;
    hide Accepted;
    hide PushLog;
    hide PushesAt;
    hide OpAt;
    hide PrefixTrace;
    var m, c := MachineAt(k), Code()[..k];
    ProgramLayout(k);
    Probe(k);
    CopyTrace(m, c);
    CopyStep(k);
    var s1, w := State(6, 991, [64, 80, 0], EMPTY_WORLD), EMPTY_WORLD.(memory := Copied(k));
    TraceStep(m, c, s1);
    assert Trace(m, c, s1) == [Entry(6, CODECOPY, 991, 3, [64, 80, 0])] + Trace(m, c, State(7, 988, [], w));
    CallTrace(m, c, w);
    EndTrace(k);
    assert Trace(m, c, State(7, 988, [], w)) == PushLog(7, 988, [], CALL_OPERANDS, Ending(Accepted(k)));
  }

  lemma EndTrace(k: nat)
    requires 20 <= k <= 300
    ensures Trace(MachineAt(k), Code()[..k], State(19, 970, [0, 0, 128, 0, 6, 200], EMPTY_WORLD.(memory := Copied(k))))
            == Ending(Accepted(k))
  {
    hide Trace;
    hide Step;
    hide Log;
    hide Code;
    hide MachineAt;
    hide Copied;
    hide Accepted;
    hide PushesAt;
    hide OpAt;
    var m, c := MachineAt(k), Code()[..k];
    ProgramLayout(k);
    CallStep(k);
    var w, fee := EMPTY_WORLD.(memory := Copied(k)), if Accepted(k) then 250 else 300;
    TraceStep(m, c, State(19, 970, [0, 0, 128, 0, 6, 200], w));
    StopStep(m, c, State(20, 970 - fee, [if Accepted(k) then 1 else 0], w));
  }

  lemma CopyTrace(m: Machine, c: seq<byte>)
    requires PushesAt(c, 0, COPY_OPERANDS)
    ensures Trace(m, c, State(0, 1000, [], EMPTY_WORLD))
            == PushLog(0, 1000, [], COPY_OPERANDS, Trace(m, c, State(6, 991, [64, 80, 0], EMPTY_WORLD)))
  {
    hide Trace;
    hide PushLog;
    hide PushesAt;
    Widened();
    TracePushes(m, c, State(0, 1000, [], EMPTY_WORLD), COPY_OPERANDS);
  }

  lemma CallTrace(m: Machine, c: seq<byte>, w: World)
    requires PushesAt(c, 7, CALL_OPERANDS)
    ensures Trace(m, c, State(7, 988, [], w))
            == PushLog(7, 988, [], CALL_OPERANDS, Trace(m, c, State(19, 970, [0, 0, 128, 0, 6, 200], w)))
  {
    hide Trace;
    hide PushLog;
    hide PushesAt;
    Widened();
    TracePushes(m, c, State(7, 988, [], w), CALL_OPERANDS);
  }

  lemma Probe(k: nat)
    requires k <= 300
    ensures PrefixTrace(HARNESS, Accounts0(), 0, Code(), k)
            == Trace(MachineAt(k), Code()[..k], State(0, 1000, [], EMPTY_WORLD))
  {
    hide Trace;
    hide Code;
  }

  lemma Widened()
    ensures |COPY_OPERANDS| == 3 && [] + COPY_OPERANDS == [64, 80, 0]
    ensures |CALL_OPERANDS| == 6 && [] + CALL_OPERANDS == [0, 0, 128, 0, 6, 200]
  {
  }

  // ---------------------------------------------------------------- what the call sees

  lemma {:induction false} ZerosAreZero(s: seq<byte>)
    requires forall i :: 0 <= i < |s| ==> s[i] == 0
    ensures BigEndian(s) == 0
  {
    if s == [] {
    } else {
      ZerosAreZero(s[..|s| - 1]);
    }
  }

  lemma LastByte(s: seq<byte>)
    requires |s| > 0 && forall i :: 0 <= i < |s| - 1 ==> s[i] == 0
    ensures BigEndian(s) == s[|s| - 1]
  {
    ZerosAreZero(s[..|s| - 1]);
  }

  /** The input of the call: two coordinates that may be cut off, and a point of zeros. */
  lemma InputIs(k: nat)
    requires 20 <= k <= 300
    ensures var input := Window(Copied(k), 0, 128);
            && BigEndian(input[..32]) == (if k > 111 then 1 else 0)
            && BigEndian(input[32..64]) == (if k > 143 then 2 else 0)
            && BigEndian(input[64..96]) == 0 && BigEndian(input[96..]) == 0
  {
    var input := Window(Copied(k), 0, 128);
    InputBytes(k);
    hide *;
    LastByte(input[..32]);
    LastByte(input[32..64]);
    LastByte(input[64..96]);
    LastByte(input[96..]);
  }

  lemma InputBytes(k: nat)
    requires 20 <= k <= 300
    ensures var input := Window(Copied(k), 0, 128);
            forall i :: 0 <= i < 128 ==>
              input[i] == if i == 31 && k > 111 then 1 else if i == 63 && k > 143 then 2 else 0
  {
  }

  lemma PointsOnCurve()
    ensures OnCurve(0, 0) && OnCurve(1, 2) && !OnCurve(1, 0)
  {
  }

  /** The call accepts the point exactly if it sees none or all of it. */
  lemma AcceptedExactly(k: nat)
    requires 20 <= k <= 300
    ensures Accepted(k) <==> k <= 111 || k > 143
  {
    InputIs(k);
    PointsOnCurve();
    hide Window;
    hide Copied;
    hide BigEndian;
    hide OnCurve;
  }

  /** A traced opcode is the opcode at its position. */
  lemma {:induction false} OpsAreCode(m: Machine, code: seq<byte>, st: State, i: nat)
    requires i < |Trace(m, code, st)|
    ensures Trace(m, code, st)[i].op == OpAt(code, Trace(m, code, st)[i].pc)
    decreases st.gas
  {
    hide Step;
    hide Cost;
    TraceStep(m, code, st);
    if i == 0 {
    } else {
      OpsAreCode(m, code, Step(m, code, st).st, i - 1);
    }
  }

  /** A prefix that has lost the call cannot have the original trace. */
  lemma ShorterDiffers(k: nat)
    requires k < 20
    ensures PrefixTrace(HARNESS, Accounts0(), 0, Code(), k) != Whole(true)
  {
    WholeEnds(true);
    hide Whole;
    if PrefixTrace(HARNESS, Accounts0(), 0, Code(), k) == Whole(true) {
      Probe(k);
      OpsAreCode(MachineAt(k), Code()[..k], State(0, 1000, [], EMPTY_WORLD), 10);
    }
  }

  lemma WholesDiffer()
    ensures Whole(true) != Whole(false)
  {
    WholeEnds(true);
    WholeEnds(false);
    hide Whole;
  }

  /** Minimisation is not sound for every program: this one has its original trace at the
      length of 20 bytes and at no smaller one, and yet the result that is kept, with its
      100 bytes of padding, has another trace. The original run reads the code. */
  lemma PaddingCanFail()
    ensures var h, pre, code := HARNESS, Accounts0(), Code();
            && LeastFaithful(h, pre, 0, code, 20) && Padded(20, |code|) == 120
            && PrefixTrace(h, pre, 0, code, 120) != PrefixTrace(h, pre, 0, code, |code|)
            && !Unread(h, pre, 0, code)
  {
    hide PrefixTrace;
    hide Whole;
    hide Code;
    hide Accepted;
    hide LooksWhole;
    TraceIs(20);
    TraceIs(120);
    TraceIs(300);
    AcceptedExactly(20);
    AcceptedExactly(120);
    AcceptedExactly(300);
    WholesDiffer();
    forall k | 0 <= k < 20
      ensures PrefixTrace(HARNESS, Accounts0(), 0, Code(), k) != PrefixTrace(HARNESS, Accounts0(), 0, Code(), 300)
    {
      ShorterDiffers(k);
    }
    if Unread(HARNESS, Accounts0(), 0, Code()) {
      FaithfulUpwards(HARNESS, Accounts0(), 0, Code(), 20, 120);
    }
  }

  /** The two prefixes that the search has to turn down have other sums than the whole. */
  predicate SumsDiffer()
  {
    && TraceSum(PrefixTrace(HARNESS, Accounts0(), 0, Code(), 18)) != TraceSum(PrefixTrace(HARNESS, Accounts0(), 0, Code(), 300))
    && TraceSum(PrefixTrace(HARNESS, Accounts0(), 0, Code(), 19)) != TraceSum(PrefixTrace(HARNESS, Accounts0(), 0, Code(), 300))
  }

  /** The faithful lengths are accepted, whatever the hash. */
  lemma AcceptsFaithful(k: nat)
    requires 20 <= k <= 111 || 143 < k <= 300
    ensures Accepts(HARNESS, Accounts0(), 0, Code(), k)
  {
    hide PrefixTrace;
    hide Code;
    hide Accepted;
    hide Accepts;
    TraceIs(300);
    AcceptedExactly(300);
    WholeEnds(true);
    hide Whole;
    TraceIs(k);
    AcceptedExactly(k);
    FaithfulIsAccepted(HARNESS, Accounts0(), 0, Code(), k);
  }

  lemma RejectsShort(k: nat)
    requires SumsDiffer() && (k == 18 || k == 19)
    ensures !Accepts(HARNESS, Accounts0(), 0, Code(), k)
  {
    hide PrefixTrace;
    hide TraceSum;
    hide Code;
  }

  /** The probes of the search on this program. */
  lemma SearchFindsTwenty()
    requires SumsDiffer()
    ensures SearchFrom(HARNESS, Accounts0(), 0, Code(), 0, 300) == 20
  {
    hide *;
    Turn(0, 300, 150);
    Turn(0, 150, 75);
    Turn(0, 75, 37);
    Turn(0, 37, 18);
    Turn(19, 37, 28);
    Turn(19, 28, 23);
    Turn(19, 23, 21);
    Turn(19, 21, 20);
    Turn(19, 20, 19);
    Ends(20);
  }

  lemma Turn(i: nat, j: nat, mid: nat)
    requires i < j <= 300 && mid == (i + j) / 2 && SumsDiffer()
    requires mid == 18 || mid == 19 || 20 <= mid <= 111 || 143 < mid
    ensures SearchFrom(HARNESS, Accounts0(), 0, Code(), i, j) ==
              if mid >= 20 then SearchFrom(HARNESS, Accounts0(), 0, Code(), i, mid)
              else SearchFrom(HARNESS, Accounts0(), 0, Code(), mid + 1, j)
  {
    hide *;
    if mid >= 20 {
      AcceptsFaithful(mid);
    } else {
      RejectsShort(mid);
    }
    SearchTurn(HARNESS, Accounts0(), 0, Code(), i, j);
  }

  lemma Ends(i: nat)
    requires i <= 300
    ensures SearchFrom(HARNESS, Accounts0(), 0, Code(), i, i) == i
  {
    hide *;
    SearchTurn(HARNESS, Accounts0(), 0, Code(), i, i);
  }

  /** So the procedure, run on this program, returns one with another trace. */
  lemma MinimizingChangesTrace(after: Accounts, r: seq<byte>, found: nat)
    requires SumsDiffer()
    requires Minimised(HARNESS, Accounts0(), after, 0, Code(), r, found)
    ensures found == 20 && r == Code()[..120] && after == Accounts0()[0 := r]
    ensures TraceOf(HARNESS, after) != TraceOf(HARNESS, Accounts0())
  {
    hide *;
    SearchFindsTwenty();
    PaddingCanFail();
    MinimisedMeans(HARNESS, Accounts0(), after, 0, Code(), r, found);
    WholeTrace();
  }

  lemma WholeTrace()
    ensures TraceOf(HARNESS, Accounts0()) == PrefixTrace(HARNESS, Accounts0(), 0, Code(), 300)
  {
    hide TraceOf;
    hide Code;
    assert Code()[..300] == Code();
    assert Accounts0()[0 := Code()] == Accounts0();
  }
}
