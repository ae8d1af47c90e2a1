/** What one generation produces: a program, and the programs it deploys. */
module Programs {
  import opened Evm
  import opened Bytes
  import opened Assembler
  import opened BoundedLoop
  import opened Emission
  import opened Strategies
  import opened Jumps
  import opened Table

  const MAX_RECURSION: nat := 10
  const MAX_TOTAL: nat := 10000

  /** A program under construction: the position in the filler's data, what has been emitted
      and noted, the modelled stack height and what is left of the budget. */
  datatype Snap = Snap(pos: nat, asm: seq<Instr>, labels: seq<nat>, loops: seq<Loop>, jumps: seq<EmittedJump>,
                       height: int, left: int)

  /** One turn of the loop: the strategy drawn, what it has emitted and generated, and the
      program before and after. */
  datatype Turn = Turn(index: nat, kind: Kind, chunk: seq<Instr>, sub: seq<Tree>, start: Snap, end: Snap)

  /** A generated program with its cached labels, its loops, its jumps to labels, the
      sub-programs generated for it and the turns in which all that was made. */
  datatype Tree = Node(asm: seq<Instr>, labels: seq<nat>, loops: seq<Loop>, jumps: seq<EmittedJump>,
                       children: seq<Tree>, turns: seq<Turn>)

  /** The bytes of all programs together. */
  function Size(t: Tree): nat
    decreases t, 0
  {
    |Assemble(t.asm)| + SizeAll(t.children)
  }

  function SizeAll(ts: seq<Tree>): nat
    decreases ts
  {
    if ts == [] then 0 else SizeAll(ts[..|ts| - 1]) + Size(ts[|ts| - 1])
  }

  /** The number of programs. */
  function Count(t: Tree): nat
  {
    1 + CountAll(t.children)
  }

  function CountAll(ts: seq<Tree>): nat
    decreases ts
  {
    if ts == [] then 0 else CountAll(ts[..|ts| - 1]) + Count(ts[|ts| - 1])
  }

  /** Every cached label of every program is a JUMPDEST byte of the finished program, and
      a valid destination of it unless the program holds a raw PUSH byte. So are the
      destinations of its jumps, and every loop is one that runs. */
  predicate Sound(t: Tree)
  {
    && (forall i :: 0 <= i < |t.labels| ==> GoodLabel(Assemble(t.asm), t.asm, t.labels[i]))
    && (forall i :: 0 <= i < |t.loops| ==> GoodLoop(Assemble(t.asm), t.asm, t.loops[i]))
    && (forall i :: 0 <= i < |t.jumps| ==> GoodJump(Assemble(t.asm), t.asm, t.jumps[i]))
    && forall i :: 0 <= i < |t.children| ==> Sound(t.children[i])
  }

  /** Only programs above the last recursion level have sub-programs. */
  predicate Within(t: Tree, level: nat)
  {
    && (t.children != [] ==> level < MAX_RECURSION)
    && forall i :: 0 <= i < |t.children| ==> Within(t.children[i], level + 1)
  }

  function Height(t: Tree): nat
  {
    1 + HeightAll(t.children)
  }

  function HeightAll(ts: seq<Tree>): nat
    decreases ts
  {
    if ts == [] then 0
    else
      var a, b := HeightAll(ts[..|ts| - 1]), Height(ts[|ts| - 1]);
      if a < b then b else a
  }

  /** At most eleven programs lie on one path of the tree. */
  lemma {:induction false} HeightBound(t: Tree, level: nat)
    requires Within(t, level) && level <= MAX_RECURSION
    ensures Height(t) <= MAX_RECURSION - level + 1
  {
    HeightAllBound(t.children, level);
  }

  lemma {:induction false} HeightAllBound(ts: seq<Tree>, level: nat)
    requires level <= MAX_RECURSION && (ts != [] ==> level < MAX_RECURSION)
    requires forall i :: 0 <= i < |ts| ==> Within(ts[i], level + 1)
    ensures HeightAll(ts) <= MAX_RECURSION - level
    decreases ts
  {
    if ts == [] {
    } else {
      var n := |ts| - 1;
      HeightAllBound(ts[..n], level);
      HeightBound(ts[n], level + 1);
    }
  }

  lemma {:induction false} AllJoin(a: seq<Tree>, b: seq<Tree>)
    ensures SizeAll(a + b) == SizeAll(a) + SizeAll(b)
    ensures CountAll(a + b) == CountAll(a) + CountAll(b)
    decreases b
  {
    hide Size;
    hide Count;
    if b == [] {
      assert a + b == a;
    } else {
      var n := |b| - 1;
      assert (a + b)[..|a + b| - 1] == a + b[..n];
      AllJoin(a, b[..n]);
    }
  }

  lemma AllOne(t: Tree)
    ensures SizeAll([t]) == Size(t) && CountAll([t]) == Count(t)
  {
    assert [t][..0] == [];
  }

  /** In the finished form of every generated program without raw PUSH bytes, every loop
      that was emitted terminates when it is entered at its first byte: after 9k + 2
      instructions and 30k + 5 gas, behind itself, with the stack it found. */
  lemma GeneratedLoopRuns(t: Tree, i: nat, m: Machine, s: seq<Word>, gas: nat, w: World)
    requires Sound(t) && Clean(t.asm) && i < |t.loops|
    requires |s| <= 1021 && gas >= 30 * t.loops[i].k + 5
    ensures var l := t.loops[i];
            && Head(l.at, l.k) < WORD
            && Run(m, Assemble(t.asm), State(l.at, gas, s, w), 9 * l.k + 2)
               == Next(State(l.at + |LoopBytes(l.k, Head(l.at, l.k))|, gas - (30 * l.k + 5), s, w))
  {
    hide Run;
    hide Assemble;
    hide Clean;
    hide GoodLabel;
    hide Site;
    hide LoopBytes;
    hide Head;
    var l := t.loops[i];
    assert GoodLoop(Assemble(t.asm), t.asm, l);
    SiteHead(Assemble(t.asm), l.at, l.k);
    LoopTerminates(m, Assemble(t.asm), l.at, l.k, s, gas, w);
  }

  /** In the finished form of every generated program without raw PUSH bytes, every jump to
      a label that was emitted lands: the unconditional one always, the conditional one on
      its label or behind itself, as its condition says. */
  lemma GeneratedJumpLands(t: Tree, i: nat, m: Machine, st: State)
    requires Sound(t) && Clean(t.asm) && i < |t.jumps| && st.pc == t.jumps[i].at
    requires st.gas >= 16 && |st.stack| + 1 < STACK_LIMIT
    ensures var j, code := t.jumps[i], Assemble(t.asm);
            match j.condition
            case None => Run(m, code, st, 2) == Next(State(j.dest, st.gas - 11, st.stack, st.world))
            case Some(c) =>
              Run(m, code, st, 3) == Next(State(if c == 0 then j.at + |Assemble(JumpIfInstrs(j.dest, c))| else j.dest,
                                                st.gas - 16, st.stack, st.world))
  {
    hide Run;
    hide Assemble;
    hide Clean;
    hide Holds;
    hide ValidDest;
    hide JumpInstrs;
    hide JumpIfInstrs;
    hide GoodLoop;
    var j, code := t.jumps[i], Assemble(t.asm);
    assert GoodJump(code, t.asm, j);
    match j.condition
    case None => JumpRuns(m, code, st, j.dest);
    case Some(c) => JumpIfRuns(m, code, st, j.dest, c);
  }
}
