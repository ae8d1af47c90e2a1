/** The rolling 64-bit hash by which two runs are compared during minimisation. */
module HashTracer {
  import opened Bytes
  import opened Evm

  const MAX_TRACE_STEPS: nat := 1_500_000
  const OFFSET: bv64 := 1469598103934665603

  /** The multiplier is written out: the solver then sees a product by a numeral. */
  function TimesPrime(y: bv64): bv64
  {
    y * 1099511628211
  }

  /** Product by the inverse of that multiplier modulo 2^64. */
  function TimesInverse(y: bv64): bv64
  {
    y * 14886173955864302971
  }

  function Fold(sum: bv64, x: bv64): bv64
  {
    TimesPrime(sum ^ x)
  }

  function FoldAll(sum: bv64, ws: seq<bv64>): bv64
    decreases |ws|
  {
    if ws == [] then sum else FoldAll(Fold(sum, ws[0]), ws[1..])
  }

  /** The 64-bit word a counter is folded as. */
  function Low64(n: nat): bv64
  {
    (n % TWO_64) as bv64
  }

  /** A stack item as four 64-bit limbs, least significant first. */
  function Limbs(w: Word): seq<bv64>
  {
    [Low64(w), Low64(w / TWO_64), Low64(w / TWO_64 / TWO_64), Low64(w / TWO_64 / TWO_64 / TWO_64)]
  }

  function StackWords(stack: seq<Word>): seq<bv64>
  {
    if stack == [] then [] else Limbs(stack[0]) + StackWords(stack[1..])
  }

  /** The words folded before the stack. The machine runs one frame, at depth 1. */
  function Head(e: Entry): seq<bv64>
  {
    [Low64(e.pc), Low64(e.op), Low64(e.gas), Low64(e.cost), 1]
  }

  /** The words folded for one traced step. */
  function Words(e: Entry): seq<bv64>
  {
    Head(e) + StackWords(e.stack)
  }

  function AllWords(t: seq<Entry>): seq<bv64>
  {
    if t == [] then [] else AllWords(t[..|t| - 1]) + Words(t[|t| - 1])
  }

  lemma {:induction false} FoldAllJoin(sum: bv64, us: seq<bv64>, vs: seq<bv64>)
    ensures FoldAll(sum, us + vs) == FoldAll(FoldAll(sum, us), vs)
    decreases |us|
  {
    hide Fold;
    if us == [] {
      assert us + vs == vs;
    } else {
      assert (us + vs)[1..] == us[1..] + vs;
      FoldAllJoin(Fold(sum, us[0]), us[1..], vs);
    }
  }

  // ---------------------------------------------------------------- the hook

  class Tracer {
    var sum: bv64
    var steps: nat
    var overflow: bool

    constructor ()
      ensures sum == OFFSET && steps == 0 && !overflow
    {
      sum, steps, overflow := OFFSET, 0, false;
    }

    method Fold64(x: bv64)
      modifies this`sum
      ensures sum == Fold(old(sum), x)
    {
      sum := TimesPrime(sum ^ x);
    }

    /** Folds every limb of every stack item, bottom of the stack first. */
    method FoldStack(stack: seq<Word>)
      modifies this`sum
      ensures sum == FoldAll(old(sum), StackWords(stack))
    {
      for i := 0 to |stack|
        invariant sum == FoldAll(old(sum), StackWords(stack[..i]))
      {
        hide *;
        ghost var s := sum;
        var w := stack[i];
        Fold64(Low64(w));
        Fold64(Low64(w / TWO_64));
        Fold64(Low64(w / TWO_64 / TWO_64));
        Fold64(Low64(w / TWO_64 / TWO_64 / TWO_64));
        assert sum == FoldAll(s, Limbs(w)) by { LimbFolds(s, w); }
        StackWordsSnoc(stack, i);
        FoldAllJoin(old(sum), StackWords(stack[..i]), Limbs(w));
      }
      assert stack[..|stack|] == stack;
    }

    /** What the tracer holds after the steps of t. */
    ghost predicate Saw(t: seq<Entry>)
      reads this
    {
      && overflow == (|t| > MAX_TRACE_STEPS)
      && (!overflow ==> steps == |t| && sum == FoldAll(OFFSET, AllWords(t)))
      && (overflow ==> steps == MAX_TRACE_STEPS + 1 && sum == FoldAll(OFFSET, AllWords(t[..MAX_TRACE_STEPS])))
    }

    /** The opcode hook: one more step is folded unless the cap is exceeded, and then
        nothing changes any more. */
    method OnOpcode(e: Entry, ghost t: seq<Entry>)
      requires Saw(t)
      modifies this
      ensures Saw(t + [e])
    {
      hide Fold;
      hide FoldAll;
      hide Words;
      hide Low64;
      hide StackWords;
      ghost var t' := t + [e];
      assert |t| >= MAX_TRACE_STEPS ==> t'[..MAX_TRACE_STEPS] == t[..MAX_TRACE_STEPS];
      if overflow {
        return;
      }
      steps := steps + 1;
      if steps > MAX_TRACE_STEPS {
        overflow := true;
        assert t[..MAX_TRACE_STEPS] == t;
        return;
      }
      ghost var before := sum;
      Fold64(Low64(e.pc));
      Fold64(Low64(e.op));
      Fold64(Low64(e.gas));
      Fold64(Low64(e.cost));
      Fold64(1);
      FiveFolds(before, Head(e));
      assert sum == FoldAll(before, Head(e));
      FoldStack(e.stack);
      FoldAllJoin(before, Head(e), StackWords(e.stack));
      assert Words(e) == Head(e) + StackWords(e.stack) by { WordsSplit(e); }
      AllWordsSnoc(t, e);
      FoldAllJoin(OFFSET, AllWords(t), Words(e));
    }
  }

  lemma WordsSplit(e: Entry)
    ensures Words(e) == Head(e) + StackWords(e.stack)
  {
  }

  lemma AllWordsSnoc(t: seq<Entry>, e: Entry)
    ensures AllWords(t + [e]) == AllWords(t) + Words(e)
  {
    hide Words;
    assert (t + [e])[..|t|] == t;
  }

  lemma FiveFolds(s: bv64, ws: seq<bv64>)
    requires |ws| == 5
    ensures FoldAll(s, ws) == Fold(Fold(Fold(Fold(Fold(s, ws[0]), ws[1]), ws[2]), ws[3]), ws[4])
  {
    hide Fold;
    assert FoldAll(s, ws) == FoldAll(Fold(s, ws[0]), ws[1..]);
    FourFolds(Fold(s, ws[0]), ws[1..]);
  }

  lemma FourFolds(s: bv64, ws: seq<bv64>)
    requires |ws| == 4
    ensures FoldAll(s, ws) == Fold(Fold(Fold(Fold(s, ws[0]), ws[1]), ws[2]), ws[3])
  {
    hide Fold;
    var w1 := ws[1..];
    var w2 := w1[1..];
    var w3 := w2[1..];
    assert FoldAll(s, ws) == FoldAll(Fold(s, ws[0]), w1);
    assert FoldAll(Fold(s, ws[0]), w1) == FoldAll(Fold(Fold(s, ws[0]), w1[0]), w2);
    var t := Fold(Fold(s, ws[0]), w1[0]);
    assert FoldAll(t, w2) == FoldAll(Fold(t, w2[0]), w3);
    assert FoldAll(Fold(t, w2[0]), w3) == FoldAll(Fold(Fold(t, w2[0]), w3[0]), w3[1..]);
  }

  lemma LimbFolds(s: bv64, w: Word)
    ensures FoldAll(s, Limbs(w)) ==
              Fold(Fold(Fold(Fold(s, Low64(w)), Low64(w / TWO_64)), Low64(w / TWO_64 / TWO_64)),
                   Low64(w / TWO_64 / TWO_64 / TWO_64))
  {
    hide Fold;
    hide Low64;
    FourFolds(s, Limbs(w));
  }

  lemma {:induction false} StackWordsJoin(a: seq<Word>, b: seq<Word>)
    ensures StackWords(a + b) == StackWords(a) + StackWords(b)
  {
    if a == [] {
      assert a + b == b;
    } else {
      assert (a + b)[1..] == a[1..] + b;
      StackWordsJoin(a[1..], b);
    }
  }

  lemma StackWordsSnoc(stack: seq<Word>, i: nat)
    requires i < |stack|
    ensures StackWords(stack[..i + 1]) == StackWords(stack[..i]) + Limbs(stack[i])
  {
    assert stack[..i + 1] == stack[..i] + [stack[i]];
    StackWordsJoin(stack[..i], [stack[i]]);
    assert [stack[i]][1..] == [];
    assert StackWords([stack[i]]) == Limbs(stack[i]);
  }

  // ---------------------------------------------------------------- the fold

  /** Undoes one fold. */
  function Unfold(sum: bv64, x: bv64): bv64
  {
    TimesInverse(sum) ^ x
  }

  function UnfoldAll(sum: bv64, ws: seq<bv64>): bv64
    decreases |ws|
  {
    if ws == [] then sum else Unfold(UnfoldAll(sum, ws[1..]), ws[0])
  }

  lemma InverseOfProduct(y: bv64)
    ensures TimesInverse(y * 1099511628211) == y
  {
  }

  lemma PrimeOfProduct(y: bv64)
    ensures TimesPrime(y * 14886173955864302971) == y
  {
  }

  lemma PrimeThenInverse(y: bv64)
    ensures TimesInverse(TimesPrime(y)) == y
  {
    hide TimesInverse;
    InverseOfProduct(y);
  }

  lemma InverseThenPrime(y: bv64)
    ensures TimesPrime(TimesInverse(y)) == y
  {
    hide TimesPrime;
    PrimeOfProduct(y);
  }

  lemma XorTwice(y: bv64, x: bv64)
    ensures (y ^ x) ^ x == y
  {
  }

  /** One fold is a bijection of the 64-bit states. */
  lemma FoldBijective(s: bv64, x: bv64)
    ensures Unfold(Fold(s, x), x) == s
    ensures Fold(Unfold(s, x), x) == s
  {
    hide TimesPrime;
    hide TimesInverse;
    PrimeThenInverse(s ^ x);
    InverseThenPrime(s);
    XorTwice(s, x);
    XorTwice(TimesInverse(s), x);
  }

  /** Folding any word stream is a bijection of the 64-bit states. */
  lemma {:induction false} FoldAllBijective(s: bv64, ws: seq<bv64>)
    ensures UnfoldAll(FoldAll(s, ws), ws) == s
    ensures FoldAll(UnfoldAll(s, ws), ws) == s
    decreases |ws|
  {
    hide Fold;
    hide Unfold;
    if ws == [] {
    } else {
      FoldAllBijective(Fold(s, ws[0]), ws[1..]);
      FoldBijective(s, ws[0]);
      FoldAllBijective(s, ws[1..]);
      FoldBijective(UnfoldAll(s, ws[1..]), ws[0]);
    }
  }

  lemma FoldSeparates(s: bv64, x: bv64, y: bv64)
    requires x != y
    ensures Fold(s, x) != Fold(s, y)
  {
    hide TimesPrime;
    hide TimesInverse;
    PrimeThenInverse(s ^ x);
    PrimeThenInverse(s ^ y);
    XorSwap(s, x);
    XorSwap(s, y);
  }

  lemma XorSwap(s: bv64, x: bv64)
    ensures (s ^ x) ^ s == x
  {
  }

  /** Two equally long word streams that differ in exactly one word never get the same
      sum: a probe whose trace diverges in a single folded word is always noticed. */
  lemma OneWordIsNoticed(us: seq<bv64>, vs: seq<bv64>, i: nat)
    requires |us| == |vs| && i < |us| && us[i] != vs[i]
    requires forall j :: 0 <= j < |us| && j != i ==> us[j] == vs[j]
    ensures FoldAll(OFFSET, us) != FoldAll(OFFSET, vs)
  {
    hide Fold;
    var pre, post := us[..i], us[i + 1..];
    assert us == (pre + [us[i]]) + post;
    assert vs == (pre + [vs[i]]) + post;
    var s := FoldAll(OFFSET, pre);
    FoldAllJoin(OFFSET, pre + [us[i]], post);
    FoldAllJoin(OFFSET, pre, [us[i]]);
    FoldAllJoin(OFFSET, pre + [vs[i]], post);
    FoldAllJoin(OFFSET, pre, [vs[i]]);
    assert [us[i]][1..] == [] && [vs[i]][1..] == [];
    FoldSeparates(s, us[i], vs[i]);
    FoldAllBijective(Fold(s, us[i]), post);
    FoldAllBijective(Fold(s, vs[i]), post);
  }

  // ---------------------------------------------------------------- what the words tell

  /** The number a 64-bit word stands for. */
  function Num(x: bv64): (n: nat)
    ensures n < TWO_64
  {
    x as nat
  }

  lemma NumBack(x: bv64)
    ensures Num(x) as bv64 == x
  {
  }

  lemma Low64Is(n: nat)
    requires n < TWO_64
    ensures Low64(n) == n as bv64
  {
  }

  /** A 64-bit number is folded as itself. */
  lemma FoldedAsItself(x: bv64)
    ensures Low64(Num(x)) == x
  {
    hide Num;
    Low64Is(Num(x));
    NumBack(x);
    hide Low64;
  }

  /** Four 64-bit limbs, least significant first, and the stack item they make up. */
  datatype Quad = Quad(a: bv64, b: bv64, c: bv64, d: bv64)

  function Item(q: Quad): Word
  {
    Num(q.a) + TWO_64 * (Num(q.b) + TWO_64 * (Num(q.c) + TWO_64 * Num(q.d)))
  }

  lemma LowDigit(a: nat, b: nat)
    requires a < TWO_64
    ensures (a + TWO_64 * b) / TWO_64 == b && Low64(a + TWO_64 * b) == Low64(a)
  {
    assert (a + TWO_64 * b) % TWO_64 == a;
  }

  /** A stack item is folded as its limbs, lowest first. */
  lemma LimbsOfItem(q: Quad)
    ensures Limbs(Item(q)) == [q.a, q.b, q.c, q.d]
  {
    hide Num;
    hide Low64;
    var d := Num(q.d);
    var c := Num(q.c) + TWO_64 * d;
    var b := Num(q.b) + TWO_64 * c;
    LowDigit(Num(q.a), b);
    LowDigit(Num(q.b), c);
    LowDigit(Num(q.c), d);
    FoldedAsItself(q.a);
    FoldedAsItself(q.b);
    FoldedAsItself(q.c);
    FoldedAsItself(q.d);
  }

  function Items(qs: seq<Quad>): (stack: seq<Word>)
    ensures |stack| == |qs|
  {
    seq(|qs|, i requires 0 <= i < |qs| => Item(qs[i]))
  }

  lemma FirstItem(qs: seq<Quad>)
    requires qs != []
    ensures StackWords(Items(qs)) == [qs[0].a, qs[0].b, qs[0].c, qs[0].d] + StackWords(Items(qs[1..]))
  {
    hide Item;
    hide Limbs;
    LimbsOfItem(qs[0]);
    assert Items(qs)[1..] == Items(qs[1..]);
  }

  lemma {:induction false} StackLayout(qs: seq<Quad>, i: nat)
    requires i < |qs|
    ensures var ws := StackWords(Items(qs));
            |ws| == 4 * |qs| && ws[4 * i..4 * i + 4] == [qs[i].a, qs[i].b, qs[i].c, qs[i].d]
    decreases |qs|
  {
    hide *;
    FirstItem(qs);
    var first, rest := [qs[0].a, qs[0].b, qs[0].c, qs[0].d], StackWords(Items(qs[1..]));
    if |qs| == 1 {
      NoItems();
      NoStack();
      Front(first, rest);
    } else if i == 0 {
      StackLayout(qs[1..], 0);
      Front(first, rest);
    } else {
      StackLayout(qs[1..], i - 1);
      Shifted(first, rest, 4 * (i - 1));
      assert qs[1..][i - 1] == qs[i];
    }
  }

  lemma Front(first: seq<bv64>, rest: seq<bv64>)
    requires |first| == 4
    ensures (first + rest)[0..4] == first
  {
  }

  lemma NoItems()
    ensures Items([]) == []
  {
  }

  lemma Shifted(first: seq<bv64>, rest: seq<bv64>, k: nat)
    requires |first| == 4 && k + 4 <= |rest|
    ensures (first + rest)[k + 4..k + 8] == rest[k..k + 4]
  {
  }

  /** A traced step as the hook is handed it, in 64-bit numbers. */
  datatype Hooked = Hooked(pc: bv64, op: bv64, gas: bv64, cost: bv64, stack: seq<Quad>)

  function EntryOf(h: Hooked): Entry
    requires Num(h.op) < 256
  {
    Entry(Num(h.pc), Num(h.op), Num(h.gas), Num(h.cost), Items(h.stack))
  }

  /** Which word tells what of a step: the counters and the depth, and then the limbs of the
      stack from its bottom on. */
  lemma WordsLayout(h: Hooked)
    requires Num(h.op) < 256
    ensures var ws := Words(EntryOf(h));
            && |ws| == 5 + 4 * |h.stack| && ws[..5] == [h.pc, h.op, h.gas, h.cost, 1]
            && forall i :: 0 <= i < |h.stack| ==>
                 ws[5 + 4 * i..9 + 4 * i] == [h.stack[i].a, h.stack[i].b, h.stack[i].c, h.stack[i].d]
  {
    hide Num;
    hide Low64;
    hide StackWords;
    FoldedAsItself(h.pc);
    FoldedAsItself(h.op);
    FoldedAsItself(h.gas);
    FoldedAsItself(h.cost);
    var e := EntryOf(h);
    WordsSplit(e);
    var head, ws := Head(e), StackWords(e.stack);
    if h.stack == [] {
      NoStack();
    } else {
      StackLayout(h.stack, 0);
    }
    assert Words(e)[..5] == head;
    forall i | 0 <= i < |h.stack|
      ensures Words(e)[5 + 4 * i..9 + 4 * i] == [h.stack[i].a, h.stack[i].b, h.stack[i].c, h.stack[i].d]
    {
      StackLayout(h.stack, i);
      assert (head + ws)[5 + 4 * i..9 + 4 * i] == ws[4 * i..4 * i + 4];
    }
  }

  lemma NoStack()
    ensures StackWords([]) == []
  {
  }

  /** Steps that differ in a counter, the opcode, the stack height or a limb of the stack
      are folded as different words. */
  lemma StepsToldApart(h: Hooked, g: Hooked)
    requires Num(h.op) < 256 && Num(g.op) < 256
    ensures Words(EntryOf(h)) == Words(EntryOf(g)) ==> h == g
  {
    hide Num;
    hide Words;
    hide EntryOf;
    if Words(EntryOf(h)) == Words(EntryOf(g)) {
      WordsLayout(h);
      WordsLayout(g);
      var ws := Words(EntryOf(h));
      assert ws[..5] == [h.pc, h.op, h.gas, h.cost, 1] == [g.pc, g.op, g.gas, g.cost, 1];
      forall i | 0 <= i < |h.stack|
        ensures h.stack[i] == g.stack[i]
      {
        var four := ws[5 + 4 * i..9 + 4 * i];
        assert four == [h.stack[i].a, h.stack[i].b, h.stack[i].c, h.stack[i].d];
        assert four == [g.stack[i].a, g.stack[i].b, g.stack[i].c, g.stack[i].d];
        assert four[0] == h.stack[i].a && four[1] == h.stack[i].b && four[2] == h.stack[i].c && four[3] == h.stack[i].d;
      }
    }
  }
}
