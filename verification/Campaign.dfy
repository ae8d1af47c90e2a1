/** A worker's run from the input to the database: generate, look up, minimise, store. */
module Campaign {
  import opened Bytes
  import opened Fill
  import opened Assembler
  import Selection
  import opened Table
  import opened Programs
  import opened Rounds
  import Generator
  import opened Minimizer
  import opened Protocol
  import opened Service
  import opened Server

  const SENDER: Address := 0xa94f_5374_fce5_edbc_8e2a_8697_c153_3167_7e6e_bf0b
  const DEST: Address := 0xca11_00f0_22

  /** The accounts of the state test for a program. */
  function TestFor(code: Blob): Accounts
  {
    map[SENDER := [], DEST := code]
  }

  function VerdictOf(r: Minimized): Verdict
  {
    match r
    case ErrTraceTooLarge => TooLarge
    case ErrFill => Unminimizable
    case Done(code) => Minimal(code)
  }

  /** Where the search on a program ends. */
  function FoundIn(h: Harness, full: Blob): (n: nat)
    ensures n <= |full|
  {
    SearchFrom(h, TestFor(full), DEST, full, 0, |full|)
  }

  /** The minimised form of a program: short ones are kept. */
  function MinimalForm(h: Harness, full: Blob): Blob
  {
    if |full| < MIN_MINIMIZE_SIZE then full else full[..Padded(FoundIn(h, full), |full|)]
  }

  predicate TraceTooLarge(h: Harness, full: Blob)
  {
    |Rendered(h, TraceOf(h, TestFor(full)))| > MAX_TRACE_SIZE - TRACE_SIZE_MARGIN
  }

  /** The verdict on a program, in every case. */
  predicate VerdictIs(h: Harness, full: Blob, verdict: Verdict)
  {
    verdict == if !h.fillable then Unminimizable
               else if TraceTooLarge(h, full) then TooLarge
               else Minimal(MinimalForm(h, full))
  }

  /** The minimised form has the trace of the program if the trace lines are long, the found
      length has not got the sum by a collision and the run does not read the code. */
  ghost predicate KeepsTrace(h: Harness, full: Blob, min: Blob)
  {
    LongLines(h) && Unread(h, TestFor(full), DEST, full) && NoCollision(h, TestFor(full), DEST, full, FoundIn(h, full)) ==>
      TraceOf(h, TestFor(min)) == TraceOf(h, TestFor(full))
  }

  /** What is left of a program that is cut, and that it is the least faithful prefix if
      nothing is added to what the search has found. */
  ghost predicate Cut(h: Harness, full: Blob, min: Blob)
  {
    && (|full| < 256 ==> min == full)
    && (|full| >= 256 ==> CutAt(full, min, FoundIn(h, full)))
    && (|full| >= 256 && FoundIn(h, full) + 100 >= |full| && LongLines(h) && Unread(h, TestFor(full), DEST, full)
        && NoCollision(h, TestFor(full), DEST, full, FoundIn(h, full)) ==>
          LeastFaithful(h, TestFor(full), DEST, full, |min|))
  }

  /** The account that is cut is that of the program, unless there is nothing to cut. */
  lemma LongestIsDest(code: Blob, a: Address)
    requires forall b :: b in TestFor(code) ==> |TestFor(code)[b]| <= |CodeOf(TestFor(code), a)|
    ensures CodeOf(TestFor(code), a) == code && (code != [] ==> a == DEST)
  {
    assert DEST in TestFor(code) && TestFor(code)[DEST] == code;
  }

  lemma ResultMinimises(h: Harness, full: Blob, after: Accounts, a: Address, min: Blob, found: nat)
    requires forall b :: b in TestFor(full) ==> |TestFor(full)[b]| <= |CodeOf(TestFor(full), a)|
    requires |CodeOf(TestFor(full), a)| < MIN_MINIMIZE_SIZE ==> min == CodeOf(TestFor(full), a)
    requires |CodeOf(TestFor(full), a)| >= MIN_MINIMIZE_SIZE ==>
               Minimised(h, TestFor(full), after, a, CodeOf(TestFor(full), a), min, found)
    ensures min == MinimalForm(h, full) && KeepsTrace(h, full, min) && Cut(h, full, min)
  {
    hide TraceOf;
    hide Unread;
    hide NoCollision;
    hide Searched;
    hide SearchFrom;
    hide LeastFaithful;
    LongestIsDest(full, a);
    if |full| >= MIN_MINIMIZE_SIZE {
      assert Searched(h, TestFor(full), a, full, found);
      SearchIn(h, TestFor(full), a, full, found);
      assert TestFor(full)[DEST := min] == TestFor(min);
    }
  }

  /** Minimises the test of a program. */
  method Minimise(h: Harness, full: Blob) returns (verdict: Verdict)
    ensures VerdictIs(h, full, verdict)
    ensures verdict.Minimal? ==> KeepsTrace(h, full, verdict.min) && Cut(h, full, verdict.min)
  {
    hide TraceOf;
    hide Rendered;
    hide Minimised;
    hide KeepsTrace;
    hide Cut;
    hide MinimalForm;
    var gst := new GstMaker(TestFor(full));
    var r;
    ghost var a, found;
    r, a, found := gst.MinimizeProgram(h);
    if r.Done? {
      ResultMinimises(h, full, gst.pre, a, r.code, found);
    }
    verdict := VerdictOf(r);
  }

  /** run(): `fails` tells which accesses of the database fail. A run that fails, or whose
      input is too short, leaves the database alone; any other stores what its verdict on
      its own program asks for. */
  method Run(cfg: Config, sel: Selection.Selector, u: Unmodelled, h: Harness, db: Database,
             input: seq<byte>, fails: nat -> bool, ghost m: nat)
      returns (ok: bool, ghost t: Tree, ghost verdict: Verdict)
    requires sel.Valid() && sel.strats == Weights() + [Selection.FALLBACK]
    requires u.Bounded(m) && 363 <= m <= Generator.ROOM
    modifies db
    ensures |input| < 32 ==> ok && db.entries == old(db.entries)
    ensures !ok ==> db.entries == old(db.entries)
    ensures |input| >= 32 ==>
              && Made(u, input, 0, MAX_TOTAL, 0, t)
              && Generator.Grown(t, 0) && Size(t) <= MAX_TOTAL - 1 + m + 22 * MAX_RECURSION
              && (ok ==> db.entries == AfterRun(cfg, old(db.entries), Assemble(t.asm), verdict))
              && (ok && !Has(cfg, old(db.entries), Assemble(t.asm)) ==> VerdictIs(h, Assemble(t.asm), verdict))
              && (verdict.Minimal? ==> KeepsTrace(h, Assemble(t.asm), verdict.min) && Cut(h, Assemble(t.asm), verdict.min))
    ensures (forall i: nat :: !fails(i)) ==> ok
  {
    hide WriteAll;
    hide Assemble;
    hide Weights;
    hide VerdictIs;
    hide KeepsTrace;
    hide Cut;
    hide Size;
    hide Generator.Grown;
    hide Unmodelled.Bounded;
    hide Made;
    hide Selection.Selector.Valid;
    t, verdict := Node([], [], [], [], [], []), Unminimizable;
    if |input| < 32 {
      return true, t, verdict;
    }
    var f := new Filler(input);
    var full;
    full, t := Generator.GenerateProgram(sel, u, f, m);
    var have := db.Get(cfg.makeKey(full), fails(0));
    if have.Failed? {
      return false, t, verdict;
    }
    if have.Found? {
      return true, t, verdict;
    }
    var answer := Minimise(h, full);
    verdict := answer;
    ok := Store(cfg, db, full, answer, fails);
  }

  /** The rest of the run, for a full code that is not stored yet. */
  method Store(cfg: Config, db: Database, full: Blob, verdict: Verdict, fails: nat -> bool) returns (ok: bool)
    requires !Has(cfg, db.entries, full)
    modifies db
    ensures db.entries == if ok then AfterRun(cfg, old(db.entries), full, verdict) else old(db.entries)
    ensures (forall i: nat :: !fails(i)) ==> ok
  {
    hide WriteAll;
    match verdict {
      case TooLarge =>
        ok := db.SetBatch(cfg, [full], fails(1));
      case Unminimizable =>
        ok := true;
      case Minimal(min) =>
        var known := db.Get(cfg.makeKey(min), fails(1));
        if known.Failed? {
          return false;
        }
        if known.Found? {
          ok := db.SetBatch(cfg, [full], fails(2));
        } else {
          ok := db.SetBatch(cfg, [full, min], fails(2));
        }
    }
  }
}
