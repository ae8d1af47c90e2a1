/** Program minimisation: the binary search over prefix lengths and the padding. */
module Minimizer {
  import opened Bytes
  import opened Evm
  import opened HashTracer
  import opened Prefix

  const MAX_TRACE_SIZE: nat := 32 * 1024 * 1024
  const TRACE_SIZE_MARGIN: nat := 1024
  const MIN_MINIMIZE_SIZE: nat := 256
  const PADDING: nat := 100
  /** Fewer bytes than this a trace line never has: at 32 MB no trace of MAX_TRACE_STEPS fits. */
  const SHORTEST_LINE: nat := 23

  type Address = nat

  /** The codes of all accounts. */
  type Accounts = map<Address, seq<byte>>

  /** Everything a run of the state test depends on besides the accounts' code: the host,
      what the instructions that can see code make of the codes of all accounts, the called
      account, the gas and world it starts with, how a step is written to the trace file,
      and whether the test can be filled at all. */
  datatype Harness = Harness(host: (byte, seq<Word>, nat, World) -> HostResult,
                             inspect: (byte, Accounts, seq<Word>, nat, World) -> HostResult,
                             to: Address, gas: nat, world: World,
                             render: Entry -> seq<byte>, fillable: bool)

  datatype Minimized = Done(code: seq<byte>) | ErrFill | ErrTraceTooLarge

  // ---------------------------------------------------------------- the capped buffer

  class CappedBuffer {
    var buf: seq<byte>
    var overflow: bool

    constructor ()
      ensures Took([])
    {
      buf, overflow := [], false;
    }

    /** The state after `all` has been written, in whatever pieces. */
    ghost predicate Took(all: seq<byte>)
      reads this
    {
      && overflow == (|all| > MAX_TRACE_SIZE - TRACE_SIZE_MARGIN)
      && |buf| <= MAX_TRACE_SIZE - TRACE_SIZE_MARGIN
      && buf <= all
      && (!overflow ==> buf == all)
    }

    method Write(p: seq<byte>, ghost all: seq<byte>) returns (n: nat)
      requires Took(all)
      modifies this
      ensures Took(all + p) && n == |p|
    {
      if overflow || |buf| + |p| > MAX_TRACE_SIZE - TRACE_SIZE_MARGIN {
        overflow := true;
        return |p|;
      }
      buf := buf + p;
      return |p|;
    }
  }

  // ---------------------------------------------------------------- the state test

  function CodeOf(pre: Accounts, a: Address): seq<byte>
  {
    if a in pre then pre[a] else []
  }

  /** The machine of a state test: calls and copies can see every account. */
  function MachineOf(h: Harness, pre: Accounts): Machine
  {
    Machine(h.host, (op: byte, code: seq<byte>, operands: seq<Word>, gas: nat, world: World) => h.inspect(op, pre, operands, gas, world))
  }

  function StartOf(h: Harness): State
  {
    State(0, h.gas, [], h.world)
  }

  /** The trace of the state test with the given account codes. */
  function TraceOf(h: Harness, pre: Accounts): seq<Entry>
  {
    Trace(MachineOf(h, pre), CodeOf(pre, h.to), StartOf(h))
  }

  function PrefixTrace(h: Harness, pre: Accounts, a: Address, code: seq<byte>, n: nat): seq<Entry>
    requires n <= |code|
  {
    TraceOf(h, pre[a := code[..n]])
  }

  function Rendered(h: Harness, t: seq<Entry>): seq<byte>
  {
    if t == [] then [] else Rendered(h, t[..|t| - 1]) + h.render(t[|t| - 1])
  }

  /** The sum the tracer ends with: only the steps under the cap are folded. */
  function TraceSum(t: seq<Entry>): bv64
  {
    FoldAll(OFFSET, AllWords(if |t| <= MAX_TRACE_STEPS then t else t[..MAX_TRACE_STEPS]))
  }

  /** The test passed to the binary search. */
  predicate Accepts(h: Harness, pre: Accounts, a: Address, code: seq<byte>, n: nat)
    requires n <= |code|
  {
    var t := PrefixTrace(h, pre, a, code, n);
    |t| <= MAX_TRACE_STEPS && TraceSum(t) == TraceSum(PrefixTrace(h, pre, a, code, |code|))
  }

  function Padded(found: nat, length: nat): (n: nat)
    ensures found <= length ==> found <= n <= length
  {
    if found + PADDING < length then found + PADDING else found
  }

  /** What a binary search guarantees of its answer, whatever it is given. */
  predicate Searched(h: Harness, pre: Accounts, a: Address, code: seq<byte>, found: nat)
  {
    && found <= |code|
    && (found < |code| ==> Accepts(h, pre, a, code, found))
    && (found > 0 ==> !Accepts(h, pre, a, code, found - 1))
  }

  /** Where the binary search between i and j ends. */
  function SearchFrom(h: Harness, pre: Accounts, a: Address, code: seq<byte>, i: nat, j: nat): (r: nat)
    requires i <= j <= |code|
    ensures i <= r <= j
    decreases j - i
  {
    var mid := (i + j) / 2;
    if i == j then i
    else if Accepts(h, pre, a, code, mid) then SearchFrom(h, pre, a, code, i, mid)
    else SearchFrom(h, pre, a, code, mid + 1, j)
  }

  /** The n-byte prefix has not got the original sum by a collision. */
  ghost predicate NoCollision(h: Harness, pre: Accounts, a: Address, code: seq<byte>, n: nat)
  {
    n <= |code| && Accepts(h, pre, a, code, n) ==>
      PrefixTrace(h, pre, a, code, n) == PrefixTrace(h, pre, a, code, |code|)
  }

  /** To the instructions of the original run that can see code, the test with the k-byte
      prefix in place looks like the original. */
  ghost predicate LooksWhole(h: Harness, pre: Accounts, a: Address, code: seq<byte>, k: nat)
    requires k <= |code|
  {
    var p, q := pre[a := code[..k]], pre[a := code[..|code|]];
    SeenAlike(MachineOf(h, p), CodeOf(p, h.to), MachineOf(h, q), CodeOf(q, h.to), StartOf(h))
  }

  /** So do all prefixes not shorter than one that has the original trace. */
  ghost predicate Unread(h: Harness, pre: Accounts, a: Address, code: seq<byte>)
  {
    forall n, k :: 0 <= n <= k <= |code|
                   && PrefixTrace(h, pre, a, code, n) == PrefixTrace(h, pre, a, code, |code|)
      ==> LooksWhole(h, pre, a, code, k)
  }

  ghost predicate LongLines(h: Harness)
  {
    forall e :: |h.render(e)| >= SHORTEST_LINE
  }

  /** n is the least length whose prefix has the trace of the whole code. */
  ghost predicate LeastFaithful(h: Harness, pre: Accounts, a: Address, code: seq<byte>, n: nat)
  {
    && n <= |code|
    && PrefixTrace(h, pre, a, code, n) == PrefixTrace(h, pre, a, code, |code|)
    && forall k :: 0 <= k < n ==> PrefixTrace(h, pre, a, code, k) != PrefixTrace(h, pre, a, code, |code|)
  }

  // ---------------------------------------------------------------- lemmas

  lemma {:induction false} RenderedLength(h: Harness, t: seq<Entry>)
    requires LongLines(h)
    ensures |Rendered(h, t)| >= SHORTEST_LINE * |t|
  {
    if t == [] {
    } else {
      RenderedLength(h, t[..|t| - 1]);
      assert |h.render(t[|t| - 1])| >= SHORTEST_LINE;
    }
  }

  lemma {:induction false} RenderedGrows(h: Harness, t: seq<Entry>, i: nat)
    requires i <= |t|
    ensures |Rendered(h, t[..i])| <= |Rendered(h, t)|
    decreases |t|
  {
    if i < |t| {
      var front := t[..|t| - 1];
      RenderedGrows(h, front, i);
      assert front[..i] == t[..i];
    } else {
      assert t[..i] == t;
    }
  }

  /** A run whose trace the buffer could hold stays under the step cap, so the overflow
      flag of the reference run, which the code discards, is never set. */
  lemma FillBoundsSteps(h: Harness, t: seq<Entry>)
    requires LongLines(h) && |Rendered(h, t)| <= MAX_TRACE_SIZE - TRACE_SIZE_MARGIN
    ensures |t| <= MAX_TRACE_STEPS
  {
    RenderedLength(h, t);
  }

  /** Having the original trace is monotone in the prefix length, over the lengths at which
      the code looks whole, whichever account is cut. */
  lemma FaithfulUpwards(h: Harness, pre: Accounts, a: Address, code: seq<byte>, n: nat, k: nat)
    requires n <= k <= |code| && LooksWhole(h, pre, a, code, k)
    requires PrefixTrace(h, pre, a, code, n) == PrefixTrace(h, pre, a, code, |code|)
    ensures PrefixTrace(h, pre, a, code, k) == PrefixTrace(h, pre, a, code, |code|)
  {
    hide Trace;
    hide SeenAlike;
    var pn, pk, p := pre[a := code[..n]], pre[a := code[..k]], pre[a := code[..|code|]];
    var st := StartOf(h);
    assert code[..|code|] == code;
    if a == h.to {
      TraceBetween(MachineOf(h, pn), MachineOf(h, pk), MachineOf(h, p), code, n, k, st, st);
    } else {
      var c := CodeOf(pre, h.to);
      assert c[..|c|] == c;
      TraceBetween(MachineOf(h, pn), MachineOf(h, pk), MachineOf(h, p), c, |c|, |c|, st, st);
    }
  }

  /** A run that never looks at code reads nothing. */
  lemma UninspectedIsUnread(h: Harness, pre: Accounts, a: Address, code: seq<byte>)
    requires !Looks(PrefixTrace(h, pre, a, code, |code|))
    ensures Unread(h, pre, a, code)
  {
    hide Trace;
    hide SeenAlike;
    hide Looks;
    forall k | 0 <= k <= |code|
      ensures LooksWhole(h, pre, a, code, k)
    {
      var p, q := pre[a := code[..k]], pre[a := code[..|code|]];
      NothingSeen(MachineOf(h, p), CodeOf(p, h.to), MachineOf(h, q), CodeOf(q, h.to), StartOf(h));
    }
  }

  /** The harnesses differ in nothing but what is seen of the codes p. */
  ghost predicate AgreeOff(h': Harness, h: Harness, p: Accounts)
  {
    && h' == h.(inspect := h'.inspect)
    && forall op, q, operands, gas, w :: q != p ==> h'.inspect(op, q, operands, gas, w) == h.inspect(op, q, operands, gas, w)
  }

  /** The harness that stops where the codes p are looked at. */
  function StopAt(h: Harness, p: Accounts, q: Accounts): Harness
  {
    h.(inspect := (op: byte, r: Accounts, operands: seq<Word>, gas: nat, w: World) =>
         if r == p then HostStop(h.inspect(op, q, operands, gas, w).Price() + 1) else h.inspect(op, r, operands, gas, w))
  }

  /** Exactly when the k-byte prefix is sure to have the trace which a shorter one has: if
      and only if the original run, whichever account is cut, never looks at code. */
  lemma FaithfulExactly(h: Harness, pre: Accounts, a: Address, code: seq<byte>, n: nat, k: nat)
    requires n <= k < |code|
    requires PrefixTrace(h, pre, a, code, n) == PrefixTrace(h, pre, a, code, |code|)
    ensures (forall h': Harness | AgreeOff(h', h, pre[a := code[..k]]) ::
               PrefixTrace(h', pre, a, code, k) == PrefixTrace(h, pre, a, code, |code|))
            <==> !Looks(PrefixTrace(h, pre, a, code, |code|))
  {
    hide PrefixTrace;
    hide Looks;
    if !Looks(PrefixTrace(h, pre, a, code, |code|)) {
      forall h': Harness | AgreeOff(h', h, pre[a := code[..k]])
        ensures PrefixTrace(h', pre, a, code, k) == PrefixTrace(h, pre, a, code, |code|)
      {
        FaithfulAnyway(h, h', pre, a, code, n, k);
      }
    } else {
      var p, q := pre[a := code[..k]], pre[a := code[..|code|]];
      var h' := StopAt(h, p, q);
      assert AgreeOff(h', h, p);
      StopIsNoticed(h, pre, a, code, k);
    }
  }

  lemma FaithfulAnyway(h: Harness, h': Harness, pre: Accounts, a: Address, code: seq<byte>, n: nat, k: nat)
    requires n <= k <= |code| && AgreeOff(h', h, pre[a := code[..k]])
    requires PrefixTrace(h, pre, a, code, n) == PrefixTrace(h, pre, a, code, |code|)
    requires !Looks(PrefixTrace(h, pre, a, code, |code|))
    ensures PrefixTrace(h', pre, a, code, k) == PrefixTrace(h, pre, a, code, |code|)
  {
    hide Trace;
    hide SeenAlike;
    hide Looks;
    var pn, pk, p := pre[a := code[..n]], pre[a := code[..k]], pre[a := code[..|code|]];
    var mn, mk, m, st := MachineOf(h, pn), MachineOf(h', pk), MachineOf(h, p), StartOf(h);
    assert code[..|code|] == code;
    NothingSeen(mk, CodeOf(pk, h.to), m, CodeOf(p, h.to), st);
    if a == h.to {
      TraceBetween(mn, mk, m, code, n, k, st, st);
    } else {
      var c := CodeOf(pre, h.to);
      assert c[..|c|] == c;
      TraceBetween(mn, mk, m, c, |c|, |c|, st, st);
    }
  }

  lemma StopIsNoticed(h: Harness, pre: Accounts, a: Address, code: seq<byte>, k: nat)
    requires k < |code| && Looks(PrefixTrace(h, pre, a, code, |code|))
    ensures var h' := StopAt(h, pre[a := code[..k]], pre[a := code[..|code|]]);
            PrefixTrace(h', pre, a, code, k) != PrefixTrace(h, pre, a, code, |code|)
  {
    hide Trace;
    hide Looks;
    var p, q := pre[a := code[..k]], pre[a := code[..|code|]];
    var h' := StopAt(h, p, q);
    var a', m, st := MachineOf(h', p), MachineOf(h, q), StartOf(h);
    assert code[..|code|] == code;
    if PrefixTrace(h', pre, a, code, k) == PrefixTrace(h, pre, a, code, |code|) {
      if a == h.to {
        LookingIsNoticed(a', m, code, k, st);
      } else {
        var c := CodeOf(pre, h.to);
        assert c[..|c|] == c;
        LookingIsNoticed(a', m, c, |c|, st);
      }
    }
  }

  /** The padding of fuzzer.go is sure to keep the trace if and only if the reference run
      never looks at code; that run is made in any case. */
  lemma PaddingIsSafeExactly(h: Harness, before: Accounts, a: Address, c: seq<byte>, found: nat, k: nat)
    requires Searched(h, before, a, c, found) && NoCollision(h, before, a, c, found)
    requires |TraceOf(h, before)| <= MAX_TRACE_STEPS && CodeOf(before, a) == c && k == Padded(found, |c|) < |c|
    ensures (forall h': Harness | AgreeOff(h', h, before[a := c[..k]]) ::
               PrefixTrace(h', before, a, c, k) == TraceOf(h, before))
            <==> !Looks(TraceOf(h, before))
  {
    hide TraceOf;
    hide TraceSum;
    hide Looks;
    hide AgreeOff;
    assert c[..|c|] == c && before[a := c] == before;
    FaithfulExactly(h, before, a, c, found, k);
  }

  /** A probe over the step cap is turned down, whatever its sum. */
  lemma LongProbeRejected(h: Harness, pre: Accounts, a: Address, code: seq<byte>, n: nat)
    requires n <= |code| && |PrefixTrace(h, pre, a, code, n)| > MAX_TRACE_STEPS
    ensures !Accepts(h, pre, a, code, n)
  {
    hide PrefixTrace;
    hide TraceSum;
  }

  /** The trace of a test starts with the first byte of the called account's code, the whole
      gas and an empty stack. */
  lemma TraceStarts(h: Harness, pre: Accounts)
    ensures var e := TraceOf(h, pre)[0];
            e.pc == 0 && e.gas == h.gas && e.stack == []
            && e.op == (if h.to in pre && pre[h.to] != [] then pre[h.to][0] else STOP)
  {
    hide Cost;
  }

  /** Lines are written one after the other. */
  lemma {:induction false} RenderedJoin(h: Harness, t: seq<Entry>, u: seq<Entry>)
    ensures Rendered(h, t + u) == Rendered(h, t) + Rendered(h, u)
    ensures |t| == 1 ==> Rendered(h, t) == h.render(t[0])
    decreases |u|
  {
    assert |t| == 1 ==> t[..0] == [];
    if u == [] {
      assert t + u == t;
    } else {
      var n := |u| - 1;
      assert (t + u)[..|t + u| - 1] == t + u[..n];
      RenderedJoin(h, t, u[..n]);
    }
  }

  lemma FaithfulIsAccepted(h: Harness, pre: Accounts, a: Address, code: seq<byte>, n: nat)
    requires n <= |code|
    requires PrefixTrace(h, pre, a, code, n) == PrefixTrace(h, pre, a, code, |code|)
    requires |PrefixTrace(h, pre, a, code, |code|)| <= MAX_TRACE_STEPS
    ensures Accepts(h, pre, a, code, n)
  {
  }

  /** The length the search ends at is the least faithful one, and the padded prefix,
      which is never run, is faithful too. */
  lemma SearchIsExact(h: Harness, pre: Accounts, a: Address, code: seq<byte>, found: nat)
    requires Searched(h, pre, a, code, found) && NoCollision(h, pre, a, code, found)
    requires Unread(h, pre, a, code) && |PrefixTrace(h, pre, a, code, |code|)| <= MAX_TRACE_STEPS
    ensures LeastFaithful(h, pre, a, code, found)
    ensures PrefixTrace(h, pre, a, code, Padded(found, |code|)) == PrefixTrace(h, pre, a, code, |code|)
  {
    hide PrefixTrace;
    hide TraceSum;
    hide LooksWhole;
    var full := PrefixTrace(h, pre, a, code, |code|);
    assert PrefixTrace(h, pre, a, code, found) == full;
    FaithfulUpwards(h, pre, a, code, found, Padded(found, |code|));
    if found > 0 {
      RejectedIsUnfaithful(h, pre, a, code, found - 1);
    }
    forall k | 0 <= k < found
      ensures PrefixTrace(h, pre, a, code, k) != full
    {
      if PrefixTrace(h, pre, a, code, k) == full {
        FaithfulUpwards(h, pre, a, code, k, found - 1);
      }
    }
  }

  lemma RejectedIsUnfaithful(h: Harness, pre: Accounts, a: Address, code: seq<byte>, n: nat)
    requires n <= |code| && !Accepts(h, pre, a, code, n)
    requires |PrefixTrace(h, pre, a, code, |code|)| <= MAX_TRACE_STEPS
    ensures PrefixTrace(h, pre, a, code, n) != PrefixTrace(h, pre, a, code, |code|)
  {
    hide PrefixTrace;
    hide TraceSum;
  }

  /** What a tracer that has seen a whole trace holds. */
  lemma SawSum(tracer: Tracer, t: seq<Entry>)
    requires tracer.Saw(t)
    ensures tracer.sum == TraceSum(t) && tracer.overflow == (|t| > MAX_TRACE_STEPS)
  {
    hide FoldAll;
    hide AllWords;
  }

  /** The result r of a search on c that ended at found: a hundred bytes more, if so many
      and one are left, and else nothing more. */
  predicate CutAt(c: seq<byte>, r: seq<byte>, found: nat)
  {
    && found <= |c| && r <= c
    && (found + 100 < |c| ==> |r| == found + 100)
    && (found + 100 >= |c| ==> |r| == found)
  }

  /** What the procedure promises of its result r for the account a with the code c. A
      result without padding is itself the least faithful prefix. */
  ghost predicate Minimised(h: Harness, before: Accounts, after: Accounts, a: Address, c: seq<byte>,
                            r: seq<byte>, found: nat)
  {
    && Searched(h, before, a, c, found) && found == SearchFrom(h, before, a, c, 0, |c|)
    && CutAt(c, r, found) && after == before[a := r]
    && (LongLines(h) && Unread(h, before, a, c) && NoCollision(h, before, a, c, found) ==>
          && LeastFaithful(h, before, a, c, found) && TraceOf(h, after) == TraceOf(h, before)
          && (found + 100 >= |c| ==> LeastFaithful(h, before, a, c, |r|)))
  }

  lemma MinimisedMeans(h: Harness, before: Accounts, after: Accounts, a: Address, c: seq<byte>, r: seq<byte>, found: nat)
    requires Minimised(h, before, after, a, c, r, found)
    ensures found == SearchFrom(h, before, a, c, 0, |c|) <= |c|
    ensures CutAt(c, r, found) && r == c[..|r|] && after == before[a := r]
    ensures |r| == Padded(found, |c|)
    ensures TraceOf(h, after) == PrefixTrace(h, before, a, c, Padded(found, |c|))
  {
    hide SearchFrom;
    hide Accepts;
    hide LongLines;
    hide Unread;
    hide NoCollision;
    hide LeastFaithful;
    hide TraceOf;
  }

  lemma SearchTurn(h: Harness, pre: Accounts, a: Address, code: seq<byte>, i: nat, j: nat)
    requires i <= j <= |code|
    ensures SearchFrom(h, pre, a, code, i, j) ==
              var mid := (i + j) / 2;
              if i == j then i
              else if Accepts(h, pre, a, code, mid) then SearchFrom(h, pre, a, code, i, mid)
              else SearchFrom(h, pre, a, code, mid + 1, j)
  {
    hide Accepts;
  }

  lemma SearchMinimises(h: Harness, before: Accounts, a: Address, c: seq<byte>, found: nat)
    requires Searched(h, before, a, c, found) && found == SearchFrom(h, before, a, c, 0, |c|)
    requires CodeOf(before, a) == c && c != []
    requires |Rendered(h, TraceOf(h, before))| <= MAX_TRACE_SIZE - TRACE_SIZE_MARGIN
    ensures var r := c[..Padded(found, |c|)]; Minimised(h, before, before[a := r], a, c, r, found)
  {
    hide TraceOf;
    hide Searched;
    hide SearchFrom;
    hide Unread;
    hide NoCollision;
    hide LeastFaithful;
    hide Rendered;
    SearchIn(h, before, a, c, found);
    assert c[..|c|] == c && before[a := c] == before;
    if LongLines(h) && Unread(h, before, a, c) && NoCollision(h, before, a, c, found) {
      FillBoundsSteps(h, TraceOf(h, before));
      SearchIsExact(h, before, a, c, found);
    }
  }

  // ---------------------------------------------------------------- the procedure

  class GstMaker {
    var pre: Accounts

    constructor (pre: Accounts)
      ensures this.pre == pre
    {
      this.pre := pre;
    }

    method SetCode(a: Address, code: seq<byte>)
      modifies this
      ensures pre == old(pre)[a := code]
    {
      pre := pre[a := code];
    }

    /** Runs the test and writes its trace, one line a step, giving up quietly once
        MAX_TRACE_SIZE bytes have been written. */
    method Fill(h: Harness, out: CappedBuffer)
      requires out.Took([]) && out as object != this
      modifies out
      ensures out.overflow == (|Rendered(h, TraceOf(h, pre))| > MAX_TRACE_SIZE - TRACE_SIZE_MARGIN)
      ensures !out.overflow ==> out.buf == Rendered(h, TraceOf(h, pre))
    {
      hide TraceOf;
      var t := TraceOf(h, pre);
      var i, total := 0, 0;
      assert t[..0] == [];
      while i < |t| && total < MAX_TRACE_SIZE
        invariant 0 <= i <= |t|
        invariant out.Took(Rendered(h, t[..i])) && total == |Rendered(h, t[..i])|
      {
        assert t[..i + 1][..i] == t[..i];
        var n := out.Write(h.render(t[i]), Rendered(h, t[..i]));
        i, total := i + 1, total + n;
      }
      RenderedGrows(h, t, i);
      assert i == |t| ==> t[..i] == t;
    }

    /** The account with the longest code; the first one met wins a tie, and the order in
        which the accounts are met is not fixed. */
    method LongestCode() returns (a: Address, code: seq<byte>)
      ensures code != [] ==> a in pre
      ensures code == CodeOf(pre, a)
      ensures forall b :: b in pre ==> |pre[b]| <= |code|
    {
      a, code := 0, [];
      var todo := pre.Keys;
      while todo != {}
        invariant todo <= pre.Keys
        invariant code != [] ==> a in pre && pre[a] == code
        invariant forall b :: b in pre && b !in todo ==> |pre[b]| <= |code|
        decreases |todo|
      {
        var b :| b in todo;
        if |pre[b]| > |code| {
          a, code := b, pre[b];
        }
        todo := todo - {b};
      }
      if code == [] && a in pre {
        assert |pre[a]| <= |code|;
      }
    }

    /** One probe: installs the n-byte prefix, runs it under the hash tracer, and leaves
        the prefix installed. */
    method TraceHash(h: Harness, a: Address, code: seq<byte>, n: nat) returns (sum: bv64, ok: bool)
      requires n <= |code|
      modifies this
      ensures pre == old(pre)[a := code[..n]]
      ensures ok == (|PrefixTrace(h, old(pre), a, code, n)| <= MAX_TRACE_STEPS)
      ensures sum == TraceSum(PrefixTrace(h, old(pre), a, code, n))
    {
      hide TraceOf;
      hide TraceSum;
      hide Tracer.Saw;
      pre := pre[a := code[..n]];
      var t := TraceOf(h, pre);
      var tracer := new Tracer();
      assert t[..0] == [];
      SawNothing(tracer);
      for i := 0 to |t|
        invariant tracer.Saw(t[..i])
        invariant pre == old(pre)[a := code[..n]]
      {
        assert t[..i] + [t[i]] == t[..i + 1];
        tracer.OnOpcode(t[i], t[..i]);
      }
      assert t[..|t|] == t;
      SawSum(tracer, t);
      return tracer.sum, !tracer.overflow;
    }

    /** sort.Search over the prefix lengths; the last prefix probed stays installed. */
    method SearchPrefix(h: Harness, a: Address, code: seq<byte>, orgHash: bv64) returns (found: nat)
      requires orgHash == TraceSum(PrefixTrace(h, pre, a, code, |code|))
      modifies this
      ensures Searched(h, old(pre), a, code, found)
      ensures found == SearchFrom(h, old(pre), a, code, 0, |code|)
      ensures SameButFor(pre, old(pre), a)
    {
      hide TraceOf;
      hide TraceSum;
      hide PrefixTrace;
      hide Accepts;
      hide SearchFrom;
      hide SameButFor;
      SearchStarts(pre, a);
      ghost var before := pre;
      var i, j := 0, |code|;
      while i < j
        invariant 0 <= i <= j <= |code|
        invariant SameButFor(pre, before, a)
        invariant SearchFrom(h, before, a, code, i, j) == SearchFrom(h, before, a, code, 0, |code|)
        invariant j < |code| ==> Accepts(h, before, a, code, j)
        invariant i > 0 ==> !Accepts(h, before, a, code, i - 1)
      {
        var mid := (i + j) / 2;
        SamePrefix(h, pre, before, a, code, mid);
        SearchTurn(h, before, a, code, i, j);
        ghost var was := pre;
        var sum, ok := TraceHash(h, a, code, mid);
        ProbeDecides(h, before, a, code, mid, sum, ok);
        StillSame(was, pre, before, a, code[..mid]);
        if ok && sum == orgHash {
          j := mid;
        } else {
          i := mid + 1;
        }
      }
      SearchTurn(h, before, a, code, i, i);
      return i;
    }

    method MinimizeProgram(h: Harness) returns (r: Minimized, ghost a: Address, ghost found: nat)
      modifies this
      // Which error, exactly when; an error leaves the test as it was.
      ensures r.ErrFill? == !h.fillable
      ensures r.ErrTraceTooLarge? ==
                (h.fillable && |Rendered(h, TraceOf(h, old(pre)))| > MAX_TRACE_SIZE - TRACE_SIZE_MARGIN)
      ensures !r.Done? ==> pre == old(pre)
      // The longest code is the one cut, unless it is short.
      ensures r.Done? ==> forall b :: b in old(pre) ==> |old(pre)[b]| <= |CodeOf(old(pre), a)|
      ensures r.Done? && |CodeOf(old(pre), a)| < MIN_MINIMIZE_SIZE ==>
                pre == old(pre) && r.code == CodeOf(pre, a)
      // Otherwise the result still has the original trace, and found is the least length
      // that has it.
      ensures r.Done? && |CodeOf(old(pre), a)| >= MIN_MINIMIZE_SIZE ==>
                Minimised(h, old(pre), pre, a, CodeOf(old(pre), a), r.code, found)
    {
      hide TraceOf;
      hide TraceSum;
      hide Rendered;
      hide Minimised;
      hide Searched;
      a, found := 0, 0;
      var original := new CappedBuffer();
      if !h.fillable {
        return ErrFill, a, found;
      }
      Fill(h, original);
      if original.overflow {
        return ErrTraceTooLarge, a, found;
      }
      var addr, code := LongestCode();
      a := addr;
      if |code| < MIN_MINIMIZE_SIZE {
        return Done(code), a, found;
      }
      ghost var before := pre;
      assert code[..|code|] == code && before[addr := code] == before;
      var orgHash, _ := TraceHash(h, addr, code, |code|);
      var foundLength := SearchPrefix(h, addr, code, orgHash);
      found := foundLength;
      SearchIn(h, before, addr, code, found);
      if foundLength + PADDING < |code| {
        foundLength := foundLength + PADDING;
      }
      Overwritten(pre, before, addr, code[..foundLength]);
      SetCode(addr, code[..foundLength]);
      SearchMinimises(h, before, addr, code, found);
      return Done(code[..foundLength]), a, found;
    }
  }

  /** The same codes, up to that of account a. */
  predicate SameButFor(pre: Accounts, before: Accounts, a: Address)
  {
    pre[a := []] == before[a := []]
  }

  lemma Overwritten(pre: Accounts, before: Accounts, a: Address, code: seq<byte>)
    requires SameButFor(pre, before, a)
    ensures pre[a := code] == before[a := code]
  {
    assert pre[a := []][a := code] == pre[a := code];
    assert before[a := []][a := code] == before[a := code];
  }

  lemma SearchStarts(pre: Accounts, a: Address)
    ensures SameButFor(pre, pre, a)
  {
  }

  lemma StillSame(was: Accounts, pre: Accounts, before: Accounts, a: Address, x: seq<byte>)
    requires SameButFor(was, before, a) && pre == was[a := x]
    ensures SameButFor(pre, before, a)
  {
    assert pre[a := []] == was[a := []];
  }

  /** What a probe finds out is what the search goes by. */
  lemma ProbeDecides(h: Harness, pre: Accounts, a: Address, code: seq<byte>, n: nat, sum: bv64, ok: bool)
    requires n <= |code| && sum == TraceSum(PrefixTrace(h, pre, a, code, n))
    requires ok == (|PrefixTrace(h, pre, a, code, n)| <= MAX_TRACE_STEPS)
    ensures Accepts(h, pre, a, code, n) <==> ok && sum == TraceSum(PrefixTrace(h, pre, a, code, |code|))
  {
    hide PrefixTrace;
    hide TraceSum;
  }

  lemma SawNothing(tracer: Tracer)
    requires tracer.sum == OFFSET && tracer.steps == 0 && !tracer.overflow
    ensures tracer.Saw([])
  {
  }

  lemma SearchIn(h: Harness, pre: Accounts, a: Address, code: seq<byte>, found: nat)
    requires Searched(h, pre, a, code, found)
    ensures found <= |code|
  {
    hide Accepts;
  }

  /** The prefix a probe installs hides the one installed before. */
  lemma SamePrefix(h: Harness, pre: Accounts, before: Accounts, a: Address, code: seq<byte>, n: nat)
    requires n <= |code| && SameButFor(pre, before, a)
    ensures PrefixTrace(h, pre, a, code, n) == PrefixTrace(h, before, a, code, n)
    ensures pre[a := code[..n]] == before[a := code[..n]]
  {
    hide TraceOf;
    Overwritten(pre, before, a, code[..n]);
  }
}
