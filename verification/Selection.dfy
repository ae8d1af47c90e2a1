/** The weighted choice of a generation strategy. */
module Selection {
  import opened Bytes
  import opened Fill

  const FALLBACK_WEIGHT: int := 17
  const DRAWS: nat := 0x1_0000

  /** A strategy as the selector sees it: its importance, and whether it is the generator
      of valid opcodes, which has a weight of its own. */
  datatype Strategy = Strategy(importance: int, isFallback: bool)

  const FALLBACK := Strategy(10, true)

  function Weight(s: Strategy): (w: nat)
    ensures w >= 1
  {
    if s.isFallback then FALLBACK_WEIGHT else if s.importance < 1 then 1 else s.importance
  }

  /** The importance is the weight, but nothing weighs less than one, and the fallback 17. */
  lemma WeightExactly(s: Strategy)
    ensures !s.isFallback && s.importance >= 1 ==> Weight(s) == s.importance
    ensures !s.isFallback && s.importance < 1 ==> Weight(s) == 1
    ensures s.isFallback ==> Weight(s) == 17
  {
  }

  /** The summed weight of the first i strategies. */
  function Before(ss: seq<Strategy>, i: nat): (b: nat)
    requires i <= |ss|
    ensures b >= i
  {
    if i == 0 then 0 else Before(ss, i - 1) + Weight(ss[i - 1])
  }

  function Sum(ss: seq<Strategy>): nat
  {
    Before(ss, |ss|)
  }

  /** Strategy i is the one a two-byte draw u falls on. */
  predicate Hits(ss: seq<Strategy>, i: nat, u: nat)
    requires i < |ss| && Sum(ss) > 0
  {
    Before(ss, i) <= u % Sum(ss) < Before(ss, i + 1)
  }

  lemma {:induction false} BeforeGrows(ss: seq<Strategy>, i: nat, j: nat)
    requires i <= j <= |ss|
    ensures Before(ss, i) + (j - i) <= Before(ss, j)
    decreases j - i
  {
    if i == j {
    } else {
      BeforeGrows(ss, i, j - 1);
    }
  }

  /** sort.Search: a turning point of f, the first true value if f never turns back. */
  method Search(n: nat, f: nat -> bool) returns (i: nat)
    ensures i <= n
    ensures i < n ==> f(i)
    ensures i > 0 ==> !f(i - 1)
  {
    var j := n;
    i := 0;
    while i < j
      invariant i <= j <= n
      invariant j < n ==> f(j)
      invariant i > 0 ==> !f(i - 1)
    {
      var h := (i + j) / 2;
      if !f(h) {
        i := h + 1;
      } else {
        j := h;
      }
    }
  }

  class Selector {
    var strats: seq<Strategy>
    var cum: seq<nat>
    var total: nat

    ghost predicate Valid()
      reads this
    {
      && |cum| == |strats| > 0
      && (forall i :: 0 <= i < |cum| ==> cum[i] == Before(strats, i + 1))
      && total == Sum(strats) > 0
    }

    /** The total is positive, so the panic of newSelector cannot be reached. */
    constructor (ss: seq<Strategy>)
      ensures Valid() && strats == ss + [FALLBACK]
    {
      var all := ss + [FALLBACK];
      var c: seq<nat> := [];
      var t := 0;
      for i := 0 to |all|
        invariant |c| == i && t == Before(all, i)
        invariant forall j :: 0 <= j < i ==> c[j] == Before(all, j + 1)
      {
        t := t + Weight(all[i]);
        c := c + [t];
      }
      strats, cum, total := all, c, t;
    }

    /** Draws a strategy: never out of range, and the one whose share of the weights the
        draw, reduced modulo the total, falls into. */
    method Select(f: Filler) returns (s: Strategy, i: nat)
      requires Valid() && f.Valid()
      modifies f
      ensures Valid() && f.Valid() && f.total == old(f.total) + 2
      ensures i < |strats| && s == strats[i] && strats == old(strats)
      ensures Hits(strats, i, BigEndian(Cyclic(f.data, old(f.total), 2)))
    {
      var u := f.Uint16();
      var r := u % total;
      var c := cum;
      assert c[|c| - 1] == Sum(strats) > r;
      var at := Search(|c|, (k: nat) => k < |c| && c[k] > r);
      i := at;
      s := strats[at];
      if at > 0 {
        assert c[at - 1] == Before(strats, at);
      }
    }
  }

  /** Every draw falls on one strategy, and on no other. */
  lemma {:induction false} HitsOne(ss: seq<Strategy>, i: nat, j: nat, u: nat)
    requires i < |ss| && j < |ss| && Sum(ss) > 0
    requires Hits(ss, i, u) && Hits(ss, j, u)
    ensures i == j
  {
    if i < j {
      BeforeGrows(ss, i + 1, j);
    } else if j < i {
      BeforeGrows(ss, j + 1, i);
    }
  }

  // ---------------------------------------------------------------- fairness

  /** How many of the first n draws fall on strategy i. */
  function Share(ss: seq<Strategy>, i: nat, n: nat): nat
    requires i < |ss| && Sum(ss) > 0
  {
    if n == 0 then 0 else Share(ss, i, n - 1) + if Hits(ss, i, n - 1) then 1 else 0
  }

  /** How much of the interval from lo to hi lies below x. */
  function Below(lo: nat, hi: nat, x: nat): (b: nat)
    requires lo <= hi
    ensures b <= hi - lo
  {
    if x <= lo then 0 else if x >= hi then hi - lo else x - lo
  }

  /** How often t goes into n, and how often t is needed to cover n. */
  function Rounds(n: nat, t: nat): nat
    requires t > 0
  {
    n / t
  }

  function RoundsUp(n: nat, t: nat): nat
    requires t > 0
  {
    (n + t - 1) / t
  }

  lemma NextQuotient(n: nat, t: nat)
    requires t > 0
    ensures n % t + 1 < t ==> (n + 1) / t == n / t && (n + 1) % t == n % t + 1
    ensures n % t + 1 == t ==> (n + 1) / t == n / t + 1 && (n + 1) % t == 0
  {
    var q, r := n / t, n % t;
    assert n == t * q + r;
    if r + 1 < t {
      ModUnique(n + 1, t, q, r + 1);
    } else {
      assert n + 1 == t * (q + 1) + 0;
      ModUnique(n + 1, t, q + 1, 0);
    }
  }

  /** The share of a strategy is its weight in every full round and its part of the last. */
  lemma {:induction false} ShareExactly(ss: seq<Strategy>, i: nat, n: nat)
    requires i < |ss| && Sum(ss) > 0
    ensures var t, lo, hi := Sum(ss), Before(ss, i), Before(ss, i + 1);
            Share(ss, i, n) == Rounds(n, t) * Weight(ss[i]) + Below(lo, hi, n % t)
    decreases n
  {
    var t := Sum(ss);
    BeforeGrows(ss, i + 1, |ss|);
    if n > 0 {
      ShareExactly(ss, i, n - 1);
      NextQuotient(n - 1, t);
      if (n - 1) % t + 1 == t {
        assert ((n - 1) / t + 1) * Weight(ss[i]) == ((n - 1) / t) * Weight(ss[i]) + Weight(ss[i]);
      }
    } else {
      ModUnique(0, t, 0, 0);
    }
  }

  lemma RoundedUp(n: nat, t: nat)
    requires t > 0
    ensures RoundsUp(n, t) == if n % t == 0 then Rounds(n, t) else Rounds(n, t) + 1
  {
    var q, r := n / t, n % t;
    assert n == t * q + r;
    if r == 0 {
      ModUnique(n + t - 1, t, q, t - 1);
    } else {
      assert n + t - 1 == t * (q + 1) + (r - 1);
      ModUnique(n + t - 1, t, q + 1, r - 1);
    }
  }

  lemma RoundBounds(w: nat, down: nat, up: nat, rest: nat)
    requires rest <= w && (up == down + 1 || (up == down && rest == 0))
    ensures w * down <= down * w + rest <= w * up
  {
  }

  /** Of all 65536 draws a strategy of weight w gets between w times the rounded-down and w
      times the rounded-up number of rounds. */
  lemma SelectIsFair(ss: seq<Strategy>, i: nat)
    requires i < |ss| && Sum(ss) > 0
    ensures Weight(ss[i]) * Rounds(DRAWS, Sum(ss)) <= Share(ss, i, DRAWS)
    ensures Share(ss, i, DRAWS) <= Weight(ss[i]) * RoundsUp(DRAWS, Sum(ss))
  {
    var t, w := Sum(ss), Weight(ss[i]);
    ShareExactly(ss, i, DRAWS);
    RoundedUp(DRAWS, t);
    var rest := Below(Before(ss, i), Before(ss, i + 1), DRAWS % t);
    hide *;
    RoundBounds(w, Rounds(DRAWS, t), RoundsUp(DRAWS, t), rest);
  }

  /** A strategy can be chosen exactly if the weights before it sum to less than 65536;
      with a total of at most 65536 every one can. */
  lemma ReachableExactly(ss: seq<Strategy>, i: nat)
    requires i < |ss| && Sum(ss) > 0
    ensures (exists u: nat :: u < DRAWS && Hits(ss, i, u)) <==> Before(ss, i) < DRAWS
    ensures Sum(ss) <= DRAWS ==> exists u: nat :: u < DRAWS && Hits(ss, i, u)
  {
    BeforeGrows(ss, i + 1, |ss|);
    var b := Before(ss, i);
    if b < DRAWS {
      ModUnique(b, Sum(ss), 0, b);
      assert Hits(ss, i, b);
    }
    if u: nat :| u < DRAWS && Hits(ss, i, u) {
      Reduced(u, Sum(ss));
    }
  }
}
