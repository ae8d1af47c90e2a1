/**
 Inputs of the pairing precompiles, in exponent form: a point of either group is the
 multiple of the generator it is, so that a product of pairings is the identity exactly if
 the products of the paired exponents sum to zero.
 */
module Pairing {
  import opened Bytes
  import opened Fill

  /** The exponent of the product of all pairings. */
  function Product(a: seq<int>, b: seq<int>): int
    requires |a| == |b|
  {
    if a == [] then 0 else Product(a[..|a| - 1], b[..|b| - 1]) + a[|a| - 1] * b[|b| - 1]
  }

  /** ys is xs with pairs put in that contribute nothing. */
  predicate Bloated(a: seq<int>, b: seq<int>, a': seq<int>, b': seq<int>)
    requires |a| == |b| && |a'| == |b'|
    decreases |a'|
  {
    if a' == [] then a == []
    else
      || (a != [] && a'[0] == a[0] && b'[0] == b[0] && Bloated(a[1..], b[1..], a'[1..], b'[1..]))
      || ((a'[0] == 0 || b'[0] == 0) && Bloated(a, b, a'[1..], b'[1..]))
  }

  lemma FrontOfTail(s: seq<int>)
    requires |s| > 1
    ensures s[..|s| - 1][1..] == s[1..][..|s| - 2]
  {
  }

  lemma {:induction false} ProductFront(a: seq<int>, b: seq<int>)
    requires |a| == |b| > 0
    ensures Product(a, b) == a[0] * b[0] + Product(a[1..], b[1..])
  {
    var n := |a| - 1;
    if n == 0 {
    } else {
      ProductFront(a[..n], b[..n]);
      FrontOfTail(a);
      FrontOfTail(b);
    }
  }

  /** Bloating keeps the product: what was valid stays valid. */
  lemma {:induction false} BloatedProduct(a: seq<int>, b: seq<int>, a': seq<int>, b': seq<int>)
    requires |a| == |b| && |a'| == |b'| && Bloated(a, b, a', b')
    ensures Product(a', b') == Product(a, b) && |a| <= |a'|
    decreases |a'|
  {
    if a' == [] {
    } else {
      ProductFront(a', b');
      if a != [] && a'[0] == a[0] && b'[0] == b[0] && Bloated(a[1..], b[1..], a'[1..], b'[1..]) {
        ProductFront(a, b);
        BloatedProduct(a[1..], b[1..], a'[1..], b'[1..]);
      } else {
        BloatedProduct(a, b, a'[1..], b'[1..]);
      }
    }
  }

  lemma {:induction false} BloatedSelf(a: seq<int>, b: seq<int>)
    requires |a| == |b|
    ensures Bloated(a, b, a, b)
  {
    if a == [] {
    } else {
      BloatedSelf(a[1..], b[1..]);
    }
  }

  /** s with x put in at position k. */
  function Insert(s: seq<int>, k: nat, x: int): (r: seq<int>)
    requires k <= |s|
    ensures |r| == |s| + 1
  {
    s[..k] + [x] + s[k..]
  }

  lemma {:induction false} BloatedInsert(a: seq<int>, b: seq<int>, a': seq<int>, b': seq<int>, k: nat, x: int, y: int)
    requires |a| == |b| && |a'| == |b'| && Bloated(a, b, a', b')
    requires k <= |a'| && (x == 0 || y == 0)
    ensures Bloated(a, b, Insert(a', k, x), Insert(b', k, y))
    decreases |a'|
  {
    var c, d := Insert(a', k, x), Insert(b', k, y);
    if k == 0 {
      assert c[1..] == a' && d[1..] == b';
    } else {
      assert c[1..] == Insert(a'[1..], k - 1, x) && d[1..] == Insert(b'[1..], k - 1, y);
      if a != [] && a'[0] == a[0] && b'[0] == b[0] && Bloated(a[1..], b[1..], a'[1..], b'[1..]) {
        BloatedInsert(a[1..], b[1..], a'[1..], b'[1..], k - 1, x, y);
      } else {
        BloatedInsert(a, b, a'[1..], b'[1..], k - 1, x, y);
      }
    }
  }

  /** The scalar drawn as the j-th of a sequence of four-byte numbers. */
  function Scalar(data: seq<byte>, from: nat, j: nat): nat
    requires |data| > 0
  {
    BigEndian(Cyclic(data, from + 4 * j, 4))
  }

  /** The pairs drawn so far: the scalars alternate between the two lists. */
  predicate Drawn(data: seq<byte>, from: nat, a: seq<int>, b: seq<int>, n: nat)
    requires |data| > 0 && n <= |a| == |b|
  {
    forall i :: 0 <= i < n ==> a[i] == Scalar(data, from, 2 * i) && b[i] == Scalar(data, from, 2 * i + 1)
  }

  lemma AppendPair(a: seq<int>, b: seq<int>, x: int, y: int)
    requires |a| == |b|
    ensures Product(a + [x], b + [y]) == Product(a, b) + x * y
  {
    assert (a + [x])[..|a|] == a && (b + [y])[..|b|] == b;
  }

  lemma DrawnPair(data: seq<byte>, from: nat, a: seq<int>, b: seq<int>, x: int, y: int)
    requires |data| > 0 && |a| == |b| && Drawn(data, from, a, b, |a|)
    requires x == BigEndian(Cyclic(data, from + 8 * |a|, 4)) && y == BigEndian(Cyclic(data, from + 8 * |a| + 4, 4))
    ensures Drawn(data, from, a + [x], b + [y], |a| + 1)
  {
    hide BigEndian;
    hide Cyclic;
    assert from + 4 * (2 * |a|) == from + 8 * |a|;
    assert from + 4 * (2 * |a| + 1) == from + 8 * |a| + 4;
    assert x == Scalar(data, from, 2 * |a|) && y == Scalar(data, from, 2 * |a| + 1);
    hide Scalar;
  }

  /** Pairs of drawn scalars and one more that makes the product the identity. */
  method MakePairing(rounds: nat, f: Filler) returns (a: seq<int>, b: seq<int>)
    requires f.Valid()
    modifies f
    ensures f.Valid() && f.total == old(f.total) + 8 * rounds
    ensures |a| == |b| == rounds + 1 && Product(a, b) == 0 && b[rounds] == 1
    ensures Drawn(f.data, old(f.total), a, b, rounds)
  {
    hide BigEndian;
    hide Cyclic;
    hide Product;
    a, b := [], [];
    var target: int := 0;
    assert Product(a, b) == 0 by { ProductOfNone(); }
    for i := 0 to rounds
      invariant f.Valid() && f.total == old(f.total) + 8 * i
      invariant |a| == |b| == i && target == Product(a, b)
      invariant Drawn(f.data, old(f.total), a, b, i)
    {
      hide Drawn;
      var aMul := f.Uint32();
      var bMul := f.Uint32();
      DrawnPair(f.data, old(f.total), a, b, aMul, bMul);
      AppendPair(a, b, aMul, bMul);
      a, b := a + [aMul], b + [bMul];
      target := target + aMul * bMul;
    }
    AppendPair(a, b, -target, 1);
    a, b := a + [-target], b + [1];
  }

  lemma ProductOfNone()
    ensures Product([], []) == 0
  {
  }

  /** Duplicates a pair and overwrites the first of the two with a neutral one. */
  method InsertNeutral(a0: seq<int>, b0: seq<int>, index: nat, f: Filler)
      returns (a: seq<int>, b: seq<int>, ghost x: int, ghost y: int)
    requires f.Valid() && |a0| == |b0| && index < |a0|
    modifies f
    ensures f.Valid() && f.total == old(f.total) + 5
    ensures a == Insert(a0, index, x) && b == Insert(b0, index, y)
    ensures if Cyclic(f.data, old(f.total), 1)[0] > 127 then x == 0 && y == Scalar(f.data, old(f.total) + 1, 0)
            else y == 0 && x == Scalar(f.data, old(f.total) + 1, 0)
  {
    hide Cyclic;
    hide BigEndian;
    a := Insert(a0, index, a0[index]);
    b := Insert(b0, index, b0[index]);
    var first := f.Bool();
    var mul: int;
    if first {
      a := a[index := 0];
      mul := f.Uint32();
      b := b[index := mul];
    } else {
      mul := f.Uint32();
      a := a[index := mul];
      b := b[index := 0];
    }
    x, y := a[index], b[index];
    assert a == Insert(a0, index, x) && b == Insert(b0, index, y);
  }

  function Draw(data: seq<byte>, t: nat): byte
    requires |data| > 0
  {
    data[t % |data|]
  }

  /** Of the draws from position t on: how many pairs are put in from round i on, each by
      position and scalars, and where the drawing ends. The bound is drawn in every round. */
  datatype Insertion = Insertion(index: nat, x: int, y: int)

  function Insertions(data: seq<byte>, t: nat, i: nat, length: nat): (seq<Insertion>, nat)
    requires |data| > 0
    decreases 255 - i
  {
    if i >= Draw(data, t) then ([], t + 1)
    else
      var index := Draw(data, t + 1);
      if index >= length then Insertions(data, t + 2, i + 1, length)
      else
        var scalar := Scalar(data, t + 3, 0);
        var first := Draw(data, t + 2) > 127;
        var (rest, end) := Insertions(data, t + 7, i + 1, length + 1);
        ([Insertion(index, if first then 0 else scalar, if first then scalar else 0)] + rest, end)
  }

  /** The lists with all the insertions made. */
  function Inserted(s: seq<int>, ins: seq<Insertion>, firsts: bool): (r: seq<int>)
    ensures |r| == |s| + |ins|
    decreases |ins|
  {
    if ins == [] then s
    else
      var at := if ins[0].index <= |s| then ins[0].index else |s|;
      Inserted(Insert(s, at, if firsts then ins[0].x else ins[0].y), ins[1..], firsts)
  }

  lemma DrawIs(data: seq<byte>, t: nat)
    requires |data| > 0
    ensures Cyclic(data, t, 1)[0] == Draw(data, t)
  {
  }

  lemma InsertionsStop(data: seq<byte>, t: nat, i: nat, length: nat)
    requires |data| > 0 && i >= Draw(data, t)
    ensures Insertions(data, t, i, length) == ([], t + 1)
  {
  }

  lemma InsertionsSkip(data: seq<byte>, t: nat, i: nat, length: nat)
    requires |data| > 0 && i < Draw(data, t) && Draw(data, t + 1) >= length
    ensures Insertions(data, t, i, length) == Insertions(data, t + 2, i + 1, length)
  {
  }

  lemma InsertionsNext(data: seq<byte>, t: nat, i: nat, length: nat, n: Insertion)
    requires |data| > 0 && i < Draw(data, t) && Draw(data, t + 1) < length && n.index == Draw(data, t + 1)
    requires if Draw(data, t + 2) > 127 then n.x == 0 && n.y == Scalar(data, t + 3, 0)
             else n.y == 0 && n.x == Scalar(data, t + 3, 0)
    ensures var (rest, end) := Insertions(data, t + 7, i + 1, length + 1);
            Insertions(data, t, i, length) == ([n] + rest, end)
  {
  }

  lemma InsertedNext(s: seq<int>, n: Insertion, rest: seq<Insertion>, firsts: bool)
    requires n.index < |s|
    ensures Inserted(s, [n] + rest, firsts) == Inserted(Insert(s, n.index, if firsts then n.x else n.y), rest, firsts)
  {
    assert ([n] + rest)[1..] == rest;
  }

  /** One insertion made, and the others still to come. */
  lemma OneInserted(data: seq<byte>, t: nat, i: nat, a: seq<int>, b: seq<int>, n: Insertion)
    requires |data| > 0 && |a| == |b| && i < Draw(data, t) && Draw(data, t + 1) < |a| && n.index == Draw(data, t + 1)
    requires if Cyclic(data, t + 2, 1)[0] > 127 then n.x == 0 && n.y == Scalar(data, t + 3, 0)
             else n.y == 0 && n.x == Scalar(data, t + 3, 0)
    ensures var all, rest := Insertions(data, t, i, |a|), Insertions(data, t + 7, i + 1, |a| + 1);
            && all.1 == rest.1
            && Inserted(a, all.0, true) == Inserted(Insert(a, n.index, n.x), rest.0, true)
            && Inserted(b, all.0, false) == Inserted(Insert(b, n.index, n.y), rest.0, false)
  {
    hide Insertions;
    hide Inserted;
    hide Scalar;
    hide Insert;
    DrawIs(data, t + 2);
    InsertionsNext(data, t, i, |a|, n);
    var rest := Insertions(data, t + 7, i + 1, |a| + 1).0;
    InsertedNext(a, n, rest, true);
    InsertedNext(b, n, rest, false);
  }

  /** Puts in pairs with a point at infinity: as many, where and with which scalars as the
      draws say. The bound of the loop is drawn anew in every round, and yet it ends within
      255 of them, since a drawn byte is at most that. */
  method BloatPairing(a0: seq<int>, b0: seq<int>, f: Filler) returns (a: seq<int>, b: seq<int>, ghost rounds: nat)
    requires f.Valid() && |a0| == |b0|
    modifies f
    ensures f.Valid() && f.total == Insertions(f.data, old(f.total), 0, |a0|).1
    ensures var ins := Insertions(f.data, old(f.total), 0, |a0|).0;
            && a == Inserted(a0, ins, true) && b == Inserted(b0, ins, false)
            && |a| == |b| == |a0| + |ins|
    ensures |a| == |b| && Bloated(a0, b0, a, b)
    ensures rounds <= 255 && |a| <= |a0| + rounds
  {
    hide Bloated;
    hide Insertions;
    hide Inserted;
    hide Draw;
    hide Scalar;
    hide Cyclic;
    hide Insert;
    a, b := a0, b0;
    BloatedSelf(a0, b0);
    var i := 0;
    ghost var t := f.total;
    ghost var all := Insertions(f.data, t, 0, |a0|);
    var bound := f.Byte();
    ByteDrawn(f.data, t, bound);
    while i < bound
      invariant f.Valid() && f.total == t + 1 && bound == Draw(f.data, t)
      invariant 0 <= i <= 255 && |a| == |b| <= |a0| + i && Bloated(a0, b0, a, b)
      invariant all.1 == Insertions(f.data, t, i, |a|).1
      invariant Inserted(a0, all.0, true) == Inserted(a, Insertions(f.data, t, i, |a|).0, true)
      invariant Inserted(b0, all.0, false) == Inserted(b, Insertions(f.data, t, i, |a|).0, false)
      decreases 255 - i
    {
      var index := f.Byte();
      ByteDrawn(f.data, t + 1, index);
      if index < |a| && index < |b| {
        ghost var x, y, wasA, wasB := 0, 0, a, b;
        a, b, x, y := InsertNeutral(a, b, index, f);
        BloatedInsert(a0, b0, wasA, wasB, index, x, y);
        OneInserted(f.data, t, i, wasA, wasB, Insertion(index, x, y));
        t := t + 7;
      } else {
        InsertionsSkip(f.data, t, i, |a|);
        t := t + 2;
      }
      i := i + 1;
      bound := f.Byte();
      ByteDrawn(f.data, t, bound);
    }
    InsertionsStop(f.data, t, i, |a|);
    NothingInserted(a, true);
    NothingInserted(b, false);
    rounds := i;
  }

  lemma ByteDrawn(data: seq<byte>, t: nat, b: byte)
    requires |data| > 0 && [b] == Cyclic(data, t, 1)
    ensures b == Draw(data, t)
  {
    assert [b][0] == b;
  }

  lemma NothingInserted(s: seq<int>, firsts: bool)
    ensures Inserted(s, [], firsts) == s
  {
  }

  /** The call of the precompile: pairs that multiply to the identity, bloated or not, and
      an input size that covers every one of them. */
  method PairingCall(f: Filler) returns (a: seq<int>, b: seq<int>, inSize: nat)
    requires f.Valid()
    modifies f
    ensures f.Valid()
    ensures 1 <= |a| == |b| <= 511 && Product(a, b) == 0
    ensures inSize == 192 * |a| < TWO_32
  {
    hide Insertions;
    hide Inserted;
    hide Product;
    hide Bloated;
    hide Cyclic;
    hide Drawn;
    var rounds := f.Byte();
    a, b := MakePairing(rounds, f);
    var bloat := f.Bool();
    if bloat {
      ghost var a0, b0 := a, b;
      ghost var turns;
      a, b, turns := BloatPairing(a, b, f);
      BloatedProduct(a0, b0, a, b);
    }
    inSize := |a| * 192 % TWO_32;
  }
}
