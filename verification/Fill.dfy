/** The data source of the generator: a finite byte string read round and round. */
module Fill {
  import opened Bytes

  /** The n bytes from position `from` of the endless repetition of data. */
  function Cyclic(data: seq<byte>, from: nat, n: nat): (s: seq<byte>)
    requires |data| > 0
    ensures |s| == n
  {
    seq(n, i requires 0 <= i < n => data[(from + i) % |data|])
  }

  // ---------------------------------------------------------------- modular arithmetic

  lemma MultipleIsLarge(n: int, k: int)
    requires n > 0
    ensures k >= 1 ==> n * k >= n
    ensures k <= -1 ==> n * k <= -n
  {
  }

  lemma ModUnique(x: nat, n: nat, q: nat, r: nat)
    requires n > 0 && r < n && x == n * q + r
    ensures x % n == r && x / n == q
  {
    assert n * (x / n - q) == r - x % n;
    MultipleIsLarge(n, x / n - q);
  }

  /** Positions may be reduced before they are added to. */
  lemma ModAdd(a: nat, b: nat, n: nat)
    requires n > 0
    ensures (a % n + b) % n == (a + b) % n
  {
    var q, r := (a % n + b) / n, (a % n + b) % n;
    assert a + b == n * (a / n + q) + r;
    ModUnique(a + b, n, a / n + q, r);
  }

  lemma CyclicShift(data: seq<byte>, from: nat, n: nat)
    requires |data| > 0
    ensures Cyclic(data, from % |data|, n) == Cyclic(data, from, n)
  {
    var a, b := Cyclic(data, from % |data|, n), Cyclic(data, from, n);
    forall i | 0 <= i < n
      ensures a[i] == b[i]
    {
      ModAdd(from, i, |data|);
    }
  }

  /** Reading m bytes and then n is reading m + n. */
  lemma CyclicJoin(data: seq<byte>, from: nat, m: nat, n: nat)
    requires |data| > 0
    ensures Cyclic(data, from, m) + Cyclic(data, from + m, n) == Cyclic(data, from, m + n)
  {
    var a, b := Cyclic(data, from, m) + Cyclic(data, from + m, n), Cyclic(data, from, m + n);
    forall i | 0 <= i < m + n
      ensures a[i] == b[i]
    {
      if i >= m {
        assert from + m + (i - m) == from + i;
      }
    }
  }

  /** A stretch that does not reach the end of the data is a slice of it. */
  lemma CyclicInside(data: seq<byte>, from: nat, n: nat)
    requires |data| > 0 && from + n <= |data|
    ensures Cyclic(data, from, n) == data[from..from + n]
  {
    var a, b := Cyclic(data, from, n), data[from..from + n];
    forall i | 0 <= i < n
      ensures a[i] == b[i]
    {
      ModUnique(from + i, |data|, 0, from + i);
    }
  }

  /** One turn of the wrap-around loop: what is copied comes next in the stream, and after
      a copy up to the end of the data the stream goes on at its start. */
  lemma WrapTurn(data: seq<byte>, start: nat, i: nat, at: nat, it: nat)
    requires |data| > 0 && at == (start + i) % |data| && it <= |data| - at
    ensures Cyclic(data, start, i) + data[at..at + it] == Cyclic(data, start, i + it)
    ensures it == |data| - at ==> (start + (i + it)) % |data| == 0
  {
    hide Cyclic;
    CyclicShift(data, start + i, it);
    CyclicInside(data, at, it);
    CyclicJoin(data, start, i, it);
    if it == |data| - at {
      ModAdd(start + i, it, |data|);
      ModUnique(|data|, |data|, 1, 0);
    }
  }

  /** The pointer, which is the position reduced, lies at or before the position, and is
      the position itself during the first round. */
  lemma Reduced(total: nat, n: nat)
    requires n > 0
    ensures total % n <= total && (total < n ==> total % n == total)
  {
    assert total == n * (total / n) + total % n;
    if total < n {
      ModUnique(total, n, 0, total);
    }
  }

  // ---------------------------------------------------------------- the filler

  class Filler {
    const data: seq<byte>
    var pointer: nat
    var usedUp: bool
    /** The number of bytes handed out since the start or the last reset. */
    ghost var total: nat

    ghost predicate Valid()
      reads this
    {
      && |data| > 0
      && pointer == total % |data|
      && usedUp == (total >= |data|)
    }

    constructor (data: seq<byte>)
      ensures Valid() && total == 0
      ensures this.data == if data == [] then [0] else data
    {
      this.data := if data == [] then [0] else data;
      pointer, usedUp := 0, false;
      total := 0;
      new;
      ModUnique(0, |this.data|, 0, 0);
    }

    method IncPointer(i: nat)
      requires Valid()
      modifies this
      ensures Valid() && total == old(total) + i
    {
      if pointer + i >= |data| {
        usedUp := true;
      }
      ModAdd(total, i, |data|);
      Reduced(total, |data|);
      pointer := (pointer + i) % |data|;
      total := total + i;
    }

    method Byte() returns (b: byte)
      requires Valid()
      modifies this
      ensures Valid() && total == old(total) + 1
      ensures [b] == Cyclic(data, old(total), 1)
    {
      b := data[pointer];
      IncPointer(1);
    }

    method Bool() returns (b: bool)
      requires Valid()
      modifies this
      ensures Valid() && total == old(total) + 1
      ensures b == (Cyclic(data, old(total), 1)[0] > 127)
    {
      var x := Byte();
      assert [x][0] == x;
      b := x > 127;
    }

    /** The wrap-around loop: always makes progress, so its panic cannot be reached. */
    method CopyAround(items: nat) returns (b: array<byte>)
      requires 0 <= pointer < |data|
      modifies this`pointer
      ensures b[..] == Cyclic(data, old(pointer), items)
    {
      b := new byte[items];
      var start := pointer;
      Reduced(start, |data|);
      var i := 0;
      while i < items
        invariant 0 <= i <= items && 0 <= pointer < |data|
        invariant i < items ==> (start + i) % |data| == pointer
        invariant b[..i] == Cyclic(data, start, i)
      {
        hide *;
        var it := if items - i <= |data| - pointer then items - i else |data| - pointer;
        assert it > 0;
        forall j | 0 <= j < it {
          b[i + j] := data[pointer + j];
        }
        assert b[..i + it] == Cyclic(data, start, i) + data[pointer..pointer + it];
        WrapTurn(data, start, i, pointer, it);
        i := i + it;
        pointer := 0;
      }
      assert b[..items] == b[..];
    }

    /** The next `items` bytes of the endless stream, however often the data has to be
        wrapped around. */
    method ByteSlice(items: nat) returns (r: seq<byte>)
      requires Valid()
      modifies this
      ensures Valid() && total == old(total) + items
      ensures r == Cyclic(data, old(total), items)
    {
      hide Cyclic;
      Reduced(total, |data|);
      CyclicShift(data, total, items);
      if pointer + items <= |data| {
        CyclicInside(data, pointer, items);
        r := data[pointer..pointer + items];
        IncPointer(items);
      } else {
        var start := pointer;
        var b := CopyAround(items);
        ModAdd(total, items, |data|);
        pointer := (start + items) % |data|;
        usedUp := true;
        total := total + items;
        r := b[..];
      }
    }

    method ByteSlice256() returns (r: seq<byte>)
      requires Valid()
      modifies this
      ensures Valid() && |r| < 256 && total == old(total) + 1 + |r|
      ensures [|r|] + r == Cyclic(data, old(total), 1 + |r|)
    {
      var n := Byte();
      r := ByteSlice(n);
      CyclicJoin(data, old(total), 1, n);
    }

    /** Fills b, as an io.Reader that never runs dry. */
    method Read(b: array<byte>) returns (n: nat)
      requires Valid()
      modifies this, b
      ensures Valid() && n == b.Length && total == old(total) + n
      ensures b[..] == Cyclic(data, old(total), n)
    {
      var tmp := ByteSlice(b.Length);
      for i := 0 to b.Length
        invariant b[..i] == tmp[..i]
        invariant Valid() && total == old(total) + b.Length
      {
        b[i] := tmp[i];
      }
      n := b.Length;
      assert b[..] == b[..n] && tmp == tmp[..n];
    }

    /** A big-endian number of n bytes: Uint16, Uint32, Uint64 and the big integers. */
    method Number(n: nat) returns (x: nat)
      requires Valid()
      modifies this
      ensures Valid() && total == old(total) + n
      ensures x == BigEndian(Cyclic(data, old(total), n)) && x < Pow256(n)
    {
      var s := ByteSlice(n);
      x := BigEndian(s);
      BigEndianBound(s);
    }

    method Uint16() returns (x: nat)
      requires Valid()
      modifies this
      ensures Valid() && total == old(total) + 2
      ensures x == BigEndian(Cyclic(data, old(total), 2)) && x < 0x1_0000
    {
      x := Number(2);
      PowersOf256();
    }

    method Uint32() returns (x: nat)
      requires Valid()
      modifies this
      ensures Valid() && total == old(total) + 4
      ensures x == BigEndian(Cyclic(data, old(total), 4)) && x < TWO_32
    {
      x := Number(4);
      PowersOf256();
    }

    /** A gas value: the first byte chooses how many more are read. */
    method GasInt() returns (x: nat)
      requires Valid()
      modifies this
      ensures Valid()
      ensures var b := Cyclic(data, old(total), 1)[0];
              var n := if b == 254 then 8 else if b == 255 then 32 else 4;
              var v := BigEndian(Cyclic(data, old(total) + 1, n));
              total == old(total) + 1 + n && x == if b < 253 then v % 20_000_000 else v
    {
      var b := Byte();
      assert [b][0] == b;
      if b == 254 {
        x := Number(8);
      } else if b == 255 {
        x := Number(32);
      } else {
        x := Number(4);
        if b != 253 {
          x := x % 20_000_000;
        }
      }
    }

    /** A memory offset: mostly one byte. */
    method MemInt() returns (x: nat)
      requires Valid()
      modifies this
      ensures Valid()
      ensures var b := Cyclic(data, old(total), 1)[0];
              var n := if b == 253 then 4 else if b == 254 then 8 else if b == 255 then 32 else 1;
              total == old(total) + 1 + n && x == BigEndian(Cyclic(data, old(total) + 1, n))
    {
      var b := Byte();
      assert [b][0] == b;
      if b == 253 {
        x := Number(4);
      } else if b == 254 {
        x := Number(8);
      } else if b == 255 {
        x := Number(32);
      } else {
        x := Number(1);
      }
    }

    method Reset()
      requires Valid()
      modifies this
      ensures Valid() && total == 0
    {
      pointer, usedUp := 0, false;
      total := 0;
      ModUnique(0, |data|, 0, 0);
    }

    method UsedUp() returns (b: bool)
      requires Valid()
      ensures b == (total >= |data|)
    {
      b := usedUp;
    }
  }
}
