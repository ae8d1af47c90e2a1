/** Bytes, big-endian numbers and options, shared by every other module. */
module Bytes {

  type byte = x: int | 0 <= x < 256

  datatype Option<T> = None | Some(value: T)

  const TWO_32: nat := 0x1_0000_0000
  const TWO_64: nat := 0x1_0000_0000_0000_0000

  /** Go's integer division truncates towards zero; Dafny's is Euclidean. */
  function GoDiv(a: int, b: int): (q: int)
    requires b > 0
    ensures a >= 0 ==> q * b <= a < (q + 1) * b
    ensures a <= 0 ==> (q - 1) * b < a <= q * b
  {
    if a >= 0 then a / b else -((-a) / b)
  }

  /** The number a byte string denotes, most significant byte first. */
  function BigEndian(s: seq<byte>): nat
  {
    if s == [] then 0 else BigEndian(s[..|s| - 1]) * 256 + s[|s| - 1]
  }

  function Pow256(k: nat): (p: nat)
    ensures p >= 1
  {
    if k == 0 then 1 else Pow256(k - 1) * 256
  }

  /** The k low bytes of n, most significant first. */
  function ToBigEndian(n: nat, k: nat): (s: seq<byte>)
    ensures |s| == k
  {
    if k == 0 then [] else ToBigEndian(n / 256, k - 1) + [n % 256]
  }

  lemma {:induction false} BigEndianBound(s: seq<byte>)
    ensures BigEndian(s) < Pow256(|s|)
  {
    if s == [] {
    } else {
      BigEndianBound(s[..|s| - 1]);
    }
  }

  /** Writing a number and reading it back loses nothing that fits. */
  lemma {:induction false} ReadAfterWrite(n: nat, k: nat)
    requires n < Pow256(k)
    ensures BigEndian(ToBigEndian(n, k)) == n
  {
    if k == 0 {
    } else {
      ReadAfterWrite(n / 256, k - 1);
      var s := ToBigEndian(n, k);
      assert s[..|s| - 1] == ToBigEndian(n / 256, k - 1);
    }
  }

  /** Reading a byte string and writing the number back gives the same string. */
  lemma {:induction false} WriteAfterRead(s: seq<byte>)
    ensures ToBigEndian(BigEndian(s), |s|) == s
  {
    if s == [] {
    } else {
      var front := s[..|s| - 1];
      WriteAfterRead(front);
      assert s == front + [s[|s| - 1]];
    }
  }

  lemma PowersOf256()
    ensures Pow256(1) == 256 && Pow256(2) == 0x1_0000 && Pow256(4) == TWO_32
    ensures Pow256(8) == TWO_64
  {
    assert Pow256(3) == 0x100_0000;
    assert Pow256(6) == 0x1_0000_0000_0000;
  }

  /** n bytes of s from position `from`, with zeros for what lies past the end. */
  function Window(s: seq<byte>, from: nat, n: nat): (r: seq<byte>)
    ensures |r| == n
  {
    seq(n, i requires 0 <= i < n => if from + i < |s| then s[from + i] else 0)
  }
}
