/** Packing of data into blobs of 4096 field elements: 31 data bytes behind a zero byte. */
module Kzg {
  import opened Bytes

  const FIELDS: nat := 4096
  const BLOB: nat := 32 * FIELDS
  const PER_BLOB: nat := 31 * FIELDS

  type Digest = d: seq<byte> | |d| == 32 witness [0, 0, 0, 0, 0, 0, 0, 0, 0, 0, 0, 0, 0, 0, 0, 0,
                                                  0, 0, 0, 0, 0, 0, 0, 0, 0, 0, 0, 0, 0, 0, 0, 0]

  function Zeros(n: nat): (s: seq<byte>)
    ensures |s| == n
  {
    seq(n, _ => 0)
  }

  /** Field element number g of the data, counted over all blobs. */
  function Element(data: seq<byte>, g: nat): (s: seq<byte>)
    ensures |s| == 32
  {
    [0] + Window(data, 31 * g, 31)
  }

  /** The n field elements from number `first` on. */
  function Elements(data: seq<byte>, first: nat, n: nat): (s: seq<byte>)
    ensures |s| == 32 * n
  {
    if n == 0 then [] else Elements(data, first, n - 1) + Element(data, first + n - 1)
  }

  function BlobBytes(data: seq<byte>, k: nat): (s: seq<byte>)
    ensures |s| == BLOB
  {
    Elements(data, k * FIELDS, FIELDS)
  }

  /** What a blob holds behind the zero bytes of its first n elements. */
  function Payload(blob: seq<byte>, n: nat): (s: seq<byte>)
    requires |blob| >= 32 * n
    ensures |s| == 31 * n
  {
    if n == 0 then [] else Payload(blob, n - 1) + blob[32 * (n - 1) + 1..32 * n]
  }

  /** What the first n blobs hold. */
  function Unpacked(data: seq<byte>, n: nat): seq<byte>
  {
    if n == 0 then [] else Unpacked(data, n - 1) + Payload(BlobBytes(data, n - 1), FIELDS)
  }

  // ---------------------------------------------------------------- lemmas

  lemma SliceJoin(data: seq<byte>, from: nat, m: nat, n: nat)
    ensures Window(data, from, m) + Window(data, from + m, n) == Window(data, from, m + n)
  {
  }

  lemma SlicePast(data: seq<byte>, from: nat, n: nat)
    requires from >= |data|
    ensures Window(data, from, n) == Zeros(n)
  {
  }

  lemma SliceOfData(data: seq<byte>, from: nat, n: nat, end: nat)
    requires from <= |data| && end == (if from + n > |data| then |data| else from + n)
    ensures Window(data, from, n) == data[from..end] + Zeros(n - (end - from))
  {
  }

  /** Copying the next data bytes behind a zero byte turns the next 32 zeros into the next
      field element. */
  lemma CopyIsElement(data: seq<byte>, done: seq<byte>, g: nat, rest: nat, end: nat)
    requires rest >= 32 && 31 * g <= |data| && end == if 31 * g + 31 > |data| then |data| else 31 * g + 31
    ensures var s, at, c := done + Zeros(rest), |done| + 1, data[31 * g..end];
            s[..at] + c + s[at + |c|..] == done + Element(data, g) + Zeros(rest - 32)
  {
    SliceOfData(data, 31 * g, 31, end);
    var s, at, c := done + Zeros(rest), |done| + 1, data[31 * g..end];
    assert s[..at] == done + [0];
    assert s[at + |c|..] == Zeros(31 - |c|) + Zeros(rest - 32);
  }

  lemma {:induction false} ElementsPast(data: seq<byte>, first: nat, n: nat, m: nat)
    requires 31 * (first + n) >= |data| && n <= m
    ensures Elements(data, first, m) == Elements(data, first, n) + Zeros(32 * (m - n))
    decreases m
  {
    if n < m {
      ElementsPast(data, first, n, m - 1);
      SlicePast(data, 31 * (first + m - 1), 31);
      assert Element(data, first + m - 1) == Zeros(32);
      assert Zeros(32 * (m - 1 - n)) + Zeros(32) == Zeros(32 * (m - n));
    } else {
      assert Zeros(0) == [];
    }
  }

  lemma {:induction false} ElementsJoin(data: seq<byte>, first: nat, m: nat, n: nat)
    requires m <= n
    ensures Elements(data, first, n)[..32 * m] == Elements(data, first, m)
    decreases n
  {
    if m >= n {
    } else {
      ElementsJoin(data, first, m, n - 1);
      assert Elements(data, first, n)[..32 * m] == Elements(data, first, n - 1)[..32 * m];
    }
  }

  /** Every field element starts with a zero byte, so it is below the modulus. */
  lemma HighByteIsZero(data: seq<byte>, k: nat, f: nat)
    requires f < FIELDS
    ensures BlobBytes(data, k)[32 * f] == 0
  {
    ElementsJoin(data, k * FIELDS, f + 1, FIELDS);
    assert BlobBytes(data, k)[32 * f] == BlobBytes(data, k)[..32 * (f + 1)][32 * f];
    assert Elements(data, k * FIELDS, f + 1)[32 * f] == Element(data, k * FIELDS + f)[0];
  }

  lemma {:induction false} PayloadOfPrefix(a: seq<byte>, b: seq<byte>, n: nat)
    requires 32 * n <= |a| && 32 * n <= |b| && a[..32 * n] == b[..32 * n]
    ensures Payload(a, n) == Payload(b, n)
  {
    if n == 0 {
    } else {
      assert a[..32 * (n - 1)] == a[..32 * n][..32 * (n - 1)] == b[..32 * (n - 1)];
      PayloadOfPrefix(a, b, n - 1);
      assert a[32 * (n - 1) + 1..32 * n] == a[..32 * n][32 * (n - 1) + 1..] == b[32 * (n - 1) + 1..32 * n];
    }
  }

  lemma {:induction false} PayloadOfElements(data: seq<byte>, first: nat, n: nat)
    ensures Payload(Elements(data, first, n), n) == Window(data, 31 * first, 31 * n)
  {
    if n == 0 {
    } else {
      var s := Elements(data, first, n);
      assert s[..32 * (n - 1)] == Elements(data, first, n - 1);
      PayloadOfPrefix(s, Elements(data, first, n - 1), n - 1);
      PayloadOfElements(data, first, n - 1);
      assert s[32 * (n - 1) + 1..32 * n] == Element(data, first + n - 1)[1..];
      SliceJoin(data, 31 * first, 31 * (n - 1), 31);
    }
  }

  lemma {:induction false} UnpackedIsSlice(data: seq<byte>, n: nat)
    ensures Unpacked(data, n) == Window(data, 0, PER_BLOB * n)
  {
    if n > 0 {
      hide Window;
      hide Payload;
      hide Elements;
      UnpackedIsSlice(data, n - 1);
      assert BlobBytes(data, n - 1) == Elements(data, (n - 1) * FIELDS, FIELDS);
      PayloadOfElements(data, (n - 1) * FIELDS, FIELDS);
      hide BlobBytes;
      var done := PER_BLOB * (n - 1);
      assert 31 * ((n - 1) * FIELDS) == done;
      assert Payload(BlobBytes(data, n - 1), FIELDS) == Window(data, done, PER_BLOB);
      SliceJoin(data, 0, done, PER_BLOB);
    } else {
      assert Window(data, 0, 0) == [];
    }
  }

  /** Unpacking enough blobs gives the data and then zeros only. */
  lemma UnpackAfterPack(data: seq<byte>, n: nat)
    requires PER_BLOB * n >= |data|
    ensures Unpacked(data, n) == data + Zeros(PER_BLOB * n - |data|)
  {
    UnpackedIsSlice(data, n);
    assert Window(data, 0, PER_BLOB * n) == data + Zeros(PER_BLOB * n - |data|);
  }

  // ---------------------------------------------------------------- the two packers

  /** Go's copy into a blob. */
  method Copy(blob: array<byte>, at: nat, chunk: seq<byte>)
    requires at + |chunk| <= blob.Length
    modifies blob
    ensures var s := old(blob[..]); blob[..] == s[..at] + chunk + s[at + |chunk|..]
  {
    forall j | 0 <= j < |chunk| {
      blob[at + j] := chunk[j];
    }
  }

  method NewBlob() returns (blob: array<byte>)
    ensures fresh(blob) && blob.Length == BLOB && blob[..] == Zeros(BLOB)
  {
    blob := new byte[BLOB](_ => 0);
  }

  /** One turn of either loop: copies the chunk of element number first + f. */
  method PackField(blob: array<byte>, data: seq<byte>, first: nat, f: nat)
    requires blob.Length == BLOB && f < FIELDS && 31 * (first + f) < |data|
    requires blob[..] == Elements(data, first, f) + Zeros(BLOB - 32 * f)
    modifies blob
    ensures blob[..] == Elements(data, first, f + 1) + Zeros(BLOB - 32 * (f + 1))
  {
    hide *;
    FieldFits(f);
    var i := 31 * (first + f);
    var end := i + 31;
    if end > |data| {
      end := |data|;
    }
    Copy(blob, 32 * f + 1, data[i..end]);
    CopyIsElement(data, Elements(data, first, f), first + f, BLOB - 32 * f, end);
    ElementsStep(data, first, f);
  }

  lemma FieldFits(f: nat)
    requires f < FIELDS
    ensures 32 * f + 32 <= BLOB
  {
  }

  lemma ElementsStep(data: seq<byte>, first: nat, f: nat)
    ensures Elements(data, first, f + 1) == Elements(data, first, f) + Element(data, first + f)
  {
  }

  lemma BlobDone(data: seq<byte>, s: seq<byte>, k: nat, f: nat)
    requires f <= FIELDS && s == Elements(data, k * FIELDS, f) + Zeros(BLOB - 32 * f)
    requires f < FIELDS ==> 31 * (k * FIELDS + f) >= |data|
    ensures s == BlobBytes(data, k)
  {
    hide Elements;
    if f < FIELDS {
      ElementsPast(data, k * FIELDS, f, FIELDS);
    } else {
      assert Zeros(0) == [];
    }
  }

  /** The finished blobs, and the one being filled with its first f elements. */
  ghost predicate Filling(data: seq<byte>, blobs: seq<array<byte>>, f: nat)
    requires f <= FIELDS
    reads blobs
  {
    && |blobs| >= 1
    && (forall k :: 0 <= k < |blobs| - 1 ==> blobs[k] != blobs[|blobs| - 1] && blobs[k][..] == BlobBytes(data, k))
    && blobs[|blobs| - 1].Length == BLOB
    && blobs[|blobs| - 1][..] == Elements(data, (|blobs| - 1) * FIELDS, f) + Zeros(BLOB - 32 * f)
  }

  method PackNext(data: seq<byte>, blobs: seq<array<byte>>, f: nat)
    requires f < FIELDS && Filling(data, blobs, f) && 31 * ((|blobs| - 1) * FIELDS + f) < |data|
    modifies blobs[|blobs| - 1]
    ensures Filling(data, blobs, f + 1)
  {
    hide BlobBytes;
    hide Elements;
    hide Zeros;
    PackField(blobs[|blobs| - 1], data, (|blobs| - 1) * FIELDS, f);
  }

  /** The single-blob packer: the first blob of the multi-blob packer, whatever the data. */
  method EncodeKZGBlob(data: seq<byte>) returns (blob: array<byte>)
    ensures fresh(blob) && blob[..] == BlobBytes(data, 0)
  {
    hide *;
    blob := NewBlob();
    var fieldIndex := 0;
    var i := 0;
    FirstBlob(data, blob);
    while i < |data| && fieldIndex < FIELDS
      invariant fieldIndex <= FIELDS && i == 31 * fieldIndex
      invariant fresh(blob) && Filling(data, [blob], fieldIndex)
    {
      PackNext(data, [blob], fieldIndex);
      fieldIndex := fieldIndex + 1;
      i := i + 31;
    }
    LastBlob(data, [blob], fieldIndex);
    assert [blob][0] == blob;
  }

  method EncodeBlobs(data: seq<byte>) returns (blobs: seq<array<byte>>)
    ensures |blobs| >= 1 && forall k :: 0 <= k < |blobs| ==> blobs[k][..] == BlobBytes(data, k)
    // As many blobs as it takes, and no more.
    ensures |data| <= PER_BLOB * |blobs| && (|blobs| > 1 ==> PER_BLOB * (|blobs| - 1) < |data|)
  {
    hide BlobBytes;
    hide Elements;
    hide Zeros;
    hide Filling;
    var blob := NewBlob();
    blobs := [blob];
    var blobIndex, fieldIndex := 0, -1;
    var i := 0;
    FirstBlob(data, blob);
    while i < |data|
      invariant -1 <= fieldIndex < FIELDS && blobIndex == |blobs| - 1 >= 0
      invariant i == 31 * (blobIndex * FIELDS + fieldIndex + 1)
      invariant |blobs| > 1 ==> fieldIndex >= 0
      invariant i < |data| + 31
      invariant Filling(data, blobs, fieldIndex + 1)
      invariant forall k :: 0 <= k < |blobs| ==> fresh(blobs[k])
    {
      fieldIndex := fieldIndex + 1;
      if fieldIndex == FIELDS {
        blob := NewBlob();
        NextBlob(data, blobs, blob);
        blobs := blobs + [blob];
        blobIndex := blobIndex + 1;
        fieldIndex := 0;
      }
      PackNext(data, blobs, fieldIndex);
      i := i + 31;
    }
    LastBlob(data, blobs, fieldIndex + 1);
  }

  lemma FirstBlob(data: seq<byte>, blob: array<byte>)
    requires blob.Length == BLOB && blob[..] == Zeros(BLOB)
    ensures Filling(data, [blob], 0)
  {
    BlobFresh(data, blob[..], 0);
    hide Elements;
    hide Zeros;
    hide BlobBytes;
  }

  /** A full blob is finished, and the next one started. */
  lemma NextBlob(data: seq<byte>, blobs: seq<array<byte>>, blob: array<byte>)
    requires Filling(data, blobs, FIELDS) && blob !in blobs
    requires blob.Length == BLOB && blob[..] == Zeros(BLOB)
    ensures Filling(data, blobs + [blob], 0)
  {
    BlobFull(data, blobs);
    BlobFresh(data, blob[..], |blobs| * FIELDS);
    hide Elements;
    hide Zeros;
    hide BlobBytes;
  }

  lemma BlobFull(data: seq<byte>, blobs: seq<array<byte>>)
    requires Filling(data, blobs, FIELDS)
    ensures blobs[|blobs| - 1][..] == BlobBytes(data, |blobs| - 1)
  {
    hide Elements;
    BlobDone(data, blobs[|blobs| - 1][..], |blobs| - 1, FIELDS);
  }

  lemma BlobFresh(data: seq<byte>, s: seq<byte>, first: nat)
    requires s == Zeros(BLOB)
    ensures s == Elements(data, first, 0) + Zeros(BLOB - 32 * 0)
  {
  }

  lemma LastBlob(data: seq<byte>, blobs: seq<array<byte>>, f: nat)
    requires f <= FIELDS && Filling(data, blobs, f)
    requires f < FIELDS ==> 31 * ((|blobs| - 1) * FIELDS + f) >= |data|
    ensures |blobs| >= 1 && forall k :: 0 <= k < |blobs| ==> blobs[k][..] == BlobBytes(data, k)
  {
    hide Elements;
    hide Zeros;
    hide BlobBytes;
    BlobDone(data, blobs[|blobs| - 1][..], |blobs| - 1, f);
  }

  // ---------------------------------------------------------------- the seed

  function Block(sha: seq<byte> -> Digest, seed: seq<byte>, i: nat): Digest
  {
    if i == 0 then sha(seed) else sha(Block(sha, seed, i - 1))
  }

  function Blocks(sha: seq<byte> -> Digest, seed: seq<byte>, n: nat): (s: seq<byte>)
    ensures |s| == 32 * n
  {
    if n == 0 then [] else Blocks(sha, seed, n - 1) + Block(sha, seed, n - 1)
  }

  lemma {:induction false} BlocksPrefix(sha: seq<byte> -> Digest, seed: seq<byte>, m: nat, n: nat)
    requires m <= n
    ensures Blocks(sha, seed, n)[..32 * m] == Blocks(sha, seed, m)
    decreases n
  {
    if m >= n {
    } else {
      BlocksPrefix(sha, seed, m, n - 1);
      assert Blocks(sha, seed, n)[..32 * m] == Blocks(sha, seed, n - 1)[..32 * m];
    }
  }

  /** The first n bytes of an endless stream of chained digests: a longer expansion of the
      same seed starts with the shorter one. */
  method ExpandSeed(sha: seq<byte> -> Digest, seed: seq<byte>, n: nat) returns (out: seq<byte>)
    ensures |out| == n && forall m: nat :: 32 * m >= n ==> out == Blocks(sha, seed, m)[..n]
    // The first digest is that of the seed, each further one that of the one before, and
    // the last one may be cut off.
    ensures if n < 32 then out == sha(seed)[..n] else out[..32] == sha(seed)
    ensures forall i: nat :: 32 * (i + 1) <= n ==>
              var rest := out[32 * (i + 1)..];
              var next := sha(out[32 * i..32 * (i + 1)]);
              if |rest| < 32 then rest == next[..|rest|] else rest[..32] == next
  {
    out := [];
    var block := sha(seed);
    ghost var k := 0;
    while |out| < n
      invariant out == Blocks(sha, seed, k) && block == Block(sha, seed, k)
      invariant k > 0 ==> 32 * (k - 1) < n
      decreases n - |out|
    {
      out := out + block;
      block := sha(block);
      k := k + 1;
    }
    forall m: nat | 32 * m >= n
      ensures out[..n] == Blocks(sha, seed, m)[..n]
    {
      if m <= k {
        BlocksPrefix(sha, seed, m, k);
        assert out[..n] == out[..32 * m][..n];
      } else {
        BlocksPrefix(sha, seed, k, m);
        assert Blocks(sha, seed, m)[..n] == Blocks(sha, seed, m)[..32 * k][..n];
      }
    }
    out := out[..n];
    forall i: nat | 32 * (i + 1) <= n
      ensures var rest := out[32 * (i + 1)..];
              var next := sha(out[32 * i..32 * (i + 1)]);
              if |rest| < 32 then rest == next[..|rest|] else rest[..32] == next
    {
      NextDigest(sha, seed, out, n, i);
    }
    FirstDigest(sha, seed, out, n);
  }

  lemma BlockInBlocks(sha: seq<byte> -> Digest, seed: seq<byte>, m: nat, i: nat)
    requires i < m
    ensures Blocks(sha, seed, m)[32 * i..32 * (i + 1)] == Block(sha, seed, i)
  {
    BlocksPrefix(sha, seed, i + 1, m);
    assert Blocks(sha, seed, m)[32 * i..32 * (i + 1)] == Blocks(sha, seed, i + 1)[32 * i..];
  }

  lemma FirstDigest(sha: seq<byte> -> Digest, seed: seq<byte>, out: seq<byte>, n: nat)
    requires |out| == n && forall m: nat :: 32 * m >= n ==> out == Blocks(sha, seed, m)[..n]
    ensures if n < 32 then out == sha(seed)[..n] else out[..32] == sha(seed)
  {
    var m := n + 1;
    BlockInBlocks(sha, seed, m, 0);
    assert Block(sha, seed, 0) == sha(seed);
    hide Blocks;
    var s := Blocks(sha, seed, m);
    assert out == s[..n];
    if n < 32 {
      assert out == s[..32][..n];
    } else {
      assert out[..32] == s[..32];
    }
  }

  lemma NextDigest(sha: seq<byte> -> Digest, seed: seq<byte>, out: seq<byte>, n: nat, i: nat)
    requires |out| == n && 32 * (i + 1) <= n
    requires forall m: nat :: 32 * m >= n ==> out == Blocks(sha, seed, m)[..n]
    ensures var rest := out[32 * (i + 1)..];
            var next := sha(out[32 * i..32 * (i + 1)]);
            if |rest| < 32 then rest == next[..|rest|] else rest[..32] == next
  {
    var m := n + 1;
    BlockInBlocks(sha, seed, m, i);
    BlockInBlocks(sha, seed, m, i + 1);
    assert Block(sha, seed, i + 1) == sha(Block(sha, seed, i));
    hide Blocks;
    hide Block;
    var s := Blocks(sha, seed, m);
    assert out == s[..n];
    assert out[32 * i..32 * (i + 1)] == s[32 * i..32 * (i + 1)];
    var rest := out[32 * (i + 1)..];
    if |rest| < 32 {
      assert rest == s[32 * (i + 1)..32 * (i + 2)][..|rest|];
    } else {
      assert rest[..32] == s[32 * (i + 1)..32 * (i + 2)];
    }
  }
}
