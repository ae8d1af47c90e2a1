/** The wire protocol between the database server and its clients. */
module Protocol {
  import opened Bytes

  type Blob = seq<byte>

  const OP_HAS: byte := 72
  const OP_PUT: byte := 80
  const RESP_ABSENT: byte := 0
  const RESP_PRESENT: byte := 1
  const RESP_ACK: byte := 2
  const MAX_FRAME: nat := 0x10_0000

  datatype Frame = Frame(op: byte, payload: seq<byte>)
  datatype WireError = Eof | UnexpectedEof | FrameTooLarge | TruncatedLength | TruncatedBody
  datatype Result<T> = Ok(value: T) | Err(error: WireError)

  // ---------------------------------------------------------------- blobs

  /** A length prefix; the length is cut to 32 bits. */
  function Prefix32(n: nat): (s: seq<byte>)
    ensures |s| == 4
  {
    ToBigEndian(n % TWO_32, 4)
  }

  function Encoded(blobs: seq<Blob>): seq<byte>
  {
    if blobs == [] then [] else Prefix32(|blobs[0]|) + blobs[0] + Encoded(blobs[1..])
  }

  /** Splits a payload; only the low 32 bits of the remaining length are compared. */
  function Decoded(payload: seq<byte>): Result<seq<Blob>>
    decreases |payload|
  {
    if payload == [] then Ok([])
    else if |payload| < 4 then Err(TruncatedLength)
    else
      var n := BigEndian(payload[..4]);
      var rest := payload[4..];
      if |rest| % TWO_32 < n then Err(TruncatedBody)
      else
        assert |rest| % TWO_32 <= |rest| by { ModAtMost(|rest|); }
        match Decoded(rest[n..])
        case Ok(blobs) => Ok([rest[..n]] + blobs)
        case Err(e) => Err(e)
  }

  lemma ModAtMost(n: nat)
    ensures n % TWO_32 <= n
  {
  }

  method EncodeBlobs(blobs: seq<Blob>) returns (out: seq<byte>)
    ensures out == Encoded(blobs)
  {
    out := [];
    for i := 0 to |blobs|
      invariant out + Encoded(blobs[i..]) == Encoded(blobs)
    {
      var lenBuf := Prefix32(|blobs[i]|);
      assert blobs[i..][1..] == blobs[i + 1..];
      assert out + (lenBuf + blobs[i] + Encoded(blobs[i + 1..])) == (out + lenBuf + blobs[i]) + Encoded(blobs[i + 1..]);
      out := out + lenBuf;
      out := out + blobs[i];
    }
  }

  method DecodeBlobs(input: seq<byte>) returns (r: Result<seq<Blob>>)
    ensures r == Decoded(input)
  {
    var payload, blobs := input, [];
    assert Decoded(input).Ok? ==> blobs + Decoded(input).value == Decoded(input).value;
    while |payload| > 0
      invariant Decoded(input) == (match Decoded(payload) case Ok(bs) => Ok(blobs + bs) case Err(e) => Err(e))
      decreases |payload|
    {
      if |payload| < 4 {
        return Err(TruncatedLength);
      }
      var n := BigEndian(payload[..4]);
      ghost var d := Decoded(payload);
      payload := payload[4..];
      if |payload| % TWO_32 < n {
        return Err(TruncatedBody);
      }
      ModAtMost(|payload|);
      ghost var tail := Decoded(payload[n..]);
      if tail.Ok? {
        assert blobs + ([payload[..n]] + tail.value) == (blobs + [payload[..n]]) + tail.value;
      }
      blobs := blobs + [payload[..n]];
      payload := payload[n..];
    }
    assert blobs + [] == blobs;
    return Ok(blobs);
  }

  lemma ReadPrefix32(n: nat)
    requires n < TWO_32
    ensures BigEndian(Prefix32(n)) == n
  {
    PowersOf256();
    hide BigEndian;
    hide ToBigEndian;
    hide Pow256;
    assert n % TWO_32 == n;
    ReadAfterWrite(n, 4);
  }

  /** The first blob of a message is split off and the rest is left. */
  lemma DecodeFirst(b: Blob, rest: seq<byte>)
    requires |b| + |rest| < TWO_32
    ensures Decoded(Prefix32(|b|) + b + rest)
            == match Decoded(rest) case Ok(blobs) => Ok([b] + blobs) case Err(e) => Err(e)
  {
    hide *;
    ReadPrefix32(|b|);
    SplitPayload(Prefix32(|b|), b, rest);
    DecodedAs(Prefix32(|b|) + b + rest, b, rest);
  }

  lemma SplitPayload(prefix: seq<byte>, b: Blob, rest: seq<byte>)
    requires |prefix| == 4
    ensures var p := prefix + b + rest;
            p[..4] == prefix && p[4..][..|b|] == b && p[4..][|b|..] == rest && |p[4..]| == |b| + |rest|
  {
    assert (prefix + b + rest)[4..] == b + rest;
  }

  /** The decoder on a payload whose prefix announces the first part b. */
  lemma DecodedAs(payload: seq<byte>, b: Blob, rest: seq<byte>)
    requires |payload| >= 4 && BigEndian(payload[..4]) == |b| && |payload[4..]| == |b| + |rest| < TWO_32
    requires payload[4..][..|b|] == b && payload[4..][|b|..] == rest
    ensures Decoded(payload) == match Decoded(rest) case Ok(blobs) => Ok([b] + blobs) case Err(e) => Err(e)
  {
    hide BigEndian;
  }

  /** The same without a limit on the rest. Only the low 32 bits of what is left are compared
      with the announced length: of a message of 2^32 bytes or more the first blob is taken,
      or turned down as truncated though all of it is there. */
  lemma DecodeFirstExactly(b: Blob, rest: seq<byte>)
    requires |b| < TWO_32
    ensures Decoded(Prefix32(|b|) + b + rest)
            == if (|b| + |rest|) % TWO_32 < |b| then Err(TruncatedBody)
               else match Decoded(rest) case Ok(blobs) => Ok([b] + blobs) case Err(e) => Err(e)
  {
    hide *;
    ReadPrefix32(|b|);
    SplitPayload(Prefix32(|b|), b, rest);
    DecodedAsExactly(Prefix32(|b|) + b + rest, b, rest);
  }

  lemma DecodedAsExactly(payload: seq<byte>, b: Blob, rest: seq<byte>)
    requires |payload| >= 4 && BigEndian(payload[..4]) == |b| && |payload[4..]| == |b| + |rest|
    requires payload[4..][..|b|] == b && payload[4..][|b|..] == rest
    ensures Decoded(payload)
            == if (|b| + |rest|) % TWO_32 < |b| then Err(TruncatedBody)
               else match Decoded(rest) case Ok(blobs) => Ok([b] + blobs) case Err(e) => Err(e)
  {
    hide BigEndian;
  }

  /** Decoding undoes encoding for every message of less than 2^32 bytes. */
  lemma {:induction false} DecodeAfterEncode(blobs: seq<Blob>)
    requires |Encoded(blobs)| < TWO_32
    ensures Decoded(Encoded(blobs)) == Ok(blobs)
    decreases |blobs|
  {
    hide Prefix32;
    if blobs == [] {
    } else {
      hide Decoded;
      DecodeAfterEncode(blobs[1..]);
      DecodeFirst(blobs[0], Encoded(blobs[1..]));
      assert blobs == [blobs[0]] + blobs[1..];
    }
  }

  /** Encoding undoes decoding for every message the decoder accepts. */
  lemma {:induction false} EncodeAfterDecode(payload: seq<byte>)
    requires Decoded(payload).Ok?
    ensures Encoded(Decoded(payload).value) == payload
    decreases |payload|
  {
    hide Prefix32;
    hide Decoded;
    hide BigEndian;
    DecodedParts(payload);
    if payload == [] {
    } else {
      var rest, n := payload[4..], BigEndian(payload[..4]);
      EncodeAfterDecode(rest[n..]);
      PrefixOfRead(payload[..4]);
      var blobs := Decoded(payload).value;
      assert blobs[1..] == Decoded(rest[n..]).value;
      assert payload == payload[..4] + rest[..n] + rest[n..];
    }
  }

  /** What it takes to be accepted. */
  lemma DecodedParts(payload: seq<byte>)
    requires Decoded(payload).Ok?
    ensures payload == [] ==> Decoded(payload).value == []
    ensures payload != [] ==>
              && |payload| >= 4
              && var rest, n := payload[4..], BigEndian(payload[..4]);
                 && n <= |rest| && Decoded(rest[n..]).Ok?
                 && Decoded(payload).value == [rest[..n]] + Decoded(rest[n..]).value
  {
    hide BigEndian;
    if payload != [] {
      ModAtMost(|payload[4..]|);
    }
  }

  lemma PrefixOfRead(s: seq<byte>)
    requires |s| == 4
    ensures Prefix32(BigEndian(s)) == s
  {
    PowersOf256();
    hide BigEndian;
    hide ToBigEndian;
    hide Pow256;
    BigEndianBound(s);
    WriteAfterRead(s);
  }

  /** The decoder accepts exactly the encodings. */
  lemma AcceptsExactlyEncodings(payload: seq<byte>)
    requires |payload| < TWO_32
    ensures Decoded(payload).Ok? <==> exists blobs :: Encoded(blobs) == payload
  {
    if Decoded(payload).Ok? {
      EncodeAfterDecode(payload);
    }
    if blobs :| Encoded(blobs) == payload {
      DecodeAfterEncode(blobs);
    }
  }

  // ---------------------------------------------------------------- frames

  function FrameBytes(f: Frame): seq<byte>
  {
    [f.op] + Prefix32(|f.payload|) + f.payload
  }

  function AllFrameBytes(fs: seq<Frame>): seq<byte>
  {
    if fs == [] then [] else FrameBytes(fs[0]) + AllFrameBytes(fs[1..])
  }

  /** io.ReadFull on what is left of a stream that ends: nothing at all is an end of
      file, less than asked for an unexpected one. */
  function ShortRead(have: nat): WireError
  {
    if have == 0 then Eof else UnexpectedEof
  }

  /** Reads one frame: the frame and what follows it, or the error. */
  function ParseFrame(s: seq<byte>): (r: Result<(Frame, seq<byte>)>)
    ensures r.Ok? ==> |r.value.1| < |s|
  {
    if |s| < 5 then Err(ShortRead(|s|))
    else
      var n := BigEndian(s[1..5]);
      if n > MAX_FRAME then Err(FrameTooLarge)
      else if |s| - 5 < n then Err(ShortRead(|s| - 5))
      else Ok((Frame(s[0], s[5..5 + n]), s[5 + n..]))
  }

  /** What a reader that loops until the first error gets: the frames and that error. */
  function ParseAll(s: seq<byte>): (seq<Frame>, WireError)
    decreases |s|
  {
    match ParseFrame(s)
    case Err(e) => ([], e)
    case Ok((f, rest)) => var (fs, e) := ParseAll(rest); ([f] + fs, e)
  }

  /** One direction of a connection: the bytes written and not yet read, after which comes
      the end of file, and how many more bytes can be written before it breaks. */
  class Stream {
    var bytes: seq<byte>
    var room: nat

    constructor (room: nat)
      ensures bytes == [] && this.room == room
    {
      this.bytes, this.room := [], room;
    }

    /** A write that fails has written what there was room for. */
    method Write(p: seq<byte>) returns (ok: bool)
      modifies this
      ensures ok == (|p| <= old(room))
      ensures var n := if ok then |p| else old(room);
              bytes == old(bytes) + p[..n] && room == old(room) - n
    {
      ok := |p| <= room;
      var n := if ok then |p| else room;
      bytes := bytes + p[..n];
      room := room - n;
    }

    method ReadFull(n: nat) returns (r: Result<seq<byte>>)
      modifies this`bytes
      ensures |old(bytes)| >= n ==> r == Ok(old(bytes)[..n]) && bytes == old(bytes)[n..]
      ensures |old(bytes)| < n ==> r == Err(ShortRead(|old(bytes)|)) && bytes == []
    {
      if |bytes| < n {
        r := Err(ShortRead(|bytes|));
        bytes := [];
      } else {
        r := Ok(bytes[..n]);
        bytes := bytes[n..];
      }
    }
  }

  lemma SliceOfSlice(s: seq<byte>, a: nat, n: nat)
    requires a + n <= |s|
    ensures s[a..][..n] == s[a..a + n] && s[a..][n..] == s[a + n..]
  {
  }

  /** What a write of s leaves in a stream with this much room. */
  function Sent(s: seq<byte>, room: nat): seq<byte>
  {
    if |s| <= room then s else s[..room]
  }

  /** A frame that is too large is refused; otherwise the whole frame is written, or, if the
      connection breaks in the header or in the payload, a part of it which nobody takes
      for a frame. */
  method WriteFrame(w: Stream, op: byte, payload: seq<byte>) returns (ok: bool)
    modifies w
    ensures |payload| > MAX_FRAME ==> !ok && w.bytes == old(w.bytes) && w.room == old(w.room)
    ensures |payload| <= MAX_FRAME ==>
              && ok == (|FrameBytes(Frame(op, payload))| <= old(w.room))
              && w.bytes == old(w.bytes) + Sent(FrameBytes(Frame(op, payload)), old(w.room))
              && (!ok && old(w.bytes) == [] ==> ParseFrame(w.bytes).Err?)
  {
    hide ParseFrame;
    hide Prefix32;
    if |payload| > MAX_FRAME {
      return false;
    }
    ghost var f, room := Frame(op, payload), w.room;
    if room < |FrameBytes(f)| {
      ParseCut(f, room);
    }
    var hdr := [op] + Prefix32(|payload|);
    var sent := w.Write(hdr);
    if !sent {
      assert hdr[..room] == FrameBytes(f)[..room];
      assert old(w.bytes) == [] ==> w.bytes == FrameBytes(f)[..room];
      return false;
    }
    assert FrameBytes(f) == hdr + payload;
    ok := w.Write(payload);
    if ok {
      assert old(w.bytes) + hdr + payload == old(w.bytes) + FrameBytes(f);
    } else {
      assert old(w.bytes) + hdr + payload[..room - 5] == old(w.bytes) + FrameBytes(f)[..room];
      assert old(w.bytes) == [] ==> w.bytes == FrameBytes(f)[..room];
    }
  }

  method ReadFrame(r: Stream) returns (res: Result<Frame>)
    modifies r`bytes
    ensures res == (match ParseFrame(old(r.bytes)) case Ok((f, _)) => Ok(f) case Err(e) => Err(e))
    ensures ParseFrame(old(r.bytes)).Ok? ==> r.bytes == ParseFrame(old(r.bytes)).value.1
  {
    hide BigEndian;
    var hdr := r.ReadFull(5);
    if hdr.Err? {
      return Err(hdr.error);
    }
    ghost var s := old(r.bytes);
    assert s[..5][1..] == s[1..5];
    var n := BigEndian(hdr.value[1..]);
    if n > MAX_FRAME {
      return Err(FrameTooLarge);
    }
    var payload := r.ReadFull(n);
    if payload.Err? {
      return Err(payload.error);
    }
    SliceOfSlice(s, 5, n);
    return Ok(Frame(hdr.value[0], payload.value));
  }

  /** Of a frame and what follows it, the frame is read and the rest is left. */
  lemma ParseWritten(f: Frame, rest: seq<byte>)
    requires |f.payload| <= MAX_FRAME
    ensures ParseFrame(FrameBytes(f) + rest) == Ok((f, rest))
  {
    hide Prefix32;
    var n := |f.payload|;
    var s := FrameBytes(f) + rest;
    assert s == [f.op] + (Prefix32(n) + (f.payload + rest));
    ReadPrefix32(n);
    assert s[1..5] == Prefix32(n);
    assert s[5..5 + n] == f.payload;
    assert s[5 + n..] == rest;
  }

  /** A frame that is cut off anywhere is an error; the clean end of file is reported
      when nothing of it arrived, and also when just the header did. */
  lemma ParseCut(f: Frame, k: nat)
    requires |f.payload| <= MAX_FRAME && k < |FrameBytes(f)|
    ensures ParseFrame(FrameBytes(f)[..k]) == Err(if k == 0 || k == 5 then Eof else UnexpectedEof)
  {
    hide Prefix32;
    if k >= 5 {
      ReadPrefix32(|f.payload|);
      assert FrameBytes(f)[..k][1..5] == Prefix32(|f.payload|);
    }
  }

  /** Any sequence of written frames, the last one possibly cut off, is read back as the
      same sequence and then an error. */
  lemma {:induction false} ReadBack(fs: seq<Frame>, last: Frame, k: nat)
    requires forall i :: 0 <= i < |fs| ==> |fs[i].payload| <= MAX_FRAME
    requires |last.payload| <= MAX_FRAME && k < |FrameBytes(last)|
    ensures ParseAll(AllFrameBytes(fs) + FrameBytes(last)[..k])
            == (fs, if k == 0 || k == 5 then Eof else UnexpectedEof)
    decreases |fs|
  {
    hide FrameBytes;
    hide ParseFrame;
    var cut := FrameBytes(last)[..k];
    if fs == [] {
      assert AllFrameBytes(fs) + cut == cut;
      ParseCut(last, k);
    } else {
      var s := AllFrameBytes(fs[1..]) + cut;
      assert AllFrameBytes(fs) + cut == FrameBytes(fs[0]) + s;
      ParseWritten(fs[0], s);
      ReadBack(fs[1..], last, k);
      assert fs == [fs[0]] + fs[1..];
    }
  }

  /** The frames that are read are exactly the frames that can be written: a frame within
      the limit, and whatever follows it. */
  lemma ParseExactly(s: seq<byte>, f: Frame, rest: seq<byte>)
    ensures ParseFrame(s) == Ok((f, rest)) <==> |f.payload| <= MAX_FRAME && s == FrameBytes(f) + rest
  {
    if ParseFrame(s) == Ok((f, rest)) {
      hide Prefix32;
      hide BigEndian;
      PrefixOfRead(s[1..5]);
      var n := BigEndian(s[1..5]);
      assert s == [s[0]] + s[1..5] + s[5..5 + n] + s[5 + n..];
    }
    if |f.payload| <= MAX_FRAME && s == FrameBytes(f) + rest {
      hide ParseFrame;
      hide FrameBytes;
      ParseWritten(f, rest);
    }
  }

  /** Which byte of a length prefix is which. */
  lemma Prefix32Is(n: nat)
    requires n < TWO_32
    ensures Prefix32(n) == [n / 0x100_0000, n / 0x1_0000 % 0x100, n / 0x100 % 0x100, n % 0x100]
  {
    var m := n % TWO_32;
    assert m == n;
    assert ToBigEndian(m, 4) == ToBigEndian(m / 256, 3) + [m % 256];
    assert ToBigEndian(m / 256, 3) == ToBigEndian(m / 256 / 256, 2) + [m / 256 % 256];
    assert ToBigEndian(m / 256 / 256, 2) == ToBigEndian(m / 256 / 256 / 256, 1) + [m / 256 / 256 % 256];
    assert ToBigEndian(m / 256 / 256 / 256, 1) == ToBigEndian(m / 256 / 256 / 256 / 256, 0) + [m / 256 / 256 / 256 % 256];
  }

  /** A message is its first blob, with its length before it, and the rest. */
  lemma EncodedFirst(b: Blob, rest: seq<Blob>)
    ensures Encoded([b] + rest) == Prefix32(|b|) + b + Encoded(rest)
  {
    hide Prefix32;
    assert ([b] + rest)[1..] == rest;
  }

  /** Messages are put together blob by blob. */
  lemma {:induction false} EncodedJoin(a: seq<Blob>, b: seq<Blob>)
    ensures Encoded(a + b) == Encoded(a) + Encoded(b)
    decreases |a|
  {
    if a == [] {
      assert a + b == b;
    } else {
      hide *;
      assert a == [a[0]] + a[1..] && a + b == [a[0]] + (a[1..] + b);
      EncodedFirst(a[0], a[1..]);
      EncodedFirst(a[0], a[1..] + b);
      EncodedJoin(a[1..], b);
    }
  }
}
