/** The database as a worker sees it: requests and responses over one connection. */
module Client {
  import opened Bytes
  import opened Protocol
  import opened Service
  import opened Server

  datatype Got = Present | Absent | SocketError

  /** What a response byte means to a HAS. */
  function GotOf(inbound: seq<byte>): Got
  {
    if inbound == [] then SocketError
    else if inbound[0] == RESP_PRESENT then Present
    else if inbound[0] == RESP_ABSENT then Absent
    else SocketError
  }

  class SocketDb {
    /** The two directions of the connection. An empty inbound stream is a closed one. */
    const outbound: Stream
    const inbound: Stream

    constructor (outbound: Stream, inbound: Stream)
      ensures this.outbound == outbound && this.inbound == inbound
    {
      this.outbound, this.inbound := outbound, inbound;
    }

    method ReadByte() returns (r: Result<byte>)
      modifies inbound`bytes
      ensures old(inbound.bytes) == [] ==> r.Err? && inbound.bytes == []
      ensures old(inbound.bytes) != [] ==> r == Ok(old(inbound.bytes)[0]) && inbound.bytes == old(inbound.bytes)[1..]
    {
      var one := inbound.ReadFull(1);
      match one {
        case Ok(s) => r := Ok(s[0]);
        case Err(e) => r := Err(e);
      }
    }

    /** What is left to read when one byte, if there is any, has been taken. */
    function Taken(s: seq<byte>): seq<byte>
    {
      if s == [] then [] else s[1..]
    }

    /** A key that does not fit a frame is refused without a byte being sent. If the frame
        cannot be written whole, no response is waited for; otherwise one byte is taken. */
    method Get(key: Key) returns (r: Got)
      requires outbound != inbound
      modifies outbound, inbound`bytes
      ensures |key| > MAX_FRAME ==>
                r == SocketError && outbound.bytes == old(outbound.bytes) && inbound.bytes == old(inbound.bytes)
      ensures |key| <= MAX_FRAME ==>
                var f, room := FrameBytes(Frame(OP_HAS, key)), old(outbound.room);
                && outbound.bytes == old(outbound.bytes) + Sent(f, room)
                && r == (if |f| <= room then GotOf(old(inbound.bytes)) else SocketError)
                && inbound.bytes == if |f| <= room then Taken(old(inbound.bytes)) else old(inbound.bytes)
    {
      hide FrameBytes;
      hide ParseFrame;
      var ok := WriteFrame(outbound, OP_HAS, key);
      if !ok {
        return SocketError;
      }
      r := Response();
    }

    /** Takes the response to a HAS. */
    method Response() returns (r: Got)
      modifies inbound`bytes
      ensures r == GotOf(old(inbound.bytes)) && inbound.bytes == Taken(old(inbound.bytes))
    {
      var resp := ReadByte();
      match resp {
        case Err(_) => r := SocketError;
        case Ok(b) => r := if b == RESP_PRESENT then Present else if b == RESP_ABSENT then Absent else SocketError;
      }
    }

    /** Set and SetBatch: one PUT frame with the values only, acknowledged or not. */
    method PutBlobs(blobs: seq<Blob>) returns (ok: bool)
      requires outbound != inbound
      modifies outbound, inbound`bytes
      ensures |Encoded(blobs)| > MAX_FRAME ==>
                !ok && outbound.bytes == old(outbound.bytes) && inbound.bytes == old(inbound.bytes)
      ensures |Encoded(blobs)| <= MAX_FRAME ==>
                var f, room := FrameBytes(Frame(OP_PUT, Encoded(blobs))), old(outbound.room);
                && outbound.bytes == old(outbound.bytes) + Sent(f, room)
                && ok == (|f| <= room && old(inbound.bytes) != [] && old(inbound.bytes)[0] == RESP_ACK)
                && inbound.bytes == if |f| <= room then Taken(old(inbound.bytes)) else old(inbound.bytes)
    {
      hide FrameBytes;
      hide ParseFrame;
      hide Encoded;
      var payload := EncodeBlobs(blobs);
      ok := WriteFrame(outbound, OP_PUT, payload);
      if !ok {
        return;
      }
      var resp := ReadByte();
      ok := resp.Ok? && resp.value == RESP_ACK;
    }
  }

  /** What a worker sends is what the server's handler starts on: the key that was asked
      for, or every blob in order, and what follows in the stream is left there. */
  lemma RequestArrives(cfg: Config, job: Job, rest: seq<byte>)
    requires |Request(cfg, job).payload| <= MAX_FRAME
    ensures var f := Request(cfg, job);
            && ParseFrame(FrameBytes(f) + rest) == Ok((f, rest))
            && Dispatch(f) == if IsPut(job) then Checking(Blobs(job), []) else Looking(Asked(cfg, job))
  {
    hide Encoded;
    hide Decoded;
    ParseWritten(Request(cfg, job), rest);
    if IsPut(job) {
      DecodeAfterEncode(Blobs(job));
    }
  }

  /** From end to end: asked for a key, the server answers a byte on which Get says that the
      key is present if and only if it is stored and the access does not fail; otherwise Get
      says that it is not found, and never that the socket failed. */
  lemma GetTellsTruth(db: map<Key, Blob>, key: Key, fails: bool, more: seq<byte>)
    ensures var got := GotOf([HasReply(db, key, fails)] + more);
            && (got == Present <==> !fails && key in db)
            && (got == Absent <==> fails || key !in db)
  {
  }

  /** Asks the server itself: the frame that Get sends is read, handled and answered. */
  method Ask(client: SocketDb, server: DbServer, key: Key, fails: nat -> bool) returns (r: Got)
    requires client.outbound != client.inbound && client.outbound.bytes == [] && client.inbound.bytes == []
    requires |key| <= MAX_FRAME && |FrameBytes(Frame(OP_HAS, key))| <= client.outbound.room && client.inbound.room >= 1
    modifies client.outbound, client.inbound, server, server.db
    ensures server.db.entries == old(server.db.entries)
    ensures r == Present <==> !fails(0) && key in server.db.entries
    ensures r == Absent <==> fails(0) || key !in server.db.entries
  {
    hide FrameBytes;
    hide ParseFrame;
    ghost var f := Frame(OP_HAS, key);
    ParseWritten(f, []);
    assert FrameBytes(f) + [] == FrameBytes(f) && [] + FrameBytes(f) == FrameBytes(f);
    var sent := WriteFrame(client.outbound, OP_HAS, key);
    var asked := ReadFrame(client.outbound);
    var reply := server.HandleFrame(asked.value, fails);
    var answered := client.inbound.Write([reply.value]);
    assert [reply.value][..1] == [reply.value] && [] + [reply.value] == [reply.value];
    GetTellsTruth(server.db.entries, key, fails(0), []);
    assert [reply.value] + [] == [reply.value];
    r := client.Response();
  }
}
