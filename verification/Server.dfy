/**
 The database and the server's handling of one frame as the procedures they are, and what
 a worker's run makes of the database. Executed alone, a PUT is one path of the interleaved
 steps of the service.
 */
module Server {
  import opened Bytes
  import opened Protocol
  import opened Service
  import opened KeySet

  datatype Lookup = Found(value: Blob) | NotFound | Failed

  /** The key-value store. Whether an access fails is decided from outside. */
  class Database {
    var entries: map<Key, Blob>

    constructor ()
      ensures entries == map[]
    {
      entries := map[];
    }

    method Get(key: Key, fails: bool) returns (r: Lookup)
      ensures r == if fails then Failed else if key in entries then Found(entries[key]) else NotFound
    {
      if fails {
        return Failed;
      }
      if key in entries {
        return Found(entries[key]);
      }
      return NotFound;
    }

    /** Collects a batch and commits it: all of it or, on an error, nothing. */
    method SetBatch(cfg: Config, codes: seq<Blob>, fails: bool) returns (ok: bool)
      modifies this
      ensures ok == !fails
      ensures entries == if ok then WriteAll(cfg, old(entries), codes) else old(entries)
    {
      var batch := entries;
      for i := 0 to |codes|
        invariant batch == WriteAll(cfg, entries, codes[..i]) && entries == old(entries)
      {
        assert codes[..i + 1][..i] == codes[..i];
        batch := batch[cfg.makeKey(codes[i]) := codes[i]];
      }
      assert codes[..|codes|] == codes;
      if fails {
        return false;
      }
      entries := batch;
      return true;
    }
  }

  // ---------------------------------------------------------------- the server

  /** The blobs of a PUT that are not stored yet, in order and with repetitions. */
  function Missing(cfg: Config, db: map<Key, Blob>, blobs: seq<Blob>): (m: seq<Blob>)
    ensures |m| <= |blobs|
    ensures forall b :: b in m <==> b in blobs && cfg.makeKey(b) !in db
  {
    if blobs == [] then []
    else
      var n := |blobs| - 1;
      Missing(cfg, db, blobs[..n]) + if cfg.makeKey(blobs[n]) in db then [] else [blobs[n]]
  }

  lemma MissingNext(cfg: Config, db: map<Key, Blob>, blobs: seq<Blob>, i: nat)
    requires i < |blobs|
    ensures Missing(cfg, db, blobs[..i + 1])
            == if cfg.makeKey(blobs[i]) in db then Missing(cfg, db, blobs[..i]) else Missing(cfg, db, blobs[..i]) + [blobs[i]]
  {
    assert blobs[..i + 1][..i] == blobs[..i];
  }

  /** How many of the blobs from number i on are looked up: all, or those up to and with the
      first one whose lookup fails. */
  function LookedUp(i: nat, n: nat, fails: nat -> bool): nat
    requires i <= n
    decreases n - i
  {
    if i == n then 0 else if fails(i) then 1 else 1 + LookedUp(i + 1, n, fails)
  }

  /** They end with the first failure, or there is none. */
  lemma {:induction false} LookedUpToFailure(i: nat, n: nat, fails: nat -> bool)
    requires i <= n
    ensures var k := LookedUp(i, n, fails);
            && k <= n - i && (forall j: nat :: i <= j < i + k - 1 ==> !fails(j))
            && if k > 0 && fails(i + k - 1) then exists j: nat :: i <= j < n && fails(j)
               else k == n - i && forall j: nat :: i <= j < n ==> !fails(j)
    decreases n - i
  {
    if i == n {
    } else if !fails(i) {
      LookedUpToFailure(i + 1, n, fails);
    }
  }

  /** An access that the PUT of these blobs needs fails: the lookup of a blob, or, if any
      blob is missing, the batch. */
  predicate NeededFail(cfg: Config, db: map<Key, Blob>, blobs: seq<Blob>, fails: nat -> bool)
  {
    (exists i: nat :: i < |blobs| && fails(i)) || (Missing(cfg, db, blobs) != [] && fails(|blobs|))
  }

  predicate PutWorks(cfg: Config, db: map<Key, Blob>, payload: seq<byte>, fails: nat -> bool)
  {
    Decoded(payload).Ok? && !NeededFail(cfg, db, Decoded(payload).value, fails)
  }

  /** What a PUT makes of the database. */
  function AfterPut(cfg: Config, db: map<Key, Blob>, payload: seq<byte>, fails: nat -> bool): map<Key, Blob>
  {
    if PutWorks(cfg, db, payload, fails) then WriteAll(cfg, db, Missing(cfg, db, Decoded(payload).value)) else db
  }

  /** The handler acknowledges every PUT. The acknowledgement is true, all its blobs are
      stored, if and only if no access that was needed failed, or they were all stored
      before the PUT. */
  lemma AckIsTrueExactly(cfg: Config, db: map<Key, Blob>, payload: seq<byte>, fails: nat -> bool)
    requires Decoded(payload).Ok?
    ensures var blobs := Decoded(payload).value;
            AllIn(cfg, AfterPut(cfg, db, payload, fails), blobs)
            <==> !NeededFail(cfg, db, blobs, fails) || AllIn(cfg, db, blobs)
  {
    hide WriteAll;
    hide Missing;
    hide Decoded;
    hide NeededFail;
    var blobs := Decoded(payload).value;
    if !NeededFail(cfg, db, blobs, fails) {
      forall i | 0 <= i < |blobs|
        ensures Has(cfg, AfterPut(cfg, db, payload, fails), blobs[i])
      {
        WriteAllHas(cfg, db, Missing(cfg, db, blobs), blobs[i]);
      }
    }
  }

  /** The service's database may fail in the way the outside decides. */
  function Faulty(cfg: Config): Config
  {
    cfg.(faulty := true)
  }

  /** The state of a service with one connection, seen between two steps of its handler. */
  function Alone(db: map<Key, Blob>, stored: nat, received: nat, server: ServerPc): State
  {
    State(db, stored, received, [Conn(Awaiting, NoJob, None, server, None)], {})
  }

  lemma {:induction false} LeadsSnoc(cfg: Config, s: State, es: seq<Event>, t: State, e: Event)
    requires Leads(cfg, s, es, t) && Enabled(cfg, t, e)
    ensures Leads(cfg, s, es + [e], Apply(cfg, t, e))
    decreases |es|
  {
    hide Enabled;
    hide Apply;
    if es == [] {
      assert ([] + [e])[1..] == [];
      assert Leads(cfg, Apply(cfg, t, e), [], Apply(cfg, t, e));
    } else {
      LeadsSnoc(cfg, Apply(cfg, s, es[0]), es[1..], t, e);
      assert (es + [e])[1..] == es[1..] + [e];
    }
  }

  lemma LookedUpNext(i: nat, n: nat, fails: nat -> bool)
    requires i < n
    ensures LookedUp(i, n, fails) == if fails(i) then 1 else 1 + LookedUp(i + 1, n, fails)
  {
  }

  lemma LookedUpNone(n: nat, fails: nat -> bool)
    ensures LookedUp(n, n, fails) == 0
  {
  }

  lemma LeadsNowhere(cfg: Config, s: State)
    ensures Leads(cfg, s, [], s)
  {
  }

  /** One more blob looked up. */
  lemma CheckOne(cfg: Config, db: map<Key, Blob>, stored: nat, received: nat, blobs: seq<Blob>, i: nat, ok: bool,
                 s: State, es: seq<Event>)
    requires i < |blobs|
    requires Leads(Faulty(cfg), s, es, Alone(db, stored, received, Checking(blobs[i..], Missing(cfg, db, blobs[..i]))))
    ensures Leads(Faulty(cfg), s, es + [Check(0, ok)],
                  Alone(db, stored, received + 1, if ok then Checking(blobs[i + 1..], Missing(cfg, db, blobs[..i + 1]))
                                                  else Answering(RESP_ACK)))
  {
    hide Leads;
    hide Missing;
    MissingNext(cfg, db, blobs, i);
    assert blobs[i..][1..] == blobs[i + 1..];
    var t := Alone(db, stored, received, Checking(blobs[i..], Missing(cfg, db, blobs[..i])));
    assert Apply(Faulty(cfg), t, Check(0, ok)).conns ==
           [Conn(Awaiting, NoJob, None, if ok then Checking(blobs[i + 1..], Missing(cfg, db, blobs[..i + 1]))
                                        else Answering(RESP_ACK), None)];
    LeadsSnoc(Faulty(cfg), s, es, Alone(db, stored, received, Checking(blobs[i..], Missing(cfg, db, blobs[..i]))), Check(0, ok));
  }

  lemma {:induction false} WriteAllFaulty(cfg: Config, db: map<Key, Blob>, batch: seq<Blob>)
    ensures WriteAll(Faulty(cfg), db, batch) == WriteAll(cfg, db, batch)
    decreases |batch|
  {
    if batch == [] {
    } else {
      WriteAllFaulty(cfg, db, batch[..|batch| - 1]);
    }
  }

  /** The end of a PUT: nothing to write, a failed batch, or a batch written and counted. */
  lemma Conclude(cfg: Config, db: map<Key, Blob>, stored: nat, received: nat, batch: seq<Blob>, ok: bool,
                 s: State, es: seq<Event>) returns (fs: seq<Event>)
    requires Leads(Faulty(cfg), s, es, Alone(db, stored, received, Checking([], batch)))
    ensures var written := ok && batch != [];
            Leads(Faulty(cfg), s, fs, Alone(if written then WriteAll(cfg, db, batch) else db,
                                            if written then stored + |batch| else stored,
                                            received, Answering(RESP_ACK)))
  {
    hide Leads;
    hide WriteAll;
    var c := Faulty(cfg);
    var t := Alone(db, stored, received, Checking([], batch));
    if batch == [] {
      fs := es + [Nothing(0)];
      assert Apply(c, t, Nothing(0)) == Alone(db, stored, received, Answering(RESP_ACK));
      LeadsSnoc(c, s, es, t, Nothing(0));
    } else if !ok {
      fs := es + [Commit(0, false)];
      assert Apply(c, t, Commit(0, false)) == Alone(db, stored, received, Answering(RESP_ACK));
      LeadsSnoc(c, s, es, t, Commit(0, false));
    } else {
      WriteAllFaulty(cfg, db, batch);
      LeadsSnoc(c, s, es, t, Commit(0, true));
      var u := Alone(WriteAll(cfg, db, batch), stored, received, Counting(|batch|));
      assert Apply(c, t, Commit(0, true)) == u;
      fs := es + [Commit(0, true)] + [Count(0)];
      assert Apply(c, u, Count(0)) == Alone(WriteAll(cfg, db, batch), stored + |batch|, received, Answering(RESP_ACK));
      LeadsSnoc(c, s, es + [Commit(0, true)], u, Count(0));
    }
  }

  /** The answer to a HAS. */
  function HasReply(db: map<Key, Blob>, key: Key, fails: bool): byte
  {
    if !fails && key in db then RESP_PRESENT else RESP_ABSENT
  }

  class DbServer {
    const cfg: Config
    const db: Database
    var stored: nat
    var received: nat

    constructor (cfg: Config, db: Database)
      ensures this.cfg == cfg && this.db == db && stored == 0 && received == 0
    {
      this.cfg, this.db := cfg, db;
      stored, received := 0, 0;
    }

    method Has(hash: Key, fails: bool) returns (have: bool, ok: bool)
      ensures ok == !fails && have == (ok && hash in db.entries)
    {
      var r := db.Get(hash, fails);
      return r.Found?, !r.Failed?;
    }

    /** One turn of the loop of a PUT. */
    method LookUp(blobs: seq<Blob>, i: nat, missing: seq<Blob>, fails: bool, ghost s: State, ghost es: seq<Event>)
        returns (ok: bool, batch: seq<Blob>, ghost es': seq<Event>)
      requires i < |blobs| && missing == Missing(cfg, db.entries, blobs[..i])
      requires Leads(Faulty(cfg), s, es, Alone(db.entries, stored, received, Checking(blobs[i..], missing)))
      modifies this`received
      ensures ok == !fails && received == old(received) + 1
      ensures ok ==> batch == Missing(cfg, db.entries, blobs[..i + 1])
      ensures Leads(Faulty(cfg), s, es',
                    Alone(db.entries, stored, received, if ok then Checking(blobs[i + 1..], batch) else Answering(RESP_ACK)))
    {
      hide *;
      CheckOne(cfg, db.entries, stored, received, blobs, i, !fails, s, es);
      MissingNext(cfg, db.entries, blobs, i);
      received := received + 1;
      es' := es + [Check(0, !fails)];
      batch := missing;
      var r := db.Get(cfg.makeKey(blobs[i]), fails);
      if r.Failed? {
        return false, batch, es';
      }
      if r.NotFound? {
        batch := batch + [blobs[i]];
      }
      return true, batch, es';
    }

    /** The loop of a PUT: looks every blob up and collects the missing ones, until an
        access fails. */
    method Collect(blobs: seq<Blob>, fails: nat -> bool) returns (ok: bool, batch: seq<Blob>, ghost es: seq<Event>)
      modifies this`received
      ensures ok <==> forall j: nat :: j < |blobs| ==> !fails(j)
      ensures ok ==> batch == Missing(cfg, db.entries, blobs)
      ensures received == old(received) + LookedUp(0, |blobs|, fails)
      ensures Leads(Faulty(cfg), old(Alone(db.entries, stored, received, Checking(blobs, []))), es,
                    Alone(db.entries, stored, received, if ok then Checking([], batch) else Answering(RESP_ACK)))
    {
      hide *;
      es, batch := [], [];
      ghost var s := Alone(db.entries, stored, received, Checking(blobs, []));
      NothingMissing(cfg, db.entries);
      LeadsNowhere(Faulty(cfg), s);
      assert blobs[..0] == [] && blobs[0..] == blobs;
      for i := 0 to |blobs|
        invariant received == old(received) + i
        invariant batch == Missing(cfg, db.entries, blobs[..i])
        invariant forall j: nat :: j < i ==> !fails(j)
        invariant i + LookedUp(i, |blobs|, fails) == LookedUp(0, |blobs|, fails)
        invariant Leads(Faulty(cfg), s, es, Alone(db.entries, stored, received, Checking(blobs[i..], batch)))
      {
        LookedUpNext(i, |blobs|, fails);
        ok, batch, es := LookUp(blobs, i, batch, fails(i), s, es);
        if !ok {
          return;
        }
      }
      assert blobs[..|blobs|] == blobs && blobs[|blobs|..] == [];
      LookedUpNone(|blobs|, fails);
      return true, batch, es;
    }

    /** Stores the missing blobs of a payload in one batch. `fails` tells which of the
        accesses, counted from zero, fail. */
    method Put(payload: seq<byte>, fails: nat -> bool) returns (ok: bool, ghost es: seq<Event>)
      modifies this, db
      ensures db.entries == AfterPut(cfg, old(db.entries), payload, fails)
      ensures ok == PutWorks(cfg, old(db.entries), payload, fails)
      ensures stored == old(stored) + if ok then |Missing(cfg, old(db.entries), Decoded(payload).value)| else 0
      // Every blob looked up counts as received, one whose lookup fails included.
      ensures received == old(received) + if Decoded(payload).Ok? then LookedUp(0, |Decoded(payload).value|, fails) else 0
      ensures Leads(Faulty(cfg), old(Alone(db.entries, stored, received, Dispatch(Frame(OP_PUT, payload)))), es,
                    Alone(db.entries, stored, received, Answering(RESP_ACK)))
    {
      hide Missing;
      hide WriteAll;
      hide Faulty;
      hide Enabled;
      hide Apply;
      hide Decoded;
      hide LookedUp;
      es := [];
      ghost var s := Alone(db.entries, stored, received, Dispatch(Frame(OP_PUT, payload)));
      var decoded := DecodeBlobs(payload);
      if decoded.Err? {
        return false, es;
      }
      var blobs := decoded.value;
      hide Leads;
      var collected, batch, es' := Collect(blobs, fails);
      es := es';
      if !collected {
        return false, es;
      }
      es := Conclude(cfg, db.entries, stored, received, batch, !fails(|blobs|), s, es);
      if |batch| == 0 {
        WriteNothing(cfg, db.entries);
        return true, es;
      }
      ok := db.SetBatch(cfg, batch, fails(|blobs|));
      if ok {
        stored := stored + |batch|;
      }
    }

    /** One round of the handler: what it answers, and nothing for an unknown opcode. A PUT
        is acknowledged whether it succeeded or not. */
    method HandleFrame(f: Frame, fails: nat -> bool) returns (reply: Option<byte>)
      modifies this, db
      ensures f.op == OP_HAS ==>
                && db.entries == old(db.entries)
                && reply == Some(HasReply(db.entries, f.payload, fails(0)))
      ensures f.op == OP_PUT ==>
                reply == Some(RESP_ACK) && db.entries == AfterPut(cfg, old(db.entries), f.payload, fails)
      // The acknowledgement is true if and only if no access the PUT needs fails or all
      // blobs were stored before; one of a payload that cannot be decoded changes nothing.
      ensures f.op == OP_PUT && Decoded(f.payload).Ok? ==>
                var blobs := Decoded(f.payload).value;
                AllIn(cfg, db.entries, blobs)
                <==> !NeededFail(cfg, old(db.entries), blobs, fails) || AllIn(cfg, old(db.entries), blobs)
      ensures f.op == OP_PUT && Decoded(f.payload).Err? ==> db.entries == old(db.entries)
      ensures f.op != OP_HAS && f.op != OP_PUT ==> reply == None && db.entries == old(db.entries)
      ensures old(db.entries.Keys) <= db.entries.Keys
      ensures old(Hashed(cfg, db.entries)) ==> Hashed(cfg, db.entries)
    {
      hide AfterPut;
      hide NeededFail;
      hide Decoded;
      if f.op == OP_HAS {
        var resp := RESP_ABSENT;
        var have, ok := Has(f.payload, fails(0));
        if ok && have {
          resp := RESP_PRESENT;
        }
        return Some(resp);
      }
      if f.op == OP_PUT {
        PutKeeps(cfg, db.entries, f.payload, fails);
        if Decoded(f.payload).Ok? {
          AckIsTrueExactly(cfg, db.entries, f.payload, fails);
        }
        var ok, _ := Put(f.payload, fails);
        return Some(RESP_ACK);
      }
      return None;
    }
  }

  /** No PUT removes a key or stores a blob under a wrong one; one that cannot be decoded
      does nothing. */
  lemma PutKeeps(cfg: Config, db: map<Key, Blob>, payload: seq<byte>, fails: nat -> bool)
    ensures var t := AfterPut(cfg, db, payload, fails);
            db.Keys <= t.Keys && (Hashed(cfg, db) ==> Hashed(cfg, t)) && (Decoded(payload).Err? ==> t == db)
  {
    hide WriteAll;
    hide Missing;
    hide Decoded;
    hide NeededFail;
    if PutWorks(cfg, db, payload, fails) {
      var m := Missing(cfg, db, Decoded(payload).value);
      WriteAllKeys(cfg, db, m);
      if Hashed(cfg, db) {
        WriteAllHashed(cfg, db, m);
      }
    }
  }

  lemma NothingMissing(cfg: Config, db: map<Key, Blob>)
    ensures Missing(cfg, db, []) == []
  {
  }

  lemma WriteNothing(cfg: Config, db: map<Key, Blob>)
    ensures WriteAll(cfg, db, []) == db
  {
  }

  /** What a successful PUT stores: the database then holds every blob of the payload and
      no key besides. */
  lemma PutStoresAll(cfg: Config, db: map<Key, Blob>, blobs: seq<Blob>)
    ensures WriteAll(cfg, db, Missing(cfg, db, blobs)).Keys == db.Keys + KeysOf(cfg, blobs)
  {
    hide WriteAll;
    hide Missing;
    var m := Missing(cfg, db, blobs);
    WriteAllKeys(cfg, db, m);
    forall key | key in KeysOf(cfg, blobs)
      ensures key in WriteAll(cfg, db, m).Keys
    {
      var i :| 0 <= i < |blobs| && key == cfg.makeKey(blobs[i]);
      WriteAllHas(cfg, db, m, blobs[i]);
    }
    forall key | key in WriteAll(cfg, db, m).Keys && key !in db.Keys
      ensures key in KeysOf(cfg, blobs)
    {
      var i :| 0 <= i < |m| && key == cfg.makeKey(m[i]);
      assert m[i] in blobs;
      var j :| 0 <= j < |blobs| && blobs[j] == m[i];
      assert cfg.makeKey(blobs[j]) in KeysOf(cfg, blobs);
    }
  }

  // ---------------------------------------------------------------- a worker's run

  /** What a run makes of the database. */
  function AfterRun(cfg: Config, db: map<Key, Blob>, full: Blob, verdict: Verdict): map<Key, Blob>
  {
    if Has(cfg, db, full) || verdict.Unminimizable? then db
    else if verdict.Minimal? && !Has(cfg, db, verdict.min) then WriteAll(cfg, db, [full, verdict.min])
    else WriteAll(cfg, db, [full])
  }

  /** Which keys a run adds, for each verdict; a full code that is there already ends it. */
  lemma RunStoresExactly(cfg: Config, db: map<Key, Blob>, full: Blob, verdict: Verdict)
    ensures var t := AfterRun(cfg, db, full, verdict);
            && (Has(cfg, db, full) || verdict == Unminimizable ==> t == db)
            && (!Has(cfg, db, full) && verdict == TooLarge ==> t.Keys == db.Keys + {cfg.makeKey(full)})
            && (!Has(cfg, db, full) && verdict.Minimal? ==>
                  t.Keys == db.Keys + {cfg.makeKey(full), cfg.makeKey(verdict.min)})
  {
    hide WriteAll;
    WriteAllKeys(cfg, db, [full]);
    assert KeysOf(cfg, [full]) == {cfg.makeKey(full)} by { assert [full][0] == full; }
    if verdict.Minimal? {
      var both := [full, verdict.min];
      WriteAllKeys(cfg, db, both);
      assert both[0] == full && both[1] == verdict.min;
      assert KeysOf(cfg, both) == {cfg.makeKey(full), cfg.makeKey(verdict.min)};
    }
  }

  /** A run that has stored its full code has its minimised code in the database as well,
      and both under their own hashes. */
  lemma RunStoresBoth(cfg: Config, db: map<Key, Blob>, full: Blob, min: Blob)
    requires Hashed(cfg, db)
    ensures var t := AfterRun(cfg, db, full, Minimal(min));
            Hashed(cfg, t) && db.Keys <= t.Keys && Has(cfg, t, full) && (!Has(cfg, db, full) ==> Has(cfg, t, min))
  {
    hide WriteAll;
    WriteAllKeys(cfg, db, [full, min]);
    WriteAllKeys(cfg, db, [full]);
    WriteAllHas(cfg, db, [full, min], full);
    WriteAllHas(cfg, db, [full, min], min);
    WriteAllHas(cfg, db, [full], full);
    if Has(cfg, db, min) {
      WriteAllHas(cfg, db, [full], min);
    }
    WriteAllHashed(cfg, db, [full, min]);
    WriteAllHashed(cfg, db, [full]);
  }
}
