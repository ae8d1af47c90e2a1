/**
 The specification clients may rely on while the database does not fail: one set of keys,
 on which every HAS and every PUT takes effect at a single moment between its call and its
 return. The service refines it, step by step, in every interleaving.
 */
module KeySet {
  import opened Bytes
  import opened Protocol
  import opened Service
  import opened ServiceSafety

  datatype Op = Free
    | HasCalled(key: Key) | HasDone(key: Key, present: bool)
    | PutCalled(keys: set<Key>) | PutDone(keys: set<Key>)

  /** The set, what every client is doing, and which clients are gone. */
  datatype Spec = Spec(keys: set<Key>, ops: seq<Op>, gone: set<nat>)

  /** Join, Call and Return are visible; Perform is the moment an operation takes effect. */
  datatype Act = Join | Call(c: nat, op: Op) | Perform(c: nat) | Return(c: nat, b: byte) | Die(c: nat)

  predicate Allowed(a: Spec, act: Act)
  {
    if act == Join then true
    else
      && act.c < |a.ops|
      && var op := a.ops[act.c];
      match act
      case Call(c, op') => op == Free && c !in a.gone && (op'.HasCalled? || op'.PutCalled?)
      case Perform(_) => op.HasCalled? || op.PutCalled?
      case Return(c, b) =>
        && c !in a.gone
        && ((op.HasDone? && b == if op.present then RESP_PRESENT else RESP_ABSENT) || (op.PutDone? && b == RESP_ACK))
      case Die(_) => true
  }

  function Do(a: Spec, act: Act): Spec
    requires Allowed(a, act)
  {
    match act
    case Join => a.(ops := a.ops + [Free])
    case Call(c, op) => a.(ops := a.ops[c := op])
    case Perform(c) =>
      if a.ops[c].HasCalled? then a.(ops := a.ops[c := HasDone(a.ops[c].key, a.ops[c].key in a.keys)])
      else a.(ops := a.ops[c := PutDone(a.ops[c].keys)], keys := a.keys + a.ops[c].keys)
    case Return(c, _) => a.(ops := a.ops[c := Free])
    case Die(c) => a.(gone := a.gone + {c})
  }

  predicate Goes(a: Spec, acts: seq<Act>, b: Spec)
    decreases |acts|
  {
    if acts == [] then a == b else Allowed(a, acts[0]) && Goes(Do(a, acts[0]), acts[1..], b)
  }

  // ---------------------------------------------------------------- the abstraction

  function KeysOf(cfg: Config, codes: seq<Blob>): set<Key>
  {
    set i | 0 <= i < |codes| :: cfg.makeKey(codes[i])
  }

  function Reply(k: Conn): Option<byte>
  {
    if k.outbox.Some? then k.outbox else if k.server.Answering? then Some(k.server.b) else None
  }

  function OpOf(cfg: Config, k: Conn): Op
  {
    if k.job == NoJob then Free
    else if IsPut(k.job) then
      if Reply(k).Some? || k.server.Counting? then PutDone(KeysOf(cfg, Blobs(k.job)))
      else PutCalled(KeysOf(cfg, Blobs(k.job)))
    else
      match Reply(k)
      case Some(b) => HasDone(Asked(cfg, k.job), b == RESP_PRESENT)
      case None => HasCalled(Asked(cfg, k.job))
  }

  function Abs(cfg: Config, s: State): Spec
  {
    Spec(s.db.Keys, seq(|s.conns|, i requires 0 <= i < |s.conns| => OpOf(cfg, s.conns[i])),
         set i | 0 <= i < |s.conns| && s.conns[i].client == Dead)
  }

  /** The call a connection is in after it has sent a request, if it has. */
  function Calls(cfg: Config, c: nat, k: Conn): seq<Act>
  {
    if k.client == Awaiting then [Call(c, OpOf(cfg, k))] else []
  }

  /** What a step of the service is to its clients. */
  function Acts(cfg: Config, s: State, e: Event): seq<Act>
    requires Enabled(cfg, s, e)
  {
    match e
    case Connect => [Join]
    case StartRun(c, _, _) => Calls(cfg, c, Apply(cfg, s, e).conns[c])
    case Look(c, _) => [Perform(c)]
    case Commit(c, _) => [Perform(c)]
    case Nothing(c) => [Perform(c)]
    case Answer(c, delivered) => if delivered then [] else [Die(c)]
    case Deliver(c) => [Return(c, s.conns[c].outbox.value)] + Calls(cfg, c, Apply(cfg, s, e).conns[c])
    case Crash(c) => [Die(c)]
    case _ => []
  }

  /** What a schedule of the service is to its clients. */
  function AllActs(cfg: Config, s: State, es: seq<Event>): seq<Act>
    decreases |es|
  {
    if es == [] || !Enabled(cfg, s, es[0]) then []
    else Acts(cfg, s, es[0]) + AllActs(cfg, Apply(cfg, s, es[0]), es[1..])
  }

  // ---------------------------------------------------------------- the simulation

  /** The abstraction of a state in which one connection has changed. */
  lemma AbsUpdate(cfg: Config, s: State, c: nat, k: Conn, db: map<Key, Blob>, t: State)
    requires c < |s.conns| && t.conns == s.conns[c := k] && t.db == db
    requires k.client == Dead || s.conns[c].client != Dead
    ensures Abs(cfg, t) == Spec(db.Keys, Abs(cfg, s).ops[c := OpOf(cfg, k)],
                                if k.client == Dead then Abs(cfg, s).gone + {c} else Abs(cfg, s).gone)
  {
    hide OpOf;
    var a := Abs(cfg, t);
    assert a.ops == Abs(cfg, s).ops[c := OpOf(cfg, k)];
    var gone := if k.client == Dead then Abs(cfg, s).gone + {c} else Abs(cfg, s).gone;
    forall i
      ensures i in a.gone <==> i in gone
    {
      if 0 <= i < |s.conns| && i != c {
        assert t.conns[i] == s.conns[i];
      }
    }
    assert a.gone == gone;
  }

  /** A step of one connection, seen from outside. */
  ghost predicate Simulates(cfg: Config, s: State, e: Event)
  {
    Enabled(cfg, s, e) && Goes(Abs(cfg, s), Acts(cfg, s, e), Abs(cfg, Apply(cfg, s, e)))
  }

  lemma OneAct(a: Spec, act: Act, b: Spec)
    requires Allowed(a, act) && Do(a, act) == b
    ensures Goes(a, [act], b)
  {
    assert [act][1..] == [];
    assert Goes(b, [], b);
  }

  lemma TwoActs(a: Spec, x: Act, y: Act, b: Spec)
    requires Allowed(a, x) && Allowed(Do(a, x), y) && Do(Do(a, x), y) == b
    ensures Goes(a, [x, y], b)
  {
    hide Allowed;
    hide Do;
    OneAct(Do(a, x), y, b);
    assert [x, y][1..] == [y];
  }

  /** Steps inside the server or the wires change nothing a client can see. */
  lemma SilentStep(cfg: Config, s: State, e: Event)
    requires AllPipelines(cfg, s) && Enabled(cfg, s, e)
    requires e.Receive? || e.Check? || e.Count? || e.Hangup? || (e.Answer? && e.delivered)
    requires !cfg.faulty
    ensures Simulates(cfg, s, e)
  {
    SilentOp(cfg, s, e);
    hide Apply;
    hide Enabled;
    hide OpOf;
    hide Pipeline;
    var k, t := s.conns[e.c], Apply(cfg, s, e);
    AbsUpdate(cfg, s, e.c, t.conns[e.c], s.db, t);
    assert Abs(cfg, s).ops[e.c := OpOf(cfg, k)] == Abs(cfg, s).ops;
    assert k.client == Dead ==> Abs(cfg, s).gone + {e.c} == Abs(cfg, s).gone;
  }

  /** A silent step of a connection leaves its operation and the database as they are. */
  lemma SilentOp(cfg: Config, s: State, e: Event)
    requires AllPipelines(cfg, s) && Enabled(cfg, s, e)
    requires e.Receive? || e.Check? || e.Count? || e.Hangup? || (e.Answer? && e.delivered)
    requires !cfg.faulty
    ensures var k, t := s.conns[e.c], Apply(cfg, s, e);
            && t.conns == s.conns[e.c := t.conns[e.c]] && t.db == s.db
            && t.conns[e.c].client == k.client && OpOf(cfg, t.conns[e.c]) == OpOf(cfg, k)
  {
    hide Request;
    hide Encoded;
    hide Decoded;
    hide KeysOf;
    hide Asked;
    hide Blobs;
    var k := s.conns[e.c];
    assert Pipeline(cfg, s.db, k);
    if e.Receive? {
      DispatchWorks(cfg, s.db, k);
      hide Dispatch;
    } else {
      hide Dispatch;
    }
  }

  lemma DispatchWorks(cfg: Config, db: map<Key, Blob>, k: Conn)
    requires Pipeline(cfg, db, k) && k.server == Ready && k.inbox.Some?
    ensures IsPut(k.job) ==> Dispatch(k.inbox.value).Checking?
    ensures !IsPut(k.job) ==> Dispatch(k.inbox.value).Looking?
  {
    hide Encoded;
    hide Decoded;
    if IsPut(k.job) {
      DecodeAfterEncode(Blobs(k.job));
    }
  }

  /** A HAS takes effect where the server looks the key up. */
  lemma LookStep(cfg: Config, s: State, e: Event)
    requires AllPipelines(cfg, s) && Enabled(cfg, s, e) && e.Look? && !cfg.faulty
    ensures Simulates(cfg, s, e)
  {
    hide Request;
    var k, t := s.conns[e.c], Apply(cfg, s, e);
    assert Pipeline(cfg, s.db, k);
    AbsUpdate(cfg, s, e.c, t.conns[e.c], s.db, t);
    OneAct(Abs(cfg, s), Perform(e.c), Abs(cfg, t));
  }

  lemma CommitKeys(cfg: Config, db: map<Key, Blob>, k: Conn)
    requires Pipeline(cfg, db, k) && k.server.Checking? && k.server.todo == []
    ensures WriteAll(cfg, db, k.server.batch).Keys == db.Keys + KeysOf(cfg, Blobs(k.job))
  {
    hide WriteAll;
    hide Pipeline;
    BatchIsMissingPart(cfg, db, k);
    WriteAllKeys(cfg, db, k.server.batch);
  }

  /** What a successful commit makes of the operation of its connection. */
  lemma CommitOps(cfg: Config, db: map<Key, Blob>, k: Conn, n: nat)
    requires Pipeline(cfg, db, k) && k.server.Checking?
    ensures OpOf(cfg, k) == PutCalled(KeysOf(cfg, Blobs(k.job)))
    ensures OpOf(cfg, k.(server := Counting(n))) == PutDone(KeysOf(cfg, Blobs(k.job)))
  {
    hide Request;
    hide KeysOf;
    hide Partway;
    hide Truthful;
    hide Has;
  }

  /** A PUT takes effect where its batch is committed: the blobs it skipped are in the
      database already. */
  lemma CommitStep(cfg: Config, s: State, e: Event)
    requires AllPipelines(cfg, s) && Enabled(cfg, s, e) && e.Commit? && !cfg.faulty
    ensures Simulates(cfg, s, e)
  {
    hide OpOf;
    hide KeysOf;
    hide WriteAll;
    var k, t := s.conns[e.c], Apply(cfg, s, e);
    var n := |k.server.batch|;
    assert Pipeline(cfg, s.db, k);
    hide Pipeline;
    CommitKeys(cfg, s.db, k);
    CommitOps(cfg, s.db, k, n);
    AbsUpdate(cfg, s, e.c, k.(server := Counting(n)), t.db, t);
    assert Abs(cfg, s).ops[e.c] == OpOf(cfg, k);
    assert k.client == Dead ==> Abs(cfg, s).gone + {e.c} == Abs(cfg, s).gone;
    OneAct(Abs(cfg, s), Perform(e.c), Abs(cfg, t));
  }

  lemma BatchIsMissingPart(cfg: Config, db: map<Key, Blob>, k: Conn)
    requires Pipeline(cfg, db, k) && k.server.Checking? && k.server.todo == []
    ensures db.Keys + KeysOf(cfg, k.server.batch) == db.Keys + KeysOf(cfg, Blobs(k.job))
  {
    hide Request;
    var all, batch := Blobs(k.job), k.server.batch;
    forall x | x in KeysOf(cfg, all)
      ensures x in db.Keys + KeysOf(cfg, batch)
    {
      var i :| 0 <= i < |all| && x == cfg.makeKey(all[i]);
      if all[i] in batch {
        var j :| 0 <= j < |batch| && batch[j] == all[i];
        assert cfg.makeKey(batch[j]) in KeysOf(cfg, batch);
      } else {
        assert Has(cfg, db, all[i]);
      }
    }
    forall x | x in KeysOf(cfg, batch)
      ensures x in db.Keys + KeysOf(cfg, all)
    {
      var i :| 0 <= i < |batch| && x == cfg.makeKey(batch[i]);
      assert batch[i] in all;
      var j :| 0 <= j < |all| && all[j] == batch[i];
      assert cfg.makeKey(all[j]) in KeysOf(cfg, all);
    }
  }

  lemma NothingStep(cfg: Config, s: State, e: Event)
    requires AllPipelines(cfg, s) && Enabled(cfg, s, e) && e.Nothing? && !cfg.faulty
    ensures Simulates(cfg, s, e)
  {
    hide Request;
    var k, t := s.conns[e.c], Apply(cfg, s, e);
    assert Pipeline(cfg, s.db, k);
    AbsUpdate(cfg, s, e.c, t.conns[e.c], s.db, t);
    BatchIsMissingPart(cfg, s.db, k);
    assert KeysOf(cfg, []) == {};
    OneAct(Abs(cfg, s), Perform(e.c), Abs(cfg, t));
  }

  lemma DieStep(cfg: Config, s: State, e: Event)
    requires AllPipelines(cfg, s) && Enabled(cfg, s, e) && (e.Crash? || (e.Answer? && !e.delivered))
    ensures Simulates(cfg, s, e)
  {
    hide Request;
    var k, t := s.conns[e.c], Apply(cfg, s, e);
    assert Pipeline(cfg, s.db, k);
    AbsUpdate(cfg, s, e.c, t.conns[e.c], s.db, t);
    assert OpOf(cfg, t.conns[e.c]) == OpOf(cfg, k);
    assert Abs(cfg, s).ops[e.c := OpOf(cfg, k)] == Abs(cfg, s).ops;
    OneAct(Abs(cfg, s), Die(e.c), Abs(cfg, t));
  }

  /** A connection after its worker has been told the response and gone on. */
  lemma SentOrIdle(cfg: Config, k: Conn, job: Job)
    requires k.outbox == None && (k.server == Ready || k.server == Down) && job != NoJob
    ensures var k' := Send(cfg, k, job);
            if k'.client == Awaiting then OpOf(cfg, k').HasCalled? || OpOf(cfg, k').PutCalled?
            else k'.client == Idle && OpOf(cfg, k') == Free
  {
    hide Request;
  }

  lemma StartStep(cfg: Config, s: State, e: Event)
    requires AllPipelines(cfg, s) && Enabled(cfg, s, e) && e.StartRun?
    ensures Simulates(cfg, s, e)
  {
    hide Request;
    var k, t := s.conns[e.c], Apply(cfg, s, e);
    assert Pipeline(cfg, s.db, k);
    var k' := t.conns[e.c];
    SentOrIdle(cfg, k, CheckFull(e.full, e.verdict));
    AbsUpdate(cfg, s, e.c, k', s.db, t);
    if k'.client == Awaiting {
      OneAct(Abs(cfg, s), Call(e.c, OpOf(cfg, k')), Abs(cfg, t));
    } else {
      assert Abs(cfg, s).ops[e.c := OpOf(cfg, k')] == Abs(cfg, s).ops;
    }
  }

  lemma ProceedShape(cfg: Config, db: map<Key, Blob>, k: Conn)
    requires Pipeline(cfg, db, k) && k.client == Awaiting && k.outbox.Some?
    ensures var k' := Proceed(cfg, k.(outbox := None), k.outbox.value);
            if k'.client == Awaiting then OpOf(cfg, k').HasCalled? || OpOf(cfg, k').PutCalled?
            else k'.client == Idle && OpOf(cfg, k') == Free
  {
    hide Request;
    hide OpOf;
    hide Send;
    var b, k0 := k.outbox.value, k.(outbox := None);
    assert Pipeline(cfg, db, k);
    assert OpOf(cfg, Finish(k0)) == Free by { FinishedIsFree(cfg, k0); }
    match k.job
    case CheckFull(full, verdict) =>
      match verdict {
        case TooLarge => SentOrIdle(cfg, k0, PutFull(full, TooLarge));
        case Unminimizable =>
        case Minimal(min) => SentOrIdle(cfg, k0, CheckMin(full, min));
      }
    case CheckMin(full, min) =>
      SentOrIdle(cfg, k0, PutFull(full, Minimal(min)));
      SentOrIdle(cfg, k0, PutBoth(full, min));
    case _ =>
  }

  lemma FinishedIsFree(cfg: Config, k: Conn)
    ensures OpOf(cfg, Finish(k)) == Free
  {
  }

  lemma DeliverStep(cfg: Config, s: State, e: Event)
    requires AllPipelines(cfg, s) && Enabled(cfg, s, e) && e.Deliver? && !cfg.faulty
    ensures Simulates(cfg, s, e)
  {
    hide Request;
    hide Proceed;
    var k, t := s.conns[e.c], Apply(cfg, s, e);
    assert Pipeline(cfg, s.db, k);
    var k', b := t.conns[e.c], k.outbox.value;
    ProceedShape(cfg, s.db, k);
    AbsUpdate(cfg, s, e.c, k', s.db, t);
    var a := Abs(cfg, s);
    assert Allowed(a, Return(e.c, b));
    var freed := Do(a, Return(e.c, b));
    if k'.client == Awaiting {
      TwoActs(a, Return(e.c, b), Call(e.c, OpOf(cfg, k')), Abs(cfg, t));
      assert Acts(cfg, s, e) == [Return(e.c, b), Call(e.c, OpOf(cfg, k'))];
    } else {
      OneAct(a, Return(e.c, b), Abs(cfg, t));
      assert Acts(cfg, s, e) == [Return(e.c, b)];
    }
  }

  lemma ConnectStep(cfg: Config, s: State)
    ensures Simulates(cfg, s, Connect)
  {
    var a, t := Abs(cfg, s), Apply(cfg, s, Connect);
    assert Abs(cfg, t).ops == a.ops + [Free];
    forall i
      ensures i in Abs(cfg, t).gone <==> i in a.gone
    {
    }
    assert Abs(cfg, t).gone == a.gone;
    OneAct(a, Join, Abs(cfg, t));
  }

  lemma Simulation(cfg: Config, s: State, e: Event)
    requires AllPipelines(cfg, s) && Enabled(cfg, s, e) && !cfg.faulty
    ensures Goes(Abs(cfg, s), Acts(cfg, s, e), Abs(cfg, Apply(cfg, s, e)))
  {
    hide AllPipelines;
    hide Enabled;
    hide Apply;
    hide Goes;
    hide Acts;
    hide Abs;
    match e
    case Connect => ConnectStep(cfg, s);
    case StartRun(_, _, _) => StartStep(cfg, s, e);
    case Look(_, _) => LookStep(cfg, s, e);
    case Commit(_, _) => CommitStep(cfg, s, e);
    case Nothing(_) => NothingStep(cfg, s, e);
    case Answer(_, delivered) => if delivered { SilentStep(cfg, s, e); } else { DieStep(cfg, s, e); }
    case Deliver(_) => DeliverStep(cfg, s, e);
    case Crash(_) => DieStep(cfg, s, e);
    case _ => SilentStep(cfg, s, e);
  }

  lemma {:induction false} GoesJoin(a: Spec, xs: seq<Act>, b: Spec, ys: seq<Act>, c: Spec)
    requires Goes(a, xs, b) && Goes(b, ys, c)
    ensures Goes(a, xs + ys, c)
    decreases |xs|
  {
    hide Allowed;
    hide Do;
    if xs == [] {
      assert xs + ys == ys;
    } else {
      assert (xs + ys)[1..] == xs[1..] + ys;
      GoesJoin(Do(a, xs[0]), xs[1..], b, ys, c);
    }
  }

  lemma {:induction false} RefinesFrom(cfg: Config, base: nat, s: State, es: seq<Event>, t: State)
    requires Inv(cfg, base, s) && Leads(cfg, s, es, t) && !cfg.faulty
    ensures Goes(Abs(cfg, s), AllActs(cfg, s, es), Abs(cfg, t))
    decreases |es|
  {
    hide Apply;
    hide Enabled;
    hide Abs;
    hide Acts;
    hide AllPipelines;
    hide Allowed;
    hide Do;
    if es == [] {
    } else {
      var s1 := Apply(cfg, s, es[0]);
      Simulation(cfg, s, es[0]);
      InvStep(cfg, base, s, es[0]);
      RefinesFrom(cfg, base, s1, es[1..], t);
      GoesJoin(Abs(cfg, s), Acts(cfg, s, es[0]), Abs(cfg, s1), AllActs(cfg, s1, es[1..]), Abs(cfg, t));
    }
  }

  /** Over a database that does not fail, any interleaving of workers and server is, to the
      workers, a run of the key set. */
  lemma ServiceRefinesKeySet(cfg: Config, s: State, es: seq<Event>, t: State)
    requires Initial(cfg, s) && Leads(cfg, s, es, t) && !cfg.faulty
    ensures Abs(cfg, s) == Spec(s.db.Keys, [], {})
    ensures Goes(Abs(cfg, s), AllActs(cfg, s, es), Abs(cfg, t))
  {
    InitialInv(cfg, s);
    RefinesFrom(cfg, |s.db|, s, es, t);
  }

  // ---------------------------------------------------------------- the specification

  /** What a returned operation still promises. */
  predicate Settled(a: Spec)
  {
    forall c :: 0 <= c < |a.ops| ==>
      && (a.ops[c].PutDone? ==> a.ops[c].keys <= a.keys)
      && (a.ops[c].HasDone? && a.ops[c].present ==> a.ops[c].key in a.keys)
  }

  lemma {:induction false} SpecKeeps(a: Spec, acts: seq<Act>, b: Spec)
    requires Settled(a) && Goes(a, acts, b)
    ensures Settled(b) && a.keys <= b.keys
    decreases |acts|
  {
    if acts == [] {
    } else {
      SpecKeeps(Do(a, acts[0]), acts[1..], b);
    }
  }

  /** Read your writes, and anybody's: once a PUT has been acknowledged, every HAS that
      takes effect later finds its keys. */
  lemma AckedIsFound(a: Spec, c: nat, acts: seq<Act>, b: Spec, d: nat)
    requires Settled(a) && c < |a.ops| && a.ops[c].PutDone?
    requires Goes(a, [Return(c, RESP_ACK)] + acts, b)
    requires Allowed(b, Perform(d)) && b.ops[d].HasCalled? && b.ops[d].key in a.ops[c].keys
    ensures Do(b, Perform(d)).ops[d] == HasDone(b.ops[d].key, true)
  {
    SpecKeeps(a, [Return(c, RESP_ACK)] + acts, b);
  }
}
