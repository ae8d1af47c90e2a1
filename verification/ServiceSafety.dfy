/** What every reachable state of the service satisfies. */
module ServiceSafety {
  import opened Bytes
  import opened Sums
  import opened Protocol
  import opened Service

  /** Keys a connection has committed and not yet added to `stored`. */
  function Uncounted(k: Conn): nat
  {
    if k.server.Counting? then k.server.n else 0
  }

  /** Blobs a connection has counted as received and may still add to `stored`. */
  function Pending(k: Conn): nat
  {
    match k.server
    case Checking(_, batch) => |batch|
    case Counting(n) => n
    case _ => 0
  }

  predicate Deposited(cfg: Config, s: State)
  {
    forall p :: p in s.deposits ==> Has(cfg, s.db, p.0) && Has(cfg, s.db, p.1)
  }

  predicate Counters(base: nat, s: State)
  {
    && |s.db| <= base + s.stored + Total(s.conns, Uncounted)
    && s.stored + Total(s.conns, Pending) <= s.received
  }

  predicate AllPipelines(cfg: Config, s: State)
  {
    forall c :: 0 <= c < |s.conns| ==> Pipeline(cfg, s.db, s.conns[c])
  }

  /** `base` is the size of the database the server was started on. */
  predicate Inv(cfg: Config, base: nat, s: State)
  {
    AllPipelines(cfg, s) && Hashed(cfg, s.db) && Deposited(cfg, s) && Counters(base, s)
  }

  // ---------------------------------------------------------------- one connection

  lemma SendKeeps(cfg: Config, db: map<Key, Blob>, k: Conn, job: Job)
    requires k.inbox == None && k.outbox == None && (k.server == Ready || k.server == Down) && k.client != Dead
    requires job != NoJob && (job.PutFull? && job.verdict.Minimal? ==> Has(cfg, db, job.verdict.min))
    ensures Pipeline(cfg, db, Send(cfg, k, job))
  {
    hide Request;
  }

  lemma ReceiveKeeps(cfg: Config, db: map<Key, Blob>, k: Conn)
    requires Pipeline(cfg, db, k) && k.server == Ready && k.inbox.Some?
    ensures Pipeline(cfg, db, k.(inbox := None, server := Dispatch(k.inbox.value)))
  {
    hide Encoded;
    hide Decoded;
    if IsPut(k.job) {
      DecodeAfterEncode(Blobs(k.job));
    }
  }

  lemma LookKeeps(cfg: Config, db: map<Key, Blob>, k: Conn, b: byte)
    requires Pipeline(cfg, db, k) && k.server.Looking?
    requires b == RESP_ABSENT || (b == RESP_PRESENT && k.server.key in db)
    ensures Pipeline(cfg, db, k.(server := Answering(b)))
  {
  }

  /** One turn of the loop of a PUT. */
  lemma PartwayStep(cfg: Config, db: map<Key, Blob>, all: seq<Blob>, todo: seq<Blob>, batch: seq<Blob>)
    requires Partway(cfg, db, all, todo, batch) && todo != []
    ensures Partway(cfg, db, all, todo[1..], if Has(cfg, db, todo[0]) then batch else batch + [todo[0]])
  {
    hide Has;
    var n := |all| - |todo|;
    assert todo[0] == all[n];
    assert all[n + 1..] == todo[1..];
  }

  lemma CheckKeeps(cfg: Config, db: map<Key, Blob>, k: Conn)
    requires Pipeline(cfg, db, k) && k.server.Checking? && k.server.todo != []
    ensures var code := k.server.todo[0];
            var batch := if cfg.makeKey(code) in db then k.server.batch else k.server.batch + [code];
            Pipeline(cfg, db, k.(server := Checking(k.server.todo[1..], batch)))
  {
    hide Partway;
    hide Request;
    PartwayStep(cfg, db, Blobs(k.job), k.server.todo, k.server.batch);
  }

  lemma CommitKeeps(cfg: Config, db: map<Key, Blob>, k: Conn)
    requires Pipeline(cfg, db, k) && k.server.Checking? && k.server.todo == []
    ensures db.Keys <= WriteAll(cfg, db, k.server.batch).Keys
    ensures Pipeline(cfg, WriteAll(cfg, db, k.server.batch), k.(server := Counting(|k.server.batch|)))
  {
    hide WriteAll;
    hide Request;
    var all, batch := Blobs(k.job), k.server.batch;
    WriteAllKeys(cfg, db, batch);
    forall i | 0 <= i < |all|
      ensures Has(cfg, WriteAll(cfg, db, batch), all[i])
    {
      WriteAllHas(cfg, db, batch, all[i]);
    }
    if k.job.PutFull? && k.job.verdict.Minimal? {
      WriteAllHas(cfg, db, batch, k.job.verdict.min);
    }
  }

  lemma AckKeeps(cfg: Config, db: map<Key, Blob>, k: Conn)
    requires Pipeline(cfg, db, k)
    requires (k.server.Checking? && (k.server == Checking([], []) || cfg.faulty)) || k.server.Counting?
    ensures Pipeline(cfg, db, k.(server := Answering(RESP_ACK)))
  {
    hide Request;
  }

  lemma DeliverKeeps(cfg: Config, db: map<Key, Blob>, k: Conn)
    requires Pipeline(cfg, db, k) && k.client == Awaiting && k.outbox.Some?
    ensures Pipeline(cfg, db, Proceed(cfg, k.(outbox := None), k.outbox.value))
  {
    hide Request;
    var b := k.outbox.value;
    var k' := k.(outbox := None);
    match k.job
    case CheckFull(full, verdict) =>
      match verdict {
        case TooLarge => SendKeeps(cfg, db, k', PutFull(full, TooLarge));
        case Unminimizable =>
        case Minimal(min) => SendKeeps(cfg, db, k', CheckMin(full, min));
      }
    case CheckMin(full, min) =>
      if b == RESP_PRESENT {
        SendKeeps(cfg, db, k', PutFull(full, Minimal(min)));
      } else {
        SendKeeps(cfg, db, k', PutBoth(full, min));
      }
    case _ =>
  }

  lemma MovedKeeps(cfg: Config, s: State, e: Event)
    requires AllPipelines(cfg, s) && Enabled(cfg, s, e) && e != Connect
    ensures s.db.Keys <= Apply(cfg, s, e).db.Keys
    ensures Pipeline(cfg, Apply(cfg, s, e).db, Apply(cfg, s, e).conns[e.c])
  {
    hide Working;
    hide Request;
    hide Proceed;
    hide Send;
    hide WriteAll;
    hide Dispatch;
    var k := s.conns[e.c];
    match e
    case StartRun(_, full, verdict) => SendKeeps(cfg, s.db, k, CheckFull(full, verdict));
    case Receive(_) => ReceiveKeeps(cfg, s.db, k);
    case Look(_, ok) => LookKeeps(cfg, s.db, k, if ok && k.server.key in s.db then RESP_PRESENT else RESP_ABSENT);
    case Check(_, ok) => CheckKeeps(cfg, s.db, k); if !ok { AckKeeps(cfg, s.db, k); }
    case Commit(_, ok) => CommitKeeps(cfg, s.db, k); if !ok { AckKeeps(cfg, s.db, k); }
    case Nothing(_) => AckKeeps(cfg, s.db, k);
    case Count(_) => AckKeeps(cfg, s.db, k);
    case Answer(_, _) => AnswerKeeps(cfg, s.db, k);
    case Deliver(_) => DeliverKeeps(cfg, s.db, k);
    case _ =>
  }

  lemma AnswerKeeps(cfg: Config, db: map<Key, Blob>, k: Conn)
    requires Pipeline(cfg, db, k) && k.server.Answering?
    ensures Pipeline(cfg, db, k.(server := Ready, outbox := Some(k.server.b)))
    ensures Pipeline(cfg, db, k.(client := Dead, server := Down, outbox := Some(k.server.b)))
  {
    hide Request;
  }

  // ---------------------------------------------------------------- the whole service

  lemma PipelinesStep(cfg: Config, s: State, e: Event)
    requires AllPipelines(cfg, s) && Enabled(cfg, s, e)
    ensures s.db.Keys <= Apply(cfg, s, e).db.Keys
    ensures AllPipelines(cfg, Apply(cfg, s, e))
  {
    hide Pipeline;
    var t := Apply(cfg, s, e);
    if e == Connect {
      FreshPipeline(cfg, s.db);
    } else {
      MovedKeeps(cfg, s, e);
      OthersStay(cfg, s, e);
      forall c | 0 <= c < |t.conns| && c != e.c
        ensures Pipeline(cfg, t.db, t.conns[c])
      {
        PipelineGrows(cfg, s.db, t.db, s.conns[c]);
      }
    }
  }

  lemma FreshPipeline(cfg: Config, db: map<Key, Blob>)
    ensures Pipeline(cfg, db, Conn(Idle, NoJob, None, Ready, None))
  {
  }

  lemma OthersStay(cfg: Config, s: State, e: Event)
    requires Enabled(cfg, s, e) && e != Connect
    ensures |Apply(cfg, s, e).conns| == |s.conns|
    ensures forall c :: 0 <= c < |s.conns| && c != e.c ==> Apply(cfg, s, e).conns[c] == s.conns[c]
    ensures Apply(cfg, s, e).conns == s.conns[e.c := Apply(cfg, s, e).conns[e.c]]
  {
    hide Proceed;
    hide Send;
    hide WriteAll;
    hide Dispatch;
  }

  /** A commit that stores the full code of a minimising run leaves both codes in. */
  lemma CommitDeposits(cfg: Config, db: map<Key, Blob>, k: Conn, p: (Blob, Blob))
    requires Pipeline(cfg, db, k) && k.server.Checking? && k.server.todo == []
    requires p in Deposit(k.job, k.server.batch)
    ensures Has(cfg, WriteAll(cfg, db, k.server.batch), p.0) && Has(cfg, WriteAll(cfg, db, k.server.batch), p.1)
  {
    hide WriteAll;
    hide Request;
    var all, batch := Blobs(k.job), k.server.batch;
    WriteAllHas(cfg, db, batch, p.0);
    if k.job.PutBoth? {
      assert p.1 == all[1];
    }
    WriteAllHas(cfg, db, batch, p.1);
  }

  lemma DepositedStep(cfg: Config, s: State, e: Event)
    requires AllPipelines(cfg, s) && Deposited(cfg, s) && Enabled(cfg, s, e)
    ensures Deposited(cfg, Apply(cfg, s, e))
  {
    hide Pipeline;
    PipelinesStep(cfg, s, e);
    var t := Apply(cfg, s, e);
    if e.Commit? && e.ok {
      var k := s.conns[e.c];
      forall p | p in t.deposits
        ensures Has(cfg, t.db, p.0) && Has(cfg, t.db, p.1)
      {
        if p !in s.deposits {
          CommitDeposits(cfg, s.db, k, p);
        }
      }
    } else {
      DepositsStay(cfg, s, e);
    }
  }

  lemma DepositsStay(cfg: Config, s: State, e: Event)
    requires Enabled(cfg, s, e) && !(e.Commit? && e.ok)
    ensures Apply(cfg, s, e).deposits == s.deposits && Apply(cfg, s, e).db == s.db
  {
    hide Proceed;
    hide Send;
    hide WriteAll;
    hide Dispatch;
  }

  /** How one step changes the counters and what its connection still owes them. */
  lemma CountersMove(cfg: Config, s: State, e: Event)
    requires Enabled(cfg, s, e) && e != Connect
    ensures var t := Apply(cfg, s, e); var k, k' := s.conns[e.c], t.conns[e.c];
            && t.stored + Pending(k') + s.received <= s.stored + Pending(k) + t.received
            && |t.db| + s.stored + Uncounted(k) <= |s.db| + t.stored + Uncounted(k')
  {
    hide WriteAll;
    hide Request;
    hide Decoded;
    if e.Commit? {
      WriteAllSize(cfg, s.db, s.conns[e.c].server.batch);
    } else if e.Deliver? {
      ProceedServer(cfg, s.conns[e.c].(outbox := None), s.conns[e.c].outbox.value);
      hide Proceed;
    }
  }

  lemma ProceedServer(cfg: Config, k: Conn, b: byte)
    ensures Proceed(cfg, k, b).server == k.server
  {
    hide Request;
  }

  lemma CountersStep(cfg: Config, base: nat, s: State, e: Event)
    requires Counters(base, s) && Enabled(cfg, s, e)
    ensures Counters(base, Apply(cfg, s, e))
  {
    var t := Apply(cfg, s, e);
    if e == Connect {
      TotalSnoc(s.conns, Uncounted, Conn(Idle, NoJob, None, Ready, None));
      TotalSnoc(s.conns, Pending, Conn(Idle, NoJob, None, Ready, None));
    } else {
      hide Apply;
      hide Enabled;
      CountersMove(cfg, s, e);
      OthersStay(cfg, s, e);
      TotalUpdate(s.conns, Uncounted, e.c, t.conns[e.c]);
      TotalUpdate(s.conns, Pending, e.c, t.conns[e.c]);
    }
  }

  lemma HashedStep(cfg: Config, s: State, e: Event)
    requires Hashed(cfg, s.db) && Enabled(cfg, s, e)
    ensures Hashed(cfg, Apply(cfg, s, e).db)
  {
    if e.Commit? && e.ok {
      WriteAllHashed(cfg, s.db, s.conns[e.c].server.batch);
    } else {
      DepositsStay(cfg, s, e);
    }
  }

  lemma InvStep(cfg: Config, base: nat, s: State, e: Event)
    requires Inv(cfg, base, s) && Enabled(cfg, s, e)
    ensures Inv(cfg, base, Apply(cfg, s, e)) && s.db.Keys <= Apply(cfg, s, e).db.Keys
  {
    hide Apply;
    hide Enabled;
    hide AllPipelines;
    hide Counters;
    hide Deposited;
    hide Hashed;
    PipelinesStep(cfg, s, e);
    DepositedStep(cfg, s, e);
    CountersStep(cfg, base, s, e);
    HashedStep(cfg, s, e);
  }

  lemma {:induction false} InvLeads(cfg: Config, base: nat, s: State, es: seq<Event>, t: State)
    requires Inv(cfg, base, s) && Leads(cfg, s, es, t)
    ensures Inv(cfg, base, t) && s.db.Keys <= t.db.Keys
    decreases |es|
  {
    hide Apply;
    hide Enabled;
    hide Inv;
    if es == [] {
    } else {
      InvStep(cfg, base, s, es[0]);
      InvLeads(cfg, base, Apply(cfg, s, es[0]), es[1..], t);
    }
  }

  lemma InitialInv(cfg: Config, s: State)
    requires Initial(cfg, s)
    ensures Inv(cfg, |s.db|, s)
  {
  }

  // ---------------------------------------------------------------- results

  /** Whatever crashes, drops out or fails: a full code that was stored by a run that
      minimised it never stands in the database without its minimised code. */
  lemma NeverFullWithoutMinimal(cfg: Config, s: State, es: seq<Event>, t: State, full: Blob, min: Blob)
    requires Initial(cfg, s) && Leads(cfg, s, es, t) && (full, min) in t.deposits
    ensures cfg.makeKey(full) in t.db && cfg.makeKey(min) in t.db
  {
    InitialInv(cfg, s);
    InvLeads(cfg, |s.db|, s, es, t);
  }

  /** Every commit that stores the full code of a run that minimised it is taken down. */
  lemma DepositsAreTakenDown(cfg: Config, s: State, c: nat, full: Blob, min: Blob)
    requires Enabled(cfg, s, Commit(c, true)) && full in s.conns[c].server.batch
    requires s.conns[c].job == PutBoth(full, min) || s.conns[c].job == PutFull(full, Minimal(min))
    ensures (full, min) in Apply(cfg, s, Commit(c, true)).deposits
    ensures s.deposits <= Apply(cfg, s, Commit(c, true)).deposits
  {
    hide WriteAll;
  }

  /** The database is content-addressed and only grows. The number of new keys is at most
      what has been counted as stored plus the batches committed and not yet counted, and
      that is at most the number of blobs received. */
  lemma DatabaseAccounts(cfg: Config, s: State, es: seq<Event>, t: State)
    requires Initial(cfg, s) && Leads(cfg, s, es, t)
    ensures Hashed(cfg, t.db) && s.db.Keys <= t.db.Keys
    ensures |t.db| - |s.db| <= t.stored + Total(t.conns, Uncounted) <= t.received
  {
    InitialInv(cfg, s);
    InvLeads(cfg, |s.db|, s, es, t);
    UncountedIsPending(t.conns);
  }

  lemma {:induction false} UncountedIsPending(conns: seq<Conn>)
    ensures Total(conns, Uncounted) <= Total(conns, Pending)
  {
    if conns == [] {
    } else {
      UncountedIsPending(conns[..|conns| - 1]);
    }
  }

  /** No worker ever receives a response byte of the wrong kind. */
  lemma ResponseKind(cfg: Config, s: State, es: seq<Event>, t: State, c: nat)
    requires Initial(cfg, s) && Leads(cfg, s, es, t)
    requires c < |t.conns| && t.conns[c].outbox.Some?
    ensures t.conns[c].job != NoJob
    ensures IsPut(t.conns[c].job) ==> t.conns[c].outbox.value == RESP_ACK
    ensures !IsPut(t.conns[c].job) ==> t.conns[c].outbox.value == RESP_PRESENT || t.conns[c].outbox.value == RESP_ABSENT
  {
    InitialInv(cfg, s);
    InvLeads(cfg, |s.db|, s, es, t);
  }

  /** Over a database that does not fail, an acknowledged PUT has stored its blobs, and
      they are still there in every later state. */
  lemma AckedStaysStored(cfg: Config, s: State, es: seq<Event>, t: State, c: nat, fs: seq<Event>, u: State, code: Blob)
    requires Initial(cfg, s) && !cfg.faulty
    requires Leads(cfg, s, es, t) && Leads(cfg, t, fs, u)
    requires c < |t.conns| && t.conns[c].outbox.Some? && code in Blobs(t.conns[c].job)
    ensures cfg.makeKey(code) in u.db
  {
    InitialInv(cfg, s);
    InvLeads(cfg, |s.db|, s, es, t);
    InvLeads(cfg, |s.db|, t, fs, u);
    var k := t.conns[c];
    assert Pipeline(cfg, t.db, k);
    assert IsPut(k.job);
    var i :| 0 <= i < |Blobs(k.job)| && Blobs(k.job)[i] == code;
    assert Has(cfg, t.db, Blobs(k.job)[i]);
  }

  // ---------------------------------------------------------------- a failing database

  /** The step in which the handler decides to acknowledge a PUT: either the loop has ended
      well, and every blob is stored, or an access has failed in this step, and nothing has
      been stored by it. */
  lemma AckStep(cfg: Config, base: nat, s: State, e: Event)
    requires Inv(cfg, base, s) && Enabled(cfg, s, e) && e != Connect
    requires IsPut(s.conns[e.c].job) && !s.conns[e.c].server.Answering?
    requires Apply(cfg, s, e).conns[e.c].server == Answering(RESP_ACK)
    ensures e.Nothing? || e.Count? ==> AllIn(cfg, Apply(cfg, s, e).db, Blobs(s.conns[e.c].job))
    ensures !e.Nothing? && !e.Count? ==> (e.Check? || e.Commit?) && !e.ok && Apply(cfg, s, e).db == s.db
  {
    hide Encoded;
    hide Decoded;
    hide WriteAll;
    hide Request;
    hide Has;
    hide Deposit;
    var k := s.conns[e.c];
    assert Pipeline(cfg, s.db, k);
    if e.Receive? {
      DispatchIsNoAck(cfg, s.db, k);
    } else if e.Nothing? {
      NothingMissing(cfg, s.db, Blobs(k.job));
    }
    hide Partway;
    hide Dispatch;
  }

  lemma NothingMissing(cfg: Config, db: map<Key, Blob>, all: seq<Blob>)
    requires Partway(cfg, db, all, [], [])
    ensures AllIn(cfg, db, all)
  {
  }

  lemma DispatchIsNoAck(cfg: Config, db: map<Key, Blob>, k: Conn)
    requires Pipeline(cfg, db, k) && k.server == Ready && k.inbox.Some?
    ensures !Dispatch(k.inbox.value).Answering?
  {
    hide Encoded;
    hide Decoded;
    if IsPut(k.job) {
      DecodeAfterEncode(Blobs(k.job));
    }
  }

  const FAULTY := Config((code: Blob) => code, true)
  const LOST: Blob := [1]

  function OneConn(k: Conn, received: nat): State
  {
    State(map[], 0, received, [k], {})
  }

  lemma Prepend(s: State, e: Event, s1: State, es: seq<Event>, t: State)
    requires Enabled(FAULTY, s, e) && Apply(FAULTY, s, e) == s1 && Leads(FAULTY, s1, es, t)
    ensures Leads(FAULTY, s, [e] + es, t)
  {
    hide Enabled;
    hide Apply;
    assert ([e] + es)[1..] == es;
  }

  /** The second call of a lost PUT: received, an access fails, acknowledged. */
  lemma LostPut() returns (es: seq<Event>)
    ensures Leads(FAULTY,
      OneConn(Conn(Awaiting, PutFull(LOST, TooLarge), Some(Request(FAULTY, PutFull(LOST, TooLarge))), Ready, None), 0), es,
      OneConn(Conn(Awaiting, PutFull(LOST, TooLarge), None, Ready, Some(RESP_ACK)), 1))
  {
    var job := PutFull(LOST, TooLarge);
    var k := Conn(Awaiting, job, None, Checking([LOST], []), None);
    LostLength();
    DecodeAfterEncode([LOST]);
    var t := OneConn(k.(server := Ready, outbox := Some(RESP_ACK)), 1);
    es := [];
    Prepend(OneConn(k.(server := Answering(RESP_ACK)), 1), Answer(0, true), t, es, t);
    es := [Answer(0, true)] + es;
    Prepend(OneConn(k, 0), Check(0, false), OneConn(k.(server := Answering(RESP_ACK)), 1), es, t);
    es := [Check(0, false)] + es;
    Prepend(OneConn(k.(server := Ready, inbox := Some(Request(FAULTY, job))), 0), Receive(0), OneConn(k, 0), es, t);
    es := [Receive(0)] + es;
  }

  lemma LostLength()
    ensures |Encoded([LOST])| == 5
  {
    assert [LOST][1..] == [];
    assert Encoded([LOST]) == Prefix32(1) + LOST + [];
  }

  const ASKED := Conn(Awaiting, CheckFull(LOST, TooLarge), None, Looking(LOST), None)

  lemma LostAnswer(es: seq<Event>, t: State) returns (fs: seq<Event>)
    requires Leads(FAULTY, OneConn(Conn(Awaiting, PutFull(LOST, TooLarge), Some(Request(FAULTY, PutFull(LOST, TooLarge))), Ready, None), 0), es, t)
    ensures Leads(FAULTY, OneConn(ASKED, 0), fs, t)
  {
    LostLength();
    Prepend(OneConn(ASKED.(server := Ready, outbox := Some(RESP_ABSENT)), 0), Deliver(0),
            OneConn(Conn(Awaiting, PutFull(LOST, TooLarge), Some(Request(FAULTY, PutFull(LOST, TooLarge))), Ready, None), 0), es, t);
    fs := [Deliver(0)] + es;
    hide Leads;
    Prepend(OneConn(ASKED.(server := Answering(RESP_ABSENT)), 0), Answer(0, true),
            OneConn(ASKED.(server := Ready, outbox := Some(RESP_ABSENT)), 0), fs, t);
    fs := [Answer(0, true)] + fs;
    Prepend(OneConn(ASKED, 0), Look(0, true), OneConn(ASKED.(server := Answering(RESP_ABSENT)), 0), fs, t);
    fs := [Look(0, true)] + fs;
  }

  /** With a failing database a worker can be told that its code is stored when nothing is. */
  lemma AckedCanBeLost() returns (es: seq<Event>, t: State)
    ensures Initial(FAULTY, State(map[], 0, 0, [], {})) && Leads(FAULTY, State(map[], 0, 0, [], {}), es, t)
    ensures |t.conns| == 1 && t.conns[0].outbox == Some(RESP_ACK) && Blobs(t.conns[0].job) == [LOST] && t.db == map[]
  {
    hide *;
    t := OneConn(TOLD, 1);
    es := LostPut();
    ToldIs();
    es := LostAnswer(es, t);
    LostAsking();
    Prepend(OneConn(SENT, 0), Receive(0), OneConn(ASKED, 0), es, t);
    es := [Receive(0)] + es;
    Prepend(OneConn(FRESH, 0), StartRun(0, LOST, TooLarge), OneConn(SENT, 0), es, t);
    es := [StartRun(0, LOST, TooLarge)] + es;
    Prepend(State(map[], 0, 0, [], {}), Connect, OneConn(FRESH, 0), es, t);
    es := [Connect] + es;
  }

  const TOLD := Conn(Awaiting, PutFull(LOST, TooLarge), None, Ready, Some(RESP_ACK))

  lemma ToldIs()
    ensures TOLD == Conn(Awaiting, PutFull(LOST, TooLarge), None, Ready, Some(RESP_ACK))
    ensures var t := OneConn(TOLD, 1);
            |t.conns| == 1 && t.conns[0].outbox == Some(RESP_ACK) && Blobs(t.conns[0].job) == [LOST] && t.db == map[]
    ensures Initial(FAULTY, State(map[], 0, 0, [], {}))
  {
  }

  const FRESH := Conn(Idle, NoJob, None, Ready, None)
  const SENT := ASKED.(server := Ready, inbox := Some(Request(FAULTY, CheckFull(LOST, TooLarge))))

  /** The first events: a connection is made, a run asks for its code, the server reads. */
  lemma LostAsking()
    ensures Enabled(FAULTY, State(map[], 0, 0, [], {}), Connect)
            && Apply(FAULTY, State(map[], 0, 0, [], {}), Connect) == OneConn(FRESH, 0)
    ensures Enabled(FAULTY, OneConn(FRESH, 0), StartRun(0, LOST, TooLarge))
            && Apply(FAULTY, OneConn(FRESH, 0), StartRun(0, LOST, TooLarge)) == OneConn(SENT, 0)
    ensures Enabled(FAULTY, OneConn(SENT, 0), Receive(0))
            && Apply(FAULTY, OneConn(SENT, 0), Receive(0)) == OneConn(ASKED, 0)
  {
  }
}
