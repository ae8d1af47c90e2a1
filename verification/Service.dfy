/**
 Any number of fuzzing workers and the database server, interleaved step by step. Each
 worker runs its inputs one after another over its own connection; the server looks keys
 up and stores blobs with one database access a step. A worker can die and a connection
 can break at any moment; with `faulty` set any database access can fail as well.
 */
module Service {
  import opened Bytes
  import opened Sums
  import opened Protocol

  type Key = seq<byte>

  /** makeKey is the content hash; nothing is assumed of it. */
  datatype Config = Config(makeKey: Blob -> Key, faulty: bool)

  /** What minimising a program comes to. */
  datatype Verdict = TooLarge | Unminimizable | Minimal(min: Blob)

  /** The database call a worker is in, with what it still has to remember. */
  datatype Job = NoJob
    | CheckFull(full: Blob, verdict: Verdict)
    | CheckMin(full: Blob, min: Blob)
    | PutFull(full: Blob, verdict: Verdict)
    | PutBoth(full: Blob, min: Blob)

  datatype ClientPc = Idle | Awaiting | Dead

  /** The handler of a connection. Checking is the loop of a PUT: the blobs still to be
      looked up and those found missing so far. */
  datatype ServerPc = Ready | Looking(key: Key) | Checking(todo: seq<Blob>, batch: seq<Blob>)
                    | Counting(n: nat) | Answering(b: byte) | Down

  datatype Conn = Conn(client: ClientPc, job: Job, inbox: Option<Frame>, server: ServerPc, outbox: Option<byte>)

  /** `deposits` records the pairs (full code, minimised code) of the runs that minimised
      a program and whose full code a commit has stored. */
  datatype State = State(db: map<Key, Blob>, stored: nat, received: nat, conns: seq<Conn>,
                         deposits: set<(Blob, Blob)>)

  /** The events. A request that is never received stays in `inbox` for good. An answer
      that cannot be delivered means that the connection is broken: the worker's call ends
      with a transport error and the connection is of no more use to it. */
  datatype Event = Connect
    | StartRun(c: nat, full: Blob, verdict: Verdict)
    | Receive(c: nat)
    | Look(c: nat, ok: bool)
    | Check(c: nat, ok: bool)
    | Commit(c: nat, ok: bool)
    | Nothing(c: nat)
    | Count(c: nat)
    | Answer(c: nat, delivered: bool)
    | Deliver(c: nat)
    | Crash(c: nat)
    | Hangup(c: nat)

  // ---------------------------------------------------------------- the worker

  function Blobs(job: Job): seq<Blob>
  {
    match job
    case PutFull(full, _) => [full]
    case PutBoth(full, min) => [full, min]
    case _ => []
  }

  predicate IsPut(job: Job)
  {
    job.PutFull? || job.PutBoth?
  }

  function Asked(cfg: Config, job: Job): Key
  {
    match job
    case CheckFull(full, _) => cfg.makeKey(full)
    case CheckMin(_, min) => cfg.makeKey(min)
    case _ => []
  }

  /** The frame of a call: a HAS with the key, or a PUT with the blobs. */
  function Request(cfg: Config, job: Job): Frame
  {
    if IsPut(job) then Frame(OP_PUT, Encoded(Blobs(job))) else Frame(OP_HAS, Asked(cfg, job))
  }

  /** Starts a call. A frame that is too large is refused before a byte is written, and
      the run ends with that error. */
  function Send(cfg: Config, k: Conn, job: Job): Conn
  {
    if |Request(cfg, job).payload| <= MAX_FRAME
    then k.(client := Awaiting, job := job, inbox := Some(Request(cfg, job)))
    else k.(client := Idle, job := NoJob)
  }

  function Finish(k: Conn): Conn
  {
    k.(client := Idle, job := NoJob)
  }

  /** What a worker does with a response: the body of run() after each database call. */
  function Proceed(cfg: Config, k: Conn, b: byte): Conn
  {
    match k.job
    case CheckFull(full, verdict) =>
      if b == RESP_ABSENT then
        match verdict
        case TooLarge => Send(cfg, k, PutFull(full, TooLarge))
        case Unminimizable => Finish(k)
        case Minimal(min) => Send(cfg, k, CheckMin(full, min))
      else Finish(k)
    case CheckMin(full, min) =>
      if b == RESP_PRESENT then Send(cfg, k, PutFull(full, Minimal(min)))
      else if b == RESP_ABSENT then Send(cfg, k, PutBoth(full, min))
      else Finish(k)
    case _ => Finish(k)
  }

  /** The pair a commit of this job records, if its full code is in the batch. */
  function Deposit(job: Job, batch: seq<Blob>): set<(Blob, Blob)>
  {
    match job
    case PutFull(full, Minimal(min)) => if full in batch then {(full, min)} else {}
    case PutBoth(full, min) => if full in batch then {(full, min)} else {}
    case _ => {}
  }

  // ---------------------------------------------------------------- the server

  /** What the handler does with a frame. A PUT that cannot be decoded is acknowledged. */
  function Dispatch(f: Frame): ServerPc
  {
    if f.op == OP_HAS then Looking(f.payload)
    else if f.op == OP_PUT then
      match Decoded(f.payload)
      case Ok(blobs) => Checking(blobs, [])
      case Err(_) => Answering(RESP_ACK)
    else Down
  }

  /** The handler gives a connection up exactly on an unknown opcode; all else is answered,
      at once or after work on the database. */
  lemma HangsUpExactly(f: Frame)
    ensures Dispatch(f) == Down <==> f.op != OP_HAS && f.op != OP_PUT
    ensures f.op == OP_HAS ==> Dispatch(f) == Looking(f.payload)
    ensures f.op == OP_PUT ==> Dispatch(f).Checking? || Dispatch(f) == Answering(RESP_ACK)
  {
    hide Decoded;
  }

  /** The atomic batch. */
  function WriteAll(cfg: Config, db: map<Key, Blob>, batch: seq<Blob>): map<Key, Blob>
  {
    if batch == [] then db
    else WriteAll(cfg, db, batch[..|batch| - 1])[cfg.makeKey(batch[|batch| - 1]) := batch[|batch| - 1]]
  }

  predicate Enabled(cfg: Config, s: State, e: Event)
  {
    if e == Connect then true
    else
      && e.c < |s.conns|
      && var k := s.conns[e.c];
      match e
      case StartRun(_, _, _) => k.client == Idle
      case Receive(_) => k.server == Ready && k.inbox.Some?
      case Look(_, ok) => k.server.Looking? && (ok || cfg.faulty)
      case Check(_, ok) => k.server.Checking? && k.server.todo != [] && (ok || cfg.faulty)
      case Commit(_, ok) => k.server.Checking? && k.server.todo == [] && k.server.batch != [] && (ok || cfg.faulty)
      case Nothing(_) => k.server == Checking([], [])
      case Count(_) => k.server.Counting?
      case Answer(_, _) => k.server.Answering?
      case Deliver(_) => k.client == Awaiting && k.outbox.Some?
      case Crash(_) => k.client != Dead
      case Hangup(_) => k.server == Ready
  }

  function With(s: State, c: nat, k: Conn): State
    requires c < |s.conns|
  {
    s.(conns := s.conns[c := k])
  }

  function Apply(cfg: Config, s: State, e: Event): State
    requires Enabled(cfg, s, e)
  {
    if e == Connect then s.(conns := s.conns + [Conn(Idle, NoJob, None, Ready, None)])
    else
      var c, k := e.c, s.conns[e.c];
      match e
      case StartRun(_, full, verdict) => With(s, c, Send(cfg, k, CheckFull(full, verdict)))
      case Receive(_) => With(s, c, k.(inbox := None, server := Dispatch(k.inbox.value)))
      case Look(_, ok) =>
        With(s, c, k.(server := Answering(if ok && k.server.key in s.db then RESP_PRESENT else RESP_ABSENT)))
      case Check(_, ok) =>
        var code := k.server.todo[0];
        var batch := if cfg.makeKey(code) in s.db then k.server.batch else k.server.batch + [code];
        With(s, c, k.(server := if ok then Checking(k.server.todo[1..], batch) else Answering(RESP_ACK)))
        .(received := s.received + 1)
      case Commit(_, ok) =>
        if ok then
          With(s, c, k.(server := Counting(|k.server.batch|)))
          .(db := WriteAll(cfg, s.db, k.server.batch), deposits := s.deposits + Deposit(k.job, k.server.batch))
        else With(s, c, k.(server := Answering(RESP_ACK)))
      case Nothing(_) => With(s, c, k.(server := Answering(RESP_ACK)))
      case Count(_) => With(s, c, k.(server := Answering(RESP_ACK))).(stored := s.stored + k.server.n)
      case Answer(_, delivered) =>
        if delivered then With(s, c, k.(server := Ready, outbox := Some(k.server.b)))
        else With(s, c, k.(client := Dead, server := Down, outbox := Some(k.server.b)))
      case Deliver(_) => With(s, c, Proceed(cfg, k.(outbox := None), k.outbox.value))
      case Crash(_) => With(s, c, k.(client := Dead))
      case Hangup(_) => With(s, c, k.(server := Down))
  }

  predicate Leads(cfg: Config, s: State, es: seq<Event>, t: State)
    decreases |es|
  {
    if es == [] then s == t
    else Enabled(cfg, s, es[0]) && Leads(cfg, Apply(cfg, s, es[0]), es[1..], t)
  }

  predicate Hashed(cfg: Config, db: map<Key, Blob>)
  {
    forall key :: key in db ==> cfg.makeKey(db[key]) == key
  }

  /** A freshly started server on any content-addressed database. */
  predicate Initial(cfg: Config, s: State)
  {
    Hashed(cfg, s.db) && s.stored == 0 && s.received == 0 && s.conns == [] && s.deposits == {}
  }

  // ---------------------------------------------------------------- one connection

  predicate Has(cfg: Config, db: map<Key, Blob>, code: Blob)
  {
    cfg.makeKey(code) in db
  }

  predicate AllIn(cfg: Config, db: map<Key, Blob>, codes: seq<Blob>)
  {
    forall i :: 0 <= i < |codes| ==> Has(cfg, db, codes[i])
  }

  /** The response a job can get: its kind, what it says of the database, and, if the
      database cannot fail, that an acknowledgement means the blobs are there. */
  predicate Truthful(cfg: Config, db: map<Key, Blob>, job: Job, b: byte)
  {
    if IsPut(job) then b == RESP_ACK && (!cfg.faulty ==> AllIn(cfg, db, Blobs(job)))
    else b == RESP_ABSENT || (b == RESP_PRESENT && Asked(cfg, job) in db)
  }

  /** Where the loop of a PUT is: a first part of the blobs has been looked up, each of
      them is in the database or in the batch, and the batch holds nothing else. */
  predicate Partway(cfg: Config, db: map<Key, Blob>, all: seq<Blob>, todo: seq<Blob>, batch: seq<Blob>)
  {
    && |todo| <= |all| && all[|all| - |todo|..] == todo
    && (forall i :: 0 <= i < |all| - |todo| ==> Has(cfg, db, all[i]) || all[i] in batch)
    && (forall i :: 0 <= i < |batch| ==> batch[i] in all)
  }

  predicate Working(cfg: Config, db: map<Key, Blob>, job: Job, server: ServerPc)
  {
    match server
    case Looking(key) => !IsPut(job) && key == Asked(cfg, job)
    case Checking(todo, batch) => IsPut(job) && Partway(cfg, db, Blobs(job), todo, batch)
    case Counting(_) => IsPut(job) && AllIn(cfg, db, Blobs(job))
    case Answering(b) => Truthful(cfg, db, job, b)
    case Ready => false
    case Down => false
  }

  /** A connection carries at most one call, and the call is in one place only: on its way
      to the server, in the server, on its way back, or lost. */
  predicate Pipeline(cfg: Config, db: map<Key, Blob>, k: Conn)
  {
    && (k.client == Idle ==> k.job == NoJob)
    && (k.client == Awaiting ==> k.job != NoJob)
    && (k.job.PutFull? && k.job.verdict.Minimal? ==> Has(cfg, db, k.job.verdict.min))
    && (k.job == NoJob ==> k.inbox == None && k.outbox == None && (k.server == Ready || k.server == Down))
    && (k.inbox.Some? ==> k.inbox.value == Request(cfg, k.job) && k.outbox == None
                          && |k.inbox.value.payload| <= MAX_FRAME && (k.server == Ready || k.server == Down))
    && (k.server != Ready && k.server != Down ==> k.outbox == None && Working(cfg, db, k.job, k.server))
    && (k.outbox.Some? ==> Truthful(cfg, db, k.job, k.outbox.value))
  }

  /** Everything a connection relies on survives the growth of the database. */
  lemma PipelineGrows(cfg: Config, db: map<Key, Blob>, db': map<Key, Blob>, k: Conn)
    requires Pipeline(cfg, db, k) && db.Keys <= db'.Keys
    ensures Pipeline(cfg, db', k)
  {
    hide Request;
    hide Asked;
  }

  lemma {:induction false} WriteAllKeys(cfg: Config, db: map<Key, Blob>, batch: seq<Blob>)
    ensures WriteAll(cfg, db, batch).Keys == db.Keys + set i | 0 <= i < |batch| :: cfg.makeKey(batch[i])
    decreases |batch|
  {
    if batch == [] {
    } else {
      var n := |batch| - 1;
      WriteAllKeys(cfg, db, batch[..n]);
      var old_keys := set i | 0 <= i < |batch[..n]| :: cfg.makeKey(batch[..n][i]);
      var new_keys := set i | 0 <= i < |batch| :: cfg.makeKey(batch[i]);
      assert cfg.makeKey(batch[n]) in new_keys;
      forall x | x in old_keys
        ensures x in new_keys
      {
        var i :| 0 <= i < n && x == cfg.makeKey(batch[..n][i]);
        assert batch[i] == batch[..n][i];
      }
      forall x | x in new_keys
        ensures x in old_keys || x == cfg.makeKey(batch[n])
      {
        var i :| 0 <= i < |batch| && x == cfg.makeKey(batch[i]);
        if i < n {
          assert batch[i] == batch[..n][i];
        }
      }
      assert new_keys == old_keys + {cfg.makeKey(batch[n])};
    }
  }

  lemma WriteAllHas(cfg: Config, db: map<Key, Blob>, batch: seq<Blob>, code: Blob)
    requires Has(cfg, db, code) || code in batch
    ensures Has(cfg, WriteAll(cfg, db, batch), code)
  {
    hide WriteAll;
    WriteAllKeys(cfg, db, batch);
    if code in batch {
      var i :| 0 <= i < |batch| && batch[i] == code;
      assert cfg.makeKey(batch[i]) in WriteAll(cfg, db, batch).Keys;
    }
  }

  lemma {:induction false} WriteAllSize(cfg: Config, db: map<Key, Blob>, batch: seq<Blob>)
    ensures |WriteAll(cfg, db, batch)| <= |db| + |batch|
    decreases |batch|
  {
    if batch == [] {
    } else {
      WriteAllSize(cfg, db, batch[..|batch| - 1]);
    }
  }

  lemma {:induction false} WriteAllHashed(cfg: Config, db: map<Key, Blob>, batch: seq<Blob>)
    requires Hashed(cfg, db)
    ensures Hashed(cfg, WriteAll(cfg, db, batch))
    decreases |batch|
  {
    if batch == [] {
    } else {
      WriteAllHashed(cfg, db, batch[..|batch| - 1]);
    }
  }
}
