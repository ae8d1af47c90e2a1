/**
 What a worker's run comes to. In any interleaving, when a run ends its codes are where they
 should be; and a run that is alone and undisturbed makes of the database exactly what the
 procedure makes of it, and always gets to its end.
 */
module Runs {
  import opened Bytes
  import opened Protocol
  import opened Service
  import opened ServiceSafety
  import opened Server

  // ---------------------------------------------------------------- the end of a run

  /** The program a job belongs to, and what minimising it has come to. */
  function FullOf(job: Job): Blob
    requires job != NoJob
  {
    job.full
  }

  function VerdictFor(job: Job): Verdict
    requires job != NoJob
  {
    match job
    case CheckFull(_, verdict) => verdict
    case PutFull(_, verdict) => verdict
    case CheckMin(_, min) => Minimal(min)
    case PutBoth(_, min) => Minimal(min)
  }

  /** Every request of the run fits a frame. */
  predicate Fits(cfg: Config, full: Blob, verdict: Verdict)
  {
    && |cfg.makeKey(full)| <= MAX_FRAME && |Encoded([full])| <= MAX_FRAME
    && (verdict.Minimal? ==> |cfg.makeKey(verdict.min)| <= MAX_FRAME && |Encoded([full, verdict.min])| <= MAX_FRAME)
  }

  /** The code was found in the database before anything else was done. */
  predicate KnownAtOnce(k: Conn)
  {
    k.job.CheckFull? && k.outbox == Some(RESP_PRESENT)
  }

  /** Over a database that does not fail, in every interleaving: when the response that ends
      a run is delivered, its full code is in the database unless it could not be minimised,
      and its minimised code is, unless the full code was known at once. */
  lemma RunEndsStored(cfg: Config, s: State, es: seq<Event>, t: State, c: nat)
    requires Initial(cfg, s) && Leads(cfg, s, es, t) && !cfg.faulty
    requires Enabled(cfg, t, Deliver(c)) && Apply(cfg, t, Deliver(c)).conns[c].client == Idle
    requires t.conns[c].job != NoJob && Fits(cfg, FullOf(t.conns[c].job), VerdictFor(t.conns[c].job))
    ensures var k, db := t.conns[c], Apply(cfg, t, Deliver(c)).db;
            && db == t.db
            && (Has(cfg, db, FullOf(k.job)) || VerdictFor(k.job).Unminimizable?)
            && (VerdictFor(k.job).Minimal? && !KnownAtOnce(k) ==> Has(cfg, db, VerdictFor(k.job).min))
            && (KnownAtOnce(k) ==> Has(cfg, db, FullOf(k.job)))
  {
    InitialInv(cfg, s);
    InvLeads(cfg, |s.db|, s, es, t);
    hide Leads;
    hide Initial;
    var k := t.conns[c];
    assert Pipeline(cfg, t.db, k);
    hide Inv;
    EndOfRun(cfg, t.db, k);
  }

  lemma EndOfRun(cfg: Config, db: map<Key, Blob>, k: Conn)
    requires Pipeline(cfg, db, k) && !cfg.faulty && k.client == Awaiting && k.outbox.Some?
    requires Fits(cfg, FullOf(k.job), VerdictFor(k.job))
    requires Proceed(cfg, k.(outbox := None), k.outbox.value).client == Idle
    ensures Has(cfg, db, FullOf(k.job)) || VerdictFor(k.job).Unminimizable?
    ensures VerdictFor(k.job).Minimal? && !KnownAtOnce(k) ==> Has(cfg, db, VerdictFor(k.job).min)
    ensures KnownAtOnce(k) ==> Has(cfg, db, FullOf(k.job))
  {
    hide Encoded;
    assert Truthful(cfg, db, k.job, k.outbox.value);
    match k.job
    case CheckFull(full, verdict) =>
    case CheckMin(full, min) =>
    case PutFull(full, verdict) => assert Has(cfg, db, Blobs(k.job)[0]);
    case PutBoth(full, min) => assert Has(cfg, db, Blobs(k.job)[0]) && Has(cfg, db, Blobs(k.job)[1]);
  }

  // ---------------------------------------------------------------- a run alone

  /** The database and the counters. */
  datatype Out = Out(db: map<Key, Blob>, stored: nat, received: nat)

  function OutOf(s: State): Out
  {
    Out(s.db, s.stored, s.received)
  }

  /** What storing these blobs comes to. */
  function Stored(cfg: Config, o: Out, blobs: seq<Blob>): Out
  {
    var m := Missing(cfg, o.db, blobs);
    Out(WriteAll(cfg, o.db, m), o.stored + |m|, o.received + |blobs|)
  }

  /** What a run comes to from the start, and from the answer to its first question. */
  function AfterAbsent(cfg: Config, o: Out, full: Blob, verdict: Verdict): Out
  {
    match verdict
    case TooLarge => Stored(cfg, o, [full])
    case Unminimizable => o
    case Minimal(min) => Stored(cfg, o, if Has(cfg, o.db, min) then [full] else [full, min])
  }

  /** What the PUT in hand still comes to. */
  function PutOut(cfg: Config, o: Out, k: Conn): Out
  {
    if k.inbox.Some? then Stored(cfg, o, Blobs(k.job))
    else
      match k.server
      case Checking(todo, batch) =>
        var m := batch + Missing(cfg, o.db, todo);
        Out(WriteAll(cfg, o.db, m), o.stored + |m|, o.received + |todo|)
      case Counting(n) => Out(o.db, o.stored + n, o.received)
      case _ => o
  }

  /** The answer to a question: the one given, or the one that will be given. */
  predicate Present(cfg: Config, o: Out, k: Conn)
  {
    if k.outbox.Some? then k.outbox.value == RESP_PRESENT
    else if k.server.Answering? then k.server.b == RESP_PRESENT
    else Asked(cfg, k.job) in o.db
  }

  /** What the run in hand still comes to if nothing disturbs it. */
  function RunOut(cfg: Config, o: Out, k: Conn): Out
  {
    match k.job
    case NoJob => o
    case CheckFull(full, verdict) => if Present(cfg, o, k) then o else AfterAbsent(cfg, o, full, verdict)
    case CheckMin(full, min) => Stored(cfg, o, if Present(cfg, o, k) then [full] else [full, min])
    case _ => PutOut(cfg, o, k)
  }

  /** The call of the run is in exactly one place, and nobody is gone. */
  predicate Underway(k: Conn)
  {
    && k.client == Awaiting && k.job != NoJob && k.server != Down
    && (k.inbox.Some? || k.outbox.Some? || k.server != Ready)
  }

  /** One worker, in a run that fits. */
  predicate Lone(cfg: Config, s: State)
  {
    && |s.conns| == 1 && Pipeline(cfg, s.db, s.conns[0]) && Underway(s.conns[0])
    && Fits(cfg, FullOf(s.conns[0].job), VerdictFor(s.conns[0].job))
  }

  /** The events of a run that nothing disturbs. */
  predicate Smooth(e: Event)
  {
    match e
    case Receive(c) => c == 0
    case Look(c, ok) => c == 0 && ok
    case Check(c, ok) => c == 0 && ok
    case Commit(c, ok) => c == 0 && ok
    case Nothing(c) => c == 0
    case Count(c) => c == 0
    case Answer(c, delivered) => c == 0 && delivered
    case Deliver(c) => c == 0
    case _ => false
  }

  // ---------------------------------------------------------------- one event

  /** What one blob adds. */
  function MissingOne(cfg: Config, db: map<Key, Blob>, b: Blob): seq<Blob>
  {
    if cfg.makeKey(b) in db then [] else [b]
  }

  lemma MissingLast(cfg: Config, db: map<Key, Blob>, blobs: seq<Blob>, b: Blob)
    ensures Missing(cfg, db, blobs + [b]) == Missing(cfg, db, blobs) + MissingOne(cfg, db, b)
  {
    assert (blobs + [b])[..|blobs|] == blobs;
  }

  lemma {:induction false} MissingFirst(cfg: Config, db: map<Key, Blob>, b: Blob, rest: seq<Blob>)
    ensures Missing(cfg, db, [b] + rest) == MissingOne(cfg, db, b) + Missing(cfg, db, rest)
    decreases |rest|
  {
    hide *;
    if rest == [] {
      MissingOfNone(cfg, db);
      MissingLast(cfg, db, [], b);
      assert [b] + rest == [] + [b];
    } else {
      var front, last := rest[..|rest| - 1], rest[|rest| - 1];
      assert rest == front + [last] && [b] + rest == ([b] + front) + [last];
      MissingFirst(cfg, db, b, front);
      MissingLast(cfg, db, [b] + front, last);
      MissingLast(cfg, db, front, last);
      Regroup(MissingOne(cfg, db, b), Missing(cfg, db, front), MissingOne(cfg, db, last));
    }
  }

  lemma Regroup(x: seq<Blob>, y: seq<Blob>, z: seq<Blob>)
    ensures x + y + z == x + (y + z)
  {
  }

  lemma CheckOut(cfg: Config, o: Out, k: Conn)
    requires k.inbox == None && k.server.Checking? && k.server.todo != []
    ensures var code := k.server.todo[0];
            var batch := if cfg.makeKey(code) in o.db then k.server.batch else k.server.batch + [code];
            PutOut(cfg, o.(received := o.received + 1), k.(server := Checking(k.server.todo[1..], batch))) == PutOut(cfg, o, k)
  {
    hide Missing;
    hide WriteAll;
    var todo := k.server.todo;
    assert todo == [todo[0]] + todo[1..];
    MissingFirst(cfg, o.db, todo[0], todo[1..]);
    var rest := Missing(cfg, o.db, todo[1..]);
    assert k.server.batch + [todo[0]] + rest == k.server.batch + ([todo[0]] + rest);
    assert [] + rest == rest;
  }

  /** An event inside the server or the wires leaves what the run comes to. */
  lemma ServerKeepsOut(cfg: Config, s: State, e: Event)
    requires Lone(cfg, s) && Enabled(cfg, s, e) && Smooth(e) && !e.Deliver?
    ensures var t := Apply(cfg, s, e);
            |t.conns| == 1 && RunOut(cfg, OutOf(t), t.conns[0]) == RunOut(cfg, OutOf(s), s.conns[0])
  {
    if e.Receive? {
      ReceiveOut(cfg, s);
    } else if e.Check? || e.Commit? || e.Nothing? || e.Count? {
      PutKeepsOut(cfg, s, e);
    } else {
      AskKeepsOut(cfg, s, e);
    }
    hide Lone;
    hide Enabled;
    hide Apply;
    hide RunOut;
  }

  lemma AskKeepsOut(cfg: Config, s: State, e: Event)
    requires Lone(cfg, s) && Enabled(cfg, s, e) && Smooth(e) && (e.Look? || e.Answer?)
    ensures var t := Apply(cfg, s, e);
            |t.conns| == 1 && RunOut(cfg, OutOf(t), t.conns[0]) == RunOut(cfg, OutOf(s), s.conns[0])
  {
    hide Missing;
    hide WriteAll;
    hide Encoded;
    hide Decoded;
    hide Fits;
    hide Partway;
    hide Request;
    hide AfterAbsent;
  }

  lemma PutKeepsOut(cfg: Config, s: State, e: Event)
    requires Lone(cfg, s) && Enabled(cfg, s, e) && Smooth(e) && (e.Check? || e.Commit? || e.Nothing? || e.Count?)
    ensures var t := Apply(cfg, s, e);
            |t.conns| == 1 && RunOut(cfg, OutOf(t), t.conns[0]) == RunOut(cfg, OutOf(s), s.conns[0])
  {
    hide Missing;
    hide WriteAll;
    hide Encoded;
    hide Decoded;
    hide Fits;
    hide Partway;
    hide Request;
    hide AfterAbsent;
    var k := s.conns[0];
    assert IsPut(k.job) && k.inbox == None && k.outbox == None;
    hide Pipeline;
    if e.Check? {
      CheckOut(cfg, OutOf(s), k);
    } else if e.Commit? || e.Nothing? {
      MissingOfNone(cfg, s.db);
      assert k.server.batch + [] == k.server.batch;
    }
  }

  lemma MissingOfNone(cfg: Config, db: map<Key, Blob>)
    ensures Missing(cfg, db, []) == [] && WriteAll(cfg, db, []) == db
  {
  }

  lemma ReceiveOut(cfg: Config, s: State)
    requires Lone(cfg, s) && Enabled(cfg, s, Receive(0))
    ensures var t := Apply(cfg, s, Receive(0));
            |t.conns| == 1 && RunOut(cfg, OutOf(t), t.conns[0]) == RunOut(cfg, OutOf(s), s.conns[0])
  {
    hide Missing;
    hide WriteAll;
    hide Encoded;
    hide Decoded;
    hide Fits;
    var k := s.conns[0];
    if IsPut(k.job) {
      DecodeAfterEncode(Blobs(k.job));
      assert [] + Missing(cfg, s.db, Blobs(k.job)) == Missing(cfg, s.db, Blobs(k.job));
    }
  }

  /** A delivery goes on with what the run comes to, or ends it there. */
  lemma DeliverKeepsOut(cfg: Config, s: State)
    requires Lone(cfg, s) && Enabled(cfg, s, Deliver(0))
    ensures var t := Apply(cfg, s, Deliver(0));
            && |t.conns| == 1
            && (t.conns[0].client == Awaiting ==> RunOut(cfg, OutOf(t), t.conns[0]) == RunOut(cfg, OutOf(s), s.conns[0]))
            && (t.conns[0].client == Idle ==> OutOf(t) == RunOut(cfg, OutOf(s), s.conns[0]))
            && (t.conns[0].client == Awaiting || t.conns[0].client == Idle)
  {
    hide Missing;
    hide WriteAll;
    hide Encoded;
    var k := s.conns[0];
    assert k.server == Ready && k.inbox == None;
    hide Pipeline;
    hide Stored;
    match k.job
    case CheckFull(full, verdict) =>
    case CheckMin(full, min) =>
    case PutFull(full, verdict) =>
    case PutBoth(full, min) =>
  }

  lemma UnderwayKept(cfg: Config, s: State, e: Event)
    requires Lone(cfg, s) && Enabled(cfg, s, e) && Smooth(e) && Apply(cfg, s, e).conns[0].client == Awaiting
    ensures Lone(cfg, Apply(cfg, s, e))
  {
    hide WriteAll;
    hide Encoded;
    hide Decoded;
    var k := s.conns[0];
    assert AllPipelines(cfg, s);
    PipelinesStep(cfg, s, e);
    if e.Receive? && IsPut(k.job) {
      DecodeAfterEncode(Blobs(k.job));
    }
    hide Working;
  }

  // ---------------------------------------------------------------- whole runs

  predicate AllSmooth(es: seq<Event>)
  {
    forall i :: 0 <= i < |es| ==> Smooth(es[i])
  }

  /** Nothing smooth happens to a worker that is idle. */
  lemma IdleRests(cfg: Config, s: State, e: Event)
    requires |s.conns| == 1 && Pipeline(cfg, s.db, s.conns[0]) && s.conns[0].client == Idle && Smooth(e)
    ensures !Enabled(cfg, s, e)
  {
  }

  /** Whatever the smooth schedule, when the run has come to its end the database and the
      counters are what was to be expected of it from the start. */
  lemma {:induction false} LoneRun(cfg: Config, s: State, es: seq<Event>, t: State)
    requires Lone(cfg, s) && AllSmooth(es) && Leads(cfg, s, es, t) && |t.conns| == 1 && t.conns[0].client == Idle
    ensures OutOf(t) == RunOut(cfg, OutOf(s), s.conns[0])
    decreases |es|
  {
    assert es != [];
    var s1 := Apply(cfg, s, es[0]);
    assert Smooth(es[0]);
    StepOut(cfg, s, es[0]);
    if s1.conns[0].client == Awaiting {
      hide Lone;
      hide Enabled;
      hide Apply;
      hide RunOut;
      LoneRun(cfg, s1, es[1..], t);
    } else {
      RestsFromHere(cfg, s1, es[1..], t);
    }
  }

  lemma RestsFromHere(cfg: Config, s: State, es: seq<Event>, t: State)
    requires |s.conns| == 1 && Pipeline(cfg, s.db, s.conns[0]) && s.conns[0].client == Idle
    requires AllSmooth(es) && Leads(cfg, s, es, t)
    ensures s == t
  {
    hide Pipeline;
    if es != [] {
      assert Smooth(es[0]);
      IdleRests(cfg, s, es[0]);
    }
  }

  /** One smooth event. */
  lemma StepOut(cfg: Config, s: State, e: Event)
    requires Lone(cfg, s) && Enabled(cfg, s, e) && Smooth(e)
    ensures var t := Apply(cfg, s, e);
            && |t.conns| == 1 && Pipeline(cfg, t.db, t.conns[0])
            && (t.conns[0].client == Awaiting || t.conns[0].client == Idle)
            && (t.conns[0].client == Awaiting ==>
                  Lone(cfg, t) && RunOut(cfg, OutOf(t), t.conns[0]) == RunOut(cfg, OutOf(s), s.conns[0]))
            && (t.conns[0].client == Idle ==> OutOf(t) == RunOut(cfg, OutOf(s), s.conns[0]))
  {
    assert AllPipelines(cfg, s);
    PipelinesStep(cfg, s, e);
    if e.Deliver? {
      DeliverKeepsOut(cfg, s);
    } else {
      ServerKeepsOut(cfg, s, e);
      StillAwaiting(cfg, s, e);
    }
    if Apply(cfg, s, e).conns[0].client == Awaiting {
      UnderwayKept(cfg, s, e);
    }
    hide Enabled;
    hide Apply;
    hide RunOut;
    hide Pipeline;
    hide Fits;
  }

  lemma StillAwaiting(cfg: Config, s: State, e: Event)
    requires Lone(cfg, s) && Enabled(cfg, s, e) && Smooth(e) && !e.Deliver?
    ensures |Apply(cfg, s, e).conns| == 1 && Apply(cfg, s, e).conns[0].client == Awaiting
  {
    hide WriteAll;
    hide Dispatch;
    hide Pipeline;
  }

  /** How far a run is from its end. */
  function Rank(k: Conn): nat
  {
    (match k.job case CheckFull(_, _) => 30 case CheckMin(_, _) => 20 case _ => 10)
    + if k.inbox.Some? then 5 + |Blobs(k.job)|
      else
        match k.server
        case Looking(_) => 3
        case Checking(todo, _) => 4 + |todo|
        case Counting(_) => 3
        case Answering(_) => 2
        case _ => 1
  }

  /** A run that is under way and undisturbed goes on. */
  lemma GoesOn(cfg: Config, s: State) returns (e: Event)
    requires Lone(cfg, s)
    ensures Smooth(e) && Enabled(cfg, s, e)
    ensures Apply(cfg, s, e).conns != [] && (Apply(cfg, s, e).conns[0].client == Awaiting ==>
              Rank(Apply(cfg, s, e).conns[0]) < Rank(s.conns[0]))
  {
    hide WriteAll;
    hide Encoded;
    hide Decoded;
    var k := s.conns[0];
    if k.inbox.Some? {
      e := Receive(0);
      if IsPut(k.job) {
        DecodeAfterEncode(Blobs(k.job));
      }
    } else if k.outbox.Some? {
      e := Deliver(0);
    } else {
      e := if k.server.Looking? then Look(0, true)
           else if k.server.Checking? then
             if k.server.todo != [] then Check(0, true) else if k.server.batch != [] then Commit(0, true) else Nothing(0)
           else if k.server.Counting? then Count(0)
           else Answer(0, true);
    }
  }

  lemma {:induction false} ComesToAnEnd(cfg: Config, s: State) returns (es: seq<Event>, t: State)
    requires Lone(cfg, s)
    ensures AllSmooth(es) && Leads(cfg, s, es, t) && |t.conns| == 1 && t.conns[0].client == Idle
    decreases Rank(s.conns[0])
  {
    var e := GoesOn(cfg, s);
    StepOut(cfg, s, e);
    var s1 := Apply(cfg, s, e);
    if s1.conns[0].client == Awaiting {
      es, t := ComesToAnEnd(cfg, s1);
    } else {
      es, t := [], s1;
    }
    hide Lone;
    hide Rank;
    hide RunOut;
    hide Pipeline;
    assert ([e] + es)[1..] == es;
    es := [e] + es;
  }

  /** A worker that is idle, on a database. */
  function AtRest(o: Out, deposits: set<(Blob, Blob)>): State
  {
    State(o.db, o.stored, o.received, [Conn(Idle, NoJob, None, Ready, None)], deposits)
  }

  lemma StartIsLone(cfg: Config, o: Out, deposits: set<(Blob, Blob)>, full: Blob, verdict: Verdict)
    requires Fits(cfg, full, verdict)
    ensures Enabled(cfg, AtRest(o, deposits), StartRun(0, full, verdict))
    ensures var s := Apply(cfg, AtRest(o, deposits), StartRun(0, full, verdict));
            && Lone(cfg, s) && OutOf(s) == o
            && RunOut(cfg, o, s.conns[0]) == if Has(cfg, o.db, full) then o else AfterAbsent(cfg, o, full, verdict)
  {
    hide Encoded;
    hide Missing;
    hide WriteAll;
  }

  lemma AfterAbsentIs(cfg: Config, o: Out, full: Blob, verdict: Verdict)
    requires !Has(cfg, o.db, full)
    ensures var out := AfterAbsent(cfg, o, full, verdict);
            var n := if verdict.Unminimizable? then 0 else if verdict.Minimal? && !Has(cfg, o.db, verdict.min) then 2 else 1;
            out == Out(AfterRun(cfg, o.db, full, verdict), o.stored + n, o.received + n)
  {
    hide Missing;
    hide WriteAll;
    MissingOfOne(cfg, o.db, full);
    if verdict.Minimal? {
      MissingOfTwo(cfg, o.db, full, verdict.min);
      assert [full] + [verdict.min] == [full, verdict.min];
    }
  }

  lemma MissingOfOne(cfg: Config, db: map<Key, Blob>, b: Blob)
    ensures Missing(cfg, db, [b]) == if Has(cfg, db, b) then [] else [b]
  {
    MissingFirst(cfg, db, b, []);
    MissingOfNone(cfg, db);
    hide Missing;
    assert [b] + [] == [b];
    var m := if cfg.makeKey(b) in db then [] else [b];
    assert m + [] == m;
  }

  lemma MissingOfTwo(cfg: Config, db: map<Key, Blob>, a: Blob, b: Blob)
    ensures Missing(cfg, db, [a, b]) == (if Has(cfg, db, a) then [] else [a]) + (if Has(cfg, db, b) then [] else [b])
  {
    MissingOfOne(cfg, db, b);
    MissingFirst(cfg, db, a, [b]);
    hide Missing;
    assert [a] + [b] == [a, b];
  }

  /** A run alone. Every smooth schedule that ends it makes of the database what the
      procedure makes of it, and counts exactly the codes that are stored; and there is one. */
  lemma RunAlone(cfg: Config, o: Out, deposits: set<(Blob, Blob)>, full: Blob, verdict: Verdict)
      returns (fs: seq<Event>, u: State)
    requires Fits(cfg, full, verdict)
    ensures var s := Apply(cfg, AtRest(o, deposits), StartRun(0, full, verdict));
            && (forall es, t :: AllSmooth(es) && Leads(cfg, s, es, t) && |t.conns| == 1 && t.conns[0].client == Idle ==>
                  var n := if Has(cfg, o.db, full) || verdict.Unminimizable? then 0
                           else if verdict.Minimal? && !Has(cfg, o.db, verdict.min) then 2 else 1;
                  OutOf(t) == Out(AfterRun(cfg, o.db, full, verdict), o.stored + n, o.received + n))
            && AllSmooth(fs) && Leads(cfg, s, fs, u) && |u.conns| == 1 && u.conns[0].client == Idle
  {
    StartIsLone(cfg, o, deposits, full, verdict);
    var s := Apply(cfg, AtRest(o, deposits), StartRun(0, full, verdict));
    if !Has(cfg, o.db, full) {
      AfterAbsentIs(cfg, o, full, verdict);
    }
    hide Lone;
    hide Apply;
    hide Enabled;
    hide RunOut;
    hide AfterAbsent;
    hide Fits;
    hide Leads;
    forall es, t | AllSmooth(es) && Leads(cfg, s, es, t) && |t.conns| == 1 && t.conns[0].client == Idle
      ensures OutOf(t) == if Has(cfg, o.db, full) then o else AfterAbsent(cfg, o, full, verdict)
    {
      LoneRun(cfg, s, es, t);
    }
    fs, u := ComesToAnEnd(cfg, s);
  }
}
