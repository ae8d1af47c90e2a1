/**
 The life of the database server: the accept loop, one handler a connection, and
 shutdown, interleaved in every possible way. Connections are numbered in the order in
 which they are accepted; `handlers[c]` is where the goroutine of connection c is.
 */
module Shutdown {
  import opened Sums

  datatype Owner = NoOne | ServeLoop | ShutdownCall | Handler(c: nat)

  /** The accept loop. Between Tracked and Counted lies the gap in which a connection is
      registered but not yet known to the wait group. */
  datatype ServePc = Accepting | Tracking(c: nat) | TrackLocked(c: nat) | Refusing(c: nat)
                   | Tracked(c: nat) | Counted(c: nat) | ServeDone

  datatype ShutPc = NotCalled | ListenerClosed | Locked | Closing(todo: set<nat>) | Waiting | Returned

  datatype HandlerPc = Unborn | Reading | GotFrame | InDb | Writing
                     | Leaving | UntrackLocked | ClosingConn | Finishing | Gone

  datatype State = State(
    listening: bool, mutex: Owner, closing: bool,
    conns: set<nat>,    // the connections registered with the server
    closed: set<nat>,   // the connections the server side has closed
    wg: int,            // the counter of the wait group
    serve: ServePc, shut: ShutPc, handlers: seq<HandlerPc>)

  datatype Event =
    | Accept | AcceptError | TrackLock | TrackCheck | Refuse | WgAdd | Spawn
    | CloseListener | ShutLock | SetClosing | CloseConn(c: nat) | ShutUnlock | WaitReturns
    | ReadFrame(c: nat) | ReadError(c: nat) | BadOpcode(c: nat) | BeginDb(c: nat) | EndDb(c: nat)
    | WriteOk(c: nat) | WriteError(c: nat)
    | UntrackLock(c: nat) | Untrack(c: nat) | CloseOwn(c: nat) | WgDone(c: nat)

  const INITIAL := State(true, NoOne, false, {}, {}, 0, Accepting, NotCalled, [])

  predicate At(s: State, c: nat, pc: HandlerPc)
  {
    c < |s.handlers| && s.handlers[c] == pc
  }

  /** When an event can happen. A frame is read, and an answer written, only on a
      connection the server side has not closed. */
  predicate Enabled(s: State, e: Event)
  {
    match e
    case Accept => s.serve == Accepting && s.listening
    case AcceptError => s.serve == Accepting
    case TrackLock => s.serve.Tracking? && s.mutex == NoOne
    case TrackCheck => s.serve.TrackLocked?
    case Refuse => s.serve.Refusing?
    case WgAdd => s.serve.Tracked?
    case Spawn => s.serve.Counted? && s.serve.c < |s.handlers|
    case CloseListener => s.shut == NotCalled
    case ShutLock => s.shut == ListenerClosed && s.mutex == NoOne
    case SetClosing => s.shut == Locked
    case CloseConn(c) => s.shut.Closing? && c in s.shut.todo
    case ShutUnlock => s.shut == Closing({})
    case WaitReturns => s.shut == Waiting && s.wg == 0
    case ReadFrame(c) => At(s, c, Reading) && c !in s.closed
    case ReadError(c) => At(s, c, Reading)
    case BadOpcode(c) => At(s, c, GotFrame)
    case BeginDb(c) => At(s, c, GotFrame)
    case EndDb(c) => At(s, c, InDb)
    case WriteOk(c) => At(s, c, Writing) && c !in s.closed
    case WriteError(c) => At(s, c, Writing)
    case UntrackLock(c) => At(s, c, Leaving) && s.mutex == NoOne
    case Untrack(c) => At(s, c, UntrackLocked)
    case CloseOwn(c) => At(s, c, ClosingConn)
    case WgDone(c) => At(s, c, Finishing)
  }

  function Move(s: State, c: nat, pc: HandlerPc): State
    requires c < |s.handlers|
  {
    s.(handlers := s.handlers[c := pc])
  }

  function Apply(s: State, e: Event): State
    requires Enabled(s, e)
  {
    match e
    case Accept => s.(serve := Tracking(|s.handlers|), handlers := s.handlers + [Unborn])
    case AcceptError => s.(serve := ServeDone)
    case TrackLock => s.(serve := TrackLocked(s.serve.c), mutex := ServeLoop)
    case TrackCheck =>
      if s.closing then s.(serve := Refusing(s.serve.c), mutex := NoOne)
      else s.(serve := Tracked(s.serve.c), mutex := NoOne, conns := s.conns + {s.serve.c})
    case Refuse => s.(serve := Accepting, closed := s.closed + {s.serve.c})
    case WgAdd => s.(serve := Counted(s.serve.c), wg := s.wg + 1)
    case Spawn => Move(s, s.serve.c, Reading).(serve := Accepting)
    case CloseListener => s.(shut := ListenerClosed, listening := false)
    case ShutLock => s.(shut := Locked, mutex := ShutdownCall)
    case SetClosing => s.(shut := Closing(s.conns), closing := true)
    case CloseConn(c) => s.(shut := Closing(s.shut.todo - {c}), closed := s.closed + {c})
    case ShutUnlock => s.(shut := Waiting, mutex := NoOne)
    case WaitReturns => s.(shut := Returned)
    case ReadFrame(c) => Move(s, c, GotFrame)
    case ReadError(c) => Move(s, c, Leaving)
    case BadOpcode(c) => Move(s, c, Leaving)
    case BeginDb(c) => Move(s, c, InDb)
    case EndDb(c) => Move(s, c, Writing)
    case WriteOk(c) => Move(s, c, Reading)
    case WriteError(c) => Move(s, c, Leaving)
    case UntrackLock(c) => Move(s, c, UntrackLocked).(mutex := Handler(c))
    case Untrack(c) => Move(s, c, ClosingConn).(mutex := NoOne, conns := s.conns - {c})
    case CloseOwn(c) => Move(s, c, Finishing).(closed := s.closed + {c})
    case WgDone(c) => Move(s, c, Gone).(wg := s.wg - 1)
  }

  /** A schedule: the events es lead from s to t. */
  predicate Leads(s: State, es: seq<Event>, t: State)
    decreases |es|
  {
    if es == [] then s == t else Enabled(s, es[0]) && Leads(Apply(s, es[0]), es[1..], t)
  }

  ghost predicate Reachable(s: State)
  {
    exists es :: Leads(INITIAL, es, s)
  }

  /** A handler the wait group has been told of and not yet told to forget. */
  function Live(pc: HandlerPc): nat
  {
    if pc == Unborn || pc == Gone then 0 else 1
  }

  // ---------------------------------------------------------------- the invariant

  predicate Serving(pc: HandlerPc)
  {
    pc == Reading || pc == GotFrame || pc == InDb || pc == Writing
  }

  predicate Registered(pc: HandlerPc)
  {
    Serving(pc) || pc == Leaving || pc == UntrackLocked
  }

  predicate LockDiscipline(s: State)
  {
    && (s.mutex == ServeLoop <==> s.serve.TrackLocked?)
    && (s.mutex == ShutdownCall <==> s.shut == Locked || s.shut.Closing?)
    && (forall c :: 0 <= c < |s.handlers| ==> (s.handlers[c] == UntrackLocked <==> s.mutex == Handler(c)))
    && (s.mutex.Handler? ==> s.mutex.c < |s.handlers|)
  }

  predicate ConnDiscipline(s: State)
  {
    && (s.serve.Tracking? || s.serve.TrackLocked? || s.serve.Refusing? || s.serve.Tracked? || s.serve.Counted? ==>
          s.serve.c < |s.handlers| && s.handlers[s.serve.c] == Unborn)
    && (s.serve.Tracked? || s.serve.Counted? ==> s.serve.c in s.conns)
    && (forall c :: 0 <= c < |s.handlers| && Registered(s.handlers[c]) ==> c in s.conns)
    && (forall c :: c in s.conns ==> c < |s.handlers|)
  }

  predicate Counting(s: State)
  {
    s.wg == Total(s.handlers, Live) + if s.serve.Counted? then 1 else 0
  }

  /** What shutdown has achieved: once it has gone through the registered connections all
      of them are closed, including one that is registered but not counted, and once it
      has returned no handler has a frame in hand. */
  predicate Closed(s: State)
  {
    && (s.shut != NotCalled ==> !s.listening)
    && (s.closing <==> s.shut.Closing? || s.shut == Waiting || s.shut == Returned)
    && (s.shut.Closing? ==> s.conns - s.shut.todo <= s.closed)
    && (s.shut == Waiting || s.shut == Returned ==> s.conns <= s.closed)
    && (s.shut == Returned ==> forall c :: 0 <= c < |s.handlers| && Serving(s.handlers[c]) ==> s.handlers[c] == Reading)
  }

  predicate Inv(s: State)
  {
    LockDiscipline(s) && ConnDiscipline(s) && Counting(s) && Closed(s)
  }

  /** A handler that stays alive, dies or is born changes the number of live ones by that. */
  lemma LiveMove(s: State, c: nat, pc: HandlerPc)
    requires c < |s.handlers|
    ensures Total(Move(s, c, pc).handlers, Live) == Total(s.handlers, Live) - Live(s.handlers[c]) + Live(pc)
  {
    TotalUpdate(s.handlers, Live, c, pc);
  }

  predicate OfHandler(e: Event)
  {
    || e.ReadFrame? || e.ReadError? || e.BadOpcode? || e.BeginDb? || e.EndDb? || e.WriteOk? || e.WriteError?
    || e.UntrackLock? || e.Untrack? || e.CloseOwn? || e.WgDone?
  }

  /** Where the handler of an event goes. */
  function Target(e: Event): HandlerPc
    requires OfHandler(e)
  {
    match e
    case ReadFrame(_) => GotFrame
    case BeginDb(_) => InDb
    case EndDb(_) => Writing
    case WriteOk(_) => Reading
    case UntrackLock(_) => UntrackLocked
    case Untrack(_) => ClosingConn
    case CloseOwn(_) => Finishing
    case WgDone(_) => Gone
    case _ => Leaving
  }

  /** What the events of a handler do to it and to the wait group. */
  lemma HandlerMoves(s: State, e: Event)
    requires Enabled(s, e) && OfHandler(e)
    ensures var t := Apply(s, e);
            && e.c < |s.handlers| && t.handlers == Move(s, e.c, Target(e)).handlers && t.serve == s.serve
            && t.wg == s.wg - (if e.WgDone? then 1 else 0) && Live(s.handlers[e.c]) == 1
  {
  }

  lemma CountingByHandler(s: State, e: Event)
    requires Counting(s) && Enabled(s, e) && OfHandler(e)
    ensures Counting(Apply(s, e))
  {
    HandlerMoves(s, e);
    LiveMove(s, e.c, Target(e));
    assert Live(Target(e)) == if e.WgDone? then 0 else 1;
    hide Total;
    hide Enabled;
    hide Apply;
  }

  lemma CountingByServer(s: State, e: Event)
    requires Counting(s) && ConnDiscipline(s) && Enabled(s, e) && !OfHandler(e)
    ensures Counting(Apply(s, e))
  {
    hide Total;
    match e
    case Accept => TotalSnoc(s.handlers, Live, Unborn);
    case Spawn => LiveMove(s, s.serve.c, Reading);
    case _ =>
  }

  /** What the events of a handler do to the mutex. */
  lemma HandlerLocks(s: State, e: Event)
    requires Enabled(s, e) && OfHandler(e)
    ensures var t := Apply(s, e);
            && e.c < |s.handlers| && t.handlers == s.handlers[e.c := t.handlers[e.c]]
            && t.serve == s.serve && t.shut == s.shut
            && (t.handlers[e.c] == UntrackLocked <==> e.UntrackLock?)
            && (s.handlers[e.c] == UntrackLocked <==> e.Untrack?)
            && (e.UntrackLock? ==> s.mutex == NoOne)
            && t.mutex == if e.UntrackLock? then Handler(e.c) else if e.Untrack? then NoOne else s.mutex
  {
  }

  lemma LockByHandler(s: State, e: Event)
    requires LockDiscipline(s) && Enabled(s, e) && OfHandler(e)
    ensures LockDiscipline(Apply(s, e))
  {
    HandlerLocks(s, e);
    hide Enabled;
    hide Apply;
    hide OfHandler;
  }

  /** What the other events do to the mutex: they take it when it is free and let go of it
      themselves. */
  lemma ServerLocks(s: State, e: Event)
    requires Enabled(s, e) && !OfHandler(e)
    requires s.serve.Counted? ==> s.serve.c < |s.handlers| && s.handlers[s.serve.c] == Unborn
    ensures var t := Apply(s, e);
            && (t.mutex == s.mutex || (e.TrackLock? && s.mutex == NoOne && t.mutex == ServeLoop)
                || (e.ShutLock? && s.mutex == NoOne && t.mutex == ShutdownCall)
                || (e.TrackCheck? && t.mutex == NoOne) || (e.ShutUnlock? && t.mutex == NoOne))
            && (s.serve.TrackLocked? <==> e.TrackCheck? || (t.serve.TrackLocked? && !e.TrackLock?))
            && (t.serve.TrackLocked? ==> s.serve.TrackLocked? || (e.TrackLock? && t.mutex == ServeLoop))
            && (e.TrackCheck? ==> !t.serve.TrackLocked? && t.mutex == NoOne)
            && ((s.shut == Locked || s.shut.Closing?) <==> e.ShutUnlock? || ((t.shut == Locked || t.shut.Closing?) && !e.ShutLock?))
            && (e.ShutLock? ==> t.shut == Locked && t.mutex == ShutdownCall)
            && (e.TrackLock? ==> t.serve.TrackLocked? && t.mutex == ServeLoop)
            && (e.ShutUnlock? ==> !(t.shut == Locked || t.shut.Closing?) && t.mutex == NoOne)
            && |t.handlers| >= |s.handlers|
            && (forall c :: 0 <= c < |t.handlers| ==>
                  (t.handlers[c] == UntrackLocked <==> c < |s.handlers| && s.handlers[c] == UntrackLocked))
  {
  }

  lemma LockByServer(s: State, e: Event)
    requires LockDiscipline(s) && ConnDiscipline(s) && Enabled(s, e) && !OfHandler(e)
    ensures LockDiscipline(Apply(s, e))
  {
    ServerLocks(s, e);
    hide Enabled;
    hide Apply;
    hide OfHandler;
    hide ConnDiscipline;
  }

  /** What the events of a handler leave alone. */
  lemma HandlerFrame(s: State, e: Event)
    requires Enabled(s, e) && OfHandler(e)
    ensures var t := Apply(s, e);
            && e.c < |s.handlers| && |t.handlers| == |s.handlers| && t.serve == s.serve
            && s.handlers[e.c] != Unborn && t.handlers == s.handlers[e.c := t.handlers[e.c]]
            && t.conns == (if e.Untrack? then s.conns - {e.c} else s.conns)
            && t.shut == s.shut && t.closing == s.closing && t.listening == s.listening
            && s.closed <= t.closed
  {
  }

  /** What the events of a handler have in common. */
  lemma HandlerShape(s: State, e: Event)
    requires Enabled(s, e) && OfHandler(e)
    ensures var t := Apply(s, e);
            && e.c < |s.handlers| && |t.handlers| == |s.handlers| && t.serve == s.serve
            && s.handlers[e.c] != Unborn && t.handlers == s.handlers[e.c := t.handlers[e.c]]
            && t.conns == (if e.Untrack? then s.conns - {e.c} else s.conns)
            && (Registered(t.handlers[e.c]) ==> Registered(s.handlers[e.c]) && !e.Untrack?)
            && t.shut == s.shut && t.closing == s.closing && t.listening == s.listening
            && s.closed <= t.closed
            && (Serving(t.handlers[e.c]) ==> Serving(s.handlers[e.c]))
            && (s.handlers[e.c] == Reading && Serving(t.handlers[e.c]) ==> e.c !in s.closed)
  {
    hide Enabled;
    hide Apply;
    hide OfHandler;
    hide Serving;
    hide Registered;
    HandlerFrame(s, e);
    HandlerTurns(s, e);
  }

  /** How a handler moves. */
  lemma HandlerTurns(s: State, e: Event)
    requires Enabled(s, e) && OfHandler(e)
    ensures e.c < |s.handlers| == |Apply(s, e).handlers|
    ensures var p, q := s.handlers[e.c], Apply(s, e).handlers[e.c];
            && (Registered(q) ==> Registered(p) && !e.Untrack?)
            && (Serving(q) ==> Serving(p))
            && (p == Reading && Serving(q) ==> e.c !in s.closed)
  {
    HandlerMoves(s, e);
    hide Apply;
  }

  lemma ConnByHandler(s: State, e: Event)
    requires ConnDiscipline(s) && Enabled(s, e) && OfHandler(e)
    ensures ConnDiscipline(Apply(s, e))
  {
    HandlerFrame(s, e);
    HandlerTurns(s, e);
    hide Enabled;
    hide Apply;
    hide OfHandler;
    hide Registered;
    hide Serving;
  }

  lemma ConnByServer(s: State, e: Event)
    requires ConnDiscipline(s) && Enabled(s, e) && !OfHandler(e)
    ensures ConnDiscipline(Apply(s, e))
  {
  }

  /** With the counter at zero no handler is alive. */
  lemma NoneLive(s: State, c: nat)
    requires Counting(s) && s.wg == 0 && c < |s.handlers|
    ensures Live(s.handlers[c]) == 0
  {
    TotalUpdate(s.handlers, Live, c, Gone);
  }

  lemma ClosedByHandler(s: State, e: Event)
    requires ConnDiscipline(s) && Closed(s) && Enabled(s, e) && OfHandler(e)
    ensures Closed(Apply(s, e))
  {
    HandlerFrame(s, e);
    if s.shut == Returned {
      ServesNoMore(s, e);
    }
    hide Enabled;
    hide Apply;
    hide OfHandler;
    hide Serving;
    hide ConnDiscipline;
  }

  /** After the return a handler that moves serves no more: if it was reading, its
      connection is closed. */
  lemma ServesNoMore(s: State, e: Event)
    requires ConnDiscipline(s) && Closed(s) && Enabled(s, e) && OfHandler(e) && s.shut == Returned
    ensures e.c < |Apply(s, e).handlers| && !Serving(Apply(s, e).handlers[e.c])
  {
    HandlerFrame(s, e);
    HandlerTurns(s, e);
    hide Enabled;
    hide Apply;
    hide OfHandler;
    assert s.handlers[e.c] == Reading ==> e.c in s.conns;
  }

  lemma ClosedByServer(s: State, e: Event)
    requires LockDiscipline(s) && ConnDiscipline(s) && Closed(s) && Enabled(s, e) && !OfHandler(e) && e != WaitReturns
    ensures Closed(Apply(s, e))
  {
  }

  lemma ClosedByReturn(s: State)
    requires Counting(s) && Closed(s) && Enabled(s, WaitReturns)
    ensures Closed(Apply(s, WaitReturns))
  {
    forall c | 0 <= c < |s.handlers|
      ensures !Serving(s.handlers[c])
    {
      NoneLive(s, c);
    }
  }

  lemma InvStep(s: State, e: Event)
    requires Inv(s) && Enabled(s, e)
    ensures Inv(Apply(s, e))
  {
    hide Enabled;
    hide Apply;
    hide LockDiscipline;
    hide ConnDiscipline;
    hide Counting;
    hide Closed;
    if OfHandler(e) {
      CountingByHandler(s, e);
      LockByHandler(s, e);
      ConnByHandler(s, e);
      ClosedByHandler(s, e);
    } else {
      CountingByServer(s, e);
      LockByServer(s, e);
      ConnByServer(s, e);
      if e == WaitReturns {
        ClosedByReturn(s);
      } else {
        ClosedByServer(s, e);
      }
    }
  }

  lemma {:induction false} InvLeads(s: State, es: seq<Event>, t: State)
    requires Inv(s) && Leads(s, es, t)
    ensures Inv(t)
    decreases |es|
  {
    hide Enabled;
    hide Apply;
    hide Inv;
    if es == [] {
    } else {
      InvStep(s, es[0]);
      InvLeads(Apply(s, es[0]), es[1..], t);
    }
  }

  lemma InvReachable(s: State)
    requires Reachable(s)
    ensures Inv(s)
  {
    var es :| Leads(INITIAL, es, s);
    InvLeads(INITIAL, es, s);
  }

  // ---------------------------------------------------------------- no connection is forgotten

  /** The accept loop has connection c in hand. */
  predicate Held(s: State, c: nat)
  {
    s.serve != Accepting && s.serve != ServeDone && s.serve.c == c
  }

  /** Every connection that neither a handler nor the accept loop looks after any more is
      closed, and the registered connections are those of the handlers that have not yet
      given up theirs, and the one that is about to get one. */
  predicate Cared(s: State)
  {
    forall c :: 0 <= c < |s.handlers| ==>
      && (s.handlers[c] == Finishing || s.handlers[c] == Gone ==> c in s.closed)
      && (s.handlers[c] == Unborn && !Held(s, c) ==> c in s.closed)
      && (c in s.conns ==> Registered(s.handlers[c]) || ((s.serve.Tracked? || s.serve.Counted?) && s.serve.c == c))
  }

  /** What the end of a handler does to its connection. */
  lemma HandlerCloses(s: State, e: Event)
    requires Enabled(s, e) && OfHandler(e)
    ensures e.c < |s.handlers|
    ensures var p, q := s.handlers[e.c], Target(e);
            && (q == Finishing ==> e.c in Apply(s, e).closed)
            && (q == Gone ==> p == Finishing)
            && q != Unborn && p != Unborn
            && (Registered(p) && !Registered(q) ==> e.Untrack?)
  {
  }

  lemma CaredByHandler(s: State, e: Event)
    requires ConnDiscipline(s) && Cared(s) && Enabled(s, e) && OfHandler(e)
    ensures Cared(Apply(s, e))
  {
    HandlerFrame(s, e);
    HandlerMoves(s, e);
    HandlerCloses(s, e);
    NotInHand(s, e.c);
    hide Enabled;
    hide Apply;
    hide OfHandler;
    hide Registered;
    hide ConnDiscipline;
    hide Target;
  }

  lemma NotInHand(s: State, c: nat)
    requires ConnDiscipline(s) && c < |s.handlers| && s.handlers[c] != Unborn
    ensures !Held(s, c)
  {
  }

  lemma CaredByServer(s: State, e: Event)
    requires ConnDiscipline(s) && Cared(s) && Enabled(s, e) && !OfHandler(e)
    ensures Cared(Apply(s, e))
  {
    hide Registered;
    assert Registered(Reading) by { ReadingIsRegistered(); }
  }

  lemma ReadingIsRegistered()
    ensures Registered(Reading)
  {
  }

  lemma {:induction false} CaredLeads(s: State, es: seq<Event>, t: State)
    requires Inv(s) && Cared(s) && Leads(s, es, t)
    ensures Inv(t) && Cared(t)
    decreases |es|
  {
    if es == [] {
    } else {
      InvStep(s, es[0]);
      assert ConnDiscipline(s);
      hide Inv;
      hide Enabled;
      hide Apply;
      hide Cared;
      if OfHandler(es[0]) {
        CaredByHandler(s, es[0]);
      } else {
        CaredByServer(s, es[0]);
      }
      CaredLeads(Apply(s, es[0]), es[1..], t);
    }
  }

  lemma CaredReachable(s: State)
    requires Reachable(s)
    ensures Inv(s) && Cared(s)
  {
    var es :| Leads(INITIAL, es, s);
    hide Leads;
    CaredLeads(INITIAL, es, s);
  }

  /** A connection whose handler has ended, or that was turned down, is closed. */
  lemma EndedIsClosed(s: State, c: nat)
    requires Reachable(s) && c < |s.handlers|
    requires s.handlers[c] == Finishing || s.handlers[c] == Gone || (s.handlers[c] == Unborn && !Held(s, c))
    ensures c in s.closed && c !in s.conns
  {
    CaredReachable(s);
  }

  /** A connection is registered exactly from the time it is tracked until its handler
      gives it up. */
  lemma RegisteredExactly(s: State, c: nat)
    requires Reachable(s)
    ensures c in s.conns <==>
              c < |s.handlers|
              && (Registered(s.handlers[c]) || ((s.serve.Tracked? || s.serve.Counted?) && s.serve.c == c))
  {
    CaredReachable(s);
  }

  /** Once the accept loop and all handlers have ended, every connection that was ever
      accepted is closed, and none is registered. */
  lemma AllClosedInTheEnd(s: State)
    requires Reachable(s) && s.serve == ServeDone
    requires forall c :: 0 <= c < |s.handlers| ==> s.handlers[c] == Gone || s.handlers[c] == Unborn
    ensures forall c :: 0 <= c < |s.handlers| ==> c in s.closed
    ensures s.conns == {}
  {
    CaredReachable(s);
    forall c | c in s.conns
      ensures false
    {
      RegisteredExactly(s, c);
    }
  }

  /** A handler goes round: it reads a frame, works on it, answers and reads again; and it
      leaves the round exactly on a read error, an unknown opcode or a write error. */
  lemma HandlerRound(s: State, e: Event, c: nat)
    requires Enabled(s, e) && c < |s.handlers| && Serving(s.handlers[c])
    requires s.serve.Counted? ==> s.serve.c < |s.handlers| && s.handlers[s.serve.c] == Unborn
    ensures c < |Apply(s, e).handlers|
    ensures var p, q := s.handlers[c], Apply(s, e).handlers[c];
            && (!Serving(q) <==> e == ReadError(c) || e == BadOpcode(c) || e == WriteError(c))
            && (Serving(q) && q != p ==>
                  (p == Reading && q == GotFrame) || (p == GotFrame && q == InDb)
                  || (p == InDb && q == Writing) || (p == Writing && q == Reading))
  {
    if OfHandler(e) && e.c == c {
      HandlerMoves(s, e);
      RoundOwn(s, e);
    } else {
      OthersStay(s, e, c);
      NoneOfIts(e, c);
    }
    hide Enabled;
    hide Apply;
    hide OfHandler;
    hide Target;
  }

  lemma RoundOwn(s: State, e: Event)
    requires Enabled(s, e) && OfHandler(e)
    ensures var p, q := s.handlers[e.c], Target(e);
            Serving(p) ==>
              && (!Serving(q) <==> e.ReadError? || e.BadOpcode? || e.WriteError?)
              && (Serving(q) && q != p ==>
                    (p == Reading && q == GotFrame) || (p == GotFrame && q == InDb)
                    || (p == InDb && q == Writing) || (p == Writing && q == Reading))
  {
    hide Apply;
  }

  lemma NoneOfIts(e: Event, c: nat)
    requires !(OfHandler(e) && e.c == c)
    ensures e != ReadError(c) && e != BadOpcode(c) && e != WriteError(c)
  {
  }

  lemma OthersStay(s: State, e: Event, c: nat)
    requires Enabled(s, e) && c < |s.handlers| && s.handlers[c] != Unborn && !(OfHandler(e) && e.c == c)
    requires s.serve.Counted? ==> s.serve.c < |s.handlers| && s.handlers[s.serve.c] == Unborn
    ensures c < |Apply(s, e).handlers| && Apply(s, e).handlers[c] == s.handlers[c]
  {
  }

  /** An open connection that is being read can be served: one round is possible, and it
      leaves everything as it was. */
  lemma ServedOnce(s: State, c: nat)
    requires At(s, c, Reading) && c !in s.closed
    ensures Leads(s, [ReadFrame(c), BeginDb(c), EndDb(c), WriteOk(c)], s)
  {
    RoundSteps(s, c);
    hide Enabled;
    hide Apply;
    var s1, s2, s3 := Move(s, c, GotFrame), Move(s, c, InDb), Move(s, c, Writing);
    hide Move;
    OneEvent(s3, WriteOk(c));
    LeadsFirst(s2, EndDb(c), s3, [WriteOk(c)], s);
    LeadsFirst(s1, BeginDb(c), s2, [EndDb(c), WriteOk(c)], s);
    LeadsFirst(s, ReadFrame(c), s1, [BeginDb(c), EndDb(c), WriteOk(c)], s);
  }

  lemma RoundSteps(s: State, c: nat)
    requires At(s, c, Reading) && c !in s.closed
    ensures Enabled(s, ReadFrame(c)) && Apply(s, ReadFrame(c)) == Move(s, c, GotFrame)
    ensures Enabled(Move(s, c, GotFrame), BeginDb(c)) && Apply(Move(s, c, GotFrame), BeginDb(c)) == Move(s, c, InDb)
    ensures Enabled(Move(s, c, InDb), EndDb(c)) && Apply(Move(s, c, InDb), EndDb(c)) == Move(s, c, Writing)
    ensures Enabled(Move(s, c, Writing), WriteOk(c)) && Apply(Move(s, c, Writing), WriteOk(c)) == s
  {
    assert s.handlers[c := GotFrame][c := InDb] == s.handlers[c := InDb];
    assert s.handlers[c := InDb][c := Writing] == s.handlers[c := Writing];
    assert s.handlers[c := Writing][c := Reading] == s.handlers;
  }

  lemma LeadsFirst(s: State, e: Event, s1: State, es: seq<Event>, t: State)
    requires Enabled(s, e) && Apply(s, e) == s1 && Leads(s1, es, t)
    ensures Leads(s, [e] + es, t)
  {
    hide Enabled;
    hide Apply;
    assert ([e] + es)[1..] == es;
  }

  /** While the server is up a new connection can be taken in: it is then registered, counted
      and read from. */
  lemma AcceptedOnce(s: State)
    requires s.serve == Accepting && s.listening && s.mutex == NoOne && !s.closing
    ensures var c := |s.handlers|;
            Leads(s, [Accept, TrackLock, TrackCheck, WgAdd, Spawn],
                  s.(handlers := s.handlers + [Reading], conns := s.conns + {c}, wg := s.wg + 1))
  {
    var c := |s.handlers|;
    var s1 := s.(serve := Tracking(c), handlers := s.handlers + [Unborn]);
    var s2 := s1.(serve := TrackLocked(c), mutex := ServeLoop);
    var s3 := s1.(serve := Tracked(c), conns := s.conns + {c});
    var s4 := s3.(serve := Counted(c), wg := s.wg + 1);
    var s5 := s.(handlers := s.handlers + [Reading], conns := s.conns + {c}, wg := s.wg + 1);
    Tracks(s, s1, s2, s3);
    Counts(s, s3, s4, s5);
    hide Enabled;
    hide Apply;
    OneEvent(s4, Spawn);
    LeadsFirst(s3, WgAdd, s4, [Spawn], s5);
    LeadsFirst(s2, TrackCheck, s3, [WgAdd, Spawn], s5);
    LeadsFirst(s1, TrackLock, s2, [TrackCheck, WgAdd, Spawn], s5);
    LeadsFirst(s, Accept, s1, [TrackLock, TrackCheck, WgAdd, Spawn], s5);
  }

  lemma Tracks(s: State, s1: State, s2: State, s3: State)
    requires s.serve == Accepting && s.listening && s.mutex == NoOne && !s.closing
    requires s1 == s.(serve := Tracking(|s.handlers|), handlers := s.handlers + [Unborn])
    requires s2 == s1.(serve := TrackLocked(|s.handlers|), mutex := ServeLoop)
    requires s3 == s1.(serve := Tracked(|s.handlers|), conns := s.conns + {|s.handlers|})
    ensures Enabled(s, Accept) && Apply(s, Accept) == s1
    ensures Enabled(s1, TrackLock) && Apply(s1, TrackLock) == s2
    ensures Enabled(s2, TrackCheck) && Apply(s2, TrackCheck) == s3
  {
  }

  lemma Counts(s: State, s3: State, s4: State, s5: State)
    requires s.serve == Accepting
    requires s3 == s.(serve := Tracked(|s.handlers|), handlers := s.handlers + [Unborn], conns := s.conns + {|s.handlers|})
    requires s4 == s3.(serve := Counted(|s.handlers|), wg := s.wg + 1)
    requires s5 == s.(handlers := s.handlers + [Reading], conns := s.conns + {|s.handlers|}, wg := s.wg + 1)
    ensures Enabled(s3, WgAdd) && Apply(s3, WgAdd) == s4
    ensures Enabled(s4, Spawn) && Apply(s4, Spawn) == s5
  {
    assert (s.handlers + [Unborn])[|s.handlers| := Reading] == s.handlers + [Reading];
  }

  // ---------------------------------------------------------------- safety

  /** After shutdown has returned no handler is in a database operation, none can start
      one, and none can even read a frame, however the goroutines are interleaved. */
  lemma ShutdownIsSafe(s: State, c: nat)
    requires Reachable(s) && s.shut == Returned
    ensures !At(s, c, InDb) && !Enabled(s, BeginDb(c)) && !Enabled(s, ReadFrame(c))
  {
    InvReachable(s);
  }

  lemma {:induction false} StaysReturned(s: State, es: seq<Event>, t: State)
    requires s.shut == Returned && Leads(s, es, t)
    ensures t.shut == Returned
    decreases |es|
  {
    if es == [] {
    } else {
      StaysReturned(Apply(s, es[0]), es[1..], t);
    }
  }

  lemma {:induction false} LeadsJoin(s: State, es: seq<Event>, t: State, fs: seq<Event>, u: State)
    requires Leads(s, es, t) && Leads(t, fs, u)
    ensures Leads(s, es + fs, u)
    decreases |es|
  {
    hide Enabled;
    hide Apply;
    if es == [] {
      assert es + fs == fs;
    } else {
      LeadsJoin(Apply(s, es[0]), es[1..], t, fs, u);
      assert (es + fs)[1..] == es[1..] + fs;
    }
  }

  /** No event of any schedule that starts after shutdown returned begins a database
      operation. */
  lemma NoDbAfterShutdown(s: State, es: seq<Event>, t: State, i: nat)
    requires Reachable(s) && s.shut == Returned && Leads(s, es, t) && i < |es|
    ensures !es[i].BeginDb? && !es[i].EndDb?
    decreases |es|
  {
    if i == 0 {
      NoDbNow(s, es[0]);
    } else {
      hide Enabled;
      hide Apply;
      hide Reachable;
      StaysReachable(s, es[0]);
      NoDbAfterShutdown(Apply(s, es[0]), es[1..], t, i - 1);
    }
  }

  lemma NoDbNow(s: State, e: Event)
    requires Reachable(s) && s.shut == Returned && Enabled(s, e)
    ensures !e.BeginDb? && !e.EndDb?
  {
    hide Reachable;
    if e.BeginDb? || e.EndDb? {
      ShutdownIsSafe(s, e.c);
    }
  }

  lemma StaysReachable(s: State, e: Event)
    requires Reachable(s) && Enabled(s, e)
    ensures Reachable(Apply(s, e)) && (s.shut == Returned ==> Apply(s, e).shut == Returned)
  {
    OneEvent(s, e);
    if s.shut == Returned {
      StaysReturned(s, [e], Apply(s, e));
    }
    hide Enabled;
    hide Apply;
    var pre :| Leads(INITIAL, pre, s);
    LeadsJoin(INITIAL, pre, s, [e], Apply(s, e));
  }

  lemma OneEvent(s: State, e: Event)
    requires Enabled(s, e)
    ensures Leads(s, [e], Apply(s, e))
  {
    hide Enabled;
    hide Apply;
    assert [e][1..] == [];
    assert Leads(Apply(s, e), [], Apply(s, e));
  }

  /** The wait group never goes below zero, so Done never panics. */
  lemma CounterNeverNegative(s: State, e: Event)
    requires Reachable(s) && Enabled(s, e)
    ensures s.wg >= 0 && Apply(s, e).wg >= 0
  {
    InvReachable(s);
    InvStep(s, e);
  }

  const TRACKED := State(true, NoOne, false, {0}, {}, 0, Tracked(0), NotCalled, [Unborn])
  const CLOSING := State(false, ShutdownCall, true, {0}, {}, 0, Tracked(0), Closing({0}), [Unborn])
  const RETURNED := State(false, NoOne, true, {0}, {0}, 0, Tracked(0), Returned, [Unborn])
  const BORN := State(false, NoOne, true, {0}, {0}, 1, Accepting, Returned, [Reading])

  lemma GapTracked()
    ensures Leads(INITIAL, [Accept, TrackLock, TrackCheck], TRACKED)
  {
    Chain3(INITIAL, Accept, TrackLock, TrackCheck);
  }

  lemma GapClosing()
    ensures Leads(TRACKED, [CloseListener, ShutLock, SetClosing], CLOSING)
  {
    Chain3(TRACKED, CloseListener, ShutLock, SetClosing);
  }

  lemma GapReturned()
    ensures Leads(CLOSING, [CloseConn(0), ShutUnlock, WaitReturns], RETURNED)
  {
    var s := Apply(CLOSING, CloseConn(0));
    assert s.shut == Closing({});
    Chain3(CLOSING, CloseConn(0), ShutUnlock, WaitReturns);
  }

  lemma GapBorn()
    ensures Leads(RETURNED, [WgAdd, Spawn], BORN)
  {
    Chain2(RETURNED, WgAdd, Spawn);
  }

  /** The gap is real: shutdown can return while a connection is tracked and not counted,
      and its handler is then born after shutdown has returned. */
  lemma HandlerBornAfterShutdown()
    ensures Reachable(BORN) && BORN.shut == Returned && At(BORN, 0, Reading)
  {
    hide Leads;
    GapTracked();
    GapClosing();
    GapReturned();
    GapBorn();
    var es := [Accept, TrackLock, TrackCheck] + [CloseListener, ShutLock, SetClosing];
    LeadsJoin(INITIAL, [Accept, TrackLock, TrackCheck], TRACKED, [CloseListener, ShutLock, SetClosing], CLOSING);
    var fs := es + [CloseConn(0), ShutUnlock, WaitReturns];
    LeadsJoin(INITIAL, es, CLOSING, [CloseConn(0), ShutUnlock, WaitReturns], RETURNED);
    LeadsJoin(INITIAL, fs, RETURNED, [WgAdd, Spawn], BORN);
  }

  lemma Chain2(s: State, a: Event, b: Event)
    requires Enabled(s, a) && Enabled(Apply(s, a), b)
    ensures Leads(s, [a, b], Apply(Apply(s, a), b))
  {
    hide Enabled;
    hide Apply;
    var es := [a, b];
    assert es[1..] == [b] && [b][1..] == [];
    assert Leads(Apply(s, a), [b], Apply(Apply(s, a), b));
  }

  lemma Chain3(s: State, a: Event, b: Event, c: Event)
    requires Enabled(s, a) && Enabled(Apply(s, a), b) && Enabled(Apply(Apply(s, a), b), c)
    ensures Leads(s, [a, b, c], Apply(Apply(Apply(s, a), b), c))
  {
    hide Enabled;
    hide Apply;
    Chain2(Apply(s, a), b, c);
    assert [a, b, c][1..] == [b, c];
  }

  // ---------------------------------------------------------------- progress

  function HandlerRank(pc: HandlerPc): nat
  {
    match pc
    case GotFrame => 9
    case InDb => 8
    case Writing => 7
    case Reading => 6
    case Leaving => 5
    case UntrackLocked => 4
    case ClosingConn => 3
    case Finishing => 2
    case Unborn => 0
    case Gone => 0
  }

  function ServeRank(pc: ServePc): nat
  {
    match pc
    case Tracking(_) => 11
    case TrackLocked(_) => 10
    case Tracked(_) => 9
    case Counted(_) => 8
    case Refusing(_) => 2
    case Accepting => 1
    case ServeDone => 0
  }

  /** The number of events that can still happen once shutdown waits. */
  function Remaining(s: State): nat
  {
    Total(s.handlers, HandlerRank) + ServeRank(s.serve) + if s.shut == Waiting then 1 else 0
  }

  lemma RemainingMove(s: State, c: nat, pc: HandlerPc)
    requires c < |s.handlers| && HandlerRank(pc) < HandlerRank(s.handlers[c])
    ensures Total(Move(s, c, pc).handlers, HandlerRank) < Total(s.handlers, HandlerRank)
  {
    TotalUpdate(s.handlers, HandlerRank, c, pc);
  }

  /** A handler only ever moves down its ranks once the connections are closed. */
  lemma RemainingByHandler(s: State, e: Event)
    requires ConnDiscipline(s) && Closed(s) && Enabled(s, e) && OfHandler(e) && (s.shut == Waiting || s.shut == Returned)
    ensures Remaining(Apply(s, e)) < Remaining(s)
  {
    HandlerMoves(s, e);
    HandlerShape(s, e);
    RankFalls(s, e);
    hide Enabled;
    hide Apply;
    hide OfHandler;
    hide Total;
    hide Target;
    RemainingMove(s, e.c, Target(e));
  }

  lemma RankFalls(s: State, e: Event)
    requires ConnDiscipline(s) && Closed(s) && Enabled(s, e) && OfHandler(e) && (s.shut == Waiting || s.shut == Returned)
    ensures HandlerRank(Target(e)) < HandlerRank(s.handlers[e.c])
  {
    assert Registered(s.handlers[e.c]) ==> e.c in s.conns && e.c in s.closed;
  }

  lemma RemainingByServer(s: State, e: Event)
    requires ConnDiscipline(s) && Closed(s) && Enabled(s, e) && !OfHandler(e) && (s.shut == Waiting || s.shut == Returned)
    ensures Apply(s, e).shut == Waiting || Apply(s, e).shut == Returned
    ensures Remaining(Apply(s, e)) < Remaining(s)
  {
    hide Total;
    if e.Spawn? {
      TotalUpdate(s.handlers, HandlerRank, s.serve.c, Reading);
    }
  }

  lemma RemainingStep(s: State, e: Event)
    requires Inv(s) && (s.shut == Waiting || s.shut == Returned) && Enabled(s, e)
    ensures Apply(s, e).shut == Waiting || Apply(s, e).shut == Returned
    ensures Remaining(Apply(s, e)) < Remaining(s)
  {
    hide Enabled;
    hide Apply;
    hide Remaining;
    hide LockDiscipline;
    hide Counting;
    hide OfHandler;
    if OfHandler(e) {
      HandlerShape(s, e);
      RemainingByHandler(s, e);
    } else {
      RemainingByServer(s, e);
    }
  }

  /** While shutdown waits, something can always happen: the locks cannot deadlock. */
  lemma NeverStuck(s: State) returns (e: Event)
    requires Inv(s) && s.shut == Waiting
    ensures Enabled(s, e)
  {
    if s.mutex == ServeLoop {
      e := TrackCheck;
    } else if s.mutex.Handler? {
      e := Untrack(s.mutex.c);
    } else if s.wg == 0 {
      e := WaitReturns;
    } else if s.serve.Counted? {
      e := Spawn;
    } else {
      var c := TotalPositive(s.handlers, Live);
      e := match s.handlers[c]
           case Reading => ReadError(c)
           case GotFrame => BeginDb(c)
           case InDb => EndDb(c)
           case Writing => WriteError(c)
           case Leaving => UntrackLock(c)
           case ClosingConn => CloseOwn(c)
           case _ => WgDone(c);
    }
  }

  lemma {:induction false} BoundedLeads(s: State, es: seq<Event>, t: State)
    requires Inv(s) && (s.shut == Waiting || s.shut == Returned) && Leads(s, es, t)
    ensures |es| + Remaining(t) <= Remaining(s) && (t.shut == Waiting || t.shut == Returned)
    decreases |es|
  {
    hide Enabled;
    hide Apply;
    hide Inv;
    hide Remaining;
    if es == [] {
    } else {
      RemainingStep(s, es[0]);
      InvStep(s, es[0]);
      BoundedLeads(Apply(s, es[0]), es[1..], t);
    }
  }

  /** Shutdown returns: once it waits, every schedule is at most Remaining(s) events long,
      and a schedule that cannot be continued has reached its return. */
  lemma ShutdownReturns(s: State, es: seq<Event>, t: State)
    requires Reachable(s) && s.shut == Waiting && Leads(s, es, t)
    ensures |es| <= Remaining(s)
    ensures (forall e :: !Enabled(t, e)) ==> t.shut == Returned
  {
    InvReachable(s);
    BoundedLeads(s, es, t);
    InvLeads(s, es, t);
    if t.shut == Waiting {
      var e := NeverStuck(t);
    }
  }
}
