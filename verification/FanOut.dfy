/**
 The hub and all its sessions as a step system. Broadcasts, registrations, unregistrations and the
 steps of every session's write handlers interleave freely; only the hub mutex is respected, so a
 broadcast visits its sessions one by one while writes complete elsewhere. A run is a sequence of
 events; what a session should receive is read off the events, not off the state.
 */
module FanOut {
  import opened Basics
  import opened WebSocketSession

  /** A connection; the flags say which handshake or read handler is still to come. */
  datatype Client = Client(session: Session, accepting: bool, reading: bool)

  /** `current` is the frame being broadcast under the hub mutex, `pending` the sessions not yet reached. */
  datatype Hub = Hub(clients: map<nat, Client>, registered: set<nat>, current: Option<Frame>, pending: set<nat>)

  const EMPTY: Hub := Hub(map[], {}, None, {})

  datatype Event =
    | Connect(s: nat)          // a session object starts its handshake
    | Register(s: nat)         // onAccept, success
    | AcceptFailed(s: nat)     // onAccept, error
    | ReadError(s: nat)        // onRead, closed or error
    | Begin(frame: Frame)      // broadcastFrame takes the hub mutex
    | Send(s: nat)             // broadcastFrame reaches one session
    | End                      // broadcastFrame releases the hub mutex
    | Local(s: nat, m: Move)   // a step of a write handler that needs no hub mutex
    | GiveUp(s: nat, i: nat)   // onWrite, error: unregister under the hub mutex

  predicate Enabled(h: Hub, e: Event) {
    match e
    case Connect(s) => s !in h.clients
    case Register(s) => s in h.clients && h.clients[s].accepting && h.current.None?
    case AcceptFailed(s) => s in h.clients && h.clients[s].accepting
    case ReadError(s) => s in h.clients && h.clients[s].reading && h.current.None?
    case Begin(_) => h.current.None?
    case Send(s) => h.current.Some? && s in h.pending && s in h.clients
    case End => h.current.Some? && h.pending == {}
    case Local(s, m) => s in h.clients && !m.Report? && CanMove(h.clients[s].session, m)
    case GiveUp(s, i) => s in h.clients && CanMove(h.clients[s].session, Report(i)) && h.current.None?
  }

  function WithSession(h: Hub, s: nat, x: Session): Hub
    requires s in h.clients
  {
    h.(clients := h.clients[s := h.clients[s].(session := x)])
  }

  function Next(h: Hub, e: Event): Hub
    requires Enabled(h, e)
  {
    match e
    case Connect(s) => h.(clients := h.clients[s := Client(FRESH, true, false)])
    case Register(s) =>
      h.(clients := h.clients[s := h.clients[s].(accepting := false, reading := true)], registered := h.registered + {s})
    case AcceptFailed(s) => h.(clients := h.clients[s := h.clients[s].(accepting := false)])
    case ReadError(s) =>
      h.(clients := h.clients[s := h.clients[s].(reading := false)], registered := h.registered - {s})
    case Begin(f) => h.(current := Some(f), pending := h.registered)
    case Send(s) => WithSession(h, s, SendFrame(h.clients[s].session, h.current.value)).(pending := h.pending - {s})
    case End => h.(current := None)
    case Local(s, m) => WithSession(h, s, Moved(h.clients[s].session, m))
    case GiveUp(s, i) =>
      WithSession(h, s, Moved(h.clients[s].session, Report(i))).(registered := h.registered - {s})
  }

  // ---------- Runs ----------

  predicate Legal(es: seq<Event>)
    decreases |es|, 0
  {
    es == [] || (var init, e := es[..|es| - 1], es[|es| - 1];
                 Legal(init) && Enabled(Exec(init), e))
  }

  function Exec(es: seq<Event>): Hub
    requires Legal(es)
    decreases |es|, 1
  {
    if es == [] then EMPTY else Next(Exec(es[..|es| - 1]), es[|es| - 1])
  }

  /** Everything ever broadcast. */
  function Log(es: seq<Event>): seq<Frame> {
    if es == [] then []
    else var e := es[|es| - 1];
         Log(es[..|es| - 1]) + (if e.Begin? then [e.frame] else [])
  }

  /** Length of the log when the session registered. */
  function JoinedAt(es: seq<Event>, s: nat): Option<nat> {
    if es == [] then None
    else var init, e := es[..|es| - 1], es[|es| - 1];
         if e == Register(s) then Some(|Log(init)|) else JoinedAt(init, s)
  }

  predicate Leaves(e: Event, s: nat) {
    (e.ReadError? || e.GiveUp?) && e.s == s
  }

  /** Length of the log when the session was first unregistered. */
  function LeftAt(es: seq<Event>, s: nat): Option<nat> {
    if es == [] then None
    else var init, e := es[..|es| - 1], es[|es| - 1];
         if Leaves(e, s) && LeftAt(init, s).None? then Some(|Log(init)|) else LeftAt(init, s)
  }

  /** The contiguous part of the broadcast log that belongs to the session. */
  function Window(es: seq<Event>, s: nat): seq<Frame> {
    var log := Log(es);
    match JoinedAt(es, s)
    case None => []
    case Some(a) =>
      var b := if LeftAt(es, s).Some? then LeftAt(es, s).value else |log|;
      if a <= b <= |log| then log[a..b] else []
  }

  /** The frame under broadcast, as long as the session has not been reached. */
  function Awaiting(h: Hub, s: nat): seq<Frame> {
    if h.current.Some? && s in h.pending then [h.current.value] else []
  }

  // ---------- What every reachable state satisfies ----------

  predicate HubInv(h: Hub, es: seq<Event>) {
    && h.registered <= h.clients.Keys
    && h.pending <= h.registered
    && (h.current.None? ==> h.pending == {})
    && (h.current.Some? ==> Log(es) != [] && Log(es)[|Log(es)| - 1] == h.current.value)
  }

  /** How a client's flags and tasks follow from the run. */
  predicate ClientInv(h: Hub, es: seq<Event>, s: nat) {
    var a, b := JoinedAt(es, s), LeftAt(es, s);
    && (a.Some? ==> s in h.clients && !h.clients[s].accepting)
    && (a.Some? && b.None? ==> a.value <= |Log(es)| - |Awaiting(h, s)|)
    && (a.Some? && b.Some? ==> a.value <= b.value <= |Log(es)|)
    && (a.None? ==> b.None?)
    && (s in h.registered <==> a.Some? && b.None?)
    && (s in h.registered ==> s in h.clients && h.clients[s].reading)
    && (s in h.clients && a.None? ==> !h.clients[s].reading && h.clients[s].session == FRESH)
    && (s in h.clients && h.clients[s].accepting ==> a.None?)
  }

  predicate Delivers(h: Hub, es: seq<Event>, s: nat) {
    s in h.clients ==>
      && Inv(h.clients[s].session)
      && Owed(h.clients[s].session) + Awaiting(h, s) == Window(es, s)
  }

  lemma HubStep(h: Hub, init: seq<Event>, e: Event)
    requires HubInv(h, init) && Enabled(h, e)
    ensures HubInv(Next(h, e), init + [e])
  {
    Histories(init, e, 0);
    hide Log;
  }

  lemma ClientStep(h: Hub, init: seq<Event>, e: Event, s: nat)
    requires HubInv(h, init) && ClientInv(h, init, s) && Delivers(h, init, s) && Enabled(h, e)
    ensures ClientInv(Next(h, e), init + [e], s)
  {
    Histories(init, e, s);
    hide Log, JoinedAt, LeftAt, Window;
  }

  /** The histories after one more event. */
  lemma Histories(init: seq<Event>, e: Event, s: nat)
    ensures Log(init + [e]) == Log(init) + (if e.Begin? then [e.frame] else [])
    ensures JoinedAt(init + [e], s) == if e == Register(s) then Some(|Log(init)|) else JoinedAt(init, s)
    ensures LeftAt(init + [e], s)
         == if Leaves(e, s) && LeftAt(init, s).None? then Some(|Log(init)|) else LeftAt(init, s)
  {
    assert (init + [e])[..|init|] == init;
  }

  lemma SliceOfLonger(log: seq<Frame>, f: Frame, a: nat, b: nat)
    requires a <= b <= |log|
    ensures (log + [f])[a..b] == log[a..b] && (log + [f])[a..|log| + 1] == log[a..] + [f]
  {
  }

  /** A session's window changes only when a broadcast begins, or when the session joins. */
  lemma WindowStep(h: Hub, init: seq<Event>, e: Event, s: nat)
    requires HubInv(h, init) && ClientInv(h, init, s) && Enabled(h, e)
    ensures !e.Begin? && e != Register(s) ==> Window(init + [e], s) == Window(init, s)
    ensures e == Register(s) ==> Window(init + [e], s) == []
    ensures e.Begin? ==> Window(init + [e], s) == Window(init, s) + (if s in h.registered then [e.frame] else [])
  {
    Histories(init, e, s);
    hide Log, JoinedAt, LeftAt;
    if e.Begin? && JoinedAt(init, s).Some? {
      var b := if LeftAt(init, s).Some? then LeftAt(init, s).value else |Log(init)|;
      SliceOfLonger(Log(init), e.frame, JoinedAt(init, s).value, b);
    }
  }

  /** What a client gets in the end grows by one frame when a broadcast begins, and is otherwise unchanged. */
  lemma OwedStep(h: Hub, e: Event, s: nat)
    requires s in h.clients && Inv(h.clients[s].session) && Enabled(h, e)
    requires h.current.None? ==> h.pending == {}
    ensures var h' := Next(h, e);
            && s in h'.clients && Inv(h'.clients[s].session)
            && Owed(h'.clients[s].session) + Awaiting(h', s)
               == Owed(h.clients[s].session) + Awaiting(h, s) + (if e.Begin? && s in h.registered then [e.frame] else [])
  {
    var x := h.clients[s].session;
    match e
    case Send(t) => if t == s { SendKeepsInv(x, h.current.value); }
    case Local(t, m) => if t == s { MoveKeepsInv(x, m); }
    case GiveUp(t, i) => if t == s { MoveKeepsInv(x, Report(i)); }
    case _ =>
    hide SendFrame, Moved, Inv, Owed;
  }

  lemma DeliveryStep(h: Hub, init: seq<Event>, e: Event, s: nat)
    requires HubInv(h, init) && ClientInv(h, init, s) && Delivers(h, init, s) && Enabled(h, e)
    requires s in Next(h, e).clients
    ensures Delivers(Next(h, e), init + [e], s)
  {
    WindowStep(h, init, e, s);
    if s in h.clients {
      OwedStep(h, e, s);
    }
    hide Log, JoinedAt, LeftAt, Window, SendFrame, Moved;
  }

  lemma {:induction false} RunInv(es: seq<Event>, s: nat)
    requires Legal(es)
    ensures HubInv(Exec(es), es) && ClientInv(Exec(es), es, s) && Delivers(Exec(es), es, s)
  {
    if es != [] {
      var init, e := es[..|es| - 1], es[|es| - 1];
      assert es == init + [e];
      RunInv(init, s);
      HubStep(Exec(init), init, e);
      ClientStep(Exec(init), init, e, s);
      if s in Exec(es).clients {
        DeliveryStep(Exec(init), init, e, s);
      }
    }
  }

  // ---------- Main results ----------

  /**
   Over every interleaving: what a session has delivered, then what it still has queued (its front
   once), then the frame under broadcast if the session is still to be reached, is exactly the
   session's window of the broadcast log.
   */
  lemma {:induction false} FanOutRefinesLog(es: seq<Event>, s: nat)
    requires Legal(es) && s in Exec(es).clients
    ensures var x := Exec(es).clients[s].session;
            x.delivered + Undelivered(x) + Awaiting(Exec(es), s) == Window(es, s)
    ensures Exec(es).clients[s].session.delivered <= Window(es, s)
  {
    RunInv(es, s);
  }

  /** The window is a slice of the log with both ends fixed by the run: no loss, duplication or reordering. */
  lemma WindowIsSlice(es: seq<Event>, s: nat)
    requires Legal(es) && JoinedAt(es, s).Some?
    ensures var b := if LeftAt(es, s).Some? then LeftAt(es, s).value else |Log(es)|;
            JoinedAt(es, s).value <= b <= |Log(es)| && Window(es, s) == Log(es)[JoinedAt(es, s).value..b]
    ensures s in Exec(es).registered <==> LeftAt(es, s).None?
  {
    RunInv(es, s);
  }

  /** Single writer and no lost wake-up, in every reachable state. */
  lemma SingleWriter(es: seq<Event>, s: nat)
    requires Legal(es) && s in Exec(es).clients
    ensures var x := Exec(es).clients[s].session;
            && |Outstanding(x)| <= 1
            && |x.tasks| <= 1
            && (x.isWriting <==> x.tasks != [])
            && (!x.isWriting ==> x.queue == [])
            && (Outstanding(x) != [] ==> x.queue != [] && Outstanding(x) == [x.queue[0]])
  {
    RunInv(es, s);
    var x := Exec(es).clients[s].session;
    if |x.tasks| == 1 {
      assert x.tasks == [x.tasks[0]] && TaskInv(x, x.tasks[0]);
      assert OutstandingIn(x.tasks[1..]) == [];
    }
  }

  /** A registered session is listening: when its client goes, between broadcasts, it leaves the hub. */
  lemma MayLeave(es: seq<Event>, s: nat)
    requires Legal(es) && s in Exec(es).registered && Exec(es).current.None?
    ensures Enabled(Exec(es), ReadError(s)) && Next(Exec(es), ReadError(s)).registered == Exec(es).registered - {s}
  {
    RunInv(es, s);
  }

  /** A session whose write has failed leaves the hub between broadcasts. */
  lemma FailureLeaves(es: seq<Event>, s: nat, i: nat)
    requires Legal(es) && s in Exec(es).clients && Exec(es).current.None?
    requires i < |Exec(es).clients[s].session.tasks| && Exec(es).clients[s].session.tasks[i] == ReportFailure
    ensures Enabled(Exec(es), GiveUp(s, i)) && Next(Exec(es), GiveUp(s, i)).registered == Exec(es).registered - {s}
  {
  }

  predicate Broken(h: Hub, s: nat) {
    s in h.clients && Inv(h.clients[s].session) && !Healthy(h.clients[s].session)
  }

  lemma BrokenStep(h: Hub, e: Event, s: nat)
    requires Broken(h, s) && Enabled(h, e)
    ensures Broken(Next(h, e), s)
    ensures Next(h, e).clients[s].session.delivered == h.clients[s].session.delivered
    ensures h.clients[s].session.queue <= Next(h, e).clients[s].session.queue
  {
    var x := h.clients[s].session;
    assert x.tasks == [x.tasks[0]];
    match e
    case Send(t) => if t == s { SendKeepsInv(x, h.current.value); }
    case Local(t, m) =>
    case GiveUp(t, i) => if t == s { MoveKeepsInv(x, Report(i)); assert Moved(x, Report(i)).tasks[i] == Failed; }
    case _ =>
  }

  /** Once a write has failed, nothing further reaches the client and the flag stays set, whatever follows. */
  lemma {:induction false} FailureIsFinal(es: seq<Event>, more: seq<Event>, s: nat)
    requires Legal(es) && s in Exec(es).clients && !Healthy(Exec(es).clients[s].session)
    requires Legal(es + more)
    ensures s in Exec(es + more).clients
    ensures var x, y := Exec(es).clients[s].session, Exec(es + more).clients[s].session;
            !Healthy(y) && y.isWriting && y.delivered == x.delivered && x.queue <= y.queue
    decreases |more|
  {
    hide Inv, Healthy, Next, Enabled;
    RunInv(es, s);
    if more == [] {
      assert es + more == es;
    } else {
      var init, e := more[..|more| - 1], more[|more| - 1];
      LastStep(es, more);
      hide Exec, Legal;
      FailureIsFinal(es, init, s);
      RunInv(es + init, s);
      BrokenStep(Exec(es + init), e, s);
    }
    RunInv(es + more, s);
    BrokenIsWriting(Exec(es + more).clients[s].session);
  }

  lemma BrokenIsWriting(x: Session)
    requires Inv(x) && !Healthy(x)
    ensures x.isWriting
  {
  }

  function AsEvents(s: nat, ms: seq<Move>): seq<Event> {
    if ms == [] then [] else [Local(s, ms[0])] + AsEvents(s, ms[1..])
  }

  lemma ExecOne(es: seq<Event>, e: Event)
    requires Legal(es) && Enabled(Exec(es), e)
    ensures Legal(es + [e]) && Exec(es + [e]) == Next(Exec(es), e)
  {
    assert (es + [e])[..|es|] == es;
  }

  /** The schedule of a session alone is a schedule of the whole system. */
  lemma {:induction false} LocalScheduleIsLegal(es: seq<Event>, s: nat, ms: seq<Move>)
    requires Legal(es) && s in Exec(es).clients && Plays(Exec(es).clients[s].session, ms)
    ensures Legal(es + AsEvents(s, ms))
    ensures Exec(es + AsEvents(s, ms)) == WithSession(Exec(es), s, Play(Exec(es).clients[s].session, ms))
    decreases |ms|
  {
    if ms == [] {
      assert es + AsEvents(s, ms) == es;
    } else {
      var one := es + [Local(s, ms[0])];
      ExecOne(es, Local(s, ms[0]));
      hide Exec, Legal, Moved, CanMove;
      LocalScheduleIsLegal(one, s, ms[1..]);
      assert es + AsEvents(s, ms) == one + AsEvents(s, ms[1..]);
      PlayStep(Exec(es), s, ms);
    }
  }

  lemma PlayStep(h: Hub, s: nat, ms: seq<Move>)
    requires s in h.clients && ms != [] && Plays(h.clients[s].session, ms)
    ensures var x := h.clients[s].session;
            var h1 := WithSession(h, s, Moved(x, ms[0]));
            WithSession(h1, s, Play(h1.clients[s].session, ms[1..])) == WithSession(h, s, Play(x, ms))
  {
    hide Moved, CanMove;
  }

  // ---------- Handshakes that fail ----------

  predicate KeptOut(h: Hub, s: nat) {
    s in h.clients && !h.clients[s].accepting && s !in h.registered && s !in h.pending && h.clients[s].session == FRESH
  }

  lemma KeptOutStep(h: Hub, e: Event, s: nat)
    requires KeptOut(h, s) && Enabled(h, e)
    ensures KeptOut(Next(h, e), s)
  {
    assert h.clients[s].session.tasks == [];
  }

  lemma {:induction false} KeptOutRun(es: seq<Event>, more: seq<Event>, s: nat)
    requires Legal(es) && Legal(es + more) && KeptOut(Exec(es), s)
    ensures KeptOut(Exec(es + more), s)
    decreases |more|
  {
    hide KeptOut, Enabled, Next;
    if more == [] {
      assert es + more == es;
    } else {
      LastStep(es, more);
      hide Exec, Legal;
      KeptOutRun(es, more[..|more| - 1], s);
      KeptOutStep(Exec(es + more[..|more| - 1]), more[|more| - 1], s);
    }
  }

  /** A client whose handshake fails is never registered and is sent nothing, whatever follows. */
  lemma FailedHandshake(es: seq<Event>, more: seq<Event>, s: nat)
    requires Legal(es + [AcceptFailed(s)]) && Legal(es + [AcceptFailed(s)] + more)
    ensures var h := Exec(es + [AcceptFailed(s)] + more);
            s in h.clients && s !in h.registered && h.clients[s].session.delivered == []
  {
    var rejected := es + [AcceptFailed(s)];
    assert rejected[..|rejected| - 1] == es;
    RunInv(es, s);
    assert KeptOut(Exec(rejected), s);
    hide Exec, Legal;
    KeptOutRun(rejected, more, s);
  }

  // ---------- Draining amid everything else ----------

  predicate FailsWrite(e: Event, s: nat) {
    e.Local? && e.s == s && e.m.Fail?
  }

  /** No frame is sent to the session, and none of its writes fails. */
  predicate Undisturbed(more: seq<Event>, s: nat) {
    forall e <- more :: e != Send(s) && !FailsWrite(e, s)
  }

  /** The session's own steps. */
  function MovesOf(more: seq<Event>, s: nat): seq<Move> {
    if more == [] then []
    else var e := more[|more| - 1];
         MovesOf(more[..|more| - 1], s) + (if e.Local? && e.s == s then [e.m] else [])
  }

  lemma UndisturbedStep(h: Hub, e: Event, s: nat)
    requires s in h.clients && Enabled(h, e) && Healthy(h.clients[s].session) && e != Send(s)
    ensures Next(h, e).clients[s].session
         == if e.Local? && e.s == s then Moved(h.clients[s].session, e.m) else h.clients[s].session
  {
  }

  lemma {:induction false} PlayOneMore(x: Session, ms: seq<Move>, m: Move)
    requires Plays(x, ms) && Quiet(m) && CanMove(Play(x, ms), m)
    ensures Plays(x, ms + [m]) && Play(x, ms + [m]) == Moved(Play(x, ms), m)
    decreases |ms|
  {
    hide Moved, CanMove, Quiet;
    if ms == [] {
      assert ms + [m] == [m] && [m][1..] == [];
    } else {
      assert (ms + [m])[1..] == ms[1..] + [m];
      PlayOneMore(Moved(x, ms[0]), ms[1..], m);
    }
  }

  /** What the session does in any continuation is a schedule of the session by itself. */
  lemma {:induction false} Projection(es: seq<Event>, more: seq<Event>, s: nat)
    requires Legal(es) && Legal(es + more) && s in Exec(es).clients && Undisturbed(more, s)
    requires Inv(Exec(es).clients[s].session) && Healthy(Exec(es).clients[s].session)
    ensures s in Exec(es + more).clients
    ensures var x, ms := Exec(es).clients[s].session, MovesOf(more, s);
            Plays(x, ms) && Play(x, ms) == Exec(es + more).clients[s].session
    decreases |more|
  {
    hide Inv, Healthy, Next, Enabled, Plays, Play;
    var x := Exec(es).clients[s].session;
    if more == [] {
      assert es + more == es;
      NoMoves(x);
    } else {
      var init, e := more[..|more| - 1], more[|more| - 1];
      assert e in more && forall f <- init :: f in more;
      LastStep(es, more);
      hide Exec, Legal;
      Projection(es, init, s);
      ProjectStep(Exec(es + init), e, s, x, MovesOf(init, s));
    }
  }

  lemma NoMoves(x: Session)
    ensures Plays(x, []) && Play(x, []) == x
  {
  }

  lemma ProjectStep(h: Hub, e: Event, s: nat, x: Session, ms: seq<Move>)
    requires s in h.clients && Enabled(h, e) && e != Send(s) && !FailsWrite(e, s)
    requires Inv(x) && Healthy(x) && Plays(x, ms) && Play(x, ms) == h.clients[s].session
    ensures s in Next(h, e).clients
    ensures var ms' := ms + (if e.Local? && e.s == s then [e.m] else []);
            Plays(x, ms') && Play(x, ms') == Next(h, e).clients[s].session
  {
    Draining(x, ms);
    UndisturbedStep(h, e, s);
    hide Inv, Healthy, Plays, Play, Moved, CanMove;
    if e.Local? && e.s == s {
      PlayOneMore(x, ms, e.m);
    } else {
      assert ms + [] == ms;
    }
  }

  lemma LastStep(es: seq<Event>, more: seq<Event>)
    requires more != [] && Legal(es + more)
    ensures var init, e := es + more[..|more| - 1], more[|more| - 1];
            Legal(init) && Enabled(Exec(init), e) && Exec(es + more) == Next(Exec(init), e)
  {
    assert (es + more)[..|es + more| - 1] == es + more[..|more| - 1];
  }

  /**
   Whatever happens meanwhile, as long as nothing is sent to a session whose writes succeed: its steps come to
   an end; the end is reached exactly when its queue is empty and its flag clear; and then it has delivered its
   whole window up to a frame still to be sent to it, with one completion for each frame that was owed.
   */
  lemma SessionDrains(es: seq<Event>, more: seq<Event>, s: nat)
    requires Legal(es) && Legal(es + more) && s in Exec(es).clients
    requires Healthy(Exec(es).clients[s].session) && Undisturbed(more, s)
    ensures s in Exec(es + more).clients
    ensures var x, y, ms := Exec(es).clients[s].session, Exec(es + more).clients[s].session, MovesOf(more, s);
            && |ms| <= Effort(x) && Owed(y) == Owed(x)
            && (Stuck(y) <==> Idle(y)) && (Idle(y) <==> |ms| == Effort(x))
            && (Idle(y) ==> && Completions(ms) == |Undelivered(x)|
                            && y.delivered + Awaiting(Exec(es + more), s) == Window(es + more, s))
  {
    RunInv(es, s);
    Projection(es, more, s);
    RunInv(es + more, s);
    var x, ms := Exec(es).clients[s].session, MovesOf(more, s);
    hide Exec, Legal, Inv, Healthy, Window, Undisturbed, Stuck;
    Draining(x, ms);
    DrainsExactly(x, ms);
  }

  predicate NoFailure(es: seq<Event>, s: nat) {
    forall e <- es :: !FailsWrite(e, s)
  }

  lemma MoveHealth(x: Session, m: Move)
    requires Inv(x) && CanMove(x, m)
    ensures Healthy(Moved(x, m)) <==> Healthy(x) && !m.Fail?
  {
    var y := Moved(x, m);
    assert x.tasks == [x.tasks[0]];
    if m.NextStep? {
      assert forall t <- y.tasks :: t.Launch?;
    } else {
      assert y.tasks == [y.tasks[0]] && y.tasks[0] in y.tasks && x.tasks[0] in x.tasks;
    }
  }

  lemma SendHealth(x: Session, f: Frame)
    ensures Healthy(SendFrame(x, f)) <==> Healthy(x)
  {
  }

  lemma HealthStep(h: Hub, e: Event, s: nat)
    requires Enabled(h, e) && s in h.clients && Inv(h.clients[s].session)
    ensures Healthy(Next(h, e).clients[s].session) <==> Healthy(h.clients[s].session) && !FailsWrite(e, s)
  {
    var x := h.clients[s].session;
    match e
    case Send(t) => if t == s { SendHealth(x, h.current.value); }
    case Local(t, m) => if t == s { MoveHealth(x, m); }
    case GiveUp(t, i) => if t == s { MoveHealth(x, Report(i)); }
    case _ =>
    hide Healthy, Moved, SendFrame, Inv;
  }

  lemma BornHealthy(h: Hub, e: Event, s: nat)
    requires Enabled(h, e) && s !in h.clients
    ensures !FailsWrite(e, s) && (s in Next(h, e).clients ==> Healthy(Next(h, e).clients[s].session))
  {
  }

  lemma ClientsStay(h: Hub, e: Event, s: nat)
    requires Enabled(h, e) && s in h.clients
    ensures s in Next(h, e).clients
  {
  }

  /** A session is healthy exactly when none of its writes has failed. */
  lemma {:induction false} HealthyIff(es: seq<Event>, s: nat)
    requires Legal(es)
    ensures s in Exec(es).clients ==> (Healthy(Exec(es).clients[s].session) <==> NoFailure(es, s))
    ensures s !in Exec(es).clients ==> NoFailure(es, s)
    decreases |es|
  {
    hide Inv, HubInv, ClientInv, Healthy, Enabled, Next, FailsWrite;
    if es != [] {
      var init, e := es[..|es| - 1], es[|es| - 1];
      assert es == init + [e];
      HealthyIff(init, s);
      RunInv(init, s);
      if s in Exec(init).clients {
        ClientsStay(Exec(init), e, s);
        HealthStep(Exec(init), e, s);
      } else {
        BornHealthy(Exec(init), e, s);
      }
      assert NoFailure(es, s) <==> NoFailure(init, s) && !FailsWrite(e, s);
    }
  }

  lemma {:induction false} IdleReachable(x: Session) returns (ms: seq<Move>)
    requires Inv(x) && Healthy(x)
    ensures Plays(x, ms) && Idle(Play(x, ms))
    decreases Effort(x)
  {
    ms := [];
    StuckIffIdle(x);
    if !Idle(x) {
      var m := QuietMoveExists(x);
      MoveKeepsInv(x, m);
      QuietMove(x, m);
      StuckIffIdle(Moved(x, m));
      var rest := IdleReachable(Moved(x, m));
      ms := [m] + rest;
      assert ms[1..] == rest;
    }
  }

  /** In some continuation everything broadcast for the session, but a frame still to be sent to it, is delivered. */
  ghost predicate MayDrain(es: seq<Event>, s: nat) {
    exists more :: Legal(es + more) && Drained(es + more, s)
  }

  predicate Drained(es: seq<Event>, s: nat)
    requires Legal(es)
  {
    s in Exec(es).clients && Exec(es).clients[s].session.delivered + Awaiting(Exec(es), s) == Window(es, s)
  }

  lemma DrainedIff(es: seq<Event>, s: nat)
    requires Legal(es) && s in Exec(es).clients
    ensures Drained(es, s) <==> Undelivered(Exec(es).clients[s].session) == []
  {
    RunInv(es, s);
    var x := Exec(es).clients[s].session;
    assert |x.delivered + Undelivered(x) + Awaiting(Exec(es), s)| == |Window(es, s)|;
  }

  lemma BrokenOwes(x: Session)
    requires Inv(x) && !Healthy(x)
    ensures Undelivered(x) != []
  {
    assert x.tasks == [x.tasks[0]] && TaskInv(x, x.tasks[0]);
  }

  /** A session's window can be delivered in full exactly as long as none of its writes has failed. */
  lemma DrainsIff(es: seq<Event>, s: nat)
    requires Legal(es) && s in Exec(es).clients
    ensures MayDrain(es, s) <==> NoFailure(es, s)
  {
    HealthyIff(es, s);
    RunInv(es, s);
    var x := Exec(es).clients[s].session;
    if NoFailure(es, s) {
      var ms := IdleReachable(x);
      LocalScheduleIsLegal(es, s, ms);
      DrainedIff(es + AsEvents(s, ms), s);
    } else {
      forall more | Legal(es + more) ensures !Drained(es + more, s) {
        FailureIsFinal(es, more, s);
        RunInv(es + more, s);
        BrokenOwes(Exec(es + more).clients[s].session);
        DrainedIff(es + more, s);
      }
    }
  }

  /** Nothing but the hub's broadcasts. */
  predicate Casting(es: seq<Event>) {
    forall e <- es :: e.Begin? || e.Send? || e.End?
  }

  predicate NoBegin(es: seq<Event>) {
    forall e <- es :: !e.Begin?
  }

  lemma {:induction false} LogOfQuiet(es: seq<Event>, more: seq<Event>)
    requires NoBegin(more)
    ensures Log(es + more) == Log(es)
    decreases |more|
  {
    if more == [] {
      assert es + more == es;
    } else {
      var init := more[..|more| - 1];
      assert (es + more)[..|es + more| - 1] == es + init;
      LogOfQuiet(es, init);
    }
  }

  /** A broadcast that has begun can always be ended. */
  lemma {:induction false} BroadcastEnds(es: seq<Event>) returns (more: seq<Event>)
    requires Legal(es) && Exec(es).current.Some?
    ensures Legal(es + more) && NoBegin(more) && Exec(es + more).current.None?
    ensures Casting(more)
    decreases |Exec(es).pending|
  {
    hide Enabled, Next, ClientInv, Delivers;
    RunInv(es, 0);
    var h := Exec(es);
    hide Exec, Legal;
    if h.pending == {} {
      more := [End];
      MayEnd(h);
      ExecOne(es, End);
    } else {
      var s :| s in h.pending;
      MaySend(h, s);
      ExecOne(es, Send(s));
      var rest := BroadcastEnds(es + [Send(s)]);
      more := [Send(s)] + rest;
      assert es + more == es + [Send(s)] + rest;
    }
  }

  lemma MayEnd(h: Hub)
    requires h.current.Some? && h.pending == {}
    ensures Enabled(h, End) && Next(h, End).current.None?
  {
  }

  lemma MaySend(h: Hub, s: nat)
    requires h.current.Some? && s in h.pending && h.pending <= h.clients.Keys
    ensures Enabled(h, Send(s)) && Next(h, Send(s)).current.Some? && |Next(h, Send(s)).pending| < |h.pending|
  {
    hide SendFrame;
    assert h.pending == (h.pending - {s}) + {s};
  }

  // ---------- A client that only watches ----------

  /** The relayer broadcasts these frames, one after the other. */
  lemma {:induction false} CastAll(es: seq<Event>, frames: seq<Frame>) returns (more: seq<Event>)
    requires Legal(es) && Exec(es).current.None?
    ensures Legal(es + more) && Casting(more) && Exec(es + more).current.None?
    ensures Log(es + more) == Log(es) + frames
    decreases |frames|
  {
    hide Exec, Legal, Log;
    if frames == [] {
      more := [];
      assert es + more == es && Log(es) + frames == Log(es);
    } else {
      var begin := Begin(frames[0]);
      ExecOne(es, begin);
      Histories(es, begin, 0);
      var first := BroadcastEnds(es + [begin]);
      LogOfQuiet(es + [begin], first);
      var rest := CastAll(es + [begin] + first, frames[1..]);
      more := [begin] + first + rest;
      assert es + more == es + [begin] + first + rest;
      assert Log(es) + [frames[0]] + frames[1..] == Log(es) + frames;
    }
  }

  /** The session neither joins nor leaves. */
  predicate Stays(more: seq<Event>, s: nat) {
    forall e <- more :: e != Register(s) && !Leaves(e, s)
  }

  lemma {:induction false} HistoriesStay(es: seq<Event>, more: seq<Event>, s: nat)
    requires Stays(more, s)
    ensures JoinedAt(es + more, s) == JoinedAt(es, s) && LeftAt(es + more, s) == LeftAt(es, s)
    decreases |more|
  {
    if more == [] {
      assert es + more == es;
    } else {
      var init, e := more[..|more| - 1], more[|more| - 1];
      assert es + more == es + init + [e] && e in more && forall f <- init :: f in more;
      HistoriesStay(es, init, s);
      Histories(es + init, e, s);
    }
  }

  lemma {:induction false} AsEventsAre(s: nat, ms: seq<Move>)
    ensures forall e <- AsEvents(s, ms) :: e.Local?
    decreases |ms|
  {
    if ms != [] {
      AsEventsAre(s, ms[1..]);
    }
  }

  lemma Joins(es: seq<Event>, s: nat) returns (joined: seq<Event>)
    requires Legal(es) && Exec(es).current.None? && s !in Exec(es).clients
    ensures joined == es + [Connect(s)] + [Register(s)]
    ensures Legal(es + [Connect(s)]) && Legal(joined) && Exec(joined).current.None? && s in Exec(joined).clients
    ensures Log(joined) == Log(es) && JoinedAt(joined, s) == Some(|Log(es)|) && LeftAt(joined, s).None? && NoFailure(joined, s)
  {
    RunInv(es, s);
    HealthyIff(es, s);
    ExecOne(es, Connect(s));
    Histories(es, Connect(s), s);
    ExecOne(es + [Connect(s)], Register(s));
    Histories(es + [Connect(s)], Register(s), s);
    joined := es + [Connect(s)] + [Register(s)];
    hide Exec, Legal, Log, JoinedAt, LeftAt, Delivers, HubInv;
  }

  /** A session that was registered when the log had `start` frames, has stayed, and owes nothing. */
  lemma DeliveredIs(es: seq<Event>, s: nat, start: nat)
    requires Legal(es) && s in Exec(es).clients && Exec(es).current.None? && Idle(Exec(es).clients[s].session)
    requires JoinedAt(es, s) == Some(start) && LeftAt(es, s).None?
    ensures start <= |Log(es)| && Exec(es).clients[s].session.delivered == Log(es)[start..]
  {
    FanOutRefinesLog(es, s);
    WindowIsSlice(es, s);
    hide Exec, Legal, Log, JoinedAt, LeftAt, Window;
  }

  /** A healthy member, left alone between broadcasts, gets all that it is owed. */
  lemma CatchesUp(es: seq<Event>, s: nat, start: nat) returns (own: seq<Event>)
    requires Legal(es) && s in Exec(es).clients && Exec(es).current.None? && NoFailure(es, s)
    requires JoinedAt(es, s) == Some(start) && LeftAt(es, s).None?
    ensures Legal(es + own) && forall e <- own :: e.Local?
    ensures s in Exec(es + own).clients && start <= |Log(es)|
    ensures Exec(es + own).clients[s].session.delivered == Log(es)[start..]
  {
    hide Exec, Legal, Log, JoinedAt, LeftAt, Idle;
    HealthyIff(es, s);
    RunInv(es, s);
    var ms := IdleReachable(Exec(es).clients[s].session);
    own := AsEvents(s, ms);
    LocalScheduleIsLegal(es, s, ms);
    AsEventsAre(s, ms);
    HistoriesStay(es, own, s);
    LogOfQuiet(es, own);
    DeliveredIs(es + own, s, start);
  }

  /** Whoever connects and registers can be delivered every frame broadcast from then on. */
  lemma Watches(es: seq<Event>, s: nat, frames: seq<Frame>) returns (more: seq<Event>)
    requires Legal(es) && Exec(es).current.None? && s !in Exec(es).clients
    ensures Legal(es + [Connect(s)] + more) && forall e <- more :: !e.Connect?
    ensures s in Exec(es + [Connect(s)] + more).clients
    ensures Exec(es + [Connect(s)] + more).clients[s].session.delivered == frames
  {
    hide Exec, Legal, Log, JoinedAt, LeftAt;
    var joined := Joins(es, s);
    var cast := CastAll(joined, frames);
    HistoriesStay(joined, cast, s);
    ClientsRemain(joined, cast, s);
    assert NoFailure(joined + cast, s);
    var own := CatchesUp(joined + cast, s, |Log(es)|);
    more := [Register(s)] + cast + own;
    assert es + [Connect(s)] + more == joined + cast + own;
  }

  lemma {:induction false} ClientsRemain(es: seq<Event>, more: seq<Event>, s: nat)
    requires Legal(es) && Legal(es + more) && s in Exec(es).clients
    ensures s in Exec(es + more).clients
    decreases |more|
  {
    if more == [] {
      assert es + more == es;
    } else {
      LastStep(es, more);
      hide Exec, Legal, Next, Enabled;
      ClientsRemain(es, more[..|more| - 1], s);
      ClientsStay(Exec(es + more[..|more| - 1]), more[|more| - 1], s);
    }
  }

  lemma {:induction false} LegalPrefix(es: seq<Event>, more: seq<Event>)
    requires Legal(es + more)
    ensures Legal(es)
    decreases |more|
  {
    if more == [] {
      assert es + more == es;
    } else {
      LastStep(es, more);
      LegalPrefix(es, more[..|more| - 1]);
    }
  }

  /** A broadcast that nothing interrupts gives each registered session the frame exactly once. */
  lemma {:induction false} BroadcastReachesAll(h: Hub, order: seq<nat>)
    requires h.current.Some? && h.pending <= h.clients.Keys
    requires forall s :: s in order <==> s in h.pending
    requires forall i, j :: 0 <= i < j < |order| ==> order[i] != order[j]
    ensures var h' := SendAll(h, order);
            && h'.pending == {} && h'.clients.Keys == h.clients.Keys && h'.current == h.current
            && h'.registered == h.registered
            && forall s <- h.clients.Keys ::
                 h'.clients[s].session == if s in h.pending then SendFrame(h.clients[s].session, h.current.value)
                                          else h.clients[s].session
    decreases |order|
  {
    if order == [] {
      assert h.pending == {};
    } else {
      var s := order[0];
      assert Enabled(h, Send(s));
      var h1 := Next(h, Send(s));
      assert forall t :: t in order[1..] <==> t in h1.pending by {
        forall t ensures t in order[1..] <==> t in h1.pending {
          if t in order[1..] { var i :| 1 <= i < |order| && order[i] == t; }
        }
      }
      BroadcastReachesAll(h1, order[1..]);
    }
  }

  function SendAll(h: Hub, order: seq<nat>): Hub
    decreases |order|
  {
    if order == [] then h
    else if Enabled(h, Send(order[0])) then SendAll(Next(h, Send(order[0])), order[1..])
    else h
  }
}
