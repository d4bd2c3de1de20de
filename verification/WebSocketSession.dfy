/**
 One WebSocket client: the frame queue, the `is_writing_` flag and the chain of asynchronous
 write handlers, as values and as the class that updates them in place.

 A task is a piece of work that still has to happen on the session's behalf: a write about to be
 handed to the socket, a write in flight, or one of the two critical sections of the completion
 handler. Nothing in the representation limits how many tasks there are; that there is never more
 than one is a theorem.
 */
module WebSocketSession {
  import opened Basics

  type Frame = seq<byte>

  datatype Task =
    | Launch(frame: Frame)    // front copied, async_write about to be called
    | InFlight(frame: Frame)  // async_write outstanding
    | PopFront                // write succeeded, onWrite about to pop the queue
    | StartNext               // popped, onWrite about to call doWrite
    | ReportFailure           // write failed, onWrite about to unregister the session
    | Failed                  // handler returned after a failure; the flag is never cleared

  /** `delivered` is the sequence of frames whose write has succeeded. */
  datatype Session = Session(queue: seq<Frame>, isWriting: bool, tasks: seq<Task>, delivered: seq<Frame>)

  const FRESH: Session := Session([], false, [], [])

  // ---------- Critical sections ----------

  function DoWrite(x: Session): Session {
    if x.queue == [] then x.(isWriting := false)
    else x.(tasks := x.tasks + [Launch(x.queue[0])])
  }

  function SendFrame(x: Session, f: Frame): Session {
    var pushed := x.(queue := x.queue + [f]);
    if x.isWriting then pushed else DoWrite(pushed.(isWriting := true))
  }

  function Pop(x: Session): Session {
    if x.queue == [] then x else x.(queue := x.queue[1..])
  }

  /** A step that one of the session's tasks can take; `i` says which. */
  datatype Move = Start(i: nat) | Succeed(i: nat) | Fail(i: nat) | PopStep(i: nat) | NextStep(i: nat) | Report(i: nat)

  predicate CanMove(x: Session, m: Move) {
    && m.i < |x.tasks|
    && match m
       case Start(i) => x.tasks[i].Launch?
       case Succeed(i) => x.tasks[i].InFlight?
       case Fail(i) => x.tasks[i].InFlight?
       case PopStep(i) => x.tasks[i].PopFront?
       case NextStep(i) => x.tasks[i].StartNext?
       case Report(i) => x.tasks[i].ReportFailure?
  }

  function Become(x: Session, i: nat, t: Task): Session
    requires i < |x.tasks|
  {
    x.(tasks := x.tasks[i := t])
  }

  function Retire(x: Session, i: nat): Session
    requires i < |x.tasks|
  {
    x.(tasks := x.tasks[..i] + x.tasks[i + 1..])
  }

  function Moved(x: Session, m: Move): Session
    requires CanMove(x, m)
  {
    match m
    case Start(i) => Become(x, i, InFlight(x.tasks[i].frame))
    case Succeed(i) => Become(x.(delivered := x.delivered + [x.tasks[i].frame]), i, PopFront)
    case Fail(i) => Become(x, i, ReportFailure)
    case PopStep(i) => Pop(Become(x, i, StartNext))
    case NextStep(i) => DoWrite(Retire(x, i))
    case Report(i) => Become(x, i, Failed)
  }

  // ---------- The protocol invariant ----------

  /** What a pending task says about the rest of the session. */
  predicate TaskInv(x: Session, t: Task) {
    match t
    case Launch(f) => x.queue != [] && f == x.queue[0]
    case InFlight(f) => x.queue != [] && f == x.queue[0]
    case PopFront => x.queue != [] && x.delivered != [] && x.delivered[|x.delivered| - 1] == x.queue[0]
    case StartNext => true
    case ReportFailure => x.queue != []
    case Failed => x.queue != []
  }

  /** At most one writer token, held exactly while the flag is set; without it nothing is queued. */
  predicate Inv(x: Session) {
    && |x.tasks| <= 1
    && (x.isWriting <==> |x.tasks| == 1)
    && (!x.isWriting ==> x.queue == [])
    && (forall t :: t in x.tasks ==> TaskInv(x, t))
  }

  /** The frames still owed to the client: the queue, without a front that is written but not yet popped. */
  function Undelivered(x: Session): seq<Frame> {
    if PopFront in x.tasks && x.queue != [] then x.queue[1..] else x.queue
  }

  function Owed(x: Session): seq<Frame> {
    x.delivered + Undelivered(x)
  }

  /** Sending keeps the invariant and appends exactly the frame to what the client gets. */
  lemma SendKeepsInv(x: Session, f: Frame)
    requires Inv(x)
    ensures Inv(SendFrame(x, f)) && Owed(SendFrame(x, f)) == Owed(x) + [f]
    ensures SendFrame(x, f).delivered == x.delivered
  {
    if |x.tasks| == 1 {
      assert x.tasks == [x.tasks[0]] && TaskInv(x, x.tasks[0]);
    }
  }

  /** Every step of every task keeps the invariant and changes nothing of what the client gets in the end. */
  lemma MoveKeepsInv(x: Session, m: Move)
    requires Inv(x) && CanMove(x, m)
    ensures Inv(Moved(x, m)) && Owed(Moved(x, m)) == Owed(x)
    ensures x.delivered <= Moved(x, m).delivered
  {
    assert x.tasks == [x.tasks[0]] && TaskInv(x, x.tasks[0]);
    var y := Moved(x, m);
    assert !m.NextStep? ==> y.tasks == [y.tasks[0]];
  }

  /** The writes outstanding on the socket. */
  function Outstanding(x: Session): seq<Frame> {
    OutstandingIn(x.tasks)
  }

  function OutstandingIn(ts: seq<Task>): seq<Frame> {
    if ts == [] then []
    else (if ts[0].InFlight? then [ts[0].frame] else []) + OutstandingIn(ts[1..])
  }

  // ---------- Draining ----------

  predicate Healthy(x: Session) {
    ReportFailure !in x.tasks && Failed !in x.tasks
  }

  /** A step in which no write fails. */
  predicate Quiet(m: Move) {
    !m.Fail? && !m.Report?
  }

  predicate Plays(x: Session, ms: seq<Move>)
    decreases |ms|
  {
    ms == [] || (Quiet(ms[0]) && CanMove(x, ms[0]) && Plays(Moved(x, ms[0]), ms[1..]))
  }

  function Play(x: Session, ms: seq<Move>): Session
    requires Plays(x, ms)
    decreases |ms|
  {
    if ms == [] then x else Play(Moved(x, ms[0]), ms[1..])
  }

  function Completions(ms: seq<Move>): nat {
    if ms == [] then 0 else (if ms[0].Succeed? then 1 else 0) + Completions(ms[1..])
  }

  predicate Idle(x: Session) {
    x.queue == [] && !x.isWriting && x.tasks == []
  }

  /** The number of steps a healthy session still takes when nothing new is sent. */
  function Effort(x: Session): int {
    if x.tasks == [] then 0
    else match x.tasks[0]
      case Launch(_) => 4 * |Undelivered(x)|
      case InFlight(_) => 4 * |Undelivered(x)| - 1
      case PopFront => 4 * |Undelivered(x)| + 2
      case StartNext => 4 * |Undelivered(x)| + 1
      case ReportFailure => 0
      case Failed => 0
  }

  lemma QuietMove(x: Session, m: Move)
    requires Inv(x) && Healthy(x) && Quiet(m) && CanMove(x, m)
    ensures Healthy(Moved(x, m)) && Effort(Moved(x, m)) + 1 == Effort(x)
    ensures |Undelivered(Moved(x, m))| == |Undelivered(x)| - (if m.Succeed? then 1 else 0)
  {
    assert x.tasks == [x.tasks[0]] && TaskInv(x, x.tasks[0]);
    var y := Moved(x, m);
    assert !m.NextStep? ==> y.tasks == [y.tasks[0]];
  }

  lemma QuietMoveExists(x: Session) returns (m: Move)
    requires Inv(x) && Healthy(x) && !Idle(x)
    ensures Quiet(m) && CanMove(x, m)
  {
    m := NextStep(0);
    var task := x.tasks[0];
    assert task in x.tasks;
    if task.Launch? {
      m := Start(0);
    } else if task.InFlight? {
      m := Succeed(0);
    } else if task.PopFront? {
      m := PopStep(0);
    }
  }

  ghost predicate Stuck(x: Session) {
    forall m :: Quiet(m) ==> !CanMove(x, m)
  }

  /** A healthy session can always take another step unless it has nothing left to do. */
  lemma StuckIffIdle(x: Session)
    requires Inv(x) && Healthy(x)
    ensures Stuck(x) <==> Idle(x)
    ensures Idle(x) <==> Effort(x) == 0
    ensures Effort(x) >= 0
  {
    if !Idle(x) {
      var m := QuietMoveExists(x);
      assert x.tasks[0] in x.tasks && TaskInv(x, x.tasks[0]);
    }
  }

  /** Along any schedule without failures and new frames, steps, completions and deliveries are accounted for. */
  lemma {:induction false} Draining(x: Session, ms: seq<Move>)
    requires Inv(x) && Healthy(x) && Plays(x, ms)
    ensures var y := Play(x, ms);
            && Inv(y) && Healthy(y)
            && Effort(y) + |ms| == Effort(x)
            && |Undelivered(y)| + Completions(ms) == |Undelivered(x)|
            && Owed(y) == Owed(x)
    decreases |ms|
  {
    if ms != [] {
      MoveKeepsInv(x, ms[0]);
      QuietMove(x, ms[0]);
      Draining(Moved(x, ms[0]), ms[1..]);
    }
  }

  /**
   A schedule that cannot be continued has emptied the queue and cleared the flag, after exactly as
   many completions as frames were owed, all delivered in order; and schedules cannot go on for ever.
   */
  lemma DrainsExactly(x: Session, ms: seq<Move>)
    requires Inv(x) && Healthy(x) && Plays(x, ms)
    ensures |ms| <= Effort(x)
    ensures Stuck(Play(x, ms)) <==> Idle(Play(x, ms))
    ensures Idle(Play(x, ms)) <==> |ms| == Effort(x)
    ensures Idle(Play(x, ms)) ==> Completions(ms) == |Undelivered(x)|
                                  && Play(x, ms).delivered == x.delivered + Undelivered(x)
  {
    Draining(x, ms);
    StuckIffIdle(Play(x, ms));
  }

  // ---------- The classes ----------

  class WebSocketSession {
    var writeQueue: seq<Frame>
    var isWriting: bool
    var tasks: seq<Task>        // writes and handlers the socket layer still has to run
    var delivered: seq<Frame>   // frames whose write has completed successfully

    ghost function View(): Session
      reads this
    {
      Session(writeQueue, isWriting, tasks, delivered)
    }

    constructor ()
      ensures View() == FRESH
    {
      writeQueue, isWriting, tasks, delivered := [], false, [], [];
    }

    method Send(data: Frame)
      modifies this
      ensures View() == SendFrame(old(View()), data)
    {
      writeQueue := writeQueue + [data];
      if !isWriting {
        isWriting := true;
        WriteFront();
      }
    }

    method WriteFront()
      modifies this
      ensures View() == DoWrite(old(View()))
    {
      if |writeQueue| == 0 {
        isWriting := false;
        return;
      }
      var frame := writeQueue[0];
      tasks := tasks + [Launch(frame)];
    }

    /** The first critical section of the completion handler of task `i`. */
    method PopWritten(i: nat)
      requires CanMove(View(), PopStep(i))
      modifies this
      ensures View() == Moved(old(View()), PopStep(i))
    {
      if |writeQueue| != 0 {
        writeQueue := writeQueue[1..];
      }
      tasks := tasks[i := StartNext];
    }

    /** The second critical section: the handler of task `i` ends by starting the next write. */
    method Continue(i: nat)
      requires CanMove(View(), NextStep(i))
      modifies this
      ensures View() == Moved(old(View()), NextStep(i))
    {
      tasks := tasks[..i] + tasks[i + 1..];
      WriteFront();
    }

    /** One step of a write handler or of the socket layer, by itself. */
    method Take(m: Move)
      requires CanMove(View(), m)
      modifies this
      ensures View() == Moved(old(View()), m)
    {
      match m
      case Start(i) => tasks := tasks[i := InFlight(tasks[i].frame)];
      case Succeed(i) =>
        delivered := delivered + [tasks[i].frame];
        tasks := tasks[i := PopFront];
      case Fail(i) => tasks := tasks[i := ReportFailure];
      case PopStep(i) => PopWritten(i);
      case NextStep(i) => Continue(i);
      case Report(i) => tasks := tasks[i := Failed];
    }

    /** The completion handler of the write of task `i`, run without interference. */
    method OnWrite(i: nat, hub: WebSocketHub, failed: bool)
      requires CanMove(View(), Succeed(i))
      modifies this, hub
      ensures failed ==> hub.sessions == old(hub.sessions) - {this}
      ensures failed ==> View() == Moved(Moved(old(View()), Fail(i)), Report(i))
      ensures !failed ==> hub.sessions == old(hub.sessions)
      ensures !failed ==> Plays(old(View()), [Succeed(i), PopStep(i), NextStep(i)])
                          && View() == Play(old(View()), [Succeed(i), PopStep(i), NextStep(i)])
    {
      ghost var before := View();
      if failed {
        tasks := tasks[i := ReportFailure];
        hub.Unregister(this);
        tasks := tasks[i := Failed];
        return;
      }
      delivered := delivered + [tasks[i].frame];
      tasks := tasks[i := PopFront];
      ghost var written := View();
      PopWritten(i);
      ghost var popped := View();
      Continue(i);
      PlayThree(before, i);
    }
  }

  lemma PlayThree(x: Session, i: nat)
    requires CanMove(x, Succeed(i))
    ensures var a := Moved(x, Succeed(i));
            var b := Moved(a, PopStep(i));
            var ms := [Succeed(i), PopStep(i), NextStep(i)];
            Plays(x, ms) && Play(x, ms) == Moved(b, NextStep(i))
  {
    var a := Moved(x, Succeed(i));
    var b := Moved(a, PopStep(i));
    PlayFirst(b, NextStep(i), []);
    PlayFirst(a, PopStep(i), [NextStep(i)]);
    PlayFirst(x, Succeed(i), [PopStep(i), NextStep(i)]);
    assert [Succeed(i)] + [PopStep(i), NextStep(i)] == [Succeed(i), PopStep(i), NextStep(i)];
    assert [PopStep(i)] + [NextStep(i)] == [PopStep(i), NextStep(i)];
    assert [NextStep(i)] + [] == [NextStep(i)];
  }

  lemma PlayFirst(x: Session, m: Move, ms: seq<Move>)
    requires Quiet(m) && CanMove(x, m) && Plays(Moved(x, m), ms)
    ensures Plays(x, [m] + ms) && Play(x, [m] + ms) == Play(Moved(x, m), ms)
  {
    assert ([m] + ms)[1..] == ms;
  }

  class WebSocketHub {
    var sessions: set<WebSocketSession>

    constructor ()
      ensures sessions == {}
    {
      sessions := {};
    }

    method Register(session: WebSocketSession)
      modifies this
      ensures sessions == old(sessions) + {session}
    {
      sessions := sessions + {session};
    }

    method Unregister(session: WebSocketSession)
      modifies this
      ensures sessions == old(sessions) - {session}
    {
      sessions := sessions - {session};
    }

    /** The fan-out loop, in whatever order the hash set yields the sessions. */
    method Broadcast(data: Frame)
      modifies sessions
      ensures forall s <- sessions :: s.View() == SendFrame(old(s.View()), data)
    {
      var todo := sessions;
      while todo != {}
        invariant todo <= sessions
        invariant forall s <- sessions :: s.View() == if s in todo then old(s.View()) else SendFrame(old(s.View()), data)
        decreases todo
      {
        var s :| s in todo;
        s.Send(data);
        todo := todo - {s};
      }
    }
  }
}
