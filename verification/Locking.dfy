/**
 Every thread of the server as the list of lock operations it performs: request handling on the thread
 pool, socket completion handlers, and relay threads that are spawned and joined. Two lock uses of the
 source only make sense when a thread may re-enter its own lock: the event bus (dispatch publishes
 while publish holds it) and the session mutex (sendFrame calls doWrite while holding it). Whether
 those two are re-entrant is a parameter, and the server is free of deadlock exactly when both are.
 */
module Locking {
  import opened Basics

  datatype Resource =
    | Bus                // EventBus::mutex_
    | Relayer            // StreamRelayer::mutex_
    | Loop(thread: nat)  // held by a relay thread for its whole life; acquiring it is joining the thread
    | Hub                // WebSocketHub::mutex_
    | Session(s: nat)    // WebSocketSession::mutex_
    | Connections        // g_connectionsMutex
    | Tokens             // g_sessionsMutex

  function Rank(r: Resource): nat {
    match r
    case Bus => 5
    case Relayer => 4
    case Loop(_) => 3
    case Hub => 2
    case Session(_) => 1
    case Connections => 0
    case Tokens => 0
  }

  datatype Locks = Locks(busReentrant: bool, sessionReentrant: bool) {
    predicate MayReenter(r: Resource) {
      (r.Bus? && busReentrant) || (r.Session? && sessionReentrant)
    }
  }

  /** What a thread still has to do. */
  datatype Script =
    | Done
    | Acquire(r: Resource, next: Script)
    | Release(r: Resource, next: Script)
    | Touch(r: Resource, next: Script)  // an access to what the lock guards; for a joined thread, the knowledge that it has ended
    | Spawn(thread: nat, body: Script, next: Script)

  // ---------- The source's lock uses ----------

  /** WebSocketSession::sendFrame; doWrite locks the same mutex again. */
  function SendFrame(s: nat, startsWriting: bool, next: Script): Script {
    Acquire(Session(s), Touch(Session(s),
      if startsWriting then Acquire(Session(s), Touch(Session(s), Release(Session(s), Release(Session(s), next))))
      else Release(Session(s), next)))
  }

  datatype Target = Target(s: nat, startsWriting: bool)

  function SendAll(targets: seq<Target>, next: Script): Script {
    if targets == [] then next
    else SendFrame(targets[0].s, targets[0].startsWriting, SendAll(targets[1..], next))
  }

  /** WebSocketHub::broadcastFrame */
  function Broadcast(targets: seq<Target>, next: Script): Script {
    Acquire(Hub, Touch(Hub, SendAll(targets, Release(Hub, next))))
  }

  /** StreamRelayer::runLoop: any number of broadcasts, then the thread ends. */
  function LoopBody(thread: nat, broadcasts: seq<seq<Target>>): Script {
    if broadcasts == [] then Release(Loop(thread), Done)
    else Broadcast(broadcasts[0], LoopBody(thread, broadcasts[1..]))
  }

  /** StreamRelayer::stop; `running` is the thread to join, if any. */
  function Stop(running: Option<nat>, next: Script): Script {
    Acquire(Relayer, Touch(Relayer,
      match running
      case Some(t) => Acquire(Loop(t), Touch(Loop(t), Release(Loop(t), Release(Relayer, next))))
      case None => Release(Relayer, next)))
  }

  /** StreamRelayer::start: unlocks around the nested stop. */
  function Start(running: Option<nat>, thread: nat, broadcasts: seq<seq<Target>>, next: Script): Script {
    var spawn := Touch(Relayer, Spawn(thread, LoopBody(thread, broadcasts), Release(Relayer, next)));
    Acquire(Relayer, if running.Some? then Touch(Relayer, Release(Relayer, Stop(running, Acquire(Relayer, spawn)))) else spawn)
  }

  datatype Route =
    | Plain                                                                       // no relayer involved
    | StartStream(running: Option<nat>, thread: nat, broadcasts: seq<seq<Target>>) // POST /api/rtsp
    | StopStream(running: Option<nat>)                                            // POST /api/rtsp/stop

  /** EventBus::publish of a response: writeResponse runs inside. */
  function Reply(next: Script): Script {
    Acquire(Bus, Acquire(Connections, Touch(Connections, Release(Connections, Release(Bus, next)))))
  }

  function TokenAccesses(n: nat, next: Script): Script {
    if n == 0 then next else Acquire(Tokens, Touch(Tokens, Release(Tokens, TokenAccesses(n - 1, next))))
  }

  /** ReplyServer::dispatch: some accesses to the token map, the endpoint, one reply. */
  function Dispatch(tokenAccesses: nat, route: Route, next: Script): Script {
    TokenAccesses(tokenAccesses, RouteScript(route, Reply(next)))
  }

  function RouteScript(route: Route, next: Script): Script {
    match route
    case Plain => next
    case StartStream(running, thread, broadcasts) => Start(running, thread, broadcasts, next)
    case StopStream(running) => Stop(running, next)
  }

  datatype Job =
    | HttpRequest(tokenAccesses: nat, route: Route)  // HttpSession::onRead
    | WriteCompleted(s: nat)                         // WebSocketSession::onWrite, success: pop, then doWrite
    | HubUpdate                                      // onAccept, or an error in onRead or onWrite

  function ScriptOf(job: Job, next: Script): Script {
    match job
    case HttpRequest(n, route) =>
      Acquire(Connections, Touch(Connections, Release(Connections, Acquire(Bus, Dispatch(n, route, Release(Bus, next))))))
    case WriteCompleted(s) =>
      Acquire(Session(s), Touch(Session(s), Release(Session(s),
        Acquire(Session(s), Touch(Session(s), Release(Session(s), next))))))
    case HubUpdate => Acquire(Hub, Touch(Hub, Release(Hub, next)))
  }

  /** A pool thread works through any sequence of jobs. */
  function ScriptOfAll(jobs: seq<Job>): Script {
    if jobs == [] then Done else ScriptOf(jobs[0], ScriptOfAll(jobs[1..]))
  }

  // ---------- Execution ----------

  /** `held` lists the locks in the order they were taken; a re-entered lock appears more than once. */
  datatype Thread = Thread(held: seq<Resource>, todo: Script)

  type Pool = seq<Thread>

  predicate HeldByOther(pool: Pool, i: nat, r: Resource) {
    exists j :: 0 <= j < |pool| && j != i && r in pool[j].held
  }

  predicate CanAcquire(l: Locks, pool: Pool, i: nat, r: Resource)
    requires i < |pool|
  {
    if r in pool[i].held then l.MayReenter(r) else !HeldByOther(pool, i, r)
  }

  predicate CanMove(l: Locks, pool: Pool, i: nat) {
    && i < |pool|
    && match pool[i].todo
       case Done => false
       case Acquire(r, _) => CanAcquire(l, pool, i, r)
       case Release(r, _) => pool[i].held != [] && pool[i].held[|pool[i].held| - 1] == r
       case Touch(_, _) => true
       case Spawn(_, _, _) => true
  }

  function Step(l: Locks, pool: Pool, i: nat): Pool
    requires CanMove(l, pool, i)
  {
    var t := pool[i];
    match t.todo
    case Acquire(r, next) => pool[i := Thread(t.held + [r], next)]
    case Release(r, next) => pool[i := Thread(t.held[..|t.held| - 1], next)]
    case Touch(_, next) => pool[i := Thread(t.held, next)]
    case Spawn(thread, body, next) => pool[i := Thread(t.held, next)] + [Thread([Loop(thread)], body)]
  }

  function Init(jobs: seq<seq<Job>>): (pool: Pool)
    ensures |pool| == |jobs|
  {
    if jobs == [] then [] else [Thread([], ScriptOfAll(jobs[0]))] + Init(jobs[1..])
  }

  predicate Runs(l: Locks, pool: Pool, schedule: seq<nat>)
    decreases |schedule|
  {
    schedule == [] || (CanMove(l, pool, schedule[0]) && Runs(l, Step(l, pool, schedule[0]), schedule[1..]))
  }

  function Exec(l: Locks, pool: Pool, schedule: seq<nat>): Pool
    requires Runs(l, pool, schedule)
    decreases |schedule|
  {
    if schedule == [] then pool else Exec(l, Step(l, pool, schedule[0]), schedule[1..])
  }

  // ---------- The lock discipline ----------

  /** A lock may be asked for when it ranks below everything held, or when it is a re-entry. */
  predicate MayRequest(l: Locks, held: seq<Resource>, r: Resource) {
    (r in held && l.MayReenter(r)) || forall h <- held :: Rank(r) < Rank(h)
  }

  /** Requests descend, releases are last-in first-out, accesses are under their lock, and a thread ends with nothing held. */
  predicate Disciplined(l: Locks, held: seq<Resource>, todo: Script)
    decreases todo
  {
    match todo
    case Done => held == []
    case Acquire(r, next) => MayRequest(l, held, r) && Disciplined(l, held + [r], next)
    case Release(r, next) =>
      held != [] && held[|held| - 1] == r && Disciplined(l, held[..|held| - 1], next)
    case Touch(r, next) => r in held && Disciplined(l, held, next)
    case Spawn(thread, body, next) => Disciplined(l, [Loop(thread)], body) && Disciplined(l, held, next)
  }

  predicate PoolDisciplined(l: Locks, pool: Pool) {
    forall t <- pool :: Disciplined(l, t.held, t.todo)
  }

  predicate BothReentrant(l: Locks) {
    l.busReentrant && l.sessionReentrant
  }

  lemma TakeAndGiveBack(l: Locks, held: seq<Resource>, r: Resource, next: Script)
    requires MayRequest(l, held, r) && Disciplined(l, held, next)
    ensures Disciplined(l, held, Acquire(r, Touch(r, Release(r, next))))
    ensures Disciplined(l, held, Acquire(r, Release(r, next)))
  {
    assert (held + [r])[..|held|] == held;
  }

  /** A script that is fine between taking and giving back `r`. */
  lemma Bracket(l: Locks, held: seq<Resource>, r: Resource, inner: Script, next: Script)
    requires MayRequest(l, held, r) && Disciplined(l, held, next)
    ensures Disciplined(l, held + [r], Release(r, next))
    ensures Disciplined(l, held + [r], inner) ==> Disciplined(l, held, Acquire(r, Touch(r, inner)))
  {
    assert (held + [r])[..|held|] == held;
  }

  lemma PlainBracket(l: Locks, held: seq<Resource>, r: Resource, inner: Script, next: Script)
    requires MayRequest(l, held, r) && Disciplined(l, held, next)
    ensures Disciplined(l, held + [r], Release(r, next))
    ensures Disciplined(l, held + [r], inner) ==> Disciplined(l, held, Acquire(r, inner))
  {
    assert (held + [r])[..|held|] == held;
  }

  lemma SendFrameDisciplined(l: Locks, held: seq<Resource>, t: Target, next: Script)
    requires l.sessionReentrant && Disciplined(l, held, next) && MayRequest(l, held, Session(t.s))
    ensures Disciplined(l, held, SendFrame(t.s, t.startsWriting, next))
  {
    var r := Session(t.s);
    Bracket(l, held, r, Done, next);
    TakeAndGiveBack(l, held + [r], r, Release(r, next));
    TakeAndGiveBack(l, held, r, next);
  }

  lemma {:induction false} SendAllDisciplined(l: Locks, held: seq<Resource>, targets: seq<Target>, next: Script)
    requires l.sessionReentrant && Disciplined(l, held, next)
    requires forall h <- held :: Rank(h) > 1
    ensures Disciplined(l, held, SendAll(targets, next))
  {
    if targets != [] {
      SendAllDisciplined(l, held, targets[1..], next);
      SendFrameDisciplined(l, held, targets[0], SendAll(targets[1..], next));
    }
  }

  lemma {:induction false} LoopBodyDisciplined(l: Locks, thread: nat, broadcasts: seq<seq<Target>>)
    requires l.sessionReentrant
    ensures Disciplined(l, [Loop(thread)], LoopBody(thread, broadcasts))
  {
    var held := [Loop(thread)];
    if broadcasts == [] {
      assert held[..0] == [];
    } else {
      var next := LoopBody(thread, broadcasts[1..]);
      LoopBodyDisciplined(l, thread, broadcasts[1..]);
      Bracket(l, held, Hub, SendAll(broadcasts[0], Release(Hub, next)), next);
      SendAllDisciplined(l, held + [Hub], broadcasts[0], Release(Hub, next));
    }
  }

  lemma StopDisciplined(l: Locks, held: seq<Resource>, running: Option<nat>, next: Script)
    requires Disciplined(l, held, next) && forall h <- held :: Rank(h) > 4
    ensures Disciplined(l, held, Stop(running, next))
  {
    Bracket(l, held, Relayer, Stop(running, next).next.next, next);
    if running.Some? {
      TakeAndGiveBack(l, held + [Relayer], Loop(running.value), Release(Relayer, next));
    }
  }

  lemma StartDisciplined(l: Locks, held: seq<Resource>, running: Option<nat>, thread: nat, broadcasts: seq<seq<Target>>, next: Script)
    requires l.sessionReentrant && Disciplined(l, held, next) && forall h <- held :: Rank(h) > 4
    ensures Disciplined(l, held, Start(running, thread, broadcasts, next))
  {
    var body := Spawn(thread, LoopBody(thread, broadcasts), Release(Relayer, next));
    var spawn := Touch(Relayer, body);
    LoopBodyDisciplined(l, thread, broadcasts);
    Bracket(l, held, Relayer, body, next);
    assert Disciplined(l, held, Acquire(Relayer, spawn));
    if running.Some? {
      StopDisciplined(l, held, running, Acquire(Relayer, spawn));
      TakeAndGiveBack(l, held, Relayer, Stop(running, Acquire(Relayer, spawn)));
    }
  }

  lemma ReplyDisciplined(l: Locks, next: Script)
    requires l.busReentrant && Disciplined(l, [Bus], next)
    ensures Disciplined(l, [Bus], Reply(next))
  {
    PlainBracket(l, [Bus], Bus, Acquire(Connections, Touch(Connections, Release(Connections, Release(Bus, next)))), next);
    TakeAndGiveBack(l, [Bus] + [Bus], Connections, Release(Bus, next));
  }

  lemma {:induction false} TokenAccessesDisciplined(l: Locks, n: nat, next: Script)
    requires Disciplined(l, [Bus], next)
    ensures Disciplined(l, [Bus], TokenAccesses(n, next))
  {
    if n > 0 {
      TokenAccessesDisciplined(l, n - 1, next);
      TakeAndGiveBack(l, [Bus], Tokens, TokenAccesses(n - 1, next));
    }
  }

  lemma JobDisciplined(l: Locks, job: Job, next: Script)
    requires BothReentrant(l) && Disciplined(l, [], next)
    ensures Disciplined(l, [], ScriptOf(job, next))
  {
    match job
    case HttpRequest(n, route) =>
      var after := Release(Bus, next);
      PlainBracket(l, [], Bus, Dispatch(n, route, after), next);
      assert [] + [Bus] == [Bus];
      ReplyDisciplined(l, after);
      match route {
        case Plain => TokenAccessesDisciplined(l, n, Reply(after));
        case StartStream(running, thread, broadcasts) =>
          StartDisciplined(l, [Bus], running, thread, broadcasts, Reply(after));
          TokenAccessesDisciplined(l, n, Start(running, thread, broadcasts, Reply(after)));
        case StopStream(running) =>
          StopDisciplined(l, [Bus], running, Reply(after));
          TokenAccessesDisciplined(l, n, Stop(running, Reply(after)));
      }
      TakeAndGiveBack(l, [], Connections, Acquire(Bus, Dispatch(n, route, after)));
    case WriteCompleted(s) =>
      TakeAndGiveBack(l, [], Session(s), next);
      TakeAndGiveBack(l, [], Session(s), Acquire(Session(s), Touch(Session(s), Release(Session(s), next))));
    case HubUpdate =>
      TakeAndGiveBack(l, [], Hub, next);
  }

  lemma {:induction false} JobsDisciplined(l: Locks, jobs: seq<Job>)
    requires BothReentrant(l)
    ensures Disciplined(l, [], ScriptOfAll(jobs))
  {
    if jobs != [] {
      JobsDisciplined(l, jobs[1..]);
      JobDisciplined(l, jobs[0], ScriptOfAll(jobs[1..]));
    }
  }

  lemma {:induction false} InitDisciplined(l: Locks, jobs: seq<seq<Job>>)
    requires BothReentrant(l)
    ensures PoolDisciplined(l, Init(jobs))
  {
    if jobs != [] {
      JobsDisciplined(l, jobs[0]);
      InitDisciplined(l, jobs[1..]);
    }
  }

  lemma StepDisciplined(l: Locks, pool: Pool, i: nat)
    requires PoolDisciplined(l, pool) && CanMove(l, pool, i)
    ensures PoolDisciplined(l, Step(l, pool, i))
  {
    var t, pool' := pool[i], Step(l, pool, i);
    assert Disciplined(l, t.held, t.todo);
    forall u | u in pool' ensures Disciplined(l, u.held, u.todo) {
      var j :| 0 <= j < |pool'| && pool'[j] == u;
      if j < |pool| && j != i {
        assert u == pool[j];
      }
    }
  }

  lemma {:induction false} RunDisciplined(l: Locks, pool: Pool, schedule: seq<nat>)
    requires PoolDisciplined(l, pool) && Runs(l, pool, schedule)
    ensures PoolDisciplined(l, Exec(l, pool, schedule))
    decreases |schedule|
  {
    if schedule != [] {
      StepDisciplined(l, pool, schedule[0]);
      RunDisciplined(l, Step(l, pool, schedule[0]), schedule[1..]);
    }
  }

  // ---------- Deadlock freedom ----------

  /** Thread `i` waits for thread `j`. */
  predicate WaitsFor(l: Locks, pool: Pool, i: nat, j: nat) {
    && i < |pool| && j < |pool| && i != j
    && pool[i].todo.Acquire? && !CanAcquire(l, pool, i, pool[i].todo.r)
    && pool[i].todo.r in pool[j].held
  }

  /** Each wait is for a lock ranking above everything the waited-for thread still asks for. */
  lemma WaitsDescend(l: Locks, pool: Pool, i: nat, j: nat, k: nat)
    requires PoolDisciplined(l, pool) && WaitsFor(l, pool, i, j) && WaitsFor(l, pool, j, k)
    ensures Rank(pool[j].todo.r) < Rank(pool[i].todo.r)
  {
    assert pool[j] in pool && Disciplined(l, pool[j].held, pool[j].todo);
  }

  predicate WaitChain(l: Locks, pool: Pool, chain: seq<nat>) {
    forall n :: 0 <= n < |chain| - 1 ==> WaitsFor(l, pool, chain[n], chain[n + 1])
  }

  lemma {:induction false} ChainDescends(l: Locks, pool: Pool, chain: seq<nat>)
    requires PoolDisciplined(l, pool) && WaitChain(l, pool, chain) && |chain| >= 3
    ensures WaitsFor(l, pool, chain[0], chain[1]) && WaitsFor(l, pool, chain[|chain| - 2], chain[|chain| - 1])
    ensures Rank(pool[chain[|chain| - 2]].todo.r) < Rank(pool[chain[0]].todo.r)
  {
    var n := |chain|;
    assert WaitsFor(l, pool, chain[0], chain[0 + 1]);
    assert WaitsFor(l, pool, chain[n - 3], chain[n - 3 + 1]);
    assert WaitsFor(l, pool, chain[n - 2], chain[n - 2 + 1]);
    WaitsDescend(l, pool, chain[n - 3], chain[n - 2], chain[n - 1]);
    if n > 3 {
      ChainDescends(l, pool, chain[..n - 1]);
    }
  }

  /** The wait-for graph has no cycle. */
  lemma NoWaitCycle(l: Locks, pool: Pool, chain: seq<nat>)
    requires PoolDisciplined(l, pool) && |chain| >= 2 && chain[0] == chain[|chain| - 1]
    ensures !WaitChain(l, pool, chain)
  {
    if WaitChain(l, pool, chain) {
      assert WaitsFor(l, pool, chain[0], chain[0 + 1]);
      if |chain| >= 3 {
        var longer := chain + [chain[1]];
        forall n | 0 <= n < |longer| - 1 ensures WaitsFor(l, pool, longer[n], longer[n + 1]) {
          if n < |chain| - 1 {
            assert WaitsFor(l, pool, chain[n], chain[n + 1]);
          }
        }
        ChainDescends(l, pool, longer);
      }
    }
  }

  /** Following the waits from any unfinished thread leads to one that can move. */
  lemma {:induction false} SomeoneMoves(l: Locks, pool: Pool, i: nat) returns (chain: seq<nat>)
    requires PoolDisciplined(l, pool) && i < |pool| && !pool[i].todo.Done?
    ensures chain != [] && chain[0] == i && WaitChain(l, pool, chain) && CanMove(l, pool, chain[|chain| - 1])
    decreases if pool[i].todo.Acquire? then 1 + Rank(pool[i].todo.r) else 0
  {
    assert pool[i] in pool && Disciplined(l, pool[i].held, pool[i].todo);
    chain := [i];
    if !CanMove(l, pool, i) {
      var r := pool[i].todo.r;
      assert r !in pool[i].held;
      var k :| 0 <= k < |pool| && k != i && r in pool[k].held;
      assert pool[k] in pool && Disciplined(l, pool[k].held, pool[k].todo);
      assert WaitsFor(l, pool, i, k);
      var rest := [k];
      if !CanMove(l, pool, k) {
        rest := SomeoneMoves(l, pool, k);
      }
      chain := [i] + rest;
      forall n | 0 <= n < |chain| - 1 ensures WaitsFor(l, pool, chain[n], chain[n + 1]) {
        if n > 0 { assert WaitsFor(l, pool, rest[n - 1], rest[n - 1 + 1]); }
      }
    }
  }

  predicate Finished(pool: Pool) {
    forall t <- pool :: t.todo.Done?
  }

  /** Some thread still has work, and none can take a step. */
  ghost predicate Deadlocked(l: Locks, pool: Pool) {
    !Finished(pool) && forall i: nat :: !CanMove(l, pool, i)
  }

  ghost predicate DeadlocksIn(l: Locks, jobs: seq<seq<Job>>, schedule: seq<nat>) {
    Runs(l, Init(jobs), schedule) && Deadlocked(l, Exec(l, Init(jobs), schedule))
  }

  lemma NoDeadlock(l: Locks, jobs: seq<seq<Job>>, schedule: seq<nat>)
    requires BothReentrant(l)
    ensures !DeadlocksIn(l, jobs, schedule)
  {
    if Runs(l, Init(jobs), schedule) {
      InitDisciplined(l, jobs);
      RunDisciplined(l, Init(jobs), schedule);
      var pool := Exec(l, Init(jobs), schedule);
      if !Finished(pool) {
        var i :| 0 <= i < |pool| && !pool[i].todo.Done?;
        var chain := SomeoneMoves(l, pool, i);
      }
    }
  }

  // ---------- Why both locks must be re-entrant ----------

  /** One more step of thread `i` at the end of a run. */
  lemma {:induction false} Advance(l: Locks, pool: Pool, schedule: seq<nat>, i: nat) returns (longer: seq<nat>)
    requires Runs(l, pool, schedule) && CanMove(l, Exec(l, pool, schedule), i)
    ensures Runs(l, pool, longer) && Exec(l, pool, longer) == Step(l, Exec(l, pool, schedule), i)
    decreases |schedule|
  {
    if schedule == [] {
      longer := [i];
      assert longer[1..] == [];
    } else {
      var rest := Advance(l, Step(l, pool, schedule[0]), schedule[1..], i);
      longer := [schedule[0]] + rest;
      assert longer[1..] == rest;
    }
  }

  const ANY_REQUEST: seq<seq<Job>> := [[HttpRequest(0, Plain)]]
  const START_REQUEST: seq<seq<Job>> := [[HttpRequest(0, StartStream(None, 1, [[Target(0, true)]]))]]

  lemma InitOne(jobs: seq<Job>)
    ensures Init([jobs]) == [Thread([], ScriptOfAll(jobs))]
  {
    assert [jobs][1..] == [];
  }

  lemma ScriptOfOne(job: Job)
    ensures ScriptOfAll([job]) == ScriptOf(job, Done)
  {
    assert [job][1..] == [];
  }

  lemma BusBlocked(l: Locks, pool: Pool)
    requires !l.busReentrant && |pool| == 1 && pool[0].held == [Bus] && pool[0].todo.Acquire? && pool[0].todo.r == Bus
    ensures Deadlocked(l, pool)
  {
    assert pool[0] in pool;
  }

  lemma RequestScript()
    ensures Init(ANY_REQUEST)
         == [Thread([], Acquire(Connections, Touch(Connections, Release(Connections, Acquire(Bus, Reply(Release(Bus, Done)))))))]
  {
    hide Reply;
    InitOne([HttpRequest(0, Plain)]);
    ScriptOfOne(HttpRequest(0, Plain));
  }

  /** A thread that is alone takes any lock it does not hold, and gives back the last one taken. */
  lemma StepAlone(l: Locks, t: Thread)
    requires (t.todo.Acquire? && t.todo.r !in t.held)
          || t.todo.Touch?
          || (t.todo.Release? && t.held != [] && t.held[|t.held| - 1] == t.todo.r)
    ensures CanMove(l, [t], 0)
    ensures Step(l, [t], 0)
         == [Thread(if t.todo.Acquire? then t.held + [t.todo.r] else if t.todo.Release? then t.held[..|t.held| - 1] else t.held,
                    t.todo.next)]
  {
  }

  lemma RequestBegun(l: Locks, pool: Pool, next: Script) returns (schedule: seq<nat>)
    requires pool == [Thread([], Acquire(Connections, Touch(Connections, Release(Connections, Acquire(Bus, next)))))]
    ensures Runs(l, pool, schedule) && Exec(l, pool, schedule) == [Thread([Bus], next)]
  {
    schedule := [];
    assert Runs(l, pool, schedule) && Exec(l, pool, schedule) == pool;
    hide Exec, Runs, CanMove, Step;
    var s1 := Acquire(Bus, next);
    var s2 := Release(Connections, s1);
    var s3 := Touch(Connections, s2);
    assert [] + [Connections] == [Connections] && [Connections][..0] == [] && [] + [Bus] == [Bus];
    StepAlone(l, Thread([], Acquire(Connections, s3)));
    schedule := Advance(l, pool, schedule, 0);
    assert Exec(l, pool, schedule) == [Thread([Connections], s3)];
    StepAlone(l, Thread([Connections], s3));
    schedule := Advance(l, pool, schedule, 0);
    assert Exec(l, pool, schedule) == [Thread([Connections], s2)];
    StepAlone(l, Thread([Connections], s2));
    schedule := Advance(l, pool, schedule, 0);
    assert Exec(l, pool, schedule) == [Thread([], s1)];
    StepAlone(l, Thread([], s1));
    schedule := Advance(l, pool, schedule, 0);
    assert Exec(l, pool, schedule) == [Thread([Bus], next)];
  }

  /** With a plain bus mutex the first request blocks itself when its reply is published. */
  lemma BusBlocksItself(l: Locks) returns (schedule: seq<nat>)
    requires !l.busReentrant
    ensures DeadlocksIn(l, ANY_REQUEST, schedule)
  {
    hide Exec, Runs, Init, Deadlocked;
    RequestScript();
    schedule := RequestBegun(l, Init(ANY_REQUEST), Reply(Release(Bus, Done)));
    BusBlocked(l, Exec(l, Init(ANY_REQUEST), schedule));
  }

  /** The request of START_REQUEST up to the moment its relay thread exists. */
  lemma RelaySpawned(l: Locks) returns (schedule: seq<nat>)
    ensures Runs(l, Init(START_REQUEST), schedule)
    ensures Exec(l, Init(START_REQUEST), schedule)
         == [Thread([Bus, Relayer], Release(Relayer, Reply(Release(Bus, Done)))),
             Thread([Loop(1)], LoopBody(1, [[Target(0, true)]]))]
  {
    var pool := Init(START_REQUEST);
    var job := HttpRequest(0, StartStream(None, 1, [[Target(0, true)]]));
    InitOne([job]);
    ScriptOfOne(job);
    schedule := [];
    assert Runs(l, pool, schedule) && Exec(l, pool, schedule) == pool;
    hide LoopBody, Exec, Runs;
    schedule := Advance(l, pool, schedule, 0);
    schedule := Advance(l, pool, schedule, 0);
    schedule := Advance(l, pool, schedule, 0);
    schedule := Advance(l, pool, schedule, 0);
    schedule := Advance(l, pool, schedule, 0);
    schedule := Advance(l, pool, schedule, 0);
    schedule := Advance(l, pool, schedule, 0);
    var end := Exec(l, pool, schedule);
    assert |end| == 2 && end[0].held == [Bus, Relayer];
  }

  /** From there to the publication of the reply, inside the outer publish. */
  lemma ReplyBegun(l: Locks, pool: Pool, schedule: seq<nat>, loop: Thread) returns (longer: seq<nat>)
    requires l.busReentrant && loop.held == [Loop(1)] && Runs(l, pool, schedule)
    requires Exec(l, pool, schedule) == [Thread([Bus, Relayer], Release(Relayer, Reply(Release(Bus, Done)))), loop]
    ensures Runs(l, pool, longer)
    ensures Exec(l, pool, longer)
         == [Thread([Bus, Bus, Connections], Release(Connections, Release(Bus, Release(Bus, Done)))), loop]
  {
    hide Exec, Runs;
    longer := Advance(l, pool, schedule, 0);
    longer := Advance(l, pool, longer, 0);
    longer := Advance(l, pool, longer, 0);
    longer := Advance(l, pool, longer, 0);
    var end := Exec(l, pool, longer);
    assert |end| == 2 && end[0].held == [Bus, Bus, Connections];
  }

  lemma ReplyDone(l: Locks, pool: Pool, schedule: seq<nat>, loop: Thread) returns (longer: seq<nat>)
    requires Runs(l, pool, schedule)
    requires Exec(l, pool, schedule)
          == [Thread([Bus, Bus, Connections], Release(Connections, Release(Bus, Release(Bus, Done)))), loop]
    ensures Runs(l, pool, longer) && Exec(l, pool, longer) == [Thread([], Done), loop]
  {
    hide Exec, Runs;
    longer := Advance(l, pool, schedule, 0);
    longer := Advance(l, pool, longer, 0);
    longer := Advance(l, pool, longer, 0);
    var end := Exec(l, pool, longer);
    assert |end| == 2 && end[0].held == [];
  }

  /** With a plain session mutex the first frame for an idle client blocks the relay thread in doWrite. */
  lemma SessionBlocksItself(l: Locks) returns (schedule: seq<nat>)
    requires l.busReentrant && !l.sessionReentrant
    ensures DeadlocksIn(l, START_REQUEST, schedule)
  {
    var pool := Init(START_REQUEST);
    var loop := Thread([Loop(1)], LoopBody(1, [[Target(0, true)]]));
    schedule := RelaySpawned(l);
    schedule := ReplyBegun(l, pool, schedule, loop);
    schedule := ReplyDone(l, pool, schedule, loop);
    hide Exec, Runs, Init, LoopBody, Deadlocked;
    FirstFrame();
    schedule := RelayStops(l, pool, schedule, loop);
  }

  lemma RelayStops(l: Locks, pool: Pool, schedule: seq<nat>, loop: Thread) returns (longer: seq<nat>)
    requires !l.sessionReentrant && Runs(l, pool, schedule) && Exec(l, pool, schedule) == [Thread([], Done), loop]
    requires loop.held == [Loop(1)] && loop.todo.Acquire? && loop.todo.r == Hub && loop.todo.next.Touch?
    requires var first := loop.todo.next.next;
             && first.Acquire? && first.r == Session(0) && first.next.Touch?
             && first.next.next.Acquire? && first.next.next.r == Session(0)
    ensures Runs(l, pool, longer) && Deadlocked(l, Exec(l, pool, longer))
  {
    hide Exec, Runs;
    longer := Advance(l, pool, schedule, 1);
    longer := Advance(l, pool, longer, 1);
    longer := Advance(l, pool, longer, 1);
    longer := Advance(l, pool, longer, 1);
    RelayBlocked(l, Exec(l, pool, longer));
  }

  /** The relay thread of START_REQUEST broadcasts its one frame to the one idle client. */
  lemma FirstFrame()
    ensures LoopBody(1, [[Target(0, true)]])
         == Acquire(Hub, Touch(Hub, Acquire(Session(0), Touch(Session(0), Acquire(Session(0), Touch(Session(0),
              Release(Session(0), Release(Session(0), Release(Hub, LoopBody(1, []))))))))))
  {
    var targets := [Target(0, true)];
    var rest := Release(Hub, LoopBody(1, []));
    var broadcasts: seq<seq<Target>> := [targets];
    assert broadcasts[1..] == [] && targets[1..] == [];
    assert SendAll(targets, rest) == SendFrame(0, true, SendAll([], rest));
  }

  lemma RelayBlocked(l: Locks, pool: Pool)
    requires !l.sessionReentrant && |pool| == 2 && pool[0].todo.Done?
    requires pool[1].held == [Loop(1), Hub, Session(0)] && pool[1].todo.Acquire? && pool[1].todo.r == Session(0)
    ensures Deadlocked(l, pool)
  {
    assert pool[1] in pool;
  }

  /** No pool of threads running any jobs under any schedule deadlocks, exactly when both locks are re-entrant. */
  lemma DeadlockFreeIff(l: Locks)
    ensures (forall jobs, schedule :: !DeadlocksIn(l, jobs, schedule)) <==> BothReentrant(l)
  {
    if BothReentrant(l) {
      forall jobs, schedule ensures !DeadlocksIn(l, jobs, schedule) {
        NoDeadlock(l, jobs, schedule);
      }
    } else if !l.busReentrant {
      var schedule := BusBlocksItself(l);
    } else {
      var schedule := SessionBlocksItself(l);
    }
  }

  /** No thread waits for itself through others in any reachable state. */
  lemma NoCycleEver(l: Locks, jobs: seq<seq<Job>>, schedule: seq<nat>, chain: seq<nat>)
    requires BothReentrant(l) && Runs(l, Init(jobs), schedule)
    requires |chain| >= 2 && chain[0] == chain[|chain| - 1]
    ensures !WaitChain(l, Exec(l, Init(jobs), schedule), chain)
  {
    InitDisciplined(l, jobs);
    RunDisciplined(l, Init(jobs), schedule);
    NoWaitCycle(l, Exec(l, Init(jobs), schedule), chain);
  }

  // ---------- Mutual exclusion ----------

  /** No lock is in two threads' hands; thread lifetimes are not locks. */
  predicate Exclusive(pool: Pool) {
    forall i, j, r :: 0 <= i < j < |pool| && r in pool[i].held && r in pool[j].held ==> r.Loop?
  }

  lemma StepExclusive(l: Locks, pool: Pool, i: nat)
    requires Exclusive(pool) && CanMove(l, pool, i)
    ensures Exclusive(Step(l, pool, i))
  {
  }

  lemma {:induction false} InitExclusive(jobs: seq<seq<Job>>)
    ensures Exclusive(Init(jobs)) && forall t <- Init(jobs) :: t.held == []
  {
    if jobs != [] {
      InitExclusive(jobs[1..]);
    }
  }

  /** In every reachable state. */
  lemma MutualExclusion(l: Locks, jobs: seq<seq<Job>>, schedule: seq<nat>)
    requires Runs(l, Init(jobs), schedule)
    ensures Exclusive(Exec(l, Init(jobs), schedule))
  {
    InitExclusive(jobs);
    AlwaysExclusive(l, Init(jobs), schedule);
  }

  lemma {:induction false} AlwaysExclusive(l: Locks, pool: Pool, schedule: seq<nat>)
    requires Exclusive(pool) && Runs(l, pool, schedule)
    ensures Exclusive(Exec(l, pool, schedule))
    decreases |schedule|
  {
    if schedule != [] {
      StepExclusive(l, pool, schedule[0]);
      AlwaysExclusive(l, Step(l, pool, schedule[0]), schedule[1..]);
    }
  }

  // ---------- Guarded data ----------

  /** Thread `i` is about to access what `r` guards. */
  predicate Accesses(pool: Pool, i: nat, r: Resource) {
    i < |pool| && pool[i].todo.Touch? && pool[i].todo.r == r
  }

  /** Whatever is accessed is accessed under its lock, and by one thread at a time, in every reachable state. */
  lemma NoRace(l: Locks, jobs: seq<seq<Job>>, schedule: seq<nat>, i: nat, j: nat, r: Resource)
    requires BothReentrant(l) && Runs(l, Init(jobs), schedule) && !r.Loop?
    requires i != j && Accesses(Exec(l, Init(jobs), schedule), i, r)
    ensures r in Exec(l, Init(jobs), schedule)[i].held
    ensures !Accesses(Exec(l, Init(jobs), schedule), j, r)
  {
    InitDisciplined(l, jobs);
    RunDisciplined(l, Init(jobs), schedule);
    MutualExclusion(l, jobs, schedule);
    hide Exec, Init;
    var pool := Exec(l, Init(jobs), schedule);
    HoldsWhatItTouches(l, pool, i, r);
    HoldsWhatItTouches(l, pool, j, r);
    hide Accesses, PoolDisciplined, Exclusive;
    Alone(pool, i, j, r);
  }

  lemma Alone(pool: Pool, i: nat, j: nat, r: Resource)
    requires Exclusive(pool) && i != j && i < |pool| && r in pool[i].held && !r.Loop?
    ensures j < |pool| ==> r !in pool[j].held
  {
  }

  lemma HoldsWhatItTouches(l: Locks, pool: Pool, i: nat, r: Resource)
    requires PoolDisciplined(l, pool)
    ensures Accesses(pool, i, r) ==> i < |pool| && r in pool[i].held
  {
    assert i < |pool| ==> pool[i] in pool;
  }

  /** The accesses of a script in their order; a spawned thread has its own. */
  function Touches(script: Script): seq<Resource> {
    match script
    case Done => []
    case Acquire(_, next) => Touches(next)
    case Release(_, next) => Touches(next)
    case Touch(r, next) => [r] + Touches(next)
    case Spawn(_, _, next) => Touches(next)
  }

  function Times(n: nat, r: Resource): seq<Resource> {
    seq(n, i => r)
  }

  /** start tests `running_`, in the nested stop tests it again, joins, and sets the fields; stop tests, and joins if there is a thread. */
  function RouteTouches(route: Route): seq<Resource> {
    match route
    case Plain => []
    case StartStream(None, _, _) => [Relayer]
    case StartStream(Some(t), _, _) => [Relayer, Relayer, Loop(t), Relayer]
    case StopStream(None) => [Relayer]
    case StopStream(Some(t)) => [Relayer, Loop(t)]
  }

  function FrameTouches(targets: seq<Target>): seq<Resource> {
    if targets == [] then []
    else (if targets[0].startsWriting then [Session(targets[0].s), Session(targets[0].s)] else [Session(targets[0].s)])
         + FrameTouches(targets[1..])
  }

  function LoopTouches(broadcasts: seq<seq<Target>>): seq<Resource> {
    if broadcasts == [] then [] else [Hub] + FrameTouches(broadcasts[0]) + LoopTouches(broadcasts[1..])
  }

  /** The accesses, construct by construct. */
  lemma TouchesOf()
    ensures forall r: Resource, next: Script :: Touches(Acquire(r, next)) == Touches(next)
    ensures forall r: Resource, next: Script :: Touches(Release(r, next)) == Touches(next)
    ensures forall r: Resource, next: Script :: Touches(Touch(r, next)) == [r] + Touches(next)
    ensures forall thread: nat, body: Script, next: Script :: Touches(Spawn(thread, body, next)) == Touches(next)
  {
  }

  lemma FrameIs(t: Target, next: Script)
    ensures Touches(SendFrame(t.s, t.startsWriting, next))
         == (if t.startsWriting then [Session(t.s), Session(t.s)] else [Session(t.s)]) + Touches(next)
  {
    hide Touches;
    TouchesOf();
    assert [Session(t.s)] + ([Session(t.s)] + Touches(next)) == [Session(t.s), Session(t.s)] + Touches(next);
  }

  lemma {:induction false} SendAllTouches(targets: seq<Target>, next: Script)
    ensures Touches(SendAll(targets, next)) == FrameTouches(targets) + Touches(next)
  {
    hide Touches, SendFrame;
    if targets == [] {
      assert FrameTouches([]) + Touches(next) == Touches(next);
    } else {
      var t := targets[0];
      SendAllTouches(targets[1..], next);
      FrameIs(t, SendAll(targets[1..], next));
      var first := if t.startsWriting then [Session(t.s), Session(t.s)] else [Session(t.s)];
      assert first + (FrameTouches(targets[1..]) + Touches(next)) == FrameTouches(targets) + Touches(next);
    }
  }

  /** A relay thread's broadcasts access the hub's set, then the queue of each session. */
  lemma {:induction false} RelayTouches(thread: nat, broadcasts: seq<seq<Target>>)
    ensures Touches(LoopBody(thread, broadcasts)) == LoopTouches(broadcasts)
  {
    hide Touches;
    TouchesOf();
    if broadcasts == [] {
      EndOfScript();
    } else {
      var rest := LoopBody(thread, broadcasts[1..]);
      RelayTouches(thread, broadcasts[1..]);
      SendAllTouches(broadcasts[0], Release(Hub, rest));
      assert [Hub] + (FrameTouches(broadcasts[0]) + Touches(rest)) == [Hub] + FrameTouches(broadcasts[0]) + Touches(rest);
    }
  }

  lemma EndOfScript()
    ensures Touches(Done) == []
  {
  }

  lemma {:induction false} TokenTouches(n: nat, next: Script)
    ensures Touches(TokenAccesses(n, next)) == Times(n, Tokens) + Touches(next)
  {
    hide Touches;
    TouchesOf();
    if n > 0 {
      TokenTouches(n - 1, next);
      assert Times(n, Tokens) + Touches(next) == [Tokens] + (Times(n - 1, Tokens) + Touches(next));
    } else {
      assert Times(0, Tokens) + Touches(next) == Touches(next);
    }
  }

  lemma StopIs(running: Option<nat>, next: Script)
    ensures Touches(Stop(running, next)) == RouteTouches(StopStream(running)) + Touches(next)
  {
    hide Touches;
    TouchesOf();
    if running.Some? {
      assert [Relayer] + ([Loop(running.value)] + Touches(next)) == [Relayer, Loop(running.value)] + Touches(next);
    }
  }

  lemma StartIs(running: Option<nat>, thread: nat, broadcasts: seq<seq<Target>>, next: Script)
    ensures Touches(Start(running, thread, broadcasts, next))
         == RouteTouches(StartStream(running, thread, broadcasts)) + Touches(next)
  {
    hide Touches, LoopBody;
    TouchesOf();
    var tail := Acquire(Relayer, Touch(Relayer, Spawn(thread, LoopBody(thread, broadcasts), Release(Relayer, next))));
    assert Touches(tail) == [Relayer] + Touches(next);
    StopIs(running, tail);
    if running.Some? {
      hide Stop;
      assert [Relayer] + ([Relayer, Loop(running.value)] + ([Relayer] + Touches(next)))
          == [Relayer, Relayer, Loop(running.value), Relayer] + Touches(next);
    }
  }

  lemma RouteIs(route: Route, next: Script)
    ensures Touches(RouteScript(route, next)) == RouteTouches(route) + Touches(next)
  {
    hide Touches, Start, Stop;
    match route
    case Plain => assert [] + Touches(next) == Touches(next);
    case StartStream(running, thread, broadcasts) => StartIs(running, thread, broadcasts, next);
    case StopStream(running) => StopIs(running, next);
  }

  lemma RequestIs(n: nat, route: Route, next: Script)
    ensures Touches(ScriptOf(HttpRequest(n, route), next))
         == [Connections] + Times(n, Tokens) + RouteTouches(route) + [Connections] + Touches(next)
  {
    var reply := Reply(Release(Bus, next));
    hide Touches, RouteScript, TokenAccesses, RouteTouches, Times;
    TouchesOf();
    assert Touches(reply) == [Connections] + Touches(next);
    RouteIs(route, reply);
    TokenTouches(n, RouteScript(route, reply));
    hide Reply;
    FourParts([Connections], Times(n, Tokens), RouteTouches(route), [Connections], Touches(next));
  }

  lemma FourParts(a: seq<Resource>, b: seq<Resource>, c: seq<Resource>, d: seq<Resource>, e: seq<Resource>)
    ensures a + (b + (c + (d + e))) == a + b + c + d + e
  {
  }

  /** What each job accesses: the connection table before and after, the token map, the relayer with its thread; a queue; the hub's set. */
  lemma JobTouches(job: Job, next: Script)
    ensures Touches(ScriptOf(job, next))
         == (match job
             case HttpRequest(n, route) => [Connections] + Times(n, Tokens) + RouteTouches(route) + [Connections]
             case WriteCompleted(s) => [Session(s), Session(s)]
             case HubUpdate => [Hub])
            + Touches(next)
  {
    hide Touches, RouteTouches, Times;
    TouchesOf();
    match job
    case HttpRequest(n, route) => hide ScriptOf; RequestIs(n, route, next);
    case WriteCompleted(s) =>
      assert [Session(s)] + ([Session(s)] + Touches(next)) == [Session(s), Session(s)] + Touches(next);
    case HubUpdate =>
  }
}
