/**
 The whole server as one step system: connections come, are read, upgraded or dropped; requests that have been
 read are dispatched one after the other, and the replies are written and closed while all that goes on; and
 upgraded connections are the clients of the hub. Responses come from dispatch and from nowhere else, and a
 request whose dispatch throws ends the process and with it everything.
 */
module Service {
  import opened Basics
  import opened Cookies
  import opened Database
  import opened Requests
  import opened Serving
  import Accounts
  import ServerRuns
  import FanOut
  import Net = HttpServer

  /** One dispatched request: the server's state when it was, what it met, and the writeResponse call of its reply. */
  datatype Served = Served(server: Server, r: Request, env: Env, call: nat)

  /**
   `up` says that the process runs. `waiting` are the connections in the table whose request is still to be
   dispatched, `run` is what has happened at the hub.
   */
  datatype World = World(server: Server, up: bool, net: Net.Net, waiting: set<nat>, served: map<nat, Served>,
                         run: seq<FanOut.Event>)

  datatype Event =
    | Connection(e: Net.Event)           // everything but responses
    | Serve(n: nat, r: Request, env: Env)
    | Stream(f: FanOut.Event)            // everything but new clients

  /** The program around the server: its cryptography and its printer of JSON values. */
  datatype Program = Program(p: Primitives, dump: Payload -> string)

  function Start(boot: Accounts.Attempts): World {
    World(ServerRuns.Boot(boot), ServerRuns.BootsUp(boot), Net.START, {}, map[], [])
  }

  predicate Enabled(w: World, e: Event) {
    w.up &&
    match e
    case Connection(c) => !c.Respond? && Net.Enabled(w.net, c)
    case Serve(n, r, env) => n in w.waiting && r.connId == Net.ConnId(n) && IsToken(env.token)
    case Stream(f) => !f.Connect? && FanOut.Legal(w.run + [f])
  }

  function ResponseOf(g: Program, reply: Reply): Net.Event {
    Net.Respond(reply.connId, Wire(reply, g.dump))
  }

  /** The connections after dispatch has published its reply, if there is one. */
  function Published(g: Program, net: Net.Net, reply: Option<Reply>): Net.Net {
    match reply
    case None => net
    case Some(reply) => Net.Next(net, ResponseOf(g, reply))
  }

  function Next(g: Program, w: World, e: Event): World
    requires Enabled(w, e)
  {
    match e
    case Connection(c) =>
      w.(net := Net.Next(w.net, c),
         waiting := if c.Emplace? then w.waiting + {c.n} else w.waiting,
         run := if c.Upgrade? then w.run + [FanOut.Connect(c.n)] else w.run)
    case Serve(n, r, env) =>
      World(Dispatch(g.p, DEPLOYED, w.server, r, env).server,
            !Crashes(w.server, r, env),
            Published(g, w.net, ReplyTo(g.p, w.server, r, env)),
            w.waiting - {n},
            w.served[n := Served(w.server, r, env, |w.net.calls|)],
            w.run)
    case Stream(f) => w.(run := w.run + [f])
  }

  predicate Legal(g: Program, w: World, es: seq<Event>)
    decreases |es|
  {
    es == [] || (Enabled(w, es[0]) && Legal(g, Next(g, w, es[0]), es[1..]))
  }

  function Exec(g: Program, w: World, es: seq<Event>): World
    requires Legal(g, w, es)
    decreases |es|
  {
    if es == [] then w else Exec(g, Next(g, w, es[0]), es[1..])
  }

  // ---------- The invariant ----------

  /** The request's own connection gets a reply. */
  predicate Replied(a: Served) {
    OwnReply(a.r, a.env) && !Crashes(a.server, a.r, a.env)
  }

  function TextFor(g: Program, a: Served): string
    requires Replied(a)
  {
    Wire(ReplyTo(g.p, a.server, a.r, a.env).value, g.dump)
  }

  predicate Underway(net: Net.Net, n: nat, k: nat, text: string) {
    Net.At(net, n, k, text, Net.Writing) || Net.At(net, n, k, text, Net.Closing) || Net.At(net, n, k, text, Net.Finished)
  }

  /** Where a served connection stands: its reply is on its way, or there is none, or it went to connection 0. */
  predicate Answered(g: Program, net: Net.Net, n: nat, a: Served) {
    && a.r.connId == Net.ConnId(n) && IsToken(a.env.token)
    && if Replied(a) then Underway(net, n, a.call, TextFor(g, a)) else Net.Waiting(net, n)
  }

  predicate Crashed(a: Served) {
    Crashes(a.server, a.r, a.env)
  }

  /** Whatever is being written or was written belongs to a served connection. */
  predicate WritesKnown(net: Net.Net, served: map<nat, Served>) {
    && (forall slot <- net.owner :: slot.InCall? ==> net.owner[slot].n in served)
    && (forall x <- net.sent :: x.n in served)
  }

  ghost predicate Inv(g: Program, w: World) {
    && Net.Inv(w.net)
    && (forall n <- w.waiting :: n !in w.served && Net.Waiting(w.net, n))
    && (forall n <- w.served :: Answered(g, w.net, n, w.served[n]))
    && (forall n <- w.served :: Crashed(w.served[n]) ==> !w.up)
    && WritesKnown(w.net, w.served)
  }

  lemma UnderwayStep(net: Net.Net, c: Net.Event, n: nat, k: nat, text: string)
    requires Underway(net, n, k, text) && Net.Enabled(net, c)
    ensures Underway(Net.Next(net, c), n, k, text)
  {
    hide Net.At, Net.Enabled, Net.Next;
    var at :| Net.At(net, n, k, text, at);
    Net.CallStep(net, c, n, k, text, at);
    assert Net.After(at, c, k) in {Net.Writing, Net.Closing, Net.Finished};
  }

  /** A served connection has left its HTTP session. */
  lemma AnsweredHasLeft(g: Program, net: Net.Net, n: nat, a: Served)
    requires Net.Inv(net) && Answered(g, net, n, a)
    ensures Net.Handed(n) !in net.owner
  {
    hide TextFor, Replied, Net.Covers, Net.ConnId, Net.LogsOk, Net.SentTo, IsToken;
    assert forall slot <- net.owner :: Net.Fits(net, slot, net.owner[slot]);
    if Replied(a) && Net.At(net, n, a.call, TextFor(g, a), Net.Finished) {
      var i :| 0 <= i < |net.closed| && net.closed[i] == Net.Closed(n, net.accepted[n]);
      assert Net.ClosedFor(net.closed, n);
    }
  }

  lemma WaitingHasLeft(net: Net.Net, n: nat)
    requires Net.AllFit(net) && Net.Waiting(net, n)
    ensures Net.Handed(n) !in net.owner
  {
    assert forall slot <- net.owner :: Net.Fits(net, slot, net.owner[slot]);
    hide Net.ConnId, Net.SentTo;
  }

  /** A connection that has just been released is new to the table. */
  lemma ReleasedIsNew(g: Program, w: World, n: nat)
    requires Inv(g, w) && Net.Enabled(w.net, Net.Emplace(n))
    ensures n !in w.waiting && n !in w.served
  {
    assert Net.AllFit(w.net);
    hide Net.Inv, Net.Waiting, Answered, WritesKnown, Net.AllFit;
    if n in w.waiting {
      WaitingHasLeft(w.net, n);
    }
    if n in w.served {
      AnsweredHasLeft(g, w.net, n, w.served[n]);
    }
  }

  lemma AnsweredStep(g: Program, net: Net.Net, c: Net.Event, n: nat, a: Served)
    requires Answered(g, net, n, a) && Net.Enabled(net, c) && !Net.IsAnswerTo(c, n)
    ensures Answered(g, Net.Next(net, c), n, a)
  {
    hide Net.Waiting, Underway, TextFor, Replied, Net.Next, Net.Enabled;
    if Replied(a) {
      UnderwayStep(net, c, n, a.call, TextFor(g, a));
    } else {
      Net.WaitingStep(net, c, n);
    }
  }

  lemma WritesStep(net: Net.Net, c: Net.Event, served: map<nat, Served>)
    requires WritesKnown(net, served) && Net.Enabled(net, c) && !c.Respond?
    ensures WritesKnown(Net.Next(net, c), served)
  {
  }

  lemma ConnectionKeepsInv(g: Program, w: World, c: Net.Event)
    requires Inv(g, w) && Enabled(w, Connection(c)) && |w.net.accepted| <= TWO_32
    ensures Inv(g, Next(g, w, Connection(c)))
  {
    hide Net.Inv, Net.Waiting, Answered, WritesKnown, Net.Next, Net.Enabled, Crashed;
    var w' := Next(g, w, Connection(c));
    Net.StepKeepsInv(w.net, c);
    WritesStep(w.net, c, w.served);
    if c.Emplace? {
      ReleasedIsNew(g, w, c.n);
      Net.EmplaceWaits(w.net, c.n);
    }
    forall n | n in w'.waiting ensures n !in w'.served && Net.Waiting(w'.net, n) {
      if n in w.waiting { Net.WaitingStep(w.net, c, n); }
    }
    forall n | n in w'.served ensures Answered(g, w'.net, n, w'.served[n]) {
      AnsweredStep(g, w.net, c, n, w.served[n]);
    }
  }

  /** Fewer than 2^32 connections: none of them is known as 0. */
  lemma NobodyIsZero(net: Net.Net)
    requires Net.AllFit(net) && |net.accepted| < TWO_32
    ensures Net.InTable(0) !in net.owner
    ensures forall n: nat :: n < |net.accepted| ==> Net.ConnId(n) != 0
  {
  }

  /** The response finds the connection served, or nobody. */
  predicate Finds(net: Net.Net, n: nat, c: Net.Event) {
    c.Respond? && (c.connId == Net.ConnId(n) || Net.InTable(c.connId) !in net.owner)
  }

  lemma RespondKnown(net: Net.Net, c: Net.Event, n: nat, served: map<nat, Served>, a: Served)
    requires WritesKnown(net, served) && Net.Waiting(net, n) && Finds(net, n, c)
    ensures WritesKnown(Net.Next(net, c), served[n := a])
  {
    hide Net.ConnId;
  }

  /** A response to `n` or to nobody is no answer to another waiting connection. */
  lemma NotForOthers(net: Net.Net, n: nat, m: nat, c: Net.Event)
    requires Net.Waiting(net, n) && Net.Waiting(net, m) && m != n
    requires Finds(net, n, c)
    ensures !Net.IsAnswerTo(c, m)
  {
    hide Net.ConnId, Net.SentTo;
  }

  lemma ResponseFinds(g: Program, w: World, n: nat, r: Request, env: Env)
    requires Net.AllFit(w.net) && Enabled(w, Serve(n, r, env)) && |w.net.accepted| < TWO_32
    requires !Crashes(w.server, r, env)
    ensures Finds(w.net, n, ResponseOf(g, ReplyTo(g.p, w.server, r, env).value))
    ensures Net.InTable(0) !in w.net.owner
  {
    DeployedReply(g.p, w.server, r, env);
    NobodyIsZero(w.net);
    hide Dispatch, Crashes, Wire, Net.ConnId, Net.AllFit;
  }

  /** All served connections but `n` stand as they should. */
  predicate OthersAnswered(g: Program, net: Net.Net, served: map<nat, Served>, n: nat) {
    forall m <- served :: m != n ==> Answered(g, net, m, served[m])
  }

  predicate OthersWait(net: Net.Net, waiting: set<nat>, n: nat) {
    forall m <- waiting :: m != n ==> Net.Waiting(net, m)
  }

  lemma RespondKeepsOthers(g: Program, w: World, n: nat, c: Net.Event)
    requires Inv(g, w) && n in w.waiting && Finds(w.net, n, c)
    ensures OthersWait(Net.Next(w.net, c), w.waiting, n) && OthersAnswered(g, Net.Next(w.net, c), w.served, n)
  {
    assert c.Respond?;
    hide Net.Inv, Net.Waiting, WritesKnown, Net.Next, Answered, Crashed;
    forall m | m in w.waiting && m != n ensures Net.Waiting(Net.Next(w.net, c), m) {
      OtherWaits(w.net, n, m, c);
    }
    forall m | m in w.served && m != n ensures Answered(g, Net.Next(w.net, c), m, w.served[m]) {
      OtherAnswered(g, w.net, n, m, c, w.served[m]);
    }
  }

  lemma ReplyStep(g: Program, w: World, n: nat, r: Request, env: Env)
    requires Enabled(w, Serve(n, r, env)) && !Crashes(w.server, r, env)
    ensures var w' := Next(g, w, Serve(n, r, env));
            && w'.net == Net.Next(w.net, ResponseOf(g, ReplyTo(g.p, w.server, r, env).value)) && w'.up
            && w'.waiting == w.waiting - {n} && w'.served == w.served[n := Served(w.server, r, env, |w.net.calls|)]
  {
    hide Dispatch, Crashes, Wire, Net.Next;
  }

  /** The invariant, put together again after connection `n` has been served. */
  lemma InvOfParts(g: Program, w: World, w': World, n: nat, a: Served)
    requires forall m <- w.waiting :: m !in w.served
    requires forall m <- w.served :: !Crashed(w.served[m])
    requires w'.up && w'.waiting == w.waiting - {n} && w'.served == w.served[n := a] && !Crashed(a)
    requires Net.Inv(w'.net) && WritesKnown(w'.net, w'.served) && Answered(g, w'.net, n, a)
    requires OthersWait(w'.net, w.waiting, n) && OthersAnswered(g, w'.net, w.served, n)
    ensures Inv(g, w')
  {
    hide Net.Inv, WritesKnown, Answered, Net.Waiting, Crashed;
  }

  lemma ReplyKeepsInv(g: Program, w: World, n: nat, r: Request, env: Env)
    requires Inv(g, w) && Enabled(w, Serve(n, r, env)) && |w.net.accepted| < TWO_32
    requires !Crashes(w.server, r, env)
    ensures Inv(g, Next(g, w, Serve(n, r, env)))
  {
    assert Net.AllFit(w.net);
    hide Next, Crashes, Net.Inv, Net.AllFit, Net.Waiting, WritesKnown, ReplyTo, Net.Next, Answered, Finds, Wire, OthersWait,
         OthersAnswered, IsToken;
    var c, a := ResponseOf(g, ReplyTo(g.p, w.server, r, env).value), Served(w.server, r, env, |w.net.calls|);
    ReplyStep(g, w, n, r, env);
    ResponseFinds(g, w, n, r, env);
    Net.RespondKeepsInv(w.net, c.connId, c.text);
    RespondKnown(w.net, c, n, w.served, a);
    AnswerStands(g, w.net, n, a);
    RespondKeepsOthers(g, w, n, c);
    InvOfParts(g, w, Next(g, w, Serve(n, r, env)), n, a);
    hide Inv;
  }

  lemma CrashKeepsInv(g: Program, w: World, n: nat, r: Request, env: Env)
    requires Inv(g, w) && Enabled(w, Serve(n, r, env)) && Crashes(w.server, r, env)
    ensures Inv(g, Next(g, w, Serve(n, r, env)))
  {
    hide Dispatch, Crashes, Net.Inv, Net.Waiting, Underway, TextFor;
    var w' := Next(g, w, Serve(n, r, env));
    assert w'.net == w.net && !Replied(w'.served[n]);
  }

  lemma ServeKeepsInv(g: Program, w: World, n: nat, r: Request, env: Env)
    requires Inv(g, w) && Enabled(w, Serve(n, r, env)) && |w.net.accepted| < TWO_32
    ensures Inv(g, Next(g, w, Serve(n, r, env)))
  {
    hide Inv, Enabled, Next, Crashes;
    if Crashes(w.server, r, env) {
      CrashKeepsInv(g, w, n, r, env);
    } else {
      ReplyKeepsInv(g, w, n, r, env);
    }
  }

  /** Serving one connection leaves every other where it was. */
  lemma OtherWaits(net: Net.Net, n: nat, m: nat, c: Net.Event)
    requires Net.Waiting(net, n) && Net.Waiting(net, m) && m != n
    requires Finds(net, n, c)
    ensures Net.Waiting(Net.Next(net, c), m)
  {
    NotForOthers(net, n, m, c);
    hide Net.Waiting, Net.Next;
    Net.WaitingStep(net, c, m);
  }

  lemma OtherAnswered(g: Program, net: Net.Net, n: nat, m: nat, c: Net.Event, a: Served)
    requires Net.Waiting(net, n) && Answered(g, net, m, a) && m != n
    requires Finds(net, n, c)
    ensures Answered(g, Net.Next(net, c), m, a)
  {
    hide Net.Waiting, Net.Next, Underway, TextFor, Replied;
    if Replied(a) {
      UnderwayStep(net, c, m, a.call, TextFor(g, a));
    } else {
      OtherWaits(net, n, m, c);
    }
  }

  lemma AnswerStands(g: Program, net: Net.Net, n: nat, a: Served)
    requires Net.Waiting(net, n) && a.r.connId == Net.ConnId(n) && IsToken(a.env.token) && a.call == |net.calls|
    requires !Crashed(a) && Net.InTable(0) !in net.owner
    ensures Answered(g, Net.Next(net, ResponseOf(g, ReplyTo(g.p, a.server, a.r, a.env).value)), n, a)
  {
    DeployedReply(g.p, a.server, a.r, a.env);
    hide Dispatch, Crashes, Wire, Net.ConnId, Net.At, Net.Waiting, IsToken;
    if OwnReply(a.r, a.env) {
      Net.AnswerBegins(net, n, TextFor(g, a));
    }
  }

  lemma StepKeepsInv(g: Program, w: World, e: Event)
    requires Inv(g, w) && Enabled(w, e) && |w.net.accepted| < TWO_32
    ensures Inv(g, Next(g, w, e))
  {
    match e
    case Connection(c) => ConnectionKeepsInv(g, w, c);
    case Serve(n, r, env) => ServeKeepsInv(g, w, n, r, env);
    case Stream(_) => hide Net.Inv, Answered, Net.Waiting, WritesKnown, Crashed;
  }

  lemma AcceptedStep(g: Program, w: World, e: Event)
    requires Enabled(w, e)
    ensures |w.net.accepted| <= |Next(g, w, e).net.accepted|
  {
    hide Dispatch, Wire, ReplyTo;
  }

  lemma {:induction false} AcceptedGrows(g: Program, w: World, es: seq<Event>)
    requires Legal(g, w, es)
    ensures |w.net.accepted| <= |Exec(g, w, es).net.accepted|
    decreases |es|
  {
    if es != [] {
      AcceptedStep(g, w, es[0]);
      hide Next, Enabled;
      AcceptedGrows(g, Next(g, w, es[0]), es[1..]);
    }
  }

  lemma {:induction false} RunKeepsInv(g: Program, w: World, es: seq<Event>)
    requires Inv(g, w) && Legal(g, w, es) && |Exec(g, w, es).net.accepted| < TWO_32
    ensures Inv(g, Exec(g, w, es))
    decreases |es|
  {
    if es != [] {
      AcceptedGrows(g, w, es);
      hide Inv, Enabled, Next;
      StepKeepsInv(g, w, es[0]);
      RunKeepsInv(g, Next(g, w, es[0]), es[1..]);
    }
  }

  // ---------- Main results ----------

  /**
   What was written to connection `n` is nothing, or exactly the reply that dispatch gave to the request read
   from it, once, on the descriptor it arrived on, and the client reads that reply's payload. While the process
   runs, a connection with a reply can always be written, then closed, unless both have happened. One served by
   the /health handler is never written to, nor is one whose request has ended the process.
   */
  ghost predicate GetsTheReply(g: Program, w: World, n: nat) {
    if n !in w.served then Net.SentOn(w.net.sent, n) == []
    else
      var a := w.served[n];
      && a.r.connId == Net.ConnId(n) && n < |w.net.accepted|
      && if Replied(a) then
           var reply := ReplyTo(g.p, a.server, a.r, a.env).value;
           var mayWrite, mayClose := Net.Enabled(w.net, Net.Write(a.call)), Net.Enabled(w.net, Net.Close(a.call));
           && ReadsBack(Wire(reply, g.dump), BodyOf(reply, g.dump))
           && Net.SentOn(w.net.sent, n)
              == (if mayWrite then [] else [Net.Sent(a.r.connId, n, w.net.accepted[n], Wire(reply, g.dump))])
           && Net.ClosedOn(w.net.closed, n) == (if mayWrite || mayClose then [] else [Net.Closed(n, w.net.accepted[n])])
         else
           && Net.SentOn(w.net.sent, n) == [] && !MayBeAnswered(w.net, n, w.up)
           && (Crashed(a) ==> !w.up)
  }

  /** In every reachable state of the whole system, as long as no connection is known as 0. */
  lemma {:induction false} EveryoneGetsTheirReply(g: Program, boot: Accounts.Attempts, es: seq<Event>, n: nat)
    requires Legal(g, Start(boot), es) && |Exec(g, Start(boot), es).net.accepted| < TWO_32
    ensures GetsTheReply(g, Exec(g, Start(boot), es), n)
  {
    StartInv(g, boot);
    RunKeepsInv(g, Start(boot), es);
    hide Legal, Exec, Start, GetsTheReply;
    LogsAre(g, Exec(g, Start(boot), es), n);
  }

  lemma StartInv(g: Program, boot: Accounts.Attempts)
    ensures Inv(g, Start(boot))
  {
    Net.StartInv();
  }

  lemma LogsAre(g: Program, w: World, n: nat)
    requires Inv(g, w)
    ensures GetsTheReply(g, w, n)
  {
    hide Net.Inv, Answered, WritesKnown, ReadsBack, BodyOf, Wire, ReplyTo, Net.Enabled, Net.SentOn, Net.ClosedOn,
         MayBeAnswered, Net.Waiting, Replied, Crashed;
    if n !in w.served {
      NoLogs(w.net, w.served, n);
    } else {
      var a := w.served[n];
      if Replied(a) {
        OwnLogs(g, w.net, n, a);
      } else {
        ZeroLogs(g, w.net, n, a, w.up);
      }
    }
  }

  lemma NoLogs(net: Net.Net, served: map<nat, Served>, n: nat)
    requires Net.Inv(net) && WritesKnown(net, served) && n !in served
    ensures Net.SentOn(net.sent, n) == []
  {
    NotSent(net.sent, n);
    Net.SentOnIs(net.sent, n);
  }

  lemma OwnLogs(g: Program, net: Net.Net, n: nat, a: Served)
    requires Net.Inv(net) && Answered(g, net, n, a) && Replied(a)
    ensures var reply := ReplyTo(g.p, a.server, a.r, a.env).value;
            var mayWrite, mayClose := Net.Enabled(net, Net.Write(a.call)), Net.Enabled(net, Net.Close(a.call));
            && a.r.connId == Net.ConnId(n) && n < |net.accepted|
            && ReadsBack(Wire(reply, g.dump), BodyOf(reply, g.dump))
            && Net.SentOn(net.sent, n)
               == (if mayWrite then [] else [Net.Sent(a.r.connId, n, net.accepted[n], Wire(reply, g.dump))])
            && Net.ClosedOn(net.closed, n) == (if mayWrite || mayClose then [] else [Net.Closed(n, net.accepted[n])])
  {
    hide Net.Inv, Net.Enabled, Net.SentOn, Net.ClosedOn, ReadsBack, Wire, BodyOf, Net.At, Crashes, Dispatch;
    DeployedReadsBack(g.p, a.server, a.r, a.env, g.dump);
    var at :| Net.At(net, n, a.call, TextFor(g, a), at);
    Net.AtIsAccepted(net, n, a.call, TextFor(g, a), at);
    Net.LogsOfCall(net, n, a.call, TextFor(g, a), at);
  }

  lemma ZeroLogs(g: Program, net: Net.Net, n: nat, a: Served, up: bool)
    requires Net.Inv(net) && Answered(g, net, n, a) && !Replied(a)
    ensures a.r.connId == Net.ConnId(n) && n < |net.accepted|
    ensures Net.SentOn(net.sent, n) == [] && !MayBeAnswered(net, n, up)
  {
    hide MayBeAnswered, Replied, TextFor, Underway;
    WaitsInVain(net, n, up);
    Net.SentOnIs(net.sent, n);
  }

  lemma NotSent(sent: seq<Net.Sent>, n: nat)
    requires forall x <- sent :: x.n != n
    ensures !Net.SentTo(sent, n)
  {
  }

  // ---------- The connection known as 0 ----------

  /** A run of connections that are not served is a run of the whole system. */
  lemma {:induction false} Lift(g: Program, w: World, es: seq<Net.Event>) returns (lifted: seq<Event>)
    requires w.up && Net.Legal(w.net, es) && forall e <- es :: !e.Respond? && !e.Emplace? && !e.Upgrade?
    ensures Legal(g, w, lifted) && Exec(g, w, lifted) == w.(net := Net.Exec(w.net, es))
    decreases |es|
  {
    lifted := [];
    if es != [] {
      var first := Connection(es[0]);
      var rest := Lift(g, Next(g, w, first), es[1..]);
      lifted := [first] + rest;
      assert lifted[1..] == rest;
    }
  }

  lemma {:induction false} OneMore(g: Program, w: World, es: seq<Event>, e: Event)
    requires Legal(g, w, es) && Enabled(Exec(g, w, es), e)
    ensures Legal(g, w, es + [e]) && Exec(g, w, es + [e]) == Next(g, Exec(g, w, es), e)
    decreases |es|
  {
    hide Next, Enabled;
    if es == [] {
      assert es + [e] == [e] && [e][1..] == [];
    } else {
      assert (es + [e])[1..] == es[1..] + [e];
      OneMore(g, Next(g, w, es[0]), es[1..], e);
    }
  }

  lemma {:induction false} RunsOn(g: Program, w: World, es: seq<Event>, more: seq<Event>)
    requires Legal(g, w, es) && Legal(g, Exec(g, w, es), more)
    ensures Legal(g, w, es + more) && Exec(g, w, es + more) == Exec(g, Exec(g, w, es), more)
    decreases |es|
  {
    hide Next, Enabled;
    if es == [] {
      assert es + more == more;
    } else {
      assert (es + more)[1..] == es[1..] + more;
      RunsOn(g, Next(g, w, es[0]), es[1..], more);
    }
  }

  /** Connection `n`, accepted on `fd`, released and entered in the table. */
  lemma Enters(g: Program, w0: World, es: seq<Event>, fd: int) returns (longer: seq<Event>)
    requires Legal(g, w0, es) && Exec(g, w0, es).up
    requires var net := Exec(g, w0, es).net;
             fd >= 0 && fd !in net.open && Net.NoReaderFrom(net, |net.accepted|)
             && Net.InTable(Net.ConnId(|net.accepted|)) !in net.owner
    ensures Legal(g, w0, longer)
    ensures var w, w' := Exec(g, w0, es), Exec(g, w0, longer);
            var n := |w.net.accepted|;
            && w'.net.open == w.net.open + {fd}
            && w'.net.owner == w.net.owner[Net.InTable(Net.ConnId(n)) := Net.Desc(fd, n)]
            && w'.net.accepted == w.net.accepted + [fd]
            && w'.net.calls == w.net.calls && w'.net.sent == w.net.sent
            && w'.waiting == w.waiting + {n} && w'.served == w.served && w'.server == w.server && w'.up
  {
    hide Exec, Legal, Net.ConnId;
    var w := Exec(g, w0, es);
    var n := |w.net.accepted|;
    OneMore(g, w0, es, Connection(Net.Accept(fd)));
    OneMore(g, w0, es + [Connection(Net.Accept(fd))], Connection(Net.Hand(n)));
    longer := es + [Connection(Net.Accept(fd))] + [Connection(Net.Hand(n))];
    var owner := Exec(g, w0, longer).net.owner;
    assert owner == w.net.owner[Net.Handed(n) := Net.Desc(fd, n)];
    OneMore(g, w0, longer, Connection(Net.Emplace(n)));
    longer := longer + [Connection(Net.Emplace(n))];
    assert owner - {Net.Handed(n)} == w.net.owner;
  }

  const HEALTH_REQUEST: Request := Request(1, "GET", "/health", NotObject, "")
  const ALL_WORKS: Accounts.Call := Accounts.Call(true, true, true, Accounts.Sql(true, true), Accounts.Sql(true, true), [], [], {})
  const TOKEN: string := seq(32, i => '0')
  const CALM: Env := Env("", ALL_WORKS, ALL_WORKS, true, TOKEN)

  lemma FirstAndLast()
    ensures Net.ConnId(0) == 1 && Net.ConnId(TWO_32 - 1) == 0
  {
  }

  lemma FirstEnters(g: Program, boot: Accounts.Attempts) returns (es: seq<Event>)
    requires ServerRuns.BootsUp(boot)
    ensures Legal(g, Start(boot), es)
    ensures var w := Exec(g, Start(boot), es);
            && |w.net.accepted| == 1 && w.net.open == {0} && w.net.owner == map[Net.InTable(1) := Net.Desc(0, 0)]
            && w.waiting == {0} && w.served == map[] && w.net.sent == [] && w.net.calls == [] && w.up
  {
    FirstAndLast();
    es := Enters(g, Start(boot), [], 0);
    hide Net.ConnId;
  }

  /** Connection 0 waits, 2^32 - 2 others come and go, and the next one is known as 0. */
  lemma SomebodyIsZero(g: Program, boot: Accounts.Attempts) returns (es: seq<Event>)
    requires ServerRuns.BootsUp(boot)
    ensures Legal(g, Start(boot), es)
    ensures ZeroWaits(Exec(g, Start(boot), es))
  {
    hide Exec, Legal, Start, Net.ConnId;
    var w0 := Start(boot);
    es := FirstEnters(g, boot);
    var w1 := Exec(g, w0, es);
    var churn := Net.Churn(w1.net, 1, TWO_32 - 2);
    var more := Lift(g, w1, churn);
    RunsOn(g, w0, es, more);
    FirstAndLast();
    es := Enters(g, w0, es + more, 1);
  }

  predicate ZeroWaits(w: World) {
    var last := TWO_32 - 1;
    && |w.net.accepted| == TWO_32
    && w.net.owner == map[Net.InTable(1) := Net.Desc(0, 0), Net.InTable(0) := Net.Desc(1, last)]
    && w.waiting == {0, last} && w.served == map[] && w.net.sent == [] && w.net.calls == [] && w.up
  }

  /** The call of the connection known as 0 has begun, though that connection has not been served. */
  predicate ZeroIsCalled(w: World) {
    var slot := Net.InCall(0);
    && w.up && |w.net.accepted| == TWO_32 && TWO_32 - 1 !in w.served && w.net.sent == []
    && slot in w.net.owner && w.net.owner[slot].n == TWO_32 - 1 && |w.net.calls| == 1 && !w.net.calls[0].written
  }

  lemma ZeroIsServed(g: Program, w: World)
    requires ZeroWaits(w)
    ensures Enabled(w, Serve(0, HEALTH_REQUEST, CALM)) && ZeroIsCalled(Next(g, w, Serve(0, HEALTH_REQUEST, CALM)))
  {
    FirstAndLast();
    DeployedReply(g.p, w.server, HEALTH_REQUEST, CALM);
    assert !Unprintable(HEALTH_REQUEST);
    hide Dispatch, Wire, Net.ConnId;
  }

  lemma ZeroIsWritten(g: Program, w: World)
    requires ZeroIsCalled(w)
    ensures Enabled(w, Connection(Net.Write(0)))
    ensures var w' := Next(g, w, Connection(Net.Write(0)));
            |w'.net.accepted| == TWO_32 && !GetsTheReply(g, w', TWO_32 - 1)
  {
    hide ReplyTo, Wire, ReadsBack, BodyOf, MayBeAnswered;
  }

  /** The reply of /health, which should reach nobody, reaches the connection known as 0. */
  lemma HealthReachesZero(g: Program, boot: Accounts.Attempts) returns (es: seq<Event>)
    requires ServerRuns.BootsUp(boot)
    ensures Legal(g, Start(boot), es) && |Exec(g, Start(boot), es).net.accepted| == TWO_32
    ensures !GetsTheReply(g, Exec(g, Start(boot), es), TWO_32 - 1)
  {
    hide Exec, Legal, Start, Next, Enabled, GetsTheReply, ZeroWaits, ZeroIsCalled;
    es := SomebodyIsZero(g, boot);
    ZeroIsServed(g, Exec(g, Start(boot), es));
    OneMore(g, Start(boot), es, Serve(0, HEALTH_REQUEST, CALM));
    es := es + [Serve(0, HEALTH_REQUEST, CALM)];
    ZeroIsWritten(g, Exec(g, Start(boot), es));
    OneMore(g, Start(boot), es, Connection(Net.Write(0)));
    es := es + [Connection(Net.Write(0))];
  }

  /** With so many connections every reply reaches its client in all runs exactly below 2^32 of them. */
  lemma RepliesReachIff(g: Program, connections: nat)
    ensures (forall boot, es, n: nat :: Legal(g, Start(boot), es) && |Exec(g, Start(boot), es).net.accepted| <= connections
               ==> GetsTheReply(g, Exec(g, Start(boot), es), n))
       <==> connections < TWO_32
  {
    hide GetsTheReply;
    if connections < TWO_32 {
      forall boot, es, n: nat | Legal(g, Start(boot), es) && |Exec(g, Start(boot), es).net.accepted| <= connections
        ensures GetsTheReply(g, Exec(g, Start(boot), es), n)
      {
        EveryoneGetsTheirReply(g, boot, es, n);
      }
    } else {
      var es := HealthReachesZero(g, Accounts.Attempts(ALL_WORKS, ALL_WORKS));
    }
  }

  /** The requests of a run, in the order they were dispatched. */
  function Handled(es: seq<Event>): seq<ServerRuns.Event> {
    if es == [] then [] else (if es[0].Serve? then [ServerRuns.Handle(es[0].r, es[0].env)] else []) + Handled(es[1..])
  }

  /** The server inside is a legal run of module ServerRuns, so all that is proved there holds here. */
  lemma {:induction false} ServerInside(g: Program, w: World, es: seq<Event>)
    requires Legal(g, w, es)
    ensures Exec(g, w, es).server == ServerRuns.Exec(g.p, DEPLOYED, w.server, Handled(es))
    ensures ServerRuns.Legal(g.p, DEPLOYED, w.server, w.up, Handled(es))
    ensures Exec(g, w, es).up == ServerRuns.Up(g.p, DEPLOYED, w.server, w.up, Handled(es))
    decreases |es|
  {
    if es != [] {
      ServerInside(g, Next(g, w, es[0]), es[1..]);
      hide Dispatch, Crashes, Published;
      var rest := Handled(es[1..]);
      if es[0].Serve? {
        var first := ServerRuns.Handle(es[0].r, es[0].env);
        assert Handled(es) == [first] + rest;
        assert ([first] + rest)[1..] == rest;
      } else {
        assert Handled(es) == rest;
      }
    }
  }

  // ---------- The stream is open ----------

  /** Clients of the hub are connections that have been upgraded. */
  ghost predicate HubInv(w: World) {
    && FanOut.Legal(w.run)
    && (forall n <- FanOut.Exec(w.run).clients :: n < |w.net.accepted| && Net.Reading(n) !in w.net.owner)
    && (forall slot <- w.net.owner :: slot.Reading? ==> slot.n < |w.net.accepted|)
  }

  lemma NetStep(net: Net.Net, c: Net.Event, n: nat)
    requires Net.Enabled(net, c) && forall slot <- net.owner :: slot.Reading? ==> slot.n < |net.accepted|
    ensures var net' := Net.Next(net, c);
            && |net.accepted| <= |net'.accepted|
            && (n < |net.accepted| && Net.Reading(n) in net'.owner ==> Net.Reading(n) in net.owner)
            && (forall slot <- net'.owner :: slot.Reading? ==> slot.n < |net'.accepted|)
            && (c == Net.Upgrade(n) ==> Net.Reading(n) !in net'.owner)
  {
  }

  lemma HubStep(g: Program, w: World, e: Event)
    requires HubInv(w) && Enabled(w, e)
    ensures HubInv(Next(g, w, e))
  {
    var w' := Next(g, w, e);
    hide FanOut.Exec, FanOut.Legal, Dispatch, Crashes;
    match e
    case Connection(c) =>
      if c.Upgrade? {
        FanOut.ExecOne(w.run, FanOut.Connect(c.n));
      }
      hide Net.Next, Net.Enabled;
      forall n | n in FanOut.Exec(w'.run).clients ensures n < |w'.net.accepted| && Net.Reading(n) !in w'.net.owner {
        NetStep(w.net, c, n);
      }
      NetStep(w.net, c, 0);
    case Serve(n, r, env) => ReadersStay(g, w.net, ReplyTo(g.p, w.server, r, env));
    case Stream(f) => ClientsOf(w.run, f);
  }

  lemma ReadersStay(g: Program, net: Net.Net, reply: Option<Reply>)
    ensures Published(g, net, reply).accepted == net.accepted
    ensures forall n: nat :: Net.Reading(n) in Published(g, net, reply).owner <==> Net.Reading(n) in net.owner
  {
    hide Wire;
  }

  lemma ClientsOf(run: seq<FanOut.Event>, f: FanOut.Event)
    requires FanOut.Legal(run + [f]) && !f.Connect?
    ensures FanOut.Legal(run) && FanOut.Exec(run + [f]).clients.Keys == FanOut.Exec(run).clients.Keys
  {
    FanOut.LastStep(run, [f]);
    assert [f][..0] == [] && run + [] == run;
    assert FanOut.Legal(run);
    hide FanOut.Exec, FanOut.Legal;
  }

  lemma {:induction false} HubRun(g: Program, w: World, es: seq<Event>)
    requires HubInv(w) && Legal(g, w, es)
    ensures HubInv(Exec(g, w, es))
    decreases |es|
  {
    if es != [] {
      HubStep(g, w, es[0]);
      hide HubInv, Next, Enabled;
      HubRun(g, Next(g, w, es[0]), es[1..]);
    }
  }

  /** Every client of the hub has its descriptor, unless its WebSocket has been closed; and nobody else holds one as a client. */
  ghost predicate ClientsOwn(w: World, closed: set<nat>) {
    && FanOut.Legal(w.run)
    && (forall n <- FanOut.Exec(w.run).clients ::
          n in closed || (Net.Upgraded(n) in w.net.owner && w.net.owner[Net.Upgraded(n)].n == n))
    && (forall slot <- w.net.owner :: slot.Upgraded? ==> slot.n in FanOut.Exec(w.run).clients)
  }

  function ClosedBy(e: Event): set<nat> {
    if e.Connection? && e.e.WebSocketClosed? then {e.e.n} else {}
  }

  lemma UpgradedStep(net: Net.Net, c: Net.Event, n: nat)
    requires Net.Inv(net) && Net.Enabled(net, c)
    ensures Net.Upgraded(n) in Net.Next(net, c).owner ==> c == Net.Upgrade(n) || Net.Upgraded(n) in net.owner
    ensures c == Net.Upgrade(n) ==> Net.Upgraded(n) in Net.Next(net, c).owner && Net.Next(net, c).owner[Net.Upgraded(n)].n == n
    ensures Net.Upgraded(n) in net.owner && c != Net.WebSocketClosed(n) ==>
              Net.Upgraded(n) in Net.Next(net, c).owner && Net.Next(net, c).owner[Net.Upgraded(n)] == net.owner[Net.Upgraded(n)]
  {
    if Net.Upgraded(n) in net.owner && c != Net.WebSocketClosed(n) {
      Net.SlotStays(net, c, Net.Upgraded(n));
    }
    if c == Net.Upgrade(n) {
      assert Net.Fits(net, Net.Reading(n), net.owner[Net.Reading(n)]);
    }
    hide Net.Covers, Net.Distinct, Net.LogsOk, Net.SlotsLive, Net.ConnId;
  }

  lemma ClientsAfter(w: World, c: Net.Event)
    requires HubInv(w) && Net.Enabled(w.net, c)
    ensures var run := if c.Upgrade? then w.run + [FanOut.Connect(c.n)] else w.run;
            && FanOut.Legal(run)
            && FanOut.Exec(run).clients.Keys == FanOut.Exec(w.run).clients.Keys + (if c.Upgrade? then {c.n} else {})
  {
    if c.Upgrade? {
      FanOut.ExecOne(w.run, FanOut.Connect(c.n));
    }
    hide FanOut.Exec, FanOut.Legal;
  }

  lemma OwnStep(g: Program, w: World, e: Event, closed: set<nat>)
    requires Inv(g, w) && HubInv(w) && ClientsOwn(w, closed) && Enabled(w, e) && |w.net.accepted| < TWO_32
    ensures ClientsOwn(Next(g, w, e), closed + ClosedBy(e))
  {
    hide FanOut.Exec, FanOut.Legal, Dispatch, Crashes, Net.Inv, Net.Next, Net.Enabled, Answered, WritesKnown, Net.Waiting;
    match e
    case Connection(c) =>
      ClientsAfter(w, c);
      forall n: nat { UpgradedStep(w.net, c, n); }
    case Serve(n, r, env) => PublishedOwns(g, w.net, ReplyTo(g.p, w.server, r, env));
    case Stream(f) => ClientsOf(w.run, f);
  }

  lemma PublishedOwns(g: Program, net: Net.Net, reply: Option<Reply>)
    requires Net.Inv(net)
    ensures forall n: nat :: Net.Upgraded(n) in Published(g, net, reply).owner <==> Net.Upgraded(n) in net.owner
    ensures forall n: nat :: Net.Upgraded(n) in net.owner ==>
              Published(g, net, reply).owner[Net.Upgraded(n)] == net.owner[Net.Upgraded(n)]
  {
    if reply.Some? {
      forall n: nat { UpgradedStep(net, ResponseOf(g, reply.value), n); }
    }
    hide Net.Inv, Net.Next, Wire;
  }

  lemma {:induction false} OwnRun(g: Program, w: World, es: seq<Event>, closed: set<nat>) returns (all: set<nat>)
    requires Inv(g, w) && HubInv(w) && ClientsOwn(w, closed) && Legal(g, w, es) && |Exec(g, w, es).net.accepted| < TWO_32
    ensures ClientsOwn(Exec(g, w, es), all)
    ensures forall n <- all :: n in closed || Connection(Net.WebSocketClosed(n)) in es
    decreases |es|
  {
    all := closed;
    if es != [] {
      AcceptedGrows(g, w, es);
      hide Inv, HubInv, ClientsOwn, Enabled, Next;
      StepKeepsInv(g, w, es[0]);
      HubStep(g, w, es[0]);
      OwnStep(g, w, es[0], closed);
      all := OwnRun(g, Next(g, w, es[0]), es[1..], closed + ClosedBy(es[0]));
    }
  }

  lemma ClientHolds(g: Program, w: World, closed: set<nat>, n: nat)
    requires Inv(g, w) && ClientsOwn(w, closed) && n in FanOut.Exec(w.run).clients && n !in closed
    ensures Net.Holds(w.net, n, Net.Upgraded(n))
  {
    hide FanOut.Exec, FanOut.Legal, Net.Inv, Answered, WritesKnown;
    Net.OwnerHolds(w.net, n, Net.Upgraded(n));
  }

  /**
   In every reachable state a client of the hub whose WebSocket has not been closed holds the descriptor it was
   accepted on, open: what it is delivered goes to its own socket.
   */
  lemma WatchersHoldDescriptors(g: Program, boot: Accounts.Attempts, es: seq<Event>, n: nat)
    requires Legal(g, Start(boot), es) && |Exec(g, Start(boot), es).net.accepted| < TWO_32
    requires Connection(Net.WebSocketClosed(n)) !in es
    ensures var w := Exec(g, Start(boot), es);
            FanOut.Legal(w.run) && (n in FanOut.Exec(w.run).clients ==> Net.Holds(w.net, n, Net.Upgraded(n)))
  {
    StartInv(g, boot);
    assert ClientsOwn(Start(boot), {});
    hide Inv, Legal, Exec, Start, HubInv, Net.Holds;
    HubAtStart(boot);
    RunKeepsInv(g, Start(boot), es);
    var closed := OwnRun(g, Start(boot), es, {});
    var w := Exec(g, Start(boot), es);
    if n in FanOut.Exec(w.run).clients {
      ClientHolds(g, w, closed, n);
    }
  }

  lemma StreamOne(g: Program, w: World, f: FanOut.Event)
    requires w.up && !f.Connect? && FanOut.Legal(w.run + [f])
    ensures Enabled(w, Stream(f)) && Next(g, w, Stream(f)) == w.(run := w.run + [f])
  {
  }

  /** A run of the hub alone is a run of the whole. */
  lemma {:induction false} StreamAll(g: Program, w: World, fs: seq<FanOut.Event>) returns (es: seq<Event>)
    requires w.up && FanOut.Legal(w.run + fs) && forall f <- fs :: !f.Connect?
    ensures Legal(g, w, es) && Exec(g, w, es) == w.(run := w.run + fs)
    ensures forall e <- es :: e.Stream?
    decreases |fs|
  {
    es := [];
    if fs == [] {
      assert w.run + fs == w.run;
    } else {
      assert w.run + fs == w.run + [fs[0]] + fs[1..];
      FanOut.LegalPrefix(w.run + [fs[0]], fs[1..]);
      StreamOne(g, w, fs[0]);
      hide FanOut.Legal, Enabled, Next;
      var first := Stream(fs[0]);
      var rest := StreamAll(g, Next(g, w, first), fs[1..]);
      es := [first] + rest;
      assert es[1..] == rest;
    }
  }

  /** Between two broadcasts. */
  ghost predicate HubFree(w: World) {
    FanOut.Legal(w.run) && FanOut.Exec(w.run).current.None?
  }

  /** An upgrade, and otherwise only events of the hub: no request of anyone. */
  predicate OnlyWatches(es: seq<Event>, n: nat) {
    forall e <- es :: e == Connection(Net.Upgrade(n)) || e.Stream?
  }

  /** The socket of `n` has become a WebSocket's: the same descriptor, and nothing has been closed. */
  predicate StaysOpen(net: Net.Net, net': Net.Net, n: nat) {
    && Net.Reading(n) in net.owner && Net.Upgraded(n) in net'.owner
    && net'.owner[Net.Upgraded(n)] == net.owner[Net.Reading(n)]
    && net'.open == net.open && net'.closed == net.closed
  }

  /**
   The stream is not guarded: in every reachable state, whatever the accounts and sessions, a connection that has
   only been accepted can upgrade and be delivered every frame broadcast from then on, without any request, on
   the descriptor it has, which stays open.
   */
  lemma AnyoneMayWatch(g: Program, boot: Accounts.Attempts, es: seq<Event>, n: nat, frames: seq<seq<byte>>)
    returns (more: seq<Event>)
    requires Legal(g, Start(boot), es) && Exec(g, Start(boot), es).up && HubFree(Exec(g, Start(boot), es))
    requires Net.Reading(n) in Exec(g, Start(boot), es).net.owner
    ensures Legal(g, Start(boot), es + more) && OnlyWatches(more, n)
    ensures var w' := Exec(g, Start(boot), es + more);
            && w'.server == Exec(g, Start(boot), es).server && w'.served == Exec(g, Start(boot), es).served
            && FanOut.Legal(w'.run) && n in FanOut.Exec(w'.run).clients
            && FanOut.Exec(w'.run).clients[n].session.delivered == frames
            && StaysOpen(Exec(g, Start(boot), es).net, w'.net, n)
  {
    hide StaysOpen, Exec, Legal, Start, HubInv, HubFree, Enabled, Net.Enabled, OnlyWatches, FanOut.Exec, FanOut.Legal;
    HubAtStart(boot);
    HubRun(g, Start(boot), es);
    more := WatchFrom(g, Exec(g, Start(boot), es), n, frames);
    RunsOn(g, Start(boot), es, more);
  }

  lemma HubAtStart(boot: Accounts.Attempts)
    ensures HubInv(Start(boot))
  {
  }

  lemma WatchFrom(g: Program, w: World, n: nat, frames: seq<seq<byte>>) returns (more: seq<Event>)
    requires HubInv(w) && w.up && HubFree(w) && Net.Reading(n) in w.net.owner
    ensures Legal(g, w, more) && OnlyWatches(more, n)
    ensures var w' := Exec(g, w, more);
            && w'.server == w.server && w'.served == w.served
            && FanOut.Legal(w'.run) && n in FanOut.Exec(w'.run).clients
            && FanOut.Exec(w'.run).clients[n].session.delivered == frames
            && StaysOpen(w.net, w'.net, n)
  {
    hide FanOut.Exec, FanOut.Legal;
    var upgrade := Connection(Net.Upgrade(n));
    var fs := FanOut.Watches(w.run, n, frames);
    var w1 := Next(g, w, upgrade);
    var rest := StreamAll(g, w1, fs);
    more := [upgrade] + rest;
    assert more[1..] == rest;
    hide Next, Enabled;
  }
}
