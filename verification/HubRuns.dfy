/**
 The hub and its sessions as objects, over any run of module FanOut: they go through exactly the states of the
 step system, so what is proved of its runs holds of the queues, flags and deliveries in memory.
 */
module HubRuns {
  import opened Basics
  import opened WebSocketSession
  import opened FanOut

  function Members(clients: map<nat, WebSocketSession>, ids: set<nat>): set<WebSocketSession> {
    set s <- ids | s in clients :: clients[s]
  }

  predicate Apart(clients: map<nat, WebSocketSession>) {
    forall s, t :: s in clients && t in clients && s != t ==> clients[s] != clients[t]
  }

  ghost predicate Shows(hub: WebSocketHub, clients: map<nat, WebSocketSession>, h: Hub)
    reads hub, clients.Values
  {
    && Apart(clients)
    && clients.Keys == h.clients.Keys && h.registered <= clients.Keys
    && hub.sessions == Members(clients, h.registered)
    && forall s <- clients :: clients[s].View() == h.clients[s].session
  }

  /** What is left of a member set when one session unregisters. */
  lemma MembersWithout(clients: map<nat, WebSocketSession>, ids: set<nat>, s: nat)
    requires Apart(clients) && s in clients
    ensures Members(clients, ids - {s}) == Members(clients, ids) - {clients[s]}
    ensures Members(clients, ids + {s}) == Members(clients, ids) + {clients[s]}
  {
  }

  /** Step `i` of a run. */
  lemma LegalStep(es: seq<Event>, i: nat)
    requires Legal(es) && i < |es| && Legal(es[..i])
    ensures Legal(es[..i + 1]) && Enabled(Exec(es[..i]), es[i]) && Exec(es[..i + 1]) == Next(Exec(es[..i]), es[i])
  {
    assert es == es[..i + 1] + es[i + 1..];
    LegalPrefix(es[..i + 1], es[i + 1..]);
    assert es[..i + 1][..i] == es[..i];
  }

  /** A new connection. */
  method PlayConnect(hub: WebSocketHub, clients: map<nat, WebSocketSession>, s: nat, ghost h: Hub)
    returns (clients': map<nat, WebSocketSession>)
    requires Shows(hub, clients, h) && Enabled(h, Connect(s))
    ensures Shows(hub, clients', Next(h, Connect(s)))
    ensures forall t <- clients' :: fresh(clients'[t]) || (t in clients && clients'[t] == clients[t])
  {
    var session := new WebSocketSession();
    clients' := clients[s := session];
    assert Members(clients', h.registered) == Members(clients, h.registered);
  }

  /** onAccept and onRead. */
  method PlayMember(hub: WebSocketHub, clients: map<nat, WebSocketSession>, e: Event, ghost h: Hub)
    requires Shows(hub, clients, h) && Enabled(h, e) && (e.Register? || e.AcceptFailed? || e.ReadError?)
    modifies hub
    ensures Shows(hub, clients, Next(h, e))
  {
    hide Members, Apart;
    MembersWithout(clients, h.registered, e.s);
    match e
    case Register(s) => hub.Register(clients[s]);
    case AcceptFailed(s) =>
    case ReadError(s) => hub.Unregister(clients[s]);
  }

  /** sendFrame of one session, or a step of its write handlers. */
  method PlaySession(hub: WebSocketHub, clients: map<nat, WebSocketSession>, e: Event, frame: Frame, ghost h: Hub)
    requires Shows(hub, clients, h) && Enabled(h, e) && (e.Send? || e.Local? || e.GiveUp?)
    requires e.Send? ==> h.current == Some(frame)
    modifies hub, clients.Values
    ensures Shows(hub, clients, Next(h, e))
  {
    hide Moved, SendFrame, CanMove, Members;
    match e
    case Send(s) =>
      clients[s].Send(frame);
    case Local(s, m) => clients[s].Take(m);
    case GiveUp(s, i) =>
      MembersWithout(clients, h.registered, s);
      hub.Unregister(clients[s]);
      clients[s].Take(Report(i));
  }

  /** One event. `current` is the frame under broadcast. */
  method PlayEvent(hub: WebSocketHub, clients: map<nat, WebSocketSession>, e: Event, current: Option<Frame>, ghost h: Hub)
    returns (clients': map<nat, WebSocketSession>, current': Option<Frame>)
    requires Shows(hub, clients, h) && current == h.current && Enabled(h, e)
    modifies hub, clients.Values
    ensures Shows(hub, clients', Next(h, e)) && current' == Next(h, e).current
    ensures forall s <- clients' :: fresh(clients'[s]) || (s in clients && clients'[s] == clients[s])
  {
    hide Moved, SendFrame, CanMove;
    clients', current' := clients, current;
    match e
    case Begin(frame) => current' := Some(frame);
    case End => current' := None;
    case Send(_) => PlaySession(hub, clients, e, current.value, h);
    case Local(_, _) => PlaySession(hub, clients, e, [], h);
    case GiveUp(_, _) => PlaySession(hub, clients, e, [], h);
    case Connect(s) => clients' := PlayConnect(hub, clients, s, h);
    case _ => PlayMember(hub, clients, e, h);
  }

  /** The objects go through the run; every session has delivered, queued and still awaits exactly its window. */
  method RunHub(es: seq<Event>) returns (hub: WebSocketHub, clients: map<nat, WebSocketSession>)
    requires Legal(es)
    ensures Shows(hub, clients, Exec(es))
    ensures forall s <- clients ::
              clients[s].delivered + Undelivered(clients[s].View()) + Awaiting(Exec(es), s) == Window(es, s)
  {
    hide Window, JoinedAt, LeftAt, Log, Legal, Exec, Enabled, Next;
    EmptyRun();
    hub := new WebSocketHub();
    clients := map[];
    var current: Option<Frame> := None;
    for i := 0 to |es|
      invariant fresh(hub) && forall s <- clients :: fresh(clients[s])
      invariant Legal(es[..i]) && Shows(hub, clients, Exec(es[..i])) && current == Exec(es[..i]).current
    {
      LegalStep(es, i);
      clients, current := PlayEvent(hub, clients, es[i], current, Exec(es[..i]));
    }
    assert es[..|es|] == es;
    forall s | s in clients
      ensures clients[s].delivered + Undelivered(clients[s].View()) + Awaiting(Exec(es), s) == Window(es, s)
    {
      FanOutRefinesLog(es, s);
    }
  }

  lemma EmptyRun()
    ensures Legal([]) && Exec([]) == EMPTY
  {
  }

  // ---------- A whole broadcast ----------

  lemma {:induction false} InSomeOrder(ids: set<nat>) returns (order: seq<nat>)
    ensures forall s :: s in order <==> s in ids
    ensures forall i, j :: 0 <= i < j < |order| ==> order[i] != order[j]
  {
    order := [];
    if ids != {} {
      var s :| s in ids;
      var rest := InSomeOrder(ids - {s});
      order := [s] + rest;
    }
  }

  /** The states a broadcast goes through when nothing comes in between: Begin, one Send for each session, End. */
  function BroadcastOf(h: Hub, frame: Frame, order: seq<nat>): Hub
    requires h.current.None?
  {
    var sent := SendAll(Next(h, Begin(frame)), order);
    if Enabled(sent, End) then Next(sent, End) else sent
  }

  /** broadcastFrame, run without interference, is that run of the step system. */
  method WholeBroadcast(hub: WebSocketHub, clients: map<nat, WebSocketSession>, frame: Frame, ghost h: Hub)
    returns (ghost order: seq<nat>)
    requires Shows(hub, clients, h) && h.current.None?
    modifies hub.sessions
    ensures (forall s :: s in order <==> s in h.registered) && forall i, j :: 0 <= i < j < |order| ==> order[i] != order[j]
    ensures Enabled(SendAll(Next(h, Begin(frame)), order), End)
    ensures Shows(hub, clients, BroadcastOf(h, frame, order)) && BroadcastOf(h, frame, order).current.None?
  {
    order := InSomeOrder(h.registered);
    BroadcastReachesAll(Next(h, Begin(frame)), order);
    hide SendAll;
    ghost var reached := forall s <- clients :: clients[s] in hub.sessions <==> s in h.registered;
    assert reached;
    hub.Broadcast(frame);
  }
}
