/**
 The server process over its life: the database is opened, the administrator bootstrapped, requests are
 handled one after the other, and restarts make a new request handler and a new relayer over the same
 tables. Every run of the objects is the run of module ServerRuns, so the theorems proved there hold of
 the session map and of the encrypted rows.
 */
module Process {
  import opened Basics
  import opened Accounts
  import opened Database
  import opened Requests
  import opened ServerRuns
  import opened ReplyServer
  import Relay = StreamRelayer

  predicate CallOk(call: Call) {
    |call.iv1| == 12 && |call.iv2| == 12
  }

  predicate AttemptsOk(a: Attempts) {
    CallOk(a.first) && CallOk(a.second)
  }

  predicate EventOk(e: Event) {
    match e
    case Handle(_, env) => EnvOk(env)
    case Restart(a) => AttemptsOk(a)
  }

  /** The replies of a run, in order. */
  function Replies(p: Primitives, h: Handlers, s: Server, es: seq<Event>): seq<Reply>
    decreases |es|
  {
    if es == [] then []
    else (if es[0].Handle? then Dispatch(p, h, s, es[0].r, es[0].env).replies else [])
         + Replies(p, h, After(p, h, s, es[0]), es[1..])
  }

  /** A row under the digest of `id` whose flags are as given, and no row under it whose flags are not. */
  ghost predicate RowSays(c: Primitives, rows: seq<Row>, id: string, approved: set<int>, active: set<int>) {
    && (exists k :: 0 <= k < |rows| && rows[k].idHash == c.sha256(id))
    && forall row <- rows :: row.idHash == c.sha256(id) ==> row.isApproved in approved && row.isActive in active
  }

  lemma RowOf(c: Primitives, key: string, rows: seq<Row>, ids: seq<string>, users: Users, id: string)
    requires c.Ideal() && TableFor(c, key, rows, ids, users) && id in users
    ensures RowSays(c, rows, id, {Flag(users[id].approved)}, {Flag(users[id].active)})
  {
    hide Hides;
    var k :| 0 <= k < |ids| && ids[k] == id;
    assert RowFor(c, key, rows[k], ids[k], users[ids[k]]);
    forall row | row in rows && row.idHash == c.sha256(id)
      ensures row.isApproved == Flag(users[id].approved) && row.isActive == Flag(users[id].active)
    {
      var j :| 0 <= j < |rows| && rows[j] == row;
      assert RowFor(c, key, rows[j], ids[j], users[ids[j]]);
    }
  }

  /** The account is banned on disk and holds no session. */
  ghost predicate Banned(server: ReplyServer, id: string)
    reads server, server.db
  {
    && (forall t <- server.sessions :: server.sessions[t] != id)
    && RowSays(server.db.c, server.db.rows, id, {0, 1}, {0})
  }

  /** Every session belongs to an account that is approved and active on disk. */
  ghost predicate SessionsBacked(server: ReplyServer)
    reads server, server.db
  {
    forall t <- server.sessions :: RowSays(server.db.c, server.db.rows, server.sessions[t], {1}, {1})
  }

  /** Event `i` of the run evicts `id`. */
  predicate EvictsAt(p: Primitives, h: Handlers, boot: Attempts, es: seq<Event>, i: nat, id: string) {
    i < |es| && es[i].Handle? && EvictsUser(p, h, Exec(p, h, Boot(boot), es[..i]), es[i].r, es[i].env, id)
  }

  lemma EvictedInRun(p: Primitives, h: Handlers, boot: Attempts, es: seq<Event>, i: nat, id: string)
    requires EvictsAt(p, h, boot, es, i, id)
    ensures Evicted(Exec(p, h, Boot(boot), es), id)
  {
    hide EvictsUser, Evicted, Dispatch, Exec, Boot;
    var r, env := es[i].r, es[i].env;
    EvictedAfter(p, h, boot, es[..i], r, env, id, es[i + 1..]);
    assert es[..i] + [Handle(r, env)] + es[i + 1..] == es;
  }

  lemma {:induction false} RepliesAppend(p: Primitives, h: Handlers, s: Server, es: seq<Event>, e: Event)
    ensures Replies(p, h, s, es + [e])
         == Replies(p, h, s, es) + (if e.Handle? then Dispatch(p, h, Exec(p, h, s, es), e.r, e.env).replies else [])
    decreases |es|
  {
    hide Dispatch;
    if es == [] {
      assert es + [e] == [e] && [e][1..] == [];
    } else {
      assert (es + [e])[1..] == es[1..] + [e];
      RepliesAppend(p, h, After(p, h, s, es[0]), es[1..], e);
    }
  }

  /** Whether the process runs before event `i` of the run, and after it. */
  lemma {:induction false} UpOneMore(p: Primitives, h: Handlers, s: Server, up: bool, es: seq<Event>, i: nat)
    requires Legal(p, h, s, up, es) && i < |es|
    ensures es[i].Handle? ==> Up(p, h, s, up, es[..i])
    ensures Up(p, h, s, up, es[..i + 1]) == UpAfter(Exec(p, h, s, es[..i]), Up(p, h, s, up, es[..i]), es[i])
    decreases |es|
  {
    hide After, UpAfter;
    if i > 0 {
      assert es[1..][..i - 1] == es[..i][1..] && es[1..][..i] == es[..i + 1][1..];
      UpOneMore(p, h, After(p, h, s, es[0]), UpAfter(s, up, es[0]), es[1..], i - 1);
    } else {
      assert es[..1][1..] == [] && es[..0] == [];
    }
  }

  lemma ExecOneMore(p: Primitives, h: Handlers, s: Server, es: seq<Event>, i: nat)
    requires i < |es|
    ensures es[..i + 1] == es[..i] + [es[i]]
    ensures Exec(p, h, s, es[..i + 1]) == After(p, h, Exec(p, h, s, es[..i]), es[i])
  {
    hide After;
    ExecAppend(p, h, s, es[..i], [es[i]]);
    assert [es[i]][1..] == [];
  }

  /** A start over the tables of `db`, with a second attempt if the first throws; `up` is false if both do. */
  method StartOver(db: Database, handlers: Handlers, a: Attempts) returns (up: bool, server: ReplyServer)
    requires db.Valid() && AttemptsOk(a)
    modifies db
    ensures up == !StartupFails(old(db.users), a)
    ensures fresh(server) && fresh(server.relayer) && server.db == db && server.handlers == handlers && server.Valid()
    ensures server.View() == Server(Startup(old(db.users), a), old(db.latest), map[], None)
  {
    var threw := db.BootstrapAdmin(a.first);
    if threw {
      threw := db.BootstrapAdmin(a.second);
    }
    up := !threw;
    var relayer := new Relay.StreamRelayer();
    server := new ReplyServer(db, relayer, handlers);
  }

  /**
   For every run: state and replies of the objects are those of the specification, a request without a reply ends
   the process; every session belongs to an account approved and active on disk; whoever was evicted at any time
   is banned on disk and has no session.
   */
  method RunServer(c: Primitives, key: string, handlers: Handlers, boot: Attempts, es: seq<Event>)
    returns (up: bool, server: ReplyServer, replies: seq<Reply>)
    requires c.Ideal() && |key| == 32 && AttemptsOk(boot) && forall e <- es :: EventOk(e)
    requires Legal(c, handlers, Boot(boot), BootsUp(boot), es)
    ensures server.Valid() && server.View() == Exec(c, handlers, Boot(boot), es)
    ensures up == Up(c, handlers, Boot(boot), BootsUp(boot), es)
    ensures replies == Replies(c, handlers, Boot(boot), es)
    ensures SessionsBacked(server)
    ensures forall i: nat, id :: EvictsAt(c, handlers, boot, es, i, id) ==> Banned(server, id)
  {
    hide TableFor, RtspFor, Dispatch, Crashes, EvictsAt, Startup, StartupFails;
    var db := new Database(c, key);
    up, server := StartOver(db, handlers, boot);
    replies := [];
    for i := 0 to |es|
      invariant fresh(server) && fresh(server.db) && fresh(server.relayer)
      invariant server.Valid() && server.db.c == c && server.handlers == handlers
      invariant server.View() == Exec(c, handlers, Boot(boot), es[..i])
      invariant up == Up(c, handlers, Boot(boot), BootsUp(boot), es[..i])
      invariant replies == Replies(c, handlers, Boot(boot), es[..i])
    {
      ExecOneMore(c, handlers, Boot(boot), es, i);
      UpOneMore(c, handlers, Boot(boot), BootsUp(boot), es, i);
      RepliesAppend(c, handlers, Boot(boot), es[..i], es[i]);
      assert EventOk(es[i]);
      match es[i]
      case Handle(r, env) =>
        ExactlyOneReply(c, handlers, server.View(), r, env);
        var published := server.HandleRequest(r, env);
        up := published != [];
        replies := replies + published;
      case Restart(a) =>
        up, server := StartOver(server.db, handlers, a);
    }
    assert es[..|es|] == es;
    AccountsOnDisk(server, handlers, boot, es);
  }

  lemma AccountsOnDisk(server: ReplyServer, handlers: Handlers, boot: Attempts, es: seq<Event>)
    requires server.Valid() && server.View() == Exec(server.db.c, handlers, Boot(boot), es)
    ensures SessionsBacked(server)
    ensures forall i: nat, id :: EvictsAt(server.db.c, handlers, boot, es, i, id) ==> Banned(server, id)
  {
    var db := server.db;
    SessionsAlwaysAdmitted(db.c, handlers, boot, es);
    hide TableFor, RtspFor, Dispatch, EvictsAt, RowSays, Exec, Boot;
    forall t | t in server.sessions ensures RowSays(db.c, db.rows, server.sessions[t], {1}, {1}) {
      RowOf(db.c, db.key, db.rows, db.ids, db.users, server.sessions[t]);
    }
    forall i: nat, id | EvictsAt(db.c, handlers, boot, es, i, id) ensures Banned(server, id) {
      EvictedInRun(db.c, handlers, boot, es, i, id);
      RowOf(db.c, db.key, db.rows, db.ids, db.users, id);
      WiderFlags(db.c, db.rows, id, Flag(db.users[id].approved));
    }
  }

  lemma WiderFlags(c: Primitives, rows: seq<Row>, id: string, approved: int)
    requires RowSays(c, rows, id, {approved}, {0}) && approved in {0, 1}
    ensures RowSays(c, rows, id, {0, 1}, {0})
  {
  }
}
