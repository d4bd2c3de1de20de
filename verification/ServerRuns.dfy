/**
 Runs of the server: any sequence of requests, with any outcomes of the libraries, and any number of
 restarts. A restart loses the tokens and the stream and keeps the tables. Where the process has ended, only
 a restart may follow: those runs are the legal ones. What is proved of all sequences holds of them.
 */
module ServerRuns {
  import opened Basics
  import opened Text
  import opened Accounts
  import opened Cookies
  import opened Database
  import opened Requests
  import opened Endpoints

  datatype Event = Handle(r: Request, env: Env) | Restart(a: Attempts)

  function Boot(a: Attempts): Server {
    Server(Startup(map[], a), None, map[], None)
  }

  function After(p: Primitives, h: Handlers, s: Server, e: Event): Server {
    match e
    case Handle(r, env) => Dispatch(p, h, s, r, env).server
    case Restart(a) => Server(Startup(s.users, a), s.latest, map[], None)
  }

  function Exec(p: Primitives, h: Handlers, s: Server, es: seq<Event>): Server
    decreases |es|
  {
    if es == [] then s else Exec(p, h, After(p, h, s, es[0]), es[1..])
  }

  lemma {:induction false} ExecAppend(p: Primitives, h: Handlers, s: Server, es: seq<Event>, more: seq<Event>)
    ensures Exec(p, h, s, es + more) == Exec(p, h, Exec(p, h, s, es), more)
    decreases |es|
  {
    if es == [] {
      assert es + more == more;
    } else {
      assert (es + more)[1..] == es[1..] + more;
      ExecAppend(p, h, After(p, h, s, es[0]), es[1..], more);
    }
  }

  // ---------- The process ----------

  predicate BootsUp(a: Attempts) {
    !StartupFails(map[], a)
  }

  /** Whether the process runs after the event: a start may fail, and a request may end it. */
  predicate UpAfter(s: Server, up: bool, e: Event) {
    match e
    case Handle(r, env) => up && !Crashes(s, r, env)
    case Restart(a) => !StartupFails(s.users, a)
  }

  /** Requests are handled only while the process runs; afterwards it can be started again. */
  predicate Legal(p: Primitives, h: Handlers, s: Server, up: bool, es: seq<Event>)
    decreases |es|
  {
    es == [] || ((es[0].Handle? ==> up) && Legal(p, h, After(p, h, s, es[0]), UpAfter(s, up, es[0]), es[1..]))
  }

  predicate Up(p: Primitives, h: Handlers, s: Server, up: bool, es: seq<Event>)
    decreases |es|
  {
    if es == [] then up else Up(p, h, After(p, h, s, es[0]), UpAfter(s, up, es[0]), es[1..])
  }

  // ---------- Invariants ----------

  /** May hold a session. */
  predicate Admitted(users: Users, id: string) {
    id != "" && id in users && users[id].approved && users[id].active
  }

  predicate TokensOk(s: Server) {
    forall t <- s.tokens :: Admitted(s.users, s.tokens[t])
  }

  predicate RolesOk(users: Users) {
    && "" !in users
    && forall id <- users :: users[id].role == "user" || (users[id].role == "admin" && id == ADMIN_ID)
  }

  predicate Sane(s: Server) {
    TokensOk(s) && RolesOk(s.users)
  }

  /** The administrator exists, is approved and active, and is the only row with the role. */
  predicate AdminOk(users: Users) {
    && Admitted(users, ADMIN_ID)
    && forall id <- users :: users[id].role == "admin" <==> id == ADMIN_ID
  }

  /** What no step takes away from an account. */
  predicate Extends(before: Users, after: Users) {
    forall id <- before ::
      && id in after
      && after[id].role == before[id].role
      && (before[id].approved ==> after[id].approved)
      && (!before[id].active ==> !after[id].active)
  }

  // ---------- The effect of a request, endpoint by endpoint ----------

  /** All that a request to the endpoint can do to the state. */
  predicate EffectOf(endpoint: Endpoint, p: Primitives, s: Server, s': Server, r: Request, env: Env) {
    s' == s ||
    match endpoint
    case RegisterUser =>
      && Value(r.json, "id").Some? && Value(r.json, "username").Some? && Value(r.json, "password").Some?
      && Value(r.json, "id").value != ""
      && s' == s.(users := Register(s.users, Value(r.json, "id").value, Value(r.json, "username").value,
                                    Value(r.json, "password").value, env.op))
    case Login =>
      && Value(r.json, "id").Some? && Value(r.json, "password").Some?
      && (var id, password := Value(r.json, "id").value, Value(r.json, "password").value;
          && id in s.users && s.users[id].approved && s.users[id].active
          && p.pbkdf2(password, id) == p.pbkdf2(s.users[id].password, id)
          && s' == s.(tokens := s.tokens[env.token := id]))
    case Logout => s' == s.(tokens := s.tokens - {GetSessionToken(r.cookies)})
    case Me => false
    case UpdateMe =>
      && Value(r.json, "username").Some? && Value(r.json, "password").Some?
      && s' == s.(users := UpdateProfile(s.users, CallerId(s.tokens, r.cookies), Value(r.json, "username").value,
                                         Value(r.json, "password").value, env.op))
    case ListUsers => false
    case ApproveUser =>
      Value(r.json, "id").Some? && s' == s.(users := Approve(s.users, Value(r.json, "id").value, env.op))
    case EvictUser =>
      && Value(r.json, "id").Some? && Value(r.json, "id").value != ADMIN_ID
      && s' == s.(users := Evict(s.users, Value(r.json, "id").value, env.op),
                  tokens := if UpdateOutcome(env.op) == Done(true) then WithoutUser(s.tokens, Value(r.json, "id").value) else s.tokens)
    case GetRtsp => false
    case SaveRtspUrl =>
      && Value(r.json, "name").Some? && Value(r.json, "url").Some?
      && s' == s.(latest := SaveRtsp(ClearRtsp(s.latest, env.clearWorks), Value(r.json, "name").value, Value(r.json, "url").value, env.op),
                  stream := if SaveOutcome(env.op) == Done(true) then Value(r.json, "url") else s.stream)
    case StopRtsp => s' == s.(stream := None)
    case Unrouted => false
  }

  /** The session belongs to a row with the administrator's role. */
  predicate CallerIsAdmin(s: Server, r: Request) {
    var caller := CallerId(s.tokens, r.cookies);
    caller in s.users && s.users[caller].role == "admin"
  }

  lemma AuthenticatedEffect(p: Primitives, h: Handlers, s: Server, r: Request, env: Env)
    requires IsAdminEndpoint(EndpointOf(r)) ==> IsAdminArea(r.url)
    requires EndpointOf(r) != Unrouted ==> IsApi(r.url)
    requires EndpointOf(r) != RegisterUser && EndpointOf(r) != Login
    ensures var s' := DispatchAuthenticated(p, h, s, r, env).server;
            && EffectOf(EndpointOf(r), p, s, s', r, env)
            && (s' != s && IsAdminEndpoint(EndpointOf(r)) ==> CallerIsAdmin(s, r))
  {
    hide EndpointOf, IsAdminArea, IsApi, GetSessionToken, Value, Register, Approve, Evict, UpdateProfile, SaveRtsp,
         ClearRtsp, WithoutUser;
  }

  lemma DispatchEffect(p: Primitives, h: Handlers, s: Server, r: Request, env: Env)
    ensures var s' := Dispatch(p, h, s, r, env).server;
            && EffectOf(EndpointOf(r), p, s, s', r, env)
            && (s' != s && IsAdminEndpoint(EndpointOf(r)) ==> CallerIsAdmin(s, r))
  {
    RoutesAreGuarded(r);
    if EndpointOf(r) == RegisterUser || EndpointOf(r) == Login {
      hide EndpointOf, IsStatic, MimeOf, GetSessionToken, Value, DispatchAuthenticated;
    } else {
      AuthenticatedEffect(p, h, s, r, env);
      hide EndpointOf, IsStatic, MimeOf, GetSessionToken, Value, DispatchAuthenticated;
    }
  }

  // ---------- What a step may do to the accounts and tokens ----------

  predicate KeepsAccounts(users: Users, users': Users) {
    RolesOk(users') && Extends(users, users') && (AdminOk(users) ==> AdminOk(users'))
  }

  /** Updating a row without touching its role or revoking anything, the administrator's activity included. */
  lemma StoreKeeps(users: Users, id: string, a: Account)
    requires RolesOk(users) && id in users && a.role == users[id].role
    requires users[id].approved ==> a.approved
    requires a.active == users[id].active || (!a.active && id != ADMIN_ID)
    ensures KeepsAccounts(users, Store(users, id, a))
  {
  }

  lemma InsertKeeps(users: Users, id: string, a: Account)
    requires RolesOk(users) && id !in users && id != ""
    requires a.role == "user" || (id == ADMIN_ID && a == ADMIN)
    ensures KeepsAccounts(users, Store(users, id, a))
  {
  }

  lemma UsersStep(p: Primitives, h: Handlers, s: Server, e: Event)
    requires RolesOk(s.users)
    ensures KeepsAccounts(s.users, After(p, h, s, e).users)
  {
    var users := s.users;
    match e
    case Restart(_) =>
      if ADMIN_ID !in users { InsertKeeps(users, ADMIN_ID, ADMIN); }
    case Handle(r, env) =>
      DispatchEffect(p, h, s, r, env);
      assert KeepsAccounts(users, users);
      hide Dispatch, EndpointOf, GetSessionToken, Value, KeepsAccounts, RolesOk, CallerId;
      var s' := After(p, h, s, e);
      if s' != s {
        match EndpointOf(r)
        case RegisterUser =>
          var id := Value(r.json, "id").value;
          if id !in users {
            InsertKeeps(users, id, Account(Value(r.json, "username").value, Value(r.json, "password").value, "user", false, true));
          }
        case UpdateMe =>
          var id := CallerId(s.tokens, r.cookies);
          if id in users && s'.users != users { StoreKeeps(users, id, s'.users[id]); }
        case ApproveUser =>
          var id := Value(r.json, "id").value;
          if id in users { StoreKeeps(users, id, users[id].(approved := true)); }
        case EvictUser =>
          var id := Value(r.json, "id").value;
          if id in users { StoreKeeps(users, id, users[id].(active := false)); }
        case _ =>
      }
  }

  /** Accounts other than `except` stay admitted. */
  predicate KeepsAdmitted(users: Users, users': Users, except: string) {
    forall id <- users :: id != except && Admitted(users, id) ==> Admitted(users', id)
  }

  lemma TokensKept(tokens: map<string, string>, tokens': map<string, string>, users: Users, users': Users, except: string)
    requires forall t <- tokens :: Admitted(users, tokens[t])
    requires KeepsAdmitted(users, users', except)
    requires forall t <- tokens' :: t in tokens && tokens'[t] == tokens[t] && tokens[t] != except
    ensures forall t <- tokens' :: Admitted(users', tokens'[t])
  {
  }

  lemma OperationsKeepAdmitted(users: Users, id: string, username: string, password: string, call: Call)
    ensures KeepsAdmitted(users, users, "")
    ensures KeepsAdmitted(users, Register(users, id, username, password, call), "")
    ensures KeepsAdmitted(users, Approve(users, id, call), "")
    ensures KeepsAdmitted(users, UpdateProfile(users, id, username, password, call), "")
    ensures KeepsAdmitted(users, Evict(users, id, call), if UpdateOutcome(call) == Done(true) then id else "")
  {
  }

  lemma SaneRequest(p: Primitives, h: Handlers, s: Server, r: Request, env: Env)
    requires Sane(s)
    ensures TokensOk(Dispatch(p, h, s, r, env).server)
  {
    DispatchEffect(p, h, s, r, env);
    var s' := Dispatch(p, h, s, r, env).server;
    var caller, endpoint := CallerId(s.tokens, r.cookies), EndpointOf(r);
    var id, name, password := Value(r.json, "id"), Value(r.json, "username"), Value(r.json, "password");
    assert "" !in s.users;
    hide Dispatch, EndpointOf, GetSessionToken, Value, CallerId, RolesOk;
    if s' == s || endpoint == Login {
    } else {
      hide KeepsAdmitted, Admitted, Register, Approve, UpdateProfile, Evict;
      var except := if endpoint == EvictUser && UpdateOutcome(env.op) == Done(true) then id.value else "";
      if endpoint == UpdateMe {
        OperationsKeepAdmitted(s.users, caller, name.value, password.value, env.op);
      } else if endpoint == RegisterUser {
        OperationsKeepAdmitted(s.users, id.value, name.value, password.value, env.op);
      } else if endpoint == ApproveUser || endpoint == EvictUser {
        OperationsKeepAdmitted(s.users, id.value, "", "", env.op);
      } else {
        OperationsKeepAdmitted(s.users, "", "", "", env.op);
      }
      NoEmptyId(s);
      TokensKept(s.tokens, s'.tokens, s.users, s'.users, except);
    }
  }

  lemma NoEmptyId(s: Server)
    requires TokensOk(s)
    ensures forall t <- s.tokens :: s.tokens[t] != ""
  {
  }

  /** Sessions belong to admitted users, after any request and any restart. */
  lemma SaneStep(p: Primitives, h: Handlers, s: Server, e: Event)
    requires Sane(s)
    ensures Sane(After(p, h, s, e))
  {
    UsersStep(p, h, s, e);
    match e
    case Restart(_) =>
    case Handle(r, env) =>
      SaneRequest(p, h, s, r, env);
      hide Dispatch, TokensOk, RolesOk;
  }

  lemma {:induction false} RunSane(p: Primitives, h: Handlers, s: Server, es: seq<Event>)
    requires Sane(s)
    ensures var s' := Exec(p, h, s, es);
            Sane(s') && Extends(s.users, s'.users) && (AdminOk(s.users) ==> AdminOk(s'.users))
    decreases |es|
  {
    if es != [] {
      UsersStep(p, h, s, es[0]);
      SaneStep(p, h, s, es[0]);
      RunSane(p, h, After(p, h, s, es[0]), es[1..]);
    }
  }

  lemma BootSane(a: Attempts)
    ensures Sane(Boot(a)) && (AdminOk(Boot(a).users) <==> BootstrapRuns(Deciding(map[], a)))
  {
  }

  /** In every reachable state every live token maps to an existing, approved, active, non-empty id. */
  lemma SessionsAlwaysAdmitted(p: Primitives, h: Handlers, boot: Attempts, es: seq<Event>)
    ensures TokensOk(Exec(p, h, Boot(boot), es))
  {
    BootSane(boot);
    RunSane(p, h, Boot(boot), es);
  }

  /** If the process runs after a legal run, the administrator is in place. */
  predicate AdminAfter(p: Primitives, h: Handlers, boot: Attempts, es: seq<Event>) {
    Legal(p, h, Boot(boot), BootsUp(boot), es) && Up(p, h, Boot(boot), BootsUp(boot), es)
    ==> AdminOk(Exec(p, h, Boot(boot), es).users)
  }

  /** An attempt that neither throws nor inserts: the statement that counts cannot be prepared. */
  const IDLE_CALL: Call := Call(true, true, true, Sql(false, false), Sql(false, false), [], [], {})

  /**
   The administrator exists whenever the process runs, approved, active and alone in the role, exactly when
   the insert of the very first start ran, in the attempt that decided.
   */
  lemma AdminAlwaysIff(p: Primitives, h: Handlers, boot: Attempts)
    ensures (forall es :: AdminAfter(p, h, boot, es)) <==> BootstrapRuns(Deciding(map[], boot))
  {
    BootSane(boot);
    if BootstrapRuns(Deciding(map[], boot)) {
      forall es ensures AdminAfter(p, h, boot, es) {
        RunSane(p, h, Boot(boot), es);
      }
    } else if BootsUp(boot) {
      assert !AdminAfter(p, h, boot, []);
    } else {
      var es := [Restart(Attempts(IDLE_CALL, IDLE_CALL))];
      assert es[1..] == [];
      var s := After(p, h, Boot(boot), es[0]);
      assert ADMIN_ID !in s.users && Legal(p, h, s, true, []) && Up(p, h, s, true, []) && Exec(p, h, s, []) == s;
      assert UpAfter(Boot(boot), false, es[0]);
      assert Exec(p, h, Boot(boot), es) == s;
      assert !AdminAfter(p, h, boot, es);
    }
  }

  /** Nobody's session can ever pass the role check. */
  predicate NobodyRules(users: Users) {
    forall id <- users :: users[id].role != "admin"
  }

  /**
   If the administrator's account is missing, the first visitor to register its id gets it as an ordinary
   account, and from then on, over all requests and restarts, nobody has the administrator's role.
   */
  lemma VisitorTakesAdmin(p: Primitives, h: Handlers, boot: Attempts, before: seq<Event>, r: Request, env: Env,
                          username: string, password: string, more: seq<Event>)
    requires ADMIN_ID !in Exec(p, h, Boot(boot), before).users
    requires EndpointOf(r) == RegisterUser && LibrariesWork(env) && Value(r.json, "id") == Some(ADMIN_ID)
    requires Value(r.json, "username") == Some(username) && Value(r.json, "password") == Some(password)
    requires username != "" && password != ""
    ensures var users := Exec(p, h, Boot(boot), before + [Handle(r, env)] + more).users;
            ADMIN_ID in users && users[ADMIN_ID].role == "user" && NobodyRules(users) && !AdminOk(users)
  {
    BootSane(boot);
    RunSane(p, h, Boot(boot), before);
    var s0 := Exec(p, h, Boot(boot), before);
    Registers(p, h, s0, r, env, ADMIN_ID, username, password);
    var s1 := After(p, h, s0, Handle(r, env));
    SaneStep(p, h, s0, Handle(r, env));
    RunSane(p, h, s1, more);
    hide Dispatch, EndpointOf, Value, TokensOk;
    ExecAppend(p, h, Boot(boot), before, [Handle(r, env)]);
    assert [Handle(r, env)][1..] == [];
    ExecAppend(p, h, Boot(boot), before + [Handle(r, env)], more);
  }

  // ---------- Eviction ----------

  predicate Evicted(s: Server, id: string) {
    id in s.users && !s.users[id].active && forall t <- s.tokens :: s.tokens[t] != id
  }

  /** The request evicts `id`: an administrator's session, an existing target, and a statement that ran. */
  predicate EvictsUser(p: Primitives, h: Handlers, s: Server, r: Request, env: Env, id: string) {
    && EndpointOf(r) == EvictUser && Value(r.json, "id") == Some(id) && id in s.users
    && Dispatch(p, h, s, r, env).replies == [Json200(r, Message("Success"))]
  }

  /** Exactly the tokens of the evicted user go. */
  lemma EvictionTakesEffect(p: Primitives, h: Handlers, s: Server, r: Request, env: Env, id: string)
    requires EvictsUser(p, h, s, r, env, id)
    ensures var s' := Dispatch(p, h, s, r, env).server;
            && Evicted(s', id) && id != ADMIN_ID
            && (forall t :: t in s'.tokens <==> t in s.tokens && s.tokens[t] != id)
            && (forall t <- s'.tokens :: s'.tokens[t] == s.tokens[t])
            && (forall u <- s.users :: u in s'.users && (u != id ==> s'.users[u] == s.users[u]))
  {
    RoutesAreGuarded(r);
    hide EndpointOf, IsStatic, IsAdminArea, IsApi, MimeOf, GetSessionToken, Value;
  }

  /** A request adds at most the token of a login, and that of an active user. */
  lemma TokensOnlyFromLogin(p: Primitives, h: Handlers, s: Server, r: Request, env: Env)
    ensures var tokens := Dispatch(p, h, s, r, env).server.tokens;
            forall t <- tokens :: (t in s.tokens && tokens[t] == s.tokens[t]) || (tokens[t] in s.users && s.users[tokens[t]].active)
  {
    DispatchEffect(p, h, s, r, env);
    hide Dispatch, EndpointOf, GetSessionToken, Value, CallerId, Register, Approve, UpdateProfile, Evict, SaveRtsp, ClearRtsp;
  }

  lemma EvictedStep(p: Primitives, h: Handlers, s: Server, e: Event, id: string)
    requires Sane(s) && Evicted(s, id)
    ensures Evicted(After(p, h, s, e), id)
  {
    UsersStep(p, h, s, e);
    match e
    case Restart(_) =>
    case Handle(r, env) =>
      TokensOnlyFromLogin(p, h, s, r, env);
      hide Dispatch, RolesOk, AdminOk;
  }

  lemma {:induction false} EvictedForever(p: Primitives, h: Handlers, s: Server, es: seq<Event>, id: string)
    requires Sane(s) && Evicted(s, id)
    ensures Evicted(Exec(p, h, s, es), id)
    decreases |es|
  {
    if es != [] {
      EvictedStep(p, h, s, es[0], id);
      SaneStep(p, h, s, es[0]);
      EvictedForever(p, h, After(p, h, s, es[0]), es[1..], id);
    }
  }

  /** Neither login nor registration succeeds for the id of an evicted user. */
  lemma EvictedIsShutOut(p: Primitives, h: Handlers, s: Server, r: Request, env: Env, id: string)
    requires Evicted(s, id) && EndpointOf(r) in {Login, RegisterUser}
    requires Value(r.json, "id") == Some(id)
    ensures var d := Dispatch(p, h, s, r, env);
            d.server == s && |d.replies| == 1 && d.replies[0].status in {400, 401, 500}
  {
    assert !Unprintable(r);
    EvictedRefused(p, s, r, env, id);
    RoutesAreGuarded(r);
    hide EndpointOf, IsStatic, IsApi, MimeOf, Value, Evicted, Unprintable, DoLogin, DoRegister, DispatchAuthenticated;
  }

  lemma EvictedRefused(p: Primitives, s: Server, r: Request, env: Env, id: string)
    requires Evicted(s, id) && Value(r.json, "id") == Some(id) && !Unprintable(r)
    ensures DoLogin(p, s, r, env).server == s && DoLogin(p, s, r, env).replies[0].status in {401, 500}
    ensures DoRegister(s, r, env).server == s && DoRegister(s, r, env).replies[0].status in {400, 500}
  {
    hide Value, GetSessionToken;
  }

  lemma EvictedAfter(p: Primitives, h: Handlers, boot: Attempts, before: seq<Event>, r: Request, env: Env, id: string, more: seq<Event>)
    requires EvictsUser(p, h, Exec(p, h, Boot(boot), before), r, env, id)
    ensures Evicted(Exec(p, h, Boot(boot), before + [Handle(r, env)] + more), id)
  {
    BootSane(boot);
    RunSane(p, h, Boot(boot), before);
    var s0 := Exec(p, h, Boot(boot), before);
    EvictionTakesEffect(p, h, s0, r, env, id);
    SaneStep(p, h, s0, Handle(r, env));
    hide EvictsUser, Evicted, Dispatch, Sane;
    var s1 := After(p, h, s0, Handle(r, env));
    EvictedForever(p, h, s1, more, id);
    ExecAppend(p, h, Boot(boot), before, [Handle(r, env)]);
    assert Exec(p, h, s0, [Handle(r, env)]) == s1 by {
      assert [Handle(r, env)][1..] == [];
    }
    ExecAppend(p, h, Boot(boot), before + [Handle(r, env)], more);
  }

  /**
   Once an existing user is successfully evicted, in every continuation (approvals, profile updates and
   restarts included) the row stays inactive, no token names the user, and login and registration fail.
   */
  lemma {:induction false} EvictionIsPermanent(p: Primitives, h: Handlers, boot: Attempts, before: seq<Event>, r: Request, env: Env,
                            id: string, more: seq<Event>, r': Request, env': Env)
    requires EvictsUser(p, h, Exec(p, h, Boot(boot), before), r, env, id)
    ensures var s := Exec(p, h, Boot(boot), before + [Handle(r, env)] + more);
            && Evicted(s, id)
            && CallerId(s.tokens, r'.cookies) != id
            && (EndpointOf(r') in {Login, RegisterUser} && Value(r'.json, "id") == Some(id) ==>
                  var d := Dispatch(p, h, s, r', env');
                  d.server == s && |d.replies| == 1 && d.replies[0].status != 200)
  {
    hide EvictsUser, Dispatch, Exec;
    EvictedAfter(p, h, boot, before, r, env, id, more);
    var s := Exec(p, h, Boot(boot), before + [Handle(r, env)] + more);
    NoCaller(p, h, boot, before + [Handle(r, env)] + more, id);
    if EndpointOf(r') in {Login, RegisterUser} && Value(r'.json, "id") == Some(id) {
      EvictedIsShutOut(p, h, s, r', env', id);
    }
    hide GetSessionToken, EndpointOf, Value;
  }

  /** An evicted user is nobody's caller. */
  lemma NoCaller(p: Primitives, h: Handlers, boot: Attempts, es: seq<Event>, id: string)
    requires Evicted(Exec(p, h, Boot(boot), es), id)
    ensures forall cookies :: CallerId(Exec(p, h, Boot(boot), es).tokens, cookies) != id
  {
    BootSane(boot);
    RunSane(p, h, Boot(boot), es);
    hide Exec, Boot, GetSessionToken;
  }

  // ---------- Who may change what ----------

  predicate SameStanding(before: Users, after: Users) {
    forall id <- before :: id in after && after[id].approved == before[id].approved && after[id].active == before[id].active
  }

  predicate SameProfile(before: Users, after: Users, except: string) {
    forall id <- before :: id in after && (id != except ==>
      after[id].username == before[id].username && after[id].password == before[id].password)
  }

  lemma EffectFrame(endpoint: Endpoint, p: Primitives, s: Server, s': Server, r: Request, env: Env)
    requires RolesOk(s.users) && EffectOf(endpoint, p, s, s', r, env)
    requires s' != s && IsAdminEndpoint(endpoint) ==> CallerIsAdmin(s, r)
    ensures var caller := CallerId(s.tokens, r.cookies);
            && (caller != ADMIN_ID ==> SameStanding(s.users, s'.users) && s'.latest == s.latest && s'.stream == s.stream)
            && SameProfile(s.users, s'.users, caller)
  {
    hide CallerId, GetSessionToken, Value;
  }

  lemma EffectsOfStep(p: Primitives, h: Handlers, s: Server, r: Request, env: Env)
    requires Sane(s)
    ensures var caller, s' := CallerId(s.tokens, r.cookies), Dispatch(p, h, s, r, env).server;
            && (caller != ADMIN_ID ==> SameStanding(s.users, s'.users) && s'.latest == s.latest && s'.stream == s.stream)
            && SameProfile(s.users, s'.users, caller)
  {
    DispatchEffect(p, h, s, r, env);
    hide Dispatch, EndpointOf, EffectOf, CallerIsAdmin, RolesOk, SameStanding, SameProfile, CallerId;
    EffectFrame(EndpointOf(r), p, s, Dispatch(p, h, s, r, env).server, r, env);
  }

  /**
   In every reachable state: approval, activity, the RTSP configuration and the relayer change only for
   a session of the administrator, and a username or password only for the session's own id.
   */
  lemma {:induction false} EffectsFrame(p: Primitives, h: Handlers, boot: Attempts, es: seq<Event>, r: Request, env: Env)
    ensures var s := Exec(p, h, Boot(boot), es);
            var caller, s' := CallerId(s.tokens, r.cookies), Dispatch(p, h, s, r, env).server;
            && (caller != ADMIN_ID ==> SameStanding(s.users, s'.users) && s'.latest == s.latest && s'.stream == s.stream)
            && SameProfile(s.users, s'.users, caller)
  {
    BootSane(boot);
    RunSane(p, h, Boot(boot), es);
    EffectsOfStep(p, h, Exec(p, h, Boot(boot), es), r, env);
  }

  /** The token a successful login issues names the user; nothing else ever adds a token. */
  lemma TokensComeFromLogin(p: Primitives, h: Handlers, s: Server, r: Request, env: Env, t: string)
    requires var s' := Dispatch(p, h, s, r, env).server;
             t in s'.tokens && (t !in s.tokens || s'.tokens[t] != s.tokens[t])
    ensures t == env.token && EndpointOf(r) == Login
    ensures Value(r.json, "id").Some? && Value(r.json, "password").Some?
    ensures var id, password := Value(r.json, "id").value, Value(r.json, "password").value;
            && Dispatch(p, h, s, r, env).server.tokens == s.tokens[t := id]
            && id in s.users && s.users[id].approved && s.users[id].active
            && p.pbkdf2(password, id) == p.pbkdf2(s.users[id].password, id)
            && Dispatch(p, h, s, r, env).replies == [Json200(r, Message("Success"), Session(t))]
  {
    DispatchEffect(p, h, s, r, env);
    assert EndpointOf(r) == Login by {
      hide Dispatch, EndpointOf, GetSessionToken, Value;
    }
    RoutesAreGuarded(r);
    hide EndpointOf, IsStatic, MimeOf, GetSessionToken, Value;
  }

  /** Login with the password last set succeeds for an admitted user whenever the libraries work. */
  lemma LoginAccepts(p: Primitives, h: Handlers, s: Server, r: Request, env: Env, id: string)
    requires EndpointOf(r) == Login && Value(r.json, "id") == Some(id) && Admitted(s.users, id)
    requires Value(r.json, "password") == Some(s.users[id].password)
    requires env.lookup.digest && env.lookup.first.Works() && env.lookup.seal && env.op.digest
    ensures Dispatch(p, h, s, r, env)
         == Step(s.(tokens := s.tokens[env.token := id]), [Json200(r, Message("Success"), Session(env.token))])
  {
    RoutesAreGuarded(r);
    hide EndpointOf, IsStatic, IsAdminArea, IsApi, MimeOf, GetSessionToken, Value;
  }

  /** The cookie of a login authenticates the user on the next request, whatever else the header holds. */
  lemma LoginThenCaller(p: Primitives, h: Handlers, s: Server, r: Request, env: Env, id: string, before: string, after: string)
    requires EndpointOf(r) == Login && Value(r.json, "id") == Some(id) && IsToken(env.token)
    requires Dispatch(p, h, s, r, env).replies == [Json200(r, Message("Success"), Session(env.token))]
    requires !Contains(before, KEY) && EndsToken(after)
    ensures CallerId(Dispatch(p, h, s, r, env).server.tokens, before + KEY + env.token + after) == id
  {
    LoginTokenReturns(env.token, before, after);
    LoginIssues(p, h, s, r, env, id);
    hide Dispatch, GetSessionToken;
  }

  lemma LoginIssues(p: Primitives, h: Handlers, s: Server, r: Request, env: Env, id: string)
    requires EndpointOf(r) == Login && Value(r.json, "id") == Some(id)
    requires Dispatch(p, h, s, r, env).replies == [Json200(r, Message("Success"), Session(env.token))]
    ensures Dispatch(p, h, s, r, env).server.tokens == s.tokens[env.token := id]
  {
    RoutesAreGuarded(r);
    hide EndpointOf, IsStatic, MimeOf, GetSessionToken, Value;
  }

  /** The session that a login opened ends with the logout that carries its cookie, and nothing else changes. */
  lemma LogoutUndoesLogin(p: Primitives, h: Handlers, s: Server, login: Request, env: Env, logout: Request, env': Env, id: string)
    requires EndpointOf(login) == Login && Value(login.json, "id") == Some(id) && id != "" && IsToken(env.token)
    requires Dispatch(p, h, s, login, env).replies == [Json200(login, Message("Success"), Session(env.token))]
    requires EndpointOf(logout) == Logout && GetSessionToken(logout.cookies) == env.token && !LookupThrows(env'.lookup)
    ensures var s1 := Dispatch(p, h, s, login, env).server;
            var d := Dispatch(p, h, s1, logout, env');
            && CallerId(s1.tokens, logout.cookies) == id
            && d.server == s.(tokens := s.tokens - {env.token})
            && CallerId(d.server.tokens, logout.cookies) == ""
            && d.replies == [Json200(logout, Message("Success"), Expired)]
  {
    LoginIssues(p, h, s, login, env, id);
    LoginChangesTokensOnly(p, h, s, login, env);
    var s1 := Dispatch(p, h, s, login, env).server;
    assert s1 == s.(tokens := s.tokens[env.token := id]);
    LogoutEnds(p, h, s1, logout, env');
    hide Dispatch, GetSessionToken;
    assert s1.tokens - {env.token} == s.tokens - {env.token};
  }

  lemma LoginChangesTokensOnly(p: Primitives, h: Handlers, s: Server, r: Request, env: Env)
    requires EndpointOf(r) == Login
    ensures Dispatch(p, h, s, r, env).server == s.(tokens := Dispatch(p, h, s, r, env).server.tokens)
  {
    DispatchEffect(p, h, s, r, env);
    hide Dispatch, EndpointOf, Value;
  }

  lemma LogoutEnds(p: Primitives, h: Handlers, s: Server, r: Request, env: Env)
    requires EndpointOf(r) == Logout && CallerId(s.tokens, r.cookies) != "" && !LookupThrows(env.lookup)
    ensures Dispatch(p, h, s, r, env)
         == Step(s.(tokens := s.tokens - {GetSessionToken(r.cookies)}), [Json200(r, Message("Success"), Expired)])
  {
    RoutesAreGuarded(r);
    hide EndpointOf, IsStatic, IsAdminArea, IsApi, MimeOf, GetSessionToken;
  }

  // ---------- Approval ----------

  /** An administrator's session asks to approve `id`. */
  predicate ApprovesUser(s: Server, e: Event, id: string) {
    && e.Handle? && EndpointOf(e.r) == ApproveUser && Value(e.r.json, "id") == Some(id)
    && CallerId(s.tokens, e.r.cookies) == ADMIN_ID
  }

  predicate Approved(users: Users, id: string) {
    id in users && users[id].approved
  }

  lemma ApprovalEffect(endpoint: Endpoint, p: Primitives, s: Server, s': Server, r: Request, env: Env, id: string)
    requires Sane(s) && EffectOf(endpoint, p, s, s', r, env)
    requires s' != s && IsAdminEndpoint(endpoint) ==> CallerIsAdmin(s, r)
    requires !Approved(s.users, id) && Approved(s'.users, id)
    ensures endpoint == ApproveUser && Value(r.json, "id") == Some(id) && CallerId(s.tokens, r.cookies) == ADMIN_ID
  {
    hide GetSessionToken, CallerId, Value;
  }

  lemma ApprovalStep(p: Primitives, h: Handlers, s: Server, e: Event, id: string)
    requires Sane(s) && id != ADMIN_ID && !Approved(s.users, id) && Approved(After(p, h, s, e).users, id)
    ensures ApprovesUser(s, e, id)
  {
    if e.Handle? {
      DispatchEffect(p, h, s, e.r, e.env);
      hide Dispatch, EndpointOf, EffectOf, CallerId, Value, CallerIsAdmin, Sane;
      ApprovalEffect(EndpointOf(e.r), p, s, After(p, h, s, e), e.r, e.env, id);
    }
  }

  /**
   In every reachable state an approved account other than the administrator's was approved by a request
   of the administrator's session: nobody gets in without it.
   */
  lemma {:induction false} ApprovalComesFromAdmin(p: Primitives, h: Handlers, boot: Attempts, es: seq<Event>, id: string) returns (i: nat)
    requires id != ADMIN_ID && Approved(Exec(p, h, Boot(boot), es).users, id)
    ensures i < |es| && ApprovesUser(Exec(p, h, Boot(boot), es[..i]), es[i], id)
    decreases |es|
  {
    var s0 := Boot(boot);
    i := 0;
    if es == [] {
      assert false;
    } else {
      var init, e := es[..|es| - 1], es[|es| - 1];
      var s := Exec(p, h, s0, init);
      assert es == init + [e];
      ExecAppend(p, h, s0, init, [e]);
      assert [e][1..] == [];
      assert Exec(p, h, s0, es) == After(p, h, s, e);
      if Approved(s.users, id) {
        i := ApprovalComesFromAdmin(p, h, boot, init, id);
        assert es[..i] == init[..i];
      } else {
        BootSane(boot);
        RunSane(p, h, s0, init);
        ApprovalStep(p, h, s, e, id);
        i := |es| - 1;
      }
    }
  }

  predicate LibrariesWork(env: Env) {
    env.lookup.digest && env.lookup.first.Works() && env.lookup.seal
    && env.op.digest && env.op.first.Works() && env.op.seal && env.op.second.Works()
  }

  /** The account of a successful registration: an ordinary one, active and waiting for approval. */
  lemma Registers(p: Primitives, h: Handlers, s: Server, r: Request, env: Env, id: string, username: string, password: string)
    requires EndpointOf(r) == RegisterUser && LibrariesWork(env) && id !in s.users
    requires Value(r.json, "id") == Some(id) && Value(r.json, "username") == Some(username)
    requires Value(r.json, "password") == Some(password) && id != "" && username != "" && password != ""
    ensures Dispatch(p, h, s, r, env).server == s.(users := s.users[id := Account(username, password, "user", false, true)])
  {
    RoutesAreGuarded(r);
    hide EndpointOf, IsStatic, MimeOf, Value;
  }

  lemma Approves(p: Primitives, h: Handlers, s: Server, r: Request, env: Env, id: string)
    requires EndpointOf(r) == ApproveUser && LibrariesWork(env) && Value(r.json, "id") == Some(id) && id in s.users
    requires CallerIsAdmin(s, r) && CallerId(s.tokens, r.cookies) != ""
    ensures Dispatch(p, h, s, r, env).server == s.(users := s.users[id := s.users[id].(approved := true)])
  {
    RoutesAreGuarded(r);
    hide EndpointOf, IsStatic, IsAdminArea, IsApi, MimeOf, GetSessionToken, Value, CallerId;
  }

  /**
   The way in for a new user: register, be refused while unapproved, be approved by the administrator's
   session, and log in with the registered password.
   */
  lemma NewUserPath(p: Primitives, h: Handlers, s: Server, register: Request, approve: Request, login: Request, env: Env,
                    id: string, username: string, password: string)
    requires Sane(s) && LibrariesWork(env) && id !in s.users && id != "" && username != "" && password != ""
    requires EndpointOf(register) == RegisterUser && EndpointOf(approve) == ApproveUser && EndpointOf(login) == Login
    requires Value(register.json, "id") == Value(approve.json, "id") == Value(login.json, "id") == Some(id)
    requires Value(register.json, "username") == Some(username)
    requires Value(register.json, "password") == Value(login.json, "password") == Some(password)
    requires AdminOk(s.users) && CallerId(s.tokens, approve.cookies) == ADMIN_ID
    ensures var s1 := Dispatch(p, h, s, register, env).server;
            var early := Dispatch(p, h, s1, login, env);
            var s2 := Dispatch(p, h, s1, approve, env).server;
            var late := Dispatch(p, h, s2, login, env);
            && early == Step(s1, [Refuse(login, 401, "Account pending administrator approval")])
            && late.replies == [Json200(login, Message("Success"), Session(env.token))]
            && late.server.tokens == s.tokens[env.token := id]
  {
    Registers(p, h, s, register, env, id, username, password);
    var s1 := Dispatch(p, h, s, register, env).server;
    LoginPending(p, h, s1, login, env, id);
    Approves(p, h, s1, approve, env, id);
    var s2 := Dispatch(p, h, s1, approve, env).server;
    LoginAccepts(p, h, s2, login, env, id);
    hide Dispatch, EndpointOf, Value;
  }

  lemma LoginPending(p: Primitives, h: Handlers, s: Server, r: Request, env: Env, id: string)
    requires EndpointOf(r) == Login && Value(r.json, "id") == Some(id) && Value(r.json, "password").Some?
    requires LibrariesWork(env) && id in s.users && s.users[id].active && !s.users[id].approved
    ensures Dispatch(p, h, s, r, env) == Step(s, [Refuse(r, 401, "Account pending administrator approval")])
  {
    RoutesAreGuarded(r);
    hide EndpointOf, IsStatic, MimeOf, Value;
  }

  /** What the administrator saves is what the administrator reads back, also when clearing the old rows failed. */
  lemma SaveThenRead(p: Primitives, h: Handlers, s: Server, save: Request, env: Env, read: Request, env': Env)
    requires EndpointOf(save) == SaveRtspUrl && EndpointOf(read) == GetRtsp
    requires Dispatch(p, h, s, save, env).replies == [Json200(save, Message("Stream started successfully"))]
    requires CallerIsAdmin(s, read) && CallerId(s.tokens, read.cookies) != "" && LibrariesWork(env')
    ensures Value(save.json, "name").Some? && Value(save.json, "url").Some?
    ensures var saved := Rtsp(Value(save.json, "name").value, Value(save.json, "url").value);
            Dispatch(p, h, Dispatch(p, h, s, save, env).server, read, env').replies == [Json200(read, RtspList([saved]))]
  {
    Saves(p, h, s, save, env);
    Reads(p, h, Dispatch(p, h, s, save, env).server, read, env');
    hide Dispatch, EndpointOf, Value, CallerId;
  }

  lemma Saves(p: Primitives, h: Handlers, s: Server, r: Request, env: Env)
    requires EndpointOf(r) == SaveRtspUrl
    requires Dispatch(p, h, s, r, env).replies == [Json200(r, Message("Stream started successfully"))]
    ensures Value(r.json, "name").Some? && Value(r.json, "url").Some?
    ensures Dispatch(p, h, s, r, env).server
         == s.(latest := Some(Rtsp(Value(r.json, "name").value, Value(r.json, "url").value)), stream := Value(r.json, "url"))
  {
    RoutesAreGuarded(r);
    hide EndpointOf, IsStatic, IsAdminArea, IsApi, MimeOf, GetSessionToken, Value, CallerId, Lookup;
  }

  lemma Reads(p: Primitives, h: Handlers, s: Server, r: Request, env: Env)
    requires EndpointOf(r) == GetRtsp && LibrariesWork(env) && s.latest.Some?
    requires CallerIsAdmin(s, r) && CallerId(s.tokens, r.cookies) != ""
    ensures Dispatch(p, h, s, r, env) == Step(s, [Json200(r, RtspList([s.latest.value]))])
  {
    RoutesAreGuarded(r);
    hide EndpointOf, IsStatic, IsAdminArea, IsApi, MimeOf, GetSessionToken, CallerId;
  }

  // ---------- The stream follows the configuration ----------

  /** The URL of the last RTSP save that was answered with success. */
  function LastSaved(p: Primitives, h: Handlers, s: Server, es: seq<Event>, saved: Option<string>): Option<string>
    decreases |es|
  {
    if es == [] then saved
    else LastSaved(p, h, After(p, h, s, es[0]), es[1..], SavedBy(p, h, s, es[0], saved))
  }

  function SavedBy(p: Primitives, h: Handlers, s: Server, e: Event, saved: Option<string>): Option<string> {
    if e.Handle? && EndpointOf(e.r) == SaveRtspUrl
       && Dispatch(p, h, s, e.r, e.env).replies == [Json200(e.r, Message("Stream started successfully"))]
    then Value(e.r.json, "url") else saved
  }

  /** The relayer is started by an RTSP save exactly when the reply says so. */
  lemma SaveStep(p: Primitives, h: Handlers, s: Server, r: Request, env: Env)
    requires EndpointOf(r) == SaveRtspUrl
    ensures var d := Dispatch(p, h, s, r, env);
            d.server.stream == if d.replies == [Json200(r, Message("Stream started successfully"))]
                               then Value(r.json, "url") else s.stream
  {
    RoutesAreGuarded(r);
    hide EndpointOf, IsStatic, IsAdminArea, IsApi, MimeOf, GetSessionToken, Value, CallerId, Lookup, SaveRtsp, ClearRtsp;
  }

  lemma StreamStep(p: Primitives, h: Handlers, s: Server, e: Event, saved: Option<string>)
    requires s.stream.Some? ==> s.stream == saved
    ensures var s' := After(p, h, s, e);
            s'.stream.Some? ==> s'.stream == SavedBy(p, h, s, e, saved)
  {
    if e.Handle? {
      DispatchEffect(p, h, s, e.r, e.env);
      if EndpointOf(e.r) == SaveRtspUrl {
        SaveStep(p, h, s, e.r, e.env);
      }
      hide Dispatch, EndpointOf, Value;
    }
  }

  lemma {:induction false} StreamFollows(p: Primitives, h: Handlers, s: Server, es: seq<Event>, saved: Option<string>)
    requires s.stream.Some? ==> s.stream == saved
    ensures Exec(p, h, s, es).stream.Some? ==> Exec(p, h, s, es).stream == LastSaved(p, h, s, es, saved)
    decreases |es|
  {
    if es != [] {
      StreamStep(p, h, s, es[0], saved);
      hide After, SavedBy;
      StreamFollows(p, h, After(p, h, s, es[0]), es[1..], SavedBy(p, h, s, es[0], saved));
    }
  }

  /** In every reachable state a running relayer relays the URL of the last successful save. */
  lemma StreamIsLastSaved(p: Primitives, h: Handlers, boot: Attempts, es: seq<Event>)
    ensures var s := Exec(p, h, Boot(boot), es);
            s.stream.Some? ==> s.stream == LastSaved(p, h, Boot(boot), es, None)
  {
    StreamFollows(p, h, Boot(boot), es, None);
  }

  // ---------- One reply ----------

  predicate OneReply(h: Handlers, r: Request, replies: seq<Reply>) {
    |replies| == 1 && (replies[0].connId == r.connId || (r.url in h && replies == [h[r.url](r)]))
  }

  /**
   Every request, malformed JSON and failing libraries included, gets exactly one reply, carrying the request's
   connection id unless a registered handler made it, exactly if the request does not end the process; one that
   does changes nothing.
   */
  lemma ExactlyOneReply(p: Primitives, h: Handlers, s: Server, r: Request, env: Env)
    ensures OneReply(h, r, Dispatch(p, h, s, r, env).replies) <==> !Crashes(s, r, env)
    ensures Crashes(s, r, env) <==> Dispatch(p, h, s, r, env).replies == []
    ensures Crashes(s, r, env) ==> Dispatch(p, h, s, r, env).server == s
  {
    RoutesAreGuarded(r);
    hide EndpointOf, IsStatic, IsAdminArea, IsApi, MimeOf, GetSessionToken, DoRegister, DoLogin, DoLogout, DoMe,
         DoUpdateMe, DoListUsers, DoApprove, DoEvict, DoGetRtsp, DoSaveRtsp, DoStopRtsp;
  }

  /** Anyone can send such a request: a registration whose body breaks off in the middle of a character. */
  lemma RegistrationMayCrash(p: Primitives, h: Handlers, s: Server, connId: int, cookies: string, env: Env)
    ensures var r := Request(connId, "POST", "/api/register", Malformed(false), cookies);
            Crashes(s, r, env) && Dispatch(p, h, s, r, env) == Step(s, [])
  {
    var r := Request(connId, "POST", "/api/register", Malformed(false), cookies);
    ExactlyOneReply(p, h, s, r, env);
    hide Dispatch;
  }

  // ---------- What is printed ----------

  /** The parser accepts only UTF-8 in strings; `utf8` says which texts are that. */
  predicate BodyOk(utf8: string -> bool, r: Request) {
    r.json.Object? ==> forall f <- r.json.fields :: r.json.fields[f].Text? ==> utf8(r.json.fields[f].text)
  }

  predicate ConstantsOk(utf8: string -> bool) {
    utf8("") && utf8("user") && utf8("admin") && utf8("Administrator")
  }

  predicate TextsOk(utf8: string -> bool, s: Server) {
    && (forall id <- s.users :: utf8(id) && utf8(s.users[id].username))
    && (s.latest.Some? ==> utf8(s.latest.value.name) && utf8(s.latest.value.url))
  }

  /** Dumping the payload does not throw; the exception's message is the business of Crashes, files are not dumped. */
  predicate Prints(utf8: string -> bool, payload: Payload) {
    match payload
    case Profile(userId, username, role) => utf8(userId) && utf8(username) && utf8(role)
    case UserList(listed) => forall id <- listed :: utf8(id) && utf8(listed[id].username) && utf8(listed[id].role)
    case RtspList(configs) => forall c <- configs :: utf8(c.name) && utf8(c.url)
    case _ => true
  }

  lemma ValueOk(utf8: string -> bool, r: Request, name: string)
    requires BodyOk(utf8, r) && utf8("")
    ensures Value(r.json, name).Some? ==> utf8(Value(r.json, name).value)
  {
  }

  lemma TextsEffect(endpoint: Endpoint, p: Primitives, utf8: string -> bool, s: Server, s': Server, r: Request, env: Env)
    requires TextsOk(utf8, s) && EffectOf(endpoint, p, s, s', r, env)
    requires forall name :: Value(r.json, name).Some? ==> utf8(Value(r.json, name).value)
    ensures TextsOk(utf8, s')
  {
    hide GetSessionToken, CallerId, Value;
  }

  lemma TextsStep(p: Primitives, h: Handlers, utf8: string -> bool, s: Server, e: Event)
    requires ConstantsOk(utf8) && TextsOk(utf8, s) && (e.Handle? ==> BodyOk(utf8, e.r))
    ensures TextsOk(utf8, After(p, h, s, e))
  {
    if e.Handle? {
      DispatchEffect(p, h, s, e.r, e.env);
      forall name ensures Value(e.r.json, name).Some? ==> utf8(Value(e.r.json, name).value) {
        ValueOk(utf8, e.r, name);
      }
      hide Dispatch, EndpointOf, EffectOf, Value, BodyOk, TextsOk;
      TextsEffect(EndpointOf(e.r), p, utf8, s, After(p, h, s, e), e.r, e.env);
    }
  }

  predicate BodiesOk(utf8: string -> bool, es: seq<Event>) {
    forall e <- es :: e.Handle? ==> BodyOk(utf8, e.r)
  }

  lemma {:induction false} TextsRun(p: Primitives, h: Handlers, utf8: string -> bool, s: Server, es: seq<Event>)
    requires ConstantsOk(utf8) && TextsOk(utf8, s) && BodiesOk(utf8, es)
    ensures TextsOk(utf8, Exec(p, h, s, es))
    decreases |es|
  {
    if es != [] {
      TextsStep(p, h, utf8, s, es[0]);
      hide After, BodyOk;
      TextsRun(p, h, utf8, After(p, h, s, es[0]), es[1..]);
    }
  }

  predicate AllPrint(utf8: string -> bool, replies: seq<Reply>) {
    forall reply <- replies :: reply.Reply? && Prints(utf8, reply.payload)
  }

  /** Constant texts, files and the catch clause's message: nothing of what the server stores. */
  predicate Terse(replies: seq<Reply>) {
    forall reply <- replies :: reply.Reply? && (reply.payload.Message? || reply.payload.Error? || reply.payload.ErrorOfException?
                                                || reply.payload.StaticFile?)
  }

  lemma TersePrints(utf8: string -> bool)
    ensures forall replies :: Terse(replies) ==> AllPrint(utf8, replies)
  {
  }

  lemma PlainRepliesAreTerse(s: Server, r: Request)
    ensures forall status, text :: Terse(Same(s, Refuse(r, status, text)).replies)
    ensures Terse(Same(s, Caught(r)).replies)
    ensures forall status, reason, mime, content, cookie ::
              Terse(Same(s, Reply(r.connId, status, reason, mime, StaticFile(content), cookie)).replies)
  {
  }

  lemma RegisterIsTerse(s: Server, r: Request, env: Env)
    ensures Terse(DoRegister(s, r, env).replies)
  {
    hide Value, Register, RegisterOutcome, ReasonOf;
  }

  lemma LoginIsTerse(p: Primitives, s: Server, r: Request, env: Env)
    ensures Terse(DoLogin(p, s, r, env).replies) && Terse(DoLogout(s, r).replies)
  {
    hide Value, GetSessionToken, Lookup, ReasonOf;
  }

  lemma UpdateIsTerse(s: Server, r: Request, env: Env, caller: string)
    ensures Terse(DoUpdateMe(s, r, caller, env).replies)
  {
    hide Value, UpdateProfile, ProfileOutcome, ReasonOf;
  }

  lemma AdminRepliesAreTerse(s: Server, r: Request, env: Env)
    ensures Terse(DoApprove(s, r, env).replies) && Terse(DoEvict(s, r, env).replies)
    ensures Terse(DoStopRtsp(s, r).replies)
  {
    hide Value, Approve, Evict, UpdateOutcome, ReasonOf;
  }

  lemma SaveIsTerse(s: Server, r: Request, env: Env)
    ensures Terse(DoSaveRtsp(s, r, env).replies)
  {
    hide Value, SaveRtsp, ClearRtsp, SaveOutcome, ReasonOf;
  }

  /** All endpoints but three reply with constant texts. */
  lemma OthersAreTerse(p: Primitives, h: Handlers, s: Server, r: Request, env: Env)
    requires EndpointOf(r) !in {Me, ListUsers, GetRtsp} && r.url !in h
    ensures Terse(Dispatch(p, h, s, r, env).replies)
  {
    hide EndpointOf, IsStatic, MimeOf, ReasonOf, Terse, Same, DispatchAuthenticated, DoRegister, DoLogin;
    RegisterIsTerse(s, r, env);
    LoginIsTerse(p, s, r, env);
    PlainRepliesAreTerse(s, r);
    AuthenticatedAreTerse(p, h, s, r, env);
  }

  lemma AuthenticatedAreTerse(p: Primitives, h: Handlers, s: Server, r: Request, env: Env)
    requires EndpointOf(r) !in {Me, ListUsers, GetRtsp} && r.url !in h
    ensures Terse(DispatchAuthenticated(p, h, s, r, env).replies)
  {
    hide EndpointOf, IsStatic, IsAdminArea, IsApi, MimeOf, CallerId, ReasonOf, Lookup, HalfFilled, DoLogout, DoMe, DoUpdateMe,
         DoListUsers, DoApprove, DoEvict, DoGetRtsp, DoSaveRtsp, DoStopRtsp, Terse, Refuse, Caught, Same;
    LoginIsTerse(p, s, r, env);
    UpdateIsTerse(s, r, env, CallerId(s.tokens, r.cookies));
    AdminRepliesAreTerse(s, r, env);
    SaveIsTerse(s, r, env);
    PlainRepliesAreTerse(s, r);
  }

  lemma DataRepliesPrint(p: Primitives, utf8: string -> bool, s: Server, r: Request, env: Env)
    requires ConstantsOk(utf8) && TextsOk(utf8, s) && RolesOk(s.users)
    ensures var caller := CallerId(s.tokens, r.cookies);
            AllPrint(utf8, DoMe(s, r, caller, Lookup(s.users, caller, env.lookup), HalfFilled(s.users, caller, env.lookup)).replies)
    ensures AllPrint(utf8, DoListUsers(p, s, r, env).replies)
    ensures AllPrint(utf8, DoGetRtsp(s, r, env).replies)
  {
    hide CallerId, ReasonOf;
  }

  lemma AuthenticatedRepliesPrint(p: Primitives, h: Handlers, utf8: string -> bool, s: Server, r: Request, env: Env)
    requires ConstantsOk(utf8) && TextsOk(utf8, s) && RolesOk(s.users) && r.url !in h
    requires EndpointOf(r) in {Me, ListUsers, GetRtsp}
    ensures AllPrint(utf8, DispatchAuthenticated(p, h, s, r, env).replies)
  {
    hide EndpointOf, IsAdminArea, IsApi, CallerId, ReasonOf, Lookup, HalfFilled, RolesOk, TextsOk, DoMe, DoListUsers, DoGetRtsp,
         AllPrint, Terse, Refuse, Caught, Same;
    DataRepliesPrint(p, utf8, s, r, env);
    PlainRepliesAreTerse(s, r);
    TersePrints(utf8);
  }

  lemma RepliesPrint(p: Primitives, h: Handlers, utf8: string -> bool, s: Server, r: Request, env: Env)
    requires ConstantsOk(utf8) && TextsOk(utf8, s) && RolesOk(s.users) && r.url !in h
    ensures AllPrint(utf8, Dispatch(p, h, s, r, env).replies)
  {
    hide EndpointOf, IsStatic, MimeOf, ReasonOf, RolesOk, TextsOk, AllPrint, Terse, Same, DispatchAuthenticated;
    TersePrints(utf8);
    PlainRepliesAreTerse(s, r);
    if EndpointOf(r) in {Me, ListUsers, GetRtsp} {
      AuthenticatedRepliesPrint(p, h, utf8, s, r, env);
    } else {
      OthersAreTerse(p, h, s, r, env);
    }
  }

  /** In every reachable state no reply of dispatch's own fails to print: no other dump than the catch clause's throws. */
  lemma EveryReplyPrints(p: Primitives, h: Handlers, utf8: string -> bool, boot: Attempts, es: seq<Event>, r: Request, env: Env)
    requires ConstantsOk(utf8) && BodiesOk(utf8, es) && r.url !in h
    ensures AllPrint(utf8, Dispatch(p, h, Exec(p, h, Boot(boot), es), r, env).replies)
  {
    BootSane(boot);
    RunSane(p, h, Boot(boot), es);
    TextsRun(p, h, utf8, Boot(boot), es);
    hide Exec, Boot, Dispatch, TextsOk, AllPrint;
    RepliesPrint(p, h, utf8, Exec(p, h, Boot(boot), es), r, env);
  }

  // ---------- Who may read ----------

  /** Accounts and configuration go to the administrator only, a profile to its owner only. */
  predicate MayRead(caller: string, reply: Reply) {
    && reply.Reply?
    && (reply.payload.UserList? || reply.payload.RtspList? ==> caller == ADMIN_ID)
    && (reply.payload.Profile? ==> reply.payload == Profile("", "", "") || (caller != "" && reply.payload.userId == caller))
  }

  lemma WhoReads(p: Primitives, h: Handlers, s: Server, r: Request, env: Env)
    requires RolesOk(s.users) && r.url !in h
    ensures forall reply <- Dispatch(p, h, s, r, env).replies :: MayRead(CallerId(s.tokens, r.cookies), reply)
  {
    hide Dispatch, EndpointOf, CallerId, IsStatic, IsApi, IsAdminArea, StartsWith;
    if EndpointOf(r) !in {Me, ListUsers, GetRtsp} {
      OthersAreTerse(p, h, s, r, env);
    } else {
      RoutesAreGuarded(r);
      ReaderIsKnown(p, h, s, r, env);
    }
  }

  lemma ReaderIsKnown(p: Primitives, h: Handlers, s: Server, r: Request, env: Env)
    requires RolesOk(s.users) && EndpointOf(r) in {Me, ListUsers, GetRtsp}
    ensures forall reply <- Dispatch(p, h, s, r, env).replies :: MayRead(CallerId(s.tokens, r.cookies), reply)
  {
    RoutesAreGuarded(r);
    assert StartsWith(r.url, "/api/");
    hide Dispatch, EndpointOf, CallerId, IsStatic, IsApi, IsAdminArea, StartsWith;
    var id := CallerId(s.tokens, r.cookies);
    if id == "" {
      SessionRequired(p, h, s, r, env);
    } else if !env.lookup.digest {
      LookupFails(p, h, s, r, env);
    } else if EndpointOf(r) == Me {
      if CallerIs(s, r, env, id) {
        ProfileShown(p, h, s, r, env, id);
      } else {
        ProfileHidden(p, h, s, r, env, id);
      }
    } else if !CallerIsAdminNow(s, r, env) {
      RoleRequired(p, h, s, r, env);
    } else if EndpointOf(r) == ListUsers {
      UsersListed(p, h, s, r, env);
    } else {
      ConfigShown(p, h, s, r, env);
    }
  }

  /**
   In every reachable state the list of accounts and the RTSP configuration go only to a session of the
   administrator, and a profile only to a session of its owner.
   */
  lemma OnlyAdminReads(p: Primitives, h: Handlers, boot: Attempts, es: seq<Event>, r: Request, env: Env)
    requires r.url !in h
    ensures var s := Exec(p, h, Boot(boot), es);
            forall reply <- Dispatch(p, h, s, r, env).replies :: MayRead(CallerId(s.tokens, r.cookies), reply)
  {
    BootSane(boot);
    RunSane(p, h, Boot(boot), es);
    hide Exec, Boot, Dispatch, MayRead, CallerId;
    WhoReads(p, h, Exec(p, h, Boot(boot), es), r, env);
  }

  // ---------- Starts ----------

  /** When an attempt to start throws: for its digest, or for an encryption it needs because it finds no administrator. */
  lemma AttemptThrowsIff(users: Users, call: Call)
    ensures !call.digest ==> BootstrapThrows(users, call)
    ensures call.digest && !call.first.prepared ==> !BootstrapThrows(users, call)
    ensures call.digest && call.first.prepared && call.first.stepped && ADMIN_ID in users ==> !BootstrapThrows(users, call)
    ensures call.digest && call.first.prepared && ADMIN_ID !in users ==> (BootstrapThrows(users, call) <==> !call.seal)
    ensures BootstrapThrows(users, call) ==> Bootstrap(users, call) == users
  {
  }

  /** A start fails only if both its attempts throw; otherwise the first that does not throw decides. */
  lemma StartTriesTwice(users: Users, a: Attempts)
    ensures StartupFails(users, a) <==> BootstrapThrows(users, a.first) && BootstrapThrows(users, a.second)
    ensures StartupFails(users, a) ==> Startup(users, a) == users
    ensures !BootstrapThrows(users, a.first) ==> Startup(users, a) == Bootstrap(users, a.first)
    ensures BootstrapThrows(users, a.first) ==> Startup(users, a) == Bootstrap(users, a.second)
  {
  }

  /** After a start whose insert ran, the administrator logs in with the password `admin` and has the role. */
  lemma AdminLogsIn(p: Primitives, h: Handlers, boot: Attempts, r: Request, env: Env, r': Request)
    requires BootstrapRuns(Deciding(map[], boot)) && EndpointOf(r) == Login
    requires Value(r.json, "id") == Some("admin") && Value(r.json, "password") == Some("admin")
    requires ReadWorks(env.lookup) && env.op.digest && IsToken(env.token) && GetSessionToken(r'.cookies) == env.token
    ensures var d := Dispatch(p, h, Boot(boot), r, env);
            && Gets(d, r, 200, "OK", Message("Success"), Session(env.token))
            && CallerId(d.server.tokens, r'.cookies) == "admin"
            && d.server.users["admin"] == Account("Administrator", "admin", "admin", true, true)
  {
    var s := Boot(boot);
    LoginIff(p, h, s, r, env, "admin", "admin");
    hide Dispatch, GetSessionToken, EndpointOf, Value;
  }

  /** A restart ends every session and the stream, and keeps every account and the configuration. */
  lemma RestartKeepsTables(p: Primitives, h: Handlers, s: Server, a: Attempts, cookies: string)
    ensures var s' := After(p, h, s, Restart(a));
            && CallerId(s'.tokens, cookies) == "" && s'.tokens == map[] && s'.stream == None && s'.latest == s.latest
            && (forall id <- s.users :: id in s'.users && s'.users[id] == s.users[id])
            && (forall id <- s'.users :: id in s.users || id == ADMIN_ID)
  {
    hide GetSessionToken;
  }

  /** A registered handler answers its URL outside the API and the static files unless the caller's lookup throws. */
  lemma HandlerAnswers(p: Primitives, h: Handlers, s: Server, r: Request, env: Env)
    requires r.url in h && !StartsWith(r.url, "/api") && !IsStatic(r.url) && !LookupThrows(env.lookup)
    ensures Dispatch(p, h, s, r, env) == Step(s, [h[r.url](r)])
  {
    RoutesAreGuarded(r);
    ApiAreas(r.url);
    hide EndpointOf, IsStatic, IsAdminArea, IsApi, MimeOf, GetSessionToken, Value;
  }

  lemma ApiAreas(url: string)
    ensures IsAdminArea(url) || IsApi(url) ==> StartsWith(url, "/api")
  {
    assert "/api/users"[..4] == "/api/rtsp"[..4] == "/api/"[..4] == "/api";
  }
}
