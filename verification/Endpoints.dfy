/**
 What each endpoint promises, in terms of the request, the accounts before and after, and the reply: who is
 refused and how, when exactly the answer is a success, and what has then changed.
 */
module Endpoints {
  import opened Basics
  import opened Text
  import opened Accounts
  import opened Cookies
  import opened Database
  import opened Requests

  /** The one reply: to the request's connection, as JSON. */
  predicate Gets(d: Step, r: Request, status: int, reason: string, payload: Payload, cookie: Cookie) {
    d.replies == [Reply(r.connId, status, reason, "application/json", payload, cookie)]
  }

  predicate Refused(d: Step, s: Server, r: Request, status: int, reason: string, text: string) {
    d.server == s && Gets(d, r, status, reason, Error(text), NoCookie)
  }

  predicate Succeeds(d: Step, r: Request, text: string) {
    Gets(d, r, 200, "OK", Message(text), NoCookie)
  }

  // ---------- Routes ----------

  /** Which request reaches which endpoint. */
  lemma RouteTable(r: Request)
    ensures EndpointOf(r) == RegisterUser <==> r.url == "/api/register" && r.verb == "POST"
    ensures EndpointOf(r) == Login <==> r.url == "/api/login" && r.verb == "POST"
    ensures EndpointOf(r) == Logout <==> r.url == "/api/logout" && r.verb == "POST"
    ensures EndpointOf(r) == Me <==> r.url == "/api/user/me" && r.verb == "GET"
    ensures EndpointOf(r) == UpdateMe <==> r.url == "/api/user/update" && r.verb == "POST"
    ensures EndpointOf(r) == ListUsers <==> r.url == "/api/users" && r.verb == "GET"
    ensures EndpointOf(r) == ApproveUser <==> r.url == "/api/users/approve" && r.verb == "POST"
    ensures EndpointOf(r) == EvictUser <==> r.url == "/api/users/evict" && r.verb == "POST"
    ensures EndpointOf(r) == GetRtsp <==> r.url == "/api/rtsp" && r.verb == "GET"
    ensures EndpointOf(r) == SaveRtspUrl <==> r.url == "/api/rtsp" && r.verb == "POST"
    ensures EndpointOf(r) == StopRtsp <==> r.url == "/api/rtsp/stop" && r.verb == "POST"
  {
    var urls := ["/api/register", "/api/login", "/api/logout", "/api/user/me", "/api/user/update",
                 "/api/users", "/api/users/approve", "/api/users/evict", "/api/rtsp", "/api/rtsp/stop"];
    assert |urls[0]| == 13 && |urls[1]| == 10 && |urls[2]| == 11 && |urls[3]| == 12 && |urls[4]| == 16;
    assert |urls[5]| == 10 && |urls[6]| == 18 && |urls[7]| == 16 && |urls[8]| == 9 && |urls[9]| == 14;
    assert urls[1][5] == 'l' && urls[5][5] == 'u';
    assert urls[4][9] == '/' && urls[7][9] == 's';
    assert "POST"[0] == 'P' && "GET"[0] == 'G';
  }

  // ---------- Who is let through ----------

  /** The account of the session that the cookie header names, if the database can be asked for it. */
  predicate CallerIs(s: Server, r: Request, env: Env, id: string) {
    && id != "" && CallerId(s.tokens, r.cookies) == id && id in s.users
    && env.lookup.digest && env.lookup.first.prepared && env.lookup.first.stepped && env.lookup.seal
  }

  predicate CallerIsAdminNow(s: Server, r: Request, env: Env) {
    var id := CallerId(s.tokens, r.cookies);
    CallerIs(s, r, env, id) && s.users[id].role == "admin"
  }

  lemma CallerNow(s: Server, r: Request, env: Env, id: string)
    requires CallerId(s.tokens, r.cookies) == id != ""
    ensures Lookup(s.users, id, env.lookup) == if CallerIs(s, r, env, id) then Some(s.users[id]) else None
  {
    hide CallerId;
  }

  /** Without a session nothing under /api/ but registration and login is answered with anything but 401. */
  lemma SessionRequired(p: Primitives, h: Handlers, s: Server, r: Request, env: Env)
    requires StartsWith(r.url, "/api/") && EndpointOf(r) != RegisterUser && EndpointOf(r) != Login
    requires CallerId(s.tokens, r.cookies) == ""
    ensures Refused(Dispatch(p, h, s, r, env), s, r, 401, "Unauthorized", "Unauthorized")
  {
    assert r.url[1] == "/api/"[1] == 'a' && r.url[3] == "/api/"[3] == 'i';
    assert "/app.js"[3] == 'p' && "/index.html"[1] == 'i' && "/style.css"[1] == 's';
    assert !IsStatic(r.url);
    hide EndpointOf, IsStatic, IsAdminArea, MimeOf, CallerId;
  }

  /** Without the role no administrator's endpoint is answered with anything but 403, for whatever other reason it would fail. */
  lemma RoleRequired(p: Primitives, h: Handlers, s: Server, r: Request, env: Env)
    requires IsAdminEndpoint(EndpointOf(r)) && CallerId(s.tokens, r.cookies) != "" && env.lookup.digest
    requires !CallerIsAdminNow(s, r, env)
    ensures Refused(Dispatch(p, h, s, r, env), s, r, 403, "Forbidden", "Forbidden")
  {
    RoutesAreGuarded(r);
    var id := CallerId(s.tokens, r.cookies);
    CallerNow(s, r, env, id);
    assert CallerIs(s, r, env, id) ==> s.users[id].role != "admin";
    hide EndpointOf, IsStatic, IsAdminArea, IsApi, MimeOf, CallerId, Lookup;
  }

  /** The reply of the catch clause. */
  predicate Fails(d: Step, r: Request) {
    Gets(d, r, 500, "Internal Server Error", ErrorOfException, NoCookie)
  }

  /** A session whose owner cannot be looked up for an exception gets 500 and nothing else. */
  lemma LookupFails(p: Primitives, h: Handlers, s: Server, r: Request, env: Env)
    requires EndpointOf(r) !in {RegisterUser, Login, Unrouted} && CallerId(s.tokens, r.cookies) != "" && !env.lookup.digest
    ensures var d := Dispatch(p, h, s, r, env); d.server == s && Fails(d, r)
  {
    RoutesAreGuarded(r);
    hide EndpointOf, IsStatic, IsAdminArea, IsApi, MimeOf, CallerId;
  }

  // ---------- Registration ----------

  /** The row can be inserted: the check runs or not, encryption and insertion work. */
  predicate InsertWorks(call: Call) {
    call.digest && call.first.prepared && call.seal && call.second.prepared && call.second.stepped
  }

  lemma RegisterIff(p: Primitives, h: Handlers, s: Server, r: Request, env: Env, id: string, username: string, password: string)
    requires EndpointOf(r) == RegisterUser
    requires Value(r.json, "id") == Some(id) && Value(r.json, "username") == Some(username)
    requires Value(r.json, "password") == Some(password)
    ensures var d := Dispatch(p, h, s, r, env);
            var complete := id != "" && username != "" && password != "";
            && (Succeeds(d, r, "Registration pending approval!") <==> complete && id !in s.users && InsertWorks(env.op))
            && (complete && id !in s.users && InsertWorks(env.op) ==>
                  d.server == s.(users := s.users[id := Account(username, password, "user", false, true)]))
            && (!(complete && id !in s.users && InsertWorks(env.op)) ==> d.server == s)
            && (!complete ==> Refused(d, s, r, 400, "Bad Request", "Missing required fields"))
            && (complete && id in s.users && env.op.digest && env.op.first.prepared && env.op.first.stepped ==>
                  Refused(d, s, r, 400, "Bad Request", "Registration failed. ID is already taken or banned."))
  {
    RoutesAreGuarded(r);
    hide EndpointOf, IsStatic, MimeOf, Value;
  }

  // ---------- Login and logout ----------

  /** The account of `id` can be read. */
  predicate ReadWorks(call: Call) {
    call.digest && call.first.prepared && call.first.stepped && call.seal
  }

  /** A password is right for an account if its hash is that of the password last set. */
  predicate Right(p: Primitives, users: Users, id: string, password: string)
    requires id in users
  {
    p.pbkdf2(password, id) == p.pbkdf2(users[id].password, id)
  }

  lemma LoginIff(p: Primitives, h: Handlers, s: Server, r: Request, env: Env, id: string, password: string)
    requires EndpointOf(r) == Login && Value(r.json, "id") == Some(id) && Value(r.json, "password") == Some(password)
    ensures var d := Dispatch(p, h, s, r, env);
            var known := ReadWorks(env.lookup) && id in s.users;
            var welcome := known && s.users[id].active && s.users[id].approved && env.op.digest && Right(p, s.users, id, password);
            && (Gets(d, r, 200, "OK", Message("Success"), Session(env.token)) <==> welcome)
            && (welcome ==> d.server == s.(tokens := s.tokens[env.token := id]))
            && (!welcome ==> d.server == s && forall reply <- d.replies :: reply.Reply? && reply.cookie == NoCookie)
            && (env.lookup.digest && (!known || !s.users[id].active) ==>
                  Refused(d, s, r, 401, "Unauthorized", "Invalid ID or password"))
            && (known && s.users[id].active && !s.users[id].approved ==>
                  Refused(d, s, r, 401, "Unauthorized", "Account pending administrator approval"))
            && (known && s.users[id].active && s.users[id].approved && env.op.digest && !Right(p, s.users, id, password) ==>
                  Refused(d, s, r, 401, "Unauthorized", "Invalid ID or password"))
  {
    RoutesAreGuarded(r);
    hide EndpointOf, IsStatic, MimeOf, Value, DispatchAuthenticated;
  }

  /** Logout ends the session of the cookie, that one only. */
  lemma LogoutEnds(p: Primitives, h: Handlers, s: Server, r: Request, env: Env)
    requires EndpointOf(r) == Logout && CallerId(s.tokens, r.cookies) != "" && env.lookup.digest
    ensures var d := Dispatch(p, h, s, r, env);
            && Gets(d, r, 200, "OK", Message("Success"), Expired)
            && d.server == s.(tokens := d.server.tokens)
            && forall t :: t in d.server.tokens <==> t in s.tokens && t != GetSessionToken(r.cookies)
    ensures forall t <- Dispatch(p, h, s, r, env).server.tokens :: Dispatch(p, h, s, r, env).server.tokens[t] == s.tokens[t]
  {
    RoutesAreGuarded(r);
    hide EndpointOf, IsStatic, IsAdminArea, IsApi, MimeOf, GetSessionToken;
  }

  // ---------- The caller's own profile ----------

  /** The own profile, field by field. */
  lemma ProfileShown(p: Primitives, h: Handlers, s: Server, r: Request, env: Env, id: string)
    requires EndpointOf(r) == Me && CallerIs(s, r, env, id)
    ensures var d := Dispatch(p, h, s, r, env);
            d.server == s && Gets(d, r, 200, "OK", Profile(id, s.users[id].username, s.users[id].role), NoCookie)
  {
    RoutesAreGuarded(r);
    hide EndpointOf, IsStatic, IsAdminArea, IsApi, MimeOf, CallerId;
  }

  /** A session whose account cannot be read is shown nothing, or its own id if only the username failed to decrypt. */
  lemma ProfileHidden(p: Primitives, h: Handlers, s: Server, r: Request, env: Env, id: string)
    requires EndpointOf(r) == Me && CallerId(s.tokens, r.cookies) == id != "" && env.lookup.digest && !CallerIs(s, r, env, id)
    ensures var d, found := Dispatch(p, h, s, r, env), env.lookup.first.prepared && env.lookup.first.stepped && id in s.users;
            d.server == s && Gets(d, r, 200, "OK", Profile(if found && env.lookup.half then id else "", "", ""), NoCookie)
  {
    RoutesAreGuarded(r);
    hide EndpointOf, IsStatic, IsAdminArea, IsApi, MimeOf, CallerId;
  }

  predicate WriteWorks(call: Call) {
    call.digest && call.first.prepared && call.first.stepped
  }

  /** When a profile update succeeds, and the whole of what it changes. */
  lemma UpdateIff(p: Primitives, h: Handlers, s: Server, r: Request, env: Env, username: string, password: string)
    requires EndpointOf(r) == UpdateMe && CallerId(s.tokens, r.cookies) in s.users && CallerId(s.tokens, r.cookies) != ""
    requires Value(r.json, "username") == Some(username) && Value(r.json, "password") == Some(password) && env.lookup.digest
    ensures var d, id := Dispatch(p, h, s, r, env), CallerId(s.tokens, r.cookies);
            var works := username != "" && WriteWorks(env.op) && env.op.seal;
            && (Succeeds(d, r, "Success") <==> works)
            && (username == "" ==> Refused(d, s, r, 400, "Bad Request", "Username cannot be empty"))
            && (!works ==> d.server == s)
            && (works ==> && d.server == s.(users := d.server.users) && d.server.users.Keys == s.users.Keys
                          && (forall u <- s.users :: u != id ==> d.server.users[u] == s.users[u])
                          && d.server.users[id].username == username
                          && d.server.users[id].password == (if password != "" then password else s.users[id].password)
                          && d.server.users[id].role == s.users[id].role
                          && d.server.users[id].approved == s.users[id].approved
                          && d.server.users[id].active == s.users[id].active)
  {
    RoutesAreGuarded(r);
    hide EndpointOf, IsStatic, IsAdminArea, IsApi, MimeOf, CallerId, Value, Lookup;
  }

  /**
   After a successful update with a new password, a login with it succeeds for an admitted user, and a login with
   a password of another hash is refused; without one, the same passwords are right as before.
   */
  lemma UpdateThenLogin(p: Primitives, h: Handlers, s: Server, update: Request, env: Env, username: string, password: string,
                        login: Request, env': Env, tried: string)
    requires EndpointOf(update) == UpdateMe && Succeeds(Dispatch(p, h, s, update, env), update, "Success")
    requires Value(update.json, "username") == Some(username) && Value(update.json, "password") == Some(password)
    requires env.lookup.digest && CallerId(s.tokens, update.cookies) != "" && CallerId(s.tokens, update.cookies) in s.users
    requires var id := CallerId(s.tokens, update.cookies);
             && s.users[id].approved && s.users[id].active
             && EndpointOf(login) == Login && Value(login.json, "id") == Some(id) && Value(login.json, "password") == Some(tried)
    requires ReadWorks(env'.lookup) && env'.op.digest
    ensures var id := CallerId(s.tokens, update.cookies);
            var s1 := Dispatch(p, h, s, update, env).server;
            var d := Dispatch(p, h, s1, login, env');
            var right := if password != "" then p.pbkdf2(tried, id) == p.pbkdf2(password, id) else Right(p, s.users, id, tried);
            && id in s1.users && s1.users[id].username == username
            && (Gets(d, login, 200, "OK", Message("Success"), Session(env'.token)) <==> right)
            && (!right ==> Refused(d, s1, login, 401, "Unauthorized", "Invalid ID or password"))
  {
    hide Dispatch, EndpointOf, CallerId, Value, Gets;
    UpdateIff(p, h, s, update, env, username, password);
    LoginIff(p, h, Dispatch(p, h, s, update, env).server, login, env', CallerId(s.tokens, update.cookies), tried);
  }

  // ---------- The administrator's endpoints ----------

  /** The listing: one entry for each row that can be read, field by field. */
  lemma UsersListed(p: Primitives, h: Handlers, s: Server, r: Request, env: Env)
    requires EndpointOf(r) == ListUsers && CallerIsAdminNow(s, r, env)
    ensures var d := Dispatch(p, h, s, r, env);
            && d.server == s && |d.replies| == 1 && d.replies[0].Reply? && d.replies[0].payload.UserList?
            && Gets(d, r, 200, "OK", d.replies[0].payload, NoCookie)
            && var listed := d.replies[0].payload.listed;
               && (forall id :: id in listed <==> env.op.first.prepared && id in s.users && p.sha256(id) !in env.op.lost)
               && forall id <- listed ::
                    && listed[id].username == s.users[id].username
                    && listed[id].role == s.users[id].role
                    && (listed[id].isApproved == 1 <==> s.users[id].approved) && listed[id].isApproved in {0, 1}
                    && (listed[id].isActive == 1 <==> s.users[id].active) && listed[id].isActive in {0, 1}
  {
    RoutesAreGuarded(r);
    AdminCaller(s, r, env);
    hide EndpointOf, IsStatic, IsAdminArea, IsApi, MimeOf, CallerId, Lookup;
  }

  lemma AdminCaller(s: Server, r: Request, env: Env)
    requires CallerIsAdminNow(s, r, env)
    ensures var id := CallerId(s.tokens, r.cookies);
            id != "" && env.lookup.digest && id in s.users && s.users[id].role == "admin"
            && Lookup(s.users, id, env.lookup) == Some(s.users[id])
  {
    hide CallerId;
  }

  /** Approval succeeds whenever the statement runs, and sets exactly that flag, if there is such an account. */
  lemma ApproveIff(p: Primitives, h: Handlers, s: Server, r: Request, env: Env, id: string)
    requires EndpointOf(r) == ApproveUser && CallerIsAdminNow(s, r, env) && Value(r.json, "id") == Some(id)
    ensures var d := Dispatch(p, h, s, r, env);
            && (Succeeds(d, r, "Success") <==> WriteWorks(env.op))
            && (env.op.digest && !WriteWorks(env.op) ==> Gets(d, r, 500, "Internal Error", Error("Approval failed"), NoCookie))
            && d.server == if WriteWorks(env.op) && id in s.users
                           then s.(users := s.users[id := s.users[id].(approved := true)]) else s
  {
    RoutesAreGuarded(r);
    AdminCaller(s, r, env);
    hide EndpointOf, IsStatic, IsAdminArea, IsApi, MimeOf, CallerId, Lookup, Value;
  }

  /** Eviction: never of the administrator; else whenever the statement runs; the account stays, without its sessions. */
  lemma EvictIff(p: Primitives, h: Handlers, s: Server, r: Request, env: Env, id: string)
    requires EndpointOf(r) == EvictUser && CallerIsAdminNow(s, r, env) && Value(r.json, "id") == Some(id)
    ensures var d := Dispatch(p, h, s, r, env);
            && (id == "admin" ==> Refused(d, s, r, 400, "Bad Request", "Cannot ban the root admin"))
            && (Succeeds(d, r, "Success") <==> id != "admin" && WriteWorks(env.op))
            && (id != "admin" && env.op.digest && !WriteWorks(env.op) ==>
                  Gets(d, r, 500, "Internal Error", Error("Eviction failed"), NoCookie))
            && (!(id != "admin" && WriteWorks(env.op)) ==> d.server == s)
            && (id != "admin" && WriteWorks(env.op) ==>
                  && d.server.latest == s.latest && d.server.stream == s.stream
                  && d.server.users == (if id in s.users then s.users[id := s.users[id].(active := false)] else s.users)
                  && (forall t :: t in d.server.tokens <==> t in s.tokens && s.tokens[t] != id)
                  && (forall t <- d.server.tokens :: d.server.tokens[t] == s.tokens[t]))
  {
    RoutesAreGuarded(r);
    AdminCaller(s, r, env);
    hide EndpointOf, IsStatic, IsAdminArea, IsApi, MimeOf, CallerId, Lookup, Value;
  }

  /** The saved configuration, or none. */
  lemma ConfigShown(p: Primitives, h: Handlers, s: Server, r: Request, env: Env)
    requires EndpointOf(r) == GetRtsp && CallerIsAdminNow(s, r, env)
    ensures var d := Dispatch(p, h, s, r, env);
            && d.server == s
            && Gets(d, r, 200, "OK",
                    RtspList(if s.latest.Some? && env.op.first.prepared && env.op.first.stepped && env.op.seal
                             then [s.latest.value] else []), NoCookie)
  {
    RoutesAreGuarded(r);
    AdminCaller(s, r, env);
    hide EndpointOf, IsStatic, IsAdminArea, IsApi, MimeOf, CallerId, Lookup;
  }

  /**
   Saving succeeds exactly when both fields are given and the insert works; then the configuration is the latest and
   relayed. The old one is gone once clearing has worked, even if the insert then fails.
   */
  lemma SaveIff(p: Primitives, h: Handlers, s: Server, r: Request, env: Env, name: string, url: string)
    requires EndpointOf(r) == SaveRtspUrl && CallerIsAdminNow(s, r, env)
    requires Value(r.json, "name") == Some(name) && Value(r.json, "url") == Some(url)
    ensures var d := Dispatch(p, h, s, r, env);
            var complete, works := name != "" && url != "", env.op.first.prepared && env.op.seal && env.op.first.stepped;
            && (!complete ==> Refused(d, s, r, 400, "Bad Request", "Missing fields"))
            && (Succeeds(d, r, "Stream started successfully") <==> complete && works)
            && (complete ==> d.server == s.(
                  latest := if works then Some(Rtsp(name, url)) else if env.clearWorks then None else s.latest,
                  stream := if works then Some(url) else s.stream))
            && (complete && !works && (env.op.seal || !env.op.first.prepared) ==>
                  Gets(d, r, 500, "Internal Error", Error("Failed to save config"), NoCookie))
  {
    RoutesAreGuarded(r);
    AdminCaller(s, r, env);
    hide EndpointOf, IsStatic, IsAdminArea, IsApi, MimeOf, CallerId, Lookup, Value;
  }

  /** Stopping stops the relayer and nothing else. */
  lemma StopStops(p: Primitives, h: Handlers, s: Server, r: Request, env: Env)
    requires EndpointOf(r) == StopRtsp && CallerIsAdminNow(s, r, env)
    ensures var d := Dispatch(p, h, s, r, env);
            Succeeds(d, r, "Stream stopped successfully") && d.server == s.(stream := None)
  {
    RoutesAreGuarded(r);
    AdminCaller(s, r, env);
    hide EndpointOf, IsStatic, IsAdminArea, IsApi, MimeOf, CallerId, Lookup;
  }

  // ---------- Everything else ----------

  /** The four files, each with its type, to anyone. */
  lemma FilesServed(p: Primitives, h: Handlers, s: Server, r: Request, env: Env)
    requires r.url in {"/", "/index.html", "/style.css", "/app.js"} && env.content != ""
    ensures var mime := if r.url == "/style.css" then "text/css"
                        else if r.url == "/app.js" then "application/javascript" else "text/html";
            Dispatch(p, h, s, r, env) == Step(s, [Reply(r.connId, 200, "OK", mime, StaticFile(env.content), NoCookie)])
  {
    MimeTypes();
    hide MimeOf, EndpointOf;
  }

  /** A text with one dot contains a suffix at that dot or not at all. */
  lemma OneDot(url: string, pat: string, at: nat)
    requires pat != "" && pat[0] == '.' && !OccursAt(url, pat, at)
    requires forall i :: 0 <= i < |url| && i != at ==> url[i] != '.'
    ensures !Contains(url, pat)
  {
    forall i | 0 <= i && i + |pat| <= |url| && i != at ensures !OccursAt(url, pat, i) {
      Mismatch(url, pat, i, 0);
    }
  }

  lemma PageIsHtml()
    ensures MimeOf("/") == MimeOf("/index.html") == "text/html"
  {
    hide Find;
    OneDot("/", ".css", 0);
    OneDot("/", ".js", 0);
    Mismatch("/index.html", ".css", 6, 1);
    OneDot("/index.html", ".css", 6);
    Mismatch("/index.html", ".js", 6, 1);
    OneDot("/index.html", ".js", 6);
  }

  lemma MimeTypes()
    ensures MimeOf("/") == MimeOf("/index.html") == "text/html"
    ensures MimeOf("/style.css") == "text/css" && MimeOf("/app.js") == "application/javascript"
  {
    hide Find;
    PageIsHtml();
    assert "/style.css"[6..10] == ".css" && OccursAt("/style.css", ".css", 6);
    OneDot("/app.js", ".css", 4);
    assert "/app.js"[4..7] == ".js" && OccursAt("/app.js", ".js", 4);
  }

  /** A URL that is neither routed nor registered, outside the API or with a session, is not found. */
  lemma NotFound(p: Primitives, h: Handlers, s: Server, r: Request, env: Env)
    requires EndpointOf(r) == Unrouted && r.url !in h && env.lookup.digest && (IsStatic(r.url) ==> env.content == "")
    requires !StartsWith(r.url, "/api") || (CallerId(s.tokens, r.cookies) != "" && CallerIsAdminNow(s, r, env))
    ensures Refused(Dispatch(p, h, s, r, env), s, r, 404, "Not Found", "Not Found")
  {
    if CallerIsAdminNow(s, r, env) {
      AdminCaller(s, r, env);
    }
    assert "/api/users"[..4] == "/api/rtsp"[..4] == "/api/"[..4] == "/api";
    hide EndpointOf, IsStatic, MimeOf, CallerId, Lookup;
  }
}
