/**
 One request as a step of the server: which reply it gets and what it does to the accounts, the RTSP
 configuration, the session tokens and the stream relayer. JSON parsing, file contents, generated
 tokens and the outcomes of library calls are inputs of the step.
 */
module Requests {
  import opened Basics
  import opened Text
  import opened Accounts
  import opened Cookies
  import opened Database

  // ---------- Requests and replies ----------

  datatype Field = Text(text: string) | OtherType

  /**
   The parsed body: unparseable, a value that is no object, or an object. The message of the parser's exception
   quotes what it has read; `printable` says whether that is UTF-8, without which the message cannot be dumped.
   */
  datatype Json = Malformed(printable: bool) | NotObject | Object(fields: map<string, Field>)

  /** json.value(name, ""); None when parsing or the access throws. */
  function Value(json: Json, name: string): Option<string> {
    match json
    case Malformed(_) => None
    case NotObject => None
    case Object(fields) =>
      if name !in fields then Some("")
      else match fields[name]
           case Text(s) => Some(s)
           case OtherType => None
  }

  datatype Request = Request(connId: int, verb: string, url: string, json: Json, cookies: string)

  /** A row of the administrator's user list. */
  datatype Listed = Listed(username: string, role: string, isApproved: int, isActive: int)

  datatype Payload =
    | StaticFile(content: string)
    | Message(text: string)
    | Error(text: string)
    | ErrorOfException
    | Profile(userId: string, username: string, role: string)
    | UserList(listed: map<string, Listed>)
    | RtspList(configs: seq<Rtsp>)

  /** The Set-Cookie header of a reply, if any. */
  datatype Cookie = NoCookie | Session(token: string) | Expired

  /** A response event; `Plain` is one made by a registered handler without HTTP headers. */
  datatype Reply =
    | Reply(connId: int, status: int, reason: string, mime: string, payload: Payload, cookie: Cookie)
    | Plain(connId: int, status: int, text: string)

  type Handlers = map<string, Request -> Reply>

  // ---------- The server's state ----------

  /** `stream` is the relayer's URL while it runs. */
  datatype Server = Server(users: Users, latest: Option<Rtsp>, tokens: map<string, string>, stream: Option<string>)

  /** What the environment decides during one request. */
  datatype Env = Env(content: string, lookup: Call, op: Call, clearWorks: bool, token: string)

  datatype Step = Step(server: Server, replies: seq<Reply>)

  /** The status line and type hold no line break. */
  predicate PlainHeaders(reply: Reply) {
    reply.Reply? && '\r' !in reply.reason && '\r' !in reply.mime
  }

  function ReasonOf(status: int): (reason: string)
    ensures '\r' !in reason
  {
    if status == 400 then "Bad Request"
    else if status == 401 then "Unauthorized"
    else if status == 403 then "Forbidden"
    else if status == 404 then "Not Found"
    else if status == 500 then "Internal Error"
    else "OK"
  }

  function Json200(r: Request, payload: Payload, cookie: Cookie := NoCookie): (reply: Reply)
    ensures PlainHeaders(reply)
  {
    Reply(r.connId, 200, ReasonOf(200), "application/json", payload, cookie)
  }

  function Refuse(r: Request, status: int, text: string): (reply: Reply)
    ensures PlainHeaders(reply)
  {
    Reply(r.connId, status, ReasonOf(status), "application/json", Error(text), NoCookie)
  }

  /** The reply of the catch clause around the API. */
  function Caught(r: Request): (reply: Reply)
    ensures PlainHeaders(reply)
  {
    Reply(r.connId, 500, "Internal Server Error", "application/json", ErrorOfException, NoCookie)
  }

  function Same(s: Server, reply: Reply): Step {
    Step(s, [reply])
  }

  predicate Unprintable(r: Request) {
    r.json == Malformed(false)
  }

  /** What the catch clause publishes when parsing or reading the body throws; it throws itself if it cannot print the message. */
  function CatchBodyError(r: Request): seq<Reply> {
    if Unprintable(r) then [] else [Caught(r)]
  }

  function BodyThrows(s: Server, r: Request): Step {
    Step(s, CatchBodyError(r))
  }

  // ---------- Routing ----------

  datatype Endpoint =
    | RegisterUser | Login | Logout | Me | UpdateMe
    | ListUsers | ApproveUser | EvictUser | GetRtsp | SaveRtspUrl | StopRtsp
    | Unrouted

  function EndpointOf(r: Request): Endpoint {
    if r.url == "/api/register" && r.verb == "POST" then RegisterUser
    else if r.url == "/api/login" && r.verb == "POST" then Login
    else if r.url == "/api/logout" && r.verb == "POST" then Logout
    else if r.url == "/api/user/me" && r.verb == "GET" then Me
    else if r.url == "/api/user/update" && r.verb == "POST" then UpdateMe
    else if r.url == "/api/users" && r.verb == "GET" then ListUsers
    else if r.url == "/api/users/approve" && r.verb == "POST" then ApproveUser
    else if r.url == "/api/users/evict" && r.verb == "POST" then EvictUser
    else if r.url == "/api/rtsp" && r.verb == "GET" then GetRtsp
    else if r.url == "/api/rtsp" && r.verb == "POST" then SaveRtspUrl
    else if r.url == "/api/rtsp/stop" && r.verb == "POST" then StopRtsp
    else Unrouted
  }

  predicate IsStatic(url: string) {
    url == "/" || url == "/index.html" || url == "/style.css" || url == "/app.js"
  }

  function MimeOf(url: string): (mime: string)
    ensures '\r' !in mime
  {
    if Contains(url, ".css") then "text/css" else if Contains(url, ".js") then "application/javascript" else "text/html"
  }

  predicate IsApi(url: string) {
    StartsWith(url, "/api/")
  }

  predicate IsAdminArea(url: string) {
    StartsWith(url, "/api/users") || StartsWith(url, "/api/rtsp")
  }

  predicate IsAdminEndpoint(e: Endpoint) {
    e in {ListUsers, ApproveUser, EvictUser, GetRtsp, SaveRtspUrl, StopRtsp}
  }

  /** The administrator's endpoints lie in the area that the role check covers, and all routed ones under /api/. */
  lemma RoutesAreGuarded(r: Request)
    ensures IsAdminEndpoint(EndpointOf(r)) ==> IsAdminArea(r.url)
    ensures EndpointOf(r) != Unrouted ==> IsApi(r.url) && !IsStatic(r.url)
  {
    var urls := ["/api/register", "/api/login", "/api/logout", "/api/user/me", "/api/user/update",
                 "/api/users", "/api/users/approve", "/api/users/evict", "/api/rtsp", "/api/rtsp/stop"];
    assert forall i :: 0 <= i < 10 ==> urls[i][..5] == "/api/";
    assert forall i :: 5 <= i < 8 ==> urls[i][..10] == "/api/users";
    assert forall i :: 8 <= i < 10 ==> urls[i][..9] == "/api/rtsp";
  }

  // ---------- Sessions ----------

  function CallerId(tokens: map<string, string>, cookies: string): string {
    var token := GetSessionToken(cookies);
    if token != "" && token in tokens then tokens[token] else ""
  }

  /** The caller is `id` exactly when the cookie header names a session of `id`. */
  lemma CallerIff(tokens: map<string, string>, cookies: string, id: string)
    requires id != ""
    ensures CallerId(tokens, cookies) == id <==> exists t <- tokens :: t != "" && Names(cookies, t) && tokens[t] == id
  {
    var token := GetSessionToken(cookies);
    TokenIff(cookies, token);
    hide GetSessionToken, Names, Contains;
    if t :| t in tokens && t != "" && Names(cookies, t) && tokens[t] == id {
      TokenIff(cookies, t);
    }
    if CallerId(tokens, cookies) == id {
      NoKeyNoToken(cookies);
    }
  }

  lemma NoKeyNoToken(cookies: string)
    ensures GetSessionToken(cookies) != "" ==> Contains(cookies, KEY)
  {
  }

  function WithoutUser(tokens: map<string, string>, id: string): map<string, string> {
    map t | t in tokens && tokens[t] != id :: tokens[t]
  }

  // ---------- The endpoints ----------

  /** One reply with plain headers, to the connection of the request. */
  predicate Answers(d: Step, r: Request) {
    |d.replies| == 1 && PlainHeaders(d.replies[0]) && d.replies[0].connId == r.connId
  }

  /** Nothing happens and nothing is published if the body's parse error cannot be printed. */
  predicate AnswersIfPrintable(d: Step, s: Server, r: Request) {
    if Unprintable(r) then d == Step(s, []) else Answers(d, r)
  }

  function DoRegister(s: Server, r: Request, env: Env): (d: Step)
    ensures AnswersIfPrintable(d, s, r) && forall reply <- d.replies :: !reply.cookie.Session?
  {
    var id, username, password := Value(r.json, "id"), Value(r.json, "username"), Value(r.json, "password");
    if id.None? || username.None? || password.None? then BodyThrows(s, r)
    else if id.value == "" || username.value == "" || password.value == "" then
      Same(s, Refuse(r, 400, "Missing required fields"))
    else
      var s' := s.(users := Register(s.users, id.value, username.value, password.value, env.op));
      match RegisterOutcome(s.users, id.value, env.op)
      case Threw => Same(s', Caught(r))
      case Done(true) => Same(s', Json200(r, Message("Registration pending approval!")))
      case Done(false) =>
        Same(s', Refuse(r, 400, "Registration failed. ID is already taken or banned."))
  }

  function DoLogin(p: Primitives, s: Server, r: Request, env: Env): (d: Step)
    ensures AnswersIfPrintable(d, s, r)
    ensures forall reply <- d.replies :: reply.cookie.Session? ==> reply.cookie.token == env.token
  {
    var id, password := Value(r.json, "id"), Value(r.json, "password");
    if id.None? || password.None? then BodyThrows(s, r)
    else if LookupThrows(env.lookup) then Same(s, Caught(r))
    else match Lookup(s.users, id.value, env.lookup)
      case None => Same(s, Refuse(r, 401, "Invalid ID or password"))
      case Some(user) =>
        if !user.active then Same(s, Refuse(r, 401, "Invalid ID or password"))
        else if !user.approved then Same(s, Refuse(r, 401, "Account pending administrator approval"))
        else if !env.op.digest then Same(s, Caught(r))
        else if p.pbkdf2(password.value, id.value) != p.pbkdf2(user.password, id.value) then
          Same(s, Refuse(r, 401, "Invalid ID or password"))
        else
          Same(s.(tokens := s.tokens[env.token := id.value]), Json200(r, Message("Success"), Session(env.token)))
  }

  function DoLogout(s: Server, r: Request): (d: Step)
    ensures Answers(d, r) && !d.replies[0].cookie.Session?
  {
    var token := GetSessionToken(r.cookies);
    var s' := if token == "" then s else s.(tokens := s.tokens - {token});
    Same(s', Json200(r, Message("Success"), Expired))
  }

  /** `half` says that the lookup failed only after it had found the id. */
  function DoMe(s: Server, r: Request, caller: string, user: Option<Account>, half: bool): (d: Step)
    ensures Answers(d, r) && !d.replies[0].cookie.Session?
  {
    match user
    case None => Same(s, Json200(r, Profile(if half then caller else "", "", "")))
    case Some(a) => Same(s, Json200(r, Profile(caller, a.username, a.role)))
  }

  function DoUpdateMe(s: Server, r: Request, caller: string, env: Env): (d: Step)
    ensures AnswersIfPrintable(d, s, r) && forall reply <- d.replies :: !reply.cookie.Session?
  {
    var username, password := Value(r.json, "username"), Value(r.json, "password");
    if username.None? || password.None? then BodyThrows(s, r)
    else if username.value == "" then Same(s, Refuse(r, 400, "Username cannot be empty"))
    else
      var s' := s.(users := UpdateProfile(s.users, caller, username.value, password.value, env.op));
      match ProfileOutcome(env.op)
      case Threw => Same(s', Caught(r))
      case Done(true) => Same(s', Json200(r, Message("Success")))
      case Done(false) => Same(s', Refuse(r, 500, "Update failed"))
  }

  function ListedOf(a: Account): Listed {
    Listed(a.username, a.role, Flag(a.approved), Flag(a.active))
  }

  function DoListUsers(p: Primitives, s: Server, r: Request, env: Env): (d: Step)
    ensures Answers(d, r) && !d.replies[0].cookie.Session?
  {
    var users := Listing(s.users, p.sha256, env.op);
    Same(s, Json200(r, UserList(map id | id in users :: ListedOf(users[id]))))
  }

  function DoApprove(s: Server, r: Request, env: Env): (d: Step)
    ensures AnswersIfPrintable(d, s, r) && forall reply <- d.replies :: !reply.cookie.Session?
  {
    var target := Value(r.json, "id");
    if target.None? then BodyThrows(s, r)
    else
      var s' := s.(users := Approve(s.users, target.value, env.op));
      match UpdateOutcome(env.op)
      case Threw => Same(s', Caught(r))
      case Done(true) => Same(s', Json200(r, Message("Success")))
      case Done(false) => Same(s', Refuse(r, 500, "Approval failed"))
  }

  function DoEvict(s: Server, r: Request, env: Env): (d: Step)
    ensures AnswersIfPrintable(d, s, r) && forall reply <- d.replies :: !reply.cookie.Session?
  {
    var target := Value(r.json, "id");
    if target.None? then BodyThrows(s, r)
    else if target.value == ADMIN_ID then Same(s, Refuse(r, 400, "Cannot ban the root admin"))
    else
      var s' := s.(users := Evict(s.users, target.value, env.op));
      match UpdateOutcome(env.op)
      case Threw => Same(s', Caught(r))
      case Done(true) => Same(s'.(tokens := WithoutUser(s.tokens, target.value)), Json200(r, Message("Success")))
      case Done(false) => Same(s', Refuse(r, 500, "Eviction failed"))
  }

  function DoGetRtsp(s: Server, r: Request, env: Env): (d: Step)
    ensures Answers(d, r) && !d.replies[0].cookie.Session?
  {
    match LatestRtsp(s.latest, env.op)
    case None => Same(s, Json200(r, RtspList([])))
    case Some(config) => Same(s, Json200(r, RtspList([config])))
  }

  function DoSaveRtsp(s: Server, r: Request, env: Env): (d: Step)
    ensures AnswersIfPrintable(d, s, r) && forall reply <- d.replies :: !reply.cookie.Session?
  {
    var name, url := Value(r.json, "name"), Value(r.json, "url");
    if name.None? || url.None? then BodyThrows(s, r)
    else if name.value == "" || url.value == "" then Same(s, Refuse(r, 400, "Missing fields"))
    else
      var cleared := ClearRtsp(s.latest, env.clearWorks);
      var s' := s.(latest := SaveRtsp(cleared, name.value, url.value, env.op));
      match SaveOutcome(env.op)
      case Threw => Same(s', Caught(r))
      case Done(true) => Same(s'.(stream := Some(url.value)), Json200(r, Message("Stream started successfully")))
      case Done(false) => Same(s', Refuse(r, 500, "Failed to save config"))
  }

  function DoStopRtsp(s: Server, r: Request): (d: Step)
    ensures Answers(d, r) && !d.replies[0].cookie.Session?
  {
    Same(s.(stream := None), Json200(r, Message("Stream stopped successfully")))
  }

  // ---------- Dispatch ----------

  function Fallback(h: Handlers, s: Server, r: Request): Step {
    if r.url in h then Same(s, h[r.url](r))
    else Same(s, Refuse(r, 404, "Not Found"))
  }

  /** Everything after login: the checks of the session and of the role, then the endpoint. */
  function DispatchAuthenticated(p: Primitives, h: Handlers, s: Server, r: Request, env: Env): Step {
    var caller := CallerId(s.tokens, r.cookies);
    if caller == "" && IsApi(r.url) then Same(s, Refuse(r, 401, "Unauthorized"))
    else if LookupThrows(env.lookup) then Same(s, Caught(r))
    else
      var user := Lookup(s.users, caller, env.lookup);
      var role := if user.Some? then user.value.role else "";
      match EndpointOf(r)
      case Logout => DoLogout(s, r)
      case Me => DoMe(s, r, caller, user, HalfFilled(s.users, caller, env.lookup))
      case UpdateMe => DoUpdateMe(s, r, caller, env)
      case endpoint =>
        if role != "admin" && IsAdminArea(r.url) then Same(s, Refuse(r, 403, "Forbidden"))
        else match endpoint
          case ListUsers => DoListUsers(p, s, r, env)
          case ApproveUser => DoApprove(s, r, env)
          case EvictUser => DoEvict(s, r, env)
          case GetRtsp => DoGetRtsp(s, r, env)
          case SaveRtspUrl => DoSaveRtsp(s, r, env)
          case StopRtsp => DoStopRtsp(s, r)
          case _ => Fallback(h, s, r)
  }

  function Dispatch(p: Primitives, h: Handlers, s: Server, r: Request, env: Env): Step {
    if IsStatic(r.url) && env.content != "" then
      Same(s, Reply(r.connId, 200, ReasonOf(200), MimeOf(r.url), StaticFile(env.content), NoCookie))
    else match EndpointOf(r)
      case RegisterUser => DoRegister(s, r, env)
      case Login => DoLogin(p, s, r, env)
      case _ => DispatchAuthenticated(p, h, s, r, env)
  }

  /** The endpoints that parse a body only for the administrator. */
  predicate ParsesForAdmin(e: Endpoint) {
    e in {ApproveUser, EvictUser, SaveRtspUrl}
  }

  predicate CallerHasRole(s: Server, r: Request, env: Env) {
    var user := Lookup(s.users, CallerId(s.tokens, r.cookies), env.lookup);
    user.Some? && user.value.role == "admin"
  }

  /**
   The request ends the process: its body is parsed, does not parse, and the parser's message cannot be printed.
   The exception leaves dispatch and the handler of the thread pool.
   */
  predicate Crashes(s: Server, r: Request, env: Env) {
    && Unprintable(r)
    && var e := EndpointOf(r);
       || e == RegisterUser || e == Login
       || (CallerId(s.tokens, r.cookies) != "" && !LookupThrows(env.lookup)
           && (e == UpdateMe || (ParsesForAdmin(e) && CallerHasRole(s, r, env))))
  }
}
