/**
 One request from its socket to its answer: dispatch, printing, the connection table and the client's
 reading of what arrives, amid everything else that happens on other connections.
 */
module Serving {
  import opened Accounts
  import opened Basics
  import opened Cookies
  import opened Database
  import opened Requests
  import opened Endpoints
  import opened Text
  import ServerRuns
  import HttpMessage
  import Net = HttpServer

  function CookieText(cookie: Cookie): string {
    match cookie
    case NoCookie => ""
    case Session(token) => SetCookie(token)
    case Expired => ExpireCookie()
  }

  /** The text of a response event; `dump` prints a JSON value or a file. */
  function Render(reply: Reply, dump: Payload -> string): string {
    match reply
    case Reply(_, status, reason, mime, payload, cookie) =>
      HttpMessage.MakeHttpResponse(status, reason, mime, dump(payload), CookieText(cookie))
    case Plain(_, _, text) => text
  }

  function Wire(reply: Reply, dump: Payload -> string): string {
    HttpMessage.Envelope(reply.status, Render(reply, dump))
  }

  /** Dispatch makes one reply of its own, with well-formed headers, or hands out that of a registered handler, or crashes. */
  lemma DispatchAnswers(p: Primitives, h: Handlers, s: Server, r: Request, env: Env)
    ensures var d := Dispatch(p, h, s, r, env);
            if Crashes(s, r, env) then d == Step(s, [])
            else || (Answers(d, r) && (d.replies[0].cookie.Session? ==> d.replies[0].cookie.token == env.token))
                 || (r.url in h && d.replies == [h[r.url](r)])
  {
    RoutesAreGuarded(r);
    hide EndpointOf, IsStatic, IsApi, MimeOf, GetSessionToken, ReasonOf, DoRegister, DoLogin, DispatchAuthenticated;
    if EndpointOf(r) != RegisterUser && EndpointOf(r) != Login {
      AuthenticatedAnswers(p, h, s, r, env);
    }
  }

  lemma AuthenticatedAnswers(p: Primitives, h: Handlers, s: Server, r: Request, env: Env)
    requires EndpointOf(r) != RegisterUser && EndpointOf(r) != Login && (EndpointOf(r) != Unrouted ==> IsApi(r.url))
    requires IsAdminEndpoint(EndpointOf(r)) ==> IsAdminArea(r.url)
    ensures var d := DispatchAuthenticated(p, h, s, r, env);
            if Crashes(s, r, env) then d == Step(s, [])
            else || (Answers(d, r) && !d.replies[0].cookie.Session?)
                 || (r.url in h && d.replies == [h[r.url](r)])
  {
    hide EndpointOf, IsAdminArea, IsApi, CallerId, Lookup, HalfFilled, ReasonOf, DoLogout, DoMe, DoUpdateMe, DoListUsers,
         DoApprove, DoEvict, DoGetRtsp, DoSaveRtsp, DoStopRtsp;
  }

  lemma CookieLines(cookie: Cookie)
    requires cookie.Session? ==> IsToken(cookie.token)
    ensures HttpMessage.ExtraHeaders(CookieText(cookie))
  {
    match cookie
    case NoCookie =>
    case Session(token) =>
      assert '\r' !in token;
      OneHeader(COOKIE_FIELD + KEY + token, "; Path=/; HttpOnly", "; Path=/; HttpOnly\r\n");
    case Expired =>
      var start := COOKIE_FIELD + KEY + "; Path=/; Expires=Thu, 01 Jan";
      assert '\r' !in start;
      OneHeader(start, " 1970 00:00:00 GMT", " 1970 00:00:00 GMT\r\n");
  }

  lemma OneHeader(start: string, end: string, closed: string)
    requires start != "" && '\r' !in start && '\r' !in end && closed == end + HttpMessage.CRLF
    ensures HttpMessage.ExtraHeaders(start + closed)
  {
    HttpMessage.PrependLine(start + end, "");
    assert start + end + HttpMessage.CRLF + "" == start + closed;
  }

  /** The client reads back exactly the dumped payload. */
  lemma ReplyIsReadable(reply: Reply, dump: Payload -> string)
    requires PlainHeaders(reply) && (reply.cookie.Session? ==> IsToken(reply.cookie.token))
    ensures var m := HttpMessage.ReadMessage(Wire(reply, dump));
            m.Some? && m.value.body == dump(reply.payload) && m.value.rest == ""
  {
    CookieLines(reply.cookie);
    hide CookieText;
    var extra := CookieText(reply.cookie);
    HttpMessage.EnvelopeKeepsPrinted(reply.status, reply.status, reply.reason, reply.mime, dump(reply.payload), extra);
    HttpMessage.ResponseRoundTrip(reply.status, reply.reason, reply.mime, dump(reply.payload), extra);
  }

  // ---------- What the client reads ----------

  /** The cookie header of a reply as a line. */
  function CookieLine(cookie: Cookie): seq<string> {
    match cookie
    case NoCookie => []
    case Session(token) => ["Set-Cookie: " + "SessionID=" + token + "; Path=/; HttpOnly"]
    case Expired => ["Set-Cookie: " + "SessionID=" + "; Path=/; Expires=Thu, 01 Jan" + " 1970 00:00:00 GMT"]
  }

  lemma OneLine(line: string, text: string)
    requires '\r' !in line && text == line + HttpMessage.CRLF
    ensures HttpMessage.Lines(text) == [line]
  {
    HttpMessage.LineFirst(line, "");
    assert line + HttpMessage.CRLF + "" == text;
    assert HttpMessage.Lines("") == [];
  }

  lemma CookieIsLine(cookie: Cookie)
    requires cookie.Session? ==> IsToken(cookie.token)
    ensures HttpMessage.Lines(CookieText(cookie)) == CookieLine(cookie)
  {
    match cookie
    case NoCookie =>
    case Session(token) =>
      var start := "Set-Cookie: " + "SessionID=" + token;
      assert '\r' !in token && '\r' !in start;
      EndedLine(start, "; Path=/; HttpOnly", "; Path=/; HttpOnly\r\n");
    case Expired =>
      var start := "Set-Cookie: " + "SessionID=" + "; Path=/; Expires=Thu, 01 Jan";
      assert '\r' !in start;
      EndedLine(start, " 1970 00:00:00 GMT", " 1970 00:00:00 GMT\r\n");
  }

  lemma EndedLine(start: string, end: string, closed: string)
    requires '\r' !in start && '\r' !in end && closed == end + HttpMessage.CRLF
    ensures HttpMessage.Lines(start + closed) == [start + end]
  {
    hide HttpMessage.Lines;
    Glue(start, end, HttpMessage.CRLF);
    OneLine(start + end, start + closed);
  }

  lemma Glue(a: string, b: string, c: string)
    ensures a + (b + c) == a + b + c
  {
  }

  /** The head that the client reads, line by line: status, type, length, and the cookie if there is one. */
  lemma ClientSees(reply: Reply, dump: Payload -> string)
    requires PlainHeaders(reply) && (reply.cookie.Session? ==> IsToken(reply.cookie.token))
    ensures var m := HttpMessage.ReadMessage(Wire(reply, dump));
            && m.Some? && m.value.body == dump(reply.payload) && m.value.rest == ""
            && HttpMessage.Lines(m.value.head)
               == ["HTTP/1.1 " + SignedDecimal(reply.status) + " " + reply.reason, "Content-Type: " + reply.mime,
                   "Content-Length: " + Decimal(|dump(reply.payload)|), "Connection: close"] + CookieLine(reply.cookie)
  {
    CookieLines(reply.cookie);
    CookieIsLine(reply.cookie);
    hide CookieText, CookieLine, HttpMessage.Lines, HttpMessage.ReadMessage, HttpMessage.MakeHttpResponse, HttpMessage.ExtraHeaders;
    var extra := CookieText(reply.cookie);
    HttpMessage.EnvelopeKeepsPrinted(reply.status, reply.status, reply.reason, reply.mime, dump(reply.payload), extra);
    HttpMessage.ResponseLines(reply.status, reply.reason, reply.mime, dump(reply.payload), extra);
  }

  lemma PrintedCodes()
    ensures SignedDecimal(200) == "200" && SignedDecimal(400) == "400" && SignedDecimal(401) == "401"
    ensures SignedDecimal(403) == "403" && SignedDecimal(404) == "404" && SignedDecimal(500) == "500"
  {
    assert Decimal(20) == "20" && Decimal(40) == "40" && Decimal(50) == "50";
  }

  /** The value of the Set-Cookie header of a response text. */
  function SetCookieIn(text: string): Option<string> {
    match HttpMessage.ReadMessage(text)
    case None => None
    case Some(m) => HttpMessage.FieldIn(HttpMessage.Lines(m.head), "Set-Cookie: ")
  }

  lemma SkipLine(line: string, rest: seq<string>)
    requires line != "" && line[0] != 'S'
    ensures HttpMessage.FieldIn([line] + rest, "Set-Cookie: ") == HttpMessage.FieldIn(rest, "Set-Cookie: ")
  {
    assert "Set-Cookie: "[0] == 'S' && ([line] + rest)[1..] == rest;
  }

  lemma NoCookieInFour(l1: string, l2: string, l3: string, l4: string, rest: seq<string>)
    requires l1 != "" && l2 != "" && l3 != "" && l4 != ""
    requires l1[0] != 'S' && l2[0] != 'S' && l3[0] != 'S' && l4[0] != 'S'
    ensures HttpMessage.FieldIn([l1, l2, l3, l4] + rest, "Set-Cookie: ") == HttpMessage.FieldIn(rest, "Set-Cookie: ")
  {
    hide HttpMessage.FieldIn;
    SkipLine(l4, rest);
    SkipLine(l3, [l4] + rest);
    SkipLine(l2, [l3] + ([l4] + rest));
    SkipLine(l1, [l2] + ([l3] + ([l4] + rest)));
    assert [l1] + ([l2] + ([l3] + ([l4] + rest))) == [l1, l2, l3, l4] + rest;
  }

  /** A login's reply sets a cookie that holds the token, a logout's one that holds none, the others set none. */
  lemma CookieSeen(reply: Reply, dump: Payload -> string)
    requires PlainHeaders(reply) && (reply.cookie.Session? ==> IsToken(reply.cookie.token))
    ensures var seen := SetCookieIn(Wire(reply, dump));
            match reply.cookie
            case NoCookie => seen == None
            case Session(token) => seen.Some? && GetSessionToken(seen.value) == token
            case Expired => seen.Some? && GetSessionToken(seen.value) == ""
  {
    ClientSees(reply, dump);
    CookieValue(reply.cookie);
    hide CookieLine, HttpMessage.Lines, HttpMessage.ReadMessage, HttpMessage.FieldIn, Wire, Decimal, SignedDecimal, GetSessionToken;
    var l1, l2 := "HTTP/1.1 " + SignedDecimal(reply.status) + " " + reply.reason, "Content-Type: " + reply.mime;
    var l3 := "Content-Length: " + Decimal(|dump(reply.payload)|);
    assert l1[0] == 'H' && l2[0] == 'C' && l3[0] == 'C';
    NoCookieInFour(l1, l2, l3, "Connection: close", CookieLine(reply.cookie));
  }

  lemma CookieValue(cookie: Cookie)
    requires cookie.Session? ==> IsToken(cookie.token)
    ensures var seen := HttpMessage.FieldIn(CookieLine(cookie), "Set-Cookie: ");
            match cookie
            case NoCookie => seen == None
            case Session(token) => seen.Some? && GetSessionToken(seen.value) == token
            case Expired => seen.Some? && GetSessionToken(seen.value) == ""
  {
    match cookie
    case NoCookie =>
    case Session(token) => ValueOf(token, "; Path=/; HttpOnly");
    case Expired =>
      var rest := "; Path=/; Expires=Thu, 01 Jan" + " 1970 00:00:00 GMT";
      Glue("Set-Cookie: " + "SessionID=", "; Path=/; Expires=Thu, 01 Jan", " 1970 00:00:00 GMT");
      assert "Set-Cookie: " + "SessionID=" + "" == "Set-Cookie: " + "SessionID=";
      ValueOf("", rest);
  }

  lemma ValueOf(token: string, after: string)
    requires ';' !in token && after != "" && after[0] == ';'
    ensures var seen := HttpMessage.FieldIn(["Set-Cookie: " + "SessionID=" + token + after], "Set-Cookie: ");
            seen.Some? && GetSessionToken(seen.value) == token
  {
    var line := "Set-Cookie: " + "SessionID=" + token + after;
    assert line == "Set-Cookie: " + (KEY + token + after);
    assert StartsWith(line, "Set-Cookie: ") && line[|"Set-Cookie: "|..] == KEY + token + after;
    hide GetSessionToken;
    TokenInValue(token, after, KEY + token + after);
  }

  lemma TokenInValue(token: string, after: string, value: string)
    requires ';' !in token && after != "" && after[0] == ';' && value == KEY + token + after
    ensures GetSessionToken(value) == token
  {
    assert !Contains("", KEY);
    assert "" + KEY + token + after == value;
    TokenRoundTrip("", token, after);
  }

  /** A browser that sends back the cookie it has read from a login's reply is the user on its next request. */
  lemma BrowserLogsIn(p: Primitives, h: Handlers, s: Server, login: Request, env: Env, id: string, password: string,
                      dump: Payload -> string, before: string, after: string)
    requires EndpointOf(login) == Login && Value(login.json, "id") == Some(id) && Value(login.json, "password") == Some(password)
    requires IsToken(env.token) && !Contains(before, KEY) && EndsToken(after)
    requires Gets(Dispatch(p, h, s, login, env), login, 200, "OK", Message("Success"), Session(env.token))
    ensures var d := Dispatch(p, h, s, login, env);
            var seen := SetCookieIn(Wire(d.replies[0], dump));
            seen.Some? && CallerId(d.server.tokens, before + KEY + GetSessionToken(seen.value) + after) == id
  {
    LoginIff(p, h, s, login, env, id, password);
    hide Dispatch, EndpointOf, Value, Wire, SetCookieIn, GetSessionToken, Contains;
    CookieSeen(Dispatch(p, h, s, login, env).replies[0], dump);
    LoginTokenReturns(env.token, before, after);
  }

  /** A logout's reply takes the cookie away, and the old one is nobody's from then on. */
  lemma BrowserLogsOut(p: Primitives, h: Handlers, s: Server, logout: Request, env: Env, dump: Payload -> string)
    requires EndpointOf(logout) == Logout && CallerId(s.tokens, logout.cookies) != "" && env.lookup.digest
    ensures var d := Dispatch(p, h, s, logout, env);
            && |d.replies| == 1
            && (var seen := SetCookieIn(Wire(d.replies[0], dump)); seen.Some? && GetSessionToken(seen.value) == "")
            && CallerId(d.server.tokens, logout.cookies) == ""
  {
    LogoutEnds(p, h, s, logout, env);
    hide Dispatch, EndpointOf, Wire, SetCookieIn, GetSessionToken;
    CookieSeen(Dispatch(p, h, s, logout, env).replies[0], dump);
  }

  // ---------- The deployed handlers ----------

  /** The handler of /health: a fixed response that carries connId 0. */
  function Health(r: Request): Reply {
    Plain(0, 200, "OK")
  }

  /** The handlers that WebServerController registers. */
  const DEPLOYED: Handlers := map["/health" := Health]

  /** Dispatch answers the request itself: everything but a /health request whose session lookup returns. */
  predicate OwnReply(r: Request, env: Env) {
    r.url != "/health" || LookupThrows(env.lookup)
  }

  lemma HealthIsUnrouted(r: Request)
    requires r.url == "/health"
    ensures EndpointOf(r) == Unrouted && !IsStatic(r.url) && !StartsWith(r.url, "/api")
  {
    assert "/health"[1] == 'h' && "/api"[1] == 'a';
    RoutesAreGuarded(r);
  }

  lemma HealthThrows(p: Primitives, s: Server, r: Request, env: Env)
    requires r.url == "/health" && LookupThrows(env.lookup)
    ensures Dispatch(p, DEPLOYED, s, r, env) == Same(s, Caught(r))
  {
    HealthIsUnrouted(r);
    ServerRuns.ApiAreas(r.url);
    hide EndpointOf, IsStatic, IsAdminArea, IsApi, MimeOf, GetSessionToken;
  }

  /** The one reply, and to whom, unless the request ends the process. */
  lemma DeployedReply(p: Primitives, s: Server, r: Request, env: Env)
    ensures var d := Dispatch(p, DEPLOYED, s, r, env);
            if Crashes(s, r, env) then d == Step(s, [])
            else |d.replies| == 1
                 && (if OwnReply(r, env)
                     then Answers(d, r) && (d.replies[0].cookie.Session? ==> d.replies[0].cookie.token == env.token)
                     else d.replies[0] == Plain(0, 200, "OK"))
    ensures Crashes(s, r, env) ==> OwnReply(r, env)
  {
    if r.url == "/health" {
      HealthIsUnrouted(r);
      if LookupThrows(env.lookup) {
        HealthThrows(p, s, r, env);
      } else {
        ServerRuns.HandlerAnswers(p, DEPLOYED, s, r, env);
      }
    } else {
      DispatchAnswers(p, DEPLOYED, s, r, env);
    }
    hide Dispatch, EndpointOf, IsStatic;
  }

  /** None if the request ends the process. */
  function ReplyTo(p: Primitives, s: Server, r: Request, env: Env): Option<Reply> {
    DeployedReply(p, s, r, env);
    if Crashes(s, r, env) then None else Some(Dispatch(p, DEPLOYED, s, r, env).replies[0])
  }

  /** What the client should read. */
  function BodyOf(reply: Reply, dump: Payload -> string): string {
    match reply
    case Reply(_, _, _, _, payload, _) => dump(payload)
    case Plain(_, _, text) => text
  }

  predicate ReadsBack(text: string, body: string) {
    var m := HttpMessage.ReadMessage(text);
    m.Some? && m.value.body == body && m.value.rest == ""
  }

  lemma DeployedReadsBack(p: Primitives, s: Server, r: Request, env: Env, dump: Payload -> string)
    requires IsToken(env.token) && !Crashes(s, r, env)
    ensures var reply := ReplyTo(p, s, r, env).value; ReadsBack(Wire(reply, dump), BodyOf(reply, dump))
  {
    DeployedReply(p, s, r, env);
    hide Dispatch, HttpMessage.ReadMessage, Crashes;
    var reply := ReplyTo(p, s, r, env).value;
    if OwnReply(r, env) {
      ReplyIsReadable(reply, dump);
    } else {
      HttpMessage.EnvelopeRoundTrip(200, "OK");
    }
  }

  // ---------- One request among others ----------

  /**
   In the run, connection `n` enters the table at `i`, and its request is dispatched at `j`. Then the reply is
   published; or there is none, the process has ended, and the run with it.
   */
  predicate ServedAt(es: seq<Net.Event>, n: nat, i: nat, j: nat, reply: Option<Reply>, dump: Payload -> string) {
    && i < j <= |es| && es[i] == Net.Emplace(n) && Net.NoAnswerIn(es[i + 1..j], n)
    && match reply
       case None => j == |es|
       case Some(reply) =>
         j < |es| && es[j] == Net.Respond(reply.connId, Wire(reply, dump)) && Net.NoAnswerIn(es[j + 1..], n)
  }

  /** There is a reply, and it goes out under the number by which the connection is known. */
  predicate ComesBack(s: Server, r: Request, env: Env) {
    !Crashes(s, r, env) && (OwnReply(r, env) || r.connId == 0)
  }

  /**
   Over every interleaving: if the reply comes back, it is written to the descriptor the request arrived on
   exactly when its call `k` writes, once, and closed once; the call can always go on until both have
   happened; and the client reads the payload.
   */
  lemma RequestIsAnswered(p: Primitives, s: Server, r: Request, env: Env, dump: Payload -> string,
                          es: seq<Net.Event>, n: nat, i: nat, j: nat) returns (k: nat)
    requires Net.Legal(Net.START, es) && |Net.Exec(Net.START, es).accepted| <= TWO_32
    requires r.connId == Net.ConnId(n) && IsToken(env.token) && ComesBack(s, r, env)
    requires ServedAt(es, n, i, j, ReplyTo(p, s, r, env), dump)
    ensures var net, reply := Net.Exec(Net.START, es), ReplyTo(p, s, r, env).value;
            var text := Wire(reply, dump);
            && n < |net.accepted|
            && Net.SentOn(net.sent, n)
               == (if Net.Write(k) in es[j..] then [Net.Sent(r.connId, n, net.accepted[n], text)] else [])
            && Net.ClosedOn(net.closed, n)
               == (if Net.Close(k) in es[j..] then [Net.Closed(n, net.accepted[n])] else [])
            && (Net.Enabled(net, Net.Write(k)) <==> Net.Write(k) !in es[j..])
            && (Net.Enabled(net, Net.Close(k)) <==> Net.Write(k) in es[j..] && Net.Close(k) !in es[j..])
            && (Net.InCall(k) in net.owner ==> net.owner[Net.InCall(k)].n == n)
            && ReadsBack(text, BodyOf(reply, dump))
  {
    DeployedReply(p, s, r, env);
    DeployedReadsBack(p, s, r, env, dump);
    hide Dispatch, Crashes, Wire, BodyOf, ReadsBack, Net.Legal, Net.Exec, Net.Enabled, Net.NoAnswerIn, Net.SentOn, Net.ClosedOn;
    k := Net.AnsweredInAnyRun(es, n, i, j, Wire(ReplyTo(p, s, r, env).value, dump));
  }

  /** Some continuation, without another response to the connection, has written to it; a process that has ended has none. */
  ghost predicate MayBeAnswered(net: Net.Net, n: nat, up: bool) {
    exists more :: Net.Legal(net, more) && (up || more == []) && Net.NoAnswerIn(more, n)
                   && Net.SentTo(Net.Exec(net, more).sent, n)
  }

  lemma WaitsInVain(net: Net.Net, n: nat, up: bool)
    requires Net.Waiting(net, n)
    ensures !MayBeAnswered(net, n, up)
  {
    forall more | Net.Legal(net, more) && Net.NoAnswerIn(more, n) ensures !Net.SentTo(Net.Exec(net, more).sent, n) {
      Net.StaysWaiting(net, more, n);
    }
  }

  lemma {:induction false} SentOnHas(sent: seq<Net.Sent>, n: nat)
    ensures Net.SentOn(sent, n) != [] ==> Net.SentTo(sent, n)
  {
    if sent != [] && Net.SentOn(sent, n) != [] {
      if sent[0].n != n {
        SentOnHas(sent[1..], n);
        var i :| 0 <= i < |sent| - 1 && sent[1..][i].n == n;
        assert sent[i + 1].n == n;
      }
    }
  }

  /**
   Exactly which requests get an answer from the deployed server: those that do not end the process, but not a
   /health request whose lookup does not throw, unless its connection happens to be known as 0. The others are
   never written to, in no continuation.
   */
  lemma AnsweredIff(p: Primitives, s: Server, r: Request, env: Env, dump: Payload -> string,
                    es: seq<Net.Event>, n: nat, i: nat, j: nat)
    requires Net.Legal(Net.START, es) && |Net.Exec(Net.START, es).accepted| <= TWO_32
    requires r.connId == Net.ConnId(n) && IsToken(env.token)
    requires ServedAt(es, n, i, j, ReplyTo(p, s, r, env), dump)
    ensures MayBeAnswered(Net.Exec(Net.START, es), n, !Crashes(s, r, env))
       <==> !Crashes(s, r, env) && (r.url != "/health" || LookupThrows(env.lookup) || Net.ConnId(n) == 0)
  {
    var net := Net.Exec(Net.START, es);
    hide Dispatch, Crashes, Wire, ReadsBack, Net.Legal, Net.Exec, Net.Enabled, Net.NoAnswerIn, Net.SentOn, Net.ClosedOn,
         Net.Waiting;
    DeployedReply(p, s, r, env);
    if ComesBack(s, r, env) {
      var k := RequestIsAnswered(p, s, r, env, dump, es, n, i, j);
      if Net.Write(k) in es[j..] {
        SentOnHas(net.sent, n);
        AlreadyAnswered(net, n);
      } else {
        EnabledWriteOwns(net, k);
        WriteAnswers(net, n, k);
      }
    } else {
      if Crashes(s, r, env) {
        NotDispatched(es, n, i);
      } else {
        NeverServed(es, n, i, j);
      }
      WaitsInVain(net, n, !Crashes(s, r, env));
    }
  }

  /** The run of a connection whose one reply went to another number. */
  lemma NeverServed(es: seq<Net.Event>, n: nat, i: nat, j: nat)
    requires Net.Legal(Net.START, es) && |Net.Exec(Net.START, es).accepted| <= TWO_32
    requires i < j < |es| && es[i] == Net.Emplace(n) && !Net.IsAnswerTo(es[j], n)
    requires Net.NoAnswerIn(es[i + 1..j], n) && Net.NoAnswerIn(es[j + 1..], n)
    ensures Net.Waiting(Net.Exec(Net.START, es), n)
  {
    assert Net.NoAnswerIn(es[i + 1..], n) by {
      assert es[i + 1..] == es[i + 1..j] + [es[j]] + es[j + 1..];
    }
    assert es[i + 1..|es|] == es[i + 1..];
    NotDispatched(es, n, i);
  }

  /** The run of a connection that nothing has answered. */
  lemma NotDispatched(es: seq<Net.Event>, n: nat, i: nat)
    requires Net.Legal(Net.START, es) && |Net.Exec(Net.START, es).accepted| <= TWO_32
    requires i < |es| && es[i] == Net.Emplace(n) && Net.NoAnswerIn(es[i + 1..|es|], n)
    ensures Net.Waiting(Net.Exec(Net.START, es), n)
  {
    assert es[..|es|] == es;
    Net.WaitsForAnswer(es, n, i, |es|);
  }

  lemma AlreadyAnswered(net: Net.Net, n: nat)
    requires Net.SentTo(net.sent, n)
    ensures MayBeAnswered(net, n, true)
  {
    assert Net.Legal(net, []) && Net.Exec(net, []) == net && Net.NoAnswerIn([], n);
  }

  lemma EnabledWriteOwns(net: Net.Net, k: nat)
    requires Net.Enabled(net, Net.Write(k))
    ensures Net.InCall(k) in net.owner
  {
  }

  lemma WriteAnswers(net: Net.Net, n: nat, k: nat)
    requires Net.Enabled(net, Net.Write(k)) && net.owner[Net.InCall(k)].n == n
    ensures MayBeAnswered(net, n, true)
  {
    var es, after := [Net.Write(k)], Net.Next(net, Net.Write(k));
    assert es[1..] == [] && Net.Legal(after, []);
    assert Net.Legal(net, es) && Net.NoAnswerIn(es, n);
    assert Net.Exec(net, es) == after;
    assert after.sent[|after.sent| - 1].n == n;
  }
}
