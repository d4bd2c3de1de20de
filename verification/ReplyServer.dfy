/**
 The request handler as an object over the database, the session map and the relayer. Each endpoint's
 method carries out the step that module Requests specifies.
 */
module ReplyServer {
  import opened Basics
  import opened Accounts
  import opened Cookies
  import opened Database
  import opened Requests
  import Relay = StreamRelayer

  /** Random IVs have twelve bytes. */
  predicate EnvOk(env: Env) {
    |env.op.iv1| == 12 && |env.op.iv2| == 12
  }

  class ReplyServer {
    const db: Database
    const relayer: Relay.StreamRelayer
    const handlers: Handlers
    var sessions: map<string, string>    // g_activeSessions: token to user id

    constructor (db: Database, relayer: Relay.StreamRelayer, handlers: Handlers)
      requires db.Valid() && relayer.Valid()
      ensures Valid() && this.db == db && this.relayer == relayer && this.handlers == handlers
      ensures relayer.Stream() == None ==> View() == Server(db.users, db.latest, map[], None)
    {
      this.db, this.relayer, this.handlers, sessions := db, relayer, handlers, map[];
    }

    ghost predicate Valid()
      reads this, db, relayer
    {
      db.Valid() && relayer.Valid()
    }

    ghost function View(): Server
      reads this, db, relayer
    {
      Server(db.users, db.latest, sessions, relayer.Stream())
    }

    method GetUserIdFromSession(cookies: string) returns (id: string)
      ensures id == CallerId(sessions, cookies)
      ensures forall t <- sessions :: t != "" && Names(cookies, t) ==> id == sessions[t]
      ensures id != "" ==> exists t <- sessions :: t != "" && Names(cookies, t) && sessions[t] == id
    {
      forall t | t in sessions && Names(cookies, t) ensures GetSessionToken(cookies) == t {
        TokenIff(cookies, t);
      }
      if CallerId(sessions, cookies) != "" {
        CallerIff(sessions, cookies, CallerId(sessions, cookies));
      }
      hide GetSessionToken, Names;
      var token := GetSessionToken(cookies);
      if token == "" {
        return "";
      }
      if token in sessions {
        return sessions[token];
      }
      return "";
    }

    /** The iterate-and-erase loop of eviction, in whatever order the map yields its entries. */
    method EraseSessionsOf(targetId: string)
      modifies this`sessions
      ensures sessions == WithoutUser(old(sessions), targetId)
    {
      var todo := sessions.Keys;
      while todo != {}
        invariant todo <= sessions.Keys <= old(sessions).Keys
        invariant forall t <- sessions :: sessions[t] == old(sessions)[t] && (t in todo || sessions[t] != targetId)
        invariant forall t <- old(sessions) :: t !in sessions ==> old(sessions)[t] == targetId
        decreases todo
      {
        var t :| t in todo;
        if sessions[t] == targetId {
          sessions := sessions - {t};
        }
        todo := todo - {t};
      }
    }

    method HandleRegister(r: Request, env: Env) returns (replies: seq<Reply>)
      requires Valid() && EnvOk(env)
      modifies db
      ensures Valid() && Step(View(), replies) == DoRegister(old(View()), r, env)
    {
      var id, username, password := Value(r.json, "id"), Value(r.json, "username"), Value(r.json, "password");
      if id.None? || username.None? || password.None? {
        return CatchBodyError(r);
      }
      if id.value == "" || username.value == "" || password.value == "" {
        return [Refuse(r, 400, "Missing required fields")];
      }
      var outcome := db.RegisterUser(id.value, username.value, password.value, env.op);
      match outcome
      case Threw => replies := [Caught(r)];
      case Done(ok) =>
        if ok {
          replies := [Json200(r, Message("Registration pending approval!"))];
        } else {
          replies := [Refuse(r, 400, "Registration failed. ID is already taken or banned.")];
        }
    }

    method HandleLogin(r: Request, env: Env) returns (replies: seq<Reply>)
      requires Valid()
      modifies this`sessions
      ensures Valid() && Step(View(), replies) == DoLogin(db.c, old(View()), r, env)
    {
      hide TableFor, RtspFor;
      var id, password := Value(r.json, "id"), Value(r.json, "password");
      if id.None? || password.None? {
        return CatchBodyError(r);
      }
      var threw, found, user := db.GetUser(id.value, env.lookup);
      if threw {
        return [Caught(r)];
      }
      if !found || user.isActive == 0 {
        return [Refuse(r, 401, "Invalid ID or password")];
      }
      if user.isApproved == 0 {
        return [Refuse(r, 401, "Account pending administrator approval")];
      }
      if !env.op.digest {
        return [Caught(r)];
      }
      var calculatedHash := db.c.pbkdf2(password.value, id.value);
      if calculatedHash != user.passwordHash {
        return [Refuse(r, 401, "Invalid ID or password")];
      }
      sessions := sessions[env.token := id.value];
      replies := [Json200(r, Message("Success"), Session(env.token))];
    }

    method HandleLogout(r: Request) returns (replies: seq<Reply>)
      requires Valid()
      modifies this`sessions
      ensures Valid() && Step(View(), replies) == DoLogout(old(View()), r)
    {
      var token := GetSessionToken(r.cookies);
      if token != "" {
        sessions := sessions - {token};
      }
      replies := [Json200(r, Message("Success"), Expired)];
    }

    method HandleUpdate(r: Request, caller: string, env: Env) returns (replies: seq<Reply>)
      requires Valid() && EnvOk(env)
      modifies db
      ensures Valid() && Step(View(), replies) == DoUpdateMe(old(View()), r, caller, env)
    {
      var username, password := Value(r.json, "username"), Value(r.json, "password");
      if username.None? || password.None? {
        return CatchBodyError(r);
      }
      if username.value == "" {
        return [Refuse(r, 400, "Username cannot be empty")];
      }
      var outcome := db.UpdateUserProfile(caller, username.value, password.value, env.op);
      match outcome
      case Threw => replies := [Caught(r)];
      case Done(ok) =>
        if ok {
          replies := [Json200(r, Message("Success"))];
        } else {
          replies := [Refuse(r, 500, "Update failed")];
        }
    }

    method HandleListUsers(r: Request, env: Env) returns (replies: seq<Reply>)
      requires Valid()
      ensures Step(View(), replies) == DoListUsers(db.c, View(), r, env)
    {
      hide TableFor, RtspFor;
      var users := db.GetAllUsers(env.op);
      var arr: map<string, Listed> := map[];
      for i := 0 to |users|
        invariant forall id <- arr :: IsListed(users, id) && id in db.users && arr[id] == ListedOf(db.users[id])
        invariant forall j :: 0 <= j < i ==> users[j].userId in arr
      {
        var u := users[i];
        assert u in users && IsListed(users, u.userId);
        arr := arr[u.userId := Listed(u.username, u.role, u.isApproved, u.isActive)];
      }
      ghost var listing := Listing(db.users, db.c.sha256, env.op);
      assert arr == map id | id in listing :: ListedOf(listing[id]);
      replies := [Json200(r, UserList(arr))];
    }

    method HandleApprove(r: Request, env: Env) returns (replies: seq<Reply>)
      requires Valid()
      modifies db
      ensures Valid() && Step(View(), replies) == DoApprove(old(View()), r, env)
    {
      var target := Value(r.json, "id");
      if target.None? {
        return CatchBodyError(r);
      }
      var outcome := db.ApproveUser(target.value, env.op);
      match outcome
      case Threw => replies := [Caught(r)];
      case Done(ok) =>
        if ok {
          replies := [Json200(r, Message("Success"))];
        } else {
          replies := [Refuse(r, 500, "Approval failed")];
        }
    }

    method HandleEvict(r: Request, env: Env) returns (replies: seq<Reply>)
      requires Valid()
      modifies this`sessions, db
      ensures Valid() && Step(View(), replies) == DoEvict(old(View()), r, env)
    {
      var target := Value(r.json, "id");
      if target.None? {
        return CatchBodyError(r);
      }
      if target.value == ADMIN_ID {
        return [Refuse(r, 400, "Cannot ban the root admin")];
      }
      var outcome := db.EvictUser(target.value, env.op);
      match outcome
      case Threw => replies := [Caught(r)];
      case Done(ok) =>
        if ok {
          EraseSessionsOf(target.value);
          replies := [Json200(r, Message("Success"))];
        } else {
          replies := [Refuse(r, 500, "Eviction failed")];
        }
    }

    method HandleGetRtsp(r: Request, env: Env) returns (replies: seq<Reply>)
      requires Valid()
      ensures Step(View(), replies) == DoGetRtsp(View(), r, env)
    {
      var config := db.GetLatestRtspConfig(env.op);
      var arr: seq<Rtsp> := [];
      if config.Some? {
        arr := arr + [config.value];
        assert arr == [config.value];
      }
      replies := [Json200(r, RtspList(arr))];
    }

    method HandleSaveRtsp(r: Request, env: Env) returns (replies: seq<Reply>)
      requires Valid() && EnvOk(env)
      modifies db, relayer
      ensures Valid() && Step(View(), replies) == DoSaveRtsp(old(View()), r, env)
    {
      var name, url := Value(r.json, "name"), Value(r.json, "url");
      if name.None? || url.None? {
        return CatchBodyError(r);
      }
      if name.value == "" || url.value == "" {
        return [Refuse(r, 400, "Missing fields")];
      }
      var _ := db.ClearRtspConfigs(env.clearWorks);
      var outcome := db.SaveRtspConfig(name.value, url.value, env.op);
      match outcome
      case Threw => replies := [Caught(r)];
      case Done(ok) =>
        if ok {
          relayer.Start(url.value);
          replies := [Json200(r, Message("Stream started successfully"))];
        } else {
          replies := [Refuse(r, 500, "Failed to save config")];
        }
    }

    method HandleStopRtsp(r: Request) returns (replies: seq<Reply>)
      requires Valid()
      modifies relayer
      ensures Valid() && Step(View(), replies) == DoStopRtsp(old(View()), r)
    {
      relayer.Stop();
      replies := [Json200(r, Message("Stream stopped successfully"))];
    }

    method HandleFallback(r: Request) returns (replies: seq<Reply>)
      requires Valid()
      ensures Step(View(), replies) == Fallback(handlers, View(), r)
    {
      if r.url in handlers {
        replies := [handlers[r.url](r)];
      } else {
        replies := [Refuse(r, 404, "Not Found")];
      }
    }

    /** The administrator's endpoints and the fallback, after the role check. */
    method HandleGuarded(r: Request, env: Env) returns (replies: seq<Reply>)
      requires Valid() && EnvOk(env) && EndpointOf(r) !in {RegisterUser, Login, Logout, Me, UpdateMe}
      modifies this, db, relayer
      ensures Valid()
      ensures Step(View(), replies)
           == match EndpointOf(r)
              case ListUsers => DoListUsers(db.c, old(View()), r, env)
              case ApproveUser => DoApprove(old(View()), r, env)
              case EvictUser => DoEvict(old(View()), r, env)
              case GetRtsp => DoGetRtsp(old(View()), r, env)
              case SaveRtspUrl => DoSaveRtsp(old(View()), r, env)
              case StopRtsp => DoStopRtsp(old(View()), r)
              case _ => Fallback(handlers, old(View()), r)
    {
      hide EndpointOf, DoListUsers, DoApprove, DoEvict, DoGetRtsp, DoSaveRtsp, DoStopRtsp, Fallback;
      match EndpointOf(r)
      case ListUsers => replies := HandleListUsers(r, env);
      case ApproveUser => replies := HandleApprove(r, env);
      case EvictUser => replies := HandleEvict(r, env);
      case GetRtsp => replies := HandleGetRtsp(r, env);
      case SaveRtspUrl => replies := HandleSaveRtsp(r, env);
      case StopRtsp => replies := HandleStopRtsp(r);
      case _ => replies := HandleFallback(r);
    }

    method HandleMe(r: Request, user: UserRecord, ghost callerId: string, ghost account: Option<Account>, ghost half: bool)
      returns (replies: seq<Reply>)
      requires Valid()
      requires user == match account
                       case None => if half then BLANK.(userId := callerId) else BLANK
                       case Some(a) => RecordOf(db.c, callerId, a)
      ensures Step(View(), replies) == DoMe(View(), r, callerId, account, half)
    {
      replies := [Json200(r, Profile(user.userId, user.username, user.role))];
    }

    method HandleAuthenticated(r: Request, env: Env) returns (replies: seq<Reply>)
      requires Valid() && EnvOk(env) && EndpointOf(r) !in {RegisterUser, Login}
      modifies this, db, relayer
      ensures Valid() && Step(View(), replies) == DispatchAuthenticated(db.c, handlers, old(View()), r, env)
    {
      hide EndpointOf, IsAdminArea, IsApi, CallerId, DoLogout, DoMe, DoUpdateMe, DoListUsers, DoApprove, DoEvict, DoGetRtsp,
           DoSaveRtsp, DoStopRtsp, Fallback, TableFor, RtspFor, Lookup;
      var callerId := GetUserIdFromSession(r.cookies);
      if callerId == "" && IsApi(r.url) {
        return [Refuse(r, 401, "Unauthorized")];
      }
      var threw, _, user := db.GetUser(callerId, env.lookup);
      if threw {
        return [Caught(r)];
      }
      ghost var account := Lookup(db.users, callerId, env.lookup);
      ghost var half := HalfFilled(db.users, callerId, env.lookup);
      var role := user.role;
      assert role == if account.Some? then account.value.role else "";
      var endpoint := EndpointOf(r);
      if endpoint == Logout {
        replies := HandleLogout(r);
      } else if endpoint == Me {
        replies := HandleMe(r, user, callerId, account, half);
      } else if endpoint == UpdateMe {
        replies := HandleUpdate(r, callerId, env);
      } else {
        if role != "admin" && IsAdminArea(r.url) {
          return [Refuse(r, 403, "Forbidden")];
        }
        replies := HandleGuarded(r, env);
      }
    }

    /** One request, carried out as its specification says. */
    method HandleRequest(r: Request, env: Env) returns (replies: seq<Reply>)
      requires Valid() && EnvOk(env)
      modifies this, db, relayer
      ensures Valid() && Step(View(), replies) == Dispatch(db.c, handlers, old(View()), r, env)
    {
      hide EndpointOf, IsStatic, MimeOf, DoRegister, DoLogin, DispatchAuthenticated;
      if IsStatic(r.url) {
        var content := env.content;
        if content != "" {
          return [Reply(r.connId, 200, ReasonOf(200), MimeOf(r.url), StaticFile(content), NoCookie)];
        }
      }
      match EndpointOf(r)
      case RegisterUser => replies := HandleRegister(r, env);
      case Login => replies := HandleLogin(r, env);
      case _ => replies := HandleAuthenticated(r, env);
    }
  }
}
