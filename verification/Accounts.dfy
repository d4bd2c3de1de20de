/**
 What the database is for, without encryption: a map from user ids to accounts and the latest RTSP
 configuration. Every operation takes the outcomes of the library calls it makes, so that failing
 statements and throwing primitives are part of its meaning.
 */
module Accounts {
  import opened Basics

  /** Whether sqlite3_prepare_v2 succeeds, and whether sqlite3_step runs the statement without an engine error. */
  datatype Sql = Sql(prepared: bool, stepped: bool) {
    predicate Works() { prepared && stepped }
  }

  /**
   The library outcomes one database operation meets: its first digest, the encryptions, decryptions
   and password hashes after it, its one or two statements, and the two random IVs it may draw. When
   `seal` is false, `half` says whether the first of two decryptions still succeeded. `lost` are the digests of
   the rows that a listing does not yield, because their decryption throws or the engine stops before them.
   */
  datatype Call = Call(digest: bool, seal: bool, half: bool, first: Sql, second: Sql, iv1: seq<byte>, iv2: seq<byte>,
                       lost: set<string>)

  /** A returned bool, or an exception. */
  datatype Outcome = Done(ok: bool) | Threw

  /** `password` is the password last set. */
  datatype Account = Account(username: string, password: string, role: string, approved: bool, active: bool)

  type Users = map<string, Account>

  datatype Rtsp = Rtsp(name: string, url: string)

  const ADMIN_ID: string := "admin"
  const ADMIN: Account := Account("Administrator", "admin", "admin", true, true)

  function Store(users: Users, id: string, a: Account): Users {
    users[id := a]
  }

  /** The statement that inserts the administrator runs; whether the count before it ran does not matter. */
  predicate BootstrapRuns(call: Call) {
    call.digest && call.first.prepared && call.seal && call.second.Works()
  }

  function Bootstrap(users: Users, call: Call): Users {
    if BootstrapRuns(call) && ADMIN_ID !in users then Store(users, ADMIN_ID, ADMIN) else users
  }

  /** No table changes when it throws. */
  predicate BootstrapThrows(users: Users, call: Call) {
    !call.digest || (call.first.prepared && !(call.first.stepped && ADMIN_ID in users) && !call.seal)
  }

  /** A start initialises the database and, if that throws, once more. */
  datatype Attempts = Attempts(first: Call, second: Call)

  /** The attempt that decides. */
  function Deciding(users: Users, a: Attempts): Call {
    if BootstrapThrows(users, a.first) then a.second else a.first
  }

  function Startup(users: Users, a: Attempts): Users {
    Bootstrap(users, Deciding(users, a))
  }

  /** Both attempts throw: the process ends without having served anything. */
  predicate StartupFails(users: Users, a: Attempts) {
    BootstrapThrows(users, Deciding(users, a))
  }

  function RegisterOutcome(users: Users, id: string, call: Call): Outcome {
    if !call.digest then Threw
    else if !call.first.prepared then Done(false)
    else if call.first.stepped && id in users then Done(false)
    else if !call.seal then Threw
    else Done(call.second.Works() && id !in users)
  }

  function Register(users: Users, id: string, username: string, password: string, call: Call): Users {
    if RegisterOutcome(users, id, call) == Done(true)
    then Store(users, id, Account(username, password, "user", false, true)) else users
  }

  /** UPDATE statements report success whether or not a row matched. */
  function UpdateOutcome(call: Call): Outcome {
    if call.digest then Done(call.first.Works()) else Threw
  }

  function Approve(users: Users, id: string, call: Call): Users {
    if UpdateOutcome(call) == Done(true) && id in users then Store(users, id, users[id].(approved := true)) else users
  }

  function Evict(users: Users, id: string, call: Call): Users {
    if UpdateOutcome(call) == Done(true) && id in users then Store(users, id, users[id].(active := false)) else users
  }

  function ProfileOutcome(call: Call): Outcome {
    if !call.digest then Threw
    else if !call.first.prepared then Done(false)
    else if !call.seal then Threw
    else Done(call.first.stepped)
  }

  /** An empty new password leaves the password alone. */
  function UpdateProfile(users: Users, id: string, username: string, password: string, call: Call): Users {
    if ProfileOutcome(call) == Done(true) && id in users
    then Store(users, id, users[id].(username := username, password := if password == "" then users[id].password else password))
    else users
  }

  predicate LookupThrows(call: Call) {
    !call.digest
  }

  function Lookup(users: Users, id: string, call: Call): (a: Option<Account>)
    ensures a.Some? ==> id in users && a.value == users[id]
  {
    if call.digest && call.first.Works() && call.seal && id in users then Some(users[id]) else None
  }

  /** A failed lookup that has nevertheless written the id to its out-parameter. */
  predicate HalfFilled(users: Users, id: string, call: Call) {
    call.digest && call.first.Works() && !call.seal && call.half && id in users
  }

  function Listing(users: Users, digest: string -> string, call: Call): Users {
    if call.first.prepared then map id | id in users && digest(id) !in call.lost :: users[id] else map[]
  }

  function SaveOutcome(call: Call): Outcome {
    if !call.first.prepared then Done(false)
    else if !call.seal then Threw
    else Done(call.first.stepped)
  }

  function SaveRtsp(latest: Option<Rtsp>, name: string, url: string, call: Call): Option<Rtsp> {
    if SaveOutcome(call) == Done(true) then Some(Rtsp(name, url)) else latest
  }

  function ClearRtsp(latest: Option<Rtsp>, works: bool): Option<Rtsp> {
    if works then None else latest
  }

  function LatestRtsp(latest: Option<Rtsp>, call: Call): Option<Rtsp> {
    if call.first.Works() && call.seal then latest else None
  }
}
