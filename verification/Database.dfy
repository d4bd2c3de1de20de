/**
 The SQLite tables as the program keeps them: users keyed by the SHA-256 of their id with encrypted
 columns, and RTSP rows with increasing ids. The class refines the plain accounts of module Accounts.
 */
module Database {
  import opened Basics
  import opened Accounts
  import opened CryptoHelper

  /** The cryptographic library as functions of what they depend on. */
  datatype Primitives = Primitives(sha256: string -> string, pbkdf2: (string, string) -> string, aead: Aead) {
    /** Decryption inverts encryption, and no two ids share a digest. */
    ghost predicate Ideal() {
      aead.Sound() && forall a, b :: sha256(a) == sha256(b) ==> a == b
    }
  }

  datatype Row = Row(idHash: string, idEnc: string, usernameEnc: string, passwordHash: string,
                     role: string, isApproved: int, isActive: int)

  datatype RtspRow = RtspRow(id: nat, nameEnc: string, urlEnc: string)

  datatype UserRecord = UserRecord(userId: string, username: string, passwordHash: string,
                                   role: string, isApproved: int, isActive: int)

  /** The record of a caller that has not been filled in. */
  const BLANK: UserRecord := UserRecord("", "", "", "", 0, 0)

  // ---------- SQL statements on the users table ----------

  function CountByHash(rows: seq<Row>, hash: string): nat {
    if rows == [] then 0 else (if rows[0].idHash == hash then 1 else 0) + CountByHash(rows[1..], hash)
  }

  function SelectByHash(rows: seq<Row>, hash: string): (r: Option<nat>)
    ensures r.Some? ==> r.value < |rows| && rows[r.value].idHash == hash
    ensures r.None? ==> forall row <- rows :: row.idHash != hash
  {
    if rows == [] then None
    else if rows[0].idHash == hash then Some(0)
    else match SelectByHash(rows[1..], hash)
         case Some(i) => Some(i + 1)
         case None => None
  }

  function UpdateWhere(rows: seq<Row>, hash: string, assign: Row -> Row): (r: seq<Row>)
    ensures |r| == |rows|
    ensures forall i :: 0 <= i < |rows| ==> r[i] == if rows[i].idHash == hash then assign(rows[i]) else rows[i]
  {
    seq(|rows|, i requires 0 <= i < |rows| => if rows[i].idHash == hash then assign(rows[i]) else rows[i])
  }

  /** INSERT succeeds unless the primary key is taken. */
  function InsertRow(rows: seq<Row>, row: Row): Option<seq<Row>> {
    if SelectByHash(rows, row.idHash).Some? then None else Some(rows + [row])
  }

  /** ORDER BY id DESC LIMIT 1 */
  function LatestRow(rows: seq<RtspRow>): Option<RtspRow> {
    if rows == [] then None
    else match LatestRow(rows[1..])
         case None => Some(rows[0])
         case Some(r) => if r.id > rows[0].id then Some(r) else Some(rows[0])
  }

  // ---------- The refinement relation ----------

  function Flag(b: bool): int {
    if b then 1 else 0
  }

  ghost predicate Hides(c: Primitives, key: string, enc: string, plain: string) {
    Decrypt(c.aead, enc, key, true) == Ok(plain)
  }

  ghost predicate RowFor(c: Primitives, key: string, row: Row, id: string, a: Account) {
    && row.idHash == c.sha256(id)
    && Hides(c, key, row.idEnc, id)
    && Hides(c, key, row.usernameEnc, a.username)
    && row.passwordHash == c.pbkdf2(a.password, id)
    && row.role == a.role
    && row.isApproved == Flag(a.approved)
    && row.isActive == Flag(a.active)
  }

  /** The rows represent exactly the accounts, row i that of ids[i], each account once. */
  ghost predicate TableFor(c: Primitives, key: string, rows: seq<Row>, ids: seq<string>, users: Users) {
    && |ids| == |rows|
    && (forall i, j :: 0 <= i < j < |ids| ==> ids[i] != ids[j])
    && (forall i :: 0 <= i < |ids| ==> ids[i] in users && RowFor(c, key, rows[i], ids[i], users[ids[i]]))
    && (forall id <- users :: id in ids)
  }

  ghost predicate RtspFor(c: Primitives, key: string, rows: seq<RtspRow>, nextId: nat, latest: Option<Rtsp>) {
    && (forall i, j :: 0 <= i < j < |rows| ==> rows[i].id < rows[j].id)
    && (forall i :: 0 <= i < |rows| ==> rows[i].id < nextId)
    && (latest.None? <==> rows == [])
    && (latest.Some? ==> Hides(c, key, rows[|rows| - 1].nameEnc, latest.value.name)
                         && Hides(c, key, rows[|rows| - 1].urlEnc, latest.value.url))
  }

  function RecordOf(c: Primitives, id: string, a: Account): UserRecord {
    UserRecord(id, a.username, c.pbkdf2(a.password, id), a.role, Flag(a.approved), Flag(a.active))
  }

  predicate IsListed(all: seq<UserRecord>, id: string) {
    exists i :: 0 <= i < |all| && all[i].userId == id
  }

  // ---------- Statements on represented tables ----------

  lemma SelectById(c: Primitives, key: string, rows: seq<Row>, ids: seq<string>, users: Users, id: string)
    requires c.Ideal() && TableFor(c, key, rows, ids, users)
    ensures SelectByHash(rows, c.sha256(id)).Some? <==> id in users
    ensures id in users ==> ids[SelectByHash(rows, c.sha256(id)).value] == id
  {
    if id in users {
      var i :| 0 <= i < |ids| && ids[i] == id;
      assert rows[i] in rows && RowFor(c, key, rows[i], ids[i], users[ids[i]]);
    }
  }

  lemma {:induction false} CountFinds(rows: seq<Row>, hash: string)
    ensures CountByHash(rows, hash) > 0 <==> SelectByHash(rows, hash).Some?
  {
    if rows != [] {
      CountFinds(rows[1..], hash);
    }
  }

  lemma InsertRefines(c: Primitives, key: string, rows: seq<Row>, ids: seq<string>, users: Users,
                      row: Row, id: string, a: Account)
    requires c.Ideal() && TableFor(c, key, rows, ids, users) && RowFor(c, key, row, id, a)
    ensures InsertRow(rows, row).Some? <==> id !in users
    ensures id !in users ==> TableFor(c, key, rows + [row], ids + [id], Store(users, id, a))
  {
    hide Decrypt;
    SelectById(c, key, rows, ids, users, id);
    if id !in users {
      var ids', users' := ids + [id], Store(users, id, a);
      assert ids'[|ids|] == id;
      forall u | u in users' ensures u in ids' {
        if u != id { assert u in ids; }
      }
    }
  }

  lemma UpdateRefines(c: Primitives, key: string, rows: seq<Row>, ids: seq<string>, users: Users,
                      id: string, assign: Row -> Row, a: Account)
    requires c.Ideal() && TableFor(c, key, rows, ids, users)
    requires id in users ==> forall row :: RowFor(c, key, row, id, users[id]) ==> RowFor(c, key, assign(row), id, a)
    ensures TableFor(c, key, UpdateWhere(rows, c.sha256(id), assign), ids, if id in users then Store(users, id, a) else users)
  {
    var rows' := UpdateWhere(rows, c.sha256(id), assign);
    forall i | 0 <= i < |ids|
      ensures ids[i] != id ==> rows'[i] == rows[i]
      ensures ids[i] == id ==> RowFor(c, key, rows'[i], id, a)
    {
      assert RowFor(c, key, rows[i], ids[i], users[ids[i]]);
    }
  }

  function SetApproved(row: Row): Row {
    row.(isApproved := 1)
  }

  function SetInactive(row: Row): Row {
    row.(isActive := 0)
  }

  /** UPDATE users SET is_approved = 1 WHERE user_id_hash = ? */
  lemma ApproveRefines(c: Primitives, key: string, rows: seq<Row>, ids: seq<string>, users: Users, id: string)
    requires c.Ideal() && TableFor(c, key, rows, ids, users)
    ensures TableFor(c, key, UpdateWhere(rows, c.sha256(id), SetApproved), ids,
                     if id in users then Store(users, id, users[id].(approved := true)) else users)
  {
    hide Decrypt;
    UpdateRefines(c, key, rows, ids, users, id, SetApproved, if id in users then users[id].(approved := true) else ADMIN);
  }

  /** UPDATE users SET is_active = 0 WHERE user_id_hash = ? */
  lemma EvictRefines(c: Primitives, key: string, rows: seq<Row>, ids: seq<string>, users: Users, id: string)
    requires c.Ideal() && TableFor(c, key, rows, ids, users)
    ensures TableFor(c, key, UpdateWhere(rows, c.sha256(id), SetInactive), ids,
                     if id in users then Store(users, id, users[id].(active := false)) else users)
  {
    hide Decrypt;
    UpdateRefines(c, key, rows, ids, users, id, SetInactive, if id in users then users[id].(active := false) else ADMIN);
  }

  /** UPDATE users SET username_enc = ? [, password_hash = ?] WHERE user_id_hash = ? */
  lemma ProfileRefines(c: Primitives, key: string, rows: seq<Row>, ids: seq<string>, users: Users, id: string,
                       assign: Row -> Row, username: string, password: string)
    requires c.Ideal() && TableFor(c, key, rows, ids, users)
    requires forall row :: var updated := assign(row);
               && Hides(c, key, updated.usernameEnc, username)
               && updated == row.(usernameEnc := updated.usernameEnc,
                               passwordHash := if password == "" then row.passwordHash else c.pbkdf2(password, id))
    ensures TableFor(c, key, UpdateWhere(rows, c.sha256(id), assign), ids,
                     if id in users
                     then Store(users, id, users[id].(username := username,
                                                      password := if password == "" then users[id].password else password))
                     else users)
  {
    hide Hides;
    if id in users {
      var a := users[id].(username := username, password := if password == "" then users[id].password else password);
      forall row | RowFor(c, key, row, id, users[id]) ensures RowFor(c, key, assign(row), id, a) {
        var updated := assign(row);
        assert updated == row.(usernameEnc := updated.usernameEnc,
                            passwordHash := if password == "" then row.passwordHash else c.pbkdf2(password, id));
      }
      UpdateRefines(c, key, rows, ids, users, id, assign, a);
    } else {
      UpdateRefines(c, key, rows, ids, users, id, assign, ADMIN);
    }
  }

  lemma {:induction false} LatestIsLast(rows: seq<RtspRow>)
    requires forall i, j :: 0 <= i < j < |rows| ==> rows[i].id < rows[j].id
    ensures LatestRow(rows) == if rows == [] then None else Some(rows[|rows| - 1])
  {
    if |rows| > 1 {
      LatestIsLast(rows[1..]);
    }
  }

  // ---------- Listing ----------

  /** `all` are the records of the first `n` ids whose rows are not lost. */
  ghost predicate ListedSoFar(c: Primitives, ids: seq<string>, users: Users, all: seq<UserRecord>, n: nat, lost: set<string>) {
    && n <= |ids|
    && (forall i, j :: 0 <= i < j < |all| ==> all[i].userId != all[j].userId)
    && (forall u <- all :: u.userId in ids[..n] && c.sha256(u.userId) !in lost)
    && (forall u <- all :: u.userId in users && u == RecordOf(c, u.userId, users[u.userId]))
    && (forall k :: 0 <= k < n && c.sha256(ids[k]) !in lost ==> IsListed(all, ids[k]))
  }

  lemma ListOneMore(c: Primitives, ids: seq<string>, users: Users, all: seq<UserRecord>, n: nat, lost: set<string>)
    requires ListedSoFar(c, ids, users, all, n, lost) && n < |ids| && ids[n] in users && c.sha256(ids[n]) !in lost
    requires forall i, j :: 0 <= i < j < |ids| ==> ids[i] != ids[j]
    ensures ListedSoFar(c, ids, users, all + [RecordOf(c, ids[n], users[ids[n]])], n + 1, lost)
  {
    var more := all + [RecordOf(c, ids[n], users[ids[n]])];
    assert ids[..n + 1] == ids[..n] + [ids[n]] && ids[n] !in ids[..n];
    forall i, j | 0 <= i < j < |more| ensures more[i].userId != more[j].userId {
      assert all[i] in all;
    }
    forall k | 0 <= k < n + 1 && c.sha256(ids[k]) !in lost ensures IsListed(more, ids[k]) {
      if k < n {
        var i :| 0 <= i < |all| && all[i].userId == ids[k];
        assert more[i].userId == ids[k];
      } else {
        assert more[|all|].userId == ids[k];
      }
    }
  }

  lemma ListedAll(c: Primitives, ids: seq<string>, users: Users, all: seq<UserRecord>, call: Call)
    requires call.first.prepared && ListedSoFar(c, ids, users, all, |ids|, call.lost) && forall id <- users :: id in ids
    ensures forall id :: id in Listing(users, c.sha256, call) <==> IsListed(all, id)
  {
    forall id | id in Listing(users, c.sha256, call) ensures IsListed(all, id) {
      var k :| 0 <= k < |ids| && ids[k] == id;
    }
    forall id | IsListed(all, id) ensures id in Listing(users, c.sha256, call) {
      var i :| 0 <= i < |all| && all[i].userId == id;
      assert all[i] in all;
    }
  }

  // ---------- The database ----------

  class Database {
    const c: Primitives
    const key: string
    var rows: seq<Row>
    var rtsp: seq<RtspRow>
    var nextRtspId: nat
    ghost var ids: seq<string>           // the id behind each row
    ghost var users: Users               // the accounts the rows stand for
    ghost var latest: Option<Rtsp>       // the configuration the RTSP rows stand for

    ghost predicate Valid()
      reads this
    {
      && c.Ideal()
      && |key| == 32
      && TableFor(c, key, rows, ids, users)
      && RtspFor(c, key, rtsp, nextRtspId, latest)
    }

    /** Tables created empty; the key is the 32-byte digest of the master secret. */
    constructor (c: Primitives, key: string)
      requires c.Ideal() && |key| == 32
      ensures Valid() && users == map[] && latest == None
      ensures this.c == c && this.key == key
    {
      this.c, this.key := c, key;
      rows, rtsp, nextRtspId := [], [], 1;
      ids, users, latest := [], map[], None;
    }

    /** Two encryptions, as every INSERT needs; the plaintexts stay recoverable. */
    method EncryptPair(a: string, b: string, call: Call) returns (ok: bool, encA: string, encB: string)
      requires Valid() && |call.iv1| == 12 && |call.iv2| == 12
      ensures ok == call.seal
      ensures ok ==> Hides(c, key, encA, a) && Hides(c, key, encB, b)
    {
      hide Decrypt, Encrypt;
      encA, encB := "", "";
      EncryptThenDecrypt(c.aead, a, key, call.iv1, call.seal);
      EncryptThenDecrypt(c.aead, b, key, call.iv2, call.seal);
      var ra := EncryptAES256GCM(c.aead, a, key, call.iv1, call.seal);
      var rb := EncryptAES256GCM(c.aead, b, key, call.iv2, call.seal);
      ok := ra.Ok? && rb.Ok?;
      if ok {
        encA, encB := ra.value, rb.value;
      }
    }

    method BootstrapAdmin(call: Call) returns (threw: bool)
      requires Valid() && |call.iv1| == 12 && |call.iv2| == 12
      modifies this`rows, this`ids, this`users
      ensures Valid() && users == Bootstrap(old(users), call)
      ensures threw == BootstrapThrows(old(users), call) && (threw ==> rows == old(rows))
    {
      hide Decrypt, Encrypt;
      threw := false;
      if !call.digest {
        return true;
      }
      if !call.first.prepared {
        return;
      }
      var idHash := c.sha256(ADMIN_ID);
      var count := if call.first.stepped then CountByHash(rows, idHash) else 0;
      CountFinds(rows, idHash);
      SelectById(c, key, rows, ids, users, ADMIN_ID);
      if count == 0 {
        var pwHash := c.pbkdf2("admin", ADMIN_ID);
        var ok, encId, encUsername := EncryptPair(ADMIN_ID, "Administrator", call);
        if !ok {
          return true;
        }
        if !call.second.Works() {
          return;
        }
        var row := Row(idHash, encId, encUsername, pwHash, "admin", 1, 1);
        InsertRefines(c, key, rows, ids, users, row, ADMIN_ID, ADMIN);
        var inserted := InsertRow(rows, row);
        if inserted.Some? {
          rows := inserted.value;
          ids, users := ids + [ADMIN_ID], Store(users, ADMIN_ID, ADMIN);
        }
      }
    }

    method RegisterUser(userId: string, username: string, password: string, call: Call) returns (r: Outcome)
      requires Valid() && |call.iv1| == 12 && |call.iv2| == 12
      modifies this`rows, this`ids, this`users
      ensures Valid() && users == Register(old(users), userId, username, password, call)
      ensures r == RegisterOutcome(old(users), userId, call)
    {
      hide Decrypt, Encrypt;
      if !call.digest {
        return Threw;
      }
      var idHash := c.sha256(userId);
      if !call.first.prepared {
        return Done(false);
      }
      var count := if call.first.stepped then CountByHash(rows, idHash) else 0;
      CountFinds(rows, idHash);
      SelectById(c, key, rows, ids, users, userId);
      if count > 0 {
        return Done(false);
      }
      var ok, encId, encUsername := EncryptPair(userId, username, call);
      if !ok {
        return Threw;
      }
      var pwHash := c.pbkdf2(password, userId);
      if !call.second.Works() {
        return Done(false);
      }
      var row := Row(idHash, encId, encUsername, pwHash, "user", 0, 1);
      ghost var a := Account(username, password, "user", false, true);
      InsertRefines(c, key, rows, ids, users, row, userId, a);
      var inserted := InsertRow(rows, row);
      if inserted.None? {
        return Done(false);
      }
      rows := inserted.value;
      ids, users := ids + [userId], Store(users, userId, a);
      r := Done(true);
    }

    method ApproveUser(userId: string, call: Call) returns (r: Outcome)
      requires Valid()
      modifies this`rows, this`users
      ensures Valid() && users == Approve(old(users), userId, call) && r == UpdateOutcome(call)
    {
      hide Decrypt, Encrypt;
      if !call.digest {
        return Threw;
      }
      if !call.first.Works() {
        return Done(false);
      }
      ApproveRefines(c, key, rows, ids, users, userId);
      hide TableFor, RtspFor;
      rows := UpdateWhere(rows, c.sha256(userId), SetApproved);
      users := Approve(users, userId, call);
      r := Done(true);
    }

    method EvictUser(userId: string, call: Call) returns (r: Outcome)
      requires Valid()
      modifies this`rows, this`users
      ensures Valid() && users == Evict(old(users), userId, call) && r == UpdateOutcome(call)
    {
      hide Decrypt, Encrypt;
      if !call.digest {
        return Threw;
      }
      if !call.first.Works() {
        return Done(false);
      }
      EvictRefines(c, key, rows, ids, users, userId);
      hide TableFor, RtspFor;
      rows := UpdateWhere(rows, c.sha256(userId), SetInactive);
      users := Evict(users, userId, call);
      r := Done(true);
    }

    method UpdateUserProfile(userId: string, newUsername: string, newPassword: string, call: Call) returns (r: Outcome)
      requires Valid() && |call.iv1| == 12
      modifies this`rows, this`users
      ensures Valid() && users == UpdateProfile(old(users), userId, newUsername, newPassword, call)
      ensures r == ProfileOutcome(call)
    {
      hide Decrypt, Encrypt;
      if !call.digest {
        return Threw;
      }
      if !call.first.prepared {
        return Done(false);
      }
      EncryptThenDecrypt(c.aead, newUsername, key, call.iv1, call.seal);
      var enc := EncryptAES256GCM(c.aead, newUsername, key, call.iv1, call.seal);
      if enc.Err? {
        return Threw;
      }
      if !call.first.stepped {
        return Done(false);
      }
      var pwHash := c.pbkdf2(newPassword, userId);
      var encUsername := enc.value;
      var setProfile := if newPassword != ""
                        then (row: Row) => row.(usernameEnc := encUsername, passwordHash := pwHash)
                        else (row: Row) => row.(usernameEnc := encUsername);
      ProfileRefines(c, key, rows, ids, users, userId, setProfile, newUsername, newPassword);
      hide TableFor, RtspFor;
      rows := UpdateWhere(rows, c.sha256(userId), setProfile);
      users := UpdateProfile(users, userId, newUsername, newPassword, call);
      r := Done(true);
    }

    /** An exception of the first digest leaves the method; later ones are caught inside. */
    method GetUser(userId: string, call: Call) returns (threw: bool, found: bool, user: UserRecord)
      requires Valid()
      ensures threw == LookupThrows(call)
      ensures !threw ==> (found <==> Lookup(users, userId, call).Some?)
      ensures !threw && found ==> user == RecordOf(c, userId, users[userId])
      ensures !threw && !found ==> user == if HalfFilled(users, userId, call) then BLANK.(userId := userId) else BLANK
    {
      hide Decrypt, Encrypt;
      threw, found, user := false, false, BLANK;
      if !call.digest {
        return true, false, BLANK;
      }
      if !call.first.Works() {
        return;
      }
      SelectById(c, key, rows, ids, users, userId);
      var at := SelectByHash(rows, c.sha256(userId));
      if at.Some? {
        var row := rows[at.value];
        DecryptNeedsLibrary(c.aead, row.idEnc, key);
        DecryptNeedsLibrary(c.aead, row.usernameEnc, key);
        var id := DecryptAES256GCM(c.aead, row.idEnc, key, call.seal || call.half);
        if id.Err? {
          return;
        }
        user := user.(userId := id.value);
        var username := DecryptAES256GCM(c.aead, row.usernameEnc, key, call.seal);
        if username.Err? {
          return;
        }
        found := true;
        user := UserRecord(id.value, username.value, row.passwordHash, row.role, row.isApproved, row.isActive);
      }
    }

    /** Every account whose row can be read, each exactly once, with its current record. */
    method GetAllUsers(call: Call) returns (all: seq<UserRecord>)
      requires Valid()
      ensures forall i, j :: 0 <= i < j < |all| ==> all[i].userId != all[j].userId
      ensures forall id :: id in Listing(users, c.sha256, call) <==> IsListed(all, id)
      ensures forall u <- all :: u.userId in users && u == RecordOf(c, u.userId, users[u.userId])
    {
      hide Decrypt, Encrypt;
      all := [];
      if !call.first.prepared {
        return;
      }
      for i := 0 to |rows|
        invariant ListedSoFar(c, ids, users, all, i, call.lost)
      {
        var row := rows[i];
        assert RowFor(c, key, row, ids[i], users[ids[i]]);
        var readable := row.idHash !in call.lost;
        DecryptNeedsLibrary(c.aead, row.idEnc, key);
        var id := DecryptAES256GCM(c.aead, row.idEnc, key, readable);
        var username := DecryptAES256GCM(c.aead, row.usernameEnc, key, readable);
        if id.Ok? && username.Ok? {
          ListOneMore(c, ids, users, all, i, call.lost);
          all := all + [UserRecord(id.value, username.value, row.passwordHash, row.role, row.isApproved, row.isActive)];
        }
      }
      ListedAll(c, ids, users, all, call);
    }

    method SaveRtspConfig(name: string, url: string, call: Call) returns (r: Outcome)
      requires Valid() && |call.iv1| == 12 && |call.iv2| == 12
      modifies this`rtsp, this`nextRtspId, this`latest
      ensures Valid() && latest == SaveRtsp(old(latest), name, url, call) && r == SaveOutcome(call)
    {
      hide Decrypt, Encrypt;
      if !call.first.prepared {
        return Done(false);
      }
      var ok, encName, encUrl := EncryptPair(name, url, call);
      if !ok {
        return Threw;
      }
      if !call.first.stepped {
        return Done(false);
      }
      rtsp := rtsp + [RtspRow(nextRtspId, encName, encUrl)];
      nextRtspId := nextRtspId + 1;
      latest := Some(Rtsp(name, url));
      r := Done(true);
    }

    method GetLatestRtspConfig(call: Call) returns (config: Option<Rtsp>)
      requires Valid()
      ensures config == LatestRtsp(latest, call)
    {
      hide Decrypt, Encrypt;
      config := None;
      if !call.first.Works() {
        return;
      }
      LatestIsLast(rtsp);
      var row := LatestRow(rtsp);
      if row.Some? {
        DecryptNeedsLibrary(c.aead, row.value.nameEnc, key);
        var name := DecryptAES256GCM(c.aead, row.value.nameEnc, key, call.seal);
        var url := DecryptAES256GCM(c.aead, row.value.urlEnc, key, call.seal);
        if name.Ok? && url.Ok? {
          config := Some(Rtsp(name.value, url.value));
        }
      }
    }

    method ClearRtspConfigs(works: bool) returns (r: bool)
      requires Valid()
      modifies this`rtsp, this`latest
      ensures Valid() && latest == ClearRtsp(old(latest), works) && r == works
    {
      hide Decrypt, Encrypt;
      if works {
        rtsp := [];
        latest := None;
      }
      r := works;
    }
  }
}
