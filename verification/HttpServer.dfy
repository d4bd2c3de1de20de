/**
 Who owns which file descriptor. Connections are numbered in the order they are accepted; the number a
 connection is known by (its connId) is a 32-bit counter that wraps. The steps of all sessions, the
 connection table and any number of running writeResponse calls interleave freely, and the operating
 system may hand out a descriptor number again as soon as it is closed.
 */
module HttpServer {
  import opened Basics
  import opened Text
  import opened HttpMessage

  /** The connId of the n-th accepted connection: a 32-bit counter that starts at 1. */
  function ConnId(n: nat): int {
    var v := (1 + n) % TWO_32;
    if v < 0x8000_0000 then v else v - TWO_32
  }

  lemma ConnIdAdvances(n: nat)
    ensures ConnId(n + 1) == if ConnId(n) == 0x7fff_ffff then -0x8000_0000 else ConnId(n) + 1
  {
    var q, v := (1 + n) / TWO_32, (1 + n) % TWO_32;
    assert 2 + n == q * TWO_32 + (v + 1);
  }

  /** Where a descriptor is owned. */
  datatype Slot =
    | Reading(n: nat)      // an HttpSession's socket
    | Handed(n: nat)       // released from the socket, not yet in the table
    | InTable(connId: int) // connections_
    | InCall(call: nat)    // a writeResponse call that has erased the table entry
    | Upgraded(n: nat)     // a WebSocketSession's socket

  /** Descriptor and connection it belongs to. */
  datatype Desc = Desc(fd: int, n: nat)

  datatype Sent = Sent(connId: int, n: nat, fd: int, text: string)

  datatype Closed = Closed(n: nat, fd: int)

  /** A writeResponse call: the response's connId, the text, and whether write() has happened. */
  datatype Call = Call(connId: int, text: string, written: bool)

  /** `accepted[n]` is the descriptor connection n arrived on. */
  datatype Net = Net(open: set<int>, owner: map<Slot, Desc>, accepted: seq<int>,
                     calls: seq<Call>, sent: seq<Sent>, closed: seq<Closed>)

  const START: Net := Net({}, map[], [], [], [], [])

  datatype Event =
    | Accept(fd: int)                     // the acceptor; a new HttpSession starts reading
    | ReadFailed(n: nat)                  // HttpSession::onRead with an error: the socket is destroyed
    | Upgrade(n: nat)                     // the socket moves to a WebSocketSession
    | WebSocketClosed(n: nat)
    | Hand(n: nat)                        // socket_.release()
    | Emplace(n: nat)                     // connections_.emplace, under the mutex
    | Respond(connId: int, text: string)  // writeResponse: find and erase, under the mutex
    | Write(call: nat)
    | Close(call: nat)

  predicate Enabled(st: Net, e: Event) {
    match e
    case Accept(fd) => fd >= 0 && fd !in st.open
    case ReadFailed(n) => Reading(n) in st.owner
    case Upgrade(n) => Reading(n) in st.owner
    case WebSocketClosed(n) => Upgraded(n) in st.owner
    case Hand(n) => Reading(n) in st.owner
    case Emplace(n) => Handed(n) in st.owner
    case Respond(_, _) => true
    case Write(k) => InCall(k) in st.owner && k < |st.calls| && !st.calls[k].written
    case Close(k) => InCall(k) in st.owner && k < |st.calls| && st.calls[k].written
  }

  function Renamed(owner: map<Slot, Desc>, from: Slot, to: Slot): map<Slot, Desc>
    requires from in owner
  {
    (owner - {from})[to := owner[from]]
  }

  function Moved(st: Net, from: Slot, to: Slot): Net
    requires from in st.owner
  {
    st.(owner := Renamed(st.owner, from, to))
  }

  function Shut(st: Net, slot: Slot): Net
    requires slot in st.owner
  {
    var d := st.owner[slot];
    st.(open := st.open - {d.fd}, owner := st.owner - {slot}, closed := st.closed + [Closed(d.n, d.fd)])
  }

  function Next(st: Net, e: Event): Net
    requires Enabled(st, e)
  {
    match e
    case Accept(fd) =>
      var n := |st.accepted|;
      st.(open := st.open + {fd}, owner := st.owner[Reading(n) := Desc(fd, n)], accepted := st.accepted + [fd])
    case ReadFailed(n) => Shut(st, Reading(n))
    case Upgrade(n) => Moved(st, Reading(n), Upgraded(n))
    case WebSocketClosed(n) => Shut(st, Upgraded(n))
    case Hand(n) => Moved(st, Reading(n), Handed(n))
    case Emplace(n) =>
      // emplace leaves an existing entry alone; the descriptor would be lost
      if InTable(ConnId(n)) in st.owner then st.(owner := st.owner - {Handed(n)})
      else Moved(st, Handed(n), InTable(ConnId(n)))
    case Respond(c, text) =>
      if InTable(c) in st.owner
      then Moved(st, InTable(c), InCall(|st.calls|)).(calls := st.calls + [Call(c, text, false)])
      else st
    case Write(k) =>
      var d := st.owner[InCall(k)];
      st.(sent := st.sent + [Sent(st.calls[k].connId, d.n, d.fd, st.calls[k].text)],
          calls := st.calls[k := st.calls[k].(written := true)])
    case Close(k) => Shut(st, InCall(k))
  }

  // ---------- Runs ----------

  predicate Legal(st: Net, es: seq<Event>)
    decreases |es|
  {
    es == [] || (Enabled(st, es[0]) && Legal(Next(st, es[0]), es[1..]))
  }

  function Exec(st: Net, es: seq<Event>): Net
    requires Legal(st, es)
    decreases |es|
  {
    if es == [] then st else Exec(Next(st, es[0]), es[1..])
  }

  lemma {:induction false} ExecAppend(st: Net, es: seq<Event>, more: seq<Event>)
    requires Legal(st, es) && Legal(Exec(st, es), more)
    ensures Legal(st, es + more) && Exec(st, es + more) == Exec(Exec(st, es), more)
    decreases |es|
  {
    if es == [] {
      assert es + more == more;
    } else {
      assert (es + more)[1..] == es[1..] + more;
      ExecAppend(Next(st, es[0]), es[1..], more);
    }
  }

  // ---------- Ownership ----------

  predicate Owns(owner: map<Slot, Desc>, slot: Slot, fd: int) {
    slot in owner && owner[slot].fd == fd
  }

  /** Every open descriptor has an owner, and owners hold open descriptors only. */
  ghost predicate Covers(owner: map<Slot, Desc>, open: set<int>) {
    && (forall fd <- open :: exists slot :: Owns(owner, slot, fd))
    && (forall slot <- owner :: owner[slot].fd in open)
  }

  /** No two owners share a descriptor or a connection. */
  predicate Distinct(owner: map<Slot, Desc>) {
    forall a, b :: a in owner && b in owner && a != b ==> owner[a].fd != owner[b].fd && owner[a].n != owner[b].n
  }

  /** The slot fits the connection: its number, its connId, its descriptor. */
  predicate Fits(st: Net, slot: Slot, d: Desc) {
    && d.n < |st.accepted| && d.fd == st.accepted[d.n]
    && match slot
       case Reading(n) => d.n == n
       case Handed(n) => d.n == n
       case InTable(c) => c == ConnId(d.n)
       case InCall(k) => k < |st.calls| && st.calls[k].connId == ConnId(d.n)
       case Upgraded(n) => d.n == n
  }

  predicate AllFit(st: Net) {
    forall slot <- st.owner :: Fits(st, slot, st.owner[slot])
  }

  predicate SentTo(sent: seq<Sent>, n: nat) {
    exists i :: 0 <= i < |sent| && sent[i].n == n
  }

  predicate ClosedFor(closed: seq<Closed>, n: nat) {
    exists i :: 0 <= i < |closed| && closed[i].n == n
  }

  predicate HasWritten(st: Net, slot: Slot) {
    slot.InCall? && slot.call < |st.calls| && st.calls[slot.call].written
  }

  /** Each connection is answered at most once, on its own descriptor and under its own connId, and closed at most once. */
  predicate LogsOk(sent: seq<Sent>, closed: seq<Closed>, accepted: seq<int>) {
    && (forall i, j :: 0 <= i < j < |sent| ==> sent[i].n != sent[j].n)
    && (forall i, j :: 0 <= i < j < |closed| ==> closed[i].n != closed[j].n)
    && (forall s <- sent :: s.n < |accepted| && s.fd == accepted[s.n] && s.connId == ConnId(s.n))
    && (forall c <- closed :: c.n < |accepted| && c.fd == accepted[c.n])
  }

  /** A connection that is still owned has not been closed, and not answered unless its call has just written. */
  predicate SlotsLive(st: Net) {
    forall slot <- st.owner ::
      && !ClosedFor(st.closed, st.owner[slot].n)
      && (SentTo(st.sent, st.owner[slot].n) ==> HasWritten(st, slot))
  }

  ghost predicate Inv(st: Net) {
    && Covers(st.owner, st.open) && Distinct(st.owner) && AllFit(st)
    && LogsOk(st.sent, st.closed, st.accepted) && SlotsLive(st)
  }

  // ---------- Steps keep ownership ----------

  lemma ConnIdInjective(m: nat, n: nat)
    requires m < TWO_32 && n < TWO_32 && ConnId(m) == ConnId(n)
    ensures m == n
  {
  }

  /** Below 2^32 connections a released descriptor always finds its table entry free. */
  lemma EmplaceFindsRoom(st: Net, n: nat)
    requires Distinct(st.owner) && AllFit(st) && |st.accepted| <= TWO_32 && Handed(n) in st.owner
    ensures InTable(ConnId(n)) !in st.owner
  {
    var slot := InTable(ConnId(n));
    if slot in st.owner {
      assert Fits(st, slot, st.owner[slot]) && Fits(st, Handed(n), st.owner[Handed(n)]);
      ConnIdInjective(st.owner[slot].n, n);
    }
  }

  lemma RenameKeeps(owner: map<Slot, Desc>, open: set<int>, from: Slot, to: Slot)
    requires Covers(owner, open) && Distinct(owner) && from in owner && to !in owner
    ensures Covers(Renamed(owner, from, to), open) && Distinct(Renamed(owner, from, to))
  {
    var owner' := Renamed(owner, from, to);
    forall fd | fd in open ensures exists slot :: Owns(owner', slot, fd) {
      var slot :| Owns(owner, slot, fd);
      assert Owns(owner', if slot == from then to else slot, fd);
    }
    forall a, b | a in owner' && b in owner' && a != b
      ensures owner'[a].fd != owner'[b].fd && owner'[a].n != owner'[b].n
    {
      var a0, b0 := if a == to then from else a, if b == to then from else b;
      assert a0 in owner && b0 in owner && a0 != b0;
    }
  }

  lemma MoveKeepsInv(st: Net, from: Slot, to: Slot)
    requires Inv(st) && from in st.owner && to !in st.owner && Fits(st, to, st.owner[from])
    requires !SentTo(st.sent, st.owner[from].n)
    ensures Inv(Moved(st, from, to))
  {
    RenameKeeps(st.owner, st.open, from, to);
    hide Covers, Distinct, LogsOk;
    var st' := Moved(st, from, to);
    forall slot | slot in st'.owner
      ensures Fits(st', slot, st'.owner[slot]) && !ClosedFor(st'.closed, st'.owner[slot].n)
      ensures SentTo(st'.sent, st'.owner[slot].n) ==> HasWritten(st', slot)
    {
      var slot0 := if slot == to then from else slot;
      assert slot0 in st.owner && Fits(st, slot0, st.owner[slot0]);
    }
  }

  lemma DropKeeps(owner: map<Slot, Desc>, open: set<int>, slot: Slot)
    requires Covers(owner, open) && Distinct(owner) && slot in owner
    ensures Covers(owner - {slot}, open - {owner[slot].fd}) && Distinct(owner - {slot})
  {
    forall fd | fd in open - {owner[slot].fd} ensures exists s :: Owns(owner - {slot}, s, fd) {
      var s :| Owns(owner, s, fd);
      assert Owns(owner - {slot}, s, fd);
    }
  }

  lemma ClosedOneMore(closed: seq<Closed>, c: Closed)
    ensures forall m :: ClosedFor(closed + [c], m) ==> ClosedFor(closed, m) || m == c.n
  {
    forall m | ClosedFor(closed + [c], m) ensures ClosedFor(closed, m) || m == c.n {
      var i :| 0 <= i < |closed| + 1 && (closed + [c])[i].n == m;
      if i < |closed| { assert closed[i].n == m; }
    }
  }

  lemma CloseLogged(sent: seq<Sent>, closed: seq<Closed>, accepted: seq<int>, c: Closed)
    requires LogsOk(sent, closed, accepted) && !ClosedFor(closed, c.n) && c.n < |accepted| && c.fd == accepted[c.n]
    ensures LogsOk(sent, closed + [c], accepted)
  {
    assert forall i :: 0 <= i < |closed| ==> ClosedFor(closed, closed[i].n);
  }

  lemma WriteLogged(sent: seq<Sent>, closed: seq<Closed>, accepted: seq<int>, x: Sent)
    requires LogsOk(sent, closed, accepted) && !SentTo(sent, x.n)
    requires x.n < |accepted| && x.fd == accepted[x.n] && x.connId == ConnId(x.n)
    ensures LogsOk(sent + [x], closed, accepted)
  {
    assert forall i :: 0 <= i < |sent| ==> SentTo(sent, sent[i].n);
  }

  lemma ShutKeepsInv(st: Net, slot: Slot)
    requires Inv(st) && slot in st.owner
    ensures Inv(Shut(st, slot))
  {
    DropKeeps(st.owner, st.open, slot);
    var n := st.owner[slot].n;
    assert Fits(st, slot, st.owner[slot]) && !ClosedFor(st.closed, n);
    ClosedOneMore(st.closed, Closed(n, st.owner[slot].fd));
    CloseLogged(st.sent, st.closed, st.accepted, Closed(n, st.owner[slot].fd));
    assert forall other <- st.owner - {slot} :: st.owner[other].n != n;
    hide Covers, Distinct, LogsOk, ClosedFor;
    var st' := Shut(st, slot);
    forall other | other in st'.owner
      ensures Fits(st', other, st'.owner[other]) && !ClosedFor(st'.closed, st'.owner[other].n)
      ensures SentTo(st'.sent, st'.owner[other].n) ==> HasWritten(st', other)
    {
      assert other in st.owner && Fits(st, other, st.owner[other]);
    }
  }

  lemma InsertKeeps(owner: map<Slot, Desc>, open: set<int>, slot: Slot, d: Desc)
    requires Covers(owner, open) && Distinct(owner) && slot !in owner && d.fd !in open
    requires forall s <- owner :: owner[s].n != d.n
    ensures Covers(owner[slot := d], open + {d.fd}) && Distinct(owner[slot := d])
  {
    var owner' := owner[slot := d];
    forall fd | fd in open + {d.fd} ensures exists s :: Owns(owner', s, fd) {
      if fd == d.fd {
        assert Owns(owner', slot, fd);
      } else {
        var s :| Owns(owner, s, fd);
        assert Owns(owner', s, fd);
      }
    }
  }

  lemma AcceptKeepsInv(st: Net, fd: int)
    requires Inv(st) && Enabled(st, Accept(fd))
    ensures Inv(Next(st, Accept(fd)))
  {
    var n, st' := |st.accepted|, Next(st, Accept(fd));
    assert forall slot <- st.owner :: Fits(st, slot, st.owner[slot]);
    assert Reading(n) !in st.owner;
    InsertKeeps(st.owner, st.open, Reading(n), Desc(fd, n));
    hide Covers, Distinct;
    assert !SentTo(st.sent, n) by {
      forall i | 0 <= i < |st.sent| ensures st.sent[i].n != n { assert st.sent[i] in st.sent; }
    }
    assert !ClosedFor(st.closed, n) by {
      forall i | 0 <= i < |st.closed| ensures st.closed[i].n != n { assert st.closed[i] in st.closed; }
    }
    forall slot | slot in st'.owner
      ensures Fits(st', slot, st'.owner[slot]) && !ClosedFor(st'.closed, st'.owner[slot].n)
      ensures SentTo(st'.sent, st'.owner[slot].n) ==> HasWritten(st', slot)
    {
      assert slot == Reading(n) || (slot in st.owner && Fits(st, slot, st.owner[slot]));
    }
  }

  lemma NewCallKeepsInv(st: Net, call: Call)
    requires Inv(st)
    ensures Inv(st.(calls := st.calls + [call])) && InCall(|st.calls|) !in st.owner
  {
    hide Covers, Distinct, LogsOk, SentTo, ClosedFor;
    var st' := st.(calls := st.calls + [call]);
    forall slot | slot in st.owner
      ensures Fits(st', slot, st.owner[slot]) && slot != InCall(|st.calls|)
      ensures SentTo(st.sent, st.owner[slot].n) ==> HasWritten(st', slot)
    {
      assert Fits(st, slot, st.owner[slot]);
    }
  }

  lemma RespondKeepsInv(st: Net, c: int, text: string)
    requires Inv(st)
    ensures Inv(Next(st, Respond(c, text)))
  {
    if InTable(c) in st.owner {
      NewCallKeepsInv(st, Call(c, text, false));
      assert Fits(st, InTable(c), st.owner[InTable(c)]);
      assert !HasWritten(st, InTable(c));
      hide Covers, Distinct, LogsOk;
      assert !SentTo(st.sent, st.owner[InTable(c)].n);
      hide SlotsLive, AllFit;
      MoveKeepsInv(st.(calls := st.calls + [Call(c, text, false)]), InTable(c), InCall(|st.calls|));
    }
  }

  lemma SentOneMore(sent: seq<Sent>, x: Sent)
    ensures forall m :: SentTo(sent + [x], m) ==> SentTo(sent, m) || m == x.n
  {
    forall m | SentTo(sent + [x], m) ensures SentTo(sent, m) || m == x.n {
      var i :| 0 <= i < |sent| + 1 && (sent + [x])[i].n == m;
      if i < |sent| { assert sent[i].n == m; }
    }
  }

  lemma WriteKeepsInv(st: Net, k: nat)
    requires Inv(st) && Enabled(st, Write(k))
    ensures Inv(Next(st, Write(k)))
  {
    var st', d := Next(st, Write(k)), st.owner[InCall(k)];
    assert Fits(st, InCall(k), d);
    var x := Sent(st.calls[k].connId, d.n, d.fd, st.calls[k].text);
    SentOneMore(st.sent, x);
    WriteLogged(st.sent, st.closed, st.accepted, x);
    assert forall other <- st.owner :: other != InCall(k) ==> st.owner[other].n != d.n;
    hide Covers, Distinct, LogsOk, SentTo;
    forall slot | slot in st'.owner
      ensures Fits(st', slot, st'.owner[slot])
      ensures SentTo(st'.sent, st'.owner[slot].n) ==> HasWritten(st', slot)
    {
      assert slot in st.owner && Fits(st, slot, st.owner[slot]);
    }
  }

  lemma StepKeepsInv(st: Net, e: Event)
    requires Inv(st) && Enabled(st, e) && |st.accepted| <= TWO_32
    ensures Inv(Next(st, e))
  {
    assert forall slot <- st.owner :: Fits(st, slot, st.owner[slot]);
    match e
    case Accept(fd) => AcceptKeepsInv(st, fd);
    case ReadFailed(n) => ShutKeepsInv(st, Reading(n));
    case Upgrade(n) => MoveKeepsInv(st, Reading(n), Upgraded(n));
    case WebSocketClosed(n) => ShutKeepsInv(st, Upgraded(n));
    case Hand(n) => MoveKeepsInv(st, Reading(n), Handed(n));
    case Emplace(n) => EmplaceFindsRoom(st, n); MoveKeepsInv(st, Handed(n), InTable(ConnId(n)));
    case Respond(c, text) => RespondKeepsInv(st, c, text);
    case Write(k) => WriteKeepsInv(st, k);
    case Close(k) => ShutKeepsInv(st, InCall(k));
  }

  lemma {:induction false} RunKeepsInv(st: Net, es: seq<Event>)
    requires Inv(st) && Legal(st, es) && |Exec(st, es).accepted| <= TWO_32
    ensures Inv(Exec(st, es))
    decreases |es|
  {
    if es != [] {
      AcceptedGrows(Next(st, es[0]), es[1..]);
      StepKeepsInv(st, es[0]);
      RunKeepsInv(Next(st, es[0]), es[1..]);
    }
  }

  lemma {:induction false} AcceptedGrows(st: Net, es: seq<Event>)
    requires Legal(st, es)
    ensures |st.accepted| <= |Exec(st, es).accepted|
    decreases |es|
  {
    if es != [] {
      AcceptedGrows(Next(st, es[0]), es[1..]);
    }
  }

  // ---------- Main results ----------

  lemma StartInv()
    ensures Inv(START)
  {
  }

  /** Each open descriptor has exactly one owner. */
  ghost predicate OwnedExactlyOnce(st: Net) {
    Covers(st.owner, st.open) && Distinct(st.owner)
  }

  /** Over every interleaving of fewer than 2^32 + 1 connections, whatever numbers the system reuses. */
  lemma EveryDescriptorIsOwnedOnce(es: seq<Event>)
    requires Legal(START, es) && |Exec(START, es).accepted| <= TWO_32
    ensures OwnedExactlyOnce(Exec(START, es))
  {
    StartInv();
    RunKeepsInv(START, es);
  }

  /** No connection is answered twice or closed twice, and an answer goes out on the connection it is addressed to. */
  lemma AnsweredAndClosedOnce(es: seq<Event>)
    requires Legal(START, es) && |Exec(START, es).accepted| <= TWO_32
    ensures var st := Exec(START, es);
            && (forall i, j :: 0 <= i < j < |st.sent| ==> st.sent[i].connId != st.sent[j].connId)
            && (forall i, j :: 0 <= i < j < |st.closed| ==> st.closed[i].n != st.closed[j].n)
            && (forall s <- st.sent :: s.n < |st.accepted| && s.connId == ConnId(s.n) && s.fd == st.accepted[s.n])
            && (forall c <- st.closed :: c.n < |st.accepted| && c.fd == st.accepted[c.n])
  {
    StartInv();
    RunKeepsInv(START, es);
    var st := Exec(START, es);
    forall i, j | 0 <= i < j < |st.sent| ensures st.sent[i].connId != st.sent[j].connId {
      assert st.sent[i] in st.sent && st.sent[j] in st.sent;
      if st.sent[i].connId == st.sent[j].connId {
        ConnIdInjective(st.sent[i].n, st.sent[j].n);
      }
    }
  }

  // ---------- The 32-bit counter ----------

  predicate NoReaderFrom(st: Net, n: nat) {
    forall slot <- st.owner :: slot.Reading? || slot.Handed? ==> slot.n < n
  }

  lemma AppendStep(st: Net, es: seq<Event>, e: Event)
    requires Legal(st, es) && Enabled(Exec(st, es), e)
    ensures Legal(st, es + [e]) && Exec(st, es + [e]) == Next(Exec(st, es), e)
  {
    assert [e][1..] == [];
    ExecAppend(st, es, [e]);
  }

  /** Connections that come and go: `k` times accepted on `fd` and dropped again. */
  lemma {:induction false} Churn(st: Net, fd: int, k: nat) returns (es: seq<Event>)
    requires fd >= 0 && fd !in st.open && NoReaderFrom(st, |st.accepted|)
    ensures Legal(st, es)
    ensures Exec(st, es).open == st.open && Exec(st, es).owner == st.owner
    ensures |Exec(st, es).accepted| == |st.accepted| + k
    ensures Exec(st, es).calls == st.calls && Exec(st, es).sent == st.sent
    ensures forall e <- es :: e.Accept? || e.ReadFailed?
    decreases k
  {
    es := [];
    if k > 0 {
      es := Churn(st, fd, k - 1);
      var st1 := Exec(st, es);
      var n := |st1.accepted|;
      AppendStep(st, es, Accept(fd));
      AppendStep(st, es + [Accept(fd)], ReadFailed(n));
      var st3 := Next(Next(st1, Accept(fd)), ReadFailed(n));
      assert st3.open == st1.open;
      assert st3.owner == st1.owner;
      es := es + [Accept(fd)] + [ReadFailed(n)];
    }
  }

  /** The connection that waits in the table when the counter comes round again. */
  lemma FirstWaits() returns (es: seq<Event>)
    ensures Legal(START, es)
    ensures var st := Exec(START, es);
            st.open == {0} && st.owner == map[InTable(1) := Desc(0, 0)] && |st.accepted| == 1
  {
    es := [];
    AppendStep(START, es, Accept(0));
    AppendStep(START, es + [Accept(0)], Hand(0));
    AppendStep(START, es + [Accept(0)] + [Hand(0)], Emplace(0));
    es := es + [Accept(0)] + [Hand(0)] + [Emplace(0)];
    assert Exec(START, es).owner == map[InTable(1) := Desc(0, 0)];
  }

  /** One connection too many: its connId is taken, and its descriptor is left without an owner. */
  lemma OneTooMany() returns (es: seq<Event>)
    ensures Legal(START, es) && |Exec(START, es).accepted| == TWO_32 + 1
    ensures !OwnedExactlyOnce(Exec(START, es))
  {
    var first := FirstWaits();
    var st := Exec(START, first);
    var churn := Churn(st, 1, TWO_32 - 1);
    ExecAppend(START, first, churn);
    es := first + churn;
    var n := TWO_32;
    var full := Exec(START, es);
    AppendStep(START, es, Accept(1));
    AppendStep(START, es + [Accept(1)], Hand(n));
    AppendStep(START, es + [Accept(1)] + [Hand(n)], Emplace(n));
    es := es + [Accept(1)] + [Hand(n)] + [Emplace(n)];
    var end := Exec(START, es);
    assert ConnId(n) == 1;
    assert end.owner == map[InTable(1) := Desc(0, 0)];
    assert 1 in end.open && forall slot :: !Owns(end.owner, slot, 1);
  }

  ghost predicate OwnershipHoldsUpTo(connections: nat) {
    forall es :: Legal(START, es) && |Exec(START, es).accepted| <= connections ==> OwnedExactlyOnce(Exec(START, es))
  }

  /** Ownership holds for all runs with so many connections exactly up to 2^32 of them. */
  lemma OwnershipHoldsIff(connections: nat)
    ensures OwnershipHoldsUpTo(connections) <==> connections <= TWO_32
  {
    if connections <= TWO_32 {
      forall es | Legal(START, es) && |Exec(START, es).accepted| <= connections
        ensures OwnedExactlyOnce(Exec(START, es))
      {
        EveryDescriptorIsOwnedOnce(es);
      }
    } else {
      var es := OneTooMany();
    }
  }

  // ---------- One connection through any run ----------

  predicate IsAnswerTo(e: Event, n: nat) {
    e.Respond? && e.connId == ConnId(n)
  }

  predicate NoAnswerIn(es: seq<Event>, n: nat) {
    forall e <- es :: !IsAnswerTo(e, n)
  }

  /** Connection `n` is in the table and nowhere else, and nothing has been written to it. */
  predicate Waiting(st: Net, n: nat) {
    var slot := InTable(ConnId(n));
    && n < |st.accepted|
    && slot in st.owner && st.owner[slot] == Desc(st.accepted[n], n)
    && (forall other <- st.owner :: other != slot ==> st.owner[other].n != n)
    && !SentTo(st.sent, n)
  }

  lemma EmplaceWaits(st: Net, n: nat)
    requires Inv(st) && |st.accepted| <= TWO_32 && Enabled(st, Emplace(n))
    ensures Waiting(Next(st, Emplace(n)), n)
  {
    EmplaceFindsRoom(st, n);
    assert Fits(st, Handed(n), st.owner[Handed(n)]);
    hide Covers, LogsOk;
    assert !HasWritten(st, Handed(n));
  }

  lemma WaitingStep(st: Net, e: Event, n: nat)
    requires Waiting(st, n) && Enabled(st, e) && !IsAnswerTo(e, n)
    ensures Waiting(Next(st, e), n)
  {
    if e.Write? {
      var d := st.owner[InCall(e.call)];
      SentOneMore(st.sent, Sent(st.calls[e.call].connId, d.n, d.fd, st.calls[e.call].text));
    }
    hide SentTo, ConnId;
  }

  /** Nothing but a response under its own connId takes a connection out of the table. */
  lemma {:induction false} StaysWaiting(st: Net, es: seq<Event>, n: nat)
    requires Waiting(st, n) && Legal(st, es) && NoAnswerIn(es, n)
    ensures Waiting(Exec(st, es), n)
    decreases |es|
  {
    if es != [] {
      WaitingStep(st, es[0], n);
      hide Waiting, IsAnswerTo;
      StaysWaiting(Next(st, es[0]), es[1..], n);
    }
  }

  /** How far the writeResponse call of an answer has come. */
  datatype Progress = Writing | Closing | Finished

  /** Call `k` answers connection `n` with `text` and has come so far. */
  predicate At(st: Net, n: nat, k: nat, text: string, at: Progress) {
    && n < |st.accepted| && k < |st.calls|
    && st.calls[k] == Call(ConnId(n), text, !at.Writing?)
    && (at.Finished? <==> InCall(k) !in st.owner)
    && (!at.Finished? ==> st.owner[InCall(k)] == Desc(st.accepted[n], n))
    && (!at.Writing? ==> Sent(ConnId(n), n, st.accepted[n], text) in st.sent)
    && (at.Finished? ==> Closed(n, st.accepted[n]) in st.closed)
  }

  function After(at: Progress, e: Event, k: nat): Progress {
    if at.Writing? && e == Write(k) then Closing
    else if at.Closing? && e == Close(k) then Finished
    else at
  }

  lemma AnswerBegins(st: Net, n: nat, text: string)
    requires Waiting(st, n)
    ensures At(Next(st, Respond(ConnId(n), text)), n, |st.calls|, text, Writing)
  {
  }

  lemma CallStep(st: Net, e: Event, n: nat, k: nat, text: string, at: Progress)
    requires At(st, n, k, text, at) && Enabled(st, e)
    ensures At(Next(st, e), n, k, text, After(at, e, k))
    ensures (e == Write(k) ==> at.Writing?) && (e == Close(k) ==> at.Closing?)
  {
    hide ConnId;
  }

  /** Whatever happens in between, the call writes once, then closes once. */
  lemma {:induction false} CallRun(st: Net, es: seq<Event>, n: nat, k: nat, text: string, at: Progress) returns (to: Progress)
    requires At(st, n, k, text, at) && Legal(st, es)
    ensures At(Exec(st, es), n, k, text, to)
    ensures to.Writing? <==> at.Writing? && Write(k) !in es
    ensures to.Finished? <==> at.Finished? || Close(k) in es
    decreases |es|
  {
    to := at;
    if es != [] {
      CallStep(st, es[0], n, k, text, at);
      hide At;
      to := CallRun(Next(st, es[0]), es[1..], n, k, text, After(at, es[0], k));
      assert es == [es[0]] + es[1..];
    }
  }

  /** What was written to connection `n`, and how often it was closed. */
  function SentOn(sent: seq<Sent>, n: nat): seq<Sent> {
    if sent == [] then [] else (if sent[0].n == n then [sent[0]] else []) + SentOn(sent[1..], n)
  }

  function ClosedOn(closed: seq<Closed>, n: nat): seq<Closed> {
    if closed == [] then [] else (if closed[0].n == n then [closed[0]] else []) + ClosedOn(closed[1..], n)
  }

  lemma {:induction false} SentOnIs(sent: seq<Sent>, n: nat)
    requires forall i, j :: 0 <= i < j < |sent| ==> sent[i].n != sent[j].n
    ensures !SentTo(sent, n) ==> SentOn(sent, n) == []
    ensures forall x <- sent :: x.n == n ==> SentOn(sent, n) == [x]
  {
    if sent != [] {
      SentOnIs(sent[1..], n);
      assert SentTo(sent[1..], n) ==> SentTo(sent, n) by {
        if SentTo(sent[1..], n) {
          var i :| 0 <= i < |sent| - 1 && sent[1..][i].n == n;
          assert sent[i + 1].n == n;
        }
      }
      assert sent[0].n == n ==> !SentTo(sent[1..], n);
      forall x | x in sent && x.n == n ensures SentOn(sent, n) == [x] {
        assert x == sent[0] || x in sent[1..];
        assert x in sent[1..] ==> SentTo(sent[1..], n);
      }
    }
  }

  lemma {:induction false} ClosedOnIs(closed: seq<Closed>, n: nat)
    requires forall i, j :: 0 <= i < j < |closed| ==> closed[i].n != closed[j].n
    ensures !ClosedFor(closed, n) ==> ClosedOn(closed, n) == []
    ensures forall x <- closed :: x.n == n ==> ClosedOn(closed, n) == [x]
  {
    if closed != [] {
      ClosedOnIs(closed[1..], n);
      assert ClosedFor(closed[1..], n) ==> ClosedFor(closed, n) by {
        if ClosedFor(closed[1..], n) {
          var i :| 0 <= i < |closed| - 1 && closed[1..][i].n == n;
          assert closed[i + 1].n == n;
        }
      }
      assert closed[0].n == n ==> !ClosedFor(closed[1..], n);
      forall x | x in closed && x.n == n ensures ClosedOn(closed, n) == [x] {
        assert x == closed[0] || x in closed[1..];
        assert x in closed[1..] ==> ClosedFor(closed[1..], n);
      }
    }
  }

  /** The logs of an answered connection hold what its call has done so far, and nothing else. */
  lemma LogsOfCall(st: Net, n: nat, k: nat, text: string, at: Progress)
    requires Inv(st) && At(st, n, k, text, at)
    ensures SentOn(st.sent, n) == if at.Writing? then [] else [Sent(ConnId(n), n, st.accepted[n], text)]
    ensures ClosedOn(st.closed, n) == if at.Finished? then [Closed(n, st.accepted[n])] else []
    ensures (Enabled(st, Write(k)) <==> at.Writing?) && (Enabled(st, Close(k)) <==> at.Closing?)
  {
    hide Inv, ConnId, SentOn, ClosedOn;
    SentOfCall(st, n, k, text, at);
    ClosedOfCall(st, n, k, text, at);
  }

  lemma SentOfCall(st: Net, n: nat, k: nat, text: string, at: Progress)
    requires Inv(st) && At(st, n, k, text, at)
    ensures SentOn(st.sent, n) == if at.Writing? then [] else [Sent(ConnId(n), n, st.accepted[n], text)]
  {
    SentOnIs(st.sent, n);
    assert at.Writing? ==> !HasWritten(st, InCall(k));
    hide Covers, Distinct, AllFit, ConnId, SentOn, ClosedOn, ClosedFor, HasWritten;
  }

  lemma ClosedOfCall(st: Net, n: nat, k: nat, text: string, at: Progress)
    requires Inv(st) && At(st, n, k, text, at)
    ensures ClosedOn(st.closed, n) == if at.Finished? then [Closed(n, st.accepted[n])] else []
  {
    ClosedOnIs(st.closed, n);
    hide Covers, Distinct, AllFit, ConnId, SentOn, ClosedOn, SentTo, HasWritten;
  }

  lemma {:induction false} ExecSplit(st: Net, es: seq<Event>, more: seq<Event>)
    requires Legal(st, es + more)
    ensures Legal(st, es) && Legal(Exec(st, es), more) && Exec(st, es + more) == Exec(Exec(st, es), more)
    decreases |es|
  {
    if es == [] {
      assert es + more == more;
    } else {
      assert (es + more)[1..] == es[1..] + more;
      ExecSplit(Next(st, es[0]), es[1..], more);
    }
  }

  /** In the run, connection `n` enters the table at `i` and its first answer after that comes at `j`. */
  predicate AnsweredAt(es: seq<Event>, n: nat, i: nat, j: nat, text: string) {
    && i < j < |es| && es[i] == Emplace(n) && es[j] == Respond(ConnId(n), text)
    && NoAnswerIn(es[i + 1..j], n)
  }

  /** The state in which the answer arrives: the connection waits in the table. */
  lemma WaitsForAnswer(es: seq<Event>, n: nat, i: nat, j: nat)
    requires Legal(START, es) && |Exec(START, es).accepted| <= TWO_32
    requires i < j <= |es| && es[i] == Emplace(n) && NoAnswerIn(es[i + 1..j], n)
    ensures Legal(START, es[..j]) && Waiting(Exec(START, es[..j]), n)
    ensures Legal(Exec(START, es[..j]), es[j..]) && Exec(START, es) == Exec(Exec(START, es[..j]), es[j..])
  {
    hide Inv, Waiting, NoAnswerIn;
    assert es == es[..j] + es[j..];
    ExecSplit(START, es[..j], es[j..]);
    AcceptedGrows(Exec(START, es[..j]), es[j..]);
    assert es[..j] == es[..i] + es[i..j];
    ExecSplit(START, es[..i], es[i..j]);
    var st := Exec(START, es[..i]);
    AcceptedGrows(st, es[i..j]);
    StartInv();
    RunKeepsInv(START, es[..i]);
    assert es[i..j][0] == es[i] && es[i..j][1..] == es[i + 1..j];
    EmplaceWaits(st, n);
    StaysWaiting(Next(st, es[i]), es[i + 1..j], n);
  }

  /**
   Over every interleaving with other connections, reused descriptors and further answers: a connection in
   the table gets exactly its first answer, on the descriptor it arrived on, once its call `k` has written,
   and is closed once, when that call closes. The call can always go on until both have happened.
   */
  lemma AnsweredInAnyRun(es: seq<Event>, n: nat, i: nat, j: nat, text: string) returns (k: nat)
    requires Legal(START, es) && |Exec(START, es).accepted| <= TWO_32 && AnsweredAt(es, n, i, j, text)
    ensures Legal(START, es[..j]) && k == |Exec(START, es[..j]).calls|
    ensures var st := Exec(START, es);
            && n < |st.accepted|
            && SentOn(st.sent, n) == (if Write(k) in es[j..] then [Sent(ConnId(n), n, st.accepted[n], text)] else [])
            && ClosedOn(st.closed, n) == (if Close(k) in es[j..] then [Closed(n, st.accepted[n])] else [])
            && (Enabled(st, Write(k)) <==> Write(k) !in es[j..])
            && (Enabled(st, Close(k)) <==> Write(k) in es[j..] && Close(k) !in es[j..])
            && (InCall(k) in st.owner ==> st.owner[InCall(k)].n == n)
  {
    hide Inv, Waiting, Legal, Exec, ConnId, SentOn, ClosedOn, NoAnswerIn, Enabled, Next, At;
    WaitsForAnswer(es, n, i, j);
    var to;
    k, to := FirstAnswer(Exec(START, es[..j]), es[j..], n, text);
    StartInv();
    RunKeepsInv(START, es);
    AtIsAccepted(Exec(START, es), n, k, text, to);
    LogsOfCall(Exec(START, es), n, k, text, to);
  }

  lemma AtIsAccepted(st: Net, n: nat, k: nat, text: string, at: Progress)
    requires At(st, n, k, text, at)
    ensures n < |st.accepted| && (InCall(k) in st.owner ==> st.owner[InCall(k)].n == n)
  {
  }

  /** From the answer of a waiting connection to wherever the run has come. */
  lemma FirstAnswer(st: Net, es: seq<Event>, n: nat, text: string) returns (k: nat, to: Progress)
    requires Waiting(st, n) && Legal(st, es) && es != [] && es[0] == Respond(ConnId(n), text)
    ensures k == |st.calls| && At(Exec(st, es), n, k, text, to)
    ensures to.Writing? <==> Write(k) !in es
    ensures to.Finished? <==> Close(k) in es
  {
    k := |st.calls|;
    AnswerBegins(st, n, text);
    hide Waiting, At, ConnId;
    to := CallRun(Next(st, es[0]), es[1..], n, k, text, Writing);
    assert es == [es[0]] + es[1..];
  }

  // ---------- The life of a connection ----------

  /** Where a connection is, as its own events tell. */
  datatype Place = NotYet | InSocket | Loose | Listed | Answering(call: nat) | Streaming | Gone

  /** What one event does to connection `n`; every other event leaves it where it is. */
  function Moves(place: Place, st: Net, e: Event, n: nat): Place {
    match place
    case NotYet => if e.Accept? && n == |st.accepted| then InSocket else NotYet
    case InSocket =>
      if e == ReadFailed(n) then Gone
      else if e == Upgrade(n) then Streaming
      else if e == Hand(n) then Loose
      else InSocket
    case Loose => if e == Emplace(n) then Listed else Loose
    case Listed => if IsAnswerTo(e, n) then Answering(|st.calls|) else Listed
    case Answering(k) => if e == Close(k) then Gone else place
    case Streaming => if e == WebSocketClosed(n) then Gone else Streaming
    case Gone => Gone
  }

  function PlaceAfter(st: Net, es: seq<Event>, n: nat, place: Place): Place
    requires Legal(st, es)
    decreases |es|
  {
    if es == [] then place else PlaceAfter(Next(st, es[0]), es[1..], n, Moves(place, st, es[0], n))
  }

  /** The connection's descriptor, the one it was accepted on, is owned by this slot and open. */
  predicate Holds(st: Net, n: nat, slot: Slot) {
    && n < |st.accepted| && slot in st.owner && st.owner[slot] == Desc(st.accepted[n], n)
    && st.accepted[n] in st.open && !ClosedFor(st.closed, n)
  }

  predicate Located(st: Net, n: nat, place: Place) {
    match place
    case NotYet => |st.accepted| <= n
    case InSocket => Holds(st, n, Reading(n))
    case Loose => Holds(st, n, Handed(n))
    case Listed => Holds(st, n, InTable(ConnId(n)))
    case Answering(k) => Holds(st, n, InCall(k)) && k < |st.calls|
    case Streaming => Holds(st, n, Upgraded(n))
    case Gone => n < |st.accepted| && ClosedFor(st.closed, n) && forall slot <- st.owner :: st.owner[slot].n != n
  }

  /** Under the invariant, owning is holding. */
  lemma OwnerHolds(st: Net, n: nat, slot: Slot)
    requires Inv(st) && slot in st.owner && st.owner[slot].n == n
    ensures Holds(st, n, slot)
  {
    assert Fits(st, slot, st.owner[slot]);
  }

  lemma GoneAfterShut(st: Net, n: nat, slot: Slot)
    requires Inv(st) && Holds(st, n, slot)
    ensures Located(Shut(st, slot), n, Gone)
  {
    hide Covers, LogsOk, AllFit;
    var closed := Shut(st, slot).closed;
    assert closed[|closed| - 1].n == n;
  }

  lemma StaysClosed(st: Net, e: Event, n: nat)
    requires Enabled(st, e) && ClosedFor(st.closed, n)
    ensures ClosedFor(Next(st, e).closed, n)
  {
    var i :| 0 <= i < |st.closed| && st.closed[i].n == n;
    assert Next(st, e).closed[i].n == n;
  }

  /** The events that take a descriptor out of its slot. */
  predicate Takes(e: Event, slot: Slot) {
    match slot
    case Reading(n) => e == ReadFailed(n) || e == Upgrade(n) || e == Hand(n)
    case Handed(n) => e == Emplace(n)
    case InTable(c) => e.Respond? && e.connId == c
    case InCall(k) => e == Close(k)
    case Upgraded(n) => e == WebSocketClosed(n)
  }

  /** No other event touches a slot that is taken. */
  lemma SlotStays(st: Net, e: Event, slot: Slot)
    requires Distinct(st.owner) && AllFit(st) && Enabled(st, e) && slot in st.owner && !Takes(e, slot)
    ensures slot in Next(st, e).owner && Next(st, e).owner[slot] == st.owner[slot]
    ensures |st.calls| <= |Next(st, e).calls|
  {
    assert forall other <- st.owner :: Fits(st, other, st.owner[other]);
    hide ConnId;
  }

  /** The slot to which an event hands a descriptor on. */
  lemma SlotTaken(st: Net, e: Event, n: nat, place: Place)
    requires Located(st, n, place) && Enabled(st, e) && !place.NotYet? && !place.Gone? && Takes(e, SlotOf(place, n))
    requires e.Emplace? ==> InTable(ConnId(e.n)) !in st.owner
    requires !Moves(place, st, e, n).Gone?
    ensures var to := Moves(place, st, e, n);
            && SlotOf(to, n) in Next(st, e).owner && Next(st, e).owner[SlotOf(to, n)].n == n
            && (to.Answering? ==> to.call < |Next(st, e).calls|)
  {
    hide ConnId, ClosedFor;
  }

  /** The slot that owns connection `n` after the event, if it is not closed by it. */
  lemma OwnerStep(st: Net, e: Event, n: nat, place: Place)
    requires Inv(st) && Enabled(st, e) && |st.accepted| <= TWO_32 && Located(st, n, place) && !place.NotYet? && !place.Gone?
    requires !Moves(place, st, e, n).Gone?
    ensures var to := Moves(place, st, e, n);
            && SlotOf(to, n) in Next(st, e).owner && Next(st, e).owner[SlotOf(to, n)].n == n
            && (to.Answering? ==> to.call < |Next(st, e).calls|)
  {
    if e.Emplace? { EmplaceFindsRoom(st, e.n); }
    if Takes(e, SlotOf(place, n)) {
      SlotTaken(st, e, n, place);
    } else {
      SlotStays(st, e, SlotOf(place, n));
    }
    hide Covers, LogsOk, SlotsLive, AllFit, Distinct, ClosedFor, ConnId, Next, Enabled;
  }

  function SlotOf(place: Place, n: nat): Slot {
    match place
    case InSocket => Reading(n)
    case Loose => Handed(n)
    case Listed => InTable(ConnId(n))
    case Answering(k) => InCall(k)
    case Streaming => Upgraded(n)
    case _ => Reading(n)
  }

  lemma Appears(st: Net, e: Event, n: nat)
    requires Enabled(st, e) && |st.accepted| <= n
    ensures var to := Moves(NotYet, st, e, n);
            if to.InSocket? then Reading(n) in Next(st, e).owner && Next(st, e).owner[Reading(n)].n == n
            else to.NotYet? && |Next(st, e).accepted| <= n
  {
    hide ConnId;
  }

  lemma Disappears(st: Net, e: Event, n: nat, place: Place)
    requires Inv(st) && Enabled(st, e) && Located(st, n, place) && !place.Gone? && Moves(place, st, e, n).Gone?
    ensures Located(Next(st, e), n, Gone)
  {
    GoneAfterShut(st, n, SlotOf(place, n));
    hide Inv, ConnId, Shut;
  }

  lemma LifeStep(st: Net, e: Event, n: nat, place: Place)
    requires Inv(st) && Enabled(st, e) && |st.accepted| <= TWO_32 && Located(st, n, place)
    ensures Located(Next(st, e), n, Moves(place, st, e, n))
  {
    hide Inv, Next, Enabled, ConnId, Holds, ClosedFor;
    StepKeepsInv(st, e);
    var to := Moves(place, st, e, n);
    if place.NotYet? {
      Appears(st, e, n);
      if to.InSocket? {
        OwnerHolds(Next(st, e), n, Reading(n));
      }
    } else if place.Gone? {
      StaysClosed(st, e, n);
      NobodyReturns(st, e, n);
    } else if to.Gone? {
      Disappears(st, e, n, place);
    } else {
      OwnerStep(st, e, n, place);
      OwnerHolds(Next(st, e), n, SlotOf(to, n));
    }
  }

  lemma NobodyReturns(st: Net, e: Event, n: nat)
    requires Enabled(st, e) && n < |st.accepted| && forall slot <- st.owner :: st.owner[slot].n != n
    ensures n < |Next(st, e).accepted| && forall slot <- Next(st, e).owner :: Next(st, e).owner[slot].n != n
  {
    hide ConnId;
  }

  lemma {:induction false} LifeRun(st: Net, es: seq<Event>, n: nat, place: Place)
    requires Inv(st) && Legal(st, es) && |Exec(st, es).accepted| <= TWO_32 && Located(st, n, place)
    ensures Located(Exec(st, es), n, PlaceAfter(st, es, n, place))
    decreases |es|
  {
    if es != [] {
      AcceptedGrows(Next(st, es[0]), es[1..]);
      AcceptedGrows(st, es);
      LifeStep(st, es[0], n, place);
      StepKeepsInv(st, es[0]);
      hide Inv, Enabled, Next, Located, Moves;
      LifeRun(Next(st, es[0]), es[1..], n, Moves(place, st, es[0], n));
    }
  }

  /**
   Over every interleaving: a connection is exactly where its own events have put it, with the descriptor it was
   accepted on, open; and it is closed exactly when they have closed it.
   */
  lemma LifeOfConnection(es: seq<Event>, n: nat)
    requires Legal(START, es) && |Exec(START, es).accepted| <= TWO_32
    ensures Located(Exec(START, es), n, PlaceAfter(START, es, n, NotYet))
  {
    StartInv();
    LifeRun(START, es, n, NotYet);
  }

  lemma {:induction false} KeepsStreaming(st: Net, es: seq<Event>, n: nat)
    requires Legal(st, es) && WebSocketClosed(n) !in es
    ensures PlaceAfter(st, es, n, Streaming) == Streaming
    decreases |es|
  {
    if es != [] {
      KeepsStreaming(Next(st, es[0]), es[1..], n);
    }
  }

  /** A connection that has upgraded keeps its descriptor, open, until its WebSocket is closed. */
  lemma WatcherKeepsDescriptor(es: seq<Event>, n: nat, i: nat)
    requires Legal(START, es) && |Exec(START, es).accepted| <= TWO_32
    requires i < |es| && es[i] == Upgrade(n) && WebSocketClosed(n) !in es[i + 1..]
    ensures Holds(Exec(START, es), n, Upgraded(n))
  {
    assert es == es[..i] + es[i..];
    ExecSplit(START, es[..i], es[i..]);
    var st := Exec(START, es[..i]);
    AcceptedGrows(st, es[i..]);
    StartInv();
    RunKeepsInv(START, es[..i]);
    OwnerHolds(st, n, Reading(n));
    assert es[i..][0] == es[i] && es[i..][1..] == es[i + 1..];
    LifeRun(st, es[i..], n, InSocket);
    KeepsStreaming(Next(st, es[i]), es[i + 1..], n);
    hide Inv, Holds;
  }

  // ---------- The classes ----------

  /** The connection table holds exactly what the step system says it owns. */
  ghost predicate Shows(connections: map<int, int>, owner: map<Slot, Desc>) {
    && (forall c :: c in connections <==> InTable(c) in owner)
    && (forall c <- connections :: connections[c] == owner[InTable(c)].fd)
  }

  function Wire(sent: seq<Sent>): (wire: seq<(int, string)>)
    ensures |wire| == |sent|
    ensures forall i :: 0 <= i < |sent| ==> wire[i] == (sent[i].fd, sent[i].text)
  {
    seq(|sent|, i requires 0 <= i < |sent| => (sent[i].fd, sent[i].text))
  }

  /** A writeResponse call that runs to its end: find and erase, write, close. */
  function Answered(st: Net, c: int, text: string): Net {
    if InTable(c) !in st.owner then st
    else var k := |st.calls|;
         Next(Next(Next(st, Respond(c, text)), Write(k)), Close(k))
  }

  /** It takes the entry out of the table, writes once to its descriptor and closes that; other connIds do nothing. */
  lemma AnsweredEffect(st: Net, c: int, text: string)
    requires InCall(|st.calls|) !in st.owner
    ensures var st' := Answered(st, c, text);
            if InTable(c) in st.owner then
              && st'.owner == st.owner - {InTable(c)}
              && st'.open == st.open - {st.owner[InTable(c)].fd}
              && Wire(st'.sent) == Wire(st.sent) + [(st.owner[InTable(c)].fd, text)]
              && st'.accepted == st.accepted && |st'.calls| == |st.calls| + 1
            else st' == st
  {
    if InTable(c) in st.owner {
      var k, d := |st.calls|, st.owner[InTable(c)];
      var s1 := Next(st, Respond(c, text));
      assert s1.owner == (st.owner - {InTable(c)})[InCall(k) := d];
    }
  }

  /** One HTTP connection until its request has been read. */
  class HttpSession {
    ghost const n: nat   // its number in the order of acceptance
    const connId: int
    var socket: int      // -1 once released, moved or destroyed

    ghost predicate Holds(net: Net)
      reads this
    {
      connId == ConnId(n) && Reading(n) in net.owner && net.owner[Reading(n)].fd == socket
    }

    constructor (connId: int, socket: int, ghost n: nat)
      ensures this.connId == connId && this.socket == socket && this.n == n
    {
      this.connId, this.socket, this.n := connId, socket, n;
    }
  }

  /** The connection table with its counter, over descriptors and writes of the operating system. */
  class HttpServer {
    var connections: map<int, int>       // connId to descriptor
    var nextConnId: int
    var open: set<int>
    var wire: seq<(int, string)>         // what was written to which descriptor
    ghost var net: Net                   // the state of the step system

    ghost predicate Valid()
      reads this
    {
      && Shows(connections, net.owner)
      && open == net.open
      && wire == Wire(net.sent)
      && nextConnId == ConnId(|net.accepted|)
      && (forall slot <- net.owner :: net.owner[slot].fd >= 0)
      && (forall k: nat :: InCall(k) in net.owner ==> k < |net.calls|)
    }

    constructor ()
      ensures Valid() && net == START
    {
      connections, nextConnId, open, wire, net := map[], 1, {}, [], START;
    }

    /** g_nextConnId++ on a 32-bit atomic. */
    method TakeConnId() returns (connId: int)
      requires -0x8000_0000 <= nextConnId < 0x8000_0000
      modifies this`nextConnId
      ensures connId == old(nextConnId) && -0x8000_0000 <= nextConnId < 0x8000_0000
      ensures forall n: nat :: old(nextConnId) == ConnId(n) ==> nextConnId == ConnId(n + 1)
    {
      forall n: nat { ConnIdAdvances(n); }
      hide ConnId;
      connId := nextConnId;
      nextConnId := if nextConnId == 0x7fff_ffff then -0x8000_0000 else nextConnId + 1;
    }

    /** The accept handler. */
    method Accept(fd: int) returns (session: HttpSession)
      requires Valid() && Enabled(net, Event.Accept(fd))
      modifies this
      ensures Valid() && net == Next(old(net), Event.Accept(fd))
      ensures fresh(session) && session.Holds(net) && session.n == |old(net).accepted|
    {
      var connId := TakeConnId();
      session := new HttpSession(connId, fd, |net.accepted|);
      open := open + {fd};
      net := Next(net, Event.Accept(fd));
    }

    /** connections_.emplace */
    method AddConnection(connId: int, fd: int)
      modifies this`connections
      ensures connections == if connId in old(connections) then old(connections) else old(connections)[connId := fd]
    {
      if connId !in connections {
        connections := connections[connId := fd];
      }
    }

    /** HttpSession::onRead up to the publication of the request. */
    method OnRead(session: HttpSession, failed: bool, isUpgrade: bool)
      requires Valid() && session.Holds(net)
      modifies this, session
      ensures Valid() && session.socket == -1
      ensures net == if failed then Next(old(net), ReadFailed(session.n))
                     else if isUpgrade then Next(old(net), Upgrade(session.n))
                     else Next(Next(old(net), Hand(session.n)), Emplace(session.n))
    {
      var fd := session.socket;
      session.socket := -1;
      if failed {
        open := open - {fd};
        net := Next(net, ReadFailed(session.n));
        return;
      }
      if isUpgrade {
        net := Next(net, Upgrade(session.n));
        return;
      }
      AddConnection(session.connId, fd);
      net := Next(Next(net, Hand(session.n)), Emplace(session.n));
    }

    /** Erases before closing; a response for an unknown connId does nothing. */
    method WriteResponse(connId: int, statusCode: int, body: string)
      requires Valid()
      modifies this
      ensures Valid() && net == Answered(old(net), connId, Envelope(statusCode, body))
    {
      AnsweredEffect(net, connId, Envelope(statusCode, body));
      hide Answered, MakeHttpResponse, WrappedStatus, WrappedType, Wire, ConnId;
      if connId !in connections {
        return;
      }
      var fd := connections[connId];
      connections := connections - {connId};
      if fd != -1 {
        var response := body;
        if !StartsWith(response, "HTTP/1.1") {
          response := MakeHttpResponse(statusCode, WrappedStatus(statusCode), WrappedType(response), response);
        }
        wire := wire + [(fd, response)];
        open := open - {fd};
        net := Answered(net, connId, response);
      }
    }
  }
}
