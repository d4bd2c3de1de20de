/**
 The relay thread's loop, StreamRelayer::runLoop: connecting, decoding, scaling, encoding and
 broadcasting, with every library handle accounted for. The media library is a class whose methods
 demand what the C API demands: a handle must be live to be used or freed, and a packet or frame must
 be unreferenced before it is filled again. Its answers, packets and clock readings are inputs.
 */
module Ingest {
  import opened Basics
  import opened WireFormat
  import FanOut

  datatype Kind = Options | Input | Decoder | Encoder | Scaler | YuvFrame | InputPacket | DecodedFrame | EncodedPacket

  /** `answers` are the results of all calls that can fail and of all reads of `running_`; once used up, every
      call fails and `running_` reads false. `feed` is what the encoder produces. */
  class Media {
    const answers: seq<bool>
    const feed: seq<Packet>
    var asked: nat
    var fed: nat
    var now: int
    var nextHandle: int
    var kinds: map<int, Kind>  // what every handle ever allocated is
    var live: set<int>         // handles allocated and not freed
    var filled: set<int>       // packets and frames that hold a reference
    var sent: seq<seq<byte>>   // frames broadcast so far
    ghost var run: seq<FanOut.Event>  // all that has happened at the hub: these broadcasts and whatever its clients do
    var clock: seq<int>        // every reading of the clock
    var given: seq<Given>      // every frame given to the encoder
    ghost var stints: seq<Stint>  // the connections, with their readings and frames

    ghost predicate Valid()
      reads this
    {
      && asked <= |answers| && fed <= |feed|
      && (forall h <- kinds :: h < nextHandle)
      && live <= kinds.Keys
      && (forall p <- feed :: Encodable(p))
    }

    constructor (answers: seq<bool>, feed: seq<Packet>, now: int)
      requires forall p <- feed :: Encodable(p)
      ensures Valid() && live == {} && filled == {} && asked == 0 && fed == 0 && AllSent() && AllTimed()
      ensures this.answers == answers && this.feed == feed
    {
      this.answers, this.feed, this.now := answers, feed, now;
      asked, fed, nextHandle, kinds, live, filled, sent, run := 0, 0, 0, map[], {}, {}, [], [];
      clock, given, stints := [], [], [];
    }

    /** Every packet the encoder has given out was broadcast once, in order, as its frame: the hub's log says so. */
    ghost predicate AllSent()
      reads this`sent, this`fed, this`run
    {
      SentAs(sent, feed, fed) && OnAir(run, sent)
    }

    /** All readings and frames belong to the connections, each well timed. */
    ghost predicate AllTimed()
      reads this`clock, this`given, this`stints
    {
      && clock == ClocksOf(stints) && given == FramesOf(stints)
      && forall s <- stints :: WellTimed(s)
    }

    /** `h` is a live handle of the kind. */
    predicate Is(h: int, kind: Kind)
      reads this`live, this`kinds
    {
      h in live && h in kinds && kinds[h] == kind
    }

    method Ask() returns (yes: bool)
      requires Valid()
      modifies this`asked
      ensures Valid() && yes == Answer(answers, old(asked))
      ensures asked == if old(asked) < |answers| then old(asked) + 1 else old(asked)
    {
      yes := asked < |answers| && answers[asked];
      if asked < |answers| {
        asked := asked + 1;
      }
    }

    /** av_gettime, on a clock that does not go back. */
    method Clock() returns (t: int)
      modifies this`now, this`clock
      ensures t == now && old(now) <= now && clock == old(clock) + [t]
    {
      var step :| step >= 0;
      now := now + step;
      t := now;
      clock := clock + [t];
    }

    /** The encoder is offered a frame with this pts. */
    method Give(source: int, pts: int)
      requires Is(source, YuvFrame) || Is(source, DecodedFrame)
      modifies this`given
      ensures given == old(given) + [Given(source, pts)]
    {
      given := given + [Given(source, pts)];
    }

    method Alloc(kind: Kind) returns (h: int)
      requires Valid()
      modifies this`live, this`kinds, this`nextHandle
      ensures Valid() && h == old(nextHandle) && nextHandle == h + 1
      ensures h !in old(live) && live == old(live) + {h} && kinds == old(kinds)[h := kind]
    {
      h := nextHandle;
      nextHandle := nextHandle + 1;
      kinds := kinds[h := kind];
      live := live + {h};
    }

    /** Frees a live handle, dropping what it references. */
    method Free(h: int, kind: Kind)
      requires Valid() && Is(h, kind)
      modifies this`live, this`filled
      ensures Valid() && live == old(live) - {h} && filled == old(filled) - {h}
    {
      live := live - {h};
      filled := filled - {h};
    }

    method Use(h: int, kind: Kind)
      requires Is(h, kind)
    {
    }

    /** A packet or frame receives data; it must not hold any. */
    method Fill(h: int, kind: Kind)
      requires Is(h, kind) && h !in filled
      modifies this`filled
      ensures filled == old(filled) + {h}
    {
      filled := filled + {h};
    }

    method Unref(h: int, kind: Kind)
      requires Is(h, kind)
      modifies this`filled
      ensures filled == old(filled) - {h}
    {
      filled := filled - {h};
    }

    /** WebSocketHub::broadcastFrame, amid whatever the clients do before and meanwhile. */
    method Broadcast(frame: seq<byte>)
      requires OnAir(run, sent)
      modifies this`sent, this`run
      ensures sent == old(sent) + [frame] && OnAir(run, sent)
    {
      sent := sent + [frame];
      assert run + [] == run && Interlude(run, []);
      ghost var before :| Interlude(run, before);
      ghost var begun := run + before + [FanOut.Begin(frame)];
      Begins(run, before, frame);
      ghost var during :| Interlude(begun, during);
      FanOut.LogOfQuiet(begun, during);
      run := begun + during;
    }

    /** The encoder's next packet, if it has one. */
    method NextPacket() returns (p: Option<Packet>)
      requires Valid()
      modifies this`fed
      ensures Valid() && (p.None? <==> old(fed) == |feed|) && (p.None? ==> fed == old(fed))
      ensures p.Some? ==> fed == old(fed) + 1 && p.value == feed[old(fed)]
    {
      p := None;
      if fed < |feed| {
        p := Some(feed[fed]);
        fed := fed + 1;
      }
    }
  }

  /** Between broadcasts, after a run of the hub that has broadcast exactly these frames. */
  ghost predicate OnAir(run: seq<FanOut.Event>, sent: seq<seq<byte>>) {
    FanOut.Legal(run) && FanOut.Exec(run).current.None? && FanOut.Log(run) == sent
  }

  /** The run may go on like this, without another broadcast, until the hub is free. */
  ghost predicate Interlude(run: seq<FanOut.Event>, more: seq<FanOut.Event>) {
    FanOut.Legal(run + more) && FanOut.NoBegin(more) && FanOut.Exec(run + more).current.None?
  }

  lemma Begins(run: seq<FanOut.Event>, before: seq<FanOut.Event>, frame: seq<byte>)
    requires FanOut.Legal(run) && Interlude(run, before)
    ensures var begun := run + before + [FanOut.Begin(frame)];
            && FanOut.Log(begun) == FanOut.Log(run) + [frame]
            && exists during :: Interlude(begun, during)
  {
    FanOut.LogOfQuiet(run, before);
    FanOut.ExecOne(run + before, FanOut.Begin(frame));
    FanOut.Histories(run + before, FanOut.Begin(frame), 0);
    var begun := run + before + [FanOut.Begin(frame)];
    hide FanOut.Exec, FanOut.Legal, FanOut.Log, FanOut.NoBegin;
    var during := FanOut.BroadcastEnds(begun);
    assert Interlude(begun, during);
  }

  // ---------- Answers ----------

  /** What the next question is answered if `at` answers have been used up. */
  predicate Answer(answers: seq<bool>, at: nat) {
    at < |answers| && answers[at]
  }

  /** From answer `j` on everything succeeds, at least `need` times. */
  predicate Flows(answers: seq<bool>, j: nat, need: nat) {
    j + need <= |answers| && forall i :: j <= i < |answers| ==> answers[i]
  }

  /** How many answers in a row, from `at` on, are yes. */
  function YesRun(answers: seq<bool>, at: nat): nat
    decreases |answers| - at
  {
    if Answer(answers, at) then 1 + YesRun(answers, at + 1) else 0
  }

  /** Once everything succeeds from answer `j` on, the work that started at answer `from` ends well, or had ended before. */
  predicate Progress(answers: seq<bool>, j: nat, need: nat, from: nat, to: nat, well: bool) {
    from <= j && Flows(answers, j, need) ==> (from < j && to <= j) || well
  }

  /** Where to look for the next piece of work, after `mid` answers. */
  function From(j: nat, mid: nat): nat {
    if mid <= j then j else mid
  }

  /** Work that first asks at most `used` questions. */
  lemma Sequel(answers: seq<bool>, j: nat, used: nat, need: nat, from: nat, mid: nat, to: nat, well: bool)
    requires from <= mid <= from + used && mid <= to && Progress(answers, From(j, mid), need, mid, to, well)
    ensures Progress(answers, j, used + need, from, to, well)
  {
  }

  /** Work that ends because of a no. */
  lemma SaidNo(answers: seq<bool>, j: nat, need: nat, from: nat, at: nat, to: nat, well: bool)
    requires from <= at < from + need && !Answer(answers, at) && to <= at + 1
    ensures Progress(answers, j, need, from, to, well)
  {
  }

  /** The same while a loop goes on: it is not past `j` yet, or all is well. */
  predicate OnTheWay(answers: seq<bool>, j: nat, need: nat, from: nat, at: nat, well: bool) {
    from <= j && Flows(answers, j, need) ==> at <= j || well
  }

  lemma LoopStep(answers: seq<bool>, j: nat, need: nat, from: nat, head: nat, next: nat, well0: bool, well: bool)
    requires from <= head <= next && OnTheWay(answers, j, need, from, head, well0) && (well0 ==> well)
    requires Progress(answers, j, need, head, next, well)
    ensures OnTheWay(answers, j, need, from, next, well) && Progress(answers, j, need, from, next, well)
  {
  }

  // ---------- Times ----------

  /** A frame offered to the encoder: its handle and its pts. */
  datatype Given = Given(source: int, pts: int)

  /** One connection: its start and one reading for each frame, and the frames. */
  datatype Stint = Stint(clock: seq<int>, given: seq<Given>)

  predicate NonDecreasing(s: seq<int>) {
    forall i, j :: 0 <= i < j < |s| ==> s[i] <= s[j]
  }

  /** Each frame is stamped with the whole milliseconds between the start and its reading. */
  predicate WellTimed(s: Stint) {
    && |s.clock| == |s.given| + 1 && NonDecreasing(s.clock)
    && forall i :: 0 <= i < |s.given| ==> s.given[i].pts == (s.clock[i + 1] - s.clock[0]) / 1000
  }

  /** What has been read and given since the connection began. */
  predicate Timed(clock: seq<int>, given: seq<Given>, clock0: seq<int>, given0: seq<Given>, start: int, now: int) {
    && |clock0| < |clock| && |given0| <= |given| && clock0 == clock[..|clock0|] && given0 == given[..|given0|]
    && clock[|clock0|] == start && clock[|clock| - 1] <= now
    && WellTimed(Stint(clock[|clock0|..], given[|given0|..]))
  }

  lemma TimedOneMore(clock: seq<int>, given: seq<Given>, clock0: seq<int>, given0: seq<Given>, start: int, now: int,
                     source: int, t: int)
    requires Timed(clock, given, clock0, given0, start, now) && now <= t
    ensures Timed(clock + [t], given + [Given(source, (t - start) / 1000)], clock0, given0, start, t)
  {
    var s := Stint(clock[|clock0|..], given[|given0|..]);
    var clock', given' := clock + [t], given + [Given(source, (t - start) / 1000)];
    assert clock'[|clock0|..] == s.clock + [t] && given'[|given0|..] == s.given + [Given(source, (t - start) / 1000)];
    assert s.clock[|s.clock| - 1] == clock[|clock| - 1];
    OneMore(s.clock, t);
  }

  lemma OneMore(s: seq<int>, t: int)
    requires s != [] && NonDecreasing(s) && s[|s| - 1] <= t
    ensures NonDecreasing(s + [t])
  {
    forall i | 0 <= i < |s| ensures s[i] <= t {
      assert i < |s| - 1 ==> s[i] <= s[|s| - 1];
    }
  }

  lemma TimedLater(clock: seq<int>, given: seq<Given>, clock0: seq<int>, given0: seq<Given>, start: int, now: int, later: int)
    requires Timed(clock, given, clock0, given0, start, now) && now <= later
    ensures Timed(clock, given, clock0, given0, start, later)
  {
  }

  lemma TimedAtStart(clock: seq<int>, given: seq<Given>, start: int)
    ensures Timed(clock + [start], given, clock, given, start, start)
  {
    assert (clock + [start])[|clock|..] == [start] && given[|given|..] == [];
  }

  /** The stamps of a connection are not negative and never go back. */
  lemma StampsInOrder(s: Stint)
    requires WellTimed(s)
    ensures forall i :: 0 <= i < |s.given| ==> s.given[i].pts >= 0
    ensures forall i, j :: 0 <= i < j < |s.given| ==> s.given[i].pts <= s.given[j].pts
  {
    forall i | 0 <= i < |s.given| ensures s.given[i].pts >= 0 {
      assert s.clock[0] <= s.clock[i + 1];
    }
    forall i, j | 0 <= i < j < |s.given| ensures s.given[i].pts <= s.given[j].pts {
      assert s.clock[i + 1] <= s.clock[j + 1];
    }
  }

  function ClocksOf(stints: seq<Stint>): seq<int> {
    if stints == [] then [] else ClocksOf(stints[..|stints| - 1]) + stints[|stints| - 1].clock
  }

  function FramesOf(stints: seq<Stint>): seq<Given> {
    if stints == [] then [] else FramesOf(stints[..|stints| - 1]) + stints[|stints| - 1].given
  }

  lemma StintOneMore(stints: seq<Stint>, clock: seq<int>, given: seq<Given>, clock0: seq<int>, given0: seq<Given>, start: int, now: int)
    requires clock0 == ClocksOf(stints) && given0 == FramesOf(stints) && Timed(clock, given, clock0, given0, start, now)
    ensures var s := Stint(clock[|clock0|..], given[|given0|..]);
            WellTimed(s) && clock == ClocksOf(stints + [s]) && given == FramesOf(stints + [s])
  {
    var s := Stint(clock[|clock0|..], given[|given0|..]);
    assert (stints + [s])[..|stints|] == stints;
  }

  /** The handles of an established connection, in the order of their allocation; the scaler comes later, if at all. */
  datatype Connection = Connection(input: int, decoder: int, encoder: int, yuv: int, pkt: int, frame: int, encPkt: int)
  {
    predicate Ordered() {
      input < decoder < encoder < yuv < pkt < frame < encPkt
    }
  }

  /** Exactly the connection's handles are live. */
  predicate Established(m: Media, c: Connection, scaler: Option<int>)
    reads m`live, m`kinds
  {
    && c.Ordered() && (scaler.Some? ==> c.encPkt < scaler.value)
    && m.live == {c.input, c.decoder, c.encoder, c.yuv, c.pkt, c.frame, c.encPkt}
                 + (if scaler.Some? then {scaler.value} else {})
    && m.Is(c.input, Input) && m.Is(c.decoder, Decoder) && m.Is(c.encoder, Encoder) && m.Is(c.yuv, YuvFrame)
    && m.Is(c.pkt, InputPacket) && m.Is(c.frame, DecodedFrame) && m.Is(c.encPkt, EncodedPacket)
    && (scaler.Some? ==> m.Is(scaler.value, Scaler))
  }

  /** The input with a video stream that has a decoder; each of the four early exits frees what it has. */
  method OpenInput(m: Media, ghost j: nat) returns (input: Option<int>)
    requires m.Valid() && m.live == {} && m.filled == {}
    modifies m`asked, m`live, m`kinds, m`nextHandle, m`filled
    ensures m.Valid() && m.filled == {} && old(m.asked) <= m.asked <= old(m.asked) + 4
    ensures Progress(m.answers, j, 4, old(m.asked), m.asked, input.Some?)
    ensures input.None? ==> m.live == {}
    ensures input.Some? ==> m.live == {input.value} && m.Is(input.value, Input)
  {
    input := None;
    var options := m.Alloc(Options);
    var ok := m.Ask();                  // avformat_open_input
    if !ok {
      m.Free(options, Options);
      return;
    }
    var h := m.Alloc(Input);
    m.Free(options, Options);
    ok := m.Ask();                      // avformat_find_stream_info
    if !ok {
      m.Free(h, Input);
      return;
    }
    m.Use(h, Input);
    ok := m.Ask();                      // a video stream exists
    if !ok {
      m.Free(h, Input);
      return;
    }
    ok := m.Ask();                      // avcodec_find_decoder
    if !ok {
      m.Free(h, Input);
      return;
    }
    input := Some(h);
  }

  /** Decoder and encoder; each of the three early exits frees both and the input. */
  method OpenCodecs(m: Media, input: int, ghost j: nat) returns (codecs: Option<(int, int)>)
    requires m.Valid() && m.live == {input} && m.Is(input, Input) && m.filled == {}
    modifies m`asked, m`live, m`kinds, m`nextHandle, m`filled
    ensures m.Valid() && m.filled == {} && old(m.asked) <= m.asked <= old(m.asked) + 3
    ensures Progress(m.answers, j, 3, old(m.asked), m.asked, codecs.Some?)
    ensures codecs.None? ==> m.live == {}
    ensures codecs.Some? ==>
              var (decoder, encoder) := codecs.value;
              && input < decoder < encoder && m.live == {input, decoder, encoder}
              && m.Is(input, Input) && m.Is(decoder, Decoder) && m.Is(encoder, Encoder)
  {
    codecs := None;
    var decoder := m.Alloc(Decoder);
    m.Use(input, Input);
    var ok := m.Ask();                  // avcodec_open2
    if !ok {
      m.Free(decoder, Decoder);
      m.Free(input, Input);
      return;
    }
    ok := m.Ask();                      // avcodec_find_encoder_by_name
    if !ok {
      m.Free(decoder, Decoder);
      m.Free(input, Input);
      return;
    }
    var encoder := m.Alloc(Encoder);
    m.Use(decoder, Decoder);
    ok := m.Ask();                      // avcodec_open2
    if !ok {
      m.Free(encoder, Encoder);
      m.Free(decoder, Decoder);
      m.Free(input, Input);
      return;
    }
    codecs := Some((decoder, encoder));
  }

  /** From opening the input to the allocation of packets and frames. */
  method Connect(m: Media, ghost j: nat) returns (c: Option<Connection>)
    requires m.Valid() && m.live == {} && m.filled == {}
    modifies m`asked, m`live, m`kinds, m`nextHandle, m`filled
    ensures m.Valid() && m.filled == {} && old(m.asked) <= m.asked <= old(m.asked) + 7
    ensures Progress(m.answers, j, 7, old(m.asked), m.asked, c.Some?)
    ensures c.None? ==> m.live == {}
    ensures c.Some? ==> Established(m, c.value, None)
  {
    c := None;
    var input := OpenInput(m, j);
    if input.None? {
      return;
    }
    var codecs := OpenCodecs(m, input.value, if m.asked <= j then j else m.asked);
    if codecs.None? {
      return;
    }
    var (decoder, encoder) := codecs.value;
    var yuv := m.Alloc(YuvFrame);
    m.Use(encoder, Encoder);
    var pkt := m.Alloc(InputPacket);
    var frame := m.Alloc(DecodedFrame);
    var encPkt := m.Alloc(EncodedPacket);
    c := Some(Connection(input.value, decoder, encoder, yuv, pkt, frame, encPkt));
  }

  /** sws_getCachedContext: keeps the context, or frees it and makes another. */
  method CachedScaler(m: Media, c: Connection, scaler: Option<int>) returns (s: int)
    requires m.Valid() && Established(m, c, scaler) && (scaler.Some? ==> scaler.value !in m.filled)
    modifies m`asked, m`live, m`kinds, m`nextHandle, m`filled
    ensures m.Valid() && Established(m, c, Some(s)) && m.filled == old(m.filled)
    ensures old(m.asked) <= m.asked <= old(m.asked) + 1
  {
    if scaler.Some? {
      var reuse := m.Ask();
      if reuse {
        s := scaler.value;
        return;
      }
      m.Free(scaler.value, Scaler);
    }
    assert c.encPkt in m.kinds;
    s := m.Alloc(Scaler);
  }

  function Least(a: nat, b: nat): nat {
    if a <= b then a else b
  }

  /** Past `j` there are answers enough for all the packets that are left. */
  predicate Enough(answers: seq<bool>, j: nat, size: nat, from: nat, at: nat, left: nat) {
    from <= j && Flows(answers, j, size) && j <= at ==> left <= |answers| - at
  }

  lemma DrainStep(answers: seq<bool>, j: nat, size: nat, from: nat, at: nat, left: nat)
    requires Enough(answers, j, size, from, at, left) && 0 < left <= size && Answer(answers, at)
    ensures Enough(answers, j, size, from, at + 1, left - 1)
    ensures YesRun(answers, at) == 1 + YesRun(answers, at + 1)
  {
  }

  lemma DrainEnd(answers: seq<bool>, j: nat, size: nat, from: nat, at: nat, to: nat, left: nat)
    requires Enough(answers, j, size, from, at, left) && from <= at <= to <= at + 1 && left <= size
    requires left == 0 || !Answer(answers, at)
    ensures Progress(answers, j, size, from, to, left == 0)
    ensures Least(YesRun(answers, at), left) == 0
  {
  }

  /** One frame is broadcast for each packet that the encoder hands out, until it has no more or a call fails. */
  method DrainEncoder(m: Media, c: Connection, scaler: Option<int>, ghost j: nat)
    requires m.Valid() && m.AllSent() && Established(m, c, scaler) && c.encPkt !in m.filled
    modifies m`asked, m`filled, m`fed, m`sent, m`run
    ensures m.Valid() && m.filled == old(m.filled) && old(m.asked) <= m.asked
    ensures m.fed == old(m.fed) + Least(YesRun(m.answers, old(m.asked)), |m.feed| - old(m.fed))
    ensures Progress(m.answers, j, |m.feed|, old(m.asked), m.asked, m.fed == |m.feed|)
    ensures m.AllSent()
  {
    hide EncodeFrame, Encodable, OnAir, YesRun, Flows, Enough, Progress;
    ghost var from, size := m.asked, |m.feed|;
    EnoughAtFirst(m.answers, j, size, from, size - m.fed);
    while true
      invariant m.Valid() && m.filled == old(m.filled) && old(m.asked) <= m.asked
      invariant old(m.fed) <= m.fed
      invariant m.fed + Least(YesRun(m.answers, m.asked), |m.feed| - m.fed)
             == old(m.fed) + Least(YesRun(m.answers, old(m.asked)), |m.feed| - old(m.fed))
      invariant Enough(m.answers, j, size, from, m.asked, size - m.fed)
      invariant m.AllSent()
      decreases |m.answers| - m.asked
    {
      ghost var at := m.asked;
      var ok := m.Ask();                // avcodec_receive_packet
      if !ok {
        DrainEnd(m.answers, j, size, from, at, m.asked, size - m.fed);
        break;
      }
      var p := m.NextPacket();
      if p.None? {
        DrainEnd(m.answers, j, size, from, at, m.asked, 0);
        break;
      }
      DrainStep(m.answers, j, size, from, at, size - m.fed + 1);
      m.Fill(c.encPkt, EncodedPacket);
      BroadcastPacket(m, p.value);
      m.Unref(c.encPkt, EncodedPacket);
    }
  }

  lemma EnoughAtFirst(answers: seq<bool>, j: nat, size: nat, from: nat, left: nat)
    requires left <= size
    ensures Enough(answers, j, size, from, from, left)
  {
  }

  /** The packet the encoder has just handed out goes to the hub as a binary frame. */
  method BroadcastPacket(m: Media, p: Packet)
    requires m.Valid() && m.fed > 0 && p == m.feed[m.fed - 1]
    requires SentAs(m.sent, m.feed, m.fed - 1) && OnAir(m.run, m.sent)
    modifies m`sent, m`run
    ensures m.AllSent()
  {
    assert p in m.feed;
    hide EncodeFrame, Encodable, OnAir;
    var wsFrame := BuildFrame(p);
    m.Broadcast(wsFrame[..]);
  }

  /** The frame for the encoder: the decoded one, or the scaled one if the answer is that the format differs. */
  method ScaleIfNeeded(m: Media, c: Connection, scaler: Option<int>) returns (scaler': Option<int>, source: int)
    requires m.Valid() && Established(m, c, scaler) && (scaler.Some? ==> scaler.value !in m.filled)
    modifies m`asked, m`live, m`kinds, m`nextHandle, m`filled
    ensures m.Valid() && Established(m, c, scaler') && m.filled == old(m.filled)
    ensures old(m.asked) <= m.asked <= old(m.asked) + 2
    ensures source == if Answer(m.answers, old(m.asked)) then c.yuv else c.frame
    ensures m.Is(source, YuvFrame) || m.Is(source, DecodedFrame)
  {
    scaler', source := scaler, c.frame;
    var scale := m.Ask();               // the frame is not YUV420P
    if scale {
      var s := CachedScaler(m, c, scaler);
      scaler' := Some(s);
      m.Use(s, Scaler);
      m.Use(c.yuv, YuvFrame);
      source := c.yuv;
    }
  }

  lemma HandlesApart(m: Media, c: Connection, scaler: Option<int>)
    requires Established(m, c, scaler)
    ensures c.pkt < c.frame < c.encPkt && (scaler.Some? ==> c.encPkt < scaler.value)
  {
  }

  /** One decoded frame: scale if needed, stamp, encode, broadcast. */
  method ProcessFrame(m: Media, c: Connection, scaler: Option<int>, start: int, ghost j: nat) returns (scaler': Option<int>)
    requires m.Valid() && m.AllSent() && Established(m, c, scaler) && m.filled == {c.pkt, c.frame}
    modifies m`asked, m`live, m`kinds, m`nextHandle, m`filled, m`fed, m`sent, m`run, m`now, m`clock, m`given
    ensures m.Valid() && m.AllSent() && Established(m, c, scaler') && m.filled == {c.pkt, c.frame}
    ensures old(m.asked) <= m.asked && old(m.now) <= m.now && old(m.fed) <= m.fed
    ensures m.clock == old(m.clock) + [m.now]
    ensures m.given == old(m.given)
                       + [Given(if Answer(m.answers, old(m.asked)) then c.yuv else c.frame, (m.now - start) / 1000)]
    ensures Progress(m.answers, j, 3 + |m.feed|, old(m.asked), m.asked, m.fed == |m.feed|)
  {
    HandlesApart(m, c, scaler);
    hide EncodeFrame, Encodable, OnAir, SentAs, Answer, YesRun, Least, Flows, Progress, From, Established;
    ghost var from := m.asked;
    var source;
    scaler', source := ScaleIfNeeded(m, c, scaler);
    ghost var mid := m.asked;
    StampAndSend(m, c, scaler', source, start, From(j, mid));
    Sequel(m.answers, j, 2, 1 + |m.feed|, from, mid, m.asked, m.fed == |m.feed|);
  }

  /** The frame gets the time since the start as its pts, and goes to the encoder. */
  method StampAndSend(m: Media, c: Connection, scaler: Option<int>, source: int, start: int, ghost j: nat)
    requires m.Valid() && m.AllSent() && Established(m, c, scaler) && c.encPkt !in m.filled
    requires m.Is(source, YuvFrame) || m.Is(source, DecodedFrame)
    modifies m`asked, m`filled, m`fed, m`sent, m`run, m`now, m`clock, m`given
    ensures m.Valid() && m.AllSent() && Established(m, c, scaler) && m.filled == old(m.filled)
    ensures old(m.asked) <= m.asked && old(m.now) <= m.now && old(m.fed) <= m.fed
    ensures m.clock == old(m.clock) + [m.now] && m.given == old(m.given) + [Given(source, (m.now - start) / 1000)]
    ensures Progress(m.answers, j, 1 + |m.feed|, old(m.asked), m.asked, m.fed == |m.feed|)
  {
    hide EncodeFrame, Encodable, OnAir, SentAs, YesRun, Least, Flows, Progress, Established;
    var t := m.Clock();
    m.Give(source, (t - start) / 1000);
    EncodeAndSend(m, c, scaler, j);
  }

  /** avcodec_send_frame, and the frames for what the encoder makes of it. */
  method EncodeAndSend(m: Media, c: Connection, scaler: Option<int>, ghost j: nat)
    requires m.Valid() && m.AllSent() && Established(m, c, scaler) && c.encPkt !in m.filled
    modifies m`asked, m`filled, m`fed, m`sent, m`run
    ensures m.Valid() && m.AllSent() && m.filled == old(m.filled) && old(m.asked) <= m.asked
    ensures old(m.fed) <= m.fed
    ensures m.fed == if Answer(m.answers, old(m.asked))
                     then old(m.fed) + Least(YesRun(m.answers, old(m.asked) + 1), |m.feed| - old(m.fed)) else old(m.fed)
    ensures Progress(m.answers, j, 1 + |m.feed|, old(m.asked), m.asked, m.fed == |m.feed|)
  {
    hide EncodeFrame, Encodable, OnAir;
    var ok := m.Ask();
    if ok {
      m.Use(c.encoder, Encoder);
      DrainEncoder(m, c, scaler, From(j, m.asked));
    }
  }

  lemma Outset(answers: seq<bool>, j: nat, need: nat, from: nat, well: bool)
    ensures OnTheWay(answers, j, need, from, from, well)
  {
  }

  /** A frame that the decoder has just filled. */
  method DecodedOne(m: Media, c: Connection, scaler: Option<int>, start: int,
                    ghost clock0: seq<int>, ghost given0: seq<Given>, ghost j: nat)
    returns (scaler': Option<int>)
    requires m.Valid() && m.AllSent() && Established(m, c, scaler) && m.filled == {c.pkt}
    requires Timed(m.clock, m.given, clock0, given0, start, m.now)
    modifies m`asked, m`live, m`kinds, m`nextHandle, m`filled, m`fed, m`sent, m`run, m`now, m`clock, m`given
    ensures m.Valid() && m.AllSent() && Established(m, c, scaler') && m.filled == {c.pkt}
    ensures old(m.asked) <= m.asked && old(m.fed) <= m.fed
    ensures Timed(m.clock, m.given, clock0, given0, start, m.now)
    ensures Progress(m.answers, j, 3 + |m.feed|, old(m.asked), m.asked, m.fed == |m.feed|)
  {
    hide EncodeFrame, Encodable, OnAir, Timed, Flows, Progress;
    m.Use(c.decoder, Decoder);
    m.Fill(c.frame, DecodedFrame);
    ghost var clock, given, now, source := m.clock, m.given, m.now, if Answer(m.answers, m.asked) then c.yuv else c.frame;
    scaler' := ProcessFrame(m, c, scaler, start, j);
    TimedOneMore(clock, given, clock0, given0, start, now, source, m.now);
    m.Unref(c.frame, DecodedFrame);
  }

  /** Everything the decoder makes of one packet. */
  method DecodePacket(m: Media, c: Connection, scaler: Option<int>, start: int,
                      ghost clock0: seq<int>, ghost given0: seq<Given>, ghost j: nat)
    returns (scaler': Option<int>)
    requires m.Valid() && m.AllSent() && Established(m, c, scaler) && m.filled == {c.pkt}
    requires Timed(m.clock, m.given, clock0, given0, start, m.now)
    modifies m`asked, m`live, m`kinds, m`nextHandle, m`filled, m`fed, m`sent, m`run, m`now, m`clock, m`given
    ensures m.Valid() && m.AllSent() && Established(m, c, scaler') && m.filled == {c.pkt}
    ensures old(m.asked) <= m.asked && old(m.fed) <= m.fed
    ensures Timed(m.clock, m.given, clock0, given0, start, m.now)
    ensures Progress(m.answers, j, 4 + |m.feed|, old(m.asked), m.asked, m.fed == |m.feed|)
  {
    hide EncodeFrame, Encodable, OnAir, Timed, Flows, Progress, OnTheWay, From, Established;
    scaler' := scaler;
    ghost var from, need := m.asked, 4 + |m.feed|;
    Outset(m.answers, j, need, from, m.fed == |m.feed|);
    while true
      invariant m.Valid() && m.AllSent() && Established(m, c, scaler') && m.filled == {c.pkt}
      invariant old(m.asked) <= m.asked && old(m.fed) <= m.fed
      invariant Timed(m.clock, m.given, clock0, given0, start, m.now)
      invariant OnTheWay(m.answers, j, need, from, m.asked, m.fed == |m.feed|)
      decreases |m.answers| - m.asked
    {
      ghost var head, drained := m.asked, m.fed == |m.feed|;
      var ok := m.Ask();                // avcodec_receive_frame
      if !ok {
        SaidNo(m.answers, j, need, head, head, m.asked, m.fed == |m.feed|);
        LoopStep(m.answers, j, need, from, head, m.asked, drained, m.fed == |m.feed|);
        break;
      }
      scaler' := DecodedOne(m, c, scaler', start, clock0, given0, From(j, m.asked));
      Sequel(m.answers, j, 1, 3 + |m.feed|, head, head + 1, m.asked, m.fed == |m.feed|);
      LoopStep(m.answers, j, need, from, head, m.asked, drained, m.fed == |m.feed|);
    }
  }

  /** avcodec_send_packet, and all that follows from it. */
  method SendPacket(m: Media, c: Connection, scaler: Option<int>, start: int,
                    ghost clock0: seq<int>, ghost given0: seq<Given>, ghost j: nat)
    returns (scaler': Option<int>)
    requires m.Valid() && m.AllSent() && Established(m, c, scaler) && m.filled == {c.pkt}
    requires Timed(m.clock, m.given, clock0, given0, start, m.now)
    modifies m`asked, m`live, m`kinds, m`nextHandle, m`filled, m`fed, m`sent, m`run, m`now, m`clock, m`given
    ensures m.Valid() && m.AllSent() && Established(m, c, scaler') && m.filled == {c.pkt}
    ensures old(m.asked) <= m.asked && old(m.fed) <= m.fed
    ensures Timed(m.clock, m.given, clock0, given0, start, m.now)
    ensures !Answer(m.answers, old(m.asked)) ==> m.given == old(m.given) && m.fed == old(m.fed)
    ensures Progress(m.answers, j, 5 + |m.feed|, old(m.asked), m.asked, m.fed == |m.feed|)
  {
    hide EncodeFrame, Encodable, OnAir, Timed, Flows, Progress, From, Established;
    ghost var from := m.asked;
    scaler' := scaler;
    var ok := m.Ask();
    if ok {
      scaler' := DecodePacket(m, c, scaler, start, clock0, given0, From(j, m.asked));
      Sequel(m.answers, j, 1, 4 + |m.feed|, from, from + 1, m.asked, m.fed == |m.feed|);
    } else {
      SaidNo(m.answers, j, 5 + |m.feed|, from, from, m.asked, m.fed == |m.feed|);
    }
  }

  /** One round of the inner loop; `more` is false at the end of the stream. Only packets of the video stream are decoded. */
  method RelayPacket(m: Media, c: Connection, scaler: Option<int>, start: int,
                     ghost clock0: seq<int>, ghost given0: seq<Given>, ghost j: nat)
    returns (more: bool, scaler': Option<int>)
    requires m.Valid() && m.AllSent() && Established(m, c, scaler) && m.filled == {}
    requires Timed(m.clock, m.given, clock0, given0, start, m.now)
    modifies m`asked, m`live, m`kinds, m`nextHandle, m`filled, m`fed, m`sent, m`run, m`now, m`clock, m`given
    ensures m.Valid() && m.AllSent() && Established(m, c, scaler') && m.filled == {}
    ensures old(m.asked) <= m.asked && old(m.fed) <= m.fed
    ensures Timed(m.clock, m.given, clock0, given0, start, m.now)
    ensures more == Answer(m.answers, old(m.asked))
    ensures !Answer(m.answers, old(m.asked) + 1) ==> m.given == old(m.given) && m.fed == old(m.fed)
    ensures Progress(m.answers, j, 7 + |m.feed|, old(m.asked), m.asked, m.fed == |m.feed|)
  {
    hide EncodeFrame, Encodable, OnAir, Timed, Flows, Progress, From;
    ghost var from, need := m.asked, 7 + |m.feed|;
    scaler' := scaler;
    m.Use(c.input, Input);
    more := m.Ask();                    // av_read_frame
    if !more {
      SaidNo(m.answers, j, need, from, from, m.asked, m.fed == |m.feed|);
      return;
    }
    m.Fill(c.pkt, InputPacket);
    var isVideo := m.Ask();
    if isVideo {
      scaler' := SendPacket(m, c, scaler, start, clock0, given0, From(j, m.asked));
      Sequel(m.answers, j, 2, 5 + |m.feed|, from, from + 2, m.asked, m.fed == |m.feed|);
    } else {
      SaidNo(m.answers, j, need, from, from + 1, m.asked, m.fed == |m.feed|);
    }
    m.Unref(c.pkt, InputPacket);
  }

  /** The inner loop: one connection until it ends or the relayer is stopped. */
  method RelayConnection(m: Media, c: Connection, ghost j: nat) returns (scaler: Option<int>)
    requires m.Valid() && m.AllSent() && Established(m, c, None) && m.filled == {}
    modifies m`asked, m`live, m`kinds, m`nextHandle, m`filled, m`fed, m`sent, m`run, m`now, m`clock, m`given
    ensures m.Valid() && m.AllSent() && Established(m, c, scaler) && m.filled == {}
    ensures old(m.asked) <= m.asked && old(m.fed) <= m.fed && |old(m.clock)| < |m.clock| && |old(m.given)| <= |m.given|
    ensures Timed(m.clock, m.given, old(m.clock), old(m.given), m.clock[|old(m.clock)|], m.now)
    ensures Progress(m.answers, j, 8 + |m.feed|, old(m.asked), m.asked, m.fed == |m.feed|)
  {
    hide EncodeFrame, Encodable, OnAir, Timed, Flows, Progress, OnTheWay, From, Established;
    scaler := None;
    ghost var clock0, given0, from, need := m.clock, m.given, m.asked, 8 + |m.feed|;
    Outset(m.answers, j, need, from, m.fed == |m.feed|);
    var start := m.Clock();
    TimedAtStart(clock0, given0, start);
    while true
      invariant m.Valid() && m.AllSent() && Established(m, c, scaler) && m.filled == {}
      invariant old(m.asked) <= m.asked && old(m.fed) <= m.fed
      invariant Timed(m.clock, m.given, clock0, given0, start, m.now)
      invariant OnTheWay(m.answers, j, need, from, m.asked, m.fed == |m.feed|)
      decreases |m.answers| - m.asked
    {
      ghost var head, drained := m.asked, m.fed == |m.feed|;
      var running := m.Ask();
      if !running {
        SaidNo(m.answers, j, need, head, head, m.asked, m.fed == |m.feed|);
        LoopStep(m.answers, j, need, from, head, m.asked, drained, m.fed == |m.feed|);
        break;
      }
      var more;
      more, scaler := RelayPacket(m, c, scaler, start, clock0, given0, From(j, m.asked));
      Sequel(m.answers, j, 1, 7 + |m.feed|, head, head + 1, m.asked, m.fed == |m.feed|);
      LoopStep(m.answers, j, need, from, head, m.asked, drained, m.fed == |m.feed|);
      if !more {
        break;
      }
    }
    TimedStart(m.clock, m.given, clock0, given0, start, m.now);
  }

  lemma TimedStart(clock: seq<int>, given: seq<Given>, clock0: seq<int>, given0: seq<Given>, start: int, now: int)
    requires Timed(clock, given, clock0, given0, start, now)
    ensures |clock0| < |clock| && clock[|clock0|] == start && |given0| <= |given|
  {
  }

  method Cleanup(m: Media, c: Connection, scaler: Option<int>)
    requires m.Valid() && Established(m, c, scaler) && m.filled == {}
    modifies m`live, m`filled
    ensures m.Valid() && m.live == {} && m.filled == {}
  {
    m.Free(c.pkt, InputPacket);
    m.Free(c.encPkt, EncodedPacket);
    m.Free(c.frame, DecodedFrame);
    m.Free(c.yuv, YuvFrame);
    if scaler.Some? {
      m.Free(scaler.value, Scaler);
    }
    m.Free(c.encoder, Encoder);
    m.Free(c.decoder, Decoder);
    m.Free(c.input, Input);
  }

  /**
   For every sequence of library outcomes: at the top of each round, and at the end, no handle is live and
   nothing is referenced; the hub's log holds the frame of every packet the encoder gave out, once, in order,
   and nothing else; and every frame offered to the encoder is stamped with the time since its connection began.
   Once everything succeeds, from whatever answer on, the whole feed is relayed, unless the relayer was stopped
   before. One call after another, as the relayer is stopped and started, keeps all of this.
   */
  method RunLoop(m: Media, ghost j: nat)
    requires m.Valid() && m.live == {} && m.filled == {} && m.AllSent() && m.AllTimed()
    modifies m
    ensures m.Valid() && m.live == {} && m.filled == {}
    ensures m.AllSent() && m.AllTimed()
    ensures Progress(m.answers, j, 16 + |m.feed|, old(m.asked), m.asked, m.fed == |m.feed|)
  {
    hide EncodeFrame, Encodable, OnAir, Timed, Flows, Progress, OnTheWay, From;
    ghost var from, need := m.asked, 16 + |m.feed|;
    Outset(m.answers, j, need, from, m.fed == |m.feed|);
    while true
      invariant m.Valid() && m.live == {} && m.filled == {}
      invariant m.AllSent() && m.AllTimed()
      invariant old(m.asked) <= m.asked
      invariant OnTheWay(m.answers, j, need, from, m.asked, m.fed == |m.feed|)
      decreases |m.answers| - m.asked
    {
      ghost var head, drained := m.asked, m.fed == |m.feed|;
      var running := m.Ask();
      if !running {
        SaidNo(m.answers, j, need, head, head, m.asked, m.fed == |m.feed|);
        LoopStep(m.answers, j, need, from, head, m.asked, drained, m.fed == |m.feed|);
        break;
      }
      Round(m, From(j, m.asked));
      Sequel(m.answers, j, 1, 15 + |m.feed|, head, head + 1, m.asked, m.fed == |m.feed|);
      LoopStep(m.answers, j, need, from, head, m.asked, drained, m.fed == |m.feed|);
    }
  }

  /** One round of the outer loop: connect, relay, clean up. */
  method Round(m: Media, ghost j: nat)
    requires m.Valid() && m.live == {} && m.filled == {} && m.AllSent() && m.AllTimed()
    modifies m
    ensures m.Valid() && m.live == {} && m.filled == {} && m.AllSent() && m.AllTimed()
    ensures old(m.asked) <= m.asked && old(m.fed) <= m.fed
    ensures Progress(m.answers, j, 15 + |m.feed|, old(m.asked), m.asked, m.fed == |m.feed|)
  {
    hide EncodeFrame, Encodable, OnAir, Timed, WellTimed, ClocksOf, FramesOf, From, Established, Flows;
    ghost var from := m.asked;
    var c := Connect(m, j);
    if c.None? {
      ConnectFailed(m.answers, j, 15 + |m.feed|, from, m.asked, m.fed == |m.feed|);
      return;
    }
    ghost var clock0, given0, stints0, mid := m.clock, m.given, m.stints, m.asked;
    var scaler := RelayConnection(m, c.value, From(j, mid));
    Sequel(m.answers, j, 7, 8 + |m.feed|, from, mid, m.asked, m.fed == |m.feed|);
    StintOneMore(stints0, m.clock, m.given, clock0, given0, m.clock[|clock0|], m.now);
    ghost var s := Stint(m.clock[|clock0|..], m.given[|given0|..]);
    m.stints := m.stints + [s];
    Cleanup(m, c.value, scaler);
  }

  lemma ConnectFailed(answers: seq<bool>, j: nat, need: nat, from: nat, to: nat, well: bool)
    requires Progress(answers, j, 7, from, to, false) && need >= 7
    ensures Progress(answers, j, need, from, to, well)
  {
  }

  /** If every call succeeds, as long as there are answers for, every packet of the feed reaches the hub, in order. */
  method RelayWholeFeed(answers: seq<bool>, feed: seq<Packet>, now: int) returns (m: Media)
    requires (forall p <- feed :: Encodable(p)) && Flows(answers, 0, 16 + |feed|)
    ensures FanOut.Log(m.run) == m.sent && SentAs(m.sent, feed, |feed|)
  {
    m := new Media(answers, feed, now);
    RunLoop(m, 0);
  }
}
