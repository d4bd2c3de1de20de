/**
 The relayer's life cycle: start and stop calls, one after the other, against relay threads that run on
 their own and end only when they read `running_` as false.
 */
module StreamRelayer {
  import opened Basics

  /** Where the current start or stop call stands; between calls it is Free. */
  datatype Caller = Free | Joining(after: Option<string>) | Assigning(url: string)

  /** `loops[i]` is true while relay thread i has not returned; `thread` is the one in thread_. */
  datatype State = State(running: bool, joinable: bool, thread: nat, url: string, loops: seq<bool>,
                         caller: Caller, terminated: bool)

  const START: State := State(false, false, 0, "", [], Free, false)

  datatype Event =
    | CallStart(url: string)
    | CallStop
    | LoopEnds(i: nat)   // a relay thread reads running_ as false and returns
    | JoinReturns        // thread_.join() in stop
    | Assign             // rtspUrl_, running_ and thread_ are set in start

  predicate Enabled(st: State, e: Event) {
    !st.terminated &&
    match e
    case CallStart(_) => st.caller.Free?
    case CallStop => st.caller.Free?
    case LoopEnds(i) => i < |st.loops| && st.loops[i] && !st.running
    case JoinReturns => st.caller.Joining? && st.thread < |st.loops| && !st.loops[st.thread]
    case Assign => st.caller.Assigning?
  }

  /** stop(): clears the flag and joins if there is a thread. */
  function Stopping(st: State, after: Option<string>): State {
    if st.running && st.joinable then st.(running := false, caller := Joining(after))
    else st.(running := false, caller := if after.Some? then Assigning(after.value) else Free)
  }

  function Next(st: State, e: Event): State
    requires Enabled(st, e)
  {
    match e
    case CallStart(url) => if st.running then Stopping(st, Some(url)) else st.(caller := Assigning(url))
    case CallStop => if st.running then Stopping(st, None) else st
    case LoopEnds(i) => st.(loops := st.loops[i := false])
    case JoinReturns =>
      st.(joinable := false,
          caller := if st.caller.after.Some? then Assigning(st.caller.after.value) else Free)
    case Assign =>
      // assigning to a joinable std::thread terminates the process
      if st.joinable then st.(terminated := true)
      else st.(url := st.caller.url, running := true, joinable := true, thread := |st.loops|,
               loops := st.loops + [true], caller := Free)
  }

  predicate Legal(es: seq<Event>)
    decreases |es|, 0
  {
    es == [] || (Legal(es[..|es| - 1]) && Enabled(Exec(es[..|es| - 1]), es[|es| - 1]))
  }

  function Exec(es: seq<Event>): State
    requires Legal(es)
    decreases |es|, 1
  {
    if es == [] then START else Next(Exec(es[..|es| - 1]), es[|es| - 1])
  }

  /** The URL of the last start call. */
  function LastStarted(es: seq<Event>): Option<string> {
    if es == [] then None
    else if es[|es| - 1].CallStart? then Some(es[|es| - 1].url)
    else LastStarted(es[..|es| - 1])
  }

  predicate Inv(st: State, es: seq<Event>) {
    && !st.terminated
    && (forall i :: 0 <= i < |st.loops| && st.loops[i] ==> st.joinable && i == st.thread)
    && (st.joinable ==> st.thread < |st.loops|)
    && (st.running ==> st.joinable && st.caller.Free? && st.loops[st.thread] && LastStarted(es) == Some(st.url))
    && (st.caller.Free? ==> st.running == st.joinable)
    && (st.caller.Joining? ==> st.joinable && !st.running
                               && (st.caller.after.Some? ==> LastStarted(es) == st.caller.after))
    && (st.caller.Assigning? ==> !st.joinable && !st.running && LastStarted(es) == Some(st.caller.url))
  }

  lemma StepKeepsInv(st: State, es: seq<Event>, e: Event)
    requires Inv(st, es) && Enabled(st, e)
    ensures Inv(Next(st, e), es + [e])
  {
    assert (es + [e])[..|es|] == es;
  }

  lemma {:induction false} RunKeepsInv(es: seq<Event>)
    requires Legal(es)
    ensures Inv(Exec(es), es)
  {
    if es != [] {
      var init, e := es[..|es| - 1], es[|es| - 1];
      assert es == init + [e];
      RunKeepsInv(init);
      StepKeepsInv(Exec(init), init, e);
    }
  }

  /**
   In every reachable state: at most one relay loop is alive and it is the one that can be joined; the
   process is never terminated by an assignment over a joinable thread; between calls the flag says
   exactly whether there is a thread, and while it is set that thread is alive with the URL last started.
   */
  lemma Lifecycle(es: seq<Event>)
    requires Legal(es)
    ensures var st := Exec(es);
            && !st.terminated
            && (forall i, j :: 0 <= i < |st.loops| && 0 <= j < |st.loops| && st.loops[i] && st.loops[j] ==> i == j)
            && (st.caller.Free? ==> (st.running <==> st.joinable))
            && (st.caller.Assigning? ==> forall i :: 0 <= i < |st.loops| ==> !st.loops[i])
            && (st.running ==> st.loops[st.thread] && LastStarted(es) == Some(st.url))
  {
    RunKeepsInv(es);
  }

  /** A call is never stuck: some step of the caller or of the thread it waits for is possible. */
  lemma CallsProgress(es: seq<Event>) returns (e: Event)
    requires Legal(es) && !Exec(es).caller.Free?
    ensures Enabled(Exec(es), e) && !e.CallStart? && !e.CallStop?
  {
    RunKeepsInv(es);
    var st := Exec(es);
    e := if st.caller.Assigning? then Assign
         else if st.loops[st.thread] then LoopEnds(st.thread) else JoinReturns;
  }

  /** Between calls, in any reachable state. */
  predicate Calm(st: State) {
    && st.caller.Free? && !st.terminated && st.running == st.joinable
    && (st.joinable ==> st.thread < |st.loops|)
    && forall i :: 0 <= i < |st.loops| ==> st.loops[i] == (st.joinable && i == st.thread)
  }

  /** A whole stop call: clear the flag, let the thread end, join it. */
  function StopCall(st: State): State
    requires Calm(st)
  {
    if st.running then Next(Next(Next(st, CallStop), LoopEnds(st.thread)), JoinReturns) else Next(st, CallStop)
  }

  /** A whole start call, with the nested stop if a thread runs. */
  function StartCall(st: State, url: string): State
    requires Calm(st)
  {
    if st.running then Next(Next(Next(Next(st, CallStart(url)), LoopEnds(st.thread)), JoinReturns), Assign)
    else Next(Next(st, CallStart(url)), Assign)
  }

  /** Whole calls lead from calm to calm; after a start exactly the new thread is alive, after a stop none. */
  lemma CallsStayCalm(st: State, url: string)
    requires Calm(st)
    ensures Calm(StopCall(st)) && !StopCall(st).running
    ensures Calm(StartCall(st, url)) && StartCall(st, url).running && StartCall(st, url).url == url
    ensures StartCall(st, url).thread == |st.loops| && |StartCall(st, url).loops| == |st.loops| + 1
  {
  }

  /** The relayer as its callers see it: each call runs to its end. */
  class StreamRelayer {
    var running: bool
    var joinable: bool
    var rtspUrl: string
    var thread: nat
    var loops: seq<bool>

    ghost function View(): State
      reads this
    {
      State(running, joinable, thread, rtspUrl, loops, Free, false)
    }

    ghost predicate Valid()
      reads this
    {
      Calm(View())
    }

    ghost function Stream(): Option<string>
      reads this
    {
      if running then Some(rtspUrl) else None
    }

    constructor ()
      ensures Valid() && Stream() == None && View() == START
    {
      running, joinable, rtspUrl, thread, loops := false, false, "", 0, [];
    }

    /** Waits for the thread; it returns once it reads the flag. */
    method Join()
      requires joinable && !running && thread < |loops|
      modifies this`joinable, this`loops
      ensures !joinable && loops == old(loops)[thread := false]
    {
      loops := loops[thread := false];
      joinable := false;
    }

    /** thread_ = std::thread(...): only over a thread that has been joined. */
    method AssignThread()
      requires !joinable && forall i :: 0 <= i < |loops| ==> !loops[i]
      modifies this`joinable, this`thread, this`loops
      ensures joinable && thread == |old(loops)| && loops == old(loops) + [true]
    {
      thread, joinable := |loops|, true;
      loops := loops + [true];
    }

    method Stop()
      requires Valid()
      modifies this
      ensures Valid() && Stream() == None && View() == StopCall(old(View()))
    {
      if running {
        running := false;
        if joinable {
          Join();
        }
      }
    }

    method Start(url: string)
      requires Valid()
      modifies this
      ensures Valid() && Stream() == Some(url) && View() == StartCall(old(View()), url)
    {
      if running {
        Stop();
      }
      rtspUrl := url;
      running := true;
      AssignThread();
    }
  }
}
