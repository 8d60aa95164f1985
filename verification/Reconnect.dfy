/** The browser viewer's reconnect budgets: connect, onclose and the busy branch of
    portal/priv/static/assets/app.js, without the passphrase retry. */
module Reconnect {
  const NEVER_CONNECTED_FAILS: nat := 3

  /** Everything the relay can deliver, as far as reconnecting is concerned. */
  datatype Frame =
    | Busy
    | Notice                    // any other control text, well-formed or not
    | Bye
    | Opaque                    // a binary frame that does not decrypt
    | Decrypted(exit: bool)     // one that does; the command's exit is one of them

  /** The module variables; `live` and `timers` count sockets not yet closed and pending
      retries, `total` every socket opened so far. */
  datatype State = State(ended: bool, noReconnect: bool, everConnected: bool, failCount: nat,
                         busyRetries: nat, busyRetrying: bool, live: nat, timers: nat, total: nat)

  function Start(): State { State(false, false, false, 0, 0, false, 0, 0, 0) }

  predicate Stopped(s: State) { s.ended || s.noReconnect }

  function Limit(budget: nat, everConnected: bool): nat {
    if everConnected then budget else NEVER_CONNECTED_FAILS
  }

  function Connect(s: State): State {
    if Stopped(s) then s else s.(live := s.live + 1, total := s.total + 1)
  }

  function OnBusy(budget: nat, s: State): State {
    if !s.everConnected then s.(noReconnect := true)
    else if s.busyRetries + 1 > budget then s.(busyRetries := s.busyRetries + 1, ended := true, noReconnect := true)
    else s.(busyRetries := s.busyRetries + 1, busyRetrying := true, timers := s.timers + 1)
  }

  function OnFrame(budget: nat, s: State, f: Frame): State {
    if f.Busy? then OnBusy(budget, s)
    else
      var seen := s.(everConnected := true, failCount := 0);
      match f
      case Bye => seen.(ended := true, noReconnect := true)
      case Decrypted(exit) =>
        if exit then seen.(busyRetries := 0, ended := true, noReconnect := true) else seen.(busyRetries := 0)
      case _ => seen
  }

  function OnClose(budget: nat, s: State): State
    requires s.live > 0
  {
    var t := s.(live := s.live - 1);
    if Stopped(s) then t
    else if s.busyRetrying then t.(busyRetrying := false)
    else if s.failCount + 1 >= Limit(budget, s.everConnected) then
      t.(failCount := s.failCount + 1, noReconnect := true, ended := s.everConnected)
    else t.(failCount := s.failCount + 1, timers := s.timers + 1)
  }

  function OnTimer(s: State): State
    requires s.timers > 0
  {
    Connect(s.(timers := s.timers - 1))
  }

  /** The user leaves: the socket goes without a close event. */
  function OnQuit(s: State): State {
    if s.ended then s else s.(ended := true, noReconnect := true, live := 0)
  }

  /** The variables themselves, changed in place by the event handlers. */
  class Viewer {
    const budget: nat
    var ended: bool
    var noReconnect: bool
    var everConnected: bool
    var failCount: nat
    var busyRetries: nat
    var busyRetrying: bool
    var live: nat
    var timers: nat
    var total: nat

    constructor (budget: nat)
      ensures View() == Start() && this.budget == budget
    {
      this.budget := budget;
      ended, noReconnect, everConnected, busyRetrying := false, false, false, false;
      failCount, busyRetries, live, timers, total := 0, 0, 0, 0, 0;
    }

    ghost function View(): State
      reads this
    {
      State(ended, noReconnect, everConnected, failCount, busyRetries, busyRetrying, live, timers, total)
    }

    method OpenSocket()
      modifies this`live, this`total
      ensures View() == old(Connect(View()))
    {
      if ended || noReconnect {
        return;
      }
      live := live + 1;
      total := total + 1;
    }

    method HandleFrame(f: Frame)
      modifies this
      ensures View() == old(OnFrame(budget, View(), f))
    {
      if !f.Busy? {
        everConnected := true;
        failCount := 0;
      }
      match f {
        case Decrypted(exit) =>
          busyRetries := 0;
          if exit {
            ended := true;
            noReconnect := true;
          }
        case Bye =>
          ended := true;
          noReconnect := true;
        case Busy =>
          if !everConnected {
            noReconnect := true;
            return;
          }
          busyRetries := busyRetries + 1;
          if busyRetries > budget {
            ended := true;
            noReconnect := true;
            return;
          }
          busyRetrying := true;
          timers := timers + 1;
        case _ =>
      }
    }

    method HandleClose()
      requires live > 0
      modifies this
      ensures View() == old(OnClose(budget, View()))
    {
      live := live - 1;
      if ended || noReconnect {
        return;
      }
      if busyRetrying {
        busyRetrying := false;
        return;
      }
      failCount := failCount + 1;
      var limit := if everConnected then budget else NEVER_CONNECTED_FAILS;
      if failCount >= limit {
        noReconnect := true;
        if everConnected {
          ended := true;
        }
        return;
      }
      timers := timers + 1;
    }

    method Leave()
      modifies this`ended, this`noReconnect, this`live
      ensures View() == old(OnQuit(View()))
    {
      if ended {
        return;
      }
      ended := true;
      noReconnect := true;
      live := 0;
    }

    method HandleTimer()
      requires timers > 0
      modifies this`timers, this`live, this`total
      ensures View() == old(OnTimer(View()))
    {
      timers := timers - 1;
      OpenSocket();
    }
  }

  // ---- Runs -----------------------------------------------------------------------

  datatype Event = Arrive(f: Frame) | Closed | Timeout | Quit

  /** Frames and closes need a socket, timeouts a pending retry. After busy has been handled
      that socket only closes, and it closes before the retry it asked for is due. */
  predicate Enabled(s: State, e: Event) {
    match e
    case Arrive(_) => s.live > 0 && !s.busyRetrying
    case Closed => s.live > 0
    case Timeout => s.timers > 0 && (s.busyRetrying ==> s.live == 0)
    case Quit => true
  }

  function Step(budget: nat, s: State, e: Event): State {
    if !Enabled(s, e) then s
    else
      match e
      case Arrive(f) => OnFrame(budget, s, f)
      case Closed => OnClose(budget, s)
      case Timeout => OnTimer(s)
      case Quit => OnQuit(s)
  }

  function Run(budget: nat, s: State, es: seq<Event>): State {
    if es == [] then s else Step(budget, Run(budget, s, es[..|es| - 1]), es[|es| - 1])
  }

  ghost predicate Inv(s: State) {
    && s.live <= 1 && s.timers <= 1
    && (s.live + s.timers == 2 ==> s.busyRetrying)
    && (!Stopped(s) ==> s.live + s.timers >= 1 && (s.busyRetrying <==> s.live + s.timers == 2))
  }

  lemma {:induction false} InvHolds(budget: nat, s: State, es: seq<Event>)
    requires Inv(s)
    ensures Inv(Run(budget, s, es))
  {
    if es != [] {
      InvHolds(budget, s, es[..|es| - 1]);
      InvStep(budget, Run(budget, s, es[..|es| - 1]), es[|es| - 1]);
    }
  }

  lemma InvStep(budget: nat, s: State, e: Event)
    requires Inv(s)
    ensures Inv(Step(budget, s, e))
  {
  }

  /** In every run: never two live sockets, never two pending retries, both at once only
      between a busy and the close that follows it, and never neither while still trying. */
  lemma OneAtATime(budget: nat, es: seq<Event>)
    ensures var s := Run(budget, Connect(Start()), es);
            && s.live <= 1 && s.timers <= 1
            && (!Stopped(s) ==> if s.busyRetrying then s.live == 1 && s.timers == 1 else s.live + s.timers == 1)
  {
    InvHolds(budget, Connect(Start()), es);
  }

  /** Were the retry due before the close, two sockets would be open. */
  lemma RetryBeforeClose(budget: nat)
    requires budget > 0
    ensures var s := Run(budget, Connect(Start()), [Arrive(Notice), Arrive(Busy)]);
            s.timers > 0 && OnTimer(s).live == 2
  {
    var es := [Arrive(Notice), Arrive(Busy)];
    assert es[..1] == [Arrive(Notice)] && es[..1][..0] == [];
    assert Run(budget, Connect(Start()), es[..1]) == OnFrame(budget, Connect(Start()), Notice);
  }

  /** Once the viewer has ended or given up, it never opens another socket. */
  lemma {:induction false} StoppedForGood(budget: nat, s: State, es: seq<Event>)
    requires Stopped(s)
    ensures Stopped(Run(budget, s, es)) && Run(budget, s, es).total == s.total
  {
    if es != [] {
      StoppedForGood(budget, s, es[..|es| - 1]);
    }
  }

  function Left(limit: nat, used: nat): nat { if used < limit then limit - used else 0 }

  /** How many sockets can still be opened without hearing anything but busy. */
  function Tries(budget: nat, s: State): nat {
    if Stopped(s) then 0
    else s.timers + Left(Limit(budget, s.everConnected), s.failCount + 1)
         + if s.everConnected then Left(budget, s.busyRetries) else 0
  }

  /** Without a frame other than busy, the tries only run down. */
  lemma {:induction false} TriesRunOut(budget: nat, s: State, es: seq<Event>)
    requires forall i | 0 <= i < |es| && es[i].Arrive? :: es[i].f.Busy?
    ensures var t := Run(budget, s, es);
            t.total + Tries(budget, t) <= s.total + Tries(budget, s) && t.everConnected == s.everConnected
  {
    if es != [] {
      TriesRunOut(budget, s, es[..|es| - 1]);
      TriesStep(budget, Run(budget, s, es[..|es| - 1]), es[|es| - 1]);
    }
  }

  lemma TriesStep(budget: nat, s: State, e: Event)
    requires e.Arrive? ==> e.f.Busy?
    ensures var t := Step(budget, s, e);
            t.total + Tries(budget, t) <= s.total + Tries(budget, s) && t.everConnected == s.everConnected
  {
  }

  /** So a tab that never hears from its session opens at most three sockets, and a viewer that
      has heard from it opens, from any moment on, at most 2 * budget more; one less if its
      budgets are fresh. */
  lemma BoundedlyManySockets(budget: nat, before: seq<Event>, es: seq<Event>)
    requires forall i | 0 <= i < |es| && es[i].Arrive? :: es[i].f.Busy?
    ensures Run(budget, Connect(Start()), es).total <= 3
    ensures var s := Run(budget, Connect(Start()), before);
            s.everConnected && budget > 0 ==>
              && Run(budget, s, es).total <= s.total + 2 * budget
              && (s.failCount == 0 && s.timers == 0 ==> Run(budget, s, es).total <= s.total + 2 * budget - 1)
  {
    TriesRunOut(budget, Connect(Start()), es);
    TriesRunOut(budget, Run(budget, Connect(Start()), before), es);
    InvHolds(budget, Connect(Start()), before);
  }

  // ---- When it stops, and when it goes on ------------------------------------------

  /** While it is trying, a close that does not follow a busy and does not use up the budget
      arms one more retry; one that follows a busy leaves that busy's retry; a due retry is used
      up and opens a socket. */
  lemma CloseRetries(budget: nat, s: State)
    requires s.live > 0 && !Stopped(s)
    ensures var t := OnClose(budget, s);
            && t.live == s.live - 1
            && (s.busyRetrying ==> !Stopped(t) && t.timers == s.timers && t.failCount == s.failCount && !t.busyRetrying)
            && (!s.busyRetrying && s.failCount + 1 < Limit(budget, s.everConnected) ==>
                  !Stopped(t) && t.timers == s.timers + 1 && t.failCount == s.failCount + 1)
            && (!s.busyRetrying && s.failCount + 1 >= Limit(budget, s.everConnected) ==>
                  Stopped(t) && t.timers == s.timers && (t.ended <==> s.everConnected))
  {
  }

  /** The events of a run that were possible when they came. */
  function Effective(budget: nat, es: seq<Event>): seq<Event> {
    if es == [] then []
    else
      Effective(budget, es[..|es| - 1])
      + if Enabled(Run(budget, Connect(Start()), es[..|es| - 1]), es[|es| - 1]) then [es[|es| - 1]] else []
  }

  predicate IsBusy(e: Event) { e.Arrive? && e.f.Busy? }

  predicate Proves(e: Event) { e.Arrive? && !e.f.Busy? }

  /** A frame other than busy has arrived. */
  predicate Connected(es: seq<Event>) { exists e :: e in es && Proves(e) }

  /** Busy frames since the last one that decrypted. */
  function Busies(es: seq<Event>): nat {
    if es == [] then 0
    else
      var e, n := es[|es| - 1], Busies(es[..|es| - 1]);
      if IsBusy(e) then n + 1 else if e.Arrive? && e.f.Decrypted? then 0 else n
  }

  predicate AfterBusy(es: seq<Event>) { es != [] && IsBusy(es[|es| - 1]) }

  /** Closes since the last frame other than busy, leaving out those that follow a busy. */
  function Closes(es: seq<Event>): nat {
    if es == [] then 0
    else
      var front, e := es[..|es| - 1], es[|es| - 1];
      if Proves(e) then 0 else if e.Closed? && !AfterBusy(front) then Closes(front) + 1 else Closes(front)
  }

  /** After these events, this one ends the trying: the user leaves, the session says bye or the
      command exits, busy comes first or once too often, or the closes reach the limit. */
  ghost predicate Stops(budget: nat, es: seq<Event>, e: Event) {
    match e
    case Quit => true
    case Arrive(f) => (match f
      case Bye => true
      case Decrypted(exit) => exit
      case Busy => !Connected(es) || Busies(es) + 1 > budget
      case _ => false)
    case Closed => !AfterBusy(es) && Closes(es) + 1 >= (if Connected(es) then budget else 3)
    case Timeout => false
  }

  ghost predicate EverStops(budget: nat, es: seq<Event>) {
    exists k | 0 <= k < |es| :: Stops(budget, es[..k], es[k])
  }

  function Timeouts(es: seq<Event>): nat {
    if es == [] then 0 else Timeouts(es[..|es| - 1]) + if es[|es| - 1].Timeout? then 1 else 0
  }

  /** What the variables of a viewer that is still trying stand for. */
  ghost predicate Tracks(budget: nat, s: State, es: seq<Event>) {
    && (s.everConnected <==> Connected(es)) && s.failCount == Closes(es) && s.busyRetries == Busies(es)
    && (s.busyRetrying <==> AfterBusy(es)) && s.total == 1 + Timeouts(es)
  }

  lemma ConnectedMore(es: seq<Event>, e: Event)
    ensures Connected(es + [e]) <==> Connected(es) || Proves(e)
  {
    assert (es + [e])[|es|] == e;
  }

  lemma TrackStep(budget: nat, s: State, es: seq<Event>, e: Event)
    requires Inv(s) && !Stopped(s) && Tracks(budget, s, es) && Enabled(s, e)
    ensures var t := Step(budget, s, e);
            && (Stopped(t) <==> Stops(budget, es, e))
            && (!Stopped(t) ==> Tracks(budget, t, es + [e]))
  {
    ConnectedMore(es, e);
    assert (es + [e])[..|es|] == es;
  }

  lemma StaysStopped(budget: nat, s: State, e: Event)
    requires Stopped(s)
    ensures Stopped(Step(budget, s, e))
  {
  }

  lemma {:induction false} TracksRun(budget: nat, es: seq<Event>)
    ensures var s := Run(budget, Connect(Start()), es);
            && (!Stopped(s) ==> Tracks(budget, s, Effective(budget, es)))
            && (Stopped(s) <==> EverStops(budget, Effective(budget, es)))
  {
    if es == [] {
      assert Effective(budget, es) == [];
    } else {
      var front, e := es[..|es| - 1], es[|es| - 1];
      TracksRun(budget, front);
      InvHolds(budget, Connect(Start()), front);
      var s, ev := Run(budget, Connect(Start()), front), Effective(budget, front);
      if Enabled(s, e) {
        assert Effective(budget, es) == ev + [e];
        StopsMore(budget, ev, e);
        if Stopped(s) {
          StaysStopped(budget, s, e);
        } else {
          TrackStep(budget, s, ev, e);
        }
      } else {
        assert Effective(budget, es) == ev + [] == ev;
      }
    }
  }

  lemma StopsMore(budget: nat, es: seq<Event>, e: Event)
    ensures EverStops(budget, es + [e]) <==> EverStops(budget, es) || Stops(budget, es, e)
  {
    var all := es + [e];
    assert all[..|es|] == es && all[|es|] == e;
    forall k | 0 <= k < |es| ensures all[..k] == es[..k] && all[k] == es[k] {}
  }

  /** In every run the viewer has stopped if and only if one of the events that stop it has
      happened: it never gives up earlier, and never goes on after. */
  lemma StopsExactly(budget: nat, es: seq<Event>)
    ensures Stopped(Run(budget, Connect(Start()), es)) <==> EverStops(budget, Effective(budget, es))
  {
    TracksRun(budget, es);
  }

  /** While it is trying, every due retry has opened a socket and nothing else has; and there is
      one retry or socket left to go on with. */
  lemma EveryRetryConnects(budget: nat, es: seq<Event>)
    ensures var s := Run(budget, Connect(Start()), es);
            !Stopped(s) ==> s.total == 1 + Timeouts(Effective(budget, es)) && s.live + s.timers >= 1
  {
    TracksRun(budget, es);
    InvHolds(budget, Connect(Start()), es);
  }

  /** When the trying stops, the session has also ended, except for a tab that was never connected
      and is told busy or runs out of closes: that one only gives up. What has ended stays so. */
  lemma EndsOrGivesUp(budget: nat, s: State, e: Event)
    ensures var t := Step(budget, s, e);
            && (!Stopped(s) && Stopped(t) ==>
                  t.noReconnect && (t.ended <==> s.everConnected || e.Quit? || Proves(e)))
            && (s.ended ==> t.ended) && (s.noReconnect ==> t.noReconnect)
  {
  }
}
