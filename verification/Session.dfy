/** The relay's session process (portal/lib/onlytty/session.ex) and the peer bookkeeping
    of its sockets (portal/lib/onlytty_web/onlytty_socket.ex). Each handler returns the
    next state, the messages it sends, in order, and what it does to timers and monitors. */
module Session {
  import opened Base

  type Pid = nat
  type Ref = nat
  type TimerId = nat
  type ViewerId = nat

  datatype Msg =
    | AddPeer(pid: Pid)
    | AddViewer(pid: Pid, id: ViewerId)
    | DelPeer(pid: Pid)
    | PeerJoin(id: ViewerId, viewers: nat)
    | PeerLeft(id: ViewerId, viewers: nat)
    | GoingAway
    | Close

  datatype Viewer = Viewer(ref: Ref, id: ViewerId)

  datatype Session = Session(runner: Option<Pid>, runnerRef: Option<Ref>, viewers: map<Pid, Viewer>,
                             locked: bool, maxViewers: nat, timer: Option<TimerId>)

  type Sends = seq<(Pid, Msg)>

  /** `cancelled` and `flushed` name the timer and the monitor the handler gives up. */
  datatype Outcome = Outcome(session: Session, sends: Sends, cancelled: Option<TimerId>, flushed: Option<Ref>)

  function Init(locked: bool, maxViewers: nat, timer: TimerId): Session {
    Session(None, None, map[], locked, maxViewers, Some(timer))
  }

  function Cap(s: Session): nat { if s.locked then 1 else s.maxViewers }

  predicate Displaces(s: Session, pid: Pid) { s.runner.Some? && s.runner.value != pid }

  /** What a loop over the viewer map sends, visiting the viewers in `order`. */
  function Each(order: seq<Pid>, f: Pid -> Sends): Sends {
    if order == [] then [] else Each(order[..|order| - 1], f) + f(order[|order| - 1])
  }

  function IdOf(s: Session, v: Pid): ViewerId { if v in s.viewers then s.viewers[v].id else 0 }

  function WireRunner(s: Session, pid: Pid): Pid -> Sends {
    (v: Pid) =>
      (if Displaces(s, pid) then [(v, DelPeer(s.runner.value))] else [])
      + [(v, AddPeer(pid)), (pid, AddViewer(v, IdOf(s, v))), (v, PeerJoin(IdOf(s, v), |s.viewers|))]
  }

  function JoinRunner(s: Session, pid: Pid, ref: Ref, order: seq<Pid>): Outcome {
    Outcome(s.(runner := Some(pid), runnerRef := Some(ref), timer := None),
            (if Displaces(s, pid) then [(s.runner.value, Close)] else []) + Each(order, WireRunner(s, pid)),
            s.timer, s.runnerRef)
  }

  /** None when the session is full: the caller hears "busy". */
  function JoinViewer(s: Session, pid: Pid, ref: Ref, id: ViewerId): Option<Outcome> {
    if |s.viewers| >= Cap(s) then None
    else
      var t := s.(viewers := s.viewers[pid := Viewer(ref, id)]);
      var sends := match s.runner
        case None => []
        case Some(r) => [(r, AddViewer(pid, id)), (pid, AddPeer(r)), (r, PeerJoin(id, |t.viewers|))];
      Some(Outcome(t, sends, None, None))
  }

  function RunnerGone(s: Session, runner: Pid): Pid -> Sends {
    (v: Pid) => [(v, PeerLeft(IdOf(s, v), |s.viewers|)), (v, DelPeer(runner))]
  }

  function Down(s: Session, ref: Ref, pid: Pid, timer: TimerId, order: seq<Pid>): Outcome {
    if s.runnerRef == Some(ref) then
      var sends := match s.runner case None => [] case Some(r) => Each(order, RunnerGone(s, r));
      Outcome(s.(runner := None, runnerRef := None, timer := Some(timer)), sends, s.timer, None)
    else if pid in s.viewers && s.viewers[pid].ref == ref then
      var t := s.(viewers := s.viewers - {pid});
      var sends := match s.runner
        case None => []
        case Some(r) => [(r, DelPeer(pid)), (r, PeerLeft(s.viewers[pid].id, |t.viewers|))];
      Outcome(t, sends, None, None)
    else Outcome(s, [], None, None)
  }

  function Broadcast(s: Session, m: Msg, order: seq<Pid>): Sends {
    (match s.runner case None => [] case Some(r) => [(r, m)]) + Each(order, (v: Pid) => [(v, m)])
  }

  // ---- A socket's own bookkeeping ------------------------------------------------

  /** `told` is the viewer count last passed on to the client. */
  datatype Local = Local(peers: set<Pid>, viewerPeers: map<ViewerId, Pid>, peerIds: map<Pid, ViewerId>, told: nat)

  const BASE := Local({}, map[], map[], 0)

  function Apply(l: Local, m: Msg): Local {
    match m
    case AddPeer(pid) => l.(peers := l.peers + {pid})
    case AddViewer(pid, id) =>
      l.(peers := l.peers + {pid}, viewerPeers := l.viewerPeers[id := pid], peerIds := l.peerIds[pid := id])
    case DelPeer(pid) =>
      l.(peers := l.peers - {pid}, peerIds := l.peerIds - {pid},
         viewerPeers := if pid in l.peerIds then l.viewerPeers - {l.peerIds[pid]} else l.viewerPeers)
    case PeerJoin(_, n) => l.(told := if n == 0 then 1 else n)
    case PeerLeft(_, n) => l.(told := n)
    case _ => l
  }

  /** The state a socket reaches once it has handled everything in its mailbox. */
  function Fold(l: Local, ms: seq<Msg>): Local
    decreases ms
  {
    if ms == [] then l else Fold(Apply(l, ms[0]), ms[1..])
  }

  lemma {:induction false} FoldAppend(l: Local, a: seq<Msg>, b: seq<Msg>)
    ensures Fold(l, a + b) == Fold(Fold(l, a), b)
    decreases a
  {
    if a == [] {
      assert a + b == b;
    } else {
      FoldAppend(Apply(l, a[0]), a[1..], b);
      assert (a + b)[1..] == a[1..] + b;
    }
  }

  // ---- Which of the messages go to one process -------------------------------------

  function For(p: Pid, sends: Sends): seq<Msg> {
    if sends == [] then []
    else (if sends[0].0 == p then [sends[0].1] else []) + For(p, sends[1..])
  }

  lemma ForCons(p: Pid, a: (Pid, Msg), rest: Sends)
    ensures For(p, [a] + rest) == (if a.0 == p then [a.1] else []) + For(p, rest)
  {
  }

  lemma {:induction false} ForAppend(p: Pid, a: Sends, b: Sends)
    ensures For(p, a + b) == For(p, a) + For(p, b)
  {
    if a == [] {
      assert a + b == b;
    } else {
      var c, rest := a[0], a[1..];
      var h := if c.0 == p then [c.1] else [];
      ForAppend(p, rest, b);
      assert a + b == [c] + (rest + b);
      ForCons(p, c, rest + b);
      assert For(p, a) == h + For(p, rest);
      Regroup(h, For(p, rest), For(p, b));
    }
  }

  lemma Regroup<T>(a: seq<T>, b: seq<T>, c: seq<T>)
    ensures a + (b + c) == a + b + c
  {
  }

  /** What process p is sent on each turn of a loop, turn by turn. */
  function Turns(p: Pid, order: seq<Pid>, f: Pid -> Sends): seq<Msg> {
    if order == [] then [] else Turns(p, order[..|order| - 1], f) + For(p, f(order[|order| - 1]))
  }

  /** A loop's mail to any process is what its turns send it, in the order of the turns. */
  lemma {:induction false} EachTurn(p: Pid, order: seq<Pid>, f: Pid -> Sends)
    ensures For(p, Each(order, f)) == Turns(p, order, f)
  {
    if order != [] {
      var n := |order| - 1;
      EachTurn(p, order[..n], f);
      ForAppend(p, Each(order[..n], f), f(order[n]));
    }
  }

  predicate Distinct(order: seq<Pid>) {
    forall i, j | 0 <= i < j < |order| :: order[i] != order[j]
  }

  /** A loop over distinct viewers sends process p what it sends on p's own turn, if it
      sends p nothing on the others' turns. */
  lemma {:induction false} ForEach(p: Pid, order: seq<Pid>, f: Pid -> Sends)
    requires Distinct(order)
    requires forall v | v in order && v != p :: For(p, f(v)) == []
    ensures For(p, Each(order, f)) == if p in order then For(p, f(p)) else []
  {
    if order != [] {
      var n := |order| - 1;
      var front := order[..n];
      ForEach(p, front, f);
      ForAppend(p, Each(front, f), f(order[n]));
      assert order == front + [order[n]];
    }
  }
}
