/** The session process, its mailbox, its unconnected timer and every socket process,
    run together. Mailboxes are first-in first-out; a timer that fires puts its message
    in the mailbox in one step; a process dies at any moment and stays dead. */
module Relay {
  import opened Base
  import opened Session

  datatype Role = Runner | Viewing

  datatype Call =
    | AskRunner(pid: Pid)
    | AskViewer(pid: Pid)
    | IsDown(ref: Ref, pid: Pid)
    | Reap(timer: TimerId)       // the tag only names the timer it came from
    | Drain
    | Stop                       // time to live, idle timeout or a close request

  datatype Socket = Socket(role: Role, joined: bool, alive: bool, local: Local, inbox: seq<Msg>)

  datatype System = System(session: Session, up: bool, mailbox: seq<Call>, sockets: map<Pid, Socket>,
                           live: set<TimerId>, nextRef: Ref, nextTimer: TimerId)

  datatype Label =
    | Open(pid: Pid, role: Role)
    | Die(pid: Pid)
    | Fire(timer: TimerId)
    | Ask(call: Call)
    | Serve(order: seq<Pid>, id: ViewerId)   // the session handles its next message
    | Handle(pid: Pid)                       // a socket handles its next message

  function Start(locked: bool, maxViewers: nat): System {
    System(Init(locked, maxViewers, 0), true, [], map[], {0}, 0, 1)
  }

  function Post(sockets: map<Pid, Socket>, sends: Sends): map<Pid, Socket> {
    map p | p in sockets :: sockets[p].(inbox := sockets[p].inbox + For(p, sends))
  }

  function Flush(mailbox: seq<Call>, ref: Option<Ref>): seq<Call> {
    if mailbox == [] then []
    else if mailbox[0].IsDown? && Some(mailbox[0].ref) == ref then Flush(mailbox[1..], ref)
    else [mailbox[0]] + Flush(mailbox[1..], ref)
  }

  /** `cancel_timer` only stops a timer that has not fired; a message already sent stays. */
  function Carry(s: System, o: Outcome): System {
    s.(session := o.session, sockets := Post(s.sockets, o.sends),
       live := if o.cancelled.Some? then s.live - {o.cancelled.value} else s.live,
       mailbox := if o.flushed.Some? then Flush(s.mailbox, o.flushed) else s.mailbox)
  }

  /** Monitoring a process that is already dead reports it down at once. */
  function Watch(s: System, pid: Pid): System {
    s.(nextRef := s.nextRef + 1,
       mailbox := if pid in s.sockets && !s.sockets[pid].alive then s.mailbox + [IsDown(s.nextRef, pid)] else s.mailbox)
  }

  /** The caller's own state begins empty and knows the count of the hello. */
  function Reply(s: System, pid: Pid): System {
    if pid !in s.sockets then s
    else s.(sockets := s.sockets[pid := s.sockets[pid].(joined := true, local := BASE.(told := |s.session.viewers|))])
  }

  function Busy(s: System, pid: Pid): System {
    if pid !in s.sockets then s else s.(sockets := s.sockets[pid := s.sockets[pid].(alive := false)])
  }

  function Shut(s: System, order: seq<Pid>): System {
    s.(up := false, sockets := Post(s.sockets, Broadcast(s.session, Close, order)))
  }

  function ServeCall(s: System, call: Call, order: seq<Pid>, id: ViewerId): System {
    match call
    case AskRunner(pid) =>
      Reply(Watch(Carry(s, JoinRunner(s.session, pid, s.nextRef, order)), pid), pid)
    case AskViewer(pid) =>
      (match JoinViewer(s.session, pid, s.nextRef, id)
       case None => Busy(s, pid)
       case Some(o) => Reply(Watch(Carry(s, o), pid), pid))
    case IsDown(ref, pid) =>
      var o := Down(s.session, ref, pid, s.nextTimer, order);
      var t := Carry(s, o);
      if s.session.runnerRef == Some(ref) then t.(live := t.live + {s.nextTimer}, nextTimer := s.nextTimer + 1) else t
    case Reap(_) => if s.session.runner.None? then Shut(s, order) else s
    case Drain => s.(sockets := Post(s.sockets, Broadcast(s.session, GoingAway, order)))
    case Stop => Shut(s, order)
  }

  /** Random ids do not collide with those of the viewers present. */
  predicate FreshId(session: Session, id: ViewerId) {
    forall v | v in session.viewers :: session.viewers[v].id != id
  }

  predicate CanServe(s: System, order: seq<Pid>, id: ViewerId) {
    && s.up && s.mailbox != []
    && Distinct(order) && (set v | v in order) == s.session.viewers.Keys
    && FreshId(s.session, id)
  }

  /** Every monitor on a process that dies reports it. */
  function Reports(x: Session, pid: Pid): seq<Call> {
    (if x.runner == Some(pid) && x.runnerRef.Some? then [IsDown(x.runnerRef.value, pid)] else [])
    + (if pid in x.viewers then [IsDown(x.viewers[pid].ref, pid)] else [])
  }

  function OnDie(s: System, pid: Pid): System
    requires pid in s.sockets
  {
    s.(sockets := s.sockets[pid := s.sockets[pid].(alive := false)],
       mailbox := s.mailbox + Reports(s.session, pid))
  }

  function Read(s: System, pid: Pid): System
    requires pid in s.sockets && s.sockets[pid].inbox != []
  {
    var k := s.sockets[pid];
    s.(sockets := s.sockets[pid := k.(local := Apply(k.local, k.inbox[0]), inbox := k.inbox[1..])])
  }

  /** A socket told to close stops. */
  function OnHandle(s: System, pid: Pid): System
    requires pid in s.sockets && s.sockets[pid].inbox != []
  {
    if s.sockets[pid].inbox[0].Close? then OnDie(Read(s, pid), pid) else Read(s, pid)
  }

  function Next(s: System, l: Label): System {
    match l
    case Open(pid, role) =>
      if pid in s.sockets then s
      else s.(sockets := s.sockets[pid := Socket(role, false, true, BASE, [])],
              mailbox := s.mailbox + [if role.Runner? then AskRunner(pid) else AskViewer(pid)])
    case Die(pid) => if pid in s.sockets && s.sockets[pid].alive then OnDie(s, pid) else s
    case Fire(t) => if t in s.live then s.(live := s.live - {t}, mailbox := s.mailbox + [Reap(t)]) else s
    case Ask(call) => if call.Drain? || call.Stop? then s.(mailbox := s.mailbox + [call]) else s
    case Serve(order, id) =>
      if CanServe(s, order, id) then ServeCall(s.(mailbox := s.mailbox[1..]), s.mailbox[0], order, id) else s
    case Handle(pid) =>
      if pid in s.sockets && s.sockets[pid].alive && s.sockets[pid].joined && s.sockets[pid].inbox != []
      then OnHandle(s, pid) else s
  }

  function Exec(s: System, ls: seq<Label>): System {
    if ls == [] then s else Next(Exec(s, ls[..|ls| - 1]), ls[|ls| - 1])
  }
}
