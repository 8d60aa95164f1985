/** How processes come and go: who is told when a session closes, that no death goes unnoticed,
    and that joins, deaths and timers take effect once the session reads of them. */
module Lifecycle {
  import opened Base
  import opened Session
  import opened Relay
  import opened Wiring
  import Reaping

  // ---- The invariant -------------------------------------------------------------

  predicate Registered(x: Session, p: Pid) { x.runner == Some(p) || p in x.viewers }

  predicate Running(sockets: map<Pid, Socket>, p: Pid) { p in sockets && sockets[p].joined && sockets[p].alive }

  /** A viewer that was admitted and still runs is one of the session's. */
  ghost predicate ViewersKnown(x: Session, sockets: map<Pid, Socket>) {
    forall p | Running(sockets, p) && sockets[p].role.Viewing? :: p in x.viewers
  }

  /** A dead process that the session still counts has its down report in the mailbox. */
  ghost predicate RunnerReported(s: System) {
    var x := s.session;
    x.runner.Some? && x.runnerRef.Some? && x.runner.value in s.sockets && !s.sockets[x.runner.value].alive ==>
      IsDown(x.runnerRef.value, x.runner.value) in s.mailbox
  }

  ghost predicate ViewersReported(s: System) {
    forall v | v in s.session.viewers && v in s.sockets && !s.sockets[v].alive ::
      IsDown(s.session.viewers[v].ref, v) in s.mailbox
  }

  /** Whoever still runs under a closed session is about to read that it closed. */
  ghost predicate Closing(sockets: map<Pid, Socket>) {
    forall p | Running(sockets, p) :: Close in sockets[p].inbox
  }

  ghost predicate LifeInv(s: System) {
    if s.up then ViewersKnown(s.session, s.sockets) && RunnerReported(s) && ViewersReported(s) else Closing(s.sockets)
  }

  // ---- Closing and draining ----------------------------------------------------------

  /** A broadcast adds the message to the mailboxes of the runner and the viewers, and only
      to theirs. */
  lemma BroadcastPosts(s: System, m: Msg, order: seq<Pid>, p: Pid)
    requires MemberInv(s.session, s.sockets) && Enumerates(order, s.session.viewers) && p in s.sockets
    ensures var t := Post(s.sockets, Broadcast(s.session, m, order));
            p in t && t[p] == s.sockets[p].(inbox := s.sockets[p].inbox + if Registered(s.session, p) then [m] else [])
  {
    BroadcastTo(s.session, m, order, p);
  }

  lemma ShutCloses(s: System, order: seq<Pid>)
    requires BookInv(s) && FenceInv(s) && ViewersKnown(s.session, s.sockets) && Enumerates(order, s.session.viewers)
    ensures Closing(Shut(s, order).sockets)
  {
    var t := Shut(s, order);
    forall p | Running(t.sockets, p) ensures Close in t.sockets[p].inbox {
      BroadcastPosts(s, Close, order, p);
    }
  }

  // ---- Every step keeps it ------------------------------------------------------------

  lemma OpenLife(s: System, pid: Pid, role: Role)
    requires LifeInv(s)
    ensures LifeInv(Next(s, Open(pid, role)))
  {
  }

  lemma DieLife(s: System, pid: Pid)
    requires LifeInv(s) && pid in s.sockets
    ensures LifeInv(OnDie(s, pid))
  {
  }

  lemma QuietLife(s: System, l: Label)
    requires LifeInv(s) && (l.Fire? || l.Ask?)
    ensures LifeInv(Next(s, l))
  {
  }

  lemma ReadLife(s: System, pid: Pid)
    requires LifeInv(s) && pid in s.sockets && s.sockets[pid].inbox != []
    ensures !s.sockets[pid].inbox[0].Close? ==> LifeInv(Read(s, pid))
    ensures LifeInv(OnDie(Read(s, pid), pid))
  {
    var k := s.sockets[pid];
    assert k.inbox == [k.inbox[0]] + k.inbox[1..];
  }

  lemma {:induction false} FlushSpares(mailbox: seq<Call>, ref: Option<Ref>, c: Call)
    requires c in mailbox && !(c.IsDown? && Some(c.ref) == ref)
    ensures c in Flush(mailbox, ref)
  {
    if c != mailbox[0] {
      assert c in mailbox[1..];
      FlushSpares(mailbox[1..], ref, c);
    }
  }

  /** Taking any message but a down report off the mailbox loses no report. */
  lemma PopKeeps(s: System, c: Call)
    requires s.mailbox != [] && c in s.mailbox && c != s.mailbox[0]
    ensures c in Popped(s).mailbox
  {
    assert s.mailbox == [s.mailbox[0]] + s.mailbox[1..];
  }

  lemma PopLife(s: System)
    requires s.up && LifeInv(s) && s.mailbox != [] && !s.mailbox[0].IsDown?
    ensures LifeInv(Popped(s))
  {
    forall c | c in s.mailbox && c.IsDown? ensures c in Popped(s).mailbox { PopKeeps(s, c); }
  }

  lemma RunnerJoinedReports(q: System, pid: Pid, order: seq<Pid>)
    requires q.up && LifeInv(q) && RefInv(q) && MemberInv(q.session, q.sockets) && Asking(q, pid)
    ensures ViewersReported(RunnerJoined(q, pid, order)) && RunnerReported(RunnerJoined(q, pid, order))
  {
    var t := RunnerJoined(q, pid, order);
    RunnerJoinedShape(q, pid, order);
    forall v | v in t.session.viewers && v in t.sockets && !t.sockets[v].alive
      ensures IsDown(t.session.viewers[v].ref, v) in t.mailbox
    {
      if q.session.runnerRef.Some? { FlushSpares(q.mailbox, q.session.runnerRef, IsDown(q.session.viewers[v].ref, v)); }
    }
  }

  lemma RunnerJoinedLife(q: System, pid: Pid, order: seq<Pid>)
    requires q.up && LifeInv(q) && RefInv(q) && MemberInv(q.session, q.sockets)
    requires Asking(q, pid) && q.sockets[pid].role.Runner?
    ensures LifeInv(RunnerJoined(q, pid, order))
  {
    RunnerJoinedReports(q, pid, order);
    RunnerJoinedShape(q, pid, order);
  }

  lemma ViewerJoinedLife(q: System, pid: Pid, id: ViewerId)
    requires q.up && LifeInv(q) && MemberInv(q.session, q.sockets) && Asking(q, pid) && Admits(q.session)
    ensures LifeInv(ViewerJoined(q, pid, id))
  {
    ViewerJoinedShape(q, pid, id);
  }

  lemma BusyLife(q: System, pid: Pid)
    requires q.up && LifeInv(q) && MemberInv(q.session, q.sockets) && Asking(q, pid)
    ensures LifeInv(Busy(q, pid))
  {
  }

  /** A report that has been read concerns nobody the session still counts. */
  lemma WentDownReports(s: System, order: seq<Pid>)
    requires RunnerReported(s) && ViewersReported(s) && RefInv(s) && s.mailbox != [] && s.mailbox[0].IsDown?
    ensures var t := WentDown(Popped(s), s.mailbox[0].ref, s.mailbox[0].pid, order);
            RunnerReported(t) && ViewersReported(t)
  {
    var c, q := s.mailbox[0], Popped(s);
    WentDownShape(q, c.ref, c.pid, order);
    forall d | d in s.mailbox && d != c ensures d in q.mailbox { PopKeeps(s, d); }
  }

  lemma WentDownKnown(s: System, order: seq<Pid>)
    requires ViewersKnown(s.session, s.sockets) && RefInv(s) && s.mailbox != [] && s.mailbox[0].IsDown?
    ensures var t := WentDown(Popped(s), s.mailbox[0].ref, s.mailbox[0].pid, order); ViewersKnown(t.session, t.sockets)
  {
    var c := s.mailbox[0];
    WentDownShape(Popped(s), c.ref, c.pid, order);
    assert c in s.mailbox && !s.sockets[c.pid].alive;
  }

  lemma ServeLife(s: System, order: seq<Pid>, id: ViewerId)
    requires s.up && LifeInv(s) && Wiring.Inv(s) && CanServe(s, order, id)
    ensures LifeInv(Next(s, Serve(order, id)))
  {
    var q := Popped(s);
    PopBook(s);
    match s.mailbox[0]
    case AskRunner(pid) =>
      PopLife(s);
      RunnerJoinedLife(q, pid, order);
    case AskViewer(pid) =>
      PopLife(s);
      if Admits(q.session) { ViewerJoinedLife(q, pid, id); } else { BusyLife(q, pid); }
    case IsDown(_, _) =>
      WentDownReports(s, order);
      WentDownKnown(s, order);
    case Reap(_) =>
      PopLife(s);
      if s.session.runner.None? { ShutCloses(q, order); }
    case Drain => DrainLife(s, order);
    case Stop => ShutCloses(q, order);
  }

  lemma DrainLife(s: System, order: seq<Pid>)
    requires s.up && LifeInv(s) && s.mailbox != [] && s.mailbox[0].Drain?
    ensures LifeInv(ServeCall(Popped(s), Drain, order, 0))
  {
    PopLife(s);
  }

  lemma Step(s: System, l: Label)
    requires LifeInv(s) && Wiring.Inv(s)
    ensures LifeInv(Next(s, l))
  {
    match l
    case Open(pid, role) => OpenLife(s, pid, role);
    case Die(pid) => if pid in s.sockets { DieLife(s, pid); }
    case Fire(_) => QuietLife(s, l);
    case Ask(_) => QuietLife(s, l);
    case Serve(order, id) => if CanServe(s, order, id) { ServeLife(s, order, id); }
    case Handle(pid) => if pid in s.sockets && s.sockets[pid].inbox != [] { ReadLife(s, pid); }
  }

  lemma {:induction false} LifeHolds(locked: bool, maxViewers: nat, ls: seq<Label>)
    ensures LifeInv(Exec(Start(locked, maxViewers), ls))
  {
    if ls != [] {
      LifeHolds(locked, maxViewers, ls[..|ls| - 1]);
      Wiring.InvHolds(locked, maxViewers, ls[..|ls| - 1]);
      Step(Exec(Start(locked, maxViewers), ls[..|ls| - 1]), ls[|ls| - 1]);
    }
  }

  // ---- Closing, over every run ----------------------------------------------------------

  /** A live session closes exactly when it reads a stop, or a reap while no runner is attached;
      then its runner and each of its viewers, and nobody else, has one close more to read.
      A drain tells the same processes and closes nothing. */
  lemma {:induction false} CloseReachesAll(locked: bool, maxViewers: nat, ls: seq<Label>, order: seq<Pid>, id: ViewerId)
    ensures var s := Exec(Start(locked, maxViewers), ls);
            CanServe(s, order, id) ==>
              var t := Next(s, Serve(order, id));
              && (!t.up <==> s.mailbox[0].Stop? || (s.mailbox[0].Reap? && s.session.runner.None?))
              && (!t.up ==> Told(s, t, Close)) && (s.mailbox[0].Drain? ==> Told(s, t, GoingAway))
  {
    Wiring.InvHolds(locked, maxViewers, ls);
    var s := Exec(Start(locked, maxViewers), ls);
    if CanServe(s, order, id) { ServeTells(s, order, id); }
  }

  /** One message more for whoever is registered, and nothing else changed. */
  ghost predicate Told(s: System, t: System, m: Msg) {
    && t.sockets.Keys == s.sockets.Keys && t.session == s.session
    && forall p | p in s.sockets ::
         t.sockets[p] == s.sockets[p].(inbox := s.sockets[p].inbox + if Registered(s.session, p) then [m] else [])
  }

  lemma BroadcastTells(s: System, t: System, m: Msg, order: seq<Pid>)
    requires MemberInv(s.session, s.sockets) && Enumerates(order, s.session.viewers)
    requires t.session == s.session && t.sockets == Post(s.sockets, Broadcast(s.session, m, order))
    ensures Told(s, t, m)
  {
    forall p | p in s.sockets
      ensures t.sockets[p] == s.sockets[p].(inbox := s.sockets[p].inbox + if Registered(s.session, p) then [m] else [])
    {
      BroadcastPosts(s, m, order, p);
    }
  }

  lemma ServeTells(s: System, order: seq<Pid>, id: ViewerId)
    requires MemberInv(s.session, s.sockets) && CanServe(s, order, id)
    ensures var t := Next(s, Serve(order, id));
            && (!t.up <==> s.mailbox[0].Stop? || (s.mailbox[0].Reap? && s.session.runner.None?))
            && (!t.up ==> Told(s, t, Close)) && (s.mailbox[0].Drain? ==> Told(s, t, GoingAway))
  {
    var q, t := Popped(s), Next(s, Serve(order, id));
    match s.mailbox[0]
    case Stop =>
      assert t == Shut(q, order);
      BroadcastTells(s, t, Close, order);
    case Reap(_) =>
      if s.session.runner.None? {
        assert t == Shut(q, order);
        BroadcastTells(s, t, Close, order);
      }
    case Drain =>
      assert t == q.(sockets := Post(q.sockets, Broadcast(q.session, GoingAway, order)));
      BroadcastTells(s, t, GoingAway, order);
    case _ => StaysUp(q, s.mailbox[0], order, id);
  }

  lemma StaysUp(q: System, call: Call, order: seq<Pid>, id: ViewerId)
    requires q.up && !call.Stop? && !call.Reap?
    ensures ServeCall(q, call, order, id).up
  {
  }

  /** However a session ended, every socket that joined it and still runs has a close to read:
      its viewers, its runner, and any runner it displaced before. */
  lemma {:induction false} ClosedForGood(locked: bool, maxViewers: nat, ls: seq<Label>, p: Pid)
    ensures var s := Exec(Start(locked, maxViewers), ls);
            !s.up && p in s.sockets && s.sockets[p].joined && s.sockets[p].alive ==> Close in s.sockets[p].inbox
  {
    LifeHolds(locked, maxViewers, ls);
  }

  // ---- Deaths and joins take effect -------------------------------------------------------

  /** No death goes unnoticed: while a dead process is registered, its report is on its way. */
  lemma {:induction false} DeathIsReported(locked: bool, maxViewers: nat, ls: seq<Label>, p: Pid)
    ensures var s := Exec(Start(locked, maxViewers), ls);
            var x := s.session;
            s.up && Registered(x, p) ==>
              && p in s.sockets && s.sockets[p].joined
              && (!s.sockets[p].alive ==>
                    if p in x.viewers then IsDown(x.viewers[p].ref, p) in s.mailbox
                    else x.runnerRef.Some? && IsDown(x.runnerRef.value, p) in s.mailbox)
  {
    LifeHolds(locked, maxViewers, ls);
    Wiring.InvHolds(locked, maxViewers, ls);
  }

  /** Once the session has read all its mail, whoever it counts is alive, and every viewer that
      was admitted and still runs is counted. */
  lemma {:induction false} ReadUpMeansAlive(locked: bool, maxViewers: nat, ls: seq<Label>, p: Pid)
    ensures var s := Exec(Start(locked, maxViewers), ls);
            s.up && s.mailbox == [] && p in s.sockets && s.sockets[p].role.Viewing? ==>
              (p in s.session.viewers <==> s.sockets[p].joined && s.sockets[p].alive)
  {
    LifeHolds(locked, maxViewers, ls);
    Wiring.InvHolds(locked, maxViewers, ls);
  }

  /** A locked session never has two viewers, an unlocked one never more than its maximum. */
  lemma {:induction false} LockedMeansOne(locked: bool, maxViewers: nat, ls: seq<Label>)
    ensures var s := Exec(Start(locked, maxViewers), ls);
            s.up ==> |s.session.viewers| <= if locked then 1 else maxViewers
  {
    Wiring.InvHolds(locked, maxViewers, ls);
    SettingsStay(locked, maxViewers, ls);
  }

  lemma {:induction false} SettingsStay(locked: bool, maxViewers: nat, ls: seq<Label>)
    ensures var x := Exec(Start(locked, maxViewers), ls).session; x.locked == locked && x.maxViewers == maxViewers
  {
    if ls != [] {
      SettingsStay(locked, maxViewers, ls[..|ls| - 1]);
      SettingsStep(Exec(Start(locked, maxViewers), ls[..|ls| - 1]), ls[|ls| - 1]);
    }
  }

  ghost predicate SameSettings(x: Session, y: Session) { x.locked == y.locked && x.maxViewers == y.maxViewers }

  lemma SettingsStep(s: System, l: Label)
    ensures SameSettings(s.session, Next(s, l).session)
  {
    match l
    case Serve(order, id) => if CanServe(s, order, id) { SettingsServe(Popped(s), s.mailbox[0], order, id); }
    case _ =>
  }

  lemma SettingsServe(s: System, call: Call, order: seq<Pid>, id: ViewerId)
    ensures SameSettings(s.session, ServeCall(s, call, order, id).session)
  {
    match call
    case AskRunner(pid) => assert ServeCall(s, call, order, id).session == JoinRunner(s.session, pid, s.nextRef, order).session;
    case AskViewer(pid) =>
      var o := JoinViewer(s.session, pid, s.nextRef, id);
      assert ServeCall(s, call, order, id).session == if o.None? then s.session else o.value.session;
    case IsDown(ref, pid) => WentDownShape(s, ref, pid, order);
    case _ =>
  }

  /** From any moment at which the session has read its mail: a viewer that comes in is admitted
      under the id drawn for it exactly if there is room, and else stopped. */
  lemma {:induction false} ViewerComesIn(locked: bool, maxViewers: nat, ls: seq<Label>, pid: Pid, order: seq<Pid>, id: ViewerId)
    ensures var s := Exec(Start(locked, maxViewers), ls);
            var t := Next(s, Open(pid, Viewing));
            s.up && s.mailbox == [] && pid !in s.sockets && Enumerates(order, s.session.viewers) && FreshId(s.session, id) ==>
              var u := Next(t, Serve(order, id));
              && u.mailbox == [] && u.session.runner == s.session.runner
              && (|s.session.viewers| < (if locked then 1 else maxViewers) ==>
                    && u.session.viewers == s.session.viewers[pid := Viewer(s.nextRef, id)]
                    && u.sockets[pid].joined && u.sockets[pid].alive)
              && (|s.session.viewers| >= (if locked then 1 else maxViewers) ==>
                    u.session == s.session && !u.sockets[pid].joined && !u.sockets[pid].alive)
  {
    SettingsStay(locked, maxViewers, ls);
    var s := Exec(Start(locked, maxViewers), ls);
    var t := Next(s, Open(pid, Viewing));
    if s.up && s.mailbox == [] && pid !in s.sockets && Enumerates(order, s.session.viewers) && FreshId(s.session, id) {
      assert t.mailbox == [AskViewer(pid)] && Popped(t).mailbox == [];
      assert Next(t, Serve(order, id)) == ServeCall(Popped(t), AskViewer(pid), order, id);
      if Admits(s.session) {
        ViewerJoinedShape(Popped(t), pid, id);
      } else {
        BusyChangesNothing(Popped(t), pid, order, id);
      }
    }
  }

  /** A runner that comes in is the session's runner from then on, and no viewer leaves for it. */
  lemma {:induction false} RunnerComesIn(locked: bool, maxViewers: nat, ls: seq<Label>, pid: Pid, order: seq<Pid>, id: ViewerId)
    ensures var s := Exec(Start(locked, maxViewers), ls);
            var t := Next(s, Open(pid, Runner));
            s.up && s.mailbox == [] && pid !in s.sockets && Enumerates(order, s.session.viewers) && FreshId(s.session, id) ==>
              var u := Next(t, Serve(order, id));
              && u.session.runner == Some(pid) && u.session.viewers == s.session.viewers
              && u.mailbox == [] && u.live == {} && u.sockets[pid].joined && u.sockets[pid].alive
  {
    Wiring.InvHolds(locked, maxViewers, ls);
    var s := Exec(Start(locked, maxViewers), ls);
    var t := Next(s, Open(pid, Runner));
    if s.up && s.mailbox == [] && pid !in s.sockets && Enumerates(order, s.session.viewers) && FreshId(s.session, id) {
      Reaping.NoLeakedSession(locked, maxViewers, ls);
      Reaping.TimerHolds(locked, maxViewers, ls);
      assert t.mailbox == [AskRunner(pid)] && Popped(t).mailbox == [];
      RunnerJoinedShape(Popped(t), pid, order);
    }
  }

  /** A death is acted on: a dead runner is gone and the session's timer runs, a dead viewer is
      gone and nobody else. */
  lemma {:induction false} DeathTakesOut(locked: bool, maxViewers: nat, ls: seq<Label>, pid: Pid, order: seq<Pid>, id: ViewerId)
    ensures var s := Exec(Start(locked, maxViewers), ls);
            var t := Next(s, Die(pid));
            s.up && s.mailbox == [] && Registered(s.session, pid) && Enumerates(order, s.session.viewers) && FreshId(s.session, id) ==>
              var u := Next(t, Serve(order, id));
              && pid in u.sockets && !u.sockets[pid].alive && u.mailbox == []
              && (pid in s.session.viewers ==> u.session == s.session.(viewers := s.session.viewers - {pid}))
              && (s.session.runner == Some(pid) ==> u.session.runner == None && u.session.viewers == s.session.viewers
                                                    && u.session.timer == Some(s.nextTimer) && u.live == {s.nextTimer})
  {
    Wiring.InvHolds(locked, maxViewers, ls);
    LifeHolds(locked, maxViewers, ls);
    var s := Exec(Start(locked, maxViewers), ls);
    var t := Next(s, Die(pid));
    if s.up && s.mailbox == [] && Registered(s.session, pid) && Enumerates(order, s.session.viewers) && FreshId(s.session, id) {
      Reaping.NoLeakedSession(locked, maxViewers, ls);
      if pid in s.session.viewers { ViewerDeath(s, pid, order, id); } else { RunnerDeath(s, pid, order, id); }
    }
  }

  lemma ViewerDeath(s: System, pid: Pid, order: seq<Pid>, id: ViewerId)
    requires s.up && s.mailbox == [] && pid in s.session.viewers && s.session.runner != Some(pid) && RefInv(s)
    requires pid in s.sockets && s.sockets[pid].alive
    requires Enumerates(order, s.session.viewers) && FreshId(s.session, id)
    ensures var u := Next(Next(s, Die(pid)), Serve(order, id));
            && pid in u.sockets && !u.sockets[pid].alive && u.mailbox == []
            && u.session == s.session.(viewers := s.session.viewers - {pid})
  {
    assert Next(s, Die(pid)).mailbox == [IsDown(s.session.viewers[pid].ref, pid)];
    WentDownShape(Popped(Next(s, Die(pid))), s.session.viewers[pid].ref, pid, order);
  }

  lemma RunnerDeath(s: System, pid: Pid, order: seq<Pid>, id: ViewerId)
    requires s.up && s.mailbox == [] && s.session.runner == Some(pid) && s.session.runnerRef.Some?
    requires pid !in s.session.viewers && s.live == {}
    requires pid in s.sockets && s.sockets[pid].alive
    requires Enumerates(order, s.session.viewers) && FreshId(s.session, id)
    ensures var u := Next(Next(s, Die(pid)), Serve(order, id));
            && pid in u.sockets && !u.sockets[pid].alive && u.mailbox == []
            && u.session.runner == None && u.session.viewers == s.session.viewers
            && u.session.timer == Some(s.nextTimer) && u.live == {s.nextTimer}
  {
    assert Next(s, Die(pid)).mailbox == [IsDown(s.session.runnerRef.value, pid)];
    WentDownShape(Popped(Next(s, Die(pid))), s.session.runnerRef.value, pid, order);
  }

  /** A session left without a runner closes when its timer fires; a stop closes any session. */
  lemma {:induction false} TimersAndStopsClose(locked: bool, maxViewers: nat, ls: seq<Label>, order: seq<Pid>, id: ViewerId)
    ensures var s := Exec(Start(locked, maxViewers), ls);
            s.up && s.mailbox == [] && Enumerates(order, s.session.viewers) && FreshId(s.session, id) ==>
              && !Next(Next(s, Ask(Stop)), Serve(order, id)).up
              && (s.session.runner.None? ==> s.session.timer.Some?)
              && (s.session.runner.None? ==> !Next(Next(s, Fire(s.session.timer.value)), Serve(order, id)).up)
  {
    Reaping.NoLeakedSession(locked, maxViewers, ls);
    var s := Exec(Start(locked, maxViewers), ls);
    if s.up && s.mailbox == [] {
      assert Next(s, Ask(Stop)).mailbox == [Stop];
      if s.session.runner.None? { assert Next(s, Fire(s.session.timer.value)).mailbox == [Reap(s.session.timer.value)]; }
    }
  }

  /** A running socket reads its mail in order, one message at a time; a close stops it. */
  lemma HandleReads(s: System, pid: Pid)
    requires Running(s.sockets, pid) && s.sockets[pid].inbox != []
    ensures var t := Next(s, Handle(pid));
            var k, m := s.sockets[pid], s.sockets[pid].inbox[0];
            && pid in t.sockets && [m] + t.sockets[pid].inbox == k.inbox && t.sockets[pid].local == Apply(k.local, m)
            && (t.sockets[pid].alive <==> !m.Close?)
            && forall p | p in s.sockets && p != pid :: p in t.sockets && t.sockets[p] == s.sockets[p]
  {
  }
}
