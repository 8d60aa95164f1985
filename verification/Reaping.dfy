/** The timer that closes a session left without a runner: it never acts on an old
    absence, and no absence goes untimed. */
module Reaping {
  import opened Base
  import opened Session
  import opened Relay
  import Wiring

  /** A reap message left over from a cancelled timer lies ahead of any report that the
      present runner went down, so it is read while that runner is still attached. */
  ghost predicate NoReapBehind(mailbox: seq<Call>, ref: Ref) {
    forall i, j | 0 <= i < j < |mailbox| && mailbox[i].IsDown? && mailbox[i].ref == ref :: !mailbox[j].Reap?
  }

  ghost predicate Attached(s: System) {
    && s.session.timer.None? && s.live == {}
    && s.session.runnerRef.Some? && NoReapBehind(s.mailbox, s.session.runnerRef.value)
  }

  ghost predicate Absent(s: System) {
    && s.session.runnerRef.None? && s.session.timer.Some?
    && s.live <= {s.session.timer.value}
    && (forall c | c in s.mailbox && c.Reap? :: c.timer == s.session.timer.value)
    && (s.session.timer.value in s.live || Reap(s.session.timer.value) in s.mailbox)
  }

  ghost predicate TimerInv(s: System) {
    if s.session.runner.Some? then Attached(s) else Absent(s)
  }

  lemma DieTimer(s: System, pid: Pid)
    requires TimerInv(s) && pid in s.sockets
    ensures TimerInv(OnDie(s, pid))
  {
  }

  lemma AppendTimer(s: System, call: Call, t: System)
    requires TimerInv(s) && t == s.(mailbox := s.mailbox + [call], sockets := t.sockets) && !call.Reap?
    requires call.IsDown? ==> s.session.runnerRef != Some(call.ref)
    ensures TimerInv(t)
  {
  }

  lemma RunnerJoinedTimer(q: System, pid: Pid, order: seq<Pid>)
    requires TimerInv(q) && Wiring.RefInv(q) && pid in q.sockets
    ensures TimerInv(Wiring.RunnerJoined(q, pid, order))
  {
    var t := Wiring.RunnerJoined(q, pid, order);
    Wiring.RunnerJoinedShape(q, pid, order);
    Wiring.FlushKeeps(q.mailbox, q.session.runnerRef);
    var kept := if q.session.runnerRef.Some? then Flush(q.mailbox, q.session.runnerRef) else q.mailbox;
    forall i | 0 <= i < |kept| && kept[i].IsDown? ensures kept[i].ref < q.nextRef {
      assert kept[i] in q.mailbox;
    }
  }

  /** The runner's own report has no reap behind it, so the new absence starts clean. */
  lemma WentDownTimer(s: System, order: seq<Pid>)
    requires TimerInv(s) && s.mailbox != [] && s.mailbox[0].IsDown?
    requires s.session.runner.Some? <==> s.session.runnerRef.Some?
    ensures TimerInv(Wiring.WentDown(Wiring.Popped(s), s.mailbox[0].ref, s.mailbox[0].pid, order))
  {
    var q := Wiring.Popped(s);
    if s.session.runnerRef == Some(s.mailbox[0].ref) {
      forall c | c in q.mailbox ensures !c.Reap? {
        var k :| 0 <= k < |q.mailbox| && q.mailbox[k] == c;
        assert s.mailbox[k + 1] == c;
      }
    } else {
      PopTimer(s);
    }
  }

  lemma PopTimer(s: System)
    requires TimerInv(s) && s.mailbox != []
    requires s.mailbox[0].Reap? ==> s.session.runner.Some?
    ensures TimerInv(Wiring.Popped(s))
  {
  }

  lemma ServeTimer(s: System, order: seq<Pid>, id: ViewerId)
    requires s.up && TimerInv(s) && Wiring.BookInv(s) && CanServe(s, order, id)
    ensures var t := Next(s, Serve(order, id)); t.up ==> TimerInv(t)
  {
    var q := Wiring.Popped(s);
    Wiring.PopBook(s);
    match s.mailbox[0]
    case AskRunner(pid) =>
      PopTimer(s);
      RunnerJoinedTimer(q, pid, order);
    case AskViewer(pid) =>
      PopTimer(s);
      if Wiring.Admits(q.session) {
        Wiring.ViewerJoinedShape(q, pid, id);
        var t := Wiring.ViewerJoined(q, pid, id);
        if !q.sockets[pid].alive {
          AppendTimer(q.(session := t.session, nextRef := t.nextRef), IsDown(q.nextRef, pid), t);
        }
      }
    case IsDown(_, _) => WentDownTimer(s, order);
    case Reap(_) => if s.session.runner.Some? { PopTimer(s); }
    case Drain => PopTimer(s);
    case Stop =>
  }

  lemma Step(s: System, l: Label)
    requires s.up && TimerInv(s) && Wiring.BookInv(s)
    ensures Next(s, l).up ==> TimerInv(Next(s, l))
  {
    match l
    case Open(pid, role) =>
      if pid !in s.sockets {
        AppendTimer(s, if role.Runner? then AskRunner(pid) else AskViewer(pid), Next(s, l));
      }
    case Die(pid) => if pid in s.sockets { DieTimer(s, pid); }
    case Fire(timer) =>
      if timer in s.live {
        assert Next(s, l).mailbox[|s.mailbox|] == Reap(timer);
      }
    case Ask(call) => if call.Drain? || call.Stop? { AppendTimer(s, call, Next(s, l)); }
    case Serve(order, id) => if CanServe(s, order, id) { ServeTimer(s, order, id); }
    case Handle(pid) =>
      if pid in s.sockets && s.sockets[pid].inbox != [] { DieTimer(Read(s, pid), pid); }
  }

  lemma {:induction false} TimerHolds(locked: bool, maxViewers: nat, ls: seq<Label>)
    ensures var s := Exec(Start(locked, maxViewers), ls); s.up ==> TimerInv(s) && Wiring.BookInv(s)
  {
    Wiring.InvHolds(locked, maxViewers, ls);
    if ls != [] {
      var front := ls[..|ls| - 1];
      TimerHolds(locked, maxViewers, front);
      var s := Exec(Start(locked, maxViewers), front);
      if s.up {
        Step(s, ls[|ls| - 1]);
      } else {
        StaysDown(s, ls[|ls| - 1]);
      }
    }
  }

  lemma StaysDown(s: System, l: Label)
    requires !s.up
    ensures !Next(s, l).up
  {
  }

  /** When a reap message is read, no runner is attached exactly if the message is from the
      timer armed for the present absence; a left-over one finds a runner and changes nothing. */
  lemma {:induction false} NoStaleReap(locked: bool, maxViewers: nat, ls: seq<Label>, order: seq<Pid>, id: ViewerId)
    ensures var s := Exec(Start(locked, maxViewers), ls);
            s.up && s.mailbox != [] && s.mailbox[0].Reap? ==>
              && (s.session.runner.None? <==> s.session.timer == Some(s.mailbox[0].timer))
              && (CanServe(s, order, id) ==>
                    (Next(s, Serve(order, id)).up <==> s.session.timer != Some(s.mailbox[0].timer)))
  {
    TimerHolds(locked, maxViewers, ls);
    var s := Exec(Start(locked, maxViewers), ls);
    if s.up && s.mailbox != [] && s.mailbox[0].Reap? {
      assert s.mailbox[0] in s.mailbox;
    }
  }

  /** No live session without a runner is leaked: its timer runs, or its message waits. */
  lemma NoLeakedSession(locked: bool, maxViewers: nat, ls: seq<Label>)
    ensures var s := Exec(Start(locked, maxViewers), ls);
            s.up && s.session.runner.None? ==>
              s.session.timer.Some? && (s.session.timer.value in s.live || Reap(s.session.timer.value) in s.mailbox)
    ensures var s := Exec(Start(locked, maxViewers), ls);
            s.up && s.session.runner.Some? ==> s.live == {}
  {
    TimerHolds(locked, maxViewers, ls);
  }
}
