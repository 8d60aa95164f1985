/** What the sockets believe, once they have read their mail, is what the session knows. */
module Wiring {
  import opened Base
  import opened Session
  import opened Relay

  // ---- What a socket should see -------------------------------------------------

  /** The runner's three collections agree with each other and with the viewer map. */
  ghost predicate RunnerSees(l: Local, viewers: map<Pid, Viewer>) {
    && l.peers == viewers.Keys
    && l.peerIds.Keys == viewers.Keys
    && (forall p | p in viewers :: l.peerIds[p] == viewers[p].id)
    && (forall p | p in viewers :: viewers[p].id in l.viewerPeers && l.viewerPeers[viewers[p].id] == p)
    && (forall id | id in l.viewerPeers :: l.viewerPeers[id] in viewers && viewers[l.viewerPeers[id]].id == id)
  }

  function RunnerSet(s: Session): set<Pid> {
    match s.runner case None => {} case Some(r) => {r}
  }

  ghost predicate DistinctIds(viewers: map<Pid, Viewer>) {
    forall p, q | p in viewers && q in viewers && p != q :: viewers[p].id != viewers[q].id
  }

  lemma SeesOneMore(l: Local, viewers: map<Pid, Viewer>, pid: Pid, w: Viewer)
    requires RunnerSees(l, viewers) && pid !in viewers
    requires forall p | p in viewers :: viewers[p].id != w.id
    ensures RunnerSees(Apply(l, AddViewer(pid, w.id)), viewers[pid := w])
  {
  }

  lemma SeesOneLess(l: Local, viewers: map<Pid, Viewer>, pid: Pid)
    requires RunnerSees(l, viewers) && pid in viewers && DistinctIds(viewers)
    ensures RunnerSees(Apply(l, DelPeer(pid)), viewers - {pid})
  {
  }

  // ---- What each handler sends to whom ---------------------------------------------

  lemma ForSingle(p: Pid, a: (Pid, Msg))
    ensures For(p, [a]) == if a.0 == p then [a.1] else []
  {
  }

  lemma ForTwo(p: Pid, a: (Pid, Msg), b: (Pid, Msg))
    ensures For(p, [a, b]) == (if a.0 == p then [a.1] else []) + (if b.0 == p then [b.1] else [])
  {
    ForCons(p, a, [b]);
    ForSingle(p, b);
    assert [a] + [b] == [a, b];
  }

  lemma ForThree(p: Pid, a: (Pid, Msg), b: (Pid, Msg), c: (Pid, Msg))
    ensures For(p, [a, b, c]) == (if a.0 == p then [a.1] else []) + (if b.0 == p then [b.1] else [])
                               + (if c.0 == p then [c.1] else [])
  {
    ForCons(p, a, [b, c]);
    ForTwo(p, b, c);
    assert [a] + [b, c] == [a, b, c];
  }

  /** One turn of the wiring loop: nothing for strangers, one entry for the new runner,
      and for the viewer itself: drop the old runner, then add the new one. */
  lemma WireTurn(s: Session, pid: Pid, v: Pid, p: Pid)
    requires v != pid
    ensures For(p, WireRunner(s, pid)(v)) ==
            if p == v then (if Displaces(s, pid) then [DelPeer(s.runner.value)] else [])
                           + [AddPeer(pid), PeerJoin(IdOf(s, v), |s.viewers|)]
            else if p == pid then [AddViewer(v, IdOf(s, v))]
            else []
  {
    var del: Sends := if Displaces(s, pid) then [(v, DelPeer(s.runner.value))] else [];
    var rest: Sends := [(v, AddPeer(pid)), (pid, AddViewer(v, IdOf(s, v))), (v, PeerJoin(IdOf(s, v), |s.viewers|))];
    ForThree(p, rest[0], rest[1], rest[2]);
    ForAppend(p, del, rest);
    if del != [] { ForSingle(p, del[0]); }
  }

  ghost predicate Enumerates(order: seq<Pid>, viewers: map<Pid, Viewer>) {
    Distinct(order) && (set v | v in order) == viewers.Keys
  }

  lemma InOrder(order: seq<Pid>, viewers: map<Pid, Viewer>, v: Pid)
    requires Enumerates(order, viewers)
    ensures v in order <==> v in viewers
  {
  }

  lemma JoinRunnerTo(s: Session, pid: Pid, ref: Ref, order: seq<Pid>, p: Pid)
    requires Enumerates(order, s.viewers) && pid !in s.viewers && p != pid
    requires s.runner.Some? ==> s.runner.value !in s.viewers && s.runner.value != pid
    ensures For(p, JoinRunner(s, pid, ref, order).sends) ==
            if p in s.viewers then (if s.runner.Some? then [DelPeer(s.runner.value)] else [])
                                   + [AddPeer(pid), PeerJoin(s.viewers[p].id, |s.viewers|)]
            else if s.runner == Some(p) then [Close]
            else []
  {
    var fence: Sends := if Displaces(s, pid) then [(s.runner.value, Close)] else [];
    var loop := Each(order, WireRunner(s, pid));
    forall v | v in order && v != p ensures For(p, WireRunner(s, pid)(v)) == [] {
      InOrder(order, s.viewers, v);
      WireTurn(s, pid, v, p);
    }
    ForEach(p, order, WireRunner(s, pid));
    InOrder(order, s.viewers, p);
    if p in s.viewers { WireTurn(s, pid, p, p); }
    ForAppend(p, fence, loop);
    if fence != [] { ForSingle(p, fence[0]); }
  }

  /** The part of the viewer map that the loop has visited. */
  function Visited(viewers: map<Pid, Viewer>, order: seq<Pid>): map<Pid, Viewer> {
    map p | p in viewers && p in order :: viewers[p]
  }

  lemma VisitedStep(viewers: map<Pid, Viewer>, front: seq<Pid>, v: Pid)
    requires v in viewers
    ensures Visited(viewers, front + [v]) == Visited(viewers, front)[v := viewers[v]]
  {
  }

  lemma {:induction false} NewRunnerSees(s: Session, pid: Pid, order: seq<Pid>, l: Local)
    requires Distinct(order) && (forall v | v in order :: v in s.viewers) && pid !in s.viewers
    requires DistinctIds(s.viewers)
    requires l == BASE.(told := l.told)
    ensures var end := Fold(l, For(pid, Each(order, WireRunner(s, pid))));
            RunnerSees(end, Visited(s.viewers, order)) && end.told == l.told
  {
    if order == [] {
      assert Visited(s.viewers, order) == map[];
    } else {
      var n := |order| - 1;
      var front, v := order[..n], order[n];
      assert order == front + [v];
      NewRunnerSees(s, pid, front, l);
      var mid := Fold(l, For(pid, Each(front, WireRunner(s, pid))));
      NewRunnerTurn(s, pid, front, v, l);
      SeesOneMore(mid, Visited(s.viewers, front), v, s.viewers[v]);
      VisitedStep(s.viewers, front, v);
    }
  }

  lemma NewRunnerTurn(s: Session, pid: Pid, front: seq<Pid>, v: Pid, l: Local)
    requires v != pid && v in s.viewers
    ensures Fold(l, For(pid, Each(front + [v], WireRunner(s, pid)))) ==
            Apply(Fold(l, For(pid, Each(front, WireRunner(s, pid)))), AddViewer(v, s.viewers[v].id))
  {
    var f := WireRunner(s, pid);
    assert (front + [v])[..|front|] == front;
    ForAppend(pid, Each(front, f), f(v));
    WireTurn(s, pid, v, pid);
    FoldAppend(l, For(pid, Each(front, f)), [AddViewer(v, IdOf(s, v))]);
  }

  /** The loop is all the new runner hears: the fence goes to the old one. */
  lemma SelfMail(s: Session, pid: Pid, ref: Ref, order: seq<Pid>)
    requires s.runner != Some(pid)
    ensures For(pid, JoinRunner(s, pid, ref, order).sends) == For(pid, Each(order, WireRunner(s, pid)))
  {
    var fence: Sends := if Displaces(s, pid) then [(s.runner.value, Close)] else [];
    ForAppend(pid, fence, Each(order, WireRunner(s, pid)));
    if fence != [] { ForSingle(pid, fence[0]); }
  }

  lemma VisitedAll(viewers: map<Pid, Viewer>, order: seq<Pid>)
    requires Enumerates(order, viewers)
    ensures Visited(viewers, order) == viewers
    ensures forall v | v in order :: v in viewers
  {
  }

  lemma JoinRunnerToSelf(s: Session, pid: Pid, ref: Ref, order: seq<Pid>, l: Local)
    requires Enumerates(order, s.viewers) && pid !in s.viewers && DistinctIds(s.viewers)
    requires s.runner != Some(pid)
    requires l == BASE.(told := l.told)
    ensures var end := Fold(l, For(pid, JoinRunner(s, pid, ref, order).sends));
            RunnerSees(end, s.viewers) && end.told == l.told
  {
    SelfMail(s, pid, ref, order);
    VisitedAll(s.viewers, order);
    NewRunnerSees(s, pid, order, l);
  }

  lemma RunnerDownTo(s: Session, r: Pid, order: seq<Pid>, p: Pid)
    requires Enumerates(order, s.viewers)
    ensures For(p, Each(order, RunnerGone(s, r))) ==
            if p in s.viewers then [PeerLeft(s.viewers[p].id, |s.viewers|), DelPeer(r)] else []
  {
    var f := RunnerGone(s, r);
    forall v ensures For(p, f(v)) == if p == v then [PeerLeft(IdOf(s, v), |s.viewers|), DelPeer(r)] else [] {
      ForTwo(p, (v, PeerLeft(IdOf(s, v), |s.viewers|)), (v, DelPeer(r)));
    }
    ForEach(p, order, f);
    InOrder(order, s.viewers, p);
  }

  /** A broadcast reaches the runner and each viewer once, and nobody else. */
  lemma BroadcastTo(s: Session, m: Msg, order: seq<Pid>, p: Pid)
    requires Enumerates(order, s.viewers)
    requires s.runner.Some? ==> s.runner.value !in s.viewers
    ensures For(p, Broadcast(s, m, order)) == if p in s.viewers || s.runner == Some(p) then [m] else []
  {
    var f := (v: Pid) => [(v, m)];
    var first: Sends := match s.runner case None => [] case Some(r) => [(r, m)];
    forall v ensures For(p, f(v)) == if p == v then [m] else [] {
      ForSingle(p, (v, m));
    }
    ForEach(p, order, f);
    ForAppend(p, first, Each(order, f));
    assert For(p, first) == (if s.runner == Some(p) then [m] else []) by {
      if first != [] { ForSingle(p, first[0]); }
    }
    InOrder(order, s.viewers, p);
  }

  // ---- Bookkeeping: who has joined, who is monitored ---------------------------------

  function Asker(c: Call): seq<Pid> {
    match c case AskRunner(p) => [p] case AskViewer(p) => [p] case _ => []
  }

  function Asks(mailbox: seq<Call>): seq<Pid> {
    if mailbox == [] then [] else Asker(mailbox[0]) + Asks(mailbox[1..])
  }

  lemma AsksCons(c: Call, rest: seq<Call>)
    ensures Asks([c] + rest) == Asker(c) + Asks(rest)
  {
  }

  lemma {:induction false} AsksAppend(a: seq<Call>, b: seq<Call>)
    ensures Asks(a + b) == Asks(a) + Asks(b)
  {
    if a == [] {
      assert a + b == b;
    } else {
      var c, rest := a[0], a[1..];
      AsksAppend(rest, b);
      assert a + b == [c] + (rest + b);
      AsksCons(c, rest + b);
      Regroup(Asker(c), Asks(rest), Asks(b));
    }
  }

  lemma {:induction false} FlushKeeps(mailbox: seq<Call>, ref: Option<Ref>)
    ensures Asks(Flush(mailbox, ref)) == Asks(mailbox)
    ensures forall c | c in Flush(mailbox, ref) :: c in mailbox && (c.IsDown? ==> Some(c.ref) != ref)
  {
    if mailbox != [] {
      var c, rest := mailbox[0], mailbox[1..];
      FlushKeeps(rest, ref);
      if !(c.IsDown? && Some(c.ref) == ref) {
        assert Flush(mailbox, ref) == [c] + Flush(rest, ref);
        AsksCons(c, Flush(rest, ref));
      } else {
        assert Flush(mailbox, ref) == Flush(rest, ref) && Asker(c) == [];
      }
    }
  }

  ghost predicate AskInv(mailbox: seq<Call>, sockets: map<Pid, Socket>) {
    && Distinct(Asks(mailbox))
    && (forall p | p in Asks(mailbox) :: p in sockets && !sockets[p].joined)
    && (forall c | c in mailbox && c.AskRunner? :: c.pid in sockets && sockets[c.pid].role.Runner?)
    && (forall c | c in mailbox && c.AskViewer? :: c.pid in sockets && sockets[c.pid].role.Viewing?)
  }

  ghost predicate QuietInv(sockets: map<Pid, Socket>) {
    forall p | p in sockets && !sockets[p].joined :: sockets[p].inbox == []
  }

  ghost predicate MemberInv(x: Session, sockets: map<Pid, Socket>) {
    && (x.runner.Some? <==> x.runnerRef.Some?)
    && (x.runner.Some? ==> x.runner.value in sockets && sockets[x.runner.value].joined
                           && sockets[x.runner.value].role.Runner?)
    && (forall v | v in x.viewers :: v in sockets && sockets[v].joined && sockets[v].role.Viewing?)
    && DistinctIds(x.viewers)
    && |x.viewers| <= Cap(x)
  }

  ghost predicate RefInv(s: System) {
    && (s.session.runnerRef.Some? ==> s.session.runnerRef.value < s.nextRef)
    && (forall v | v in s.session.viewers ::
          s.session.viewers[v].ref < s.nextRef && s.session.runnerRef != Some(s.session.viewers[v].ref))
    && (forall c | c in s.mailbox && c.IsDown? ::
          && c.ref < s.nextRef && c.pid in s.sockets && !s.sockets[c.pid].alive
          && (s.session.runnerRef == Some(c.ref) ==> s.session.runner == Some(c.pid)))
  }

  ghost predicate BookInv(s: System) {
    AskInv(s.mailbox, s.sockets) && QuietInv(s.sockets) && MemberInv(s.session, s.sockets) && RefInv(s)
  }

  // ---- What everyone sees, and the fence around displaced runners ----------------------

  function FoldOf(k: Socket): Local { Fold(k.local, k.inbox) }

  ghost predicate RunnerInv(x: Session, sockets: map<Pid, Socket>) {
    x.runner.Some? && x.runner.value in sockets ==>
      var l := FoldOf(sockets[x.runner.value]);
      RunnerSees(l, x.viewers) && l.told == |x.viewers|
  }

  ghost predicate ViewersInv(x: Session, sockets: map<Pid, Socket>) {
    forall v | v in x.viewers && v in sockets :: FoldOf(sockets[v]).peers == RunnerSet(x)
  }

  ghost predicate SeeInv(s: System) {
    RunnerInv(s.session, s.sockets) && ViewersInv(s.session, s.sockets)
  }

  /** A runner that is no longer the session's, if it still runs, is about to be closed. */
  ghost predicate FenceInv(s: System) {
    forall p | p in s.sockets && s.sockets[p].joined && s.sockets[p].alive && s.sockets[p].role.Runner?
               && s.session.runner != Some(p) ::
      Close in s.sockets[p].inbox
  }

  ghost predicate Inv(s: System) {
    s.up ==> BookInv(s) && SeeInv(s) && FenceInv(s)
  }

  lemma PostFolds(sockets: map<Pid, Socket>, sends: Sends, p: Pid)
    requires p in sockets
    ensures FoldOf(Post(sockets, sends)[p]) == Fold(FoldOf(sockets[p]), For(p, sends))
  {
    FoldAppend(sockets[p].local, sockets[p].inbox, For(p, sends));
  }

  lemma FoldTwo(l: Local, a: Msg, b: Msg)
    ensures Fold(l, [a, b]) == Apply(Apply(l, a), b)
  {
    assert [a, b][1..] == [b];
    assert Fold(Apply(l, a), [b]) == Apply(Apply(l, a), b);
  }

  // ---- What frames each invariant ---------------------------------------------------

  ghost predicate SameShape(k: map<Pid, Socket>, k': map<Pid, Socket>) {
    forall p | p in k :: p in k' && k'[p].role == k[p].role && k'[p].joined == k[p].joined
  }

  lemma AskFrame(mb: seq<Call>, extra: seq<Call>, k: map<Pid, Socket>, k': map<Pid, Socket>)
    requires AskInv(mb, k) && SameShape(k, k')
    requires forall c | c in extra :: !c.AskRunner? && !c.AskViewer?
    ensures AskInv(mb + extra, k')
  {
    AsksAppend(mb, extra);
    NoAsks(extra);
  }

  lemma {:induction false} NoAsks(extra: seq<Call>)
    requires forall c | c in extra :: !c.AskRunner? && !c.AskViewer?
    ensures Asks(extra) == []
  {
    if extra != [] { NoAsks(extra[1..]); }
  }

  lemma SameAsks(mb: seq<Call>, k: map<Pid, Socket>, k': map<Pid, Socket>)
    requires AskInv(mb, k) && SameShape(k, k')
    ensures AskInv(mb, k')
  {
  }

  lemma MemberFrame(x: Session, k: map<Pid, Socket>, k': map<Pid, Socket>)
    requires MemberInv(x, k) && SameShape(k, k')
    ensures MemberInv(x, k')
  {
  }

  lemma RefFrame(s: System, t: System)
    requires RefInv(s) && t.session == s.session && t.nextRef == s.nextRef
    requires forall c | c in t.mailbox && c.IsDown? :: c in s.mailbox
    requires forall p | p in s.sockets :: p in t.sockets && t.sockets[p].alive == s.sockets[p].alive
    ensures RefInv(t)
  {
  }

  lemma SeeFrame(s: System, t: System)
    requires SeeInv(s) && t.session == s.session && MemberInv(s.session, s.sockets)
    requires forall p | p in s.sockets && s.sockets[p].joined :: p in t.sockets && FoldOf(t.sockets[p]) == FoldOf(s.sockets[p])
    ensures SeeInv(t)
  {
  }

  // ---- Steps that do not involve the session ------------------------------------------

  lemma OpenAsk(s: System, pid: Pid, role: Role)
    requires AskInv(s.mailbox, s.sockets) && pid !in s.sockets
    ensures var t := Next(s, Open(pid, role)); AskInv(t.mailbox, t.sockets)
  {
    var call := if role.Runner? then AskRunner(pid) else AskViewer(pid);
    AsksAppend(s.mailbox, [call]);
    assert Asks([call]) == [pid];
  }

  lemma OpenBook(s: System, pid: Pid, role: Role)
    requires BookInv(s) && pid !in s.sockets
    ensures BookInv(Next(s, Open(pid, role)))
  {
    var t := Next(s, Open(pid, role));
    OpenAsk(s, pid, role);
    MemberFrame(s.session, s.sockets, t.sockets);
    RefFrame(s, t);
  }

  lemma OpenSee(s: System, pid: Pid, role: Role)
    requires MemberInv(s.session, s.sockets) && SeeInv(s) && FenceInv(s) && pid !in s.sockets
    ensures var t := Next(s, Open(pid, role)); SeeInv(t) && FenceInv(t)
  {
    SeeFrame(s, Next(s, Open(pid, role)));
  }

  lemma DieRefs(s: System, pid: Pid)
    requires RefInv(s) && MemberInv(s.session, s.sockets) && pid in s.sockets
    ensures RefInv(OnDie(s, pid))
  {
    var t := OnDie(s, pid);
    forall c | c in t.mailbox && c.IsDown? && c !in s.mailbox
      ensures c.pid == pid && c.ref < s.nextRef
      ensures s.session.runnerRef == Some(c.ref) ==> s.session.runner == Some(pid)
    {
    }
  }

  lemma DieBook(s: System, pid: Pid)
    requires BookInv(s) && SeeInv(s) && pid in s.sockets
    ensures var t := OnDie(s, pid); BookInv(t) && SeeInv(t)
  {
    var t := OnDie(s, pid);
    DieRefs(s, pid);
    DieAsks(s, pid);
    MemberFrame(s.session, s.sockets, t.sockets);
    SeeFrame(s, t);
  }

  lemma DieAsks(s: System, pid: Pid)
    requires AskInv(s.mailbox, s.sockets) && pid in s.sockets
    ensures var t := OnDie(s, pid); AskInv(t.mailbox, t.sockets)
  {
    AskFrame(s.mailbox, Reports(s.session, pid), s.sockets, OnDie(s, pid).sockets);
  }

  lemma DieStep(s: System, pid: Pid)
    requires BookInv(s) && SeeInv(s) && FenceInv(s) && pid in s.sockets
    ensures var t := OnDie(s, pid); BookInv(t) && SeeInv(t) && FenceInv(t)
  {
    DieBook(s, pid);
  }

  lemma FireStep(s: System, timer: TimerId)
    requires BookInv(s) && SeeInv(s) && FenceInv(s)
    ensures var t := Next(s, Fire(timer)); BookInv(t) && SeeInv(t) && FenceInv(t)
  {
    var t := Next(s, Fire(timer));
    if timer in s.live {
      AskFrame(s.mailbox, [Reap(timer)], s.sockets, t.sockets);
      assert RefInv(t);
    }
  }

  lemma AskStep(s: System, call: Call)
    requires BookInv(s) && SeeInv(s) && FenceInv(s)
    ensures var t := Next(s, Ask(call)); BookInv(t) && SeeInv(t) && FenceInv(t)
  {
    var t := Next(s, Ask(call));
    if call.Drain? || call.Stop? {
      AskFrame(s.mailbox, [call], s.sockets, t.sockets);
      assert RefInv(t);
    }
  }

  lemma ReadBook(s: System, pid: Pid)
    requires BookInv(s) && pid in s.sockets && s.sockets[pid].joined && s.sockets[pid].inbox != []
    ensures BookInv(Read(s, pid))
  {
    var t := Read(s, pid);
    SameAsks(s.mailbox, s.sockets, t.sockets);
    MemberFrame(s.session, s.sockets, t.sockets);
    RefFrame(s, t);
  }

  /** Reading a message moves it from the mailbox into the local state: the fold stays. */
  lemma ReadSee(s: System, pid: Pid)
    requires MemberInv(s.session, s.sockets) && SeeInv(s)
    requires pid in s.sockets && s.sockets[pid].inbox != []
    ensures SeeInv(Read(s, pid))
  {
    var t := Read(s, pid);
    assert FoldOf(t.sockets[pid]) == FoldOf(s.sockets[pid]);
    SeeFrame(s, t);
  }

  lemma ReadFence(s: System, pid: Pid)
    requires FenceInv(s) && pid in s.sockets && s.sockets[pid].inbox != []
    ensures !s.sockets[pid].inbox[0].Close? ==> FenceInv(Read(s, pid))
    ensures FenceInv(OnDie(Read(s, pid), pid))
  {
  }

  lemma HandleStep(s: System, pid: Pid)
    requires BookInv(s) && SeeInv(s) && FenceInv(s)
    ensures var t := Next(s, Handle(pid)); BookInv(t) && SeeInv(t) && FenceInv(t)
  {
    if pid in s.sockets && s.sockets[pid].alive && s.sockets[pid].joined && s.sockets[pid].inbox != [] {
      ReadBook(s, pid);
      ReadSee(s, pid);
      ReadFence(s, pid);
      if s.sockets[pid].inbox[0].Close? {
        DieBook(Read(s, pid), pid);
      }
    }
  }

  // ---- The session handles a message -----------------------------------------------------

  function Popped(s: System): System
    requires s.mailbox != []
  {
    s.(mailbox := s.mailbox[1..])
  }

  predicate Asking(s: System, pid: Pid) {
    pid in s.sockets && !s.sockets[pid].joined && pid !in Asks(s.mailbox)
  }

  lemma PopBook(s: System)
    requires BookInv(s) && s.mailbox != []
    ensures BookInv(Popped(s))
    ensures s.mailbox[0].AskRunner? ==> Asking(Popped(s), s.mailbox[0].pid) && s.sockets[s.mailbox[0].pid].role.Runner?
    ensures s.mailbox[0].AskViewer? ==> Asking(Popped(s), s.mailbox[0].pid) && s.sockets[s.mailbox[0].pid].role.Viewing?
  {
    PopAsks(s.mailbox);
    RefFrame(s, Popped(s));
  }

  /** The callers waiting behind the first message, and that its own caller is not among them. */
  lemma PopAsks(mb: seq<Call>)
    requires mb != [] && Distinct(Asks(mb))
    ensures Distinct(Asks(mb[1..])) && (forall p | p in Asks(mb[1..]) :: p in Asks(mb))
    ensures mb[0].AskRunner? || mb[0].AskViewer? ==> mb[0].pid !in Asks(mb[1..]) && mb[0].pid in Asks(mb)
  {
    assert Asks(mb) == Asker(mb[0]) + Asks(mb[1..]);
    TailDistinct(Asker(mb[0]), Asks(mb[1..]));
  }

  lemma TailDistinct(h: seq<Pid>, t: seq<Pid>)
    requires |h| <= 1 && Distinct(h + t)
    ensures Distinct(t) && (forall p | p in t :: p in h + t)
    ensures h != [] ==> h[0] !in t && h[0] in h + t
  {
    forall k | 0 <= k < |t| ensures (h + t)[|h| + k] == t[k] {}
    if h != [] { assert (h + t)[0] == h[0]; }
  }

  /** What admitting a caller does to everyone's mailboxes. */
  lemma AdmittedShape(s: System, o: Outcome, pid: Pid)
    requires pid in s.sockets
    ensures var t := Reply(Watch(Carry(s, o), pid), pid);
            && t.session == o.session && t.nextRef == s.nextRef + 1
            && t.sockets.Keys == s.sockets.Keys
            && (forall p | p in s.sockets && p != pid ::
                  t.sockets[p] == s.sockets[p].(inbox := s.sockets[p].inbox + For(p, o.sends)))
            && t.sockets[pid] == s.sockets[pid].(joined := true, local := BASE.(told := |o.session.viewers|),
                                                 inbox := s.sockets[pid].inbox + For(pid, o.sends))
            && t.mailbox == (if o.flushed.Some? then Flush(s.mailbox, o.flushed) else s.mailbox)
                            + (if s.sockets[pid].alive then [] else [IsDown(s.nextRef, pid)])
  {
    var c := Carry(s, o);
    assert c.sockets.Keys == s.sockets.Keys;
    assert c.sockets[pid] == s.sockets[pid].(inbox := s.sockets[pid].inbox + For(pid, o.sends));
  }

  // ---- ... a runner joining

  function RunnerJoined(s: System, pid: Pid, order: seq<Pid>): System {
    ServeCall(s, AskRunner(pid), order, 0)
  }

  lemma RunnerJoinedShape(s: System, pid: Pid, order: seq<Pid>)
    requires pid in s.sockets
    ensures var t := RunnerJoined(s, pid, order);
            var o := JoinRunner(s.session, pid, s.nextRef, order);
            && t.session == o.session && t.nextRef == s.nextRef + 1
            && t.sockets.Keys == s.sockets.Keys
            && (forall p | p in s.sockets && p != pid ::
                  t.sockets[p] == s.sockets[p].(inbox := s.sockets[p].inbox + For(p, o.sends)))
            && t.sockets[pid] == s.sockets[pid].(joined := true, local := BASE.(told := |s.session.viewers|),
                                                 inbox := s.sockets[pid].inbox + For(pid, o.sends))
            && t.mailbox == (if s.session.runnerRef.Some? then Flush(s.mailbox, s.session.runnerRef) else s.mailbox)
                            + (if s.sockets[pid].alive then [] else [IsDown(s.nextRef, pid)])
  {
    AdmittedShape(s, JoinRunner(s.session, pid, s.nextRef, order), pid);
  }

  lemma RunnerJoinedMail(s: System, pid: Pid, order: seq<Pid>, p: Pid)
    requires BookInv(s) && Asking(s, pid) && Enumerates(order, s.session.viewers) && p != pid
    ensures For(p, JoinRunner(s.session, pid, s.nextRef, order).sends) ==
            if p in s.session.viewers
            then (if s.session.runner.Some? then [DelPeer(s.session.runner.value)] else [])
                 + [AddPeer(pid), PeerJoin(s.session.viewers[p].id, |s.session.viewers|)]
            else if s.session.runner == Some(p) then [Close]
            else []
  {
    JoinRunnerTo(s.session, pid, s.nextRef, order, p);
  }

  lemma RunnerJoinedAsk(s: System, pid: Pid, order: seq<Pid>)
    requires AskInv(s.mailbox, s.sockets) && Asking(s, pid)
    ensures var t := RunnerJoined(s, pid, order); AskInv(t.mailbox, t.sockets)
  {
    var t := RunnerJoined(s, pid, order);
    RunnerJoinedShape(s, pid, order);
    var kept := if s.session.runnerRef.Some? then Flush(s.mailbox, s.session.runnerRef) else s.mailbox;
    FlushKeeps(s.mailbox, s.session.runnerRef);
    AdmitAsks(kept, s.sockets, t.sockets, pid);
    AskFrame(kept, if s.sockets[pid].alive then [] else [IsDown(s.nextRef, pid)], t.sockets, t.sockets);
  }

  /** A caller that no longer waits may be marked as joined. */
  lemma AdmitAsks(mb: seq<Call>, k: map<Pid, Socket>, k': map<Pid, Socket>, pid: Pid)
    requires AskInv(mb, k) && pid !in Asks(mb)
    requires forall p | p in k :: p in k' && k'[p].role == k[p].role && (p != pid ==> k'[p].joined == k[p].joined)
    ensures AskInv(mb, k')
  {
  }

  lemma RunnerJoinedRefs(s: System, pid: Pid, order: seq<Pid>)
    requires RefInv(s) && pid in s.sockets
    ensures RefInv(RunnerJoined(s, pid, order))
  {
    RunnerJoinedShape(s, pid, order);
    FlushKeeps(s.mailbox, s.session.runnerRef);
  }

  lemma RunnerJoinedBook(s: System, pid: Pid, order: seq<Pid>)
    requires BookInv(s) && Asking(s, pid) && s.sockets[pid].role.Runner?
    requires Enumerates(order, s.session.viewers)
    ensures BookInv(RunnerJoined(s, pid, order))
  {
    var t := RunnerJoined(s, pid, order);
    RunnerJoinedShape(s, pid, order);
    RunnerJoinedAsk(s, pid, order);
    RunnerJoinedRefs(s, pid, order);
    assert QuietInv(t.sockets) by {
      forall p | p in t.sockets && !t.sockets[p].joined ensures t.sockets[p].inbox == [] {
        RunnerJoinedMail(s, pid, order, p);
      }
    }
    assert MemberInv(t.session, t.sockets);
  }

  lemma FoldRewire(l: Local, prior: Option<Pid>, pid: Pid, id: ViewerId, n: nat)
    requires l.peers == match prior case None => {} case Some(r) => {r}
    ensures Fold(l, (if prior.Some? then [DelPeer(prior.value)] else []) + [AddPeer(pid), PeerJoin(id, n)]).peers == {pid}
  {
    var del: seq<Msg> := if prior.Some? then [DelPeer(prior.value)] else [];
    FoldAppend(l, del, [AddPeer(pid), PeerJoin(id, n)]);
    FoldTwo(Fold(l, del), AddPeer(pid), PeerJoin(id, n));
    if prior.Some? { assert Fold(l, del) == Apply(l, DelPeer(prior.value)); }
  }

  lemma RunnerJoinedSee(s: System, pid: Pid, order: seq<Pid>)
    requires BookInv(s) && SeeInv(s) && Asking(s, pid) && Enumerates(order, s.session.viewers)
    ensures SeeInv(RunnerJoined(s, pid, order))
  {
    var t := RunnerJoined(s, pid, order);
    var sends := JoinRunner(s.session, pid, s.nextRef, order).sends;
    RunnerJoinedShape(s, pid, order);
    var l := BASE.(told := |s.session.viewers|);
    JoinRunnerToSelf(s.session, pid, s.nextRef, order, l);
    assert FoldOf(t.sockets[pid]) == Fold(l, For(pid, sends)) by {
      assert s.sockets[pid].inbox + For(pid, sends) == For(pid, sends);
    }
    forall v | v in t.session.viewers ensures FoldOf(t.sockets[v]).peers == {pid} {
      RunnerJoinedMail(s, pid, order, v);
      FoldAppend(s.sockets[v].local, s.sockets[v].inbox, For(v, sends));
      FoldRewire(FoldOf(s.sockets[v]), s.session.runner, pid, s.session.viewers[v].id, |s.session.viewers|);
    }
  }

  lemma RunnerJoinedFence(s: System, pid: Pid, order: seq<Pid>)
    requires BookInv(s) && FenceInv(s) && Asking(s, pid) && Enumerates(order, s.session.viewers)
    ensures FenceInv(RunnerJoined(s, pid, order))
  {
  }

  // ---- ... a viewer joining

  function ViewerJoined(s: System, pid: Pid, id: ViewerId): System {
    ServeCall(s, AskViewer(pid), [], id)
  }

  predicate Admits(x: Session) { |x.viewers| < Cap(x) }

  lemma ViewerJoinedMail(x: Session, pid: Pid, ref: Ref, id: ViewerId, p: Pid)
    requires Admits(x) && x.runner != Some(pid) && pid !in x.viewers
    ensures For(p, JoinViewer(x, pid, ref, id).value.sends) ==
            if x.runner.None? then []
            else if p == x.runner.value then [AddViewer(pid, id), PeerJoin(id, |x.viewers| + 1)]
            else if p == pid then [AddPeer(x.runner.value)]
            else []
  {
    var n := |x.viewers[pid := Viewer(ref, id)]|;
    assert n == |x.viewers| + 1 by {
      assert x.viewers[pid := Viewer(ref, id)].Keys == x.viewers.Keys + {pid};
    }
    if x.runner.Some? {
      var r := x.runner.value;
      ForThree(p, (r, AddViewer(pid, id)), (pid, AddPeer(r)), (r, PeerJoin(id, n)));
    }
  }

  lemma ViewerJoinedShape(s: System, pid: Pid, id: ViewerId)
    requires pid in s.sockets && Admits(s.session)
    ensures var t := ViewerJoined(s, pid, id);
            var o := JoinViewer(s.session, pid, s.nextRef, id).value;
            && t.session == o.session && t.nextRef == s.nextRef + 1
            && t.sockets.Keys == s.sockets.Keys
            && (forall p | p in s.sockets && p != pid ::
                  t.sockets[p] == s.sockets[p].(inbox := s.sockets[p].inbox + For(p, o.sends)))
            && t.sockets[pid] == s.sockets[pid].(joined := true, local := BASE.(told := |o.session.viewers|),
                                                 inbox := s.sockets[pid].inbox + For(pid, o.sends))
            && t.mailbox == s.mailbox + (if s.sockets[pid].alive then [] else [IsDown(s.nextRef, pid)])
  {
    AdmittedShape(s, JoinViewer(s.session, pid, s.nextRef, id).value, pid);
  }

  lemma ViewerJoinedAsk(s: System, pid: Pid, id: ViewerId)
    requires AskInv(s.mailbox, s.sockets) && Asking(s, pid) && Admits(s.session)
    ensures var t := ViewerJoined(s, pid, id); AskInv(t.mailbox, t.sockets)
  {
    var t := ViewerJoined(s, pid, id);
    ViewerJoinedShape(s, pid, id);
    AdmitAsks(s.mailbox, s.sockets, t.sockets, pid);
    AskFrame(s.mailbox, if s.sockets[pid].alive then [] else [IsDown(s.nextRef, pid)], t.sockets, t.sockets);
  }

  lemma ViewerJoinedRefs(s: System, pid: Pid, id: ViewerId)
    requires RefInv(s) && pid in s.sockets && Admits(s.session)
    ensures RefInv(ViewerJoined(s, pid, id))
  {
    ViewerJoinedShape(s, pid, id);
  }

  lemma ViewerJoinedMember(s: System, pid: Pid, id: ViewerId)
    requires MemberInv(s.session, s.sockets) && Asking(s, pid) && s.sockets[pid].role.Viewing?
    requires Admits(s.session) && FreshId(s.session, id)
    ensures var t := ViewerJoined(s, pid, id); MemberInv(t.session, t.sockets)
  {
    ViewerJoinedShape(s, pid, id);
    var t := ViewerJoined(s, pid, id);
    assert t.session.viewers.Keys == s.session.viewers.Keys + {pid};
  }

  lemma ViewerJoinedBook(s: System, pid: Pid, id: ViewerId)
    requires BookInv(s) && Asking(s, pid) && s.sockets[pid].role.Viewing?
    requires Admits(s.session) && FreshId(s.session, id)
    ensures BookInv(ViewerJoined(s, pid, id))
  {
    var t := ViewerJoined(s, pid, id);
    ViewerJoinedAsk(s, pid, id);
    ViewerJoinedRefs(s, pid, id);
    ViewerJoinedMember(s, pid, id);
    ViewerJoinedShape(s, pid, id);
    forall p | p in t.sockets && !t.sockets[p].joined ensures t.sockets[p].inbox == [] {
      ViewerJoinedMail(s.session, pid, s.nextRef, id, p);
    }
  }

  lemma ViewerJoinedFolds(s: System, pid: Pid, id: ViewerId, p: Pid)
    requires Asking(s, pid) && Admits(s.session) && p in s.sockets && p != pid
    ensures FoldOf(ViewerJoined(s, pid, id).sockets[p]) ==
            Fold(FoldOf(s.sockets[p]), For(p, JoinViewer(s.session, pid, s.nextRef, id).value.sends))
  {
    ViewerJoinedShape(s, pid, id);
    FoldAppend(s.sockets[p].local, s.sockets[p].inbox, For(p, JoinViewer(s.session, pid, s.nextRef, id).value.sends));
  }

  lemma JoinerSees(s: System, pid: Pid, id: ViewerId)
    requires QuietInv(s.sockets) && Asking(s, pid) && Admits(s.session)
    requires s.session.runner != Some(pid) && pid !in s.session.viewers
    ensures FoldOf(ViewerJoined(s, pid, id).sockets[pid]).peers == RunnerSet(s.session)
  {
    var t := ViewerJoined(s, pid, id);
    ViewerJoinedShape(s, pid, id);
    ViewerJoinedMail(s.session, pid, s.nextRef, id, pid);
    if s.session.runner.Some? {
      var hello := AddPeer(s.session.runner.value);
      assert t.sockets[pid].inbox == [hello];
      FoldOne(t.sockets[pid].local, hello);
    } else {
      assert t.sockets[pid].inbox == [];
    }
  }

  lemma FoldOne(l: Local, a: Msg)
    ensures Fold(l, [a]) == Apply(l, a)
  {
  }

  lemma ViewerJoinedViewers(s: System, pid: Pid, id: ViewerId)
    requires MemberInv(s.session, s.sockets) && QuietInv(s.sockets) && ViewersInv(s.session, s.sockets)
    requires Asking(s, pid) && Admits(s.session)
    ensures var t := ViewerJoined(s, pid, id); ViewersInv(t.session, t.sockets)
  {
    var t := ViewerJoined(s, pid, id);
    ViewerJoinedShape(s, pid, id);
    JoinerSees(s, pid, id);
    forall v | v in s.session.viewers ensures FoldOf(t.sockets[v]).peers == RunnerSet(s.session) {
      ViewerJoinedMail(s.session, pid, s.nextRef, id, v);
      ViewerJoinedFolds(s, pid, id, v);
    }
  }

  lemma RunnerHearsJoin(l: Local, viewers: map<Pid, Viewer>, pid: Pid, w: Viewer)
    requires RunnerSees(l, viewers) && pid !in viewers && forall p | p in viewers :: viewers[p].id != w.id
    ensures var e := Fold(l, [AddViewer(pid, w.id), PeerJoin(w.id, |viewers| + 1)]);
            RunnerSees(e, viewers[pid := w]) && e.told == |viewers[pid := w]|
  {
    FoldTwo(l, AddViewer(pid, w.id), PeerJoin(w.id, |viewers| + 1));
    SeesOneMore(l, viewers, pid, w);
    assert viewers[pid := w].Keys == viewers.Keys + {pid};
  }

  lemma RunnerHearsLeft(l: Local, viewers: map<Pid, Viewer>, pid: Pid)
    requires RunnerSees(l, viewers) && pid in viewers && DistinctIds(viewers)
    ensures var e := Fold(l, [DelPeer(pid), PeerLeft(viewers[pid].id, |viewers - {pid}|)]);
            RunnerSees(e, viewers - {pid}) && e.told == |viewers - {pid}|
  {
    FoldTwo(l, DelPeer(pid), PeerLeft(viewers[pid].id, |viewers - {pid}|));
    SeesOneLess(l, viewers, pid);
  }

  lemma ViewerHearsGone(l: Local, r: Pid, id: ViewerId, n: nat)
    requires l.peers == {r}
    ensures Fold(l, [PeerLeft(id, n), DelPeer(r)]).peers == {}
  {
    FoldTwo(l, PeerLeft(id, n), DelPeer(r));
  }

  lemma ViewerJoinedRunner(s: System, pid: Pid, id: ViewerId)
    requires MemberInv(s.session, s.sockets) && RunnerInv(s.session, s.sockets)
    requires Asking(s, pid) && Admits(s.session) && FreshId(s.session, id)
    ensures var t := ViewerJoined(s, pid, id); RunnerInv(t.session, t.sockets)
  {
    ViewerJoinedShape(s, pid, id);
    if s.session.runner.Some? {
      var r := s.session.runner.value;
      ViewerJoinedMail(s.session, pid, s.nextRef, id, r);
      ViewerJoinedFolds(s, pid, id, r);
      RunnerHearsJoin(FoldOf(s.sockets[r]), s.session.viewers, pid, Viewer(s.nextRef, id));
    }
  }

  lemma ViewerJoinedSee(s: System, pid: Pid, id: ViewerId)
    requires BookInv(s) && SeeInv(s) && Asking(s, pid) && Admits(s.session) && FreshId(s.session, id)
    ensures SeeInv(ViewerJoined(s, pid, id))
  {
    ViewerJoinedViewers(s, pid, id);
    ViewerJoinedRunner(s, pid, id);
  }

  lemma ViewerJoinedFence(s: System, pid: Pid, id: ViewerId)
    requires FenceInv(s) && Asking(s, pid) && Admits(s.session) && s.sockets[pid].role.Viewing?
    ensures FenceInv(ViewerJoined(s, pid, id))
  {
  }

  /** A full session changes nothing but that the refused caller stops: no state, no timer, no
      mailbox, nobody told. */
  lemma BusyChangesNothing(s: System, pid: Pid, order: seq<Pid>, id: ViewerId)
    requires !Admits(s.session) && pid in s.sockets
    ensures var t := ServeCall(s, AskViewer(pid), order, id);
            && t.session == s.session && t.up == s.up && t.mailbox == s.mailbox && t.live == s.live
            && t.nextRef == s.nextRef && t.nextTimer == s.nextTimer && t.sockets.Keys == s.sockets.Keys
            && (forall p | p in s.sockets && p != pid :: t.sockets[p] == s.sockets[p])
            && !t.sockets[pid].alive && t.sockets[pid].inbox == s.sockets[pid].inbox
            && t.sockets[pid].local == s.sockets[pid].local && t.sockets[pid].joined == s.sockets[pid].joined
  {
  }

  lemma BusyStep(s: System, pid: Pid)
    requires BookInv(s) && SeeInv(s) && FenceInv(s) && Asking(s, pid)
    ensures var t := Busy(s, pid); BookInv(t) && SeeInv(t) && FenceInv(t)
  {
    var t := Busy(s, pid);
    SameAsks(s.mailbox, s.sockets, t.sockets);
    MemberFrame(s.session, s.sockets, t.sockets);
    BusyRefs(s, pid);
    SeeFrame(s, t);
    BusyFence(s, pid);
  }

  lemma BusyFence(s: System, pid: Pid)
    requires FenceInv(s)
    ensures FenceInv(Busy(s, pid))
  {
  }

  lemma BusyRefs(s: System, pid: Pid)
    requires RefInv(s)
    ensures RefInv(Busy(s, pid))
  {
  }

  // ---- ... a process going down

  function WentDown(s: System, ref: Ref, pid: Pid, order: seq<Pid>): System {
    ServeCall(s, IsDown(ref, pid), order, 0)
  }

  lemma WentDownMail(s: System, ref: Ref, pid: Pid, order: seq<Pid>, p: Pid)
    requires MemberInv(s.session, s.sockets) && Enumerates(order, s.session.viewers)
    ensures var x := s.session;
            For(p, Down(x, ref, pid, s.nextTimer, order).sends) ==
            if x.runner.None? then []
            else if x.runnerRef == Some(ref) then
              if p in x.viewers then [PeerLeft(x.viewers[p].id, |x.viewers|), DelPeer(x.runner.value)] else []
            else if pid in x.viewers && x.viewers[pid].ref == ref && p == x.runner.value then
              [DelPeer(pid), PeerLeft(x.viewers[pid].id, |x.viewers - {pid}|)]
            else []
  {
    var x := s.session;
    if x.runner.Some? {
      var r := x.runner.value;
      if x.runnerRef == Some(ref) {
        RunnerDownTo(x, r, order, p);
      } else if pid in x.viewers && x.viewers[pid].ref == ref {
        ForTwo(p, (r, DelPeer(pid)), (r, PeerLeft(x.viewers[pid].id, |x.viewers - {pid}|)));
      }
    }
  }

  lemma WentDownShape(s: System, ref: Ref, pid: Pid, order: seq<Pid>)
    ensures var t := WentDown(s, ref, pid, order);
            var o := Down(s.session, ref, pid, s.nextTimer, order);
            && t.session == o.session && t.nextRef == s.nextRef && t.mailbox == s.mailbox
            && t.sockets == Post(s.sockets, o.sends)
  {
  }

  lemma WentDownBook(s: System, ref: Ref, pid: Pid, order: seq<Pid>)
    requires BookInv(s) && Enumerates(order, s.session.viewers)
    ensures BookInv(WentDown(s, ref, pid, order))
  {
    var t := WentDown(s, ref, pid, order);
    WentDownShape(s, ref, pid, order);
    SameAsks(s.mailbox, s.sockets, t.sockets);
    forall p | p in t.sockets && !t.sockets[p].joined ensures t.sockets[p].inbox == [] {
      WentDownMail(s, ref, pid, order, p);
    }
    WentDownMember(s, ref, pid, order);
    WentDownRefs(s, ref, pid, order);
  }

  lemma WentDownRefs(s: System, ref: Ref, pid: Pid, order: seq<Pid>)
    requires RefInv(s)
    ensures RefInv(WentDown(s, ref, pid, order))
  {
    WentDownShape(s, ref, pid, order);
  }

  lemma WentDownMember(s: System, ref: Ref, pid: Pid, order: seq<Pid>)
    requires MemberInv(s.session, s.sockets)
    ensures var t := WentDown(s, ref, pid, order); MemberInv(t.session, t.sockets)
  {
    var t := WentDown(s, ref, pid, order);
    WentDownShape(s, ref, pid, order);
    if t.session.viewers != s.session.viewers {
      assert t.session.viewers.Keys == s.session.viewers.Keys - {pid};
    }
  }

  lemma WentDownFolds(s: System, ref: Ref, pid: Pid, order: seq<Pid>, p: Pid)
    requires p in s.sockets
    ensures p in WentDown(s, ref, pid, order).sockets
    ensures FoldOf(WentDown(s, ref, pid, order).sockets[p]) ==
            Fold(FoldOf(s.sockets[p]), For(p, Down(s.session, ref, pid, s.nextTimer, order).sends))
  {
    WentDownShape(s, ref, pid, order);
    PostFolds(s.sockets, Down(s.session, ref, pid, s.nextTimer, order).sends, p);
  }

  lemma WentDownViewers(s: System, ref: Ref, pid: Pid, order: seq<Pid>)
    requires MemberInv(s.session, s.sockets) && ViewersInv(s.session, s.sockets) && Enumerates(order, s.session.viewers)
    ensures var t := WentDown(s, ref, pid, order); ViewersInv(t.session, t.sockets)
  {
    var t := WentDown(s, ref, pid, order);
    WentDownShape(s, ref, pid, order);
    forall v | v in s.session.viewers ensures v in t.sockets && FoldOf(t.sockets[v]).peers == RunnerSet(t.session) {
      WentDownFolds(s, ref, pid, order, v);
      WentDownMail(s, ref, pid, order, v);
      if s.session.runner.Some? && s.session.runnerRef == Some(ref) {
        ViewerHearsGone(FoldOf(s.sockets[v]), s.session.runner.value, s.session.viewers[v].id, |s.session.viewers|);
      }
    }
  }

  lemma WentDownRunner(s: System, ref: Ref, pid: Pid, order: seq<Pid>)
    requires MemberInv(s.session, s.sockets) && RunnerInv(s.session, s.sockets) && Enumerates(order, s.session.viewers)
    ensures var t := WentDown(s, ref, pid, order); RunnerInv(t.session, t.sockets)
  {
    var t := WentDown(s, ref, pid, order);
    WentDownShape(s, ref, pid, order);
    if t.session.runner.Some? {
      var r := s.session.runner.value;
      WentDownFolds(s, ref, pid, order, r);
      WentDownMail(s, ref, pid, order, r);
      if pid in s.session.viewers && s.session.viewers[pid].ref == ref {
        RunnerHearsLeft(FoldOf(s.sockets[r]), s.session.viewers, pid);
      }
    }
  }

  lemma WentDownSee(s: System, ref: Ref, pid: Pid, order: seq<Pid>)
    requires BookInv(s) && SeeInv(s) && Enumerates(order, s.session.viewers)
    ensures SeeInv(WentDown(s, ref, pid, order))
  {
    WentDownViewers(s, ref, pid, order);
    WentDownRunner(s, ref, pid, order);
  }

  lemma WentDownFence(s: System, ref: Ref, pid: Pid, order: seq<Pid>)
    requires BookInv(s) && FenceInv(s)
    requires s.session.runnerRef == Some(ref) && s.session.runner.Some? ==> !s.sockets[s.session.runner.value].alive
    ensures FenceInv(WentDown(s, ref, pid, order))
  {
    WentDownShape(s, ref, pid, order);
  }

  // ---- ... a broadcast

  lemma PostedBook(s: System, m: Msg, order: seq<Pid>)
    requires BookInv(s) && FenceInv(s) && Enumerates(order, s.session.viewers)
    ensures var t := s.(sockets := Post(s.sockets, Broadcast(s.session, m, order))); BookInv(t) && FenceInv(t)
  {
    var t := s.(sockets := Post(s.sockets, Broadcast(s.session, m, order)));
    SameAsks(s.mailbox, s.sockets, t.sockets);
    forall p | p in t.sockets && !t.sockets[p].joined ensures t.sockets[p].inbox == [] {
      BroadcastTo(s.session, m, order, p);
    }
    MemberFrame(s.session, s.sockets, t.sockets);
    RefFrame(s, t);
  }

  lemma DrainSee(s: System, order: seq<Pid>)
    requires BookInv(s) && SeeInv(s) && Enumerates(order, s.session.viewers)
    ensures SeeInv(s.(sockets := Post(s.sockets, Broadcast(s.session, GoingAway, order))))
  {
    var sends := Broadcast(s.session, GoingAway, order);
    var t := s.(sockets := Post(s.sockets, sends));
    forall p | p in s.sockets ensures FoldOf(t.sockets[p]) == FoldOf(s.sockets[p]) { DrainFold(s, order, p); }
    SeeFrame(s, t);
  }

  lemma DrainFold(s: System, order: seq<Pid>, p: Pid)
    requires MemberInv(s.session, s.sockets) && Enumerates(order, s.session.viewers) && p in s.sockets
    ensures FoldOf(Post(s.sockets, Broadcast(s.session, GoingAway, order))[p]) == FoldOf(s.sockets[p])
  {
    PostFolds(s.sockets, Broadcast(s.session, GoingAway, order), p);
    BroadcastTo(s.session, GoingAway, order, p);
    FoldOne(FoldOf(s.sockets[p]), GoingAway);
  }

  // ---- Every run ----------------------------------------------------------------------------

  lemma ServeViewer(q: System, pid: Pid, order: seq<Pid>, id: ViewerId)
    requires BookInv(q) && SeeInv(q) && FenceInv(q) && Asking(q, pid) && q.sockets[pid].role.Viewing?
    requires FreshId(q.session, id)
    ensures var t := ServeCall(q, AskViewer(pid), order, id); BookInv(t) && SeeInv(t) && FenceInv(t)
  {
    if Admits(q.session) {
      ViewerJoinedBook(q, pid, id);
      ViewerJoinedSee(q, pid, id);
      ViewerJoinedFence(q, pid, id);
    } else {
      BusyStep(q, pid);
    }
  }

  lemma ServeStep(s: System, order: seq<Pid>, id: ViewerId)
    requires s.up && Inv(s) && CanServe(s, order, id)
    ensures Inv(Next(s, Serve(order, id)))
  {
    var q := Popped(s);
    PopBook(s);
    assert SeeInv(q) && FenceInv(q);
    match s.mailbox[0]
    case AskRunner(pid) =>
      RunnerJoinedBook(q, pid, order);
      RunnerJoinedSee(q, pid, order);
      RunnerJoinedFence(q, pid, order);
    case AskViewer(pid) => ServeViewer(q, pid, order, id);
    case IsDown(ref, pid) =>
      assert IsDown(ref, pid) in s.mailbox;
      WentDownBook(q, ref, pid, order);
      WentDownSee(q, ref, pid, order);
      WentDownFence(q, ref, pid, order);
    case Drain =>
      PostedBook(q, GoingAway, order);
      DrainSee(q, order);
    case _ =>
  }

  lemma Step(s: System, l: Label)
    requires Inv(s)
    ensures Inv(Next(s, l))
  {
    if s.up {
      match l
      case Open(pid, role) =>
        if pid !in s.sockets {
          OpenBook(s, pid, role);
          OpenSee(s, pid, role);
        }
      case Die(pid) => if pid in s.sockets { DieStep(s, pid); }
      case Fire(timer) => FireStep(s, timer);
      case Ask(call) => AskStep(s, call);
      case Serve(order, id) => if CanServe(s, order, id) { ServeStep(s, order, id); }
      case Handle(pid) => HandleStep(s, pid);
    }
  }

  lemma {:induction false} InvHolds(locked: bool, maxViewers: nat, ls: seq<Label>)
    ensures Inv(Exec(Start(locked, maxViewers), ls))
  {
    if ls != [] {
      InvHolds(locked, maxViewers, ls[..|ls| - 1]);
      Step(Exec(Start(locked, maxViewers), ls[..|ls| - 1]), ls[|ls| - 1]);
    }
  }

  /** In every reachable state of a live session: at most Cap viewers; folding the mail still
      in flight over a socket's own state gives the session's view, for the runner (all three
      collections and the count it told its client) and for each viewer; and a displaced
      runner that still runs has its close in the mailbox. */
  lemma {:induction false} SocketsAgreeWithSession(locked: bool, maxViewers: nat, ls: seq<Label>)
    ensures var s := Exec(Start(locked, maxViewers), ls);
            var x := s.session;
            s.up ==>
              && |x.viewers| <= Cap(x)
              && (x.runner.Some? ==>
                    && x.runner.value in s.sockets && x.runner.value !in x.viewers
                    && RunnerSees(FoldOf(s.sockets[x.runner.value]), x.viewers)
                    && FoldOf(s.sockets[x.runner.value]).told == |x.viewers|)
              && (forall v | v in x.viewers :: v in s.sockets && FoldOf(s.sockets[v]).peers == RunnerSet(x))
              && (forall p | p in s.sockets && s.sockets[p].joined && s.sockets[p].alive && s.sockets[p].role.Runner?
                             && x.runner != Some(p) :: Close in s.sockets[p].inbox)
  {
    InvHolds(locked, maxViewers, ls);
  }

  /** So a targeted frame from a runner with an empty mailbox reaches exactly the viewer
      that the session knows under that id. */
  lemma TargetIsTheViewer(locked: bool, maxViewers: nat, ls: seq<Label>, id: ViewerId)
    ensures var s := Exec(Start(locked, maxViewers), ls);
            var x := s.session;
            s.up && x.runner.Some? && x.runner.value in s.sockets && s.sockets[x.runner.value].inbox == [] ==>
              var l := s.sockets[x.runner.value].local;
              && (id in l.viewerPeers <==> exists v :: v in x.viewers && x.viewers[v].id == id)
              && (id in l.viewerPeers ==> l.viewerPeers[id] in x.viewers && x.viewers[l.viewerPeers[id]].id == id)
  {
    InvHolds(locked, maxViewers, ls);
  }
}
