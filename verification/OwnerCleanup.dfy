/** The runner behind an honest relay: route ids are never reused, every viewer socket
    seals its own fresh id, and what a viewer sent lies ahead of the report that it left. */
module OwnerCleanup {
  import opened Base
  import opened Wire
  import opened RunnerControl

  datatype Mail =
    | FromViewer(m: Msg)
    | Hello(viewers: nat)
    | Joined(route: Id, viewers: nat)
    | Left(route: Id, viewers: nat)

  /** `attached` holds each present viewer's sealed id under its route; `known` all that ever
      were; `mail` is the runner's socket, empty while no runner is connected. */
  datatype World = World(ctl: Ctl, viewers: nat, connected: bool, mail: seq<Mail>,
                         attached: map<Id, Id>, known: map<Id, Id>)

  datatype Action =
    | Enter(route: Id, self: Id)
    | Send(route: Id, seqno: nat, kind: byte, body: bytes)
    | Leave(route: Id)
    | Connect
    | Disconnect
    | TakeBack
    | Deliver

  function Init(mode: ControlMode): World {
    World(RunnerControl.Init(mode).ctl, 0, false, [], map[], map[])
  }

  function Post(s: World, m: Mail): World {
    if s.connected then s.(mail := s.mail + [m]) else s
  }

  /** A whole viewer frame, as handleBinary treats it. */
  function Handle(c: Ctl, m: Msg): Ctl {
    if m.seqno <= Floor(c, m.id) then c
    else
      var bound := Bind(c.(floors := c.floors[m.id := m.seqno]), m.route, m.id);
      if m.kind == KIND_CTRL_REQ then Request(bound, m.id, m.route).0
      else if m.kind == KIND_CTRL_REL then Release(bound, m.id)
      else bound
  }

  function OnDeliver(s: World): World
    requires s.mail != []
  {
    var rest := s.(mail := s.mail[1..]);
    match s.mail[0]
    case FromViewer(m) => rest.(ctl := Handle(s.ctl, m))
    case Hello(n) => rest.(viewers := n)
    case Joined(_, n) => rest.(viewers := if n == 0 then 1 else n)
    case Left(route, n) => rest.(viewers := n, ctl := Forget(s.ctl, route))
  }

  predicate Fresh(s: World, route: Id, self: Id) {
    && route != [] && self != [] && route !in s.known
    && forall r | r in s.known :: s.known[r] != self
  }

  function Next(s: World, l: Action): World {
    match l
    case Enter(route, self) =>
      if !Fresh(s, route, self) then s
      else
        var t := s.(attached := s.attached[route := self], known := s.known[route := self]);
        Post(t, Joined(route, |t.attached|))
    case Send(route, seqno, kind, body) =>
      if route !in s.attached then s
      else Post(s, FromViewer(Msg(route, s.attached[route], seqno, kind, body)))
    case Leave(route) =>
      if route !in s.attached then s
      else
        var t := s.(attached := s.attached - {route});
        Post(t, Left(route, |t.attached|))
    case Connect => if s.connected then s else s.(connected := true, mail := [Hello(|s.attached|)])
    case Disconnect => s.(connected := false, mail := [], viewers := 0, ctl := Clear(s.ctl))
    case TakeBack => s.(ctl := Unown(s.ctl))
    case Deliver => if s.mail == [] then s else OnDeliver(s)
  }

  function Exec(s: World, ls: seq<Action>): World {
    if ls == [] then s else Next(Exec(s, ls[..|ls| - 1]), ls[|ls| - 1])
  }

  /** `handleBinary` without interleaving has exactly this effect on the guarded fields. */
  lemma HandleIsHandleBinary(s: RunnerControl.State, m: Msg)
    requires s.reader.Idle?
    ensures var started := if m.seqno <= Floor(s.ctl, m.id) then s
                           else s.(ctl := s.ctl.(floors := s.ctl.floors[m.id := m.seqno]), reader := Accepted(m));
            Proceed(Proceed(Proceed(started))).ctl == Handle(s.ctl, m)
  {
  }

  // ---- The invariant ---------------------------------------------------------------

  /** The report that `route` left is still ahead of the runner. */
  ghost predicate LeavingIn(mail: seq<Mail>, route: Id) {
    exists k | 0 <= k < |mail| :: mail[k].Left? && mail[k].route == route
  }

  ghost predicate Present(s: World, route: Id) {
    route in s.attached || LeavingIn(s.mail, route)
  }

  /** Route ids and self ids stand for each other, one to one. */
  ghost predicate NamesInv(s: World) {
    && (forall r | r in s.attached :: r in s.known && s.known[r] == s.attached[r])
    && (forall r | r in s.known :: r != [] && s.known[r] != [])
    && (forall r, q | r in s.known && q in s.known && r != q :: s.known[r] != s.known[q])
  }

  /** Frames carry their own viewer's id, and come before the report that it left. */
  ghost predicate MailInv(s: World) {
    && (forall k | 0 <= k < |s.mail| && s.mail[k].FromViewer? ::
          && s.mail[k].m.route in s.known && s.known[s.mail[k].m.route] == s.mail[k].m.id
          && (s.mail[k].m.route in s.attached || LeavingIn(s.mail[k..], s.mail[k].m.route)))
    && (forall k | 0 <= k < |s.mail| && s.mail[k].Left? :: s.mail[k].route in s.known && s.mail[k].route !in s.attached)
    && (forall j, k | 0 <= j < k < |s.mail| && s.mail[j].Left? && s.mail[k].FromViewer? ::
          s.mail[j].route != s.mail[k].m.route)
  }

  ghost predicate BoundInv(s: World) {
    forall r | r in s.ctl.selfByRoute :: r in s.known && s.known[r] == s.ctl.selfByRoute[r] && Present(s, r)
  }

  ghost predicate OwnerBound(c: Ctl) {
    && (c.owner == [] <==> c.ownerRoute == [])
    && (c.owner != [] ==> c.ownerRoute in c.selfByRoute && c.selfByRoute[c.ownerRoute] == c.owner)
  }

  ghost predicate OwnerInv(s: World) { BoundInv(s) && OwnerBound(s.ctl) }

  function Told(viewers: nat, mail: seq<Mail>): nat {
    if mail == [] then viewers
    else
      match mail[|mail| - 1]
      case FromViewer(_) => Told(viewers, mail[..|mail| - 1])
      case Hello(n) => n
      case Joined(_, n) => if n == 0 then 1 else n
      case Left(_, n) => n
  }

  ghost predicate CountInv(s: World) {
    s.connected ==> Told(s.viewers, s.mail) == |s.attached|
  }

  ghost predicate Inv(s: World) {
    NamesInv(s) && MailInv(s) && OwnerInv(s) && CountInv(s) && (!s.connected ==> s.mail == [] && s.ctl.selfByRoute == map[])
  }

  lemma LeavingAppend(mail: seq<Mail>, m: Mail, k: nat, route: Id)
    requires k <= |mail| && LeavingIn(mail[k..], route)
    ensures LeavingIn((mail + [m])[k..], route)
  {
    var i :| 0 <= i < |mail[k..]| && mail[k..][i].Left? && mail[k..][i].route == route;
    assert (mail + [m])[k..][i] == mail[k..][i];
  }

  /** Mail is only ever added at the end; a new departure or frame keeps the order. */
  lemma MailAppend(s: World, m: Mail, attached: map<Id, Id>)
    requires MailInv(s) && NamesInv(s) && s.connected
    requires forall r | r in s.attached :: r in attached || (m.Left? && m.route == r)
    requires m.Left? ==> m.route in s.attached && m.route !in attached
    requires forall r | r in attached :: r in s.attached
    requires m.FromViewer? ==> m.m.route in s.attached && s.attached[m.m.route] == m.m.id
    ensures MailInv(s.(mail := s.mail + [m], attached := attached))
  {
    var t := s.(mail := s.mail + [m], attached := attached);
    forall k | 0 <= k < |t.mail| && t.mail[k].FromViewer?
      ensures t.mail[k].m.route in attached || LeavingIn(t.mail[k..], t.mail[k].m.route)
    {
      var route := t.mail[k].m.route;
      if route !in attached {
        if k < |s.mail| && LeavingIn(s.mail[k..], route) {
          LeavingAppend(s.mail, m, k, route);
        } else {
          assert t.mail[k..][|s.mail| - k] == m;
        }
      }
    }
  }

  lemma PresentAppend(s: World, m: Mail, route: Id)
    requires LeavingIn(s.mail, route)
    ensures LeavingIn(s.mail + [m], route)
  {
    assert s.mail[0..] == s.mail && (s.mail + [m])[0..] == s.mail + [m];
    LeavingAppend(s.mail, m, 0, route);
  }

  lemma EnterMail(s: World, route: Id, self: Id, m: Mail)
    requires NamesInv(s) && MailInv(s) && route !in s.known && m.Joined?
    ensures MailInv(s.(attached := s.attached[route := self], known := s.known[route := self], mail := s.mail + [m]))
  {
    var u := s.(attached := s.attached[route := self], known := s.known[route := self], mail := s.mail + [m]);
    forall k | 0 <= k < |u.mail| && u.mail[k].FromViewer?
      ensures u.mail[k].m.route in u.attached || LeavingIn(u.mail[k..], u.mail[k].m.route)
    {
      var r := u.mail[k].m.route;
      if r !in s.attached { LeavingAppend(s.mail, m, k, r); }
    }
  }

  lemma EnterBound(s: World, route: Id, self: Id, m: Mail)
    requires BoundInv(s) && route !in s.known
    ensures BoundInv(s.(attached := s.attached[route := self], known := s.known[route := self], mail := s.mail + [m]))
  {
    forall r | LeavingIn(s.mail, r) ensures LeavingIn(s.mail + [m], r) { PresentAppend(s, m, r); }
  }

  lemma EnterNames(s: World, route: Id, self: Id)
    requires NamesInv(s) && Fresh(s, route, self)
    ensures NamesInv(s.(attached := s.attached[route := self], known := s.known[route := self]))
  {
  }

  lemma EnterOffline(s: World, route: Id, self: Id)
    requires Inv(s) && Fresh(s, route, self) && !s.connected
    ensures Inv(Next(s, Enter(route, self)))
  {
  }

  lemma EnterStep(s: World, route: Id, self: Id)
    requires Inv(s) && Fresh(s, route, self)
    ensures Inv(Next(s, Enter(route, self)))
  {
    var t := s.(attached := s.attached[route := self], known := s.known[route := self]);
    assert t.attached.Keys == s.attached.Keys + {route};
    var m := Joined(route, |t.attached|);
    if !s.connected {
      EnterOffline(s, route, self);
    } else {
      EnterNames(s, route, self);
      EnterMail(s, route, self, m);
      EnterBound(s, route, self, m);
      ToldAppend(s.viewers, s.mail, m);
    }
  }

  lemma SendStep(s: World, route: Id, seqno: nat, kind: byte, body: bytes)
    requires Inv(s) && route in s.attached && s.connected
    ensures Inv(Next(s, Send(route, seqno, kind, body)))
  {
    var m := FromViewer(Msg(route, s.attached[route], seqno, kind, body));
    MailAppend(s, m, s.attached);
    forall r | LeavingIn(s.mail, r) ensures LeavingIn(s.mail + [m], r) { PresentAppend(s, m, r); }
    assert (s.mail + [m])[..|s.mail|] == s.mail;
  }

  lemma LeaveStep(s: World, route: Id)
    requires Inv(s) && route in s.attached
    ensures Inv(Next(s, Leave(route)))
  {
    var attached := s.attached - {route};
    var m := Left(route, |attached|);
    if s.connected {
      MailAppend(s, m, attached);
      LeaveBound(s, route, m);
      ToldAppend(s.viewers, s.mail, m);
    }
  }

  lemma ToldAppend(viewers: nat, mail: seq<Mail>, m: Mail)
    requires m.Joined? || m.Left?
    ensures Told(viewers, mail + [m]) == if m.Joined? && m.viewers == 0 then 1 else m.viewers
  {
  }

  /** A departing route stays present until its report has been read. */
  lemma LeaveBound(s: World, route: Id, m: Mail)
    requires BoundInv(s) && m.Left? && m.route == route
    ensures BoundInv(s.(attached := s.attached - {route}, mail := s.mail + [m]))
  {
    forall r | LeavingIn(s.mail, r) ensures LeavingIn(s.mail + [m], r) { PresentAppend(s, m, r); }
    assert LeavingIn(s.mail + [m], route) by { assert (s.mail + [m])[|s.mail|] == m; }
  }

  lemma ConnectStep(s: World)
    requires Inv(s)
    ensures Inv(Next(s, Connect))
  {
  }

  // ---- Delivery ------------------------------------------------------------------------

  lemma {:induction false} ToldPops(viewers: nat, mail: seq<Mail>)
    requires mail != []
    ensures Told(viewers, mail) ==
            Told(match mail[0] case FromViewer(_) => viewers case Hello(n) => n
                 case Joined(_, n) => (if n == 0 then 1 else n) case Left(_, n) => n, mail[1..])
  {
    if |mail| > 1 {
      ToldPops(viewers, mail[..|mail| - 1]);
      assert mail[1..][..|mail| - 2] == mail[..|mail| - 1][1..];
    }
  }

  lemma DeliverMail(s: World)
    requires MailInv(s) && s.mail != []
    ensures MailInv(s.(mail := s.mail[1..]))
  {
  }

  /** Only the departed route's own report stops being ahead. */
  lemma StillPresent(s: World, route: Id)
    requires s.mail != [] && Present(s, route)
    requires !(s.mail[0].Left? && s.mail[0].route == route)
    ensures Present(s.(mail := s.mail[1..]), route)
  {
  }

  /** A frame binds its route to its own id; ownership changes only to or from that id. */
  lemma HandleBinds(c: Ctl, m: Msg)
    requires OwnerBound(c) && m.id != [] && m.route != []
    requires m.route in c.selfByRoute ==> c.selfByRoute[m.route] == m.id
    ensures OwnerBound(Handle(c, m))
    ensures Handle(c, m).selfByRoute in {c.selfByRoute, c.selfByRoute[m.route := m.id]}
  {
  }

  lemma DeliverFrame(s: World)
    requires Inv(s) && s.mail != [] && s.mail[0].FromViewer?
    ensures OwnerInv(OnDeliver(s))
  {
    var m := s.mail[0].m;
    var t := OnDeliver(s);
    assert s.mail[0..] == s.mail;
    assert Present(s, m.route);
    HandleBinds(s.ctl, m);
    forall r | r in t.ctl.selfByRoute ensures Present(t, r) {
      StillPresent(s, r);
      assert Present(s.(mail := s.mail[1..]), r);
    }
  }

  lemma DeliverLeft(s: World)
    requires Inv(s) && s.mail != [] && s.mail[0].Left?
    ensures OwnerInv(OnDeliver(s))
  {
    var t := OnDeliver(s);
    forall r | r in t.ctl.selfByRoute ensures Present(t, r) {
      StillPresent(s, r);
      assert Present(s.(mail := s.mail[1..]), r);
    }
    LeavingMeaning(s);
  }

  /** A viewer that does not own control leaves without touching the owner; the owner's own
      departure clears it. */
  lemma LeavingMeaning(s: World)
    requires NamesInv(s) && MailInv(s) && OwnerInv(s) && s.mail != [] && s.mail[0].Left?
    ensures var t := OnDeliver(s);
            if s.mail[0].route == s.ctl.ownerRoute then t.ctl.owner == [] && t.ctl.ownerRoute == []
            else t.ctl.owner == s.ctl.owner && t.ctl.ownerRoute == s.ctl.ownerRoute
  {
  }

  lemma DeliverCount(s: World)
    requires Inv(s) && s.mail != []
    ensures OwnerInv(OnDeliver(s))
  {
    var t := OnDeliver(s);
    match s.mail[0]
    case FromViewer(_) => DeliverFrame(s);
    case Left(_, _) => DeliverLeft(s);
    case _ =>
      forall r | r in s.ctl.selfByRoute ensures Present(t, r) {
        StillPresent(s, r);
        assert Present(s.(mail := s.mail[1..]), r);
      }
  }

  lemma DeliverStep(s: World)
    requires Inv(s) && s.mail != []
    ensures Inv(Next(s, Deliver))
  {
    DeliverMail(s);
    DeliverCount(s);
    ToldPops(s.viewers, s.mail);
  }

  lemma Step(s: World, l: Action)
    requires Inv(s)
    ensures Inv(Next(s, l))
  {
    match l
    case Enter(route, self) => if Fresh(s, route, self) { EnterStep(s, route, self); }
    case Send(route, seqno, kind, body) => if route in s.attached && s.connected { SendStep(s, route, seqno, kind, body); }
    case Leave(route) => if route in s.attached { LeaveStep(s, route); }
    case Connect => ConnectStep(s);
    case Deliver => if s.mail != [] { DeliverStep(s); }
    case _ =>
  }

  lemma {:induction false} InvHolds(mode: ControlMode, ls: seq<Action>)
    ensures Inv(Exec(Init(mode), ls))
  {
    if ls != [] {
      InvHolds(mode, ls[..|ls| - 1]);
      Step(Exec(Init(mode), ls[..|ls| - 1]), ls[|ls| - 1]);
    }
  }

  /** Control is unowned, or held by a route bound to the owner's id whose viewer is present
      or whose departure the runner has not read yet. Once the runner has read everything,
      the owner is present under its own id, and the viewer count is the relay's. */
  lemma OwnerIsPresent(mode: ControlMode, ls: seq<Action>)
    ensures var s := Exec(Init(mode), ls);
            && (s.ctl.owner != [] ==>
                  && s.ctl.ownerRoute in s.ctl.selfByRoute
                  && s.ctl.selfByRoute[s.ctl.ownerRoute] == s.ctl.owner
                  && (s.ctl.ownerRoute in s.attached || LeavingIn(s.mail, s.ctl.ownerRoute)))
            && (s.mail == [] && s.ctl.owner != [] ==>
                  s.ctl.ownerRoute in s.attached && s.attached[s.ctl.ownerRoute] == s.ctl.owner)
            && (s.mail == [] && s.connected ==> s.viewers == |s.attached|)
  {
    InvHolds(mode, ls);
  }

  /** In every run, reading that a viewer left disturbs the owner exactly when it was the owner. */
  lemma {:induction false} NonOwnerLeaves(mode: ControlMode, ls: seq<Action>)
    ensures var s := Exec(Init(mode), ls);
            s.mail != [] && s.mail[0].Left? && s.ctl.owner != [] ==>
              var t := Next(s, Deliver);
              (t.ctl.owner == s.ctl.owner <==> s.mail[0].route != s.ctl.ownerRoute)
              && (t.ctl.owner != s.ctl.owner ==> t.ctl.owner == [])
  {
    InvHolds(mode, ls);
    var s := Exec(Init(mode), ls);
    if s.mail != [] && s.mail[0].Left? && s.ctl.owner != [] {
      assert Next(s, Deliver) == OnDeliver(s);
      LeavingMeaning(s);
    }
  }

  // ---- Control comes and goes --------------------------------------------------------

  /** From any moment at which a connected runner has read its mail: a viewer that comes in and
      asks for control in auto mode gets it if nobody has it, and when it leaves again nobody
      does; the count follows both times. */
  lemma {:induction false} ControlComesAndGoes(ls: seq<Action>, route: Id, self: Id, seqno: nat)
    ensures var s := Exec(Init(Auto), ls);
            s.connected && s.mail == [] && s.ctl.owner == [] && Fresh(s, route, self) && seqno > Floor(s.ctl, self) ==>
              var asked := Next(Next(Next(Next(s, Enter(route, self)), Deliver), Send(route, seqno, KIND_CTRL_REQ, [])), Deliver);
              var left := Next(Next(asked, Leave(route)), Deliver);
              && asked.ctl.owner == self && asked.ctl.ownerRoute == route && asked.viewers == |s.attached| + 1
              && left.ctl.owner == [] && left.ctl.ownerRoute == [] && left.viewers == |s.attached|
  {
    InvHolds(Auto, ls);
    ModeStays(Auto, ls);
    var s := Exec(Init(Auto), ls);
    if s.connected && s.mail == [] && s.ctl.owner == [] && Fresh(s, route, self) && seqno > Floor(s.ctl, self) {
      assert route !in s.attached by { assert NamesInv(s); }
      OneVisit(s, route, self, seqno);
    }
  }

  lemma Enters(s: World, route: Id, self: Id)
    requires s.connected && s.mail == [] && Fresh(s, route, self)
    ensures Next(Next(s, Enter(route, self)), Deliver)
         == s.(attached := s.attached[route := self], known := s.known[route := self], viewers := |s.attached[route := self]|)
  {
    var more := s.attached[route := self];
    assert more.Keys == s.attached.Keys + {route} && |more.Keys| > 0;
    assert [Joined(route, |more|)][1..] == [];
  }

  lemma Asks(s: World, route: Id, seqno: nat)
    requires s.connected && s.mail == [] && route in s.attached
    ensures Next(Next(s, Send(route, seqno, KIND_CTRL_REQ, [])), Deliver)
         == s.(ctl := Handle(s.ctl, Msg(route, s.attached[route], seqno, KIND_CTRL_REQ, [])))
  {
    assert [FromViewer(Msg(route, s.attached[route], seqno, KIND_CTRL_REQ, []))][1..] == [];
  }

  lemma Leaves(s: World, route: Id)
    requires s.connected && s.mail == [] && route in s.attached
    ensures Next(Next(s, Leave(route)), Deliver)
         == s.(attached := s.attached - {route}, viewers := |s.attached - {route}|, ctl := Forget(s.ctl, route))
  {
    assert [Left(route, |s.attached - {route}|)][1..] == [];
  }

  lemma OneVisit(s: World, route: Id, self: Id, seqno: nat)
    requires s.connected && s.mail == [] && s.ctl.owner == [] && s.ctl.mode == Auto
    requires Fresh(s, route, self) && route !in s.attached && seqno > Floor(s.ctl, self)
    ensures var asked := Next(Next(Next(Next(s, Enter(route, self)), Deliver), Send(route, seqno, KIND_CTRL_REQ, [])), Deliver);
            var left := Next(Next(asked, Leave(route)), Deliver);
            && asked.ctl.owner == self && asked.ctl.ownerRoute == route && asked.viewers == |s.attached| + 1
            && left.ctl.owner == [] && left.ctl.ownerRoute == [] && left.viewers == |s.attached|
  {
    var more := s.attached[route := self];
    assert more.Keys == s.attached.Keys + {route} && more - {route} == s.attached;
    Enters(s, route, self);
    var entered := Next(Next(s, Enter(route, self)), Deliver);
    Asks(entered, route, seqno);
    var asked := Next(Next(entered, Send(route, seqno, KIND_CTRL_REQ, [])), Deliver);
    Granted(s.ctl, Msg(route, self, seqno, KIND_CTRL_REQ, []));
    Leaves(asked, route);
  }

  lemma Granted(c: Ctl, m: Msg)
    requires c.mode == Auto && c.owner == [] && m.seqno > Floor(c, m.id) && m.kind == KIND_CTRL_REQ && m.id != []
    ensures Handle(c, m).owner == m.id && Handle(c, m).ownerRoute == m.route
    ensures Forget(Handle(c, m), m.route).owner == [] && Forget(Handle(c, m), m.route).ownerRoute == []
  {
  }

  lemma {:induction false} ModeStays(mode: ControlMode, ls: seq<Action>)
    ensures Exec(Init(mode), ls).ctl.mode == mode
  {
    if ls != [] {
      ModeStays(mode, ls[..|ls| - 1]);
      ModeKept(Exec(Init(mode), ls[..|ls| - 1]), ls[|ls| - 1]);
    }
  }

  lemma ModeKept(s: World, l: Action)
    ensures Next(s, l).ctl.mode == s.ctl.mode
  {
  }

  /** A runner that connects learns the relay's count from the hello; one that is cut off, or
      takes control back, leaves nobody in control. */
  lemma ConnectionLife(s: World)
    ensures !s.connected ==> var t := Next(Next(s, Connect), Deliver);
                             t.connected && t.mail == [] && t.viewers == |s.attached| && t.ctl == s.ctl
    ensures var t := Next(s, Disconnect);
            !t.connected && t.mail == [] && t.viewers == 0 && t.ctl.owner == [] && t.ctl.selfByRoute == map[]
            && t.ctl.floors == s.ctl.floors && t.attached == s.attached
    ensures Next(s, TakeBack).ctl.owner == [] && Next(s, TakeBack).mail == s.mail
  {
  }
}
