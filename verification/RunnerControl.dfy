/** Who may write to the host terminal: the viewer-frame path of
    runner/internal/runner/runner.go, as a machine over the steps that each hold
    the state lock once. The relay is the environment: it may present any bytes,
    in any order, under any routing label, any number of times. */
module RunnerControl {
  import opened Base
  import opened Wire

  type Id = bytes

  datatype ControlMode = Auto | ViewOnly | Once

  /** What a key-holder put inside a sealed frame. */
  datatype Plain = Plain(seqno: nat, kind: byte, payload: bytes)

  /** The ideal sealed channel: the ciphertexts that key-holders made, and what each opens to. */
  type Channel = map<bytes, Plain>

  /** A frame that came through the label, the seal and the viewer envelope. */
  datatype Msg = Msg(route: Id, id: Id, seqno: nat, kind: byte, body: bytes)

  /** The fields that stateMu guards. The empty id stands for "nobody", as in the source. */
  datatype Ctl = Ctl(mode: ControlMode, floors: map<Id, nat>, selfByRoute: map<Id, Id>,
                     owner: Id, ownerRoute: Id, onceUsed: bool)

  datatype Act = Typed(data: bytes) | Sized(size: Size) | Requested(reply: byte) | Released

  /** A viewer frame that took effect; `grant` counts the grants made up to its check. */
  datatype Event = Event(msg: Msg, act: Act, grant: nat)

  /** Where the reader goroutine stands inside handleBinary. */
  datatype Reader = Idle | Accepted(m: Msg) | Bound(m: Msg) | Checked(m: Msg, grant: nat)

  datatype State = State(ctl: Ctl, channel: Channel, reader: Reader, log: seq<Event>, grants: seq<Id>)

  datatype Label =
    | Seal(cipher: bytes, plain: Plain)  // some key-holder seals a frame
    | Frame(frame: bytes)                // the relay hands the reader any bytes
    | Advance                            // the reader goes on to its next lock region or effect
    | PeerLeft(route: Id)                // the relay claims a viewer left
    | Teardown                           // the connection ends; the relay may force it
    | Revoke                             // the host takes control back, from another goroutine

  // ---- Lock regions ----------------------------------------------------------

  function Unwrap(ch: Channel, frame: bytes): Option<Msg> {
    match Decode(RELAY_MAGIC, frame)
    case Envelope(route, sealed) =>
      if sealed !in ch then None
      else (match Decode(VIEWER_MAGIC, ch[sealed].payload)
            case Envelope(id, body) => Some(Msg(route, id, ch[sealed].seqno, ch[sealed].kind, body))
            case _ => None)
    case _ => None
  }

  function Floor(c: Ctl, id: Id): nat {
    if id in c.floors then c.floors[id] else 0
  }

  function Bind(c: Ctl, route: Id, id: Id): Ctl {
    c.(selfByRoute := c.selfByRoute[route := id])
  }

  predicate MayGrant(c: Ctl) {
    c.mode == Auto || (c.mode == Once && !c.onceUsed)
  }

  /** handleControlRequest: the new state and the control byte sent back. */
  function Request(c: Ctl, id: Id, route: Id): (Ctl, byte) {
    if c.owner == id then (c, CONTROL_GRANTED)
    else if c.owner != [] then (c, CONTROL_TAKEN)
    else if !MayGrant(c) then (c, CONTROL_READ_ONLY)
    else (c.(owner := id, ownerRoute := route, onceUsed := c.onceUsed || c.mode == Once), CONTROL_GRANTED)
  }

  function Unown(c: Ctl): Ctl { c.(owner := [], ownerRoute := []) }

  function Release(c: Ctl, id: Id): Ctl { if c.owner == id then Unown(c) else c }

  function Forget(c: Ctl, route: Id): Ctl {
    var gone :=
      if route !in c.selfByRoute then c
      else
        var self := c.selfByRoute[route];
        var unbound := c.(selfByRoute := c.selfByRoute - {route});
        if c.owner == self then Unown(unbound) else unbound;
    if gone.ownerRoute == route then Unown(gone) else gone
  }

  function Clear(c: Ctl): Ctl { Unown(c).(selfByRoute := map[]) }

  // ---- The machine ------------------------------------------------------------

  function Init(mode: ControlMode): State {
    State(Ctl(mode, map[], map[], [], [], false), map[], Idle, [], [])
  }

  function Receive(s: State, frame: bytes): State {
    match Unwrap(s.channel, frame)
    case None => s
    case Some(m) =>
      if m.seqno <= Floor(s.ctl, m.id) then s
      else s.(ctl := s.ctl.(floors := s.ctl.floors[m.id := m.seqno]), reader := Accepted(m))
  }

  function Dispatch(s: State, m: Msg): State {
    var idle := s.(reader := Idle);
    if m.kind == KIND_INPUT || m.kind == KIND_RESIZE then
      if s.ctl.owner == m.id then s.(reader := Checked(m, |s.grants|)) else idle
    else if m.kind == KIND_CTRL_REQ then
      var (c, reply) := Request(s.ctl, m.id, m.route);
      var grants := if c.owner != s.ctl.owner then s.grants + [m.id] else s.grants;
      idle.(ctl := c, grants := grants, log := s.log + [Event(m, Requested(reply), |grants|)])
    else if m.kind == KIND_CTRL_REL then
      if s.ctl.owner != m.id then idle
      else idle.(ctl := Release(s.ctl, m.id), log := s.log + [Event(m, Released, |s.grants|)])
    else idle
  }

  /** The write itself comes after the check released the lock. */
  function Land(s: State, m: Msg, grant: nat): State {
    var idle := s.(reader := Idle);
    if m.kind == KIND_INPUT then idle.(log := s.log + [Event(m, Typed(m.body), grant)])
    else
      match DecodeResize(m.body)
      case None => idle
      case Some(z) => idle.(log := s.log + [Event(m, Sized(z), grant)])
  }

  function Proceed(s: State): State {
    match s.reader
    case Idle => s
    case Accepted(m) => s.(ctl := Bind(s.ctl, m.route, m.id), reader := Bound(m))
    case Bound(m) => Dispatch(s, m)
    case Checked(m, grant) => Land(s, m, grant)
  }

  /** A label that is not enabled changes nothing. */
  function Next(s: State, l: Label): State {
    match l
    case Seal(c, p) => if c in s.channel then s else s.(channel := s.channel[c := p])
    case Frame(f) => if s.reader.Idle? then Receive(s, f) else s
    case Advance => Proceed(s)
    case PeerLeft(route) => if s.reader.Idle? then s.(ctl := Forget(s.ctl, route)) else s
    case Teardown => if s.reader.Idle? then s.(ctl := Clear(s.ctl)) else s
    case Revoke => if s.ctl.owner == [] then s else s.(ctl := Unown(s.ctl))
  }

  function Exec(s: State, ls: seq<Label>): State {
    if ls == [] then s else Next(Exec(s, ls[..|ls| - 1]), ls[|ls| - 1])
  }

  // ---- At most once -------------------------------------------------------------

  /** No step lowers a replay floor, not even a forced reconnect. */
  lemma FloorsNeverDrop(s: State, l: Label, id: Id)
    ensures Floor(s.ctl, id) <= Floor(Next(s, l).ctl, id)
  {
    match l {
      case Frame(f) =>
      case Advance =>
      case _ =>
    }
  }

  ghost predicate Increasing(log: seq<Event>) {
    forall i, j | 0 <= i < j < |log| && log[i].msg.id == log[j].msg.id :: log[i].msg.seqno < log[j].msg.seqno
  }

  /** No effect of `id` carries a number of `n` or more. */
  ghost predicate Below(log: seq<Event>, id: Id, n: nat) {
    forall i | 0 <= i < |log| && log[i].msg.id == id :: log[i].msg.seqno < n
  }

  ghost predicate UnderFloors(log: seq<Event>, c: Ctl) {
    forall i | 0 <= i < |log| :: log[i].msg.seqno <= Floor(c, log[i].msg.id)
  }

  /** The frame in hand has raised its floor and has not taken effect yet. */
  ghost predicate OnceInv(s: State) {
    && Increasing(s.log)
    && UnderFloors(s.log, s.ctl)
    && (!s.reader.Idle? ==>
          && s.reader.m.seqno <= Floor(s.ctl, s.reader.m.id)
          && Below(s.log, s.reader.m.id, s.reader.m.seqno))
  }

  lemma OnceFrame(s: State, f: bytes)
    requires OnceInv(s)
    ensures OnceInv(Next(s, Frame(f)))
  {
  }

  lemma OnceStep(s: State, l: Label)
    requires OnceInv(s)
    ensures OnceInv(Next(s, l))
  {
    match l {
      case Frame(f) => OnceFrame(s, f);
      case Advance =>
        var t := Next(s, l);
        assert t.ctl.floors == s.ctl.floors;
        assert t.log == s.log || (t.reader.Idle? && t.log == s.log + [t.log[|s.log|]] && t.log[|s.log|].msg == s.reader.m);
      case _ =>
    }
  }

  /** Over every run against any relay, the effects of one sealed id carry strictly
      increasing sequence numbers; so no (id, seq) ever takes effect twice. */
  lemma {:induction false} AtMostOnce(mode: ControlMode, ls: seq<Label>)
    ensures var log := Exec(Init(mode), ls).log;
            forall i, j | 0 <= i < j < |log| ::
              log[i].msg.id == log[j].msg.id ==> log[i].msg.seqno < log[j].msg.seqno
    ensures OnceInv(Exec(Init(mode), ls))
  {
    if ls != [] {
      AtMostOnce(mode, ls[..|ls| - 1]);
      OnceStep(Exec(Init(mode), ls[..|ls| - 1]), ls[|ls| - 1]);
    }
  }

  // ---- Authority ------------------------------------------------------------------

  ghost predicate IsWrite(e: Event) { e.act.Typed? || e.act.Sized? }

  /** Some key-holder sealed exactly this id, number, kind and body. */
  ghost predicate Authentic(ch: Channel, m: Msg) {
    exists c :: c in ch && ch[c].seqno == m.seqno && ch[c].kind == m.kind
                && Decode(VIEWER_MAGIC, ch[c].payload) == Envelope(m.id, m.body)
  }

  /** The effect is the one the frame asks for, on the terminal bytes the viewer sealed. */
  ghost predicate Faithful(e: Event) {
    match e.act
    case Typed(d) => e.msg.kind == KIND_INPUT && d == e.msg.body
    case Sized(z) => e.msg.kind == KIND_RESIZE && DecodeResize(e.msg.body) == Some(z)
    case Requested(_) => e.msg.kind == KIND_CTRL_REQ
    case Released => e.msg.kind == KIND_CTRL_REL
  }

  /** Ownership interval number `grant` belonged to `id`. */
  ghost predicate Held(grants: seq<Id>, grant: nat, id: Id) {
    1 <= grant <= |grants| && grants[grant - 1] == id
  }

  ghost predicate CtlInv(c: Ctl, grants: seq<Id>) {
    && (c.owner == [] <==> c.ownerRoute == [])
    && (c.owner != [] ==> Held(grants, |grants|, c.owner))
    && (c.mode == ViewOnly ==> grants == [])
    && (c.mode == Once ==> |grants| <= 1 && (c.onceUsed <==> |grants| == 1))
  }

  ghost predicate ReaderInv(ch: Channel, grants: seq<Id>, r: Reader) {
    && (!r.Idle? ==> r.m.id != [] && r.m.route != [] && Authentic(ch, r.m))
    && (r.Checked? ==> (r.m.kind == KIND_INPUT || r.m.kind == KIND_RESIZE) && Held(grants, r.grant, r.m.id))
  }

  ghost predicate Justified(ch: Channel, grants: seq<Id>, e: Event) {
    Faithful(e) && Authentic(ch, e.msg) && (IsWrite(e) ==> Held(grants, e.grant, e.msg.id))
  }

  ghost predicate LogInv(ch: Channel, grants: seq<Id>, log: seq<Event>) {
    forall i | 0 <= i < |log| :: Justified(ch, grants, log[i])
  }

  ghost predicate AuthorityInv(s: State) {
    CtlInv(s.ctl, s.grants) && ReaderInv(s.channel, s.grants, s.reader) && LogInv(s.channel, s.grants, s.log)
  }

  lemma UnwrapAuthentic(ch: Channel, frame: bytes)
    ensures var m := Unwrap(ch, frame);
            m.Some? ==> m.value.id != [] && m.value.route != [] && Authentic(ch, m.value)
  {
  }

  lemma StaysAuthentic(ch: Channel, c: bytes, p: Plain, m: Msg)
    requires Authentic(ch, m) && c !in ch
    ensures Authentic(ch[c := p], m)
  {
    var w :| w in ch && ch[w].seqno == m.seqno && ch[w].kind == m.kind
             && Decode(VIEWER_MAGIC, ch[w].payload) == Envelope(m.id, m.body);
    assert w in ch[c := p] && ch[c := p][w] == ch[w];
  }

  lemma AuthoritySeal(s: State, c: bytes, p: Plain)
    requires AuthorityInv(s)
    ensures AuthorityInv(Next(s, Seal(c, p)))
  {
    if c !in s.channel {
      forall m: Msg | Authentic(s.channel, m) ensures Authentic(s.channel[c := p], m) {
        StaysAuthentic(s.channel, c, p, m);
      }
    }
  }

  /** A grant adds an interval and leaves the earlier ones where they were. */
  lemma AuthorityRequest(s: State, m: Msg)
    requires AuthorityInv(s) && s.reader == Bound(m) && m.kind == KIND_CTRL_REQ
    ensures AuthorityInv(Dispatch(s, m))
  {
  }

  lemma AuthorityAdvance(s: State)
    requires AuthorityInv(s)
    ensures AuthorityInv(Next(s, Advance))
  {
    match s.reader
    case Bound(m) =>
      if m.kind == KIND_CTRL_REQ {
        AuthorityRequest(s, m);
      }
    case _ =>
  }

  lemma AuthorityStep(s: State, l: Label)
    requires AuthorityInv(s)
    ensures AuthorityInv(Next(s, l))
  {
    match l {
      case Seal(c, p) => AuthoritySeal(s, c, p);
      case Frame(f) => UnwrapAuthentic(s.channel, f);
      case Advance => AuthorityAdvance(s);
      case _ =>
    }
  }

  lemma {:induction false} AuthorityHolds(s: State, ls: seq<Label>)
    requires AuthorityInv(s)
    ensures AuthorityInv(Exec(s, ls))
  {
    if ls != [] {
      AuthorityHolds(s, ls[..|ls| - 1]);
      AuthorityStep(Exec(s, ls[..|ls| - 1]), ls[|ls| - 1]);
    }
  }

  /** Every viewer-originated write of every run is a sealed input or resize of the id
      that held control, alone, in the ownership interval in which it was checked.
      View-only runs have no writes; a once run has one interval and one writer. */
  lemma WriteAuthority(mode: ControlMode, ls: seq<Label>)
    ensures var s := Exec(Init(mode), ls);
            && (forall e | e in s.log ::
                  Faithful(e) && Authentic(s.channel, e.msg) && (IsWrite(e) ==> Held(s.grants, e.grant, e.msg.id)))
            && (mode == ViewOnly ==> s.ctl.owner == [] && forall e | e in s.log :: !IsWrite(e))
            && (mode == Once ==> |s.grants| <= 1 && forall e, f | e in s.log && f in s.log && IsWrite(e) && IsWrite(f) ::
                  e.msg.id == f.msg.id && e.grant == f.grant == 1)
  {
    AuthorityHolds(Init(mode), ls);
    ModeFixed(Init(mode), ls);
    var s := Exec(Init(mode), ls);
    forall e | e in s.log ensures Justified(s.channel, s.grants, e) {
      var i :| 0 <= i < |s.log| && s.log[i] == e;
    }
  }

  /** The empty id never owns control, so it never passes the ownership check. */
  lemma OwnerRouteTogether(mode: ControlMode, ls: seq<Label>)
    ensures var s := Exec(Init(mode), ls);
            && (s.ctl.owner == [] <==> s.ctl.ownerRoute == [])
            && (!s.reader.Idle? ==> s.reader.m.id != [])
  {
    AuthorityHolds(Init(mode), ls);
  }

  lemma CheckCause(s: State, l: Label)
    requires Next(s, l).reader.Checked?
    ensures s.reader == Next(s, l).reader
         || (l == Advance && s.reader == Bound(Next(s, l).reader.m) && s.ctl.owner == Next(s, l).reader.m.id)
  {
  }

  /** A write about to land was preceded, in the same run, by a state in which its id was
      the owner; since then the reader has done nothing else. */
  lemma {:induction false} CheckedBeforeLanding(s: State, ls: seq<Label>) returns (k: nat)
    requires s.reader.Idle? && Exec(s, ls).reader.Checked?
    ensures k < |ls| && ls[k] == Advance
    ensures Exec(s, ls[..k]).reader == Bound(Exec(s, ls).reader.m)
    ensures Exec(s, ls[..k]).ctl.owner == Exec(s, ls).reader.m.id
    ensures forall i | k < i <= |ls| :: Exec(s, ls[..i]).reader == Exec(s, ls).reader
  {
    var n := |ls| - 1;
    var front := ls[..n];
    CheckCause(Exec(s, front), ls[n]);
    if Exec(s, front).reader.Bound? {
      k := n;
    } else {
      k := CheckedBeforeLanding(s, front);
      assert front[..k] == ls[..k];
      forall i | k < i <= n ensures Exec(s, ls[..i]).reader == Exec(s, ls).reader {
        assert front[..i] == ls[..i];
      }
    }
    assert ls[..|ls|] == ls;
  }

  // ---- After a revoke ---------------------------------------------------------------

  function Writes(log: seq<Event>): nat {
    if log == [] then 0
    else Writes(log[..|log| - 1]) + (if log[|log| - 1].act.Typed? || log[|log| - 1].act.Sized? then 1 else 0)
  }

  function InHand(s: State): nat { if s.reader.Checked? then 1 else 0 }

  lemma UnownedStep(s: State, l: Label)
    requires s.ctl.owner == [] && AuthorityInv(s)
    ensures var t := Next(s, l);
            && |s.grants| <= |t.grants|
            && (|s.grants| == |t.grants| ==> t.ctl.owner == [] && Writes(t.log) + InHand(t) <= Writes(s.log) + InHand(s))
  {
    var t := Next(s, l);
    if |t.log| > |s.log| {
      assert t.log[..|t.log| - 1] == s.log;
    }
  }

  lemma {:induction false} UnownedRun(s: State, ls: seq<Label>)
    requires s.ctl.owner == [] && AuthorityInv(s)
    ensures AuthorityInv(Exec(s, ls)) && |s.grants| <= |Exec(s, ls).grants|
    ensures var t := Exec(s, ls);
            |s.grants| == |t.grants| ==> t.ctl.owner == [] && Writes(t.log) + InHand(t) <= Writes(s.log) + InHand(s)
  {
    if ls != [] {
      var front := ls[..|ls| - 1];
      UnownedRun(s, front);
      var t := Exec(s, front);
      AuthorityStep(t, ls[|ls| - 1]);
      if t.ctl.owner == [] {
        UnownedStep(t, ls[|ls| - 1]);
      } else {
        GrantsOnlyGrow(t, ls[|ls| - 1]);
      }
    }
  }

  lemma GrantsOnlyGrow(s: State, l: Label)
    ensures s.grants <= Next(s, l).grants
  {
  }

  /** After a revoke, until the next grant, at most one write lands, and only one that
      had already passed its check. A once run never grants again. */
  lemma AfterRevoke(mode: ControlMode, before: seq<Label>, after: seq<Label>)
    ensures var s := Exec(Init(mode), before + [Revoke]);
            var t := Exec(s, after);
            && (|t.grants| == |s.grants| ==> Writes(t.log) <= Writes(s.log) + InHand(s) <= Writes(s.log) + 1)
            && (mode == Once && s.grants != [] ==> |t.grants| == |s.grants| && t.ctl.owner == [])
  {
    var ls := before + [Revoke];
    assert ls[..|ls| - 1] == before;
    AuthorityHolds(Init(mode), ls);
    ModeFixed(Init(mode), ls);
    UnownedRun(Exec(Init(mode), ls), after);
    ModeFixed(Exec(Init(mode), ls), after);
  }

  lemma {:induction false} ModeFixed(s: State, ls: seq<Label>)
    ensures Exec(s, ls).ctl.mode == s.ctl.mode
  {
    if ls != [] {
      ModeFixed(s, ls[..|ls| - 1]);
      ModeStep(Exec(s, ls[..|ls| - 1]), ls[|ls| - 1]);
    }
  }

  lemma ModeStep(s: State, l: Label)
    ensures Next(s, l).ctl.mode == s.ctl.mode
  {
  }

  // ---- What a request, a release and a departure do -----------------------------------

  /** A request makes its sender the owner exactly when it already was, or nobody is and
      the policy still allows a grant; the reply tells which of the three cases it was. */
  lemma RequestMeaning(c: Ctl, id: Id, route: Id)
    requires id != []
    ensures var (d, reply) := Request(c, id, route);
            && (d.owner == id <==> c.owner == id || (c.owner == [] && MayGrant(c)))
            && (d.owner == id <==> reply == CONTROL_GRANTED)
            && (reply == CONTROL_TAKEN <==> c.owner != [] && c.owner != id)
            && (d.owner != c.owner ==> c.owner == [] && d.ownerRoute == route)
            && (d.owner == c.owner ==> d == c)
            && d.floors == c.floors && d.selfByRoute == c.selfByRoute
            && (c.mode == Once && d.owner != [] && c.owner == [] ==> !MayGrant(Unown(d)))
  {
  }

  /** A leaving route takes control with it exactly when it is the owner's own route or is
      bound to the owner's id; the floors stay. */
  lemma ForgetMeaning(c: Ctl, route: Id)
    requires c.owner == [] <==> c.ownerRoute == []
    requires route != []
    ensures var d := Forget(c, route);
            && (d.owner == [] <==> c.owner == [] || c.ownerRoute == route
                                   || (route in c.selfByRoute && c.selfByRoute[route] == c.owner))
            && (d.owner != [] ==> d.owner == c.owner && d.ownerRoute == c.ownerRoute)
            && d.selfByRoute == c.selfByRoute - {route}
            && d.floors == c.floors && d.onceUsed == c.onceUsed
  {
  }

  /** Equal but for routing labels. */
  ghost predicate SameMsg(a: Msg, b: Msg) {
    a.id == b.id && a.seqno == b.seqno && a.kind == b.kind && a.body == b.body
  }

  ghost predicate SameReader(a: Reader, b: Reader) {
    match a
    case Idle => b.Idle?
    case Accepted(m) => b.Accepted? && SameMsg(m, b.m)
    case Bound(m) => b.Bound? && SameMsg(m, b.m)
    case Checked(m, g) => b.Checked? && SameMsg(m, b.m) && b.grant == g
  }

  ghost predicate SameEvent(a: Event, b: Event) {
    SameMsg(a.msg, b.msg) && a.act == b.act && a.grant == b.grant
  }

  ghost predicate SameLogs(a: seq<Event>, b: seq<Event>) {
    |a| == |b| && forall i | 0 <= i < |a| :: SameEvent(a[i], b[i])
  }

  ghost predicate SameCtl(a: Ctl, b: Ctl) {
    a.mode == b.mode && a.floors == b.floors && a.owner == b.owner && a.onceUsed == b.onceUsed
  }

  ghost predicate SameButRoutes(a: State, b: State) {
    SameCtl(a.ctl, b.ctl) && SameReader(a.reader, b.reader) && a.grants == b.grants && SameLogs(a.log, b.log)
  }

  lemma SameDispatch(a: State, b: State, m: Msg, n: Msg)
    requires SameButRoutes(a, b) && SameMsg(m, n)
    ensures SameButRoutes(Dispatch(a, m), Dispatch(b, n))
  {
    if m.kind == KIND_CTRL_REQ {
      assert SameCtl(Request(a.ctl, m.id, m.route).0, Request(b.ctl, n.id, n.route).0);
      assert Request(a.ctl, m.id, m.route).1 == Request(b.ctl, n.id, n.route).1;
    }
  }

  lemma SameLand(a: State, b: State, m: Msg, n: Msg, grant: nat)
    requires SameButRoutes(a, b) && SameMsg(m, n)
    ensures SameButRoutes(Land(a, m, grant), Land(b, n, grant))
  {
  }

  lemma SameProceed(a: State, b: State)
    requires SameButRoutes(a, b)
    ensures SameButRoutes(Proceed(a), Proceed(b))
  {
    match a.reader
    case Bound(m) => SameDispatch(a, b, m, b.reader.m);
    case Checked(m, g) => SameLand(a, b, m, b.reader.m, g);
    case _ =>
  }

  lemma SameReceive(s: State, sealed: bytes, r1: Id, r2: Id)
    requires 1 <= |r1| <= 255 && 1 <= |r2| <= 255
    ensures SameButRoutes(Receive(s, Encoded(RELAY_MAGIC, r1, sealed)), Receive(s, Encoded(RELAY_MAGIC, r2, sealed)))
  {
    DecodeEncode(RELAY_MAGIC, r1, sealed);
    DecodeEncode(RELAY_MAGIC, r2, sealed);
  }

  /** The routing label decides neither the floors, nor ownership, nor the effect: the same
      sealed frame under any two labels leaves everything but the route fields the same. */
  lemma {:induction false} LabelIsPowerless(s: State, sealed: bytes, r1: Id, r2: Id)
    requires s.reader.Idle? && 1 <= |r1| <= 255 && 1 <= |r2| <= 255
    ensures SameButRoutes(Exec(s, [Frame(Encoded(RELAY_MAGIC, r1, sealed)), Advance, Advance, Advance]),
                          Exec(s, [Frame(Encoded(RELAY_MAGIC, r2, sealed)), Advance, Advance, Advance]))
  {
    var f1, f2 := Encoded(RELAY_MAGIC, r1, sealed), Encoded(RELAY_MAGIC, r2, sealed);
    FourSteps(s, Frame(f1));
    FourSteps(s, Frame(f2));
    var a, b := Next(s, Frame(f1)), Next(s, Frame(f2));
    SameReceive(s, sealed, r1, r2);
    SameProceed(a, b);
    SameProceed(Proceed(a), Proceed(b));
    SameProceed(Proceed(Proceed(a)), Proceed(Proceed(b)));
  }

  lemma FourSteps(s: State, l: Label)
    ensures Exec(s, [l, Advance, Advance, Advance]) == Proceed(Proceed(Proceed(Next(s, l))))
  {
    var ls := [l, Advance, Advance, Advance];
    assert ls[..3] == [l, Advance, Advance] && ls[..3][..2] == [l, Advance] && ls[..3][..2][..1] == [l];
    assert Exec(s, [l]) == Next(s, l);
    assert Exec(s, [l, Advance]) == Proceed(Next(s, l));
    assert Exec(s, [l, Advance, Advance]) == Proceed(Proceed(Next(s, l)));
  }

  /** A release by the owner empties both fields; anybody else's changes nothing. The floors, the
      bindings and the once latch stay. */
  lemma ReleaseMeaning(c: Ctl, id: Id)
    requires id != []
    ensures var d := Release(c, id);
            && (c.owner == id ==> d.owner == [] && d.ownerRoute == [])
            && (c.owner != id ==> d == c)
            && d.mode == c.mode && d.floors == c.floors && d.selfByRoute == c.selfByRoute && d.onceUsed == c.onceUsed
  {
  }

  /** In every run, reading that a route left clears control exactly if it was the owner's own
      or bound to the owner's id, and takes nothing else away but its binding. */
  lemma {:induction false} DepartureClears(mode: ControlMode, ls: seq<Label>, route: Id)
    requires route != []
    ensures var s := Exec(Init(mode), ls);
            s.reader.Idle? ==>
              var t := Next(s, PeerLeft(route));
              && (t.ctl.owner == [] <==> s.ctl.owner == [] || s.ctl.ownerRoute == route
                                         || (route in s.ctl.selfByRoute && s.ctl.selfByRoute[route] == s.ctl.owner))
              && (t.ctl.owner != [] ==> t.ctl.owner == s.ctl.owner && t.ctl.ownerRoute == s.ctl.ownerRoute)
              && (t.ctl.owner == [] ==> t.ctl.ownerRoute == [])
              && t.ctl.selfByRoute == s.ctl.selfByRoute - {route}
              && t.ctl.floors == s.ctl.floors && t.ctl.onceUsed == s.ctl.onceUsed && t.log == s.log && t.grants == s.grants
  {
    OwnerRouteTogether(mode, ls);
    OwnerRouteTogether(mode, ls + [PeerLeft(route)]);
    var s := Exec(Init(mode), ls);
    ForgetMeaning(s.ctl, route);
    assert (ls + [PeerLeft(route)])[..|ls|] == ls;
  }

  /** A teardown and a revoke both leave nobody in control; a teardown also forgets every
      binding; neither touches a floor, the latch or what was done. */
  lemma TeardownClears(s: State)
    ensures var t := Next(s, Teardown);
            s.reader.Idle? ==> t.ctl.owner == [] && t.ctl.ownerRoute == [] && t.ctl.selfByRoute == map[]
                               && t.ctl.floors == s.ctl.floors && t.ctl.onceUsed == s.ctl.onceUsed && t.log == s.log
    ensures var t := Next(s, Revoke);
            && t.ctl.owner == [] && (s.ctl.owner != [] ==> t.ctl.ownerRoute == [])
            && t.ctl.selfByRoute == s.ctl.selfByRoute && t.ctl.floors == s.ctl.floors
            && t.ctl.onceUsed == s.ctl.onceUsed && t.reader == s.reader && t.log == s.log
  {
  }

  // ---- Honest frames, end to end ------------------------------------------------------

  /** The frame carries `m` as a viewer seals it and a relay labels it. */
  ghost predicate Honest(ch: Channel, frame: bytes, m: Msg) {
    && 1 <= |m.route| <= 255 && 1 <= |m.id| <= 255
    && exists sealed :: sealed in ch && frame == Encoded(RELAY_MAGIC, m.route, sealed)
                        && ch[sealed] == Plain(m.seqno, m.kind, Encoded(VIEWER_MAGIC, m.id, m.body))
  }

  function Whole(frame: bytes): seq<Label> { [Frame(frame), Advance, Advance, Advance] }

  lemma HonestUnwraps(ch: Channel, frame: bytes, m: Msg)
    requires Honest(ch, frame, m)
    ensures Unwrap(ch, frame) == Some(m)
  {
    var sealed :| sealed in ch && frame == Encoded(RELAY_MAGIC, m.route, sealed)
                  && ch[sealed] == Plain(m.seqno, m.kind, Encoded(VIEWER_MAGIC, m.id, m.body));
    DecodeEncode(RELAY_MAGIC, m.route, sealed);
    DecodeEncode(VIEWER_MAGIC, m.id, m.body);
  }

  predicate IsNew(c: Ctl, m: Msg) { m.seqno > Floor(c, m.id) }

  /** What every frame does, whatever its kind: a new number becomes its id's floor and binds its
      route; an old one changes nothing at all. Then the reader is ready for the next frame. */
  ghost predicate Booked(s: State, t: State, m: Msg) {
    && t.reader.Idle? && t.channel == s.channel && t.ctl.mode == s.ctl.mode
    && (!IsNew(s.ctl, m) ==> t == s)
    && (IsNew(s.ctl, m) ==> t.ctl.floors == s.ctl.floors[m.id := m.seqno]
                            && t.ctl.selfByRoute == s.ctl.selfByRoute[m.route := m.id])
  }

  ghost predicate SameOwner(s: State, t: State) {
    t.ctl.owner == s.ctl.owner && t.ctl.ownerRoute == s.ctl.ownerRoute && t.ctl.onceUsed == s.ctl.onceUsed
    && t.grants == s.grants
  }

  lemma HonestSteps(s: State, frame: bytes, m: Msg)
    requires s.reader.Idle? && Honest(s.channel, frame, m)
    ensures var started := s.(ctl := s.ctl.(floors := s.ctl.floors[m.id := m.seqno]), reader := Accepted(m));
            Exec(s, Whole(frame)) == if IsNew(s.ctl, m) then Proceed(Proceed(Proceed(started))) else s
  {
    FourSteps(s, Frame(frame));
    HonestUnwraps(s.channel, frame, m);
  }

  /** An input reaches the terminal, once and unchanged, exactly when its number is new and its
      sealed id is the owner. */
  lemma {:induction false} InputMeaning(s: State, frame: bytes, m: Msg)
    requires s.reader.Idle? && Honest(s.channel, frame, m) && m.kind == KIND_INPUT
    ensures var t := Exec(s, Whole(frame));
            && Booked(s, t, m) && SameOwner(s, t)
            && t.log == s.log + (if IsNew(s.ctl, m) && s.ctl.owner == m.id
                                 then [Event(m, Typed(m.body), |s.grants|)] else [])
  {
    HonestSteps(s, frame, m);
  }

  /** A resize is applied, with the size that was sealed, exactly under the same condition and if
      its payload is one. */
  lemma {:induction false} ResizeMeaning(s: State, frame: bytes, m: Msg)
    requires s.reader.Idle? && Honest(s.channel, frame, m) && m.kind == KIND_RESIZE
    ensures var t := Exec(s, Whole(frame));
            && Booked(s, t, m) && SameOwner(s, t)
            && t.log == s.log + (if IsNew(s.ctl, m) && s.ctl.owner == m.id && |m.body| >= 4
                                 then [Event(m, Sized(DecodeResize(m.body).value), |s.grants|)] else [])
  {
    HonestSteps(s, frame, m);
  }

  /** A new request is answered in every case, and makes its sender the owner exactly if it is
      already, or nobody is and the policy still allows a grant. */
  lemma {:induction false} RequestLands(s: State, frame: bytes, m: Msg)
    requires s.reader.Idle? && Honest(s.channel, frame, m) && m.kind == KIND_CTRL_REQ
    ensures var t := Exec(s, Whole(frame));
            var free := s.ctl.owner == [] && (s.ctl.mode == Auto || (s.ctl.mode == Once && !s.ctl.onceUsed));
            && Booked(s, t, m)
            && (IsNew(s.ctl, m) ==>
                  && t.log == s.log + [Event(m, Requested(if s.ctl.owner == m.id || free then CONTROL_GRANTED
                                                          else if s.ctl.owner != [] then CONTROL_TAKEN
                                                          else CONTROL_READ_ONLY), |t.grants|)]
                  && (free ==> t.ctl.owner == m.id && t.ctl.ownerRoute == m.route && t.grants == s.grants + [m.id]
                               && t.ctl.onceUsed == (s.ctl.onceUsed || s.ctl.mode == Once))
                  && (!free ==> SameOwner(s, t)))
  {
    HonestSteps(s, frame, m);
  }

  /** A new release by the owner leaves nobody in control and is acknowledged once; anybody
      else's does nothing. */
  lemma {:induction false} ReleaseLands(s: State, frame: bytes, m: Msg)
    requires s.reader.Idle? && Honest(s.channel, frame, m) && m.kind == KIND_CTRL_REL
    ensures var t := Exec(s, Whole(frame));
            && Booked(s, t, m) && t.grants == s.grants && t.ctl.onceUsed == s.ctl.onceUsed
            && (if IsNew(s.ctl, m) && s.ctl.owner == m.id
                then t.ctl.owner == [] && t.ctl.ownerRoute == [] && t.log == s.log + [Event(m, Released, |s.grants|)]
                else SameOwner(s, t) && t.log == s.log)
  {
    HonestSteps(s, frame, m);
  }

  /** A frame of any other kind has no effect. */
  lemma {:induction false} UnknownKind(s: State, frame: bytes, m: Msg)
    requires s.reader.Idle? && Honest(s.channel, frame, m)
    requires m.kind !in {KIND_INPUT, KIND_RESIZE, KIND_CTRL_REQ, KIND_CTRL_REL}
    ensures var t := Exec(s, Whole(frame)); Booked(s, t, m) && SameOwner(s, t) && t.log == s.log
  {
    HonestSteps(s, frame, m);
  }

  lemma {:induction false} ExecAppend(s: State, a: seq<Label>, b: seq<Label>)
    ensures Exec(s, a + b) == Exec(Exec(s, a), b)
  {
    if b == [] {
      assert a + b == a;
    } else {
      ExecAppend(s, a, b[..|b| - 1]);
      assert (a + b)[..|a + b| - 1] == a + b[..|b| - 1];
    }
  }

  /** In auto mode control passes on: once the owner has released it, the next new request of any
      id is granted. */
  lemma {:induction false} ReleasePassesControl(s: State, f: bytes, m: Msg, g: bytes, n: Msg)
    requires s.reader.Idle? && s.ctl.mode == Auto && Honest(s.channel, f, m) && Honest(s.channel, g, n)
    requires m.kind == KIND_CTRL_REL && IsNew(s.ctl, m) && s.ctl.owner == m.id
    requires n.kind == KIND_CTRL_REQ && n.seqno > if n.id == m.id then m.seqno else Floor(s.ctl, n.id)
    ensures var t := Exec(s, Whole(f) + Whole(g));
            && t.ctl.owner == n.id && t.ctl.ownerRoute == n.route && t.grants == s.grants + [n.id]
            && t.log == s.log + [Event(m, Released, |s.grants|), Event(n, Requested(CONTROL_GRANTED), |s.grants| + 1)]
  {
    ExecAppend(s, Whole(f), Whole(g));
    ReleaseLands(s, f, m);
    RequestLands(Exec(s, Whole(f)), g, n);
  }

  /** In every run, when nobody is in control, a new request is granted exactly if the mode is
      auto, or it is once and nobody was ever granted control. */
  lemma {:induction false} GrantPolicy(mode: ControlMode, ls: seq<Label>, frame: bytes, m: Msg)
    ensures var s := Exec(Init(mode), ls);
            s.reader.Idle? && s.ctl.owner == [] && Honest(s.channel, frame, m) && m.kind == KIND_CTRL_REQ
            && IsNew(s.ctl, m) ==>
              (Exec(s, Whole(frame)).ctl.owner == m.id <==> mode == Auto || (mode == Once && s.grants == []))
  {
    var s := Exec(Init(mode), ls);
    AuthorityHolds(Init(mode), ls);
    ModeFixed(Init(mode), ls);
    if s.reader.Idle? && Honest(s.channel, frame, m) && m.kind == KIND_CTRL_REQ {
      RequestLands(s, frame, m);
    }
  }

  /** And there are such runs: unless the mode is view-only, a viewer can take control and type. */
  lemma {:induction false} SomebodyTypes(mode: ControlMode, route: Id, id: Id, data: bytes) returns (ls: seq<Label>)
    requires mode != ViewOnly && 1 <= |route| <= 255 && 1 <= |id| <= 255
    ensures Exec(Init(mode), ls).log == [Event(Msg(route, id, 1, KIND_CTRL_REQ, []), Requested(CONTROL_GRANTED), 1),
                                         Event(Msg(route, id, 2, KIND_INPUT, data), Typed(data), 1)]
  {
    var m, n := Msg(route, id, 1, KIND_CTRL_REQ, []), Msg(route, id, 2, KIND_INPUT, data);
    var p := Seal([1], Plain(1, m.kind, Encoded(VIEWER_MAGIC, id, [])));
    var q := Seal([2], Plain(2, n.kind, Encoded(VIEWER_MAGIC, id, data)));
    var f, g := Encoded(RELAY_MAGIC, route, [1]), Encoded(RELAY_MAGIC, route, [2]);
    ls := [p, q] + Whole(f) + Whole(g);
    var s := Exec(Init(mode), [p, q]);
    assert [p, q][..1] == [p];
    assert Exec(Init(mode), [p]) == Next(Exec(Init(mode), []), p);
    assert s == Next(Next(Init(mode), p), q);
    assert s.channel[[1]] == p.plain && s.channel[[2]] == q.plain;
    assert Honest(s.channel, f, m) && Honest(s.channel, g, n);
    ExecAppend(Init(mode), [p, q], Whole(f));
    ExecAppend(Init(mode), [p, q] + Whole(f), Whole(g));
    RequestLands(s, f, m);
    InputMeaning(Exec(s, Whole(f)), g, n);
  }

  // ---- The orchestrator ---------------------------------------------------------------

  /** The runner object itself, whose methods change its fields in place. When nothing
      interleaves, handleBinary is the reader's whole sequence of steps. */
  class Orchestrator {
    const control: ControlMode
    var v2r: Channel
    var inSeqByViewer: map<Id, nat>
    var selfByRoute: map<Id, Id>
    var controlOwner: Id
    var ownerRoute: Id
    var onceUsed: bool
    var acts: seq<Event>    // what reached the PTY and the control channel
    var grants: seq<Id>     // history only: to whom control was granted

    constructor (control: ControlMode)
      ensures View() == Init(control)
    {
      this.control := control;
      v2r, inSeqByViewer, selfByRoute := map[], map[], map[];
      controlOwner, ownerRoute, onceUsed := [], [], false;
      acts, grants := [], [];
    }

    ghost function Guarded(): Ctl
      reads this
    {
      Ctl(control, inSeqByViewer, selfByRoute, controlOwner, ownerRoute, onceUsed)
    }

    ghost function View(): State
      reads this
    {
      State(Guarded(), v2r, Idle, acts, grants)
    }

    method AcceptSeq(viewerId: Id, seqno: nat) returns (ok: bool)
      modifies this`inSeqByViewer
      ensures ok <==> seqno > old(Floor(Guarded(), viewerId))
      ensures inSeqByViewer == if ok then old(inSeqByViewer)[viewerId := seqno] else old(inSeqByViewer)
    {
      var floor := if viewerId in inSeqByViewer then inSeqByViewer[viewerId] else 0;
      if seqno <= floor {
        return false;
      }
      inSeqByViewer := inSeqByViewer[viewerId := seqno];
      return true;
    }

    method HandleControlRequest(m: Msg)
      requires m.id != []
      modifies this`controlOwner, this`ownerRoute, this`onceUsed, this`acts, this`grants
      ensures var (c, reply) := old(Request(Guarded(), m.id, m.route));
              && Guarded() == c
              && grants == old(grants) + (if c.owner != old(controlOwner) then [m.id] else [])
              && acts == old(acts) + [Event(m, Requested(reply), |grants|)]
    {
      var state := CONTROL_READ_ONLY;
      if controlOwner == m.id {
        state := CONTROL_GRANTED;
      } else if controlOwner != [] {
        state := CONTROL_TAKEN;
      } else if control == ViewOnly || (control == Once && onceUsed) {
        state := CONTROL_READ_ONLY;
      } else {
        if control == Once {
          onceUsed := true;
        }
        controlOwner := m.id;
        ownerRoute := m.route;
        state := CONTROL_GRANTED;
        grants := grants + [m.id];
      }
      Emit(m, Requested(state));
    }

    method Emit(m: Msg, act: Act)
      modifies this`acts
      ensures acts == old(acts) + [Event(m, act, |grants|)]
    {
      acts := acts + [Event(m, act, |grants|)];
    }

    method HandleControlRelease(m: Msg)
      modifies this`controlOwner, this`ownerRoute, this`acts
      ensures Guarded() == old(Release(Guarded(), m.id))
      ensures acts == old(acts) + (if old(controlOwner) == m.id then [Event(m, Released, |grants|)] else [])
    {
      var released := false;
      if controlOwner == m.id {
        controlOwner := [];
        ownerRoute := [];
        released := true;
      }
      if released {
        Emit(m, Released);
      }
    }

    method HandleBinary(frame: bytes)
      modifies this
      ensures View() == old(Exec(View(), [Frame(frame), Advance, Advance, Advance]))
    {
      FourSteps(View(), Frame(frame));
      UnwrapAuthentic(v2r, frame);
      var outer := Decode(RELAY_MAGIC, frame);
      if !outer.Envelope? || outer.body !in v2r {
        return;
      }
      var plain := v2r[outer.body];
      var inner := Decode(VIEWER_MAGIC, plain.payload);
      if !inner.Envelope? {
        return;
      }
      var m := Msg(outer.id, inner.id, plain.seqno, plain.kind, inner.body);
      var isNew := AcceptSeq(m.id, m.seqno);
      if !isNew {
        return;
      }
      selfByRoute := selfByRoute[m.route := m.id];
      if m.kind == KIND_INPUT {
        if controlOwner == m.id {
          Emit(m, Typed(m.body));
        }
      } else if m.kind == KIND_RESIZE {
        if controlOwner == m.id {
          var z := DecodeResize(m.body);
          if z.Some? {
            Emit(m, Sized(z.value));
          }
        }
      } else if m.kind == KIND_CTRL_REQ {
        HandleControlRequest(m);
      } else if m.kind == KIND_CTRL_REL {
        HandleControlRelease(m);
      }
    }

    method ForgetViewer(routeId: Id)
      modifies this`selfByRoute, this`controlOwner, this`ownerRoute
      ensures View() == old(Next(View(), PeerLeft(routeId)))
    {
      if routeId in selfByRoute {
        var self := selfByRoute[routeId];
        selfByRoute := selfByRoute - {routeId};
        if controlOwner == self {
          controlOwner := [];
          ownerRoute := [];
        }
      }
      if ownerRoute == routeId {
        controlOwner := [];
        ownerRoute := [];
      }
    }

    method ClearControlOwner()
      modifies this`selfByRoute, this`controlOwner, this`ownerRoute
      ensures View() == old(Next(View(), Teardown))
    {
      controlOwner := [];
      ownerRoute := [];
      selfByRoute := map[];
    }

    /** `told` is the route that hears it is read-only again, if anyone held control. */
    method Revoke() returns (told: Option<Id>)
      modifies this`controlOwner, this`ownerRoute
      ensures View() == old(Next(View(), Label.Revoke))
      ensures told == if old(controlOwner) == [] then None else Some(old(ownerRoute))
    {
      var owner := controlOwner;
      var route := ownerRoute;
      if owner != [] {
        controlOwner := [];
        ownerRoute := [];
      }
      if owner == [] {
        return None;
      }
      return Some(route);
    }
  }
}
