/** Runner-to-viewer order: outSeq in runner.go, the forwarding in onlytty_socket.ex and the
    viewer's lastSeq filter in app.js, over any number of runner connections. */
module Delivery {
  /** A sealed frame; `conn` only records the runner connection that carried it. */
  datatype Frame = Frame(conn: nat, seqno: nat)

  // ---- The filter against any relay ---------------------------------------------

  datatype Screen = Screen(lastSeq: nat, shown: seq<Frame>)

  function Accept(v: Screen, f: Frame): Screen {
    if f.seqno <= v.lastSeq then v else Screen(f.seqno, v.shown + [f])
  }

  /** The viewer after the first n of the frames it was handed. */
  function AcceptFirst(fs: seq<Frame>, n: nat): Screen
    requires n <= |fs|
  {
    if n == 0 then Screen(0, []) else Accept(AcceptFirst(fs, n - 1), fs[n - 1])
  }

  lemma {:induction false} SamePrefix(a: seq<Frame>, b: seq<Frame>, n: nat)
    requires n <= |a| && n <= |b| && forall i | 0 <= i < n :: a[i] == b[i]
    ensures AcceptFirst(a, n) == AcceptFirst(b, n)
  {
    if n > 0 { SamePrefix(a, b, n - 1); }
  }

  ghost predicate Increasing(fs: seq<Frame>) {
    forall i, j | 0 <= i < j < |fs| :: fs[i].seqno < fs[j].seqno
  }

  /** `at` picks, in order, the frames among the first n of `fs` that make up `picked`. */
  ghost predicate Picks(picked: seq<Frame>, at: seq<nat>, fs: seq<Frame>, n: nat)
    requires n <= |fs|
  {
    && |at| == |picked|
    && (forall i, j | 0 <= i < j < |at| :: at[i] < at[j])
    && (forall i | 0 <= i < |at| :: at[i] < n && picked[i] == fs[at[i]])
  }

  /** Whatever the relay hands over, duplicated, reordered or held back, the viewer shows a
      strictly increasing subsequence of it: the records, each above all that came before. */
  lemma {:induction false} ShowsTheRecords(fs: seq<Frame>, n: nat) returns (at: seq<nat>)
    requires n <= |fs|
    ensures var v := AcceptFirst(fs, n);
            && Increasing(v.shown) && Picks(v.shown, at, fs, n)
            && (forall i | 0 <= i < n :: fs[i].seqno <= v.lastSeq)
            && (v.shown != [] ==> v.shown[|v.shown| - 1].seqno == v.lastSeq)
            && (v.shown == [] ==> v.lastSeq == 0)
  {
    if n == 0 {
      at := [];
    } else {
      at := ShowsTheRecords(fs, n - 1);
      var before := AcceptFirst(fs, n - 1);
      assert AcceptFirst(fs, n) == Accept(before, fs[n - 1]);
      if fs[n - 1].seqno > before.lastSeq {
        at := at + [n - 1];
      }
    }
  }

  /** The runner seals frames with increasing numbers, and nothing else decrypts. So whatever the
      relay makes of them, the viewer shows a subsequence of the frames sent, in sending order. */
  lemma ShowsWhatWasSent(sent: seq<Frame>, fs: seq<Frame>, n: nat) returns (at: seq<nat>)
    requires Increasing(sent)
    requires n <= |fs| && forall i | 0 <= i < n :: fs[i] in sent
    ensures Picks(AcceptFirst(fs, n).shown, at, sent, |sent|)
  {
    var shown := AcceptFirst(fs, n).shown;
    var picked := ShowsTheRecords(fs, n);
    forall i | 0 <= i < |shown| ensures shown[i] in sent { assert shown[i] == fs[picked[i]]; }
    at := Locate(sent, shown);
  }

  /** Where frames in increasing order stand in an increasing sequence that contains them. */
  lemma {:induction false} Locate(sent: seq<Frame>, shown: seq<Frame>) returns (at: seq<nat>)
    requires Increasing(sent) && Increasing(shown) && forall i | 0 <= i < |shown| :: shown[i] in sent
    ensures Picks(shown, at, sent, |sent|)
  {
    if shown == [] {
      at := [];
    } else {
      var m := |shown| - 1;
      at := Locate(sent, shown[..m]);
      var k :| 0 <= k < |sent| && sent[k] == shown[m];
      forall i | 0 <= i < m ensures at[i] < k {
        assert sent[at[i]] == shown[i];
        assert shown[i].seqno < shown[m].seqno;
      }
      at := at + [k];
    }
  }

  /** Frames that arrive in order are all shown. */
  lemma {:induction false} InOrderDropsNothing(fs: seq<Frame>, n: nat)
    requires n <= |fs| && forall i, j | 0 <= i < j < n :: fs[i].seqno < fs[j].seqno
    requires forall i | 0 <= i < n :: fs[i].seqno > 0
    ensures AcceptFirst(fs, n).shown == fs[..n]
    ensures n > 0 ==> AcceptFirst(fs, n).lastSeq == fs[n - 1].seqno
  {
    if n > 0 {
      InOrderDropsNothing(fs, n - 1);
    }
  }

  // ---- The honest path -------------------------------------------------------------

  /** The runner's counter and two records of the past: `starts[c]` is outSeq when
      connection c began, `marks[c]` the last number its relay socket has read. */
  datatype Ledger = Ledger(outSeq: nat, starts: seq<nat>, marks: seq<nat>)

  /** `wires[c]` is what runner connection c has written and its relay socket has not read;
      `path` is everything forwarded to the viewer's process so far, in mailbox order, of
      which the first `read` frames have reached the browser. */
  datatype State = State(ledger: Ledger, wires: seq<seq<Frame>>, path: seq<Frame>, read: nat, screen: Screen)

  datatype Label =
    | Write                              // writeMsg on the current connection
    | Reconnect                          // a new runner connection; the old socket may linger
    | Forward(conn: nat, visible: bool)  // a relay socket reads a frame; broadcast or targeted
    | Push                               // the viewer's process hands a frame to the browser
    | Evict                              // the viewer's process ends; what it had queued is gone

  function Init(): State { State(Ledger(0, [0], [0]), [[]], [], 0, Screen(0, [])) }

  function Next(s: State, l: Label): State {
    match l
    case Write =>
      if s.wires == [] then s
      else s.(ledger := Counted(s.ledger), wires := Written(s.ledger, s.wires))
    case Reconnect =>
      s.(ledger := Begun(s.ledger), wires := s.wires + [[]])
    case Forward(c, visible) =>
      if c >= |s.wires| || c >= |s.ledger.marks| || s.wires[c] == [] then s
      else
        var f := s.wires[c][0];
        var t := s.(ledger := Marked(s.ledger, c, f.seqno), wires := s.wires[c := s.wires[c][1..]]);
        if visible then t.(path := s.path + [f]) else t
    case Push =>
      if s.read >= |s.path| then s
      else s.(read := s.read + 1, screen := Accept(s.screen, s.path[s.read]))
    case Evict => if s.read > |s.path| then s else s.(path := s.path[..s.read])
  }

  /** The last connection's wire with one more frame. */
  function Written(l: Ledger, wires: seq<seq<Frame>>): seq<seq<Frame>>
    requires wires != []
  {
    var c := |wires| - 1;
    wires[c := wires[c] + [Frame(c, l.outSeq + 1)]]
  }

  /** The ledger after one more number, and after one more connection. */
  function Counted(l: Ledger): Ledger { l.(outSeq := l.outSeq + 1) }

  function Begun(l: Ledger): Ledger { Ledger(l.outSeq, l.starts + [l.outSeq], l.marks + [l.outSeq]) }

  function Marked(l: Ledger, c: nat, n: nat): Ledger
    requires c < |l.marks|
  {
    l.(marks := l.marks[c := n])
  }

  function Exec(s: State, ls: seq<Label>): State {
    if ls == [] then s else Next(Exec(s, ls[..|ls| - 1]), ls[|ls| - 1])
  }

  /** The frame that a write seals, numbered next, on the current connection. */
  function NewlySent(s: State, l: Label): seq<Frame> {
    if l.Write? && s.wires != [] then [Frame(|s.wires| - 1, s.ledger.outSeq + 1)] else []
  }

  /** The frames that the writes of a run sealed, in order. */
  function Sent(ls: seq<Label>): seq<Frame> {
    if ls == [] then []
    else
      var s := Exec(Init(), ls[..|ls| - 1]);
      Sent(ls[..|ls| - 1]) + NewlySent(s, ls[|ls| - 1])
  }

  lemma {:induction false} SentIncreases(ls: seq<Label>)
    ensures Increasing(Sent(ls))
    ensures forall f | f in Sent(ls) :: 0 < f.seqno <= Exec(Init(), ls).ledger.outSeq
  {
    if ls != [] {
      var front := ls[..|ls| - 1];
      SentIncreases(front);
      CounterSteps(Exec(Init(), front), ls[|ls| - 1]);
    }
  }

  lemma CounterSteps(s: State, l: Label)
    ensures Next(s, l).ledger.outSeq == s.ledger.outSeq + if l.Write? && s.wires != [] then 1 else 0
  {
  }

  /** No relay can make the viewer show anything but a subsequence of what a run of the runner,
      over any number of connections, has sent: no frame twice, none out of order, none invented. */
  lemma AnyRelayShowsWhatWasSent(ls: seq<Label>, fs: seq<Frame>) returns (at: seq<nat>)
    requires forall f | f in fs :: f in Sent(ls)
    ensures Picks(AcceptFirst(fs, |fs|).shown, at, Sent(ls), |Sent(ls)|)
  {
    SentIncreases(ls);
    at := ShowsWhatWasSent(Sent(ls), fs, |fs|);
  }

  /** Connection c used numbers above its start, up to the start of the next one. */
  ghost predicate Issued(l: Ledger, f: Frame) {
    && f.conn < |l.starts| && l.starts[f.conn] < f.seqno
    && f.seqno <= if f.conn + 1 < |l.starts| then l.starts[f.conn + 1] else l.outSeq
  }

  ghost predicate LedgerInv(l: Ledger) {
    && |l.starts| == |l.marks| > 0
    && (forall i, j | 0 <= i <= j < |l.starts| :: l.starts[i] <= l.starts[j])
    && l.starts[|l.starts| - 1] <= l.outSeq
  }

  /** What waits on a wire is in order and above everything already read from it. */
  ghost predicate WireInv(l: Ledger, c: nat, wire: seq<Frame>) {
    && Increasing(wire)
    && c < |l.marks|
    && forall i | 0 <= i < |wire| :: wire[i].conn == c && l.marks[c] < wire[i].seqno && Issued(l, wire[i])
  }

  ghost predicate WiresInv(l: Ledger, wires: seq<seq<Frame>>) {
    && |wires| == |l.marks| == |l.starts|
    && (forall c | 0 <= c < |wires| :: WireInv(l, c, wires[c]) && l.starts[c] <= l.marks[c] <= l.outSeq)
  }

  ghost predicate PathInv(l: Ledger, path: seq<Frame>) {
    && (forall i | 0 <= i < |path| ::
          Issued(l, path[i]) && path[i].conn < |l.marks| && path[i].seqno <= l.marks[path[i].conn])
    && (forall i, j | 0 <= i < j < |path| && path[i].conn == path[j].conn :: path[i].seqno < path[j].seqno)
  }

  ghost predicate Inv(s: State) {
    && LedgerInv(s.ledger) && WiresInv(s.ledger, s.wires) && PathInv(s.ledger, s.path)
    && ScreenInv(s.path, s.read, s.screen)
  }

  ghost predicate ScreenInv(path: seq<Frame>, read: nat, screen: Screen) {
    read <= |path| && screen == AcceptFirst(path, read)
  }

  lemma Assemble(s: State, l: Ledger, wires: seq<seq<Frame>>)
    requires LedgerInv(l) && WiresInv(l, wires) && PathInv(l, s.path) && ScreenInv(s.path, s.read, s.screen)
    ensures Inv(s.(ledger := l, wires := wires))
  {
  }

  /** Numbers come from one counter: a later connection's frames are all above an earlier one's. */
  lemma LaterIsHigher(l: Ledger, f: Frame, g: Frame)
    requires LedgerInv(l) && Issued(l, f) && Issued(l, g) && f.conn < g.conn
    ensures f.seqno < g.seqno
  {
  }

  lemma CountedStays(l: Ledger, f: Frame)
    requires LedgerInv(l)
    ensures LedgerInv(Counted(l)) && (Issued(l, f) ==> Issued(Counted(l), f))
  {
  }

  lemma BegunStays(l: Ledger, f: Frame)
    requires LedgerInv(l)
    ensures LedgerInv(Begun(l)) && (Issued(l, f) ==> Issued(Begun(l), f))
  {
  }

  lemma CountedWire(l: Ledger, c: nat, wire: seq<Frame>)
    requires LedgerInv(l) && WireInv(l, c, wire)
    ensures WireInv(Counted(l), c, wire)
  {
    forall i | 0 <= i < |wire| ensures Issued(Counted(l), wire[i]) { CountedStays(l, wire[i]); }
  }

  lemma BegunWire(l: Ledger, c: nat, wire: seq<Frame>)
    requires LedgerInv(l) && WireInv(l, c, wire)
    ensures WireInv(Begun(l), c, wire)
  {
    forall i | 0 <= i < |wire| ensures Issued(Begun(l), wire[i]) { BegunStays(l, wire[i]); }
  }

  lemma CountedPath(l: Ledger, path: seq<Frame>)
    requires LedgerInv(l) && PathInv(l, path)
    ensures PathInv(Counted(l), path)
  {
    forall i | 0 <= i < |path| ensures Issued(Counted(l), path[i]) { CountedStays(l, path[i]); }
  }

  lemma BegunPath(l: Ledger, path: seq<Frame>)
    requires LedgerInv(l) && PathInv(l, path)
    ensures PathInv(Begun(l), path)
  {
    forall i | 0 <= i < |path| ensures Issued(Begun(l), path[i]) { BegunStays(l, path[i]); }
  }

  lemma WriteWire(l: Ledger, wire: seq<Frame>)
    requires LedgerInv(l) && WireInv(l, |l.marks| - 1, wire) && l.marks[|l.marks| - 1] <= l.outSeq
    ensures WireInv(Counted(l), |l.marks| - 1, wire + [Frame(|l.marks| - 1, l.outSeq + 1)])
  {
    CountedWire(l, |l.marks| - 1, wire);
  }

  lemma WriteWires(l: Ledger, wires: seq<seq<Frame>>)
    requires LedgerInv(l) && WiresInv(l, wires)
    ensures WiresInv(Counted(l), Written(l, wires))
  {
    var c, more := |wires| - 1, Written(l, wires);
    forall d | 0 <= d < |more|
      ensures WireInv(Counted(l), d, more[d]) && l.starts[d] <= l.marks[d] <= l.outSeq + 1
    {
      assert WireInv(l, d, wires[d]);
      if d == c { WriteWire(l, wires[d]); } else { CountedWire(l, d, wires[d]); }
    }
  }

  lemma WriteStep(s: State)
    requires Inv(s)
    ensures Inv(Next(s, Write))
  {
    CountedStays(s.ledger, Frame(0, 0));
    CountedPath(s.ledger, s.path);
    WriteWires(s.ledger, s.wires);
    Assemble(s, Counted(s.ledger), Written(s.ledger, s.wires));
  }

  lemma ReconnectWires(l: Ledger, wires: seq<seq<Frame>>)
    requires LedgerInv(l) && WiresInv(l, wires)
    ensures WiresInv(Begun(l), wires + [[]])
  {
    forall d | 0 <= d < |wires|
      ensures WireInv(Begun(l), d, wires[d]) && l.starts[d] <= l.marks[d] <= l.outSeq
    {
      assert WireInv(l, d, wires[d]);
      BegunWire(l, d, wires[d]);
    }
  }

  lemma ReconnectStep(s: State)
    requires Inv(s)
    ensures Inv(Next(s, Reconnect))
  {
    BegunStays(s.ledger, Frame(0, 0));
    BegunPath(s.ledger, s.path);
    ReconnectWires(s.ledger, s.wires);
    Assemble(s, Begun(s.ledger), s.wires + [[]]);
  }

  lemma ForwardWires(l: Ledger, wires: seq<seq<Frame>>, c: nat)
    requires LedgerInv(l) && WiresInv(l, wires) && c < |wires| && wires[c] != []
    ensures WiresInv(Marked(l, c, wires[c][0].seqno), wires[c := wires[c][1..]])
  {
    var l', wires' := Marked(l, c, wires[c][0].seqno), wires[c := wires[c][1..]];
    assert WireInv(l, c, wires[c]);
    assert Issued(l, wires[c][0]);
    assert l.starts[|l.starts| - 1] <= l.outSeq;
    forall d | 0 <= d < |wires'| ensures WireInv(l', d, wires'[d]) && l'.starts[d] <= l'.marks[d] <= l'.outSeq {
      assert WireInv(l, d, wires[d]);
      if d == c {
        ForwardWire(l, c, wires[c]);
      }
    }
  }

  lemma ForwardWire(l: Ledger, c: nat, wire: seq<Frame>)
    requires WireInv(l, c, wire) && wire != []
    ensures WireInv(Marked(l, c, wire[0].seqno), c, wire[1..])
  {
  }

  lemma ForwardPath(l: Ledger, path: seq<Frame>, f: Frame)
    requires PathInv(l, path) && Issued(l, f) && f.conn < |l.marks| && l.marks[f.conn] < f.seqno
    ensures PathInv(Marked(l, f.conn, f.seqno), path)
    ensures PathInv(Marked(l, f.conn, f.seqno), path + [f])
  {
  }

  lemma ForwardStep(s: State, c: nat, visible: bool)
    requires Inv(s)
    ensures Inv(Next(s, Forward(c, visible)))
  {
    var t := Next(s, Forward(c, visible));
    if t != s {
      ForwardWires(s.ledger, s.wires, c);
      assert WireInv(s.ledger, c, s.wires[c]);
      ForwardPath(s.ledger, s.path, s.wires[c][0]);
      SamePrefix(s.path, t.path, s.read);
    }
  }

  lemma PushStep(s: State)
    requires Inv(s)
    ensures Inv(Next(s, Push))
  {
  }

  lemma EvictStep(s: State)
    requires Inv(s)
    ensures Inv(Next(s, Evict))
  {
    SamePrefix(s.path, s.path[..s.read], s.read);
    PrefixStays(s.ledger, s.path, s.read);
  }

  lemma PrefixStays(l: Ledger, path: seq<Frame>, n: nat)
    requires PathInv(l, path) && n <= |path|
    ensures PathInv(l, path[..n])
  {
  }

  lemma Step(s: State, l: Label)
    requires Inv(s)
    ensures Inv(Next(s, l))
  {
    match l
    case Write => WriteStep(s);
    case Forward(c, visible) => ForwardStep(s, c, visible);
    case Push => PushStep(s);
    case Evict => EvictStep(s);
    case Reconnect => ReconnectStep(s);
  }

  lemma {:induction false} InvHolds(ls: seq<Label>)
    ensures Inv(Exec(Init(), ls))
  {
    if ls != [] {
      InvHolds(ls[..|ls| - 1]);
      Step(Exec(Init(), ls[..|ls| - 1]), ls[|ls| - 1]);
    }
  }

  /** Against what was already shown, a frame's number says which connection is later. */
  lemma NumberTellsConnection(l: Ledger, path: seq<Frame>, i: nat, j: nat)
    requires LedgerInv(l) && PathInv(l, path) && i < j < |path|
    ensures path[i].seqno < path[j].seqno <==> path[i].conn <= path[j].conn
  {
  }

  /** Over relay sockets that each keep their order, the filter drops a frame exactly when a
      later runner connection's frame has already been shown: a displaced runner's leftovers. */
  lemma DropsOnlyLeftovers(ls: seq<Label>)
    ensures var s := Exec(Init(), ls);
            s.read < |s.path| ==>
              var f := s.path[s.read];
              (Next(s, Push).screen == s.screen <==>
                 exists k :: 0 <= k < |s.screen.shown| && s.screen.shown[k].conn > f.conn)
  {
    InvHolds(ls);
    var s := Exec(Init(), ls);
    if s.read < |s.path| {
      Leftovers(s.ledger, s.path, s.read, s.screen);
    }
  }

  /** Such a drop does happen: an old relay socket still forwards what its displaced runner
      connection wrote, after the new connection's first frame was shown. */
  lemma LeftoverIsDropped()
    ensures var s := Exec(Init(), [Write, Reconnect, Write, Forward(1, true), Push, Forward(0, true)]);
            s.read < |s.path| && s.path[s.read] == Frame(0, 1) && Next(s, Push).screen == s.screen
  {
    var ls := [Write, Reconnect, Write, Forward(1, true), Push, Forward(0, true)];
    ExecAt(ls, 0);
    ExecAt(ls, 1);
    ExecAt(ls, 2);
    ExecAt(ls, 3);
    ExecAt(ls, 4);
    ExecAt(ls, 5);
    assert ls[..0] == [] && ls[..6] == ls;
    LeftoverRun();
  }

  lemma LeftoverRun()
    ensures var s := Next(Next(Next(Next(Next(Next(Init(), Write), Reconnect), Write), Forward(1, true)), Push), Forward(0, true));
            s.read == 1 && s.path == [Frame(1, 2), Frame(0, 1)] && s.screen.lastSeq == 2
  {
    var a := Next(Init(), Write);
    assert a.wires[0] == [Frame(0, 1)];
    var b := Next(a, Reconnect);
    assert b.wires == [[Frame(0, 1)], []] && b.ledger.outSeq == 1;
    var c := Next(b, Write);
    assert c.wires[1] == [Frame(1, 2)];
    assert c.wires == [[Frame(0, 1)], [Frame(1, 2)]];
    var e := Next(Next(c, Forward(1, true)), Push);
    assert e.wires[0] == [Frame(0, 1)] && e.path == [Frame(1, 2)] && e.read == 1 && e.screen.lastSeq == 2;
  }

  lemma ExecAt(ls: seq<Label>, k: nat)
    requires k < |ls|
    ensures Exec(Init(), ls[..k + 1]) == Next(Exec(Init(), ls[..k]), ls[k])
  {
    assert ls[..k + 1][..k] == ls[..k];
  }

  lemma Leftovers(l: Ledger, path: seq<Frame>, read: nat, v: Screen)
    requires LedgerInv(l) && PathInv(l, path) && read < |path|
    requires v == AcceptFirst(path, read)
    ensures Accept(v, path[read]) == v <==> exists k :: 0 <= k < |v.shown| && v.shown[k].conn > path[read].conn
  {
    var f := path[read];
    var at := ShowsTheRecords(path, read);
    assert Issued(l, f);
    if f.seqno <= v.lastSeq {
      var k := |v.shown| - 1;
      NumberTellsConnection(l, path, at[k], read);
      assert v.shown[k].conn > f.conn;
    } else {
      forall k | 0 <= k < |v.shown| ensures v.shown[k].conn <= f.conn {
        NumberTellsConnection(l, path, at[k], read);
      }
    }
  }

  /** So on one runner connection the viewer shows every frame that reaches it, in order. */
  lemma OneConnectionDropsNothing(ls: seq<Label>)
    requires forall i | 0 <= i < |ls| :: !ls[i].Reconnect?
    ensures var s := Exec(Init(), ls); s.read <= |s.path| && s.screen.shown == s.path[..s.read]
  {
    InvHolds(ls);
    StaysOnZero(ls);
    var s := Exec(Init(), ls);
    InOrderDropsNothing(s.path, s.read);
  }

  lemma {:induction false} StaysOnZero(ls: seq<Label>)
    requires forall i | 0 <= i < |ls| :: !ls[i].Reconnect?
    ensures |Exec(Init(), ls).wires| == 1
  {
    if ls != [] {
      StaysOnZero(ls[..|ls| - 1]);
    }
  }

  /** Numbers shown so far were all issued. */
  lemma LastSeqIssued(ls: seq<Label>)
    ensures var s := Exec(Init(), ls);
            s.screen.lastSeq <= s.ledger.outSeq && |s.wires| == |s.ledger.marks| > 0
  {
    InvHolds(ls);
    var s := Exec(Init(), ls);
    var at := ShowsTheRecords(s.path, s.read);
    if s.screen.shown != [] {
      var f := s.path[at[|s.screen.shown| - 1]];
      assert Issued(s.ledger, f);
      assert s.ledger.starts[|s.ledger.starts| - 1] <= s.ledger.outSeq;
    }
  }

  /** In every run, whatever was lost or displaced before: the next frame of the current
      connection, once it is the first in line everywhere, is shown. */
  lemma {:induction false} NewestIsShown(ls: seq<Label>)
    ensures var s := Exec(Init(), ls);
            s.wires != [] && s.wires[|s.wires| - 1] == [] && s.read == |s.path| ==>
              var c := |s.wires| - 1;
              Next(Next(Next(s, Write), Forward(c, true)), Push).screen.shown
              == s.screen.shown + [Frame(c, s.ledger.outSeq + 1)]
  {
    LastSeqIssued(ls);
    var s := Exec(Init(), ls);
    if s.wires[|s.wires| - 1] == [] && s.read == |s.path| {
      NewestGoesThrough(s, |s.wires| - 1);
    }
  }

  lemma NewestGoesThrough(s: State, c: nat)
    requires c == |s.wires| - 1 && c < |s.ledger.marks| && s.wires[c] == []
    requires s.read == |s.path| && s.screen.lastSeq <= s.ledger.outSeq
    ensures Next(Next(Next(s, Write), Forward(c, true)), Push).screen.shown
         == s.screen.shown + [Frame(c, s.ledger.outSeq + 1)]
  {
    var w := Next(s, Write);
    assert w.wires[c] == [Frame(c, s.ledger.outSeq + 1)];
    var f := Next(w, Forward(c, true));
    assert f.path == s.path + [Frame(c, s.ledger.outSeq + 1)];
  }

  /** Sequence numbers never restart: across reconnects too, a frame written later is higher. */
  lemma {:induction false} SeqNeverRestarts(s: State, ls: seq<Label>)
    ensures Exec(s, ls).ledger.outSeq >= s.ledger.outSeq
    ensures s.wires != [] ==> Next(s, Write).ledger.outSeq > s.ledger.outSeq
  {
    if ls != [] {
      SeqNeverRestarts(s, ls[..|ls| - 1]);
    }
  }

  // ---- Nothing gets lost on the way -------------------------------------------------

  /** The frame that a relay socket forwards on this label, if there is one, and to this viewer. */
  function Forwarded(s: State, l: Label): seq<Frame> {
    if l.Forward? && l.conn < |s.wires| && l.conn < |s.ledger.marks| && s.wires[l.conn] != [] then [s.wires[l.conn][0]] else []
  }

  function ForThisViewer(s: State, l: Label): seq<Frame> {
    if l.Forward? && l.visible then Forwarded(s, l) else []
  }

  /** All frames that relay sockets forwarded in a run, and those of them for this viewer. */
  function AllForwarded(ls: seq<Label>): seq<Frame> {
    if ls == [] then []
    else AllForwarded(ls[..|ls| - 1]) + Forwarded(Exec(Init(), ls[..|ls| - 1]), ls[|ls| - 1])
  }

  function Arrived(s: State, ls: seq<Label>): seq<Frame> {
    if ls == [] then []
    else Arrived(s, ls[..|ls| - 1]) + ForThisViewer(Exec(s, ls[..|ls| - 1]), ls[|ls| - 1])
  }

  /** The frames of one connection. */
  function Of(c: nat, fs: seq<Frame>): seq<Frame> {
    if fs == [] then []
    else Of(c, fs[..|fs| - 1]) + if fs[|fs| - 1].conn == c then [fs[|fs| - 1]] else []
  }

  lemma OfMore(c: nat, fs: seq<Frame>, f: Frame)
    ensures Of(c, fs + [f]) == Of(c, fs) + if f.conn == c then [f] else []
  {
    assert (fs + [f])[..|fs|] == fs;
  }

  ghost predicate Named(s: State) {
    |s.wires| == |s.ledger.marks| > 0 && forall c, i | 0 <= c < |s.wires| && 0 <= i < |s.wires[c]| :: s.wires[c][i].conn == c
  }

  lemma NamedHolds(ls: seq<Label>)
    ensures Named(Exec(Init(), ls))
  {
    InvHolds(ls);
    var s := Exec(Init(), ls);
    forall c, i | 0 <= c < |s.wires| && 0 <= i < |s.wires[c]| ensures s.wires[c][i].conn == c {
      assert WireInv(s.ledger, c, s.wires[c]);
    }
  }

  function WireOf(s: State, c: nat): seq<Frame> { if c < |s.wires| then s.wires[c] else [] }

  lemma OfOne(c: nat, f: Frame)
    ensures Of(c, [f]) == if f.conn == c then [f] else []
  {
    assert [] + [f] == [f];
    OfMore(c, [], f);
  }

  lemma OfAppend(c: nat, fs: seq<Frame>, more: seq<Frame>)
    requires |more| <= 1
    ensures Of(c, fs + more) == Of(c, fs) + Of(c, more)
  {
    if more == [] {
      assert fs + more == fs && Of(c, more) == [];
      assert Of(c, fs) + [] == Of(c, fs);
    } else {
      var f := more[0];
      assert more == [f];
      OfMore(c, fs, f);
      OfOne(c, f);
    }
  }

  lemma WireStep(s: State, l: Label, c: nat)
    requires Named(s)
    ensures Of(c, Forwarded(s, l)) + WireOf(Next(s, l), c) == WireOf(s, c) + Of(c, NewlySent(s, l))
  {
    match l
    case Write => WireWrites(s, c);
    case Forward(_, _) => if Forwarded(s, l) != [] { WireForwards(s, l, c); }
    case _ => assert WireOf(Next(s, l), c) == WireOf(s, c) && [] + WireOf(s, c) == WireOf(s, c) + [];
  }

  lemma WireWrites(s: State, c: nat)
    requires s.wires != []
    ensures WireOf(Next(s, Write), c) == WireOf(s, c) + Of(c, NewlySent(s, Write))
  {
    OfOne(c, NewlySent(s, Write)[0]);
    if c != |s.wires| - 1 { assert WireOf(s, c) + [] == WireOf(s, c); }
  }

  lemma WireForwards(s: State, l: Label, c: nat)
    requires Named(s) && Forwarded(s, l) != []
    ensures Of(c, Forwarded(s, l)) + WireOf(Next(s, l), c) == WireOf(s, c)
  {
    var f := s.wires[l.conn][0];
    assert f.conn == l.conn;
    OfOne(c, f);
    if c == l.conn {
      assert s.wires[c] == [f] + s.wires[c][1..];
    } else {
      assert [] + WireOf(s, c) == WireOf(s, c);
    }
  }

  lemma Shift(a: seq<Frame>, b: seq<Frame>, w: seq<Frame>, v: seq<Frame>, sent: seq<Frame>, n: seq<Frame>)
    requires a + w == sent && b + v == w + n
    ensures (a + b) + v == sent + n
  {
    assert (a + b) + v == a + (b + v);
    assert a + (w + n) == (a + w) + n;
  }

  /** Each relay socket keeps its order and loses nothing: in every run, what was forwarded of a
      connection, then what still waits on its wire, is exactly what was sent on it. */
  lemma {:induction false} WiresLoseNothing(ls: seq<Label>, c: nat)
    ensures Of(c, AllForwarded(ls)) + WireOf(Exec(Init(), ls), c) == Of(c, Sent(ls))
  {
    if ls == [] {
      assert WireOf(Init(), c) == [];
    } else {
      var front, l := ls[..|ls| - 1], ls[|ls| - 1];
      var s := Exec(Init(), front);
      WiresLoseNothing(front, c);
      NamedHolds(front);
      WireStep(s, l, c);
      OfAppend(c, AllForwarded(front), Forwarded(s, l));
      OfAppend(c, Sent(front), NewlySent(s, l));
      Shift(Of(c, AllForwarded(front)), Of(c, Forwarded(s, l)), WireOf(s, c), WireOf(Next(s, l), c),
            Of(c, Sent(front)), Of(c, NewlySent(s, l)));
    }
  }

  /** Between evictions everything forwarded to the viewer reaches its process, in the order in
      which the sockets forwarded it, whatever is queued there. */
  lemma {:induction false} MailboxLosesNothing(s: State, ls: seq<Label>)
    requires forall i | 0 <= i < |ls| :: !ls[i].Evict?
    ensures Exec(s, ls).path == s.path + Arrived(s, ls)
  {
    if ls != [] {
      MailboxLosesNothing(s, ls[..|ls| - 1]);
    }
  }

  /** An eviction cuts off exactly what the browser had not been handed. */
  lemma EvictionCutsTheRest(s: State)
    requires s.read <= |s.path|
    ensures var t := Next(s, Evict);
            t.path == s.path[..s.read] && t.read == s.read && t.screen == s.screen && t.wires == s.wires
  {
  }

  lemma StraightStep(s: State, l: Label, sent: seq<Frame>)
    requires |s.wires| == |s.ledger.marks| == 1 && s.path + s.wires[0] == sent
    requires !l.Reconnect? && !l.Evict? && (l.Forward? ==> l.visible)
    ensures var t := Next(s, l); |t.wires| == |t.ledger.marks| == 1 && t.path + t.wires[0] == sent + NewlySent(s, l)
  {
    var t := Next(s, l);
    match l
    case Write => assert t.wires[0] == s.wires[0] + NewlySent(s, l);
    case Forward(c, _) =>
      if Forwarded(s, l) != [] {
        assert c == 0 && s.wires[0] == [s.wires[0][0]] + t.wires[0];
        assert t.path == s.path + [s.wires[0][0]];
      }
    case _ =>
  }

  /** On one runner connection with one viewer and no eviction nothing is lost anywhere: what
      arrived, then what is still on the wire, is what was sent; so once everything is
      forwarded and handed over, the viewer has shown all of it, in order. */
  lemma {:induction false} StraightThrough(ls: seq<Label>)
    requires forall i | 0 <= i < |ls| :: !ls[i].Reconnect? && !ls[i].Evict? && (ls[i].Forward? ==> ls[i].visible)
    ensures var s := Exec(Init(), ls);
            && |s.wires| == |s.ledger.marks| == 1 && s.path + s.wires[0] == Sent(ls)
  {
    if ls != [] {
      StraightThrough(ls[..|ls| - 1]);
      StraightStep(Exec(Init(), ls[..|ls| - 1]), ls[|ls| - 1], Sent(ls[..|ls| - 1]));
    }
  }

  lemma EverythingIsShown(ls: seq<Label>)
    requires forall i | 0 <= i < |ls| :: !ls[i].Reconnect? && !ls[i].Evict? && (ls[i].Forward? ==> ls[i].visible)
    ensures var s := Exec(Init(), ls);
            s.wires == [[]] && s.read == |s.path| ==> s.screen.shown == Sent(ls)
  {
    StraightThrough(ls);
    OneConnectionDropsNothing(ls);
    var s := Exec(Init(), ls);
    assert s.path + [] == s.path && s.path[..|s.path|] == s.path;
  }
}
