/** From the PTY to a viewer: the pump, reader and sender goroutines of
    runner/internal/runner/runner.go around one bounded queue that drops on overflow
    and is repaired from the ring. One step is one lock region, atomic access or
    channel operation; every interleaving and any number of reconnects is a run. */
module OutputPath {
  import opened Base
  import opened Ring

  type ViewerId = nat

  /** Bytes lo..hi of everything the command ever printed. */
  datatype Span = Span(lo: nat, hi: nat, data: octets)

  /** A queued message: PTY output, another sealed frame, or a plaintext one. */
  datatype Item = Output(span: Span) | Sealed | Text

  /** A repaint goes to one viewer, or to all of them. */
  datatype Target = All | One(id: ViewerId)

  datatype Pump =
    | Reading                                     // blocked on the PTY
    | Ringed(span: Span)                          // written to the ring
    | Seen(span: Span)                            // viewers > 0 was observed
    | Holding(span: Span, conn: Option<nat>)      // enqueue has read o.conn
    | Full(onConn: nat)                           // the select fell through to default

  datatype Reader = Listening | Signalling(to: Target)

  datatype Sender =
    | Selecting
    | Joined(to: Target)                          // took a join
    | Took(item: Item)                            // took a message
    | Repairing(item: Item)                       // swapped dropped from true to false
    | Painted(to: Target, span: Span, current: bool, next: Option<Item>)  // holds a snapshot
    | Writing(item: Item)

  datatype Phase = Down | Serving | Failed | Unset

  /** Everything printed so far, and the ring that keeps its tail. */
  datatype History = History(stream: octets, ring: octets, max: nat)

  /** The connection object and its published pointer; `gen` numbers the connections. */
  datatype Link = Link(phase: Phase, gen: nat, conn: Option<nat>, dropped: bool,
                       queue: seq<Item>, queueCap: nat, join: seq<Target>, joinCap: nat)

  /** What one viewer has been sent. `attached`: the runner has been told it is there.
      `shown`: the spans written to it since its last repaint, None until a repaint
      taken since it attached is written. `joinLost`: since it attached, a full join channel lost a signal
      for it. */
  datatype Watch = Watch(viewer: ViewerId, attached: bool, shown: Option<seq<Span>>, joinLost: bool)

  datatype State = State(out: History, link: Link, viewers: nat,
                         pump: Pump, reader: Reader, sender: Sender, watch: Watch)

  datatype Label =
    | PtyOutput(chunk: octets)
    | PumpTest
    | PumpConn
    | PumpSend
    | PumpFlag
    | OtherSend(item: Item)     // keepalive, resize, control and exit frames share the queue
    | OtherFlag                 // ... and the overflow flag
    | Hello(n: nat)
    | PeerJoin(id: ViewerId, n: nat)
    | PeerLeft(id: ViewerId, n: nat)
    | Signal
    | TakeJoin
    | TakeItem
    | Swap
    | Snapshot
    | WriteRepaint
    | WriteItem
    | Fail
    | Unpublish
    | Reset
    | Connect

  function Init(max: nat, queueCap: nat, joinCap: nat, viewer: ViewerId): State {
    State(History([], [], max), Link(Down, 0, None, false, [], queueCap, [], joinCap), 0,
          Reading, Listening, Selecting, Watch(viewer, false, None, false))
  }

  predicate Visible(s: State, to: Target) { to == All || to == One(s.watch.viewer) }

  /** A snapshot taken before the viewer was announced does not count as its repaint. */
  function Stale(sender: Sender): Sender {
    if sender.Painted? then sender.(current := false) else sender
  }

  function Detach(s: State): State {
    s.(watch := s.watch.(attached := false, shown := None, joinLost := false), sender := Stale(s.sender))
  }

  function Attach(s: State): State {
    if s.link.phase != Serving then s
    else s.(watch := s.watch.(attached := true, shown := None, joinLost := false), sender := Stale(s.sender))
  }

  /** The reader goroutine is between two reads. */
  predicate ReaderRuns(s: State) {
    (s.link.phase == Serving || s.link.phase == Failed) && s.reader.Listening?
  }

  // ---- Pump: pumpOutput and enqueue ------------------------------------------

  function OnPtyOutput(s: State, chunk: octets): State {
    if !s.pump.Reading? || chunk == [] then s
    else s.(out := s.out.(stream := s.out.stream + chunk, ring := Last(s.out.max, s.out.ring + chunk)),
            pump := Ringed(Span(|s.out.stream|, |s.out.stream| + |chunk|, chunk)))
  }

  function OnPumpTest(s: State): State {
    if !s.pump.Ringed? then s
    else s.(pump := if s.viewers > 0 then Seen(s.pump.span) else Reading)
  }

  function OnPumpConn(s: State): State {
    if s.pump.Seen? then s.(pump := Holding(s.pump.span, s.link.conn)) else s
  }

  /** The channels belong to the connection object that was read; a dead one swallows the frame. */
  function OnPumpSend(s: State): State {
    if !s.pump.Holding? then s
    else if s.pump.conn != Some(s.link.gen) then s.(pump := Reading)
    else if |s.link.queue| < s.link.queueCap then s.(link := s.link.(queue := s.link.queue + [Output(s.pump.span)]), pump := Reading)
    else s.(pump := Full(s.link.gen))
  }

  function OnPumpFlag(s: State): State {
    if !s.pump.Full? then s
    else s.(link := s.link.(dropped := s.link.dropped || s.pump.onConn == s.link.gen), pump := Reading)
  }

  function OnOtherSend(s: State, item: Item): State {
    if item.Output? || s.link.conn == None || |s.link.queue| >= s.link.queueCap then s
    else s.(link := s.link.(queue := s.link.queue + [item]))
  }

  // ---- Reader: handleControl --------------------------------------------------

  function OnHello(s: State, n: nat): State {
    if !ReaderRuns(s) then s
    else if n == 0 then Detach(s).(viewers := 0)
    else Attach(s).(viewers := n, reader := Signalling(All))
  }

  function OnPeerJoin(s: State, id: ViewerId, n: nat): State {
    if !ReaderRuns(s) then s
    else
      var told := s.(viewers := if n == 0 then 1 else n, reader := Signalling(One(id)));
      if id == s.watch.viewer then Attach(told) else told
  }

  function OnPeerLeft(s: State, id: ViewerId, n: nat): State {
    if !ReaderRuns(s) then s
    else if n == 0 || id == s.watch.viewer then Detach(s).(viewers := n)
    else s.(viewers := n)
  }

  function OnSignal(s: State): State {
    if !s.reader.Signalling? then s
    else if |s.link.join| < s.link.joinCap then s.(link := s.link.(join := s.link.join + [s.reader.to]), reader := Listening)
    else s.(watch := s.watch.(joinLost := s.watch.joinLost || Visible(s, s.reader.to)), reader := Listening)
  }

  // ---- Sender -------------------------------------------------------------------

  function OnTakeJoin(s: State): State {
    if s.link.phase == Down || !s.sender.Selecting? || s.link.join == [] then s
    else s.(link := s.link.(join := s.link.join[1..]), sender := Joined(s.link.join[0]))
  }

  function OnTakeItem(s: State): State {
    if s.link.phase == Down || !s.sender.Selecting? || s.link.queue == [] then s
    else s.(link := s.link.(queue := s.link.queue[1..]),
            sender := if s.link.queue[0].Text? then Writing(s.link.queue[0]) else Took(s.link.queue[0]))
  }

  function OnSwap(s: State): State {
    if !s.sender.Took? then s
    else if s.link.dropped then s.(link := s.link.(dropped := false), sender := Repairing(s.sender.item))
    else s.(sender := Writing(s.sender.item))
  }

  /** What Ring.Snapshot returns, and where in the stream it lies. */
  function Retained(s: State): Span
    requires |s.out.ring| <= |s.out.stream|
  {
    Span(|s.out.stream| - |s.out.ring| + Leading(s.out.ring), |s.out.stream|, s.out.ring[Leading(s.out.ring)..])
  }

  function OnSnapshot(s: State): State
    requires |s.out.ring| <= |s.out.stream|
  {
    match s.sender
    case Joined(to) => s.(sender := Painted(to, Retained(s), s.watch.attached, None))
    case Repairing(item) => s.(sender := Painted(All, Retained(s), s.watch.attached, Some(item)))
    case _ => s
  }

  /** The repaint begins with a terminal reset, so it replaces what the viewer had. */
  function OnWriteRepaint(s: State): State {
    if !s.sender.Painted? then s
    else
      var after := match s.sender.next case None => Selecting case Some(item) => Writing(item);
      var painted := s.(sender := after);
      if !Visible(s, s.sender.to) then painted
      else if s.sender.current then painted.(watch := s.watch.(shown := Some([s.sender.span])))
      else painted.(watch := s.watch.(shown := None))
  }

  function OnWriteItem(s: State): State {
    if !s.sender.Writing? then s
    else
      var sent := s.(sender := Selecting);
      if s.sender.item.Output? && s.watch.shown.Some?
      then sent.(watch := s.watch.(shown := Some(s.watch.shown.value + [s.sender.item.span])))
      else sent
  }

  // ---- Connection life: serveConn -----------------------------------------------

  function OnConnect(s: State): State {
    if s.link.phase != Down then s
    else s.(link := s.link.(phase := Serving, gen := s.link.gen + 1, conn := Some(s.link.gen + 1),
                            queue := [], join := [], dropped := false),
            reader := Listening, sender := Selecting)
  }

  function Next(s: State, l: Label): State
    requires |s.out.ring| <= |s.out.stream|
  {
    match l
    case PtyOutput(chunk) => OnPtyOutput(s, chunk)
    case PumpTest => OnPumpTest(s)
    case PumpConn => OnPumpConn(s)
    case PumpSend => OnPumpSend(s)
    case PumpFlag => OnPumpFlag(s)
    case OtherSend(item) => OnOtherSend(s, item)
    case OtherFlag => s.(link := s.link.(dropped := true))
    case Hello(n) => OnHello(s, n)
    case PeerJoin(id, n) => OnPeerJoin(s, id, n)
    case PeerLeft(id, n) => OnPeerLeft(s, id, n)
    case Signal => OnSignal(s)
    case TakeJoin => OnTakeJoin(s)
    case TakeItem => OnTakeItem(s)
    case Swap => OnSwap(s)
    case Snapshot => OnSnapshot(s)
    case WriteRepaint => OnWriteRepaint(s)
    case WriteItem => OnWriteItem(s)
    case Fail => if s.link.phase == Serving then Detach(s).(link := s.link.(phase := Failed)) else s
    case Unpublish => if s.link.phase == Failed && s.reader.Listening? then s.(link := s.link.(phase := Unset, conn := None)) else s
    case Reset => if s.link.phase == Unset then s.(link := s.link.(phase := Down), viewers := 0, sender := Selecting) else s
    case Connect => OnConnect(s)
  }

  function Exec(s: State, ls: seq<Label>): State
    requires RingInv(s)
    ensures RingInv(Exec(s, ls))
  {
    if ls == [] then s
    else
      var before := Exec(s, ls[..|ls| - 1]);
      RingStep(before, ls[|ls| - 1]);
      Next(before, ls[|ls| - 1])
  }

  /** The ring is the refinement proved in module Ring. */
  predicate RingInv(s: State) { s.out.ring == Last(s.out.max, s.out.stream) }

  lemma RingStep(s: State, l: Label)
    requires RingInv(s)
    ensures RingInv(Next(s, l))
  {
    match l {
      case PtyOutput(chunk) => LastOfAppend(s.out.max, s.out.stream, chunk);
      case _ =>
    }
  }

  // ---- The invariant ------------------------------------------------------------

  ghost predicate Genuine(stream: octets, p: Span) {
    p.lo <= p.hi <= |stream| && p.data == stream[p.lo..p.hi]
  }

  ghost predicate Covered(spans: seq<Span>, i: int) {
    exists k | 0 <= k < |spans| :: spans[k].lo <= i < spans[k].hi
  }

  function OfItem(item: Item): seq<Span> { if item.Output? then [item.span] else [] }

  function OfQueue(q: seq<Item>): seq<Span> {
    if q == [] then [] else OfItem(q[0]) + OfQueue(q[1..])
  }

  /** Output the sender has taken from the queue but not written yet. */
  function InHand(sender: Sender): seq<Span> {
    match sender
    case Took(item) => OfItem(item)
    case Repairing(item) => OfItem(item)
    case Writing(item) => OfItem(item)
    case Painted(_, _, _, next) => (match next case None => [] case Some(item) => OfItem(item))
    case _ => []
  }

  /** Output the pump will still put on this connection's queue. */
  function InPump(s: State): seq<Span> {
    match s.pump
    case Ringed(p) => [p]
    case Seen(p) => [p]
    case Holding(p, c) => if c == Some(s.link.gen) then [p] else []
    case _ => []
  }

  function Pending(s: State): seq<Span> {
    InHand(s.sender) + OfQueue(s.link.queue) + InPump(s)
  }

  /** A frame was lost, and a broadcast repaint will be taken after the loss. */
  ghost predicate RepairDue(s: State) {
    s.link.dropped || s.pump == Full(s.link.gen) || s.sender.Repairing?
  }

  ghost predicate Repainting(s: State) {
    s.sender.Painted? && s.sender.current && Visible(s, s.sender.to)
  }

  /** Nothing from `spans[0].lo` on is neither written nor on its way. */
  ghost predicate NoGap(s: State, spans: seq<Span>) {
    spans != [] && forall i | spans[0].lo <= i < |s.out.stream| :: Covered(spans + Pending(s), i)
  }

  /** Whatever the ring retains from before `lo` is an orphaned continuation byte. */
  ghost predicate ReachesBack(s: State, lo: nat) {
    forall i | 0 <= i < lo && |s.out.stream| - s.out.max <= i < |s.out.stream| :: IsContinuation(s.out.stream[i])
  }

  ghost predicate AllGenuine(stream: octets, spans: seq<Span>) {
    forall k | 0 <= k < |spans| :: Genuine(stream, spans[k])
  }

  ghost predicate GenuineItem(stream: octets, item: Item) {
    item.Output? ==> Genuine(stream, item.span)
  }

  ghost predicate GenuineQueue(stream: octets, q: seq<Item>) {
    forall k | 0 <= k < |q| :: GenuineItem(stream, q[k])
  }

  ghost predicate GenuineSender(stream: octets, sender: Sender) {
    match sender
    case Took(item) => GenuineItem(stream, item)
    case Repairing(item) => GenuineItem(stream, item)
    case Writing(item) => GenuineItem(stream, item)
    case Painted(_, span, _, next) => Genuine(stream, span) && (next.Some? ==> GenuineItem(stream, next.value))
    case _ => true
  }

  ghost predicate GenuinePump(stream: octets, pump: Pump) {
    pump.Ringed? || pump.Seen? || pump.Holding? ==> Genuine(stream, pump.span)
  }

  /** Every span anywhere carries the bytes of the stream that it names. */
  ghost predicate GenuineInv(s: State) {
    && GenuinePump(s.out.stream, s.pump)
    && GenuineQueue(s.out.stream, s.link.queue)
    && GenuineSender(s.out.stream, s.sender)
    && (s.watch.shown.Some? ==> AllGenuine(s.out.stream, s.watch.shown.value))
  }

  ghost predicate WiredInv(s: State) {
    && (s.watch.attached ==> s.link.phase == Serving && s.viewers > 0)
    && (s.link.phase == Serving ==> s.link.conn == Some(s.link.gen))
    && (s.watch.shown.Some? ==> s.watch.attached)
    && (Repainting(s) ==> s.watch.attached)
    && (s.link.conn.Some? ==> s.link.conn.value <= s.link.gen)
    && (s.pump.Holding? && s.pump.conn.Some? ==> s.pump.conn.value <= s.link.gen)
  }

  ghost predicate GapInv(s: State) {
    && (s.watch.shown.Some? && !RepairDue(s) && !Repainting(s) ==> NoGap(s, s.watch.shown.value))
    && (s.watch.shown.Some? ==> s.watch.shown.value != [] && ReachesBack(s, s.watch.shown.value[0].lo))
    && (Repainting(s) ==> ReachesBack(s, s.sender.span.lo))
    && (Repainting(s) && !RepairDue(s) ==> NoGap(s, [s.sender.span]))
  }

  /** An attached viewer has been repainted, or its repaint is still owed. */
  ghost predicate Owed(s: State) {
    || s.watch.joinLost
    || (s.reader.Signalling? && Visible(s, s.reader.to))
    || (exists k | 0 <= k < |s.link.join| :: Visible(s, s.link.join[k]))
    || (s.sender.Joined? && Visible(s, s.sender.to))
    || Repainting(s)
  }

  ghost predicate OwedInv(s: State) {
    && (s.watch.attached && s.watch.shown.None? ==> Owed(s))
    && (s.watch.attached && s.sender.Painted? && Visible(s, s.sender.to) && !s.sender.current ==>
          s.watch.shown.None? && Owed(s))
  }

  ghost predicate Inv(s: State) {
    RingInv(s) && GenuineInv(s) && WiredInv(s) && GapInv(s) && OwedInv(s)
  }

  lemma OfQueueAppend(q: seq<Item>, item: Item)
    ensures OfQueue(q + [item]) == OfQueue(q) + OfItem(item)
  {
    if q != [] {
      OfQueueAppend(q[1..], item);
      assert (q + [item])[1..] == q[1..] + [item];
    }
  }

  // ---- Every step keeps it ----------------------------------------------------

  lemma GenuineGrows(s: State, chunk: octets)
    requires RingInv(s) && GenuineInv(s)
    ensures GenuineInv(OnPtyOutput(s, chunk))
  {
    forall p: Span | Genuine(s.out.stream, p) ensures Genuine(s.out.stream + chunk, p) {
      assert (s.out.stream + chunk)[p.lo..p.hi] == s.out.stream[p.lo..p.hi];
    }
  }

  lemma GenuinePumped(s: State, l: Label)
    requires RingInv(s) && GenuineInv(s)
    requires l.PumpTest? || l.PumpConn? || l.PumpSend? || l.PumpFlag? || l.OtherSend? || l.OtherFlag?
    ensures GenuineInv(Next(s, l))
  {
  }

  lemma GenuineRead(s: State, l: Label)
    requires RingInv(s) && GenuineInv(s)
    requires l.Hello? || l.PeerJoin? || l.PeerLeft? || l.Signal?
    ensures GenuineInv(Next(s, l))
  {
  }

  lemma GenuineTaken(s: State, l: Label)
    requires RingInv(s) && GenuineInv(s)
    requires l.TakeJoin? || l.TakeItem? || l.Swap?
    ensures GenuineInv(Next(s, l))
  {
  }

  lemma GenuineSnapshot(s: State)
    requires RingInv(s) && GenuineInv(s)
    ensures GenuineInv(OnSnapshot(s))
  {
    RetainedGenuine(s);
  }

  lemma RetainedGenuine(s: State)
    requires RingInv(s)
    ensures Genuine(s.out.stream, Retained(s))
  {
  }

  lemma GenuineWritten(s: State, l: Label)
    requires RingInv(s) && GenuineInv(s)
    requires l.WriteRepaint? || l.WriteItem?
    ensures GenuineInv(Next(s, l))
  {
  }

  lemma GenuineLife(s: State, l: Label)
    requires RingInv(s) && GenuineInv(s)
    requires l.Fail? || l.Unpublish? || l.Reset? || l.Connect?
    ensures GenuineInv(Next(s, l))
  {
  }

  lemma GenuineStep(s: State, l: Label)
    requires RingInv(s) && GenuineInv(s)
    ensures GenuineInv(Next(s, l))
  {
    match l
    case PtyOutput(chunk) => GenuineGrows(s, chunk);
    case Hello(_) => GenuineRead(s, l);
    case PeerJoin(_, _) => GenuineRead(s, l);
    case PeerLeft(_, _) => GenuineRead(s, l);
    case Signal => GenuineRead(s, l);
    case TakeJoin => GenuineTaken(s, l);
    case TakeItem => GenuineTaken(s, l);
    case Swap => GenuineTaken(s, l);
    case Snapshot => GenuineSnapshot(s);
    case WriteRepaint => GenuineWritten(s, l);
    case WriteItem => GenuineWritten(s, l);
    case Fail => GenuineLife(s, l);
    case Unpublish => GenuineLife(s, l);
    case Reset => GenuineLife(s, l);
    case Connect => GenuineLife(s, l);
    case _ => GenuinePumped(s, l);
  }

  lemma WiredStep(s: State, l: Label)
    requires RingInv(s) && WiredInv(s)
    ensures WiredInv(Next(s, l))
  {
  }

  /** A step that only moves spans along, or that loses one and says so, opens no gap. */
  lemma GapKept(s: State, t: State)
    requires GapInv(s) && t.out == s.out && t.watch.shown == s.watch.shown
    requires RepairDue(t) || (!RepairDue(s) && Pending(t) == Pending(s))
    requires Repainting(t) ==> Repainting(s) && t.sender.span == s.sender.span
    requires Repainting(s) ==> Repainting(t)
    ensures GapInv(t)
  {
  }

  lemma GapPump(s: State, l: Label)
    requires RingInv(s) && WiredInv(s) && GapInv(s)
    requires l.PumpTest? || l.PumpConn? || l.PumpSend? || l.PumpFlag? || l.OtherSend? || l.OtherFlag?
    ensures GapInv(Next(s, l))
  {
    var t := Next(s, l);
    if s.watch.attached {
      match l {
        case PumpSend =>
          if t.link.queue != s.link.queue {
            OfQueueAppend(s.link.queue, Output(s.pump.span));
          }
        case OtherSend(item) => OfQueueAppend(s.link.queue, item);
        case _ =>
      }
      GapKept(s, t);
    } else {
      WiredStep(s, l);
    }
  }

  lemma GapPtyOutput(s: State, chunk: octets)
    requires RingInv(s) && GenuineInv(s) && WiredInv(s) && GapInv(s)
    ensures GapInv(OnPtyOutput(s, chunk))
  {
    var t := OnPtyOutput(s, chunk);
    if s.watch.shown.Some? {
      assert Genuine(s.out.stream, s.watch.shown.value[0]);
    }
    if t != s {
      var p := t.pump.span;
      assert Pending(t) == Pending(s) + [p];
      forall spans: seq<Span> | NoGap(s, spans) ensures NoGap(t, spans) {
        assert spans + Pending(t) == spans + Pending(s) + [p];
        forall i | spans[0].lo <= i < |t.out.stream| ensures Covered(spans + Pending(t), i) {
          CoveredAppend(spans + Pending(s), [p], i);
          if i >= |s.out.stream| { assert Covered([p], i) by { assert [p][0].lo <= i < [p][0].hi; } }
        }
      }
    }
  }

  lemma CoveredAppend(a: seq<Span>, b: seq<Span>, i: int)
    ensures Covered(a, i) || Covered(b, i) ==> Covered(a + b, i)
  {
    if Covered(a, i) {
      var k :| 0 <= k < |a| && a[k].lo <= i < a[k].hi;
      assert (a + b)[k] == a[k];
    } else if Covered(b, i) {
      var k :| 0 <= k < |b| && b[k].lo <= i < b[k].hi;
      assert (a + b)[|a| + k] == b[k];
    }
  }

  lemma GapReader(s: State, l: Label)
    requires RingInv(s) && WiredInv(s) && GapInv(s)
    requires l.Hello? || l.PeerJoin? || l.PeerLeft?
    ensures GapInv(Next(s, l))
  {
    ReaderEffect(s, l);
    if Next(s, l).sender == s.sender && Next(s, l).watch == s.watch {
      GapKept(s, Next(s, l));
    } else {
      GapUnpainted(Next(s, l));
    }
  }

  /** Reading about peers moves no output; attaching or detaching starts the viewer over. */
  lemma ReaderEffect(s: State, l: Label)
    requires RingInv(s) && (l.Hello? || l.PeerJoin? || l.PeerLeft?)
    ensures var t := Next(s, l);
            && t.out == s.out && t.link == s.link && t.pump == s.pump
            && ((t.sender == s.sender && t.watch == s.watch) || (t.watch.shown.None? && !Repainting(t)))
  {
  }

  lemma GapSignal(s: State)
    requires GapInv(s)
    ensures GapInv(OnSignal(s))
  {
    assert Pending(OnSignal(s)) == Pending(s);
    GapKept(s, OnSignal(s));
  }

  /** Before its repaint a viewer has nothing that could have a gap. */
  lemma GapUnpainted(s: State)
    requires s.watch.shown.None? && !Repainting(s)
    ensures GapInv(s)
  {
  }

  lemma GapLife(s: State, l: Label)
    requires RingInv(s) && WiredInv(s) && GapInv(s)
    requires l.Fail? || l.Unpublish? || l.Reset? || l.Connect?
    ensures GapInv(Next(s, l))
  {
  }

  /** The snapshot holds everything the ring retains, from its first character on. */
  lemma SnapshotReaches(s: State)
    requires RingInv(s)
    ensures ReachesBack(s, Retained(s).lo)
  {
    var base := |s.out.stream| - |s.out.ring|;
    forall i | 0 <= i < Retained(s).lo && |s.out.stream| - s.out.max <= i < |s.out.stream|
      ensures IsContinuation(s.out.stream[i])
    {
      assert s.out.stream[i] == s.out.ring[i - base];
    }
  }

  lemma SnapshotCovers(p: Span, rest: seq<Span>, i: int)
    requires p.lo <= i < p.hi
    ensures Covered([p] + rest, i)
  {
    assert ([p] + rest)[0].lo <= i < ([p] + rest)[0].hi;
  }

  lemma GapSnapshot(s: State)
    requires RingInv(s) && WiredInv(s) && GapInv(s)
    ensures GapInv(OnSnapshot(s))
  {
    var t := OnSnapshot(s);
    if t != s {
      var p := Retained(s);
      SnapshotReaches(s);
      forall i | p.lo <= i < |s.out.stream| ensures Covered([p] + Pending(t), i) { SnapshotCovers(p, Pending(t), i); }
      assert NoGap(t, [p]);
      assert Pending(t) == Pending(s);
    }
  }

  lemma GapWriteRepaint(s: State)
    requires RingInv(s) && WiredInv(s) && GapInv(s)
    ensures GapInv(OnWriteRepaint(s))
  {
    assert Pending(OnWriteRepaint(s)) == Pending(s);
  }

  lemma GapWriteItem(s: State)
    requires RingInv(s) && WiredInv(s) && GapInv(s)
    ensures GapInv(OnWriteItem(s))
  {
    var t := OnWriteItem(s);
    if s.sender.Writing? && s.watch.shown.Some? {
      assert t.watch.shown.value + Pending(t) == s.watch.shown.value + Pending(s);
    }
  }

  lemma GapTake(s: State, l: Label)
    requires RingInv(s) && WiredInv(s) && GapInv(s)
    requires l.TakeJoin? || l.TakeItem? || l.Swap?
    ensures GapInv(Next(s, l))
  {
    GapKept(s, Next(s, l));
  }

  lemma GapStep(s: State, l: Label)
    requires RingInv(s) && GenuineInv(s) && WiredInv(s) && GapInv(s)
    ensures GapInv(Next(s, l))
  {
    match l
    case PtyOutput(chunk) => GapPtyOutput(s, chunk);
    case Hello(_) => GapReader(s, l);
    case PeerJoin(_, _) => GapReader(s, l);
    case PeerLeft(_, _) => GapReader(s, l);
    case Signal => GapSignal(s);
    case TakeJoin => GapTake(s, l);
    case TakeItem => GapTake(s, l);
    case Swap => GapTake(s, l);
    case Snapshot => GapSnapshot(s);
    case WriteRepaint => GapWriteRepaint(s);
    case WriteItem => GapWriteItem(s);
    case Fail => GapLife(s, l);
    case Unpublish => GapLife(s, l);
    case Reset => GapLife(s, l);
    case Connect => GapLife(s, l);
    case _ => GapPump(s, l);
  }

  lemma OwedStep(s: State, l: Label)
    requires RingInv(s) && WiredInv(s) && OwedInv(s)
    ensures OwedInv(Next(s, l))
  {
    var t := Next(s, l);
    match l {
      case Signal =>
        if t.link.join != s.link.join {
          assert t.link.join[|s.link.join|] == s.reader.to;
          forall k | 0 <= k < |s.link.join| ensures t.link.join[k] == s.link.join[k] {}
        }
      case TakeJoin =>
        forall k | 1 <= k < |s.link.join| ensures t != s ==> t.link.join[k - 1] == s.link.join[k] {}
      case _ =>
    }
  }

  lemma {:induction false} InvHolds(s: State, ls: seq<Label>)
    requires Inv(s)
    ensures Inv(Exec(s, ls))
  {
    if ls != [] {
      var before := Exec(s, ls[..|ls| - 1]);
      var l := ls[|ls| - 1];
      InvHolds(s, ls[..|ls| - 1]);
      RingStep(before, l);
      GenuineStep(before, l);
      WiredStep(before, l);
      GapStep(before, l);
      OwedStep(before, l);
    }
  }

  // ---- In order -------------------------------------------------------------------

  ghost predicate Ordered(spans: seq<Span>) {
    forall i, j | 0 <= i < j < |spans| :: spans[i].hi <= spans[j].lo
  }

  ghost predicate Ahead(a: seq<Span>, b: seq<Span>) {
    forall i, j | 0 <= i < |a| && 0 <= j < |b| :: a[i].hi <= b[j].lo
  }

  ghost predicate Within(a: seq<Span>, n: nat) { forall i | 0 <= i < |a| :: a[i].hi <= n }

  /** Four stretches of output, one behind the other: written, in hand, queued, in the pump. */
  ghost predicate InLine(w: seq<Span>, h: seq<Span>, q: seq<Span>, m: seq<Span>, n: nat) {
    && Ordered(w) && Ordered(h) && Ordered(q) && Ordered(m)
    && Ahead(w, h) && Ahead(w, q) && Ahead(w, m) && Ahead(h, q) && Ahead(h, m) && Ahead(q, m)
    && Within(w, n) && Within(h, n) && Within(q, n) && Within(m, n)
  }

  /** What was written to the viewer after its repaint. */
  function AfterRepaint(w: Watch): seq<Span> {
    if w.shown.Some? && w.shown.value != [] then w.shown.value[1..] else []
  }

  ghost predicate OrderInv(s: State) {
    InLine(AfterRepaint(s.watch), InHand(s.sender), OfQueue(s.link.queue), InPump(s), |s.out.stream|)
  }

  lemma Fewer(w: seq<Span>, h: seq<Span>, q: seq<Span>, m: seq<Span>, n: nat,
              w': seq<Span>, h': seq<Span>, q': seq<Span>, m': seq<Span>)
    requires InLine(w, h, q, m, n)
    requires (w' == w || w' == []) && (h' == h || h' == []) && (q' == q || q' == []) && (m' == m || m' == [])
    ensures InLine(w', h', q', m', n)
  {
  }

  lemma NextChunk(w: seq<Span>, h: seq<Span>, q: seq<Span>, p: Span, n: nat)
    requires InLine(w, h, q, [], n) && p.lo == n <= p.hi
    ensures InLine(w, h, q, [p], p.hi)
  {
  }

  lemma Queued(w: seq<Span>, h: seq<Span>, q: seq<Span>, m: seq<Span>, n: nat)
    requires InLine(w, h, q, m, n)
    ensures InLine(w, h, q + m, [], n)
  {
  }

  lemma Taken(w: seq<Span>, h: seq<Span>, q: seq<Span>, m: seq<Span>, n: nat)
    requires InLine(w, [], h + q, m, n)
    ensures InLine(w, h, q, m, n)
  {
    forall i | 0 <= i < |h| ensures (h + q)[i] == h[i] {}
    forall i | 0 <= i < |q| ensures (h + q)[|h| + i] == q[i] {}
  }

  lemma Shown(w: seq<Span>, h: seq<Span>, q: seq<Span>, m: seq<Span>, n: nat)
    requires InLine(w, h, q, m, n)
    ensures InLine(w + h, [], q, m, n)
  {
  }

  lemma OrderPump(s: State, l: Label)
    requires RingInv(s) && OrderInv(s)
    requires l.PumpTest? || l.PumpConn? || l.PumpFlag? || l.OtherFlag?
    ensures OrderInv(Next(s, l))
  {
    var t := Next(s, l);
    Fewer(AfterRepaint(s.watch), InHand(s.sender), OfQueue(s.link.queue), InPump(s), |s.out.stream|,
          AfterRepaint(s.watch), InHand(s.sender), OfQueue(s.link.queue), InPump(t));
  }

  lemma OrderPumpSend(s: State)
    requires OrderInv(s)
    ensures OrderInv(OnPumpSend(s))
  {
    var t := OnPumpSend(s);
    var w, h, q, m, n := AfterRepaint(s.watch), InHand(s.sender), OfQueue(s.link.queue), InPump(s), |s.out.stream|;
    if t.link.queue != s.link.queue {
      OfQueueAppend(s.link.queue, Output(s.pump.span));
      Queued(w, h, q, m, n);
    } else {
      Fewer(w, h, q, m, n, w, h, q, InPump(t));
    }
  }

  lemma OrderOtherSend(s: State, item: Item)
    requires OrderInv(s)
    ensures OrderInv(OnOtherSend(s, item))
  {
    if !item.Output? {
      OfQueueOther(s.link.queue, item);
      OrderFrame(s, OnOtherSend(s, item));
    }
  }

  lemma OrderFrame(s: State, t: State)
    requires OrderInv(s) && t.out == s.out && t.watch == s.watch && t.sender == s.sender && t.pump == s.pump
    requires t.link.gen == s.link.gen && OfQueue(t.link.queue) == OfQueue(s.link.queue)
    ensures OrderInv(t)
  {
  }

  lemma OfQueueOther(q: seq<Item>, item: Item)
    requires !item.Output?
    ensures OfQueue(q + [item]) == OfQueue(q)
  {
    OfQueueAppend(q, item);
    assert OfQueue(q) + [] == OfQueue(q);
  }

  lemma OrderPtyOutput(s: State, chunk: octets)
    requires OrderInv(s)
    ensures OrderInv(OnPtyOutput(s, chunk))
  {
    var t := OnPtyOutput(s, chunk);
    if t != s {
      NextChunk(AfterRepaint(s.watch), InHand(s.sender), OfQueue(s.link.queue), t.pump.span, |s.out.stream|);
    }
  }

  lemma OrderTakeItem(s: State)
    requires OrderInv(s)
    ensures OrderInv(OnTakeItem(s))
  {
    var t := OnTakeItem(s);
    if t != s {
      assert OfQueue(s.link.queue) == InHand(t.sender) + OfQueue(t.link.queue);
      Taken(AfterRepaint(s.watch), InHand(t.sender), OfQueue(t.link.queue), InPump(s), |s.out.stream|);
    }
  }

  lemma OrderWriteItem(s: State)
    requires OrderInv(s)
    ensures OrderInv(OnWriteItem(s))
  {
    if s.sender.Writing? {
      var t := OnWriteItem(s);
      var w, h, q, m, n := AfterRepaint(s.watch), InHand(s.sender), OfQueue(s.link.queue), InPump(s), |s.out.stream|;
      WriteItemMoves(s);
      Shown(w, h, q, m, n);
      Fewer(w, h, q, m, n, AfterRepaint(s.watch), [], q, m);
    }
  }

  lemma WriteItemMoves(s: State)
    requires s.sender.Writing?
    ensures var w, t := AfterRepaint(s.watch), OnWriteItem(s);
            && (AfterRepaint(t.watch) == w + InHand(s.sender) || AfterRepaint(t.watch) == w)
            && InHand(t.sender) == [] && InPump(t) == InPump(s) && t.link == s.link && t.out == s.out
  {
    if s.watch.shown.Some? && s.watch.shown.value != [] && s.sender.item.Output? {
      var spans, p := s.watch.shown.value, s.sender.item.span;
      assert (spans + [p])[1..] == spans[1..] + [p];
    }
  }

  /** The steps that lose output, start the viewer over or move nothing. */
  lemma OrderRest(s: State, l: Label)
    requires RingInv(s) && WiredInv(s) && OrderInv(s)
    requires l.Hello? || l.PeerJoin? || l.PeerLeft? || l.Signal? || l.TakeJoin? || l.Swap? || l.Snapshot?
          || l.WriteRepaint? || l.Fail? || l.Unpublish? || l.Reset? || l.Connect?
    ensures OrderInv(Next(s, l))
  {
    var t := Next(s, l);
    RestKeeps(s, l);
    Fewer(AfterRepaint(s.watch), InHand(s.sender), OfQueue(s.link.queue), InPump(s), |s.out.stream|,
          AfterRepaint(t.watch), InHand(t.sender), OfQueue(t.link.queue), InPump(t));
  }

  lemma RestKeeps(s: State, l: Label)
    requires RingInv(s) && WiredInv(s)
    requires l.Hello? || l.PeerJoin? || l.PeerLeft? || l.Signal? || l.TakeJoin? || l.Swap? || l.Snapshot?
          || l.WriteRepaint? || l.Fail? || l.Unpublish? || l.Reset? || l.Connect?
    ensures var t := Next(s, l);
            && t.out == s.out && AfterRepaint(t.watch) in {AfterRepaint(s.watch), []}
            && InHand(t.sender) in {InHand(s.sender), []} && OfQueue(t.link.queue) in {OfQueue(s.link.queue), []}
            && InPump(t) in {InPump(s), []}
  {
    if s.sender.Painted? { assert [s.sender.span][1..] == []; }
  }

  lemma OrderStep(s: State, l: Label)
    requires RingInv(s) && WiredInv(s) && OrderInv(s)
    ensures OrderInv(Next(s, l))
  {
    match l
    case PtyOutput(chunk) => OrderPtyOutput(s, chunk);
    case PumpTest => OrderPump(s, l);
    case PumpConn => OrderPump(s, l);
    case PumpSend => OrderPumpSend(s);
    case PumpFlag => OrderPump(s, l);
    case OtherSend(item) => OrderOtherSend(s, item);
    case OtherFlag => OrderPump(s, l);
    case TakeItem => OrderTakeItem(s);
    case WriteItem => OrderWriteItem(s);
    case _ => OrderRest(s, l);
  }

  lemma {:induction false} OrderHolds(s: State, ls: seq<Label>)
    requires Inv(s) && OrderInv(s)
    ensures OrderInv(Exec(s, ls))
  {
    if ls != [] {
      OrderHolds(s, ls[..|ls| - 1]);
      InvHolds(s, ls[..|ls| - 1]);
      OrderStep(Exec(s, ls[..|ls| - 1]), ls[|ls| - 1]);
    }
  }

  /** In every interleaving, what a viewer is sent after its repaint, and what is still on its
      way, is in the order it was printed, and nothing in it is there twice. */
  lemma {:induction false} SentInOrder(max: nat, queueCap: nat, joinCap: nat, viewer: ViewerId, ls: seq<Label>)
    ensures var s := Exec(Init(max, queueCap, joinCap, viewer), ls);
            s.watch.shown.Some? ==> s.watch.shown.value != [] && Ordered(s.watch.shown.value[1..] + Pending(s))
  {
    InvHolds(Init(max, queueCap, joinCap, viewer), ls);
    OrderHolds(Init(max, queueCap, joinCap, viewer), ls);
    var s := Exec(Init(max, queueCap, joinCap, viewer), ls);
    OneLine(AfterRepaint(s.watch), InHand(s.sender), OfQueue(s.link.queue), InPump(s), |s.out.stream|);
  }

  lemma OneLine(w: seq<Span>, h: seq<Span>, q: seq<Span>, m: seq<Span>, n: nat)
    requires InLine(w, h, q, m, n)
    ensures Ordered(w + (h + q + m))
  {
    Merged(w, h, q, m, n);
    Queued(w, [], h + q, m, n);
    Shown(w, h + q + m, [], [], n);
  }

  lemma Merged(w: seq<Span>, h: seq<Span>, q: seq<Span>, m: seq<Span>, n: nat)
    requires InLine(w, h, q, m, n)
    ensures InLine(w, [], h + q, m, n)
  {
  }

  // ---- No gap ---------------------------------------------------------------------

  /** The queue is empty, no drop is unrepaired, nobody is in the middle of a frame. */
  predicate Drained(s: State) {
    s.link.queue == [] && !s.link.dropped && s.pump.Reading? && s.sender.Selecting?
  }

  /** The bytes on the viewer's side: position i of the stream was sent since its last repaint. */
  ghost predicate Delivered(s: State, i: nat)
    requires s.watch.shown.Some? && i < |s.out.stream|
  {
    exists k | 0 <= k < |s.watch.shown.value| ::
      var p := s.watch.shown.value[k];
      p.lo <= i < p.hi && |p.data| == p.hi - p.lo && p.data[i - p.lo] == s.out.stream[i]
  }

  /** In every interleaving, on every connection: once a repaint taken after the viewer was
      announced has been written to it, then whenever the path is drained, every byte that
      a snapshot of the ring would return has been sent to the viewer since its last repaint. */
  lemma {:induction false} NoGapWhenDrained(max: nat, queueCap: nat, joinCap: nat, viewer: ViewerId, ls: seq<Label>)
    ensures var s := Exec(Init(max, queueCap, joinCap, viewer), ls);
            && RingInv(s)
            && (s.watch.shown.Some? && Drained(s) ==>
                  forall i | |s.out.stream| - |s.out.ring| + Leading(s.out.ring) <= i < |s.out.stream| :: Delivered(s, i))
  {
    InvHolds(Init(max, queueCap, joinCap, viewer), ls);
    var s := Exec(Init(max, queueCap, joinCap, viewer), ls);
    if s.watch.shown.Some? && Drained(s) {
      forall i | |s.out.stream| - |s.out.ring| + Leading(s.out.ring) <= i < |s.out.stream| ensures Delivered(s, i) {
        DrainedDelivers(s, i);
      }
    }
  }

  lemma DrainedDelivers(s: State, i: nat)
    requires RingInv(s) && GenuineInv(s) && GapInv(s) && s.watch.shown.Some? && Drained(s)
    requires |s.out.stream| - |s.out.ring| + Leading(s.out.ring) <= i < |s.out.stream|
    ensures Delivered(s, i)
  {
    var spans := s.watch.shown.value;
    assert spans + Pending(s) == spans;
    WindowReached(s);
    assert Covered(spans, i);
    var k :| 0 <= k < |spans| && spans[k].lo <= i < spans[k].hi;
    assert Genuine(s.out.stream, spans[k]);
  }

  lemma WindowReached(s: State)
    requires RingInv(s) && GapInv(s) && s.watch.shown.Some?
    requires Leading(s.out.ring) < |s.out.ring|
    ensures s.watch.shown.value[0].lo <= |s.out.stream| - |s.out.ring| + Leading(s.out.ring)
  {
  }

  // ---- Nobody is forgotten --------------------------------------------------------

  /** The runner reads, on a connection that serves, that the viewer is there. */
  predicate Announces(s: State, l: Label) {
    && s.link.phase == Serving && s.reader.Listening?
    && ((l.PeerJoin? && l.id == s.watch.viewer) || (l.Hello? && l.n > 0))
  }

  /** The connection fails, or the runner reads that the viewer, or every viewer, is gone. */
  predicate Withdraws(s: State, l: Label) {
    || (l.Fail? && s.link.phase == Serving)
    || (ReaderRuns(s) && ((l.Hello? && l.n == 0) || (l.PeerLeft? && (l.n == 0 || l.id == s.watch.viewer))))
  }

  /** A signal meant for the viewer finds the join channel full. */
  predicate LosesSignal(s: State, l: Label) {
    l.Signal? && s.reader.Signalling? && Visible(s, s.reader.to) && |s.link.join| >= s.link.joinCap
  }

  /** In this run the viewer was announced and since then neither withdrawn nor its signal lost. */
  ghost predicate Heard(s: State, ls: seq<Label>)
    requires RingInv(s)
  {
    exists k: nat | k < |ls| :: AnnouncesAt(s, ls, k) && Undisturbed(s, ls, k + 1)
  }

  ghost predicate Undisturbed(s: State, ls: seq<Label>, from: nat)
    requires RingInv(s)
  {
    forall j: nat | from <= j < |ls| :: !DisturbsAt(s, ls, j)
  }

  /** The step at k, and the state before it. */
  ghost predicate DisturbsAt(s: State, ls: seq<Label>, k: nat)
    requires RingInv(s) && k < |ls|
  {
    Withdraws(Exec(s, ls[..k]), ls[k]) || LosesSignal(Exec(s, ls[..k]), ls[k])
  }

  ghost predicate AnnouncesAt(s: State, ls: seq<Label>, k: nat)
    requires RingInv(s) && k < |ls|
  {
    Announces(Exec(s, ls[..k]), ls[k])
  }

  lemma SamePrefix(s: State, ls: seq<Label>, k: nat)
    requires RingInv(s) && k < |ls| - 1
    ensures DisturbsAt(s, ls, k) == DisturbsAt(s, ls[..|ls| - 1], k)
    ensures AnnouncesAt(s, ls, k) == AnnouncesAt(s, ls[..|ls| - 1], k)
  {
    assert ls[..|ls| - 1][..k] == ls[..k];
  }

  lemma UndisturbedBefore(s: State, ls: seq<Label>, from: nat)
    requires RingInv(s) && from < |ls| && Undisturbed(s, ls, from)
    ensures Undisturbed(s, ls[..|ls| - 1], from)
  {
    var front := ls[..|ls| - 1];
    forall k: nat | from <= k < |front| ensures !DisturbsAt(s, front, k) { SamePrefix(s, ls, k); }
  }

  lemma UndisturbedAfter(s: State, ls: seq<Label>, from: nat)
    requires RingInv(s) && from < |ls| && Undisturbed(s, ls[..|ls| - 1], from) && !DisturbsAt(s, ls, |ls| - 1)
    ensures Undisturbed(s, ls, from)
  {
    forall k: nat | from <= k < |ls| - 1 ensures !DisturbsAt(s, ls, k) { SamePrefix(s, ls, k); }
  }

  lemma UndisturbedMore(s: State, ls: seq<Label>, from: nat)
    requires RingInv(s) && from < |ls|
    ensures Undisturbed(s, ls, from) <==> Undisturbed(s, ls[..|ls| - 1], from) && !DisturbsAt(s, ls, |ls| - 1)
  {
    var n: nat := |ls| - 1;
    if Undisturbed(s, ls, from) {
      UndisturbedBefore(s, ls, from);
      assert !DisturbsAt(s, ls, n);
    } else if Undisturbed(s, ls[..n], from) && !DisturbsAt(s, ls, n) {
      UndisturbedAfter(s, ls, from);
    }
  }

  lemma HeardMore(s: State, ls: seq<Label>)
    requires RingInv(s) && ls != []
    ensures Heard(s, ls) <==> AnnouncesAt(s, ls, |ls| - 1) || (Heard(s, ls[..|ls| - 1]) && !DisturbsAt(s, ls, |ls| - 1))
  {
    var n: nat := |ls| - 1;
    if AnnouncesAt(s, ls, n) {
      assert Undisturbed(s, ls, n + 1);
    } else if Heard(s, ls) {
      var k: nat :| k < |ls| && AnnouncesAt(s, ls, k) && Undisturbed(s, ls, k + 1);
      SamePrefix(s, ls, k);
      UndisturbedMore(s, ls, k + 1);
    } else if Heard(s, ls[..n]) && !DisturbsAt(s, ls, n) {
      var k: nat :| k < n && AnnouncesAt(s, ls[..n], k) && Undisturbed(s, ls[..n], k + 1);
      SamePrefix(s, ls, k);
      UndisturbedMore(s, ls, k + 1);
    }
  }

  lemma HeardStep(s: State, l: Label)
    requires RingInv(s) && WiredInv(s)
    ensures var t := Next(s, l);
            (t.watch.attached && !t.watch.joinLost)
            <==> Announces(s, l) || (s.watch.attached && !s.watch.joinLost && !Withdraws(s, l) && !LosesSignal(s, l))
  {
  }

  /** What the model keeps about the viewer is what the run did to it. */
  lemma {:induction false} HeardMeaning(max: nat, queueCap: nat, joinCap: nat, viewer: ViewerId, ls: seq<Label>)
    ensures var first := Init(max, queueCap, joinCap, viewer);
            var s := Exec(first, ls);
            s.watch.attached && !s.watch.joinLost <==> Heard(first, ls)
  {
    var first := Init(max, queueCap, joinCap, viewer);
    if ls != [] {
      HeardMeaning(max, queueCap, joinCap, viewer, ls[..|ls| - 1]);
      InvHolds(first, ls[..|ls| - 1]);
      HeardMore(first, ls);
      HeardStep(Exec(first, ls[..|ls| - 1]), ls[|ls| - 1]);
    }
  }

  /** No viewer is left out: one that was announced in the run, by its own join or by a hello that
      counts viewers, and since then neither withdrawn nor let down by a full join channel, has
      been repainted as soon as nothing is signalled, waiting in the channel or being painted. */
  lemma {:induction false} NoViewerForgotten(max: nat, queueCap: nat, joinCap: nat, viewer: ViewerId, ls: seq<Label>)
    ensures var first := Init(max, queueCap, joinCap, viewer);
            var s := Exec(first, ls);
            Heard(first, ls) && s.sender.Selecting? && s.link.join == [] && s.reader.Listening? ==> s.watch.shown.Some?
  {
    HeardMeaning(max, queueCap, joinCap, viewer, ls);
    InvHolds(Init(max, queueCap, joinCap, viewer), ls);
  }

  /** The runner may start on a signal at once. */
  predicate Ready(s: State) {
    s.link.phase == Serving && s.reader.Listening? && s.sender.Selecting? && s.link.join == [] && s.link.joinCap > 0
  }

  /** From the reading of a join or hello to the repaint on the wire. */
  function Answer(s: State): State
    requires |s.out.ring| <= |s.out.stream|
  {
    OnWriteRepaint(OnSnapshot(OnTakeJoin(OnSignal(s))))
  }

  /** A viewer that joins, or that a hello counts, is repainted with the whole retained history
      five steps later, and the runner counts it. */
  lemma JoinRepaints(s: State, id: ViewerId, n: nat)
    requires Inv(s) && Ready(s)
    ensures var t := Answer(OnPeerJoin(s, s.watch.viewer, n));
            t.watch.shown == Some([Retained(s)]) && t.viewers == (if n == 0 then 1 else n) && Ready(t)
            && t.link.queue == s.link.queue
    ensures n > 0 ==> var t := Answer(OnHello(s, n));
                      t.watch.shown == Some([Retained(s)]) && t.viewers == n && Ready(t) && t.link.queue == s.link.queue
    ensures id != s.watch.viewer ==> var t := Answer(OnPeerJoin(s, id, n));
                                     t.watch == s.watch && t.viewers == (if n == 0 then 1 else n) && Ready(t)
  {
  }

  /** While nobody watches nothing is queued, but the ring still keeps what is printed. */
  lemma NobodyWatching(s: State, chunk: octets)
    requires RingInv(s) && s.viewers == 0 && s.pump.Reading? && chunk != []
    ensures var t := OnPumpTest(OnPtyOutput(s, chunk));
            t.pump.Reading? && t.link == s.link && t.out.stream == s.out.stream + chunk && RingInv(t)
  {
    LastOfAppend(s.out.max, s.out.stream, chunk);
  }

  /** A departure sets the count that was read; it ends the sending to that viewer, or to every
      viewer if it was the last, and disturbs no other. */
  lemma LeftMeaning(s: State, id: ViewerId, n: nat)
    requires RingInv(s) && WiredInv(s) && ReaderRuns(s)
    ensures var t := Next(s, PeerLeft(id, n));
            && t.viewers == n && t.link == s.link && t.pump == s.pump && t.out == s.out
            && (id == s.watch.viewer || n == 0 ==> !t.watch.attached && t.watch.shown == None)
            && (id != s.watch.viewer && n > 0 ==> t.watch == s.watch && t.sender == s.sender)
  {
  }

  /** A connection that fails gives way to a fresh one, with empty channels and nothing dropped;
      what the command printed stays, and a viewer that the new hello counts is repainted. */
  lemma ReconnectRepaints(s: State, n: nat)
    requires Inv(s) && s.link.phase == Serving && s.reader.Listening? && s.link.joinCap > 0 && n > 0
    ensures var down := Next(Next(Next(s, Fail), Unpublish), Reset);
            var up := Next(down, Connect);
            && down.link.phase == Down && down.link.conn == None && down.viewers == 0 && !down.watch.attached
            && Ready(up) && up.link.gen == s.link.gen + 1 && up.link.conn == Some(s.link.gen + 1)
            && up.link.queue == [] && !up.link.dropped && up.out == s.out
            && Answer(OnHello(up, n)).watch.shown == Some([Retained(s)])
  {
  }

  /** A frame other than output takes its place at the end of the queue of the connection that
      is up, and a full queue or no connection leaves everything as it is. */
  lemma OtherMeaning(s: State, item: Item)
    requires RingInv(s) && !item.Output?
    ensures var t := Next(s, OtherSend(item));
            && t.out == s.out && t.watch == s.watch && t.sender == s.sender && t.pump == s.pump
            && t.link.queue == s.link.queue + (if s.link.conn.Some? && |s.link.queue| < s.link.queueCap then [item] else [])
    ensures Next(s, OtherFlag).link.dropped && Next(s, OtherFlag).link.queue == s.link.queue
  {
  }

  /** The path moves output at all: with room in the queue and nothing in between, a chunk the
      command prints is written to every viewer that was up to date, whole and once, and the
      path is drained again. */
  lemma QuietPathDelivers(s: State, chunk: octets)
    requires Inv(s) && s.watch.shown.Some? && Drained(s) && s.link.queueCap > 0 && chunk != []
    ensures var t := OnWriteItem(OnSwap(OnTakeItem(OnPumpSend(OnPumpConn(OnPumpTest(OnPtyOutput(s, chunk)))))));
            && t.watch.shown == Some(s.watch.shown.value + [Span(|s.out.stream|, |s.out.stream| + |chunk|, chunk)])
            && Drained(t) && t.out.stream == s.out.stream + chunk
  {
  }

  /** The flag is looked at only when a sealed message is taken; then the whole retained
      history is painted before that message, whatever was lost before. */
  lemma DropIsRepaired(s: State)
    requires Inv(s) && s.link.phase != Down && s.sender.Selecting? && s.link.dropped
    requires s.link.queue != [] && !s.link.queue[0].Text?
    ensures var t := OnWriteRepaint(OnSnapshot(OnSwap(OnTakeItem(s))));
            && !t.link.dropped && t.link.queue == s.link.queue[1..]
            && t.sender == Writing(s.link.queue[0])
            && t.watch.shown == if s.watch.attached then Some([Retained(s)]) else None
  {
  }
}
