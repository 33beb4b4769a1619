/** The manager of backend WebSocket connections: concurrent calls of `Connect`, `SendFrame`, `Close` and
    `CloseAll`, and one receiver per connection. A step touches one mutex-protected region or one channel
    operation; `m.mu`, `closedMu` and `writeMu` are never held together, so a region is one step. */
module WsManager {
  import opened Totals
  import opened Wrappers

  type Id = string

  // Message types, as the WebSocket library numbers them
  const TEXT_MESSAGE: int := 1
  const BINARY_MESSAGE: int := 2
  const PING_MESSAGE: int := 9
  const PONG_MESSAGE: int := 10

  datatype Opcode = OpText | OpBinary | OpPing | OpPong

  datatype Incoming = Incoming(messageType: int, data: seq<bv8>)

  datatype ReadError = CloseError(code: int, text: string) | Broken(text: string)

  /** What the event handler is told. */
  datatype Event = Frame(opcode: Opcode, data: seq<bv8>) | Close(code: int, reason: string) | Error(reason: string)

  datatype Wire = CloseFrame(code: int) | Data

  /** A Connect call and, once it has dialled, its connection object and receiver. */
  datatype Pc =
    | Dialing | Refused | Dialled | Stored
    | Top | Reading | Got(m: Incoming) | Failed(e: ReadError) | Exiting | Removed | Finished

  datatype Conn = Conn(
    id: Id,
    pc: Pc,
    closedBy: Option<nat>,     // the closer that set `closed`
    cancelled: bool,           // its own context
    socketClosed: bool,
    late: bool,                // stored when the parent context was already cancelled
    read: seq<Incoming>,       // every message its receiver has read
    failure: Option<ReadError>, // what its last read failed with
    events: seq<Event>,        // every event it has raised
    wire: seq<Wire>)           // what was written to its socket by SendFrame and closeConnection

  /** A call of `Close`, or of `CloseAll` when `all`. */
  datatype Closer = Closer(all: bool, code: int, todo: seq<nat>, pc: CloserPc)

  datatype CloserPc =
    | Idle | Snapshot | Next
    | Claim(c: nat) | Cancel(c: nat) | SendClose(c: nat) | Shut(c: nat) | Delete(c: nat)
    | Waiting | Returned

  datatype State = State(
    conns: seq<Conn>,
    table: map<Id, nat>,
    shutdown: bool,            // the parent context is cancelled
    wg: nat,
    closers: seq<Closer>)

  const GOING_AWAY: int := 1001

  // ---------------------------------------------------------------------------------------------
  // Steps of a Connect call and its receiver
  // ---------------------------------------------------------------------------------------------

  datatype ConnAct =
    | DialFails | DialOk | Store | Start
    | CheckContext | Read(m: Incoming) | ReadFails(e: ReadError) | Forward | Report | Remove | Finish
    | SendData

  /** What a step does beside changing its own connection: the table entry, the wait group. */
  datatype Effect = Silent | PutEntry | DropEntry | Add | Done

  datatype ConnMove = Stay | Go(conn: Conn, effect: Effect)

  function OpcodeOf(messageType: int): Option<Opcode> {
    if messageType == TEXT_MESSAGE then Some(OpText)
    else if messageType == BINARY_MESSAGE then Some(OpBinary)
    else if messageType == PING_MESSAGE then Some(OpPing)
    else if messageType == PONG_MESSAGE then Some(OpPong)
    else None
  }

  /** The frame a message becomes, or none for an unknown type. */
  function FrameOf(m: Incoming): seq<Event> {
    var opcode := OpcodeOf(m.messageType);
    if opcode.None? then [] else [Frame(opcode.value, m.data)]
  }

  function EventOf(e: ReadError): Event {
    match e
    case CloseError(code, text) => Close(code, text)
    case Broken(text) => Error(text)
  }

  function MoveConn(c: Conn, shutdown: bool, a: ConnAct): ConnMove {
    var contextDone := c.cancelled || shutdown;
    match (a, c.pc)
    case (DialFails, Dialing) => Go(c.(pc := Refused), Silent)
    case (DialOk, Dialing) => Go(c.(pc := Dialled), Silent)
    case (Store, Dialled) => Go(c.(pc := Stored, late := shutdown), PutEntry)
    case (Start, Stored) => Go(c.(pc := Top), Add)
    case (CheckContext, Top) => Go(c.(pc := if contextDone then Exiting else Reading), Silent)
    case (Read(m), Reading) => Go(c.(pc := Got(m), read := c.read + [m]), Silent)
    case (ReadFails(e), Reading) => Go(c.(pc := Failed(e), failure := Some(e)), Silent)
    case (Forward, Got(m)) => Go(c.(pc := Top, events := c.events + FrameOf(m)), Silent)
    case (Report, Failed(e)) =>
      Go(if contextDone then c.(pc := Exiting) else c.(pc := Exiting, events := c.events + [EventOf(e)]), Silent)
    case (Remove, Exiting) => Go(c.(pc := Removed), DropEntry)
    case (Finish, Removed) => Go(c.(pc := Finished), Done)
    case (SendData, _) =>
      if c.pc.Dialing? || c.pc.Refused? || c.pc.Dialled? then Stay else Go(c.(wire := c.wire + [Data]), Silent)
    case _ => Stay
  }

  // ---------------------------------------------------------------------------------------------
  // Steps of a closer
  // ---------------------------------------------------------------------------------------------

  datatype CloserAct =
    | StartClose(id: Id, closeCode: int) | StartCloseAll
    | TakeSnapshot(order: seq<nat>) | PickNext
    | SetClosed | CancelContext | WriteFrame | CloseSocket | DeleteEntry
    | Return

  datatype CloserMove = Rest | Act(closer: Closer, effect: CloserEffect)

  datatype CloserEffect =
    | Nothing | CancelParent
    | Mark(c: nat) | CancelConn(c: nat) | Write(c: nat) | CloseConn(c: nat) | Forget(c: nat)

  /** Map iteration visits every entry once, in any order. */
  ghost predicate IsSnapshot(table: map<Id, nat>, order: seq<nat>) {
    && (forall c :: c in order <==> exists id :: id in table && table[id] == c)
    && (forall i, j :: 0 <= i < j < |order| ==> order[i] != order[j])
  }

  ghost function MoveCloser(s: State, i: nat, a: CloserAct): CloserMove
    requires i < |s.closers|
  {
    var k := s.closers[i];
    match (a, k.pc)
    case (StartClose(id, code), Idle) =>
      if id in s.table then Act(Closer(false, code, [s.table[id]], Next), Nothing) else Act(k, Nothing)
    case (StartCloseAll, Idle) => Act(Closer(true, GOING_AWAY, [], Snapshot), CancelParent)
    case (TakeSnapshot(order), Snapshot) =>
      if IsSnapshot(s.table, order) then Act(k.(todo := order, pc := Next), Nothing) else Rest
    case (PickNext, Next) =>
      if k.todo != [] then Act(k.(todo := k.todo[1..], pc := Claim(k.todo[0])), Nothing)
      else Act(k.(pc := if k.all then Waiting else Idle), Nothing)
    case (SetClosed, Claim(c)) =>
      if c < |s.conns| && s.conns[c].closedBy.None? then Act(k.(pc := Cancel(c)), Mark(c))
      else Act(k.(pc := Next), Nothing)
    case (CancelContext, Cancel(c)) => Act(k.(pc := SendClose(c)), CancelConn(c))
    case (WriteFrame, SendClose(c)) => Act(k.(pc := Shut(c)), Write(c))
    case (CloseSocket, Shut(c)) => Act(k.(pc := Delete(c)), CloseConn(c))
    case (DeleteEntry, Delete(c)) => Act(k.(pc := Next), Forget(c))
    case (Return, Waiting) => if s.wg == 0 then Act(k.(pc := Returned), Nothing) else Rest
    case _ => Rest
  }

  // ---------------------------------------------------------------------------------------------
  // The machine
  // ---------------------------------------------------------------------------------------------

  datatype Action = StartConnect(id: Id) | ByConn(c: nat, a: ConnAct) | ByCloser(i: nat, b: CloserAct)

  ghost predicate Enabled(s: State, a: Action) {
    match a
    case StartConnect(id) => id !in s.table
    case ByConn(c, act) => c < |s.conns| && MoveConn(s.conns[c], s.shutdown, act).Go?
    case ByCloser(i, act) => i < |s.closers| && MoveCloser(s, i, act).Act?
  }

  function Perform(s: State, c: nat, e: Effect): State
    requires c < |s.conns|
  {
    match e
    case Silent => s
    case PutEntry => s.(table := s.table[s.conns[c].id := c])
    case DropEntry => s.(table := s.table - {s.conns[c].id})
    case Add => s.(wg := s.wg + 1)
    case Done => if s.wg > 0 then s.(wg := s.wg - 1) else s
  }

  /** What a closer does to its connection. */
  function Touch(x: Conn, i: nat, code: int, e: CloserEffect): Conn {
    match e
    case Mark(_) => x.(closedBy := Some(i))
    case CancelConn(_) => x.(cancelled := true)
    case Write(_) => x.(wire := x.wire + [CloseFrame(code)])
    case CloseConn(_) => x.(socketClosed := true)
    case _ => x
  }

  function PerformClose(s: State, i: nat, code: int, e: CloserEffect): State {
    if e.Nothing? then s
    else if e.CancelParent? then s.(shutdown := true)
    else if e.c >= |s.conns| then s
    else if e.Forget? then s.(table := s.table - {s.conns[e.c].id})
    else s.(conns := s.conns[e.c := Touch(s.conns[e.c], i, code, e)])
  }

  ghost function Apply(s: State, a: Action): State
    requires Enabled(s, a)
  {
    match a
    case StartConnect(id) => s.(conns := s.conns + [Conn(id, Dialing, None, false, false, false, [], None, [], [])])
    case ByConn(c, act) =>
      var m := MoveConn(s.conns[c], s.shutdown, act);
      Perform(s.(conns := s.conns[c := m.conn]), c, m.effect)
    case ByCloser(i, act) =>
      var m := MoveCloser(s, i, act);
      PerformClose(s.(closers := s.closers[i := m.closer]), i, m.closer.code, m.effect)
  }

  ghost predicate Begin(s: State) {
    && s == State([], map[], false, 0, s.closers)
    && forall i :: 0 <= i < |s.closers| ==> s.closers[i].pc.Idle? && s.closers[i].todo == []
  }

  /** No connection id is passed to Connect twice. */
  ghost predicate FreshId(s: State, a: Action) {
    a.StartConnect? ==> forall c :: 0 <= c < |s.conns| ==> s.conns[c].id != a.id
  }

  ghost predicate FreshRun(s: State, actions: seq<Action>)
    decreases |actions|
  {
    actions != [] ==> Enabled(s, actions[0]) && FreshId(s, actions[0]) && FreshRun(Apply(s, actions[0]), actions[1..])
  }

  ghost function Run(s: State, actions: seq<Action>): Option<State>
    decreases |actions|
  {
    if actions == [] then Some(s)
    else if !Enabled(s, actions[0]) then None
    else Run(Apply(s, actions[0]), actions[1..])
  }

  // ---------------------------------------------------------------------------------------------
  // One connection's events, in any run
  // ---------------------------------------------------------------------------------------------

  function Frames(read: seq<Incoming>): seq<Event> {
    if read == [] then [] else Frames(read[..|read| - 1]) + FrameOf(read[|read| - 1])
  }

  lemma FramesSnoc(read: seq<Incoming>, m: Incoming)
    ensures Frames(read + [m]) == Frames(read) + FrameOf(m)
  {
    assert (read + [m])[..|read|] == read;
  }

  predicate Leaving(pc: Pc) {
    pc.Exiting? || pc.Removed? || pc.Finished?
  }

  /** While the receiver is in its loop the events are the frames of the messages read, the one just got possibly
      still on its way; once it leaves, these and at most the close or error its last read failed with. */
  ghost predicate TraceInv(c: Conn) {
    if c.pc.Got? then
      && c.failure.None? && c.read != [] && c.read[|c.read| - 1] == c.pc.m
      && c.events == Frames(c.read[..|c.read| - 1])
    else
      && (c.failure == if c.pc.Failed? then Some(c.pc.e) else if Leaving(c.pc) then c.failure else None)
      && (|| c.events == Frames(c.read)
          || (Leaving(c.pc) && c.failure.Some? && c.events == Frames(c.read) + [EventOf(c.failure.value)]))
  }

  lemma ForwardKeepsTrace(c: Conn)
    requires c.pc.Got? && TraceInv(c)
    ensures c.events + FrameOf(c.pc.m) == Frames(c.read)
  {
    assert c.read == c.read[..|c.read| - 1] + [c.pc.m];
    FramesSnoc(c.read[..|c.read| - 1], c.pc.m);
  }

  /** What each step does to the messages read and the events raised. */
  lemma TraceTable(c: Conn, shutdown: bool, a: ConnAct)
    requires MoveConn(c, shutdown, a).Go?
    ensures var x := MoveConn(c, shutdown, a).conn;
            if a.Forward? then
              && c.pc.Got? && x.pc.Top? && x.read == c.read && x.failure == c.failure
              && x.events == c.events + FrameOf(c.pc.m)
            else if a.Read? then
              && c.pc.Reading? && x.pc == Got(a.m) && x.read == c.read + [a.m] && x.failure == c.failure
              && x.events == c.events
            else if a.ReadFails? then
              c.pc.Reading? && x.pc == Failed(a.e) && x.read == c.read && x.failure == Some(a.e) && x.events == c.events
            else if a.Report? then
              && c.pc.Failed? && x.pc.Exiting? && x.read == c.read && x.failure == c.failure
              && x.events == (if c.cancelled || shutdown then c.events else c.events + [EventOf(c.pc.e)])
            else
              && x.read == c.read && x.events == c.events && x.failure == c.failure
              && (Leaving(x.pc) ==> Leaving(c.pc) || (c.pc.Top? && (c.cancelled || shutdown)))
              && (Leaving(c.pc) ==> Leaving(x.pc))
              && (c.pc.Got? || c.pc.Failed? || x.pc.Got? || x.pc.Failed? ==> x.pc == c.pc)
  {
  }

  lemma MoveKeepsTrace(c: Conn, shutdown: bool, a: ConnAct)
    requires TraceInv(c) && MoveConn(c, shutdown, a).Go?
    ensures TraceInv(MoveConn(c, shutdown, a).conn)
  {
    var x := MoveConn(c, shutdown, a).conn;
    TraceTable(c, shutdown, a);
    hide MoveConn, FrameOf, EventOf, Frames;
    if a.Forward? {
      ForwardKeepsTrace(c);
    } else if a.Read? {
      assert x.read[..|x.read| - 1] == c.read;
    } else if a.Report? {
      assert x.events == Frames(x.read) || x.events == Frames(x.read) + [EventOf(c.pc.e)];
    }
  }

  /** A receiver leaves without a word only when its context is done. */
  ghost predicate LeftOk(c: Conn, shutdown: bool) {
    Leaving(c.pc) && !c.cancelled && !shutdown ==>
      c.failure.Some? && c.events == Frames(c.read) + [EventOf(c.failure.value)]
  }

  lemma MoveKeepsLeft(c: Conn, shutdown: bool, a: ConnAct)
    requires TraceInv(c) && LeftOk(c, shutdown) && MoveConn(c, shutdown, a).Go?
    ensures LeftOk(MoveConn(c, shutdown, a).conn, shutdown)
  {
    TraceTable(c, shutdown, a);
    ConnTable(c, shutdown, a);
    hide MoveConn, FrameOf, EventOf, Frames;
  }

  ghost predicate AllLeft(s: State) {
    forall c :: 0 <= c < |s.conns| ==> LeftOk(s.conns[c], s.shutdown)
  }

  lemma CloserLeft(s: State, i: nat, act: CloserAct)
    requires AllLeft(s) && Enabled(s, ByCloser(i, act))
    ensures AllLeft(Apply(s, ByCloser(i, act)))
  {
    var s' := Apply(s, ByCloser(i, act));
    forall d: nat | d < |s.conns|
      ensures |s'.conns| == |s.conns| && LeftOk(s'.conns[d], s'.shutdown)
    {
      assert LeftOk(s.conns[d], s.shutdown);
      ClosedFields(s, i, act, d);
      hide MoveCloser, Apply, EventOf, Frames;
    }
    hide MoveCloser, LeftOk;
  }

  lemma LeftStep(s: State, a: Action)
    requires AllTraces(s) && AllLeft(s) && Enabled(s, a)
    ensures AllLeft(Apply(s, a))
  {
    match a
    case StartConnect(_) =>
    case ByConn(c, act) => MoveKeepsLeft(s.conns[c], s.shutdown, act); hide MoveConn, LeftOk, TraceInv;
    case ByCloser(i, act) => CloserLeft(s, i, act);
  }

  ghost predicate AllTraces(s: State) {
    forall c :: 0 <= c < |s.conns| ==> TraceInv(s.conns[c])
  }

  lemma TraceTouched(x: Conn, i: nat, code: int, e: CloserEffect)
    requires TraceInv(x)
    ensures TraceInv(Touch(x, i, code, e))
  {
  }

  lemma CloserTraces(s: State, i: nat, act: CloserAct)
    requires AllTraces(s) && Enabled(s, ByCloser(i, act))
    ensures AllTraces(Apply(s, ByCloser(i, act)))
  {
    var m := MoveCloser(s, i, act);
    hide MoveCloser, TraceInv, Touch;
    forall c | 0 <= c < |s.conns|
      ensures TraceInv(Apply(s, ByCloser(i, act)).conns[c])
    {
      TraceTouched(s.conns[c], i, m.closer.code, m.effect);
    }
  }

  lemma ConnTraces(s: State, c: nat, act: ConnAct)
    requires AllTraces(s) && Enabled(s, ByConn(c, act))
    ensures AllTraces(Apply(s, ByConn(c, act)))
  {
    MoveKeepsTrace(s.conns[c], s.shutdown, act);
    hide MoveConn, TraceInv;
  }

  lemma TraceStep(s: State, a: Action)
    requires AllTraces(s) && Enabled(s, a)
    ensures AllTraces(Apply(s, a))
  {
    match a
    case StartConnect(id) =>
      assert TraceInv(Conn(id, Dialing, None, false, false, false, [], None, [], []));
    case ByConn(c, act) => ConnTraces(s, c, act);
    case ByCloser(i, act) => CloserTraces(s, i, act);
  }

  lemma {:induction false} TraceRun(s: State, actions: seq<Action>)
    requires AllTraces(s) && AllLeft(s) && Run(s, actions).Some?
    ensures AllTraces(Run(s, actions).value) && AllLeft(Run(s, actions).value)
    decreases |actions|
  {
    hide Apply, Enabled, AllTraces, AllLeft;
    if actions != [] {
      TraceStep(s, actions[0]);
      LeftStep(s, actions[0]);
      TraceRun(Apply(s, actions[0]), actions[1..]);
    }
  }

  // What the handler is told, in numbers

  /** The number of a frame's kind on the wire (section 11.8 of RFC 6455). */
  ghost function WireNumber(o: Opcode): int {
    match o
    case OpText => 0x1
    case OpBinary => 0x2
    case OpPing => 0x9
    case OpPong => 0xA
  }

  /** The frames among the events, by number and data. */
  ghost function Forwarded(events: seq<Event>): seq<(int, seq<bv8>)> {
    if events == [] then []
    else
      var e := events[|events| - 1];
      Forwarded(events[..|events| - 1]) + if e.Frame? then [(WireNumber(e.opcode), e.data)] else []
  }

  /** The messages of the four known types, by type and data. */
  ghost function Known(read: seq<Incoming>): seq<(int, seq<bv8>)> {
    if read == [] then []
    else
      var m := read[|read| - 1];
      Known(read[..|read| - 1]) + if m.messageType in {1, 2, 9, 10} then [(m.messageType, m.data)] else []
  }

  ghost predicate OnlyFrames(events: seq<Event>) {
    forall e :: e in events ==> e.Frame?
  }

  lemma ForwardedSnoc(events: seq<Event>, e: Event)
    ensures Forwarded(events + [e]) == Forwarded(events) + if e.Frame? then [(WireNumber(e.opcode), e.data)] else []
  {
    assert (events + [e])[..|events|] == events;
  }

  /** A message's frame carries its type and data; an unknown type has none. */
  lemma FrameIsMessage(m: Incoming)
    ensures var frame := FrameOf(m);
            if m.messageType in {1, 2, 9, 10}
            then && |frame| == 1 && frame[0].Frame?
                 && WireNumber(frame[0].opcode) == m.messageType && frame[0].data == m.data
            else frame == []
  {
  }

  lemma {:induction false} FramesAreForwarded(read: seq<Incoming>)
    ensures Forwarded(Frames(read)) == Known(read) && OnlyFrames(Frames(read))
  {
    if read != [] {
      var n := |read| - 1;
      var (before, frame) := (Frames(read[..n]), FrameOf(read[n]));
      FramesAreForwarded(read[..n]);
      FrameIsMessage(read[n]);
      if frame != [] {
        ForwardedSnoc(before, frame[0]);
        assert frame == [frame[0]];
      } else {
        assert before + frame == before;
      }
      hide FrameOf, Forwarded, WireNumber;
    }
  }

  /** The event reports the failed read: a close with its code and reason, anything else as an error. */
  ghost predicate Reports(event: Event, e: ReadError) {
    match (event, e)
    case (Close(code, reason), CloseError(got, text)) => code == got && reason == text
    case (Error(reason), Broken(text)) => reason == text
    case _ => false
  }

  lemma EndingForwardsNothing(events: seq<Event>, e: ReadError)
    requires OnlyFrames(events)
    ensures Forwarded(events + [EventOf(e)]) == Forwarded(events) && Reports(EventOf(e), e)
    ensures (events + [EventOf(e)])[..|events|] == events
  {
  }

  /** The messages the receiver has dealt with: all it has read but one it has just got. */
  function Handled(c: Conn): seq<Incoming> {
    if c.pc.Got? && c.read != [] then c.read[..|c.read| - 1] else c.read
  }

  /** The events end with the report of the receiver's failed read, its only close or error. */
  ghost predicate EndsReported(c: Conn) {
    && c.failure.Some? && c.events != []
    && OnlyFrames(c.events[..|c.events| - 1]) && Reports(c.events[|c.events| - 1], c.failure.value)
  }

  lemma TraceMeaning(x: Conn, shutdown: bool)
    requires TraceInv(x) && LeftOk(x, shutdown)
    ensures Forwarded(x.events) == Known(Handled(x))
    ensures OnlyFrames(x.events) || (Leaving(x.pc) && EndsReported(x))
    ensures Leaving(x.pc) && !x.cancelled && !shutdown ==> EndsReported(x)
  {
    hide FrameOf, Frames, Known, Forwarded, EventOf, Reports;
    FramesAreForwarded(Handled(x));
    if x.failure.Some? {
      assert Handled(x) == x.read;
      hide OnlyFrames;
      EndingForwardsNothing(Frames(x.read), x.failure.value);
    }
  }

  /** Event trace: in every run, for every connection, the frames the handler was told of are, by number and data and
      in order, the messages dealt with, those of unknown types dropped. There is at most one close or error, which
      comes last and reports the receiver's failed read; and a receiver that leaves while neither its own context nor
      the parent is cancelled has raised it. */
  lemma {:induction false} EventTrace(s: State, actions: seq<Action>, c: nat)
    requires Begin(s) && Run(s, actions).Some? && c < |Run(s, actions).value.conns|
    ensures var r := Run(s, actions).value;
            var x := r.conns[c];
            && Forwarded(x.events) == Known(Handled(x))
            && (OnlyFrames(x.events) || (Leaving(x.pc) && EndsReported(x)))
            && (Leaving(x.pc) && !x.cancelled && !r.shutdown ==> EndsReported(x))
  {
    TraceRun(s, actions);
    var r := Run(s, actions).value;
    assert TraceInv(r.conns[c]) && LeftOk(r.conns[c], r.shutdown);
    TraceMeaning(r.conns[c], r.shutdown);
    hide *;
  }

  /** A connection's receiver that has raised its close or error, or is leaving, raises nothing more. */
  lemma LeavingIsSilent(c: Conn, shutdown: bool, a: ConnAct)
    requires Leaving(c.pc) && MoveConn(c, shutdown, a).Go?
    ensures var x := MoveConn(c, shutdown, a).conn; Leaving(x.pc) && x.events == c.events && x.read == c.read
  {
  }

  // ---------------------------------------------------------------------------------------------
  // One close frame, in any run
  // ---------------------------------------------------------------------------------------------

  function CloseFrames(wire: seq<Wire>): nat {
    if wire == [] then 0 else CloseFrames(wire[..|wire| - 1]) + (if wire[|wire| - 1].CloseFrame? then 1 else 0)
  }

  lemma CloseFramesSnoc(wire: seq<Wire>, w: Wire)
    ensures CloseFrames(wire + [w]) == CloseFrames(wire) + (if w.CloseFrame? then 1 else 0)
  {
    assert (wire + [w])[..|wire|] == wire;
  }

  /** The closer is past marking `c` closed and has not removed it yet. */
  predicate Owns(k: Closer, c: nat) {
    k.pc == Cancel(c) || k.pc == SendClose(c) || k.pc == Shut(c) || k.pc == Delete(c)
  }

  predicate BeforeFrame(k: Closer, c: nat) {
    k.pc == Cancel(c) || k.pc == SendClose(c)
  }

  predicate BeforeShut(k: Closer, c: nat) {
    BeforeFrame(k, c) || k.pc == Shut(c)
  }

  /** Whoever closes a connection is the one that marked it. */
  ghost predicate OwnerInv(s: State) {
    forall i: nat, c: nat {:trigger Owns(s.closers[i], c)} :: i < |s.closers| && Owns(s.closers[i], c) ==>
      c < |s.conns| && s.conns[c].closedBy == Some(i)
  }

  ghost predicate FrameInv(s: State) {
    forall c :: 0 <= c < |s.conns| ==> FrameOk(s, c)
  }

  ghost predicate FrameOk(s: State, c: nat)
    requires c < |s.conns|
  {
    var x := s.conns[c];
    && CloseFrames(x.wire) <= 1
    && (x.closedBy.None? ==> CloseFrames(x.wire) == 0)
    && (x.closedBy.Some? && x.closedBy.value < |s.closers| && BeforeFrame(s.closers[x.closedBy.value], c) ==>
          CloseFrames(x.wire) == 0)
  }

  // What the tables of moves say

  lemma ConnTable(c: Conn, shutdown: bool, a: ConnAct)
    requires MoveConn(c, shutdown, a).Go?
    ensures var (x, e) := (MoveConn(c, shutdown, a).conn, MoveConn(c, shutdown, a).effect);
            && x.id == c.id && x.closedBy == c.closedBy
            && x.cancelled == c.cancelled && x.socketClosed == c.socketClosed
            && (e.PutEntry? <==> c.pc.Dialled?) && (e.PutEntry? ==> x.pc.Stored? && x.late == shutdown)
            && (!e.PutEntry? ==> x.late == c.late)
            && (e.DropEntry? <==> c.pc.Exiting? && x.pc.Removed?)
            && (e.Add? <==> !Running(c.pc) && Running(x.pc)) && (e.Done? <==> Running(c.pc) && !Running(x.pc))
            && (Present(x.pc) ==> Present(c.pc) || e.PutEntry?)
            && (Present(c.pc) && !Present(x.pc) ==> e.DropEntry?)
  {
  }

  lemma ConnWire(c: Conn, shutdown: bool, a: ConnAct)
    requires MoveConn(c, shutdown, a).Go?
    ensures CloseFrames(MoveConn(c, shutdown, a).conn.wire) == CloseFrames(c.wire)
  {
    var x := MoveConn(c, shutdown, a).conn;
    assert x.wire == if a.SendData? then c.wire + [Data] else c.wire;
    hide MoveConn, CloseFrames;
    if a.SendData? {
      CloseFramesSnoc(c.wire, Data);
    }
  }

  /** Stored and not yet removed by its own receiver. */
  predicate Present(pc: Pc) {
    pc.Stored? || InLoop(pc)
  }

  /** The receiver is running and has not yet taken its entry out. */
  predicate InLoop(pc: Pc) {
    pc.Top? || pc.Reading? || pc.Got? || pc.Failed? || pc.Exiting?
  }

  /** Counted by the wait group. */
  predicate Running(pc: Pc) {
    InLoop(pc) || pc.Removed?
  }

  lemma CloserTable(s: State, i: nat, a: CloserAct)
    requires i < |s.closers| && MoveCloser(s, i, a).Act?
    ensures var (k, m) := (s.closers[i], MoveCloser(s, i, a));
            && (forall c: nat :: Owns(m.closer, c) ==> m.effect == Mark(c) || Owns(k, c))
            && (forall c: nat :: m.effect == Mark(c) ==>
                  k.pc == Claim(c) && m.closer.pc == Cancel(c) && c < |s.conns| && s.conns[c].closedBy.None?)
            && (forall c: nat :: BeforeFrame(m.closer, c) ==> m.effect == Mark(c) || BeforeFrame(k, c))
            && (forall c: nat :: m.effect == Write(c) ==> BeforeFrame(k, c) && !BeforeFrame(m.closer, c))
            && (forall c: nat :: BeforeShut(m.closer, c) ==> m.effect == Mark(c) || BeforeShut(k, c))
            && (forall c: nat :: BeforeShut(k, c) && !BeforeShut(m.closer, c) ==> m.effect == CloseConn(c))
            && (forall c: nat :: m.effect == CancelConn(c) || m.effect == CloseConn(c) || m.effect == Forget(c) ==>
                  Owns(k, c))
  {
  }

  /** What a closer's step leaves of each connection, field by field. */
  lemma ClosedFields(s: State, i: nat, act: CloserAct, d: nat)
    requires Enabled(s, ByCloser(i, act)) && d < |s.conns|
    ensures var (m, s') := (MoveCloser(s, i, act), Apply(s, ByCloser(i, act)));
            && |s'.conns| == |s.conns| && s'.closers == s.closers[i := m.closer]
            && s'.shutdown == (s.shutdown || m.effect.CancelParent?)
            && var (x, y) := (s.conns[d], s'.conns[d]);
               && y.id == x.id && y.pc == x.pc && y.late == x.late && y.read == x.read && y.events == x.events
               && y.closedBy == (if m.effect == Mark(d) then Some(i) else x.closedBy)
               && y.wire == (if m.effect == Write(d) then x.wire + [CloseFrame(m.closer.code)] else x.wire)
               && y.socketClosed == (m.effect == CloseConn(d) || x.socketClosed)
  {
    hide MoveCloser;
  }

  lemma ConnOwner(s: State, c: nat, act: ConnAct)
    requires OwnerInv(s) && Enabled(s, ByConn(c, act))
    ensures OwnerInv(Apply(s, ByConn(c, act)))
  {
    var s' := Apply(s, ByConn(c, act));
    ConnTable(s.conns[c], s.shutdown, act);
    hide MoveConn;
    forall j: nat, d: nat | j < |s'.closers| && Owns(s'.closers[j], d)
      ensures d < |s'.conns| && s'.conns[d].closedBy == Some(j)
    {
      assert Owns(s.closers[j], d);
    }
  }

  lemma CloserOwner(s: State, i: nat, act: CloserAct)
    requires OwnerInv(s) && Enabled(s, ByCloser(i, act))
    ensures OwnerInv(Apply(s, ByCloser(i, act)))
  {
    var s' := Apply(s, ByCloser(i, act));
    CloserTable(s, i, act);
    hide MoveCloser;
    forall j: nat, d: nat | j < |s'.closers| && Owns(s'.closers[j], d)
      ensures d < |s'.conns| && s'.conns[d].closedBy == Some(j)
    {
      assert j == i || Owns(s.closers[j], d);
    }
  }

  lemma OwnerStep(s: State, a: Action)
    requires OwnerInv(s) && Enabled(s, a)
    ensures OwnerInv(Apply(s, a))
  {
    match a
    case StartConnect(_) =>
      var s' := Apply(s, a);
      forall j: nat, d: nat | j < |s'.closers| && Owns(s'.closers[j], d)
        ensures d < |s'.conns| && s'.conns[d].closedBy == Some(j)
      {
        assert Owns(s.closers[j], d);
      }
    case ByConn(c, act) => ConnOwner(s, c, act);
    case ByCloser(i, act) => CloserOwner(s, i, act);
  }

  lemma ConnFrame(s: State, c: nat, act: ConnAct)
    requires FrameInv(s) && Enabled(s, ByConn(c, act))
    ensures FrameInv(Apply(s, ByConn(c, act)))
  {
    ConnTable(s.conns[c], s.shutdown, act);
    ConnWire(s.conns[c], s.shutdown, act);
    hide MoveConn;
    var s' := Apply(s, ByConn(c, act));
    forall d | 0 <= d < |s'.conns|
      ensures FrameOk(s', d)
    {
      assert FrameOk(s, d);
    }
  }

  lemma CloserFrameOk(s: State, i: nat, act: CloserAct, d: nat)
    requires OwnerInv(s) && Enabled(s, ByCloser(i, act)) && d < |s.conns| && FrameOk(s, d)
    ensures FrameOk(Apply(s, ByCloser(i, act)), d)
  {
    hide MoveCloser, Apply, CloseFrames;
    var (k, m) := (s.closers[i], MoveCloser(s, i, act));
    assert && (BeforeFrame(m.closer, d) ==> m.effect == Mark(d) || BeforeFrame(k, d))
           && (m.effect == Write(d) ==> BeforeFrame(k, d) && !BeforeFrame(m.closer, d))
           && (m.effect == Mark(d) ==> s.conns[d].closedBy.None?) by {
      CloserTable(s, i, act);
    }
    assert BeforeFrame(k, d) ==> s.conns[d].closedBy == Some(i) by {
      assert BeforeFrame(k, d) ==> Owns(k, d);
    }
    ClosedFields(s, i, act, d);
    hide OwnerInv, BeforeFrame, Enabled;
    var (x, y, s') := (s.conns[d], Apply(s, ByCloser(i, act)).conns[d], Apply(s, ByCloser(i, act)));
    if m.effect == Write(d) {
      CloseFramesSnoc(x.wire, CloseFrame(m.closer.code));
      assert x.closedBy == y.closedBy == Some(i) && s'.closers[i] == m.closer;
    } else if m.effect == Mark(d) {
      assert y.wire == x.wire && CloseFrames(x.wire) == 0;
    } else {
      assert y.wire == x.wire && y.closedBy == x.closedBy;
      assert forall j :: 0 <= j < |s.closers| && j != i ==> s'.closers[j] == s.closers[j];
    }
  }

  lemma CloserFrame(s: State, i: nat, act: CloserAct)
    requires OwnerInv(s) && FrameInv(s) && Enabled(s, ByCloser(i, act))
    ensures FrameInv(Apply(s, ByCloser(i, act)))
  {
    var s' := Apply(s, ByCloser(i, act));
    hide MoveCloser, FrameOk;
    forall d: nat | d < |s'.conns|
      ensures FrameOk(s', d)
    {
      CloserFrameOk(s, i, act, d);
    }
  }

  lemma FrameStep(s: State, a: Action)
    requires OwnerInv(s) && FrameInv(s) && Enabled(s, a)
    ensures FrameInv(Apply(s, a))
  {
    match a
    case StartConnect(_) =>
      var s' := Apply(s, a);
      forall d | 0 <= d < |s'.conns|
        ensures FrameOk(s', d)
      {
        if d < |s.conns| {
          assert FrameOk(s, d);
        }
      }
    case ByConn(c, act) => ConnFrame(s, c, act);
    case ByCloser(i, act) => CloserFrame(s, i, act);
  }

  lemma {:induction false} FrameRun(s: State, actions: seq<Action>)
    requires OwnerInv(s) && FrameInv(s) && Run(s, actions).Some?
    ensures OwnerInv(Run(s, actions).value) && FrameInv(Run(s, actions).value)
    decreases |actions|
  {
    hide Apply, Enabled, FrameInv, OwnerInv;
    if actions != [] {
      OwnerStep(s, actions[0]);
      FrameStep(s, actions[0]);
      FrameRun(Apply(s, actions[0]), actions[1..]);
    }
  }

  lemma NobodyOwns(s: State)
    requires Begin(s)
    ensures OwnerInv(s)
  {
    forall i: nat, c: nat | i < |s.closers|
      ensures !Owns(s.closers[i], c)
    {
      assert s.closers[i].pc.Idle?;
    }
  }

  /** However closers race, at most one close frame is written to a connection's socket. */
  lemma {:induction false} OneCloseFrame(s: State, actions: seq<Action>, c: nat)
    requires Begin(s) && Run(s, actions).Some? && c < |Run(s, actions).value.conns|
    ensures CloseFrames(Run(s, actions).value.conns[c].wire) <= 1
  {
    NobodyOwns(s);
    FrameRun(s, actions);
    assert FrameOk(Run(s, actions).value, c);
  }

  // ---------------------------------------------------------------------------------------------
  // No orphan receivers, when no id is used twice
  // ---------------------------------------------------------------------------------------------

  ghost predicate IdsInv(s: State) {
    forall c, d :: 0 <= c < d < |s.conns| ==> s.conns[c].id != s.conns[d].id
  }

  ghost predicate TableInv(s: State) {
    forall id :: id in s.table ==>
      s.table[id] < |s.conns| && s.conns[s.table[id]].id == id && Present(s.conns[s.table[id]].pc)
  }

  ghost predicate Registered(s: State, c: nat)
    requires c < |s.conns|
  {
    s.conns[c].id in s.table && s.table[s.conns[c].id] == c
  }

  /** A connection whose receiver has yet to start or is in its loop is in the map or already marked closed. */
  ghost predicate NoOrphans(s: State) {
    forall c :: 0 <= c < |s.conns| && Present(s.conns[c].pc) ==> s.conns[c].closedBy.Some? || Registered(s, c)
  }

  /** Stored after the parent cancel: such a receiver finds its context done before it ever reads. */
  ghost predicate LateOk(c: Conn, shutdown: bool) {
    && (c.late ==> shutdown && (c.pc.Stored? || c.pc.Top? || Leaving(c.pc)) && c.read == [] && c.events == [])
    && (c.pc.Dialing? || c.pc.Refused? || c.pc.Dialled? ==> !c.late && c.read == [] && c.events == [])
    && (c.pc.Stored? ==> c.read == [] && c.events == [])
  }

  ghost predicate LateInv(s: State) {
    forall c :: 0 <= c < |s.conns| ==> LateOk(s.conns[c], s.shutdown)
  }

  /** A closer's list and claim name connections; it waits, and returns, only as a CloseAll with nothing left. */
  ghost predicate QueueOk(k: Closer, n: nat) {
    && (k.pc.Claim? ==> k.pc.c < n)
    && (forall c :: c in k.todo ==> c < n)
    && (k.pc.Waiting? || k.pc.Returned? ==> k.all && k.todo == [])
  }

  ghost predicate QueueInv(s: State) {
    forall i :: 0 <= i < |s.closers| ==> QueueOk(s.closers[i], |s.conns|)
  }

  /** A connection marked closed whose socket is still open is being closed by the closer that marked it. */
  ghost predicate ShutOk(s: State, c: nat)
    requires c < |s.conns|
  {
    s.conns[c].closedBy.Some? && !s.conns[c].socketClosed ==>
      s.conns[c].closedBy.value < |s.closers| && BeforeShut(s.closers[s.conns[c].closedBy.value], c)
  }

  ghost predicate ShutInv(s: State) {
    forall c :: 0 <= c < |s.conns| ==> ShutOk(s, c)
  }

  /** A CloseAll that has taken its snapshot. */
  predicate Sweeping(k: Closer) {
    k.all && !k.pc.Idle? && !k.pc.Snapshot?
  }

  /** The sweep has dealt with `c`, or will: it is late, gone, marked closed, or still on the list. */
  ghost predicate Swept(k: Closer, x: Conn, c: nat) {
    Present(x.pc) && !x.late ==> x.closedBy.Some? || c in k.todo || k.pc == Claim(c)
  }

  ghost predicate SweepInv(s: State) {
    forall i :: 0 <= i < |s.closers| ==>
      && (s.closers[i].pc.Snapshot? || Sweeping(s.closers[i]) ==> s.shutdown)
      && (Sweeping(s.closers[i]) ==> forall c: nat :: c < |s.conns| ==> Swept(s.closers[i], s.conns[c], c))
  }

  lemma IdsStep(s: State, a: Action)
    requires IdsInv(s) && Enabled(s, a) && FreshId(s, a)
    ensures IdsInv(Apply(s, a))
  {
    var s' := Apply(s, a);
    match a
    case StartConnect(_) =>
    case ByConn(c, act) => ConnTable(s.conns[c], s.shutdown, act); hide MoveConn;
    case ByCloser(i, act) =>
      forall d: nat | d < |s.conns|
        ensures |s'.conns| == |s.conns| && s'.conns[d].id == s.conns[d].id
      {
        ClosedFields(s, i, act, d);
      }
      hide MoveCloser, Apply;
  }

  lemma ConnTableInv(s: State, c: nat, act: ConnAct)
    requires TableInv(s) && Enabled(s, ByConn(c, act))
    ensures TableInv(Apply(s, ByConn(c, act)))
  {
    ConnTable(s.conns[c], s.shutdown, act);
    var m := MoveConn(s.conns[c], s.shutdown, act);
    hide MoveConn;
    var s' := Apply(s, ByConn(c, act));
    forall id | id in s'.table
      ensures s'.table[id] < |s'.conns| && s'.conns[s'.table[id]].id == id && Present(s'.conns[s'.table[id]].pc)
    {
      if !m.effect.PutEntry? || id != s.conns[c].id {
        assert id in s.table && s.table[id] == s'.table[id];
        assert s.conns[s.table[id]].id == id && Present(s.conns[s.table[id]].pc);
      }
    }
  }

  lemma ConnOrphans(s: State, c: nat, act: ConnAct)
    requires IdsInv(s) && NoOrphans(s) && Enabled(s, ByConn(c, act))
    ensures NoOrphans(Apply(s, ByConn(c, act)))
  {
    ConnTable(s.conns[c], s.shutdown, act);
    var m := MoveConn(s.conns[c], s.shutdown, act);
    hide MoveConn;
    var s' := Apply(s, ByConn(c, act));
    forall d | 0 <= d < |s'.conns| && Present(s'.conns[d].pc)
      ensures s'.conns[d].closedBy.Some? || Registered(s', d)
    {
      if d != c {
        assert s.conns[d].closedBy.Some? || Registered(s, d);
        DifferentIds(s, c, d);
      } else if !m.effect.PutEntry? {
        assert s.conns[d].closedBy.Some? || Registered(s, d);
      }
    }
  }

  lemma DifferentIds(s: State, c: nat, d: nat)
    requires IdsInv(s) && c < |s.conns| && d < |s.conns| && c != d
    ensures s.conns[c].id != s.conns[d].id
  {
    if c < d {
    } else {
    }
  }

  lemma CloserTableInv(s: State, i: nat, act: CloserAct)
    requires TableInv(s) && Enabled(s, ByCloser(i, act))
    ensures TableInv(Apply(s, ByCloser(i, act)))
  {
    hide MoveCloser;
  }

  lemma CloserOrphans(s: State, i: nat, act: CloserAct)
    requires IdsInv(s) && OwnerInv(s) && NoOrphans(s) && Enabled(s, ByCloser(i, act))
    ensures NoOrphans(Apply(s, ByCloser(i, act)))
  {
    CloserTable(s, i, act);
    var m := MoveCloser(s, i, act);
    hide MoveCloser;
    var s' := Apply(s, ByCloser(i, act));
    if m.effect.Forget? {
      assert Owns(s.closers[i], m.effect.c);
    }
    forall d: nat | 0 <= d < |s'.conns| && Present(s'.conns[d].pc)
      ensures s'.conns[d].closedBy.Some? || Registered(s', d)
    {
      assert s.conns[d].closedBy.Some? || Registered(s, d);
      if m.effect.Forget? && m.effect.c != d {
        DifferentIds(s, m.effect.c, d);
      }
    }
  }

  lemma MapStep(s: State, a: Action)
    requires IdsInv(s) && OwnerInv(s) && TableInv(s) && NoOrphans(s) && Enabled(s, a)
    ensures TableInv(Apply(s, a)) && NoOrphans(Apply(s, a))
  {
    match a
    case StartConnect(_) =>
      var s' := Apply(s, a);
      forall d | 0 <= d < |s'.conns| && Present(s'.conns[d].pc)
        ensures s'.conns[d].closedBy.Some? || Registered(s', d)
      {
        assert s.conns[d].closedBy.Some? || Registered(s, d);
      }
    case ByConn(c, act) => ConnTableInv(s, c, act); ConnOrphans(s, c, act);
    case ByCloser(i, act) => CloserTableInv(s, i, act); CloserOrphans(s, i, act);
  }

  lemma MoveKeepsLate(c: Conn, shutdown: bool, a: ConnAct)
    requires LateOk(c, shutdown) && MoveConn(c, shutdown, a).Go?
    ensures LateOk(MoveConn(c, shutdown, a).conn, shutdown)
  {
  }

  lemma CloserLate(s: State, i: nat, act: CloserAct)
    requires LateInv(s) && Enabled(s, ByCloser(i, act))
    ensures var s' := Apply(s, ByCloser(i, act)); LateInv(s') && (s.shutdown ==> s'.shutdown)
  {
    var s' := Apply(s, ByCloser(i, act));
    forall d: nat | d < |s.conns|
      ensures |s'.conns| == |s.conns| && LateOk(s'.conns[d], s'.shutdown)
    {
      assert LateOk(s.conns[d], s.shutdown);
      ClosedFields(s, i, act, d);
      hide MoveCloser, Apply;
    }
    hide MoveCloser, LateOk;
  }

  lemma LateStep(s: State, a: Action)
    requires LateInv(s) && Enabled(s, a)
    ensures LateInv(Apply(s, a)) && (s.shutdown ==> Apply(s, a).shutdown)
  {
    match a
    case StartConnect(_) =>
    case ByConn(c, act) => MoveKeepsLate(s.conns[c], s.shutdown, act); hide MoveConn, LateOk;
    case ByCloser(i, act) => CloserLate(s, i, act);
  }

  lemma QueueMove(s: State, i: nat, act: CloserAct)
    requires TableInv(s) && i < |s.closers| && QueueOk(s.closers[i], |s.conns|) && MoveCloser(s, i, act).Act?
    ensures QueueOk(MoveCloser(s, i, act).closer, |s.conns|)
  {
    var k := s.closers[i];
    if act.PickNext? && k.todo != [] {
      assert k.todo[0] in k.todo;
      assert forall c :: c in k.todo[1..] ==> c in k.todo;
    }
  }

  lemma CloserQueue(s: State, i: nat, act: CloserAct)
    requires TableInv(s) && QueueInv(s) && Enabled(s, ByCloser(i, act))
    ensures QueueInv(Apply(s, ByCloser(i, act)))
  {
    QueueMove(s, i, act);
    hide MoveCloser, QueueOk;
  }

  lemma QueueStep(s: State, a: Action)
    requires TableInv(s) && QueueInv(s) && Enabled(s, a)
    ensures QueueInv(Apply(s, a))
  {
    match a
    case StartConnect(_) =>
    case ByConn(c, act) => hide MoveConn;
    case ByCloser(i, act) => CloserQueue(s, i, act);
  }

  lemma ConnShut(s: State, c: nat, act: ConnAct)
    requires ShutInv(s) && Enabled(s, ByConn(c, act))
    ensures ShutInv(Apply(s, ByConn(c, act)))
  {
    ConnTable(s.conns[c], s.shutdown, act);
    hide MoveConn;
    var s' := Apply(s, ByConn(c, act));
    forall d: nat | d < |s'.conns|
      ensures ShutOk(s', d)
    {
      assert ShutOk(s, d);
    }
  }

  lemma CloserShut(s: State, i: nat, act: CloserAct)
    requires ShutInv(s) && Enabled(s, ByCloser(i, act))
    ensures ShutInv(Apply(s, ByCloser(i, act)))
  {
    var s' := Apply(s, ByCloser(i, act));
    CloserTable(s, i, act);
    forall d: nat | d < |s.conns|
      ensures |s'.conns| == |s.conns| && ShutOk(s', d)
    {
      assert ShutOk(s, d);
      ClosedFields(s, i, act, d);
      hide MoveCloser, Apply;
    }
    hide MoveCloser, ShutOk;
  }

  lemma ShutStep(s: State, a: Action)
    requires ShutInv(s) && Enabled(s, a)
    ensures ShutInv(Apply(s, a))
  {
    match a
    case StartConnect(_) =>
      var s' := Apply(s, a);
      forall d: nat | d < |s'.conns|
        ensures ShutOk(s', d)
      {
        assert d < |s.conns| ==> ShutOk(s, d);
      }
    case ByConn(c, act) => ConnShut(s, c, act);
    case ByCloser(i, act) => CloserShut(s, i, act);
  }

  lemma ConnSweep(s: State, c: nat, act: ConnAct)
    requires SweepInv(s) && Enabled(s, ByConn(c, act))
    ensures SweepInv(Apply(s, ByConn(c, act)))
  {
    ConnTable(s.conns[c], s.shutdown, act);
    hide MoveConn;
    var s' := Apply(s, ByConn(c, act));
    forall i, d: nat | 0 <= i < |s'.closers| && Sweeping(s'.closers[i]) && d < |s'.conns|
      ensures Swept(s'.closers[i], s'.conns[d], d)
    {
      assert Swept(s.closers[i], s.conns[d], d);
    }
  }

  /** What one closer move does to its own sweep. */
  lemma SweepMove(s: State, i: nat, act: CloserAct, d: nat)
    requires TableInv(s) && NoOrphans(s) && SweepInv(s) && i < |s.closers| && d < |s.conns|
    requires MoveCloser(s, i, act).Act? && Sweeping(MoveCloser(s, i, act).closer)
    ensures var m := MoveCloser(s, i, act); m.effect == Mark(d) || Swept(m.closer, s.conns[d], d)
    ensures s.shutdown
  {
    var k := s.closers[i];
    var k' := MoveCloser(s, i, act).closer;
    if act.TakeSnapshot? {
      if Present(s.conns[d].pc) && s.conns[d].closedBy.None? {
        assert Registered(s, d);
        assert d in k'.todo;
      }
    } else {
      assert Sweeping(k);
      assert Swept(k, s.conns[d], d);
    }
  }

  lemma CloserSweep(s: State, i: nat, act: CloserAct)
    requires TableInv(s) && NoOrphans(s) && SweepInv(s) && Enabled(s, ByCloser(i, act))
    ensures SweepInv(Apply(s, ByCloser(i, act)))
  {
    var m := MoveCloser(s, i, act);
    var s' := Apply(s, ByCloser(i, act));
    assert m.closer.pc.Snapshot? ==> m.effect.CancelParent?;
    forall d: nat | Sweeping(m.closer) && d < |s.conns|
      ensures s.shutdown && Swept(m.closer, s'.conns[d], d)
    {
      SweepMove(s, i, act, d);
      hide MoveCloser;
    }
    CloserTable(s, i, act);
    assert Sweeping(m.closer) ==> s.shutdown || act.StartCloseAll?;
    hide MoveCloser;
    forall j, d: nat | 0 <= j < |s'.closers| && Sweeping(s'.closers[j]) && d < |s'.conns|
      ensures Swept(s'.closers[j], s'.conns[d], d)
    {
      assert j != i ==> Swept(s.closers[j], s.conns[d], d);
    }
  }

  function Weight(c: Conn): nat {
    if Running(c.pc) then 1 else 0
  }

  /** How many receivers have started and not finished. */
  function RunningCount(conns: seq<Conn>): nat {
    Total(Weight, conns)
  }

  lemma ConnCount(s: State, c: nat, act: ConnAct)
    requires s.wg == RunningCount(s.conns) && Enabled(s, ByConn(c, act))
    ensures var s' := Apply(s, ByConn(c, act)); s'.wg == RunningCount(s'.conns)
  {
    var m := MoveConn(s.conns[c], s.shutdown, act);
    ConnTable(s.conns[c], s.shutdown, act);
    TotalUpdate(Weight, s.conns, c, m.conn);
    TotalBounds(Weight, s.conns);
    assert Weight(s.conns[c]) <= s.wg;
    hide MoveConn, Total;
  }

  lemma CloserCount(s: State, i: nat, act: CloserAct)
    requires s.wg == RunningCount(s.conns) && Enabled(s, ByCloser(i, act))
    ensures var s' := Apply(s, ByCloser(i, act)); s'.wg == RunningCount(s'.conns)
  {
    var m := MoveCloser(s, i, act);
    hide MoveCloser, Total;
    if !m.effect.Nothing? && !m.effect.CancelParent? && m.effect.c < |s.conns| {
      TotalUpdate(Weight, s.conns, m.effect.c, Touch(s.conns[m.effect.c], i, m.closer.code, m.effect));
    }
  }

  lemma CountStep(s: State, a: Action)
    requires s.wg == RunningCount(s.conns) && Enabled(s, a)
    ensures Apply(s, a).wg == RunningCount(Apply(s, a).conns)
  {
    match a
    case StartConnect(_) => TotalSnoc(Weight, s.conns, Apply(s, a).conns[|s.conns|]);
    case ByConn(c, act) => ConnCount(s, c, act);
    case ByCloser(i, act) => CloserCount(s, i, act);
  }

  ghost predicate Inv(s: State) {
    && IdsInv(s) && OwnerInv(s) && TableInv(s) && NoOrphans(s) && LateInv(s) && QueueInv(s) && ShutInv(s) && SweepInv(s)
    && s.wg == RunningCount(s.conns)
  }

  lemma SweepStep(s: State, a: Action)
    requires TableInv(s) && NoOrphans(s) && SweepInv(s) && QueueInv(s) && Enabled(s, a)
    ensures SweepInv(Apply(s, a))
  {
    match a
    case StartConnect(_) =>
      var s' := Apply(s, a);
      forall i, d: nat | 0 <= i < |s'.closers| && Sweeping(s'.closers[i]) && d < |s'.conns|
        ensures Swept(s'.closers[i], s'.conns[d], d)
      {
        assert d < |s.conns| ==> Swept(s.closers[i], s.conns[d], d);
      }
    case ByConn(c, act) => ConnSweep(s, c, act);
    case ByCloser(i, act) => CloserSweep(s, i, act);
  }

  lemma InvStep(s: State, a: Action)
    requires Inv(s) && Enabled(s, a) && FreshId(s, a)
    ensures Inv(Apply(s, a))
  {
    hide IdsInv, OwnerInv, TableInv, NoOrphans, LateInv, QueueInv, ShutInv, SweepInv, Apply, Enabled;
    IdsStep(s, a);
    OwnerStep(s, a);
    MapStep(s, a);
    LateStep(s, a);
    QueueStep(s, a);
    ShutStep(s, a);
    SweepStep(s, a);
    CountStep(s, a);
  }

  lemma {:induction false} InvRun(s: State, actions: seq<Action>)
    requires Inv(s) && FreshRun(s, actions)
    ensures Run(s, actions).Some? && Inv(Run(s, actions).value)
    decreases |actions|
  {
    hide Inv, Apply, Enabled;
    if actions != [] {
      InvStep(s, actions[0]);
      InvRun(Apply(s, actions[0]), actions[1..]);
    }
  }

  lemma BeginInv(s: State)
    requires Begin(s)
    ensures Inv(s)
  {
    NobodyOwns(s);
  }

  /** No orphan receivers: in every run that passes no id to Connect twice, every receiver still in its loop
      belongs to a connection that is in the map under its id or already marked closed. */
  lemma {:induction false} NoOrphanReceivers(s: State, actions: seq<Action>, c: nat)
    requires Begin(s) && FreshRun(s, actions)
    ensures Run(s, actions).Some?
    ensures var r := Run(s, actions).value;
            c < |r.conns| && InLoop(r.conns[c].pc) ==> r.conns[c].closedBy.Some? || Registered(r, c)
  {
    BeginInv(s);
    InvRun(s, actions);
  }

  /** What a CloseAll has achieved when it comes to wait: every receiver still in its loop belongs to a
      connection marked closed, or to one stored after the parent cancel, which has read and forwarded nothing
      and never will. */
  lemma {:induction false} CloseAllReachesAll(s: State, actions: seq<Action>, i: nat, c: nat)
    requires Begin(s) && FreshRun(s, actions)
    ensures Run(s, actions).Some?
    ensures var r := Run(s, actions).value;
            i < |r.closers| && r.closers[i].pc.Waiting? && c < |r.conns| && InLoop(r.conns[c].pc) ==>
              var x := r.conns[c];
              x.closedBy.Some? || (x.late && (x.pc.Top? || x.pc.Exiting?) && x.read == [] && x.events == [])
  {
    BeginInv(s);
    InvRun(s, actions);
    var r := Run(s, actions).value;
    if i < |r.closers| && c < |r.conns| {
      assert Sweeping(r.closers[i]) ==> Swept(r.closers[i], r.conns[c], c);
      assert LateOk(r.conns[c], r.shutdown);
    }
  }

  /** A connection stored after the parent cancel never forwards anything. */
  lemma {:induction false} LateForwardsNothing(s: State, actions: seq<Action>, c: nat)
    requires Begin(s) && FreshRun(s, actions)
    ensures Run(s, actions).Some?
    ensures var r := Run(s, actions).value;
            c < |r.conns| && r.conns[c].late ==> r.conns[c].read == [] && r.conns[c].events == []
  {
    BeginInv(s);
    InvRun(s, actions);
    var r := Run(s, actions).value;
    assert c < |r.conns| ==> LateOk(r.conns[c], r.shutdown);
  }

  // ---------------------------------------------------------------------------------------------
  // CloseAll ends
  // ---------------------------------------------------------------------------------------------

  /** No Connect is under way. */
  ghost predicate NoConnect(s: State) {
    forall c :: 0 <= c < |s.conns| ==> !s.conns[c].pc.Dialing? && !s.conns[c].pc.Dialled? && !s.conns[c].pc.Stored?
  }

  /** When a CloseAll can return and no Connect is under way, the map is empty and every receiver has finished. */
  lemma {:induction false} CloseAllLeavesNothing(s: State, actions: seq<Action>, i: nat)
    requires Begin(s) && FreshRun(s, actions) && Run(s, actions).Some?
    requires var r := Run(s, actions).value; NoConnect(r) && Enabled(r, ByCloser(i, Return))
    ensures var r := Run(s, actions).value;
            && r.table == map[]
            && forall c :: 0 <= c < |r.conns| ==> r.conns[c].pc.Finished? || r.conns[c].pc.Refused?
  {
    BeginInv(s);
    InvRun(s, actions);
    var r := Run(s, actions).value;
    TotalBounds(Weight, r.conns);
    assert forall c :: 0 <= c < |r.conns| ==> !Present(r.conns[c].pc);
    assert forall id :: id !in r.table;
  }

  /** Steps that happen without the peer and without a new call: a read is one only on a closed socket, a dial
      is none. */
  ghost predicate Forced(s: State, a: Action) {
    && Enabled(s, a)
    && match a
       case StartConnect(_) => false
       case ByConn(c, act) =>
         !act.DialOk? && !act.DialFails? && !act.Read? && !act.SendData? && (act.ReadFails? ==> s.conns[c].socketClosed)
       case ByCloser(_, act) => !StartsClose(act)
  }

  predicate StartsClose(act: CloserAct) {
    act.StartClose? || act.StartCloseAll?
  }

  lemma OwnerMoves(s: State, j: nat, c: nat) returns (a: Action)
    requires j < |s.closers| && BeforeShut(s.closers[j], c)
    ensures Forced(s, a) && a.ByCloser? && a.i == j
  {
    var pc := s.closers[j].pc;
    a := ByCloser(j, if pc.Cancel? then CancelContext else if pc.SendClose? then WriteFrame else CloseSocket);
  }

  /** The step is connection `c`'s own, or its closer's. */
  predicate About(s: State, c: nat, a: Action) {
    c < |s.conns| && ((a.ByConn? && a.c == c) || (a.ByCloser? && s.conns[c].closedBy == Some(a.i)))
  }

  /** Once a CloseAll waits, every receiver that has not finished can move, or the closer that marked its
      connection is about to close the socket it reads from. */
  lemma ReceiverProgress(s: State, i: nat, c: nat) returns (a: Action)
    requires Inv(s) && i < |s.closers| && (s.closers[i].pc.Waiting? || s.closers[i].pc.Returned?)
    requires c < |s.conns| && Running(s.conns[c].pc)
    ensures Forced(s, a) && About(s, c, a)
  {
    assert QueueOk(s.closers[i], |s.conns|);
    match s.conns[c].pc
    case Top => a := ByConn(c, CheckContext);
    case Reading =>
      assert LateOk(s.conns[c], s.shutdown);
      assert Sweeping(s.closers[i]) && Swept(s.closers[i], s.conns[c], c);
      if s.conns[c].socketClosed {
        a := ByConn(c, ReadFails(Broken("")));
      } else {
        assert ShutOk(s, c);
        a := OwnerMoves(s, s.conns[c].closedBy.value, c);
      }
    case Got(_) => a := ByConn(c, Forward);
    case Failed(_) => a := ByConn(c, Report);
    case Exiting => a := ByConn(c, Remove);
    case Removed => a := ByConn(c, Finish);
  }

  function Rank(pc: Pc): nat {
    match pc
    case Reading => 6 case Got(_) => 5 case Failed(_) => 5 case Top => 4 case Exiting => 3 case Removed => 2 case _ => 0
  }

  function RankOf(c: Conn): nat {
    Rank(c.pc)
  }

  /** Steps the receivers can still make. */
  function Remaining(conns: seq<Conn>): nat {
    Total(RankOf, conns)
  }

  /** The parent is cancelled and no Connect is under way. */
  ghost predicate Draining(s: State) {
    s.shutdown && NoConnect(s)
  }

  lemma RankDrops(c: Conn, a: ConnAct)
    requires MoveConn(c, true, a).Go? && !c.pc.Dialing? && !c.pc.Dialled? && !c.pc.Stored?
    ensures var x := MoveConn(c, true, a).conn;
            && !x.pc.Dialing? && !x.pc.Dialled? && !x.pc.Stored?
            && Rank(x.pc) + (if a.SendData? then 0 else 1) <= Rank(c.pc)
  {
  }

  lemma ConnDrains(s: State, c: nat, act: ConnAct)
    requires Draining(s) && Enabled(s, ByConn(c, act))
    ensures var s' := Apply(s, ByConn(c, act));
            Draining(s') && Remaining(s'.conns) + (if act.SendData? then 0 else 1) <= Remaining(s.conns)
  {
    var m := MoveConn(s.conns[c], s.shutdown, act);
    TotalUpdate(RankOf, s.conns, c, m.conn);
    RankDrops(s.conns[c], act);
    hide MoveConn, Rank;
  }

  lemma CloserDrains(s: State, i: nat, act: CloserAct)
    requires Draining(s) && Enabled(s, ByCloser(i, act))
    ensures var s' := Apply(s, ByCloser(i, act)); Draining(s') && Remaining(s'.conns) == Remaining(s.conns)
  {
    var m := MoveCloser(s, i, act);
    hide MoveCloser;
    if !m.effect.Nothing? && !m.effect.CancelParent? && m.effect.c < |s.conns| {
      TotalUpdate(RankOf, s.conns, m.effect.c, Touch(s.conns[m.effect.c], i, m.closer.code, m.effect));
    }
  }

  function ReceiverSteps(actions: seq<Action>): nat {
    if actions == [] then 0
    else (if actions[0].ByConn? && !actions[0].a.SendData? then 1 else 0) + ReceiverSteps(actions[1..])
  }

  /** The drain is bounded: once the parent is cancelled and no Connect is under way or starts, the receivers
      together take at most `Remaining` steps, whatever closers, senders and peers do. */
  lemma {:induction false} DrainIsBounded(s: State, actions: seq<Action>)
    requires Draining(s) && Run(s, actions).Some?
    requires forall a :: a in actions ==> !a.StartConnect?
    ensures var r := Run(s, actions).value;
            Draining(r) && ReceiverSteps(actions) + Remaining(r.conns) <= Remaining(s.conns)
    decreases |actions|
  {
    hide Apply, Enabled, Draining;
    if actions != [] {
      var a := actions[0];
      assert a in actions;
      match a {
        case StartConnect(_) =>
        case ByConn(c, act) => ConnDrains(s, c, act);
        case ByCloser(i, act) => CloserDrains(s, i, act);
      }
      DrainIsBounded(Apply(s, a), actions[1..]);
    }
  }

  /** A waiting CloseAll may return exactly when no receiver is left, and until then some receiver, or the closer
      of its connection, has a forced step. */
  lemma {:induction false} WaitEnds(s: State, actions: seq<Action>, i: nat)
    requires Begin(s) && FreshRun(s, actions) && Run(s, actions).Some?
    requires var r := Run(s, actions).value; i < |r.closers| && r.closers[i].pc.Waiting?
    ensures var r := Run(s, actions).value;
            && (Enabled(r, ByCloser(i, Return)) <==> forall c :: 0 <= c < |r.conns| ==> !Running(r.conns[c].pc))
            && (!Enabled(r, ByCloser(i, Return)) ==>
                  exists c, a :: 0 <= c < |r.conns| && Running(r.conns[c].pc) && Forced(r, a) && About(r, c, a))
  {
    BeginInv(s);
    InvRun(s, actions);
    var r := Run(s, actions).value;
    if c: nat :| c < |r.conns| && Running(r.conns[c].pc) {
      TotalBounds(Weight, r.conns);
      var a := ReceiverProgress(r, i, c);
      assert c < |r.conns| && Running(r.conns[c].pc) && Forced(r, a) && About(r, c, a);
    } else {
      TotalZero(Weight, r.conns);
    }
  }

  // Termination: everyone's steps together

  /** Steps a closer can still make, with `n` connections to sweep at most. */
  function CloserRank(k: Closer, n: nat): nat {
    match k.pc
    case Idle => 0
    case Snapshot => 3 + 6 * n
    case Next => 2 + 6 * |k.todo|
    case Claim(_) => 7 + 6 * |k.todo|
    case Cancel(_) => 6 + 6 * |k.todo|
    case SendClose(_) => 5 + 6 * |k.todo|
    case Shut(_) => 4 + 6 * |k.todo|
    case Delete(_) => 3 + 6 * |k.todo|
    case Waiting => 1
    case Returned => 0
  }

  function RankAmong(n: nat): Closer -> nat {
    k => CloserRank(k, n)
  }

  /** All steps that receivers and closers can still make. */
  function Measure(s: State): nat {
    Remaining(s.conns) + Total(RankAmong(|s.conns|), s.closers)
  }

  /** A list of different connections is no longer than there are connections. */
  lemma {:induction false} DistinctBound(order: seq<nat>, n: nat)
    requires forall c :: c in order ==> c < n
    requires forall i, j :: 0 <= i < j < |order| ==> order[i] != order[j]
    ensures |order| <= n
    decreases n
  {
    if order != [] {
      assert order[0] in order;
      var rest := order;
      if n - 1 in order {
        var k :| 0 <= k < |order| && order[k] == n - 1;
        rest := order[..k] + order[k + 1..];
        assert forall j :: 0 <= j < |rest| ==> rest[j] == order[if j < k then j else j + 1];
        assert forall c :: c in rest ==> c in order && c != n - 1;
      }
      DistinctBound(rest, n - 1);
    }
  }

  lemma SnapshotBound(s: State, order: seq<nat>)
    requires TableInv(s) && IsSnapshot(s.table, order)
    ensures |order| <= |s.conns|
  {
    DistinctBound(order, |s.conns|);
  }

  /** The connections below `n` that are in the map. */
  ghost function RegisteredBelow(s: State, n: nat): (order: seq<nat>)
    requires n <= |s.conns|
    ensures forall c: nat :: c in order <==> c < n && Registered(s, c)
    ensures forall i, j :: 0 <= i < j < |order| ==> order[i] != order[j]
  {
    if n == 0 then [] else RegisteredBelow(s, n - 1) + (if Registered(s, n - 1) then [n - 1] else [])
  }

  lemma SnapshotExists(s: State) returns (order: seq<nat>)
    requires TableInv(s)
    ensures IsSnapshot(s.table, order)
  {
    order := RegisteredBelow(s, |s.conns|);
    forall c: nat
      ensures c in order <==> exists id :: id in s.table && s.table[id] == c
    {
      if c in order {
        assert s.conns[c].id in s.table;
      }
    }
  }

  /** What a new call can add. */
  function CallCost(n: nat): nat {
    9 + 6 * n
  }

  lemma CloserRankDrops(s: State, i: nat, act: CloserAct)
    requires TableInv(s) && i < |s.closers| && MoveCloser(s, i, act).Act?
    ensures var n := |s.conns|;
            CloserRank(MoveCloser(s, i, act).closer, n) + 1
              <= CloserRank(s.closers[i], n) + (if StartsClose(act) then CallCost(n) else 0)
  {
    if act.TakeSnapshot? {
      SnapshotBound(s, act.order);
    }
  }

  lemma ConnMeasure(s: State, c: nat, act: ConnAct)
    requires Draining(s) && Enabled(s, ByConn(c, act))
    ensures var s' := Apply(s, ByConn(c, act));
            && Draining(s') && |s'.conns| == |s.conns|
            && Measure(s') + 1 <= Measure(s) + (if act.SendData? then CallCost(|s.conns|) else 0)
  {
    ConnDrains(s, c, act);
    hide MoveConn, Draining, Remaining, Total;
  }

  lemma CloserMeasure(s: State, i: nat, act: CloserAct)
    requires Draining(s) && TableInv(s) && Enabled(s, ByCloser(i, act))
    ensures var s' := Apply(s, ByCloser(i, act));
            && Draining(s') && |s'.conns| == |s.conns|
            && Measure(s') + 1 <= Measure(s) + (if StartsClose(act) then CallCost(|s.conns|) else 0)
  {
    CloserDrains(s, i, act);
    CloserRankDrops(s, i, act);
    var rank := RankAmong(|s.conns|);
    TotalUpdate(rank, s.closers, i, MoveCloser(s, i, act).closer);
    hide MoveCloser, Draining, Remaining, Total, CloserRank;
  }

  /** Calls of Close, CloseAll and SendFrame that start in a run. */
  predicate IsNewCall(a: Action) {
    (a.ByConn? && a.a.SendData?) || (a.ByCloser? && StartsClose(a.b))
  }

  function NewCalls(actions: seq<Action>): nat {
    if actions == [] then 0 else (if IsNewCall(actions[0]) then 1 else 0) + NewCalls(actions[1..])
  }

  lemma MeasureStep(s: State, a: Action)
    requires Inv(s) && Draining(s) && Enabled(s, a) && !a.StartConnect?
    ensures var s' := Apply(s, a);
            && Inv(s') && Draining(s') && |s'.conns| == |s.conns|
            && Measure(s') + 1 <= Measure(s) + (if IsNewCall(a) then CallCost(|s.conns|) else 0)
  {
    InvStep(s, a);
    match a
    case ByConn(c, act) => ConnMeasure(s, c, act);
    case ByCloser(i, act) => CloserMeasure(s, i, act);
  }

  /** Every step counts: after the parent cancel, as long as no Connect is under way or starts, a run has at most
      `Measure` steps and a fixed number more for each new call. */
  lemma {:induction false} RunsAreBounded(s: State, actions: seq<Action>)
    requires Inv(s) && Draining(s) && Run(s, actions).Some?
    requires forall a :: a in actions ==> !a.StartConnect?
    ensures var r := Run(s, actions).value;
            && Inv(r) && Draining(r) && |r.conns| == |s.conns|
            && |actions| + Measure(r) <= Measure(s) + CallCost(|s.conns|) * NewCalls(actions)
    decreases |actions|
  {
    hide Apply, Enabled, Inv, Draining, Measure, CallCost;
    if actions != [] {
      var (a, rest) := (actions[0], actions[1..]);
      assert a in actions;
      MeasureStep(s, a);
      RunsAreBounded(Apply(s, a), rest);
      CostAdds(CallCost(|s.conns|), if IsNewCall(a) then 1 else 0, NewCalls(rest));
    }
  }

  lemma CostAdds(cost: nat, first: nat, rest: nat)
    ensures cost * (first + rest) == cost * first + cost * rest
  {
  }

  /** Every Close and CloseAll has returned, every receiver has finished and the map is empty. */
  ghost predicate AllClosed(s: State) {
    && (forall i :: 0 <= i < |s.closers| ==> s.closers[i].pc.Idle? || s.closers[i].pc.Returned?)
    && (forall c :: 0 <= c < |s.conns| ==> s.conns[c].pc.Finished? || s.conns[c].pc.Refused?)
    && s.table == map[]
  }

  lemma CloserProgress(s: State, i: nat) returns (a: Action)
    requires Inv(s) && i < |s.closers| && !s.closers[i].pc.Idle? && !s.closers[i].pc.Returned?
    requires s.closers[i].pc.Waiting? ==> s.wg == 0
    ensures Forced(s, a)
  {
    match s.closers[i].pc
    case Snapshot =>
      var order := SnapshotExists(s);
      a := ByCloser(i, TakeSnapshot(order));
    case Next => a := ByCloser(i, PickNext);
    case Claim(_) => a := ByCloser(i, SetClosed);
    case Cancel(_) => a := ByCloser(i, CancelContext);
    case SendClose(_) => a := ByCloser(i, WriteFrame);
    case Shut(_) => a := ByCloser(i, CloseSocket);
    case Delete(_) => a := ByCloser(i, DeleteEntry);
    case Waiting => a := ByCloser(i, Return);
  }

  /** A CloseAll has started, and may have ended. */
  predicate Begun(k: Closer) {
    k.all && !k.pc.Idle?
  }

  lemma StuckIsClosed(s: State, i: nat)
    requires Inv(s) && NoConnect(s) && i < |s.closers| && Begun(s.closers[i])
    requires forall a :: !Forced(s, a)
    ensures AllClosed(s)
  {
    if !s.closers[i].pc.Waiting? && !s.closers[i].pc.Returned? {
      var a := CloserProgress(s, i);
      assert false;
    }
    if c: nat :| c < |s.conns| && Running(s.conns[c].pc) {
      var a := ReceiverProgress(s, i, c);
      assert false;
    }
    TotalZero(Weight, s.conns);
    if j: nat :| j < |s.closers| && !s.closers[j].pc.Idle? && !s.closers[j].pc.Returned? {
      var a := CloserProgress(s, j);
      assert false;
    }
    assert forall c :: 0 <= c < |s.conns| ==> !Present(s.conns[c].pc);
    assert forall id :: id !in s.table;
  }

  lemma ClosedIsStuck(s: State, a: Action)
    requires AllClosed(s)
    ensures !Forced(s, a)
  {
  }

  lemma BegunStep(s: State, i: nat, a: Action)
    requires i < |s.closers| && Begun(s.closers[i]) && Enabled(s, a)
    ensures var s' := Apply(s, a); i < |s'.closers| && Begun(s'.closers[i])
  {
    if a.ByCloser? && a.i == i {
      assert Begun(MoveCloser(s, i, a.b).closer);
    }
    hide MoveConn, MoveCloser;
  }

  lemma {:induction false} BegunRun(s: State, i: nat, actions: seq<Action>)
    requires i < |s.closers| && Begun(s.closers[i]) && Run(s, actions).Some?
    ensures var r := Run(s, actions).value; i < |r.closers| && Begun(r.closers[i])
    decreases |actions|
  {
    hide Apply, Enabled, Begun;
    if actions != [] {
      BegunStep(s, i, actions[0]);
      BegunRun(Apply(s, actions[0]), i, actions[1..]);
    }
  }

  /** CloseAll ends: once it has cancelled the parent, with no Connect under way or starting, every run has at
      most `Measure` steps and a fixed number more for each new call, and it can be extended without the peer and
      without a new call exactly until every Close and CloseAll has returned, every receiver has finished and the
      map is empty. */
  lemma {:induction false} CloseAllTerminates(s: State, before: seq<Action>, i: nat, actions: seq<Action>)
    requires Begin(s) && FreshRun(s, before) && Run(s, before).Some?
    requires var m := Run(s, before).value;
             && NoConnect(m) && m.shutdown && i < |m.closers| && Begun(m.closers[i])
             && Run(m, actions).Some?
    requires forall a :: a in actions ==> !a.StartConnect?
    ensures var m := Run(s, before).value;
            var r := Run(m, actions).value;
            && |actions| + Measure(r) <= Measure(m) + CallCost(|m.conns|) * NewCalls(actions)
            && ((exists a :: Forced(r, a)) <==> !AllClosed(r))
  {
    BeginInv(s);
    InvRun(s, before);
    var m := Run(s, before).value;
    RunsAreBounded(m, actions);
    BegunRun(m, i, actions);
    var r := Run(m, actions).value;
    if AllClosed(r) {
      forall a ensures !Forced(r, a) { ClosedIsStuck(r, a); }
    } else if forall a :: !Forced(r, a) {
      StuckIsClosed(r, i);
    }
  }

  // ---------------------------------------------------------------------------------------------
  // Each operation on its own
  // ---------------------------------------------------------------------------------------------

  lemma {:induction false} Follow(s: State, a: Action, rest: seq<Action>)
    requires Enabled(s, a)
    ensures Run(s, [a] + rest) == Run(Apply(s, a), rest)
  {
    assert ([a] + rest)[1..] == rest;
  }

  lemma {:induction false} RunAppend(s: State, first: seq<Action>, second: seq<Action>)
    requires Run(s, first).Some?
    ensures Run(s, first + second) == Run(Run(s, first).value, second)
    decreases |first|
  {
    if first == [] {
      assert first + second == second;
    } else {
      assert (first + second)[1..] == first[1..] + second;
      RunAppend(Apply(s, first[0]), first[1..], second);
    }
  }

  lemma {:induction false} ConnFollow(s: State, c: nat, a: ConnAct, x: Conn, e: Effect, rest: seq<Action>)
    requires c < |s.conns| && MoveConn(s.conns[c], s.shutdown, a) == Go(x, e)
    ensures Run(s, [ByConn(c, a)] + rest) == Run(Perform(s.(conns := s.conns[c := x]), c, e), rest)
  {
    hide MoveConn, Run;
    Follow(s, ByConn(c, a), rest);
  }

  lemma {:induction false} CloserFollow(s: State, i: nat, a: CloserAct, k: Closer, e: CloserEffect, rest: seq<Action>)
    requires i < |s.closers| && MoveCloser(s, i, a) == Act(k, e)
    ensures Run(s, [ByCloser(i, a)] + rest) == Run(PerformClose(s.(closers := s.closers[i := k]), i, k.code, e), rest)
  {
    hide MoveCloser, Run;
    Follow(s, ByCloser(i, a), rest);
  }

  /** A receiver takes one message through its loop. */
  lemma {:induction false} ReceivesOne(s: State, c: nat, m: Incoming)
    requires !s.shutdown && c < |s.conns| && s.conns[c].pc.Top? && !s.conns[c].cancelled
    ensures var x := s.conns[c];
            Run(s, ReceiveSteps(c, m)) ==
              Some(s.(conns := s.conns[c := x.(read := x.read + [m], events := x.events + FrameOf(m))]))
  {
    var x := s.conns[c];
    var x1 := x.(pc := Reading);
    var x2 := x.(pc := Got(m), read := x.read + [m]);
    var x3 := x.(read := x.read + [m], events := x.events + FrameOf(m));
    assert MoveConn(x, false, CheckContext) == Go(x1, Silent);
    assert MoveConn(x1, false, Read(m)) == Go(x2, Silent);
    assert MoveConn(x2, false, Forward) == Go(x3, Silent);
    hide MoveConn, FrameOf, Run;
    var s1 := s.(conns := s.conns[c := x1]);
    var s2 := s.(conns := s.conns[c := x2]);
    var s3 := s.(conns := s.conns[c := x3]);
    assert s1.conns[c := x2] == s2.conns && s2.conns[c := x3] == s3.conns;
    ConnFollow(s, c, CheckContext, x1, Silent, [ByConn(c, Read(m))] + ([ByConn(c, Forward)] + []));
    ConnFollow(s1, c, Read(m), x2, Silent, [ByConn(c, Forward)] + []);
    ConnFollow(s2, c, Forward, x3, Silent, []);
    EmptyRun(s3);
    assert ReceiveSteps(c, m) == [ByConn(c, CheckContext)] + ([ByConn(c, Read(m))] + ([ByConn(c, Forward)] + []));
  }

  function ReceiveSteps(c: nat, m: Incoming): seq<Action> {
    [ByConn(c, CheckContext), ByConn(c, Read(m)), ByConn(c, Forward)]
  }

  lemma {:induction false} Receives(s: State, c: nat, ms: seq<Incoming>) returns (actions: seq<Action>)
    requires !s.shutdown && c < |s.conns| && s.conns[c].pc.Top? && !s.conns[c].cancelled
    requires s.conns[c].events == Frames(s.conns[c].read)
    ensures var x := s.conns[c];
            Run(s, actions) == Some(s.(conns := s.conns[c := x.(read := x.read + ms, events := Frames(x.read + ms))]))
    decreases |ms|
  {
    hide Run, Frames;
    var x := s.conns[c];
    if ms == [] {
      actions := [];
      EmptyRun(s);
      assert x.read + ms == x.read && s.conns[c := x] == s.conns;
    } else {
      var (front, m) := (ms[..|ms| - 1], ms[|ms| - 1]);
      var first := Receives(s, c, front);
      var s1 := Run(s, first).value;
      ReceivesOne(s1, c, m);
      RunAppend(s, first, ReceiveSteps(c, m));
      actions := first + ReceiveSteps(c, m);
      FramesSnoc(x.read + front, m);
      assert x.read + front + [m] == x.read + ms by {
        assert front + [m] == ms;
      }
      hide FrameOf, ReceiveSteps;
      var x2 := x.(read := x.read + ms, events := Frames(x.read + ms));
      assert s1.conns[c := x2] == s.conns[c := x2];
    }
  }

  /** The connection object a Connect call has stored and started. */
  function Started(id: Id): Conn {
    Conn(id, Top, None, false, false, false, [], None, [], [])
  }

  lemma ConnectMoves(x: Conn)
    requires !x.cancelled && !x.late
    ensures x.pc.Dialing? ==> MoveConn(x, false, DialOk) == Go(x.(pc := Dialled), Silent)
    ensures x.pc.Dialled? ==> MoveConn(x, false, Store) == Go(x.(pc := Stored), PutEntry)
    ensures x.pc.Stored? ==> MoveConn(x, false, Start) == Go(x.(pc := Top), Add)
  {
  }

  lemma SnocUpdate(conns: seq<Conn>, x: Conn, y: Conn)
    ensures (conns + [x])[|conns| := y] == conns + [y]
  {
  }

  lemma {:induction false} ConnectAlone(s: State, id: Id)
    requires id !in s.table && !s.shutdown
    ensures var c := |s.conns|;
            Run(s, ConnectSteps(id, c)) ==
              Some(s.(conns := s.conns + [Started(id)], table := s.table[id := c], wg := s.wg + 1))
  {
    var c := |s.conns|;
    var x := Started(id);
    var (x1, x2, x3) := (x.(pc := Dialing), x.(pc := Dialled), x.(pc := Stored));
    ConnectMoves(x1);
    ConnectMoves(x2);
    ConnectMoves(x3);
    var s1 := s.(conns := s.conns + [x1]);
    var s2 := s.(conns := s.conns + [x2]);
    var s3 := s.(conns := s.conns + [x3], table := s.table[id := c]);
    var s4 := s.(conns := s.conns + [x], table := s.table[id := c], wg := s.wg + 1);
    assert Enabled(s, StartConnect(id)) && Apply(s, StartConnect(id)) == s1;
    hide MoveConn, Run;
    SnocUpdate(s.conns, x1, x2);
    SnocUpdate(s.conns, x2, x3);
    SnocUpdate(s.conns, x3, x);
    var (last, last2) := ([ByConn(c, Start)] + [], [ByConn(c, Store)] + ([ByConn(c, Start)] + []));
    Follow(s, StartConnect(id), [ByConn(c, DialOk)] + last2);
    ConnFollow(s1, c, DialOk, x2, Silent, last2);
    ConnFollow(s2, c, Store, x3, PutEntry, last);
    ConnFollow(s3, c, Start, x, Add, []);
    EmptyRun(s4);
    assert ConnectSteps(id, c) == [StartConnect(id)] + ([ByConn(c, DialOk)] + last2);
  }

  function ConnectSteps(id: Id, c: nat): seq<Action> {
    [StartConnect(id), ByConn(c, DialOk), ByConn(c, Store), ByConn(c, Start)]
  }

  lemma {:induction false} EmptyRun(s: State)
    ensures Run(s, []) == Some(s)
  {
  }

  /** A Connect that succeeds is followed, whatever the backend sends, by a receiver that forwards it: the connection
      is in the map under its id, has read all the messages, and has raised the known ones in order. */
  lemma {:induction false} ConnectDelivers(s: State, id: Id, ms: seq<Incoming>) returns (actions: seq<Action>)
    requires id !in s.table && !s.shutdown
    ensures var r := Run(s, actions);
            && r.Some?
            && var c := |s.conns|;
               && |r.value.conns| == c + 1 && r.value.conns[..c] == s.conns && r.value.table == s.table[id := c]
               && r.value.wg == s.wg + 1 && r.value.closers == s.closers && !r.value.shutdown
               && var x := r.value.conns[c];
                  && x.id == id && x.pc.Top? && x.closedBy.None? && !x.socketClosed && x.read == ms
                  && Forwarded(x.events) == Known(ms) && OnlyFrames(x.events)
  {
    var c := |s.conns|;
    var first := ConnectSteps(id, c);
    ConnectAlone(s, id);
    var s1 := Run(s, first).value;
    var second := Receives(s1, c, ms);
    RunAppend(s, first, second);
    actions := first + second;
    FramesAreForwarded(ms);
    assert [] + ms == ms;
    hide Run, Frames, Known, Forwarded;
  }

  /** A receiver that finds its context done leaves without a word. */
  lemma {:induction false} ReceiverStops(s: State, c: nat)
    requires c < |s.conns| && s.conns[c].pc.Top? && s.wg > 0 && (s.conns[c].cancelled || s.shutdown)
    ensures Run(s, [ByConn(c, CheckContext)] + LeaveSteps(c)) == Some(Ended(s, c, s.conns[c]))
  {
    var x := s.conns[c];
    var x1 := x.(pc := Exiting);
    assert MoveConn(x, s.shutdown, CheckContext) == Go(x1, Silent);
    hide Run, MoveConn;
    ConnFollow(s, c, CheckContext, x1, Silent, LeaveSteps(c));
    Leaves(s.(conns := s.conns[c := x1]), c);
    assert s.conns[c := x1][c := x.(pc := Finished)] == s.conns[c := x.(pc := Finished)];
  }

  /** One whose read fails reports it, takes its entry out and is done. */
  lemma {:induction false} ReceiverFails(s: State, c: nat, e: ReadError)
    requires c < |s.conns| && s.conns[c].pc.Top? && s.wg > 0 && !s.conns[c].cancelled && !s.shutdown
    ensures var x := s.conns[c];
            Run(s, [ByConn(c, CheckContext)] + ([ByConn(c, ReadFails(e))] + ([ByConn(c, Report)] + LeaveSteps(c)))) ==
              Some(Ended(s, c, x.(failure := Some(e), events := x.events + [EventOf(e)])))
  {
    hide Run, EventOf;
    var x := s.conns[c];
    var (x1, x2) := (x.(pc := Reading), x.(pc := Failed(e), failure := Some(e)));
    var x3 := x.(pc := Exiting, failure := Some(e), events := x.events + [EventOf(e)]);
    FailureMoves(x, e);
    hide MoveConn;
    var (s1, s2, s3) := (s.(conns := s.conns[c := x1]), s.(conns := s.conns[c := x2]), s.(conns := s.conns[c := x3]));
    assert s1.conns[c := x2] == s2.conns && s2.conns[c := x3] == s3.conns;
    ConnFollow(s, c, CheckContext, x1, Silent, [ByConn(c, ReadFails(e))] + ([ByConn(c, Report)] + LeaveSteps(c)));
    ConnFollow(s1, c, ReadFails(e), x2, Silent, [ByConn(c, Report)] + LeaveSteps(c));
    ConnFollow(s2, c, Report, x3, Silent, LeaveSteps(c));
    Leaves(s3, c);
    hide LeaveSteps;
    assert s3.conns[c := x3.(pc := Finished)] == s.conns[c := x3.(pc := Finished)];
  }

  lemma FailureMoves(x: Conn, e: ReadError)
    requires x.pc.Top? && !x.cancelled
    ensures MoveConn(x, false, CheckContext) == Go(x.(pc := Reading), Silent)
    ensures MoveConn(x.(pc := Reading), false, ReadFails(e)) == Go(x.(pc := Failed(e), failure := Some(e)), Silent)
    ensures MoveConn(x.(pc := Failed(e), failure := Some(e)), false, Report) ==
              Go(x.(pc := Exiting, failure := Some(e), events := x.events + [EventOf(e)]), Silent)
  {
  }

  function LeaveSteps(c: nat): seq<Action> {
    [ByConn(c, Remove)] + ([ByConn(c, Finish)] + [])
  }

  /** Connection `c`, as given, with its receiver finished. */
  function Ended(s: State, c: nat, x: Conn): State
    requires c < |s.conns| && s.wg > 0
  {
    s.(conns := s.conns[c := x.(pc := Finished)], table := s.table - {x.id}, wg := s.wg - 1)
  }

  lemma {:induction false} Leaves(s: State, c: nat)
    requires c < |s.conns| && s.conns[c].pc.Exiting? && s.wg > 0
    ensures Run(s, LeaveSteps(c)) == Some(Ended(s, c, s.conns[c]))
  {
    var x := s.conns[c];
    var s1 := s.(conns := s.conns[c := x.(pc := Removed)], table := s.table - {x.id});
    var s2 := Ended(s, c, x);
    assert MoveConn(x, s.shutdown, Remove) == Go(x.(pc := Removed), DropEntry);
    assert MoveConn(x.(pc := Removed), s.shutdown, Finish) == Go(x.(pc := Finished), Done);
    hide MoveConn, Run;
    assert s1.conns[c := x.(pc := Finished)] == s2.conns;
    ConnFollow(s, c, Remove, x.(pc := Removed), DropEntry, [ByConn(c, Finish)] + []);
    ConnFollow(s1, c, Finish, x.(pc := Finished), Done, []);
    EmptyRun(s2);
  }

  /** A connection closed by closer `i`: marked, cancelled, one close frame written, its socket closed. */
  function ClosedBy(x: Conn, i: nat, code: int): Conn {
    x.(closedBy := Some(i), cancelled := true, wire := x.wire + [CloseFrame(code)], socketClosed := true)
  }

  /** Closer `i` at work on connection `c`, both as given. */
  function Closing(s: State, i: nat, c: nat, x: Conn, k: Closer): State
    requires i < |s.closers| && c < |s.conns|
  {
    s.(conns := s.conns[c := x], closers := s.closers[i := k])
  }

  lemma {:induction false} ClosingStep(s: State, i: nat, c: nat, x: Conn, k: Closer, act: CloserAct, k': Closer,
                                       e: CloserEffect, rest: seq<Action>)
    requires i < |s.closers| && c < |s.conns| && MoveCloser(Closing(s, i, c, x, k), i, act) == Act(k', e)
    requires e == Mark(c) || e == CancelConn(c) || e == Write(c) || e == CloseConn(c)
    ensures Run(Closing(s, i, c, x, k), [ByCloser(i, act)] + rest) ==
            Run(Closing(s, i, c, Touch(x, i, k'.code, e), k'), rest)
  {
    var s1 := Closing(s, i, c, x, k);
    var s2 := Closing(s, i, c, Touch(x, i, k'.code, e), k');
    Follow(s1, ByCloser(i, act), rest);
    assert s1.conns[c := s2.conns[c]] == s2.conns && s1.closers[i := k'] == s2.closers;
    assert Apply(s1, ByCloser(i, act)) == s2;
  }

  /** What closeConnection does next, by where it stands. */
  lemma WorkTable(s: State, i: nat, c: nat)
    requires i < |s.closers|
    ensures var k := s.closers[i];
            && (k.pc == Claim(c) && c < |s.conns| && s.conns[c].closedBy.None? ==>
                  MoveCloser(s, i, SetClosed) == Act(k.(pc := Cancel(c)), Mark(c)))
            && (k.pc == Cancel(c) ==> MoveCloser(s, i, CancelContext) == Act(k.(pc := SendClose(c)), CancelConn(c)))
            && (k.pc == SendClose(c) ==> MoveCloser(s, i, WriteFrame) == Act(k.(pc := Shut(c)), Write(c)))
            && (k.pc == Shut(c) ==> MoveCloser(s, i, CloseSocket) == Act(k.(pc := Delete(c)), CloseConn(c)))
            && (k.pc == Delete(c) ==> MoveCloser(s, i, DeleteEntry) == Act(k.(pc := Next), Forget(c)))
  {
  }

  lemma {:induction false} DeleteStep(s: State, i: nat, c: nat)
    requires i < |s.closers| && c < |s.conns| && s.closers[i].pc == Delete(c)
    ensures Run(s, [ByCloser(i, DeleteEntry)]) ==
            Some(s.(table := s.table - {s.conns[c].id}, closers := s.closers[i := s.closers[i].(pc := Next)]))
  {
    WorkTable(s, i, c);
    hide MoveCloser, Run;
    assert [ByCloser(i, DeleteEntry)] + [] == [ByCloser(i, DeleteEntry)];
    CloserFollow(s, i, DeleteEntry, s.closers[i].(pc := Next), Forget(c), []);
    EmptyRun(s.(table := s.table - {s.conns[c].id}, closers := s.closers[i := s.closers[i].(pc := Next)]));
  }

  lemma {:induction false} MarkStep(s: State, i: nat, c: nat, x: Conn, k: Closer, rest: seq<Action>)
    requires i < |s.closers| && c < |s.conns| && k.pc == Claim(c) && x.closedBy.None?
    ensures Run(Closing(s, i, c, x, k), [ByCloser(i, SetClosed)] + rest) ==
            Run(Closing(s, i, c, x.(closedBy := Some(i)), k.(pc := Cancel(c))), rest)
  {
    WorkTable(Closing(s, i, c, x, k), i, c);
    hide MoveCloser, Run;
    ClosingStep(s, i, c, x, k, SetClosed, k.(pc := Cancel(c)), Mark(c), rest);
  }

  lemma {:induction false} CancelStep(s: State, i: nat, c: nat, x: Conn, k: Closer, rest: seq<Action>)
    requires i < |s.closers| && c < |s.conns| && k.pc == Cancel(c)
    ensures Run(Closing(s, i, c, x, k), [ByCloser(i, CancelContext)] + rest) ==
            Run(Closing(s, i, c, x.(cancelled := true), k.(pc := SendClose(c))), rest)
  {
    WorkTable(Closing(s, i, c, x, k), i, c);
    hide MoveCloser, Run;
    ClosingStep(s, i, c, x, k, CancelContext, k.(pc := SendClose(c)), CancelConn(c), rest);
  }

  lemma {:induction false} WriteStep(s: State, i: nat, c: nat, x: Conn, k: Closer, rest: seq<Action>)
    requires i < |s.closers| && c < |s.conns| && k.pc == SendClose(c)
    ensures Run(Closing(s, i, c, x, k), [ByCloser(i, WriteFrame)] + rest) ==
            Run(Closing(s, i, c, x.(wire := x.wire + [CloseFrame(k.code)]), k.(pc := Shut(c))), rest)
  {
    WorkTable(Closing(s, i, c, x, k), i, c);
    hide MoveCloser, Run;
    ClosingStep(s, i, c, x, k, WriteFrame, k.(pc := Shut(c)), Write(c), rest);
  }

  lemma {:induction false} ShutSocketStep(s: State, i: nat, c: nat, x: Conn, k: Closer, rest: seq<Action>)
    requires i < |s.closers| && c < |s.conns| && k.pc == Shut(c)
    ensures Run(Closing(s, i, c, x, k), [ByCloser(i, CloseSocket)] + rest) ==
            Run(Closing(s, i, c, x.(socketClosed := true), k.(pc := Delete(c))), rest)
  {
    WorkTable(Closing(s, i, c, x, k), i, c);
    hide MoveCloser, Run;
    ClosingStep(s, i, c, x, k, CloseSocket, k.(pc := Delete(c)), CloseConn(c), rest);
  }

  /** closeConnection, left alone, on a connection not closed yet. */
  lemma {:induction false} CloseOne(s: State, i: nat, c: nat)
    requires i < |s.closers| && s.closers[i].pc == Claim(c) && c < |s.conns| && s.conns[c].closedBy.None?
    ensures var (k, x) := (s.closers[i], s.conns[c]);
            Run(s, CloseSteps(i)) ==
              Some(s.(conns := s.conns[c := ClosedBy(x, i, k.code)], table := s.table - {x.id},
                      closers := s.closers[i := k.(pc := Next)]))
  {
    hide Run;
    var (k, x) := (s.closers[i], s.conns[c]);
    var end := Closing(s, i, c, ClosedBy(x, i, k.code), k.(pc := Delete(c)));
    assert Run(s, CloseSteps(i)) == Run(end, [ByCloser(i, DeleteEntry)]) by {
      var x1 := x.(closedBy := Some(i));
      var x2 := x1.(cancelled := true);
      var x3 := x2.(wire := x.wire + [CloseFrame(k.code)]);
      var (last2, last3) := ([ByCloser(i, CloseSocket)] + [ByCloser(i, DeleteEntry)], [ByCloser(i, WriteFrame)]);
      assert s == Closing(s, i, c, x, k);
      hide Closing;
      MarkStep(s, i, c, x, k, [ByCloser(i, CancelContext)] + (last3 + last2));
      CancelStep(s, i, c, x1, k.(pc := Cancel(c)), last3 + last2);
      WriteStep(s, i, c, x2, k.(pc := SendClose(c)), last2);
      ShutSocketStep(s, i, c, x3, k.(pc := Shut(c)), [ByCloser(i, DeleteEntry)]);
      assert CloseSteps(i) == [ByCloser(i, SetClosed)] + ([ByCloser(i, CancelContext)] + (last3 + last2));
    }
    DeleteStep(end, i, c);
    assert end.closers[i := k.(pc := Next)] == s.closers[i := k.(pc := Next)];
  }

  function CloseSteps(i: nat): seq<Action> {
    [ByCloser(i, SetClosed), ByCloser(i, CancelContext), ByCloser(i, WriteFrame), ByCloser(i, CloseSocket),
     ByCloser(i, DeleteEntry)]
  }

  lemma {:induction false} PickStep(s: State, i: nat, rest: seq<Action>)
    requires i < |s.closers| && s.closers[i].pc.Next?
    ensures var k := s.closers[i];
            Run(s, [ByCloser(i, PickNext)] + rest) ==
              Run(s.(closers := s.closers[i := if k.todo != [] then k.(todo := k.todo[1..], pc := Claim(k.todo[0]))
                                               else k.(pc := if k.all then Waiting else Idle)]), rest)
  {
    var k := s.closers[i];
    var k' := if k.todo != [] then k.(todo := k.todo[1..], pc := Claim(k.todo[0]))
              else k.(pc := if k.all then Waiting else Idle);
    assert MoveCloser(s, i, PickNext) == Act(k', Nothing);
    hide MoveCloser, Run;
    CloserFollow(s, i, PickNext, k', Nothing, rest);
  }

  /** A closer that claims a connection already marked closed leaves it as it is. */
  lemma {:induction false} SkipStep(s: State, i: nat, c: nat, rest: seq<Action>)
    requires i < |s.closers| && s.closers[i].pc == Claim(c) && c < |s.conns| && s.conns[c].closedBy.Some?
    ensures Run(s, [ByCloser(i, SetClosed)] + rest) ==
            Run(s.(closers := s.closers[i := s.closers[i].(pc := Next)]), rest)
  {
    var k' := s.closers[i].(pc := Next);
    assert MoveCloser(s, i, SetClosed) == Act(k', Nothing);
    hide MoveCloser, Run;
    CloserFollow(s, i, SetClosed, k', Nothing, rest);
  }

  lemma {:induction false} StartStep(s: State, i: nat, id: Id, code: int, rest: seq<Action>)
    requires i < |s.closers| && s.closers[i].pc.Idle?
    ensures Run(s, [ByCloser(i, StartClose(id, code))] + rest) ==
            Run(if id in s.table then s.(closers := s.closers[i := Closer(false, code, [s.table[id]], Next)]) else s,
                rest)
  {
    Follow(s, ByCloser(i, StartClose(id, code)), rest);
    assert id !in s.table ==> s.closers[i := s.closers[i]] == s.closers;
    hide Run;
  }

  /** Close, left alone: an unknown id changes nothing, a connection already marked closed neither; any other is
      marked, cancelled, sent one close frame with the given code, its socket closed and its id taken out of the
      map. */
  lemma {:induction false} CloseAlone(s: State, i: nat, id: Id, code: int) returns (actions: seq<Action>)
    requires i < |s.closers| && s.closers[i].pc.Idle? && (id in s.table ==> s.table[id] < |s.conns|)
    ensures var r := Run(s, actions);
            && r.Some? && r.value.wg == s.wg && r.value.shutdown == s.shutdown
            && |r.value.closers| == |s.closers| && r.value.closers[i].pc.Idle?
            && if id in s.table && s.conns[s.table[id]].closedBy.None? then
                 var (c, x) := (s.table[id], s.conns[s.table[id]]);
                 && r.value.conns == s.conns[c := ClosedBy(x, i, code)]
                 && r.value.table == s.table - {x.id}
               else r.value.conns == s.conns && r.value.table == s.table
  {
    hide Run, MoveCloser;
    var start := [ByCloser(i, StartClose(id, code))];
    if id !in s.table {
      actions := start + [];
      StartStep(s, i, id, code, []);
      EmptyRun(s);
    } else {
      var c := s.table[id];
      var claimed := s.(closers := s.closers[i := Closer(false, code, [], Claim(c))]);
      var rest := WorkOnClaimed(claimed, i, c);
      StartStep(s, i, id, code, [ByCloser(i, PickNext)] + rest);
      var s1 := s.(closers := s.closers[i := Closer(false, code, [c], Next)]);
      PickStep(s1, i, rest);
      assert [c][1..] == [] && s1.closers[i := claimed.closers[i]] == claimed.closers;
      actions := start + ([ByCloser(i, PickNext)] + rest);
    }
  }

  /** The rest of a Close once it has found its connection. */
  lemma {:induction false} WorkOnClaimed(s: State, i: nat, c: nat) returns (actions: seq<Action>)
    requires i < |s.closers| && c < |s.conns|
    requires var k := s.closers[i]; k.pc == Claim(c) && k.todo == [] && !k.all
    ensures var k := s.closers[i];
            Run(s, actions) ==
              Some(if s.conns[c].closedBy.None?
                   then s.(conns := s.conns[c := ClosedBy(s.conns[c], i, k.code)], table := s.table - {s.conns[c].id},
                           closers := s.closers[i := k.(pc := Idle)])
                   else s.(closers := s.closers[i := k.(pc := Idle)]))
  {
    hide Run, MoveCloser;
    var k := s.closers[i];
    var last := [ByCloser(i, PickNext)] + [];
    if s.conns[c].closedBy.Some? {
      actions := [ByCloser(i, SetClosed)] + last;
      var s1 := s.(closers := s.closers[i := k.(pc := Next)]);
      SkipStep(s, i, c, last);
      FinishClose(s1, i);
      assert s1.closers[i := k.(pc := Idle)] == s.closers[i := k.(pc := Idle)];
    } else {
      actions := CloseSteps(i) + last;
      CloseOne(s, i, c);
      RunAppend(s, CloseSteps(i), last);
      var s1 := Run(s, CloseSteps(i)).value;
      FinishClose(s1, i);
      assert s1.closers[i := k.(pc := Idle)] == s.closers[i := k.(pc := Idle)];
    }
  }

  lemma {:induction false} FinishClose(s: State, i: nat)
    requires i < |s.closers| && s.closers[i].pc.Next? && s.closers[i].todo == [] && !s.closers[i].all
    ensures Run(s, [ByCloser(i, PickNext)] + []) == Some(s.(closers := s.closers[i := s.closers[i].(pc := Idle)]))
  {
    PickStep(s, i, []);
    EmptyRun(s.(closers := s.closers[i := s.closers[i].(pc := Idle)]));
    hide Run;
  }

  /** The state a sweep over `todo` leaves: those connections closed, their ids out of the map. */
  ghost predicate SweptAll(s: State, r: State, i: nat, todo: seq<nat>, code: int) {
    && |r.conns| == |s.conns| && r.wg == s.wg && r.shutdown == s.shutdown && |r.closers| == |s.closers|
    && (forall c :: 0 <= c < |s.conns| ==>
          r.conns[c] == if c in todo then ClosedBy(s.conns[c], i, code) else s.conns[c])
    && (forall id :: id in r.table <==>
          id in s.table && forall c :: 0 <= c < |s.conns| && c in todo ==> s.conns[c].id != id)
    && (forall id :: id in r.table ==> r.table[id] == s.table[id])
  }

  lemma SweptCons(s: State, s2: State, r: State, i: nat, c: nat, rest: seq<nat>, code: int)
    requires c < |s.conns| && c !in rest && i < |s.closers| && |s2.closers| == |s.closers|
    requires s2.conns == s.conns[c := ClosedBy(s.conns[c], i, code)] && s2.table == s.table - {s.conns[c].id}
    requires s2.wg == s.wg && s2.shutdown == s.shutdown && SweptAll(s2, r, i, rest, code)
    ensures SweptAll(s, r, i, [c] + rest, code)
  {
    forall d | 0 <= d < |s.conns|
      ensures r.conns[d] == if d in [c] + rest then ClosedBy(s.conns[d], i, code) else s.conns[d]
      ensures s2.conns[d].id == s.conns[d].id
    {
    }
    hide ClosedBy;
    forall id
      ensures id in r.table <==>
              id in s.table && forall d :: 0 <= d < |s.conns| && d in [c] + rest ==> s.conns[d].id != id
    {
      assert id in r.table <==> id in s2.table && forall d :: 0 <= d < |s2.conns| && d in rest ==> s2.conns[d].id != id;
    }
  }

  /** A sweep, left alone, closes every connection on its list. */
  lemma {:induction false} SweepAlone(s: State, i: nat) returns (actions: seq<Action>)
    requires i < |s.closers| && s.closers[i].pc.Next? && s.closers[i].all
    requires forall c :: c in s.closers[i].todo ==> c < |s.conns| && s.conns[c].closedBy.None?
    requires var todo := s.closers[i].todo; forall a, b :: 0 <= a < b < |todo| ==> todo[a] != todo[b]
    ensures var k := s.closers[i];
            && Run(s, actions).Some?
            && SweptAll(s, Run(s, actions).value, i, k.todo, k.code)
            && Run(s, actions).value.closers[i] == k.(todo := [], pc := Waiting)
    decreases |s.closers[i].todo|
  {
    hide Run, MoveCloser;
    var k := s.closers[i];
    if k.todo == [] {
      actions := [ByCloser(i, PickNext)] + [];
      PickStep(s, i, []);
      EmptyRun(s.(closers := s.closers[i := k.(pc := Waiting)]));
    } else {
      var (c, rest) := (k.todo[0], k.todo[1..]);
      assert c in k.todo && k.todo == [c] + rest;
      assert forall d :: d in rest ==> d in k.todo && d != c;
      var s1 := s.(closers := s.closers[i := k.(todo := rest, pc := Claim(c))]);
      CloseOne(s1, i, c);
      var s2 := Run(s1, CloseSteps(i)).value;
      var later := SweepAlone(s2, i);
      PickStep(s, i, CloseSteps(i) + later);
      RunAppend(s1, CloseSteps(i), later);
      actions := [ByCloser(i, PickNext)] + (CloseSteps(i) + later);
      var r := Run(s2, later).value;
      SweptCons(s, s2, r, i, c, rest, k.code);
      hide SweptAll, CloseSteps, ClosedBy;
    }
  }

  lemma {:induction false} SnapshotStep(s: State, i: nat, order: seq<nat>, rest: seq<Action>)
    requires i < |s.closers| && s.closers[i].pc.Idle? && IsSnapshot(s.table, order)
    ensures Run(s, [ByCloser(i, StartCloseAll)] + ([ByCloser(i, TakeSnapshot(order))] + rest)) ==
            Run(s.(shutdown := true, closers := s.closers[i := Closer(true, 1001, order, Next)]), rest)
  {
    var s1 := s.(shutdown := true, closers := s.closers[i := Closer(true, 1001, [], Snapshot)]);
    Follow(s, ByCloser(i, StartCloseAll), [ByCloser(i, TakeSnapshot(order))] + rest);
    Follow(s1, ByCloser(i, TakeSnapshot(order)), rest);
    assert s1.closers[i := Closer(true, 1001, order, Next)] == s.closers[i := Closer(true, 1001, order, Next)];
    hide Run;
  }

  /** CloseAll, left alone, with no entry already marked closed: it cancels the parent and closes every connection in
      the map with the code for going away, leaves the map empty, and waits. */
  lemma {:induction false} CloseAllAlone(s: State, i: nat) returns (actions: seq<Action>)
    requires TableInv(s) && i < |s.closers| && s.closers[i].pc.Idle?
    requires forall id :: id in s.table ==> s.conns[s.table[id]].closedBy.None?
    ensures var r := Run(s, actions);
            && r.Some? && r.value.shutdown && r.value.table == map[] && |r.value.closers| == |s.closers|
            && r.value.closers[i].pc.Waiting? && |r.value.conns| == |s.conns|
            && forall c :: 0 <= c < |s.conns| ==>
                 r.value.conns[c] == if Registered(s, c) then ClosedBy(s.conns[c], i, 1001) else s.conns[c]
  {
    hide Run, MoveCloser;
    var order := SnapshotExists(s);
    var s1 := s.(shutdown := true, closers := s.closers[i := Closer(true, 1001, order, Next)]);
    var sweep := SweepAlone(s1, i);
    SnapshotStep(s, i, order, sweep);
    actions := [ByCloser(i, StartCloseAll)] + ([ByCloser(i, TakeSnapshot(order))] + sweep);
    forall c: nat | c < |s.conns|
      ensures c in order <==> Registered(s, c)
    {
      if Registered(s, c) {
        assert s.conns[c].id in s.table;
      }
    }
    var r := Run(s, actions).value;
    forall id
      ensures id !in r.table
    {
      if id in s.table {
        assert s.table[id] in order;
      }
    }
  }
}
