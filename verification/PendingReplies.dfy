/** Matching replies to callers: references from an atomic counter, a table from reference to reply channel,
    and read loops that look a reply up under the table's lock and send it afterwards, outside the lock. */
module PendingReplies {
  import opened Wrappers

  const WRAP: nat := 0x1_0000_0000_0000_0000

  // ---------------------------------------------------------------------------------------------
  // References
  // ---------------------------------------------------------------------------------------------

  function Digit(d: nat): char
    requires d < 10
  {
    ('0' as int + d) as char
  }

  /** The decimal numeral of `n`. */
  function Decimal(n: nat): (s: string)
    ensures s != ""
  {
    if n < 10 then [Digit(n)] else Decimal(n / 10) + [Digit(n % 10)]
  }

  function ReadDecimal(s: string): int {
    if s == "" then 0 else 10 * ReadDecimal(s[..|s| - 1]) + (s[|s| - 1] as int - '0' as int)
  }

  lemma {:induction false} DecimalRoundTrip(n: nat)
    ensures ReadDecimal(Decimal(n)) == n
  {
    var s := Decimal(n);
    if n >= 10 {
      DecimalRoundTrip(n / 10);
      assert s[..|s| - 1] == Decimal(n / 10);
    } else {
      assert s[..|s| - 1] == "";
    }
  }

  lemma DecimalInjective(m: nat, n: nat)
    requires Decimal(m) == Decimal(n)
    ensures m == n
  {
    DecimalRoundTrip(m);
    DecimalRoundTrip(n);
  }

  // ---------------------------------------------------------------------------------------------
  // The machine
  // ---------------------------------------------------------------------------------------------

  datatype Message = Message(event: string, ref: string)

  predicate IsReply(m: Message) {
    m.event == "phx_reply"
  }

  /** What a call ended with. */
  datatype Result = Reply(index: nat) | SendError | Timeout | ClientClosed

  /** A reference handed out by `NextRef`, and the `SendAndWait` call that uses it, if any. `Leaving` has its
      result and runs the deferred cleanup: delete from the table, then close the channel. */
  datatype CallPc =
    | Issued
    | Registered
    | Sent
    | Leaving(result: Result)
    | Deleted(result: Result)
    | Returned(result: Result)

  /** `buffer` is the reply channel, of capacity one; messages are named by their arrival index. */
  datatype Call = Call(number: nat, pc: CallPc, buffer: Option<nat>)

  datatype Routed = InFlight(call: nat) | ToWaiter(call: nat) | DroppedDuplicate | ToHandler | Unhandled | Panicked

  datatype State = State(
    issued: nat,                 // NextRef calls so far
    calls: seq<Call>,
    table: map<string, nat>,     // pendingRequests: reference to call
    handlers: set<string>,
    inbox: seq<Message>,         // every message parsed so far
    routed: seq<Routed>,         // what became of each
    panicked: bool)              // a send on a closed channel

  function Ref(c: Call): string {
    Decimal(c.number)
  }

  datatype Action =
    | NextRef
    | Register(i: nat)
    | SendOk(i: nat) | SendFails(i: nat)
    | Receive(i: nat)            // take the reply out of the channel
    | GiveUp(i: nat, why: Result)
    | Delete(i: nat)
    | CloseChannel(i: nat)
    | On(event: string)
    | Arrive(m: Message)         // a read loop parses a message and looks it up
    | Deliver(j: nat)            // ... and sends it to the channel it found

  /** Nothing happens after a panic. */
  predicate Enabled(s: State, a: Action) {
    !s.panicked &&
    match a
    case NextRef => true
    case Register(i) => i < |s.calls| && s.calls[i].pc.Issued?
    case SendOk(i) => i < |s.calls| && s.calls[i].pc.Registered?
    case SendFails(i) => i < |s.calls| && s.calls[i].pc.Registered?
    case Receive(i) => i < |s.calls| && s.calls[i].pc.Sent? && s.calls[i].buffer.Some?
    case GiveUp(i, why) => i < |s.calls| && s.calls[i].pc.Sent? && (why.Timeout? || why.ClientClosed?)
    case Delete(i) => i < |s.calls| && s.calls[i].pc.Leaving?
    case CloseChannel(i) => i < |s.calls| && s.calls[i].pc.Deleted?
    case On(_) => true
    case Arrive(_) => true
    case Deliver(j) => j < |s.routed| && s.routed[j].InFlight? && s.routed[j].call < |s.calls|
  }

  function Move(s: State, i: nat, pc: CallPc): State
    requires i < |s.calls|
  {
    s.(calls := s.calls[i := s.calls[i].(pc := pc)])
  }

  /** `handleMessage` up to the send. */
  function Route(s: State, m: Message): Routed {
    if IsReply(m) && m.ref != "" && m.ref in s.table then InFlight(s.table[m.ref])
    else if m.event in s.handlers then ToHandler
    else Unhandled
  }

  function Apply(s: State, a: Action): State
    requires Enabled(s, a)
  {
    match a
    case NextRef => s.(issued := s.issued + 1, calls := s.calls + [Call((s.issued + 1) % WRAP, Issued, None)])
    case Register(i) => Move(s, i, Registered).(table := s.table[Ref(s.calls[i]) := i])
    case SendOk(i) => Move(s, i, Sent)
    case SendFails(i) => Move(s, i, Leaving(SendError))
    case Receive(i) =>
      var c := s.calls[i];
      s.(calls := s.calls[i := c.(pc := Leaving(Reply(c.buffer.value)), buffer := None)])
    case GiveUp(i, why) => Move(s, i, Leaving(why))
    case Delete(i) => Move(s, i, Deleted(s.calls[i].pc.result)).(table := s.table - {Ref(s.calls[i])})
    case CloseChannel(i) => Move(s, i, Returned(s.calls[i].pc.result))
    case On(event) => s.(handlers := s.handlers + {event})
    case Arrive(m) => s.(inbox := s.inbox + [m], routed := s.routed + [Route(s, m)])
    case Deliver(j) =>
      var i := s.routed[j].call;
      if s.calls[i].pc.Returned? then s.(panicked := true, routed := s.routed[j := Panicked])
      else if s.calls[i].buffer.Some? then s.(routed := s.routed[j := DroppedDuplicate])
      else s.(routed := s.routed[j := ToWaiter(i)], calls := s.calls[i := s.calls[i].(buffer := Some(j))])
  }

  ghost predicate Begin(s: State) {
    s == State(0, [], map[], {}, [], [], false)
  }

  ghost function Run(s: State, actions: seq<Action>): Option<State>
    decreases |actions|
  {
    if actions == [] then Some(s)
    else if !Enabled(s, actions[0]) then None
    else Run(Apply(s, actions[0]), actions[1..])
  }

  // ---------------------------------------------------------------------------------------------
  // Invariants
  // ---------------------------------------------------------------------------------------------

  /** Between registration and the deferred delete. */
  predicate InTable(pc: CallPc) {
    pc.Registered? || pc.Sent? || pc.Leaving?
  }

  ghost predicate NumbersInv(s: State) {
    && |s.calls| == s.issued
    && forall i :: 0 <= i < |s.calls| ==> s.calls[i].number == (i + 1) % WRAP
  }

  /** Every entry of the table leads to a call that is between registration and cleanup and carries that
      reference. */
  ghost predicate TableSound(s: State) {
    forall r :: r in s.table ==>
      s.table[r] < |s.calls| && Ref(s.calls[s.table[r]]) == r && InTable(s.calls[s.table[r]].pc)
  }

  /** And every such call has its entry. */
  ghost predicate TableComplete(s: State) {
    forall i :: 0 <= i < |s.calls| && InTable(s.calls[i].pc) ==>
      Ref(s.calls[i]) in s.table && s.table[Ref(s.calls[i])] == i
  }

  function ResultOf(pc: CallPc): Option<Result> {
    if pc.Leaving? || pc.Deleted? || pc.Returned? then Some(pc.result) else None
  }

  /** Message `j` is a reply that carries call `i`'s reference. */
  ghost predicate Matches(s: State, j: nat, i: nat) {
    j < |s.inbox| && i < |s.calls| && IsReply(s.inbox[j]) && s.inbox[j].ref == Ref(s.calls[i])
  }

  /** Message `j` was the reply call `i` returned, or returns. */
  ghost predicate Returns(s: State, i: nat, j: nat) {
    i < |s.calls| && ResultOf(s.calls[i].pc) == Some(Reply(j))
  }

  ghost predicate Buffered(s: State, i: nat, j: nat) {
    i < |s.calls| && s.calls[i].buffer == Some(j)
  }

  ghost predicate Delivered(s: State, i: nat, j: nat) {
    j < |s.routed| && s.routed[j] == ToWaiter(i)
  }

  /** Only matching replies are on their way to a call, and a message delivered to a call is the one it returns
      or the one left in its channel, never both. */
  ghost predicate CorrelationInv(s: State) {
    && |s.routed| == |s.inbox|
    && (forall j :: 0 <= j < |s.routed| && (s.routed[j].InFlight? || s.routed[j].ToWaiter?) ==>
          Matches(s, j, s.routed[j].call))
    && (forall i: nat, j: nat :: Delivered(s, i, j) <==> Returns(s, i, j) || Buffered(s, i, j))
    && (forall i: nat, j: nat :: !(Returns(s, i, j) && Buffered(s, i, j)))
  }

  lemma SoundStep(s: State, a: Action)
    requires TableSound(s) && Enabled(s, a)
    ensures TableSound(Apply(s, a))
  {
    var s' := Apply(s, a);
    forall r | r in s'.table
      ensures s'.table[r] < |s'.calls| && Ref(s'.calls[s'.table[r]]) == r && InTable(s'.calls[s'.table[r]].pc)
    {
      if r in s.table && s'.table[r] == s.table[r] {
        assert Ref(s.calls[s.table[r]]) == r;
      }
    }
  }

  lemma {:induction false} SoundRun(s: State, actions: seq<Action>)
    requires TableSound(s) && Run(s, actions).Some?
    ensures TableSound(Run(s, actions).value)
    decreases |actions|
  {
    if actions != [] {
      SoundStep(s, actions[0]);
      SoundRun(Apply(s, actions[0]), actions[1..]);
    }
  }

  lemma NumbersStep(s: State, a: Action)
    requires NumbersInv(s) && Enabled(s, a)
    ensures NumbersInv(Apply(s, a)) && s.issued <= Apply(s, a).issued
  {
  }

  /** Before the counter wraps no two calls share a reference. */
  lemma RefsDistinct(s: State, i: nat, j: nat)
    requires NumbersInv(s) && s.issued < WRAP && i < |s.calls| && j < |s.calls| && Ref(s.calls[i]) == Ref(s.calls[j])
    ensures i == j
  {
    DecimalInjective(s.calls[i].number, s.calls[j].number);
  }

  lemma CompleteStep(s: State, a: Action)
    requires NumbersInv(s) && TableComplete(s) && Enabled(s, a) && Apply(s, a).issued < WRAP
    ensures TableComplete(Apply(s, a))
  {
    var s' := Apply(s, a);
    NumbersStep(s, a);
    forall k | 0 <= k < |s'.calls| && InTable(s'.calls[k].pc)
      ensures Ref(s'.calls[k]) in s'.table && s'.table[Ref(s'.calls[k])] == k
    {
      if a.Register? || a.Delete? {
        if Ref(s.calls[a.i]) == Ref(s.calls[k]) {
          RefsDistinct(s, a.i, k);
        }
      }
    }
  }

  lemma {:induction false} CompleteRun(s: State, actions: seq<Action>)
    requires NumbersInv(s) && TableComplete(s) && Run(s, actions).Some?
    requires Run(s, actions).value.issued < WRAP
    ensures TableComplete(Run(s, actions).value)
    ensures s.issued <= Run(s, actions).value.issued
    decreases |actions|
  {
    if actions != [] {
      var s' := Apply(s, actions[0]);
      NumbersStep(s, actions[0]);
      IssuedGrows(s', actions[1..]);
      CompleteStep(s, actions[0]);
      CompleteRun(s', actions[1..]);
    }
  }

  lemma {:induction false} IssuedGrows(s: State, actions: seq<Action>)
    requires Run(s, actions).Some?
    ensures s.issued <= Run(s, actions).value.issued
    decreases |actions|
  {
    if actions != [] {
      IssuedGrows(Apply(s, actions[0]), actions[1..]);
    }
  }

  /** The pending table is exact: in every run of fewer than 2^64 references its keys are exactly the
      references of the calls between registration and cleanup, each mapped to its own call. */
  lemma {:induction false} PendingTableExact(s: State, actions: seq<Action>)
    requires Begin(s) && Run(s, actions).Some? && Run(s, actions).value.issued < WRAP
    ensures var t := Run(s, actions).value;
            forall r: string, i: nat :: (r in t.table && t.table[r] == i) <==>
                                        (i < |t.calls| && InTable(t.calls[i].pc) && Ref(t.calls[i]) == r)
  {
    SoundRun(s, actions);
    CompleteRun(s, actions);
  }

  /** So a reply is routed to a call exactly when that call is waiting and the reply carries its reference; any
      other message goes to its event's handler if there is one, and nowhere otherwise. */
  lemma {:induction false} ReplyFindsItsCaller(s: State, actions: seq<Action>, m: Message)
    requires Begin(s) && Run(s, actions).Some? && Run(s, actions).value.issued < WRAP
    ensures var t := Run(s, actions).value;
            var waiting := (i: nat) => i < |t.calls| && InTable(t.calls[i].pc) && Ref(t.calls[i]) == m.ref;
            && (forall i: nat :: Route(t, m) == InFlight(i) <==> IsReply(m) && waiting(i))
            && (Route(t, m) == ToHandler <==> !(IsReply(m) && exists i: nat :: waiting(i)) && m.event in t.handlers)
            && (Route(t, m) == Unhandled <==> !(IsReply(m) && exists i: nat :: waiting(i)) && m.event !in t.handlers)
  {
    PendingTableExact(s, actions);
    SoundRun(s, actions);
    var t := Run(s, actions).value;
    hide Run, Decimal;
    if m.ref in t.table {
      var i := t.table[m.ref];
      assert i < |t.calls| && InTable(t.calls[i].pc) && Ref(t.calls[i]) == m.ref;
    }
  }

  lemma MatchesKept(s: State, a: Action)
    requires CorrelationInv(s) && TableSound(s) && Enabled(s, a)
    ensures var s' := Apply(s, a);
            && |s'.routed| == |s'.inbox|
            && forall j :: 0 <= j < |s'.routed| && (s'.routed[j].InFlight? || s'.routed[j].ToWaiter?) ==>
                 Matches(s', j, s'.routed[j].call)
  {
    var s' := Apply(s, a);
    forall j | 0 <= j < |s'.routed| && (s'.routed[j].InFlight? || s'.routed[j].ToWaiter?)
      ensures Matches(s', j, s'.routed[j].call)
    {
      if j < |s.routed| {
        assert Matches(s, j, s.routed[j].call);
        assert s'.routed[j].call == s.routed[j].call;
      }
    }
  }

  /** One message's relation to one call after a step that is not its delivery or its receipt. */
  lemma DeliveryKept(s: State, a: Action, i: nat, j: nat)
    requires CorrelationInv(s) && Enabled(s, a)
    ensures var s' := Apply(s, a);
            && (Delivered(s', i, j) <==> Returns(s', i, j) || Buffered(s', i, j))
            && !(Returns(s', i, j) && Buffered(s', i, j))
  {
    assert Delivered(s, i, j) <==> Returns(s, i, j) || Buffered(s, i, j);
    assert !(Returns(s, i, j) && Buffered(s, i, j));
    if a.Deliver? && s.routed[a.j].call == i {
      assert !Delivered(s, i, a.j);
      assert Delivered(s, i, a.j) <==> Returns(s, i, a.j) || Buffered(s, i, a.j);
    }
  }

  lemma CorrelationStep(s: State, a: Action)
    requires CorrelationInv(s) && TableSound(s) && Enabled(s, a)
    ensures CorrelationInv(Apply(s, a))
  {
    MatchesKept(s, a);
    forall i: nat, j: nat
      ensures var s' := Apply(s, a);
              && (Delivered(s', i, j) <==> Returns(s', i, j) || Buffered(s', i, j))
              && !(Returns(s', i, j) && Buffered(s', i, j))
    {
      DeliveryKept(s, a, i, j);
    }
  }

  lemma {:induction false} CorrelationRun(s: State, actions: seq<Action>)
    requires CorrelationInv(s) && TableSound(s) && Run(s, actions).Some?
    ensures CorrelationInv(Run(s, actions).value)
    decreases |actions|
  {
    hide CorrelationInv, TableSound, Apply, Enabled;
    if actions != [] {
      CorrelationStep(s, actions[0]);
      SoundStep(s, actions[0]);
      CorrelationRun(Apply(s, actions[0]), actions[1..]);
    }
  }

  /** Reply correlation, in every run (references wrapping included): a call returns a message only if it is a
      reply carrying the call's own reference; no message is returned by two calls; and what was delivered to
      a call is what it returned or what its channel still holds. */
  lemma {:induction false} RepliesCorrelate(s: State, actions: seq<Action>)
    requires Begin(s) && Run(s, actions).Some?
    ensures var t := Run(s, actions).value;
            && (forall i: nat, j: nat :: Returns(t, i, j) ==> Matches(t, j, i))
            && (forall i: nat, k: nat, j: nat :: Returns(t, i, j) && Returns(t, k, j) ==> i == k)
            && (forall i: nat, j: nat :: Delivered(t, i, j) <==> Returns(t, i, j) || Buffered(t, i, j))
  {
    CorrelationRun(s, actions);
    var t := Run(s, actions).value;
    forall i: nat, j: nat | Returns(t, i, j)
      ensures Matches(t, j, i) && Delivered(t, i, j)
    {
      assert Delivered(t, i, j);
    }
  }

  // Nothing is dropped without need, and nothing delivered is lost

  /** Message `j` is a duplicate: another reply was delivered to the call whose reference it carries. */
  ghost predicate Duplicates(s: State, j: nat) {
    exists i: nat, k: nat :: k != j && Matches(s, j, i) && Delivered(s, i, k)
  }

  ghost predicate DropsInv(s: State) {
    forall j :: 0 <= j < |s.routed| && s.routed[j].DroppedDuplicate? ==> Duplicates(s, j)
  }

  lemma DuplicateStays(s: State, a: Action, j: nat)
    requires Enabled(s, a) && Duplicates(s, j)
    ensures Duplicates(Apply(s, a), j)
  {
    var s' := Apply(s, a);
    var i: nat, k: nat :| k != j && Matches(s, j, i) && Delivered(s, i, k);
    assert Matches(s', j, i) && Delivered(s', i, k);
  }

  lemma DropsStep(s: State, a: Action)
    requires CorrelationInv(s) && DropsInv(s) && Enabled(s, a)
    ensures DropsInv(Apply(s, a))
  {
    var s' := Apply(s, a);
    forall j | 0 <= j < |s'.routed| && s'.routed[j].DroppedDuplicate?
      ensures Duplicates(s', j)
    {
      if j < |s.routed| && s.routed[j].DroppedDuplicate? {
        DuplicateStays(s, a, j);
      } else {
        DropIsDuplicate(s, j);
        DuplicateStays(s, a, j);
      }
    }
  }

  /** A reply in flight to a call whose channel is full duplicates the one in it. */
  lemma DropIsDuplicate(s: State, j: nat)
    requires CorrelationInv(s) && j < |s.routed| && s.routed[j].InFlight?
    requires s.routed[j].call < |s.calls| && s.calls[s.routed[j].call].buffer.Some?
    ensures Duplicates(s, j)
  {
    var i := s.routed[j].call;
    var k := s.calls[i].buffer.value;
    assert Buffered(s, i, k);
    assert Delivered(s, i, k) && Matches(s, j, i);
  }

  lemma {:induction false} DropsRun(s: State, actions: seq<Action>)
    requires CorrelationInv(s) && TableSound(s) && DropsInv(s) && Run(s, actions).Some?
    ensures DropsInv(Run(s, actions).value)
    decreases |actions|
  {
    hide CorrelationInv, TableSound, DropsInv, Apply, Enabled;
    if actions != [] {
      CorrelationStep(s, actions[0]);
      SoundStep(s, actions[0]);
      DropsStep(s, actions[0]);
      DropsRun(Apply(s, actions[0]), actions[1..]);
    }
  }

  /** In every run a message is dropped only as a duplicate: a different reply was delivered to the call whose
      reference it carries. */
  lemma {:induction false} OnlyDuplicatesAreDropped(s: State, actions: seq<Action>, j: nat)
    requires Begin(s) && Run(s, actions).Some?
    requires j < |Run(s, actions).value.routed| && Run(s, actions).value.routed[j].DroppedDuplicate?
    ensures var t := Run(s, actions).value;
            exists i: nat, k: nat :: k != j && Matches(t, j, i) && Delivered(t, i, k)
  {
    DropsRun(s, actions);
  }

  /** In every run a call that still waits when a reply was delivered to it can take it, and then returns exactly that
      message. */
  lemma {:induction false} DeliveredIsTaken(s: State, actions: seq<Action>, i: nat, j: nat)
    requires Begin(s) && Run(s, actions).Some? && !Run(s, actions).value.panicked
    requires var t := Run(s, actions).value; Delivered(t, i, j) && i < |t.calls| && t.calls[i].pc.Sent?
    ensures var t := Run(s, actions).value; Enabled(t, Receive(i)) && Returns(Apply(t, Receive(i)), i, j)
  {
    CorrelationRun(s, actions);
    var t := Run(s, actions).value;
    assert Buffered(t, i, j);
  }

  // What a run's steps amount to, told from their names

  /** How call `i` ends by this step, if it does. */
  ghost predicate EndsCall(a: Action, i: nat) {
    a == SendFails(i) || a == Receive(i) || (a.GiveUp? && a.i == i)
  }

  /** The result that goes with the step: the send's error, the reason given, or some reply. */
  ghost predicate ResultFits(a: Action, result: Result) {
    match a
    case SendFails(_) => result.SendError?
    case Receive(_) => result.Reply?
    case GiveUp(_, why) => result == why
    case _ => false
  }

  /** Some step of the run ended call `i`, with this result. */
  ghost predicate EndedIn(actions: seq<Action>, i: nat, result: Result) {
    exists n :: 0 <= n < |actions| && EndsCall(actions[n], i) && ResultFits(actions[n], result)
  }

  lemma {:induction false} ResultsRun(s: State, actions: seq<Action>, i: nat)
    requires Run(s, actions).Some? && i < |Run(s, actions).value.calls|
    requires i < |s.calls| ==> ResultOf(s.calls[i].pc).None?
    ensures var result := ResultOf(Run(s, actions).value.calls[i].pc);
            && (result.Some? ==> EndedIn(actions, i, result.value))
            && (result.None? ==> forall n :: 0 <= n < |actions| ==> !EndsCall(actions[n], i))
    decreases |actions|
  {
    if actions != [] {
      var (a, rest, s') := (actions[0], actions[1..], Apply(s, actions[0]));
      var result := ResultOf(Run(s, actions).value.calls[i].pc);
      if i < |s'.calls| && ResultOf(s'.calls[i].pc).Some? {
        FatesAreFinal(s', rest);
        assert EndsCall(actions[0], i) && ResultFits(actions[0], result.value);
      } else {
        ResultsRun(s', rest, i);
        if result.Some? {
          var n :| 0 <= n < |rest| && EndsCall(rest[n], i) && ResultFits(rest[n], result.value);
          assert actions[n + 1] == rest[n];
        } else {
          assert forall n :: 1 <= n < |actions| ==> actions[n] == rest[n - 1];
        }
      }
    }
  }

  /** In every run a call has a result if and only if one of its steps ended it: a failed send with that error, a
      timeout or a shutdown with that reason, a receipt with a reply. */
  lemma {:induction false} ResultsFollowSteps(s: State, actions: seq<Action>, i: nat)
    requires Begin(s) && Run(s, actions).Some? && i < |Run(s, actions).value.calls|
    ensures var result := ResultOf(Run(s, actions).value.calls[i].pc);
            && (result.Some? <==> exists n :: 0 <= n < |actions| && EndsCall(actions[n], i))
            && (result.Some? ==> EndedIn(actions, i, result.value))
  {
    ResultsRun(s, actions, i);
  }

  function NumbersDrawn(actions: seq<Action>): nat {
    if actions == [] then 0 else (if actions[0].NextRef? then 1 else 0) + NumbersDrawn(actions[1..])
  }

  function Arrivals(actions: seq<Action>): seq<Message> {
    if actions == [] then [] else (if actions[0].Arrive? then [actions[0].m] else []) + Arrivals(actions[1..])
  }

  lemma {:induction false} LogRun(s: State, actions: seq<Action>)
    requires Run(s, actions).Some?
    ensures var t := Run(s, actions).value;
            && t.issued == s.issued + NumbersDrawn(actions)
            && t.inbox == s.inbox + Arrivals(actions)
            && forall e :: e in t.handlers <==> e in s.handlers || On(e) in actions
    decreases |actions|
  {
    if actions != [] {
      var s' := Apply(s, actions[0]);
      LogRun(s', actions[1..]);
      assert forall a :: a in actions <==> a == actions[0] || a in actions[1..];
    }
  }

  /** In every run as many references were drawn as `NextRef` was called, the inbox holds the messages that arrived, in
      order, and an event has a handler if and only if one was registered for it. */
  lemma {:induction false} LogsFollowSteps(s: State, actions: seq<Action>)
    requires Begin(s) && Run(s, actions).Some?
    ensures var t := Run(s, actions).value;
            && t.issued == NumbersDrawn(actions) && t.inbox == Arrivals(actions)
            && forall e :: e in t.handlers <==> On(e) in actions
  {
    LogRun(s, actions);
  }

  lemma FinalStep(s: State, a: Action)
    requires Enabled(s, a)
    ensures var s' := Apply(s, a);
            && |s.routed| <= |s'.routed| && |s.calls| <= |s'.calls|
            && (forall j :: 0 <= j < |s.routed| && !s.routed[j].InFlight? ==> s'.routed[j] == s.routed[j])
            && (forall i :: 0 <= i < |s.calls| && ResultOf(s.calls[i].pc).Some? ==>
                  ResultOf(s'.calls[i].pc) == ResultOf(s.calls[i].pc))
  {
  }

  /** What became of a message, and what a call returns, never changes afterwards: each message has one fate,
      and no call receives twice. */
  lemma {:induction false} FatesAreFinal(s: State, actions: seq<Action>)
    requires Run(s, actions).Some?
    ensures var t := Run(s, actions).value;
            && |s.routed| <= |t.routed| && |s.calls| <= |t.calls|
            && (forall j :: 0 <= j < |s.routed| && !s.routed[j].InFlight? ==> t.routed[j] == s.routed[j])
            && (forall i :: 0 <= i < |s.calls| && ResultOf(s.calls[i].pc).Some? ==>
                  ResultOf(t.calls[i].pc) == ResultOf(s.calls[i].pc))
    decreases |actions|
  {
    hide Apply, Enabled;
    if actions != [] {
      FinalStep(s, actions[0]);
      FatesAreFinal(Apply(s, actions[0]), actions[1..]);
    }
  }

  // ---------------------------------------------------------------------------------------------
  // The gap between lookup and send
  // ---------------------------------------------------------------------------------------------

  /** Call `i`'s channel can be closed: no message found it and is still to be sent. */
  ghost predicate NothingInFlight(s: State, i: nat) {
    forall j :: 0 <= j < |s.routed| ==> s.routed[j] != InFlight(i)
  }

  /** No message is on its way to a closed channel. */
  ghost predicate NoneToReturned(s: State) {
    forall j :: 0 <= j < |s.routed| && s.routed[j].InFlight? ==>
      s.routed[j].call < |s.calls| && !s.calls[s.routed[j].call].pc.Returned?
  }

  /** A run in which a channel is closed only when nothing is on its way to it. */
  ghost predicate Guarded(s: State, actions: seq<Action>)
    decreases |actions|
  {
    actions != [] ==>
      && Enabled(s, actions[0])
      && (actions[0].CloseChannel? ==> NothingInFlight(s, actions[0].i))
      && Guarded(Apply(s, actions[0]), actions[1..])
  }

  lemma GuardedStep(s: State, a: Action)
    requires TableSound(s) && NoneToReturned(s) && Enabled(s, a)
    requires a.CloseChannel? ==> NothingInFlight(s, a.i)
    ensures NoneToReturned(Apply(s, a)) && !Apply(s, a).panicked
  {
    var s' := Apply(s, a);
    forall j | 0 <= j < |s'.routed| && s'.routed[j].InFlight?
      ensures s'.routed[j].call < |s'.calls| && !s'.calls[s'.routed[j].call].pc.Returned?
    {
      if j < |s.routed| {
        assert s'.routed[j] == s.routed[j];
      } else {
        assert InTable(s.calls[s.table[a.m.ref]].pc);
      }
    }
  }

  lemma {:induction false} GuardedRun(s: State, actions: seq<Action>)
    requires TableSound(s) && NoneToReturned(s) && !s.panicked && Guarded(s, actions)
    ensures Run(s, actions).Some? && !Run(s, actions).value.panicked
    ensures NoneToReturned(Run(s, actions).value)
    decreases |actions|
  {
    hide TableSound, NoneToReturned, Apply, Enabled, NothingInFlight;
    if actions != [] {
      GuardedStep(s, actions[0]);
      SoundStep(s, actions[0]);
      GuardedRun(Apply(s, actions[0]), actions[1..]);
    }
  }

  /** As long as every channel is closed at a moment when no message is on its way to it, no send ever meets a
      closed channel. */
  lemma {:induction false} GuardedRunsDoNotPanic(s: State, actions: seq<Action>)
    requires Begin(s) && Guarded(s, actions)
    ensures Run(s, actions).Some? && !Run(s, actions).value.panicked
  {
    GuardedRun(s, actions);
  }

  /** Some send that is possible now meets a closed channel. */
  ghost predicate SendCanPanic(s: State) {
    exists j: nat :: Enabled(s, Deliver(j)) && Apply(s, Deliver(j)).panicked
  }

  /** And each of these guards is needed: after a guarded run, closing a channel makes a panic possible if and
      only if a message is on its way to it. */
  lemma {:induction false} CloseIsSafeIff(s: State, actions: seq<Action>, i: nat)
    requires Begin(s) && Guarded(s, actions)
    requires Run(s, actions).Some? && Enabled(Run(s, actions).value, CloseChannel(i))
    ensures var t := Run(s, actions).value; SendCanPanic(Apply(t, CloseChannel(i))) <==> !NothingInFlight(t, i)
  {
    GuardedRun(s, actions);
    var t := Run(s, actions).value;
    var t' := Apply(t, CloseChannel(i));
    if j: nat :| j < |t.routed| && t.routed[j] == InFlight(i) {
      assert Enabled(t', Deliver(j)) && Apply(t', Deliver(j)).panicked;
    } else {
      forall j: nat | Enabled(t', Deliver(j))
        ensures !Apply(t', Deliver(j)).panicked
      {
        assert t'.routed[j].call != i;
      }
    }
  }

  /** A run in which every lookup that finds a call is followed at once by its send. */
  ghost predicate Prompt(s: State, actions: seq<Action>)
    decreases |actions|
  {
    actions != [] ==>
      && Enabled(s, actions[0])
      && (actions[0].Arrive? && Route(s, actions[0].m).InFlight? ==>
            |actions| > 1 && actions[1] == Deliver(|s.routed|))
      && Prompt(Apply(s, actions[0]), actions[1..])
  }

  /** Nothing is in flight, unless it was just found. */
  ghost predicate Settled(s: State, next: seq<Action>) {
    forall j :: 0 <= j < |s.routed| && s.routed[j].InFlight? ==> next != [] && next[0] == Deliver(j)
  }

  lemma SettledStep(s: State, actions: seq<Action>)
    requires actions != [] && Settled(s, actions) && Prompt(s, actions)
    ensures Settled(Apply(s, actions[0]), actions[1..])
  {
    var a := actions[0];
    if a.Arrive? && Route(s, a.m).InFlight? {
      assert actions[1..][0] == actions[1];
    }
  }

  lemma {:induction false} PromptIsGuarded(s: State, actions: seq<Action>)
    requires Settled(s, actions) && Prompt(s, actions)
    ensures Guarded(s, actions)
    decreases |actions|
  {
    if actions != [] {
      SettledStep(s, actions);
      PromptIsGuarded(Apply(s, actions[0]), actions[1..]);
    }
  }

  /** In particular with lookup and send as one step no send meets a closed channel. */
  lemma {:induction false} PromptRunsDoNotPanic(s: State, actions: seq<Action>)
    requires Begin(s) && Prompt(s, actions)
    ensures Run(s, actions).Some? && !Run(s, actions).value.panicked
  {
    PromptIsGuarded(s, actions);
    GuardedRunsDoNotPanic(s, actions);
  }

  lemma {:induction false} Follow(s: State, s': State, actions: seq<Action>, rest: seq<Action>)
    requires actions != [] && rest == actions[1..] && Enabled(s, actions[0]) && s' == Apply(s, actions[0])
    ensures Run(s, actions) == Run(s', rest)
  {
  }

  /** Without that any waiting call can be overtaken: if it gives up between the lookup and the send of its
      reply, the send is on a closed channel. */
  lemma {:induction false} LateSendPanics(s: State, i: nat, j: nat, why: Result)
    requires !s.panicked && i < |s.calls| && s.calls[i].pc.Sent? && (why.Timeout? || why.ClientClosed?)
    requires j < |s.routed| && s.routed[j] == InFlight(i)
    ensures var r := Run(s, [GiveUp(i, why), Delete(i), CloseChannel(i), Deliver(j)]); r.Some? && r.value.panicked
  {
    var s1 := Apply(s, GiveUp(i, why));
    var s2 := Apply(s1, Delete(i));
    var s3 := Apply(s2, CloseChannel(i));
    var s4 := Apply(s3, Deliver(j));
    Follow(s3, s4, [Deliver(j)], []);
    Follow(s2, s3, [CloseChannel(i), Deliver(j)], [Deliver(j)]);
    Follow(s1, s2, [Delete(i), CloseChannel(i), Deliver(j)], [CloseChannel(i), Deliver(j)]);
    Follow(s, s1, [GiveUp(i, why), Delete(i), CloseChannel(i), Deliver(j)], [Delete(i), CloseChannel(i), Deliver(j)]);
  }

  /** And such a state is reached by the first call already. */
  lemma {:induction false} FirstReplyInFlight(s: State)
    requires Begin(s)
    ensures var r := Run(s, [NextRef, Register(0), SendOk(0), Arrive(Message("phx_reply", Decimal(1)))]);
            && r.Some? && !r.value.panicked
            && |r.value.calls| == 1 && r.value.calls[0].pc.Sent? && r.value.routed == [InFlight(0)]
  {
    var reply := Message("phx_reply", Decimal(1));
    var s1 := Apply(s, NextRef);
    var s2 := Apply(s1, Register(0));
    var s3 := Apply(s2, SendOk(0));
    var s4 := Apply(s3, Arrive(reply));
    Follow(s3, s4, [Arrive(reply)], []);
    Follow(s2, s3, [SendOk(0), Arrive(reply)], [Arrive(reply)]);
    Follow(s1, s2, [Register(0), SendOk(0), Arrive(reply)], [SendOk(0), Arrive(reply)]);
    Follow(s, s1, [NextRef, Register(0), SendOk(0), Arrive(reply)], [Register(0), SendOk(0), Arrive(reply)]);
  }

  // A call on its own

  /** The state of call `i`, appended as given, with an entry in the table or none. */
  function With(s: State, c: Call, registered: bool): State {
    s.(issued := s.issued + 1, calls := s.calls + [c],
       table := if registered then s.table[Ref(c) := |s.calls|] else s.table)
  }

  lemma SnocUpdate(calls: seq<Call>, c: Call, d: Call)
    ensures (calls + [c])[|calls| := d] == calls + [d]
  {
  }

  lemma {:induction false} CallBegins(s: State, c: Call, rest: seq<Action>)
    requires !s.panicked && c == Call((s.issued + 1) % WRAP, Sent, None)
    ensures var i := |s.calls|;
            Run(s, [NextRef] + ([Register(i)] + ([SendOk(i)] + rest))) == Run(With(s, c, true), rest)
  {
    var i := |s.calls|;
    var (c0, c1) := (c.(pc := Issued), c.(pc := Registered));
    SnocUpdate(s.calls, c0, c1);
    SnocUpdate(s.calls, c1, c);
    var s1 := With(s, c0, false);
    var s2 := With(s, c1, true);
    assert Apply(s, NextRef) == s1 && Apply(s1, Register(i)) == s2 && Apply(s2, SendOk(i)) == With(s, c, true);
    FollowOne(s, NextRef, [Register(i)] + ([SendOk(i)] + rest));
    FollowOne(s1, Register(i), [SendOk(i)] + rest);
    FollowOne(s2, SendOk(i), rest);
  }

  lemma {:induction false} FollowOne(s: State, a: Action, rest: seq<Action>)
    requires Enabled(s, a)
    ensures Run(s, [a] + rest) == Run(Apply(s, a), rest)
  {
    assert ([a] + rest)[1..] == rest;
  }

  /** The deferred cleanup takes the entry out and ends the call. */
  lemma {:induction false} CallEnds(s: State, c: Call, result: Result)
    requires !s.panicked && c.pc == Leaving(result) && Ref(c) !in s.table
    ensures var i := |s.calls|;
            Run(With(s, c, true), [Delete(i)] + ([CloseChannel(i)] + [])) ==
              Some(With(s, c.(pc := Returned(result)), false))
  {
    var i := |s.calls|;
    var c1 := c.(pc := Deleted(result));
    SnocUpdate(s.calls, c, c1);
    SnocUpdate(s.calls, c1, c.(pc := Returned(result)));
    var s1 := With(s, c1, false);
    assert s.table[Ref(c) := i] - {Ref(c)} == s.table;
    assert Apply(With(s, c, true), Delete(i)) == s1;
    assert Apply(s1, CloseChannel(i)) == With(s, c.(pc := Returned(result)), false);
    FollowOne(With(s, c, true), Delete(i), [CloseChannel(i)] + []);
    FollowOne(s1, CloseChannel(i), []);
  }

  /** A call that is answered, left alone, in any state whose table does not hold its reference: its reply is
      delivered to it and returned, and the table is as before. */
  lemma {:induction false} AnsweredCall(s: State) returns (actions: seq<Action>)
    requires !s.panicked && Decimal((s.issued + 1) % WRAP) !in s.table
    ensures var (n, i, j) := ((s.issued + 1) % WRAP, |s.calls|, |s.routed|);
            Run(s, actions) ==
              Some(s.(issued := s.issued + 1, calls := s.calls + [Call(n, Returned(Reply(j)), None)],
                      inbox := s.inbox + [Message("phx_reply", Decimal(n))], routed := s.routed + [ToWaiter(i)]))
  {
    var (n, i, j) := ((s.issued + 1) % WRAP, |s.calls|, |s.routed|);
    var reply := Message("phx_reply", Decimal(n));
    var c := Call(n, Sent, None);
    var answered := s.(inbox := s.inbox + [reply], routed := s.routed + [ToWaiter(i)]);
    var last := [Delete(i)] + ([CloseChannel(i)] + []);
    actions := [NextRef] + ([Register(i)] + ([SendOk(i)] + ([Arrive(reply)] + ([Deliver(j)] + ([Receive(i)] + last)))));
    hide Run;
    CallBegins(s, c, [Arrive(reply)] + ([Deliver(j)] + ([Receive(i)] + last)));
    TakesReply(s, c, reply, last);
    CallEnds(answered, Call(n, Leaving(Reply(j)), None), Reply(j));
  }

  lemma {:induction false} TakesReply(s: State, c: Call, reply: Message, rest: seq<Action>)
    requires !s.panicked && c.pc.Sent? && c.buffer.None? && reply == Message("phx_reply", Ref(c))
    ensures var (i, j) := (|s.calls|, |s.routed|);
            Run(With(s, c, true), [Arrive(reply)] + ([Deliver(j)] + ([Receive(i)] + rest))) ==
              Run(With(s.(inbox := s.inbox + [reply], routed := s.routed + [ToWaiter(i)]), c.(pc := Leaving(Reply(j))),
                       true), rest)
  {
    var (i, j) := (|s.calls|, |s.routed|);
    var s0 := With(s, c, true);
    var s1 := With(s.(inbox := s.inbox + [reply], routed := s.routed + [InFlight(i)]), c, true);
    var after := s.(inbox := s.inbox + [reply], routed := s.routed + [ToWaiter(i)]);
    var s2 := With(after, c.(buffer := Some(j)), true);
    var s3 := With(after, c.(pc := Leaving(Reply(j))), true);
    SnocUpdate(s.calls, c, c.(buffer := Some(j)));
    SnocUpdate(s.calls, c.(buffer := Some(j)), c.(pc := Leaving(Reply(j))));
    assert (s.routed + [InFlight(i)])[j := ToWaiter(i)] == s.routed + [ToWaiter(i)];
    assert Ref(c) != "";
    assert Apply(s0, Arrive(reply)) == s1;
    assert Apply(s1, Deliver(j)) == s2;
    assert Apply(s2, Receive(i)) == s3;
    hide Run;
    FollowOne(s0, Arrive(reply), [Deliver(j)] + ([Receive(i)] + rest));
    FollowOne(s1, Deliver(j), [Receive(i)] + rest);
    FollowOne(s2, Receive(i), rest);
  }

  /** A call that is not answered, left alone: it gives up with its reason, and the table is as before. */
  lemma {:induction false} UnansweredCall(s: State, why: Result) returns (actions: seq<Action>)
    requires !s.panicked && Decimal((s.issued + 1) % WRAP) !in s.table && (why.Timeout? || why.ClientClosed?)
    ensures Run(s, actions) ==
              Some(s.(issued := s.issued + 1, calls := s.calls + [Call((s.issued + 1) % WRAP, Returned(why), None)]))
  {
    var i := |s.calls|;
    var c := Call((s.issued + 1) % WRAP, Sent, None);
    var last := [Delete(i)] + ([CloseChannel(i)] + []);
    actions := [NextRef] + ([Register(i)] + ([SendOk(i)] + ([GiveUp(i, why)] + last)));
    SnocUpdate(s.calls, c, c.(pc := Leaving(why)));
    assert Apply(With(s, c, true), GiveUp(i, why)) == With(s, c.(pc := Leaving(why)), true);
    hide Run;
    CallBegins(s, c, [GiveUp(i, why)] + last);
    FollowOne(With(s, c, true), GiveUp(i, why), last);
    CallEnds(s, c.(pc := Leaving(why)), why);
  }
}
