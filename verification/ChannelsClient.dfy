/** The life of the Phoenix channel client's connection: any number of callers of `Connect`, `Disconnect`,
    `Close` and `Send`, and for every successful dial a read loop with its watcher. A step touches shared
    state once; `connLock` has an explicit holder, and steps outside it interleave freely.

    The k-th successful dial gives socket k, read context k, loop k and watcher k. Loops do not keep to their
    own socket: they read and clear whatever is in the client's slot, and watchers watch whatever read context
    is current when they start. */
module ChannelsClient {
  import opened Totals
  import opened Wrappers

  datatype CallerPc =
    | Idle
      // Connect, holding the lock throughout
    | ConnectLocked | ConnectCleared | ConnectCancelled
    | ConnectDialled(k: nat) | ConnectRaised(k: nat) | ConnectScoped(k: nat) | ConnectSpawned(k: nat)
      // Disconnect, on its own or as the first part of Close
    | DisconnectStart(closing: bool) | DisconnectWant(closing: bool) | DisconnectLocked(closing: bool)
    | DisconnectCleared(closing: bool) | DisconnectLowered(closing: bool)
    | CloseCancel | CloseWait | CloseReturned
    | SendLocked

  datatype LoopPc =
    | Unborn | Born | Top | Reading(socket: nat)
    | Leaving | AwaitWatcher | WantLock | Locked | Cleared | Unlocked | Lowered | Done

  datatype WatcherPc = Absent | Choosing | Watching(context: nat) | Waiting | Closing | Closed | Gone

  datatype Actor = Caller(i: nat) | Loop(i: nat) | Watcher(i: nat)

  datatype State = State(
    conn: Option<nat>,          // the socket in the slot
    connected: bool,
    scope: Option<nat>,         // the current read context and its cancel function
    cancelled: set<nat>,        // read contexts cancelled
    shutdown: bool,             // the client's own context is cancelled
    closed: set<nat>,           // sockets closed
    lock: Option<Actor>,        // holder of connLock
    wg: nat,
    raiser: Option<nat>,        // the dial whose Connect last raised `connected`
    callers: seq<CallerPc>,
    loops: seq<LoopPc>,
    watchers: seq<WatcherPc>)

  datatype CallerAct =
    | StartConnect | ClearStale | CancelOld | DialFails | Dial | RaiseFlag | NewScope | Spawn | FinishConnect
    | StartDisconnect(closing: bool) | CancelScope | TakeLock | ClearConn | LowerFlag | FinishDisconnect
    | CancelClient | Return
    | StartSend | FinishSend

  datatype LoopAct =
    | StartWatcher | ReadSlot | ReadMessage | ReadFails | CloseDone | JoinWatcher
    | Lock | Clean | Unlock | Reset | Finish

  datatype WatcherAct = Choose | Wake | Quit | LockSlot | Unblock | UnlockSlot

  datatype Action = ByCaller(i: nat, c: CallerAct) | ByLoop(i: nat, l: LoopAct) | ByWatcher(i: nat, w: WatcherAct)

  // ---------------------------------------------------------------------------------------------
  // Steps: where the actor goes, and what it does to the shared state on the way
  // ---------------------------------------------------------------------------------------------

  datatype Effect =
    | Silent
    | Acquire | Release           // connLock
    | CloseSlot                   // close the socket in the slot, if any
    | ClearSlot                   // close it and empty the slot
    | OpenSocket                  // a dial succeeded: a new socket in the slot
    | CancelContext               // call the current readCancel, if any
    | Rescope(k: nat)             // install a new read context
    | Raise(k: nat) | Lower       // the connected flag
    | BearLoop(k: nat)            // wg.Add and go readLoop
    | BearWatcher(k: nat)
    | Shutdown                    // cancel the client's own context
    | EndLoop                     // wg.Done

  datatype Move<Pc> = Stay | Go(pc: Pc, effect: Effect)

  function CallerMove(s: State, i: nat, a: CallerAct): Move<CallerPc>
    requires i < |s.callers|
  {
    match (a, s.callers[i])
    case (StartConnect, Idle) => Go(ConnectLocked, Acquire)
    case (ClearStale, ConnectLocked) => Go(ConnectCleared, ClearSlot)
    case (CancelOld, ConnectCleared) => Go(ConnectCancelled, CancelContext)
    case (DialFails, ConnectCancelled) => Go(Idle, Release)
    case (Dial, ConnectCancelled) => Go(ConnectDialled(|s.loops|), OpenSocket)
    case (RaiseFlag, ConnectDialled(k)) => Go(ConnectRaised(k), Raise(k))
    case (NewScope, ConnectRaised(k)) => Go(ConnectScoped(k), Rescope(k))
    case (Spawn, ConnectScoped(k)) => Go(ConnectSpawned(k), BearLoop(k))
    case (FinishConnect, ConnectSpawned(_)) => Go(Idle, Release)
    case (StartDisconnect(closing), Idle) => Go(DisconnectStart(closing), Silent)
    case (CancelScope, DisconnectStart(closing)) => Go(DisconnectWant(closing), CancelContext)
    case (TakeLock, DisconnectWant(closing)) => Go(DisconnectLocked(closing), Acquire)
    case (ClearConn, DisconnectLocked(closing)) => Go(DisconnectCleared(closing), ClearSlot)
    case (LowerFlag, DisconnectCleared(closing)) => Go(DisconnectLowered(closing), Lower)
    case (FinishDisconnect, DisconnectLowered(closing)) => Go(if closing then CloseCancel else Idle, Release)
    case (CancelClient, CloseCancel) => Go(CloseWait, Shutdown)
    case (Return, CloseWait) => if s.wg == 0 then Go(CloseReturned, Silent) else Stay
    case (StartSend, Idle) => Go(SendLocked, Acquire)
    case (FinishSend, SendLocked) => Go(Idle, Release)
    case _ => Stay
  }

  /** A read returns a message or fails whenever the peer makes it; when it must return is said by `Forced`. */
  function LoopMove(s: State, k: nat, a: LoopAct): Move<LoopPc>
    requires k < |s.loops|
  {
    match (a, s.loops[k])
    case (StartWatcher, Born) => Go(Top, BearWatcher(k))
    case (ReadSlot, Top) =>
      if s.lock.Some? then Stay else Go(if s.conn.None? then Leaving else Reading(s.conn.value), Silent)
    case (ReadMessage, Reading(_)) => Go(Top, Silent)
    case (ReadFails, Reading(_)) => Go(Leaving, Silent)
    case (CloseDone, Leaving) => Go(AwaitWatcher, Silent)
    case (JoinWatcher, AwaitWatcher) => if k < |s.watchers| && s.watchers[k].Gone? then Go(WantLock, Silent) else Stay
    case (Lock, WantLock) => Go(Locked, Acquire)
    case (Clean, Locked) => Go(Cleared, ClearSlot)
    case (Unlock, Cleared) => Go(Unlocked, Release)
    case (Reset, Unlocked) => Go(Lowered, Lower)
    case (Finish, Lowered) => Go(Done, EndLoop)
    case _ => Stay
  }

  function WatcherMove(s: State, k: nat, a: WatcherAct): Move<WatcherPc>
    requires k < |s.watchers|
  {
    match (a, s.watchers[k])
    case (Choose, Choosing) => if s.scope.Some? then Go(Watching(s.scope.value), Silent) else Stay
    case (Wake, Watching(context)) => if s.shutdown || context in s.cancelled then Go(Waiting, Silent) else Stay
    case (Quit, Watching(_)) => if k < |s.loops| && DoneClosed(s.loops[k]) then Go(Gone, Silent) else Stay
    case (LockSlot, Waiting) => Go(Closing, Acquire)
    case (Unblock, Closing) => Go(Closed, CloseSlot)
    case (UnlockSlot, Closed) => Go(Gone, Release)
    case _ => Stay
  }

  /** The loop has closed its `contextDone` channel. */
  predicate DoneClosed(pc: LoopPc) {
    pc.AwaitWatcher? || PastJoin(pc)
  }

  predicate PastJoin(pc: LoopPc) {
    pc.WantLock? || pc.Locked? || PastClear(pc)
  }

  predicate PastClear(pc: LoopPc) {
    pc.Cleared? || pc.Unlocked? || PastLower(pc)
  }

  predicate PastLower(pc: LoopPc) {
    pc.Lowered? || pc.Done?
  }

  function CloseConn(s: State): State {
    if s.conn.None? then s else s.(closed := s.closed + {s.conn.value})
  }

  function Perform(s: State, x: Actor, e: Effect): State {
    match e
    case Silent => s
    case Acquire => s.(lock := Some(x))
    case Release => s.(lock := None)
    case CloseSlot => CloseConn(s)
    case ClearSlot => CloseConn(s).(conn := None)
    case OpenSocket => s.(conn := Some(|s.loops|), loops := s.loops + [Unborn], watchers := s.watchers + [Absent])
    case CancelContext => if s.scope.None? then s else s.(cancelled := s.cancelled + {s.scope.value})
    case Rescope(k) => s.(scope := Some(k))
    case Raise(k) => s.(connected := true, raiser := Some(k))
    case Lower => s.(connected := false)
    case BearLoop(k) => if k < |s.loops| then s.(wg := s.wg + 1, loops := s.loops[k := Born]) else s
    case BearWatcher(k) => if k < |s.watchers| then s.(watchers := s.watchers[k := Choosing]) else s
    case Shutdown => s.(shutdown := true)
    case EndLoop => if s.wg > 0 then s.(wg := s.wg - 1) else s
  }

  /** A step is possible when the actor has that move and, to take the lock, nobody holds it. */
  predicate Possible<Pc>(s: State, m: Move<Pc>) {
    m.Go? && (m.effect.Acquire? ==> s.lock.None?)
  }

  predicate Enabled(s: State, a: Action) {
    match a
    case ByCaller(i, c) => i < |s.callers| && Possible(s, CallerMove(s, i, c))
    case ByLoop(i, l) => i < |s.loops| && Possible(s, LoopMove(s, i, l))
    case ByWatcher(i, w) => i < |s.watchers| && Possible(s, WatcherMove(s, i, w))
  }

  function Apply(s: State, a: Action): State
    requires Enabled(s, a)
  {
    match a
    case ByCaller(i, c) =>
      var m := CallerMove(s, i, c);
      Perform(s.(callers := s.callers[i := m.pc]), Caller(i), m.effect)
    case ByLoop(i, l) =>
      var m := LoopMove(s, i, l);
      Perform(s.(loops := s.loops[i := m.pc]), Loop(i), m.effect)
    case ByWatcher(i, w) =>
      var m := WatcherMove(s, i, w);
      Perform(s.(watchers := s.watchers[i := m.pc]), Watcher(i), m.effect)
  }

  ghost predicate Begin(s: State) {
    && s == State(None, false, None, {}, false, {}, None, 0, None, s.callers, [], [])
    && forall i :: 0 <= i < |s.callers| ==> s.callers[i].Idle?
  }

  ghost function Run(s: State, actions: seq<Action>): Option<State>
    decreases |actions|
  {
    if actions == [] then Some(s)
    else if !Enabled(s, actions[0]) then None
    else Run(Apply(s, actions[0]), actions[1..])
  }

  // ---------------------------------------------------------------------------------------------
  // Invariants
  // ---------------------------------------------------------------------------------------------

  predicate CallerHolds(pc: CallerPc) {
    || pc.ConnectLocked? || pc.ConnectCleared? || pc.ConnectCancelled? || pc.ConnectDialled? || pc.ConnectRaised?
    || pc.ConnectScoped? || pc.ConnectSpawned? || pc.DisconnectLocked? || pc.DisconnectCleared?
    || pc.DisconnectLowered? || pc.SendLocked?
  }

  ghost predicate Holds(s: State, a: Actor) {
    match a
    case Caller(i) => i < |s.callers| && CallerHolds(s.callers[i])
    case Loop(k) => k < |s.loops| && (s.loops[k].Locked? || s.loops[k].Cleared?)
    case Watcher(k) => k < |s.watchers| && (s.watchers[k].Closing? || s.watchers[k].Closed?)
  }

  /** The lock's holder is the one actor inside a critical section. */
  ghost predicate LockInv(s: State) {
    && |s.watchers| == |s.loops|
    && forall a :: Holds(s, a) <==> s.lock == Some(a)
  }

  /** The dial whose loop is not spawned yet. */
  predicate Pending(pc: CallerPc, k: nat) {
    (pc.ConnectDialled? || pc.ConnectRaised? || pc.ConnectScoped?) && pc.k == k
  }

  /** A loop is unborn exactly while the Connect that dialled it has not spawned it. */
  ghost predicate BirthInv(s: State) {
    PendingUnborn(s) && UnbornPending(s)
  }

  ghost predicate PendingUnborn(s: State) {
    forall i :: 0 <= i < |s.callers| ==>
      (forall k: nat :: Pending(s.callers[i], k) ==> k < |s.loops| && s.loops[k].Unborn?)
  }

  ghost predicate UnbornPending(s: State) {
    forall k :: 0 <= k < |s.loops| && s.loops[k].Unborn? ==>
      s.lock.Some? && s.lock.value.Caller? && s.lock.value.i < |s.callers| && Pending(s.callers[s.lock.value.i], k)
  }

  /** Every socket dialled is the one in the slot or closed. */
  ghost predicate SocketInv(s: State) {
    && (s.conn.Some? ==> s.conn.value < |s.loops|)
    && (forall k :: k in s.closed ==> k < |s.loops|)
    && (forall k :: 0 <= k < |s.loops| ==> k in s.closed || s.conn == Some(k))
    && (forall i :: 0 <= i < |s.callers| && (s.callers[i].ConnectCleared? || s.callers[i].ConnectCancelled?) ==>
          s.conn.None?)
    && (forall k :: 0 <= k < |s.loops| && s.loops[k].Reading? ==> s.loops[k].socket < |s.loops|)
  }

  /** What is in the slot is there for its own loop to clear; a raised flag is there for the raiser's loop to
      lower. */
  ghost predicate OwedInv(s: State) {
    && (s.conn.Some? ==> s.conn.value < |s.loops| && !PastClear(s.loops[s.conn.value]))
    && (s.connected ==> s.raiser.Some? && s.raiser.value < |s.loops| && !PastLower(s.loops[s.raiser.value]))
  }

  /** A loop is past joining its watcher only when the watcher is gone; watchers live with their loops. */
  ghost predicate WatcherInv(s: State) {
    && |s.watchers| == |s.loops|
    && (forall k :: 0 <= k < |s.loops| ==>
          && (s.watchers[k].Absent? <==> s.loops[k].Unborn? || s.loops[k].Born?)
          && (PastJoin(s.loops[k]) ==> s.watchers[k].Gone?)
          && (s.scope.None? ==> s.loops[k].Unborn?))
    && (s.scope.None? ==> forall i :: 0 <= i < |s.callers| ==> !s.callers[i].ConnectScoped?)
  }

  function Alive(pc: LoopPc): nat {
    if pc.Unborn? || pc.Done? then 0 else 1
  }

  /** How many loops are spawned and have not finished. */
  function Live(loops: seq<LoopPc>): nat {
    Total(Alive, loops)
  }

  ghost predicate Inv(s: State) {
    LockInv(s) && BirthInv(s) && SocketInv(s) && OwedInv(s) && WatcherInv(s) && s.wg == Live(s.loops)
  }

  /** Each effect, field by field. */
  lemma PerformFields(s: State, x: Actor, e: Effect)
    ensures var s' := Perform(s, x, e);
            && s'.callers == s.callers
            && s'.lock == (if e.Acquire? then Some(x) else if e.Release? then None else s.lock)
            && s'.conn == (if e.ClearSlot? then None else if e.OpenSocket? then Some(|s.loops|) else s.conn)
            && s'.closed == (if (e.CloseSlot? || e.ClearSlot?) && s.conn.Some? then s.closed + {s.conn.value}
                             else s.closed)
            && s'.loops == (if e.OpenSocket? then s.loops + [Unborn]
                            else if e.BearLoop? && e.k < |s.loops| then s.loops[e.k := Born] else s.loops)
            && s'.watchers == (if e.OpenSocket? then s.watchers + [Absent]
                               else if e.BearWatcher? && e.k < |s.watchers| then s.watchers[e.k := Choosing]
                               else s.watchers)
            && s'.wg == (if e.BearLoop? && e.k < |s.loops| then s.wg + 1
                         else if e.EndLoop? && s.wg > 0 then s.wg - 1 else s.wg)
            && s'.scope == (if e.Rescope? then Some(e.k) else s.scope)
            && s'.cancelled == (if e.CancelContext? && s.scope.Some? then s.cancelled + {s.scope.value}
                                else s.cancelled)
            && s'.connected == (if e.Raise? then true else if e.Lower? then false else s.connected)
            && s'.raiser == (if e.Raise? then Some(e.k) else s.raiser)
            && s'.shutdown == (e.Shutdown? || s.shutdown)
  {
  }

  // What the tables of moves say, apart from the state around them

  /** A move's effect on the lock matches its entering or leaving a critical section. */
  ghost predicate LockMatches(before: bool, after: bool, e: Effect) {
    && (e.Acquire? <==> !before && after)
    && (e.Release? <==> before && !after)
  }

  lemma CallerLockTable(s: State, i: nat, a: CallerAct)
    requires i < |s.callers| && CallerMove(s, i, a).Go?
    ensures LockMatches(CallerHolds(s.callers[i]), CallerHolds(CallerMove(s, i, a).pc), CallerMove(s, i, a).effect)
    ensures var e := CallerMove(s, i, a).effect; !e.CloseSlot? && !e.BearWatcher? && !e.EndLoop?
  {
  }

  lemma CallerSlotTable(s: State, i: nat, a: CallerAct)
    requires i < |s.callers| && CallerMove(s, i, a).Go?
    ensures var (pc, m) := (s.callers[i], CallerMove(s, i, a));
            && (m.effect.ClearSlot? ==> CallerHolds(pc))
            && (m.effect.OpenSocket? ==> pc.ConnectCancelled? && m.pc == ConnectDialled(|s.loops|))
            && (m.pc.ConnectCleared? || m.pc.ConnectCancelled? ==>
                  m.effect.ClearSlot? || (pc.ConnectCleared? && m.effect.CancelContext?))
            && (m.pc.ConnectScoped? ==> m.effect.Rescope?)
  {
  }

  lemma CallerBirthTable(s: State, i: nat, a: CallerAct)
    requires i < |s.callers| && CallerMove(s, i, a).Go?
    ensures var (pc, m) := (s.callers[i], CallerMove(s, i, a));
            && (m.effect.Raise? || m.effect.Rescope? || m.effect.BearLoop? ==> Pending(pc, m.effect.k))
            && (m.effect.BearLoop? ==> pc.ConnectScoped?)
            && (forall k: nat :: Pending(m.pc, k) ==> if m.effect.OpenSocket? then k == |s.loops| else Pending(pc, k))
            && (forall k: nat :: Pending(pc, k) && !m.effect.BearLoop? ==> Pending(m.pc, k))
  {
  }

  lemma LoopTable(s: State, k: nat, a: LoopAct)
    requires k < |s.loops| && LoopMove(s, k, a).Go?
    ensures var (pc, m) := (s.loops[k], LoopMove(s, k, a));
            && LockMatches(pc.Locked? || pc.Cleared?, m.pc.Locked? || m.pc.Cleared?, m.effect)
            && (m.effect.ClearSlot? <==> m.pc.Cleared?) && (m.effect.ClearSlot? ==> pc.Locked?)
            && (m.effect.Lower? <==> m.pc.Lowered?)
            && (m.effect.EndLoop? <==> m.pc.Done?)
            && (m.effect.BearWatcher? <==> pc.Born?) && (pc.Born? ==> m.effect.k == k && m.pc.Top?)
            && (m.pc.Reading? ==> s.conn == Some(m.pc.socket))
            && !m.effect.CloseSlot? && !m.effect.OpenSocket? && !m.effect.CancelContext? && !m.effect.Rescope?
            && !m.effect.Raise? && !m.effect.BearLoop? && !m.effect.Shutdown?
            && !pc.Unborn? && !pc.Done? && !m.pc.Unborn? && !m.pc.Born?
            && (PastClear(m.pc) ==> m.pc.Cleared? || PastClear(pc))
            && (PastLower(m.pc) ==> m.pc.Lowered? || PastLower(pc))
            && (PastJoin(m.pc) ==> PastJoin(pc) || (k < |s.watchers| && s.watchers[k].Gone?))
  {
  }

  lemma WatcherTable(s: State, k: nat, a: WatcherAct)
    requires k < |s.watchers| && WatcherMove(s, k, a).Go?
    ensures var (pc, m) := (s.watchers[k], WatcherMove(s, k, a));
            && LockMatches(pc.Closing? || pc.Closed?, m.pc.Closing? || m.pc.Closed?, m.effect)
            && (m.effect.Silent? || m.effect.Acquire? || m.effect.Release? || m.effect.CloseSlot?)
            && (m.effect.CloseSlot? ==> pc.Closing?)
            && !pc.Absent? && !m.pc.Absent? && !pc.Gone?
  {
  }

  // The invariants, one by one

  lemma LockKept(s: State, s': State, x: Actor, e: Effect)
    requires LockInv(s) && |s'.watchers| == |s'.loops|
    requires forall y :: y != x ==> (Holds(s', y) <==> Holds(s, y))
    requires LockMatches(Holds(s, x), Holds(s', x), e) && (e.Acquire? ==> s.lock.None?)
    requires s'.lock == if e.Acquire? then Some(x) else if e.Release? then None else s.lock
    ensures LockInv(s')
  {
    forall y
      ensures Holds(s', y) <==> s'.lock == Some(y)
    {
      assert Holds(s, y) <==> s.lock == Some(y);
      assert Holds(s, x) <==> s.lock == Some(x);
    }
  }

  lemma CallerLeavesOthers(s: State, i: nat, a: CallerAct, y: Actor)
    requires BirthInv(s) && |s.watchers| == |s.loops| && Enabled(s, ByCaller(i, a)) && y != Caller(i)
    ensures Holds(Apply(s, ByCaller(i, a)), y) <==> Holds(s, y)
  {
    var m := CallerMove(s, i, a);
    CallerLockTable(s, i, a);
    CallerBirthTable(s, i, a);
    PerformFields(s.(callers := s.callers[i := CallerMove(s, i, a).pc]), Caller(i), CallerMove(s, i, a).effect);
    hide CallerMove, Perform;
    assert m.effect.BearLoop? ==> m.effect.k < |s.loops| && s.loops[m.effect.k].Unborn?;
  }

  lemma CallerLock(s: State, i: nat, a: CallerAct)
    requires LockInv(s) && BirthInv(s) && Enabled(s, ByCaller(i, a))
    ensures LockInv(Apply(s, ByCaller(i, a)))
  {
    var m := CallerMove(s, i, a);
    var s' := Apply(s, ByCaller(i, a));
    CallerLockTable(s, i, a);
    PerformFields(s.(callers := s.callers[i := CallerMove(s, i, a).pc]), Caller(i), CallerMove(s, i, a).effect);
    hide CallerMove, Perform;
    forall y | y != Caller(i)
      ensures Holds(s', y) <==> Holds(s, y)
    {
      CallerLeavesOthers(s, i, a, y);
    }
    assert Holds(s, Caller(i)) <==> CallerHolds(s.callers[i]);
    assert Holds(s', Caller(i)) <==> CallerHolds(m.pc);
    LockKept(s, s', Caller(i), m.effect);
  }

  lemma LoopLock(s: State, k: nat, a: LoopAct)
    requires LockInv(s) && WatcherInv(s) && Enabled(s, ByLoop(k, a))
    ensures LockInv(Apply(s, ByLoop(k, a)))
  {
    var m := LoopMove(s, k, a);
    var s' := Apply(s, ByLoop(k, a));
    LoopTable(s, k, a);
    PerformFields(s.(loops := s.loops[k := LoopMove(s, k, a).pc]), Loop(k), LoopMove(s, k, a).effect);
    hide LoopMove, Perform;
    assert Holds(s, Loop(k)) <==> s.loops[k].Locked? || s.loops[k].Cleared?;
    assert Holds(s', Loop(k)) <==> m.pc.Locked? || m.pc.Cleared?;
    LockKept(s, s', Loop(k), m.effect);
  }

  lemma WatcherLock(s: State, k: nat, a: WatcherAct)
    requires LockInv(s) && Enabled(s, ByWatcher(k, a))
    ensures LockInv(Apply(s, ByWatcher(k, a)))
  {
    var m := WatcherMove(s, k, a);
    var s' := Apply(s, ByWatcher(k, a));
    WatcherTable(s, k, a);
    PerformFields(s.(watchers := s.watchers[k := WatcherMove(s, k, a).pc]), Watcher(k), WatcherMove(s, k, a).effect);
    hide WatcherMove, Perform;
    assert Holds(s, Watcher(k)) <==> s.watchers[k].Closing? || s.watchers[k].Closed?;
    assert Holds(s', Watcher(k)) <==> m.pc.Closing? || m.pc.Closed?;
    LockKept(s, s', Watcher(k), m.effect);
  }

  lemma CallerPending(s: State, i: nat, a: CallerAct)
    requires LockInv(s) && BirthInv(s) && Enabled(s, ByCaller(i, a))
    ensures PendingUnborn(Apply(s, ByCaller(i, a)))
  {
    var s' := Apply(s, ByCaller(i, a));
    CallerLockTable(s, i, a);
    CallerSlotTable(s, i, a);
    CallerBirthTable(s, i, a);
    PerformFields(s.(callers := s.callers[i := CallerMove(s, i, a).pc]), Caller(i), CallerMove(s, i, a).effect);
    hide CallerMove, Perform;
    assert Holds(s, Caller(i)) <==> s.lock == Some(Caller(i));
    forall j, k: nat | 0 <= j < |s'.callers| && Pending(s'.callers[j], k)
      ensures k < |s'.loops| && s'.loops[k].Unborn?
    {
      if j != i {
        assert Pending(s.callers[j], k);
        assert Holds(s, Caller(j)) <==> s.lock == Some(Caller(j));
      }
    }
  }

  lemma CallerUnborn(s: State, i: nat, a: CallerAct)
    requires LockInv(s) && UnbornPending(s) && Enabled(s, ByCaller(i, a))
    ensures UnbornPending(Apply(s, ByCaller(i, a)))
  {
    CallerLockTable(s, i, a);
    CallerSlotTable(s, i, a);
    CallerBirthTable(s, i, a);
    PerformFields(s.(callers := s.callers[i := CallerMove(s, i, a).pc]), Caller(i), CallerMove(s, i, a).effect);
    hide CallerMove, Perform;
    assert Holds(s, Caller(i)) <==> s.lock == Some(Caller(i));
  }

  lemma LoopBirth(s: State, k: nat, a: LoopAct)
    requires LockInv(s) && BirthInv(s) && Enabled(s, ByLoop(k, a))
    ensures BirthInv(Apply(s, ByLoop(k, a)))
  {
    LoopTable(s, k, a);
    PerformFields(s.(loops := s.loops[k := LoopMove(s, k, a).pc]), Loop(k), LoopMove(s, k, a).effect);
    hide LoopMove, Perform;
    assert Holds(s, Loop(k)) <==> s.lock == Some(Loop(k));
  }

  lemma WatcherBirth(s: State, k: nat, a: WatcherAct)
    requires LockInv(s) && BirthInv(s) && Enabled(s, ByWatcher(k, a))
    ensures BirthInv(Apply(s, ByWatcher(k, a)))
  {
    WatcherTable(s, k, a);
    PerformFields(s.(watchers := s.watchers[k := WatcherMove(s, k, a).pc]), Watcher(k), WatcherMove(s, k, a).effect);
    hide WatcherMove, Perform;
    assert Holds(s, Watcher(k)) <==> s.lock == Some(Watcher(k));
  }

  lemma CallerSocket(s: State, i: nat, a: CallerAct)
    requires LockInv(s) && BirthInv(s) && SocketInv(s) && Enabled(s, ByCaller(i, a))
    ensures SocketInv(Apply(s, ByCaller(i, a)))
  {
    var m := CallerMove(s, i, a);
    CallerLockTable(s, i, a);
    CallerSlotTable(s, i, a);
    PerformFields(s.(callers := s.callers[i := CallerMove(s, i, a).pc]), Caller(i), CallerMove(s, i, a).effect);
    hide CallerMove, Perform;
    assert Holds(s, Caller(i)) <==> s.lock == Some(Caller(i));
    forall j | 0 <= j < |s.callers| && j != i && (s.callers[j].ConnectCleared? || s.callers[j].ConnectCancelled?)
      ensures !CallerHolds(s.callers[i])
    {
      assert Holds(s, Caller(j)) <==> s.lock == Some(Caller(j));
    }
  }

  lemma LoopSocket(s: State, k: nat, a: LoopAct)
    requires SocketInv(s) && Enabled(s, ByLoop(k, a))
    ensures SocketInv(Apply(s, ByLoop(k, a)))
  {
    LoopTable(s, k, a);
    PerformFields(s.(loops := s.loops[k := LoopMove(s, k, a).pc]), Loop(k), LoopMove(s, k, a).effect);
    hide LoopMove, Perform;
  }

  lemma WatcherSocket(s: State, k: nat, a: WatcherAct)
    requires SocketInv(s) && Enabled(s, ByWatcher(k, a))
    ensures SocketInv(Apply(s, ByWatcher(k, a)))
  {
    WatcherTable(s, k, a);
    PerformFields(s.(watchers := s.watchers[k := WatcherMove(s, k, a).pc]), Watcher(k), WatcherMove(s, k, a).effect);
    hide WatcherMove, Perform;
  }

  lemma CallerOwed(s: State, i: nat, a: CallerAct)
    requires BirthInv(s) && OwedInv(s) && Enabled(s, ByCaller(i, a))
    ensures OwedInv(Apply(s, ByCaller(i, a)))
  {
    CallerLockTable(s, i, a);
    CallerSlotTable(s, i, a);
    CallerBirthTable(s, i, a);
    PerformFields(s.(callers := s.callers[i := CallerMove(s, i, a).pc]), Caller(i), CallerMove(s, i, a).effect);
    hide CallerMove, Perform;
  }

  lemma LoopOwed(s: State, k: nat, a: LoopAct)
    requires OwedInv(s) && Enabled(s, ByLoop(k, a))
    ensures OwedInv(Apply(s, ByLoop(k, a)))
  {
    LoopTable(s, k, a);
    PerformFields(s.(loops := s.loops[k := LoopMove(s, k, a).pc]), Loop(k), LoopMove(s, k, a).effect);
    hide LoopMove, Perform;
  }

  lemma WatcherOwed(s: State, k: nat, a: WatcherAct)
    requires OwedInv(s) && Enabled(s, ByWatcher(k, a))
    ensures OwedInv(Apply(s, ByWatcher(k, a)))
  {
    WatcherTable(s, k, a);
    PerformFields(s.(watchers := s.watchers[k := WatcherMove(s, k, a).pc]), Watcher(k), WatcherMove(s, k, a).effect);
    hide WatcherMove, Perform;
  }

  lemma CallerWatchers(s: State, i: nat, a: CallerAct)
    requires BirthInv(s) && WatcherInv(s) && Enabled(s, ByCaller(i, a))
    ensures WatcherInv(Apply(s, ByCaller(i, a)))
  {
    CallerLockTable(s, i, a);
    CallerSlotTable(s, i, a);
    CallerBirthTable(s, i, a);
    PerformFields(s.(callers := s.callers[i := CallerMove(s, i, a).pc]), Caller(i), CallerMove(s, i, a).effect);
    hide CallerMove, Perform;
  }

  lemma LoopWatchers(s: State, k: nat, a: LoopAct)
    requires WatcherInv(s) && Enabled(s, ByLoop(k, a))
    ensures WatcherInv(Apply(s, ByLoop(k, a)))
  {
    LoopTable(s, k, a);
    PerformFields(s.(loops := s.loops[k := LoopMove(s, k, a).pc]), Loop(k), LoopMove(s, k, a).effect);
    hide LoopMove, Perform;
  }

  lemma WatcherWatchers(s: State, k: nat, a: WatcherAct)
    requires WatcherInv(s) && Enabled(s, ByWatcher(k, a))
    ensures WatcherInv(Apply(s, ByWatcher(k, a)))
  {
    WatcherTable(s, k, a);
    PerformFields(s.(watchers := s.watchers[k := WatcherMove(s, k, a).pc]), Watcher(k), WatcherMove(s, k, a).effect);
    hide WatcherMove, Perform;
  }

  lemma BornWasUnborn(s: State, i: nat, c: CallerAct)
    requires BirthInv(s) && i < |s.callers| && CallerMove(s, i, c).Go?
    ensures var e := CallerMove(s, i, c).effect; e.BearLoop? ==> e.k < |s.loops| && s.loops[e.k].Unborn?
  {
    CallerBirthTable(s, i, c);
    hide CallerMove;
  }

  lemma EffectCounts(s: State, x: Actor, e: Effect)
    requires s.wg == Live(s.loops) && !e.EndLoop?
    requires e.BearLoop? ==> e.k < |s.loops| && s.loops[e.k].Unborn?
    ensures var s' := Perform(s, x, e); s'.wg == Live(s'.loops)
  {
    PerformFields(s, x, e);
    hide Perform, Total;
    if e.OpenSocket? {
      TotalSnoc(Alive, s.loops, Unborn);
    } else if e.BearLoop? {
      TotalUpdate(Alive, s.loops, e.k, Born);
    }
  }

  lemma CallerCount(s: State, i: nat, c: CallerAct)
    requires BirthInv(s) && s.wg == Live(s.loops) && Enabled(s, ByCaller(i, c))
    ensures var s' := Apply(s, ByCaller(i, c)); s'.wg == Live(s'.loops)
  {
    CallerLockTable(s, i, c);
    BornWasUnborn(s, i, c);
    EffectCounts(s.(callers := s.callers[i := CallerMove(s, i, c).pc]), Caller(i), CallerMove(s, i, c).effect);
    hide CallerMove, Perform, BirthInv, Live;
  }

  lemma LoopCount(s: State, k: nat, l: LoopAct)
    requires s.wg == Live(s.loops) && Enabled(s, ByLoop(k, l))
    ensures var s' := Apply(s, ByLoop(k, l)); s'.wg == Live(s'.loops)
  {
    LoopTable(s, k, l);
    var m := LoopMove(s, k, l);
    PerformFields(s.(loops := s.loops[k := LoopMove(s, k, l).pc]), Loop(k), LoopMove(s, k, l).effect);
    hide LoopMove, Perform;
    TotalBounds(Alive, s.loops);
    TotalUpdate(Alive, s.loops, k, m.pc);
  }

  lemma WatcherCount(s: State, k: nat, w: WatcherAct)
    requires s.wg == Live(s.loops) && Enabled(s, ByWatcher(k, w))
    ensures var s' := Apply(s, ByWatcher(k, w)); s'.wg == Live(s'.loops)
  {
    WatcherTable(s, k, w);
    PerformFields(s.(watchers := s.watchers[k := WatcherMove(s, k, w).pc]), Watcher(k), WatcherMove(s, k, w).effect);
    hide WatcherMove, Perform;
  }

  lemma InvStep(s: State, a: Action)
    requires Inv(s) && Enabled(s, a)
    ensures Inv(Apply(s, a))
  {
    hide Apply, Enabled, LockInv, PendingUnborn, UnbornPending, SocketInv, OwedInv, WatcherInv;
    match a
    case ByCaller(i, c) =>
      CallerLock(s, i, c); CallerPending(s, i, c); CallerUnborn(s, i, c); CallerSocket(s, i, c);
      CallerOwed(s, i, c); CallerWatchers(s, i, c); CallerCount(s, i, c);
    case ByLoop(i, l) =>
      LoopLock(s, i, l); LoopBirth(s, i, l); LoopSocket(s, i, l);
      LoopOwed(s, i, l); LoopWatchers(s, i, l); LoopCount(s, i, l);
    case ByWatcher(i, w) =>
      WatcherLock(s, i, w); WatcherBirth(s, i, w); WatcherSocket(s, i, w);
      WatcherOwed(s, i, w); WatcherWatchers(s, i, w); WatcherCount(s, i, w);
  }

  lemma {:induction false} InvRun(s: State, actions: seq<Action>)
    requires Inv(s) && Run(s, actions).Some?
    ensures Inv(Run(s, actions).value)
    decreases |actions|
  {
    hide Apply, Enabled, Inv;
    if actions != [] {
      InvStep(s, actions[0]);
      InvRun(Apply(s, actions[0]), actions[1..]);
    }
  }

  // ---------------------------------------------------------------------------------------------
  // What every run keeps
  // ---------------------------------------------------------------------------------------------

  ghost predicate Open(s: State, k: nat) {
    k < |s.loops| && k !in s.closed
  }

  /** Socket conservation: in every run each socket ever dialled is the one in the slot or has been closed, so
      at most one is open. */
  lemma {:induction false} SocketsConserved(s: State, actions: seq<Action>)
    requires Begin(s) && Run(s, actions).Some?
    ensures var r := Run(s, actions).value;
            && (forall k: nat :: Open(r, k) ==> r.conn == Some(k))
            && (forall j: nat, k: nat :: Open(r, j) && Open(r, k) ==> j == k)
  {
    InvRun(s, actions);
  }

  /** A raised flag is always owed a reset: the loop that belongs to the last Connect that raised it has not
      executed its own yet. */
  lemma {:induction false} ConnectedIsOwedReset(s: State, actions: seq<Action>)
    requires Begin(s) && Run(s, actions).Some?
    ensures var r := Run(s, actions).value;
            r.connected ==> r.raiser.Some? && r.raiser.value < |r.loops| && !PastLower(r.loops[r.raiser.value])
  {
    InvRun(s, actions);
  }

  predicate Connecting(pc: CallerPc) {
    || pc.ConnectLocked? || pc.ConnectCleared? || pc.ConnectCancelled? || pc.ConnectDialled? || pc.ConnectRaised?
    || pc.ConnectScoped? || pc.ConnectSpawned?
  }

  ghost predicate NoConnect(s: State) {
    forall i :: 0 <= i < |s.callers| ==> !Connecting(s.callers[i])
  }

  lemma NobodyUnborn(s: State)
    requires BirthInv(s) && NoConnect(s)
    ensures forall k :: 0 <= k < |s.loops| ==> !s.loops[k].Unborn?
  {
  }

  /** When a Close can return and no Connect is under way, nothing is left: the flag is down, the slot empty,
      every socket closed, every loop finished and every watcher gone. */
  lemma {:induction false} CloseLeavesNothing(s: State, actions: seq<Action>, i: nat)
    requires Begin(s) && Run(s, actions).Some?
    requires var r := Run(s, actions).value; NoConnect(r) && Enabled(r, ByCaller(i, Return))
    ensures var r := Run(s, actions).value;
            && !r.connected && r.conn.None?
            && |r.watchers| == |r.loops|
            && (forall k :: 0 <= k < |r.loops| ==> k in r.closed && r.loops[k].Done? && r.watchers[k].Gone?)
  {
    InvRun(s, actions);
    var r := Run(s, actions).value;
    TotalBounds(Alive, r.loops);
    NobodyUnborn(r);
    assert forall k :: 0 <= k < |r.loops| ==> r.loops[k].Done?;
  }

  // ---------------------------------------------------------------------------------------------
  // What Connect and Disconnect achieve
  // ---------------------------------------------------------------------------------------------

  /** Past its dial and still holding the lock. */
  predicate Dialed(pc: CallerPc) {
    pc.ConnectDialled? || pc.ConnectRaised? || pc.ConnectScoped? || pc.ConnectSpawned?
  }

  ghost predicate ScopeCancelled(s: State) {
    s.scope.Some? ==> s.scope.value in s.cancelled
  }

  /** What a caller inside its critical section can rely on. */
  ghost predicate HeldOk(s: State, pc: CallerPc) {
    && (Dialed(pc) ==> pc.k + 1 == |s.loops| && s.conn == Some(pc.k) && pc.k !in s.closed)
    && (pc.ConnectCancelled? || pc.ConnectDialled? || pc.ConnectRaised? ==> ScopeCancelled(s))
    && (Dialed(pc) && !pc.ConnectDialled? ==> s.raiser == Some(pc.k))
    && (pc.ConnectScoped? || pc.ConnectSpawned? ==> s.scope == Some(pc.k))
    && (pc.ConnectSpawned? ==> !s.loops[pc.k].Unborn?)
    && (pc.DisconnectCleared? || pc.DisconnectLowered? ==> s.conn.None?)
    && (pc.DisconnectLowered? ==> !s.connected)
  }

  ghost predicate HeldInv(s: State) {
    forall i :: 0 <= i < |s.callers| ==> HeldOk(s, s.callers[i])
  }

  /** Every read context a loop was spawned with is the current one or cancelled. */
  ghost predicate ContextInv(s: State) {
    forall k :: 0 <= k < |s.loops| && !s.loops[k].Unborn? ==> s.scope == Some(k) || k in s.cancelled
  }

  lemma NobodyElseHolds(s: State, i: nat, x: Actor)
    requires LockInv(s) && i < |s.callers| && CallerHolds(s.callers[i]) && x != Caller(i)
    ensures !Holds(s, x) && s.lock.Some?
  {
    assert Holds(s, Caller(i)) <==> s.lock == Some(Caller(i));
    assert Holds(s, x) <==> s.lock == Some(x);
  }

  /** Outside a critical section a caller changes nothing the holder relies on. */
  lemma OutsideTable(s: State, j: nat, a: CallerAct)
    requires j < |s.callers| && CallerMove(s, j, a).Go? && !CallerHolds(s.callers[j])
    ensures var e := CallerMove(s, j, a).effect; e.Silent? || e.Acquire? || e.CancelContext? || e.Shutdown?
  {
  }

  /** What a caller's own step establishes. */
  lemma HeldTable(s: State, j: nat, a: CallerAct)
    requires j < |s.callers| && CallerMove(s, j, a).Go?
    ensures var (pc, m) := (s.callers[j], CallerMove(s, j, a));
            && (m.pc.ConnectCancelled? ==> pc.ConnectCleared? && m.effect.CancelContext?)
            && (m.pc.ConnectDialled? ==> pc.ConnectCancelled? && m.effect.OpenSocket? && m.pc.k == |s.loops|)
            && (m.pc.ConnectRaised? ==> pc == ConnectDialled(m.pc.k) && m.effect == Raise(m.pc.k))
            && (m.pc.ConnectScoped? ==> pc == ConnectRaised(m.pc.k) && m.effect == Rescope(m.pc.k))
            && (m.pc.ConnectSpawned? ==> pc == ConnectScoped(m.pc.k) && m.effect == BearLoop(m.pc.k))
            && (m.pc.DisconnectCleared? ==> m.effect.ClearSlot?)
            && (m.pc.DisconnectLowered? ==> pc.DisconnectCleared? && m.effect.Lower?)
  {
  }

  lemma CallerHeld(s: State, j: nat, a: CallerAct)
    requires LockInv(s) && SocketInv(s) && HeldInv(s) && Enabled(s, ByCaller(j, a))
    ensures HeldInv(Apply(s, ByCaller(j, a)))
  {
    var (m, s') := (CallerMove(s, j, a), Apply(s, ByCaller(j, a)));
    PerformFields(s.(callers := s.callers[j := CallerMove(s, j, a).pc]), Caller(j), CallerMove(s, j, a).effect);
    HeldTable(s, j, a);
    assert !CallerHolds(s.callers[j]) ==>
             m.effect.Silent? || m.effect.Acquire? || m.effect.CancelContext? || m.effect.Shutdown? by {
      if !CallerHolds(s.callers[j]) {
        OutsideTable(s, j, a);
      }
    }
    hide CallerMove, Perform;
    assert HeldOk(s, s.callers[j]);
    forall i: nat | i < |s'.callers|
      ensures HeldOk(s', s'.callers[i])
    {
      if i != j {
        assert HeldOk(s, s.callers[i]);
        if CallerHolds(s.callers[i]) {
          NobodyElseHolds(s, i, Caller(j));
          hide LockInv, SocketInv, HeldInv, CallerHolds;
        }
      } else {
        hide LockInv, HeldInv;
      }
    }
  }

  lemma LoopHeld(s: State, k: nat, l: LoopAct)
    requires LockInv(s) && HeldInv(s) && Enabled(s, ByLoop(k, l))
    ensures HeldInv(Apply(s, ByLoop(k, l)))
  {
    var s' := Apply(s, ByLoop(k, l));
    LoopTable(s, k, l);
    PerformFields(s.(loops := s.loops[k := LoopMove(s, k, l).pc]), Loop(k), LoopMove(s, k, l).effect);
    hide LoopMove, Perform;
    forall i: nat | i < |s'.callers|
      ensures HeldOk(s', s'.callers[i])
    {
      assert HeldOk(s, s.callers[i]);
      if CallerHolds(s.callers[i]) {
        NobodyElseHolds(s, i, Loop(k));
        hide LockInv, HeldInv, CallerHolds;
      }
    }
  }

  lemma WatcherHeld(s: State, k: nat, w: WatcherAct)
    requires LockInv(s) && HeldInv(s) && Enabled(s, ByWatcher(k, w))
    ensures HeldInv(Apply(s, ByWatcher(k, w)))
  {
    var s' := Apply(s, ByWatcher(k, w));
    WatcherTable(s, k, w);
    PerformFields(s.(watchers := s.watchers[k := WatcherMove(s, k, w).pc]), Watcher(k), WatcherMove(s, k, w).effect);
    hide WatcherMove, Perform;
    forall i: nat | i < |s'.callers|
      ensures HeldOk(s', s'.callers[i])
    {
      assert HeldOk(s, s.callers[i]);
      if CallerHolds(s.callers[i]) {
        NobodyElseHolds(s, i, Watcher(k));
        hide LockInv, HeldInv, CallerHolds;
      }
    }
  }

  lemma ContextStep(s: State, a: Action)
    requires HeldInv(s) && ContextInv(s) && BirthInv(s) && Enabled(s, a)
    ensures ContextInv(Apply(s, a))
  {
    match a
    case ByCaller(i, c) =>
      PerformFields(s.(callers := s.callers[i := CallerMove(s, i, c).pc]), Caller(i), CallerMove(s, i, c).effect);
      CallerBirthTable(s, i, c);
      CallerRescopeTable(s, i, c);
      hide CallerMove, Perform;
      assert HeldOk(s, s.callers[i]);
    case ByLoop(k, l) =>
      LoopTable(s, k, l);
      PerformFields(s.(loops := s.loops[k := LoopMove(s, k, l).pc]), Loop(k), LoopMove(s, k, l).effect);
      hide LoopMove, Perform;
    case ByWatcher(k, w) =>
      WatcherTable(s, k, w);
      PerformFields(s.(watchers := s.watchers[k := WatcherMove(s, k, w).pc]), Watcher(k), WatcherMove(s, k, w).effect);
      hide WatcherMove, Perform;
  }

  lemma CallerRescopeTable(s: State, i: nat, c: CallerAct)
    requires i < |s.callers| && CallerMove(s, i, c).Go?
    ensures var (pc, m) := (s.callers[i], CallerMove(s, i, c));
            && (m.effect.Rescope? ==> pc == ConnectRaised(m.effect.k))
            && (m.effect.BearLoop? ==> pc == ConnectScoped(m.effect.k))
  {
  }

  lemma HeldStep(s: State, a: Action)
    requires Inv(s) && HeldInv(s) && ContextInv(s) && Enabled(s, a)
    ensures HeldInv(Apply(s, a)) && ContextInv(Apply(s, a))
  {
    ContextStep(s, a);
    match a
    case ByCaller(i, c) => CallerHeld(s, i, c);
    case ByLoop(k, l) => LoopHeld(s, k, l);
    case ByWatcher(k, w) => WatcherHeld(s, k, w);
  }

  lemma {:induction false} HeldRun(s: State, actions: seq<Action>)
    requires Inv(s) && HeldInv(s) && ContextInv(s) && Run(s, actions).Some?
    ensures var r := Run(s, actions).value; Inv(r) && HeldInv(r) && ContextInv(r)
    decreases |actions|
  {
    hide Apply, Enabled, Inv, HeldInv, ContextInv;
    if actions != [] {
      InvStep(s, actions[0]);
      HeldStep(s, actions[0]);
      HeldRun(Apply(s, actions[0]), actions[1..]);
    }
  }

  /** What a successful Connect leaves when it lets go of the lock: its own socket, open, in the slot; itself as the
      last that raised the flag; its read context as the current one, and all earlier ones cancelled; its loop
      spawned. */
  lemma {:induction false} ConnectLeavesItsSocket(s: State, actions: seq<Action>, i: nat)
    requires Begin(s) && Run(s, actions).Some? && Enabled(Run(s, actions).value, ByCaller(i, FinishConnect))
    ensures var r := Run(s, actions).value;
            var k := |r.loops| - 1;
            && k >= 0 && r.callers[i] == ConnectSpawned(k)
            && r.conn == Some(k) && Open(r, k) && r.raiser == Some(k) && r.scope == Some(k) && !r.loops[k].Unborn?
            && forall j :: 0 <= j < k && !r.loops[j].Unborn? ==> j in r.cancelled
  {
    HeldRun(s, actions);
    var r := Run(s, actions).value;
    assert HeldOk(r, r.callers[i]);
  }

  /** What a Disconnect leaves: an empty slot, every socket closed, the flag down. */
  lemma {:induction false} DisconnectLeavesNothingOpen(s: State, actions: seq<Action>, i: nat)
    requires Begin(s) && Run(s, actions).Some? && Enabled(Run(s, actions).value, ByCaller(i, FinishDisconnect))
    ensures var r := Run(s, actions).value;
            r.conn.None? && !r.connected && forall k: nat :: !Open(r, k)
  {
    HeldRun(s, actions);
    var r := Run(s, actions).value;
    assert HeldOk(r, r.callers[i]);
  }

  /** In every run each loop's read context is the current one or cancelled. */
  lemma {:induction false} OldContextsAreCancelled(s: State, actions: seq<Action>, k: nat)
    requires Begin(s) && Run(s, actions).Some?
    ensures var r := Run(s, actions).value;
            k < |r.loops| && !r.loops[k].Unborn? ==> r.scope == Some(k) || k in r.cancelled
  {
    HeldRun(s, actions);
  }

  // The shared fields, told from the names of the steps

  predicate RaisesFlag(a: Action) {
    a.ByCaller? && a.c.RaiseFlag?
  }

  predicate WritesFlag(a: Action) {
    RaisesFlag(a) || (a.ByCaller? && a.c.LowerFlag?) || (a.ByLoop? && a.l.Reset?)
  }

  /** The last step of the run that wrote the flag raised it. */
  ghost predicate LastWriteRaises(actions: seq<Action>) {
    exists n :: 0 <= n < |actions| && RaisesFlag(actions[n]) && NoWriteAfter(actions, n)
  }

  ghost predicate NoWriteAfter(actions: seq<Action>, n: int) {
    forall m :: 0 <= m < |actions| && n < m ==> !WritesFlag(actions[m])
  }

  lemma FlagStep(s: State, a: Action)
    requires Enabled(s, a)
    ensures Apply(s, a).connected == if WritesFlag(a) then RaisesFlag(a) else s.connected
  {
  }

  lemma {:induction false} FlagRun(s: State, actions: seq<Action>)
    requires Run(s, actions).Some?
    ensures Run(s, actions).value.connected <==>
            LastWriteRaises(actions) || (s.connected && NoWriteAfter(actions, -1))
    decreases |actions|
  {
    hide Apply, Enabled;
    if actions != [] {
      var (a, rest) := (actions[0], actions[1..]);
      FlagStep(s, a);
      FlagRun(Apply(s, a), rest);
      assert forall m :: 1 <= m < |actions| ==> actions[m] == rest[m - 1];
      assert forall m :: 0 <= m < |rest| ==> rest[m] == actions[m + 1];
      LastWriteShift(actions);
    }
  }

  lemma LastWriteShift(actions: seq<Action>)
    requires actions != []
    ensures NoWriteAfter(actions, -1) <==> !WritesFlag(actions[0]) && NoWriteAfter(actions[1..], -1)
    ensures LastWriteRaises(actions) <==>
            LastWriteRaises(actions[1..]) || (RaisesFlag(actions[0]) && NoWriteAfter(actions[1..], -1))
  {
    var rest := actions[1..];
    forall n | -1 <= n < |rest|
      ensures NoWriteAfter(actions, n + 1) <==> NoWriteAfter(rest, n)
    {
      assert forall m :: 0 <= m < |rest| ==> rest[m] == actions[m + 1];
      assert forall m :: 1 <= m < |actions| ==> actions[m] == rest[m - 1];
    }
    assert forall m :: 0 <= m < |rest| ==> rest[m] == actions[m + 1];
    if LastWriteRaises(actions) {
      var n :| 0 <= n < |actions| && RaisesFlag(actions[n]) && NoWriteAfter(actions, n);
      assert n > 0 ==> RaisesFlag(rest[n - 1]) && NoWriteAfter(rest, n - 1);
      assert n == 0 ==> NoWriteAfter(rest, -1);
    }
    if LastWriteRaises(rest) {
      var n :| 0 <= n < |rest| && RaisesFlag(rest[n]) && NoWriteAfter(rest, n);
      assert RaisesFlag(actions[n + 1]) && NoWriteAfter(actions, n + 1);
    }
    if RaisesFlag(actions[0]) && NoWriteAfter(rest, -1) {
      assert NoWriteAfter(actions, 0);
    }
    assert forall m :: 1 <= m < |actions| ==> actions[m] == rest[m - 1];
  }

  /** In every run the flag is up if and only if the last step that wrote it was a Connect raising it. */
  lemma {:induction false} FlagFollowsSteps(s: State, actions: seq<Action>)
    requires Begin(s) && Run(s, actions).Some?
    ensures Run(s, actions).value.connected <==> LastWriteRaises(actions)
  {
    FlagRun(s, actions);
  }

  /** What the names of a run's steps say of sockets and contexts: how many dials succeeded, what is in the slot, what
      was closed, the current read context, the contexts cancelled, the last dial that raised the flag. */
  datatype Ledger = Ledger(dials: nat, conn: Option<nat>, closed: set<nat>, scope: Option<nat>, cancelled: set<nat>,
                           shutdown: bool, raiser: Option<nat>)

  function Values(o: Option<nat>): set<nat> {
    if o.None? then {} else {o.value}
  }

  function Latest(l: Ledger): Option<nat> {
    if l.dials == 0 then None else Some(l.dials - 1)
  }

  function Post(l: Ledger, a: Action): Ledger {
    match a
    case ByCaller(_, Dial) => l.(dials := l.dials + 1, conn := Some(l.dials))
    case ByCaller(_, ClearStale) => l.(conn := None, closed := l.closed + Values(l.conn))
    case ByCaller(_, ClearConn) => l.(conn := None, closed := l.closed + Values(l.conn))
    case ByLoop(_, Clean) => l.(conn := None, closed := l.closed + Values(l.conn))
    case ByWatcher(_, Unblock) => l.(closed := l.closed + Values(l.conn))
    case ByCaller(_, CancelOld) => l.(cancelled := l.cancelled + Values(l.scope))
    case ByCaller(_, CancelScope) => l.(cancelled := l.cancelled + Values(l.scope))
    case ByCaller(_, NewScope) => l.(scope := Latest(l))
    case ByCaller(_, RaiseFlag) => l.(raiser := Latest(l))
    case ByCaller(_, CancelClient) => l.(shutdown := true)
    case _ => l
  }

  function PostAll(l: Ledger, actions: seq<Action>): Ledger
    decreases |actions|
  {
    if actions == [] then l else PostAll(Post(l, actions[0]), actions[1..])
  }

  function LedgerOf(s: State): Ledger {
    Ledger(|s.loops|, s.conn, s.closed, s.scope, s.cancelled, s.shutdown, s.raiser)
  }

  /** Which effect goes with which name. */
  lemma CallerNames(s: State, i: nat, c: CallerAct)
    requires i < |s.callers| && CallerMove(s, i, c).Go?
    ensures var (pc, e) := (s.callers[i], CallerMove(s, i, c).effect);
            && (c.Dial? <==> e.OpenSocket?)
            && (c.ClearStale? || c.ClearConn? <==> e.ClearSlot?)
            && (c.CancelOld? || c.CancelScope? <==> e.CancelContext?)
            && (c.NewScope? <==> e.Rescope?) && (e.Rescope? ==> pc == ConnectRaised(e.k))
            && (c.RaiseFlag? <==> e.Raise?) && (e.Raise? ==> pc == ConnectDialled(e.k))
            && (c.CancelClient? <==> e.Shutdown?) && (e.BearLoop? ==> pc == ConnectScoped(e.k)) && !e.CloseSlot?
  {
  }

  lemma LoopNames(s: State, k: nat, l: LoopAct)
    requires k < |s.loops| && LoopMove(s, k, l).Go?
    ensures l.Clean? <==> LoopMove(s, k, l).effect.ClearSlot?
  {
  }

  lemma WatcherNames(s: State, k: nat, w: WatcherAct)
    requires k < |s.watchers| && WatcherMove(s, k, w).Go?
    ensures w.Unblock? <==> WatcherMove(s, k, w).effect.CloseSlot?
  {
  }

  lemma PostStep(s: State, a: Action)
    requires HeldInv(s) && Enabled(s, a)
    ensures LedgerOf(Apply(s, a)) == Post(LedgerOf(s), a)
  {
    match a
    case ByCaller(i, c) =>
      CallerNames(s, i, c);
      PerformFields(s.(callers := s.callers[i := CallerMove(s, i, c).pc]), Caller(i), CallerMove(s, i, c).effect);
      assert HeldOk(s, s.callers[i]);
      hide CallerMove, Perform, HeldInv;
    case ByLoop(k, l) =>
      LoopTable(s, k, l);
      LoopNames(s, k, l);
      PerformFields(s.(loops := s.loops[k := LoopMove(s, k, l).pc]), Loop(k), LoopMove(s, k, l).effect);
      hide LoopMove, Perform, HeldInv;
    case ByWatcher(k, w) =>
      WatcherTable(s, k, w);
      WatcherNames(s, k, w);
      PerformFields(s.(watchers := s.watchers[k := WatcherMove(s, k, w).pc]), Watcher(k), WatcherMove(s, k, w).effect);
      hide WatcherMove, Perform, HeldInv;
  }

  lemma {:induction false} PostRun(s: State, actions: seq<Action>)
    requires Inv(s) && HeldInv(s) && ContextInv(s) && Run(s, actions).Some?
    ensures LedgerOf(Run(s, actions).value) == PostAll(LedgerOf(s), actions)
    decreases |actions|
  {
    hide Apply, Enabled, Inv, HeldInv, ContextInv, Post, LedgerOf;
    if actions != [] {
      InvStep(s, actions[0]);
      HeldStep(s, actions[0]);
      PostStep(s, actions[0]);
      PostRun(Apply(s, actions[0]), actions[1..]);
    }
  }

  /** In every run sockets and contexts are as the names of its steps say, whoever took them and from where. */
  lemma {:induction false} LedgerFollowsSteps(s: State, actions: seq<Action>)
    requires Begin(s) && Run(s, actions).Some?
    ensures LedgerOf(Run(s, actions).value) == PostAll(Ledger(0, None, {}, None, {}, false, None), actions)
  {
    PostRun(s, actions);
  }

  // ---------------------------------------------------------------------------------------------
  // Shutdown makes progress
  // ---------------------------------------------------------------------------------------------

  /** Close has disconnected and cancelled, and no Connect is under way. */
  ghost predicate Quiet(s: State) {
    Inv(s) && NoConnect(s) && s.conn.None? && s.shutdown
  }

  predicate StartsCall(c: CallerAct) {
    c.StartConnect? || c.StartDisconnect? || c.StartSend?
  }

  predicate SlotOpen(s: State) {
    s.conn.Some? && s.conn.value !in s.closed
  }

  /** Steps that happen without the peer's help and without a new call: a read is one only on a closed socket, the
      end of a Send only when there is no open socket to write to. */
  ghost predicate Forced(s: State, a: Action) {
    && Enabled(s, a)
    && match a
       case ByCaller(_, c) => !StartsCall(c) && (c.FinishSend? ==> !SlotOpen(s))
       case ByLoop(k, l) => !l.ReadMessage? && (l.ReadFails? ==> s.loops[k].socket in s.closed)
       case ByWatcher(_, _) => true
  }

  function ActorOf(a: Action): Actor {
    match a
    case ByCaller(i, _) => Caller(i)
    case ByLoop(k, _) => Loop(k)
    case ByWatcher(k, _) => Watcher(k)
  }

  lemma HolderCanMove(s: State) returns (a: Action)
    requires Inv(s) && NoConnect(s) && s.lock.Some?
    requires SlotOpen(s) ==> forall i :: 0 <= i < |s.callers| ==> !s.callers[i].SendLocked?
    ensures Forced(s, a) && ActorOf(a) == s.lock.value
  {
    assert Holds(s, s.lock.value) <==> s.lock == Some(s.lock.value);
    match s.lock.value
    case Caller(i) =>
      var pc := s.callers[i];
      a := ByCaller(i, if pc.DisconnectLocked? then ClearConn else if pc.DisconnectCleared? then LowerFlag
                       else if pc.DisconnectLowered? then FinishDisconnect else FinishSend);
    case Loop(k) => a := ByLoop(k, if s.loops[k].Locked? then Clean else Unlock);
    case Watcher(k) => a := ByWatcher(k, if s.watchers[k].Closing? then Unblock else UnlockSlot);
  }

  /** No cyclic wait: once quiet, every loop that has not finished can move, or its watcher can, or both wait
      for a lock whose holder can. */
  lemma PairProgress(s: State, k: nat) returns (a: Action)
    requires Quiet(s) && k < |s.loops| && !s.loops[k].Done?
    ensures Forced(s, a)
    ensures ActorOf(a) == Loop(k) || ActorOf(a) == Watcher(k) || s.lock == Some(ActorOf(a))
  {
    NobodyUnborn(s);
    match s.loops[k]
    case Born => a := ByLoop(k, StartWatcher);
    case Top => if s.lock.Some? { a := HolderCanMove(s); } else { a := ByLoop(k, ReadSlot); }
    case Reading(_) => a := ByLoop(k, ReadFails);
    case Leaving => a := ByLoop(k, CloseDone);
    case AwaitWatcher =>
      match s.watchers[k] {
        case Choosing => a := ByWatcher(k, Choose);
        case Watching(_) => a := ByWatcher(k, Wake);
        case Waiting => if s.lock.Some? { a := HolderCanMove(s); } else { a := ByWatcher(k, LockSlot); }
        case Closing => a := ByWatcher(k, Unblock);
        case Closed => a := ByWatcher(k, UnlockSlot);
        case Gone => a := ByLoop(k, JoinWatcher);
      }
    case WantLock => if s.lock.Some? { a := HolderCanMove(s); } else { a := ByLoop(k, Lock); }
    case Locked => a := ByLoop(k, Clean);
    case Cleared => a := ByLoop(k, Unlock);
    case Unlocked => a := ByLoop(k, Reset);
    case Lowered => a := ByLoop(k, Finish);
  }

  function LoopRank(pc: LoopPc): nat {
    match pc
    case Unborn => 10 case Born => 10 case Reading(_) => 9 case Top => 8 case Leaving => 7 case AwaitWatcher => 6
    case WantLock => 5 case Locked => 4 case Cleared => 3 case Unlocked => 2 case Lowered => 1 case Done => 0
  }

  function WatcherRank(pc: WatcherPc): nat {
    match pc
    case Absent => 6 case Choosing => 5 case Watching(_) => 4 case Waiting => 3 case Closing => 2 case Closed => 1
    case Gone => 0
  }

  /** Steps the loops and watchers can still make. */
  function Remaining(s: State): nat {
    Total(LoopRank, s.loops) + Total(WatcherRank, s.watchers)
  }

  lemma CallerOutsideConnect(s: State, i: nat, c: CallerAct)
    requires i < |s.callers| && CallerMove(s, i, c).Go? && !Connecting(s.callers[i]) && !c.StartConnect?
    ensures var (pc, e) := (CallerMove(s, i, c).pc, CallerMove(s, i, c).effect);
            && !Connecting(pc)
            && (e.Silent? || e.Acquire? || e.Release? || e.ClearSlot? || e.CancelContext? || e.Lower? || e.Shutdown?)
  {
  }

  lemma CallerStaysQuiet(s: State, i: nat, c: CallerAct)
    requires Quiet(s) && Enabled(s, ByCaller(i, c)) && !c.StartConnect?
    ensures var s' := Apply(s, ByCaller(i, c));
            Quiet(s') && s'.loops == s.loops && s'.watchers == s.watchers
  {
    InvStep(s, ByCaller(i, c));
    CallerOutsideConnect(s, i, c);
    hide Inv, CallerMove;
  }

  lemma LoopRankDrops(s: State, k: nat, l: LoopAct)
    requires k < |s.loops| && LoopMove(s, k, l).Go? && s.conn.None?
    ensures LoopRank(LoopMove(s, k, l).pc) < LoopRank(s.loops[k])
  {
  }

  lemma LoopStaysQuiet(s: State, k: nat, l: LoopAct)
    requires Quiet(s) && Enabled(s, ByLoop(k, l))
    ensures var s' := Apply(s, ByLoop(k, l)); Quiet(s') && Remaining(s') < Remaining(s)
  {
    InvStep(s, ByLoop(k, l));
    assert s.loops[k].Born? ==> k < |s.watchers| && s.watchers[k].Absent?;
    var m := LoopMove(s, k, l);
    TotalUpdate(LoopRank, s.loops, k, m.pc);
    LoopRankDrops(s, k, l);
    LoopTable(s, k, l);
    hide Inv, LoopMove, LoopRank;
    if m.effect.BearWatcher? {
      TotalUpdate(WatcherRank, s.watchers, k, Choosing);
    }
  }

  lemma WatcherStaysQuiet(s: State, k: nat, w: WatcherAct)
    requires Quiet(s) && Enabled(s, ByWatcher(k, w))
    ensures var s' := Apply(s, ByWatcher(k, w)); Quiet(s') && Remaining(s') < Remaining(s)
  {
    InvStep(s, ByWatcher(k, w));
    hide Inv;
    var m := WatcherMove(s, k, w);
    TotalUpdate(WatcherRank, s.watchers, k, m.pc);
  }

  /** The steps of a run made by loops and watchers. */
  function InnerSteps(actions: seq<Action>): nat {
    if actions == [] then 0 else (if actions[0].ByCaller? then 0 else 1) + InnerSteps(actions[1..])
  }

  predicate WithoutConnect(actions: seq<Action>) {
    forall a :: a in actions && a.ByCaller? ==> !a.c.StartConnect?
  }

  /** Shutdown ends: from a quiet state, as long as no Connect starts, the state stays quiet and the loops and
      watchers together take at most `Remaining` steps, whatever other callers do. */
  lemma {:induction false} ShutdownIsBounded(s: State, actions: seq<Action>)
    requires Quiet(s) && Run(s, actions).Some? && WithoutConnect(actions)
    ensures var r := Run(s, actions).value; Quiet(r) && InnerSteps(actions) + Remaining(r) <= Remaining(s)
    decreases |actions|
  {
    hide Apply, Quiet, Enabled, Remaining;
    if actions != [] {
      var a := actions[0];
      match a {
        case ByCaller(i, c) => CallerStaysQuiet(s, i, c); SameRemaining(s, Apply(s, a));
        case ByLoop(i, l) => LoopStaysQuiet(s, i, l);
        case ByWatcher(i, w) => WatcherStaysQuiet(s, i, w);
      }
      ShutdownIsBounded(Apply(s, a), actions[1..]);
    }
  }

  lemma SameRemaining(s: State, s': State)
    requires s'.loops == s.loops && s'.watchers == s.watchers
    ensures Remaining(s') == Remaining(s)
  {
  }

  /** And it does not stop short: a waiting Close may return exactly when every loop has finished, and until then
      a loop, a watcher or the holder of the lock has a forced step. */
  lemma QuietMovesOrReturns(s: State, i: nat)
    requires Quiet(s) && i < |s.callers| && s.callers[i].CloseWait?
    ensures exists a :: Forced(s, a) && (a == ByCaller(i, Return) || !a.ByCaller? || s.lock == Some(ActorOf(a)))
    ensures Enabled(s, ByCaller(i, Return)) <==> forall k :: 0 <= k < |s.loops| ==> s.loops[k].Done?
  {
    NobodyUnborn(s);
    if k: nat :| k < |s.loops| && !s.loops[k].Done? {
      TotalBounds(Alive, s.loops);
      var a := PairProgress(s, k);
    } else {
      TotalZero(Alive, s.loops);
      assert Forced(s, ByCaller(i, Return));
    }
  }

  // Termination: everyone's steps together

  function CallerRank(pc: CallerPc): nat {
    match pc
    case DisconnectStart(_) => 8 case DisconnectWant(_) => 7 case DisconnectLocked(_) => 6
    case DisconnectCleared(_) => 5 case DisconnectLowered(_) => 4 case CloseCancel => 3 case CloseWait => 2
    case SendLocked => 1
    case _ => 0
  }

  /** All steps that loops, watchers and the calls under way can still make. */
  function Measure(s: State): nat {
    Remaining(s) + Total(CallerRank, s.callers)
  }

  lemma CallerRankDrops(s: State, i: nat, c: CallerAct)
    requires i < |s.callers| && CallerMove(s, i, c).Go? && !Connecting(s.callers[i]) && !c.StartConnect?
    ensures CallerRank(CallerMove(s, i, c).pc) + 1 <= CallerRank(s.callers[i]) + (if StartsCall(c) then 9 else 0)
  {
  }

  lemma CallerMeasure(s: State, i: nat, c: CallerAct)
    requires Quiet(s) && Enabled(s, ByCaller(i, c)) && !c.StartConnect?
    ensures var s' := Apply(s, ByCaller(i, c));
            Quiet(s') && Measure(s') + 1 <= Measure(s) + (if StartsCall(c) then 9 else 0)
  {
    var s' := Apply(s, ByCaller(i, c));
    CallerStaysQuiet(s, i, c);
    CallerRankDrops(s, i, c);
    TotalUpdate(CallerRank, s.callers, i, CallerMove(s, i, c).pc);
    SameRemaining(s, s');
    PerformFields(s.(callers := s.callers[i := CallerMove(s, i, c).pc]), Caller(i), CallerMove(s, i, c).effect);
    hide Quiet, CallerMove, Perform, CallerRank, Total, Remaining;
  }

  lemma LoopMeasure(s: State, k: nat, l: LoopAct)
    requires Quiet(s) && Enabled(s, ByLoop(k, l))
    ensures var s' := Apply(s, ByLoop(k, l)); Quiet(s') && Measure(s') < Measure(s)
  {
    LoopStaysQuiet(s, k, l);
    PerformFields(s.(loops := s.loops[k := LoopMove(s, k, l).pc]), Loop(k), LoopMove(s, k, l).effect);
    hide Quiet, LoopMove, Perform, Remaining, Total;
  }

  lemma WatcherMeasure(s: State, k: nat, w: WatcherAct)
    requires Quiet(s) && Enabled(s, ByWatcher(k, w))
    ensures var s' := Apply(s, ByWatcher(k, w)); Quiet(s') && Measure(s') < Measure(s)
  {
    WatcherStaysQuiet(s, k, w);
    PerformFields(s.(watchers := s.watchers[k := WatcherMove(s, k, w).pc]), Watcher(k), WatcherMove(s, k, w).effect);
    hide Quiet, WatcherMove, Perform, Remaining, Total;
  }

  /** The calls of Disconnect, Close and Send that start in a run. */
  function NewCalls(actions: seq<Action>): nat {
    if actions == [] then 0
    else (if actions[0].ByCaller? && StartsCall(actions[0].c) then 1 else 0) + NewCalls(actions[1..])
  }

  /** Every step counts: from a quiet state, as long as no Connect starts, a run has at most `Measure` steps and
      nine more for each new call. */
  lemma {:induction false} RunsAreBounded(s: State, actions: seq<Action>)
    requires Quiet(s) && Run(s, actions).Some? && WithoutConnect(actions)
    ensures var r := Run(s, actions).value;
            Quiet(r) && |actions| + Measure(r) <= Measure(s) + 9 * NewCalls(actions)
    decreases |actions|
  {
    hide Apply, Quiet, Enabled, Measure;
    if actions != [] {
      var a := actions[0];
      match a {
        case ByCaller(i, c) => CallerMeasure(s, i, c);
        case ByLoop(i, l) => LoopMeasure(s, i, l);
        case ByWatcher(i, w) => WatcherMeasure(s, i, w);
      }
      RunsAreBounded(Apply(s, a), actions[1..]);
    }
  }

  /** Every call has returned, every loop has finished and its watcher is gone, and the flag is down. */
  ghost predicate Finished(s: State) {
    && (forall i :: 0 <= i < |s.callers| ==> s.callers[i].Idle? || s.callers[i].CloseReturned?)
    && (forall k :: 0 <= k < |s.loops| ==> k < |s.watchers| && s.loops[k].Done? && s.watchers[k].Gone?)
    && s.lock.None? && !s.connected
  }

  /** A call that has not returned can move, unless it waits for the loops or for the lock. */
  lemma CallProgress(s: State, i: nat) returns (a: Action)
    requires Quiet(s) && s.lock.None? && i < |s.callers| && !s.callers[i].Idle? && !s.callers[i].CloseReturned?
    requires s.callers[i].CloseWait? ==> s.wg == 0
    ensures Forced(s, a)
  {
    assert Holds(s, Caller(i)) <==> s.lock == Some(Caller(i));
    var pc := s.callers[i];
    a := ByCaller(i, if pc.DisconnectStart? then CancelScope else if pc.DisconnectWant? then TakeLock
                     else if pc.CloseCancel? then CancelClient else Return);
  }

  lemma StuckIsFinished(s: State)
    requires Quiet(s) && forall a :: !Forced(s, a)
    ensures Finished(s)
  {
    if s.lock.Some? {
      var a := HolderCanMove(s);
      assert false;
    }
    if k: nat :| k < |s.loops| && !s.loops[k].Done? {
      var a := PairProgress(s, k);
      assert false;
    }
    TotalZero(Alive, s.loops);
    if i: nat :| i < |s.callers| && !s.callers[i].Idle? && !s.callers[i].CloseReturned? {
      var a := CallProgress(s, i);
      assert false;
    }
  }

  lemma FinishedIsStuck(s: State, a: Action)
    requires Finished(s) && |s.watchers| == |s.loops|
    ensures !Forced(s, a)
  {
  }

  /** Shutdown ends: from a quiet state, as long as no Connect starts, every run has at most `Measure` steps and
      nine more for each new call, and it can be extended without the peer and without a new call exactly until
      every call, Close among them, has returned and every loop and watcher has finished. */
  lemma {:induction false} ShutdownTerminates(s: State, actions: seq<Action>)
    requires Quiet(s) && Run(s, actions).Some? && WithoutConnect(actions)
    ensures var r := Run(s, actions).value;
            && |actions| + Measure(r) <= Measure(s) + 9 * NewCalls(actions)
            && ((exists a :: Forced(r, a)) <==> !Finished(r))
  {
    RunsAreBounded(s, actions);
    var r := Run(s, actions).value;
    if Finished(r) {
      forall a ensures !Forced(r, a) { FinishedIsStuck(r, a); }
    } else if forall a :: !Forced(r, a) {
      StuckIsFinished(r);
    }
  }

  /** How a Close gets there: what its progress guarantees while no Connect is under way. */
  ghost predicate CloseStage(s: State, i: nat) {
    && i < |s.callers|
    && var pc := s.callers[i];
       && (pc.DisconnectCleared? || pc.DisconnectLowered? || pc.CloseCancel? || pc.CloseWait? || pc.CloseReturned? ==>
             s.conn.None?)
       && (pc.CloseWait? || pc.CloseReturned? ==> s.shutdown)
       && (PastCancel(pc) ==> ScopeCancelled(s))
  }

  /** Past cancelling the read context, in a Disconnect or Close. */
  predicate PastCancel(pc: CallerPc) {
    || pc.DisconnectWant? || pc.DisconnectLocked? || pc.DisconnectCleared? || pc.DisconnectLowered?
    || pc.CloseCancel? || pc.CloseWait? || pc.CloseReturned?
  }

  lemma CallerStage(s: State, i: nat, j: nat, c: CallerAct)
    requires CloseStage(s, i) && NoConnect(s) && Enabled(s, ByCaller(j, c)) && !c.StartConnect?
    ensures CloseStage(Apply(s, ByCaller(j, c)), i) && NoConnect(Apply(s, ByCaller(j, c)))
  {
    var (pc, m) := (s.callers[j], CallerMove(s, j, c));
    CallerOutsideConnect(s, j, c);
    PerformFields(s.(callers := s.callers[j := CallerMove(s, j, c).pc]), Caller(j), CallerMove(s, j, c).effect);
    assert m.pc.DisconnectCleared? ==> m.effect.ClearSlot?;
    assert m.pc.DisconnectLowered? ==> pc.DisconnectCleared?;
    assert m.pc.CloseCancel? ==> pc.DisconnectLowered?;
    assert m.pc.CloseWait? ==> pc.CloseCancel? && m.effect.Shutdown?;
    assert m.pc.CloseReturned? ==> pc.CloseWait?;
    assert PastCancel(m.pc) ==> PastCancel(pc) || m.effect.CancelContext?;
    assert !m.effect.Rescope?;
    hide CallerMove, Perform;
  }

  lemma CloseStageStep(s: State, i: nat, a: Action)
    requires CloseStage(s, i) && NoConnect(s) && Enabled(s, a) && WithoutConnect([a])
    ensures CloseStage(Apply(s, a), i) && NoConnect(Apply(s, a))
  {
    assert a in [a];
    match a
    case ByCaller(j, c) => CallerStage(s, i, j, c);
    case ByLoop(k, l) =>
      LoopTable(s, k, l);
      PerformFields(s.(loops := s.loops[k := LoopMove(s, k, l).pc]), Loop(k), LoopMove(s, k, l).effect);
      hide LoopMove, Perform;
    case ByWatcher(k, w) =>
      WatcherTable(s, k, w);
      PerformFields(s.(watchers := s.watchers[k := WatcherMove(s, k, w).pc]), Watcher(k), WatcherMove(s, k, w).effect);
      hide WatcherMove, Perform;
  }

  lemma {:induction false} CloseStageRun(s: State, i: nat, actions: seq<Action>)
    requires CloseStage(s, i) && NoConnect(s) && Run(s, actions).Some? && WithoutConnect(actions)
    ensures CloseStage(Run(s, actions).value, i) && NoConnect(Run(s, actions).value)
    decreases |actions|
  {
    hide Apply, CloseStage, Enabled, NoConnect;
    if actions != [] {
      CloseStageStep(s, i, actions[0]);
      CloseStageRun(Apply(s, actions[0]), i, actions[1..]);
    }
  }

  /** A Close that starts with no Connect under way, and sees none start, waits in a quiet state in which the read
      context of every loop is cancelled. */
  lemma {:induction false} CloseWaitsQuietly(s: State, before: seq<Action>, i: nat, after: seq<Action>)
    requires Begin(s) && Run(s, before).Some? && WithoutConnect(after)
    requires var m := Run(s, before).value;
             && NoConnect(m) && i < |m.callers| && m.callers[i].Idle?
             && Run(m, after).Some? && i < |Run(m, after).value.callers|
    requires Run(Run(s, before).value, after).value.callers[i].CloseWait?
    ensures var r := Run(Run(s, before).value, after).value;
            Quiet(r) && forall k :: 0 <= k < |r.loops| && !r.loops[k].Unborn? ==> k in r.cancelled
  {
    var m := Run(s, before).value;
    HeldRun(s, before);
    HeldRun(m, after);
    CloseStageRun(m, i, after);
  }

  // ---------------------------------------------------------------------------------------------
  // Each operation on its own
  // ---------------------------------------------------------------------------------------------

  lemma {:induction false} Follow(s: State, a: Action, rest: seq<Action>)
    requires Enabled(s, a)
    ensures Run(s, [a] + rest) == Run(Apply(s, a), rest)
  {
    assert ([a] + rest)[1..] == rest;
  }

  lemma {:induction false} EmptyRun(s: State)
    ensures Run(s, []) == Some(s)
  {
  }

  function CallerAt(s: State, i: nat, pc: CallerPc): State
    requires i < |s.callers|
  {
    s.(callers := s.callers[i := pc])
  }

  /** Where a caller at `pc` goes next. */
  function CallerNext(s: State, i: nat, pc: CallerPc, c: CallerAct): Move<CallerPc>
    requires i < |s.callers|
  {
    CallerMove(CallerAt(s, i, pc), i, c)
  }

  lemma PerformKeepsCallers(s: State, callers: seq<CallerPc>, x: Actor, e: Effect)
    ensures Perform(s.(callers := callers), x, e) == Perform(s, x, e).(callers := callers)
    ensures Perform(s, x, e).callers == s.callers
  {
  }

  /** A caller's step moves it and performs its effect. */
  lemma {:induction false} CallerGoes(s: State, i: nat, pc: CallerPc, c: CallerAct, pc': CallerPc, e: Effect,
                                      rest: seq<Action>)
    requires i < |s.callers| && CallerNext(s, i, pc, c) == Go(pc', e) && (e.Acquire? ==> s.lock.None?)
    ensures |Perform(s, Caller(i), e).callers| == |s.callers|
    ensures Run(CallerAt(s, i, pc), [ByCaller(i, c)] + rest) == Run(CallerAt(Perform(s, Caller(i), e), i, pc'), rest)
  {
    hide Perform, CallerMove, Run;
    var s1 := CallerAt(s, i, pc);
    assert s1.callers[i := pc'] == s.callers[i := pc'];
    PerformKeepsCallers(s, s.callers[i := pc'], Caller(i), e);
    assert Apply(s1, ByCaller(i, c)) == CallerAt(Perform(s, Caller(i), e), i, pc');
    Follow(s1, ByCaller(i, c), rest);
  }

  /** Where Connect goes next. */
  lemma ConnectTable(s: State, i: nat)
    requires i < |s.callers|
    ensures && CallerNext(s, i, Idle, StartConnect) == Go(ConnectLocked, Acquire)
            && CallerNext(s, i, ConnectLocked, ClearStale) == Go(ConnectCleared, ClearSlot)
            && CallerNext(s, i, ConnectCleared, CancelOld) == Go(ConnectCancelled, CancelContext)
            && CallerNext(s, i, ConnectCancelled, DialFails) == Go(Idle, Release)
            && CallerNext(s, i, ConnectCancelled, Dial) == Go(ConnectDialled(|s.loops|), OpenSocket)
  {
  }

  lemma ConnectDialledTable(s: State, i: nat, n: nat)
    requires i < |s.callers|
    ensures && CallerNext(s, i, ConnectDialled(n), RaiseFlag) == Go(ConnectRaised(n), Raise(n))
            && CallerNext(s, i, ConnectRaised(n), NewScope) == Go(ConnectScoped(n), Rescope(n))
            && CallerNext(s, i, ConnectScoped(n), Spawn) == Go(ConnectSpawned(n), BearLoop(n))
            && CallerNext(s, i, ConnectSpawned(n), FinishConnect) == Go(Idle, Release)
  {
  }

  /** Where Disconnect and Close go next. */
  lemma DisconnectTable(s: State, i: nat, closing: bool)
    requires i < |s.callers|
    ensures && CallerNext(s, i, Idle, StartDisconnect(closing)) == Go(DisconnectStart(closing), Silent)
            && CallerNext(s, i, DisconnectStart(closing), CancelScope) == Go(DisconnectWant(closing), CancelContext)
            && CallerNext(s, i, DisconnectWant(closing), TakeLock) == Go(DisconnectLocked(closing), Acquire)
  {
  }

  lemma DisconnectLockedTable(s: State, i: nat, closing: bool)
    requires i < |s.callers|
    ensures && CallerNext(s, i, DisconnectLocked(closing), ClearConn) == Go(DisconnectCleared(closing), ClearSlot)
            && CallerNext(s, i, DisconnectCleared(closing), LowerFlag) == Go(DisconnectLowered(closing), Lower)
            && CallerNext(s, i, DisconnectLowered(closing), FinishDisconnect) ==
                 Go(if closing then CloseCancel else Idle, Release)
  {
  }

  lemma CloseTable(s: State, i: nat)
    requires i < |s.callers|
    ensures CallerNext(s, i, CloseCancel, CancelClient) == Go(CloseWait, Shutdown)
    ensures s.wg == 0 ==> CallerNext(s, i, CloseWait, Return) == Go(CloseReturned, Silent)
  {
  }

  /** The client after a successful Connect: the old socket closed and the old read context cancelled, a new socket in
      the slot, the flag up, a new read context, and a loop about to start. */
  function Connected(s: State): State {
    var n := |s.loops|;
    s.(conn := Some(n), connected := true, scope := Some(n), raiser := Some(n), wg := s.wg + 1,
       closed := s.closed + Values(s.conn), cancelled := s.cancelled + Values(s.scope),
       loops := s.loops + [Born], watchers := s.watchers + [Absent])
  }

  function Emptied(s: State): State {
    s.(conn := None, closed := s.closed + Values(s.conn))
  }

  function Revoked(s: State): State {
    s.(cancelled := s.cancelled + Values(s.scope))
  }

  lemma {:induction false} ConnectBegins(s: State, i: nat, rest: seq<Action>)
    requires i < |s.callers| && s.lock.None?
    ensures Run(CallerAt(s, i, Idle),
                [ByCaller(i, StartConnect)] + ([ByCaller(i, ClearStale)] + ([ByCaller(i, CancelOld)] + rest))) ==
            Run(CallerAt(Revoked(Emptied(s)).(lock := Some(Caller(i))), i, ConnectCancelled), rest)
  {
    hide CallerNext, CallerAt, Run;
    var s1 := s.(lock := Some(Caller(i)));
    var s2 := Emptied(s).(lock := Some(Caller(i)));
    assert Perform(s1, Caller(i), ClearSlot) == s2;
    assert Perform(s2, Caller(i), CancelContext) == Revoked(Emptied(s)).(lock := Some(Caller(i)));
    ConnectTable(s, i);
    ConnectTable(s1, i);
    ConnectTable(s2, i);
    CallerGoes(s, i, Idle, StartConnect, ConnectLocked, Acquire,
               [ByCaller(i, ClearStale)] + ([ByCaller(i, CancelOld)] + rest));
    CallerGoes(s1, i, ConnectLocked, ClearStale, ConnectCleared, ClearSlot, [ByCaller(i, CancelOld)] + rest);
    CallerGoes(s2, i, ConnectCleared, CancelOld, ConnectCancelled, CancelContext, rest);
  }

  /** A successful dial, up to the spawning of its loop. */
  function Dialled(s: State): State {
    var n := |s.loops|;
    s.(conn := Some(n), connected := true, raiser := Some(n), scope := Some(n),
       loops := s.loops + [Unborn], watchers := s.watchers + [Absent])
  }

  lemma {:induction false} ConnectDials(s: State, i: nat, rest: seq<Action>)
    requires i < |s.callers|
    ensures Run(CallerAt(s, i, ConnectCancelled),
                [ByCaller(i, Dial)] + ([ByCaller(i, RaiseFlag)] + ([ByCaller(i, NewScope)] + rest))) ==
            Run(CallerAt(Dialled(s), i, ConnectScoped(|s.loops|)), rest)
  {
    hide CallerNext, CallerAt, Run;
    var n := |s.loops|;
    var s1 := s.(conn := Some(n), loops := s.loops + [Unborn], watchers := s.watchers + [Absent]);
    var s2 := s1.(connected := true, raiser := Some(n));
    ConnectTable(s, i);
    ConnectDialledTable(s1, i, n);
    ConnectDialledTable(s2, i, n);
    assert Perform(s, Caller(i), OpenSocket) == s1 && Perform(s1, Caller(i), Raise(n)) == s2;
    assert Perform(s2, Caller(i), Rescope(n)) == Dialled(s);
    hide Perform, Dialled;
    var last := [ByCaller(i, NewScope)] + rest;
    CallerGoes(s, i, ConnectCancelled, Dial, ConnectDialled(n), OpenSocket, [ByCaller(i, RaiseFlag)] + last);
    CallerGoes(s1, i, ConnectDialled(n), RaiseFlag, ConnectRaised(n), Raise(n), last);
    CallerGoes(s2, i, ConnectRaised(n), NewScope, ConnectScoped(n), Rescope(n), rest);
  }

  /** Connect, left alone, with a dial that succeeds. */
  lemma {:induction false} ConnectAlone(s: State, i: nat)
    requires i < |s.callers| && s.callers[i].Idle? && s.lock.None?
    ensures Run(s, [ByCaller(i, StartConnect)] + ([ByCaller(i, ClearStale)] + ([ByCaller(i, CancelOld)]
                   + ([ByCaller(i, Dial)] + ([ByCaller(i, RaiseFlag)] + ([ByCaller(i, NewScope)]
                   + ([ByCaller(i, Spawn)] + ([ByCaller(i, FinishConnect)] + [])))))))) == Some(Connected(s))
  {
    hide CallerNext, Run;
    var n := |s.loops|;
    var last := [ByCaller(i, Spawn)] + ([ByCaller(i, FinishConnect)] + []);
    assert s == CallerAt(s, i, Idle);
    ConnectBegins(s, i, [ByCaller(i, Dial)] + ([ByCaller(i, RaiseFlag)] + ([ByCaller(i, NewScope)] + last)));
    var s1 := Revoked(Emptied(s)).(lock := Some(Caller(i)));
    ConnectDials(s1, i, last);
    ConnectSpawns(s, i, Dialled(s1));
  }

  lemma {:induction false} ConnectSpawns(s: State, i: nat, dialled: State)
    requires i < |s.callers| && s.callers[i].Idle? && s.lock.None?
    requires dialled == Dialled(Revoked(Emptied(s)).(lock := Some(Caller(i))))
    ensures Run(CallerAt(dialled, i, ConnectScoped(|s.loops|)),
                [ByCaller(i, Spawn)] + ([ByCaller(i, FinishConnect)] + [])) == Some(Connected(s))
  {
    var n := |s.loops|;
    var s3 := Connected(s).(lock := Some(Caller(i)));
    assert (s.loops + [Unborn])[n := Born] == s.loops + [Born];
    assert Perform(dialled, Caller(i), BearLoop(n)) == s3;
    assert Perform(s3, Caller(i), Release) == Connected(s);
    assert CallerAt(Connected(s), i, Idle) == Connected(s);
    ConnectDialledTable(dialled, i, n);
    ConnectDialledTable(s3, i, n);
    hide CallerNext, CallerAt, Perform, Connected, Run;
    CallerGoes(dialled, i, ConnectScoped(n), Spawn, ConnectSpawned(n), BearLoop(n), [ByCaller(i, FinishConnect)] + []);
    CallerGoes(s3, i, ConnectSpawned(n), FinishConnect, Idle, Release, []);
    EmptyRun(Connected(s));
  }

  /** Connect, left alone, with a dial that fails: the old socket is closed all the same and the flag untouched. */
  lemma {:induction false} ConnectFailsAlone(s: State, i: nat)
    requires i < |s.callers| && s.callers[i].Idle? && s.lock.None?
    ensures Run(s, [ByCaller(i, StartConnect)] + ([ByCaller(i, ClearStale)] + ([ByCaller(i, CancelOld)]
                   + ([ByCaller(i, DialFails)] + [])))) == Some(Revoked(Emptied(s)))
  {
    var r := Revoked(Emptied(s));
    assert s == CallerAt(s, i, Idle) && CallerAt(r, i, Idle) == r;
    ConnectBegins(s, i, [ByCaller(i, DialFails)] + []);
    CallerGoes(r.(lock := Some(Caller(i))), i, ConnectCancelled, DialFails, Idle, Release, []);
    hide CallerNext, Run;
    EmptyRun(r);
  }

  lemma {:induction false} DisconnectSteps(s: State, i: nat, closing: bool, rest: seq<Action>)
    requires i < |s.callers| && s.lock.None?
    ensures Run(CallerAt(s, i, Idle),
                [ByCaller(i, StartDisconnect(closing))] + ([ByCaller(i, CancelScope)] + ([ByCaller(i, TakeLock)]
                + ([ByCaller(i, ClearConn)] + ([ByCaller(i, LowerFlag)]
                + ([ByCaller(i, FinishDisconnect)] + rest)))))) ==
            Run(CallerAt(Emptied(Revoked(s)).(connected := false), i, if closing then CloseCancel else Idle), rest)
  {
    hide CallerNext, CallerAt, Run;
    var s1 := Revoked(s);
    var s2 := s1.(lock := Some(Caller(i)));
    var s3 := Emptied(s1).(lock := Some(Caller(i)));
    var s4 := s3.(connected := false);
    assert Perform(s, Caller(i), CancelContext) == s1 && Perform(s2, Caller(i), ClearSlot) == s3;
    assert Perform(s4, Caller(i), Release) == Emptied(s1).(connected := false);
    var end := if closing then CloseCancel else Idle;
    assert Perform(s3, Caller(i), Lower) == s4;
    DisconnectTable(s, i, closing);
    DisconnectTable(s1, i, closing);
    DisconnectLockedTable(s2, i, closing);
    DisconnectLockedTable(s3, i, closing);
    DisconnectLockedTable(s4, i, closing);
    hide Emptied, Revoked;
    var rest4 := [ByCaller(i, FinishDisconnect)] + rest;
    var rest3 := [ByCaller(i, LowerFlag)] + rest4;
    var rest2 := [ByCaller(i, ClearConn)] + rest3;
    CallerGoes(s, i, Idle, StartDisconnect(closing), DisconnectStart(closing), Silent,
               [ByCaller(i, CancelScope)] + ([ByCaller(i, TakeLock)] + rest2));
    CallerGoes(s, i, DisconnectStart(closing), CancelScope, DisconnectWant(closing), CancelContext,
               [ByCaller(i, TakeLock)] + rest2);
    CallerGoes(s1, i, DisconnectWant(closing), TakeLock, DisconnectLocked(closing), Acquire, rest2);
    CallerGoes(s2, i, DisconnectLocked(closing), ClearConn, DisconnectCleared(closing), ClearSlot, rest3);
    CallerGoes(s3, i, DisconnectCleared(closing), LowerFlag, DisconnectLowered(closing), Lower, rest4);
    CallerGoes(s4, i, DisconnectLowered(closing), FinishDisconnect, end, Release, rest);
  }

  /** Disconnect, left alone: socket closed, slot empty, read context cancelled, flag down. */
  lemma {:induction false} DisconnectAlone(s: State, i: nat) returns (actions: seq<Action>)
    requires i < |s.callers| && s.callers[i].Idle? && s.lock.None?
    ensures Run(s, actions) == Some(Emptied(Revoked(s)).(connected := false))
  {
    var r := Emptied(Revoked(s)).(connected := false);
    assert s == CallerAt(s, i, Idle) && r == CallerAt(r, i, Idle);
    DisconnectSteps(s, i, false, []);
    actions := [ByCaller(i, StartDisconnect(false))] + ([ByCaller(i, CancelScope)] + ([ByCaller(i, TakeLock)]
               + ([ByCaller(i, ClearConn)] + ([ByCaller(i, LowerFlag)] + ([ByCaller(i, FinishDisconnect)] + [])))));
    hide Run, CallerNext;
    EmptyRun(r);
  }

  /** Close, left alone and with no loop to wait for: a Disconnect, and the client's own context cancelled. */
  lemma {:induction false} CloseAlone(s: State, i: nat) returns (actions: seq<Action>)
    requires i < |s.callers| && s.callers[i].Idle? && s.lock.None? && s.wg == 0
    ensures Run(s, actions) ==
              Some(CallerAt(Emptied(Revoked(s)).(connected := false, shutdown := true), i, CloseReturned))
  {
    var r := Emptied(Revoked(s)).(connected := false);
    var last := [ByCaller(i, CancelClient)] + ([ByCaller(i, Return)] + []);
    assert s == CallerAt(s, i, Idle);
    DisconnectSteps(s, i, true, last);
    actions := [ByCaller(i, StartDisconnect(true))] + ([ByCaller(i, CancelScope)] + ([ByCaller(i, TakeLock)]
               + ([ByCaller(i, ClearConn)] + ([ByCaller(i, LowerFlag)] + ([ByCaller(i, FinishDisconnect)] + last)))));
    CloseTable(r, i);
    CloseTable(r.(shutdown := true), i);
    hide CallerNext, CallerAt, Run;
    CallerGoes(r, i, CloseCancel, CancelClient, CloseWait, Shutdown, [ByCaller(i, Return)] + []);
    CallerGoes(r.(shutdown := true), i, CloseWait, Return, CloseReturned, Silent, []);
    EmptyRun(CallerAt(r.(shutdown := true), i, CloseReturned));
  }

  /** Send, left alone, changes nothing here: it writes to the socket in the slot, if any, holding the lock. */
  lemma {:induction false} SendAlone(s: State, i: nat)
    requires i < |s.callers| && s.callers[i].Idle? && s.lock.None?
    ensures Run(s, [ByCaller(i, StartSend)] + ([ByCaller(i, FinishSend)] + [])) == Some(s)
  {
    var s1 := s.(lock := Some(Caller(i)));
    assert s == CallerAt(s, i, Idle);
    SendTable(s, i);
    SendTable(s1, i);
    hide CallerNext, Run;
    CallerGoes(s, i, Idle, StartSend, SendLocked, Acquire, [ByCaller(i, FinishSend)] + []);
    CallerGoes(s1, i, SendLocked, FinishSend, Idle, Release, []);
    EmptyRun(s);
  }

  lemma SendTable(s: State, i: nat)
    requires i < |s.callers|
    ensures CallerNext(s, i, Idle, StartSend) == Go(SendLocked, Acquire)
    ensures CallerNext(s, i, SendLocked, FinishSend) == Go(Idle, Release)
  {
  }

  /** Loop `k` and its watcher, both as given. */
  function PairAt(s: State, k: nat, l: LoopPc, w: WatcherPc): State
    requires k < |s.loops| && k < |s.watchers|
  {
    s.(loops := s.loops[k := l], watchers := s.watchers[k := w])
  }

  predicate KeepsPairs(e: Effect) {
    !e.OpenSocket? && !e.BearLoop? && !e.BearWatcher?
  }

  lemma PerformKeepsPairs(s: State, loops: seq<LoopPc>, watchers: seq<WatcherPc>, x: Actor, e: Effect)
    requires KeepsPairs(e)
    ensures Perform(s.(loops := loops, watchers := watchers), x, e) ==
            Perform(s, x, e).(loops := loops, watchers := watchers)
    ensures Perform(s, x, e).loops == s.loops && Perform(s, x, e).watchers == s.watchers
  {
  }

  lemma {:induction false} LoopGoes(s: State, k: nat, l: LoopPc, w: WatcherPc, a: LoopAct, l': LoopPc, e: Effect,
                                    rest: seq<Action>)
    requires k < |s.loops| && k < |s.watchers| && KeepsPairs(e)
    requires LoopMove(PairAt(s, k, l, w), k, a) == Go(l', e) && (e.Acquire? ==> s.lock.None?)
    ensures var s' := Perform(s, Loop(k), e);
            && |s'.loops| == |s.loops| && |s'.watchers| == |s.watchers|
            && Run(PairAt(s, k, l, w), [ByLoop(k, a)] + rest) == Run(PairAt(s', k, l', w), rest)
  {
    hide LoopMove, Run, Perform;
    var s1 := PairAt(s, k, l, w);
    assert s1.loops[k := l'] == s.loops[k := l'];
    PerformKeepsPairs(s, s.loops[k := l'], s.watchers[k := w], Loop(k), e);
    assert Apply(s1, ByLoop(k, a)) == PairAt(Perform(s, Loop(k), e), k, l', w);
    Follow(s1, ByLoop(k, a), rest);
  }

  lemma {:induction false} WatcherGoes(s: State, k: nat, l: LoopPc, w: WatcherPc, a: WatcherAct, w': WatcherPc,
                                       e: Effect, rest: seq<Action>)
    requires k < |s.loops| && k < |s.watchers| && KeepsPairs(e)
    requires WatcherMove(PairAt(s, k, l, w), k, a) == Go(w', e) && (e.Acquire? ==> s.lock.None?)
    ensures var s' := Perform(s, Watcher(k), e);
            && |s'.loops| == |s.loops| && |s'.watchers| == |s.watchers|
            && Run(PairAt(s, k, l, w), [ByWatcher(k, a)] + rest) == Run(PairAt(s', k, l, w'), rest)
  {
    hide WatcherMove, Run, Perform;
    var s1 := PairAt(s, k, l, w);
    assert s1.watchers[k := w'] == s.watchers[k := w'];
    PerformKeepsPairs(s, s.loops[k := l], s.watchers[k := w'], Watcher(k), e);
    assert Apply(s1, ByWatcher(k, a)) == PairAt(Perform(s, Watcher(k), e), k, l, w');
    Follow(s1, ByWatcher(k, a), rest);
  }

  /** A loop reads what is in the slot, message after message, and leaves when the slot is empty. */
  lemma {:induction false} LoopReads(s: State, k: nat, more: seq<Action>)
    requires k < |s.loops| && k < |s.watchers| && s.loops[k].Top? && s.lock.None?
    ensures s.conn.Some? ==> Run(s, [ByLoop(k, ReadSlot)] + ([ByLoop(k, ReadMessage)] + more)) == Run(s, more)
    ensures s.conn.Some? ==>
      Run(s, [ByLoop(k, ReadSlot)] + more) == Run(PairAt(s, k, Reading(s.conn.value), s.watchers[k]), more)
    ensures s.conn.None? ==> Run(s, [ByLoop(k, ReadSlot)] + more) == Run(PairAt(s, k, Leaving, s.watchers[k]), more)
  {
    var w := s.watchers[k];
    assert s == PairAt(s, k, Top, w);
    if s.conn.Some? {
      var read := Reading(s.conn.value);
      LoopGoes(s, k, Top, w, ReadSlot, read, Silent, [ByLoop(k, ReadMessage)] + more);
      LoopGoes(s, k, read, w, ReadMessage, Top, Silent, more);
      LoopGoes(s, k, Top, w, ReadSlot, read, Silent, more);
    } else {
      LoopGoes(s, k, Top, w, ReadSlot, Leaving, Silent, more);
    }
  }

  /** A loop starts with its watcher, which watches the read context that is current then. */
  lemma {:induction false} LoopStarts(s: State, k: nat)
    requires k < |s.loops| && k < |s.watchers| && s.loops[k].Born? && s.scope.Some?
    ensures Run(s, [ByLoop(k, StartWatcher)] + ([ByWatcher(k, Choose)] + [])) ==
              Some(PairAt(s, k, Top, Watching(s.scope.value)))
  {
    var s1 := PairAt(s, k, Top, Choosing);
    var s2 := PairAt(s, k, Top, Watching(s.scope.value));
    assert Apply(s, ByLoop(k, StartWatcher)) == s1;
    assert s1.watchers[k := Watching(s.scope.value)] == s2.watchers;
    Follow(s, ByLoop(k, StartWatcher), [ByWatcher(k, Choose)] + []);
    Follow(s1, ByWatcher(k, Choose), []);
    EmptyRun(s2);
    hide Run;
  }

  /** A watcher whose context is cancelled closes the socket in the slot, which a loop may be reading. */
  lemma {:induction false} WatcherUnblocks(s: State, k: nat, context: nat)
    requires k < |s.loops| && k < |s.watchers| && s.watchers[k] == Watching(context) && s.lock.None?
    requires s.shutdown || context in s.cancelled
    ensures Run(s, [ByWatcher(k, Wake)] + ([ByWatcher(k, LockSlot)] + ([ByWatcher(k, Unblock)]
                   + ([ByWatcher(k, UnlockSlot)] + [])))) ==
              Some(PairAt(s.(closed := s.closed + Values(s.conn)), k, s.loops[k], Gone))
  {
    var l := s.loops[k];
    var s1 := s.(lock := Some(Watcher(k)));
    var s2 := s1.(closed := s.closed + Values(s.conn));
    assert s == PairAt(s, k, l, Watching(context));
    assert Perform(s, Watcher(k), Acquire) == s1 && Perform(s1, Watcher(k), CloseSlot) == s2;
    assert Perform(s2, Watcher(k), Release) == s2.(lock := None);
    var last := [ByWatcher(k, UnlockSlot)] + [];
    WatcherTableAt(s, k, l, context);
    WatcherTableAt(s1, k, l, context);
    WatcherTableAt(s2, k, l, context);
    hide WatcherMove, Run, Perform, PairAt;
    WatcherGoes(s, k, l, Watching(context), Wake, Waiting, Silent,
                [ByWatcher(k, LockSlot)] + ([ByWatcher(k, Unblock)] + last));
    WatcherGoes(s, k, l, Waiting, LockSlot, Closing, Acquire, [ByWatcher(k, Unblock)] + last);
    WatcherGoes(s1, k, l, Closing, Unblock, Closed, CloseSlot, last);
    WatcherGoes(s2, k, l, Closed, UnlockSlot, Gone, Release, []);
    EmptyRun(PairAt(s2.(lock := None), k, l, Gone));
  }

  /** Where a watcher goes once its context is cancelled. */
  lemma WatcherTableAt(s: State, k: nat, l: LoopPc, context: nat)
    requires k < |s.loops| && k < |s.watchers| && (s.shutdown || context in s.cancelled)
    ensures WatcherMove(PairAt(s, k, l, Watching(context)), k, Wake) == Go(Waiting, Silent)
    ensures WatcherMove(PairAt(s, k, l, Waiting), k, LockSlot) == Go(Closing, Acquire)
    ensures WatcherMove(PairAt(s, k, l, Closing), k, Unblock) == Go(Closed, CloseSlot)
    ensures WatcherMove(PairAt(s, k, l, Closed), k, UnlockSlot) == Go(Gone, Release)
  {
  }

  /** Where a loop goes once its watcher is gone. */
  lemma LoopTableAt(s: State, k: nat)
    requires k < |s.loops| && k < |s.watchers|
    ensures LoopMove(PairAt(s, k, WantLock, Gone), k, Lock) == Go(Locked, Acquire)
    ensures LoopMove(PairAt(s, k, Locked, Gone), k, Clean) == Go(Cleared, ClearSlot)
    ensures LoopMove(PairAt(s, k, Cleared, Gone), k, Unlock) == Go(Unlocked, Release)
    ensures LoopMove(PairAt(s, k, Unlocked, Gone), k, Reset) == Go(Lowered, Lower)
    ensures LoopMove(PairAt(s, k, Lowered, Gone), k, Finish) == Go(Done, EndLoop)
  {
  }

  /** The rest of a loop after a failed read, its watcher still watching: the watcher goes, the slot is cleared, the
      flag lowered, and the wait group released. */
  lemma {:induction false} LoopCleansUp(s: State, k: nat, socket: nat, context: nat) returns (actions: seq<Action>)
    requires k < |s.loops| && k < |s.watchers| && s.lock.None? && s.wg > 0
    requires s.loops[k] == Reading(socket) && s.watchers[k] == Watching(context)
    ensures Run(s, actions) == Some(PairAt(Emptied(s).(connected := false, wg := s.wg - 1), k, Done, Gone))
  {
    hide Run, LoopMove, WatcherMove;
    var w := Watching(context);
    assert s == PairAt(s, k, Reading(socket), w);
    FailedReadTable(s, k, socket, context);
    hide PairAt;
    var last := LoopLocksAndEnds(s, k);
    var rest2 := [ByWatcher(k, Quit)] + ([ByLoop(k, JoinWatcher)] + last);
    actions := [ByLoop(k, ReadFails)] + ([ByLoop(k, CloseDone)] + rest2);
    LoopGoes(s, k, Reading(socket), w, ReadFails, Leaving, Silent, [ByLoop(k, CloseDone)] + rest2);
    LoopGoes(s, k, Leaving, w, CloseDone, AwaitWatcher, Silent, rest2);
    WatcherGoes(s, k, AwaitWatcher, w, Quit, Gone, Silent, [ByLoop(k, JoinWatcher)] + last);
    LoopGoes(s, k, AwaitWatcher, Gone, JoinWatcher, WantLock, Silent, last);
  }

  /** Where a loop and its watcher go after a failed read. */
  lemma FailedReadTable(s: State, k: nat, socket: nat, context: nat)
    requires k < |s.loops| && k < |s.watchers|
    ensures LoopMove(PairAt(s, k, Reading(socket), Watching(context)), k, ReadFails) == Go(Leaving, Silent)
    ensures LoopMove(PairAt(s, k, Leaving, Watching(context)), k, CloseDone) == Go(AwaitWatcher, Silent)
    ensures WatcherMove(PairAt(s, k, AwaitWatcher, Watching(context)), k, Quit) == Go(Gone, Silent)
    ensures LoopMove(PairAt(s, k, AwaitWatcher, Gone), k, JoinWatcher) == Go(WantLock, Silent)
  {
  }

  lemma {:induction false} LoopLocksAndEnds(s: State, k: nat) returns (actions: seq<Action>)
    requires k < |s.loops| && k < |s.watchers| && s.lock.None? && s.wg > 0
    ensures Run(PairAt(s, k, WantLock, Gone), actions) ==
              Some(PairAt(Emptied(s).(connected := false, wg := s.wg - 1), k, Done, Gone))
  {
    hide LoopMove, Run, PairAt;
    var locked := s.(lock := Some(Loop(k)));
    var emptied := Emptied(s).(lock := Some(Loop(k)));
    var rest := LoopEnds(Emptied(s), k);
    assert Perform(locked, Loop(k), ClearSlot) == emptied && Perform(emptied, Loop(k), Release) == Emptied(s);
    LoopTableAt(s, k);
    LoopTableAt(locked, k);
    LoopTableAt(emptied, k);
    hide Perform, Emptied;
    var rest3 := [ByLoop(k, Unlock)] + rest;
    actions := [ByLoop(k, Lock)] + ([ByLoop(k, Clean)] + rest3);
    LoopGoes(s, k, WantLock, Gone, Lock, Locked, Acquire, [ByLoop(k, Clean)] + rest3);
    LoopGoes(locked, k, Locked, Gone, Clean, Cleared, ClearSlot, rest3);
    LoopGoes(emptied, k, Cleared, Gone, Unlock, Unlocked, Release, rest);
  }

  lemma {:induction false} LoopEnds(s: State, k: nat) returns (actions: seq<Action>)
    requires k < |s.loops| && k < |s.watchers| && s.wg > 0
    ensures Run(PairAt(s, k, Unlocked, Gone), actions) ==
              Some(PairAt(s.(connected := false, wg := s.wg - 1), k, Done, Gone))
  {
    hide LoopMove, Run, PairAt;
    var lowered := s.(connected := false);
    LoopTableAt(s, k);
    LoopTableAt(lowered, k);
    var last := [ByLoop(k, Finish)] + [];
    actions := [ByLoop(k, Reset)] + last;
    LoopGoes(s, k, Unlocked, Gone, Reset, Lowered, Lower, last);
    LoopGoes(lowered, k, Lowered, Gone, Finish, Done, EndLoop, []);
    EmptyRun(PairAt(lowered.(wg := s.wg - 1), k, Done, Gone));
  }
}
