/** The copies of the token: Telephone's current token with its parsed claims, the configuration's copy,
    and the channel client's copy. `refreshToken` and `attemptConnection` move them, in separate goroutines. */
module Tokens {
  import opened Jwt
  import opened Wrappers

  type Token = string

  /** What never changes while Telephone runs: the environment's token and the JWT parser. */
  datatype Env = Env(original: Token, parse: Token -> Option<Claims>)

  datatype Copies = Copies(current: Token, claims: Claims, configured: Token, client: Token)

  /** The fallback can be adopted: there is no original token, or it parses. */
  ghost predicate OriginalUsable(e: Env) {
    e.original == "" || e.parse(e.original).Some?
  }

  ghost predicate ClaimsMatch(e: Env, c: Copies) {
    e.parse(c.current) == Some(c.claims)
  }

  // ---------------------------------------------------------------------------------------------
  // The procedures on their own
  // ---------------------------------------------------------------------------------------------

  /** What the refresh request brings back. */
  datatype Reply = SendFailed | ErrorReply | NoToken | NewToken(token: Token)

  datatype RefreshError = RequestFailed | Refused | MissingToken | Unparsable | Rejected

  datatype Outcome = Refreshed | Failed(error: RefreshError)

  /** The token chosen at start: a stored one still valid, else the environment's. */
  function Choose(stored: Option<(Token, int)>, environment: Token, now: int): Option<Token> {
    if stored.Some? && stored.value.1 > now then Some(stored.value.0)
    else if environment != "" then Some(environment)
    else None
  }

  /** `New`: fails without a token, or when the chosen one does not parse or validate. */
  function Initial(e: Env, stored: Option<(Token, int)>, now: int): (r: Option<Copies>)
    ensures r.Some? ==> ClaimsMatch(e, r.value) && r.value.client == r.value.current && r.value.configured == e.original
    ensures r.Some? ==> stored.None? || stored.value.1 <= now ==> r.value.current == e.original != ""
  {
    match Choose(stored, e.original, now)
    case None => None
    case Some(token) =>
      match e.parse(token)
      case None => None
      case Some(claims) =>
        if Acceptable(claims, now) then Some(Copies(token, claims, e.original, token)) else None
  }

  /** Starting succeeds exactly when the preferred token, a stored one still valid at `now` or else the
      environment's, is there, parses and is accepted; that token is then current and in the client. */
  lemma StartsWithPreferred(e: Env, stored: Option<(Token, int)>, now: int)
    ensures stored.Some? && now < stored.value.1 ==>
      var (token, r) := (stored.value.0, Initial(e, stored, now));
      && (r.Some? <==> e.parse(token).Some? && Acceptable(e.parse(token).value, now))
      && (r.Some? ==> r.value.current == r.value.client == token && e.parse(token) == Some(r.value.claims))
    ensures stored.None? || stored.value.1 <= now ==>
      var (token, r) := (e.original, Initial(e, stored, now));
      && (r.Some? <==> token != "" && e.parse(token).Some? && Acceptable(e.parse(token).value, now))
      && (r.Some? ==> r.value.current == r.value.client == token && e.parse(token) == Some(r.value.claims))
  {
  }

  function Adopt(c: Copies, token: Token, claims: Claims): Copies {
    c.(current := token, claims := claims, configured := token)
  }

  /** The copies after an undisturbed fallback attempt. */
  function AfterAttempt(e: Env, c: Copies, firstDial: bool, secondDial: bool): Copies {
    if firstDial || e.original == "" || e.original == c.current then c
    else if !secondDial then c.(client := c.current)
    else
      var c' := c.(client := e.original);
      if e.parse(e.original).Some? then Adopt(c', e.original, e.parse(e.original).value) else c'
  }

  class Telephone {
    const env: Env
    var currentToken: Token
    var claims: Claims
    var configToken: Token
    var clientToken: Token

    function State(): Copies
      reads this
    {
      Copies(currentToken, claims, configToken, clientToken)
    }

    constructor (env: Env, c: Copies)
      ensures this.env == env && State() == c
    {
      this.env := env;
      currentToken, claims, configToken, clientToken := c.current, c.claims, c.configured, c.client;
    }

    method UpdateToken(token: Token, newClaims: Claims)
      modifies this
      ensures State() == Adopt(old(State()), token, newClaims)
    {
      currentToken := token;
      claims := newClaims;
      configToken := token;
    }

    /** `refreshToken` run without a concurrent fallback: a failure changes nothing, and a success leaves
        the new, parsing token in every copy. Persisting it is best effort and touches no copy. */
    method RefreshToken(reply: Reply, now: int) returns (outcome: Outcome)
      requires ClaimsMatch(env, State())
      modifies this
      ensures ClaimsMatch(env, State())
      ensures outcome.Refreshed? <==>
        reply.NewToken? && env.parse(reply.token).Some? && Acceptable(env.parse(reply.token).value, now)
      ensures outcome.Failed? ==> State() == old(State())
      ensures outcome.Refreshed? ==>
        currentToken == configToken == clientToken == reply.token
      ensures old(clientToken == currentToken) ==> clientToken == currentToken
    {
      match reply
      case SendFailed => return Failed(RequestFailed);
      case ErrorReply => return Failed(Refused);
      case NoToken => return Failed(MissingToken);
      case NewToken(token) =>
        var parsed := env.parse(token);
        if parsed.None? {
          return Failed(Unparsable);
        }
        if !Acceptable(parsed.value, now) {
          return Failed(Rejected);
        }
        UpdateToken(token, parsed.value);
        clientToken := token;
        return Refreshed;
    }

    /** `attemptConnection` run without a concurrent refresh; the arguments are the outcomes of its two
        possible dials. The copies agree afterwards exactly when the original token, if it was adopted,
        parses. */
    method AttemptConnection(firstDial: bool, secondDial: bool) returns (connected: bool)
      requires ClaimsMatch(env, State())
      modifies this
      ensures State() == AfterAttempt(env, old(State()), firstDial, secondDial)
      ensures ClaimsMatch(env, State())
      ensures connected == (firstDial || (env.original != "" && env.original != old(currentToken) && secondDial))
      ensures firstDial || !connected ==>
        currentToken == old(currentToken) && claims == old(claims) && configToken == old(configToken)
      ensures firstDial ==> clientToken == old(clientToken)
      ensures connected && !firstDial ==> clientToken == env.original
      ensures old(clientToken == currentToken) ==>
        (clientToken == currentToken <==> firstDial || !connected || env.parse(env.original).Some?)
    {
      if firstDial {
        return true;
      }
      var current := currentToken;
      if env.original == "" || env.original == current {
        return false;
      }
      clientToken := env.original;
      if !secondDial {
        clientToken := current;
        return false;
      }
      var parsed := env.parse(env.original);
      if parsed.Some? {
        UpdateToken(env.original, parsed.value);
      }
      return true;
    }
  }

  // ---------------------------------------------------------------------------------------------
  // Interleavings: any number of `reconnect` callers and the refresh goroutine
  // ---------------------------------------------------------------------------------------------

  /** Where a `reconnect` caller stands. The five states after `AtAttempt` are inside `attemptConnection`,
      past its first dial; `Joining` and `Waiting` are the rest of the retry loop. */
  datatype CallerPc =
    | Outside
    | AtAttempt
    | ReadCurrent
    | SetOriginal(saved: Token)
    | DialOriginal(saved: Token)
    | Restore(saved: Token)
    | AdoptOriginal
    | Joining
    | Waiting

  datatype RefresherPc = Idle | Persisting(token: Token, claims: Claims) | UpdatingClient(token: Token)

  datatype Machine = Machine(
    copies: Copies,
    flag: bool,
    callers: seq<CallerPc>,
    refresher: RefresherPc,
    history: set<Token>)   // tokens that are or have been current

  datatype Action =
    | Enter(i: nat)                       // the flag is tested and set under its mutex
    | FirstDial(i: nat, ok: bool)
    | Compare(i: nat)                     // read the current token, compare it with the original
    | PutOriginal(i: nat)
    | SecondDial(i: nat, ok: bool)
    | PutBack(i: nat)
    | TakeOver(i: nat)
    | Join(i: nat, ok: bool)
    | Retry(i: nat)
    | GiveUp(i: nat)                      // any early way out of the loop; the deferred release runs
    | ReceiveToken(token: Token)          // a reply whose token parses and validates
    | Store                               // persisted or not, then updateToken
    | PutNew

  ghost predicate Begin(e: Env, m: Machine) {
    && ClaimsMatch(e, m.copies)
    && m.copies.client == m.copies.current
    && !m.flag
    && (forall i :: 0 <= i < |m.callers| ==> m.callers[i].Outside?)
    && m.refresher.Idle?
    && m.history == {m.copies.current}
  }

  ghost predicate Enabled(e: Env, m: Machine, a: Action) {
    match a
    case Enter(i) => i < |m.callers| && m.callers[i].Outside?
    case FirstDial(i, _) => i < |m.callers| && m.callers[i].AtAttempt?
    case Compare(i) => i < |m.callers| && m.callers[i].ReadCurrent?
    case PutOriginal(i) => i < |m.callers| && m.callers[i].SetOriginal?
    case SecondDial(i, _) => i < |m.callers| && m.callers[i].DialOriginal?
    case PutBack(i) => i < |m.callers| && m.callers[i].Restore?
    case TakeOver(i) => i < |m.callers| && m.callers[i].AdoptOriginal?
    case Join(i, _) => i < |m.callers| && m.callers[i].Joining?
    case Retry(i) => i < |m.callers| && m.callers[i].Waiting?
    case GiveUp(i) => i < |m.callers| && (m.callers[i].Waiting? || m.callers[i].AtAttempt?)
    case ReceiveToken(t) => m.refresher.Idle? && e.parse(t).Some?
    case Store => m.refresher.Persisting?
    case PutNew => m.refresher.UpdatingClient?
  }

  ghost function Moved(m: Machine, i: nat, pc: CallerPc): Machine
    requires i < |m.callers|
  {
    m.(callers := m.callers[i := pc])
  }

  ghost function Apply(e: Env, m: Machine, a: Action): Machine
    requires Enabled(e, m, a)
  {
    var c := m.copies;
    match a
    case Enter(i) => if m.flag then m else Moved(m, i, AtAttempt).(flag := true)
    case FirstDial(i, ok) => Moved(m, i, if ok then Joining else ReadCurrent)
    case Compare(i) =>
      Moved(m, i, if e.original == "" || e.original == c.current then Waiting else SetOriginal(c.current))
    case PutOriginal(i) => Moved(m, i, DialOriginal(m.callers[i].saved)).(copies := c.(client := e.original))
    case SecondDial(i, ok) => Moved(m, i, if ok then AdoptOriginal else Restore(m.callers[i].saved))
    case PutBack(i) => Moved(m, i, Waiting).(copies := c.(client := m.callers[i].saved))
    case TakeOver(i) =>
      (match e.parse(e.original)
       case None => Moved(m, i, Joining)
       case Some(claims) =>
         Moved(m, i, Joining).(copies := Adopt(c, e.original, claims), history := m.history + {e.original}))
    case Join(i, ok) => if ok then Moved(m, i, Outside).(flag := false) else Moved(m, i, Waiting)
    case Retry(i) => Moved(m, i, AtAttempt)
    case GiveUp(i) => Moved(m, i, Outside).(flag := false)
    case ReceiveToken(t) => m.(refresher := Persisting(t, e.parse(t).value))
    case Store =>
      m.(copies := Adopt(c, m.refresher.token, m.refresher.claims), refresher := UpdatingClient(m.refresher.token),
         history := m.history + {m.refresher.token})
    case PutNew => m.(copies := c.(client := m.refresher.token), refresher := Idle)
  }

  /** The state after a run, if each action was enabled in turn. */
  ghost function Run(e: Env, m: Machine, actions: seq<Action>): Option<Machine>
    decreases |actions|
  {
    if actions == [] then Some(m)
    else if !Enabled(e, m, actions[0]) then None
    else Run(e, Apply(e, m, actions[0]), actions[1..])
  }

  // Properties of every interleaving

  ghost predicate SavedKnown(m: Machine, pc: CallerPc) {
    (pc.SetOriginal? || pc.DialOriginal? || pc.Restore?) ==> pc.saved in m.history
  }

  ghost predicate Inv(e: Env, m: Machine) {
    && ClaimsMatch(e, m.copies)
    && m.copies.current in m.history
    && (m.copies.client == e.original || m.copies.client in m.history)
    && (m.copies.configured == m.copies.current || m.history == {m.copies.current})
    && (m.refresher.Persisting? ==> e.parse(m.refresher.token) == Some(m.refresher.claims))
    && (m.refresher.UpdatingClient? ==> m.refresher.token in m.history)
    && (forall i :: 0 <= i < |m.callers| ==> SavedKnown(m, m.callers[i]))
    && SingleFlight(m)
  }

  /** At most one caller is past the flag, and the flag is up exactly while one is. */
  ghost predicate SingleFlight(m: Machine) {
    && (forall i, j :: 0 <= i < j < |m.callers| ==> m.callers[i].Outside? || m.callers[j].Outside?)
    && (m.flag <==> exists i :: 0 <= i < |m.callers| && !m.callers[i].Outside?)
  }

  lemma SingleFlightStep(e: Env, m: Machine, a: Action)
    requires SingleFlight(m) && Enabled(e, m, a)
    ensures SingleFlight(Apply(e, m, a))
  {
    var m' := Apply(e, m, a);
    if !a.ReceiveToken? && !a.Store? && !a.PutNew? {
      var i := a.i;
      assert forall j :: 0 <= j < |m.callers| && j != i ==> m'.callers[j] == m.callers[j];
      assert !m'.callers[i].Outside? ==> m'.flag;
    }
  }

  lemma InvStep(e: Env, m: Machine, a: Action)
    requires Inv(e, m) && Enabled(e, m, a)
    ensures Inv(e, Apply(e, m, a))
  {
    SingleFlightStep(e, m, a);
    var m' := Apply(e, m, a);
    assert m.history <= m'.history;
    forall j | 0 <= j < |m'.callers|
      ensures SavedKnown(m', m'.callers[j])
    {
      assert SavedKnown(m, m.callers[j]);
    }
  }

  lemma {:induction false} InvRun(e: Env, m: Machine, actions: seq<Action>)
    requires Inv(e, m) && Run(e, m, actions).Some?
    ensures Inv(e, Run(e, m, actions).value)
    decreases |actions|
  {
    if actions != [] {
      InvStep(e, m, actions[0]);
      InvRun(e, Apply(e, m, actions[0]), actions[1..]);
    }
  }

  /** In every interleaving: the claims are the parse of the current token; the client holds the original
      token or one that has been current; the configured copy follows the current one once that has changed;
      and at most one `reconnect` caller is past the flag, which is up exactly while one is. */
  lemma {:induction false} EveryInterleaving(e: Env, m: Machine, actions: seq<Action>)
    requires Begin(e, m) && Run(e, m, actions).Some?
    ensures var r := Run(e, m, actions).value;
            && ClaimsMatch(e, r.copies)
            && (r.copies.client == e.original || r.copies.client in r.history)
            && (r.copies.configured == r.copies.current || r.history == {m.copies.current})
            && SingleFlight(r)
  {
    InvRun(e, m, actions);
    HistoryGrows(e, m, actions);
  }

  lemma {:induction false} HistoryGrows(e: Env, m: Machine, actions: seq<Action>)
    requires Run(e, m, actions).Some?
    ensures m.history <= Run(e, m, actions).value.history
    decreases |actions|
  {
    if actions != [] {
      HistoryGrows(e, Apply(e, m, actions[0]), actions[1..]);
    }
  }

  // Agreement, when the two procedures do not overlap

  ghost predicate Attempting(pc: CallerPc) {
    pc.ReadCurrent? || pc.SetOriginal? || pc.DialOriginal? || pc.Restore? || pc.AdoptOriginal?
  }

  ghost predicate SomeAttempting(m: Machine) {
    exists i :: 0 <= i < |m.callers| && Attempting(m.callers[i])
  }

  /** No fallback attempt is under way between the two writes of a refresh. */
  ghost predicate Apart(m: Machine) {
    m.refresher.UpdatingClient? ==> !SomeAttempting(m)
  }

  /** A run in which the writes of the two procedures do not interleave. They may still overlap: a refresh may
      wait for its reply and persist the new token while a fallback attempt is under way. */
  ghost predicate Separate(e: Env, m: Machine, actions: seq<Action>)
    decreases |actions|
  {
    && Apart(m)
    && (actions != [] ==> Enabled(e, m, actions[0]) && Separate(e, Apply(e, m, actions[0]), actions[1..]))
  }

  ghost predicate AtRest(m: Machine) {
    m.refresher.Idle? && !SomeAttempting(m)
  }

  ghost predicate PcAgrees(e: Env, c: Copies, pc: CallerPc) {
    && (pc.ReadCurrent? ==> c.client == c.current)
    && (pc.SetOriginal? ==> c.client == c.current == pc.saved && e.original != "")
    && (pc.DialOriginal? || pc.Restore? ==> c.current == pc.saved && c.client == e.original != "")
    && (pc.AdoptOriginal? ==> c.client == e.original != "")
  }

  ghost predicate Agreement(e: Env, m: Machine) {
    && SingleFlight(m)
    && (m.refresher.UpdatingClient? ==> m.copies.current == m.refresher.token)
    && (!m.refresher.UpdatingClient? && !SomeAttempting(m) ==> m.copies.client == m.copies.current)
    && (forall i :: 0 <= i < |m.callers| ==> PcAgrees(e, m.copies, m.callers[i]))
  }

  lemma OnlyHolderAttempts(m: Machine, i: nat)
    requires SingleFlight(m) && i < |m.callers|
    requires !m.callers[i].Outside? || !m.flag
    ensures SomeAttempting(m) <==> Attempting(m.callers[i])
  {
    forall j | 0 <= j < |m.callers| && Attempting(m.callers[j])
      ensures j == i
    {
      assert !m.callers[j].Outside?;
    }
  }

  lemma RefresherKeepsAgreement(e: Env, m: Machine, a: Action)
    requires Agreement(e, m) && Enabled(e, m, a) && (a.ReceiveToken? || a.Store? || a.PutNew?)
    requires Apart(m) && Apart(Apply(e, m, a))
    ensures Agreement(e, Apply(e, m, a))
  {
    SingleFlightStep(e, m, a);
    var m' := Apply(e, m, a);
    assert m'.callers == m.callers;
    assert SomeAttempting(m') <==> SomeAttempting(m);
    forall j | 0 <= j < |m.callers|
      ensures PcAgrees(e, m'.copies, m'.callers[j])
    {
      assert PcAgrees(e, m.copies, m.callers[j]);
      assert Attempting(m.callers[j]) ==> SomeAttempting(m);
    }
  }

  lemma CallerKeepsAgreement(e: Env, m: Machine, a: Action)
    requires OriginalUsable(e) && Agreement(e, m) && Enabled(e, m, a)
    requires !a.ReceiveToken? && !a.Store? && !a.PutNew?
    requires Apart(m) && Apart(Apply(e, m, a))
    ensures Agreement(e, Apply(e, m, a))
  {
    var i := a.i;
    var m' := Apply(e, m, a);
    if m' != m {
      SingleFlightStep(e, m, a);
      OnlyHolderAttempts(m, i);
      OnlyHolderAttempts(m', i);
      assert PcAgrees(e, m.copies, m.callers[i]);
      assert PcAgrees(e, m'.copies, m'.callers[i]);
      forall j | 0 <= j < |m.callers| && j != i
        ensures PcAgrees(e, m'.copies, m'.callers[j])
      {
        assert m'.callers[j] == m.callers[j];
        assert m.callers[j].Outside?;
      }
    }
  }

  lemma AgreementStep(e: Env, m: Machine, a: Action)
    requires OriginalUsable(e) && Agreement(e, m) && Enabled(e, m, a)
    requires Apart(m) && Apart(Apply(e, m, a))
    ensures Agreement(e, Apply(e, m, a))
  {
    if a.ReceiveToken? || a.Store? || a.PutNew? {
      assert Apply(e, m, a).callers == m.callers;
      RefresherKeepsAgreement(e, m, a);
    } else {
      CallerKeepsAgreement(e, m, a);
    }
  }

  lemma {:induction false} SeparateRunsAgree(e: Env, m: Machine, actions: seq<Action>)
    requires OriginalUsable(e) && Agreement(e, m) && Separate(e, m, actions)
    ensures Run(e, m, actions).Some? && Agreement(e, Run(e, m, actions).value)
    decreases |actions|
  {
    if actions != [] {
      AgreementStep(e, m, actions[0]);
      SeparateRunsAgree(e, Apply(e, m, actions[0]), actions[1..]);
    }
  }

  ghost predicate RestingCopiesAgree(e: Env, m: Machine, actions: seq<Action>) {
    var r := Run(e, m, actions);
    r.Some? && (AtRest(r.value) ==> r.value.copies.client == r.value.copies.current)
  }

  /** A fallback onto an original token that does not parse leaves the client behind. */
  lemma {:induction false} UnparsableFallback(e: Env, m: Machine) returns (actions: seq<Action>)
    requires Begin(e, m) && |m.callers| >= 1 && !OriginalUsable(e)
    ensures Separate(e, m, actions) && Run(e, m, actions).Some? && !RestingCopiesAgree(e, m, actions)
  {
    actions := [Enter(0), FirstDial(0, false), Compare(0), PutOriginal(0), SecondDial(0, true), TakeOver(0)];
    var m1 := Apply(e, m, Enter(0));
    var m2 := Apply(e, m1, FirstDial(0, false));
    var m3 := Apply(e, m2, Compare(0));
    var m4 := Apply(e, m3, PutOriginal(0));
    var m5 := Apply(e, m4, SecondDial(0, true));
    var m6 := Apply(e, m5, TakeOver(0));
    assert m6.copies.client == e.original != m6.copies.current;
    Follow(e, m5, m6, [TakeOver(0)], []);
    Follow(e, m4, m5, actions[4..], actions[5..]);
    Follow(e, m3, m4, actions[3..], actions[4..]);
    Follow(e, m2, m3, actions[2..], actions[3..]);
    Follow(e, m1, m2, actions[1..], actions[2..]);
    Follow(e, m, m1, actions, actions[1..]);
  }

  lemma {:induction false} Follow(e: Env, m: Machine, m': Machine, actions: seq<Action>, rest: seq<Action>)
    requires actions != [] && rest == actions[1..] && Enabled(e, m, actions[0]) && m' == Apply(e, m, actions[0])
    ensures Run(e, m, actions) == Run(e, m', rest)
    ensures Apart(m) && Separate(e, m', rest) ==> Separate(e, m, actions)
  {
  }

  /** Token agreement: over all runs in which the writes of the procedures do not interleave, the client's token
      equals the current one whenever neither is under way, if and only if the original token is empty or
      parses. */
  lemma TokensAgreeIff(e: Env, m: Machine)
    requires Begin(e, m) && |m.callers| >= 1
    ensures (forall actions :: Separate(e, m, actions) ==> RestingCopiesAgree(e, m, actions)) <==> OriginalUsable(e)
  {
    if OriginalUsable(e) {
      forall actions | Separate(e, m, actions)
        ensures RestingCopiesAgree(e, m, actions)
      {
        SeparateRunsAgree(e, m, actions);
      }
    } else {
      var actions := UnparsableFallback(e, m);
    }
  }

  lemma {:induction false} RunAppend(e: Env, m: Machine, first: seq<Action>, second: seq<Action>)
    requires Run(e, m, first).Some?
    ensures Run(e, m, first + second) == Run(e, Run(e, m, first).value, second)
    decreases |first|
  {
    if first == [] {
      assert first + second == second;
    } else {
      assert (first + second)[1..] == first[1..] + second;
      RunAppend(e, Apply(e, m, first[0]), first[1..], second);
    }
  }

  /** A refresh, from reply to client update, at a time when the goroutine is idle. */
  lemma {:induction false} RefreshAlone(e: Env, m: Machine, newer: Token)
    requires m.refresher.Idle? && e.parse(newer).Some?
    ensures var r := Run(e, m, [ReceiveToken(newer), Store, PutNew]);
            && r.Some?
            && r.value.copies == Adopt(m.copies, newer, e.parse(newer).value).(client := newer)
            && r.value.callers == m.callers && r.value.flag == m.flag && r.value.refresher.Idle?
  {
    var m1 := Apply(e, m, ReceiveToken(newer));
    var m2 := Apply(e, m1, Store);
    var m3 := Apply(e, m2, PutNew);
    Follow(e, m2, m3, [PutNew], []);
    Follow(e, m1, m2, [Store, PutNew], [PutNew]);
    Follow(e, m, m1, [ReceiveToken(newer), Store, PutNew], [Store, PutNew]);
  }

  /** A caller that fails its first dial and then saves a differing current token. */
  lemma {:induction false} SaveCurrent(e: Env, m: Machine)
    requires |m.callers| >= 1 && m.callers[0].Outside? && !m.flag
    requires e.original != "" && e.original != m.copies.current
    ensures var r := Run(e, m, [Enter(0), FirstDial(0, false), Compare(0)]);
            && r.Some? && r.value.copies == m.copies && r.value.refresher == m.refresher
            && r.value.callers == m.callers[0 := SetOriginal(m.copies.current)]
  {
    var m1 := Apply(e, m, Enter(0));
    var m2 := Apply(e, m1, FirstDial(0, false));
    var m3 := Apply(e, m2, Compare(0));
    Follow(e, m2, m3, [Compare(0)], []);
    Follow(e, m1, m2, [FirstDial(0, false), Compare(0)], [Compare(0)]);
    Follow(e, m, m1, [Enter(0), FirstDial(0, false), Compare(0)], [FirstDial(0, false), Compare(0)]);
  }

  /** The rest of a fallback that fails: the saved token goes back into the client. */
  lemma {:induction false} PutSavedBack(e: Env, m: Machine)
    requires |m.callers| >= 1 && m.callers[0].SetOriginal?
    ensures var r := Run(e, m, [PutOriginal(0), SecondDial(0, false), PutBack(0)]);
            && r.Some? && r.value.copies == m.copies.(client := m.callers[0].saved)
            && r.value.callers == m.callers[0 := Waiting] && r.value.refresher == m.refresher
  {
    var m1 := Apply(e, m, PutOriginal(0));
    var m2 := Apply(e, m1, SecondDial(0, false));
    var m3 := Apply(e, m2, PutBack(0));
    Follow(e, m2, m3, [PutBack(0)], []);
    Follow(e, m1, m2, [SecondDial(0, false), PutBack(0)], [PutBack(0)]);
    Follow(e, m, m1, [PutOriginal(0), SecondDial(0, false), PutBack(0)], [SecondDial(0, false), PutBack(0)]);
  }

  /** Where the writes interleave agreement is lost even when the original token parses: a refresh that
      completes while a fallback holds the old token is undone in the client. */
  lemma {:induction false} OverlapLosesNewToken(e: Env, m: Machine, newer: Token) returns (actions: seq<Action>)
    requires |m.callers| >= 1 && m.callers[0].Outside? && !m.flag && m.refresher.Idle? && !SomeAttempting(m)
    requires e.original != "" && e.original != m.copies.current
    requires e.parse(newer).Some? && newer != m.copies.current
    ensures Run(e, m, actions).Some?
    ensures var r := Run(e, m, actions).value;
            AtRest(r) && r.copies.current == newer && r.copies.client == m.copies.current
  {
    var saving := [Enter(0), FirstDial(0, false), Compare(0)];
    var refreshing := [ReceiveToken(newer), Store, PutNew];
    var restoring := [PutOriginal(0), SecondDial(0, false), PutBack(0)];
    SaveCurrent(e, m);
    var m1 := Run(e, m, saving).value;
    RefreshAlone(e, m1, newer);
    var m2 := Run(e, m1, refreshing).value;
    PutSavedBack(e, m2);
    RunAppend(e, m, saving, refreshing);
    RunAppend(e, m, saving + refreshing, restoring);
    actions := saving + refreshing + restoring;
    assert Run(e, m, actions).value.callers == m.callers[0 := Waiting];
  }

  // Agreement over all runs

  /** No fallback can ever be tried: there is no original token, or no other token parses. */
  ghost predicate NoOtherToken(e: Env) {
    e.original == "" || forall t: Token :: e.parse(t).Some? ==> t == e.original
  }

  /** With nothing to fall back on only the refresh writes, and its two writes leave the copies equal. */
  ghost predicate OnlyRefreshes(e: Env, m: Machine) {
    && ClaimsMatch(e, m.copies)
    && (m.refresher.Persisting? ==> e.parse(m.refresher.token) == Some(m.refresher.claims))
    && m.copies.current == (if m.refresher.UpdatingClient? then m.refresher.token else m.copies.client)
    && forall i :: 0 <= i < |m.callers| ==> !Attempting(m.callers[i]) || m.callers[i].ReadCurrent?
  }

  lemma {:induction false} OnlyRefreshesRun(e: Env, m: Machine, actions: seq<Action>)
    requires NoOtherToken(e) && OnlyRefreshes(e, m) && Run(e, m, actions).Some?
    ensures OnlyRefreshes(e, Run(e, m, actions).value)
    decreases |actions|
  {
    if actions != [] {
      var m' := Apply(e, m, actions[0]);
      assert OnlyRefreshes(e, m');
      OnlyRefreshesRun(e, m', actions[1..]);
    }
  }

  /** A run after which the copies disagree at rest, whenever some token could be fallen back from. */
  lemma {:induction false} SomeRunDisagrees(e: Env, m: Machine) returns (actions: seq<Action>)
    requires Begin(e, m) && |m.callers| >= 1 && !NoOtherToken(e)
    ensures Run(e, m, actions).Some? && !RestingCopiesAgree(e, m, actions)
  {
    if !OriginalUsable(e) {
      actions := UnparsableFallback(e, m);
    } else if e.original != m.copies.current {
      actions := OverlapLosesNewToken(e, m, e.original);
    } else {
      var other: Token :| e.parse(other).Some? && other != e.original;
      var refreshing := [ReceiveToken(other), Store, PutNew];
      RefreshAlone(e, m, other);
      var rest := OverlapLosesNewToken(e, Run(e, m, refreshing).value, e.original);
      RunAppend(e, m, refreshing, rest);
      actions := refreshing + rest;
    }
  }

  /** Over all runs, whatever interleaves, the client's token equals the current one whenever neither procedure
      is under way if and only if there is nothing to fall back on: no original token, or no other that parses. */
  lemma {:induction false} OverlapAgreesIff(e: Env, m: Machine)
    requires Begin(e, m) && |m.callers| >= 1
    ensures (forall actions :: Run(e, m, actions).Some? ==> RestingCopiesAgree(e, m, actions)) <==> NoOtherToken(e)
  {
    if NoOtherToken(e) {
      forall actions | Run(e, m, actions).Some?
        ensures RestingCopiesAgree(e, m, actions)
      {
        OnlyRefreshesRun(e, m, actions);
      }
    } else {
      var actions := SomeRunDisagrees(e, m);
    }
  }

  /** A caller alone: a connection and a join that succeed bring it back with the flag down, and so does giving up;
      a join that fails leads to another attempt. */
  lemma {:induction false} CallerComesBack(e: Env, m: Machine, i: nat)
    requires i < |m.callers| && m.callers[i].Outside? && !m.flag
    ensures Run(e, m, [Enter(i), FirstDial(i, true), Join(i, true)]) == Some(m)
    ensures Run(e, m, [Enter(i), FirstDial(i, true), Join(i, false), Retry(i), FirstDial(i, true), Join(i, true)]) ==
              Some(m)
    ensures Run(e, m, [Enter(i), GiveUp(i)]) == Some(m)
  {
    var at := m.(flag := true, callers := m.callers[i := AtAttempt]);
    var joining := m.(flag := true, callers := m.callers[i := Joining]);
    var waiting := m.(flag := true, callers := m.callers[i := Waiting]);
    assert at.callers[i := Joining] == joining.callers && joining.callers[i := Waiting] == waiting.callers;
    assert waiting.callers[i := AtAttempt] == at.callers && m.callers[i := Outside] == m.callers;
    assert at.callers[i := Outside] == m.callers && joining.callers[i := Outside] == m.callers;
    var last := [FirstDial(i, true), Join(i, true)];
    var again := [FirstDial(i, true), Join(i, false), Retry(i)] + last;
    Follow(e, joining, m, [Join(i, true)], []);
    Follow(e, at, joining, last, [Join(i, true)]);
    Follow(e, m, at, [Enter(i)] + last, last);
    assert [Enter(i)] + last == [Enter(i), FirstDial(i, true), Join(i, true)];
    Follow(e, waiting, at, [Retry(i)] + last, last);
    Follow(e, joining, waiting, [Join(i, false), Retry(i)] + last, [Retry(i)] + last);
    Follow(e, at, joining, again, [Join(i, false), Retry(i)] + last);
    Follow(e, m, at, [Enter(i)] + again, again);
    assert [Enter(i)] + again ==
           [Enter(i), FirstDial(i, true), Join(i, false), Retry(i), FirstDial(i, true), Join(i, true)];
    Follow(e, at, m, [GiveUp(i)], []);
    Follow(e, m, at, [Enter(i), GiveUp(i)], [GiveUp(i)]);
  }

  /** A caller's own steps, undisturbed, do to the copies what `AttemptConnection` does. */
  ghost function AttemptActions(e: Env, c: Copies, i: nat, firstDial: bool, secondDial: bool): seq<Action> {
    if firstDial then [FirstDial(i, true)]
    else if e.original == "" || e.original == c.current then [FirstDial(i, false), Compare(i)]
    else [FirstDial(i, false), Compare(i), PutOriginal(i), SecondDial(i, secondDial),
          if secondDial then TakeOver(i) else PutBack(i)]
  }

  lemma {:induction false} AttemptAlone(e: Env, m: Machine, i: nat, firstDial: bool, secondDial: bool)
    requires i < |m.callers| && m.callers[i].AtAttempt?
    ensures var r := Run(e, m, AttemptActions(e, m.copies, i, firstDial, secondDial));
            r.Some? && r.value.copies == AfterAttempt(e, m.copies, firstDial, secondDial)
  {
    var actions := AttemptActions(e, m.copies, i, firstDial, secondDial);
    var m1 := Apply(e, m, FirstDial(i, firstDial));
    Follow(e, m, m1, actions, actions[1..]);
    if !firstDial {
      var m2 := Apply(e, m1, Compare(i));
      Follow(e, m1, m2, actions[1..], actions[2..]);
      if |actions| > 2 {
        var m3 := Apply(e, m2, PutOriginal(i));
        var m4 := Apply(e, m3, SecondDial(i, secondDial));
        var m5 := Apply(e, m4, actions[4]);
        Follow(e, m4, m5, actions[4..], []);
        Follow(e, m3, m4, actions[3..], actions[4..]);
        Follow(e, m2, m3, actions[2..], actions[3..]);
      }
    }
  }
}
