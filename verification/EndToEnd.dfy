/**
  The whole service: the cache protocol in front, the session machine behind it, one clock,
  every step of every request interleaved. Every session goes back to a signed challenge.
 */
module EndToEnd {
  import opened Wrappers
  import opened TtlCache
  import opened Tokens
  import SA = ServiceAuthentication
  import Siwe
  import P = Protocol
  import C = CacheSafety
  import A = Agreement
  import CC = CacheCalls
  import S = Sessions
  import opened SessionSafety
  import opened SessionTheorems
  import H = Handlers

  type CallId = nat

  /** What a call of Authenticate asks for. */
  datatype Caller = Caller(wallet: string, userId: UserId, signature: string)

  datatype State = State(cache: P.State, db: S.State, callers: map<CallId, Caller>, entered: set<CallId>)

  /**
    A step at the cache, a call of Authenticate that begins, one whose middleware has admitted
    it and that begins its fetch, one that has passed its checks and enters the credential step, or a
    step behind the checks.
   */
  datatype Event =
    | Outside(e: P.Event)
    | Call(call: CallId, payload: Option<string>, caller: Caller)
    | Proceed(call: CallId)
    | Enter(call: CallId)
    | Inside(step: S.Event)

  /** Fetches and sign-ins begin in their own events only. */
  predicate WellFormed(e: Event) { (e.Outside? ==> !e.e.StartFetch?) && (e.Inside? ==> !e.step.Begin?) }

  function Elapsed(before: int, later: int): nat { if later >= before then later - before else 0 }

  /** A step at the cache; the database's clock follows. */
  function DoOutside(sys: P.System, cfg: S.Config, s: State, e: P.Event): State {
    var cache := P.Apply(sys, s.cache, e);
    s.(cache := cache, db := S.Apply(cfg, s.db, S.Tick(Elapsed(s.cache.now, cache.now))))
  }

  /** A step behind the checks; the cache's clock follows. */
  function DoInside(sys: P.System, cfg: S.Config, s: State, step: S.Event): State {
    var db := S.Apply(cfg, s.db, step);
    s.(db := db, cache := P.Apply(sys, s.cache, P.Tick(Elapsed(s.db.now, db.now))))
  }

  function Apply(sys: P.System, cfg: S.Config, s: State, e: Event): State {
    match e
    case Outside(e) => DoOutside(sys, cfg, s, e)
    case Call(call, payload, caller) =>
      if call in s.callers || call in s.cache.checks || call in s.cache.fetches then s
      else DoOutside(sys, cfg, s, P.StartCheck(call, payload)).(callers := s.callers[call := caller])
    case Proceed(call) =>
      if call !in s.callers || !P.FromUsers(s.cache, call) then s
      else DoOutside(sys, cfg, s, P.StartFetch(call, s.callers[call].wallet))
    case Enter(call) =>
      if call !in s.callers || call in s.entered
         || !P.Passes(sys, s.cache, call, s.callers[call].wallet, s.callers[call].signature) then s
      else
        DoInside(sys, cfg, s, S.Begin(call, s.callers[call].wallet, s.callers[call].userId))
          .(entered := s.entered + {call})
    case Inside(step) => DoInside(sys, cfg, s, step)
  }

  function Run(sys: P.System, cfg: S.Config, s: State, events: seq<Event>): State
    decreases |events|
  {
    if events == [] then s else Run(sys, cfg, Apply(sys, cfg, s, events[0]), events[1..])
  }

  predicate AllWellFormed(events: seq<Event>) { forall i | 0 <= i < |events| :: WellFormed(events[i]) }

  predicate Initial(s: State) {
    P.Initial(s.cache) && S.Initial(s.db) && s.cache.now == s.db.now && s.callers == map[] && s.entered == {}
  }

  lemma {:induction false} RunConcat(sys: P.System, cfg: S.Config, s: State, a: seq<Event>, b: seq<Event>)
    ensures Run(sys, cfg, s, a + b) == Run(sys, cfg, Run(sys, cfg, s, a), b)
    decreases |a|
  {
    hide Apply;
    if a == [] {
      assert a + b == b;
    } else {
      assert (a + b)[0] == a[0] && (a + b)[1..] == a[1..] + b;
      RunConcat(sys, cfg, Apply(sys, cfg, s, a[0]), a[1..], b);
    }
  }

  /* ---------- What the front of a run is to the cache ---------- */

  /** The step that an event is for the cache, if it is one. */
  function Front(sys: P.System, cfg: S.Config, s: State, e: Event): seq<P.Event> {
    match e
    case Outside(e) => [e]
    case Call(call, payload, _) =>
      if call in s.callers || call in s.cache.checks || call in s.cache.fetches then []
      else [P.StartCheck(call, payload)]
    case Proceed(call) =>
      if call !in s.callers || !P.FromUsers(s.cache, call) then [] else [P.StartFetch(call, s.callers[call].wallet)]
    case Enter(call) =>
      if call !in s.callers || call in s.entered
         || !P.Passes(sys, s.cache, call, s.callers[call].wallet, s.callers[call].signature) then []
      else [P.Tick(0)]
    case Inside(step) => [P.Tick(Elapsed(s.db.now, S.Apply(cfg, s.db, step).now))]
  }

  function Fronts(sys: P.System, cfg: S.Config, s: State, events: seq<Event>): seq<P.Event>
    decreases |events|
  {
    if events == [] then []
    else Front(sys, cfg, s, events[0]) + Fronts(sys, cfg, Apply(sys, cfg, s, events[0]), events[1..])
  }

  lemma FrontStep(sys: P.System, cfg: S.Config, s: State, e: Event)
    requires s.cache.now == s.db.now
    ensures var s' := Apply(sys, cfg, s, e);
            && s'.cache == P.Run(sys, s.cache, Front(sys, cfg, s, e)) && s'.cache.now == s'.db.now
  {
    hide P.Apply, P.Passes, P.FromUsers;
    if Front(sys, cfg, s, e) != [] {
      var f := Front(sys, cfg, s, e)[0];
      assert Front(sys, cfg, s, e) == [f];
      P.RunOne(sys, s.cache, f);
      C.Frame(sys, s.cache, f);
      if e.Inside? {
        StepGrows(cfg, s.db, e.step);
      }
    }
  }

  /** What a run does to the cache is a run of the cache protocol, on the same clock. */
  lemma {:induction false} FrontIsProtocolRun(sys: P.System, cfg: S.Config, s: State, events: seq<Event>)
    requires s.cache.now == s.db.now
    ensures var s' := Run(sys, cfg, s, events);
            && s'.cache == P.Run(sys, s.cache, Fronts(sys, cfg, s, events)) && s'.cache.now == s'.db.now
    decreases |events|
  {
    hide Apply, Front;
    if events != [] {
      var s1 := Apply(sys, cfg, s, events[0]);
      FrontStep(sys, cfg, s, events[0]);
      FrontIsProtocolRun(sys, cfg, s1, events[1..]);
      P.RunConcat(sys, s.cache, Front(sys, cfg, s, events[0]), Fronts(sys, cfg, s1, events[1..]));
    }
  }

  /* ---------- Running calls and the sessions they open ---------- */

  predicate Authenticating(stage: S.Stage) {
    stage.Entered? || stage.Unknown? || stage.Bound? || stage.OneToken? || stage.TwoTokens? || stage.Recorded?
  }

  function WalletOf(stage: S.Stage): string
    requires Authenticating(stage)
  {
    if stage.Entered? || stage.Unknown? then stage.wallet else stage.credential.wallet
  }

  function UserOf(stage: S.Stage): UserId
    requires Authenticating(stage)
  {
    if stage.Entered? || stage.Unknown? then stage.userId else stage.credential.userId
  }

  /** A step keeps the wallet and user of every running call, and ends a call that it opens a session for. */
  lemma CallsKeepTheirCaller(cfg: S.Config, s: S.State, step: S.Event)
    requires !step.Begin?
    ensures var s' := S.Apply(cfg, s, step);
            forall k | k in s'.calls && Authenticating(s'.calls[k]) ::
              && k in s.calls && Authenticating(s.calls[k])
              && WalletOf(s'.calls[k]) == WalletOf(s.calls[k]) && UserOf(s'.calls[k]) == UserOf(s.calls[k])
  {
  }

  lemma OpeningsEndCalls(cfg: S.Config, s: S.State, step: S.Event)
    requires Sound(cfg, s)
    ensures var s' := S.Apply(cfg, s, step);
            && s.openings <= s'.openings
            && (forall o | o in s'.openings && o !in s.openings ::
                  && o.call in s.calls && Authenticating(s.calls[o.call]) && o.call !in s'.calls
                  && WalletOf(s.calls[o.call]) == o.refresh.wallet && UserOf(s.calls[o.call]) == o.refresh.userId)
            && (forall o, p | o in s'.openings && p in s'.openings && o !in s.openings && p !in s.openings :: o == p)
  {
    if step.Finish? && step.call in s.calls {
      assert StageOk(cfg, s, s.calls[step.call]);
    }
  }

  /** The call has entered the credential step, for this wallet and user, after passing its checks. */
  predicate Backed(sys: P.System, s: State, call: CallId, wallet: string, userId: UserId) {
    && call in s.entered && call in s.callers
    && s.callers[call].wallet == wallet && s.callers[call].userId == userId
    && P.Passes(sys, s.cache, call, wallet, s.callers[call].signature)
  }

  predicate CallsBacked(sys: P.System, s: State) {
    forall k | k in s.db.calls && Authenticating(s.db.calls[k]) ::
      && Backed(sys, s, k, WalletOf(s.db.calls[k]), UserOf(s.db.calls[k]))
      && forall o | o in s.db.openings :: o.call != k
  }

  predicate OpeningsBacked(sys: P.System, s: State) {
    && (forall o | o in s.db.openings :: Backed(sys, s, o.call, o.refresh.wallet, o.refresh.userId))
    && (forall o, p | o in s.db.openings && p in s.db.openings && o.call == p.call :: o == p)
  }

  /** Results at the cache stay, so what backs a call backs it for good. */
  lemma PassesForGood(sys: P.System, s: P.State, s': P.State, call: CallId, wallet: string, signature: string)
    requires C.Grows(s, s') && P.Passes(sys, s, call, wallet, signature)
    ensures P.Passes(sys, s', call, wallet, signature)
  {
  }

  /** The front of an event, for callers and entered calls: they are only added to. */
  lemma FrontGrows(sys: P.System, cfg: S.Config, s: State, e: Event)
    requires s.cache.now == s.db.now
    ensures var s' := Apply(sys, cfg, s, e);
            && C.Grows(s.cache, s'.cache) && s.entered <= s'.entered
            && forall k | k in s.callers :: k in s'.callers && s'.callers[k] == s.callers[k]
  {
    hide P.Apply, P.Passes, P.FromUsers, C.Grows;
    FrontStep(sys, cfg, s, e);
    C.RunGrows(sys, s.cache, Front(sys, cfg, s, e));
  }

  lemma BackedForGood(sys: P.System, cfg: S.Config, s: State, e: Event, call: CallId, wallet: string, userId: UserId)
    requires s.cache.now == s.db.now && Backed(sys, s, call, wallet, userId)
    ensures Backed(sys, Apply(sys, cfg, s, e), call, wallet, userId)
  {
    hide Apply, P.Passes, C.Grows;
    FrontGrows(sys, cfg, s, e);
    PassesForGood(sys, s.cache, Apply(sys, cfg, s, e).cache, call, wallet, s.callers[call].signature);
  }

  /** How the database moves: by one step, or not at all. */
  function Behind(sys: P.System, cfg: S.Config, s: State, e: Event): S.Event {
    match e
    case Inside(step) => step
    case Enter(call) =>
      if call !in s.callers || call in s.entered
         || !P.Passes(sys, s.cache, call, s.callers[call].wallet, s.callers[call].signature) then S.Tick(0)
      else S.Begin(call, s.callers[call].wallet, s.callers[call].userId)
    case _ => S.Tick(Elapsed(s.cache.now, Apply(sys, cfg, s, e).cache.now))
  }

  lemma BehindStep(sys: P.System, cfg: S.Config, s: State, e: Event)
    ensures Apply(sys, cfg, s, e).db == S.Apply(cfg, s.db, Behind(sys, cfg, s, e))
  {
    hide P.Apply, P.Passes, P.FromUsers;
  }

  lemma StepBacked(sys: P.System, cfg: S.Config, s: State, e: Event)
    requires WellFormed(e) && s.cache.now == s.db.now && Sound(cfg, s.db)
    requires CallsBacked(sys, s) && OpeningsBacked(sys, s) && !Behind(sys, cfg, s, e).Begin?
    ensures CallsBacked(sys, Apply(sys, cfg, s, e)) && OpeningsBacked(sys, Apply(sys, cfg, s, e))
  {
    hide Apply, S.Apply, Sound, Backed, Behind;
    var s', step := Apply(sys, cfg, s, e), Behind(sys, cfg, s, e);
    BehindStep(sys, cfg, s, e);
    CallsKeepTheirCaller(cfg, s.db, step);
    OpeningsEndCalls(cfg, s.db, step);
    forall k | k in s'.db.calls && Authenticating(s'.db.calls[k])
      ensures Backed(sys, s', k, WalletOf(s'.db.calls[k]), UserOf(s'.db.calls[k]))
      ensures forall o | o in s'.db.openings :: o.call != k
    {
      BackedForGood(sys, cfg, s, e, k, WalletOf(s.db.calls[k]), UserOf(s.db.calls[k]));
    }
    forall o | o in s'.db.openings ensures Backed(sys, s', o.call, o.refresh.wallet, o.refresh.userId) {
      BackedForGood(sys, cfg, s, e, o.call, o.refresh.wallet, o.refresh.userId);
    }
  }

  lemma EnterBacked(sys: P.System, cfg: S.Config, s: State, e: Event)
    requires WellFormed(e) && s.cache.now == s.db.now
    requires CallsBacked(sys, s) && OpeningsBacked(sys, s) && Behind(sys, cfg, s, e).Begin?
    ensures CallsBacked(sys, Apply(sys, cfg, s, e)) && OpeningsBacked(sys, Apply(sys, cfg, s, e))
  {
    hide P.Apply, P.Passes, Backed;
    var s' := Apply(sys, cfg, s, e);
    assert e.Enter? && e.call !in s.entered;
    forall k | k in s'.db.calls && Authenticating(s'.db.calls[k])
      ensures Backed(sys, s', k, WalletOf(s'.db.calls[k]), UserOf(s'.db.calls[k]))
      ensures forall o | o in s'.db.openings :: o.call != k
    {
      if k in s.db.calls {
        BackedForGood(sys, cfg, s, e, k, WalletOf(s.db.calls[k]), UserOf(s.db.calls[k]));
      } else {
        EnteredIsBacked(sys, cfg, s, e);
        NotOpened(sys, s, e.call);
      }
    }
    forall o | o in s'.db.openings ensures Backed(sys, s', o.call, o.refresh.wallet, o.refresh.userId) {
      BackedForGood(sys, cfg, s, e, o.call, o.refresh.wallet, o.refresh.userId);
    }
  }

  lemma NotOpened(sys: P.System, s: State, call: CallId)
    requires OpeningsBacked(sys, s) && call !in s.entered
    ensures forall o | o in s.db.openings :: o.call != call
  {
  }

  lemma EnteredIsBacked(sys: P.System, cfg: S.Config, s: State, e: Event)
    requires s.cache.now == s.db.now && e.Enter? && Behind(sys, cfg, s, e).Begin?
    ensures Backed(sys, Apply(sys, cfg, s, e), e.call, s.callers[e.call].wallet, s.callers[e.call].userId)
  {
    hide P.Apply, P.Passes, C.Grows;
    FrontGrows(sys, cfg, s, e);
    var caller := s.callers[e.call];
    PassesForGood(sys, s.cache, Apply(sys, cfg, s, e).cache, e.call, caller.wallet, caller.signature);
  }

  /** Every refresh token in a client's hands was handed out by some call. */
  predicate Handed(db: S.State) {
    forall p | p in db.released && p.tokenType == Refresh :: exists o | o in db.openings :: o.refresh == p
  }

  lemma ReleasedByFinish(cfg: S.Config, s: S.State, step: S.Event, p: Payload)
    requires Sound(cfg, s) && p in S.Apply(cfg, s, step).released && p !in s.released && p.tokenType == Refresh
    ensures step.Finish? && S.Opening(step.call, p) in S.Apply(cfg, s, step).openings
  {
    assert step.Finish? || step.MintRenewed?;
    if step.Finish? {
      assert StageOk(cfg, s, s.calls[step.call]);
    }
  }

  lemma HandedStep(cfg: S.Config, s: S.State, step: S.Event)
    requires Sound(cfg, s) && Handed(s)
    ensures Handed(S.Apply(cfg, s, step))
  {
    var s' := S.Apply(cfg, s, step);
    OpeningsEndCalls(cfg, s, step);
    forall p | p in s'.released && p.tokenType == Refresh ensures exists o | o in s'.openings :: o.refresh == p {
      if p in s.released {
        var o :| o in s.openings && o.refresh == p;
        assert o in s'.openings;
      } else {
        ReleasedByFinish(cfg, s, step, p);
        assert S.Opening(step.call, p) in s'.openings;
      }
    }
  }

  /** The session an access token descends from was opened by some call, for the token's user and role. */
  predicate Opened(db: S.State, d: S.Descent) {
    exists o | o in db.openings ::
      o.refresh.id == d.session && o.refresh.userId == d.access.userId && o.refresh.role == d.access.role
  }

  predicate AllOpened(db: S.State) { forall d | d in db.descents :: Opened(db, d) }

  lemma NewDescentOpened(cfg: S.Config, s: S.State, step: S.Event, d: S.Descent)
    requires Sound(cfg, s) && Handed(s) && d in S.Apply(cfg, s, step).descents && d !in s.descents
    ensures Opened(S.Apply(cfg, s, step), d)
  {
    var s', stage := S.Apply(cfg, s, step), s.calls[step.call];
    assert step.Finish? || step.MintRenewed?;
    assert StageOk(cfg, s, stage);
    if step.Finish? {
      assert S.Opening(step.call, stage.refresh) in s'.openings;
    } else {
      var o :| o in s.openings && o.refresh == stage.payload;
      assert o in s'.openings;
    }
  }

  lemma AllOpenedStep(cfg: S.Config, s: S.State, step: S.Event)
    requires Sound(cfg, s) && Handed(s) && AllOpened(s)
    ensures AllOpened(S.Apply(cfg, s, step))
  {
    var s' := S.Apply(cfg, s, step);
    OpeningsEndCalls(cfg, s, step);
    forall d | d in s'.descents ensures Opened(s', d) {
      if d in s.descents {
        assert Opened(s, d);
      } else {
        NewDescentOpened(cfg, s, step, d);
      }
    }
  }

  /* ---------- Every reachable state ---------- */

  ghost predicate Accounted(sys: P.System, cfg: S.Config, s: State, founders: set<S.Credential>) {
    && s.cache.now == s.db.now && C.Sound(sys, s.cache) && Safe(cfg, s.db, founders) && Handed(s.db) && AllOpened(s.db)
    && CallsBacked(sys, s) && OpeningsBacked(sys, s)
  }

  lemma StepAccounted(sys: P.System, cfg: S.Config, s: State, e: Event, founders: set<S.Credential>)
    requires WellFormed(e) && Accounted(sys, cfg, s, founders)
    ensures Accounted(sys, cfg, Apply(sys, cfg, s, e), founders)
  {
    hide Apply, S.Apply, C.Sound, Handed, AllOpened, CallsBacked, OpeningsBacked, Behind, Front, Sound;
    FrontStep(sys, cfg, s, e);
    C.RunSound(sys, s.cache, Front(sys, cfg, s, e));
    BehindStep(sys, cfg, s, e);
    var step := Behind(sys, cfg, s, e);
    SafeStep(cfg, s.db, step, founders);
    HandedStep(cfg, s.db, step);
    AllOpenedStep(cfg, s.db, step);
    if step.Begin? {
      EnterBacked(sys, cfg, s, e);
    } else {
      StepBacked(sys, cfg, s, e);
    }
  }

  lemma SafeStep(cfg: S.Config, s: S.State, step: S.Event, founders: set<S.Credential>)
    requires Safe(cfg, s, founders)
    ensures Safe(cfg, S.Apply(cfg, s, step), founders) && Sound(cfg, s)
  {
    assert S.Run(cfg, s, [step]) == S.Apply(cfg, s, step) by { assert [step][1..] == []; }
    RunSafe(cfg, s, [step], founders);
  }

  lemma {:induction false} RunAccounted(sys: P.System, cfg: S.Config, s: State, events: seq<Event>,
                                        founders: set<S.Credential>)
    requires AllWellFormed(events) && Accounted(sys, cfg, s, founders)
    ensures Accounted(sys, cfg, Run(sys, cfg, s, events), founders)
    decreases |events|
  {
    hide Apply, Accounted, WellFormed;
    if events != [] {
      assert WellFormed(events[0]);
      StepAccounted(sys, cfg, s, events[0], founders);
      RunAccounted(sys, cfg, Apply(sys, cfg, s, events[0]), events[1..], founders);
    }
  }

  lemma InitialAccounted(sys: P.System, cfg: S.Config, s: State)
    requires Initial(s)
    ensures Accounted(sys, cfg, s, s.db.credentials)
  {
    C.InitialSound(sys, s.cache);
    assert Safe(cfg, s.db, s.db.credentials);
  }

  /** The session's call passed its checks, and agrees with the request whose challenge it fetched. */
  predicate SignedFor(sys: P.System, s: State, o: S.Opening) {
    && Backed(sys, s, o.call, o.refresh.wallet, o.refresh.userId)
    && A.Agrees(sys, s.cache, o.call, o.refresh.wallet, s.callers[o.call].signature, s.cache.fetches[o.call].origin)
  }

  /** Sessions of different calls, which share a challenge or a payload only as far as those calls do. */
  predicate OwnGrounds(sys: P.System, s: State, o: S.Opening, p: S.Opening)
    requires SignedFor(sys, s, o) && SignedFor(sys, s, p)
  {
    o.call != p.call && A.Apart(s.cache, o.call, p.call)
  }

  /**
    Every session was signed for. In every interleaving of every step of all requests, with
    every fault: a refresh token in a client's hands was handed out by a call of Authenticate for
    the token's wallet and user, made by the service "users", whose signature recovers that
    wallet over a challenge asked for earlier. No call backs two sessions; two sessions go back to
    one challenge only if their fetches overlap, and to one payload text only if the second
    call does not read the cache after the first has written it, or outlasts its entry.
   */
  lemma EverySessionWasSignedFor(sys: P.System, cfg: S.Config, s0: State, events: seq<Event>)
    requires AllWellFormed(events) && Initial(s0)
    ensures var s := Run(sys, cfg, s0, events);
            && (forall p | p in s.db.released && p.tokenType == Refresh ::
                  exists o | o in s.db.openings :: o.refresh == p)
            && (forall o | o in s.db.openings :: SignedFor(sys, s, o))
            && (forall o, p | o in s.db.openings && p in s.db.openings && o != p :: OwnGrounds(sys, s, o, p))
  {
    hide Apply, Sound, C.Sound, A.Agrees, P.Passes, A.Apart, Initial;
    InitialAccounted(sys, cfg, s0);
    RunAccounted(sys, cfg, s0, events, s0.db.credentials);
    var s := Run(sys, cfg, s0, events);
    forall o | o in s.db.openings ensures SignedFor(sys, s, o) {
      BackedIsSignedFor(sys, s, o);
    }
    forall o, p | o in s.db.openings && p in s.db.openings && o != p ensures OwnGrounds(sys, s, o, p) {
      BackedHaveReturned(sys, s, o);
      BackedHaveReturned(sys, s, p);
      A.PassesApart(sys, s.cache, o.call, p.call);
    }
  }

  /** The session a token belongs to, or descends from, was signed for. */
  predicate TokenSignedFor(sys: P.System, s: State, p: Payload, o: S.Opening) {
    && o in s.db.openings && SignedFor(sys, s, o) && o.refresh.userId == p.userId && o.refresh.role == p.role
    && (if p.tokenType == Refresh then o.refresh == p else S.Descent(p, o.refresh.id) in s.db.descents)
  }

  /**
    Every token was signed for. Each token in a client's hands, after any number of refreshes,
    and so each access token that VerifyAccessToken accepts for a user, belongs to a session of
    the same user and role whose call passed its checks with a signature over a challenge asked
    for earlier, recovering the wallet of that session.
   */
  lemma EveryTokenWasSignedFor(sys: P.System, cfg: S.Config, s0: State, events: seq<Event>)
    requires AllWellFormed(events) && Initial(s0)
    ensures var s := Run(sys, cfg, s0, events);
            && (forall p | p in s.db.released :: exists o :: TokenSignedFor(sys, s, p, o))
            && (forall token, userId | VerifyAccepts(s.db, token, userId) ::
                  && token.Sealed? && token.payload.userId == userId && s.cache.now <= token.payload.expiresAt
                  && exists o :: TokenSignedFor(sys, s, token.payload, o))
  {
    hide Apply, C.Sound, SignedFor, Initial, CallsBacked, OpeningsBacked, Sound, OwnGrounds;
    InitialAccounted(sys, cfg, s0);
    RunAccounted(sys, cfg, s0, events, s0.db.credentials);
    EverySessionWasSignedFor(sys, cfg, s0, events);
    var s := Run(sys, cfg, s0, events);
    forall p | p in s.db.released ensures exists o :: TokenSignedFor(sys, s, p, o) {
      if p.tokenType == Refresh {
        var o :| o in s.db.openings && o.refresh == p;
        assert TokenSignedFor(sys, s, p, o);
      } else {
        var d :| d in s.db.descents && d.access == p;
        assert Opened(s.db, d);
        var o :| o in s.db.openings && o.refresh.id == d.session && o.refresh.userId == d.access.userId
                 && o.refresh.role == d.access.role;
        assert S.Descent(p, o.refresh.id) == d;
        assert TokenSignedFor(sys, s, p, o);
      }
    }
  }

  lemma BackedIsSignedFor(sys: P.System, s: State, o: S.Opening)
    requires C.Sound(sys, s.cache) && Backed(sys, s, o.call, o.refresh.wallet, o.refresh.userId)
    ensures SignedFor(sys, s, o)
  {
    hide C.Sound, A.Agrees;
    A.PassAgrees(sys, s.cache, o.call, o.refresh.wallet, s.callers[o.call].signature);
  }

  lemma BackedHaveReturned(sys: P.System, s: State, o: S.Opening)
    requires Backed(sys, s, o.call, o.refresh.wallet, o.refresh.userId)
    ensures A.Accepted(s.cache, o.call) && o.call in s.cache.fetches && s.cache.fetches[o.call].Returned?
  {
  }

  /* ---------- Who touches challenges ---------- */

  /** Every fetch of a challenge belongs to a call that was admitted as "users". */
  predicate OnlyUsersFetch(s: State) { forall c | c in s.cache.fetches :: P.FromUsers(s.cache, c) }

  lemma NoNewFetch(sys: P.System, s: P.State, e: P.Event, c: CallId)
    requires !e.StartFetch? && c in P.Apply(sys, s, e).fetches
    ensures c in s.fetches
  {
    hide SiweKey, ServiceKey, SA.Inspect, Siwe.Compose;
  }

  lemma OnlyStartedFetch(sys: P.System, s: P.State, e: P.Event, c: CallId)
    requires e.StartFetch? && c in P.Apply(sys, s, e).fetches
    ensures c in s.fetches || c == e.call
  {
  }

  lemma StaysFromUsers(s: P.State, s': P.State, c: CallId)
    requires C.Grows(s, s') && P.FromUsers(s, c)
    ensures P.FromUsers(s', c)
  {
  }

  lemma OnlyUsersFetchStep(sys: P.System, cfg: S.Config, s: State, e: Event)
    requires WellFormed(e) && s.cache.now == s.db.now && OnlyUsersFetch(s)
    ensures OnlyUsersFetch(Apply(sys, cfg, s, e))
  {
    hide P.Apply, P.Run, S.Apply, P.FromUsers, P.Passes, C.Grows;
    var s', front := Apply(sys, cfg, s, e), Front(sys, cfg, s, e);
    FrontStep(sys, cfg, s, e);
    FrontGrows(sys, cfg, s, e);
    assert front == [] || front == [front[0]];
    if front == [] {
      NothingRuns(sys, s.cache);
    } else {
      P.RunOne(sys, s.cache, front[0]);
    }
    forall c | c in s'.cache.fetches ensures P.FromUsers(s'.cache, c) {
      if front != [] {
        if front[0].StartFetch? {
          OnlyStartedFetch(sys, s.cache, front[0], c);
        } else {
          NoNewFetch(sys, s.cache, front[0], c);
        }
      }
      StaysFromUsers(s.cache, s'.cache, c);
    }
  }

  lemma NothingRuns(sys: P.System, s: P.State)
    ensures P.Run(sys, s, []) == s
  {
  }

  lemma {:induction false} OnlyUsersFetchRun(sys: P.System, cfg: S.Config, s: State, events: seq<Event>)
    requires AllWellFormed(events) && s.cache.now == s.db.now && OnlyUsersFetch(s)
    ensures OnlyUsersFetch(Run(sys, cfg, s, events))
    decreases |events|
  {
    hide Apply, OnlyUsersFetch, WellFormed;
    if events != [] {
      assert WellFormed(events[0]);
      OnlyUsersFetchStep(sys, cfg, s, events[0]);
      FrontStep(sys, cfg, s, events[0]);
      OnlyUsersFetchRun(sys, cfg, Apply(sys, cfg, s, events[0]), events[1..]);
    }
  }

  /** In every run no challenge is read or deleted but by a call that was admitted as "users" before. */
  lemma OnlyUsersTouchChallenges(sys: P.System, cfg: S.Config, s0: State, events: seq<Event>)
    requires AllWellFormed(events) && Initial(s0)
    ensures OnlyUsersFetch(Run(sys, cfg, s0, events))
  {
    OnlyUsersFetchRun(sys, cfg, s0, events);
  }

  /* ---------- The handler ---------- */

  datatype Reply = Refused(why: CC.Answer) | Replied(answer: Result<(S.Credential, Payload, Payload), H.AuthError>)

  /**
    rpc_authenticate.go, Authenticate, in one go. A call that fails a check leaves database and
    clients as they are, but for the time it took; a verified call runs the credential and
    session step for the request's own wallet and user; and the cache is that after the call's steps.
   */
  method Authenticate(sys: P.System, cache: Cache, handler: H.Handler, payload: Option<string>, weather: SA.Weather,
                      caller: Caller, fetch: Siwe.FetchWeather, ch: H.Choices)
    returns (reply: Reply)
    requires handler.store.uncommitted.None?
    modifies cache, handler`released, handler`now, handler`descents, handler`openings, handler.store
    ensures handler.store.uncommitted.None?
    ensures var start := CC.Quiet(old(cache.entries), old(handler.now));
            var after := P.Run(sys, start, CC.AuthenticateSteps(sys, start, payload, weather, caller.wallet, fetch));
            && cache.entries == after.entries
            && (reply.Refused? <==> !P.Passes(sys, after, CC.ME, caller.wallet, caller.signature))
            && (reply.Replied? <==> exists p ::
                  CC.Authentic(sys, old(cache.entries), old(handler.now), payload, weather, caller.wallet,
                               caller.signature, fetch, p))
            && (reply.Refused? ==> handler.View() == old(handler.View()).(now := after.now))
            && (reply.Replied? ==> exists found ::
                  handler.View() == S.Run(handler.cfg, old(handler.View()).(now := after.now),
                                          H.AuthenticateEvents(caller.wallet, caller.userId, found, ch)))
    ensures reply.Replied? && reply.answer.Ok? ==>
      && reply.answer.value.0 in handler.store.credentials
      && reply.answer.value.0.userId == caller.userId && reply.answer.value.0.wallet == caller.wallet
      && handler.released == old(handler.released) + {reply.answer.value.1, reply.answer.value.2}
      && (var start := CC.Quiet(old(cache.entries), old(handler.now));
          var after := P.Run(sys, start, CC.AuthenticateSteps(sys, start, payload, weather, caller.wallet, fetch));
          H.GoodSession(handler.cfg, reply.answer.value.0, after.now, handler.now, ch, old(handler.store.sessions),
                        handler.store.sessions, reply.answer.value.1, reply.answer.value.2))
      && H.Usable(handler.View(), caller.userId, reply.answer.value.1, reply.answer.value.2)
  {
    var answer, later := CC.CheckAuthenticate(sys, cache, handler.now, payload, weather, caller.wallet,
                                              caller.signature, fetch);
    handler.now := later;
    ghost var checked := handler.View();
    if !answer.Verified? {
      return Refused(answer);
    }
    var result, found := handler.HandleCredentialAndSession(caller.wallet, caller.userId, ch);
    assert handler.View() == S.Run(handler.cfg, checked, H.AuthenticateEvents(caller.wallet, caller.userId, found, ch));
    return Replied(result);
  }
}
