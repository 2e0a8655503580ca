/**
  One key, two users: the whole way from the request for a challenge to the committed
  credential, walked twice with two spellings of the key's address.
 */
module TwoUsers {
  import opened Wrappers
  import opened Text
  import opened Encoding
  import opened TtlCache
  import opened Tokens
  import SA = ServiceAuthentication
  import Siwe
  import EW = EthereumWallet
  import P = Protocol
  import C = CacheSafety
  import CC = CacheCalls
  import HS = HonestSignIn
  import S = Sessions
  import SU = SignUp
  import Ad = Addresses
  import opened EndToEnd

  /* ---------- Runs in which no time passes ---------- */

  predicate Timeless(events: seq<P.Event>) { forall i | 0 <= i < |events| :: events[i].Tick? ==> events[i].nanos == 0 }

  function Lift(events: seq<P.Event>): seq<Event> { seq(|events|, i requires 0 <= i < |events| => Outside(events[i])) }

  function LiftIn(steps: seq<S.Event>): seq<Event> { seq(|steps|, i requires 0 <= i < |steps| => Inside(steps[i])) }

  predicate OneClock(s: State) { s.cache.now == s.db.now }

  lemma OutsideStep(sys: P.System, cfg: S.Config, s: State, e: P.Event)
    requires OneClock(s) && (e.Tick? ==> e.nanos == 0)
    ensures DoOutside(sys, cfg, s, e) == s.(cache := P.Apply(sys, s.cache, e))
    ensures OneClock(DoOutside(sys, cfg, s, e))
  {
    hide P.Apply;
    C.Frame(sys, s.cache, e);
  }

  lemma {:induction false} LiftedRun(sys: P.System, cfg: S.Config, s: State, events: seq<P.Event>)
    requires OneClock(s) && Timeless(events)
    ensures var s' := Run(sys, cfg, s, Lift(events));
            s' == s.(cache := P.Run(sys, s.cache, events)) && OneClock(s')
    decreases |events|
  {
    hide P.Apply;
    if events != [] {
      var s1 := Apply(sys, cfg, s, Outside(events[0]));
      assert Lift(events)[0] == Outside(events[0]) && Lift(events)[1..] == Lift(events[1..]);
      OutsideStep(sys, cfg, s, events[0]);
      LiftedRun(sys, cfg, s1, events[1..]);
    }
  }

  /** Steps of the database in which no time passes, as seen with the cache. */
  lemma InsideStep(sys: P.System, cfg: S.Config, s: State, step: S.Event)
    requires OneClock(s) && S.Apply(cfg, s.db, step).now == s.db.now
    ensures var s' := DoInside(sys, cfg, s, step);
            && s'.db == S.Apply(cfg, s.db, step) && OneClock(s') && s'.callers == s.callers && s'.entered == s.entered
            && s'.cache == s.cache.(step := s.cache.step + 1)
  {
    hide S.Apply;
  }

  predicate Still(cfg: S.Config, s: S.State, steps: seq<S.Event>)
    decreases |steps|
  {
    steps == [] || (S.Apply(cfg, s, steps[0]).now == s.now && Still(cfg, S.Apply(cfg, s, steps[0]), steps[1..]))
  }

  lemma {:induction false} LiftedSteps(sys: P.System, cfg: S.Config, s: State, steps: seq<S.Event>)
    requires OneClock(s) && Still(cfg, s.db, steps)
    ensures var s' := Run(sys, cfg, s, LiftIn(steps));
            && s'.db == S.Run(cfg, s.db, steps) && OneClock(s') && s'.callers == s.callers && s'.entered == s.entered
            && s'.cache == s.cache.(step := s.cache.step + |steps|)
    decreases |steps|
  {
    hide S.Apply;
    if steps != [] {
      var s1 := Apply(sys, cfg, s, Inside(steps[0]));
      assert LiftIn(steps)[0] == Inside(steps[0]) && LiftIn(steps)[1..] == LiftIn(steps[1..]);
      InsideStep(sys, cfg, s, steps[0]);
      LiftedSteps(sys, cfg, s1, steps[1..]);
    }
  }

  /* ---------- One sign-in, the whole way ---------- */

  /** What a client brings: a request, a service payload made for it, and a signature. */
  datatype Client = Client(request: Siwe.Request, envoy: HS.Envoy, caller: Caller)

  const NOW := HS.Pace(0, 0, 0)

  function Asking(a: CallId, x: Client): seq<P.Event> { HS.AskPart(a, x.request, 0, 0) }

  function Checking(sys: P.System, c: CallId, x: Client): (e: seq<P.Event>)
    ensures |e| == 5
  {
    HS.CheckPart(sys, c, x.envoy, NOW)
  }

  function Fetching(c: CallId, x: Client): (e: seq<P.Event>)
    ensures |e| == 4
  {
    HS.FetchPart(c, x.caller.wallet, NOW)
  }

  /** From the request to the return of the signed challenge. */
  function FrontPart(sys: P.System, a: CallId, c: CallId, x: Client): seq<Event> {
    Lift(Asking(a, x)) + [Call(c, HS.EnvoyPayload(sys, x.envoy), x.caller)] + Lift(Checking(sys, c, x)[1..])
    + [Proceed(c)] + Lift(Fetching(c, x)[1..])
  }

  function Steps(c: CallId, x: Client, access: TokenId, refresh: TokenId): (e: seq<S.Event>)
    ensures |e| == 7
  {
    SU.Script(c, x.caller.wallet, x.caller.userId, None, access, refresh)
  }

  function WholeSignIn(sys: P.System, a: CallId, c: CallId, x: Client, access: TokenId, refresh: TokenId): seq<Event> {
    FrontPart(sys, a, c, x) + [Enter(c)] + LiftIn(Steps(c, x, access, refresh)[1..])
  }

  predicate Unused(s: State, a: CallId, c: CallId) {
    && a !in s.cache.asks && c !in s.cache.checks && c !in s.cache.fetches && c !in s.callers && c !in s.entered
    && c !in s.db.calls
  }

  /** The client is honest, in time, and signs with the key of its wallet. */
  ghost predicate Ready(sys: P.System, s: P.State, x: Client, key: EW.PrivateKey) {
    && HS.Equipped(sys, x.envoy) && HS.Welcome(sys, s, x.envoy, NOW)
    && var composed := Siwe.Compose(sys.web, sys.calendar, sys.config, x.request, s.now);
       && composed.Ok? && NormalizeHex(x.caller.wallet) == NormalizeHex(x.request.wallet)
       && EW.SignMessage(sys.curve, key, composed.value.message) == Some(x.caller.signature)
       && ToLower(NormalizeHex(x.caller.wallet)) == "0x" + EncodeHex(sys.curve.address(sys.curve.publicKey(key)))
  }

  /** A request for a challenge does not touch the service entries. */
  lemma AskKeepsWelcome(sys: P.System, s: P.State, a: CallId, x: Client)
    requires a !in s.asks && HS.Equipped(sys, x.envoy) && HS.Welcome(sys, s, x.envoy, NOW)
    requires Siwe.Compose(sys.web, sys.calendar, sys.config, x.request, s.now).Ok?
    ensures HS.Welcome(sys, HS.Arrival(sys, s, a, x.request, 0, 0), x.envoy, NOW)
  {
    hide P.Apply, Siwe.Compose, ServiceKey, SiweKey, NormalizeHex, SA.GeneratePayload, HS.Equipped;
    var e := CC.AskSteps(a, x.request, 0, NoFault);
    CC.AskInOneGo(sys, s, a, x.request, 0, NoFault);
    assert e[..3] == e;
    P.RunConcat(sys, s, e, [P.Tick(0)]);
    P.RunOne(sys, P.Run(sys, s, e), P.Tick(0));
    C.Frame(sys, P.Run(sys, s, e), P.Tick(0));
    C.ComposedWallet(sys, x.request, s.now);
    EnvoySignature(sys, x.envoy);
    var p := P.PayloadOf(HS.EnvoyPayload(sys, x.envoy).value);
    C.KeysDisjoint(sys, p.name, p.signature, NormalizeHex(x.request.wallet));
  }

  /** A generated payload's signature holds no colon. */
  lemma EnvoySignature(sys: P.System, v: HS.Envoy)
    requires HS.Equipped(sys, v)
    ensures ':' !in P.PayloadOf(HS.EnvoyPayload(sys, v).value).signature
  {
    HS.AllowedServiceIsCanonical();
    var p, key, bytes := SA.GeneratedFields(sys.ring, P.ALLOWED_SERVICE, v.generated, v.nonce, v.entropy);
    Base64RoundTrip(bytes);
    DecodableText(p.signature);
  }

  /** The cache after an uninterrupted sign-in in which no time passes. */
  function AfterSignIn(sys: P.System, s: P.State, a: CallId, c: CallId, x: Client): P.State {
    P.Run(sys, s, HS.SignIn(sys, a, c, x.request, 0, 0, x.envoy, NOW, x.caller.wallet))
  }

  lemma SignInInParts(sys: P.System, s: P.State, a: CallId, c: CallId, x: Client)
    ensures AfterSignIn(sys, s, a, c, x)
         == P.Run(sys, P.Run(sys, P.Run(sys, s, Asking(a, x)), Checking(sys, c, x)), Fetching(c, x))
  {
    hide P.Apply;
    P.RunConcat(sys, s, Asking(a, x), Checking(sys, c, x));
    P.RunConcat(sys, s, Asking(a, x) + Checking(sys, c, x), Fetching(c, x));
  }

  /** The front of a sign-in that the middleware admits is a run of the cache protocol, and nothing else. */
  lemma FrontRuns(sys: P.System, cfg: S.Config, s: State, a: CallId, c: CallId, x: Client)
    requires OneClock(s) && Unused(s, a, c)
    requires var s1 := P.Run(sys, s.cache, Asking(a, x));
             && s1.checks == s.cache.checks && s1.fetches == s.cache.fetches
             && P.FromUsers(P.Run(sys, s1, Checking(sys, c, x)), c)
    ensures var s' := Run(sys, cfg, s, FrontPart(sys, a, c, x));
            && s' == s.(cache := AfterSignIn(sys, s.cache, a, c, x),
                        callers := s.callers[c := x.caller])
            && OneClock(s')
  {
    hide P.Apply, Apply, P.FromUsers, HS.SignIn, Asking, Checking, Fetching;
    AskIsTimeless(a, x);
    LiftedRun(sys, cfg, s, Asking(a, x));
    var s1 := s.(cache := P.Run(sys, s.cache, Asking(a, x)));
    CheckPartRuns(sys, cfg, s1, c, x);
    var s2 := s1.(cache := P.Run(sys, s1.cache, Checking(sys, c, x)), callers := s.callers[c := x.caller]);
    FetchPartRuns(sys, cfg, s2, c, x);
    var e1, e2, e3 := Lift(Asking(a, x)), CheckEvents(sys, c, x), FetchEvents(c, x);
    assert FrontPart(sys, a, c, x) == e1 + e2 + e3;
    RunConcat(sys, cfg, s, e1, e2);
    RunConcat(sys, cfg, s, e1 + e2, e3);
    SignInInParts(sys, s.cache, a, c, x);
  }

  lemma AskIsTimeless(a: CallId, x: Client)
    ensures Timeless(Asking(a, x))
  {
  }

  /** A client that is ready passes its checks, with nothing changed behind them. */
  lemma FrontPasses(sys: P.System, cfg: S.Config, s: State, a: CallId, c: CallId, x: Client, key: EW.PrivateKey)
    requires OneClock(s) && Unused(s, a, c) && Ready(sys, s.cache, x, key)
    ensures var s' := Run(sys, cfg, s, FrontPart(sys, a, c, x));
            && s' == s.(cache := AfterSignIn(sys, s.cache, a, c, x),
                        callers := s.callers[c := x.caller])
            && OneClock(s') && P.Passes(sys, s'.cache, c, x.caller.wallet, x.caller.signature)
  {
    hide P.Apply, Apply, HS.Equipped, HS.Welcome, P.FromUsers, P.Passes, Siwe.Compose, EW.SignMessage, HS.SignIn, Run;
    hide HS.CheckPart, HS.AskPart, NormalizeHex, ToLower, EncodeHex;
    AskKeepsWelcome(sys, s.cache, a, x);
    HS.HonestSignInPasses(sys, s.cache, a, c, x.request, 0, 0, x.envoy, NOW, x.caller.wallet, key, x.caller.signature);
    HS.ArrivalHolds(sys, s.cache, a, x.request, 0, 0);
    HS.WelcomeReaches(sys, HS.Arrival(sys, s.cache, a, x.request, 0, 0), c, x.envoy, NOW);
    FrontRuns(sys, cfg, s, a, c, x);
  }

  function CheckEvents(sys: P.System, c: CallId, x: Client): seq<Event> {
    [Call(c, HS.EnvoyPayload(sys, x.envoy), x.caller)] + Lift(Checking(sys, c, x)[1..])
  }

  function FetchEvents(c: CallId, x: Client): seq<Event> { [Proceed(c)] + Lift(Fetching(c, x)[1..]) }

  lemma RunFirst(sys: P.System, cfg: S.Config, s: State, e: Event, rest: seq<Event>)
    ensures Run(sys, cfg, s, [e] + rest) == Run(sys, cfg, Apply(sys, cfg, s, e), rest)
  {
    hide Apply;
    assert ([e] + rest)[1..] == rest;
  }

  lemma CheckPartRuns(sys: P.System, cfg: S.Config, s: State, c: CallId, x: Client)
    requires OneClock(s) && c !in s.callers && c !in s.cache.checks && c !in s.cache.fetches
    ensures var s' := Run(sys, cfg, s, CheckEvents(sys, c, x));
            && s' == s.(cache := P.Run(sys, s.cache, Checking(sys, c, x)), callers := s.callers[c := x.caller])
            && OneClock(s')
  {
    hide P.Apply;
    var e, rest := Checking(sys, c, x)[0], Checking(sys, c, x)[1..];
    RunFirst(sys, cfg, s, CheckEvents(sys, c, x)[0], Lift(rest));
    OutsideStep(sys, cfg, s, e);
    LiftedRun(sys, cfg, Apply(sys, cfg, s, CheckEvents(sys, c, x)[0]), rest);
  }

  lemma FetchPartRuns(sys: P.System, cfg: S.Config, s: State, c: CallId, x: Client)
    requires OneClock(s) && c in s.callers && s.callers[c] == x.caller && P.FromUsers(s.cache, c)
    ensures var s' := Run(sys, cfg, s, FetchEvents(c, x));
            s' == s.(cache := P.Run(sys, s.cache, Fetching(c, x))) && OneClock(s')
  {
    hide P.Apply, P.FromUsers;
    var e, rest := Fetching(c, x)[0], Fetching(c, x)[1..];
    RunFirst(sys, cfg, s, Proceed(c), Lift(rest));
    OutsideStep(sys, cfg, s, e);
    LiftedRun(sys, cfg, Apply(sys, cfg, s, Proceed(c)), rest);
  }

  /** Nothing that a faultless sign-up does takes time. */
  lemma ScriptIsStill(cfg: S.Config, s: S.State, c: CallId, x: Client, access: TokenId, refresh: TokenId)
    ensures Still(cfg, s, Steps(c, x, access, refresh)[1..])
  {
    TimelessIsStill(cfg, s, Steps(c, x, access, refresh)[1..]);
  }

  predicate TakesNoTime(e: S.Event) {
    !e.Tick? && (e.MintAccess? ==> e.gap == 0) && (e.MintRefresh? ==> e.gap == 0) && (e.MintRenewed? ==> e.gap == 0)
  }

  lemma {:induction false} TimelessIsStill(cfg: S.Config, s: S.State, steps: seq<S.Event>)
    requires forall i | 0 <= i < |steps| :: TakesNoTime(steps[i])
    ensures Still(cfg, s, steps)
    decreases |steps|
  {
    if steps != [] {
      assert TakesNoTime(steps[0]);
      TimelessStep(cfg, s, steps[0]);
      TimelessIsStill(cfg, S.Apply(cfg, s, steps[0]), steps[1..]);
    }
  }

  lemma TimelessStep(cfg: S.Config, s: S.State, e: S.Event)
    requires TakesNoTime(e)
    ensures S.Apply(cfg, s, e).now == s.now
  {
  }

  /** An honest client of a new user, with a new wallet string, signs up. */
  lemma WholeSignInCommits(sys: P.System, cfg: S.Config, s: State, a: CallId, c: CallId, x: Client, key: EW.PrivateKey,
                           access: TokenId, refresh: TokenId)
    requires !cfg.foreignKeys && OneClock(s) && Unused(s, a, c) && Ready(sys, s.cache, x, key)
    requires SU.Vacant(s.db, c, S.Credential(x.caller.userId, x.caller.wallet, User), refresh)
    ensures var s' := Run(sys, cfg, s, WholeSignIn(sys, a, c, x, access, refresh));
            && s'.db.credentials == s.db.credentials + {S.Credential(x.caller.userId, x.caller.wallet, User)}
            && s'.db.calls == s.db.calls && s'.db.sessions.Keys == s.db.sessions.Keys + {refresh}
            && OneClock(s') && s'.callers == s.callers[c := x.caller] && s'.entered == s.entered + {c}
            && P.Passes(sys, s'.cache, c, x.caller.wallet, x.caller.signature)
            && exists n: nat :: s'.cache == AfterSignIn(sys, s.cache, a, c, x).(step := n)
  {
    hide P.Apply, Apply, S.Apply, Ready, P.Passes;
    var front, steps := FrontPart(sys, a, c, x), Steps(c, x, access, refresh);
    FrontPasses(sys, cfg, s, a, c, x, key);
    var s1 := Run(sys, cfg, s, front);
    EnterBegins(sys, cfg, s1, c);
    var s2 := Apply(sys, cfg, s1, Enter(c));
    ScriptIsStill(cfg, s2.db, c, x, access, refresh);
    LiftedSteps(sys, cfg, s2, steps[1..]);
    RunFirst(sys, cfg, s1, Enter(c), LiftIn(steps[1..]));
    RunConcat(sys, cfg, s, front, [Enter(c)] + LiftIn(steps[1..]));
    assert WholeSignIn(sys, a, c, x, access, refresh) == front + ([Enter(c)] + LiftIn(steps[1..]));
    SU.SignUpWorksIffUnchecked(cfg, s.db, c, S.Credential(x.caller.userId, x.caller.wallet, User), access, refresh);
    StepsDoNotMatter(sys, s1.cache, Run(sys, cfg, s2, LiftIn(steps[1..])).cache, c, x.caller);
  }

  lemma StepsDoNotMatter(sys: P.System, s: P.State, s': P.State, c: CallId, caller: Caller)
    requires P.Passes(sys, s, c, caller.wallet, caller.signature) && s' == s.(step := s'.step)
    ensures P.Passes(sys, s', c, caller.wallet, caller.signature)
  {
  }

  lemma EnterBegins(sys: P.System, cfg: S.Config, s: State, c: CallId)
    requires OneClock(s) && c in s.callers && c !in s.entered
    requires P.Passes(sys, s.cache, c, s.callers[c].wallet, s.callers[c].signature)
    ensures var s', begin := Apply(sys, cfg, s, Enter(c)), S.Begin(c, s.callers[c].wallet, s.callers[c].userId);
            && s'.db == S.Apply(cfg, s.db, begin) && OneClock(s') && s'.callers == s.callers
            && s'.entered == s.entered + {c} && s'.cache == s.cache.(step := s.cache.step + 1)
  {
    hide P.Passes;
  }

  /* ---------- The second one ---------- */

  /** No check so far is of a payload under this service key, and nothing is cached there. */
  predicate Unseen(s: P.State, key: string) {
    key !in s.entries && forall k | k in s.checks && !s.checks[k].Refused? :: P.SeenKey(s.checks[k].text) != key
  }

  lemma StaysUnseen(sys: P.System, s: P.State, e: P.Event, name: string, signature: string)
    requires C.Sound(sys, s) && ':' !in signature && Unseen(s, ServiceKey(name, signature))
    requires e.StartCheck? && e.payload.Some? ==> P.SeenKey(e.payload.value) != ServiceKey(name, signature)
    ensures Unseen(P.Apply(sys, s, e), ServiceKey(name, signature))
  {
    hide SA.Inspect, Siwe.Compose, SiweKey, ServiceKey, NormalizeHex, IsHexAddress, P.PayloadOf, C.CellsRefined;
    hide C.FetchesOk, C.DeletionsHold, C.ChecksOk, C.SeenKept, C.SeenBrief, C.ReadsSpaced, C.CellsHaveSource;
    if e.WriteChallenge? && e.call in s.asks && s.asks[e.call].Composed? {
      assert C.AskOk(sys, s, s.asks[e.call]);
      C.KeysDisjoint(sys, name, signature, s.asks[e.call].challenge.wallet);
    }
    if e.StartCheck? && SA.Inspect(sys.ring, e.payload, s.now).Ok? {
      C.NoTextNoCheck(sys, e.payload, s.now);
    }
  }

  lemma {:induction false} RunStaysUnseen(sys: P.System, s: P.State, events: seq<P.Event>, name: string,
                                          signature: string)
    requires C.Sound(sys, s) && ':' !in signature && Unseen(s, ServiceKey(name, signature))
    requires forall i | 0 <= i < |events| :: events[i].StartCheck? && events[i].payload.Some? ==>
               P.SeenKey(events[i].payload.value) != ServiceKey(name, signature)
    ensures Unseen(P.Run(sys, s, events), ServiceKey(name, signature))
    decreases |events|
  {
    hide P.Apply, C.Sound, Unseen, ServiceKey, P.SeenKey;
    if events != [] {
      StaysUnseen(sys, s, events[0], name, signature);
      C.StepSound(sys, s, events[0]);
      RunStaysUnseen(sys, P.Apply(sys, s, events[0]), events[1..], name, signature);
    }
  }

  /** Two clients, ready in one state, with different payloads and different spellings of one address. */
  ghost predicate Rivals(sys: P.System, s: P.State, x: Client, y: Client, key: EW.PrivateKey) {
    && Ready(sys, s, x, key) && Ready(sys, s, y, key)
    && P.SeenKey(HS.EnvoyPayload(sys, x.envoy).value) != P.SeenKey(HS.EnvoyPayload(sys, y.envoy).value)
    && x.caller.wallet != y.caller.wallet && x.caller.userId != y.caller.userId
  }

  lemma TimelessSignIn(sys: P.System, s: P.State, a: CallId, c: CallId, x: Client)
    ensures Timeless(HS.SignIn(sys, a, c, x.request, 0, 0, x.envoy, NOW, x.caller.wallet))
    ensures var e := HS.SignIn(sys, a, c, x.request, 0, 0, x.envoy, NOW, x.caller.wallet);
            forall i | 0 <= i < |e| && e[i].StartCheck? :: e[i].payload == HS.EnvoyPayload(sys, x.envoy)
  {
  }

  lemma {:induction false} TimelessRun(sys: P.System, s: P.State, events: seq<P.Event>)
    requires Timeless(events)
    ensures P.Run(sys, s, events).now == s.now
    decreases |events|
  {
    hide P.Apply;
    if events != [] {
      C.Frame(sys, s, events[0]);
      assert Timeless(events[1..]);
      TimelessRun(sys, P.Apply(sys, s, events[0]), events[1..]);
    }
  }

  /** The first sign-in leaves the second client as ready as it was. */
  lemma StillReady(sys: P.System, s: P.State, a: CallId, c: CallId, x: Client, y: Client, key: EW.PrivateKey, n: nat)
    requires C.Sound(sys, s) && s.entries == map[] && s.checks == map[] && Rivals(sys, s, x, y, key)
    ensures var s' := AfterSignIn(sys, s, a, c, x).(step := n);
            Ready(sys, s', y, key)
  {
    hide P.Apply, C.Sound, HS.Equipped, SA.GeneratePayload, Siwe.Compose, ServiceKey, EW.SignMessage, NormalizeHex;
    var e := HS.SignIn(sys, a, c, x.request, 0, 0, x.envoy, NOW, x.caller.wallet);
    TimelessSignIn(sys, s, a, c, x);
    TimelessRun(sys, s, e);
    EnvoySignature(sys, y.envoy);
    var q := P.PayloadOf(HS.EnvoyPayload(sys, y.envoy).value);
    RunStaysUnseen(sys, s, e, q.name, q.signature);
  }

  /** After the first sign-in: its credential is there, and the second client can start. */
  lemma FirstOfTwo(sys: P.System, cfg: S.Config, s0: State, x: Client, y: Client, key: EW.PrivateKey)
    requires !cfg.foreignKeys && Initial(s0) && s0.db.credentials == {} && Rivals(sys, s0.cache, x, y, key)
    ensures var s1 := Run(sys, cfg, s0, WholeSignIn(sys, 0, 0, x, 1, 2));
            && s1.db.credentials == {S.Credential(x.caller.userId, x.caller.wallet, User)} && OneClock(s1)
            && Ready(sys, s1.cache, y, key) && Unused(s1, 1, 1)
            && SU.Vacant(s1.db, 1, S.Credential(y.caller.userId, y.caller.wallet, User), 4)
  {
    hide P.Apply, Apply, S.Apply, P.Passes, C.Sound, HS.SignIn, Ready, WholeSignIn, Run;
    C.InitialSound(sys, s0.cache);
    WholeSignInCommits(sys, cfg, s0, 0, 0, x, key, 1, 2);
    var s1 := Run(sys, cfg, s0, WholeSignIn(sys, 0, 0, x, 1, 2));
    var n: nat :| s1.cache == AfterSignIn(sys, s0.cache, 0, 0, x).(step := n);
    StillReady(sys, s0.cache, 0, 0, x, y, key, n);
    SecondIsUnused(sys, s0.cache, x, n);
  }

  lemma RivalsShareAddress(sys: P.System, s: P.State, x: Client, y: Client, key: EW.PrivateKey)
    requires Rivals(sys, s, x, y, key)
    ensures Ad.SameAddress(x.caller.wallet, y.caller.wallet)
  {
    hide HS.Equipped, HS.Welcome, Siwe.Compose, EW.SignMessage, NormalizeHex, ToLower, EncodeHex;
  }

  /**
    One address, two users. On a store on which sign-up works: two honest clients that sign with
    one key, under two spellings of its address, both pass their checks and both have their
    credential committed, for different users.
   */
  lemma TwoUsersSignIn(sys: P.System, cfg: S.Config, s0: State, x: Client, y: Client, key: EW.PrivateKey)
    requires !cfg.foreignKeys && Initial(s0) && s0.db.credentials == {} && Rivals(sys, s0.cache, x, y, key)
    ensures var first, second := WholeSignIn(sys, 0, 0, x, 1, 2), WholeSignIn(sys, 1, 1, y, 3, 4);
            var s1, s := Run(sys, cfg, s0, first), Run(sys, cfg, s0, first + second);
            && Ad.SameAddress(x.caller.wallet, y.caller.wallet)
            && P.Passes(sys, s1.cache, 0, x.caller.wallet, x.caller.signature)
            && P.Passes(sys, s.cache, 1, y.caller.wallet, y.caller.signature)
            && s.db.credentials == {S.Credential(x.caller.userId, x.caller.wallet, User),
                                    S.Credential(y.caller.userId, y.caller.wallet, User)}
            && !Ad.AddressesBound(s.db)
  {
    hide Apply, Run, P.Passes, WholeSignIn, Ad.SameAddress, Ready, AfterSignIn;
    FirstOfTwo(sys, cfg, s0, x, y, key);
    WholeSignInCommits(sys, cfg, s0, 0, 0, x, key, 1, 2);
    WholeSignInCommits(sys, cfg, Run(sys, cfg, s0, WholeSignIn(sys, 0, 0, x, 1, 2)), 1, 1, y, key, 3, 4);
    RunConcat(sys, cfg, s0, WholeSignIn(sys, 0, 0, x, 1, 2), WholeSignIn(sys, 1, 1, y, 3, 4));
    RivalsShareAddress(sys, s0.cache, x, y, key);
    var c := S.Credential(x.caller.userId, x.caller.wallet, User);
    var d := S.Credential(y.caller.userId, y.caller.wallet, User);
    assert c != d && Ad.SameAddress(c.wallet, d.wallet);
  }

  /** The first sign-in uses its own numbers only. */
  lemma SecondIsUnused(sys: P.System, s: P.State, x: Client, n: nat)
    requires s.asks == map[] && s.checks == map[] && s.fetches == map[]
    ensures var s' := AfterSignIn(sys, s, 0, 0, x).(step := n);
            1 !in s'.asks && 1 !in s'.checks && 1 !in s'.fetches
  {
    NumbersOfRun(sys, s, HS.SignIn(sys, 0, 0, x.request, 0, 0, x.envoy, NOW, x.caller.wallet));
  }

  predicate ByZero(e: P.Event) {
    match e
    case Tick(_) => true
    case StartAsk(call, _) => call == 0
    case WriteChallenge(call, _) => call == 0
    case StartCheck(call, _) => call == 0
    case ReadSeen(call, _) => call == 0
    case WriteSeen(call, _) => call == 0
    case StartFetch(call, _) => call == 0
    case ReadChallenge(call, _) => call == 0
    case DeleteChallenge(call, _) => call == 0
  }

  lemma NumbersOfStep(sys: P.System, s: P.State, e: P.Event)
    requires ByZero(e) && 1 !in s.asks && 1 !in s.checks && 1 !in s.fetches
    ensures var s' := P.Apply(sys, s, e); 1 !in s'.asks && 1 !in s'.checks && 1 !in s'.fetches
  {
    hide SA.Inspect, Siwe.Compose, SiweKey, ServiceKey, NormalizeHex, IsHexAddress;
  }

  lemma {:induction false} NumbersOfRun(sys: P.System, s: P.State, events: seq<P.Event>)
    requires 1 !in s.asks && 1 !in s.checks && 1 !in s.fetches
    requires forall i | 0 <= i < |events| :: ByZero(events[i])
    ensures var s' := P.Run(sys, s, events); 1 !in s'.asks && 1 !in s'.checks && 1 !in s'.fetches
    decreases |events|
  {
    hide P.Apply;
    if events != [] {
      assert ByZero(events[0]);
      NumbersOfStep(sys, s, events[0]);
      NumbersOfRun(sys, P.Apply(sys, s, events[0]), events[1..]);
    }
  }
}
