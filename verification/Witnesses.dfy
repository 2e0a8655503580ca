/**
  A small world in which the premises of the two-session and two-user results are met: keys
  that sign with one byte, one origin, and a wallet of zeros. Its states are reached by runs from a
  service that has just come up.
 */
module Witnesses {
  import opened Wrappers
  import opened Text
  import opened Encoding
  import opened TtlCache
  import opened Tokens
  import SA = ServiceAuthentication
  import SM = SiweMessage
  import Siwe
  import EW = EthereumWallet
  import P = Protocol
  import C = CacheSafety
  import HS = HonestSignIn
  import S = Sessions
  import opened EndToEnd
  import opened TwoUsers
  import opened TwoSessions

  /* ---------- The world ---------- */

  function Zeros(n: nat): (b: Bytes)
    ensures |b| == n && forall i | 0 <= i < n :: b[i] == 0
  {
    if n == 0 then [] else Zeros(n - 1) + [0]
  }

  function Address(): Bytes { Zeros(20) }

  function Signature(): Bytes { Zeros(EW.SIGNATURE_LENGTH) }

  /** Service keys whose signatures are the byte that chance provides. */
  function Ring(): SA.Keyring {
    SA.Keyring(_ => ["key"], _ => Some(0), _ => Some(0), k => k, (_, _, entropy) => Some([(entropy % 256) as byte]),
               (_, _, _) => true)
  }

  function Curve(): EW.Curve {
    EW.Curve(_ => [], (_, _) => Some(Signature()), (_, _) => Some(0), _ => 0, _ => Address(), a => "0x" + EncodeHex(a))
  }

  function World(): P.System {
    P.System(Ring(), Siwe.Web(_ => Some(Siwe.Url("https", "a.example", "", "", "")), _ => "https://a.example"),
             SM.Calendar(_ => "", _ => None), Siwe.Config("auth", false, ["https://a.example"], _ => true), Curve())
  }

  function Prefixed(): string { "0x" + EncodeHex(Address()) }

  function Bare(): string { EncodeHex(Address()) }

  /** A client of the world: its wallet string, its user, and the chance behind its service payload. */
  function Someone(wallet: string, userId: UserId, entropy: nat): Client {
    Client(Siwe.Request("a.example", "https://a.example", 1, wallet, 0), HS.Envoy(0, "aaaaaaaaaa", entropy),
           Caller(wallet, userId, "0x" + EncodeHex(Signature())))
  }

  /** The service has just come up, with these credentials. */
  function Start(credentials: set<S.Credential>): State {
    State(P.State(map[], 0, 0, map[], map[], map[], map[]), S.State(credentials, map[], map[], {}, {}, {}, 0),
          map[], {})
  }

  lemma LowerHex(a: Bytes)
    ensures ToLower("0x" + EncodeHex(a)) == "0x" + EncodeHex(a)
  {
    HexRoundTrip(a);
    var h := "0x" + EncodeHex(a);
    forall i | 0 <= i < |h| ensures LowerChar(h[i]) == h[i] {
      if i >= 2 { assert h[i] == EncodeHex(a)[i - 2]; }
    }
    assert ToLower(h) == h;
  }

  lemma WorldIsIdeal()
    ensures SA.Ideal(World().ring) && SA.Paired(World().ring, P.ALLOWED_SERVICE) && EW.Ideal(World().curve)
  {
    forall a ensures ToLower(Curve().checksummed(a)) == "0x" + EncodeHex(a) {
      LowerHex(a);
    }
  }

  lemma BothSpell()
    ensures Prefixed() != Bare() && IsHexAddress(Prefixed())
    ensures NormalizeHex(Prefixed()) == NormalizeHex(Bare()) == Prefixed() == ToLower(Prefixed())
  {
    LowerHex(Address());
    EW.PrintedSignature(Address());
    EW.FoldedAddress(Prefixed(), Address());
    HexRoundTrip(Address());
    var w := Bare();
    assert HexDigit(w[0]).Some? && HexDigit(w[1]).Some? && HexDigit(w[|w| - 1]).Some?;
    EW.HexDigitNotSpace(w[0]);
    EW.HexDigitNotSpace(w[|w| - 1]);
    TrimSpaceTrims(w);
  }

  /** The fields of the payload made for a client. */
  lemma EnvoyFields(v: HS.Envoy)
    requires v == HS.Envoy(0, "aaaaaaaaaa", v.entropy)
    ensures HS.Equipped(World(), v) && HS.EnvoyPayload(World(), v).Some?
    ensures var p := P.PayloadOf(HS.EnvoyPayload(World(), v).value);
            p.name == P.ALLOWED_SERVICE && p.signature == EncodeBase64([(v.entropy % 256) as byte])
    ensures SA.SplitPayload(HS.EnvoyPayload(World(), v).value).Some?
  {
    hide SA.SplitPayload;
    HS.AllowedServiceIsCanonical();
    WorldIsIdeal();
    assert HS.EnvoyPayload(World(), v).Some?;
    assert forall i | 0 <= i < 10 :: "aaaaaaaaaa"[i] == 'a';
    assert SA.CHARSET[0] == 'a';
    var p, key, bytes := SA.GeneratedFields(World().ring, P.ALLOWED_SERVICE, 0, v.nonce, v.entropy);
  }

  lemma DomainAllowed()
    ensures Siwe.TrimWww("a.example") == "a.example"
    ensures Siwe.SearchOrigins(World().web, "a.example", ["https://a.example"]).Allowed?
  {
    hide TrimSpace, EncodeHex;
    var www, host := "www.", "a.example";
    assert www[0] != host[0];
    assert !HasPrefix(host, www);
  }

  lemma SomeoneComposes(wallet: string)
    requires wallet == Prefixed() || wallet == Bare()
    ensures Siwe.Compose(World().web, World().calendar, World().config, Someone(wallet, 0, 0).request, 0).Ok?
  {
    hide NormalizeHex, IsHexAddress, SM.Render, SM.FieldsAt, TrimSpace, Siwe.SearchOrigins, Siwe.TrimWww, ToLower;
    hide EncodeHex, ZeroPadded, Ring, Curve;
    BothSpell();
    DomainAllowed();
    var r := Someone(wallet, 0, 0).request;
    assert Siwe.CheckedUrl(World().web, World().config, r).Ok?;
  }

  /** Every such client is ready in a cache that has just come up. */
  lemma SomeoneIsReady(wallet: string, userId: UserId, entropy: nat, s: P.State)
    requires wallet == Prefixed() || wallet == Bare()
    requires s.entries == map[] && s.now == 0
    ensures Ready(World(), s, Someone(wallet, userId, entropy), 0)
  {
    hide Siwe.Compose, NormalizeHex, ToLower, EncodeHex, SA.SplitPayload, HS.Equipped, SA.GeneratePayload;
    BothSpell();
    SomeoneComposes(wallet);
    var x := Someone(wallet, userId, entropy);
    EnvoyFields(x.envoy);
    assert HS.EnvoyPayload(World(), x.envoy).Some?;
    assert HS.Welcome(World(), s, x.envoy, NOW);
    assert Siwe.Compose(World().web, World().calendar, World().config, x.request, s.now).Ok?;
  }

  /** Payloads signed with different bytes are remembered under different keys. */
  lemma KeysDiffer(wallet: string, wallet': string, u: UserId, u': UserId)
    ensures var x, y := Someone(wallet, u, 0), Someone(wallet', u', 1);
            P.SeenKey(HS.EnvoyPayload(World(), x.envoy).value) != P.SeenKey(HS.EnvoyPayload(World(), y.envoy).value)
  {
    hide HS.EnvoyPayload, P.PayloadOf, ServiceKey;
    var x, y := Someone(wallet, u, 0), Someone(wallet', u', 1);
    EnvoyFields(x.envoy);
    EnvoyFields(y.envoy);
    var b, c: Bytes := [0], [1];
    Base64RoundTrip(b);
    Base64RoundTrip(c);
    DecodableText(EncodeBase64(b));
    DecodableText(EncodeBase64(c));
    if ServiceKey(P.ALLOWED_SERVICE, EncodeBase64(b)) == ServiceKey(P.ALLOWED_SERVICE, EncodeBase64(c)) {
      ServiceKeyInjective(P.ALLOWED_SERVICE, EncodeBase64(b), P.ALLOWED_SERVICE, EncodeBase64(c));
    }
  }

  /* ---------- One key, two users ---------- */

  /** In this world one key signs up two users, from a service that has just come up. */
  lemma TwoUsersExist(cfg: S.Config)
    requires !cfg.foreignKeys
    ensures var x, y := Someone(Prefixed(), 1, 0), Someone(Bare(), 2, 1);
            var both := WholeSignIn(World(), 0, 0, x, 1, 2) + WholeSignIn(World(), 1, 1, y, 3, 4);
            && Initial(Start({})) && Rivals(World(), Start({}).cache, x, y, 0)
            && Run(World(), cfg, Start({}), both).db.credentials
                 == {S.Credential(1, Prefixed(), User), S.Credential(2, Bare(), User)}
  {
    hide Ready, Run, WholeSignIn, P.SeenKey, HS.EnvoyPayload, Prefixed, Bare;
    var x, y := Someone(Prefixed(), 1, 0), Someone(Bare(), 2, 1);
    BothSpell();
    SomeoneIsReady(Prefixed(), 1, 0, Start({}).cache);
    SomeoneIsReady(Bare(), 2, 1, Start({}).cache);
    KeysDiffer(Prefixed(), Bare(), 1, 2);
    TwoUsersSignIn(World(), cfg, Start({}), x, y, 0);
  }

  /* ---------- One signature, two sessions ---------- */

  /** A request for a challenge, and two service payloads checked for one caller. */
  function Prepare(sys: P.System, x: Client, y: Client): seq<Event> {
    Lift(Asking(0, x)) + CheckEvents(sys, 0, x) + CheckEvents(sys, 1, y)
  }

  /** The cache after the request, after the first check, and after the second. */
  function Asked(sys: P.System, s: P.State, x: Client): P.State { P.Run(sys, s, Asking(0, x)) }

  function AskedAndChecked(sys: P.System, s: P.State, x: Client): P.State {
    P.Run(sys, Asked(sys, s, x), Checking(sys, 0, x))
  }

  function BothChecked(sys: P.System, s: P.State, x: Client, y: Client): P.State {
    P.Run(sys, AskedAndChecked(sys, s, x), Checking(sys, 1, y))
  }

  predicate JustUp(s: P.State) { P.Initial(s) && s.now == 0 }

  /** After the first check the second client is as welcome as before, and its number unused. */
  lemma FirstChecked(sys: P.System, s: P.State, x: Client, y: Client, key: EW.PrivateKey)
    requires JustUp(s) && Ready(sys, s, x, key) && Ready(sys, s, y, key)
    requires P.SeenKey(HS.EnvoyPayload(sys, x.envoy).value) != P.SeenKey(HS.EnvoyPayload(sys, y.envoy).value)
    ensures var t := AskedAndChecked(sys, s, x);
            && P.FromUsers(t, 0) && t.fetches == map[] && 1 !in t.checks && t.now == 0
            && HS.Welcome(sys, t, y.envoy, NOW)
  {
    hide P.Apply, C.Sound, HS.Equipped, SA.GeneratePayload, Siwe.Compose, ServiceKey, EW.SignMessage, NormalizeHex;
    hide ToLower, EncodeHex, HS.CheckPart, P.FromUsers;
    C.InitialSound(sys, s);
    HS.ArrivalHolds(sys, s, 0, x.request, 0, 0);
    AskKeepsWelcome(sys, s, 0, x);
    HS.WelcomeReaches(sys, Asked(sys, s, x), 0, x.envoy, NOW);
    var e := Asking(0, x) + Checking(sys, 0, x);
    P.RunConcat(sys, s, Asking(0, x), Checking(sys, 0, x));
    FirstSteps(sys, x);
    NumbersOfRun(sys, s, e);
    TimelessRun(sys, s, e);
    EnvoySignature(sys, y.envoy);
    var q := P.PayloadOf(HS.EnvoyPayload(sys, y.envoy).value);
    RunStaysUnseen(sys, s, e, q.name, q.signature);
  }

  lemma FirstSteps(sys: P.System, x: Client)
    ensures var e := Asking(0, x) + Checking(sys, 0, x);
            && Timeless(e) && (forall i | 0 <= i < |e| :: ByZero(e[i]))
            && forall i | 0 <= i < |e| && e[i].StartCheck? :: e[i].payload == HS.EnvoyPayload(sys, x.envoy)
  {
    hide HS.EnvoyPayload;
  }

  /** After both checks the challenge is still in the cache, and both calls are admitted. */
  lemma SecondChecked(sys: P.System, s: P.State, x: Client, y: Client, key: EW.PrivateKey)
    requires JustUp(s) && Ready(sys, s, x, key) && Ready(sys, s, y, key)
    requires P.SeenKey(HS.EnvoyPayload(sys, x.envoy).value) != P.SeenKey(HS.EnvoyPayload(sys, y.envoy).value)
    ensures var t, w := BothChecked(sys, s, x, y), NormalizeHex(x.request.wallet);
            var message := Siwe.Compose(sys.web, sys.calendar, sys.config, x.request, s.now).value.message;
            && P.FromUsers(t, 0) && P.FromUsers(t, 1) && t.fetches == map[] && t.now == 0 && C.Sound(sys, t)
            && w in t.pending && t.pending[w].message == message && t.now <= t.pending[w].expiresAt
  {
    hide P.Apply, C.Sound, HS.Equipped, HS.Welcome, Siwe.Compose, SiweKey, EW.SignMessage, NormalizeHex, ToLower;
    hide EncodeHex, HS.CheckPart, P.FromUsers, P.SeenKey, IsHexAddress, C.Grows;
    var t1, t2, t := Asked(sys, s, x), AskedAndChecked(sys, s, x), BothChecked(sys, s, x, y);
    var w := NormalizeHex(x.request.wallet);
    FirstChecked(sys, s, x, y, key);
    HS.ArrivalHolds(sys, s, 0, x.request, 0, 0);
    HS.CheckKeepsChallenge(sys, t1, 0, x.envoy, NOW, w);
    HS.CheckKeepsChallenge(sys, t2, 1, y.envoy, NOW, w);
    HS.WelcomeReaches(sys, t2, 1, y.envoy, NOW);
    C.RunGrows(sys, t2, Checking(sys, 1, y));
    StaysFromUsers(t2, t, 0);
    C.InitialSound(sys, s);
    C.RunSound(sys, s, Asking(0, x));
    C.RunSound(sys, t1, Checking(sys, 0, x));
    C.RunSound(sys, t2, Checking(sys, 1, y));
    C.RefinedNow(sys, t);
    assert C.Refined(t.entries, P.ChallengeKey(sys, w), C.Cell(t, w));
  }

  lemma PrepareRuns(sys: P.System, cfg: S.Config, s: State, x: Client, y: Client)
    requires OneClock(s) && s.callers == map[] && s.cache.checks == map[] && s.cache.fetches == map[]
    requires Asked(sys, s.cache, x).checks == map[] && Asked(sys, s.cache, x).fetches == map[]
    requires 1 !in AskedAndChecked(sys, s.cache, x).checks && AskedAndChecked(sys, s.cache, x).fetches == map[]
    ensures var t := Run(sys, cfg, s, Prepare(sys, x, y));
            && t == s.(cache := BothChecked(sys, s.cache, x, y), callers := map[0 := x.caller][1 := y.caller])
            && OneClock(t)
  {
    hide P.Apply, Apply, Asking, Checking;
    AskIsTimeless(0, x);
    LiftedRun(sys, cfg, s, Asking(0, x));
    var s1 := s.(cache := Asked(sys, s.cache, x));
    CheckPartRuns(sys, cfg, s1, 0, x);
    var s2 := s1.(cache := AskedAndChecked(sys, s.cache, x), callers := map[0 := x.caller]);
    CheckPartRuns(sys, cfg, s2, 1, y);
    RunConcat(sys, cfg, s, Lift(Asking(0, x)), CheckEvents(sys, 0, x));
    RunConcat(sys, cfg, s, Lift(Asking(0, x)) + CheckEvents(sys, 0, x), CheckEvents(sys, 1, y));
  }

  /** What the preparation leaves: two waiting calls of one caller, and the challenge its signature is good for. */
  lemma Prepared(cfg: S.Config, cred: S.Credential)
    requires cred == S.Credential(1, Prefixed(), User)
    ensures var x, y := Someone(Prefixed(), 1, 0), Someone(Prefixed(), 1, 1);
            var s, w := Run(World(), cfg, Start({cred}), Prepare(World(), x, y)), NormalizeHex(Prefixed());
            && OneClock(s) && C.Sound(World(), s.cache) && s.db == Start({cred}).db
            && Waiting(s, 0, x.caller) && Waiting(s, 1, x.caller)
            && w in s.cache.pending && s.cache.now <= s.cache.pending[w].expiresAt
            && EW.Check(World().curve, Prefixed(), s.cache.pending[w].message, x.caller.signature).Ok?
  {
    hide P.Apply, Apply, Run, C.Sound, Prefixed, World, HS.EnvoyPayload, P.SeenKey, NormalizeHex, EW.Check, ToLower;
    hide Siwe.Compose, P.FromUsers, Prepare, EW.SignMessage, EncodeHex, HS.Welcome;
    var x, y, s0 := Someone(Prefixed(), 1, 0), Someone(Prefixed(), 1, 1), Start({cred});
    var t, w := BothChecked(World(), s0.cache, x, y), NormalizeHex(Prefixed());
    SomeoneIsReady(Prefixed(), 1, 0, s0.cache);
    SomeoneIsReady(Prefixed(), 1, 1, s0.cache);
    KeysDiffer(Prefixed(), Prefixed(), 1, 1);
    FirstChecked(World(), s0.cache, x, y, 0);
    SecondChecked(World(), s0.cache, x, y, 0);
    HS.ArrivalHolds(World(), s0.cache, 0, x.request, 0, 0);
    PrepareRuns(World(), cfg, s0, x, y);
    WorldIsIdeal();
    EW.SignThenCheck(World().curve, 0, t.pending[w].message, Prefixed());
  }

  /**
    In this world a run from a service that has just come up meets the premises of one signature,
    two sessions, and goes on to them, whether foreign keys are enforced or not.
   */
  lemma TwoSessionsExist(cfg: S.Config)
    ensures var x, y, cred := Someone(Prefixed(), 1, 0), Someone(Prefixed(), 1, 1), S.Credential(1, Prefixed(), User);
            var s0, events := Start({cred}), Prepare(World(), x, y) + TwoOpenings(0, 1, cred, 0);
            var s := Run(World(), cfg, s0, events);
            && Initial(s0) && AllWellFormed(events)
            && exists o, p | o in s.db.openings && p in s.db.openings ::
                 && o.call == 0 && p.call == 1 && o.refresh in s.db.released && p.refresh in s.db.released
                 && 0 in s.cache.fetches && 1 in s.cache.fetches
                 && s.cache.fetches[0].Returned? && s.cache.fetches[1].Returned?
                 && s.cache.fetches[0].origin == s.cache.fetches[1].origin
  {
    hide Run, C.Sound, Prefixed, World, NormalizeHex, EW.Check, Waiting, Prepare, TwoOpenings, EncodeHex;
    var x, y, cred := Someone(Prefixed(), 1, 0), Someone(Prefixed(), 1, 1), S.Credential(1, Prefixed(), User);
    var s0 := Start({cred});
    var s1 := Run(World(), cfg, s0, Prepare(World(), x, y));
    Prepared(cfg, cred);
    var k := s1.cache.pending[NormalizeHex(Prefixed())].asked;
    OneSignatureTwoSessions(World(), cfg, s1, k, 0, 1, x.caller, cred, 0);
    RunConcat(World(), cfg, s0, Prepare(World(), x, y), TwoOpenings(0, 1, cred, 0));
    PrepareWellFormed(World(), x, y);
  }

  lemma PrepareWellFormed(sys: P.System, x: Client, y: Client)
    ensures AllWellFormed(Prepare(sys, x, y))
  {
    hide HS.EnvoyPayload;
  }
}
