/**
  What an honest client gets: whatever has happened before and is under way, a wallet that
  asks for a challenge, signs it and comes back through the service "users" is let in, and
  exactly when it is let in.
 */
module HonestSignIn {
  import opened Wrappers
  import opened Text
  import opened Encoding
  import opened TtlCache
  import SA = ServiceAuthentication
  import SM = SiweMessage
  import opened Siwe
  import EW = EthereumWallet
  import opened Protocol
  import opened CacheSafety
  import opened CacheCalls

  /** The service payload that "users" makes for the call. */
  datatype Envoy = Envoy(generated: nat, nonce: string, entropy: nat)

  function EnvoyPayload(sys: System, v: Envoy): Option<string> {
    SA.GeneratePayload(sys.ring, ALLOWED_SERVICE, v.generated, v.nonce, v.entropy)
  }

  ghost predicate Equipped(sys: System, v: Envoy) {
    && SA.Ideal(sys.ring) && SA.Paired(sys.ring, ALLOWED_SERVICE) && EW.Ideal(sys.curve)
    && v.generated <= MAX_INT64 && SA.IsNonce(v.nonce) && EnvoyPayload(sys, v).Some?
  }

  /** The time a faultless call takes to each of its three cache calls. */
  datatype Pace = Pace(toGet: nat, toSet: nat, toFetch: nat)

  function CheckPart(sys: System, c: CallId, v: Envoy, pace: Pace): seq<Event> {
    CheckSteps(c, EnvoyPayload(sys, v), SA.Weather(pace.toGet, false, pace.toSet, NoFault))
  }

  function FetchPart(c: CallId, wallet: string, pace: Pace): seq<Event> {
    FetchSteps(c, wallet, FetchWeather(pace.toFetch, false, NoFault))
  }

  /** The envoy's payload is within its minute, and its signature not in the cache when that is read. */
  predicate Welcome(sys: System, s: State, v: Envoy, pace: Pace) {
    && s.now <= v.generated / SA.MILLISECOND * SA.MILLISECOND + SA.PAYLOAD_DURATION
    && EnvoyPayload(sys, v).Some? && SA.SplitPayload(EnvoyPayload(sys, v).value).Some?
    && Lookup(s.entries, SeenKey(EnvoyPayload(sys, v).value), s.now + pace.toGet).None?
  }

  lemma AllowedServiceIsCanonical()
    ensures CanonicalName(ALLOWED_SERVICE) == ALLOWED_SERVICE && ALLOWED_SERVICE != "" && '.' !in ALLOWED_SERVICE
  {
    assert Trimmed(ALLOWED_SERVICE);
    TrimSpaceTrims(ALLOWED_SERVICE);
    assert ToLower(ALLOWED_SERVICE) == ALLOWED_SERVICE;
  }

  lemma WelcomeIsAdmitted(sys: System, s: State, v: Envoy, pace: Pace)
    requires Equipped(sys, v)
    ensures var a := SA.Admit(sys.ring, s.entries, EnvoyPayload(sys, v), s.now,
                              SA.Weather(pace.toGet, false, pace.toSet, NoFault));
            && (a.service == Ok(ALLOWED_SERVICE) <==> Welcome(sys, s, v, pace))
            && (a.service.Ok? <==> Welcome(sys, s, v, pace))
  {
    AllowedServiceIsCanonical();
    SA.GeneratedPayloadAccepted(sys.ring, ALLOWED_SERVICE, v.generated, v.nonce, v.entropy, s.entries, s.now,
                                SA.Weather(pace.toGet, false, pace.toSet, NoFault));
  }

  /** A faultless check of a generated payload ends in "users" exactly when it is timely and unseen. */
  lemma WelcomeReaches(sys: System, s: State, c: CallId, v: Envoy, pace: Pace)
    requires Equipped(sys, v) && c !in s.checks
    ensures var s' := Run(sys, s, CheckPart(sys, c, v, pace));
            && (FromUsers(s', c) <==> Welcome(sys, s, v, pace))
            && (Welcome(sys, s, v, pace) ==> s'.now == s.now + pace.toGet + pace.toSet)
            && s'.fetches == s.fetches && s'.asks == s.asks
  {
    hide SA.Inspect, Apply, Welcome, Equipped, SA.GeneratePayload, SeenKey, CanonicalName;
    var payload, weather := EnvoyPayload(sys, v), SA.Weather(pace.toGet, false, pace.toSet, NoFault);
    WelcomeIsAdmitted(sys, s, v, pace);
    CheckInOneGo(sys, s, c, payload, weather);
    AllCheckSteps(sys, s, c, payload, weather);
  }

  /** A faultless check leaves every challenge as it is. */
  lemma CheckKeepsChallenge(sys: System, s: State, c: CallId, v: Envoy, pace: Pace, w: string)
    requires c !in s.checks && IsWallet(w)
    ensures var s', key := Run(sys, s, CheckPart(sys, c, v, pace)), ChallengeKey(sys, w);
            (key in s'.entries <==> key in s.entries) && (key in s.entries ==> s'.entries[key] == s.entries[key])
  {
    hide SA.Inspect, Apply, SiweKey, ServiceKey, IsWallet;
    var payload, weather := EnvoyPayload(sys, v), SA.Weather(pace.toGet, false, pace.toSet, NoFault);
    CheckInOneGo(sys, s, c, payload, weather);
    AllCheckSteps(sys, s, c, payload, weather);
    if SA.Inspect(sys.ring, payload, s.now).Ok? {
      InspectedFields(sys.ring, payload, s.now);
      InspectedText(sys, payload.value, s.now);
      KeysDisjoint(sys, PayloadOf(payload.value).name, PayloadOf(payload.value).signature, w);
    }
  }

  /* ---------- The whole sign-in ---------- */

  /** From the request for a challenge to the call that brings it back signed. */
  function AskPart(a: CallId, request: Request, gap: nat, wait: nat): seq<Event> {
    AskSteps(a, request, gap, NoFault) + [Tick(wait)]
  }

  function SignIn(sys: System, a: CallId, c: CallId, request: Request, gap: nat, wait: nat, v: Envoy, pace: Pace,
                  wallet: string): seq<Event>
  {
    AskPart(a, request, gap, wait) + CheckPart(sys, c, v, pace) + FetchPart(c, wallet, pace)
  }

  /** Where the call of a sign-in finds the service. */
  function Arrival(sys: System, s: State, a: CallId, request: Request, gap: nat, wait: nat): State {
    Run(sys, s, AskPart(a, request, gap, wait))
  }

  lemma ArrivalHolds(sys: System, s: State, a: CallId, request: Request, gap: nat, wait: nat)
    requires a !in s.asks && Compose(sys.web, sys.calendar, sys.config, request, s.now).Ok?
    ensures var c := Compose(sys.web, sys.calendar, sys.config, request, s.now).value;
            var s', key := Arrival(sys, s, a, request, gap, wait), ChallengeKey(sys, NormalizeHex(request.wallet));
            && IsWallet(NormalizeHex(request.wallet)) && s'.now == s.now + gap + wait
            && s'.checks == s.checks && s'.fetches == s.fetches
            && key in s'.entries && s'.entries[key] == Entry(c.message, s.now + gap + SM.EXPIRATION)
  {
    hide Compose, SiweKey, NormalizeHex, IsHexAddress;
    var e := AskSteps(a, request, gap, NoFault);
    ComposedWallet(sys, request, s.now);
    AskInOneGo(sys, s, a, request, gap, NoFault);
    assert e[..3] == e;
    RunConcat(sys, s, e, [Tick(wait)]);
    RunOne(sys, Run(sys, s, e), Tick(wait));
  }

  /** The time from the challenge's cache entry to the reading of the challenge store. */
  function Age(wait: nat, pace: Pace): nat { wait + pace.toGet + pace.toSet + pace.toFetch }

  /** A fetch made up to 15 minutes after the writing of a challenge returns it; a later one finds nothing. */
  lemma ArrivalFinds(sys: System, s: State, c: CallId, wallet: string, pace: Pace, message: string, last: int)
    requires c !in s.fetches && IsHexAddress(NormalizeHex(wallet))
    requires var key := ChallengeKey(sys, NormalizeHex(wallet));
             key in s.entries && s.entries[key] == Entry(message, last)
    ensures var s' := Run(sys, s, FetchPart(c, wallet, pace));
            && c in s'.fetches && s'.checks == s.checks
            && (s.now + pace.toFetch <= last ==>
                  && s'.fetches[c].Returned? && s'.fetches[c].message == message
                  && s'.fetches[c].wallet == NormalizeHex(wallet))
            && (s.now + pace.toFetch > last ==> s'.fetches[c] == Failed(NotFound))
  {
    hide Apply, SiweKey, NormalizeHex, IsHexAddress;
    FetchInOneGo(sys, s, c, wallet, FetchWeather(pace.toFetch, false, NoFault));
    AllFetchSteps(sys, s, c, wallet, FetchWeather(pace.toFetch, false, NoFault));
  }

  /**
    Honest sign-in. In any state whatever, with any other requests under way: a client asks for
    a challenge and, after some time, presents it signed with its key, in a faultless call by
    "users", at any pace. The call passes if and only if the challenge's entry is at most 15
    minutes old when it is read, the payload is timely and unseen, and the wallet is the key's
    address in some letter case.
   */
  lemma HonestSignInPasses(sys: System, s: State, a: CallId, c: CallId, request: Request, gap: nat, wait: nat,
                           v: Envoy, pace: Pace, wallet: string, key: EW.PrivateKey, signature: string)
    requires Equipped(sys, v) && a !in s.asks && c !in s.checks && c !in s.fetches
    requires Compose(sys.web, sys.calendar, sys.config, request, s.now).Ok?
    requires NormalizeHex(wallet) == NormalizeHex(request.wallet)
    requires var challenge := Compose(sys.web, sys.calendar, sys.config, request, s.now).value;
             EW.SignMessage(sys.curve, key, challenge.message) == Some(signature)
    ensures Passes(sys, Run(sys, s, SignIn(sys, a, c, request, gap, wait, v, pace, wallet)), c, wallet, signature)
       <==> && Age(wait, pace) <= SM.EXPIRATION
            && Welcome(sys, Arrival(sys, s, a, request, gap, wait), v, pace)
            && ToLower(NormalizeHex(wallet)) == "0x" + EncodeHex(sys.curve.address(sys.curve.publicKey(key)))
  {
    hide Apply, SA.GeneratePayload, Compose, Welcome, EW.Check, EW.SignMessage, NormalizeHex, SiweKey, SM.Render;
    hide AskPart, CheckPart, FetchPart, FromUsers, IsHexAddress, ToLower, EncodeHex;
    var challenge := Compose(sys.web, sys.calendar, sys.config, request, s.now).value;
    var s1 := Arrival(sys, s, a, request, gap, wait);
    ArrivalHolds(sys, s, a, request, gap, wait);
    var s2 := Run(sys, s1, CheckPart(sys, c, v, pace));
    WelcomeReaches(sys, s1, c, v, pace);
    CheckKeepsChallenge(sys, s1, c, v, pace, NormalizeHex(wallet));
    var s3 := Run(sys, s2, FetchPart(c, wallet, pace));
    ArrivalFinds(sys, s2, c, wallet, pace, challenge.message, s.now + gap + SM.EXPIRATION);
    RunConcat(sys, s, AskPart(a, request, gap, wait), CheckPart(sys, c, v, pace));
    RunConcat(sys, s, AskPart(a, request, gap, wait) + CheckPart(sys, c, v, pace), FetchPart(c, wallet, pace));
    SameVerdict(s2, s3, c);
    EW.SignThenCheck(sys.curve, key, challenge.message, wallet);
  }

  lemma SameVerdict(s: State, s': State, c: CallId)
    requires s'.checks == s.checks
    ensures FromUsers(s', c) <==> FromUsers(s, c)
  {
  }
}
