/**
  A request that nobody interrupts: its cache calls, as the service makes them in one go, are
  a run of the cache protocol's steps.
 */
module CacheCalls {
  import opened Wrappers
  import opened Text
  import opened Encoding
  import opened TtlCache
  import SA = ServiceAuthentication
  import opened Siwe
  import EthereumWallet
  import opened Protocol

  lemma RunPrefix(sys: System, s: State, a: seq<Event>, n: nat)
    requires n <= |a|
    ensures Run(sys, s, a) == Run(sys, Run(sys, s, a[..n]), a[n..])
  {
    assert a == a[..n] + a[n..];
    RunConcat(sys, s, a[..n], a[n..]);
  }

  /* ---------- Asking for a challenge ---------- */

  function AskSteps(call: CallId, request: Request, gap: nat, fault: Fault): seq<Event> {
    [StartAsk(call, request), Tick(gap), WriteChallenge(call, fault)]
  }

  /** A request that is refused stops at its first step. */
  function AskLength(sys: System, s: State, request: Request): nat {
    if Compose(sys.web, sys.calendar, sys.config, request, s.now).Ok? then 3 else 1
  }

  /** GenerateSIWEPayload in one go. */
  lemma AskInOneGo(sys: System, s: State, call: CallId, request: Request, gap: nat, fault: Fault)
    requires call !in s.asks
    ensures var s' := Run(sys, s, AskSteps(call, request, gap, fault)[..AskLength(sys, s, request)]);
            var o := Issue(sys.web, sys.calendar, sys.config, s.entries, request, s.now, gap, fault);
            && s'.entries == o.entries && s'.now == o.later && s'.checks == s.checks && s'.fetches == s.fetches
            && call in s'.asks
            && (o.answer.Ok? ==> s'.asks[call].Wrote? && s'.asks[call].challenge == o.answer.value
                                 && s'.asks[call].writtenAt == s.now + gap)
  {
    hide Compose, SiweKey;
    var e := AskSteps(call, request, gap, fault);
    if Compose(sys.web, sys.calendar, sys.config, request, s.now).Ok? {
      assert e[..3] == [e[0], e[1], e[2]];
      RunThree(sys, s, e[0], e[1], e[2]);
    } else {
      assert e[..1] == [e[0]];
      RunOne(sys, s, e[0]);
    }
  }

  /* ---------- Checking a service payload ---------- */

  function CheckSteps(call: CallId, payload: Option<string>, weather: SA.Weather): (e: seq<Event>)
    ensures |e| == 5
  {
    [StartCheck(call, payload), Tick(weather.getGap), ReadSeen(call, weather.getFails), Tick(weather.setGap),
     WriteSeen(call, weather.setFault)]
  }

  /** How many of the steps a call takes: to its inspection, to its reading, or to its writing. */
  function CheckLength(sys: System, s: State, payload: Option<string>, weather: SA.Weather): (n: nat)
    ensures n == 1 || n == 3 || n == 5
  {
    match SA.Inspect(sys.ring, payload, s.now)
    case Err(_) => 1
    case Ok(p) =>
      var found := Lookup(s.entries, ServiceKey(p.name, p.signature), s.now + weather.getGap).Some?;
      if weather.getFails || found then 3 else 5
  }

  /** The check's verdict, at the cache as it is then. */
  predicate Concludes(s: State, call: CallId, a: SA.Admission) {
    && call in s.checks && s.entries == a.entries && s.now == a.later
    && match a.service
       case Err(why) => s.checks[call] == Refused(why)
       case Ok(name) => s.checks[call].Admitted? && name == CanonicalName(PayloadOf(s.checks[call].text).name)
  }

  lemma InspectedFields(ring: SA.Keyring, payload: Option<string>, now: int)
    requires SA.Inspect(ring, payload, now).Ok?
    ensures payload.Some? && SA.Inspect(ring, payload, now) == Ok(PayloadOf(payload.value))
  {
  }

  lemma CheckReads(sys: System, s: State, call: CallId, payload: Option<string>, weather: SA.Weather)
    requires call !in s.checks && SA.Inspect(sys.ring, payload, s.now).Ok?
    ensures payload.Some?
    ensures var p, read := PayloadOf(payload.value), s.now + weather.getGap;
            var next := if weather.getFails then Refused(SA.CacheUnreadable)
                        else if Lookup(s.entries, ServiceKey(p.name, p.signature), read).Some?
                        then Refused(SA.AlreadySeen)
                        else Unseen(payload.value, s.now, read, s.step + 2);
            && SA.Inspect(sys.ring, payload, s.now) == Ok(p)
            && Run(sys, s, CheckSteps(call, payload, weather)[..3])
                 == s.(now := read, step := s.step + 3, checks := s.checks[call := next])
  {
    hide SA.Inspect, ServiceKey, PayloadOf;
    var e := CheckSteps(call, payload, weather);
    InspectedFields(sys.ring, payload, s.now);
    assert e[..3] == [e[0], e[1], e[2]];
    RunThree(sys, s, e[0], e[1], e[2]);
  }

  lemma CheckWrites(sys: System, s: State, call: CallId, weather: SA.Weather)
    requires call in s.checks && s.checks[call].Unseen?
    ensures var c, p, written := s.checks[call], PayloadOf(s.checks[call].text), s.now + weather.setGap;
            var next := if weather.setFault.NoFault?
                        then Admitted(c.text, c.at, c.readAt, c.readStep, written, s.step + 1)
                        else Refused(SA.CacheUnwritable);
            Run(sys, s, [Tick(weather.setGap), WriteSeen(call, weather.setFault)])
              == s.(now := written, step := s.step + 2, checks := s.checks[call := next],
                    entries := Put(s.entries, ServiceKey(p.name, p.signature), p.signature,
                                   written + SA.PAYLOAD_DURATION, weather.setFault))
  {
    hide ServiceKey, PayloadOf;
    RunTwo(sys, s, Tick(weather.setGap), WriteSeen(call, weather.setFault));
  }

  /** A call that comes to its writing. */
  lemma CheckToTheEnd(sys: System, s: State, call: CallId, payload: Option<string>, weather: SA.Weather)
    requires call !in s.checks && CheckLength(sys, s, payload, weather) == 5
    ensures var s' := Run(sys, s, CheckSteps(call, payload, weather));
            && Concludes(s', call, SA.Admit(sys.ring, s.entries, payload, s.now, weather))
            && s'.asks == s.asks && s'.fetches == s.fetches && s'.pending == s.pending
  {
    hide SA.Inspect, ServiceKey, PayloadOf, CanonicalName, Apply;
    var e := CheckSteps(call, payload, weather);
    CheckReads(sys, s, call, payload, weather);
    var s3 := Run(sys, s, e[..3]);
    CheckWrites(sys, s3, call, weather);
    assert e[3..] == [Tick(weather.setGap), WriteSeen(call, weather.setFault)];
    RunPrefix(sys, s, e, 3);
  }

  /** authenticateService in one go. */
  lemma CheckInOneGo(sys: System, s: State, call: CallId, payload: Option<string>, weather: SA.Weather)
    requires call !in s.checks
    ensures var s' := Run(sys, s, CheckSteps(call, payload, weather)[..CheckLength(sys, s, payload, weather)]);
            && Concludes(s', call, SA.Admit(sys.ring, s.entries, payload, s.now, weather))
            && s'.asks == s.asks && s'.fetches == s.fetches && s'.pending == s.pending
  {
    hide SA.Inspect, ServiceKey, PayloadOf, CanonicalName;
    var e := CheckSteps(call, payload, weather);
    if CheckLength(sys, s, payload, weather) == 5 {
      CheckToTheEnd(sys, s, call, payload, weather);
      assert e[..5] == e;
    } else if CheckLength(sys, s, payload, weather) == 3 {
      CheckReads(sys, s, call, payload, weather);
    } else {
      assert e[..1] == [e[0]];
      RunOne(sys, s, e[0]);
    }
  }

  /** The steps that are left after a verdict do nothing but pass the time. */
  lemma IdleCheckSteps(sys: System, s: State, call: CallId, weather: SA.Weather)
    requires call in s.checks && s.checks[call].Refused?
    ensures var a := Run(sys, s, [Tick(weather.getGap), ReadSeen(call, weather.getFails)]);
            var b := Run(sys, s, [Tick(weather.setGap), WriteSeen(call, weather.setFault)]);
            && a == s.(now := s.now + weather.getGap, step := s.step + 2)
            && b == s.(now := s.now + weather.setGap, step := s.step + 2)
  {
    RunTwo(sys, s, Tick(weather.getGap), ReadSeen(call, weather.getFails));
    RunTwo(sys, s, Tick(weather.setGap), WriteSeen(call, weather.setFault));
  }

  /** Taking all the steps changes nothing about a verdict that came early, but the time. */
  lemma AllCheckSteps(sys: System, s: State, call: CallId, payload: Option<string>, weather: SA.Weather)
    requires call !in s.checks
    ensures var e, n := CheckSteps(call, payload, weather), CheckLength(sys, s, payload, weather);
            var short, all := Run(sys, s, e[..n]), Run(sys, s, e);
            && all.checks == short.checks && all.entries == short.entries && (n == 5 ==> all == short)
            && all.asks == s.asks && all.fetches == s.fetches && all.pending == s.pending
  {
    hide Apply, SA.Admit, Lookup;
    var e, n := CheckSteps(call, payload, weather), CheckLength(sys, s, payload, weather);
    CheckInOneGo(sys, s, call, payload, weather);
    var short := Run(sys, s, e[..n]);
    RunPrefix(sys, s, e, n);
    if n == 5 {
      assert e[..5] == e;
    } else {
      EarlyVerdictRefuses(sys, s, call, payload, weather);
      IdleCheckSteps(sys, short, call, weather);
      if n == 3 {
        assert e[3..] == [e[3], e[4]];
      } else {
        assert e[1..] == [e[1], e[2]] + [e[3], e[4]];
        RunConcat(sys, short, [e[1], e[2]], [e[3], e[4]]);
        IdleCheckSteps(sys, Run(sys, short, [e[1], e[2]]), call, weather);
      }
    }
  }

  lemma EarlyVerdictRefuses(sys: System, s: State, call: CallId, payload: Option<string>, weather: SA.Weather)
    requires CheckLength(sys, s, payload, weather) != 5
    ensures SA.Admit(sys.ring, s.entries, payload, s.now, weather).service.Err?
  {
    hide SA.Inspect, ServiceKey;
  }

  /* ---------- Fetching a challenge ---------- */

  function FetchSteps(call: CallId, wallet: string, weather: FetchWeather): (e: seq<Event>)
    ensures |e| == 4
  {
    [StartFetch(call, wallet), Tick(weather.getGap), ReadChallenge(call, weather.getFails),
     DeleteChallenge(call, weather.delFault)]
  }

  function FetchLength(sys: System, s: State, wallet: string, weather: FetchWeather): (n: nat)
    ensures n == 1 || n == 3 || n == 4
  {
    var w := NormalizeHex(wallet);
    if !IsHexAddress(w) then 1
    else if weather.getFails || Lookup(s.entries, ChallengeKey(sys, w), s.now + weather.getGap).None? then 3
    else 4
  }

  /** The fetch's answer, at the cache as it is then. */
  predicate Answers(s: State, call: CallId, wallet: string, o: Outcome<string>) {
    && call in s.fetches && s.entries == o.entries && s.now == o.later
    && match o.answer
       case Err(why) => s.fetches[call] == Failed(why)
       case Ok(message) => s.fetches[call].Returned? && s.fetches[call].message == message
                           && s.fetches[call].wallet == NormalizeHex(wallet)
  }

  lemma FetchReads(sys: System, s: State, call: CallId, wallet: string, weather: FetchWeather)
    requires call !in s.fetches && IsHexAddress(NormalizeHex(wallet))
    ensures var w, read := NormalizeHex(wallet), s.now + weather.getGap;
            var next := if weather.getFails then Failed(CacheFailed)
                        else match Lookup(s.entries, ChallengeKey(sys, w), read)
                             case None => Failed(NotFound)
                             case Some(message) => Holding(w, message, OriginOf(s, w), read, s.step + 2);
            Run(sys, s, FetchSteps(call, wallet, weather)[..3])
              == s.(now := read, step := s.step + 3, fetches := s.fetches[call := next])
  {
    hide NormalizeHex, IsHexAddress, SiweKey;
    var e := FetchSteps(call, wallet, weather);
    assert e[..3] == [e[0], e[1], e[2]];
    RunThree(sys, s, e[0], e[1], e[2]);
  }

  lemma FetchToTheEnd(sys: System, s: State, call: CallId, wallet: string, weather: FetchWeather)
    requires call !in s.fetches && FetchLength(sys, s, wallet, weather) == 4
    ensures var s' := Run(sys, s, FetchSteps(call, wallet, weather));
            && Answers(s', call, wallet, Fetch(sys.config, s.entries, wallet, s.now, weather))
            && s'.asks == s.asks && s'.checks == s.checks
  {
    hide NormalizeHex, IsHexAddress, SiweKey;
    var e := FetchSteps(call, wallet, weather);
    FetchReads(sys, s, call, wallet, weather);
    assert e[3..] == [e[3]];
    RunPrefix(sys, s, e, 3);
    RunOne(sys, Run(sys, s, e[..3]), e[3]);
  }

  /** FetchSIWEMessage in one go. */
  lemma FetchInOneGo(sys: System, s: State, call: CallId, wallet: string, weather: FetchWeather)
    requires call !in s.fetches
    ensures var s' := Run(sys, s, FetchSteps(call, wallet, weather)[..FetchLength(sys, s, wallet, weather)]);
            && Answers(s', call, wallet, Fetch(sys.config, s.entries, wallet, s.now, weather))
            && s'.asks == s.asks && s'.checks == s.checks
  {
    hide NormalizeHex, IsHexAddress, SiweKey;
    var e, n := FetchSteps(call, wallet, weather), FetchLength(sys, s, wallet, weather);
    if n == 1 {
      assert e[..1] == [e[0]];
      RunOne(sys, s, e[0]);
    } else if n == 3 {
      FetchReads(sys, s, call, wallet, weather);
    } else {
      assert e[..4] == e;
      FetchToTheEnd(sys, s, call, wallet, weather);
    }
  }

  /** Taking all the steps changes nothing about an answer that came early, but the time. */
  lemma AllFetchSteps(sys: System, s: State, call: CallId, wallet: string, weather: FetchWeather)
    requires call !in s.fetches
    ensures var e, n := FetchSteps(call, wallet, weather), FetchLength(sys, s, wallet, weather);
            var short, all := Run(sys, s, e[..n]), Run(sys, s, e);
            && all.fetches == short.fetches && all.entries == short.entries && all.checks == short.checks
  {
    hide NormalizeHex, IsHexAddress, SiweKey;
    var e, n := FetchSteps(call, wallet, weather), FetchLength(sys, s, wallet, weather);
    FetchInOneGo(sys, s, call, wallet, weather);
    var short := Run(sys, s, e[..n]);
    RunPrefix(sys, s, e, n);
    if n == 4 {
      assert e[..4] == e && e[4..] == [];
    } else if n == 3 {
      assert e[3..] == [e[3]];
      RunOne(sys, short, e[3]);
    } else {
      assert e[1..] == [e[1], e[2], e[3]];
      RunThree(sys, short, e[1], e[2], e[3]);
    }
  }

  /* ---------- The checks of Authenticate ---------- */

  datatype Answer = Denied | NoChallenge(why: Refusal) | BadSignature | Verified

  /** The protocol's state when nothing but the cache and the clock is known. */
  function Quiet(entries: Entries, now: int): State { State(entries, now, 0, map[], map[], map[], map[]) }

  /** The number of the one call that runs. */
  const ME: CallId := 0

  /** The steps of one call of Authenticate, as far as it comes. */
  function AuthenticateSteps(sys: System, s: State, payload: Option<string>, weather: SA.Weather, wallet: string,
                             fetch: FetchWeather): seq<Event>
  {
    var check := CheckSteps(ME, payload, weather)[..CheckLength(sys, s, payload, weather)];
    var screened := Run(sys, s, check);
    if !FromUsers(screened, ME) then check
    else check + FetchSteps(ME, wallet, fetch)[..FetchLength(sys, screened, wallet, fetch)]
  }

  /**
    A call that is verified, in terms of what it brings and what the cache holds: its payload p
    passes and is of "users", a challenge of its wallet is found after that and deleted, and
    the signature is good for it.
   */
  predicate Authentic(sys: System, entries: Entries, now: int, payload: Option<string>, weather: SA.Weather,
                      wallet: string, signature: string, fetch: FetchWeather, p: SA.Payload)
  {
    && payload == Some(SA.TextOf(p)) && SA.Passes(sys.ring, entries, p, now, weather)
    && ToLower(TrimSpace(p.name)) == "users"
    && var later := now + weather.getGap + weather.setGap;
       var left := SA.Remembered(entries, p, later);
       var key := sys.config.serviceName + "-siwe-message:" + NormalizeHex(wallet);
       && Finds(sys.config, left, wallet, later, fetch) && fetch.delFault.NoFault?
       && EthereumWallet.Check(sys.curve, wallet, left[key].value, signature).Ok?
  }

  lemma AuthenticExact(sys: System, entries: Entries, now: int, payload: Option<string>, weather: SA.Weather,
                       wallet: string, signature: string, fetch: FetchWeather)
    ensures var a := SA.Admit(sys.ring, entries, payload, now, weather);
            var o := Fetch(sys.config, a.entries, wallet, a.later, fetch);
            (exists p :: Authentic(sys, entries, now, payload, weather, wallet, signature, fetch, p)) <==>
              && a.service == Ok(ALLOWED_SERVICE) && o.answer.Ok?
              && EthereumWallet.Check(sys.curve, wallet, o.answer.value, signature).Ok?
  {
    hide SA.Admit, Fetch, EthereumWallet.Check, SA.TextOf, SA.Passes, Finds, NormalizeHex, ToLower, TrimSpace;
    hide SA.Remembered;
    var a := SA.Admit(sys.ring, entries, payload, now, weather);
    SA.AdmitExact(sys.ring, entries, payload, now, weather);
    FetchExact(sys.config, a.entries, wallet, a.later, fetch);
    if a.service == Ok(ALLOWED_SERVICE) {
      var p :| payload == Some(SA.TextOf(p)) && SA.Passes(sys.ring, entries, p, now, weather);
      if Fetch(sys.config, a.entries, wallet, a.later, fetch).answer.Ok? {
        FindsKey(sys.config, a.entries, wallet, a.later, fetch);
        if EthereumWallet.Check(sys.curve, wallet, Fetch(sys.config, a.entries, wallet, a.later, fetch).answer.value,
                                signature).Ok? {
          assert Authentic(sys, entries, now, payload, weather, wallet, signature, fetch, p);
        }
      }
    }
  }

  lemma FindsKey(config: Config, entries: Entries, wallet: string, now: int, weather: FetchWeather)
    requires Finds(config, entries, wallet, now, weather)
    ensures config.serviceName + "-siwe-message:" + NormalizeHex(wallet) in entries
  {
  }

  /**
    rpc_authenticate.go, lines 32 to 69, in one go: middleware and handler as far as the signature
    check. Cache and time are those after the call's steps, and the call is verified exactly
    when it passes there.
   */
  method CheckAuthenticate(sys: System, cache: Cache, now: int, payload: Option<string>, weather: SA.Weather,
                           wallet: string, signature: string, fetch: FetchWeather)
    returns (answer: Answer, later: int)
    modifies cache
    ensures var start := Quiet(old(cache.entries), now);
            var s := Run(sys, start, AuthenticateSteps(sys, start, payload, weather, wallet, fetch));
            && cache.entries == s.entries && later == s.now
            && (answer.Denied? <==> !FromUsers(s, ME))
            && (answer.NoChallenge? ==> ME in s.fetches && s.fetches[ME] == Failed(answer.why))
            && (answer.Verified? <==> Passes(sys, s, ME, wallet, signature))
    ensures answer.Verified? <==> exists p ::
      Authentic(sys, old(cache.entries), now, payload, weather, wallet, signature, fetch, p)
  {
    hide SA.Admit, Fetch, EthereumWallet.Check, CheckSteps, FetchSteps, CheckLength, FetchLength, Apply, NormalizeHex;
    hide Authentic;
    ghost var start := Quiet(cache.entries, now);
    AuthenticExact(sys, cache.entries, now, payload, weather, wallet, signature, fetch);
    CheckInOneGo(sys, start, ME, payload, weather);
    ghost var check := CheckSteps(ME, payload, weather)[..CheckLength(sys, start, payload, weather)];
    ghost var screenedState := Run(sys, start, check);
    var service, screened := SA.AuthenticateService(sys.ring, cache, payload, now, weather);
    if service != Ok(ALLOWED_SERVICE) {
      return Denied, screened;
    }
    FetchInOneGo(sys, screenedState, ME, wallet, fetch);
    RunConcat(sys, start, check, FetchSteps(ME, wallet, fetch)[..FetchLength(sys, screenedState, wallet, fetch)]);
    var message, fetched := FetchMessage(sys.config, cache, wallet, screened, fetch);
    if message.Err? {
      return NoChallenge(message.error), fetched;
    }
    var verdict := EthereumWallet.IsSignatureValid(sys.curve, wallet, message.value, signature);
    if verdict.Err? {
      return BadSignature, fetched;
    }
    return Verified, fetched;
  }
}
