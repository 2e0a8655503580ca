/**
  The auth service's use of the shared cache, in small steps: every reading of the clock and
  every cache call of a request is one event, and requests interleave freely. Three kinds of
  work share the cache: asking for a challenge, fetching one, and checking a service payload.
 */
module Protocol {
  import opened Wrappers
  import opened Text
  import opened Encoding
  import opened TtlCache
  import SA = ServiceAuthentication
  import SM = SiweMessage
  import opened Siwe
  import EthereumWallet

  /** The fixed surroundings of a run. */
  datatype System = System(ring: SA.Keyring, web: Web, calendar: SM.Calendar, config: Config,
                           curve: EthereumWallet.Curve)

  /** The number of a request; each kind of work of a request is done once. */
  type CallId = nat

  /** siwe.go, GenerateSIWEPayload: composed at one instant, written at a later one. */
  datatype Asking =
    | Composed(request: Request, at: int, challenge: Challenge)
    | Wrote(request: Request, at: int, challenge: Challenge, writtenAt: int, writeStep: nat)
    | Unasked

  /** siwe.go, FetchSIWEMessage: `origin` names the request whose message was read. */
  datatype Fetching =
    | Started(wallet: string)
    | Holding(wallet: string, message: string, origin: CallId, readAt: int, readStep: nat)
    | Returned(wallet: string, message: string, origin: CallId, readAt: int, readStep: nat, deleteStep: nat)
    | Failed(why: Refusal)

  /** service_authentication.go, authenticateService: the checks, the cache's reading, its writing. */
  datatype Checking =
    | Checked(text: string, at: int)
    | Unseen(text: string, at: int, readAt: int, readStep: nat)
    | Admitted(text: string, at: int, readAt: int, readStep: nat, writtenAt: int, writeStep: nat)
    | Refused(why: SA.Refusal)

  /** A challenge on record: the request that asked for it, its message and its last instant. */
  datatype Record = Record(asked: CallId, message: string, expiresAt: int)

  /**
    The cache, the clock and what has become of every request. `pending` is the simple form
    of the challenge store, one challenge per wallet; `step` counts events.
   */
  datatype State = State(entries: Entries, now: int, step: nat, asks: map<CallId, Asking>,
                         checks: map<CallId, Checking>, fetches: map<CallId, Fetching>, pending: map<string, Record>)

  datatype Event =
    | Tick(nanos: nat)
    | StartAsk(call: CallId, request: Request)
    | WriteChallenge(call: CallId, fault: Fault)
    | StartCheck(call: CallId, payload: Option<string>)
    | ReadSeen(call: CallId, fails: bool)
    | WriteSeen(call: CallId, fault: Fault)
    | StartFetch(call: CallId, wallet: string)
    | ReadChallenge(call: CallId, fails: bool)
    | DeleteChallenge(call: CallId, fault: Fault)

  const ALLOWED_SERVICE := "users"

  /** The fields of a payload text; the empty ones for a text that does not split. */
  function PayloadOf(text: string): SA.Payload {
    if SA.SplitPayload(text).Some? then SA.SplitPayload(text).value else SA.Payload("", "", "", "")
  }

  function SeenKey(text: string): string { ServiceKey(PayloadOf(text).name, PayloadOf(text).signature) }

  function ChallengeKey(sys: System, wallet: string): string { SiweKey(sys.config.serviceName, wallet) }

  /* ---------- Steps ---------- */

  /** siwe.go, lines 69 to 117 */
  function DoStartAsk(sys: System, s: State, call: CallId, request: Request): State {
    if call in s.asks then s
    else
      match Compose(sys.web, sys.calendar, sys.config, request, s.now)
      case Err(_) => s.(asks := s.asks[call := Unasked])
      case Ok(c) => s.(asks := s.asks[call := Composed(request, s.now, c)])
  }

  /** siwe.go, lines 119 to 123 */
  function DoWriteChallenge(sys: System, s: State, call: CallId, fault: Fault): State {
    if call !in s.asks || !s.asks[call].Composed? then s
    else if fault.FailsBefore? then s.(asks := s.asks[call := Unasked])
    else
      var a := s.asks[call];
      var last := s.now + SM.EXPIRATION;
      s.(entries := Put(s.entries, ChallengeKey(sys, a.challenge.wallet), a.challenge.message, last, fault),
         asks := s.asks[call := Wrote(a.request, a.at, a.challenge, s.now, s.step)],
         pending := s.pending[a.challenge.wallet := Record(call, a.challenge.message, last)])
  }

  /** service_authentication.go, lines 34 to 107 */
  function DoStartCheck(sys: System, s: State, call: CallId, payload: Option<string>): State {
    if call in s.checks then s
    else
      match SA.Inspect(sys.ring, payload, s.now)
      case Err(why) => s.(checks := s.checks[call := Refused(why)])
      case Ok(_) => s.(checks := s.checks[call := Checked(payload.value, s.now)])
  }

  /** service_authentication.go, lines 109 to 120 */
  function DoReadSeen(s: State, call: CallId, fails: bool): State {
    if call !in s.checks || !s.checks[call].Checked? then s
    else
      var c := s.checks[call];
      var next :=
        if fails then Refused(SA.CacheUnreadable)
        else if Lookup(s.entries, SeenKey(c.text), s.now).Some? then Refused(SA.AlreadySeen)
        else Unseen(c.text, c.at, s.now, s.step);
      s.(checks := s.checks[call := next])
  }

  /** service_authentication.go, lines 122 to 129 */
  function DoWriteSeen(s: State, call: CallId, fault: Fault): State {
    if call !in s.checks || !s.checks[call].Unseen? then s
    else
      var c := s.checks[call];
      var next := if fault.NoFault? then Admitted(c.text, c.at, c.readAt, c.readStep, s.now, s.step)
                  else Refused(SA.CacheUnwritable);
      var last := s.now + SA.PAYLOAD_DURATION;
      s.(entries := Put(s.entries, SeenKey(c.text), PayloadOf(c.text).signature, last, fault),
         checks := s.checks[call := next])
  }

  /** siwe.go, lines 142 to 147 */
  function DoStartFetch(s: State, call: CallId, wallet: string): State {
    if call in s.fetches then s
    else
      var w := NormalizeHex(wallet);
      s.(fetches := s.fetches[call := if IsHexAddress(w) then Started(w) else Failed(BadWallet)])
  }

  function OriginOf(s: State, wallet: string): CallId { if wallet in s.pending then s.pending[wallet].asked else 0 }

  /** siwe.go, lines 149 to 161 */
  function DoReadChallenge(sys: System, s: State, call: CallId, fails: bool): State {
    if call !in s.fetches || !s.fetches[call].Started? then s
    else
      var w := s.fetches[call].wallet;
      var next :=
        if fails then Failed(CacheFailed)
        else
          match Lookup(s.entries, ChallengeKey(sys, w), s.now)
          case None => Failed(NotFound)
          case Some(message) => Holding(w, message, OriginOf(s, w), s.now, s.step);
      s.(fetches := s.fetches[call := next])
  }

  /** siwe.go, lines 163 to 168: whatever the key holds by now is deleted. */
  function DoDeleteChallenge(sys: System, s: State, call: CallId, fault: Fault): State {
    if call !in s.fetches || !s.fetches[call].Holding? then s
    else
      var f := s.fetches[call];
      var next := if fault.NoFault? then Returned(f.wallet, f.message, f.origin, f.readAt, f.readStep, s.step)
                  else Failed(CacheFailed);
      s.(entries := Drop(s.entries, ChallengeKey(sys, f.wallet), fault),
         fetches := s.fetches[call := next],
         pending := if fault.FailsBefore? then s.pending else s.pending - {f.wallet})
  }

  function Act(sys: System, s: State, e: Event): State {
    match e
    case Tick(nanos) => s.(now := s.now + nanos)
    case StartAsk(call, request) => DoStartAsk(sys, s, call, request)
    case WriteChallenge(call, fault) => DoWriteChallenge(sys, s, call, fault)
    case StartCheck(call, payload) => DoStartCheck(sys, s, call, payload)
    case ReadSeen(call, fails) => DoReadSeen(s, call, fails)
    case WriteSeen(call, fault) => DoWriteSeen(s, call, fault)
    case StartFetch(call, wallet) => DoStartFetch(s, call, wallet)
    case ReadChallenge(call, fails) => DoReadChallenge(sys, s, call, fails)
    case DeleteChallenge(call, fault) => DoDeleteChallenge(sys, s, call, fault)
  }

  function Apply(sys: System, s: State, e: Event): State { Act(sys, s, e).(step := s.step + 1) }

  function Run(sys: System, s: State, events: seq<Event>): State
    decreases |events|
  {
    if events == [] then s else Run(sys, Apply(sys, s, events[0]), events[1..])
  }

  /** A service that has just come up, at any time. */
  predicate Initial(s: State) {
    s.entries == map[] && s.asks == map[] && s.checks == map[] && s.fetches == map[] && s.pending == map[]
  }

  lemma {:induction false} RunConcat(sys: System, s: State, a: seq<Event>, b: seq<Event>)
    ensures Run(sys, s, a + b) == Run(sys, Run(sys, s, a), b)
    decreases |a|
  {
    if a == [] {
      assert a + b == b;
    } else {
      assert (a + b)[0] == a[0] && (a + b)[1..] == a[1..] + b;
      RunConcat(sys, Apply(sys, s, a[0]), a[1..], b);
    }
  }

  lemma RunOne(sys: System, s: State, e: Event)
    ensures Run(sys, s, [e]) == Apply(sys, s, e)
  {
    assert [e][1..] == [];
    assert Run(sys, s, [e]) == Run(sys, Apply(sys, s, e), [e][1..]);
  }

  lemma RunTwo(sys: System, s: State, e1: Event, e2: Event)
    ensures Run(sys, s, [e1, e2]) == Apply(sys, Apply(sys, s, e1), e2)
  {
    assert [e1, e2] == [e1] + [e2];
    RunConcat(sys, s, [e1], [e2]);
    RunOne(sys, s, e1);
    RunOne(sys, Apply(sys, s, e1), e2);
  }

  lemma RunThree(sys: System, s: State, e1: Event, e2: Event, e3: Event)
    ensures Run(sys, s, [e1, e2, e3]) == Apply(sys, Apply(sys, Apply(sys, s, e1), e2), e3)
  {
    assert [e1, e2, e3] == [e1, e2] + [e3];
    RunConcat(sys, s, [e1, e2], [e3]);
    RunTwo(sys, s, e1, e2);
    RunOne(sys, Apply(sys, Apply(sys, s, e1), e2), e3);
  }

  /* ---------- What Authenticate makes of it ---------- */

  /** The call's payload was admitted under the one allowed name. */
  predicate FromUsers(s: State, call: CallId) {
    && call in s.checks && s.checks[call].Admitted?
    && CanonicalName(PayloadOf(s.checks[call].text).name) == ALLOWED_SERVICE
  }

  /** rpc_authenticate.go, lines 47 to 69: admitted, a message fetched, and the signature good for it. */
  predicate Passes(sys: System, s: State, call: CallId, wallet: string, signature: string) {
    && FromUsers(s, call)
    && call in s.fetches && s.fetches[call].Returned? && s.fetches[call].wallet == NormalizeHex(wallet)
    && EthereumWallet.Check(sys.curve, wallet, s.fetches[call].message, signature).Ok?
  }
}
