/**
  What holds over every run of the cache protocol, however requests interleave: payloads are
  accepted once in their time, and each success agrees with an earlier request of its own.
 */
module Agreement {
  import opened Wrappers
  import opened Text
  import opened Encoding
  import opened TtlCache
  import SA = ServiceAuthentication
  import SM = SiweMessage
  import opened Siwe
  import EthereumWallet
  import opened Protocol
  import opened CacheSafety
  import opened Challenges

  /* ---------- Service payloads ---------- */

  predicate Accepted(s: State, k: CallId) { k in s.checks && s.checks[k].Admitted? }

  /** The instant a payload text is dated, zero for texts that carry no date. */
  function DatedAt(text: string): int {
    var millis := ParseInt64(PayloadOf(text).timestamp);
    if millis.None? then 0 else SA.Dated(millis.value)
  }

  /** From its acceptance on, a signature stays in the cache for a payload's duration, whatever else happens. */
  lemma AcceptedIsRemembered(sys: System, s0: State, events: seq<Event>, k: CallId)
    requires Initial(s0) && Accepted(Run(sys, s0, events), k)
    ensures var s := Run(sys, s0, events);
            && ':' !in PayloadOf(s.checks[k].text).signature
            && Keeps(s.entries, SeenKey(s.checks[k].text), s.checks[k].writtenAt + SA.PAYLOAD_DURATION)
  {
    Reachable(sys, s0, events);
    var s := Run(sys, s0, events);
    assert CheckOk(sys, s, s.checks[k]);
  }

  /** Inspection looks at the clock only to see that the payload is fresh. */
  lemma InspectAtAnotherTime(ring: SA.Keyring, text: string, now: int, later: int)
    requires SA.Inspect(ring, Some(text), now).Ok?
    ensures now <= DatedAt(text) + SA.PAYLOAD_DURATION
    ensures SA.Inspect(ring, Some(text), later).Ok? <==> later <= DatedAt(text) + SA.PAYLOAD_DURATION
    ensures SA.Inspect(ring, Some(text), later).Ok? ==>
              SA.Inspect(ring, Some(text), later) == SA.Inspect(ring, Some(text), now)
  {
  }

  /** Check j read the cache after check i had written it. */
  predicate Follows(i: Checking, j: Checking)
    requires i.Admitted? && j.Admitted?
  {
    i.writeStep < j.readStep
  }

  /**
    The entry of acceptance i outlives what j had for its payload: the date of i's payload,
    plus the time j took from its freshness check to the cache, is no later than i's writing.
   */
  predicate Covers(i: Checking, j: Checking)
    requires i.Admitted? && j.Admitted?
  {
    DatedAt(i.text) + (j.readAt - j.at) <= i.writtenAt
  }

  /**
    Accepted at most once. Of two acceptances whose cache calls do not overlap, the window
    that opens at the payload's date closes no later than the entry written by the first.
   */
  lemma AcceptedAtMostOnce(sys: System, s0: State, events: seq<Event>, i: CallId, j: CallId)
    requires Initial(s0) && Accepted(Run(sys, s0, events), i) && Accepted(Run(sys, s0, events), j)
    requires var s := Run(sys, s0, events); Follows(s.checks[i], s.checks[j]) && Covers(s.checks[i], s.checks[j])
    ensures var s := Run(sys, s0, events); s.checks[i].text != s.checks[j].text
  {
    Reachable(sys, s0, events);
    FollowersDiffer(sys, Run(sys, s0, events), i, j);
  }

  lemma FollowersDiffer(sys: System, s: State, i: CallId, j: CallId)
    requires Sound(sys, s) && Accepted(s, i) && Accepted(s, j)
    requires Follows(s.checks[i], s.checks[j]) && Covers(s.checks[i], s.checks[j])
    ensures s.checks[i].text != s.checks[j].text
  {
    hide SA.Inspect, CellsRefined, FetchesOk, DeletionsHold, AsksOk, SeenKept, SeenBrief, ServiceKey;
    assert Spaced(s.checks[i], s.checks[j]);
    assert CheckOk(sys, s, s.checks[j]);
    InspectAtAnotherTime(sys.ring, s.checks[j].text, s.checks[j].at, s.checks[j].at);
  }

  /* ---------- Injective agreement ---------- */

  /**
    Request k asked for the very message that the call signed: an earlier request for the same
    normalised wallet, still in the time of its cache entry, with the signature recovering the
    wallet over that message, presented by the service "users".
   */
  predicate Agrees(sys: System, s: State, call: CallId, wallet: string, signature: string, k: CallId) {
    && FromUsers(s, call) && call in s.fetches && s.fetches[call].Returned? && Written(s, k)
    && var a, f := s.asks[k], s.fetches[call];
       && Compose(sys.web, sys.calendar, sys.config, a.request, a.at) == Ok(a.challenge)
       && NormalizeHex(a.request.wallet) == NormalizeHex(wallet)
       && a.writeStep < f.readStep && f.readAt <= a.writtenAt + SM.EXPIRATION
       && EthereumWallet.Check(sys.curve, wallet, a.challenge.message, signature).Ok?
  }

  lemma PassAgrees(sys: System, s: State, call: CallId, wallet: string, signature: string)
    requires Sound(sys, s) && Passes(sys, s, call, wallet, signature)
    ensures Agrees(sys, s, call, wallet, signature, s.fetches[call].origin)
  {
    hide NormalizeHex, IsHexAddress, Compose, EthereumWallet.Check, SA.Inspect, CellsRefined, DeletionsHold, FromUsers;
    var f := s.fetches[call];
    assert FetchOk(s, f);
    assert AskOk(sys, s, s.asks[f.origin]);
  }

  /**
    Two successes stem from one challenge only if their fetches overlap, and from one payload
    text only if the second does not read the cache after the first has written it, or
    outlasts the first one's entry.
   */
  predicate Apart(s: State, i: CallId, j: CallId)
    requires Accepted(s, i) && Accepted(s, j)
    requires i in s.fetches && j in s.fetches && s.fetches[i].Returned? && s.fetches[j].Returned?
  {
    && (!Overlap(s.fetches[i], s.fetches[j]) ==> s.fetches[i].origin != s.fetches[j].origin)
    && (Follows(s.checks[i], s.checks[j]) && Covers(s.checks[i], s.checks[j]) ==> s.checks[i].text != s.checks[j].text)
  }

  lemma PassesApart(sys: System, s: State, i: CallId, j: CallId)
    requires Sound(sys, s) && Accepted(s, i) && Accepted(s, j)
    requires i in s.fetches && j in s.fetches && s.fetches[i].Returned? && s.fetches[j].Returned?
    ensures Apart(s, i, j)
  {
    hide CellsRefined, FetchesOk, AsksOk, ChecksOk, SeenKept, SeenBrief, ReadsSpaced;
    if s.fetches[i].origin == s.fetches[j].origin {
      assert DeletedForGood(s, i) && DeletedForGood(s, j);
      assert HasRead(s.fetches[i]) && HasRead(s.fetches[j]);
    }
    if Follows(s.checks[i], s.checks[j]) && Covers(s.checks[i], s.checks[j]) {
      FollowersDiffer(sys, s, i, j);
    }
  }

  /**
    Injective agreement. In every run, however requests interleave: each call of Authenticate
    that passes its checks goes back to an earlier request it agrees with and to an accepted
    payload of "users"; two calls share the request only if their fetches overlap, and the payload
    text only if the second read the cache before the first wrote it, or after its entry had gone.
   */
  lemma InjectiveAgreement(sys: System, s0: State, events: seq<Event>)
    requires Initial(s0)
    ensures var s := Run(sys, s0, events);
            && (forall call, wallet, signature | Passes(sys, s, call, wallet, signature) ::
                  Agrees(sys, s, call, wallet, signature, s.fetches[call].origin))
            && (forall i, w, x, j, v, y | Passes(sys, s, i, w, x) && Passes(sys, s, j, v, y) && i != j ::
                  Apart(s, i, j))
  {
    hide Apply, Agrees, Apart, Overlap, Sound;
    Reachable(sys, s0, events);
    var s := Run(sys, s0, events);
    forall call, wallet, signature | Passes(sys, s, call, wallet, signature)
      ensures Agrees(sys, s, call, wallet, signature, s.fetches[call].origin)
    {
      PassAgrees(sys, s, call, wallet, signature);
    }
    forall i, w, x, j, v, y | Passes(sys, s, i, w, x) && Passes(sys, s, j, v, y) && i != j ensures Apart(s, i, j) {
      PassesApart(sys, s, i, j);
    }
  }

  /** No two checks overlap at the cache, and none meets an entry that ended before its payload. */
  predicate ChecksInOrder(s: State) {
    forall i, j | i in s.checks && j in s.checks && s.checks[i].Admitted? && s.checks[j].Admitted? && i != j ::
      && (Follows(s.checks[i], s.checks[j]) || Follows(s.checks[j], s.checks[i]))
      && Covers(s.checks[i], s.checks[j])
  }

  lemma SerialPair(sys: System, s: State, i: CallId, j: CallId)
    requires Sound(sys, s) && FetchesInOrder(s) && ChecksInOrder(s) && Accepted(s, i) && Accepted(s, j) && i != j
    requires i in s.fetches && j in s.fetches && s.fetches[i].Returned? && s.fetches[j].Returned?
    ensures s.fetches[i].origin != s.fetches[j].origin && s.checks[i].text != s.checks[j].text
  {
    hide CellsRefined, CellsHaveSource, AsksOk, ChecksOk, DeletionsHold, SeenKept, SeenBrief, ReadsSpaced;
    hide Overlap, Covers, Follows, IsWallet;
    PassesApart(sys, s, i, j);
    assert FetchOk(s, s.fetches[i]) && FetchOk(s, s.fetches[j]);
    if Follows(s.checks[i], s.checks[j]) {
      FollowersDiffer(sys, s, i, j);
    } else {
      FollowersDiffer(sys, s, j, i);
    }
  }

  /**
    The serial case. When returned fetches of a wallet do not overlap, and neither do checks,
    however much time passes in them: successes map one to one into requests and one to one
    into payloads.
   */
  lemma SerialInjectiveAgreement(sys: System, s0: State, events: seq<Event>)
    requires Initial(s0) && FetchesInOrder(Run(sys, s0, events)) && ChecksInOrder(Run(sys, s0, events))
    ensures var s := Run(sys, s0, events);
            forall i, w, x, j, v, y | Passes(sys, s, i, w, x) && Passes(sys, s, j, v, y) && i != j ::
              && s.fetches[i].origin != s.fetches[j].origin
              && s.checks[i].text != s.checks[j].text
  {
    hide Apply, Sound, FetchesInOrder, ChecksInOrder;
    Reachable(sys, s0, events);
    var s := Run(sys, s0, events);
    forall i, w, x, j, v, y | Passes(sys, s, i, w, x) && Passes(sys, s, j, v, y) && i != j
      ensures s.fetches[i].origin != s.fetches[j].origin && s.checks[i].text != s.checks[j].text
    {
      SerialPair(sys, s, i, j);
    }
  }

  /* ---------- Key separation ---------- */

  predicate SameAt(a: Entries, b: Entries, key: string) {
    (key in a <==> key in b) && (key in a ==> a[key] == b[key])
  }

  /** The middleware reads service entries only: its verdict is the same whatever challenges the cache holds. */
  lemma MiddlewareIgnoresChallenges(ring: SA.Keyring, a: Entries, b: Entries, payload: Option<string>, now: int,
                                    weather: SA.Weather)
    requires forall name, signature | ':' !in signature :: SameAt(a, b, ServiceKey(name, signature))
    ensures SA.Admit(ring, a, payload, now, weather).service == SA.Admit(ring, b, payload, now, weather).service
  {
    if payload.Some? && SA.Inspect(ring, payload, now).Ok? {
      SA.InspectedPayload(ring, payload.value, now);
      var p := SA.Inspect(ring, payload, now).value;
      assert SameAt(a, b, ServiceKey(p.name, p.signature));
    }
  }

  /** A fetch reads challenges only: its answer is the same whatever signatures the cache holds. */
  lemma FetchIgnoresSignatures(config: Config, a: Entries, b: Entries, wallet: string, now: int, weather: FetchWeather)
    requires forall w | ':' !in w :: SameAt(a, b, SiweKey(config.serviceName, w))
    ensures Fetch(config, a, wallet, now, weather).answer == Fetch(config, b, wallet, now, weather).answer
  {
    NormalWallet(wallet);
    if IsHexAddress(NormalizeHex(wallet)) {
      assert SameAt(a, b, SiweKey(config.serviceName, NormalizeHex(wallet)));
    }
  }
}
