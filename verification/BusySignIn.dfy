/**
  An honest sign-in among other requests: between any two steps of the call, every other
  request may act, those for the same wallet included. The call passes exactly when its payload
  is timely and unseen and the message it signed is still pending when the challenge is read.
 */
module BusySignIn {
  import opened Wrappers
  import opened Text
  import opened Encoding
  import opened TtlCache
  import SA = ServiceAuthentication
  import SM = SiweMessage
  import opened Siwe
  import EW = EthereumWallet
  import opened Protocol
  import opened CacheSafety
  import opened Challenges
  import opened HonestSignIn

  /* ---------- What others do ---------- */

  /** The event is no step of this call's check or fetch. */
  predicate Others(e: Event, c: CallId) { TouchesChecks(e) || TouchesFetches(e) ==> e.call != c }

  predicate AllOthers(events: seq<Event>, c: CallId) { forall i | 0 <= i < |events| :: Others(events[i], c) }

  function CheckAt(s: State, c: CallId): Option<Checking> { if c in s.checks then Some(s.checks[c]) else None }

  function FetchAt(s: State, c: CallId): Option<Fetching> { if c in s.fetches then Some(s.fetches[c]) else None }

  lemma OtherChecks(sys: System, s: State, e: Event, c: CallId)
    requires TouchesChecks(e) && e.call != c
    ensures CheckAt(Apply(sys, s, e), c) == CheckAt(s, c)
  {
    hide SA.Inspect, ServiceKey, PayloadOf, Lookup, Put;
    hide DoStartAsk, DoWriteChallenge, DoStartFetch, DoReadChallenge, DoDeleteChallenge;
  }

  lemma OthersStep(sys: System, s: State, e: Event, c: CallId)
    requires Others(e, c)
    ensures CheckAt(Apply(sys, s, e), c) == CheckAt(s, c) && FetchAt(Apply(sys, s, e), c) == FetchAt(s, c)
  {
    hide Apply;
    Frame(sys, s, e);
    if TouchesChecks(e) {
      OtherChecks(sys, s, e, c);
    }
    if TouchesFetches(e) {
      OtherFetches(sys, s, e, c);
    }
  }

  /** Whatever others do, they leave the call where it is. */
  lemma {:induction false} OthersRun(sys: System, s: State, events: seq<Event>, c: CallId)
    requires AllOthers(events, c)
    ensures CheckAt(Run(sys, s, events), c) == CheckAt(s, c) && FetchAt(Run(sys, s, events), c) == FetchAt(s, c)
    decreases |events|
  {
    hide Apply, CheckAt, FetchAt;
    if events != [] {
      assert Others(events[0], c);
      OthersStep(sys, s, events[0], c);
      OthersRun(sys, Apply(sys, s, events[0]), events[1..], c);
    }
  }

  /* ---------- The call's own steps ---------- */

  /** What happens between the steps of a call. */
  datatype Gaps = Gaps(toSeen: seq<Event>, toRemember: seq<Event>, toFetch: seq<Event>, toRead: seq<Event>,
                       toDelete: seq<Event>)

  predicate LeaveAlone(g: Gaps, c: CallId) {
    AllOthers(g.toSeen, c) && AllOthers(g.toRemember, c) && AllOthers(g.toFetch, c) && AllOthers(g.toRead, c)
    && AllOthers(g.toDelete, c)
  }

  /** The state after one step of the call, and after what others do next. */
  function Then(sys: System, s: State, e: Event, others: seq<Event>): State { Run(sys, Apply(sys, s, e), others) }

  function AtSeen(sys: System, s: State, c: CallId, payload: Option<string>, g: Gaps): State {
    Then(sys, s, StartCheck(c, payload), g.toSeen)
  }

  function AtFetch(sys: System, s: State, c: CallId, payload: Option<string>, g: Gaps): State {
    Then(sys, Then(sys, AtSeen(sys, s, c, payload, g), ReadSeen(c, false), g.toRemember), WriteSeen(c, NoFault),
         g.toFetch)
  }

  function AtRead(sys: System, s: State, c: CallId, payload: Option<string>, wallet: string, g: Gaps): State {
    Then(sys, AtFetch(sys, s, c, payload, g), StartFetch(c, wallet), g.toRead)
  }

  function AtEnd(sys: System, s: State, c: CallId, payload: Option<string>, wallet: string, g: Gaps): State {
    Apply(sys, Then(sys, AtRead(sys, s, c, payload, wallet, g), ReadChallenge(c, false), g.toDelete),
          DeleteChallenge(c, NoFault))
  }

  /** The events of a faultless call, with those of others in between. */
  function BusyCall(c: CallId, payload: Option<string>, wallet: string, g: Gaps): seq<Event> {
    [StartCheck(c, payload)] + g.toSeen + [ReadSeen(c, false)] + g.toRemember + [WriteSeen(c, NoFault)] + g.toFetch
    + [StartFetch(c, wallet)] + g.toRead + [ReadChallenge(c, false)] + g.toDelete + [DeleteChallenge(c, NoFault)]
  }

  lemma RunThen(sys: System, s: State, before: seq<Event>, e: Event, others: seq<Event>)
    ensures Run(sys, s, before + [e] + others) == Then(sys, Run(sys, s, before), e, others)
  {
    hide Apply;
    RunConcat(sys, s, before + [e], others);
    RunConcat(sys, s, before, [e]);
    RunOne(sys, Run(sys, s, before), e);
  }

  /** The states named above are those of the run. */
  lemma BusyCallRuns(sys: System, s: State, c: CallId, payload: Option<string>, wallet: string, g: Gaps)
    ensures Run(sys, s, BusyCall(c, payload, wallet, g)) == AtEnd(sys, s, c, payload, wallet, g)
  {
    hide Apply, Run, Then;
    var e1 := [] + [StartCheck(c, payload)] + g.toSeen;
    var e2 := e1 + [ReadSeen(c, false)] + g.toRemember;
    var e3 := e2 + [WriteSeen(c, NoFault)] + g.toFetch;
    var e4 := e3 + [StartFetch(c, wallet)] + g.toRead;
    var e5 := e4 + [ReadChallenge(c, false)] + g.toDelete;
    NoEvents(sys, s);
    RunThen(sys, s, [], StartCheck(c, payload), g.toSeen);
    RunThen(sys, s, e1, ReadSeen(c, false), g.toRemember);
    RunThen(sys, s, e2, WriteSeen(c, NoFault), g.toFetch);
    RunThen(sys, s, e3, StartFetch(c, wallet), g.toRead);
    RunThen(sys, s, e4, ReadChallenge(c, false), g.toDelete);
    RunConcat(sys, s, e5, [DeleteChallenge(c, NoFault)]);
    RunOne(sys, Run(sys, s, e5), DeleteChallenge(c, NoFault));
    assert BusyCall(c, payload, wallet, g) == e5 + [DeleteChallenge(c, NoFault)];
  }

  lemma NoEvents(sys: System, s: State)
    ensures Run(sys, s, []) == s
  {
  }

  /* ---------- The check ---------- */

  lemma CheckStarts(sys: System, s: State, c: CallId, text: string)
    requires c !in s.checks
    ensures var s' := Apply(sys, s, StartCheck(c, Some(text)));
            && c in s'.checks
            && (if SA.Inspect(sys.ring, Some(text), s.now).Ok? then s'.checks[c] == Checked(text, s.now)
                else s'.checks[c].Refused?)
  {
    hide SA.Inspect;
  }

  lemma CheckReadsOn(sys: System, s: State, c: CallId)
    requires c in s.checks && !s.checks[c].Admitted? && !s.checks[c].Unseen?
    ensures var s' := Apply(sys, s, ReadSeen(c, false));
            && c in s'.checks && s'.fetches == s.fetches
            && (if s.checks[c].Checked? && Lookup(s.entries, SeenKey(s.checks[c].text), s.now).None?
                then s'.checks[c].Unseen? && s'.checks[c].text == s.checks[c].text else s'.checks[c].Refused?)
  {
    hide SeenKey;
  }

  lemma CheckWritesOn(sys: System, s: State, c: CallId)
    requires c in s.checks && (s.checks[c].Unseen? || s.checks[c].Refused?)
    ensures var s' := Apply(sys, s, WriteSeen(c, NoFault));
            && c in s'.checks && s'.fetches == s.fetches
            && (if s.checks[c].Unseen? then s'.checks[c].Admitted? && s'.checks[c].text == s.checks[c].text
                else s'.checks[c].Refused?)
  {
    hide SeenKey;
  }

  /** A generated payload passes inspection exactly in its minute, and is of "users". */
  lemma EnvoyInspected(sys: System, v: Envoy, now: int)
    requires Equipped(sys, v)
    ensures SA.Inspect(sys.ring, EnvoyPayload(sys, v), now).Ok?
       <==> now <= v.generated / SA.MILLISECOND * SA.MILLISECOND + SA.PAYLOAD_DURATION
    ensures CanonicalName(PayloadOf(EnvoyPayload(sys, v).value).name) == ALLOWED_SERVICE
  {
    hide SA.Inspect, SA.GeneratePayload, SA.SplitPayload, SA.Ideal, SA.Paired, ServiceKey;
    AllowedServiceIsCanonical();
    SA.GeneratedPayloadAccepted(sys.ring, ALLOWED_SERVICE, v.generated, v.nonce, v.entropy, map[], now,
                                SA.Weather(0, false, 0, NoFault));
  }

  /** The payload is in its minute when it is checked, and its signature not in the cache when that is read. */
  predicate TimelyUnseen(sys: System, s: State, c: CallId, v: Envoy, g: Gaps) {
    && s.now <= v.generated / SA.MILLISECOND * SA.MILLISECOND + SA.PAYLOAD_DURATION
    && EnvoyPayload(sys, v).Some?
    && var t := AtSeen(sys, s, c, EnvoyPayload(sys, v), g);
       Lookup(t.entries, SeenKey(EnvoyPayload(sys, v).value), t.now).None?
  }

  /** Among others, a check ends in "users" exactly when its payload is timely and unseen. */
  lemma BusyCheck(sys: System, s: State, c: CallId, v: Envoy, g: Gaps)
    requires Equipped(sys, v) && LeaveAlone(g, c) && c !in s.checks && c !in s.fetches
    ensures var t := AtFetch(sys, s, c, EnvoyPayload(sys, v), g);
            && c in t.checks && c !in t.fetches
            && (FromUsers(t, c) <==> TimelyUnseen(sys, s, c, v, g))
  {
    hide Apply, Run, SA.Inspect, SA.GeneratePayload, SeenKey, CanonicalName, AllOthers, Equipped;
    var payload := EnvoyPayload(sys, v);
    EquippedHasPayload(sys, v);
    EnvoyInspected(sys, v, s.now);
    CheckStarts(sys, s, c, payload.value);
    Frame(sys, s, StartCheck(c, payload));
    OthersRun(sys, Apply(sys, s, StartCheck(c, payload)), g.toSeen, c);
    var s1 := AtSeen(sys, s, c, payload, g);
    CheckReadsOn(sys, s1, c);
    OthersRun(sys, Apply(sys, s1, ReadSeen(c, false)), g.toRemember, c);
    var s2 := Then(sys, s1, ReadSeen(c, false), g.toRemember);
    CheckWritesOn(sys, s2, c);
    OthersRun(sys, Apply(sys, s2, WriteSeen(c, NoFault)), g.toFetch, c);
  }

  lemma EquippedHasPayload(sys: System, v: Envoy)
    requires Equipped(sys, v)
    ensures EnvoyPayload(sys, v).Some?
  {
  }

  /* ---------- The fetch ---------- */

  lemma FetchStarts(sys: System, s: State, c: CallId, wallet: string)
    requires c !in s.fetches && IsHexAddress(NormalizeHex(wallet))
    ensures var s' := Apply(sys, s, StartFetch(c, wallet));
            c in s'.fetches && s'.fetches[c] == Started(NormalizeHex(wallet)) && s'.checks == s.checks
  {
    hide NormalizeHex, IsHexAddress;
  }

  lemma FetchEnds(sys: System, s: State, c: CallId)
    requires c in s.fetches && (s.fetches[c].Failed? || s.fetches[c].Holding?)
    ensures var s' := Apply(sys, s, DeleteChallenge(c, NoFault));
            && c in s'.fetches && s'.checks == s.checks
            && (s.fetches[c].Failed? ==> s'.fetches[c].Failed?)
            && (s.fetches[c].Holding? ==> s'.fetches[c] == Deleting(s, s.fetches[c], NoFault))
  {
    hide SiweKey;
  }

  /** Among others, a fetch returns exactly the challenge that is pending when it is read. */
  lemma BusyFetch(sys: System, s: State, c: CallId, payload: Option<string>, wallet: string, g: Gaps)
    requires Sound(sys, s) && LeaveAlone(g, c) && IsHexAddress(NormalizeHex(wallet))
    requires c !in AtFetch(sys, s, c, payload, g).fetches
    ensures var w, t, r := NormalizeHex(wallet), AtEnd(sys, s, c, payload, wallet, g),
                           AtRead(sys, s, c, payload, wallet, g);
            && CheckAt(t, c) == CheckAt(AtFetch(sys, s, c, payload, g), c)
            && c in t.fetches
            && (if LiveCell(r, w).Some?
                then t.fetches[c].Returned? && t.fetches[c].wallet == w
                     && t.fetches[c].message == LiveCell(r, w).value.message
                else t.fetches[c].Failed?)
  {
    hide Apply, Run, Sound, AllOthers, NormalizeHex, IsHexAddress, AtFetch, LiveCell;
    var s1, w := AtFetch(sys, s, c, payload, g), NormalizeHex(wallet);
    FetchStarts(sys, s1, c, wallet);
    OthersRun(sys, Apply(sys, s1, StartFetch(c, wallet)), g.toRead, c);
    var r := AtRead(sys, s, c, payload, wallet, g);
    ReadSound(sys, s, c, payload, wallet, g);
    ReadIsExact(sys, r, c, false);
    Frame(sys, r, ReadChallenge(c, false));
    OthersRun(sys, Apply(sys, r, ReadChallenge(c, false)), g.toDelete, c);
    FetchEnds(sys, Then(sys, r, ReadChallenge(c, false), g.toDelete), c);
  }

  lemma ThenSound(sys: System, s: State, e: Event, others: seq<Event>)
    requires Sound(sys, s)
    ensures Sound(sys, Then(sys, s, e, others))
  {
    hide Apply, Sound;
    StepSound(sys, s, e);
    RunSound(sys, Apply(sys, s, e), others);
  }

  lemma ReadSound(sys: System, s: State, c: CallId, payload: Option<string>, wallet: string, g: Gaps)
    requires Sound(sys, s)
    ensures Sound(sys, AtRead(sys, s, c, payload, wallet, g))
  {
    hide Sound, Then;
    ThenSound(sys, s, StartCheck(c, payload), g.toSeen);
    var s1 := AtSeen(sys, s, c, payload, g);
    ThenSound(sys, s1, ReadSeen(c, false), g.toRemember);
    ThenSound(sys, Then(sys, s1, ReadSeen(c, false), g.toRemember), WriteSeen(c, NoFault), g.toFetch);
    ThenSound(sys, AtFetch(sys, s, c, payload, g), StartFetch(c, wallet), g.toRead);
  }

  /* ---------- When an honest call passes ---------- */

  /**
    A faultless call of "users" among any other requests: it passes if and only if its payload is
    timely and unseen, some challenge of its wallet is pending and in its time when that is
    read, and the signature is good for that challenge.
   */
  lemma BusyCallPasses(sys: System, s: State, c: CallId, v: Envoy, wallet: string, signature: string, g: Gaps)
    requires Sound(sys, s) && Equipped(sys, v) && LeaveAlone(g, c) && c !in s.checks && c !in s.fetches
    requires IsHexAddress(NormalizeHex(wallet))
    ensures var found := LiveCell(AtRead(sys, s, c, EnvoyPayload(sys, v), wallet, g), NormalizeHex(wallet));
            Passes(sys, Run(sys, s, BusyCall(c, EnvoyPayload(sys, v), wallet, g)), c, wallet, signature)
            <==> && TimelyUnseen(sys, s, c, v, g) && found.Some?
                 && EW.Check(sys.curve, wallet, found.value.message, signature).Ok?
  {
    hide Apply, Run, Sound, NormalizeHex, IsHexAddress, AtFetch, AtRead, LiveCell, TimelyUnseen, EW.Check, AtEnd;
    hide BusyCall, LeaveAlone, Equipped, EnvoyPayload;
    var payload := EnvoyPayload(sys, v);
    BusyCallRuns(sys, s, c, payload, wallet, g);
    BusyCheck(sys, s, c, v, g);
    BusyFetch(sys, s, c, payload, wallet, g);
    SameCheck(AtFetch(sys, s, c, payload, g), AtEnd(sys, s, c, payload, wallet, g), c);
  }

  lemma SameCheck(s: State, s': State, c: CallId)
    requires CheckAt(s, c) == CheckAt(s', c)
    ensures FromUsers(s, c) <==> FromUsers(s', c)
  {
  }

  /** Of all challenges that have been written, the signature is good for this message only. */
  predicate GoodForOnly(sys: System, s: State, wallet: string, signature: string, message: string) {
    forall j | j in s.asks && s.asks[j].Wrote? ::
      EW.Check(sys.curve, wallet, s.asks[j].challenge.message, signature).Ok? ==> s.asks[j].challenge.message == message
  }

  /** A challenge with this very message is pending for the wallet, and in its time. */
  predicate StillPending(s: State, w: string, message: string) {
    LiveCell(s, w).Some? && LiveCell(s, w).value.message == message
  }

  /**
    Honest sign-in among others. A client has asked for a challenge, in request k, and brings it
    back signed with its key, in a faultless call of "users"; any other requests, for its own
    wallet too, act before the call and between any two of its steps. The call passes if and
    only if its payload is timely and unseen, the message it signed is still pending and in its
    time when the challenge is read, and the wallet is the key's address in some letter case.
   */
  lemma BusySignInPasses(sys: System, s: State, k: CallId, c: CallId, v: Envoy, wallet: string,
                         key: EW.PrivateKey, signature: string, g: Gaps)
    requires Sound(sys, s) && Equipped(sys, v) && LeaveAlone(g, c) && c !in s.checks && c !in s.fetches
    requires Written(s, k) && NormalizeHex(s.asks[k].request.wallet) == NormalizeHex(wallet)
    requires EW.SignMessage(sys.curve, key, s.asks[k].challenge.message) == Some(signature)
    requires GoodForOnly(sys, AtRead(sys, s, c, EnvoyPayload(sys, v), wallet, g), wallet, signature,
                         s.asks[k].challenge.message)
    ensures var read := AtRead(sys, s, c, EnvoyPayload(sys, v), wallet, g);
            Passes(sys, Run(sys, s, BusyCall(c, EnvoyPayload(sys, v), wallet, g)), c, wallet, signature)
            <==> && TimelyUnseen(sys, s, c, v, g)
                 && StillPending(read, NormalizeHex(wallet), s.asks[k].challenge.message)
                 && ToLower(NormalizeHex(wallet)) == "0x" + EncodeHex(sys.curve.address(sys.curve.publicKey(key)))
  {
    hide Apply, Run, Sound, NormalizeHex, IsHexAddress, AtRead, LiveCell, TimelyUnseen, EW.Check, BusyCall;
    hide EW.SignMessage, LeaveAlone, EnvoyPayload, ToLower, EncodeHex, Passes;
    WrittenWallet(sys, s, k);
    BusyCallPasses(sys, s, c, v, wallet, signature, g);
    EquippedIdeal(sys, v);
    EW.SignThenCheck(sys.curve, key, s.asks[k].challenge.message, wallet);
    ReadSound(sys, s, c, EnvoyPayload(sys, v), wallet, g);
    PendingIsWritten(sys, AtRead(sys, s, c, EnvoyPayload(sys, v), wallet, g), NormalizeHex(wallet));
  }

  lemma PendingIsWritten(sys: System, s: State, w: string)
    requires Sound(sys, s)
    ensures LiveCell(s, w).Some? ==>
              Written(s, LiveCell(s, w).value.asked)
              && s.asks[LiveCell(s, w).value.asked].challenge.message == LiveCell(s, w).value.message
  {
    hide CellsRefined, AsksOk, FetchesOk, DeletionsHold, ChecksOk, SeenKept, SeenBrief, ReadsSpaced;
    if w in s.pending {
      assert Source(s, w, s.pending[w]);
    }
  }

  lemma EquippedIdeal(sys: System, v: Envoy)
    requires Equipped(sys, v)
    ensures EW.Ideal(sys.curve)
  {
  }

  lemma WrittenWallet(sys: System, s: State, k: CallId)
    requires Sound(sys, s) && Written(s, k)
    ensures IsHexAddress(NormalizeHex(s.asks[k].request.wallet))
  {
    hide Compose, NormalizeHex, IsHexAddress;
    assert AskOk(sys, s, s.asks[k]);
  }

  /**
    Undisturbed, only the time counts: when request k's challenge is in its cell as it is read, it
    is still pending up to 15 minutes after its writing and not later.
   */
  lemma UndisturbedIsPending(sys: System, s: State, w: string)
    requires Sound(sys, s) && w in s.pending
    ensures var k := s.pending[w].asked;
            && Written(s, k)
            && (StillPending(s, w, s.asks[k].challenge.message) <==> s.now <= s.asks[k].writtenAt + SM.EXPIRATION)
  {
    hide CellsRefined, AsksOk, FetchesOk, DeletionsHold, ChecksOk, SeenKept, SeenBrief, ReadsSpaced;
    assert Source(s, w, s.pending[w]);
  }
}
