/**
  When the same signed fields are accepted again after an acceptance: as the same text, as
  another spelling of the same signature, or under another signature that the key accepts.
 */
module Signatures {
  import opened Wrappers
  import opened Text
  import opened Encoding
  import opened TtlCache
  import SA = ServiceAuthentication
  import opened Protocol
  import opened CacheSafety
  import opened Agreement
  import opened Replay

  /* ---------- Payloads with one signed part ---------- */

  /** A payload with another signature text on its fields. */
  function Signed(p: SA.Payload, text: string): SA.Payload { p.(signature := text) }

  /** The signature text is good for the payload's fields: the last of the service's keys accepts it. */
  predicate Verifies(ring: SA.Keyring, p: SA.Payload, text: string) {
    && ring.PublicKeys(p.name) != []
    && SA.KeyVerdict(ring, ring.PublicKeys(p.name), SA.SignedPart(p), text) == Ok(true)
  }

  /** The texts of payloads with p's signed part that a transport carries. */
  function OnPart(p: SA.Payload, carried: string -> bool): string -> bool {
    (text: string) => carried(text) && SA.SplitPayload(text).Some? && SA.SignedPart(PayloadOf(text)) == SA.SignedPart(p)
  }

  /** The signed part determines the three fields. */
  lemma SignedPartDetermines(p: SA.Payload, q: SA.Payload)
    requires SA.DotFree(p) && SA.DotFree(q) && SA.SignedPart(p) == SA.SignedPart(q)
    ensures p == Signed(q, p.signature)
  {
    SplitJoin([p.name, p.timestamp, p.nonce], '.');
    SplitJoin([q.name, q.timestamp, q.nonce], '.');
    SignedPartJoined(p);
    SignedPartJoined(q);
  }

  lemma SignedPartJoined(p: SA.Payload)
    ensures SA.SignedPart(p) == Join([p.name, p.timestamp, p.nonce], '.')
  {
    var parts := [p.name, p.timestamp, p.nonce];
    assert parts[1..] == [p.timestamp, p.nonce] && parts[1..][1..] == [p.nonce];
    assert Join(parts[1..], '.') == p.timestamp + ['.'] + p.nonce;
    assert SA.SignedPart(p) == p.name + ['.'] + (p.timestamp + ['.'] + p.nonce);
  }

  /** A text that splits is the print of its fields. */
  lemma SplitFields(text: string)
    requires SA.SplitPayload(text).Some?
    ensures SA.JoinPayload(PayloadOf(text)) == text && SA.DotFree(PayloadOf(text))
  {
    SA.SplitPayloadExact(text);
  }

  /** Whatever decodes as a signature can be put on the fields of a payload. */
  lemma SignedText(p: SA.Payload, text: string)
    requires SA.DotFree(p) && DecodeBase64(text).Some?
    ensures SA.SplitPayload(SA.JoinPayload(Signed(p, text))) == Some(Signed(p, text))
    ensures PayloadOf(SA.JoinPayload(Signed(p, text))) == Signed(p, text)
  {
    DecodableText(text);
    SA.PayloadTextRoundTrip(Signed(p, text));
  }

  /** A payload that passed every check, with another signature text: it passes exactly when that verifies. */
  lemma InspectSigned(ring: SA.Keyring, accepted: string, now: int, text: string)
    requires SA.Inspect(ring, Some(accepted), now).Ok? && DecodeBase64(text).Some?
    ensures var p := PayloadOf(accepted);
            var other := SA.JoinPayload(Signed(p, text));
            && SA.DotFree(p) && Verifies(ring, p, p.signature) && DatedAt(other) == DatedAt(accepted)
            && (SA.Inspect(ring, Some(other), now).Ok? <==> Verifies(ring, p, text))
  {
    var p := PayloadOf(accepted);
    SplitFields(accepted);
    SignedText(p, text);
    assert SA.SignedPart(Signed(p, text)) == SA.SignedPart(p);
  }

  lemma VerifiesDecodes(ring: SA.Keyring, p: SA.Payload, text: string)
    requires Verifies(ring, p, text)
    ensures DecodeBase64(text).Some?
  {
  }

  /* ---------- The exact condition for one signed part ---------- */

  /** A carried signature on p's fields verifies, and its cache entry does not last until the given instant. */
  ghost predicate Uncovered(sys: System, s: State, p: SA.Payload, carried: string -> bool, text: string, until: int) {
    && carried(SA.JoinPayload(Signed(p, text))) && Verifies(sys.ring, p, text)
    && !Keeps(s.entries, ServiceKey(p.name, text), until)
  }

  ghost predicate SomeUncovered(sys: System, s: State, p: SA.Payload, carried: string -> bool, until: int) {
    exists text :: Uncovered(sys, s, p, carried, text, until)
  }

  lemma UncoveredIsAdmissible(sys: System, s: State, accepted: string, at: int, carried: string -> bool, text: string,
                              delay: nat)
    requires SA.Inspect(sys.ring, Some(accepted), at).Ok? && s.now <= DatedAt(accepted) + SA.PAYLOAD_DURATION
    requires Uncovered(sys, s, PayloadOf(accepted), carried, text, DatedAt(accepted) + SA.PAYLOAD_DURATION + delay)
    ensures var other := SA.JoinPayload(Signed(PayloadOf(accepted), text));
            OnPart(PayloadOf(accepted), carried)(other) && Admissible(sys, s, other, delay)
  {
    var p := PayloadOf(accepted);
    var other := SA.JoinPayload(Signed(p, text));
    VerifiesDecodes(sys.ring, p, text);
    InspectSigned(sys.ring, accepted, at, text);
    SignedText(p, text);
    InspectAtAnotherTime(sys.ring, other, at, s.now);
    assert SA.SignedPart(Signed(p, text)) == SA.SignedPart(p);
  }

  lemma AdmissibleIsUncovered(sys: System, s: State, accepted: string, at: int, carried: string -> bool, other: string,
                              delay: nat)
    requires SA.Inspect(sys.ring, Some(accepted), at).Ok?
    requires OnPart(PayloadOf(accepted), carried)(other) && Admissible(sys, s, other, delay)
    ensures s.now <= DatedAt(accepted) + SA.PAYLOAD_DURATION
    ensures Uncovered(sys, s, PayloadOf(accepted), carried, PayloadOf(other).signature,
                      DatedAt(accepted) + SA.PAYLOAD_DURATION + delay)
  {
    var p, q := PayloadOf(accepted), PayloadOf(other);
    SplitFields(accepted);
    SplitFields(other);
    SignedPartDetermines(q, p);
    assert q == Signed(p, q.signature);
    InspectAtAnotherTime(sys.ring, other, s.now, s.now);
  }

  /** Call k is accepted, and no other call of the same signed part is under way. */
  predicate JustAccepted(s: State, k: CallId, carried: string -> bool) {
    && Accepted(s, k)
    && forall j | j in s.checks && (s.checks[j].Checked? || s.checks[j].Unseen?) ::
         !OnPart(PayloadOf(s.checks[k].text), carried)(s.checks[j].text)
  }

  /** The last instant of a payload's window. */
  function LastInstant(text: string): int { DatedAt(text) + SA.PAYLOAD_DURATION }

  lemma PartAgain(sys: System, s: State, accepted: string, at: int, carried: string -> bool, delay: nat)
    requires Sound(sys, s) && SA.Inspect(sys.ring, Some(accepted), at).Ok?
    requires NoneUnderWay(s, OnPart(PayloadOf(accepted), carried))
    ensures Again(sys, s, OnPart(PayloadOf(accepted), carried), delay)
       <==> && s.now <= LastInstant(accepted)
            && SomeUncovered(sys, s, PayloadOf(accepted), carried, LastInstant(accepted) + delay)
  {
    hide Sound, SA.Inspect, Admissible, Uncovered, DatedAt, Again, NoneUnderWay, PayloadOf;
    var p, last := PayloadOf(accepted), LastInstant(accepted);
    AgainExact(sys, s, OnPart(p, carried), delay);
    if !NoneAdmissible(sys, s, OnPart(p, carried), delay) {
      var other :| OnPart(p, carried)(other) && Admissible(sys, s, other, delay);
      AdmissibleIsUncovered(sys, s, accepted, at, carried, other, delay);
    }
    if s.now <= last && SomeUncovered(sys, s, p, carried, last + delay) {
      var text :| Uncovered(sys, s, p, carried, text, last + delay);
      UncoveredIsAdmissible(sys, s, accepted, at, carried, text, delay);
    }
  }

  lemma JustAcceptedInspected(sys: System, s: State, k: CallId, carried: string -> bool)
    requires Sound(sys, s) && JustAccepted(s, k, carried)
    ensures SA.Inspect(sys.ring, Some(s.checks[k].text), s.checks[k].at) == Ok(PayloadOf(s.checks[k].text))
    ensures NoneUnderWay(s, OnPart(PayloadOf(s.checks[k].text), carried))
  {
    hide SA.Inspect, PayloadOf, CellsRefined, FetchesOk, DeletionsHold, AsksOk, SeenKept, SeenBrief, ReadsSpaced;
    assert CheckOk(sys, s, s.checks[k]);
  }

  /**
    The exact condition for the same signed fields to be accepted again, for every set of
    texts that a transport carries and every delay d that calls may take: the payload is still
    fresh, and some carried signature that verifies on the fields - the same one, another
    spelling of it, or another one - has no cache entry that lasts until d after the window.
   */
  lemma SignedPartAgainExact(sys: System, s0: State, events: seq<Event>, k: CallId, carried: string -> bool, delay: nat)
    requires Initial(s0) && JustAccepted(Run(sys, s0, events), k, carried)
    ensures var s := Run(sys, s0, events);
            var text := s.checks[k].text;
            Again(sys, s, OnPart(PayloadOf(text), carried), delay)
            <==> && s.now <= LastInstant(text)
                 && SomeUncovered(sys, s, PayloadOf(text), carried, LastInstant(text) + delay)
  {
    hide Apply, SA.Inspect, Sound, OnPart, Again, SomeUncovered, LastInstant, NoneUnderWay;
    Reachable(sys, s0, events);
    var s := Run(sys, s0, events);
    JustAcceptedInspected(sys, s, k, carried);
    PartAgain(sys, s, s.checks[k].text, s.checks[k].at, carried, delay);
  }

  /* ---------- One signature text ---------- */

  /** Of the texts with p's signed part, the only one that is carried and verifies is p's own. */
  ghost predicate OneText(ring: SA.Keyring, p: SA.Payload, carried: string -> bool) {
    forall text :: carried(SA.JoinPayload(Signed(p, text))) && Verifies(ring, p, text) <==> text == p.signature
  }

  /** Still fresh, and with a cache entry that ends before `delay` after the window. */
  ghost predicate Postdated(s: State, text: string, delay: nat) {
    s.now <= LastInstant(text) && !Keeps(s.entries, SeenKey(text), LastInstant(text) + delay)
  }

  lemma OneTextAgain(sys: System, s: State, accepted: string, at: int, carried: string -> bool, delay: nat)
    requires Sound(sys, s) && SA.Inspect(sys.ring, Some(accepted), at).Ok?
    requires NoneUnderWay(s, OnPart(PayloadOf(accepted), carried)) && OneText(sys.ring, PayloadOf(accepted), carried)
    ensures Again(sys, s, OnPart(PayloadOf(accepted), carried), delay) <==> Postdated(s, accepted, delay)
  {
    hide Sound, SA.Inspect, Again, NoneUnderWay, OnPart, Verifies, LastInstant;
    PartAgain(sys, s, accepted, at, carried, delay);
    var p, until := PayloadOf(accepted), LastInstant(accepted) + delay;
    if !Keeps(s.entries, ServiceKey(p.name, p.signature), until) {
      assert Uncovered(sys, s, p, carried, p.signature, until);
    }
  }

  /** Right after an acceptance, without other calls of its signature: postdated is a matter of the payload's date. */
  lemma PostdatedAfterWriting(sys: System, s: State, k: CallId, delay: nat)
    requires k in s.checks && s.checks[k].Unseen?
    ensures var s', text := Apply(sys, s, WriteSeen(k, NoFault)), s.checks[k].text;
            && Accepted(s', k) && s'.checks[k].text == text && s'.checks[k].writtenAt == s'.now == s.now
            && (Postdated(s', text, delay)
                <==> s.now <= DatedAt(text) + SA.PAYLOAD_DURATION && s.now < DatedAt(text) + delay)
  {
    hide DatedAt;
  }

  /** The transport that carries one text. */
  function Only(text: string): string -> bool { (t: string) => t == text }

  /**
    The same text again: it is accepted in some continuation if and only if it is postdated,
    that is, still fresh with a cache entry that ends too soon.
   */
  lemma AcceptedAgainIffPostdated(sys: System, s0: State, events: seq<Event>, k: CallId, delay: nat)
    requires Initial(s0) && Accepted(Run(sys, s0, events), k)
    requires var s := Run(sys, s0, events); JustAccepted(s, k, Only(s.checks[k].text))
    ensures var s := Run(sys, s0, events);
            Again(sys, s, OnPart(PayloadOf(s.checks[k].text), Only(s.checks[k].text)), delay)
            <==> Postdated(s, s.checks[k].text, delay)
  {
    hide Apply, SA.Inspect, Sound, OnPart, Again, Postdated, NoneUnderWay, OneText;
    Reachable(sys, s0, events);
    var s := Run(sys, s0, events);
    var text := s.checks[k].text;
    JustAcceptedInspected(sys, s, k, Only(text));
    OwnTextOnly(sys.ring, text, s.checks[k].at);
    OneTextAgain(sys, s, text, s.checks[k].at, Only(text), delay);
  }

  lemma OwnTextOnly(ring: SA.Keyring, text: string, at: int)
    requires SA.Inspect(ring, Some(text), at).Ok?
    ensures OneText(ring, PayloadOf(text), Only(text))
  {
    var p := PayloadOf(text);
    SplitFields(text);
    SA.InspectedPayload(ring, text, at);
    assert Signed(p, p.signature) == p;
    assert Verifies(ring, p, p.signature);
    forall t | SA.JoinPayload(Signed(p, t)) == text && Verifies(ring, p, t) ensures t == p.signature {
      VerifiesDecodes(ring, p, t);
      SignedText(p, t);
    }
  }

  /* ---------- Canonical spellings ---------- */

  predicate Canonical(signature: string) {
    DecodeBase64(signature).Some? && EncodeBase64(DecodeBase64(signature).value) == signature
  }

  /** A transport, or a check, that lets canonical signature texts through only. */
  predicate CanonicalText(text: string) { SA.SplitPayload(text).Some? && Canonical(PayloadOf(text).signature) }

  /** The key accepts one byte string on p's fields. */
  ghost predicate OneSignature(ring: SA.Keyring, p: SA.Payload) {
    forall t, t' | Verifies(ring, p, t) && Verifies(ring, p, t') :: DecodeBase64(t) == DecodeBase64(t')
  }

  /**
    With canonical signature texts, and a key that accepts one byte string on the fields, the
    signed fields are accepted again in some continuation if and only if they are postdated.
   */
  lemma CanonicalReplayIffPostdated(sys: System, s0: State, events: seq<Event>, k: CallId, delay: nat)
    requires Initial(s0) && JustAccepted(Run(sys, s0, events), k, CanonicalText)
    requires CanonicalText(Run(sys, s0, events).checks[k].text)
    requires OneSignature(sys.ring, PayloadOf(Run(sys, s0, events).checks[k].text))
    ensures var s := Run(sys, s0, events);
            Again(sys, s, OnPart(PayloadOf(s.checks[k].text), CanonicalText), delay)
            <==> Postdated(s, s.checks[k].text, delay)
  {
    hide Apply, SA.Inspect, Sound, OnPart, Again, Postdated, NoneUnderWay, OneText, CanonicalText, OneSignature;
    Reachable(sys, s0, events);
    var s := Run(sys, s0, events);
    JustAcceptedInspected(sys, s, k, CanonicalText);
    CanonicalIsOneText(sys.ring, s.checks[k].text, s.checks[k].at);
    OneTextAgain(sys, s, s.checks[k].text, s.checks[k].at, CanonicalText, delay);
  }

  lemma CanonicalIsOneText(ring: SA.Keyring, text: string, at: int)
    requires SA.Inspect(ring, Some(text), at).Ok? && CanonicalText(text) && OneSignature(ring, PayloadOf(text))
    ensures OneText(ring, PayloadOf(text), CanonicalText)
  {
    var p := PayloadOf(text);
    SplitFields(text);
    InspectSigned(ring, text, at, p.signature);
    assert Signed(p, p.signature) == p;
    forall t ensures CanonicalText(SA.JoinPayload(Signed(p, t))) && Verifies(ring, p, t) <==> t == p.signature {
      if Verifies(ring, p, t) {
        VerifiesDecodes(ring, p, t);
        SignedText(p, t);
      }
    }
  }

  /**
    Without that assumption it fails: a key that accepts two byte strings on the fields lets
    them through again under the other one, postdated or not, as long as they are fresh.
   */
  lemma TwoSignaturesReplay(sys: System, s0: State, events: seq<Event>, k: CallId, other: string, delay: nat)
    requires Initial(s0) && JustAccepted(Run(sys, s0, events), k, CanonicalText)
    requires var s := Run(sys, s0, events);
             && s.now <= LastInstant(s.checks[k].text)
             && Verifies(sys.ring, PayloadOf(s.checks[k].text), other) && Canonical(other)
             && ServiceKey(PayloadOf(s.checks[k].text).name, other) !in s.entries
    ensures var s := Run(sys, s0, events); Again(sys, s, OnPart(PayloadOf(s.checks[k].text), CanonicalText), delay)
  {
    hide Apply, SA.Inspect, Sound, OnPart, Again, NoneUnderWay, LastInstant, Verifies;
    Reachable(sys, s0, events);
    var s := Run(sys, s0, events);
    var p, until := PayloadOf(s.checks[k].text), LastInstant(s.checks[k].text) + delay;
    JustAcceptedInspected(sys, s, k, CanonicalText);
    InspectSigned(sys.ring, s.checks[k].text, s.checks[k].at, other);
    SignedText(p, other);
    PartAgain(sys, s, s.checks[k].text, s.checks[k].at, CanonicalText, delay);
    assert Uncovered(sys, s, p, CanonicalText, other, until);
  }

  /** Keys under which two byte strings verify on every message, as (r, s) and (r, n - s) do for ECDSA. */
  function TwofoldRing(b: Bytes, b': Bytes): SA.Keyring {
    SA.Keyring(_ => ["key"], _ => Some(0), _ => Some(0), k => k, (_, _, _) => Some(b),
               (_, _, signature) => signature == b || signature == b')
  }

  /** The run: check a payload, read, write. */
  function AcceptRun(text: string): seq<Event> {
    [StartCheck(0, Some(text)), ReadSeen(0, false), WriteSeen(0, NoFault)]
  }

  function Fresh(start: int): State { State(map[], start, 0, map[], map[], map[], map[]) }

  /** A payload of the epoch, signed with the given bytes. */
  function EpochPayload(b: Bytes): SA.Payload { SA.Payload("users", "0", "aaaaaaaaaa", EncodeBase64(b)) }

  lemma EpochNumbers()
    ensures ParseInt64("0") == Some(0) && SA.Dated(0) == 0 && SA.Fresh(0, 0) && TrimSpace("users") == "users"
  {
    assert Value("0") == 10 * Value("0"[..0]) + 0;
    assert Trimmed("users");
    TrimSpaceTrims("users");
  }

  lemma EpochPayloadPasses(b: Bytes, b': Bytes)
    ensures var text := SA.JoinPayload(EpochPayload(b));
            && SA.SplitPayload(text) == Some(EpochPayload(b)) && DatedAt(text) == 0
            && SA.Inspect(TwofoldRing(b, b'), Some(text), 0) == Ok(EpochPayload(b))
  {
    hide ParseInt64, TrimSpace, SA.Fresh, SA.Dated, SA.SplitPayload, SA.JoinPayload, EncodeBase64, DecodeBase64;
    var p := EpochPayload(b);
    EpochNumbers();
    Base64RoundTrip(b);
    DecodableText(p.signature);
    SA.PayloadTextRoundTrip(p);
  }

  /** With such a ring a payload that is not postdated is accepted and, in canonical base64, its fields again. */
  lemma TwofoldRingReplays(sys: System, b: Bytes, b': Bytes)
    requires sys.ring == TwofoldRing(b, b') && b != b'
    ensures var text := SA.JoinPayload(EpochPayload(b));
            var s := Run(sys, Fresh(0), AcceptRun(text));
            && Accepted(s, 0) && s.checks[0].text == text && !Postdated(s, text, 0)
            && CanonicalText(text) && Again(sys, s, OnPart(EpochPayload(b), CanonicalText), 0)
  {
    var text, p := SA.JoinPayload(EpochPayload(b)), EpochPayload(b);
    EpochPayloadPasses(b, b');
    TwofoldRun(sys, b, b');
    Base64RoundTrip(b);
    Base64RoundTrip(b');
    var s := Run(sys, Fresh(0), AcceptRun(text));
    var other := EncodeBase64(b');
    assert Verifies(sys.ring, p, other);
    if ServiceKey(p.name, other) == ServiceKey(p.name, p.signature) {
      DecodableText(other);
      DecodableText(p.signature);
      ServiceKeyInjective(p.name, other, p.name, p.signature);
      assert false;
    }
    TwoSignaturesReplay(sys, Fresh(0), AcceptRun(text), 0, other, 0);
  }

  lemma TwofoldRun(sys: System, b: Bytes, b': Bytes)
    requires sys.ring == TwofoldRing(b, b')
    ensures var p := EpochPayload(b);
            var text := SA.JoinPayload(p);
            var s := Run(sys, Fresh(0), AcceptRun(text));
            && s.checks == map[0 := Admitted(text, 0, 0, 1, 0, 2)] && s.now == 0 && PayloadOf(text) == p
            && s.entries == map[ServiceKey(p.name, p.signature) := Entry(p.signature, SA.PAYLOAD_DURATION)]
  {
    hide SA.Inspect, ServiceKey, SA.JoinPayload, SA.SplitPayload;
    hide DoStartAsk, DoWriteChallenge, DoStartFetch, DoReadChallenge, DoDeleteChallenge;
    var text := SA.JoinPayload(EpochPayload(b));
    EpochPayloadPasses(b, b');
    var e := AcceptRun(text);
    RunThree(sys, Fresh(0), e[0], e[1], e[2]);
    var s1 := Apply(sys, Fresh(0), e[0]);
    assert s1.checks == map[0 := Checked(text, 0)];
    var s2 := Apply(sys, s1, e[1]);
    assert s2.checks == map[0 := Unseen(text, 0, 0, 1)];
  }

  /**
    Accepted at most once per signed part. In every run, two acceptances in canonical base64
    under a key that accepts one byte string on the fields differ in a signed field, unless the
    second does not read the cache after the first has written it, or outlasts its entry.
   */
  lemma SignedPartAcceptedOnce(sys: System, s0: State, events: seq<Event>, i: CallId, j: CallId)
    requires Initial(s0) && Accepted(Run(sys, s0, events), i) && Accepted(Run(sys, s0, events), j)
    requires var s := Run(sys, s0, events);
             && CanonicalText(s.checks[i].text) && CanonicalText(s.checks[j].text)
             && OneSignature(sys.ring, PayloadOf(s.checks[i].text))
             && Follows(s.checks[i], s.checks[j]) && Covers(s.checks[i], s.checks[j])
    ensures var s := Run(sys, s0, events);
            SA.SignedPart(PayloadOf(s.checks[i].text)) != SA.SignedPart(PayloadOf(s.checks[j].text))
  {
    hide Apply, SA.Inspect, Covers, Follows;
    Reachable(sys, s0, events);
    var s := Run(sys, s0, events);
    var p, q := PayloadOf(s.checks[i].text), PayloadOf(s.checks[j].text);
    assert CheckOk(sys, s, s.checks[i]) && CheckOk(sys, s, s.checks[j]);
    SplitFields(s.checks[i].text);
    SplitFields(s.checks[j].text);
    if SA.SignedPart(p) == SA.SignedPart(q) {
      SignedPartDetermines(q, p);
      InspectSigned(sys.ring, s.checks[i].text, s.checks[i].at, p.signature);
      InspectSigned(sys.ring, s.checks[j].text, s.checks[j].at, q.signature);
      assert Verifies(sys.ring, p, q.signature);
      assert p.signature == q.signature && s.checks[i].text == s.checks[j].text;
      FollowersDiffer(sys, s, i, j);
    }
  }

  /* ---------- Header lines and arbitrary texts ---------- */

  /** Texts that a header line can carry. */
  predicate HeaderText(text: string) { LineBreakFree(text) }

  lemma SignedHeader(p: SA.Payload, text: string)
    ensures HeaderText(SA.JoinPayload(Signed(p, text))) <==>
              LineBreakFree(p.name) && LineBreakFree(p.timestamp) && LineBreakFree(p.nonce) && LineBreakFree(text)
  {
    var parts := [p.name, p.timestamp, p.nonce, text];
    assert parts[1..] == [p.timestamp, p.nonce, text] && parts[2..] == [p.nonce, text];
    assert parts[3..] == [text] && parts[1..][1..] == parts[2..] && parts[2..][1..] == parts[3..];
    assert Join(parts[2..], '.') == p.nonce + ['.'] + Join(parts[3..], '.');
    assert Join(parts[1..], '.') == p.timestamp + ['.'] + Join(parts[2..], '.');
  }

  /** Verification looks at the decoded bytes only. */
  lemma SpellingVerifies(ring: SA.Keyring, p: SA.Payload, t: string, t': string)
    requires DecodeBase64(t) == DecodeBase64(t') && Verifies(ring, p, t)
    ensures Verifies(ring, p, t')
  {
  }

  /** A spelling of p's signature without line breaks whose cache entry does not last until the given instant. */
  ghost predicate UncoveredSpelling(s: State, p: SA.Payload, t: string, until: int) {
    && LineBreakFree(t) && DecodeBase64(t) == DecodeBase64(p.signature)
    && !Keeps(s.entries, ServiceKey(p.name, t), until)
  }

  ghost predicate SomeUncoveredSpelling(s: State, p: SA.Payload, until: int) {
    exists t :: UncoveredSpelling(s, p, t, until)
  }

  /** The bytes need no padding in base64. */
  predicate FillsGroups(bytes: Bytes) { |bytes| % 3 == 0 }

  /** When the fields of an accepted text are accepted again in a header line. */
  ghost predicate HeaderVerdict(sys: System, s: State, accepted: string, delay: nat) {
    var p := PayloadOf(accepted);
    var bytes, again := DecodeBase64(p.signature), Again(sys, s, OnPart(p, HeaderText), delay);
    && bytes.Some?
    && (FillsGroups(bytes.value) ==> (again <==> Postdated(s, accepted, delay)))
    && (!FillsGroups(bytes.value) ==>
          && (exists t | LineBreakFree(t) && DecodeBase64(t) == bytes :: t != p.signature)
          && (again <==> s.now <= LastInstant(accepted) && SomeUncoveredSpelling(s, p, LastInstant(accepted) + delay)))
  }

  /**
    In header lines, under a key that accepts one byte string on the fields: when its bytes
    fill their last base64 group, the fields are accepted again if and only if they are
    postdated; otherwise the signature has another spelling, and they are accepted again, postdated
    or not, if and only if they are still fresh and the cache entry of some spelling is missing
    or ends too soon.
   */
  lemma HeaderReplayExact(sys: System, s0: State, events: seq<Event>, k: CallId, delay: nat)
    requires Initial(s0) && JustAccepted(Run(sys, s0, events), k, HeaderText)
    requires HeaderText(Run(sys, s0, events).checks[k].text)
    requires OneSignature(sys.ring, PayloadOf(Run(sys, s0, events).checks[k].text))
    ensures var s := Run(sys, s0, events); HeaderVerdict(sys, s, s.checks[k].text, delay)
  {
    hide Apply, SA.Inspect, Sound, OnPart, Again, NoneUnderWay, HeaderText, OneSignature;
    Reachable(sys, s0, events);
    var s := Run(sys, s0, events);
    JustAcceptedInspected(sys, s, k, HeaderText);
    HeaderAgain(sys, s, s.checks[k].text, s.checks[k].at, delay);
  }

  lemma SpellingsAreCarried(sys: System, s: State, accepted: string, at: int, until: int)
    requires SA.Inspect(sys.ring, Some(accepted), at).Ok? && HeaderText(accepted)
    requires OneSignature(sys.ring, PayloadOf(accepted))
    ensures SomeUncovered(sys, s, PayloadOf(accepted), HeaderText, until)
       <==> SomeUncoveredSpelling(s, PayloadOf(accepted), until)
  {
    hide SA.Inspect, HeaderText, OneSignature, Verifies;
    var p := PayloadOf(accepted);
    HeaderSpellings(sys.ring, accepted, at);
    forall t ensures Uncovered(sys, s, p, HeaderText, t, until) <==> UncoveredSpelling(s, p, t, until) {
    }
  }

  lemma HeaderAgain(sys: System, s: State, accepted: string, at: int, delay: nat)
    requires Sound(sys, s) && SA.Inspect(sys.ring, Some(accepted), at).Ok? && HeaderText(accepted)
    requires NoneUnderWay(s, OnPart(PayloadOf(accepted), HeaderText)) && OneSignature(sys.ring, PayloadOf(accepted))
    ensures HeaderVerdict(sys, s, accepted, delay)
  {
    hide SA.Inspect, Sound, OnPart, Again, NoneUnderWay, HeaderText, OneSignature, Verifies, LastInstant;
    hide SomeUncovered, SomeUncoveredSpelling, Postdated, OneText, FillsGroups, PayloadOf, DecodeBase64, SA.JoinPayload;
    var p, until := PayloadOf(accepted), LastInstant(accepted) + delay;
    HeaderSpellings(sys.ring, accepted, at);
    var bytes := DecodeBase64(p.signature).value;
    if FillsGroups(bytes) {
      FilledGroupsAreOneText(sys.ring, accepted, at);
      OneTextAgain(sys, s, accepted, at, HeaderText, delay);
    } else {
      SecondSpelling(p.signature, bytes);
      PartAgain(sys, s, accepted, at, HeaderText, delay);
      SpellingsAreCarried(sys, s, accepted, at, until);
    }
  }

  lemma FilledGroupsAreOneText(ring: SA.Keyring, accepted: string, at: int)
    requires SA.Inspect(ring, Some(accepted), at).Ok? && HeaderText(accepted) && OneSignature(ring, PayloadOf(accepted))
    requires var bytes := DecodeBase64(PayloadOf(accepted).signature); bytes.Some? ==> FillsGroups(bytes.value)
    ensures OneText(ring, PayloadOf(accepted), HeaderText)
  {
    hide SA.Inspect, HeaderText, OneSignature, Verifies;
    var p := PayloadOf(accepted);
    HeaderSpellings(ring, accepted, at);
    OnlySpelling(p.signature);
    forall t | HeaderText(SA.JoinPayload(Signed(p, t))) && Verifies(ring, p, t) ensures t == p.signature {
      OnlySpelling(t);
    }
  }

  /** The carried signatures that verify are the spellings of the accepted bytes. */
  lemma HeaderSpellings(ring: SA.Keyring, text: string, at: int)
    requires SA.Inspect(ring, Some(text), at).Ok? && HeaderText(text) && OneSignature(ring, PayloadOf(text))
    ensures var p := PayloadOf(text);
            && DecodeBase64(p.signature).Some? && LineBreakFree(p.signature) && Verifies(ring, p, p.signature)
            && Signed(p, p.signature) == p
            && forall t :: HeaderText(SA.JoinPayload(Signed(p, t))) && Verifies(ring, p, t)
                      <==> LineBreakFree(t) && DecodeBase64(t) == DecodeBase64(p.signature)
  {
    var p := PayloadOf(text);
    SplitFields(text);
    assert Signed(p, p.signature) == p;
    assert Verifies(ring, p, p.signature);
    VerifiesDecodes(ring, p, p.signature);
    SignedHeader(p, p.signature);
    forall t ensures HeaderText(SA.JoinPayload(Signed(p, t))) && Verifies(ring, p, t)
                <==> LineBreakFree(t) && DecodeBase64(t) == DecodeBase64(p.signature)
    {
      SignedHeader(p, t);
      if DecodeBase64(t) == DecodeBase64(p.signature) {
        SpellingVerifies(ring, p, p.signature, t);
      }
    }
  }

  lemma SecondSpelling(spelling: string, bytes: Bytes)
    requires !FillsGroups(bytes)
    ensures exists other | LineBreakFree(other) && DecodeBase64(other) == Some(bytes) :: other != spelling
  {
    SecondSpellingIff(bytes);
    Base64RoundTrip(bytes);
    WrittenLineBreakFree(Pack(bytes));
    assert LineBreakFree(EncodeBase64(bytes));
  }

  /** Some number exceeds the length of every key. */
  lemma {:induction false} LongestKey(keys: set<string>) returns (n: nat)
    ensures forall k | k in keys :: |k| < n
  {
    n := 0;
    if keys != {} {
      var k :| k in keys;
      var m := LongestKey(keys - {k});
      n := if |k| < m then m else |k| + 1;
    }
  }

  predicate AnyText(text: string) { true }

  /**
    With line breaks allowed there is always a spelling that the cache does not know: signed
    fields are accepted again if and only if they are still fresh, postdated or not.
   */
  lemma AnySpellingReplays(sys: System, s0: State, events: seq<Event>, k: CallId, delay: nat)
    requires Initial(s0) && JustAccepted(Run(sys, s0, events), k, AnyText)
    ensures var s := Run(sys, s0, events);
            Again(sys, s, OnPart(PayloadOf(s.checks[k].text), AnyText), delay)
            <==> s.now <= LastInstant(s.checks[k].text)
  {
    hide Apply, SA.Inspect, Sound, OnPart, Again, NoneUnderWay, LastInstant, SomeUncovered;
    Reachable(sys, s0, events);
    var s := Run(sys, s0, events);
    JustAcceptedInspected(sys, s, k, AnyText);
    PartAgain(sys, s, s.checks[k].text, s.checks[k].at, AnyText, delay);
    UnknownSpelling(sys, s, s.checks[k].text, s.checks[k].at, LastInstant(s.checks[k].text) + delay);
  }

  lemma UnknownSpelling(sys: System, s: State, accepted: string, at: int, until: int)
    requires SA.Inspect(sys.ring, Some(accepted), at).Ok?
    ensures SomeUncovered(sys, s, PayloadOf(accepted), AnyText, until)
  {
    hide SA.Inspect, Verifies;
    var p := PayloadOf(accepted);
    OwnVerifies(sys.ring, accepted, at);
    var n := LongestKey(s.entries.Keys);
    var spelling := p.signature + LineBreaks(n);
    LineBreaksIgnored(p.signature, n);
    SpellingVerifies(sys.ring, p, p.signature, spelling);
    assert |ServiceKey(p.name, spelling)| >= n;
    assert Uncovered(sys, s, p, AnyText, spelling, until);
  }

  lemma OwnVerifies(ring: SA.Keyring, text: string, at: int)
    requires SA.Inspect(ring, Some(text), at).Ok?
    ensures Verifies(ring, PayloadOf(text), PayloadOf(text).signature)
  {
  }
}
