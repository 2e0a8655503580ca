/**
  When a payload is accepted again. The cache remembers the text of a signature from its
  writing on, so what counts is which calls are under way, which texts a transport carries,
  and which signatures a key accepts on the same fields.
 */
module Replay {
  import opened Wrappers
  import opened Encoding
  import opened TtlCache
  import SA = ServiceAuthentication
  import opened Siwe
  import opened Protocol
  import opened CacheSafety
  import opened Challenges
  import opened Agreement

  /* ---------- At most one acceptance, for any class of texts ---------- */

  /** A reading of the cache comes at most `delay` after the call's freshness check. */
  predicate InTime(s: State, e: Event, delay: nat) {
    e.ReadSeen? && e.call in s.checks && s.checks[e.call].Checked? ==> s.now <= s.checks[e.call].at + delay
  }

  predicate InTimeRun(sys: System, s: State, events: seq<Event>, delay: nat)
    decreases |events|
  {
    events == [] || (InTime(s, events[0], delay) && InTimeRun(sys, Apply(sys, s, events[0]), events[1..], delay))
  }

  /** A new call with this text can pass: it is fresh, and its entry does not outlast its window. */
  ghost predicate Admissible(sys: System, s: State, text: string, delay: nat) {
    && SA.Inspect(sys.ring, Some(text), s.now).Ok?
    && !Keeps(s.entries, SeenKey(text), DatedAt(text) + SA.PAYLOAD_DURATION + delay)
  }

  /** Check k of a text in the class has passed, or still can. */
  ghost predicate Live(s: State, k: CallId, kind: string -> bool, delay: nat) {
    && k in s.checks && !s.checks[k].Refused? && kind(s.checks[k].text)
    && (s.checks[k].Checked? ==>
          && s.now <= s.checks[k].at + delay
          && !Keeps(s.entries, SeenKey(s.checks[k].text), s.checks[k].at + delay))
  }

  predicate Accepts(s: State, k: CallId, kind: string -> bool) { Accepted(s, k) && kind(s.checks[k].text) }

  ghost predicate AcceptedOnce(s: State, kind: string -> bool) {
    forall i, j | Accepts(s, i, kind) && Accepts(s, j, kind) :: i == j
  }

  ghost predicate AlwaysAcceptedOnce(sys: System, s: State, kind: string -> bool, delay: nat) {
    forall more | InTimeRun(sys, s, more, delay) :: AcceptedOnce(Run(sys, s, more), kind)
  }

  ghost predicate NoneAdmissible(sys: System, s: State, kind: string -> bool, delay: nat) {
    forall text | kind(text) :: !Admissible(sys, s, text, delay)
  }

  /** No new call can pass, and at most one check has passed or still can. */
  ghost predicate Exhausted(sys: System, s: State, kind: string -> bool, delay: nat) {
    NoneAdmissible(sys, s, kind, delay)
    && forall i, j | Live(s, i, kind, delay) && Live(s, j, kind, delay) :: i == j
  }

  lemma InadmissibleForGood(sys: System, s: State, e: Event, text: string, delay: nat)
    requires Sound(sys, s) && !Admissible(sys, s, text, delay)
    ensures !Admissible(sys, Apply(sys, s, e), text, delay)
  {
    hide Apply, Sound, SeenKey, DatedAt, SA.Inspect;
    var s' := Apply(sys, s, e);
    Frame(sys, s, e);
    if SA.Inspect(sys.ring, Some(text), s'.now).Ok? {
      InspectAtAnotherTime(sys.ring, text, s'.now, s.now);
      KeptKey(sys, s, e, text, s'.now, DatedAt(text) + SA.PAYLOAD_DURATION + delay);
    }
  }

  lemma KeptKey(sys: System, s: State, e: Event, text: string, now: int, until: int)
    requires Sound(sys, s) && SA.Inspect(sys.ring, Some(text), now).Ok? && Keeps(s.entries, SeenKey(text), until)
    ensures Keeps(Apply(sys, s, e).entries, SeenKey(text), until)
  {
    hide Apply, Sound;
    InspectedText(sys, text, now);
    KeepsStep(sys, s, e, PayloadOf(text).name, PayloadOf(text).signature, until);
  }

  /** A new check of an inadmissible text cannot pass. */
  lemma NewCheckIsDead(sys: System, s: State, e: Event, delay: nat)
    requires Sound(sys, s) && e.StartCheck? && e.call !in s.checks && e.payload.Some?
    requires !Admissible(sys, s, e.payload.value, delay)
    ensures Apply(sys, s, e).checks[e.call].Checked? ==>
              Keeps(Apply(sys, s, e).entries, SeenKey(e.payload.value), s.now + delay)
  {
    hide Sound, SeenKey, DatedAt, SA.Inspect;
    if SA.Inspect(sys.ring, e.payload, s.now).Ok? {
      InspectAtAnotherTime(sys.ring, e.payload.value, s.now, s.now);
    }
  }

  /** A reading in time that finds no entry was possible before. */
  lemma ReadingWasLive(sys: System, s: State, e: Event, kind: string -> bool, delay: nat)
    requires InTime(s, e, delay) && e.ReadSeen? && e.call in s.checks && s.checks[e.call].Checked?
    requires Live(Apply(sys, s, e), e.call, kind, delay)
    ensures Live(s, e.call, kind, delay)
  {
    hide SA.Inspect, SeenKey;
  }

  /** What a step can do to a check: nothing, or move it on with its text. */
  lemma CheckMoves(sys: System, s: State, e: Event, k: CallId)
    requires k in Apply(sys, s, e).checks && !Apply(sys, s, e).checks[k].Refused?
    ensures var c' := Apply(sys, s, e).checks[k];
            && (k in s.checks ==>
                  && !s.checks[k].Refused? && s.checks[k].text == c'.text && s.checks[k].at == c'.at
                  && (s.checks[k].Checked? && !c'.Checked? ==> e.ReadSeen? && e.call == k)
                  && (c'.Checked? ==> s.checks[k].Checked?))
            && (k !in s.checks ==> e == StartCheck(k, Some(c'.text)) && c' == Checked(c'.text, s.now))
  {
    hide SA.Inspect, Compose, SiweKey, ServiceKey, NormalizeHex, IsHexAddress, PayloadOf;
    if k !in s.checks {
      assert e.StartCheck?;
      NoTextNoCheck(sys, e.payload, s.now);
    }
  }

  lemma StillLive(sys: System, s: State, e: Event, k: CallId, kind: string -> bool, delay: nat)
    requires Sound(sys, s) && NoneAdmissible(sys, s, kind, delay) && InTime(s, e, delay)
    requires Live(Apply(sys, s, e), k, kind, delay)
    ensures Live(s, k, kind, delay)
  {
    hide Apply, CellsRefined, FetchesOk, DeletionsHold, AsksOk, SeenKept, SeenBrief, ReadsSpaced, SeenKey, Admissible;
    var s' := Apply(sys, s, e);
    CheckMoves(sys, s, e, k);
    Frame(sys, s, e);
    if k !in s.checks {
      NewCheckIsDead(sys, s, e, delay);
    } else if s.checks[k].Checked? {
      if s'.checks[k].Checked? {
        if Keeps(s.entries, SeenKey(s.checks[k].text), s.checks[k].at + delay) {
          assert CheckOk(sys, s, s.checks[k]);
          KeptKey(sys, s, e, s.checks[k].text, s.checks[k].at, s.checks[k].at + delay);
        }
      } else {
        ReadingWasLive(sys, s, e, kind, delay);
      }
    }
  }

  lemma {:induction false} ExhaustedForGood(sys: System, s: State, more: seq<Event>, kind: string -> bool, delay: nat)
    requires Sound(sys, s) && NoneAdmissible(sys, s, kind, delay) && InTimeRun(sys, s, more, delay)
    ensures forall k | Live(Run(sys, s, more), k, kind, delay) :: Live(s, k, kind, delay)
    decreases |more|
  {
    hide Apply, Sound, Live, Admissible, InTime;
    if more != [] {
      var s' := Apply(sys, s, more[0]);
      forall text | kind(text) ensures !Admissible(sys, s', text, delay) {
        InadmissibleForGood(sys, s, more[0], text, delay);
      }
      StepSound(sys, s, more[0]);
      ExhaustedForGood(sys, s', more[1..], kind, delay);
      forall k | Live(Run(sys, s, more), k, kind, delay) ensures Live(s, k, kind, delay) {
        StillLive(sys, s, more[0], k, kind, delay);
      }
    }
  }

  /* ---------- The runs that accept twice ---------- */

  lemma {:induction false} InTimeConcat(sys: System, s: State, a: seq<Event>, b: seq<Event>, delay: nat)
    requires InTimeRun(sys, s, a, delay) && InTimeRun(sys, Run(sys, s, a), b, delay)
    ensures InTimeRun(sys, s, a + b, delay)
    decreases |a|
  {
    hide Apply, InTime;
    if a == [] {
      assert a + b == b;
    } else {
      assert (a + b)[1..] == a[1..] + b;
      InTimeConcat(sys, Apply(sys, s, a[0]), a[1..], b, delay);
    }
  }

  lemma InTimeOne(sys: System, s: State, e: Event, delay: nat)
    requires InTime(s, e, delay)
    ensures InTimeRun(sys, s, [e], delay)
  {
    hide Apply;
    assert [e][1..] == [];
    assert InTimeRun(sys, Apply(sys, s, e), [e][1..], delay);
  }

  /** A live check waits until its last instant and reads. */
  lemma Advance(sys: System, s: State, k: CallId, kind: string -> bool, delay: nat) returns (more: seq<Event>)
    requires Live(s, k, kind, delay)
    ensures InTimeRun(sys, s, more, delay)
    ensures var s', c := Run(sys, s, more), s.checks[k];
            && Live(s', k, kind, delay) && HasRoom(s'.checks[k])
            && s'.entries == s.entries && s'.now == (if c.Checked? then c.at + delay else s.now)
            && (Accepted(s, k) ==> Accepted(s', k))
            && forall j | j in s.checks && j != k :: j in s'.checks && s'.checks[j] == s.checks[j]
  {
    more := [];
    if s.checks[k].Checked? {
      var wait, read := Tick(s.checks[k].at + delay - s.now), ReadSeen(k, false);
      more := [wait, read];
      RunTwo(sys, s, wait, read);
      var s1 := Apply(sys, s, wait);
      InTimeOne(sys, s, wait, delay);
      RunOne(sys, s, wait);
      InTimeOne(sys, s1, read, delay);
      InTimeConcat(sys, s, [wait], [read], delay);
      assert more == [wait] + [read];
      ReadPasses(sys, s1, k);
    }
  }

  lemma ReadPasses(sys: System, s: State, k: CallId)
    requires k in s.checks && s.checks[k].Checked? && !Keeps(s.entries, SeenKey(s.checks[k].text), s.now)
    ensures var s', c := Apply(sys, s, ReadSeen(k, false)), s.checks[k];
            && s'.checks == s.checks[k := Unseen(c.text, c.at, s.now, s.step)]
            && s'.entries == s.entries && s'.now == s.now
  {
    hide SeenKey;
  }

  /** A check that has read writes, unless it has written already. */
  lemma Complete(sys: System, s: State, k: CallId, kind: string -> bool, delay: nat) returns (more: seq<Event>)
    requires Live(s, k, kind, delay) && HasRoom(s.checks[k])
    ensures InTimeRun(sys, s, more, delay)
    ensures var s' := Run(sys, s, more);
            && Accepts(s', k, kind)
            && forall j | j in s.checks && j != k :: j in s'.checks && s'.checks[j] == s.checks[j]
  {
    hide SeenKey;
    more := [];
    if s.checks[k].Unseen? {
      more := [WriteSeen(k, NoFault)];
      RunOne(sys, s, more[0]);
      InTimeOne(sys, s, more[0], delay);
    }
  }

  lemma CompleteTwo(sys: System, s: State, i: CallId, j: CallId, kind: string -> bool, delay: nat)
    returns (more: seq<Event>)
    requires Live(s, i, kind, delay) && Live(s, j, kind, delay) && i != j
    requires HasRoom(s.checks[i]) && HasRoom(s.checks[j])
    ensures InTimeRun(sys, s, more, delay) && !AcceptedOnce(Run(sys, s, more), kind)
  {
    hide Apply, SeenKey;
    var a := Complete(sys, s, i, kind, delay);
    var s1 := Run(sys, s, a);
    assert Live(s1, j, kind, delay);
    var b := Complete(sys, s1, j, kind, delay);
    more := a + b;
    RunConcat(sys, s, a, b);
    InTimeConcat(sys, s, a, b, delay);
    var s2 := Run(sys, s1, b);
    assert Accepts(s2, i, kind) && Accepts(s2, j, kind);
  }

  function Deadline(s: State, k: CallId, delay: nat): int
    requires k in s.checks
  {
    if s.checks[k].Checked? then s.checks[k].at + delay else s.now
  }

  /** Two live checks, the one with the earlier deadline first: read, read, write, write. */
  lemma TwoLivePass(sys: System, s: State, i: CallId, j: CallId, kind: string -> bool, delay: nat)
    returns (more: seq<Event>)
    requires Live(s, i, kind, delay) && Live(s, j, kind, delay) && i != j
    requires Deadline(s, i, delay) <= Deadline(s, j, delay) || !s.checks[j].Checked?
    ensures InTimeRun(sys, s, more, delay) && !AcceptedOnce(Run(sys, s, more), kind)
  {
    hide Apply, SeenKey;
    var a := Advance(sys, s, i, kind, delay);
    var s1 := Run(sys, s, a);
    assert Live(s1, j, kind, delay);
    var b := Advance(sys, s1, j, kind, delay);
    var s2 := Run(sys, s1, b);
    assert Live(s2, i, kind, delay);
    var c := CompleteTwo(sys, s2, i, j, kind, delay);
    RunConcat(sys, s, a, b);
    InTimeConcat(sys, s, a, b, delay);
    more := (a + b) + c;
    RunConcat(sys, s, a + b, c);
    InTimeConcat(sys, s, a + b, c, delay);
  }

  /** Two copies of an admissible text are checked at its last instant. */
  lemma TwoCopies(sys: System, s: State, text: string, kind: string -> bool, delay: nat)
    returns (start: seq<Event>, a: CallId, b: CallId)
    requires kind(text) && Admissible(sys, s, text, delay)
    ensures InTimeRun(sys, s, start, delay) && a != b && a !in s.checks && b !in s.checks
    ensures var s' := Run(sys, s, start);
            Live(s', a, kind, delay) && Live(s', b, kind, delay) && Deadline(s', a, delay) == Deadline(s', b, delay)
  {
    var last := DatedAt(text) + SA.PAYLOAD_DURATION;
    InspectAtAnotherTime(sys.ring, text, s.now, last);
    a := UnusedNumber(s.checks.Keys);
    b := a + 1;
    var e1, e2, e3 := Tick(last - s.now), StartCheck(a, Some(text)), StartCheck(b, Some(text));
    start := [e1, e2, e3];
    RunThree(sys, s, e1, e2, e3);
    InTimeOne(sys, s, e1, delay);
    RunOne(sys, s, e1);
    InTimeOne(sys, Apply(sys, s, e1), e2, delay);
    InTimeConcat(sys, s, [e1], [e2], delay);
    assert [e1] + [e2] == [e1, e2];
    RunTwo(sys, s, e1, e2);
    InTimeOne(sys, Apply(sys, Apply(sys, s, e1), e2), e3, delay);
    InTimeConcat(sys, s, [e1, e2], [e3], delay);
    assert [e1, e2] + [e3] == start;
    BothChecked(sys, Apply(sys, s, e1), text, a, b);
  }

  lemma BothChecked(sys: System, s: State, text: string, a: CallId, b: CallId)
    requires SA.Inspect(sys.ring, Some(text), s.now).Ok? && a !in s.checks && b !in s.checks && a != b
    ensures var s' := Apply(sys, Apply(sys, s, StartCheck(a, Some(text))), StartCheck(b, Some(text)));
            && s'.checks == s.checks[a := Checked(text, s.now)][b := Checked(text, s.now)]
            && s'.entries == s.entries && s'.now == s.now
  {
    hide SA.Inspect;
  }

  /** The failing interleaving: check, check, read, read, write, write accepts both copies of a payload. */
  lemma OverlapAcceptsTwice(sys: System, s: State, text: string, kind: string -> bool, delay: nat)
    requires kind(text) && Admissible(sys, s, text, delay)
    ensures !AlwaysAcceptedOnce(sys, s, kind, delay)
  {
    hide Apply, SeenKey, SA.Inspect;
    var start, a, b := TwoCopies(sys, s, text, kind, delay);
    var rest := TwoLivePass(sys, Run(sys, s, start), a, b, kind, delay);
    RunConcat(sys, s, start, rest);
    InTimeConcat(sys, s, start, rest, delay);
    assert InTimeRun(sys, s, start + rest, delay) && !AcceptedOnce(Run(sys, s, start + rest), kind);
  }

  /**
    The exact condition for "accepted at most once", in every interleaving, for any class of
    payload texts and any delay d that calls may take from their freshness check to the cache:
    no text of the class is fresh with a cache entry that ends before d after its window, and
    at most one check of the class has passed or can still read the cache in time.
   */
  lemma AcceptedOnceExact(sys: System, s0: State, events: seq<Event>, kind: string -> bool, delay: nat)
    requires Initial(s0)
    ensures AlwaysAcceptedOnce(sys, Run(sys, s0, events), kind, delay)
       <==> Exhausted(sys, Run(sys, s0, events), kind, delay)
  {
    hide Apply, Sound, SeenKey, Admissible, Initial;
    var s := Run(sys, s0, events);
    Reachable(sys, s0, events);
    if Exhausted(sys, s, kind, delay) {
      forall more | InTimeRun(sys, s, more, delay) ensures AcceptedOnce(Run(sys, s, more), kind) {
        ExhaustedForGood(sys, s, more, kind, delay);
        assert forall k | Accepts(Run(sys, s, more), k, kind) :: Live(Run(sys, s, more), k, kind, delay);
      }
    } else if !NoneAdmissible(sys, s, kind, delay) {
      var text :| kind(text) && Admissible(sys, s, text, delay);
      OverlapAcceptsTwice(sys, s, text, kind, delay);
    } else {
      var i, j :| Live(s, i, kind, delay) && Live(s, j, kind, delay) && i != j;
      var more;
      if Deadline(s, i, delay) <= Deadline(s, j, delay) {
        more := TwoLivePass(sys, s, i, j, kind, delay);
      } else {
        more := TwoLivePass(sys, s, j, i, kind, delay);
      }
    }
  }

  /* ---------- One more acceptance ---------- */

  /** In some continuation a call of the class is accepted that has not been so far. */
  ghost predicate Again(sys: System, s: State, kind: string -> bool, delay: nat) {
    exists more, k | InTimeRun(sys, s, more, delay) :: Accepts(Run(sys, s, more), k, kind) && !Accepts(s, k, kind)
  }

  /** No call of the class is between its freshness check and its acceptance. */
  ghost predicate NoneUnderWay(s: State, kind: string -> bool) {
    forall k | k in s.checks && !s.checks[k].Refused? && kind(s.checks[k].text) :: s.checks[k].Admitted?
  }

  lemma LiveIsAcceptedLater(sys: System, s: State, k: CallId, kind: string -> bool, delay: nat)
    requires Live(s, k, kind, delay)
    ensures exists more | InTimeRun(sys, s, more, delay) :: Accepts(Run(sys, s, more), k, kind)
  {
    hide Apply, Live, SeenKey;
    var a := Advance(sys, s, k, kind, delay);
    var b := Complete(sys, Run(sys, s, a), k, kind, delay);
    RunConcat(sys, s, a, b);
    InTimeConcat(sys, s, a, b, delay);
    assert InTimeRun(sys, s, a + b, delay) && Accepts(Run(sys, s, a + b), k, kind);
  }

  /** With no call under way: one more is accepted exactly when some text of the class is admissible. */
  lemma AgainExact(sys: System, s: State, kind: string -> bool, delay: nat)
    requires Sound(sys, s) && NoneUnderWay(s, kind)
    ensures Again(sys, s, kind, delay) <==> !NoneAdmissible(sys, s, kind, delay)
  {
    hide Apply, Sound, SeenKey, Admissible;
    if NoneAdmissible(sys, s, kind, delay) {
      forall more, k | InTimeRun(sys, s, more, delay) && Accepts(Run(sys, s, more), k, kind)
        ensures Accepts(s, k, kind)
      {
        ExhaustedForGood(sys, s, more, kind, delay);
        assert Live(Run(sys, s, more), k, kind, delay);
      }
    } else {
      var text :| kind(text) && Admissible(sys, s, text, delay);
      var start, a, b := TwoCopies(sys, s, text, kind, delay);
      LiveIsAcceptedLater(sys, Run(sys, s, start), a, kind, delay);
      var more :| InTimeRun(sys, Run(sys, s, start), more, delay)
        && Accepts(Run(sys, Run(sys, s, start), more), a, kind);
      RunConcat(sys, s, start, more);
      InTimeConcat(sys, s, start, more, delay);
      assert !Accepts(s, a, kind);
      assert InTimeRun(sys, s, start + more, delay) && Accepts(Run(sys, s, start + more), a, kind);
    }
  }
}
