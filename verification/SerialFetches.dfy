/**
  Fetches that nobody disturbs: when no other write or deletion for its wallet comes between
  the reading and the deletion of a fetch, each challenge has one fate, and when returned
  fetches do not overlap, none is handed out twice.
 */
module SerialFetches {
  import opened Encoding
  import opened TtlCache
  import SA = ServiceAuthentication
  import SM = SiweMessage
  import opened Siwe
  import opened Protocol
  import opened CacheSafety
  import opened Challenges

  /* ---------- Deletions that find what their fetch has read ---------- */

  predicate FindsOwn(sys: System, s: State, e: Event) {
    e.DeleteChallenge? && e.call in s.fetches && s.fetches[e.call].Holding? ==> HoldsPending(sys, s, s.fetches[e.call])
  }

  predicate FindsOwnRun(sys: System, s: State, events: seq<Event>)
    decreases |events|
  {
    events == [] || (FindsOwn(sys, s, events[0]) && FindsOwnRun(sys, Apply(sys, s, events[0]), events[1..]))
  }

  predicate EachOnce(s: State) {
    forall i, j | i in s.fetches && j in s.fetches && s.fetches[i].Returned? && s.fetches[j].Returned?
                  && s.fetches[i].origin == s.fetches[j].origin :: i == j
  }

  /** With such deletions nothing is late or swept, and no challenge is handed out twice. */
  lemma OwnStep(sys: System, s: State, e: Event, w: string)
    requires Sound(sys, s) && EachOnce(s) && FindsOwn(sys, s, e)
    ensures EachOnce(Apply(sys, s, e))
    ensures Entered(sys, s, e, w).late == 0 && Entered(sys, s, e, w).swept == 0
  {
    hide Apply, CellsRefined, AsksOk, ChecksOk, SiweKey, IsWallet, Held;
    var s' := Apply(sys, s, e);
    StepGrows(sys, s, e);
    forall i, j | i in s'.fetches && j in s'.fetches && s'.fetches[i].Returned? && s'.fetches[j].Returned?
                  && s'.fetches[i].origin == s'.fetches[j].origin && i != j
      ensures false
    {
      if j in s.fetches && s.fetches[j].Returned? {
        if !(i in s.fetches && s.fetches[i].Returned?) {
          OwnReturnIsFirst(sys, s, e, i, j);
        }
      } else {
        ReturnsOneAtATime(sys, s, e, i, j);
        OwnReturnIsFirst(sys, s, e, j, i);
      }
    }
  }

  lemma ReturnsOneAtATime(sys: System, s: State, e: Event, i: CallId, j: CallId)
    requires i in Apply(sys, s, e).fetches && j in Apply(sys, s, e).fetches && i != j
    requires Apply(sys, s, e).fetches[i].Returned? && Apply(sys, s, e).fetches[j].Returned?
    requires !(j in s.fetches && s.fetches[j].Returned?)
    ensures i in s.fetches && s.fetches[i].Returned? && Apply(sys, s, e).fetches[i] == s.fetches[i]
  {
    hide Compose, SA.Inspect, SiweKey, ServiceKey, NormalizeHex, IsHexAddress;
  }

  lemma OwnReturnIsFirst(sys: System, s: State, e: Event, i: CallId, j: CallId)
    requires Sound(sys, s) && FindsOwn(sys, s, e)
    requires i in Apply(sys, s, e).fetches && Apply(sys, s, e).fetches[i].Returned?
    requires !(i in s.fetches && s.fetches[i].Returned?)
    requires j in s.fetches && s.fetches[j].Returned?
    ensures s.fetches[j].origin != Apply(sys, s, e).fetches[i].origin
  {
    hide Compose, SA.Inspect, SiweKey, ServiceKey, NormalizeHex, IsHexAddress, CellsRefined, AsksOk, ChecksOk;
    assert e.DeleteChallenge? && e.call == i && s.fetches[i].Holding?;
    assert HoldsPending(sys, s, s.fetches[i]);
    assert DeletedForGood(s, j);
  }

  lemma {:induction false} OwnRun(sys: System, s: State, events: seq<Event>, w: string)
    requires Sound(sys, s) && EachOnce(s) && FindsOwnRun(sys, s, events)
    ensures EachOnce(Run(sys, s, events))
    ensures Account(sys, s, events, w).late == 0 && Account(sys, s, events, w).swept == 0
    decreases |events|
  {
    hide Sound, Apply, Entered, EachOnce, FindsOwn;
    if events != [] {
      OwnStep(sys, s, events[0], w);
      StepSound(sys, s, events[0]);
      OwnRun(sys, Apply(sys, s, events[0]), events[1..], w);
    }
  }

  lemma OwnConserved(sys: System, s0: State, events: seq<Event>, w: string)
    requires Initial(s0) && FindsOwnRun(sys, s0, events) && IsWallet(w)
    ensures var l := Account(sys, s0, events, w);
            l.issued == Held(sys, Run(sys, s0, events), w) + l.returned + l.superseded + l.expired + l.lost
    ensures forall k :: HandedOutOnce(Run(sys, s0, events), k)
  {
    hide Sound, FindsOwnRun;
    InitialSound(sys, s0);
    OwnRun(sys, s0, events, w);
    ChallengesConserved(sys, s0, events, w);
  }

  /* ---------- Deletions that follow their reading at once ---------- */

  predicate Prompt(s: State, e: Event) {
    e.DeleteChallenge? && e.call in s.fetches && s.fetches[e.call].Holding? ==>
      s.fetches[e.call].readStep + 1 == s.step
  }

  /** No event stands between the reading and the deletion of a fetch. */
  predicate PromptRun(sys: System, s: State, events: seq<Event>)
    decreases |events|
  {
    events == [] || (Prompt(s, events[0]) && PromptRun(sys, Apply(sys, s, events[0]), events[1..]))
  }

  /** What was read by the latest event is still pending. */
  ghost predicate LatestPending(sys: System, s: State) {
    forall j | j in s.fetches && s.fetches[j].Holding? && s.fetches[j].readStep + 1 == s.step ::
      HoldsPending(sys, s, s.fetches[j])
  }

  lemma LatestPendingStep(sys: System, s: State, e: Event)
    requires Sound(sys, s)
    ensures LatestPending(sys, Apply(sys, s, e))
  {
    hide Apply, CellsRefined, AsksOk, ChecksOk, DeletionsHold, SiweKey, IsWallet, CellsHaveSource;
    var s' := Apply(sys, s, e);
    Frame(sys, s, e);
    forall j | j in s'.fetches && s'.fetches[j].Holding? && s'.fetches[j].readStep + 1 == s'.step
      ensures HoldsPending(sys, s', s'.fetches[j])
    {
      if j in s.fetches && HasRead(s.fetches[j]) {
        ReadStays(sys, s, e, j);
        OlderReading(sys, s, j);
      } else {
        ReadsComeFromCell(sys, s, e, j);
        ReadingHoldsPending(sys, s, e);
      }
    }
  }

  lemma OlderReading(sys: System, s: State, j: CallId)
    requires Sound(sys, s) && j in s.fetches && HasRead(s.fetches[j])
    ensures s.fetches[j].readStep < s.step
  {
    assert FetchOk(s, s.fetches[j]);
  }

  lemma ReadingHoldsPending(sys: System, s: State, e: Event)
    requires Sound(sys, s) && e.ReadChallenge? && e.call in s.fetches && s.fetches[e.call].Started?
    requires var s' := Apply(sys, s, e); e.call in s'.fetches && HasRead(s'.fetches[e.call])
    ensures var s' := Apply(sys, s, e);
            s'.fetches[e.call].Holding? && HoldsPending(sys, s', s'.fetches[e.call])
  {
    hide SiweKey, NormalizeHex, IsHexAddress, Compose, SA.Inspect;
    assert FetchOk(s, s.fetches[e.call]);
    ReadIsRecord(sys, s, s.fetches[e.call].wallet);
  }

  lemma PromptFindsOwn(sys: System, s: State, e: Event)
    requires LatestPending(sys, s) && Prompt(s, e)
    ensures FindsOwn(sys, s, e)
  {
  }

  lemma {:induction false} PromptFindsOwnRun(sys: System, s: State, events: seq<Event>)
    requires Sound(sys, s) && LatestPending(sys, s) && PromptRun(sys, s, events)
    ensures FindsOwnRun(sys, s, events)
    decreases |events|
  {
    hide Sound, Apply, LatestPending, Prompt, FindsOwn;
    if events != [] {
      PromptFindsOwn(sys, s, events[0]);
      LatestPendingStep(sys, s, events[0]);
      StepSound(sys, s, events[0]);
      PromptFindsOwnRun(sys, Apply(sys, s, events[0]), events[1..]);
    }
  }

  /**
    When each deletion comes right after its own reading, every challenge written is pending,
    returned, superseded, expired or lost, and none is returned twice.
   */
  lemma PromptlyConserved(sys: System, s0: State, events: seq<Event>, w: string)
    requires Initial(s0) && PromptRun(sys, s0, events) && IsWallet(w)
    ensures var l := Account(sys, s0, events, w);
            l.issued == Held(sys, Run(sys, s0, events), w) + l.returned + l.superseded + l.expired + l.lost
    ensures forall k :: HandedOutOnce(Run(sys, s0, events), k)
  {
    hide Sound, FindsOwnRun, PromptRun;
    InitialSound(sys, s0);
    PromptFindsOwnRun(sys, s0, events);
    OwnConserved(sys, s0, events, w);
  }

  /* ---------- Deletions with time and other wallets in between ---------- */

  /** The state before event n of a run. */
  function Before(sys: System, s0: State, events: seq<Event>, n: nat): State
    requires n <= |events|
  {
    Run(sys, s0, events[..n])
  }

  /**
    If event n is a deletion: since the reading of its fetch no write and no deletion for the
    wallet has taken effect, and the challenge is still in its time.
   */
  predicate Undisturbed(sys: System, s0: State, events: seq<Event>, n: nat)
    requires n < |events|
  {
    var s, e := Before(sys, s0, events, n), events[n];
    e.DeleteChallenge? && e.call in s.fetches && s.fetches[e.call].Holding? ==>
      var f := s.fetches[e.call];
      && Written(s, f.origin) && s.now <= s.asks[f.origin].writtenAt + SM.EXPIRATION
      && forall m | 0 <= m < n && f.readStep - s0.step < m ::
           Cell(Before(sys, s0, events, m + 1), f.wallet) == Cell(Before(sys, s0, events, m), f.wallet)
  }

  predicate UndisturbedRun(sys: System, s0: State, events: seq<Event>) {
    forall n | 0 <= n < |events| :: Undisturbed(sys, s0, events, n)
  }

  lemma BeforeNext(sys: System, s0: State, events: seq<Event>, n: nat)
    requires n < |events|
    ensures Before(sys, s0, events, n + 1) == Apply(sys, Before(sys, s0, events, n), events[n])
  {
    hide Apply;
    assert events[..n + 1] == events[..n] + [events[n]];
    RunConcat(sys, s0, events[..n], [events[n]]);
    RunOne(sys, Before(sys, s0, events, n), events[n]);
  }

  lemma {:induction false} BeforeSound(sys: System, s0: State, events: seq<Event>, n: nat)
    requires Initial(s0) && n <= |events|
    ensures Sound(sys, Before(sys, s0, events, n)) && LatestPending(sys, Before(sys, s0, events, n))
    ensures Before(sys, s0, events, n).step == s0.step + n
    decreases n
  {
    hide Apply, Sound, LatestPending;
    if n == 0 {
      InitialSound(sys, s0);
      NothingHeld(sys, s0);
    } else {
      BeforeSound(sys, s0, events, n - 1);
      BeforeNext(sys, s0, events, n - 1);
      var s := Before(sys, s0, events, n - 1);
      Frame(sys, s, events[n - 1]);
      StepSound(sys, s, events[n - 1]);
      LatestPendingStep(sys, s, events[n - 1]);
    }
  }

  lemma NothingHeld(sys: System, s: State)
    requires Initial(s)
    ensures LatestPending(sys, s)
  {
  }

  /** A fetch that holds a message has held it since the event after which it was read. */
  lemma {:induction false} HeldSince(sys: System, s0: State, events: seq<Event>, n: nat, c: CallId)
    requires Initial(s0) && n <= |events|
    requires var s := Before(sys, s0, events, n); c in s.fetches && s.fetches[c].Holding?
    ensures var f := Before(sys, s0, events, n).fetches[c];
            && 0 <= f.readStep - s0.step < n
            && var t := Before(sys, s0, events, f.readStep - s0.step + 1);
               && c in t.fetches && t.fetches[c] == f && f.readStep + 1 == t.step
    decreases n
  {
    hide Apply, Sound, LatestPending;
    BeforeSound(sys, s0, events, n);
    if n > 0 {
      BeforeSound(sys, s0, events, n - 1);
      BeforeNext(sys, s0, events, n - 1);
      HeldOrRead(sys, Before(sys, s0, events, n - 1), events[n - 1], c);
      if c in Before(sys, s0, events, n - 1).fetches && Before(sys, s0, events, n - 1).fetches[c].Holding? {
        HeldSince(sys, s0, events, n - 1, c);
      }
    }
  }

  lemma HeldOrRead(sys: System, s: State, e: Event, c: CallId)
    requires c in Apply(sys, s, e).fetches && Apply(sys, s, e).fetches[c].Holding?
    ensures c in s.fetches
    ensures s.fetches[c].Holding? ==> Apply(sys, s, e).fetches[c] == s.fetches[c]
    ensures !s.fetches[c].Holding? ==> Apply(sys, s, e).fetches[c].readStep == s.step
  {
    hide SA.Inspect, Compose, SiweKey, ServiceKey, NormalizeHex, IsHexAddress;
  }

  lemma {:induction false} CellSince(sys: System, s0: State, events: seq<Event>, from: nat, n: nat, w: string)
    requires from <= n <= |events|
    requires forall m | from <= m < n :: Cell(Before(sys, s0, events, m + 1), w) == Cell(Before(sys, s0, events, m), w)
    ensures Cell(Before(sys, s0, events, n), w) == Cell(Before(sys, s0, events, from), w)
    decreases n
  {
    hide Before;
    if from < n {
      CellSince(sys, s0, events, from, n - 1, w);
      assert Cell(Before(sys, s0, events, n - 1 + 1), w) == Cell(Before(sys, s0, events, n - 1), w);
    }
  }

  /** The cell holds what the fetch has read, in its time: so does the cache. */
  lemma CellHoldsPending(sys: System, s: State, f: Fetching)
    requires Sound(sys, s) && f.Holding? && FetchOk(s, f)
    requires f.wallet in s.pending && s.pending[f.wallet].asked == f.origin
    requires s.now <= s.asks[f.origin].writtenAt + SM.EXPIRATION
    ensures HoldsPending(sys, s, f)
  {
    hide SiweKey, AsksOk, ChecksOk, DeletionsHold, SeenKept, SeenBrief, ReadsSpaced;
    assert Refined(s.entries, ChallengeKey(sys, f.wallet), Cell(s, f.wallet));
    assert Source(s, f.wallet, s.pending[f.wallet]);
  }

  lemma UndisturbedFindsOwn(sys: System, s0: State, events: seq<Event>, n: nat)
    requires Initial(s0) && n < |events| && Undisturbed(sys, s0, events, n)
    ensures FindsOwn(sys, Before(sys, s0, events, n), events[n])
  {
    hide Before, Apply, Sound, LatestPending, HoldsPending, Held;
    var s, e := Before(sys, s0, events, n), events[n];
    if e.DeleteChallenge? && e.call in s.fetches && s.fetches[e.call].Holding? {
      var f := s.fetches[e.call];
      HeldSince(sys, s0, events, n, e.call);
      var from := f.readStep - s0.step + 1;
      var t := Before(sys, s0, events, from);
      BeforeSound(sys, s0, events, from);
      BeforeSound(sys, s0, events, n);
      HeldNow(sys, t, e.call);
      CellSince(sys, s0, events, from, n, f.wallet);
      FetchIsOk(sys, s, e.call);
      CellHoldsPending(sys, s, f);
    }
  }

  lemma HeldNow(sys: System, s: State, c: CallId)
    requires LatestPending(sys, s) && c in s.fetches && s.fetches[c].Holding? && s.fetches[c].readStep + 1 == s.step
    ensures var f := s.fetches[c]; f.wallet in s.pending && s.pending[f.wallet].asked == f.origin
  {
    assert HoldsPending(sys, s, s.fetches[c]);
  }

  lemma FetchIsOk(sys: System, s: State, c: CallId)
    requires Sound(sys, s) && c in s.fetches
    ensures FetchOk(s, s.fetches[c])
  {
  }

  lemma {:induction false} OwnFromHere(sys: System, s0: State, events: seq<Event>, n: nat)
    requires n <= |events|
    requires forall m | n <= m < |events| :: FindsOwn(sys, Before(sys, s0, events, m), events[m])
    ensures FindsOwnRun(sys, Before(sys, s0, events, n), events[n..])
    decreases |events| - n
  {
    hide Before, Apply, FindsOwn;
    if n < |events| {
      OwnFromHere(sys, s0, events, n + 1);
      BeforeNext(sys, s0, events, n);
      assert events[n..][0] == events[n] && events[n..][1..] == events[n + 1..];
    }
  }

  /**
    Conservation for fetches that nobody disturbs. When no write and no deletion for its wallet
    comes between the reading and the deletion of a fetch, whatever else does, and the deletion
    comes in the challenge's time: every challenge written is pending, returned, superseded,
    expired or lost, and none is returned twice.
   */
  lemma UndisturbedConserved(sys: System, s0: State, events: seq<Event>, w: string)
    requires Initial(s0) && UndisturbedRun(sys, s0, events) && IsWallet(w)
    ensures var l := Account(sys, s0, events, w);
            l.issued == Held(sys, Run(sys, s0, events), w) + l.returned + l.superseded + l.expired + l.lost
    ensures forall k :: HandedOutOnce(Run(sys, s0, events), k)
  {
    hide Undisturbed, FindsOwn, Sound, Initial;
    forall n | 0 <= n < |events| ensures FindsOwn(sys, Before(sys, s0, events, n), events[n]) {
      UndisturbedFindsOwn(sys, s0, events, n);
    }
    OwnFromHere(sys, s0, events, 0);
    assert events[0..] == events && events[..0] == [];
    OwnConserved(sys, s0, events, w);
  }

  /* ---------- Fetches that do not overlap ---------- */

  /** The requests that wrote a challenge for w. */
  function WritersOf(s: State, w: string): set<CallId> {
    set k | k in s.asks && s.asks[k].Wrote? && s.asks[k].challenge.wallet == w
  }

  /** The fetches that returned a message of w. */
  function ReturnersOf(s: State, w: string): set<CallId> {
    set i | i in s.fetches && s.fetches[i].Returned? && s.fetches[i].wallet == w
  }

  /** Only the writing of a challenge is counted as issued, and only a deletion as returned. */
  lemma CountedEvents(sys: System, s: State, e: Event, w: string)
    ensures Entered(sys, s, e, w).issued > 0 ==> e.WriteChallenge?
    ensures Entered(sys, s, e, w).returned > 0 ==> e.DeleteChallenge?
  {
    hide Apply, HoldsPending, Held;
  }

  /** A call that asks has not written yet. */
  lemma AskingWritesNothing(sys: System, s: State, call: CallId, request: Request, w: string)
    ensures WritersOf(Apply(sys, s, StartAsk(call, request)), w) == WritersOf(s, w)
  {
    hide Compose, DoWriteChallenge, DoStartCheck, DoReadSeen, DoWriteSeen, DoReadChallenge, DoDeleteChallenge;
    var asks, asks' := s.asks, Apply(sys, s, StartAsk(call, request)).asks;
    if call !in asks {
      assert call in asks' && !asks'[call].Wrote? && asks' == asks[call := asks'[call]];
    }
  }

  /** Writing adds the call that is counted as issued. */
  lemma WriterAdded(sys: System, s: State, call: CallId, fault: Fault, w: string)
    ensures var e := WriteChallenge(call, fault);
            var n := Entered(sys, s, e, w).issued;
            && n <= 1 && (n == 1 ==> call !in WritersOf(s, w))
            && WritersOf(Apply(sys, s, e), w) == WritersOf(s, w) + if n == 1 then {call} else {}
  {
    hide SiweKey, Put, Held;
    var s' := Apply(sys, s, WriteChallenge(call, fault));
    assert forall k | k in s'.asks && k != call :: k in s.asks && s'.asks[k] == s.asks[k];
    assert forall k | k in s.asks && k != call :: k in s'.asks;
  }

  lemma ReturnerAdded(sys: System, s: State, e: Event, w: string)
    requires TouchesFetches(e)
    ensures var s', n := Apply(sys, s, e), Entered(sys, s, e, w).returned;
            && n <= 1 && (n == 1 ==> e.call !in ReturnersOf(s, w))
            && ReturnersOf(s', w) == ReturnersOf(s, w) + if n == 1 then {e.call} else {}
  {
    hide SiweKey, NormalizeHex, IsHexAddress, Drop, Lookup, Held, HoldsPending;
    hide DoStartAsk, DoWriteChallenge, DoStartCheck, DoReadSeen, DoWriteSeen;
    var fetches, fetches' := s.fetches, Apply(sys, s, e).fetches;
    if fetches' != fetches {
      assert e.call in fetches' && fetches' == fetches[e.call := fetches'[e.call]];
    }
  }

  lemma CountsStep(sys: System, s: State, e: Event, w: string)
    ensures |WritersOf(Apply(sys, s, e), w)| == |WritersOf(s, w)| + Entered(sys, s, e, w).issued
    ensures |ReturnersOf(Apply(sys, s, e), w)| == |ReturnersOf(s, w)| + Entered(sys, s, e, w).returned
  {
    hide Apply, Entered;
    CountedEvents(sys, s, e, w);
    Frame(sys, s, e);
    if e.StartAsk? {
      AskingWritesNothing(sys, s, e.call, e.request, w);
    } else if e.WriteChallenge? {
      WriterAdded(sys, s, e.call, e.fault, w);
    }
    if TouchesFetches(e) {
      ReturnerAdded(sys, s, e, w);
    }
  }

  lemma {:induction false} CountsRun(sys: System, s: State, events: seq<Event>, w: string)
    ensures |WritersOf(Run(sys, s, events), w)| == |WritersOf(s, w)| + Account(sys, s, events, w).issued
    ensures |ReturnersOf(Run(sys, s, events), w)| == |ReturnersOf(s, w)| + Account(sys, s, events, w).returned
    decreases |events|
  {
    hide Apply, Entered, WritersOf, ReturnersOf;
    if events != [] {
      CountsStep(sys, s, events[0], w);
      CountsRun(sys, Apply(sys, s, events[0]), events[1..], w);
    }
  }

  /** A one-to-one map does not shrink a set. */
  lemma {:induction false} OneToOne(a: set<CallId>, b: set<CallId>, f: map<CallId, CallId>)
    requires forall i | i in a :: i in f && f[i] in b
    requires forall i, j | i in a && j in a && f[i] == f[j] :: i == j
    ensures |a| <= |b|
  {
    if a != {} {
      var i :| i in a;
      OneToOne(a - {i}, b - {f[i]}, f);
    }
  }

  /**
    When no two fetches of a wallet that return a message overlap, however much time passes in
    them and whatever else comes between: no challenge is handed out twice, and the messages
    handed out for a wallet are no more than the challenges written for it.
   */
  lemma SerialFetchesHandOutOnce(sys: System, s0: State, events: seq<Event>, w: string)
    requires Initial(s0) && FetchesInOrder(Run(sys, s0, events))
    ensures forall k :: HandedOutOnce(Run(sys, s0, events), k)
    ensures Account(sys, s0, events, w).returned <= Account(sys, s0, events, w).issued
  {
    hide Sound, Apply, Overlap;
    var s := Run(sys, s0, events);
    Reachable(sys, s0, events);
    forall k, i, j | Returns(s, k, i) && Returns(s, k, j) && i != j ensures false {
      ReturnedOnce(sys, s0, events, k, i, j);
      FetchIsOk(sys, s, i);
      FetchIsOk(sys, s, j);
    }
    var origins := map i | i in ReturnersOf(s, w) :: s.fetches[i].origin;
    forall i | i in ReturnersOf(s, w) ensures origins[i] in WritersOf(s, w) {
      FetchIsOk(sys, s, i);
    }
    forall i, j | i in ReturnersOf(s, w) && j in ReturnersOf(s, w) && origins[i] == origins[j] ensures i == j {
      assert Returns(s, origins[i], i) && Returns(s, origins[i], j);
    }
    OneToOne(ReturnersOf(s, w), WritersOf(s, w), origins);
    CountsRun(sys, s0, events, w);
  }
}
