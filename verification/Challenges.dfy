/**
  What becomes of challenges in every interleaving: a fetch reads exactly the pending one, the
  fates of all challenges add up, and when one can be handed out more than once.
 */
module Challenges {
  import opened Wrappers
  import opened Encoding
  import opened TtlCache
  import SA = ServiceAuthentication
  import SM = SiweMessage
  import opened Siwe
  import opened Protocol
  import opened CacheSafety

  /* ---------- The cache and the simple form ---------- */

  /**
    Challenge refinement. After any run, in any interleaving and with any faults, the
    string-keyed cache that challenges share with service signatures holds for each wallet
    exactly the challenge of the simple form.
   */
  lemma CacheRefinesPending(sys: System, s0: State, events: seq<Event>, w: string)
    requires Initial(s0) && IsWallet(w)
    ensures var s := Run(sys, s0, events); Refined(s.entries, ChallengeKey(sys, w), Cell(s, w))
  {
    Reachable(sys, s0, events);
  }

  /** A pending challenge is the one that its request composed, for its wallet, and wrote since. */
  lemma PendingSource(sys: System, s0: State, events: seq<Event>, w: string)
    requires Initial(s0) && w in Run(sys, s0, events).pending
    ensures var s := Run(sys, s0, events);
            var r := s.pending[w];
            && Written(s, r.asked)
            && var a := s.asks[r.asked];
               && Compose(sys.web, sys.calendar, sys.config, a.request, a.at) == Ok(a.challenge)
               && NormalizeHex(a.request.wallet) == w && r.message == a.challenge.message
               && a.at <= a.writtenAt && r.expiresAt == a.writtenAt + SM.EXPIRATION
  {
    Reachable(sys, s0, events);
    var s := Run(sys, s0, events);
    assert Source(s, w, s.pending[w]);
    assert AskOk(sys, s, s.asks[s.pending[w].asked]);
  }

  /** The challenge that a reader of wallet w finds. */
  function LiveCell(s: State, w: string): Option<Record> {
    if w in s.pending && s.now <= s.pending[w].expiresAt then Some(s.pending[w]) else None
  }

  /** What a fetch of wallet w has after its reading. */
  function Reading(s: State, w: string, fails: bool): Fetching {
    if fails then Failed(CacheFailed)
    else
      match LiveCell(s, w)
      case None => Failed(NotFound)
      case Some(r) => Holding(w, r.message, r.asked, s.now, s.step)
  }

  /** What a fetch has after its deletion: what it read, exactly when the deletion reports success. */
  function Deleting(s: State, f: Fetching, fault: Fault): Fetching
    requires f.Holding?
  {
    if fault.NoFault? then Returned(f.wallet, f.message, f.origin, f.readAt, f.readStep, s.step)
    else Failed(CacheFailed)
  }

  /**
    A fetch reads exactly the pending, unexpired challenge of its wallet in the simple form,
    and hands out what it read exactly when its deletion reports success.
   */
  lemma FetchIsExact(sys: System, s0: State, events: seq<Event>, call: CallId, fails: bool, fault: Fault)
    requires Initial(s0) && call in Run(sys, s0, events).fetches
    ensures var s := Run(sys, s0, events);
            var f := s.fetches[call];
            && (f.Started? ==> Fetches(sys, s, ReadChallenge(call, fails), Reading(s, f.wallet, fails)))
            && (f.Holding? ==> Fetches(sys, s, DeleteChallenge(call, fault), Deleting(s, f, fault)))
  {
    hide Apply, Sound;
    Reachable(sys, s0, events);
    var s := Run(sys, s0, events);
    if s.fetches[call].Started? {
      ReadIsExact(sys, s, call, fails);
    } else if s.fetches[call].Holding? {
      DeleteIsExact(sys, s, call, fault);
    }
  }

  /** The event leaves its fetch at the given stage. */
  predicate Fetches(sys: System, s: State, e: Event, f: Fetching)
    requires TouchesFetches(e)
  {
    e.call in Apply(sys, s, e).fetches && Apply(sys, s, e).fetches[e.call] == f
  }

  lemma DeleteIsExact(sys: System, s: State, call: CallId, fault: Fault)
    requires call in s.fetches && s.fetches[call].Holding?
    ensures Fetches(sys, s, DeleteChallenge(call, fault), Deleting(s, s.fetches[call], fault))
  {
    hide SiweKey;
  }

  lemma ReadIsExact(sys: System, s: State, call: CallId, fails: bool)
    requires Sound(sys, s) && call in s.fetches && s.fetches[call].Started?
    ensures Fetches(sys, s, ReadChallenge(call, fails), Reading(s, s.fetches[call].wallet, fails))
  {
    hide SiweKey, NormalizeHex, IsHexAddress;
    assert FetchOk(s, s.fetches[call]);
    var w := s.fetches[call].wallet;
    assert Refined(s.entries, ChallengeKey(sys, w), Cell(s, w));
  }

  /* ---------- Handed out once ---------- */

  /** Each of the two fetches read before the other deleted. */
  predicate Overlap(f: Fetching, g: Fetching)
    requires f.Returned? && g.Returned?
  {
    f.readStep < g.deleteStep && g.readStep < f.deleteStep
  }

  /** No two fetches of one wallet that have returned a message overlap. */
  predicate FetchesInOrder(s: State) {
    forall i, j | i in s.fetches && j in s.fetches && i != j && s.fetches[i].Returned? && s.fetches[j].Returned?
                  && s.fetches[i].wallet == s.fetches[j].wallet :: !Overlap(s.fetches[i], s.fetches[j])
  }

  predicate Returns(s: State, k: CallId, i: CallId) {
    i in s.fetches && s.fetches[i].Returned? && s.fetches[i].origin == k
  }

  /** One challenge is handed out to two fetches only if they overlap, however cache calls fail. */
  lemma ReturnedOnce(sys: System, s0: State, events: seq<Event>, k: CallId, i: CallId, j: CallId)
    requires Initial(s0) && Returns(Run(sys, s0, events), k, i) && Returns(Run(sys, s0, events), k, j)
    ensures var s := Run(sys, s0, events); Overlap(s.fetches[i], s.fetches[j])
  {
    Reachable(sys, s0, events);
    var s := Run(sys, s0, events);
    assert DeletedForGood(s, i) && DeletedForGood(s, j);
    assert HasRead(s.fetches[i]) && HasRead(s.fetches[j]);
  }

  /** Fetch i has challenge k in its hands, or has returned it. */
  predicate Holds(s: State, k: CallId, i: CallId) {
    i in s.fetches && HasRead(s.fetches[i]) && s.fetches[i].origin == k
  }

  /** A reader could find challenge k. */
  predicate Readable(s: State, k: CallId) {
    exists w | w in s.pending :: s.pending[w].asked == k && s.now <= s.pending[w].expiresAt
  }

  ghost predicate HandedOutOnce(s: State, k: CallId) {
    forall i, j | Returns(s, k, i) && Returns(s, k, j) :: i == j
  }

  ghost predicate AlwaysHandedOutOnce(sys: System, s: State, k: CallId) {
    forall more :: HandedOutOnce(Run(sys, s, more), k)
  }

  /** Nobody can read challenge k any more, and at most one fetch has read it. */
  ghost predicate Spent(s: State, k: CallId) {
    !Readable(s, k) && forall i, j | Holds(s, k, i) && Holds(s, k, j) :: i == j
  }

  lemma UnreadableForGood(sys: System, s: State, e: Event, k: CallId)
    requires Sound(sys, s) && Written(s, k) && !Readable(s, k)
    ensures !Readable(Apply(sys, s, e), k)
  {
    hide SA.Inspect, Compose, SiweKey, ServiceKey, NormalizeHex, IsHexAddress, Sound;
    var s' := Apply(sys, s, e);
    forall w | w in s'.pending ensures !(s'.pending[w].asked == k && s'.now <= s'.pending[w].expiresAt) {
      if w in s.pending {
        assert !(s.pending[w].asked == k && s.now <= s.pending[w].expiresAt);
      }
    }
  }

  /** Only a readable challenge gets into new hands. */
  lemma NewHandsRead(sys: System, s: State, e: Event, k: CallId, i: CallId)
    requires Sound(sys, s) && Holds(Apply(sys, s, e), k, i) && !Readable(s, k)
    ensures Holds(s, k, i)
  {
    hide Apply, CellsRefined, AsksOk, ChecksOk, DeletionsHold, SiweKey;
    if i in s.fetches && HasRead(s.fetches[i]) {
      ReadStays(sys, s, e, i);
    } else {
      ReadsComeFromCell(sys, s, e, i);
      ReadIsExact(sys, s, i, e.fails);
    }
  }

  lemma {:induction false} SpentForGood(sys: System, s: State, more: seq<Event>, k: CallId)
    requires Sound(sys, s) && Written(s, k) && Spent(s, k)
    ensures Spent(Run(sys, s, more), k)
    decreases |more|
  {
    hide Sound, Apply, Readable;
    if more != [] {
      var s' := Apply(sys, s, more[0]);
      UnreadableForGood(sys, s, more[0], k);
      forall i, j | Holds(s', k, i) && Holds(s', k, j) ensures i == j {
        NewHandsRead(sys, s, more[0], k, i);
        NewHandsRead(sys, s, more[0], k, j);
      }
      StepSound(sys, s, more[0]);
      StepGrows(sys, s, more[0]);
      SpentForGood(sys, s', more[1..], k);
    }
  }

  /** A new fetch reads a readable challenge, and leaves the cells and the other fetches as they are. */
  lemma OneReads(sys: System, s: State, k: CallId, w: string, a: CallId)
    requires Sound(sys, s) && a in s.fetches && s.fetches[a] == Started(w)
    requires w in s.pending && s.pending[w].asked == k && s.now <= s.pending[w].expiresAt
    ensures var s' := Apply(sys, s, ReadChallenge(a, false));
            && Holds(s', k, a) && s'.fetches[a].Holding? && s'.pending == s.pending && s'.now == s.now
            && forall b | b in s.fetches && b != a :: b in s'.fetches && s'.fetches[b] == s.fetches[b]
  {
    hide Apply, Sound;
    var e := ReadChallenge(a, false);
    ReadIsExact(sys, s, a, false);
    Frame(sys, s, e);
    forall b | b in s.fetches && b != a
      ensures b in Apply(sys, s, e).fetches && Apply(sys, s, e).fetches[b] == s.fetches[b]
    {
      OtherFetches(sys, s, e, b);
    }
  }

  lemma TwoStart(sys: System, s: State, w: string, a: CallId, b: CallId)
    requires IsWallet(w) && a !in s.fetches && b !in s.fetches && a != b
    ensures var s' := Apply(sys, Apply(sys, s, StartFetch(a, w)), StartFetch(b, w));
            && a in s'.fetches && b in s'.fetches && s'.fetches[a] == Started(w) && s'.fetches[b] == Started(w)
            && s'.pending == s.pending && s'.now == s.now
  {
    hide NormalizeHex, IsHexAddress;
  }

  lemma PendingWallet(sys: System, s: State, w: string)
    requires Sound(sys, s) && w in s.pending
    ensures IsWallet(w)
  {
  }

  /** Two new fetches read a readable challenge. */
  lemma TwoRead(sys: System, s: State, k: CallId, w: string, a: CallId, b: CallId)
    requires Sound(sys, s) && w in s.pending && s.pending[w].asked == k && s.now <= s.pending[w].expiresAt
    requires a !in s.fetches && b !in s.fetches && a != b
    ensures var readings := [StartFetch(a, w), StartFetch(b, w), ReadChallenge(a, false), ReadChallenge(b, false)];
            Holds(Run(sys, s, readings), k, a) && Holds(Run(sys, s, readings), k, b)
  {
    hide Apply, Sound, IsWallet, NormalizeHex, IsHexAddress;
    PendingWallet(sys, s, w);
    var e1, e2, e3, e4 := StartFetch(a, w), StartFetch(b, w), ReadChallenge(a, false), ReadChallenge(b, false);
    assert [e1, e2, e3, e4] == [e1, e2] + [e3, e4];
    RunConcat(sys, s, [e1, e2], [e3, e4]);
    RunTwo(sys, s, e1, e2);
    var s1 := Apply(sys, s, e1);
    var s2 := Apply(sys, s1, e2);
    RunTwo(sys, s2, e3, e4);
    StepSound(sys, s, e1);
    StepSound(sys, s1, e2);
    StepSound(sys, s2, e3);
    TwoStart(sys, s, w, a, b);
    OneReads(sys, s2, k, w, a);
    OneReads(sys, Apply(sys, s2, e3), k, w, b);
  }

  /** Two fetches that hold a challenge both return it. */
  lemma TwoReturn(sys: System, s: State, k: CallId, a: CallId, b: CallId)
    requires Holds(s, k, a) && Holds(s, k, b) && a != b
    ensures var s' := Run(sys, s, [DeleteChallenge(a, NoFault), DeleteChallenge(b, NoFault)]);
            Returns(s', k, a) && Returns(s', k, b) && !HandedOutOnce(s', k)
  {
    hide SiweKey;
    var e1, e2 := DeleteChallenge(a, NoFault), DeleteChallenge(b, NoFault);
    RunTwo(sys, s, e1, e2);
    var s2 := Apply(sys, Apply(sys, s, e1), e2);
    assert Returns(s2, k, a) && Returns(s2, k, b);
  }

  /** The failing interleaving: read, read, delete, delete hands one challenge out twice. */
  lemma OverlapReturnsTwice(sys: System, s: State, k: CallId, w: string, a: CallId, b: CallId)
    requires Sound(sys, s) && w in s.pending && s.pending[w].asked == k && s.now <= s.pending[w].expiresAt
    requires a !in s.fetches && b !in s.fetches && a != b
    ensures var readings := [StartFetch(a, w), StartFetch(b, w), ReadChallenge(a, false), ReadChallenge(b, false)];
            var s' := Run(sys, s, readings + [DeleteChallenge(a, NoFault), DeleteChallenge(b, NoFault)]);
            Returns(s', k, a) && Returns(s', k, b) && !HandedOutOnce(s', k)
  {
    var readings := [StartFetch(a, w), StartFetch(b, w), ReadChallenge(a, false), ReadChallenge(b, false)];
    TwoRead(sys, s, k, w, a, b);
    TwoReturn(sys, Run(sys, s, readings), k, a, b);
    RunConcat(sys, s, readings, [DeleteChallenge(a, NoFault), DeleteChallenge(b, NoFault)]);
  }

  /**
    The exact condition: a challenge that has been written is handed out at most once in
    every continuation if and only if no reader can find it and at most one fetch has read it.
   */
  lemma HandedOutOnceExact(sys: System, s0: State, events: seq<Event>, k: CallId)
    requires Initial(s0) && Written(Run(sys, s0, events), k)
    ensures AlwaysHandedOutOnce(sys, Run(sys, s0, events), k) <==> Spent(Run(sys, s0, events), k)
  {
    hide Sound, Apply;
    var s := Run(sys, s0, events);
    Reachable(sys, s0, events);
    if Spent(s, k) {
      forall more ensures HandedOutOnce(Run(sys, s, more), k) {
        SpentForGood(sys, s, more, k);
        var t := Run(sys, s, more);
        assert forall i | Returns(t, k, i) :: Holds(t, k, i);
      }
    } else if Readable(s, k) {
      var w :| w in s.pending && s.pending[w].asked == k && s.now <= s.pending[w].expiresAt;
      var a := UnusedNumber(s.fetches.Keys);
      OverlapReturnsTwice(sys, s, k, w, a, a + 1);
    } else {
      var a, b :| Holds(s, k, a) && Holds(s, k, b) && a != b;
      TwoReturn(sys, s, k, a, b);
    }
  }

  /* ---------- Conservation ---------- */

  /**
    The fates of the challenges of one wallet. `late` counts messages handed out when their
    challenge had left the cell, `swept` challenges that a fetch of another one deleted.
   */
  datatype Ledger = Ledger(issued: nat, returned: nat, superseded: nat, expired: nat, lost: nat, swept: nat, late: nat)

  const NOTHING := Ledger(0, 0, 0, 0, 0, 0, 0)

  function Plus(a: Ledger, b: Ledger): Ledger {
    Ledger(a.issued + b.issued, a.returned + b.returned, a.superseded + b.superseded, a.expired + b.expired,
           a.lost + b.lost, a.swept + b.swept, a.late + b.late)
  }

  /** How many messages a reader could find for w: none or one. */
  function Held(sys: System, s: State, w: string): nat {
    if Lookup(s.entries, ChallengeKey(sys, w), s.now).Some? then 1 else 0
  }

  /** The fetch about to delete holds the very challenge that is pending for its wallet. */
  predicate HoldsPending(sys: System, s: State, f: Fetching)
    requires f.Holding?
  {
    Held(sys, s, f.wallet) == 1 && f.wallet in s.pending && s.pending[f.wallet].asked == f.origin
  }

  /** What an event adds to the counts of wallet w. */
  function Entered(sys: System, s: State, e: Event, w: string): Ledger {
    match e
    case Tick(_) =>
      if Held(sys, s, w) == 1 && Held(sys, Apply(sys, s, e), w) == 0 then NOTHING.(expired := 1) else NOTHING
    case WriteChallenge(call, fault) =>
      if call in s.asks && s.asks[call].Composed? && s.asks[call].challenge.wallet == w && !fault.FailsBefore?
      then NOTHING.(issued := 1, superseded := Held(sys, s, w)) else NOTHING
    case DeleteChallenge(call, fault) =>
      if call !in s.fetches || !s.fetches[call].Holding? || s.fetches[call].wallet != w || fault.FailsBefore?
      then NOTHING
      else
        var own := HoldsPending(sys, s, s.fetches[call]);
        if fault.NoFault? then
          NOTHING.(returned := 1, late := if own then 0 else 1, swept := if own then 0 else Held(sys, s, w))
        else
          NOTHING.(lost := if own then 1 else 0, swept := if own then 0 else Held(sys, s, w))
    case _ => NOTHING
  }

  function Account(sys: System, s: State, events: seq<Event>, w: string): Ledger
    decreases |events|
  {
    if events == [] then NOTHING
    else Plus(Entered(sys, s, events[0], w), Account(sys, Apply(sys, s, events[0]), events[1..], w))
  }

  function Balance(l: Ledger): int { l.issued + l.late - l.returned - l.superseded - l.expired - l.lost - l.swept }

  lemma OtherWalletKept(sys: System, s: State, e: Event, w: string)
    requires Sound(sys, s) && IsWallet(w) && !e.Tick?
    requires e.WriteChallenge? && e.call in s.asks && s.asks[e.call].Composed? ==> s.asks[e.call].challenge.wallet != w
    requires e.DeleteChallenge? && e.call in s.fetches && s.fetches[e.call].Holding? ==> s.fetches[e.call].wallet != w
    ensures Held(sys, Apply(sys, s, e), w) == Held(sys, s, w)
  {
    hide Apply, SiweKey, IsWallet, AsksOk, FetchesOk, DeletionsHold, ChecksOk, SeenKept;
    StepRefines(sys, s, e);
    Frame(sys, s, e);
    CellKept(sys, s, e, w);
    assert Refined(s.entries, ChallengeKey(sys, w), Cell(s, w));
    var s' := Apply(sys, s, e);
    assert Refined(s'.entries, ChallengeKey(sys, w), Cell(s', w));
  }

  lemma CellKept(sys: System, s: State, e: Event, w: string)
    requires e.WriteChallenge? && e.call in s.asks && s.asks[e.call].Composed? ==> s.asks[e.call].challenge.wallet != w
    requires e.DeleteChallenge? && e.call in s.fetches && s.fetches[e.call].Holding? ==> s.fetches[e.call].wallet != w
    ensures Cell(Apply(sys, s, e), w) == Cell(s, w)
  {
    hide Compose, SA.Inspect, SiweKey, ServiceKey, NormalizeHex, IsHexAddress;
  }

  lemma WriteBalance(sys: System, s: State, e: Event, w: string)
    requires e.WriteChallenge? && e.call in s.asks && s.asks[e.call].Composed? && s.asks[e.call].challenge.wallet == w
    ensures Balance(Entered(sys, s, e, w)) == Held(sys, Apply(sys, s, e), w) - Held(sys, s, w)
  {
    hide SiweKey;
  }

  lemma DeleteBalance(sys: System, s: State, e: Event, w: string)
    requires e.DeleteChallenge? && e.call in s.fetches && s.fetches[e.call].Holding? && s.fetches[e.call].wallet == w
    ensures Balance(Entered(sys, s, e, w)) == Held(sys, Apply(sys, s, e), w) - Held(sys, s, w)
  {
    hide SiweKey;
  }

  /** Each event changes the balance by what it changes at the cache. */
  lemma BalanceStep(sys: System, s: State, e: Event, w: string)
    requires Sound(sys, s) && IsWallet(w)
    ensures Balance(Entered(sys, s, e, w)) == Held(sys, Apply(sys, s, e), w) - Held(sys, s, w)
  {
    hide Sound, SiweKey, IsWallet, Compose, SA.Inspect, ServiceKey, NormalizeHex, IsHexAddress;
    if e.WriteChallenge? && e.call in s.asks && s.asks[e.call].Composed? && s.asks[e.call].challenge.wallet == w {
      WriteBalance(sys, s, e, w);
    } else if e.DeleteChallenge? && e.call in s.fetches && s.fetches[e.call].Holding? && s.fetches[e.call].wallet == w {
      DeleteBalance(sys, s, e, w);
    } else if !e.Tick? {
      OtherWalletKept(sys, s, e, w);
    }
  }

  lemma {:induction false} BalanceRun(sys: System, s: State, events: seq<Event>, w: string)
    requires Sound(sys, s) && IsWallet(w)
    ensures Balance(Account(sys, s, events, w)) == Held(sys, Run(sys, s, events), w) - Held(sys, s, w)
    decreases |events|
  {
    hide Sound, Apply, Entered, Held, IsWallet;
    if events != [] {
      BalanceStep(sys, s, events[0], w);
      StepSound(sys, s, events[0]);
      BalanceRun(sys, Apply(sys, s, events[0]), events[1..], w);
    }
  }

  /**
    Conservation. In every interleaving and with every fault: the challenges written for a
    wallet, and the messages handed out late, add up to what is pending, returned,
    superseded, expired, lost to a deletion that reported a failure, or swept by another's.
   */
  lemma ChallengesConserved(sys: System, s0: State, events: seq<Event>, w: string)
    requires Initial(s0) && IsWallet(w)
    ensures var l := Account(sys, s0, events, w);
            l.issued + l.late
              == Held(sys, Run(sys, s0, events), w) + l.returned + l.superseded + l.expired + l.lost + l.swept
  {
    InitialSound(sys, s0);
    BalanceRun(sys, s0, events, w);
  }

  predicate CleanDeletion(e: Event) { e.DeleteChallenge? ==> !e.fault.FailsAfter? }

  lemma CleanDeletionLosesNothing(sys: System, s: State, e: Event, w: string)
    requires CleanDeletion(e)
    ensures Entered(sys, s, e, w).lost == 0
  {
    hide Apply, HoldsPending, Held;
  }

  /** Nothing is lost unless a deletion took effect and still reported a failure. */
  lemma {:induction false} NothingLost(sys: System, s: State, events: seq<Event>, w: string)
    requires forall i | 0 <= i < |events| :: CleanDeletion(events[i])
    ensures Account(sys, s, events, w).lost == 0
    decreases |events|
  {
    if events != [] {
      hide Apply, Entered;
      assert CleanDeletion(events[0]);
      CleanDeletionLosesNothing(sys, s, events[0], w);
      NothingLost(sys, Apply(sys, s, events[0]), events[1..], w);
    }
  }
}
