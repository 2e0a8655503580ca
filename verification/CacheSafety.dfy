/**
  Safety of the cache protocol in every reachable state, under every interleaving and every
  fault: the cache holds the simple form, and every result says where it comes from.
 */
module CacheSafety {
  import opened Wrappers
  import opened Encoding
  import opened TtlCache
  import SA = ServiceAuthentication
  import SM = SiweMessage
  import opened Siwe
  import opened Protocol

  predicate IsWallet(w: string) { IsHexAddress(w) && NormalizeHex(w) == w }

  /* ---------- Challenges ---------- */

  function Cell(s: State, w: string): Option<Record> { if w in s.pending then Some(s.pending[w]) else None }

  ghost predicate Refined(entries: Entries, key: string, cell: Option<Record>) {
    && (key in entries <==> cell.Some?)
    && (cell.Some? ==> entries[key] == Entry(cell.value.message, cell.value.expiresAt))
  }

  /** The cache holds for every wallet exactly the challenge of the simple form. */
  ghost predicate CellsRefined(sys: System, s: State) {
    forall w | IsWallet(w) :: Refined(s.entries, ChallengeKey(sys, w), Cell(s, w))
  }

  predicate Written(s: State, k: CallId) { k in s.asks && s.asks[k].Wrote? }

  /** The record is what request r.asked wrote for wallet w. */
  predicate Source(s: State, w: string, r: Record) {
    && Written(s, r.asked) && s.asks[r.asked].challenge.wallet == w && s.asks[r.asked].challenge.message == r.message
    && r.expiresAt == s.asks[r.asked].writtenAt + SM.EXPIRATION
  }

  predicate CellsHaveSource(s: State) {
    forall w | w in s.pending :: IsWallet(w) && Source(s, w, s.pending[w])
  }

  predicate AskOk(sys: System, s: State, a: Asking) {
    a.Unasked?
    || (&& Compose(sys.web, sys.calendar, sys.config, a.request, a.at) == Ok(a.challenge)
        && IsWallet(a.challenge.wallet) && a.challenge.wallet == NormalizeHex(a.request.wallet) && a.at <= s.now
        && (a.Wrote? ==> a.at <= a.writtenAt <= s.now && a.writeStep < s.step))
  }

  predicate AsksOk(sys: System, s: State) { forall k | k in s.asks :: AskOk(sys, s, s.asks[k]) }

  /** A fetch that has read a message, and may have returned it. */
  predicate HasRead(f: Fetching) { f.Holding? || f.Returned? }

  predicate FetchOk(s: State, f: Fetching) {
    && (f.Started? ==> IsWallet(f.wallet))
    && (HasRead(f) ==>
          && IsWallet(f.wallet) && Written(s, f.origin) && f.readStep < s.step && f.readAt <= s.now
          && s.asks[f.origin].challenge.wallet == f.wallet && s.asks[f.origin].challenge.message == f.message
          && s.asks[f.origin].writeStep < f.readStep
          && s.asks[f.origin].writtenAt <= f.readAt <= s.asks[f.origin].writtenAt + SM.EXPIRATION)
    && (f.Returned? ==> f.readStep < f.deleteStep < s.step)
  }

  predicate FetchesOk(s: State) { forall j | j in s.fetches :: FetchOk(s, s.fetches[j]) }

  /** Challenge k is in the cell of its wallet. */
  predicate InCell(s: State, k: CallId) { exists w | w in s.pending :: s.pending[w].asked == k }

  /** Once a fetch has deleted what it read, nobody reads that challenge any more. */
  predicate DeletedForGood(s: State, i: CallId)
    requires i in s.fetches && s.fetches[i].Returned?
  {
    && !InCell(s, s.fetches[i].origin)
    && forall j | j in s.fetches && HasRead(s.fetches[j]) && s.fetches[j].origin == s.fetches[i].origin ::
         s.fetches[j].readStep < s.fetches[i].deleteStep
  }

  predicate DeletionsHold(s: State) { forall i | i in s.fetches && s.fetches[i].Returned? :: DeletedForGood(s, i) }

  /* ---------- Service payloads ---------- */

  predicate HasRoom(c: Checking) { c.Unseen? || c.Admitted? }

  predicate CheckOk(sys: System, s: State, c: Checking) {
    c.Refused?
    || (&& SA.Inspect(sys.ring, Some(c.text), c.at) == Ok(PayloadOf(c.text)) && c.at <= s.now
        && ':' !in PayloadOf(c.text).signature
        && (HasRoom(c) ==> c.at <= c.readAt <= s.now && c.readStep < s.step)
        && (c.Admitted? ==> c.readAt <= c.writtenAt <= s.now && c.readStep < c.writeStep < s.step))
  }

  predicate ChecksOk(sys: System, s: State) { forall k | k in s.checks :: CheckOk(sys, s, s.checks[k]) }

  /** A key stays readable up to a given instant at least. */
  ghost predicate Keeps(entries: Entries, key: string, until: int) {
    key in entries && entries[key].expiresAt >= until
  }

  /** An admitted signature is in the cache for a payload's duration from its writing. */
  ghost predicate SeenKept(s: State) {
    forall k | k in s.checks && s.checks[k].Admitted? ::
      Keeps(s.entries, SeenKey(s.checks[k].text), s.checks[k].writtenAt + SA.PAYLOAD_DURATION)
  }

  /** No service entry lasts longer than one written now. */
  ghost predicate SeenBrief(s: State) {
    forall name, signature | ':' !in signature && ServiceKey(name, signature) in s.entries ::
      s.entries[ServiceKey(name, signature)].expiresAt <= s.now + SA.PAYLOAD_DURATION
  }

  /** Check j read the cache before check i wrote it, or after i's entry had gone. */
  predicate Spaced(i: Checking, j: Checking)
    requires i.Admitted? && HasRoom(j)
  {
    SeenKey(i.text) == SeenKey(j.text) ==>
      j.readStep <= i.writeStep || i.writtenAt + SA.PAYLOAD_DURATION < j.readAt
  }

  predicate ReadsSpaced(s: State) {
    forall i, j | i in s.checks && j in s.checks && s.checks[i].Admitted? && HasRoom(s.checks[j]) ::
      Spaced(s.checks[i], s.checks[j])
  }

  ghost predicate Sound(sys: System, s: State) {
    && CellsRefined(sys, s) && CellsHaveSource(s) && AsksOk(sys, s) && FetchesOk(s) && DeletionsHold(s)
    && ChecksOk(sys, s) && SeenKept(s) && SeenBrief(s) && ReadsSpaced(s)
  }

  /* ---------- What a step leaves alone ---------- */

  predicate TouchesAsks(e: Event) { e.StartAsk? || e.WriteChallenge? }

  predicate TouchesChecks(e: Event) { e.StartCheck? || e.ReadSeen? || e.WriteSeen? }

  predicate TouchesFetches(e: Event) { e.StartFetch? || e.ReadChallenge? || e.DeleteChallenge? }

  predicate TouchesCells(e: Event) { e.WriteChallenge? || e.DeleteChallenge? }

  lemma FrameCalls(sys: System, s: State, e: Event)
    ensures var s' := Apply(sys, s, e);
            && (!TouchesAsks(e) ==> s'.asks == s.asks)
            && (!TouchesChecks(e) ==> s'.checks == s.checks)
            && (!TouchesFetches(e) ==> s'.fetches == s.fetches)
  {
    hide SA.Inspect, Compose, Put, Drop, Lookup, SeenKey, ChallengeKey, NormalizeHex, IsHexAddress;
  }

  lemma FrameStore(sys: System, s: State, e: Event)
    ensures var s' := Apply(sys, s, e);
            && (!TouchesCells(e) ==> s'.pending == s.pending)
            && (!TouchesCells(e) && !e.WriteSeen? ==> s'.entries == s.entries)
            && s'.now == (if e.Tick? then s.now + e.nanos else s.now) && s'.step == s.step + 1
  {
    hide SA.Inspect, Compose, Put, Drop, Lookup, SeenKey, ChallengeKey, NormalizeHex, IsHexAddress;
  }

  lemma Frame(sys: System, s: State, e: Event)
    ensures var s' := Apply(sys, s, e);
            && (!TouchesAsks(e) ==> s'.asks == s.asks)
            && (!TouchesChecks(e) ==> s'.checks == s.checks)
            && (!TouchesFetches(e) ==> s'.fetches == s.fetches)
            && (!TouchesCells(e) ==> s'.pending == s.pending)
            && (!TouchesCells(e) && !e.WriteSeen? ==> s'.entries == s.entries)
            && s'.now == (if e.Tick? then s.now + e.nanos else s.now) && s'.step == s.step + 1
  {
    hide Apply;
    FrameCalls(sys, s, e);
    FrameStore(sys, s, e);
  }

  /* ---------- What only grows ---------- */

  /** Results stay, and time moves on. */
  predicate Grows(s: State, s': State) {
    && s.now <= s'.now && s.step <= s'.step
    && (forall k | k in s.asks && s.asks[k].Wrote? :: k in s'.asks && s'.asks[k] == s.asks[k])
    && (forall k | k in s.checks && s.checks[k].Admitted? :: k in s'.checks && s'.checks[k] == s.checks[k])
    && (forall k | k in s.fetches && s.fetches[k].Returned? :: k in s'.fetches && s'.fetches[k] == s.fetches[k])
  }

  lemma StepGrows(sys: System, s: State, e: Event)
    ensures Grows(s, Apply(sys, s, e))
  {
    hide SA.Inspect, Compose, ServiceKey, SiweKey, NormalizeHex, IsHexAddress, Apply;
    Frame(sys, s, e);
    if TouchesAsks(e) {
      AsksGrow(sys, s, e);
    } else if TouchesChecks(e) {
      ChecksGrow(sys, s, e);
    } else if TouchesFetches(e) {
      FetchesGrow(sys, s, e);
    }
  }

  lemma AsksGrow(sys: System, s: State, e: Event)
    requires TouchesAsks(e)
    ensures forall k | k in s.asks && s.asks[k].Wrote? ::
              k in Apply(sys, s, e).asks && Apply(sys, s, e).asks[k] == s.asks[k]
  {
    hide Compose, SiweKey;
  }

  lemma ChecksGrow(sys: System, s: State, e: Event)
    requires TouchesChecks(e)
    ensures forall k | k in s.checks && s.checks[k].Admitted? ::
              k in Apply(sys, s, e).checks && Apply(sys, s, e).checks[k] == s.checks[k]
  {
    hide SA.Inspect, ServiceKey;
  }

  lemma FetchesGrow(sys: System, s: State, e: Event)
    requires TouchesFetches(e)
    ensures forall k | k in s.fetches && s.fetches[k].Returned? ::
              k in Apply(sys, s, e).fetches && Apply(sys, s, e).fetches[k] == s.fetches[k]
  {
    hide SiweKey, NormalizeHex, IsHexAddress;
  }

  lemma {:induction false} RunGrows(sys: System, s: State, events: seq<Event>)
    ensures Grows(s, Run(sys, s, events))
    decreases |events|
  {
    if events != [] {
      StepGrows(sys, s, events[0]);
      RunGrows(sys, Apply(sys, s, events[0]), events[1..]);
      var t, u := Apply(sys, s, events[0]), Run(sys, s, events);
      forall k | k in s.asks && s.asks[k].Wrote? ensures k in u.asks && u.asks[k] == s.asks[k] {
        assert Written(t, k);
      }
    }
  }

  /* ---------- The two families of keys do not meet ---------- */

  lemma WalletKeys(sys: System, w: string, v: string)
    requires IsWallet(w) && IsWallet(v)
    ensures ChallengeKey(sys, w) == ChallengeKey(sys, v) ==> w == v
  {
    NormalWallet(w);
    NormalWallet(v);
    if ChallengeKey(sys, w) == ChallengeKey(sys, v) {
      SiweKeyInjective(sys.config.serviceName, w, sys.config.serviceName, v);
    }
  }

  lemma KeysDisjoint(sys: System, name: string, signature: string, w: string)
    requires IsWallet(w) && ':' !in signature
    ensures ServiceKey(name, signature) != ChallengeKey(sys, w)
  {
    NormalWallet(w);
    KeyFamiliesDisjoint(name, signature, sys.config.serviceName, w);
  }

  /* ---------- Challenges: every step keeps them ---------- */

  lemma ComposedWallet(sys: System, request: Request, at: int)
    requires Compose(sys.web, sys.calendar, sys.config, request, at).Ok?
    ensures var w := Compose(sys.web, sys.calendar, sys.config, request, at).value.wallet;
            IsWallet(w) && w == NormalizeHex(request.wallet)
  {
    NormalWallet(request.wallet);
  }

  lemma WriteRefines(sys: System, s: State, e: Event)
    requires Sound(sys, s) && e.WriteChallenge?
    ensures CellsRefined(sys, Apply(sys, s, e))
  {
    hide Compose, SiweKey, NormalizeHex, IsHexAddress;
    var s' := Apply(sys, s, e);
    if e.call in s.asks && s.asks[e.call].Composed? {
      assert AskOk(sys, s, s.asks[e.call]);
      var v := s.asks[e.call].challenge.wallet;
      forall w | IsWallet(w) ensures Refined(s'.entries, ChallengeKey(sys, w), Cell(s', w)) {
        assert Refined(s.entries, ChallengeKey(sys, w), Cell(s, w));
        WalletKeys(sys, w, v);
      }
    } else {
      SameCells(sys, s, s');
    }
  }

  lemma SameCells(sys: System, s: State, s': State)
    requires CellsRefined(sys, s) && s'.entries == s.entries && s'.pending == s.pending
    ensures CellsRefined(sys, s')
  {
    forall w | IsWallet(w) ensures Refined(s'.entries, ChallengeKey(sys, w), Cell(s', w)) {
      assert Refined(s.entries, ChallengeKey(sys, w), Cell(s, w));
    }
  }

  lemma DropRefines(sys: System, s: State, v: string, fault: Fault, w: string)
    requires Refined(s.entries, ChallengeKey(sys, w), Cell(s, w)) && IsWallet(w) && IsWallet(v)
    ensures var s' := s.(entries := Drop(s.entries, ChallengeKey(sys, v), fault),
                         pending := if fault.FailsBefore? then s.pending else s.pending - {v});
            Refined(s'.entries, ChallengeKey(sys, w), Cell(s', w))
  {
    hide SiweKey, NormalizeHex, IsHexAddress;
    WalletKeys(sys, w, v);
  }

  lemma DeleteRefines(sys: System, s: State, e: Event)
    requires Sound(sys, s) && e.DeleteChallenge?
    ensures CellsRefined(sys, Apply(sys, s, e))
  {
    hide SiweKey, NormalizeHex, IsHexAddress, IsWallet, Refined, Compose, SA.Inspect;
    var s' := Apply(sys, s, e);
    if e.call in s.fetches && s.fetches[e.call].Holding? {
      assert FetchOk(s, s.fetches[e.call]);
      forall w | IsWallet(w) ensures Refined(s'.entries, ChallengeKey(sys, w), Cell(s', w)) {
        DropRefines(sys, s, s.fetches[e.call].wallet, e.fault, w);
      }
    } else {
      SameCells(sys, s, s');
    }
  }

  lemma WriteSeenRefines(sys: System, s: State, e: Event)
    requires Sound(sys, s) && e.WriteSeen?
    ensures CellsRefined(sys, Apply(sys, s, e))
  {
    hide SA.Inspect, SiweKey, ServiceKey, NormalizeHex, IsHexAddress, Refined, PayloadOf;
    var s' := Apply(sys, s, e);
    if e.call in s.checks && s.checks[e.call].Unseen? {
      assert CheckOk(sys, s, s.checks[e.call]);
      var p := PayloadOf(s.checks[e.call].text);
      forall w | IsWallet(w) ensures Refined(s'.entries, ChallengeKey(sys, w), Cell(s', w)) {
        assert Refined(s.entries, ChallengeKey(sys, w), Cell(s, w));
        KeysDisjoint(sys, p.name, p.signature, w);
        SameAtKey(s.entries, s'.entries, ChallengeKey(sys, w), Cell(s, w));
      }
    } else {
      SameCells(sys, s, s');
    }
  }

  lemma SameAtKey(a: Entries, b: Entries, key: string, cell: Option<Record>)
    requires Refined(a, key, cell) && (key in a <==> key in b) && (key in a ==> b[key] == a[key])
    ensures Refined(b, key, cell)
  {
  }

  lemma StepRefines(sys: System, s: State, e: Event)
    requires Sound(sys, s)
    ensures CellsRefined(sys, Apply(sys, s, e))
  {
    hide Apply, Sound;
    if e.WriteChallenge? {
      WriteRefines(sys, s, e);
    } else if e.DeleteChallenge? {
      DeleteRefines(sys, s, e);
    } else if e.WriteSeen? {
      WriteSeenRefines(sys, s, e);
    } else {
      Frame(sys, s, e);
      RefinedNow(sys, s);
      SameCells(sys, s, Apply(sys, s, e));
    }
  }

  lemma RefinedNow(sys: System, s: State)
    requires Sound(sys, s)
    ensures CellsRefined(sys, s)
  {
  }

  lemma AskStays(sys: System, s: State, s': State, a: Asking)
    requires AskOk(sys, s, a) && s.now <= s'.now && s.step <= s'.step
    ensures AskOk(sys, s', a)
  {
  }

  lemma StartedAskOk(sys: System, s: State, e: Event)
    requires e.StartAsk? && e.call !in s.asks
    ensures AskOk(sys, Apply(sys, s, e), Apply(sys, s, e).asks[e.call])
  {
    hide Compose, NormalizeHex, IsHexAddress, IsWallet;
    if Compose(sys.web, sys.calendar, sys.config, e.request, s.now).Ok? {
      ComposedWallet(sys, e.request, s.now);
    }
  }

  lemma WrittenAskOk(sys: System, s: State, e: Event)
    requires e.WriteChallenge? && e.call in s.asks && AskOk(sys, s, s.asks[e.call])
    ensures AskOk(sys, Apply(sys, s, e), Apply(sys, s, e).asks[e.call])
  {
    hide Compose, NormalizeHex, IsHexAddress, IsWallet, SiweKey;
  }

  /** A step on one request leaves the others alone. */
  lemma OtherAsks(sys: System, s: State, e: Event, k: CallId)
    requires TouchesAsks(e) && k != e.call
    ensures k in Apply(sys, s, e).asks <==> k in s.asks
    ensures k in s.asks ==> Apply(sys, s, e).asks[k] == s.asks[k]
  {
    hide Compose, SiweKey;
  }

  lemma NewAskOk(sys: System, s: State, e: Event)
    requires AsksOk(sys, s) && TouchesAsks(e)
    ensures AsksOk(sys, Apply(sys, s, e))
  {
    hide AskOk, Compose, SiweKey;
    var s' := Apply(sys, s, e);
    forall k | k in s'.asks ensures AskOk(sys, s', s'.asks[k]) {
      if k != e.call {
        OtherAsks(sys, s, e, k);
        AskStays(sys, s, s', s.asks[k]);
      } else if e.WriteChallenge? {
        WrittenAskOk(sys, s, e);
      } else if k in s.asks {
        AskStays(sys, s, s', s.asks[k]);
      } else {
        StartedAskOk(sys, s, e);
      }
    }
  }

  lemma StepKeepsAsks(sys: System, s: State, e: Event)
    requires Sound(sys, s)
    ensures AsksOk(sys, Apply(sys, s, e))
  {
    hide AskOk, Apply;
    Frame(sys, s, e);
    if TouchesAsks(e) {
      NewAskOk(sys, s, e);
    } else {
      var s' := Apply(sys, s, e);
      forall k | k in s'.asks ensures AskOk(sys, s', s'.asks[k]) {
        AskStays(sys, s, s', s.asks[k]);
      }
    }
  }

  lemma SourceStays(s: State, s': State, w: string, r: Record)
    requires Source(s, w, r) && Grows(s, s')
    ensures Source(s', w, r)
  {
  }

  /** What a step can put into a cell: what its request composed. */
  lemma CellChanges(sys: System, s: State, e: Event, w: string)
    requires TouchesCells(e) && w in Apply(sys, s, e).pending
    requires !(w in s.pending && Apply(sys, s, e).pending[w] == s.pending[w])
    ensures e.WriteChallenge? && e.call in s.asks && s.asks[e.call].Composed? && s.asks[e.call].challenge.wallet == w
    ensures Source(Apply(sys, s, e), w, Apply(sys, s, e).pending[w])
  {
    hide Put, Drop, ChallengeKey;
  }

  lemma NewCellsHaveSource(sys: System, s: State, e: Event)
    requires Sound(sys, s) && TouchesCells(e)
    ensures CellsHaveSource(Apply(sys, s, e))
  {
    hide Apply, Compose, IsWallet, NormalizeHex, CellsRefined, FetchesOk, DeletionsHold, ChecksOk, Grows, Source;
    var s' := Apply(sys, s, e);
    StepGrows(sys, s, e);
    forall w | w in s'.pending ensures IsWallet(w) && Source(s', w, s'.pending[w]) {
      if w in s.pending && s'.pending[w] == s.pending[w] {
        SourceStays(s, s', w, s.pending[w]);
      } else {
        CellChanges(sys, s, e, w);
        assert AskOk(sys, s, s.asks[e.call]);
      }
    }
  }

  lemma StepKeepsSources(sys: System, s: State, e: Event)
    requires Sound(sys, s)
    ensures CellsHaveSource(Apply(sys, s, e))
  {
    hide Apply, Source, IsWallet, Grows, CellsRefined, FetchesOk, DeletionsHold, ChecksOk;
    Frame(sys, s, e);
    StepGrows(sys, s, e);
    if TouchesCells(e) {
      NewCellsHaveSource(sys, s, e);
    } else {
      forall w | w in s.pending ensures Source(Apply(sys, s, e), w, s.pending[w]) {
        SourceStays(s, Apply(sys, s, e), w, s.pending[w]);
      }
    }
  }

  /** What a fetch reads is what the simple form holds. */
  lemma ReadIsRecord(sys: System, s: State, w: string)
    requires Sound(sys, s) && IsWallet(w) && Lookup(s.entries, ChallengeKey(sys, w), s.now).Some?
    ensures w in s.pending && s.now <= s.pending[w].expiresAt && Source(s, w, s.pending[w])
    ensures Lookup(s.entries, ChallengeKey(sys, w), s.now).value == s.pending[w].message
  {
    assert Refined(s.entries, ChallengeKey(sys, w), Cell(s, w));
  }

  lemma StartedFetchOk(sys: System, s: State, e: Event)
    requires e.StartFetch? && e.call !in s.fetches
    ensures FetchOk(Apply(sys, s, e), Apply(sys, s, e).fetches[e.call])
  {
    hide NormalizeHex, IsHexAddress;
    NormalWallet(e.wallet);
  }

  lemma ReadFetchOk(sys: System, s: State, e: Event)
    requires Sound(sys, s) && e.ReadChallenge? && e.call in s.fetches && s.fetches[e.call].Started?
    ensures var s' := Apply(sys, s, e); e.call in s'.fetches && FetchOk(s', s'.fetches[e.call])
  {
    hide NormalizeHex, IsHexAddress, SiweKey, Compose, CellsRefined, DeletionsHold, ChecksOk;
    assert FetchOk(s, s.fetches[e.call]);
    var w := s.fetches[e.call].wallet;
    if Lookup(s.entries, ChallengeKey(sys, w), s.now).Some? {
      ReadIsRecord(sys, s, w);
      assert AskOk(sys, s, s.asks[OriginOf(s, w)]);
    }
  }

  lemma DeletedFetchOk(sys: System, s: State, e: Event)
    requires e.DeleteChallenge? && e.call in s.fetches && FetchOk(s, s.fetches[e.call])
    ensures FetchOk(Apply(sys, s, e), Apply(sys, s, e).fetches[e.call])
  {
    hide SiweKey, IsWallet;
  }

  lemma FetchStays(s: State, s': State, f: Fetching)
    requires FetchOk(s, f) && Grows(s, s')
    ensures FetchOk(s', f)
  {
    hide IsWallet;
  }

  lemma OtherFetches(sys: System, s: State, e: Event, j: CallId)
    requires TouchesFetches(e) && j != e.call
    ensures j in Apply(sys, s, e).fetches <==> j in s.fetches
    ensures j in s.fetches ==> Apply(sys, s, e).fetches[j] == s.fetches[j]
  {
    hide SiweKey, NormalizeHex, IsHexAddress;
  }

  /** A step on a fetch that it does not fit changes no fetch. */
  lemma IdleFetch(sys: System, s: State, e: Event)
    requires TouchesFetches(e) && e.call in s.fetches
    requires e.ReadChallenge? ==> !s.fetches[e.call].Started?
    requires !e.DeleteChallenge?
    ensures Apply(sys, s, e).fetches == s.fetches
  {
  }

  lemma StepKeepsFetches(sys: System, s: State, e: Event)
    requires Sound(sys, s)
    ensures FetchesOk(Apply(sys, s, e))
  {
    hide Apply, FetchOk, Grows, CellsRefined, CellsHaveSource, AsksOk, DeletionsHold, ChecksOk;
    var s' := Apply(sys, s, e);
    StepGrows(sys, s, e);
    Frame(sys, s, e);
    forall j | j in s'.fetches ensures FetchOk(s', s'.fetches[j]) {
      if !TouchesFetches(e) {
        FetchStays(s, s', s.fetches[j]);
      } else if j != e.call {
        OtherFetches(sys, s, e, j);
        FetchStays(s, s', s.fetches[j]);
      } else if j !in s.fetches {
        FetchBegins(sys, s, e);
        StartedFetchOk(sys, s, e);
      } else if e.DeleteChallenge? {
        DeletedFetchOk(sys, s, e);
      } else if e.ReadChallenge? && s.fetches[j].Started? {
        ReadFetchOk(sys, s, e);
      } else {
        IdleFetch(sys, s, e);
        FetchStays(s, s', s.fetches[j]);
      }
    }
  }

  lemma FetchBegins(sys: System, s: State, e: Event)
    requires TouchesFetches(e) && e.call !in s.fetches && e.call in Apply(sys, s, e).fetches
    ensures e.StartFetch?
  {
  }

  lemma CellsBelongToOne(s: State, w: string, v: string)
    requires CellsHaveSource(s) && w in s.pending && v in s.pending && s.pending[w].asked == s.pending[v].asked
    ensures w == v
  {
    assert Source(s, w, s.pending[w]) && Source(s, v, s.pending[v]);
  }

  lemma DeleteIsForGood(sys: System, s: State, e: Event)
    requires Sound(sys, s) && e.DeleteChallenge? && e.fault.NoFault?
    requires e.call in s.fetches && s.fetches[e.call].Holding?
    ensures var s' := Apply(sys, s, e);
            e.call in s'.fetches && s'.fetches[e.call].Returned? && DeletedForGood(s', e.call)
  {
    hide SA.Inspect, Compose, SiweKey, ServiceKey, NormalizeHex, IsHexAddress;
    var s' := Apply(sys, s, e);
    var f := s.fetches[e.call];
    assert FetchOk(s, f);
    forall w | w in s'.pending ensures s'.pending[w].asked != f.origin {
      assert Source(s, w, s.pending[w]);
    }
    forall j | j in s'.fetches && HasRead(s'.fetches[j]) ensures s'.fetches[j].readStep < s.step {
      assert FetchOk(s, s.fetches[j]);
    }
  }

  /** A challenge that has left its cell does not come back. */
  lemma OutOfCellForGood(sys: System, s: State, e: Event, k: CallId)
    requires Sound(sys, s) && Written(s, k) && !InCell(s, k)
    ensures !InCell(Apply(sys, s, e), k)
  {
    hide SA.Inspect, Compose, SiweKey, ServiceKey, NormalizeHex, IsHexAddress, Sound;
    var s' := Apply(sys, s, e);
    forall w | w in s'.pending ensures s'.pending[w].asked != k {
      if w in s.pending {
        assert s.pending[w].asked != k;
      }
    }
  }

  /** A challenge out of its cell is read no more. */
  lemma ReadsComeFromCell(sys: System, s: State, e: Event, j: CallId)
    requires Sound(sys, s) && j in Apply(sys, s, e).fetches && HasRead(Apply(sys, s, e).fetches[j])
    requires !(j in s.fetches && HasRead(s.fetches[j]))
    ensures InCell(s, Apply(sys, s, e).fetches[j].origin)
    ensures e.ReadChallenge? && e.call == j && j in s.fetches && s.fetches[j].Started?
  {
    hide SA.Inspect, Compose, SiweKey, ServiceKey, NormalizeHex, IsHexAddress;
    assert e.ReadChallenge?;
    assert FetchOk(s, s.fetches[j]);
    ReadIsRecord(sys, s, s.fetches[j].wallet);
  }

  lemma ReadStays(sys: System, s: State, e: Event, j: CallId)
    requires j in s.fetches && HasRead(s.fetches[j])
    ensures j in Apply(sys, s, e).fetches
    ensures var f, f' := s.fetches[j], Apply(sys, s, e).fetches[j];
            HasRead(f') ==> f'.origin == f.origin && f'.readStep == f.readStep && f'.wallet == f.wallet
                            && f'.message == f.message && f'.readAt == f.readAt
  {
    hide SA.Inspect, Compose, SiweKey, ServiceKey, NormalizeHex, IsHexAddress;
  }

  lemma StaysDeleted(sys: System, s: State, e: Event, i: CallId)
    requires Sound(sys, s) && i in s.fetches && s.fetches[i].Returned?
    ensures i in Apply(sys, s, e).fetches && Apply(sys, s, e).fetches[i].Returned?
    ensures DeletedForGood(Apply(sys, s, e), i)
  {
    hide Apply, InCell, IsWallet, CellsRefined, ChecksOk, SeenKept, SeenBrief, ReadsSpaced, AsksOk;
    var s' := Apply(sys, s, e);
    var k := s.fetches[i].origin;
    assert DeletedForGood(s, i) && FetchOk(s, s.fetches[i]);
    StepGrows(sys, s, e);
    OutOfCellForGood(sys, s, e, k);
    forall j | j in s'.fetches && HasRead(s'.fetches[j]) && s'.fetches[j].origin == k
      ensures s'.fetches[j].readStep < s'.fetches[i].deleteStep
    {
      if j in s.fetches && HasRead(s.fetches[j]) {
        ReadStays(sys, s, e, j);
      } else {
        ReadsComeFromCell(sys, s, e, j);
      }
    }
  }

  lemma StepKeepsDeletions(sys: System, s: State, e: Event)
    requires Sound(sys, s)
    ensures DeletionsHold(Apply(sys, s, e))
  {
    hide SA.Inspect, Compose, SiweKey, ServiceKey, NormalizeHex, IsHexAddress;
    var s' := Apply(sys, s, e);
    forall i | i in s'.fetches && s'.fetches[i].Returned? ensures DeletedForGood(s', i) {
      if i in s.fetches && s.fetches[i].Returned? {
        StaysDeleted(sys, s, e, i);
      } else {
        DeleteIsForGood(sys, s, e);
      }
    }
  }

  /* ---------- Service payloads: every step keeps them ---------- */

  /** A payload that passed every check has a signature that decodes, hence no colon in it. */
  lemma InspectedText(sys: System, text: string, now: int)
    requires SA.Inspect(sys.ring, Some(text), now).Ok?
    ensures SA.Inspect(sys.ring, Some(text), now) == Ok(PayloadOf(text)) && ':' !in PayloadOf(text).signature
  {
    SA.InspectedPayload(sys.ring, text, now);
  }

  lemma StartedCheckOk(sys: System, s: State, e: Event)
    requires e.StartCheck? && e.call !in s.checks
    ensures CheckOk(sys, Apply(sys, s, e), Apply(sys, s, e).checks[e.call])
  {
    hide SA.Inspect, PayloadOf;
    if SA.Inspect(sys.ring, e.payload, s.now).Ok? {
      NoTextNoCheck(sys, e.payload, s.now);
      InspectedText(sys, e.payload.value, s.now);
    }
  }

  lemma MovedCheckOk(sys: System, s: State, e: Event)
    requires TouchesChecks(e) && e.call in s.checks && CheckOk(sys, s, s.checks[e.call])
    ensures CheckOk(sys, Apply(sys, s, e), Apply(sys, s, e).checks[e.call])
  {
    hide SA.Inspect, PayloadOf, ServiceKey;
  }

  lemma CheckStays(sys: System, s: State, s': State, c: Checking)
    requires CheckOk(sys, s, c) && s.now <= s'.now && s.step <= s'.step
    ensures CheckOk(sys, s', c)
  {
    hide SA.Inspect, PayloadOf;
  }

  lemma OtherChecks(sys: System, s: State, e: Event, k: CallId)
    requires TouchesChecks(e) && k != e.call
    ensures k in Apply(sys, s, e).checks <==> k in s.checks
    ensures k in s.checks ==> Apply(sys, s, e).checks[k] == s.checks[k]
  {
    hide SA.Inspect, PayloadOf, ServiceKey;
  }

  lemma CheckBegins(sys: System, s: State, e: Event)
    requires TouchesChecks(e) && e.call !in s.checks && e.call in Apply(sys, s, e).checks
    ensures e.StartCheck?
  {
    hide SA.Inspect;
  }

  lemma StepKeepsChecks(sys: System, s: State, e: Event)
    requires Sound(sys, s)
    ensures ChecksOk(sys, Apply(sys, s, e))
  {
    hide Apply, CheckOk, CellsRefined, CellsHaveSource, AsksOk, DeletionsHold, FetchesOk;
    var s' := Apply(sys, s, e);
    Frame(sys, s, e);
    forall k | k in s'.checks ensures CheckOk(sys, s', s'.checks[k]) {
      if !TouchesChecks(e) {
        CheckStays(sys, s, s', s.checks[k]);
      } else if k != e.call {
        OtherChecks(sys, s, e, k);
        CheckStays(sys, s, s', s.checks[k]);
      } else if k in s.checks {
        MovedCheckOk(sys, s, e);
      } else {
        CheckBegins(sys, s, e);
        StartedCheckOk(sys, s, e);
      }
    }
  }

  lemma NoTextNoCheck(sys: System, payload: Option<string>, now: int)
    requires SA.Inspect(sys.ring, payload, now).Ok?
    ensures payload.Some?
  {
  }

  /** No event but a later writing of the same signature changes a service entry, and that one makes it last. */
  lemma SeenEntryKept(sys: System, s: State, e: Event, name: string, signature: string)
    requires Sound(sys, s) && ':' !in signature && ServiceKey(name, signature) in s.entries
    ensures ServiceKey(name, signature) in Apply(sys, s, e).entries
    ensures var key, s' := ServiceKey(name, signature), Apply(sys, s, e);
            s.entries[key].expiresAt <= s'.entries[key].expiresAt
  {
    hide SA.Inspect, Compose, SiweKey, ServiceKey, NormalizeHex, IsHexAddress, PayloadOf;
    if e.WriteChallenge? && e.call in s.asks && s.asks[e.call].Composed? {
      assert AskOk(sys, s, s.asks[e.call]);
      KeysDisjoint(sys, name, signature, s.asks[e.call].challenge.wallet);
    } else if e.DeleteChallenge? && e.call in s.fetches && s.fetches[e.call].Holding? {
      assert FetchOk(s, s.fetches[e.call]);
      KeysDisjoint(sys, name, signature, s.fetches[e.call].wallet);
    }
  }

  lemma KeepsStep(sys: System, s: State, e: Event, name: string, signature: string, until: int)
    requires Sound(sys, s) && ':' !in signature && Keeps(s.entries, ServiceKey(name, signature), until)
    ensures Keeps(Apply(sys, s, e).entries, ServiceKey(name, signature), until)
  {
    SeenEntryKept(sys, s, e, name, signature);
  }

  lemma StepKeepsSeen(sys: System, s: State, e: Event)
    requires Sound(sys, s)
    ensures SeenKept(Apply(sys, s, e))
  {
    hide Apply, CellsRefined, CellsHaveSource, AsksOk, FetchesOk, DeletionsHold, SeenBrief, ReadsSpaced;
    var s' := Apply(sys, s, e);
    forall k | k in s'.checks && s'.checks[k].Admitted?
      ensures Keeps(s'.entries, SeenKey(s'.checks[k].text), s'.checks[k].writtenAt + SA.PAYLOAD_DURATION)
    {
      if k in s.checks && s.checks[k].Admitted? {
        StepGrows(sys, s, e);
        assert CheckOk(sys, s, s.checks[k]);
        var p := PayloadOf(s.checks[k].text);
        KeepsStep(sys, s, e, p.name, p.signature, s.checks[k].writtenAt + SA.PAYLOAD_DURATION);
      } else {
        AdmissionWrites(sys, s, e, k);
      }
    }
  }

  /** The accepting step leaves the signature in the cache for a payload's duration. */
  lemma AdmissionWrites(sys: System, s: State, e: Event, k: CallId)
    requires k in Apply(sys, s, e).checks && Apply(sys, s, e).checks[k].Admitted?
    requires !(k in s.checks && s.checks[k].Admitted?)
    ensures e.WriteSeen? && e.call == k && k in s.checks && s.checks[k].Unseen?
    ensures var s' := Apply(sys, s, e);
            && s'.checks[k] == Admitted(s.checks[k].text, s.checks[k].at, s.checks[k].readAt, s.checks[k].readStep,
                                        s.now, s.step)
            && Keeps(s'.entries, SeenKey(s'.checks[k].text), s'.checks[k].writtenAt + SA.PAYLOAD_DURATION)
  {
    hide SA.Inspect, Compose, SiweKey, ServiceKey, NormalizeHex, IsHexAddress, PayloadOf;
    assert e.WriteSeen?;
  }

  lemma StepKeepsBrief(sys: System, s: State, e: Event)
    requires Sound(sys, s)
    ensures SeenBrief(Apply(sys, s, e))
  {
    hide SA.Inspect, Compose, SiweKey, ServiceKey, NormalizeHex, IsHexAddress, PayloadOf;
    var s' := Apply(sys, s, e);
    forall name, signature | ':' !in signature && ServiceKey(name, signature) in s'.entries
      ensures s'.entries[ServiceKey(name, signature)].expiresAt <= s'.now + SA.PAYLOAD_DURATION
    {
      if e.WriteChallenge? && e.call in s.asks && s.asks[e.call].Composed? {
        assert AskOk(sys, s, s.asks[e.call]);
        KeysDisjoint(sys, name, signature, s.asks[e.call].challenge.wallet);
      }
    }
  }

  /** A reading that finds no entry after an admission comes after the entry's end. */
  lemma ReadIsSpaced(sys: System, s: State, e: Event, i: CallId)
    requires Sound(sys, s) && e.ReadSeen?
    requires e.call in Apply(sys, s, e).checks && HasRoom(Apply(sys, s, e).checks[e.call])
    requires e.call in s.checks && s.checks[e.call].Checked?
    requires i in s.checks && s.checks[i].Admitted?
    ensures Spaced(s.checks[i], Apply(sys, s, e).checks[e.call])
  {
    hide SA.Inspect, ServiceKey, PayloadOf, CellsRefined, CellsHaveSource, AsksOk, FetchesOk, DeletionsHold, SeenBrief;
    assert Keeps(s.entries, SeenKey(s.checks[i].text), s.checks[i].writtenAt + SA.PAYLOAD_DURATION);
  }

  /** What a step on a check can do to it when it has read the cache. */
  lemma OwnRoomStays(sys: System, s: State, e: Event)
    requires TouchesChecks(e) && e.call in Apply(sys, s, e).checks && HasRoom(Apply(sys, s, e).checks[e.call])
    ensures e.call in s.checks
    ensures var c, c' := s.checks[e.call], Apply(sys, s, e).checks[e.call];
            && (HasRoom(c) ==> c'.text == c.text && c'.readStep == c.readStep && c'.readAt == c.readAt)
            && (!HasRoom(c) ==> e.ReadSeen? && c.Checked?)
  {
    hide SA.Inspect, Put, Lookup, SeenKey, PayloadOf;
  }

  lemma RoomStays(sys: System, s: State, e: Event, j: CallId)
    requires j in Apply(sys, s, e).checks && HasRoom(Apply(sys, s, e).checks[j])
    ensures j in s.checks
    ensures HasRoom(s.checks[j]) ==> Apply(sys, s, e).checks[j].text == s.checks[j].text
                                     && Apply(sys, s, e).checks[j].readStep == s.checks[j].readStep
                                     && Apply(sys, s, e).checks[j].readAt == s.checks[j].readAt
    ensures !HasRoom(s.checks[j]) ==> e.ReadSeen? && e.call == j && s.checks[j].Checked?
  {
    hide Apply;
    FrameCalls(sys, s, e);
    if TouchesChecks(e) {
      if j == e.call {
        OwnRoomStays(sys, s, e);
      } else {
        OtherChecks(sys, s, e, j);
      }
    }
  }

  lemma StepKeepsSpaced(sys: System, s: State, e: Event)
    requires Sound(sys, s)
    ensures ReadsSpaced(Apply(sys, s, e))
  {
    hide Apply, CellsRefined, CellsHaveSource, AsksOk, FetchesOk, DeletionsHold, SeenBrief, SeenKept, SeenKey;
    var s' := Apply(sys, s, e);
    StepGrows(sys, s, e);
    forall i, j | i in s'.checks && j in s'.checks && s'.checks[i].Admitted? && HasRoom(s'.checks[j])
      ensures Spaced(s'.checks[i], s'.checks[j])
    {
      RoomStays(sys, s, e, i);
      RoomStays(sys, s, e, j);
      assert CheckOk(sys, s, s.checks[i]) && CheckOk(sys, s, s.checks[j]);
      if !s.checks[i].Admitted? {
        AdmissionWrites(sys, s, e, i);
      } else if HasRoom(s.checks[j]) {
        assert Spaced(s.checks[i], s.checks[j]);
      } else {
        ReadIsSpaced(sys, s, e, i);
      }
    }
  }

  /* ---------- Every reachable state ---------- */

  lemma StepSound(sys: System, s: State, e: Event)
    requires Sound(sys, s)
    ensures Sound(sys, Apply(sys, s, e))
  {
    hide *;
    StepRefines(sys, s, e);
    StepKeepsAsks(sys, s, e);
    StepKeepsSources(sys, s, e);
    StepKeepsFetches(sys, s, e);
    StepKeepsDeletions(sys, s, e);
    StepKeepsChecks(sys, s, e);
    StepKeepsSeen(sys, s, e);
    StepKeepsBrief(sys, s, e);
    StepKeepsSpaced(sys, s, e);
    SoundParts(sys, Apply(sys, s, e));
  }

  lemma SoundParts(sys: System, s: State)
    requires CellsRefined(sys, s) && CellsHaveSource(s) && AsksOk(sys, s) && FetchesOk(s) && DeletionsHold(s)
    requires ChecksOk(sys, s) && SeenKept(s) && SeenBrief(s) && ReadsSpaced(s)
    ensures Sound(sys, s)
  {
  }

  lemma {:induction false} RunSound(sys: System, s: State, events: seq<Event>)
    requires Sound(sys, s)
    ensures Sound(sys, Run(sys, s, events))
    decreases |events|
  {
    if events != [] {
      StepSound(sys, s, events[0]);
      RunSound(sys, Apply(sys, s, events[0]), events[1..]);
    }
  }

  lemma InitialSound(sys: System, s: State)
    requires Initial(s)
    ensures Sound(sys, s)
  {
  }

  lemma Reachable(sys: System, s: State, events: seq<Event>)
    requires Initial(s)
    ensures Sound(sys, Run(sys, s, events))
  {
    InitialSound(sys, s);
    RunSound(sys, s, events);
  }
}
