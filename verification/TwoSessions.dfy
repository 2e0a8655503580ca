/**
  One signature, two sessions: two calls of Authenticate whose fetches overlap are handed the
  same challenge, pass with the same signature, and open a session each.
 */
module TwoSessions {
  import opened Wrappers
  import opened Encoding
  import opened TtlCache
  import opened Tokens
  import EW = EthereumWallet
  import P = Protocol
  import C = CacheSafety
  import Ch = Challenges
  import S = Sessions
  import SU = SignUp
  import opened EndToEnd
  import opened TwoUsers

  /** An Authenticate of an existing credential that meets no fault. */
  function ExistingSteps(call: CallId, c: S.Credential, access: TokenId, refresh: TokenId): (e: seq<S.Event>)
    ensures |e| == 7
  {
    SU.Script(call, c.wallet, c.userId, Some(c), access, refresh)
  }

  /** It opens a session and changes nothing else but what is released. */
  lemma ExistingSignIn(cfg: S.Config, s: S.State, call: CallId, c: S.Credential, access: TokenId, refresh: TokenId)
    requires call !in s.calls && c in s.credentials && refresh !in s.sessions
    ensures var s' := S.Run(cfg, s, ExistingSteps(call, c, access, refresh));
            && s'.credentials == s.credentials && s'.calls == s.calls
            && s'.sessions.Keys == s.sessions.Keys + {refresh}
            && exists p: Payload :: p.id == refresh && p in s'.released
                                    && s'.openings == s.openings + {S.Opening(call, p)}
  {
    var e := ExistingSteps(call, c, access, refresh);
    SU.RunScript(cfg, s, e);
    var s3 := S.Apply(cfg, S.Apply(cfg, S.Apply(cfg, s, e[0]), e[1]), e[2]);
    assert s3 == S.At(s, call, S.Bound(c, false));
    var s5 := S.Apply(cfg, S.Apply(cfg, s3, e[3]), e[4]);
    var p := s5.calls[call].refresh;
    var s6 := S.Apply(cfg, s5, e[5]);
    assert S.Referenced(s5, c);
    assert s6.calls[call].Recorded?;
    assert S.Apply(cfg, s6, e[6]).openings == s.openings + {S.Opening(call, p)};
  }

  /** What both calls do at the challenge store: read, read, delete, delete. */
  function Rest(c: CallId, d: CallId): seq<P.Event> {
    [P.ReadChallenge(c, false), P.ReadChallenge(d, false), P.DeleteChallenge(c, NoFault), P.DeleteChallenge(d, NoFault)]
  }

  function Overlapping(c: CallId, d: CallId): seq<Event> { [Proceed(c), Proceed(d)] + Lift(Rest(c, d)) }

  /** The joint run is the run at the cache. */
  lemma OverlappingRuns(sys: P.System, cfg: S.Config, s: State, c: CallId, d: CallId, caller: Caller)
    requires OneClock(s) && c in s.callers && d in s.callers && s.callers[c] == s.callers[d] == caller
    requires P.FromUsers(s.cache, c) && P.FromUsers(s.cache, d) && C.IsWallet(NormalizeHex(caller.wallet))
    ensures var w := NormalizeHex(caller.wallet);
            var s' := Run(sys, cfg, s, Overlapping(c, d));
            && s' == s.(cache := P.Run(sys, s.cache, [P.StartFetch(c, w), P.StartFetch(d, w)] + Rest(c, d)))
            && OneClock(s')
  {
    hide P.Apply, P.Run, Run, NormalizeHex;
    var w, wallet := NormalizeHex(caller.wallet), caller.wallet;
    var s1 := s.(cache := P.Apply(sys, s.cache, P.StartFetch(c, wallet)));
    var s2 := s1.(cache := P.Apply(sys, s1.cache, P.StartFetch(d, wallet)));
    OutsideStep(sys, cfg, s, P.StartFetch(c, wallet));
    C.Frame(sys, s.cache, P.StartFetch(c, wallet));
    OutsideStep(sys, cfg, s1, P.StartFetch(d, wallet));
    SameStart(sys, s.cache, c, wallet);
    SameStart(sys, s1.cache, d, wallet);
    LiftedRun(sys, cfg, s2, Rest(c, d));
    assert Overlapping(c, d) == [Proceed(c)] + ([Proceed(d)] + Lift(Rest(c, d)));
    RunFirst(sys, cfg, s, Proceed(c), [Proceed(d)] + Lift(Rest(c, d)));
    RunFirst(sys, cfg, s1, Proceed(d), Lift(Rest(c, d)));
    P.RunConcat(sys, s.cache, [P.StartFetch(c, w), P.StartFetch(d, w)], Rest(c, d));
    P.RunTwo(sys, s.cache, P.StartFetch(c, w), P.StartFetch(d, w));
  }

  lemma SameStart(sys: P.System, s: P.State, c: CallId, wallet: string)
    requires C.IsWallet(NormalizeHex(wallet))
    ensures P.Apply(sys, s, P.StartFetch(c, wallet)) == P.Apply(sys, s, P.StartFetch(c, NormalizeHex(wallet)))
  {
    hide NormalizeHex, IsHexAddress;
  }

  /** Both calls pass with the one signature, on the one challenge. */
  lemma BothPass(sys: P.System, s: P.State, k: CallId, c: CallId, d: CallId, caller: Caller)
    requires C.Sound(sys, s) && P.FromUsers(s, c) && P.FromUsers(s, d) && c != d
    requires c !in s.fetches && d !in s.fetches
    requires var w := NormalizeHex(caller.wallet);
             && w in s.pending && s.pending[w].asked == k && s.now <= s.pending[w].expiresAt
             && EW.Check(sys.curve, caller.wallet, s.pending[w].message, caller.signature).Ok?
    ensures var w := NormalizeHex(caller.wallet);
            var s' := P.Run(sys, s, [P.StartFetch(c, w), P.StartFetch(d, w)] + Rest(c, d));
            && P.Passes(sys, s', c, caller.wallet, caller.signature) && Ch.Returns(s', k, c)
            && P.Passes(sys, s', d, caller.wallet, caller.signature) && Ch.Returns(s', k, d)
  {
    hide P.Apply, P.Run, NormalizeHex, EW.Check, C.Sound;
    var w, r := NormalizeHex(caller.wallet), s.pending[NormalizeHex(caller.wallet)];
    var e := [P.StartFetch(c, w), P.StartFetch(d, w)] + Rest(c, d);
    Ch.OverlapReturnsTwice(sys, s, k, w, c, d);
    assert e == [P.StartFetch(c, w), P.StartFetch(d, w), P.ReadChallenge(c, false), P.ReadChallenge(d, false)]
                + [P.DeleteChallenge(c, NoFault), P.DeleteChallenge(d, NoFault)];
    var s' := P.Run(sys, s, e);
    C.RunSound(sys, s, e);
    C.RunGrows(sys, s, e);
    ReturnedFrom(sys, s, s', k, w, c);
    ReturnedFrom(sys, s, s', k, w, d);
  }

  /** What a fetch of a challenge returns is the message that its request wrote. */
  lemma ReturnedFrom(sys: P.System, s: P.State, s': P.State, k: CallId, w: string, c: CallId)
    requires C.Sound(sys, s) && C.Sound(sys, s') && C.Grows(s, s') && w in s.pending && s.pending[w].asked == k
    requires Ch.Returns(s', k, c)
    ensures s'.fetches[c].message == s.pending[w].message && s'.fetches[c].wallet == w
  {
    hide C.CellsRefined, C.DeletionsHold, C.ChecksOk, C.SeenKept, C.SeenBrief, C.ReadsSpaced, NormalizeHex, C.IsWallet;
    assert C.FetchOk(s', s'.fetches[c]) && C.Source(s, w, s.pending[w]);
  }

  /** The call is admitted, has not come to its fetch, and is nobody else's. */
  predicate Waiting(s: State, call: CallId, caller: Caller) {
    && call in s.callers && s.callers[call] == caller && P.FromUsers(s.cache, call)
    && call !in s.cache.fetches && call !in s.entered && call !in s.db.calls
  }

  /** A call that has passed enters and opens a session. */
  function Opens(call: CallId, c: S.Credential, access: TokenId, refresh: TokenId): seq<Event> {
    [Enter(call)] + LiftIn(ExistingSteps(call, c, access, refresh)[1..])
  }

  lemma OpensSession(sys: P.System, cfg: S.Config, s: State, call: CallId, c: S.Credential, access: TokenId,
                     refresh: TokenId)
    requires OneClock(s) && call in s.callers && call !in s.entered && call !in s.db.calls
    requires s.callers[call].wallet == c.wallet && s.callers[call].userId == c.userId
    requires P.Passes(sys, s.cache, call, c.wallet, s.callers[call].signature)
    requires c in s.db.credentials && refresh !in s.db.sessions
    ensures var s' := Run(sys, cfg, s, Opens(call, c, access, refresh));
            && OneClock(s') && s'.callers == s.callers && s'.entered == s.entered + {call}
            && s'.cache == s.cache.(step := s'.cache.step)
            && s'.db.credentials == s.db.credentials && s'.db.calls == s.db.calls
            && s'.db.sessions.Keys == s.db.sessions.Keys + {refresh}
            && exists p: Payload :: p.id == refresh && p in s'.db.released
                           && s'.db.openings == s.db.openings + {S.Opening(call, p)}
  {
    hide P.Apply, Apply, S.Apply, P.Passes;
    var steps := ExistingSteps(call, c, access, refresh);
    EnterBegins(sys, cfg, s, call);
    var s1 := Apply(sys, cfg, s, Enter(call));
    TimelessIsStill(cfg, s1.db, steps[1..]);
    LiftedSteps(sys, cfg, s1, steps[1..]);
    RunFirst(sys, cfg, s, Enter(call), LiftIn(steps[1..]));
    ExistingSignIn(cfg, s.db, call, c, access, refresh);
  }

  function TwoOpenings(c: CallId, d: CallId, cred: S.Credential, n: TokenId): seq<Event> {
    Overlapping(c, d) + Opens(c, cred, n, n + 1) + Opens(d, cred, n + 2, n + 3)
  }

  /**
    One signature, two sessions. In any sound state with a readable challenge, whatever else is
    under way, two admitted calls that bring the same good signature for it, for the user and
    wallet of a committed credential, both open a session that goes back to that challenge.
   */
  lemma OneSignatureTwoSessions(sys: P.System, cfg: S.Config, s: State, k: CallId, c: CallId, d: CallId,
                                caller: Caller, cred: S.Credential, n: TokenId)
    requires OneClock(s) && C.Sound(sys, s.cache) && c != d && Waiting(s, c, caller) && Waiting(s, d, caller)
    requires var w, pending := NormalizeHex(caller.wallet), s.cache.pending;
             && w in pending && pending[w].asked == k && s.cache.now <= pending[w].expiresAt
             && EW.Check(sys.curve, caller.wallet, pending[w].message, caller.signature).Ok?
    requires cred in s.db.credentials && cred.wallet == caller.wallet && cred.userId == caller.userId
    requires n + 1 !in s.db.sessions && n + 3 !in s.db.sessions
    ensures AllWellFormed(TwoOpenings(c, d, cred, n))
    ensures var s' := Run(sys, cfg, s, TwoOpenings(c, d, cred, n));
            && Ch.Returns(s'.cache, k, c) && Ch.Returns(s'.cache, k, d)
            && exists o, p | o in s'.db.openings && p in s'.db.openings ::
                 && o.call == c && p.call == d && o.refresh.id == n + 1 && p.refresh.id == n + 3
                 && o.refresh in s'.db.released && p.refresh in s'.db.released
  {
    hide P.Apply, Apply, P.Run, P.FromUsers, P.Passes, C.Sound, EW.Check, NormalizeHex, C.IsWallet, Opens, Overlapping;
    Ch.PendingWallet(sys, s.cache, NormalizeHex(caller.wallet));
    OverlappingRuns(sys, cfg, s, c, d, caller);
    BothPass(sys, s.cache, k, c, d, caller);
    var s1 := Run(sys, cfg, s, Overlapping(c, d));
    OpensSession(sys, cfg, s1, c, cred, n, n + 1);
    var s2 := Run(sys, cfg, s1, Opens(c, cred, n, n + 1));
    StepsDoNotMatter(sys, s1.cache, s2.cache, d, caller);
    OpensSession(sys, cfg, s2, d, cred, n + 2, n + 3);
    var s3 := Run(sys, cfg, s2, Opens(d, cred, n + 2, n + 3));
    RunConcat(sys, cfg, s, Overlapping(c, d), Opens(c, cred, n, n + 1));
    RunConcat(sys, cfg, s, Overlapping(c, d) + Opens(c, cred, n, n + 1), Opens(d, cred, n + 2, n + 3));
    ReleasedStays(sys, cfg, s2, Opens(d, cred, n + 2, n + 3));
    TwoOpeningsWellFormed(c, d, cred, n);
  }

  lemma {:induction false} ReleasedStays(sys: P.System, cfg: S.Config, s: State, events: seq<Event>)
    ensures s.db.released <= Run(sys, cfg, s, events).db.released
    decreases |events|
  {
    hide Apply;
    if events != [] {
      var s1 := Apply(sys, cfg, s, events[0]);
      BehindStep(sys, cfg, s, events[0]);
      StepReleases(cfg, s.db, Behind(sys, cfg, s, events[0]));
      ReleasedStays(sys, cfg, s1, events[1..]);
    }
  }

  lemma StepReleases(cfg: S.Config, s: S.State, e: S.Event)
    ensures s.released <= S.Apply(cfg, s, e).released
  {
  }

  lemma TwoOpeningsWellFormed(c: CallId, d: CallId, cred: S.Credential, n: TokenId)
    ensures AllWellFormed(TwoOpenings(c, d, cred, n))
  {
  }
}
