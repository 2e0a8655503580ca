/** What a successful revocation stops, and from when on. */
module Revocation {
  import opened TtlCache
  import opened Tokens
  import opened Sessions
  import opened SessionSafety
  import opened SessionTheorems
  import H = Handlers

  /** No refresh for u stands between its session check and its new token. */
  predicate NoneCleared(s: State, u: UserId) {
    forall k | k in s.calls :: !(s.calls[k].Cleared? && s.calls[k].payload.userId == u)
  }

  /** Event e hands the tokens of a new session to user u: an Authenticate of u succeeds. */
  predicate OpensSession(s: State, e: Event, u: UserId) {
    && e.Finish? && e.call in s.calls && s.calls[e.call].Recorded? && s.calls[e.call].credential.userId == u
    && (s.calls[e.call].created ==> e.fault.NoFault?)
  }

  predicate NoneOpened(cfg: Config, s: State, events: seq<Event>, u: UserId)
    decreases |events|
  {
    events == [] || (!OpensSession(s, events[0], u) && NoneOpened(cfg, Apply(cfg, s, events[0]), events[1..], u))
  }

  /** User u holds no more than the tokens `held`, and every refresh token among them is dead. */
  predicate Stopped(s: State, u: UserId, held: set<Payload>) {
    && NoneCleared(s, u)
    && forall p | p in s.released && p.userId == u ::
         p in held && (p.tokenType == Refresh ==> p.id in s.sessions && s.sessions[p.id].revoked)
  }

  lemma NoTokenReleased(cfg: Config, s: State, e: Event, u: UserId, p: Payload)
    requires Sound(cfg, s) && NoneCleared(s, u) && !OpensSession(s, e, u)
    requires p in Apply(cfg, s, e).released && p.userId == u
    ensures p in s.released
  {
    if (e.Finish? || e.MintRenewed?) && e.call in s.calls {
      assert StageOk(cfg, s, s.calls[e.call]);
    }
  }

  lemma NoneClearedStep(cfg: Config, s: State, e: Event, u: UserId, held: set<Payload>)
    requires Sound(cfg, s) && Stopped(s, u, held)
    ensures NoneCleared(Apply(cfg, s, e), u)
  {
    var s' := Apply(cfg, s, e);
    forall k | k in s'.calls && (k !in s.calls || s'.calls[k] != s.calls[k])
      ensures !(s'.calls[k].Cleared? && s'.calls[k].payload.userId == u)
    {
      if s'.calls[k].Cleared? {
        assert e.ReadSession? && e.call == k;
        assert StageOk(cfg, s, s.calls[k]);
      }
    }
  }

  lemma StoppedStep(cfg: Config, s: State, e: Event, u: UserId, held: set<Payload>)
    requires Sound(cfg, s) && Stopped(s, u, held) && !OpensSession(s, e, u)
    ensures Stopped(Apply(cfg, s, e), u, held)
  {
    var s' := Apply(cfg, s, e);
    NoneClearedStep(cfg, s, e, u, held);
    StepGrows(cfg, s, e);
    forall p | p in s'.released && p.userId == u
      ensures p in held && (p.tokenType == Refresh ==> p.id in s'.sessions && s'.sessions[p.id].revoked)
    {
      NoTokenReleased(cfg, s, e, u, p);
      if p.tokenType == Refresh {
        assert SameRow(s.sessions[p.id], s'.sessions[p.id]);
      }
    }
  }

  lemma {:induction false} StoppedRun(cfg: Config, s: State, events: seq<Event>, u: UserId, held: set<Payload>)
    requires Sound(cfg, s) && Stopped(s, u, held) && NoneOpened(cfg, s, events, u)
    ensures Stopped(Run(cfg, s, events), u, held)
    decreases |events|
  {
    if events != [] {
      StoppedStep(cfg, s, events[0], u, held);
      StepSound(cfg, s, events[0]);
      StoppedRun(cfg, Apply(cfg, s, events[0]), events[1..], u, held);
    }
  }

  /** Event e is the revocation of all of u's sessions, and it takes effect. */
  predicate Revokes(s: State, e: Event, u: UserId) {
    e.RevokeRows? && e.call in s.calls && s.calls[e.call] == Revoking(u) && !e.fault.FailsBefore?
  }

  lemma RevocationStops(cfg: Config, s: State, e: Event, u: UserId)
    requires Sound(cfg, s) && Revokes(s, e, u) && NoneCleared(s, u)
    ensures Stopped(Apply(cfg, s, e), u, s.released)
  {
    var s' := Apply(cfg, s, e);
    forall p | p in s'.released && p.userId == u
      ensures p in s.released && (p.tokenType == Refresh ==> p.id in s'.sessions && s'.sessions[p.id].revoked)
    {
      assert TokenOk(cfg, s, p);
      if p.tokenType == Refresh {
        assert RowOk(cfg, s, p.id, s.sessions[p.id]);
      }
    }
  }

  /** Until the next Authenticate of u: no refresh of u succeeds, no access token of u outlives the bound. */
  ghost predicate BoundHolds(cfg: Config, s: State, events: seq<Event>, u: UserId) {
    var later := Run(cfg, s, events);
    && (forall p | p in later.released && p.userId == u :: p in s.released)
    && (forall token | VerifyAccepts(later, token, u) :: later.now <= s.now + cfg.accessDuration)
  }

  /**
    Revocation bound. After a revocation for u at time r, in every continuation without
    another successful Authenticate of u, no refresh of u releases a token and no access token
    of u is accepted later than r plus the access duration, provided no refresh of u was
    between its session check and its new token.
   */
  lemma RevocationBound(cfg: Config, s0: State, events: seq<Event>, e: Event, u: UserId, more: seq<Event>)
    requires Initial(s0) && Revokes(Run(cfg, s0, events), e, u) && NoneCleared(Run(cfg, s0, events), u)
    requires NoneOpened(cfg, Apply(cfg, Run(cfg, s0, events), e), more, u)
    ensures BoundHolds(cfg, Apply(cfg, Run(cfg, s0, events), e), more, u)
  {
    var s := Run(cfg, s0, events);
    var s1 := Apply(cfg, s, e);
    Reachable(cfg, s0, events);
    RevocationStops(cfg, s, e, u);
    StepSound(cfg, s, e);
    StoppedRun(cfg, s1, more, u, s.released);
    var later := Run(cfg, s1, more);
    forall token | VerifyAccepts(later, token, u) ensures later.now <= s1.now + cfg.accessDuration {
      assert token.payload in s1.released;
      assert TokenOk(cfg, s1, token.payload);
    }
  }

  ghost predicate AlwaysBound(cfg: Config, s: State, u: UserId) {
    forall more | NoneOpened(cfg, s, more, u) :: BoundHolds(cfg, s, more, u)
  }

  /** A refresh that had passed its session check still gets a token, and later than the bound allows. */
  lemma ClearedRefreshEscapes(cfg: Config, s: State, u: UserId, k: CallId)
    requires k in s.calls && s.calls[k].Cleared? && s.calls[k].payload.userId == u
    ensures !AlwaysBound(cfg, s, u)
  {
    var p := s.calls[k].payload;
    var id: TokenId := 0;
    var e1, e2, e3 := Tick(1), MintRenewed(k, id, 0, false), Tick(cfg.accessDuration);
    var more := [e1, e2, e3];
    RunThree(cfg, s, e1, e2, e3);
    var s1 := Apply(cfg, s, e1);
    var s2 := Apply(cfg, s1, e2);
    assert more[1..] == [e2, e3] && [e2, e3][1..] == [e3] && [e3][1..] == [];
    assert NoneOpened(cfg, s2, [e3], u);
    assert NoneOpened(cfg, s1, [e2, e3], u);
    assert NoneOpened(cfg, s, more, u);
    var fresher := NewPayload(id, u, s.calls[k].requested, p.role, Access, s1.now, 0, cfg.accessDuration);
    assert fresher in s2.released;
    assert VerifyAccepts(Run(cfg, s, more), Sealed(fresher), u);
    assert !BoundHolds(cfg, s, more, u);
  }

  /** The exact condition: the bound holds in every continuation if and only if no refresh of u was cleared. */
  lemma RevocationBoundExact(cfg: Config, s0: State, events: seq<Event>, e: Event, u: UserId)
    requires Initial(s0) && Revokes(Run(cfg, s0, events), e, u)
    ensures AlwaysBound(cfg, Apply(cfg, Run(cfg, s0, events), e), u) <==> NoneCleared(Run(cfg, s0, events), u)
  {
    var s := Run(cfg, s0, events);
    var s1 := Apply(cfg, s, e);
    if NoneCleared(s, u) {
      forall more | NoneOpened(cfg, s1, more, u) ensures BoundHolds(cfg, s1, more, u) {
        RevocationBound(cfg, s0, events, e, u, more);
      }
    } else {
      var k :| k in s.calls && s.calls[k].Cleared? && s.calls[k].payload.userId == u;
      assert s1.calls[k] == s.calls[k];
      ClearedRefreshEscapes(cfg, s1, u, k);
    }
  }

  /** With handlers that run one at a time nothing can stand in between, and the bound is unconditional. */
  lemma SerialRevocationBound(cfg: Config, s0: State, events: seq<Event>, call: CallId, token: Token, u: UserId,
                              fault: Fault, more: seq<Event>)
    requires Initial(s0) && Run(cfg, s0, events).calls == map[] && !fault.FailsBefore?
    requires VerifyAccepts(Run(cfg, s0, events), token, u)
    requires var revoked := Run(cfg, Run(cfg, s0, events), [StartRevoke(call, token, u), RevokeRows(call, fault)]);
             NoneOpened(cfg, revoked, more, u)
    ensures var revoked := Run(cfg, Run(cfg, s0, events), [StartRevoke(call, token, u), RevokeRows(call, fault)]);
            BoundHolds(cfg, revoked, more, u)
  {
    var s := Run(cfg, s0, events);
    var start, e := StartRevoke(call, token, u), RevokeRows(call, fault);
    assert [start, e][1..] == [e] && [e][1..] == [] && [start][1..] == [];
    assert Run(cfg, s, [start]) == Apply(cfg, s, start);
    assert Run(cfg, s, [start, e]) == Run(cfg, Apply(cfg, s, start), [e]) == Apply(cfg, Apply(cfg, s, start), e);
    RunConcat(cfg, s0, events, [start]);
    RevocationBound(cfg, s0, events + [start], e, u, more);
  }

  /* ---------- One session ---------- */

  /** Event e stores a session row for user u. */
  predicate StoresFor(s: State, e: Event, u: UserId) {
    e.StoreSession? && e.call in s.calls && s.calls[e.call].TwoTokens? && s.calls[e.call].credential.userId == u
  }

  predicate NoneStored(cfg: Config, s: State, events: seq<Event>, u: UserId)
    decreases |events|
  {
    events == [] || (!StoresFor(s, events[0], u) && NoneStored(cfg, Apply(cfg, s, events[0]), events[1..], u))
  }

  predicate AllRevoked(s: State, u: UserId) {
    forall i | i in s.sessions && s.sessions[i].userId == u :: s.sessions[i].revoked
  }

  lemma AllRevokedStep(cfg: Config, s: State, e: Event, u: UserId)
    requires Sound(cfg, s) && AllRevoked(s, u) && !StoresFor(s, e, u)
    ensures AllRevoked(Apply(cfg, s, e), u)
  {
    if e.StoreSession? && e.call in s.calls && s.calls[e.call].TwoTokens? {
      assert StageOk(cfg, s, s.calls[e.call]);
    }
  }

  lemma {:induction false} AllRevokedRun(cfg: Config, s: State, events: seq<Event>, u: UserId)
    requires Sound(cfg, s) && AllRevoked(s, u) && NoneStored(cfg, s, events, u)
    ensures AllRevoked(Run(cfg, s, events), u)
    decreases |events|
  {
    if events != [] {
      AllRevokedStep(cfg, s, events[0], u);
      StepSound(cfg, s, events[0]);
      AllRevokedRun(cfg, Apply(cfg, s, events[0]), events[1..], u);
    }
  }

  /** A second revocation, when no session of u was recorded since the first, changes no row, and so answers 0. */
  lemma SecondRevocationChangesNothing(cfg: Config, s0: State, events: seq<Event>, e: Event, more: seq<Event>,
                                       e': Event, u: UserId)
    requires Initial(s0) && Revokes(Run(cfg, s0, events), e, u)
    requires var s := Apply(cfg, Run(cfg, s0, events), e);
             NoneStored(cfg, s, more, u) && Revokes(Run(cfg, s, more), e', u)
    ensures var later := Run(cfg, Apply(cfg, Run(cfg, s0, events), e), more);
            var last := Apply(cfg, later, e');
            last.sessions == later.sessions && |H.Changed(later.sessions, last.sessions)| == 0
  {
    hide Run, Sound, Initial, NoneStored;
    Reachable(cfg, s0, events);
    var s := Run(cfg, s0, events);
    StepSound(cfg, s, e);
    AllRevokedRun(cfg, Apply(cfg, s, e), more, u);
    NothingLeft(cfg, Run(cfg, Apply(cfg, s, e), more), e', u);
  }

  lemma NothingLeft(cfg: Config, s: State, e: Event, u: UserId)
    requires AllRevoked(s, u) && Revokes(s, e, u)
    ensures Apply(cfg, s, e).sessions == s.sessions && |H.Changed(s.sessions, Apply(cfg, s, e).sessions)| == 0
  {
  }

  /** No refresh of session i stands between its session check and its new token. */
  predicate NoneClearedFor(s: State, i: TokenId) {
    forall k | k in s.calls :: !(s.calls[k].Cleared? && s.calls[k].payload.id == i)
  }

  predicate IsRevoked(s: State, i: TokenId) { i in s.sessions && s.sessions[i].revoked }

  /** Session i is revoked, and no access token of it, released or about to be, outlives the instant. */
  predicate SessionStopped(s: State, i: TokenId, last: int) {
    && IsRevoked(s, i) && NoneClearedFor(s, i)
    && (forall d | d in s.descents && d.session == i :: d.access.expiresAt <= last)
    && (forall k | k in s.calls && s.calls[k].Recorded? && s.calls[k].refresh.id == i ::
          s.calls[k].access.expiresAt <= last)
  }

  lemma RevokedIsStopped(cfg: Config, s: State, i: TokenId)
    requires Sound(cfg, s) && IsRevoked(s, i) && NoneClearedFor(s, i)
    ensures SessionStopped(s, i, s.now + cfg.accessDuration)
  {
    forall d | d in s.descents && d.session == i ensures d.access.expiresAt <= s.now + cfg.accessDuration {
      assert DescentOk(cfg, s, d);
      assert TokenOk(cfg, s, d.access);
    }
    forall k | k in s.calls && s.calls[k].Recorded? && s.calls[k].refresh.id == i
      ensures s.calls[k].access.expiresAt <= s.now + cfg.accessDuration
    {
      assert StageOk(cfg, s, s.calls[k]);
    }
  }

  lemma SessionStaysCalm(cfg: Config, s: State, e: Event, i: TokenId, last: int)
    requires SessionStopped(s, i, last)
    ensures var s' := Apply(cfg, s, e);
            && IsRevoked(s', i) && NoneClearedFor(s', i)
            && forall k | k in s'.calls && s'.calls[k].Recorded? && s'.calls[k].refresh.id == i ::
                 s'.calls[k].access.expiresAt <= last
  {
  }

  lemma SessionStoppedStep(cfg: Config, s: State, e: Event, i: TokenId, last: int)
    requires SessionStopped(s, i, last)
    ensures SessionStopped(Apply(cfg, s, e), i, last)
  {
    hide IsRevoked;
    var s' := Apply(cfg, s, e);
    SessionStaysCalm(cfg, s, e, i, last);
    forall d | d in s'.descents && d.session == i ensures d.access.expiresAt <= last {
      if d !in s.descents {
        assert e.Finish? || e.MintRenewed?;
      }
    }
  }

  lemma {:induction false} SessionStoppedRun(cfg: Config, s: State, events: seq<Event>, i: TokenId, last: int)
    requires SessionStopped(s, i, last)
    ensures SessionStopped(Run(cfg, s, events), i, last)
    decreases |events|
  {
    hide SessionStopped, Apply;
    if events != [] {
      SessionStoppedStep(cfg, s, events[0], i, last);
      SessionStoppedRun(cfg, Apply(cfg, s, events[0]), events[1..], i, last);
    }
  }

  /** In every continuation, new sign-ins included, what descends from session i is accepted until `last` at most. */
  ghost predicate SessionBound(cfg: Config, s: State, i: TokenId, last: int) {
    forall more, token, userId, d |
      && VerifyAccepts(Run(cfg, s, more), token, userId)
      && d in Run(cfg, s, more).descents && d.access == token.payload && d.session == i ::
        Run(cfg, s, more).now <= last
  }

  lemma ClearedSessionEscapes(cfg: Config, s: State, i: TokenId, k: CallId)
    requires k in s.calls && s.calls[k].Cleared? && s.calls[k].payload.id == i
    ensures !SessionBound(cfg, s, i, s.now + cfg.accessDuration)
  {
    var p := s.calls[k].payload;
    var e1, e2, e3 := Tick(1), MintRenewed(k, 0, 0, false), Tick(cfg.accessDuration);
    RunThree(cfg, s, e1, e2, e3);
    var s1 := Apply(cfg, s, e1);
    var s2 := Apply(cfg, s1, e2);
    var later := Run(cfg, s, [e1, e2, e3]);
    var fresher := NewPayload(0, p.userId, s.calls[k].requested, p.role, Access, s1.now, 0, cfg.accessDuration);
    assert Descent(fresher, i) in later.descents && fresher in later.released;
    assert VerifyAccepts(later, Sealed(fresher), p.userId);
  }

  /**
    Revocation of one session. Once it is revoked, in every continuation whatever, new
    sign-ins included, no access token that descends from it is accepted later than the access
    duration from now, if and only if no refresh of it stands past its session check.
   */
  lemma SessionRevocationExact(cfg: Config, s0: State, events: seq<Event>, i: TokenId)
    requires Initial(s0) && IsRevoked(Run(cfg, s0, events), i)
    ensures var s := Run(cfg, s0, events);
            SessionBound(cfg, s, i, s.now + cfg.accessDuration) <==> NoneClearedFor(s, i)
  {
    hide Apply;
    var s := Run(cfg, s0, events);
    Reachable(cfg, s0, events);
    if NoneClearedFor(s, i) {
      RevokedIsStopped(cfg, s, i);
      forall more, token, userId, d |
        && VerifyAccepts(Run(cfg, s, more), token, userId)
        && d in Run(cfg, s, more).descents && d.access == token.payload && d.session == i
        ensures Run(cfg, s, more).now <= s.now + cfg.accessDuration
      {
        SessionStoppedRun(cfg, s, more, i, s.now + cfg.accessDuration);
      }
    } else {
      var k :| k in s.calls && s.calls[k].Cleared? && s.calls[k].payload.id == i;
      ClearedSessionEscapes(cfg, s, i, k);
    }
  }

  /** And no refresh of it releases a token: what descends from it later was minted by its own sign-in. */
  lemma RevokedSessionIsRefreshedNoMore(cfg: Config, s: State, e: Event, i: TokenId, d: Descent)
    requires IsRevoked(s, i) && NoneClearedFor(s, i)
    requires d in Apply(cfg, s, e).descents && d !in s.descents && d.session == i
    ensures e.Finish? && IsRevoked(Apply(cfg, s, e), i) && NoneClearedFor(Apply(cfg, s, e), i)
  {
    assert e.Finish? || e.MintRenewed?;
  }
}
