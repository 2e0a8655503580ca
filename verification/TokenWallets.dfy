/**
  Which wallet an access token carries. A refreshed token has the wallet its request named,
  and VerifyAccessToken answers with it.
 */
module TokenWallets {
  import opened Tokens
  import opened Sessions
  import opened SessionSafety
  import opened SessionTheorems
  import opened Lifetime

  /** Every access token carries the wallet of the session it descends from. */
  predicate WalletsAgree(s: State) {
    forall d | d in s.descents :: d.session in s.sessions && d.access.wallet == s.sessions[d.session].wallet
  }

  /** If e completes a refresh, its request named the session's own wallet. */
  predicate AskedOwn(s: State, e: Event) {
    Renews(s, e) && s.calls[e.call].payload.id in s.sessions ==>
      s.calls[e.call].requested == s.sessions[s.calls[e.call].payload.id].wallet
  }

  predicate AskedOwnRun(cfg: Config, s: State, events: seq<Event>)
    decreases |events|
  {
    events == [] || (AskedOwn(s, events[0]) && AskedOwnRun(cfg, Apply(cfg, s, events[0]), events[1..]))
  }

  /** Sessions keep their wallets, so what agreed goes on agreeing. */
  lemma OldDescents(cfg: Config, s: State, e: Event, d: Descent)
    requires Sound(cfg, s) && d in s.descents
    ensures d.session in s.sessions && d.session in Apply(cfg, s, e).sessions && d in Apply(cfg, s, e).descents
    ensures Apply(cfg, s, e).sessions[d.session].wallet == s.sessions[d.session].wallet
  {
    hide Apply;
    StepGrows(cfg, s, e);
    assert DescentOk(cfg, s, d);
    assert SameRow(s.sessions[d.session], Apply(cfg, s, e).sessions[d.session]);
  }

  /** What a step adds: the token of a completed refresh, or those of a new session. */
  lemma NewDescents(cfg: Config, s: State, e: Event, d: Descent)
    requires Sound(cfg, s) && d in Apply(cfg, s, e).descents && d !in s.descents
    ensures Renews(s, e) ==> d == Descent(Renewed(cfg, s, e), s.calls[e.call].payload.id)
    ensures !Renews(s, e) ==> d.session in Apply(cfg, s, e).sessions
                              && d.access.wallet == Apply(cfg, s, e).sessions[d.session].wallet
  {
    if !Renews(s, e) {
      assert StageOk(cfg, s, s.calls[e.call]);
      var refresh := s.calls[e.call].refresh;
      assert RowOk(cfg, s, refresh.id, s.sessions[refresh.id]);
    }
  }

  lemma RenewalIsDescent(cfg: Config, s: State, e: Event)
    requires Sound(cfg, s) && Renews(s, e)
    ensures Descent(Renewed(cfg, s, e), s.calls[e.call].payload.id) in Apply(cfg, s, e).descents
    ensures s.calls[e.call].payload.id in s.sessions && Apply(cfg, s, e).sessions == s.sessions
  {
    assert StageOk(cfg, s, s.calls[e.call]);
    assert TokenOk(cfg, s, s.calls[e.call].payload);
  }

  lemma WalletsAgreeStep(cfg: Config, s: State, e: Event)
    requires Sound(cfg, s)
    ensures WalletsAgree(Apply(cfg, s, e)) <==> WalletsAgree(s) && AskedOwn(s, e)
  {
    hide Apply, Sound;
    var s' := Apply(cfg, s, e);
    forall d | d in s.descents
      ensures d.session in s.sessions && d.session in s'.sessions && d in s'.descents
      ensures s'.sessions[d.session].wallet == s.sessions[d.session].wallet
    {
      OldDescents(cfg, s, e, d);
    }
    forall d | d in s'.descents && d !in s.descents
      ensures Renews(s, e) ==> d == Descent(Renewed(cfg, s, e), s.calls[e.call].payload.id)
      ensures !Renews(s, e) ==> d.session in s'.sessions && d.access.wallet == s'.sessions[d.session].wallet
    {
      NewDescents(cfg, s, e, d);
    }
    if Renews(s, e) {
      RenewalIsDescent(cfg, s, e);
    }
  }

  lemma {:induction false} WalletsAgreeRun(cfg: Config, s: State, events: seq<Event>)
    requires Sound(cfg, s)
    ensures WalletsAgree(Run(cfg, s, events)) <==> WalletsAgree(s) && AskedOwnRun(cfg, s, events)
    decreases |events|
  {
    hide Apply, Sound, WalletsAgree, AskedOwn;
    if events != [] {
      WalletsAgreeStep(cfg, s, events[0]);
      StepSound(cfg, s, events[0]);
      WalletsAgreeRun(cfg, Apply(cfg, s, events[0]), events[1..]);
    }
  }

  /**
    In every run: each access token carries the wallet of the session it descends from if and
    only if every completed refresh named that wallet in its request.
   */
  lemma WalletsAgreeExact(cfg: Config, s0: State, events: seq<Event>)
    requires Initial(s0)
    ensures WalletsAgree(Run(cfg, s0, events)) <==> AskedOwnRun(cfg, s0, events)
  {
    Reachable(cfg, s0, []);
    WalletsAgreeRun(cfg, s0, events);
  }

  /** A refresh of the first session, in no time, that names a wallet of the client's choice. */
  function RenamingRefresh(c: Credential, first: Payload, wallet: string): seq<Event> {
    [StartRefresh(0, Sealed(first), c.userId, wallet), ReadSession(0, false), MintRenewed(0, 3, 0, false)]
  }

  /** For every configuration, credential and wallet string, a run whose client holds an accepted token with it. */
  lemma AnyWalletIsVerified(cfg: Config, c: Credential, start: int, wallet: string)
    ensures var first := NewPayload(2, c.userId, c.wallet, c.role, Refresh, start, 0, cfg.refreshDuration);
            var s := Run(cfg, Founded(c, start), LateRun(cfg, c, first)[..6] + RenamingRefresh(c, first, wallet));
            var p := NewPayload(3, c.userId, wallet, c.role, Access, start, 0, cfg.accessDuration);
            && Initial(Founded(c, start)) && VerifyAccepts(s, Sealed(p), c.userId)
            && Descent(p, 2) in s.descents && 2 in s.sessions && s.sessions[2].wallet == c.wallet
  {
    hide LateRun;
    var first := NewPayload(2, c.userId, c.wallet, c.role, Refresh, start, 0, cfg.refreshDuration);
    var signIn, refresh := LateRun(cfg, c, first)[..6], RenamingRefresh(c, first, wallet);
    LateSignIn(cfg, c, start);
    RunConcat(cfg, Founded(c, start), signIn, refresh);
    RenamingRefreshRuns(cfg, Run(cfg, Founded(c, start), signIn), c, first, wallet);
  }

  lemma RenamingRefreshRuns(cfg: Config, s: State, c: Credential, first: Payload, wallet: string)
    requires s.calls == map[] && s.now <= first.expiresAt && first in s.released && first.id == 2
    requires 2 in s.sessions && s.sessions[2] == RowOf(c, first)
    requires first.userId == c.userId && first.role == c.role && first.tokenType == Refresh
    ensures var s' := Run(cfg, s, RenamingRefresh(c, first, wallet));
            var p := NewPayload(3, c.userId, wallet, c.role, Access, s.now, 0, cfg.accessDuration);
            && VerifyAccepts(s', Sealed(p), c.userId) && Descent(p, 2) in s'.descents && s'.sessions == s.sessions
  {
    var e := RenamingRefresh(c, first, wallet);
    RunThree(cfg, s, e[0], e[1], e[2]);
    var s1 := Apply(cfg, s, e[0]);
    assert s1 == At(s, 0, Presented(first, wallet, s.now));
    var s2 := Apply(cfg, s1, e[1]);
    assert s2 == At(s1, 0, Cleared(first, wallet, s.now));
  }
}
