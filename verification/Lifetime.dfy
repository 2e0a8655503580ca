/**
  How long a session lasts: no access token that descends from it is accepted later than its
  expiry plus the access duration, exactly when every refresh dates its token in time.
 */
module Lifetime {
  import opened Wrappers
  import opened TtlCache
  import opened Tokens
  import opened Sessions
  import opened SessionSafety
  import opened SessionTheorems

  /** Event e completes a refresh: the clock is read again, and a token is released. */
  predicate Renews(s: State, e: Event) {
    e.MintRenewed? && !e.fails && e.call in s.calls && s.calls[e.call].Cleared?
  }

  /** If e completes a refresh, its token is dated no later than `delay` after the session's expiry. */
  predicate RenewsBy(s: State, e: Event, delay: nat) {
    Renews(s, e) && s.calls[e.call].payload.id in s.sessions ==>
      s.now + e.gap <= s.sessions[s.calls[e.call].payload.id].expiresAt + delay
  }

  predicate RefreshedBy(cfg: Config, s: State, events: seq<Event>, delay: nat)
    decreases |events|
  {
    events == [] || (RenewsBy(s, events[0], delay) && RefreshedBy(cfg, Apply(cfg, s, events[0]), events[1..], delay))
  }

  /** Whatever is accepted now is within the lifetime of every session it descends from. */
  ghost predicate LifetimeHolds(cfg: Config, s: State, delay: nat) {
    forall token, userId, d | VerifyAccepts(s, token, userId) && d in s.descents && d.access == token.payload ::
      d.session in s.sessions && s.now <= s.sessions[d.session].expiresAt + cfg.accessDuration + delay
  }

  /* ---------- The run theorem ---------- */

  predicate InTime(cfg: Config, s: State, delay: nat) {
    forall d | d in s.descents ::
      d.session in s.sessions && d.access.expiresAt <= s.sessions[d.session].expiresAt + cfg.accessDuration + delay
  }

  lemma InTimeStep(cfg: Config, s: State, e: Event, delay: nat)
    requires Sound(cfg, s) && InTime(cfg, s, delay) && RenewsBy(s, e, delay)
    ensures InTime(cfg, Apply(cfg, s, e), delay)
  {
    var s' := Apply(cfg, s, e);
    StepGrows(cfg, s, e);
    forall d | d in s'.descents
      ensures d.session in s'.sessions
      ensures d.access.expiresAt <= s'.sessions[d.session].expiresAt + cfg.accessDuration + delay
    {
      if d in s.descents {
        assert SameRow(s.sessions[d.session], s'.sessions[d.session]);
      } else {
        var stage := s.calls[e.call];
        assert StageOk(cfg, s, stage);
        if e.Finish? {
          assert RowOk(cfg, s, stage.refresh.id, s.sessions[stage.refresh.id]);
        } else {
          assert TokenOk(cfg, s, stage.payload);
        }
      }
    }
  }

  lemma {:induction false} InTimeRun(cfg: Config, s: State, events: seq<Event>, delay: nat)
    requires Sound(cfg, s) && InTime(cfg, s, delay) && RefreshedBy(cfg, s, events, delay)
    ensures InTime(cfg, Run(cfg, s, events), delay)
    decreases |events|
  {
    if events != [] {
      InTimeStep(cfg, s, events[0], delay);
      StepSound(cfg, s, events[0]);
      InTimeRun(cfg, Apply(cfg, s, events[0]), events[1..], delay);
    }
  }

  /**
    Absolute lifetime. In every run whose refreshes date their tokens no later than their
    session's expiry (plus `delay`), through any number of refreshes, every accepted access
    token descends from a recorded session of the user, and is accepted no later than that
    session's expiry plus the access duration (plus `delay`).
   */
  lemma SessionLifetime(cfg: Config, s0: State, events: seq<Event>, delay: nat)
    requires Initial(s0) && RefreshedBy(cfg, s0, events, delay)
    ensures LifetimeHolds(cfg, Run(cfg, s0, events), delay)
    ensures var s := Run(cfg, s0, events);
            forall token, userId | VerifyAccepts(s, token, userId) ::
              exists d | d in s.descents && d.access == token.payload ::
                && d.session in s.sessions && s.sessions[d.session].userId == userId
                && s.now <= s.sessions[d.session].expiresAt + cfg.accessDuration + delay
  {
    Reachable(cfg, s0, events);
    InTimeRun(cfg, s0, events, delay);
    var s := Run(cfg, s0, events);
    forall token, userId | VerifyAccepts(s, token, userId)
      ensures exists d | d in s.descents && d.access == token.payload ::
                && d.session in s.sessions && s.sessions[d.session].userId == userId
                && s.now <= s.sessions[d.session].expiresAt + cfg.accessDuration + delay
    {
      var d :| d in s.descents && d.access == token.payload;
      assert DescentOk(cfg, s, d);
    }
  }

  /* ---------- The exact condition ---------- */

  /** Every event of the run may be followed by a wait, and then by the end of the run. */
  function AfterWait(cfg: Config, s: State, events: seq<Event>, i: nat, wait: nat): State
    requires i <= |events|
  {
    Apply(cfg, Run(cfg, s, events[..i]), Tick(wait))
  }

  ghost predicate AlwaysWithin(cfg: Config, s: State, events: seq<Event>, delay: nat) {
    forall i: nat, wait: nat | i <= |events| :: LifetimeHolds(cfg, AfterWait(cfg, s, events, i, wait), delay)
  }

  lemma {:induction false} RefreshedByPrefix(cfg: Config, s: State, events: seq<Event>, i: nat, delay: nat)
    requires RefreshedBy(cfg, s, events, delay) && i <= |events|
    ensures RefreshedBy(cfg, s, events[..i], delay)
    decreases |events|
  {
    if i > 0 {
      assert events[..i][1..] == events[1..][..i - 1];
      RefreshedByPrefix(cfg, Apply(cfg, s, events[0]), events[1..], i - 1, delay);
    }
  }

  lemma {:induction false} RefreshedByConcat(cfg: Config, s: State, a: seq<Event>, b: seq<Event>, delay: nat)
    requires RefreshedBy(cfg, s, a, delay) && RefreshedBy(cfg, Run(cfg, s, a), b, delay)
    ensures RefreshedBy(cfg, s, a + b, delay)
    decreases |a|
  {
    if a == [] {
      assert a + b == b;
    } else {
      assert (a + b)[1..] == a[1..] + b;
      RefreshedByConcat(cfg, Apply(cfg, s, a[0]), a[1..], b, delay);
    }
  }

  /** A run that is not refreshed in time has an event that is late. */
  lemma {:induction false} SomeRefreshIsLate(cfg: Config, s: State, events: seq<Event>, delay: nat) returns (i: nat)
    requires !RefreshedBy(cfg, s, events, delay)
    ensures i < |events| && !RenewsBy(Run(cfg, s, events[..i]), events[i], delay)
    decreases |events|
  {
    if !RenewsBy(s, events[0], delay) {
      i := 0;
    } else {
      var j := SomeRefreshIsLate(cfg, Apply(cfg, s, events[0]), events[1..], delay);
      i := j + 1;
      assert events[..i][1..] == events[1..][..j];
    }
  }

  /** The token that a completed refresh releases. */
  function Renewed(cfg: Config, s: State, e: Event): Payload
    requires Renews(s, e)
  {
    var stage := s.calls[e.call];
    NewPayload(e.id, stage.payload.userId, stage.requested, stage.payload.role, Access, s.now, e.gap,
               cfg.accessDuration)
  }

  /** A late token is still accepted after the bound, when one access duration has passed. */
  lemma LateTokenOutlives(cfg: Config, s: State, e: Event, delay: nat)
    requires Sound(cfg, s) && !RenewsBy(s, e, delay)
    ensures !LifetimeHolds(cfg, Apply(cfg, Apply(cfg, s, e), Tick(cfg.accessDuration)), delay)
  {
    var p, session := Renewed(cfg, s, e), s.calls[e.call].payload.id;
    var s1 := Apply(cfg, s, e);
    var s2 := Apply(cfg, s1, Tick(cfg.accessDuration));
    assert Descent(p, session) in s2.descents && p in s2.released;
    assert s2.now == p.expiresAt;
    assert VerifyAccepts(s2, Sealed(p), p.userId);
  }

  /**
    The exact condition over runs: after every event of a run and every wait, what is accepted
    is within the lifetime of its session if and only if every refresh of the run dates its
    token in time. With no delay this is the plain bound, expiry plus access duration.
   */
  lemma SessionLifetimeExact(cfg: Config, s0: State, events: seq<Event>, delay: nat)
    requires Initial(s0)
    ensures AlwaysWithin(cfg, s0, events, delay) <==> RefreshedBy(cfg, s0, events, delay)
  {
    if RefreshedBy(cfg, s0, events, delay) {
      forall i: nat, wait: nat | i <= |events|
        ensures LifetimeHolds(cfg, AfterWait(cfg, s0, events, i, wait), delay)
      {
        RefreshedByPrefix(cfg, s0, events, i, delay);
        Reachable(cfg, s0, events[..i]);
        InTimeRun(cfg, s0, events[..i], delay);
      }
    } else {
      var i := SomeRefreshIsLate(cfg, s0, events, delay);
      Reachable(cfg, s0, events[..i]);
      LateTokenOutlives(cfg, Run(cfg, s0, events[..i]), events[i], delay);
      assert events[..i + 1] == events[..i] + [events[i]] && [events[i]][1..] == [];
      RunConcat(cfg, s0, events[..i], [events[i]]);
      assert !LifetimeHolds(cfg, AfterWait(cfg, s0, events, i + 1, cfg.accessDuration), delay);
    }
  }

  /** In every continuation, the token of one refresh is accepted no later than its session allows. */
  ghost predicate NeverOutlives(cfg: Config, s: State, p: Payload, session: TokenId, delay: nat)
    requires session in s.sessions
  {
    forall more | VerifyAccepts(Run(cfg, s, more), Sealed(p), p.userId) ::
      Run(cfg, s, more).now <= s.sessions[session].expiresAt + cfg.accessDuration + delay
  }

  /** The exact condition for one refresh, over all continuations: its second clock reading. */
  lemma RefreshOutlivesIffLate(cfg: Config, s0: State, events: seq<Event>, e: Event, delay: nat)
    requires Initial(s0) && Renews(Run(cfg, s0, events), e)
    ensures var s := Run(cfg, s0, events);
            var session, after := s.calls[e.call].payload.id, Apply(cfg, s, e);
            && session in s.sessions && session in after.sessions
            && after.sessions[session] == s.sessions[session] && after.now == s.now + e.gap
            && (NeverOutlives(cfg, after, Renewed(cfg, s, e), session, delay)
                <==> s.now + e.gap <= s.sessions[session].expiresAt + delay)
  {
    var s := Run(cfg, s0, events);
    Reachable(cfg, s0, events);
    assert StageOk(cfg, s, s.calls[e.call]);
    var p, session, after := Renewed(cfg, s, e), s.calls[e.call].payload.id, Apply(cfg, s, e);
    assert TokenOk(cfg, s, s.calls[e.call].payload);
    assert p in after.released;
    var wait := [Tick(cfg.accessDuration)];
    assert wait[1..] == [];
    var later := Run(cfg, after, wait);
    assert later == Run(cfg, Apply(cfg, after, wait[0]), wait[1..]) == Apply(cfg, after, wait[0]);
    assert VerifyAccepts(later, Sealed(p), p.userId) && later.now == p.expiresAt;
  }

  /* ---------- Refreshes that take little time ---------- */

  /** Every refresh dates its token no later than `delay` after its own token check. */
  predicate DelaysUpTo(cfg: Config, s: State, events: seq<Event>, delay: nat)
    decreases |events|
  {
    events == []
    || ((Renews(s, events[0]) ==> s.now + events[0].gap <= s.calls[events[0].call].since + delay)
        && DelaysUpTo(cfg, Apply(cfg, s, events[0]), events[1..], delay))
  }

  lemma DelayBoundsRenewal(cfg: Config, s: State, e: Event, delay: nat)
    requires Sound(cfg, s) && (Renews(s, e) ==> s.now + e.gap <= s.calls[e.call].since + delay)
    ensures RenewsBy(s, e, delay)
  {
    if Renews(s, e) {
      var p := s.calls[e.call].payload;
      assert StageOk(cfg, s, s.calls[e.call]);
      assert TokenOk(cfg, s, p);
      assert RowOk(cfg, s, p.id, s.sessions[p.id]);
    }
  }

  /** A refresh that passed its check in time exceeds the bound by no more than it took. */
  lemma {:induction false} DelaysBoundLateness(cfg: Config, s: State, events: seq<Event>, delay: nat)
    requires Sound(cfg, s) && DelaysUpTo(cfg, s, events, delay)
    ensures RefreshedBy(cfg, s, events, delay)
    decreases |events|
  {
    if events != [] {
      DelayBoundsRenewal(cfg, s, events[0], delay);
      StepSound(cfg, s, events[0]);
      DelaysBoundLateness(cfg, Apply(cfg, s, events[0]), events[1..], delay);
    }
  }

  /* ---------- One handler at a time ---------- */

  /** A whole refresh in which no time passes. */
  predicate PromptRefresh(block: seq<Event>) {
    && |block| == 3 && block[0].StartRefresh? && block[1].ReadSession? && block[2].MintRenewed?
    && block[0].call == block[1].call == block[2].call && block[2].gap == 0
  }

  predicate OneHandler(block: seq<Event>) {
    PromptRefresh(block) || forall i | 0 <= i < |block| :: !block[i].MintRenewed?
  }

  /** Handlers run one at a time, each from a state in which no call is under way. */
  predicate Serial(cfg: Config, s: State, blocks: seq<seq<Event>>)
    decreases |blocks|
  {
    s.calls == map[]
    && (blocks == [] || (OneHandler(blocks[0]) && Serial(cfg, Run(cfg, s, blocks[0]), blocks[1..])))
  }

  function Flatten(blocks: seq<seq<Event>>): seq<Event> {
    if blocks == [] then [] else blocks[0] + Flatten(blocks[1..])
  }

  lemma PromptRefreshIsInTime(cfg: Config, s: State, block: seq<Event>)
    requires Sound(cfg, s) && block != [] && block[0].StartRefresh? && block[0].call !in s.calls && PromptRefresh(block)
    ensures RefreshedBy(cfg, s, block, 0)
  {
    var s1 := Apply(cfg, s, block[0]);
    var s2 := Apply(cfg, s1, block[1]);
    assert block[1..] == [block[1], block[2]] && block[1..][1..] == [block[2]] && [block[2]][1..] == [];
    StepSound(cfg, s, block[0]);
    StepSound(cfg, s1, block[1]);
    DelayBoundsRenewal(cfg, s2, block[2], 0);
    assert RefreshedBy(cfg, Apply(cfg, s2, block[2]), [], 0);
    assert RefreshedBy(cfg, s2, [block[2]], 0);
    assert RefreshedBy(cfg, s1, block[1..], 0);
  }

  lemma {:induction false} NoRenewalIsInTime(cfg: Config, s: State, block: seq<Event>)
    requires forall i | 0 <= i < |block| :: !block[i].MintRenewed?
    ensures RefreshedBy(cfg, s, block, 0)
    decreases |block|
  {
    if block != [] {
      assert !block[0].MintRenewed?;
      NoRenewalIsInTime(cfg, Apply(cfg, s, block[0]), block[1..]);
    }
  }

  lemma {:induction false} SerialIsInTime(cfg: Config, s: State, blocks: seq<seq<Event>>)
    requires Sound(cfg, s) && Serial(cfg, s, blocks)
    ensures RefreshedBy(cfg, s, Flatten(blocks), 0)
    decreases |blocks|
  {
    if blocks != [] {
      if PromptRefresh(blocks[0]) {
        PromptRefreshIsInTime(cfg, s, blocks[0]);
      } else {
        NoRenewalIsInTime(cfg, s, blocks[0]);
      }
      RunSound(cfg, s, blocks[0]);
      SerialIsInTime(cfg, Run(cfg, s, blocks[0]), blocks[1..]);
      RefreshedByConcat(cfg, s, blocks[0], Flatten(blocks[1..]), 0);
    }
  }

  lemma {:induction false} RunSound(cfg: Config, s: State, events: seq<Event>)
    requires Sound(cfg, s)
    ensures Sound(cfg, Run(cfg, s, events))
    decreases |events|
  {
    if events != [] {
      StepSound(cfg, s, events[0]);
      RunSound(cfg, Apply(cfg, s, events[0]), events[1..]);
    }
  }

  /** With handlers that run one at a time, and no time passing inside a refresh, the plain bound is unconditional. */
  lemma SerialSessionLifetime(cfg: Config, s0: State, blocks: seq<seq<Event>>)
    requires Initial(s0) && Serial(cfg, s0, blocks)
    ensures AlwaysWithin(cfg, s0, Flatten(blocks), 0)
  {
    SerialIsInTime(cfg, s0, blocks);
    SessionLifetimeExact(cfg, s0, Flatten(blocks), 0);
  }

  /* ---------- A run that breaks the plain bound ---------- */

  /** Sign in, refresh at the last valid instant, and let one nanosecond pass before the new token. */
  function LateRun(cfg: Config, c: Credential, first: Payload): (e: seq<Event>)
    ensures |e| == 10
  {
    [ Begin(0, c.wallet, c.userId), Lookup(0, Some(c), false), MintAccess(0, 1, 0, false), MintRefresh(0, 2, 0, false),
      StoreSession(0, NoFault), Finish(0, NoFault), Tick(cfg.refreshDuration),
      StartRefresh(0, Sealed(first), c.userId, c.wallet), ReadSession(0, false), MintRenewed(0, 3, 1, false) ]
  }

  function Founded(c: Credential, start: int): State { State({c}, map[], map[], {}, {}, {}, start) }

  /** For every configuration and credential, a run after which a token is accepted too late. */
  lemma LateRefreshOutlives(cfg: Config, c: Credential, start: int)
    ensures var first := NewPayload(2, c.userId, c.wallet, c.role, Refresh, start, 0, cfg.refreshDuration);
            var events := LateRun(cfg, c, first);
            var s := Apply(cfg, Run(cfg, Founded(c, start), events), Tick(cfg.accessDuration));
            var late := NewPayload(3, c.userId, c.wallet, c.role, Access, first.expiresAt, 1, cfg.accessDuration);
            && Initial(Founded(c, start)) && !RefreshedBy(cfg, Founded(c, start), events, 0)
            && VerifyAccepts(s, Sealed(late), c.userId) && Descent(late, 2) in s.descents
            && 2 in s.sessions && s.now == s.sessions[2].expiresAt + cfg.accessDuration + 1
  {
    var first := NewPayload(2, c.userId, c.wallet, c.role, Refresh, start, 0, cfg.refreshDuration);
    var s0, events := Founded(c, start), LateRun(cfg, c, first);
    assert Initial(s0);
    LateSignIn(cfg, c, start);
    var s6 := Run(cfg, s0, events[..6]);
    LateRefresh(cfg, s6, c, first);
    assert events[6..9] == [events[6], events[7], events[8]];
    var s9 := Run(cfg, s6, events[6..9]);
    RunThree(cfg, s6, events[6], events[7], events[8]);
    assert events[..9] == events[..6] + events[6..9];
    RunConcat(cfg, s0, events[..6], events[6..9]);
    assert events == events[..9] + [events[9]];
    RunConcat(cfg, s0, events[..9], [events[9]]);
    assert [events[9]][1..] == [];
    assert Run(cfg, s0, events) == Run(cfg, s9, [events[9]]) == Apply(cfg, s9, events[9]);
    if RefreshedBy(cfg, s0, events, 0) {
      EveryRenewalInTime(cfg, s0, events, 9);
    }
  }

  /** The refresh of the late run, event by event. */
  lemma LateRefresh(cfg: Config, s: State, c: Credential, first: Payload)
    requires s.calls == map[] && s.now + cfg.refreshDuration == first.expiresAt && first in s.released
    requires 2 in s.sessions && s.sessions[2] == RowOf(c, first) && first.id == 2
    requires first.userId == c.userId && first.role == c.role && first.tokenType == Refresh
    ensures var e := LateRun(cfg, c, first);
            var s9 := Apply(cfg, Apply(cfg, Apply(cfg, s, e[6]), e[7]), e[8]);
            var late := NewPayload(3, c.userId, c.wallet, c.role, Access, first.expiresAt, 1, cfg.accessDuration);
            var s11 := Apply(cfg, Apply(cfg, s9, e[9]), Tick(cfg.accessDuration));
            && !RenewsBy(s9, e[9], 0)
            && VerifyAccepts(s11, Sealed(late), c.userId) && Descent(late, 2) in s11.descents
            && s11.sessions == s.sessions && s11.now == first.expiresAt + cfg.accessDuration + 1
  {
    var e := LateRun(cfg, c, first);
    var s7 := Apply(cfg, s, e[6]);
    var s8 := Apply(cfg, s7, e[7]);
    assert s8 == At(s7, 0, Presented(first, c.wallet, first.expiresAt));
    var s9 := Apply(cfg, s8, e[8]);
    assert s9 == At(s8, 0, Cleared(first, c.wallet, first.expiresAt));
  }

  lemma {:induction false} EveryRenewalInTime(cfg: Config, s: State, events: seq<Event>, i: nat)
    requires i < |events| && RefreshedBy(cfg, s, events, 0)
    ensures RenewsBy(Run(cfg, s, events[..i]), events[i], 0)
    decreases |events|
  {
    if i > 0 {
      assert events[..i][1..] == events[1..][..i - 1];
      EveryRenewalInTime(cfg, Apply(cfg, s, events[0]), events[1..], i - 1);
    }
  }

  lemma LateSignIn(cfg: Config, c: Credential, start: int)
    ensures var first := NewPayload(2, c.userId, c.wallet, c.role, Refresh, start, 0, cfg.refreshDuration);
            var s := Run(cfg, Founded(c, start), LateRun(cfg, c, first)[..6]);
            && s.calls == map[] && s.now == start && first in s.released
            && 2 in s.sessions && s.sessions[2] == RowOf(c, first)
  {
    var first := NewPayload(2, c.userId, c.wallet, c.role, Refresh, start, 0, cfg.refreshDuration);
    var s0, e := Founded(c, start), LateRun(cfg, c, first);
    RunThree(cfg, s0, e[0], e[1], e[2]);
    var s3 := Run(cfg, s0, [e[0], e[1], e[2]]);
    RunThree(cfg, s3, e[3], e[4], e[5]);
    assert e[..6] == [e[0], e[1], e[2]] + [e[3], e[4], e[5]];
    RunConcat(cfg, s0, [e[0], e[1], e[2]], [e[3], e[4], e[5]]);
  }
}
