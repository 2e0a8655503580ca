/** The guarantees a client or an operator can rely on, over every run of the session machine. */
module SessionTheorems {
  import opened Wrappers
  import opened Tokens
  import opened Sessions
  import opened SessionSafety

  /* ---------- Reachable states ---------- */

  predicate Covered(s: State, founders: set<Credential>) {
    forall c | c in s.credentials :: c in founders || HasRow(s, c)
  }

  /** Every access token in a client's hands has a recorded session it descends from. */
  predicate Traced(s: State) {
    forall p | p in s.released && p.tokenType == Access :: exists d | d in s.descents :: d.access == p
  }

  predicate Safe(cfg: Config, s: State, founders: set<Credential>) {
    Sound(cfg, s) && Exclusive(s) && Covered(s, founders) && Traced(s)
  }

  /** Dropping calls, or moving them on with the same credential, cannot create a conflict. */
  lemma ExclusiveKept(s: State, s': State)
    requires Exclusive(s) && s'.credentials == s.credentials
    requires forall k | k in s'.calls && Created(s'.calls[k]) ::
               k in s.calls && Created(s.calls[k]) && CredentialOf(s'.calls[k]) == CredentialOf(s.calls[k])
    ensures Exclusive(s')
  {
  }

  lemma InsertExclusive(cfg: Config, s: State, e: Event)
    requires Exclusive(s) && e.Insert?
    ensures Exclusive(Apply(cfg, s, e))
  {
    var s' := Apply(cfg, s, e);
    if e.call in s'.calls && Created(s'.calls[e.call]) && !Created(s.calls[e.call]) {
      var c := CredentialOf(s'.calls[e.call]);
      forall k | k in s'.calls && k != e.call && Created(s'.calls[k])
        ensures !Conflict(CredentialOf(s'.calls[k]), c) && !Conflict(c, CredentialOf(s'.calls[k]))
      {
        assert s'.calls[k] == s.calls[k];
      }
    } else {
      ExclusiveKept(s, s');
    }
  }

  lemma FinishExclusive(cfg: Config, s: State, e: Event)
    requires Exclusive(s) && e.Finish?
    ensures Exclusive(Apply(cfg, s, e))
  {
    var s' := Apply(cfg, s, e);
    if s'.credentials == s.credentials {
      ExclusiveKept(s, s');
    } else {
      var c := CredentialOf(s.calls[e.call]);
      assert s'.credentials == s.credentials + {c};
      forall k | k in s'.calls && Created(s'.calls[k]) ensures !Violates(s', CredentialOf(s'.calls[k])) {
        assert !Violates(s, CredentialOf(s.calls[k]));
        assert !Conflict(c, CredentialOf(s.calls[k]));
      }
    }
  }

  lemma StepExclusive(cfg: Config, s: State, e: Event)
    requires Exclusive(s)
    ensures Exclusive(Apply(cfg, s, e))
  {
    if e.Insert? {
      InsertExclusive(cfg, s, e);
    } else if e.Finish? {
      FinishExclusive(cfg, s, e);
    } else {
      ExclusiveKept(s, Apply(cfg, s, e));
    }
  }

  lemma StepCovered(cfg: Config, s: State, e: Event, founders: set<Credential>)
    requires Sound(cfg, s) && Covered(s, founders)
    ensures Covered(Apply(cfg, s, e), founders)
  {
    var s' := Apply(cfg, s, e);
    StepGrows(cfg, s, e);
    forall c | c in s'.credentials && c !in founders ensures HasRow(s', c) {
      if c in s.credentials {
        var i :| i in s.sessions && s.sessions[i].userId == c.userId && s.sessions[i].wallet == c.wallet;
        assert SameRow(s.sessions[i], s'.sessions[i]);
      } else {
        var stage := s.calls[e.call];
        assert RowOk(cfg, s, stage.refresh.id, s.sessions[stage.refresh.id]);
        assert s'.sessions == s.sessions;
      }
    }
  }

  lemma NewTokenTraced(cfg: Config, s: State, e: Event, p: Payload)
    requires Sound(cfg, s) && p in Apply(cfg, s, e).released && p !in s.released && p.tokenType == Access
    ensures exists d | d in Apply(cfg, s, e).descents :: d.access == p
  {
    assert e.Finish? || e.MintRenewed?;
    var stage := s.calls[e.call];
    assert StageOk(cfg, s, stage);
    if e.Finish? {
      assert Descent(p, stage.refresh.id) in Apply(cfg, s, e).descents;
    } else {
      assert Descent(p, stage.payload.id) in Apply(cfg, s, e).descents;
    }
  }

  lemma StepTraced(cfg: Config, s: State, e: Event)
    requires Sound(cfg, s) && Traced(s)
    ensures Traced(Apply(cfg, s, e))
  {
    var s' := Apply(cfg, s, e);
    StepGrows(cfg, s, e);
    forall p | p in s'.released && p.tokenType == Access ensures exists d | d in s'.descents :: d.access == p {
      if p in s.released {
        var d :| d in s.descents && d.access == p;
        assert d in s'.descents;
      } else {
        NewTokenTraced(cfg, s, e, p);
      }
    }
  }

  lemma {:induction false} RunSafe(cfg: Config, s: State, events: seq<Event>, founders: set<Credential>)
    requires Safe(cfg, s, founders)
    ensures Safe(cfg, Run(cfg, s, events), founders)
    decreases |events|
  {
    if events != [] {
      StepSound(cfg, s, events[0]);
      StepExclusive(cfg, s, events[0]);
      StepCovered(cfg, s, events[0], founders);
      StepTraced(cfg, s, events[0]);
      RunSafe(cfg, Apply(cfg, s, events[0]), events[1..], founders);
    }
  }

  lemma Reachable(cfg: Config, s: State, events: seq<Event>)
    requires Initial(s)
    ensures Safe(cfg, Run(cfg, s, events), s.credentials)
  {
    assert Safe(cfg, s, s.credentials);
    RunSafe(cfg, s, events, s.credentials);
  }

  /* ---------- Wallet binding ---------- */

  /**
    Wallet binding. However calls interleave and fail: a wallet or a user has at most one
    committed credential, now and for ever; every released session of a wallet belongs to
    that credential's user; and every credential committed here has a session row of its own.
   */
  lemma WalletBinding(cfg: Config, s0: State, events: seq<Event>, more: seq<Event>)
    requires Initial(s0)
    ensures var s, later := Run(cfg, s0, events), Run(cfg, Run(cfg, s0, events), more);
            && s.credentials <= later.credentials
            && (forall c, d | c in s.credentials && d in later.credentials && Conflict(c, d) :: c == d)
            && (forall p, c | p in s.released && p.tokenType == Refresh && c in s.credentials && c.wallet == p.wallet ::
                  p.userId == c.userId)
            && (forall c | c in s.credentials :: c in s0.credentials || HasRow(s, c))
  {
    var s := Run(cfg, s0, events);
    Reachable(cfg, s0, events);
    RunGrows(cfg, s, more);
    RunConcat(cfg, s0, events, more);
    Reachable(cfg, s0, events + more);
    forall p, c | p in s.released && p.tokenType == Refresh && c in s.credentials && c.wallet == p.wallet
      ensures p.userId == c.userId
    {
      assert TokenOk(cfg, s, p);
      var d :| d in s.credentials && d.userId == p.userId && d.wallet == p.wallet;
      assert Conflict(c, d);
    }
  }

  /* ---------- Provenance and agreement of rows and tokens ---------- */

  /** rpc_verify_access_token.go: whether a presented token is accepted for a user. */
  predicate VerifyAccepts(s: State, token: Token, userId: UserId) {
    Presentable(s, token) && AuthorizeToken(token, s.now, userId, Access, None).Some?
  }

  /**
    Provenance. Every token in a client's hands, first or refreshed, carries the user and
    the role of exactly one committed credential; and what VerifyAccessToken accepts is an
    unexpired access token of the named user, from such a credential.
   */
  lemma Provenance(cfg: Config, s0: State, events: seq<Event>)
    requires Initial(s0)
    ensures var s := Run(cfg, s0, events);
            && (forall p | p in s.released ::
                  exists c | c in s.credentials :: c.userId == p.userId && c.role == p.role)
            && (forall p, c | p in s.released && c in s.credentials && c.userId == p.userId :: c.role == p.role)
            && (forall token, userId | VerifyAccepts(s, token, userId) ::
                  && token.Sealed? && token.payload in s.released && token.payload.tokenType == Access
                  && token.payload.userId == userId && s.now <= token.payload.expiresAt
                  && exists c | c in s.credentials :: c.userId == userId && c.role == token.payload.role)
  {
    var s := Run(cfg, s0, events);
    Reachable(cfg, s0, events);
    forall p | p in s.released
      ensures exists c | c in s.credentials :: c.userId == p.userId && c.role == p.role
      ensures forall c | c in s.credentials && c.userId == p.userId :: c.role == p.role
    {
      assert TokenOk(cfg, s, p);
      var d :| d in s.credentials && d.userId == p.userId && d.role == p.role;
      assert forall c | c in s.credentials && c.userId == p.userId :: Conflict(c, d);
    }
  }

  /** Through any number of refreshes, an access token has the user and role its session was opened with. */
  lemma RefreshChainsInherit(cfg: Config, s0: State, events: seq<Event>)
    requires Initial(s0)
    ensures var s := Run(cfg, s0, events);
            && (forall p | p in s.released && p.tokenType == Access :: exists d | d in s.descents :: d.access == p)
            && forall d | d in s.descents ::
                 && d.session in s.sessions && s.sessions[d.session].refreshToken.Sealed?
                 && d.access.userId == s.sessions[d.session].refreshToken.payload.userId
                 && d.access.role == s.sessions[d.session].refreshToken.payload.role
  {
    var s := Run(cfg, s0, events);
    Reachable(cfg, s0, events);
    forall d | d in s.descents ensures DescentOk(cfg, s, d) && RowOk(cfg, s, d.session, s.sessions[d.session]) {
    }
  }

  /**
    Rows and tokens agree: each session row holds a refresh token with the row's own id,
    user, wallet and expiry, and each released refresh token is the one in its row.
   */
  lemma RowsAndTokensAgree(cfg: Config, s0: State, events: seq<Event>)
    requires Initial(s0)
    ensures var s := Run(cfg, s0, events);
            && (forall i | i in s.sessions ::
                  var row := s.sessions[i];
                  && row.refreshToken.Sealed?
                  && (var p := row.refreshToken.payload;
                      p.id == i && p.userId == row.userId && p.wallet == row.wallet && p.expiresAt == row.expiresAt
                      && p.tokenType == Refresh))
            && (forall p | p in s.released && p.tokenType == Refresh ::
                  p.id in s.sessions && s.sessions[p.id].refreshToken == Sealed(p))
  {
    Reachable(cfg, s0, events);
    var s := Run(cfg, s0, events);
    forall i | i in s.sessions ensures RowOk(cfg, s, i, s.sessions[i]) {
    }
    forall p | p in s.released ensures TokenOk(cfg, s, p) {
    }
  }

  /* ---------- Tokens and refreshes ---------- */

  /** Every token in a client's hands was issued in the past and is good for its configured duration, no longer. */
  lemma TokensLastTheirDuration(cfg: Config, s0: State, events: seq<Event>)
    requires Initial(s0)
    ensures var s := Run(cfg, s0, events);
            forall p | p in s.released ::
              var duration := if p.tokenType == Access then cfg.accessDuration else cfg.refreshDuration;
              && p.issuedAt <= s.now
              && p.issuedAt + duration <= p.expiresAt <= s.now + duration
  {
    Reachable(cfg, s0, events);
    var s := Run(cfg, s0, events);
    forall p | p in s.released ensures TokenOk(cfg, s, p) {
    }
  }

  predicate RefreshEvent(e: Event) { e.Tick? || e.StartRefresh? || e.ReadSession? || e.MintRenewed? }

  /** However often sessions are refreshed, no row and no credential changes. */
  lemma {:induction false} RefreshingChangesNoRow(cfg: Config, s: State, events: seq<Event>)
    requires forall i | 0 <= i < |events| :: RefreshEvent(events[i])
    ensures Run(cfg, s, events).sessions == s.sessions && Run(cfg, s, events).credentials == s.credentials
    decreases |events|
  {
    if events != [] {
      assert RefreshEvent(events[0]);
      var s1 := Apply(cfg, s, events[0]);
      assert s1.sessions == s.sessions && s1.credentials == s.credentials;
      RefreshingChangesNoRow(cfg, s1, events[1..]);
    }
  }

  lemma RunThree(cfg: Config, s: State, e1: Event, e2: Event, e3: Event)
    ensures Run(cfg, s, [e1, e2, e3]) == Apply(cfg, Apply(cfg, Apply(cfg, s, e1), e2), e3)
  {
    assert [e1, e2, e3][1..] == [e2, e3] && [e2, e3][1..] == [e3] && [e3][1..] == [];
    assert Run(cfg, s, [e1, e2, e3]) == Run(cfg, Apply(cfg, s, e1), [e2, e3]);
    assert Run(cfg, Apply(cfg, s, e1), [e2, e3]) == Run(cfg, Apply(cfg, Apply(cfg, s, e1), e2), [e3]);
  }
}
