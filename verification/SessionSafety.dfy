/**
  Safety of the session machine in every reachable state, under every interleaving and
  every fault: wallet binding, provenance, row and token agreement, session lifetime.
 */
module SessionSafety {
  import opened Tokens
  import opened Sessions

  /* ---------- What each part of a state promises ---------- */

  predicate RowOk(cfg: Config, s: State, id: TokenId, row: SessionRow) {
    && row.refreshToken.Sealed?
    && (var p := row.refreshToken.payload;
        && p.id == id && p.userId == row.userId && p.wallet == row.wallet && p.tokenType == Refresh
        && p.expiresAt == row.expiresAt && row.expiresAt <= s.now + cfg.refreshDuration)
    && (cfg.foreignKeys ==> (exists d | d in s.credentials :: d.userId == row.userId)
                            && (exists d | d in s.credentials :: d.wallet == row.wallet))
  }

  function DurationOf(cfg: Config, tokenType: TokenType): nat {
    if tokenType == Access then cfg.accessDuration else cfg.refreshDuration
  }

  /** A token is dated in the past and lasts its configured duration from some instant since. */
  predicate Lasts(cfg: Config, s: State, p: Payload) {
    && p.issuedAt <= s.now
    && p.issuedAt + DurationOf(cfg, p.tokenType) <= p.expiresAt <= s.now + DurationOf(cfg, p.tokenType)
  }

  /** A token carries the user and role of a committed credential; a refresh token also has its row. */
  predicate TokenOk(cfg: Config, s: State, p: Payload) {
    && (exists c | c in s.credentials ::
          c.userId == p.userId && c.role == p.role && (p.tokenType == Refresh ==> c.wallet == p.wallet))
    && Lasts(cfg, s, p)
    && (p.tokenType == Refresh ==> p.id in s.sessions && s.sessions[p.id].refreshToken == Sealed(p))
  }

  predicate DescentOk(cfg: Config, s: State, d: Descent) {
    && d.access.tokenType == Access && d.access in s.released && d.session in s.sessions
    && d.access.userId == s.sessions[d.session].userId
    && s.sessions[d.session].refreshToken.Sealed?
    && d.access.role == s.sessions[d.session].refreshToken.payload.role
  }

  predicate AccessFor(cfg: Config, s: State, c: Credential, p: Payload) {
    p.userId == c.userId && p.role == c.role && p.wallet == c.wallet && p.tokenType == Access && Lasts(cfg, s, p)
  }

  predicate RefreshFor(cfg: Config, s: State, c: Credential, access: Payload, p: Payload) {
    && p.userId == c.userId && p.role == c.role && p.wallet == c.wallet && p.tokenType == Refresh
    && Lasts(cfg, s, p)
    && access.expiresAt <= p.expiresAt + cfg.accessDuration
  }

  predicate Granted(s: State, c: Credential, created: bool) { !created ==> c in s.credentials }

  predicate PresentedOk(s: State, p: Payload, since: int) {
    p in s.released && p.tokenType == Refresh && since <= s.now && since <= p.expiresAt
  }

  predicate StageOk(cfg: Config, s: State, stage: Stage) {
    match stage
    case Entered(_, _) => true
    case Unknown(_, _) => true
    case Bound(c, created) => Granted(s, c, created)
    case OneToken(c, created, access) => Granted(s, c, created) && AccessFor(cfg, s, c, access)
    case TwoTokens(c, created, access, refresh) =>
      Granted(s, c, created) && AccessFor(cfg, s, c, access) && RefreshFor(cfg, s, c, access, refresh)
    case Recorded(c, created, access, refresh) =>
      && Granted(s, c, created) && AccessFor(cfg, s, c, access) && RefreshFor(cfg, s, c, access, refresh)
      && refresh.id in s.sessions && s.sessions[refresh.id].refreshToken == Sealed(refresh)
    case Presented(p, _, since) => PresentedOk(s, p, since)
    case Cleared(p, _, since) => PresentedOk(s, p, since)
    case Revoking(_) => true
  }

  /** Committed and uncommitted credentials together never share a user or a wallet. */
  predicate Exclusive(s: State) {
    && (forall c, d | c in s.credentials && d in s.credentials :: c == d || !Conflict(c, d))
    && (forall k | k in s.calls && Created(s.calls[k]) :: !Violates(s, CredentialOf(s.calls[k])))
    && (forall k, l | k in s.calls && l in s.calls && k != l && Created(s.calls[k]) && Created(s.calls[l]) ::
          !Conflict(CredentialOf(s.calls[k]), CredentialOf(s.calls[l])))
  }

  predicate HasRow(s: State, c: Credential) {
    exists i | i in s.sessions :: s.sessions[i].userId == c.userId && s.sessions[i].wallet == c.wallet
  }

  predicate Sound(cfg: Config, s: State) {
    && (forall i | i in s.sessions :: RowOk(cfg, s, i, s.sessions[i]))
    && (forall p | p in s.released :: TokenOk(cfg, s, p))
    && (forall d | d in s.descents :: DescentOk(cfg, s, d))
    && (forall k | k in s.calls :: StageOk(cfg, s, s.calls[k]))
  }

  /* ---------- What only grows ---------- */

  predicate SameRow(r: SessionRow, r': SessionRow) {
    r'.userId == r.userId && r'.wallet == r.wallet && r'.refreshToken == r.refreshToken && r'.expiresAt == r.expiresAt
    && (r.revoked ==> r'.revoked)
  }

  /** Nothing a client or a row relies on is ever taken away. */
  predicate Grows(s: State, s': State) {
    && s.credentials <= s'.credentials && s.released <= s'.released && s.descents <= s'.descents && s.now <= s'.now
    && (forall i | i in s.sessions :: i in s'.sessions && SameRow(s.sessions[i], s'.sessions[i]))
  }

  lemma StepGrows(cfg: Config, s: State, e: Event)
    ensures Grows(s, Apply(cfg, s, e))
  {
  }

  lemma {:induction false} RunGrows(cfg: Config, s: State, events: seq<Event>)
    ensures Grows(s, Run(cfg, s, events))
    decreases |events|
  {
    if events != [] {
      StepGrows(cfg, s, events[0]);
      RunGrows(cfg, Apply(cfg, s, events[0]), events[1..]);
      var t, u := Apply(cfg, s, events[0]), Run(cfg, s, events);
      forall i | i in s.sessions ensures i in u.sessions && SameRow(s.sessions[i], u.sessions[i]) {
        assert i in t.sessions && SameRow(s.sessions[i], t.sessions[i]);
      }
    }
  }

  lemma StageStable(cfg: Config, s: State, s': State, stage: Stage)
    requires Grows(s, s') && StageOk(cfg, s, stage)
    ensures StageOk(cfg, s', stage)
  {
    if stage.Recorded? {
      assert SameRow(s.sessions[stage.refresh.id], s'.sessions[stage.refresh.id]);
    }
  }

  lemma RowStable(cfg: Config, s: State, s': State, i: TokenId)
    requires Grows(s, s') && i in s.sessions && RowOk(cfg, s, i, s.sessions[i])
    ensures RowOk(cfg, s', i, s'.sessions[i])
  {
    assert SameRow(s.sessions[i], s'.sessions[i]);
  }

  lemma TokenStable(cfg: Config, s: State, s': State, p: Payload)
    requires Grows(s, s') && TokenOk(cfg, s, p)
    ensures TokenOk(cfg, s', p)
  {
    if p.tokenType == Refresh {
      assert SameRow(s.sessions[p.id], s'.sessions[p.id]);
    }
  }

  lemma DescentStable(cfg: Config, s: State, s': State, d: Descent)
    requires Grows(s, s') && DescentOk(cfg, s, d)
    ensures DescentOk(cfg, s', d)
  {
    assert SameRow(s.sessions[d.session], s'.sessions[d.session]);
  }

  /** What was sound stays sound; only the new parts of a state remain to be looked at. */
  lemma SoundByParts(cfg: Config, s: State, s': State)
    requires Sound(cfg, s) && Grows(s, s')
    requires forall i | i in s'.sessions && i !in s.sessions :: RowOk(cfg, s', i, s'.sessions[i])
    requires forall p | p in s'.released && p !in s.released :: TokenOk(cfg, s', p)
    requires forall d | d in s'.descents && d !in s.descents :: DescentOk(cfg, s', d)
    requires forall k | k in s'.calls && (k !in s.calls || s'.calls[k] != s.calls[k]) :: StageOk(cfg, s', s'.calls[k])
    ensures Sound(cfg, s')
  {
    forall i | i in s'.sessions ensures RowOk(cfg, s', i, s'.sessions[i]) {
      if i in s.sessions { RowStable(cfg, s, s', i); }
    }
    forall p | p in s'.released ensures TokenOk(cfg, s', p) {
      if p in s.released { TokenStable(cfg, s, s', p); }
    }
    forall d | d in s'.descents ensures DescentOk(cfg, s', d) {
      if d in s.descents { DescentStable(cfg, s, s', d); }
    }
    forall k | k in s'.calls ensures StageOk(cfg, s', s'.calls[k]) {
      if k in s.calls && s'.calls[k] == s.calls[k] { StageStable(cfg, s, s', s.calls[k]); }
    }
  }

  /* ---------- Every step keeps every state sound ---------- */

  lemma MintStepsSound(cfg: Config, s: State, e: Event)
    requires Sound(cfg, s) && (e.MintAccess? || e.MintRefresh?)
    ensures Sound(cfg, Apply(cfg, s, e))
  {
    var s' := Apply(cfg, s, e);
    StepGrows(cfg, s, e);
    if e.call in s.calls {
      StageStable(cfg, s, s', s.calls[e.call]);
    }
    SoundByParts(cfg, s, s');
  }

  lemma StoreStepSound(cfg: Config, s: State, e: Event)
    requires Sound(cfg, s) && e.StoreSession?
    ensures Sound(cfg, Apply(cfg, s, e))
  {
    var s' := Apply(cfg, s, e);
    StepGrows(cfg, s, e);
    if e.call in s.calls {
      StageStable(cfg, s, s', s.calls[e.call]);
    }
    SoundByParts(cfg, s, s');
  }

  lemma FinishStepSound(cfg: Config, s: State, e: Event)
    requires Sound(cfg, s) && e.Finish?
    ensures Sound(cfg, Apply(cfg, s, e))
  {
    var s' := Apply(cfg, s, e);
    StepGrows(cfg, s, e);
    if e.call in s.calls && s.calls[e.call].Recorded? {
      var stage := s.calls[e.call];
      StageStable(cfg, s, s', stage);
      RowStable(cfg, s, s', stage.refresh.id);
      if !(stage.created && !e.fault.NoFault?) {
        assert stage.credential in s'.credentials;
      }
    }
    SoundByParts(cfg, s, s');
  }

  lemma CheckStepsSound(cfg: Config, s: State, e: Event)
    requires Sound(cfg, s) && (e.StartRefresh? || e.ReadSession?)
    ensures Sound(cfg, Apply(cfg, s, e))
  {
    var s' := Apply(cfg, s, e);
    StepGrows(cfg, s, e);
    if e.call in s.calls {
      StageStable(cfg, s, s', s.calls[e.call]);
    }
    SoundByParts(cfg, s, s');
  }

  lemma RenewStepSound(cfg: Config, s: State, e: Event)
    requires Sound(cfg, s) && e.MintRenewed?
    ensures Sound(cfg, Apply(cfg, s, e))
  {
    var s' := Apply(cfg, s, e);
    StepGrows(cfg, s, e);
    if e.call in s.calls && s.calls[e.call].Cleared? {
      var p := s.calls[e.call].payload;
      assert StageOk(cfg, s, s.calls[e.call]);
      assert TokenOk(cfg, s, p);
      assert RowOk(cfg, s, p.id, s.sessions[p.id]);
    }
    SoundByParts(cfg, s, s');
  }

  lemma OtherStepsSound(cfg: Config, s: State, e: Event)
    requires Sound(cfg, s)
    requires e.Tick? || e.Begin? || e.Lookup? || e.Insert? || e.StartRevoke? || e.RevokeRows?
    ensures Sound(cfg, Apply(cfg, s, e))
  {
    StepGrows(cfg, s, e);
    SoundByParts(cfg, s, Apply(cfg, s, e));
  }

  lemma StepSound(cfg: Config, s: State, e: Event)
    requires Sound(cfg, s)
    ensures Sound(cfg, Apply(cfg, s, e))
  {
    if e.MintAccess? || e.MintRefresh? {
      MintStepsSound(cfg, s, e);
    } else if e.StoreSession? {
      StoreStepSound(cfg, s, e);
    } else if e.Finish? {
      FinishStepSound(cfg, s, e);
    } else if e.StartRefresh? || e.ReadSession? {
      CheckStepsSound(cfg, s, e);
    } else if e.MintRenewed? {
      RenewStepSound(cfg, s, e);
    } else {
      OtherStepsSound(cfg, s, e);
    }
  }
}
