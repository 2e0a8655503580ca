/**
  Creating a credential: its session row is written through the store while the credential
  is still uncommitted, so the outcome hangs on whether the store checks foreign keys.
 */
module SignUp {
  import opened Wrappers
  import opened TtlCache
  import opened Tokens
  import opened Sessions
  import opened SessionSafety
  import opened SessionTheorems

  /** The steps of one Authenticate call, in the order the handler takes them. */
  function Script(call: CallId, wallet: string, userId: UserId, found: Option<Credential>,
                  accessId: TokenId, refreshId: TokenId): seq<Event>
  {
    [ Begin(call, wallet, userId), Lookup(call, found, false), Insert(call, false),
      MintAccess(call, accessId, 0, false), MintRefresh(call, refreshId, 0, false),
      StoreSession(call, NoFault), Finish(call, NoFault) ]
  }

  /** No call holds both an uncommitted credential and a recorded session. */
  predicate NoneRecorded(s: State) {
    forall k | k in s.calls :: s.calls[k].Recorded? ==> !s.calls[k].created
  }

  lemma UnreferencedWhileUncommitted(s: State, k: CallId)
    requires Exclusive(s) && k in s.calls && Created(s.calls[k])
    ensures !Referenced(s, CredentialOf(s.calls[k]))
  {
  }

  lemma EnforcedStep(cfg: Config, s: State, e: Event)
    requires cfg.foreignKeys && Exclusive(s) && NoneRecorded(s)
    ensures NoneRecorded(Apply(cfg, s, e)) && Apply(cfg, s, e).credentials == s.credentials
  {
    if e.StoreSession? && e.call in s.calls && Created(s.calls[e.call]) {
      UnreferencedWhileUncommitted(s, e.call);
    }
  }

  lemma {:induction false} EnforcedRun(cfg: Config, s: State, events: seq<Event>)
    requires cfg.foreignKeys && Exclusive(s) && NoneRecorded(s)
    ensures Run(cfg, s, events).credentials == s.credentials
    decreases |events|
  {
    if events != [] {
      EnforcedStep(cfg, s, events[0]);
      StepExclusive(cfg, s, events[0]);
      EnforcedRun(cfg, Apply(cfg, s, events[0]), events[1..]);
    }
  }

  /**
    Under the foreign keys of the migration no run ever commits a new credential: the row of
    its first session refers to a credential that the inserting connection cannot see.
   */
  lemma NoCredentialUnderForeignKeys(cfg: Config, s0: State, events: seq<Event>)
    requires cfg.foreignKeys && Initial(s0)
    ensures Run(cfg, s0, events).credentials == s0.credentials
  {
    EnforcedRun(cfg, s0, events);
  }

  lemma RunScript(cfg: Config, s: State, e: seq<Event>)
    requires |e| == 7
    ensures Run(cfg, s, e) ==
      Apply(cfg, Apply(cfg, Apply(cfg, Apply(cfg, Apply(cfg, Apply(cfg, Apply(cfg, s, e[0]), e[1]), e[2]), e[3]), e[4]),
            e[5]), e[6])
  {
    RunThree(cfg, s, e[0], e[1], e[2]);
    var t := Run(cfg, s, e[..3]);
    assert e[..3] == [e[0], e[1], e[2]] && e[3..6] == [e[3], e[4], e[5]];
    RunThree(cfg, t, e[3], e[4], e[5]);
    var u := Run(cfg, t, e[3..6]);
    assert e == e[..3] + e[3..6] + [e[6]];
    RunConcat(cfg, s, e[..3] + e[3..6], [e[6]]);
    RunConcat(cfg, s, e[..3], e[3..6]);
    assert [e[6]][1..] == [];
    assert Run(cfg, u, [e[6]]) == Apply(cfg, u, e[6]);
  }

  /** A new user, a new wallet, an unused session id and no other call in the way. */
  predicate Vacant(s: State, call: CallId, c: Credential, refreshId: TokenId) {
    && call !in s.calls && !Violates(s, c) && !MustWait(s, c) && refreshId !in s.sessions && c.role == User
  }

  /** The state in which a faultless sign-up has minted both tokens. */
  lemma ScriptUntilStore(cfg: Config, s: State, call: CallId, c: Credential, accessId: TokenId, refreshId: TokenId)
    requires Vacant(s, call, c, refreshId)
    ensures var e := Script(call, c.wallet, c.userId, None, accessId, refreshId);
            var s5 := Apply(cfg, Apply(cfg, Apply(cfg, Apply(cfg, Apply(cfg, s, e[0]), e[1]), e[2]), e[3]), e[4]);
            && s5.credentials == s.credentials && s5.sessions == s.sessions && s5.released == s.released
            && s5.calls - {call} == s.calls
            && call in s5.calls && s5.calls[call].TwoTokens? && s5.calls[call].credential == c && s5.calls[call].created
            && s5.calls[call].refresh.id == refreshId
  {
    var e := Script(call, c.wallet, c.userId, None, accessId, refreshId);
    var s1 := Apply(cfg, s, e[0]);
    var s2 := Apply(cfg, s1, e[1]);
    assert forall d | d in s.credentials :: !Conflict(d, c);
    assert s2.calls[call] == Unknown(c.wallet, c.userId);
    assert !MustWait(s2, c) by {
      assert forall k | k in s2.calls && Created(s2.calls[k]) :: k in s.calls && s2.calls[k] == s.calls[k];
    }
    var s3 := Apply(cfg, s2, e[2]);
    assert s3.calls[call] == Bound(c, true);
  }

  /** The last two steps: the session row, and the commit. */
  lemma ScriptFromStore(cfg: Config, s: State, call: CallId, c: Credential)
    requires call in s.calls && s.calls[call].TwoTokens? && s.calls[call].created && s.calls[call].credential == c
    requires !Referenced(s, c) && s.calls[call].refresh.id !in s.sessions
    ensures var refresh := s.calls[call].refresh;
            var s' := Apply(cfg, Apply(cfg, s, StoreSession(call, NoFault)), Finish(call, NoFault));
            s' == if cfg.foreignKeys then Abort(s, call)
                  else Abort(s, call).(
                    credentials := s.credentials + {c}, sessions := s.sessions[refresh.id := RowOf(c, refresh)],
                    released := s.released + {s.calls[call].access, refresh},
                    descents := s.descents + {Descent(s.calls[call].access, refresh.id)},
                    openings := s.openings + {Opening(call, refresh)})
  {
  }

  /**
    When sign-up works: for a new user and wallet, a call that meets no fault commits the
    credential and releases its session exactly when the store does not check the foreign
    keys of the session row.
   */
  lemma SignUpWorksIffUnchecked(cfg: Config, s: State, call: CallId, c: Credential, accessId: TokenId,
                                refreshId: TokenId)
    requires Vacant(s, call, c, refreshId)
    ensures var s' := Run(cfg, s, Script(call, c.wallet, c.userId, None, accessId, refreshId));
            && (c in s'.credentials <==> !cfg.foreignKeys)
            && s'.calls == s.calls
            && (!cfg.foreignKeys ==> s'.credentials == s.credentials + {c}
                                     && s'.sessions.Keys == s.sessions.Keys + {refreshId})
            && (!cfg.foreignKeys ==> refreshId in s'.sessions && s'.sessions[refreshId].userId == c.userId
                                     && s'.sessions[refreshId].refreshToken.Sealed?
                                     && s'.sessions[refreshId].refreshToken.payload in s'.released)
            && (cfg.foreignKeys ==> s'.credentials == s.credentials && s'.sessions == s.sessions
                                    && s'.released == s.released)
  {
    var e := Script(call, c.wallet, c.userId, None, accessId, refreshId);
    ScriptUntilStore(cfg, s, call, c, accessId, refreshId);
    RunScript(cfg, s, e);
    var s5 := Apply(cfg, Apply(cfg, Apply(cfg, Apply(cfg, Apply(cfg, s, e[0]), e[1]), e[2]), e[3]), e[4]);
    assert !Referenced(s5, c);
    ScriptFromStore(cfg, s5, call, c);
    assert c !in s.credentials by {
      if c in s.credentials { assert Conflict(c, c); }
    }
  }
}
