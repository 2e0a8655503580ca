/**
  The handlers as they run against the store, one call at a time. Each is a run of the
  session machine, so what holds in every run holds for them.
 */
module Handlers {
  import opened Wrappers
  import opened TtlCache
  import opened Tokens
  import opened Sessions
  import opened SessionTheorems

  /** The rows an UPDATE for this user changes. */
  function Affected(sessions: map<TokenId, SessionRow>, userId: UserId): set<TokenId> {
    set i | i in sessions && sessions[i].userId == userId && !sessions[i].revoked
  }

  /** The ids whose rows differ between two tables of the same ids. */
  function Changed(before: map<TokenId, SessionRow>, after: map<TokenId, SessionRow>): set<TokenId>
    requires before.Keys == after.Keys
  {
    set i | i in before && after[i] != before[i]
  }

  lemma AffectedIsChanged(sessions: map<TokenId, SessionRow>, userId: UserId)
    ensures Affected(sessions, userId) == Changed(sessions, Revoked(sessions, userId))
  {
    forall i | i in sessions ensures Revoked(sessions, userId)[i] != sessions[i] <==> i in Affected(sessions, userId) {
    }
  }

  /** The database: committed rows, and the credential of the open transaction. */
  class Store {
    var credentials: set<Credential>
    var sessions: map<TokenId, SessionRow>
    var uncommitted: Option<Credential>

    constructor (founders: set<Credential>)
      ensures credentials == founders && sessions == map[] && uncommitted == None
    {
      credentials, sessions, uncommitted := founders, map[], None;
    }

    /** credential.sql.go, GetCredentialByWalletAddress */
    method GetCredentialByWallet(wallet: string) returns (found: Option<Credential>)
      ensures found.Some? ==> found.value in credentials && found.value.wallet == wallet
      ensures found.None? ==> forall c | c in credentials :: c.wallet != wallet
    {
      if c :| c in credentials && c.wallet == wallet {
        return Some(c);
      }
      return None;
    }

    /** tx_create_credential.go: the insert that a transaction starts with. */
    method InsertCredential(c: Credential, fails: bool) returns (ok: bool)
      requires uncommitted.None?
      modifies this`uncommitted
      ensures ok <==> !fails && forall d | d in credentials :: !Conflict(d, c)
      ensures uncommitted == if ok then Some(c) else None
    {
      ok := !fails && forall d | d in credentials :: !Conflict(d, c);
      if ok {
        uncommitted := Some(c);
      }
    }

    method Rollback()
      modifies this`uncommitted
      ensures uncommitted.None?
    {
      uncommitted := None;
    }

    method Commit(fault: Fault) returns (ok: bool)
      requires uncommitted.Some?
      modifies this`uncommitted, this`credentials
      ensures uncommitted.None? && ok == fault.NoFault?
      ensures credentials == old(credentials) + if fault.FailsBefore? then {} else {old(uncommitted).value}
    {
      if !fault.FailsBefore? {
        credentials := credentials + {uncommitted.value};
      }
      uncommitted := None;
      ok := fault.NoFault?;
    }

    /** session.sql.go, CreateSession; the foreign keys look at committed rows only. */
    method CreateSession(cfg: Config, id: TokenId, row: SessionRow, fault: Fault) returns (ok: bool)
      modifies this`sessions
      ensures var accepted := && !fault.FailsBefore? && id !in old(sessions)
                && (cfg.foreignKeys ==> (exists d | d in credentials :: d.userId == row.userId)
                                        && (exists d | d in credentials :: d.wallet == row.wallet));
              && ok == (accepted && fault.NoFault?)
              && sessions == if accepted then old(sessions)[id := row] else old(sessions)
    {
      if fault.FailsBefore? || id in sessions {
        return false;
      }
      if cfg.foreignKeys && !((exists d | d in credentials :: d.userId == row.userId)
                              && (exists d | d in credentials :: d.wallet == row.wallet)) {
        return false;
      }
      sessions := sessions[id := row];
      ok := fault.NoFault?;
    }

    /** session.sql.go, RevokeSessions; the answer counts the rows that it changed. */
    method RevokeSessions(userId: UserId, fault: Fault) returns (rows: Option<nat>)
      modifies this`sessions
      ensures sessions == if fault.FailsBefore? then old(sessions) else Revoked(old(sessions), userId)
      ensures sessions.Keys == old(sessions).Keys
      ensures fault.FailsBefore? ==> sessions == old(sessions)
      ensures !fault.FailsBefore? ==> forall i | i in sessions ::
        var row := old(sessions)[i];
        sessions[i] == if row.userId == userId then row.(revoked := true) else row
      ensures rows.Some? <==> fault.NoFault?
      ensures rows.Some? ==> rows.value == |Changed(old(sessions), sessions)|
    {
      AffectedIsChanged(sessions, userId);
      if fault.FailsBefore? {
        return None;
      }
      var affected := Affected(sessions, userId);
      sessions := Revoked(sessions, userId);
      rows := if fault.NoFault? then Some(|affected|) else None;
    }
  }

  /* ---------- One call of Authenticate ---------- */

  /** What the outside decides during a call: faults, token ids and the passing of time. */
  datatype Choices = Choices(lookupFails: bool, insertFails: bool,
                             accessId: TokenId, accessGap: nat, accessFails: bool,
                             refreshId: TokenId, refreshGap: nat, refreshFails: bool,
                             storeFault: Fault, commitFault: Fault)

  /** The number of the one call that is running. */
  const ME: CallId := 0

  function MintingEvents(ch: Choices): seq<Event> {
    [ MintAccess(ME, ch.accessId, ch.accessGap, ch.accessFails),
      MintRefresh(ME, ch.refreshId, ch.refreshGap, ch.refreshFails),
      StoreSession(ME, ch.storeFault) ]
  }

  /** The events of one call, given what its lookup finds; those that come too late change nothing. */
  function AuthenticateEvents(wallet: string, userId: UserId, found: Option<Credential>, ch: Choices): seq<Event> {
    [ Begin(ME, wallet, userId), Lookup(ME, found, ch.lookupFails), Insert(ME, ch.insertFails) ]
    + MintingEvents(ch) + [ Finish(ME, ch.commitFault) ]
  }

  lemma AuthenticateInParts(cfg: Config, s: State, wallet: string, userId: UserId, found: Option<Credential>,
                            ch: Choices)
    ensures var s1 := Apply(cfg, s, Begin(ME, wallet, userId));
            var s2 := Apply(cfg, s1, Lookup(ME, found, ch.lookupFails));
            var s3 := Apply(cfg, s2, Insert(ME, ch.insertFails));
            var s4 := Apply(cfg, Run(cfg, s3, MintingEvents(ch)), Finish(ME, ch.commitFault));
            Run(cfg, s, AuthenticateEvents(wallet, userId, found, ch)) == s4
  {
    var first := [Begin(ME, wallet, userId), Lookup(ME, found, ch.lookupFails), Insert(ME, ch.insertFails)];
    var last := [Finish(ME, ch.commitFault)];
    RunThree(cfg, s, first[0], first[1], first[2]);
    RunConcat(cfg, s, first + MintingEvents(ch), last);
    RunConcat(cfg, s, first, MintingEvents(ch));
    assert last[1..] == [];
  }

  /** The machine with this call at a stage and no other call, and what becomes of it. */
  function Alone(s: State, stage: Stage): State { s.(calls := map[ME := stage]) }

  function Ended(s: State): State { s.(calls := map[]) }

  lemma AloneMoves(s: State, stage: Stage, next: Stage)
    ensures At(Alone(s, stage), ME, next) == Alone(s, next) && Abort(Alone(s, stage), ME) == Ended(s)
  {
  }

  /** The two tokens of a new session. */
  function FirstAccess(cfg: Config, c: Credential, ch: Choices, now: int): Payload {
    NewPayload(ch.accessId, c.userId, c.wallet, c.role, Access, now, ch.accessGap, cfg.accessDuration)
  }

  function FirstRefresh(cfg: Config, c: Credential, ch: Choices, now: int): Payload {
    NewPayload(ch.refreshId, c.userId, c.wallet, c.role, Refresh, now, ch.refreshGap, cfg.refreshDuration)
  }

  lemma FirstMint(cfg: Config, s: State, c: Credential, created: bool, ch: Choices)
    ensures Apply(cfg, Alone(s, Bound(c, created)), MintAccess(ME, ch.accessId, ch.accessGap, ch.accessFails)) ==
              if ch.accessFails then Ended(s)
              else Alone(s.(now := s.now + ch.accessGap), OneToken(c, created, FirstAccess(cfg, c, ch, s.now)))
  {
    AloneMoves(s, Bound(c, created), OneToken(c, created, FirstAccess(cfg, c, ch, s.now)));
  }

  lemma SecondMint(cfg: Config, s: State, c: Credential, created: bool, a: Payload, ch: Choices)
    ensures var e := MintRefresh(ME, ch.refreshId, ch.refreshGap, ch.refreshFails);
            Apply(cfg, Alone(s, OneToken(c, created, a)), e) ==
              if ch.refreshFails then Ended(s)
              else Alone(s.(now := s.now + ch.refreshGap), TwoTokens(c, created, a, FirstRefresh(cfg, c, ch, s.now)))
  {
    AloneMoves(s, OneToken(c, created, a), TwoTokens(c, created, a, FirstRefresh(cfg, c, ch, s.now)));
  }

  /** The three minting events of a call that is alone, step by step. */
  lemma MintingStages(cfg: Config, s: State, c: Credential, created: bool, ch: Choices)
    ensures var a := FirstAccess(cfg, c, ch, s.now);
            var s1 := s.(now := s.now + ch.accessGap);
            var r := FirstRefresh(cfg, c, ch, s1.now);
            var s2 := s1.(now := s1.now + ch.refreshGap);
            Run(cfg, Alone(s, Bound(c, created)), MintingEvents(ch)) ==
              if ch.accessFails then Ended(s)
              else if ch.refreshFails then Ended(s1)
              else DoStoreSession(cfg, Alone(s2, TwoTokens(c, created, a, r)), ME, ch.storeFault)
  {
    hide FirstAccess, FirstRefresh;
    var e := MintingEvents(ch);
    RunThree(cfg, Alone(s, Bound(c, created)), e[0], e[1], e[2]);
    FirstMint(cfg, s, c, created, ch);
    SecondMint(cfg, s.(now := s.now + ch.accessGap), c, created, FirstAccess(cfg, c, ch, s.now), ch);
  }

  /** Once the call has ended, its later events change nothing. */
  lemma MintingAfterTheEnd(cfg: Config, s: State, ch: Choices)
    requires ME !in s.calls
    ensures Apply(cfg, Run(cfg, s, MintingEvents(ch)), Finish(ME, ch.commitFault)) == s
  {
    var e := MintingEvents(ch);
    RunThree(cfg, s, e[0], e[1], e[2]);
  }

  /**
    Two tokens of a new session for credential c, minted between two instants: an access token, and
    then a refresh token that is sealed in a new, unrevoked row under its own id.
   */
  predicate GoodSession(cfg: Config, c: Credential, start: int, end: int, ch: Choices,
                        before: map<TokenId, SessionRow>, after: map<TokenId, SessionRow>,
                        access: Payload, refresh: Payload)
  {
    && access.id == ch.accessId && access.tokenType == Access
    && access.userId == c.userId && access.wallet == c.wallet && access.role == c.role
    && access.issuedAt == start && access.expiresAt == start + ch.accessGap + cfg.accessDuration
    && refresh.id == ch.refreshId && refresh.tokenType == Refresh
    && refresh.userId == c.userId && refresh.wallet == c.wallet && refresh.role == c.role
    && refresh.issuedAt == start + ch.accessGap && refresh.expiresAt == end + cfg.refreshDuration
    && end == start + ch.accessGap + ch.refreshGap
    && refresh.id !in before
    && after == before[refresh.id := SessionRow(c.userId, c.wallet, Sealed(refresh), false, refresh.expiresAt)]
  }

  /** Both tokens are made and the row goes in: its id is new, and the keys that are enforced find the credential. */
  predicate Minted(cfg: Config, c: Credential, ch: Choices, before: map<TokenId, SessionRow>,
                   credentials: set<Credential>)
  {
    && !ch.accessFails && !ch.refreshFails && ch.storeFault.NoFault? && ch.refreshId !in before
    && (cfg.foreignKeys ==> (exists d | d in credentials :: d.userId == c.userId)
                            && (exists d | d in credentials :: d.wallet == c.wallet))
  }

  /** What a client can do with the tokens of an answer: the first one is verified, and the second one refreshed. */
  ghost predicate Usable(s: State, userId: UserId, access: Payload, refresh: Payload) {
    && (VerifyAccepts(s, Sealed(access), userId) <==> s.now <= access.expiresAt)
    && !VerifyAccepts(s, Sealed(refresh), userId)
    && (AuthorizeToken(Sealed(refresh), s.now, userId, Refresh, None) == Some(refresh) <==> s.now <= refresh.expiresAt)
    && AuthorizeToken(Sealed(access), s.now, userId, Refresh, None) == None
    && refresh.id in s.sessions && s.sessions[refresh.id].refreshToken == Sealed(refresh)
    && !s.sessions[refresh.id].revoked
  }

  /** The tokens of a new session are usable in the state that has released them. */
  lemma GoodSessionIsUsable(cfg: Config, c: Credential, start: int, ch: Choices, before: map<TokenId, SessionRow>,
                            s: State, access: Payload, refresh: Payload)
    requires GoodSession(cfg, c, start, s.now, ch, before, s.sessions, access, refresh)
    requires access in s.released && refresh in s.released
    ensures Usable(s, c.userId, access, refresh)
  {
  }

  datatype AuthError = StoreUnavailable | WrongUser | AlreadyExists

  /** handler.go: the store and the tokens clients have been given. */
  class Handler {
    const cfg: Config
    const store: Store
    var released: set<Payload>
    var now: int
    ghost var descents: set<Descent>
    ghost var openings: set<Opening>

    constructor (cfg: Config, store: Store, now: int)
      ensures this.cfg == cfg && this.store == store && this.now == now
      ensures released == {} && descents == {} && openings == {}
    {
      this.cfg, this.store, this.now, released, descents, openings := cfg, store, now, {}, {}, {};
    }

    /** The machine state between calls. */
    ghost function View(): State
      reads this, store
    {
      State(store.credentials, store.sessions, map[], released, descents, openings, now)
    }

    /** The machine state while this call has come to the given stage. */
    ghost function ViewAt(stage: Stage): State
      reads this, store
    {
      View().(calls := map[ME := stage])
    }

    /** session.go, NewSession */
    method NewSession(c: Credential, ghost created: bool, ch: Choices) returns (session: Option<(Payload, Payload)>)
      modifies this`now, store`sessions
      ensures Run(cfg, old(ViewAt(Bound(c, created))), MintingEvents(ch))
        == match session
           case Some((access, refresh)) => ViewAt(Recorded(c, created, access, refresh))
           case None => View()
      ensures session.Some? ==>
        GoodSession(cfg, c, old(now), now, ch, old(store.sessions), store.sessions, session.value.0, session.value.1)
      ensures session.Some? <==> Minted(cfg, c, ch, old(store.sessions), store.credentials)
    {
      ghost var s := View();
      assert ViewAt(Bound(c, created)) == Alone(s, Bound(c, created));
      MintingStages(cfg, s, c, created, ch);
      if ch.accessFails {
        return None;
      }
      var access := FirstAccess(cfg, c, ch, now);
      now := now + ch.accessGap;
      if ch.refreshFails {
        return None;
      }
      var refresh := FirstRefresh(cfg, c, ch, now);
      now := now + ch.refreshGap;
      ghost var minted := View();
      ghost var twoTokens := TwoTokens(c, created, access, refresh);
      assert ViewAt(twoTokens) == Alone(minted, twoTokens);
      AloneMoves(minted, twoTokens, Recorded(c, created, access, refresh));
      var ok := store.CreateSession(cfg, refresh.id, RowOf(c, refresh), ch.storeFault);
      AloneMoves(View(), twoTokens, Recorded(c, created, access, refresh));
      if !ok {
        return None;
      }
      return Some((access, refresh));
    }

    /** rpc_authenticate.go, handleExistingCredential */
    method HandleExisting(c: Credential, userId: UserId, ch: Choices)
      returns (answer: Result<(Credential, Payload, Payload), AuthError>)
      requires c in store.credentials
      modifies this`released, this`now, this`descents, this`openings, store`sessions
      ensures c.userId != userId ==> answer == Err(WrongUser) && View() == old(View())
      ensures c.userId == userId ==>
        View() == Apply(cfg, Run(cfg, old(ViewAt(Bound(c, false))), MintingEvents(ch)), Finish(ME, ch.commitFault))
      ensures answer.Ok? ==>
        && answer.value.0 == c && released == old(released) + {answer.value.1, answer.value.2}
        && GoodSession(cfg, c, old(now), now, ch, old(store.sessions), store.sessions, answer.value.1, answer.value.2)
        && Usable(View(), userId, answer.value.1, answer.value.2)
      ensures answer.Err? ==> released == old(released)
      ensures answer == Err(WrongUser) <==> c.userId != userId
      ensures answer != Err(AlreadyExists)
      ensures answer.Ok? <==>
        && c.userId == userId && !ch.accessFails && !ch.refreshFails && ch.storeFault.NoFault?
        && ch.refreshId !in old(store.sessions)
    {
      if c.userId != userId {
        return Err(WrongUser);
      }
      var session := NewSession(c, false, ch);
      match session {
        case None =>
          return Err(StoreUnavailable);
        case Some((access, refresh)) =>
          hide GoodSession, Usable;
          ghost var recorded := ViewAt(Recorded(c, false, access, refresh));
          released := released + {access, refresh};
          descents := descents + {Descent(access, refresh.id)};
          openings := openings + {Opening(ME, refresh)};
          assert View() == Apply(cfg, recorded, Finish(ME, ch.commitFault));
          GoodSessionIsUsable(cfg, c, old(now), ch, old(store.sessions), View(), access, refresh);
          return Ok((c, access, refresh));
      }
    }

    /** rpc_authenticate.go, createCredentialAndSession, with the transaction of store.go, execTx, written out. */
    method CreateCredentialAndSession(wallet: string, userId: UserId, ch: Choices)
      returns (answer: Result<(Credential, Payload, Payload), AuthError>)
      requires store.uncommitted.None?
      modifies this`released, this`now, this`descents, this`openings, store
      ensures store.uncommitted.None?
      ensures var inserted := Apply(cfg, old(ViewAt(Unknown(wallet, userId))), Insert(ME, ch.insertFails));
              View() == Apply(cfg, Run(cfg, inserted, MintingEvents(ch)), Finish(ME, ch.commitFault))
      ensures answer.Ok? ==>
        && answer.value.0 == Credential(userId, wallet, User)
        && store.credentials == old(store.credentials) + {answer.value.0}
        && released == old(released) + {answer.value.1, answer.value.2}
        && GoodSession(cfg, answer.value.0, old(now), now, ch, old(store.sessions), store.sessions,
                       answer.value.1, answer.value.2)
        && Usable(View(), userId, answer.value.1, answer.value.2)
      ensures answer.Err? ==> released == old(released)
      ensures answer == Err(AlreadyExists) <==>
        !ch.insertFails && exists d | d in old(store.credentials) :: d.userId == userId || d.wallet == wallet
      ensures answer != Err(WrongUser)
      ensures answer.Ok? <==>
        && !ch.insertFails && (forall d | d in old(store.credentials) :: d.userId != userId && d.wallet != wallet)
        && !ch.accessFails && !ch.refreshFails && ch.storeFault.NoFault? && ch.refreshId !in old(store.sessions)
        && !cfg.foreignKeys && ch.commitFault.NoFault?
    {
      hide GoodSession, Usable;
      var c := Credential(userId, wallet, User);
      ghost var inserted := Apply(cfg, ViewAt(Unknown(wallet, userId)), Insert(ME, ch.insertFails));
      var ok := store.InsertCredential(c, ch.insertFails);
      if !ok {
        assert inserted == View();
        MintingAfterTheEnd(cfg, View(), ch);
        return Err(if ch.insertFails then StoreUnavailable else AlreadyExists);
      }
      assert inserted == ViewAt(Bound(c, true));
      var session := NewSession(c, true, ch);
      match session {
        case None =>
          store.Rollback();
          return Err(StoreUnavailable);
        case Some((access, refresh)) =>
          ghost var recorded := ViewAt(Recorded(c, true, access, refresh));
          ok := store.Commit(ch.commitFault);
          if !ok {
            assert View() == Apply(cfg, recorded, Finish(ME, ch.commitFault));
            return Err(StoreUnavailable);
          }
          released := released + {access, refresh};
          descents := descents + {Descent(access, refresh.id)};
          openings := openings + {Opening(ME, refresh)};
          assert View() == Apply(cfg, recorded, Finish(ME, ch.commitFault));
          GoodSessionIsUsable(cfg, c, old(now), ch, old(store.sessions), View(), access, refresh);
          return Ok((c, access, refresh));
      }
    }

    /**
      rpc_authenticate.go, handleCredentialAndSession. A serial call is a run of the machine's
      seven events, and it hands out tokens exactly when it answers with them.
     */
    method HandleCredentialAndSession(wallet: string, userId: UserId, ch: Choices)
      returns (answer: Result<(Credential, Payload, Payload), AuthError>, ghost found: Option<Credential>)
      requires store.uncommitted.None?
      modifies this`released, this`now, this`descents, this`openings, store
      ensures store.uncommitted.None?
      ensures View() == Run(cfg, old(View()), AuthenticateEvents(wallet, userId, found, ch))
      ensures answer.Ok? ==>
        && answer.value.0 in store.credentials && answer.value.0.userId == userId && answer.value.0.wallet == wallet
        && released == old(released) + {answer.value.1, answer.value.2}
        && GoodSession(cfg, answer.value.0, old(now), now, ch, old(store.sessions), store.sessions,
                       answer.value.1, answer.value.2)
        && Usable(View(), userId, answer.value.1, answer.value.2)
      ensures answer.Err? ==> released == old(released)
      ensures found.Some? ==> found.value in old(store.credentials) && found.value.wallet == wallet
      ensures found.None? && !ch.lookupFails ==> forall c | c in old(store.credentials) :: c.wallet != wallet
      ensures answer == Err(WrongUser) <==> found.Some? && found.value.userId != userId
      ensures answer == Err(AlreadyExists) <==>
        && !ch.lookupFails && !ch.insertFails && found.None?
        && exists c | c in old(store.credentials) :: c.userId == userId
      ensures answer.Ok? <==>
        && !ch.lookupFails && !ch.accessFails && !ch.refreshFails && ch.storeFault.NoFault?
        && ch.refreshId !in old(store.sessions)
        && (if found.Some? then found.value.userId == userId
            else !ch.insertFails && ch.commitFault.NoFault? && !cfg.foreignKeys
                 && forall c | c in old(store.credentials) :: c.userId != userId)
    {
      hide GoodSession, Usable;
      found := None;
      AuthenticateInParts(cfg, View(), wallet, userId, None, ch);
      ghost var entered := ViewAt(Entered(wallet, userId));
      assert Apply(cfg, View(), Begin(ME, wallet, userId)) == entered;
      if ch.lookupFails {
        assert Apply(cfg, entered, Lookup(ME, None, true)) == View();
        MintingAfterTheEnd(cfg, View(), ch);
        return Err(StoreUnavailable), None;
      }
      var credential := store.GetCredentialByWallet(wallet);
      found := credential;
      AuthenticateInParts(cfg, View(), wallet, userId, found, ch);
      ghost var lookedUp := Apply(cfg, entered, Lookup(ME, found, false));
      match credential {
        case Some(c) =>
          if c.userId != userId {
            assert lookedUp == View();
            MintingAfterTheEnd(cfg, View(), ch);
          } else {
            assert lookedUp == ViewAt(Bound(c, false));
            assert Apply(cfg, lookedUp, Insert(ME, ch.insertFails)) == lookedUp;
          }
          answer := HandleExisting(c, userId, ch);
        case None =>
          assert lookedUp == ViewAt(Unknown(wallet, userId));
          answer := CreateCredentialAndSession(wallet, userId, ch);
      }
    }

    /* ---------- Refreshing, revoking, verifying ---------- */

    /** rpc_refresh_access_token.go, RefreshAccessToken; the answer is the new token and the row's refresh token. */
    method RefreshAccessToken(token: Token, userId: UserId, wallet: string, readFails: bool,
                              id: TokenId, gap: nat, mintFails: bool)
      returns (answer: Option<(Payload, Token)>)
      requires Presentable(View(), token)
      modifies this`released, this`now, this`descents
      ensures View() == Run(cfg, old(View()), [StartRefresh(ME, token, userId, wallet), ReadSession(ME, readFails),
                                               MintRenewed(ME, id, gap, mintFails)])
      ensures released == old(released) + if answer.Some? then {answer.value.0} else {}
      ensures answer.Some? ==>
        && token.Sealed? && token.payload.id in store.sessions && !store.sessions[token.payload.id].revoked
        && answer.value.1 == store.sessions[token.payload.id].refreshToken
        && answer.value.0 == Payload(id, userId, wallet, token.payload.role, Access, old(now), now + cfg.accessDuration)
        && now == old(now) + gap && VerifyAccepts(View(), Sealed(answer.value.0), userId)
      ensures answer.Some? <==>
        && token.Sealed? && token.payload.tokenType == Refresh && token.payload.userId == userId
        && old(now) <= token.payload.expiresAt && !readFails && !mintFails
        && token.payload.id in store.sessions && !store.sessions[token.payload.id].revoked
    {
      ghost var s := View();
      ghost var s1 := Apply(cfg, s, StartRefresh(ME, token, userId, wallet));
      ghost var s2 := Apply(cfg, s1, ReadSession(ME, readFails));
      RunThree(cfg, s, StartRefresh(ME, token, userId, wallet), ReadSession(ME, readFails),
               MintRenewed(ME, id, gap, mintFails));
      var authorized := AuthorizeToken(token, now, userId, Refresh, None);
      if authorized.None? {
        return None;
      }
      var p := authorized.value;
      assert s1 == ViewAt(Presented(p, wallet, now));
      if readFails || p.id !in store.sessions || store.sessions[p.id].revoked {
        assert s2 == View();
        return None;
      }
      assert s2 == ViewAt(Cleared(p, wallet, now));
      if mintFails {
        assert Apply(cfg, s2, MintRenewed(ME, id, gap, mintFails)) == View();
        return None;
      }
      var access := NewPayload(id, userId, wallet, p.role, Access, now, gap, cfg.accessDuration);
      descents := descents + {Descent(access, p.id)};
      released := released + {access};
      now := now + gap;
      assert View() == Apply(cfg, s2, MintRenewed(ME, id, gap, mintFails));
      return Some((access, store.sessions[p.id].refreshToken));
    }

    /** rpc_revoke_refresh_tokens.go, RevokeRefreshTokens; the answer is the number of rows revoked. */
    method RevokeRefreshTokens(token: Token, userId: UserId, fault: Fault) returns (rows: Option<nat>)
      requires Presentable(View(), token)
      modifies store`sessions
      ensures View() == Run(cfg, old(View()), [StartRevoke(ME, token, userId), RevokeRows(ME, fault)])
      ensures rows.Some? ==>
        && VerifyAccepts(old(View()), token, userId)
        && (forall i | i in store.sessions && store.sessions[i].userId == userId :: store.sessions[i].revoked)
      ensures store.sessions.Keys == old(store.sessions).Keys
      ensures rows.Some? ==> rows.value == |Changed(old(store.sessions), store.sessions)|
      ensures rows.Some? <==> VerifyAccepts(old(View()), token, userId) && fault.NoFault?
      ensures forall i | i in store.sessions && store.sessions[i].userId != userId ::
        store.sessions[i] == old(store.sessions)[i]
    {
      ghost var s := View();
      ghost var e1, e2 := StartRevoke(ME, token, userId), RevokeRows(ME, fault);
      assert [e1, e2][1..] == [e2] && [e2][1..] == [];
      assert Run(cfg, s, [e1, e2]) == Run(cfg, Apply(cfg, s, e1), [e2]) == Apply(cfg, Apply(cfg, s, e1), e2);
      if AuthorizeToken(token, now, userId, Access, None).None? {
        return None;
      }
      assert Apply(cfg, s, e1) == ViewAt(Revoking(userId));
      rows := store.RevokeSessions(userId, fault);
      assert View() == Apply(cfg, Apply(cfg, s, e1), e2);
    }

    /** rpc_verify_access_token.go, VerifyAccessToken */
    method VerifyAccessToken(token: Token, userId: UserId) returns (payload: Option<Payload>)
      requires Presentable(View(), token)
      ensures payload.Some? <==> VerifyAccepts(View(), token, userId)
      ensures payload.Some? ==> token == Sealed(payload.value)
      ensures payload.Some? <==>
        && token.Sealed? && token.payload.tokenType == Access && token.payload.userId == userId
        && now <= token.payload.expiresAt
    {
      payload := AuthorizeToken(token, now, userId, Access, None);
    }
  }
}
