/**
  Credentials, sessions and tokens as a machine of small steps: every database call, token
  creation and commit of a handler is one event, and calls interleave freely.
 */
module Sessions {
  import opened Wrappers
  import opened TtlCache
  import opened Tokens

  datatype Config = Config(accessDuration: nat, refreshDuration: nat, foreignKeys: bool)

  datatype Credential = Credential(userId: UserId, wallet: string, role: Role)

  datatype SessionRow = SessionRow(userId: UserId, wallet: string, refreshToken: Token, revoked: bool, expiresAt: int)

  type CallId = nat

  /**
    How far a call has come. `created` marks a credential this call inserted and has not
    committed; `since` is when a refresh had its token checked.
   */
  datatype Stage =
    | Entered(wallet: string, userId: UserId)
    | Unknown(wallet: string, userId: UserId)
    | Bound(credential: Credential, created: bool)
    | OneToken(credential: Credential, created: bool, access: Payload)
    | TwoTokens(credential: Credential, created: bool, access: Payload, refresh: Payload)
    | Recorded(credential: Credential, created: bool, access: Payload, refresh: Payload)
    | Presented(payload: Payload, requested: string, since: int)
    | Cleared(payload: Payload, requested: string, since: int)
    | Revoking(revokee: UserId)

  /** Which session an access token descends from. */
  datatype Descent = Descent(access: Payload, session: TokenId)

  /** Which call handed out the refresh token of a new session. */
  datatype Opening = Opening(call: CallId, refresh: Payload)

  datatype State = State(
    credentials: set<Credential>,
    sessions: map<TokenId, SessionRow>,
    calls: map<CallId, Stage>,
    released: set<Payload>,
    descents: set<Descent>,
    openings: set<Opening>,
    now: int
  )

  /** `gap` is the time between the two clock readings of a new token. */
  datatype Event =
    | Tick(nanos: nat)
    | Begin(call: CallId, wallet: string, userId: UserId)
    | Lookup(call: CallId, found: Option<Credential>, fails: bool)
    | Insert(call: CallId, fails: bool)
    | MintAccess(call: CallId, id: TokenId, gap: nat, fails: bool)
    | MintRefresh(call: CallId, id: TokenId, gap: nat, fails: bool)
    | StoreSession(call: CallId, fault: Fault)
    | Finish(call: CallId, fault: Fault)
    | StartRefresh(call: CallId, token: Token, userId: UserId, wallet: string)
    | ReadSession(call: CallId, fails: bool)
    | MintRenewed(call: CallId, id: TokenId, gap: nat, fails: bool)
    | StartRevoke(call: CallId, token: Token, userId: UserId)
    | RevokeRows(call: CallId, fault: Fault)

  /* ---------- Pieces of the database ---------- */

  /** The two unique columns of the credentials table. */
  predicate Conflict(c: Credential, d: Credential) { c.userId == d.userId || c.wallet == d.wallet }

  predicate Created(stage: Stage) {
    match stage
    case Bound(_, created) => created
    case OneToken(_, created, _) => created
    case TwoTokens(_, created, _, _) => created
    case Recorded(_, created, _, _) => created
    case _ => false
  }

  function CredentialOf(stage: Stage): Credential
    requires Created(stage)
  {
    stage.credential
  }

  /** A row that another transaction has inserted and not committed makes an insert wait. */
  predicate MustWait(s: State, c: Credential) {
    exists k | k in s.calls :: Created(s.calls[k]) && Conflict(CredentialOf(s.calls[k]), c)
  }

  predicate Violates(s: State, c: Credential) { exists d | d in s.credentials :: Conflict(d, c) }

  /** The foreign keys of a session row, as any connection outside the transaction sees them. */
  predicate Referenced(s: State, c: Credential) {
    && (exists d | d in s.credentials :: d.userId == c.userId)
    && (exists d | d in s.credentials :: d.wallet == c.wallet)
  }

  function Revoked(sessions: map<TokenId, SessionRow>, userId: UserId): map<TokenId, SessionRow> {
    map i | i in sessions :: if sessions[i].userId == userId then sessions[i].(revoked := true) else sessions[i]
  }

  /** Only tokens that were released to a client can be presented. */
  predicate Presentable(s: State, token: Token) { token.Sealed? ==> token.payload in s.released }

  /* ---------- Steps ---------- */

  function At(s: State, call: CallId, stage: Stage): State { s.(calls := s.calls[call := stage]) }

  /** A call that ends without an answer; an uncommitted credential goes with it. */
  function Abort(s: State, call: CallId): State { s.(calls := s.calls - {call}) }

  /** payload.go, NewPayload: the expiry is computed from a second, later reading of the clock. */
  function NewPayload(id: TokenId, userId: UserId, wallet: string, role: Role, tokenType: TokenType,
                      now: int, gap: nat, duration: nat): Payload
  {
    Payload(id, userId, wallet, role, tokenType, now, now + gap + duration)
  }

  function DoBegin(s: State, call: CallId, wallet: string, userId: UserId): State {
    if call in s.calls then s else At(s, call, Entered(wallet, userId))
  }

  /** rpc_authenticate.go, lines 104 to 125 */
  function DoLookup(s: State, call: CallId, found: Option<Credential>, fails: bool): State {
    if call !in s.calls || !s.calls[call].Entered? then s
    else
      var stage := s.calls[call];
      if fails then Abort(s, call)
      else
        match found
        case Some(c) =>
          if c !in s.credentials || c.wallet != stage.wallet then s
          else if c.userId != stage.userId then Abort(s, call)
          else At(s, call, Bound(c, false))
        case None =>
          if exists c | c in s.credentials :: c.wallet == stage.wallet then s
          else At(s, call, Unknown(stage.wallet, stage.userId))
  }

  /** tx_create_credential.go, lines 27 to 45; the role is the column's default. */
  function DoInsert(s: State, call: CallId, fails: bool): State {
    if call !in s.calls || !s.calls[call].Unknown? then s
    else
      var c := Credential(s.calls[call].userId, s.calls[call].wallet, User);
      if MustWait(s, c) then s
      else if fails || Violates(s, c) then Abort(s, call)
      else At(s, call, Bound(c, true))
  }

  /** session.go, lines 33 to 38 */
  function DoMintAccess(cfg: Config, s: State, call: CallId, id: TokenId, gap: nat, fails: bool): State {
    if call !in s.calls || !s.calls[call].Bound? then s
    else if fails then Abort(s, call)
    else
      var c := s.calls[call].credential;
      var p := NewPayload(id, c.userId, c.wallet, c.role, Access, s.now, gap, cfg.accessDuration);
      At(s, call, OneToken(c, s.calls[call].created, p)).(now := s.now + gap)
  }

  /** session.go, lines 40 to 45 */
  function DoMintRefresh(cfg: Config, s: State, call: CallId, id: TokenId, gap: nat, fails: bool): State {
    if call !in s.calls || !s.calls[call].OneToken? then s
    else if fails then Abort(s, call)
    else
      var c := s.calls[call].credential;
      var p := NewPayload(id, c.userId, c.wallet, c.role, Refresh, s.now, gap, cfg.refreshDuration);
      At(s, call, TwoTokens(c, s.calls[call].created, s.calls[call].access, p)).(now := s.now + gap)
  }

  function RowOf(c: Credential, refresh: Payload): SessionRow {
    SessionRow(c.userId, c.wallet, Sealed(refresh), false, refresh.expiresAt)
  }

  /** session.go, lines 57 to 68: the row goes in through the store, outside any open transaction. */
  function DoStoreSession(cfg: Config, s: State, call: CallId, fault: Fault): State {
    if call !in s.calls || !s.calls[call].TwoTokens? then s
    else
      var stage := s.calls[call];
      if fault.FailsBefore? || stage.refresh.id in s.sessions
         || (cfg.foreignKeys && !Referenced(s, stage.credential)) then Abort(s, call)
      else
        var stored := s.(sessions := s.sessions[stage.refresh.id := RowOf(stage.credential, stage.refresh)]);
        if fault.FailsAfter? then Abort(stored, call)
        else At(stored, call, Recorded(stage.credential, stage.created, stage.access, stage.refresh))
  }

  /** store.go, lines 33 to 43, and the response; a commit may fail before or after it takes effect. */
  function DoFinish(s: State, call: CallId, fault: Fault): State {
    if call !in s.calls || !s.calls[call].Recorded? then s
    else
      var stage := s.calls[call];
      var committed := if stage.created && !fault.FailsBefore?
                       then s.(credentials := s.credentials + {stage.credential}) else s;
      if stage.created && !fault.NoFault? then Abort(committed, call)
      else
        Abort(committed, call).(
          released := s.released + {stage.access, stage.refresh},
          descents := s.descents + {Descent(stage.access, stage.refresh.id)},
          openings := s.openings + {Opening(call, stage.refresh)})
  }

  /** rpc_refresh_access_token.go, lines 38 to 42 */
  function DoStartRefresh(s: State, call: CallId, token: Token, userId: UserId, wallet: string): State {
    if call in s.calls || !Presentable(s, token) then s
    else
      match AuthorizeToken(token, s.now, userId, Refresh, None)
      case None => s
      case Some(p) => At(s, call, Presented(p, wallet, s.now))
  }

  /** rpc_refresh_access_token.go, lines 44 to 53 */
  function DoReadSession(s: State, call: CallId, fails: bool): State {
    if call !in s.calls || !s.calls[call].Presented? then s
    else
      var stage := s.calls[call];
      if fails || stage.payload.id !in s.sessions || s.sessions[stage.payload.id].revoked then Abort(s, call)
      else At(s, call, Cleared(stage.payload, stage.requested, stage.since))
  }

  /** rpc_refresh_access_token.go, lines 55 to 72: user and role from the token, wallet from the request. */
  function DoMintRenewed(cfg: Config, s: State, call: CallId, id: TokenId, gap: nat, fails: bool): State {
    if call !in s.calls || !s.calls[call].Cleared? then s
    else if fails then Abort(s, call)
    else
      var stage := s.calls[call];
      var p := NewPayload(id, stage.payload.userId, stage.requested, stage.payload.role, Access, s.now, gap,
                          cfg.accessDuration);
      Abort(s, call).(released := s.released + {p}, descents := s.descents + {Descent(p, stage.payload.id)},
                      now := s.now + gap)
  }

  /** rpc_revoke_refresh_tokens.go, lines 34 to 38 */
  function DoStartRevoke(s: State, call: CallId, token: Token, userId: UserId): State {
    if call in s.calls || !Presentable(s, token) || AuthorizeToken(token, s.now, userId, Access, None).None? then s
    else At(s, call, Revoking(userId))
  }

  /** session.sql.go, lines 87 to 91: one UPDATE over the user's rows. */
  function DoRevokeRows(s: State, call: CallId, fault: Fault): State {
    if call !in s.calls || !s.calls[call].Revoking? then s
    else if fault.FailsBefore? then Abort(s, call)
    else Abort(s, call).(sessions := Revoked(s.sessions, s.calls[call].revokee))
  }

  function Apply(cfg: Config, s: State, e: Event): State {
    match e
    case Tick(nanos) => s.(now := s.now + nanos)
    case Begin(call, wallet, userId) => DoBegin(s, call, wallet, userId)
    case Lookup(call, found, fails) => DoLookup(s, call, found, fails)
    case Insert(call, fails) => DoInsert(s, call, fails)
    case MintAccess(call, id, gap, fails) => DoMintAccess(cfg, s, call, id, gap, fails)
    case MintRefresh(call, id, gap, fails) => DoMintRefresh(cfg, s, call, id, gap, fails)
    case StoreSession(call, fault) => DoStoreSession(cfg, s, call, fault)
    case Finish(call, fault) => DoFinish(s, call, fault)
    case StartRefresh(call, token, userId, wallet) => DoStartRefresh(s, call, token, userId, wallet)
    case ReadSession(call, fails) => DoReadSession(s, call, fails)
    case MintRenewed(call, id, gap, fails) => DoMintRenewed(cfg, s, call, id, gap, fails)
    case StartRevoke(call, token, userId) => DoStartRevoke(s, call, token, userId)
    case RevokeRows(call, fault) => DoRevokeRows(s, call, fault)
  }

  function Run(cfg: Config, s: State, events: seq<Event>): State
    decreases |events|
  {
    if events == [] then s else Run(cfg, Apply(cfg, s, events[0]), events[1..])
  }

  lemma {:induction false} RunConcat(cfg: Config, s: State, a: seq<Event>, b: seq<Event>)
    ensures Run(cfg, s, a + b) == Run(cfg, Run(cfg, s, a), b)
    decreases |a|
  {
    if a == [] {
      assert a + b == b;
    } else {
      assert (a + b)[0] == a[0] && (a + b)[1..] == a[1..] + b;
      RunConcat(cfg, Apply(cfg, s, a[0]), a[1..], b);
    }
  }

  /** A run starts from credentials that satisfy the table's unique columns, and nothing else. */
  predicate Initial(s: State) {
    && s.sessions == map[] && s.calls == map[] && s.released == {} && s.descents == {} && s.openings == {}
    && forall c, d | c in s.credentials && d in s.credentials :: c == d || !Conflict(c, d)
  }
}
