/**
The session protocol as a state machine whose unit is one SQL statement.

A request in flight is a `Task`, stopped between two statements; statements of different tasks
interleave freely, each with its own clock reading, and no order between the readings of
different statements is assumed. A browser rotation runs in one write transaction, so it is a
single event that runs a rotation task to its end.

`History` is what an observer would write down: every token ever signed and the login it
descends from. It also stands for the two library facts the protocol rests on: a token passes
the signature check only when it was signed, and identifiers drawn at random are fresh.
*/
module CredentialMachine {
  import opened Wrappers
  import opened CredentialStore

  /** Everything a holder can present later. */
  datatype Credential =
    | Central(claims: Claims)
    | HandoffToken(handoff: Handoff)
    | ForwardToken(session: ForwardSession, redeemedFrom: nat)
    | AuthorizationCode(id: nat, row: CodeRow)
    | OidcAccess(oidc: OidcClaims)
    | IdToken(idClaims: IdClaims, code: nat)

  function CredentialUser(c: Credential): UserId {
    match c
    case Central(claims) => claims.sub
    case HandoffToken(h) => h.session.sub
    case ForwardToken(f, _) => f.sub
    case AuthorizationCode(_, row) => row.user
    case OidcAccess(o) => o.sub
    case IdToken(i, _) => i.sub
  }

  function CredentialVersion(c: Credential): Option<nat> {
    match c
    case Central(claims) => claims.version
    case HandoffToken(h) => h.session.version
    case ForwardToken(f, _) => f.version
    case AuthorizationCode(_, row) => row.version
    case OidcAccess(o) => o.version
    case IdToken(i, _) => i.version
  }

  function CredentialExpiry(c: Credential): int {
    match c
    case Central(claims) => claims.exp
    case HandoffToken(h) => h.exp
    case ForwardToken(f, _) => f.exp
    case AuthorizationCode(_, row) => row.expiresAt
    case OidcAccess(o) => o.exp
    case IdToken(i, _) => i.exp
  }

  /**
  One login: the generation it read, its absolute deadline (none for a code issued before the
  upgrade) and its authentication time. Each credential found at the upgrade is its own login.
  */
  datatype Login = Login(user: UserId, generation: nat, deadline: Option<int>, authTime: int, legacy: bool)

  /** A successful redemption of an authorization code: the row that was read and the request. */
  datatype Exchange = Exchange(code: nat, row: CodeRow, application: nat, redirectUri: string, verifier: string)

  datatype History = History(
    next: nat,
    logins: map<nat, Login>,
    root: map<Credential, nat>,
    chain: map<nat, seq<Claims>>,
    parent: map<Claims, Claims>,
    redeemed: seq<Handoff>,
    exchanged: seq<Exchange>)

  /** `exactExpiry`: whether the JWT library still accepts a token in the very second it expires. */
  datatype State = State(db: Database, hist: History, exactExpiry: bool)

  predicate Signed(s: State, c: Credential) {
    c in s.hist.root
  }

  predicate Unexpired(s: State, exp: int, now: int) {
    exp > now || (exp == now && s.exactExpiry)
  }

  /** The login a signed credential descends from. */
  function RootOf(h: History, c: Credential): nat {
    if c in h.root then h.root[c] else 0
  }

  /** The refresh tokens issued for a login, oldest first. */
  function ChainOf(h: History, login: nat): seq<Claims> {
    if login in h.chain then h.chain[login] else []
  }

  function Issue(h: History, c: Credential, login: nat): History {
    h.(next := h.next + 1, root := h.root[c := login])
  }

  datatype Purpose = ToRotate | ToLogOut

  /** What a request does once the shared session check has passed. */
  datatype Goal =
    | AcceptAccess(token: Claims)
    | AcceptForward(session: ForwardSession, redeemedFrom: nat)
    | AcceptOidc(oidc: OidcClaims)
    | Spend(token: Claims, before: nat, purpose: Purpose)
    | OpenHandoff(parent: Claims, application: nat, origin: string, state: string)
    | OpenCode(parent: Claims, application: nat, redirectUri: string, challenge: Digest)
    | RedeemHandoff(handoff: Handoff)
    | MintOidc(code: nat, row: CodeRow)

  function GoalCredential(g: Goal): Credential {
    match g
    case AcceptAccess(token) => Central(token)
    case AcceptForward(session, n) => ForwardToken(session, n)
    case AcceptOidc(oidc) => OidcAccess(oidc)
    case Spend(token, _, _) => Central(token)
    case OpenHandoff(parent, _, _, _) => Central(parent)
    case OpenCode(parent, _, _, _) => Central(parent)
    case RedeemHandoff(handoff) => HandoffToken(handoff)
    case MintOidc(code, row) => AuthorizationCode(code, row)
  }

  /** The instant the legacy revocation check compares with. */
  function GoalIssuedAt(g: Goal): int {
    match g
    case AcceptAccess(token) => token.iat
    case AcceptForward(session, _) => session.iat
    case AcceptOidc(oidc) => oidc.iat
    case Spend(token, _, _) => token.iat
    case OpenHandoff(parent, _, _, _) => parent.iat
    case OpenCode(parent, _, _, _) => parent.iat
    case RedeemHandoff(handoff) => handoff.session.iat
    case MintOidc(_, row) => row.authTime
  }

  /** Arguments of `generate_token_pair_for_session`, with the lineage they come from. */
  datatype Minting = Minting(
    user: UserId,
    expiresAt: int,
    version: Option<nat>,
    authTime: int,
    login: nat,
    parent: Option<Claims>)

  datatype Request =
    | LogIn(user: UserId)
    | Rotate(token: Claims)
    | LogOut(token: Claims)
    | VerifyAccess(token: Claims)
    | VerifyForward(session: ForwardSession, redeemedFrom: nat, origin: string)
    | UserInfo(oidc: OidcClaims)
    | Revoke(user: UserId)
    | RevokeAccess(user: UserId)
    | IssueHandoff(parent: Claims, application: nat, origin: string, state: string)
    | Redeem(handoff: Handoff, origin: string, state: string)
    | Authorize(parent: Claims, application: nat, redirectUri: string, challenge: Digest)
    | ExchangeCode(code: nat, application: nat, redirectUri: string, verifier: string)

  datatype Outcome =
    | Rejected
    | Failed
    | Accepted
    | Revoked
    | Minted(pair: TokenPair)
    | HandedOff(handoff: Handoff)
    | Redeemed(session: ForwardSession)
    | CodeIssued(code: nat)
    | OidcMinted(idToken: IdClaims, access: OidcClaims)

  datatype Task =
    | Arrived(request: Request)
    | LoginExpiry(user: UserId)
    | LoginGeneration(user: UserId, expiresAt: int)
    | ReadVersion(token: Claims, purpose: Purpose)
    | Check(goal: Goal)
    | CheckLegacy(goal: Goal)
    | Ready(goal: Goal)
    | LoadUser(minting: Minting)
    | MintRemaining(minting: Minting)
    | MintAccess(minting: Minting)
    | MintRefresh(minting: Minting, access: Claims)
    | ReplayLookup(token: Claims)
    | RevokeRefresh(user: UserId, after: Outcome)
    | Bump(user: UserId, after: Outcome)
    | NoteRevocation(user: UserId, after: Outcome)
    | PurgeHandoffs(goal: Goal, exp: int)
    | InsertHandoff(goal: Goal, exp: int)
    | LoadActive(request: Request)
    | InsertCode(request: Request)
    | SelectCode(request: Request)
    | TakeCode(request: Request, row: CodeRow, now: int)
    | MintOidcAccess(code: nat, row: CodeRow, idToken: IdClaims)
    | Done(outcome: Outcome)

  /** Bounds the statements a task may still run. */
  function Rank(task: Task): nat {
    match task
    case Arrived(_) => 20
    case LoginExpiry(_) => 19
    case LoginGeneration(_, _) => 18
    case SelectCode(_) => 19
    case TakeCode(_, _, _) => 18
    case ReadVersion(_, _) => 17
    case Check(_) => 16
    case CheckLegacy(_) => 15
    case Ready(_) => 14
    case ReplayLookup(_) => 13
    case RevokeRefresh(_, _) => 12
    case Bump(_, _) => 11
    case NoteRevocation(_, _) => 10
    case LoadUser(_) => 9
    case MintRemaining(_) => 8
    case MintAccess(_) => 7
    case MintRefresh(_, _) => 6
    case PurgeHandoffs(_, _) => 6
    case InsertHandoff(_, _) => 5
    case LoadActive(_) => 6
    case InsertCode(_) => 5
    case MintOidcAccess(_, _, _) => 5
    case Done(_) => 0
  }

  /** What a request checks before its first statement: signature, kind, expiry, bindings. */
  function Admit(s: State, request: Request, now: int): (task: Task)
    ensures Rank(task) < 20
  {
    match request
    case LogIn(user) => LoginExpiry(user)
    case Rotate(token) =>
      if Signed(s, Central(token)) && token.typ.RefreshToken? && Unexpired(s, token.exp, now)
      then ReadVersion(token, ToRotate) else Done(Rejected)
    case LogOut(token) =>
      if Signed(s, Central(token)) && token.typ.RefreshToken? && Unexpired(s, token.exp, now)
      then ReadVersion(token, ToLogOut) else Done(Rejected)
    case VerifyAccess(token) =>
      if Signed(s, Central(token)) && token.typ.AccessToken? && token.exp > now && token.Deadline() > now
      then Check(AcceptAccess(token)) else Done(Rejected)
    case VerifyForward(session, n, origin) =>
      if Signed(s, ForwardToken(session, n)) && session.origin == origin && session.exp > now
      then Check(AcceptForward(session, n)) else Done(Rejected)
    case UserInfo(oidc) =>
      if Signed(s, OidcAccess(oidc)) && oidc.exp > now then Check(AcceptOidc(oidc)) else Done(Rejected)
    case Revoke(user) => RevokeRefresh(user, Revoked)
    case RevokeAccess(user) => Bump(user, Revoked)
    case IssueHandoff(parent, application, origin, state) =>
      if && ValidState(state) && Signed(s, Central(parent)) && parent.typ.AccessToken?
         && parent.Deadline() > now
      then Check(OpenHandoff(parent, application, origin, state)) else Done(Rejected)
    case Redeem(handoff, origin, state) =>
      if && Signed(s, HandoffToken(handoff)) && Unexpired(s, handoff.exp, now) && handoff.origin == origin
         && ValidState(state) && handoff.stateHash == Sha256(state)
         && handoff.session.origin == origin && handoff.session.exp > now
      then Check(RedeemHandoff(handoff)) else Done(Rejected)
    case Authorize(parent, application, redirectUri, challenge) =>
      if Signed(s, Central(parent)) && parent.typ.AccessToken? && parent.exp > now && parent.Deadline() > now
      then Check(OpenCode(parent, application, redirectUri, challenge)) else Done(Rejected)
    case ExchangeCode(_, _, _, _) => SelectCode(request)
  }

  /** The statement a task runs after its session check has passed. */
  function Perform(s: State, goal: Goal, now: int): (r: (State, Task))
    ensures Rank(r.1) < 14
  {
    match goal
    case AcceptAccess(token) => (s, Done(if token.sub in s.db.users then Accepted else Rejected))
    case AcceptForward(_, _) => (s, Done(Accepted))
    case AcceptOidc(oidc) => (s, Done(if ReadGeneration(s.db, oidc.sub).Some? then Accepted else Rejected))
    case Spend(token, before, purpose) =>
      if !Spendable(s.db, token, now) then (s, ReplayLookup(token))
      else
        var s' := s.(db := MarkRevoked(s.db, token, now));
        if purpose.ToLogOut? then (s', Bump(token.sub, Revoked))
        else
          (s', LoadUser(Minting(
                 token.sub, Min(token.Deadline(), token.exp), Some(UnwrapOr(token.version, before)),
                 token.AuthenticatedAt(), RootOf(s.hist, Central(token)), Some(token))))
    case OpenHandoff(parent, _, _, _) =>
      (s, PurgeHandoffs(goal, Min(parent.Deadline(), now + HANDOFF_LIFETIME)))
    case OpenCode(parent, application, redirectUri, challenge) =>
      (s, if parent.sub in s.db.users then LoadActive(Authorize(parent, application, redirectUri, challenge))
          else Done(Rejected))
    case RedeemHandoff(handoff) =>
      if && handoff.jti in s.db.handoffs
         && s.db.handoffs[handoff.jti].user == handoff.session.sub
         && s.db.handoffs[handoff.jti].expiresAt > now
      then
        var hist := Issue(s.hist, ForwardToken(handoff.session, handoff.jti),
                          RootOf(s.hist, HandoffToken(handoff)));
        (s.(db := s.db.(handoffs := s.db.handoffs - {handoff.jti}),
            hist := hist.(redeemed := hist.redeemed + [handoff])),
         Done(Redeemed(handoff.session)))
      else (s, Done(Rejected))
    case MintOidc(code, row) =>
      if ReadGeneration(s.db, row.user).Some? then
        var exp := now + OIDC_TOKEN_LIFETIME;
        var id := IdClaims(row.user, row.application, Min(exp, UnwrapOr(row.sessionExp, exp)), now,
                           row.authTime, row.version);
        (s.(hist := Issue(s.hist, IdToken(id, code), RootOf(s.hist, AuthorizationCode(code, row)))),
         MintOidcAccess(code, row, id))
      else (s, Done(Rejected))
  }

  /** Insert the refresh token of a new pair; a missing user violates the foreign key. */
  function InsertRefresh(s: State, m: Minting, access: Claims, now: int): (r: (State, Task))
    ensures r.1.Done?
  {
    var token := Claims(m.user, RefreshToken, m.expiresAt, now, s.hist.next, Some(m.expiresAt), m.version,
                        Some(m.authTime));
    if m.user !in s.db.users then (s, Done(Failed))
    else
      var row := RefreshRow(m.user, m.expiresAt, now, None, None, None);
      var hist := Issue(s.hist, Central(token), m.login);
      (s.(db := s.db.(refresh := s.db.refresh[token := row]),
          hist := hist.(
            chain := hist.chain[m.login := ChainOf(hist, m.login) + [token]],
            parent := if m.parent.Some? then hist.parent[token := m.parent.value] else hist.parent)),
       Done(Minted(TokenPair(access, token))))
  }

  /** Insert an authorization code for the session of `parent`. */
  function StoreCode(s: State, request: Request, now: int): (r: (State, Task))
    requires request.Authorize?
    ensures r.1.Done?
  {
    var parent := request.parent;
    if parent.sub !in s.db.users then (s, Done(Failed))
    else
      var row := CodeRow(request.application, parent.sub, request.redirectUri, request.challenge, S256,
                         parent.AuthenticatedAt(),
                         Min(parent.Deadline(), now + AUTHORIZATION_CODE_LIFETIME),
                         None, parent.version, Some(parent.Deadline()));
      var id := s.hist.next;
      (s.(db := s.db.(codes := s.db.codes[id := row]),
          hist := Issue(s.hist, AuthorizationCode(id, row), RootOf(s.hist, Central(parent)))),
       Done(CodeIssued(id)))
  }

  function StoreHandoff(s: State, goal: Goal, exp: int): (r: (State, Task))
    requires goal.OpenHandoff?
    ensures r.1.Done?
  {
    var parent := goal.parent;
    if parent.sub !in s.db.users then (s, Done(Failed))
    else
      var session := ForwardSession(parent.sub, goal.application, goal.origin, parent.iat, parent.Deadline(),
                                    parent.version);
      var handoff := Handoff(session, Sha256(goal.state), s.hist.next, goal.origin, exp);
      (s.(db := s.db.(handoffs := s.db.handoffs[handoff.jti := HandoffRow(parent.sub, exp)]),
          hist := Issue(s.hist, HandoffToken(handoff), RootOf(s.hist, Central(parent)))),
       Done(HandedOff(handoff)))
  }

  /** The guarded update of `codes::consume`; `now` is the reading taken before the select. */
  function ConsumeCode(s: State, request: Request, row: CodeRow, now: int): (r: (State, Task))
    requires request.ExchangeCode?
    ensures Rank(r.1) < 18
  {
    var code := request.code;
    if code in s.db.codes && Redeemable(s.db.codes[code], now) then
      (s.(db := s.db.(codes := s.db.codes[code := s.db.codes[code].(consumedAt := Some(now))]),
          hist := s.hist.(exchanged := s.hist.exchanged +
            [Exchange(code, row, request.application, request.redirectUri, request.verifier)])),
       Check(MintOidc(code, row)))
    else (s, Done(Rejected))
  }

  /** A login that has read its generation: the root of a new lineage. */
  function OpenSession(s: State, user: UserId, version: nat, expiresAt: int, now: int): (r: (State, Task))
    ensures r.1.MintRemaining?
  {
    var login := s.hist.next;
    (s.(hist := s.hist.(
          next := login + 1,
          logins := s.hist.logins[login := Login(user, version, Some(expiresAt), now, false)],
          chain := s.hist.chain[login := []])),
     MintRemaining(Minting(user, expiresAt, Some(version), now, login, None)))
  }

  function SignAccess(s: State, m: Minting, now: int): (r: (State, Task))
    ensures r.1.MintRefresh?
  {
    var access := Claims(m.user, AccessToken, Min(now + ACCESS_TOKEN_LIFETIME, m.expiresAt), now, s.hist.next,
                         Some(m.expiresAt), m.version, Some(m.authTime));
    (s.(hist := Issue(s.hist, Central(access), m.login)), MintRefresh(m, access))
  }

  function SignOidcAccess(s: State, code: nat, row: CodeRow, id: IdClaims, now: int): (r: (State, Task))
    ensures r.1.Done?
  {
    var exp := now + OIDC_TOKEN_LIFETIME;
    var access := OidcClaims(row.user, row.application, Min(exp, UnwrapOr(row.sessionExp, exp)), now,
                             s.hist.next, row.version);
    (s.(hist := Issue(s.hist, OidcAccess(access), RootOf(s.hist, AuthorizationCode(code, row)))),
     Done(OidcMinted(id, access)))
  }

  /** Well-formed continuations: the tasks a request can actually reach. */
  predicate Shaped(task: Task) {
    match task
    case PurgeHandoffs(goal, _) => goal.OpenHandoff?
    case InsertHandoff(goal, _) => goal.OpenHandoff?
    case LoadActive(request) => request.Authorize?
    case InsertCode(request) => request.Authorize?
    case SelectCode(request) => request.ExchangeCode?
    case TakeCode(request, _, _) => request.ExchangeCode?
    case _ => true
  }

  /** The statements of handoffs and authorization codes after their session check, and of code exchanges. */
  predicate OfGrant(task: Task) {
    || task.PurgeHandoffs? || task.InsertHandoff? || task.LoadActive? || task.InsertCode?
    || task.SelectCode? || task.TakeCode? || task.MintOidcAccess?
  }

  function GrantStep(s: State, task: Task, now: int): (r: (State, Task))
    requires Shaped(task) && OfGrant(task)
    ensures Shaped(r.1) && Rank(r.1) < Rank(task)
  {
    match task
    case PurgeHandoffs(goal, exp) => (s.(db := DeleteExpiredHandoffs(s.db, now)), InsertHandoff(goal, exp))
    case InsertHandoff(goal, exp) => StoreHandoff(s, goal, exp)
    case LoadActive(request) =>
      (s, if ReadGeneration(s.db, request.parent.sub).Some? then InsertCode(request) else Done(Rejected))
    case InsertCode(request) => StoreCode(s, request, now)
    case SelectCode(request) =>
      if && request.code in s.db.codes
         && Redeemable(s.db.codes[request.code], now)
         && CodeBindingsHold(s.db.codes[request.code], request.application, request.redirectUri, request.verifier)
      then (s, TakeCode(request, s.db.codes[request.code], now))
      else (s, Done(Rejected))
    case TakeCode(request, row, reading) => ConsumeCode(s, request, row, reading)
    case MintOidcAccess(code, row, id) => SignOidcAccess(s, code, row, id, now)
  }

  /** Run the next statement of a task at clock reading `now`. */
  function TaskStep(s: State, task: Task, now: int): (r: (State, Task))
    requires Shaped(task) && !task.Done?
    ensures Shaped(r.1) && Rank(r.1) < Rank(task)
  {
    match task
    case Arrived(request) => (s, Admit(s, request, now))
    case LoginExpiry(user) => (s, LoginGeneration(user, now + SessionExpirySeconds(s.db)))
    case LoginGeneration(user, expiresAt) =>
      (match ReadGeneration(s.db, user)
       case None => (s, Done(Rejected))
       case Some(v) => OpenSession(s, user, v, expiresAt, now))
    case ReadVersion(token, purpose) =>
      (match ReadGeneration(s.db, token.sub)
       case None => (s, Done(Rejected))
       case Some(v) => (s, Check(Spend(token, v, purpose))))
    case Check(goal) =>
      var c := GoalCredential(goal);
      (match CheckGeneration(s.db, CredentialUser(c), CredentialVersion(c))
       case Pass => (s, Ready(goal))
       case Reject => (s, Done(Rejected))
       case ReadRevocation => (s, CheckLegacy(goal)))
    case CheckLegacy(goal) =>
      if OutlivesRevocation(s.db, CredentialUser(GoalCredential(goal)), GoalIssuedAt(goal))
      then (s, Ready(goal)) else (s, Done(Rejected))
    case Ready(goal) => Perform(s, goal, now)
    case LoadUser(m) => (s, if m.user in s.db.users then MintRemaining(m) else Done(Rejected))
    case MintRemaining(m) => (s, if m.expiresAt - now <= 0 then Done(Rejected) else MintAccess(m))
    case MintAccess(m) => SignAccess(s, m, now)
    case MintRefresh(m, access) => InsertRefresh(s, m, access, now)
    case ReplayLookup(token) =>
      (s, if token in s.db.refresh then RevokeRefresh(s.db.refresh[token].user, Rejected) else Done(Rejected))
    case RevokeRefresh(user, after) => (s.(db := RevokeRefreshTokens(s.db, user, now)), Bump(user, after))
    case Bump(user, after) => (s.(db := BumpGeneration(s.db, user)), NoteRevocation(user, after))
    case NoteRevocation(user, after) =>
      if user in s.db.users then (s.(db := RecordRevocation(s.db, user, now)), Done(after))
      else (s, Done(if after.Rejected? then Rejected else Failed))
    case PurgeHandoffs(_, _) => GrantStep(s, task, now)
    case InsertHandoff(_, _) => GrantStep(s, task, now)
    case LoadActive(_) => GrantStep(s, task, now)
    case InsertCode(_) => GrantStep(s, task, now)
    case SelectCode(_) => GrantStep(s, task, now)
    case TakeCode(_, _, _) => GrantStep(s, task, now)
    case MintOidcAccess(_, _, _) => GrantStep(s, task, now)
  }

  type Clock = nat -> int

  /** Run a task to its end, one reading of `clock` a statement, starting at reading `k`. */
  function RunTask(s: State, task: Task, clock: Clock, k: nat): (r: (State, Outcome, nat))
    requires Shaped(task)
    decreases Rank(task)
  {
    if task.Done? then (s, task.outcome, k)
    else
      var (s', task') := TaskStep(s, task, clock(k));
      RunTask(s', task', clock, k + 1)
  }

  function RunRequest(s: State, request: Request, clock: Clock, k: nat): (State, Outcome, nat) {
    RunTask(s, Arrived(request), clock, k)
  }

  /** Running a task is its next statement, then the rest. */
  lemma NextStatement(s: State, task: Task, clock: Clock, k: nat)
    requires Shaped(task) && !task.Done?
    ensures var (s', task') := TaskStep(s, task, clock(k));
      RunTask(s, task, clock, k) == RunTask(s', task', clock, k + 1)
  {
    hide TaskStep;
  }

  lemma NextArrived(s: State, request: Request, clock: Clock, k: nat)
    ensures RunTask(s, Arrived(request), clock, k) == RunTask(s, Admit(s, request, clock(k)), clock, k + 1)
  {
    hide Admit;
    NextStatement(s, Arrived(request), clock, k);
  }

  lemma NextReady(s: State, goal: Goal, clock: Clock, k: nat)
    ensures var (s', task') := Perform(s, goal, clock(k));
      Shaped(task') && RunTask(s, Ready(goal), clock, k) == RunTask(s', task', clock, k + 1)
  {
    hide Perform;
    NextStatement(s, Ready(goal), clock, k);
  }

  lemma NextReadVersion(s: State, token: Claims, purpose: Purpose, clock: Clock, k: nat)
    ensures var v := ReadGeneration(s.db, token.sub);
      var task' := if v.None? then Done(Rejected) else Check(Spend(token, v.value, purpose));
      RunTask(s, ReadVersion(token, purpose), clock, k) == RunTask(s, task', clock, k + 1)
  {
    NextStatement(s, ReadVersion(token, purpose), clock, k);
  }

  lemma NextReplayLookup(s: State, token: Claims, clock: Clock, k: nat)
    ensures var task' := if token in s.db.refresh then RevokeRefresh(s.db.refresh[token].user, Rejected)
                         else Done(Rejected);
      RunTask(s, ReplayLookup(token), clock, k) == RunTask(s, task', clock, k + 1)
  {
    NextStatement(s, ReplayLookup(token), clock, k);
  }

  lemma NextLoadActive(s: State, request: Request, clock: Clock, k: nat)
    requires request.Authorize?
    ensures var task' := if ReadGeneration(s.db, request.parent.sub).Some? then InsertCode(request) else Done(Rejected);
      RunTask(s, LoadActive(request), clock, k) == RunTask(s, task', clock, k + 1)
  {
    NextStatement(s, LoadActive(request), clock, k);
  }

  lemma NextInsertCode(s: State, request: Request, clock: Clock, k: nat)
    requires request.Authorize?
    ensures var (s', task') := StoreCode(s, request, clock(k));
      RunTask(s, InsertCode(request), clock, k) == RunTask(s', task', clock, k + 1)
  {
    hide StoreCode;
    NextStatement(s, InsertCode(request), clock, k);
  }

  lemma NextPurgeHandoffs(s: State, goal: Goal, exp: int, clock: Clock, k: nat)
    requires goal.OpenHandoff?
    ensures RunTask(s, PurgeHandoffs(goal, exp), clock, k)
         == RunTask(s.(db := DeleteExpiredHandoffs(s.db, clock(k))), InsertHandoff(goal, exp), clock, k + 1)
  {
    NextStatement(s, PurgeHandoffs(goal, exp), clock, k);
  }

  lemma NextInsertHandoff(s: State, goal: Goal, exp: int, clock: Clock, k: nat)
    requires goal.OpenHandoff?
    ensures var (s', task') := StoreHandoff(s, goal, exp);
      RunTask(s, InsertHandoff(goal, exp), clock, k) == RunTask(s', task', clock, k + 1)
  {
    hide StoreHandoff;
    NextStatement(s, InsertHandoff(goal, exp), clock, k);
  }

  lemma Finished(s: State, outcome: Outcome, clock: Clock, k: nat)
    ensures RunTask(s, Done(outcome), clock, k) == (s, outcome, k)
  {
  }

  /** Both statements of the shared session check let `goal` through. */
  predicate SessionHolds(db: Database, goal: Goal) {
    var c := GoalCredential(goal);
    match CheckGeneration(db, CredentialUser(c), CredentialVersion(c))
    case Pass => true
    case Reject => false
    case ReadRevocation => OutlivesRevocation(db, CredentialUser(c), GoalIssuedAt(goal))
  }

  lemma SessionHoldsRuns(s: State, goal: Goal, clock: Clock, k: nat) returns (k': nat)
    requires SessionHolds(s.db, goal)
    ensures k' > k && RunTask(s, Check(goal), clock, k) == RunTask(s, Ready(goal), clock, k')
  {
    hide RunTask;
    var c := GoalCredential(goal);
    NextStatement(s, Check(goal), clock, k);
    if CheckGeneration(s.db, CredentialUser(c), CredentialVersion(c)).Pass? {
      k' := k + 1;
    } else {
      NextStatement(s, CheckLegacy(goal), clock, k + 1);
      k' := k + 2;
    }
  }

  /**
  Follow the retry chain from the saved pair to the first refresh token that is not revoked,
  re-verifying each access token on the way.
  */
  function FollowRetry(s: State, pair: TokenPair, now: int, clock: Clock, k: nat, hops: nat): Option<TokenPair>
    decreases hops
  {
    if hops == 0 then None
    else
      var (_, verified, k') := RunRequest(s, VerifyAccess(pair.access), clock, k);
      if !verified.Accepted? || pair.refresh !in s.db.refresh then None
      else
        var row := s.db.refresh[pair.refresh];
        if row.expiresAt <= now then None
        else if row.revokedAt.None? then Some(pair)
        else if && row.retryUntil.Some? && row.retryUntil.value > now && row.retryPair.Some?
        then FollowRetry(s, row.retryPair.value, now, clock, k', hops - 1)
        else None
  }

  /** Whether the presented token is answered from the retry window. */
  predicate RetryOpen(db: Database, token: Claims, now: int) {
    && token in db.refresh
    && db.refresh[token].revokedAt.Some?
    && db.refresh[token].expiresAt > now
    && db.refresh[token].retryUntil.Some?
    && db.refresh[token].retryPair.Some?
    && db.refresh[token].retryUntil.value > now
  }

  /** `rotate_browser_token_pair`: one write transaction, reading the clock at `clock(0)` first. */
  function RotateBrowser(s: State, token: Claims, clock: Clock): (State, Outcome) {
    var now := clock(0);
    if RetryOpen(s.db, token, now) then
      match FollowRetry(s, s.db.refresh[token].retryPair.value, now, clock, 1, RETRY_HOPS)
      case Some(pair) => (s, Minted(pair))
      case None => (s, Rejected)
    else
      var (s', outcome, _) := RunRequest(s, Rotate(token), clock, 1);
      match outcome
      case Minted(pair) =>
        (s'.(db := ForgetRetries(SaveRetry(s'.db, token, now + RETRY_WINDOW, pair), now)), outcome)
      case Rejected => (s', Rejected)
      case _ => (s, Failed)
  }

  /** The whole system: shared state and the requests in flight. */
  datatype World = World(state: State, tasks: map<nat, Task>)

  datatype Event =
    | Begin(pid: nat, request: Request)
    | Advance(pid: nat, now: int)
    | Browser(token: Claims, clock: Clock)
    | SweepRetries(now: int)
    | SweepRefresh(now: int)
    | SweepHandoffs(now: int)
    | SweepCodes(now: int)
    | SetSessionExpiry(seconds: Option<int>)
    | SetActive(user: UserId, active: bool)
    | AddUser
    | RemoveUser(user: UserId)

  ghost predicate Monotone(clock: Clock) {
    forall i: nat, j: nat :: i <= j ==> clock(i) <= clock(j)
  }

  function WithDb(w: World, db: Database): World {
    w.(state := w.state.(db := db))
  }

  /** One event; an event that is not enabled leaves the world unchanged. */
  ghost function Step(w: World, e: Event): World {
    var db := w.state.db;
    match e
    case Begin(pid, request) =>
      if pid in w.tasks then w else w.(tasks := w.tasks[pid := Arrived(request)])
    case Advance(pid, now) =>
      if pid in w.tasks && Shaped(w.tasks[pid]) && !w.tasks[pid].Done? then
        var (s', task') := TaskStep(w.state, w.tasks[pid], now);
        World(s', w.tasks[pid := task'])
      else w
    case Browser(token, clock) =>
      if Monotone(clock) then w.(state := RotateBrowser(w.state, token, clock).0) else w
    case SweepRetries(now) => WithDb(w, ForgetRetries(db, now))
    case SweepRefresh(now) => WithDb(w, DeleteExpiredRefresh(db, now))
    case SweepHandoffs(now) => WithDb(w, DeleteExpiredHandoffs(db, now))
    case SweepCodes(now) => WithDb(w, DeleteExpiredCodes(db, now))
    case SetSessionExpiry(seconds) => WithDb(w, db.(sessionExpiry := seconds))
    case SetActive(user, active) =>
      if user in db.users then WithDb(w, db.(users := db.users[user := db.users[user].(active := active)])) else w
    case AddUser =>
      w.(state := w.state.(
           db := db.(users := db.users[w.state.hist.next := UserRow(0, true)]),
           hist := w.state.hist.(next := w.state.hist.next + 1)))
    case RemoveUser(user) => WithDb(w, DeleteUser(db, user))
  }

  ghost function Run(w: World, events: seq<Event>): World
    decreases |events|
  {
    if events == [] then w else Run(Step(w, events[0]), events[1..])
  }
}
