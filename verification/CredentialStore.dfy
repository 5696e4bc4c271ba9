/**
The records of the session machinery: the signed tokens, the database tables, and each SQL
statement as a function from tables to tables.

Signed tokens are the claim records they carry. SHA-256 is taken to be injective, so a row of
`refresh_tokens` is keyed by the token itself, and digests are kept as their preimages.
*/
module CredentialStore {
  import opened Wrappers

  const ACCESS_TOKEN_LIFETIME: int := 15 * 60
  const OIDC_TOKEN_LIFETIME: int := 60 * 60
  const AUTHORIZATION_CODE_LIFETIME: int := 10 * 60
  const HANDOFF_LIFETIME: int := 60
  const RETRY_WINDOW: int := 5
  const RETRY_HOPS: nat := 16
  const CODE_RETENTION: int := 3600
  const DEFAULT_SESSION_EXPIRY: int := 7 * 24 * 60 * 60
  const MIN_SESSION_EXPIRY: int := 5 * 60
  const MAX_SESSION_EXPIRY: int := 365 * 24 * 60 * 60

  type UserId = nat

  datatype Digest = Sha256(preimage: string)

  datatype TokenType = AccessToken | RefreshToken

  /** Claims of a central token. The last three are absent on tokens issued before the upgrade. */
  datatype Claims = Claims(
    sub: UserId,
    typ: TokenType,
    exp: int,
    iat: int,
    jti: nat,
    sessionExp: Option<int>,
    version: Option<nat>,
    authTime: Option<int>)
  {
    function Deadline(): int { UnwrapOr(sessionExp, exp) }

    function AuthenticatedAt(): int { UnwrapOr(authTime, iat) }
  }

  datatype TokenPair = TokenPair(access: Claims, refresh: Claims)

  datatype ForwardSession = ForwardSession(
    sub: UserId,
    application: nat,
    origin: string,
    iat: int,
    exp: int,
    version: Option<nat>)

  datatype Handoff = Handoff(
    session: ForwardSession,
    stateHash: Digest,
    jti: nat,
    origin: string,
    exp: int)

  datatype OidcClaims = OidcClaims(sub: UserId, client: nat, exp: int, iat: int, jti: nat, version: Option<nat>)

  datatype IdClaims = IdClaims(
    sub: UserId,
    client: nat,
    exp: int,
    iat: int,
    authTime: int,
    version: Option<nat>)

  datatype ChallengeMethod = S256 | Plain

  /** A row of `refresh_tokens`. */
  datatype RefreshRow = RefreshRow(
    user: UserId,
    expiresAt: int,
    createdAt: int,
    revokedAt: Option<int>,
    retryUntil: Option<int>,
    retryPair: Option<TokenPair>)

  /** A row of `oidc_authorization_codes`. */
  datatype CodeRow = CodeRow(
    application: nat,
    user: UserId,
    redirectUri: string,
    challenge: Digest,
    challengeMethod: ChallengeMethod,
    authTime: int,
    expiresAt: int,
    consumedAt: Option<int>,
    version: Option<nat>,
    sessionExp: Option<int>)

  /** A row of `forward_handoffs`. */
  datatype HandoffRow = HandoffRow(user: UserId, expiresAt: int)

  /** A row of `users`, reduced to the columns that sessions depend on. */
  datatype UserRow = UserRow(version: nat, active: bool)

  datatype Database = Database(
    users: map<UserId, UserRow>,
    sessionExpiry: Option<int>,
    refresh: map<Claims, RefreshRow>,
    revocations: map<UserId, int>,
    handoffs: map<nat, HandoffRow>,
    codes: map<nat, CodeRow>)

  /** The configured session lifetime, clamped to the supported range. */
  function SessionExpirySeconds(db: Database): (s: int)
    ensures MIN_SESSION_EXPIRY <= s <= MAX_SESSION_EXPIRY
  {
    var raw := UnwrapOr(db.sessionExpiry, DEFAULT_SESSION_EXPIRY);
    if raw < MIN_SESSION_EXPIRY then MIN_SESSION_EXPIRY
    else if raw > MAX_SESSION_EXPIRY then MAX_SESSION_EXPIRY
    else raw
  }

  /** The generation of an active user. */
  function ReadGeneration(db: Database, user: UserId): Option<nat> {
    if user in db.users && db.users[user].active then Some(db.users[user].version) else None
  }

  datatype Verdict = Pass | Reject | ReadRevocation

  /** First statement of the shared session check: compare generations. */
  function CheckGeneration(db: Database, user: UserId, version: Option<nat>): Verdict {
    match ReadGeneration(db, user)
    case None => Reject
    case Some(current) =>
      match version
      case Some(v) => if v == current then Pass else Reject
      case None => if current != 0 then Reject else ReadRevocation
  }

  /** Second statement, reached only by a credential without a generation. */
  predicate OutlivesRevocation(db: Database, user: UserId, issuedAt: int) {
    user in db.revocations ==> issuedAt > db.revocations[user]
  }

  predicate Spendable(db: Database, token: Claims, now: int) {
    && token in db.refresh
    && db.refresh[token].revokedAt.None?
    && db.refresh[token].expiresAt > now
  }

  predicate HandoffOpen(db: Database, id: nat, now: int) {
    id in db.handoffs && db.handoffs[id].expiresAt > now
  }

  function MarkRevoked(db: Database, token: Claims, now: int): Database
    requires token in db.refresh
  {
    db.(refresh := db.refresh[token := db.refresh[token].(revokedAt := Some(now))])
  }

  function RevokeRow(row: RefreshRow, user: UserId, now: int): RefreshRow {
    if row.user == user && row.revokedAt.None? then row.(revokedAt := Some(now)) else row
  }

  function RevokeRefreshTokens(db: Database, user: UserId, now: int): Database {
    db.(refresh := map token | token in db.refresh :: RevokeRow(db.refresh[token], user, now))
  }

  function BumpGeneration(db: Database, user: UserId): Database {
    if user in db.users
    then db.(users := db.users[user := db.users[user].(version := db.users[user].version + 1)])
    else db
  }

  function RecordRevocation(db: Database, user: UserId, now: int): Database {
    db.(revocations := db.revocations[user := now])
  }

  function SaveRetry(db: Database, token: Claims, until: int, pair: TokenPair): Database {
    if token in db.refresh
    then db.(refresh := db.refresh[token := db.refresh[token].(retryUntil := Some(until), retryPair := Some(pair))])
    else db
  }

  function ForgetRow(row: RefreshRow, now: int): RefreshRow {
    if row.retryUntil.Some? && row.retryUntil.value <= now then row.(retryPair := None) else row
  }

  function ForgetRetries(db: Database, now: int): Database {
    db.(refresh := map token | token in db.refresh :: ForgetRow(db.refresh[token], now))
  }

  function DeleteExpiredRefresh(db: Database, now: int): Database {
    db.(refresh := map token | token in db.refresh && db.refresh[token].expiresAt > now :: db.refresh[token])
  }

  function DeleteExpiredHandoffs(db: Database, now: int): Database {
    db.(handoffs := map id | id in db.handoffs && db.handoffs[id].expiresAt > now :: db.handoffs[id])
  }

  function DeleteExpiredCodes(db: Database, now: int): Database {
    db.(codes := map id | id in db.codes && db.codes[id].expiresAt >= now - CODE_RETENTION :: db.codes[id])
  }

  /** Deleting a user cascades to every table that references it. */
  function DeleteUser(db: Database, user: UserId): Database {
    db.(
      users := db.users - {user},
      refresh := map token | token in db.refresh && db.refresh[token].user != user :: db.refresh[token],
      revocations := db.revocations - {user},
      handoffs := map id | id in db.handoffs && db.handoffs[id].user != user :: db.handoffs[id],
      codes := map id | id in db.codes && db.codes[id].user != user :: db.codes[id])
  }

  /** A browser state is 64 hexadecimal digits. */
  predicate ValidState(state: string) {
    |state| == 64 && forall i :: 0 <= i < |state| ==> HexDigit(state[i])
  }

  predicate HexDigit(c: char) {
    '0' <= c <= '9' || 'a' <= c <= 'f' || 'A' <= c <= 'F'
  }

  predicate Unreserved(c: char) {
    '0' <= c <= '9' || 'a' <= c <= 'z' || 'A' <= c <= 'Z' || c == '-' || c == '.' || c == '_' || c == '~'
  }

  /** The S256 comparison of section 4.6 of RFC 7636. */
  predicate VerifyPkce(verifier: string, challenge: Digest) {
    && 43 <= |verifier| <= 128
    && (forall i :: 0 <= i < |verifier| ==> Unreserved(verifier[i]))
    && challenge == Sha256(verifier)
  }

  /** What `codes::consume` demands of the row it read. */
  predicate CodeBindingsHold(row: CodeRow, application: nat, redirectUri: string, verifier: string) {
    && row.application == application
    && row.redirectUri == redirectUri
    && row.challengeMethod == S256
    && VerifyPkce(verifier, row.challenge)
  }

  predicate Redeemable(row: CodeRow, now: int) {
    row.consumedAt.None? && row.expiresAt > now
  }
}
