/**
The operations of `token.rs`, `forward.rs` and `codes.rs` as they are written: methods that read
and update tables statement by statement. Each is proved to do exactly what the state machine's
task for it does when it runs alone, so every theorem about tasks speaks about these methods.

`clock(k)` is the k-th reading of the clock; each statement consumes one index.
*/
module CredentialServer {
  import opened Wrappers
  import opened CredentialStore
  import opened CredentialMachine

  datatype AppError = AuthenticationRequired | InternalError

  function ErrorOutcome(e: AppError): Outcome {
    match e
    case AuthenticationRequired => Rejected
    case InternalError => Failed
  }

  function PairOutcome(r: Result<TokenPair, AppError>): Outcome {
    match r
    case Ok(pair) => Minted(pair)
    case Err(e) => ErrorOutcome(e)
  }

  /** The process: its database, and the ledger of what its key has signed. */
  class Server {
    var users: map<UserId, UserRow>
    var sessionExpiry: Option<int>
    var refreshTokens: map<Claims, RefreshRow>
    var revocations: map<UserId, int>
    var handoffs: map<nat, HandoffRow>
    var codes: map<nat, CodeRow>
    var ledger: History
    const exactExpiry: bool

    function View(): State
      reads this
    {
      State(Database(users, sessionExpiry, refreshTokens, revocations, handoffs, codes), ledger, exactExpiry)
    }

    method Load(db: Database)
      modifies this
      ensures View() == old(View()).(db := db)
    {
      users, sessionExpiry, refreshTokens := db.users, db.sessionExpiry, db.refresh;
      revocations, handoffs, codes := db.revocations, db.handoffs, db.codes;
    }

    // -------------------------------------------------------------------------------------------
    // Verification
    // -------------------------------------------------------------------------------------------

    method VerifyUserSession(goal: Goal, clock: Clock, k: nat) returns (ok: bool, k': nat)
      ensures ok == SessionHolds(View().db, goal)
      ensures RunTask(View(), Check(goal), clock, k)
           == if ok then RunTask(View(), Ready(goal), clock, k') else (View(), Rejected, k')
    {
      hide RunTask;
      var c := GoalCredential(goal);
      var (user, version) := (CredentialUser(c), CredentialVersion(c));
      NextStatement(View(), Check(goal), clock, k);
      k' := k + 1;
      if user !in users || !users[user].active {
        Finished(View(), Rejected, clock, k');
        return false, k';
      }
      var current := users[user].version;
      if version.Some? {
        Finished(View(), Rejected, clock, k');
        return version.value == current, k';
      }
      if current != 0 {
        Finished(View(), Rejected, clock, k');
        return false, k';
      }
      NextStatement(View(), CheckLegacy(goal), clock, k');
      k' := k' + 1;
      ok := user !in revocations || GoalIssuedAt(goal) > revocations[user];
      Finished(View(), Rejected, clock, k');
    }

    method VerifyAccessToken(token: Claims, clock: Clock, k: nat) returns (ok: bool, k': nat)
      ensures RunRequest(View(), VerifyAccess(token), clock, k)
           == (View(), if ok then Accepted else Rejected, k')
    {
      hide RunTask;
      NextStatement(View(), Arrived(VerifyAccess(token)), clock, k);
      k' := k + 1;
      var now := clock(k);
      if Central(token) !in ledger.root || !token.typ.AccessToken? || token.exp <= now || token.Deadline() <= now {
        Finished(View(), Rejected, clock, k');
        return false, k';
      }
      ok, k' := VerifyUserSession(AcceptAccess(token), clock, k');
      if ok {
        NextStatement(View(), Ready(AcceptAccess(token)), clock, k');
        k' := k' + 1;
        ok := token.sub in users;
        Finished(View(), if ok then Accepted else Rejected, clock, k');
      }
    }

    // -------------------------------------------------------------------------------------------
    // Revocation
    // -------------------------------------------------------------------------------------------

    method RevokeUserAccessTokens(user: UserId, ghost after: Outcome, clock: Clock, k: nat)
      returns (ok: bool, k': nat)
      modifies this
      ensures RunTask(old(View()), Bump(user, after), clock, k)
           == (View(), if ok || after.Rejected? then after else Failed, k')
    {
      hide RunTask;
      NextStatement(View(), Bump(user, after), clock, k);
      if user in users {
        users := users[user := users[user].(version := users[user].version + 1)];
      }
      NextStatement(View(), NoteRevocation(user, after), clock, k + 1);
      ok := user in users;
      if ok {
        revocations := revocations[user := clock(k + 1)];
      }
      k' := k + 2;
      Finished(View(), if ok || after.Rejected? then after else Failed, clock, k');
    }

    method RevokeAllUserTokens(user: UserId, ghost after: Outcome, clock: Clock, k: nat)
      returns (ok: bool, k': nat)
      modifies this
      ensures RunTask(old(View()), RevokeRefresh(user, after), clock, k)
           == (View(), if ok || after.Rejected? then after else Failed, k')
    {
      hide RunTask;
      NextStatement(View(), RevokeRefresh(user, after), clock, k);
      var now := clock(k);
      refreshTokens := map token | token in refreshTokens :: RevokeRow(refreshTokens[token], user, now);
      ok, k' := RevokeUserAccessTokens(user, after, clock, k + 1);
    }

    // -------------------------------------------------------------------------------------------
    // Minting and rotation
    // -------------------------------------------------------------------------------------------

    method GenerateTokenPairForSession(m: Minting, clock: Clock, k: nat)
      returns (r: Result<TokenPair, AppError>, k': nat)
      modifies this
      ensures RunTask(old(View()), MintRemaining(m), clock, k) == (View(), PairOutcome(r), k')
    {
      hide RunTask;
      NextStatement(View(), MintRemaining(m), clock, k);
      var remaining := m.expiresAt - clock(k);
      if remaining <= 0 {
        Finished(View(), Rejected, clock, k + 1);
        return Err(AuthenticationRequired), k + 1;
      }
      NextStatement(View(), MintAccess(m), clock, k + 1);
      var iat := clock(k + 1);
      var access := Claims(m.user, AccessToken, Min(iat + ACCESS_TOKEN_LIFETIME, m.expiresAt), iat, ledger.next,
                           Some(m.expiresAt), m.version, Some(m.authTime));
      ledger := Issue(ledger, Central(access), m.login);
      NextStatement(View(), MintRefresh(m, access), clock, k + 2);
      var created := clock(k + 2);
      var token := Claims(m.user, RefreshToken, m.expiresAt, created, ledger.next, Some(m.expiresAt), m.version,
                          Some(m.authTime));
      k' := k + 3;
      if m.user !in users {
        Finished(View(), Failed, clock, k');
        return Err(InternalError), k';
      }
      refreshTokens := refreshTokens[token := RefreshRow(m.user, m.expiresAt, created, None, None, None)];
      var hist := Issue(ledger, Central(token), m.login);
      ledger := hist.(
        chain := hist.chain[m.login := ChainOf(hist, m.login) + [token]],
        parent := if m.parent.Some? then hist.parent[token := m.parent.value] else hist.parent);
      Finished(View(), Minted(TokenPair(access, token)), clock, k');
      r := Ok(TokenPair(access, token));
    }

    method GenerateTokenPair(user: UserId, clock: Clock, k: nat) returns (r: Result<TokenPair, AppError>, k': nat)
      modifies this
      ensures RunRequest(old(View()), LogIn(user), clock, k) == (View(), PairOutcome(r), k')
    {
      hide RunTask;
      NextStatement(View(), Arrived(LogIn(user)), clock, k);
      NextStatement(View(), LoginExpiry(user), clock, k + 1);
      var expiresAt := clock(k + 1) + SessionExpirySeconds(View().db);
      NextStatement(View(), LoginGeneration(user, expiresAt), clock, k + 2);
      if user !in users || !users[user].active {
        Finished(View(), Rejected, clock, k + 3);
        return Err(AuthenticationRequired), k + 3;
      }
      var (version, authTime, login) := (users[user].version, clock(k + 2), ledger.next);
      ledger := ledger.(
        next := login + 1,
        logins := ledger.logins[login := Login(user, version, Some(expiresAt), authTime, false)],
        chain := ledger.chain[login := []]);
      r, k' := GenerateTokenPairForSession(
        Minting(user, expiresAt, Some(version), authTime, login, None), clock, k + 3);
    }

    /** Verify a refresh token and revoke it with one guarded update; a replay revokes everything. */
    method ConsumeRefreshToken(token: Claims, purpose: Purpose, clock: Clock, k: nat)
      returns (r: Result<Claims, AppError>, k': nat)
      modifies this
      ensures
        var request := if purpose.ToRotate? then Rotate(token) else LogOut(token);
        match r
        case Err(e) => e.AuthenticationRequired? && RunRequest(old(View()), request, clock, k) == (View(), Rejected, k')
        case Ok(claims) =>
          && claims == token.(version := claims.version) && claims.version.Some?
          && RunRequest(old(View()), request, clock, k) == RunTask(View(), AfterConsuming(ledger, token, claims, purpose), clock, k')
    {
      hide RunTask, TaskStep, CheckGeneration, OutlivesRevocation, RevokeRefreshTokens, Issue;
      var request := if purpose.ToRotate? then Rotate(token) else LogOut(token);
      var now := clock(k);
      NextArrived(View(), request, clock, k);
      k' := k + 1;
      if Central(token) !in ledger.root || !token.typ.RefreshToken?
         || !(token.exp > now || (token.exp == now && exactExpiry))
      {
        Finished(View(), Rejected, clock, k');
        return Err(AuthenticationRequired), k';
      }
      NextReadVersion(View(), token, purpose, clock, k');
      k' := k' + 1;
      if token.sub !in users || !users[token.sub].active {
        Finished(View(), Rejected, clock, k');
        return Err(AuthenticationRequired), k';
      }
      var before := users[token.sub].version;
      var goal := Spend(token, before, purpose);
      var ok;
      ok, k' := VerifyUserSession(goal, clock, k');
      if !ok {
        return Err(AuthenticationRequired), k';
      }
      NextReady(View(), goal, clock, k');
      now := clock(k');
      k' := k' + 1;
      if token in refreshTokens && refreshTokens[token].revokedAt.None? && refreshTokens[token].expiresAt > now {
        refreshTokens := refreshTokens[token := refreshTokens[token].(revokedAt := Some(now))];
        return Ok(token.(version := Some(UnwrapOr(token.version, before)))), k';
      }
      NextReplayLookup(View(), token, clock, k');
      k' := k' + 1;
      if token in refreshTokens {
        var _, k2 := RevokeAllUserTokens(refreshTokens[token].user, Rejected, clock, k');
        k' := k2;
      } else {
        Finished(View(), Rejected, clock, k');
      }
      r := Err(AuthenticationRequired);
    }

    method RotateTokenPair(token: Claims, clock: Clock, k: nat) returns (r: Result<TokenPair, AppError>, k': nat)
      modifies this
      ensures RunRequest(old(View()), Rotate(token), clock, k) == (View(), PairOutcome(r), k')
    {
      hide RunTask;
      var consumed;
      consumed, k' := ConsumeRefreshToken(token, ToRotate, clock, k);
      if consumed.Err? {
        return Err(consumed.error), k';
      }
      var claims := consumed.value;
      var m := Minting(claims.sub, Min(claims.Deadline(), claims.exp), claims.version, claims.AuthenticatedAt(),
                       RootOf(ledger, Central(token)), Some(token));
      NextStatement(View(), LoadUser(m), clock, k');
      k' := k' + 1;
      if claims.sub !in users {
        Finished(View(), Rejected, clock, k');
        return Err(AuthenticationRequired), k';
      }
      r, k' := GenerateTokenPairForSession(m, clock, k');
    }

    method LogOutWith(token: Claims, clock: Clock, k: nat) returns (r: Result<(), AppError>, k': nat)
      modifies this
      ensures RunRequest(old(View()), LogOut(token), clock, k)
           == (View(), if r.Ok? then Revoked else ErrorOutcome(r.error), k')
    {
      hide RunTask;
      var consumed;
      consumed, k' := ConsumeRefreshToken(token, ToLogOut, clock, k);
      if consumed.Err? {
        return Err(consumed.error), k';
      }
      var ok;
      ok, k' := RevokeUserAccessTokens(token.sub, Revoked, clock, k');
      r := if ok then Ok(()) else Err(InternalError);
    }

    /** One write transaction: answer from the retry window, or rotate and save the retry. */
    method RotateBrowserTokenPair(token: Claims, clock: Clock) returns (r: Result<TokenPair, AppError>)
      modifies this
      ensures RotateBrowser(old(View()), token, clock) == (View(), PairOutcome(r))
    {
      hide RunTask;
      var begin := View();
      var now := clock(0);
      if RetryOpen(begin.db, token, now) {
        var pair := refreshTokens[token].retryPair.value;
        ghost var first := pair;
        var (k, hops) := (1, 0);
        while hops < RETRY_HOPS
          invariant 0 <= hops <= RETRY_HOPS && View() == begin
          invariant FollowRetry(begin, first, now, clock, 1, RETRY_HOPS)
                 == FollowRetry(begin, pair, now, clock, k, RETRY_HOPS - hops)
        {
          var ok, k' := VerifyAccessToken(pair.access, clock, k);
          if !ok || pair.refresh !in refreshTokens || refreshTokens[pair.refresh].expiresAt <= now {
            return Err(AuthenticationRequired);
          }
          var row := refreshTokens[pair.refresh];
          if row.revokedAt.None? {
            return Ok(pair);
          }
          if row.retryUntil.None? || row.retryPair.None? || row.retryUntil.value <= now {
            return Err(AuthenticationRequired);
          }
          pair, k, hops := row.retryPair.value, k', hops + 1;
        }
        return Err(AuthenticationRequired);
      }

      var k: nat;
      r, k := RotateTokenPair(token, clock, 1);
      match r
      case Ok(pair) =>
        Load(ForgetRetries(SaveRetry(View().db, token, now + RETRY_WINDOW, pair), now));
      case Err(AuthenticationRequired) =>
      case Err(InternalError) =>
        // The transaction is dropped, which rolls it back.
        Load(begin.db);
        ledger := begin.hist;
    }

    /**
    Rows go exactly when they have expired, and a retry pair exactly when its window has closed. From
    `now` on, no token is less spendable, no retry less open and no handoff less redeemable for it.
    */
    method SweepExpiredSessions(now: int)
      modifies this
      ensures forall t :: t in refreshTokens <==> t in old(refreshTokens) && old(refreshTokens)[t].expiresAt > now
      ensures forall t :: t in refreshTokens ==>
        var row := old(refreshTokens)[t];
        refreshTokens[t] == if row.retryUntil.Some? && row.retryUntil.value <= now then row.(retryPair := None) else row
      ensures forall t, later :: now <= later ==>
        && Spendable(View().db, t, later) == Spendable(old(View()).db, t, later)
        && RetryOpen(View().db, t, later) == RetryOpen(old(View()).db, t, later)
      ensures forall id, later :: now <= later ==>
        HandoffOpen(View().db, id, later) == HandoffOpen(old(View()).db, id, later)
      ensures forall id :: id in handoffs ==> id in old(handoffs) && handoffs[id] == old(handoffs)[id]
      ensures View() == old(View()).(
                db := DeleteExpiredHandoffs(DeleteExpiredRefresh(ForgetRetries(old(View()).db, now), now), now))
    {
      refreshTokens := map t | t in refreshTokens :: ForgetRow(refreshTokens[t], now);
      refreshTokens := map t | t in refreshTokens && refreshTokens[t].expiresAt > now :: refreshTokens[t];
      handoffs := map id | id in handoffs && handoffs[id].expiresAt > now :: handoffs[id];
    }

    /** A code is kept for the retention time after it expires, so none redeemable since then is lost. */
    method SweepExpiredCodes(now: int)
      modifies this
      ensures forall id :: id in codes <==> id in old(codes) && now <= old(codes)[id].expiresAt + CODE_RETENTION
      ensures forall id :: id in codes ==> codes[id] == old(codes)[id]
      ensures forall id, reading :: now - CODE_RETENTION <= reading ==>
        (id in codes && Redeemable(codes[id], reading) <==> id in old(codes) && Redeemable(old(codes)[id], reading))
      ensures View() == old(View()).(db := DeleteExpiredCodes(old(View()).db, now))
    {
      var cutoff := now - CODE_RETENTION;
      codes := map id | id in codes && !(codes[id].expiresAt < cutoff) :: codes[id];
    }

    // -------------------------------------------------------------------------------------------
    // Forward-auth handoffs
    // -------------------------------------------------------------------------------------------

    method IssueForwardHandoff(parent: Claims, application: nat, origin: string, state: string, clock: Clock, k: nat)
      returns (r: Result<Handoff, AppError>, k': nat)
      modifies this
      ensures RunRequest(old(View()), IssueHandoff(parent, application, origin, state), clock, k)
           == (View(), if r.Ok? then HandedOff(r.value) else ErrorOutcome(r.error), k')
    {
      hide RunTask, TaskStep, ValidState, CheckGeneration, OutlivesRevocation, SessionHolds, GrantStep;
      NextArrived(View(), IssueHandoff(parent, application, origin, state), clock, k);
      k' := k + 1;
      if !ValidState(state) || Central(parent) !in ledger.root || !parent.typ.AccessToken?
         || parent.Deadline() <= clock(k)
      {
        Finished(View(), Rejected, clock, k');
        return Err(AuthenticationRequired), k';
      }
      var goal := OpenHandoff(parent, application, origin, state);
      var ok;
      ok, k' := VerifyUserSession(goal, clock, k');
      if !ok {
        return Err(AuthenticationRequired), k';
      }
      NextReady(View(), goal, clock, k');
      var now := clock(k');
      k' := k' + 1;
      var exp := Min(parent.Deadline(), now + HANDOFF_LIFETIME);
      NextPurgeHandoffs(View(), goal, exp, clock, k');
      now := clock(k');
      k' := k' + 1;
      handoffs := map id | id in handoffs && handoffs[id].expiresAt > now :: handoffs[id];
      r, k' := InsertHandoffRow(goal, exp, clock, k');
    }

    /** The insert that ends `issue_handoff`. */
    method InsertHandoffRow(goal: Goal, exp: int, clock: Clock, k: nat) returns (r: Result<Handoff, AppError>, k': nat)
      requires goal.OpenHandoff?
      modifies this
      ensures RunTask(old(View()), InsertHandoff(goal, exp), clock, k)
           == (View(), if r.Ok? then HandedOff(r.value) else ErrorOutcome(r.error), k')
    {
      hide RunTask, TaskStep;
      var parent := goal.parent;
      NextInsertHandoff(View(), goal, exp, clock, k);
      k' := k + 1;
      if parent.sub !in users {
        Finished(View(), Failed, clock, k');
        return Err(InternalError), k';
      }
      var handoff := Handoff(
        ForwardSession(parent.sub, goal.application, goal.origin, parent.iat, parent.Deadline(), parent.version),
        Sha256(goal.state), ledger.next, goal.origin, exp);
      handoffs := handoffs[handoff.jti := HandoffRow(parent.sub, exp)];
      ledger := Issue(ledger, HandoffToken(handoff), RootOf(ledger, Central(parent)));
      Finished(View(), HandedOff(handoff), clock, k');
      r := Ok(handoff);
    }

    method RedeemForwardHandoff(handoff: Handoff, origin: string, state: string, clock: Clock, k: nat)
      returns (r: Result<ForwardSession, AppError>, k': nat)
      modifies this
      ensures RunRequest(old(View()), Redeem(handoff, origin, state), clock, k)
           == (View(), if r.Ok? then Redeemed(r.value) else ErrorOutcome(r.error), k')
    {
      hide RunTask;
      var now := clock(k);
      NextArrived(View(), Redeem(handoff, origin, state), clock, k);
      k' := k + 1;
      if HandoffToken(handoff) !in ledger.root || !(handoff.exp > now || (handoff.exp == now && exactExpiry))
         || handoff.origin != origin || !ValidState(state) || handoff.stateHash != Sha256(state)
         || handoff.session.origin != origin || handoff.session.exp <= now
      {
        Finished(View(), Rejected, clock, k');
        return Err(AuthenticationRequired), k';
      }
      var goal := RedeemHandoff(handoff);
      var ok;
      ok, k' := VerifyUserSession(goal, clock, k');
      if !ok {
        return Err(AuthenticationRequired), k';
      }
      NextReady(View(), goal, clock, k');
      now := clock(k');
      k' := k' + 1;
      if handoff.jti !in handoffs || handoffs[handoff.jti].user != handoff.session.sub
         || handoffs[handoff.jti].expiresAt <= now
      {
        Finished(View(), Rejected, clock, k');
        return Err(AuthenticationRequired), k';
      }
      handoffs := handoffs - {handoff.jti};
      var hist := Issue(ledger, ForwardToken(handoff.session, handoff.jti), RootOf(ledger, HandoffToken(handoff)));
      ledger := hist.(redeemed := hist.redeemed + [handoff]);
      Finished(View(), Redeemed(handoff.session), clock, k');
      r := Ok(handoff.session);
    }

    method VerifyForwardSession(session: ForwardSession, redeemedFrom: nat, origin: string, clock: Clock, k: nat)
      returns (ok: bool, k': nat)
      ensures RunRequest(View(), VerifyForward(session, redeemedFrom, origin), clock, k)
           == (View(), if ok then Accepted else Rejected, k')
    {
      hide RunTask;
      NextStatement(View(), Arrived(VerifyForward(session, redeemedFrom, origin)), clock, k);
      k' := k + 1;
      if ForwardToken(session, redeemedFrom) !in ledger.root || session.origin != origin || session.exp <= clock(k) {
        Finished(View(), Rejected, clock, k');
        return false, k';
      }
      var goal := AcceptForward(session, redeemedFrom);
      ok, k' := VerifyUserSession(goal, clock, k');
      if ok {
        NextStatement(View(), Ready(goal), clock, k');
        k' := k' + 1;
        Finished(View(), Accepted, clock, k');
      }
    }

    // -------------------------------------------------------------------------------------------
    // Authorization codes
    // -------------------------------------------------------------------------------------------

    /**
    The guarded update, on whatever other requests have left since the row was read. It wins exactly
    when the code is still unspent and unexpired, and nobody wins it a second time.
    */
    method TakeAuthorizationCode(request: Request, row: CodeRow, now: int) returns (won: bool)
      requires request.ExchangeCode?
      modifies this
      ensures TaskStep(old(View()), TakeCode(request, row, now), now)
           == (View(), if won then Check(MintOidc(request.code, row)) else Done(Rejected))
      ensures won <==> request.code in old(codes) && Redeemable(old(codes)[request.code], now)
      ensures request.code in codes ==> forall reading :: won ==> !Redeemable(codes[request.code], reading)
      ensures !won ==> View() == old(View())
      ensures ledger.root == old(ledger.root)
    {
      var code := request.code;
      won := code in codes && codes[code].consumedAt.None? && codes[code].expiresAt > now;
      if won {
        codes := codes[code := codes[code].(consumedAt := Some(now))];
        ledger := ledger.(exchanged := ledger.exchanged +
          [Exchange(code, row, request.application, request.redirectUri, request.verifier)]);
      }
    }

    /** `codes::consume`: the row, if it was unspent, unexpired and bound to this request. */
    method ConsumeAuthorizationCode(request: Request, clock: Clock, k: nat) returns (r: Option<CodeRow>, k': nat)
      requires request.ExchangeCode?
      modifies this
      ensures RunRequest(old(View()), request, clock, k)
           == if r.Some? then RunTask(View(), Check(MintOidc(request.code, r.value)), clock, k')
              else (View(), Rejected, k')
      ensures ledger.root == old(ledger.root)
    {
      hide RunTask, VerifyPkce;
      NextStatement(View(), Arrived(request), clock, k);
      NextStatement(View(), SelectCode(request), clock, k + 1);
      k' := k + 2;
      var (code, now) := (request.code, clock(k + 1));
      if code !in codes {
        Finished(View(), Rejected, clock, k');
        return None, k';
      }
      var row := codes[code];
      if row.consumedAt.Some? || row.expiresAt <= now || row.application != request.application
         || row.redirectUri != request.redirectUri || row.challengeMethod != S256
         || !VerifyPkce(request.verifier, row.challenge)
      {
        Finished(View(), Rejected, clock, k');
        return None, k';
      }
      NextStatement(View(), TakeCode(request, row, now), clock, k');
      k' := k' + 1;
      var won := TakeAuthorizationCode(request, row, now);
      if !won {
        Finished(View(), Rejected, clock, k');
        return None, k';
      }
      r := Some(row);
    }

    /**
    The token endpoint after client authentication. A redirect URI the application no longer lists, or
    a user it no longer admits, is refused with nothing signed, though the code is spent.
    */
    method ExchangeAuthorizationCode(request: Request, uriListed: bool, admitted: bool, clock: Clock, k: nat)
      returns (r: Result<(IdClaims, OidcClaims), AppError>, k': nat)
      requires request.ExchangeCode?
      modifies this
      ensures uriListed && admitted ==>
        RunRequest(old(View()), request, clock, k)
        == (View(), if r.Ok? then OidcMinted(r.value.0, r.value.1) else ErrorOutcome(r.error), k')
      ensures !(uriListed && admitted) ==> r.Err? && ledger.root == old(ledger.root)
    {
      hide RunTask;
      var consumed;
      consumed, k' := ConsumeAuthorizationCode(request, clock, k);
      if consumed.None? {
        return Err(AuthenticationRequired), k';
      }
      var row := consumed.value;
      var goal := MintOidc(request.code, row);
      var ok;
      ok, k' := VerifyUserSession(goal, clock, k');
      if !ok || !uriListed {
        return Err(AuthenticationRequired), k';
      }
      NextStatement(View(), Ready(goal), clock, k');
      var now := clock(k');
      k' := k' + 1;
      if row.user !in users || !users[row.user].active {
        Finished(View(), Rejected, clock, k');
        return Err(AuthenticationRequired), k';
      }
      if !admitted {
        return Err(AuthenticationRequired), k';
      }
      var exp := now + OIDC_TOKEN_LIFETIME;
      var idToken := IdClaims(row.user, row.application, Min(exp, UnwrapOr(row.sessionExp, exp)), now, row.authTime,
                              row.version);
      var login := RootOf(ledger, AuthorizationCode(request.code, row));
      ledger := Issue(ledger, IdToken(idToken, request.code), login);
      NextStatement(View(), MintOidcAccess(request.code, row, idToken), clock, k');
      exp := clock(k') + OIDC_TOKEN_LIFETIME;
      var access := OidcClaims(row.user, row.application, Min(exp, UnwrapOr(row.sessionExp, exp)), clock(k'),
                               ledger.next, row.version);
      ledger := Issue(ledger, OidcAccess(access), RootOf(ledger, AuthorizationCode(request.code, row)));
      k' := k' + 1;
      Finished(View(), OidcMinted(idToken, access), clock, k');
      r := Ok((idToken, access));
    }

    /**
    The authorization endpoint on a session cookie: verify the session and its user, then issue to a
    user whom the application admits. A user it does not admit gets no code, and nothing changes.
    */
    method IssueAuthorizationCode(parent: Claims, application: nat, redirectUri: string, challenge: Digest,
                                  admitted: bool, clock: Clock, k: nat)
      returns (r: Result<nat, AppError>, k': nat)
      modifies this
      ensures admitted ==>
        RunRequest(old(View()), Authorize(parent, application, redirectUri, challenge), clock, k)
        == (View(), if r.Ok? then CodeIssued(r.value) else ErrorOutcome(r.error), k')
      ensures !admitted ==> r.Err? && View() == old(View())
    {
      hide RunTask, TaskStep, CheckGeneration, OutlivesRevocation, SessionHolds, Shaped, GrantStep;
      var request := Authorize(parent, application, redirectUri, challenge);
      NextArrived(View(), request, clock, k);
      k' := k + 1;
      if Central(parent) !in ledger.root || !parent.typ.AccessToken? || parent.exp <= clock(k)
         || parent.Deadline() <= clock(k)
      {
        Finished(View(), Rejected, clock, k');
        return Err(AuthenticationRequired), k';
      }
      var goal := OpenCode(parent, application, redirectUri, challenge);
      var ok;
      ok, k' := VerifyUserSession(goal, clock, k');
      if !ok {
        return Err(AuthenticationRequired), k';
      }
      NextReady(View(), goal, clock, k');
      k' := k' + 1;
      if parent.sub !in users {
        Finished(View(), Rejected, clock, k');
        return Err(AuthenticationRequired), k';
      }
      NextLoadActive(View(), request, clock, k');
      k' := k' + 1;
      if !users[parent.sub].active {
        Finished(View(), Rejected, clock, k');
        return Err(AuthenticationRequired), k';
      }
      if !admitted {
        return Err(AuthenticationRequired), k';
      }
      NextInsertCode(View(), request, clock, k');
      var now := clock(k');
      k' := k' + 1;
      if parent.sub !in users {
        Finished(View(), Failed, clock, k');
        return Err(InternalError), k';
      }
      var row := CodeRow(application, parent.sub, redirectUri, challenge, S256, parent.AuthenticatedAt(),
                         Min(parent.Deadline(), now + AUTHORIZATION_CODE_LIFETIME), None, parent.version,
                         Some(parent.Deadline()));
      var id := ledger.next;
      codes := codes[id := row];
      ledger := Issue(ledger, AuthorizationCode(id, row), RootOf(ledger, Central(parent)));
      Finished(View(), CodeIssued(id), clock, k');
      r := Ok(id);
    }
  }

  /** What remains of a request whose refresh token has just been spent. */
  function AfterConsuming(h: History, token: Claims, claims: Claims, purpose: Purpose): Task {
    match purpose
    case ToLogOut => Bump(token.sub, Revoked)
    case ToRotate =>
      LoadUser(Minting(claims.sub, Min(claims.Deadline(), claims.exp), claims.version, claims.AuthenticatedAt(),
                       RootOf(h, Central(token)), Some(token)))
  }
}
