/**
Background sweeps are invisible: however many are inserted into a run, every statement made at a
strictly later instant sees the same, so every request ends the same way and revokes the same
things.
*/
module CredentialSweep {
  import opened Wrappers
  import opened CredentialStore
  import opened CredentialMachine
  import opened CredentialInvariant
  import opened CredentialSteps
  import opened CredentialRuns
  import CredentialTheorems

  /** What sweeps have done so far: their latest reading, and the tokens and codes whose rows they deleted. */
  datatype Past = Past(until: int, tokens: set<Claims>, codes: set<nat>)

  /** Rows that differ at most in a retry pair whose window closed by `t`. */
  predicate SameRow(r1: RefreshRow, r2: RefreshRow, t: int) {
    || r1 == r2
    || (&& r1.retryUntil.Some? && r1.retryUntil.value <= t
        && r1.(retryPair := None) == r2.(retryPair := None))
  }

  /** The rows on the swept side are those of the other, save expired ones that a sweep deleted. */
  ghost predicate SameRefresh(m1: map<Claims, RefreshRow>, m2: map<Claims, RefreshRow>, past: Past) {
    && (forall token :: token in m2 ==> token in m1 && SameRow(m1[token], m2[token], past.until))
    && (forall token :: token in m1 && token !in m2 ==>
          m1[token].expiresAt <= past.until && token.exp <= past.until && token in past.tokens)
  }

  predicate SameHandoffs(m1: map<nat, HandoffRow>, m2: map<nat, HandoffRow>, past: Past) {
    && (forall id :: id in m1 && m1[id].expiresAt > past.until ==> id in m2 && m2[id] == m1[id])
    && (forall id :: id in m2 && m2[id].expiresAt > past.until ==> id in m1 && m1[id] == m2[id])
  }

  /** Codes are kept for a while after they expire. */
  predicate SameCodes(m1: map<nat, CodeRow>, m2: map<nat, CodeRow>, past: Past) {
    && (forall id :: id in m2 ==> id in m1 && m1[id] == m2[id])
    && (forall id :: id in m1 && id !in m2 ==> m1[id].expiresAt < past.until - CODE_RETENTION && id in past.codes)
  }

  /** The databases agree on everything a request made after the sweeps can see. */
  ghost predicate SameAfter(s1: State, s2: State, past: Past) {
    && s1.hist == s2.hist && s1.exactExpiry == s2.exactExpiry
    && s1.db.users == s2.db.users
    && s1.db.sessionExpiry == s2.db.sessionExpiry
    && s1.db.revocations == s2.db.revocations
    && SameRefresh(s1.db.refresh, s2.db.refresh, past)
    && SameHandoffs(s1.db.handoffs, s2.db.handoffs, past)
    && SameCodes(s1.db.codes, s2.db.codes, past)
  }

  /** The next statement is not the lookup of a token, nor the update of an old code, whose row a sweep deleted. */
  predicate Unaffected(task: Task, past: Past) {
    match task
    case ReplayLookup(token) => token !in past.tokens || token.exp > past.until
    case TakeCode(request, _, now) =>
      request.ExchangeCode? ==> request.code !in past.codes || now >= past.until - CODE_RETENTION
    case _ => true
  }

  /** It concerns no refresh token expired by `t`, nor a code read longer before `t` than codes are kept. */
  predicate StartedAfter(task: Task, t: int) {
    match task
    case ReadVersion(token, _) => token.exp > t
    case Check(goal) => goal.Spend? ==> goal.token.exp > t
    case CheckLegacy(goal) => goal.Spend? ==> goal.token.exp > t
    case Ready(goal) => goal.Spend? ==> goal.token.exp > t
    case ReplayLookup(token) => token.exp > t
    case TakeCode(_, _, now) => now >= t - CODE_RETENTION
    case _ => true
  }

  /** A request that has started after `t` stays so, and is unaffected by sweeps until then. */
  lemma StartedStays(s: State, task: Task, t: int, now: int)
    requires Shaped(task) && !task.Done? && StartedAfter(task, t) && now > t
    ensures StartedAfter(TaskStep(s, task, now).1, t)
  {
    hide Perform, CheckGeneration, OutlivesRevocation, CodeBindingsHold;
    if task.Ready? { PerformStaysStarted(s, task.goal, t, now); }
  }

  lemma PerformStaysStarted(s: State, goal: Goal, t: int, now: int)
    requires StartedAfter(Ready(goal), t)
    ensures StartedAfter(Perform(s, goal, now).1, t)
  {
  }

  predicate RowsExpireWithTokens(db: Database) {
    forall token :: token in db.refresh ==> db.refresh[token].expiresAt == token.exp
  }

  // ---------------------------------------------------------------------------------------------
  // Each statement sees and leaves the same
  // ---------------------------------------------------------------------------------------------

  lemma SpendSame(m1: map<Claims, RefreshRow>, m2: map<Claims, RefreshRow>, token: Claims, past: Past, now: int)
    requires SameRefresh(m1, m2, past)
    ensures token in m2 ==> token in m1
    ensures token in m1 && token !in m2 ==> m1[token].expiresAt <= past.until && token in past.tokens
                                            && token.exp <= past.until
    ensures token in m2 ==>
      && m1[token].user == m2[token].user && m1[token].revokedAt == m2[token].revokedAt
      && m1[token].expiresAt == m2[token].expiresAt
      && SameRefresh(m1[token := m1[token].(revokedAt := Some(now))], m2[token := m2[token].(revokedAt := Some(now))], past)
  {
  }

  lemma RevokeSame(db1: Database, db2: Database, user: UserId, past: Past, now: int)
    requires SameRefresh(db1.refresh, db2.refresh, past)
    ensures SameRefresh(RevokeRefreshTokens(db1, user, now).refresh, RevokeRefreshTokens(db2, user, now).refresh, past)
  {
  }

  lemma InsertSame(m1: map<Claims, RefreshRow>, m2: map<Claims, RefreshRow>, token: Claims, row: RefreshRow, past: Past)
    requires SameRefresh(m1, m2, past)
    ensures SameRefresh(m1[token := row], m2[token := row], past)
  {
  }

  lemma PurgeSame(db1: Database, db2: Database, past: Past, now: int)
    requires SameHandoffs(db1.handoffs, db2.handoffs, past)
    ensures SameHandoffs(DeleteExpiredHandoffs(db1, now).handoffs, DeleteExpiredHandoffs(db2, now).handoffs, past)
  {
  }

  lemma RedeemSame(m1: map<nat, HandoffRow>, m2: map<nat, HandoffRow>, id: nat, past: Past, now: int)
    requires SameHandoffs(m1, m2, past) && now > past.until
    ensures id in m1 && m1[id].expiresAt > now <==> id in m2 && m2[id].expiresAt > now
    ensures id in m1 && m1[id].expiresAt > now ==> m1[id] == m2[id]
    ensures SameHandoffs(m1 - {id}, m2 - {id}, past)
  {
  }

  lemma PerformSees(s1: State, s2: State, goal: Goal, past: Past, now: int)
    requires SameAfter(s1, s2, past) && now > past.until
    ensures
      var (s1', task1) := Perform(s1, goal, now);
      var (s2', task2) := Perform(s2, goal, now);
      task1 == task2 && SameAfter(s1', s2', past)
  {
    if goal.Spend? {
      SpendSees(s1, s2, goal, past, now);
    } else if goal.RedeemHandoff? {
      RedeemSees(s1, s2, goal, past, now);
    } else {
      hide SameRefresh, SameHandoffs, SameCodes;
    }
  }

  lemma SpendSees(s1: State, s2: State, goal: Goal, past: Past, now: int)
    requires SameAfter(s1, s2, past) && now > past.until && goal.Spend?
    ensures
      var (s1', task1) := Perform(s1, goal, now);
      var (s2', task2) := Perform(s2, goal, now);
      task1 == task2 && SameAfter(s1', s2', past)
  {
    hide SameRefresh, SameHandoffs, SameCodes;
    SpendSame(s1.db.refresh, s2.db.refresh, goal.token, past, now);
  }

  lemma RedeemSees(s1: State, s2: State, goal: Goal, past: Past, now: int)
    requires SameAfter(s1, s2, past) && now > past.until && goal.RedeemHandoff?
    ensures
      var (s1', task1) := Perform(s1, goal, now);
      var (s2', task2) := Perform(s2, goal, now);
      task1 == task2 && SameAfter(s1', s2', past)
  {
    hide SameRefresh, SameHandoffs, SameCodes;
    RedeemSame(s1.db.handoffs, s2.db.handoffs, goal.handoff.jti, past, now);
  }

  lemma InsertRefreshSees(s1: State, s2: State, m: Minting, access: Claims, past: Past, now: int)
    requires SameAfter(s1, s2, past)
    ensures
      var (s1', task1) := InsertRefresh(s1, m, access, now);
      var (s2', task2) := InsertRefresh(s2, m, access, now);
      task1 == task2 && SameAfter(s1', s2', past)
  {
    hide SameRefresh, SameHandoffs, SameCodes;
    var token := Claims(m.user, RefreshToken, m.expiresAt, now, s1.hist.next, Some(m.expiresAt), m.version,
                        Some(m.authTime));
    InsertSame(s1.db.refresh, s2.db.refresh, token, RefreshRow(m.user, m.expiresAt, now, None, None, None), past);
  }

  lemma ConsumeCodeSees(s1: State, s2: State, request: Request, row: CodeRow, past: Past, now: int)
    requires SameAfter(s1, s2, past) && request.ExchangeCode?
    requires request.code !in past.codes || now >= past.until - CODE_RETENTION
    ensures
      var (s1', task1) := ConsumeCode(s1, request, row, now);
      var (s2', task2) := ConsumeCode(s2, request, row, now);
      task1 == task2 && SameAfter(s1', s2', past)
  {
    hide SameRefresh, SameHandoffs;
  }

  lemma StoreCodeSees(s1: State, s2: State, request: Request, past: Past, now: int)
    requires SameAfter(s1, s2, past) && request.Authorize?
    ensures
      var (s1', task1) := StoreCode(s1, request, now);
      var (s2', task2) := StoreCode(s2, request, now);
      task1 == task2 && SameAfter(s1', s2', past)
  {
    hide SameRefresh, SameHandoffs;
  }

  lemma StoreHandoffSees(s1: State, s2: State, goal: Goal, exp: int, past: Past)
    requires SameAfter(s1, s2, past) && goal.OpenHandoff?
    ensures
      var (s1', task1) := StoreHandoff(s1, goal, exp);
      var (s2', task2) := StoreHandoff(s2, goal, exp);
      task1 == task2 && SameAfter(s1', s2', past)
  {
    hide SameRefresh, SameCodes;
  }

  lemma SelectCodeSees(s1: State, s2: State, request: Request, past: Past, now: int)
    requires SameAfter(s1, s2, past) && now > past.until && request.ExchangeCode?
    ensures
      var (s1', task1) := TaskStep(s1, SelectCode(request), now);
      s1' == s1 && TaskStep(s2, SelectCode(request), now) == (s2, task1)
  {
    hide SameRefresh, SameHandoffs, CodeBindingsHold;
  }

  lemma CodeStatementsSee(s1: State, s2: State, task: Task, past: Past, now: int)
    requires SameAfter(s1, s2, past) && now > past.until && Shaped(task) && Unaffected(task, past)
    requires task.SelectCode? || task.TakeCode? || task.InsertCode? || task.InsertHandoff?
    ensures
      var (s1', task1) := TaskStep(s1, task, now);
      var (s2', task2) := TaskStep(s2, task, now);
      task1 == task2 && SameAfter(s1', s2', past)
  {
    hide SameAfter, ConsumeCode, StoreCode, StoreHandoff;
    match task
    case SelectCode(request) => SelectCodeSees(s1, s2, request, past, now);
    case TakeCode(request, row, reading) => ConsumeCodeSees(s1, s2, request, row, past, reading);
    case InsertCode(request) => StoreCodeSees(s1, s2, request, past, now);
    case InsertHandoff(goal, exp) => StoreHandoffSees(s1, s2, goal, exp, past);
  }

  lemma StepSees(s1: State, s2: State, task: Task, past: Past, now: int)
    requires SameAfter(s1, s2, past) && now > past.until && Shaped(task) && !task.Done? && Unaffected(task, past)
    ensures
      var (s1', task1) := TaskStep(s1, task, now);
      var (s2', task2) := TaskStep(s2, task, now);
      task1 == task2 && SameAfter(s1', s2', past)
  {
    if task.SelectCode? || task.TakeCode? || task.InsertCode? || task.InsertHandoff? {
      CodeStatementsSee(s1, s2, task, past, now);
    } else if task.Arrived? {
      ArrivalSees(s1, s2, task.request, past, now);
    } else {
      OtherStatementsSee(s1, s2, task, past, now);
    }
  }

  lemma ArrivalSees(s1: State, s2: State, request: Request, past: Past, now: int)
    requires SameAfter(s1, s2, past) && now > past.until
    ensures var task1 := Admit(s1, request, now); task1 == Admit(s2, request, now)
  {
    hide SameRefresh, SameHandoffs, SameCodes, ValidState;
  }

  lemma OtherStatementsSee(s1: State, s2: State, task: Task, past: Past, now: int)
    requires SameAfter(s1, s2, past) && now > past.until && Shaped(task) && !task.Done? && Unaffected(task, past)
    requires !task.Arrived? && !task.SelectCode? && !task.TakeCode? && !task.InsertCode? && !task.InsertHandoff?
    ensures
      var (s1', task1) := TaskStep(s1, task, now);
      var (s2', task2) := TaskStep(s2, task, now);
      task1 == task2 && SameAfter(s1', s2', past)
  {
    hide SameRefresh, SameHandoffs, SameCodes, Perform, InsertRefresh;
    match task
    case Ready(goal) =>
      hide SameAfter;
      PerformSees(s1, s2, goal, past, now);
    case MintRefresh(m, access) =>
      hide SameAfter;
      InsertRefreshSees(s1, s2, m, access, past, now);
      assert InsertRefresh(s1, m, access, now).1.Done?;
    case ReplayLookup(token) => SpendSame(s1.db.refresh, s2.db.refresh, token, past, now);
    case PurgeHandoffs(_, _) => PurgeSame(s1.db, s2.db, past, now);
    case RevokeRefresh(user, _) => RevokeSame(s1.db, s2.db, user, past, now);
    case LoadActive(_) => SigningStatementsSee(s1, s2, task, past, now);
    case MintOidcAccess(_, _, _) => SigningStatementsSee(s1, s2, task, past, now);
    case MintAccess(_) => SigningStatementsSee(s1, s2, task, past, now);
    case LoginGeneration(_, _) => SigningStatementsSee(s1, s2, task, past, now);
    case _ => PlainStatementsSee(s1, s2, task, past, now);
  }

  lemma SigningStatementsSee(s1: State, s2: State, task: Task, past: Past, now: int)
    requires SameAfter(s1, s2, past) && Shaped(task)
    requires task.LoadActive? || task.MintOidcAccess? || task.MintAccess? || task.LoginGeneration?
    ensures
      var (s1', task1) := TaskStep(s1, task, now);
      var (s2', task2) := TaskStep(s2, task, now);
      task1 == task2 && SameAfter(s1', s2', past)
  {
    hide SameRefresh, SameHandoffs, SameCodes;
  }

  /** Statements that read and write none of the swept tables. */
  lemma PlainStatementsSee(s1: State, s2: State, task: Task, past: Past, now: int)
    requires SameAfter(s1, s2, past) && now > past.until && Shaped(task) && !task.Done? && Unaffected(task, past)
    requires !task.Arrived? && !task.SelectCode? && !task.TakeCode? && !task.InsertCode? && !task.InsertHandoff?
    requires !task.Ready? && !task.MintRefresh? && !task.ReplayLookup? && !task.PurgeHandoffs? && !task.RevokeRefresh?
    requires !task.LoadActive? && !task.MintOidcAccess? && !task.MintAccess? && !task.LoginGeneration?
    ensures
      var (s1', task1) := TaskStep(s1, task, now);
      var (s2', task2) := TaskStep(s2, task, now);
      task1 == task2 && SameAfter(s1', s2', past)
  {
    hide SameRefresh, SameHandoffs, SameCodes, Perform, InsertRefresh, GrantStep, OpenSession, SignAccess;
  }

  // ---------------------------------------------------------------------------------------------
  // Whole requests, browser rotations and sweeps
  // ---------------------------------------------------------------------------------------------

  ghost predicate Later(clock: Clock, t: int) {
    forall k: nat :: clock(k) > t
  }

  lemma {:induction false} RunTaskSees(s1: State, s2: State, task: Task, past: Past, clock: Clock, k: nat)
    requires SameAfter(s1, s2, past) && Later(clock, past.until) && Shaped(task) && StartedAfter(task, past.until)
    ensures
      var (s1', o1, k1) := RunTask(s1, task, clock, k);
      var (s2', o2, k2) := RunTask(s2, task, clock, k);
      o1 == o2 && k1 == k2 && SameAfter(s1', s2', past)
    decreases Rank(task)
  {
    hide SameAfter, TaskStep;
    if !task.Done? {
      assert clock(k) > past.until;
      StartedStays(s1, task, past.until, clock(k));
      StepSees(s1, s2, task, past, clock(k));
      var (s1', task') := TaskStep(s1, task, clock(k));
      var s2' := TaskStep(s2, task, clock(k)).0;
      RunTaskSees(s1', s2', task', past, clock, k + 1);
    }
  }

  lemma RunRequestSees(s1: State, s2: State, request: Request, past: Past, clock: Clock, k: nat)
    requires SameAfter(s1, s2, past) && Later(clock, past.until)
    ensures
      var (s1', o1, k1) := RunRequest(s1, request, clock, k);
      var (s2', o2, k2) := RunRequest(s2, request, clock, k);
      o1 == o2 && k1 == k2 && SameAfter(s1', s2', past)
  {
    hide SameAfter;
    RunTaskSees(s1, s2, Arrived(request), past, clock, k);
  }

  lemma {:induction false} FollowRetrySees(s1: State, s2: State, pair: TokenPair, past: Past, now: int, clock: Clock,
                                           k: nat, hops: nat)
    requires SameAfter(s1, s2, past) && now > past.until && Later(clock, past.until)
    ensures FollowRetry(s1, pair, now, clock, k, hops) == FollowRetry(s2, pair, now, clock, k, hops)
    decreases hops
  {
    hide RunRequest;
    if hops > 0 {
      RunRequestSees(s1, s2, VerifyAccess(pair.access), past, clock, k);
      var k' := RunRequest(s1, VerifyAccess(pair.access), clock, k).2;
      if pair.refresh in s1.db.refresh && s1.db.refresh[pair.refresh].expiresAt > now {
        var r1 := s1.db.refresh[pair.refresh];
        if r1.retryUntil.Some? && r1.retryUntil.value > now && r1.retryPair.Some? {
          FollowRetrySees(s1, s2, r1.retryPair.value, past, now, clock, k', hops - 1);
        }
      }
    }
  }

  lemma SaveSame(db1: Database, db2: Database, token: Claims, until: int, pair: TokenPair, past: Past)
    requires SameRefresh(db1.refresh, db2.refresh, past) && until > past.until && token.exp > past.until
    ensures SameRefresh(SaveRetry(db1, token, until, pair).refresh, SaveRetry(db2, token, until, pair).refresh, past)
  {
  }

  lemma ForgetSame(db1: Database, db2: Database, past: Past, now: int)
    requires SameRefresh(db1.refresh, db2.refresh, past) && now > past.until
    ensures SameRefresh(ForgetRetries(db1, now).refresh, ForgetRetries(db2, now).refresh, past)
  {
  }

  /** Only a token that is unexpired on arrival is rotated. */
  lemma RotatedWasUnexpired(s: State, token: Claims, clock: Clock)
    ensures RunRequest(s, Rotate(token), clock, 1).1.Minted? ==> token.exp >= clock(1)
  {
    var task := Admit(s, Rotate(token), clock(1));
    assert RunRequest(s, Rotate(token), clock, 1) == RunTask(s, task, clock, 2);
    if token.exp < clock(1) { assert task == Done(Rejected); }
  }

  lemma BrowserSees(s1: State, s2: State, token: Claims, past: Past, clock: Clock)
    requires SameAfter(s1, s2, past) && Later(clock, past.until)
    ensures
      var (s1', o1) := RotateBrowser(s1, token, clock);
      var (s2', o2) := RotateBrowser(s2, token, clock);
      o1 == o2 && SameAfter(s1', s2', past)
  {
    var now := clock(0);
    assert RetryOpen(s1.db, token, now) == RetryOpen(s2.db, token, now);
    if RetryOpen(s1.db, token, now) {
      FollowRetrySees(s1, s2, s1.db.refresh[token].retryPair.value, past, now, clock, 1, RETRY_HOPS);
    } else {
      FreshBrowserSees(s1, s2, token, past, clock);
    }
  }

  lemma FreshBrowserSees(s1: State, s2: State, token: Claims, past: Past, clock: Clock)
    requires SameAfter(s1, s2, past) && Later(clock, past.until)
    requires !RetryOpen(s1.db, token, clock(0)) && !RetryOpen(s2.db, token, clock(0))
    ensures
      var (s1', o1) := RotateBrowser(s1, token, clock);
      var (s2', o2) := RotateBrowser(s2, token, clock);
      o1 == o2 && SameAfter(s1', s2', past)
  {
    hide RunRequest, SameRefresh, RetryOpen;
    RunRequestSees(s1, s2, Rotate(token), past, clock, 1);
    var (s1', o1, _) := RunRequest(s1, Rotate(token), clock, 1);
    var (s2', o2, _) := RunRequest(s2, Rotate(token), clock, 1);
    if o1.Minted? {
      RotatedWasUnexpired(s1, token, clock);
      assert clock(0) > past.until && clock(1) > past.until;
      var until := clock(0) + RETRY_WINDOW;
      SaveSame(s1'.db, s2'.db, token, until, o1.pair, past);
      ForgetSame(SaveRetry(s1'.db, token, until, o1.pair), SaveRetry(s2'.db, token, until, o1.pair), past, clock(0));
    }
  }

  /** The background sweeps, as events. */
  predicate IsSweep(e: Event) {
    e.SweepRetries? || e.SweepRefresh? || e.SweepHandoffs? || e.SweepCodes?
  }

  function Swept(db: Database, e: Event): Database
    requires IsSweep(e)
  {
    match e
    case SweepRetries(now) => ForgetRetries(db, now)
    case SweepRefresh(now) => DeleteExpiredRefresh(db, now)
    case SweepHandoffs(now) => DeleteExpiredHandoffs(db, now)
    case SweepCodes(now) => DeleteExpiredCodes(db, now)
  }

  /** The record after one more event, on the database that is swept. */
  function PastAfter(db: Database, e: Event, past: Past): Past {
    if IsSweep(e) then
      Past(if e.now > past.until then e.now else past.until,
           past.tokens + (db.refresh.Keys - Swept(db, e).refresh.Keys),
           past.codes + (db.codes.Keys - Swept(db, e).codes.Keys))
    else past
  }

  lemma SweepSame(s1: State, s2: State, e: Event, past: Past)
    requires IsSweep(e) && RowsExpireWithTokens(s2.db) && SameAfter(s1, s2, past)
    ensures SameAfter(s1, s2.(db := Swept(s2.db, e)), PastAfter(s2.db, e, past))
  {
    hide SameRefresh, SameHandoffs, SameCodes, Swept;
    SweepSameRefresh(s1.db, s2.db, e, past);
    SweepSameOthers(s1.db, s2.db, e, past);
    SweepKeepsRest(s2.db, e);
  }

  lemma SweepKeepsRest(db: Database, e: Event)
    requires IsSweep(e)
    ensures var db' := Swept(db, e);
      db'.users == db.users && db'.sessionExpiry == db.sessionExpiry && db'.revocations == db.revocations
  {
  }

  lemma SweepSameRefresh(db1: Database, db2: Database, e: Event, past: Past)
    requires IsSweep(e) && RowsExpireWithTokens(db2) && SameRefresh(db1.refresh, db2.refresh, past)
    ensures SameRefresh(db1.refresh, Swept(db2, e).refresh, PastAfter(db2, e, past))
  {
  }

  lemma SweepSameOthers(db1: Database, db2: Database, e: Event, past: Past)
    requires IsSweep(e) && SameHandoffs(db1.handoffs, db2.handoffs, past) && SameCodes(db1.codes, db2.codes, past)
    ensures SameHandoffs(db1.handoffs, Swept(db2, e).handoffs, PastAfter(db2, e, past))
    ensures SameCodes(db1.codes, Swept(db2, e).codes, PastAfter(db2, e, past))
  {
  }

  // ---------------------------------------------------------------------------------------------
  // Runs with sweeps in between
  // ---------------------------------------------------------------------------------------------

  /**
  Statements read the clock strictly later than every sweep before them, and none of them is the
  replay lookup of a token, nor the update of a code read over an hour before, whose row a sweep has
  deleted. `past` is what the sweeps before have done.
  */
  ghost predicate Timely(w: World, events: seq<Event>, past: Past)
    decreases |events|
  {
    events == [] ||
    var e := events[0];
    && (e.Advance? ==> e.now > past.until && (e.pid in w.tasks ==> Unaffected(w.tasks[e.pid], past)))
    && (e.Browser? ==> Later(e.clock, past.until))
    && Timely(Step(w, e), events[1..], PastAfter(w.state.db, e, past))
  }

  function WithoutSweeps(events: seq<Event>): seq<Event>
    decreases |events|
  {
    if events == [] then []
    else if IsSweep(events[0]) then WithoutSweeps(events[1..])
    else [events[0]] + WithoutSweeps(events[1..])
  }

  /** What the browser rotations of a run answer, in order. */
  ghost function BrowserOutcomes(w: World, events: seq<Event>): seq<Outcome>
    decreases |events|
  {
    if events == [] then []
    else
      var e := events[0];
      (if e.Browser? && Monotone(e.clock) then [RotateBrowser(w.state, e.token, e.clock).1] else [])
      + BrowserOutcomes(Step(w, e), events[1..])
  }

  /** The same requests at the same statements, over databases that agree on what they can see. */
  ghost predicate Together(w1: World, w2: World, past: Past) {
    w1.tasks == w2.tasks && SameAfter(w1.state, w2.state, past)
  }

  lemma InvGivesExpiry(s: State, tasks: map<nat, Task>)
    requires Inv(s, tasks)
    ensures RowsExpireWithTokens(s.db)
  {
    PartsOf(s, tasks);
    forall token | token in s.db.refresh ensures s.db.refresh[token].expiresAt == token.exp {
      assert RowFits(s.hist, token, s.db.refresh[token]);
    }
  }

  lemma AdvanceSees(w1: World, w2: World, pid: nat, now: int, past: Past)
    requires Together(w1, w2, past) && now > past.until && (pid in w1.tasks ==> Unaffected(w1.tasks[pid], past))
    ensures Together(Step(w1, Advance(pid, now)), Step(w2, Advance(pid, now)), past)
  {
    hide SameAfter, Unaffected, TaskStep;
    if pid in w1.tasks && Shaped(w1.tasks[pid]) && !w1.tasks[pid].Done? {
      StepSees(w1.state, w2.state, w1.tasks[pid], past, now);
    }
  }

  /** Settings and user management see and leave the same. */
  lemma AdminSees(w1: World, w2: World, e: Event, past: Past)
    requires Together(w1, w2, past)
    requires e.SetSessionExpiry? || e.SetActive? || e.AddUser? || e.RemoveUser?
    ensures Together(Step(w1, e), Step(w2, e), past)
  {
    if e.RemoveUser? { RemoveSame(w1.state.db, w2.state.db, e.user, past); }
    hide SameRefresh, SameHandoffs, SameCodes;
  }

  lemma RemoveSame(db1: Database, db2: Database, user: UserId, past: Past)
    requires SameRefresh(db1.refresh, db2.refresh, past)
    requires SameHandoffs(db1.handoffs, db2.handoffs, past) && SameCodes(db1.codes, db2.codes, past)
    ensures SameRefresh(DeleteUser(db1, user).refresh, DeleteUser(db2, user).refresh, past)
    ensures SameHandoffs(DeleteUser(db1, user).handoffs, DeleteUser(db2, user).handoffs, past)
    ensures SameCodes(DeleteUser(db1, user).codes, DeleteUser(db2, user).codes, past)
  {
  }

  lemma EventSees(w1: World, w2: World, e: Event, past: Past)
    requires Inv(w1.state, w1.tasks) && Inv(w2.state, w2.tasks) && Together(w1, w2, past)
    requires !IsSweep(e) && (e.Browser? ==> Later(e.clock, past.until))
    requires e.Advance? ==> e.now > past.until && (e.pid in w1.tasks ==> Unaffected(w1.tasks[e.pid], past))
    ensures Together(Step(w1, e), Step(w2, e), past)
    ensures e.Browser? ==> RotateBrowser(w1.state, e.token, e.clock).1 == RotateBrowser(w2.state, e.token, e.clock).1
  {
    hide Inv, SameAfter, RotateBrowser;
    match e
    case Begin(_, _) =>
    case Advance(pid, now) => AdvanceSees(w1, w2, pid, now, past);
    case Browser(token, clock) =>
      InvGivesExpiry(w1.state, w1.tasks);
      InvGivesExpiry(w2.state, w2.tasks);
      BrowserSees(w1.state, w2.state, token, past, clock);
    case _ => AdminSees(w1, w2, e, past);
  }

  lemma SweepTogether(w1: World, w2: World, e: Event, past: Past)
    requires Inv(w2.state, w2.tasks) && Together(w1, w2, past)
    requires IsSweep(e)
    ensures Together(w1, Step(w2, e), PastAfter(w2.state.db, e, past))
  {
    hide Inv, SameAfter, Swept, PastAfter;
    InvGivesExpiry(w2.state, w2.tasks);
    SweepSame(w1.state, w2.state, e, past);
    SweepStep(w2, e);
  }

  lemma SweepStep(w: World, e: Event)
    requires IsSweep(e)
    ensures Step(w, e) == WithDb(w, Swept(w.state.db, e))
  {
  }

  lemma {:induction false} TogetherThroughout(w1: World, w2: World, events: seq<Event>, past: Past) returns (end: Past)
    requires Inv(w1.state, w1.tasks) && Inv(w2.state, w2.tasks) && Together(w1, w2, past) && Timely(w2, events, past)
    ensures Together(Run(w1, WithoutSweeps(events)), Run(w2, events), end)
    ensures BrowserOutcomes(w1, WithoutSweeps(events)) == BrowserOutcomes(w2, events)
    decreases |events|
  {
    hide Inv, Together, Step, RotateBrowser, Unaffected;
    if events == [] {
      end := past;
    } else {
      var e, rest := events[0], events[1..];
      StepKeepsInv(w2, e);
      if IsSweep(e) {
        SweepTogether(w1, w2, e, past);
        end := TogetherThroughout(w1, Step(w2, e), rest, PastAfter(w2.state.db, e, past));
      } else {
        TogetherTasks(w1, w2, past);
        EventSees(w1, w2, e, past);
        StepKeepsInv(w1, e);
        end := TogetherThroughout(Step(w1, e), Step(w2, e), rest, past);
        assert WithoutSweeps(events)[1..] == WithoutSweeps(rest);
      }
    }
  }

  lemma TogetherTasks(w1: World, w2: World, past: Past)
    requires Together(w1, w2, past)
    ensures w1.tasks == w2.tasks
  {
  }

  /**
  From any reachable world, a run with sweeps and the same run without them take every request in
  flight to the same point with the same outcome, answer every browser rotation alike, and end
  with the same history, users and revocations.
  */
  lemma SweepsAreInvisible(w0: World, before: seq<Event>, events: seq<Event>, t: int)
    requires CredentialTheorems.Initial(w0)
    requires Timely(Run(w0, before), events, Past(t, {}, {}))
    ensures
      var w := Run(w0, before);
      var (swept, plain) := (Run(w, events), Run(w, WithoutSweeps(events)));
      && swept.tasks == plain.tasks
      && BrowserOutcomes(w, events) == BrowserOutcomes(w, WithoutSweeps(events))
      && swept.state.hist == plain.state.hist && swept.state.db.users == plain.state.db.users
      && swept.state.db.revocations == plain.state.db.revocations
  {
    hide Inv, Timely, WithoutSweeps, BrowserOutcomes, Run, CredentialTheorems.Initial;
    var w := Run(w0, before);
    CredentialTheorems.Reachable(w0, before);
    var past := Past(t, {}, {});
    assert Together(w, w, past);
    var end := TogetherThroughout(w, w, events, past);
  }
}
