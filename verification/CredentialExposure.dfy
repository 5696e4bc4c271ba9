/**
When a sweep is visible to a request in flight: exactly the requests it can be visible to, and a run
from the beginning in which it changes the generation that the run ends with.
*/
module CredentialExposure {
  import opened Wrappers
  import opened CredentialStore
  import opened CredentialMachine
  import opened CredentialInvariant
  import opened CredentialSteps
  import opened CredentialRuns
  import opened CredentialSweep
  import CredentialTheorems

  /** The refresh token a request in flight has yet to spend or to look up. */
  function TokenToSpend(task: Task): Option<Claims> {
    match task
    case ReadVersion(token, _) => Some(token)
    case Check(goal) => if goal.Spend? then Some(goal.token) else None
    case CheckLegacy(goal) => if goal.Spend? then Some(goal.token) else None
    case Ready(goal) => if goal.Spend? then Some(goal.token) else None
    case ReplayLookup(token) => Some(token)
    case _ => None
  }

  /** What is left of the session check lets the request through. */
  predicate PassesCheck(db: Database, task: Task) {
    match task
    case ReadVersion(token, purpose) =>
      var v := ReadGeneration(db, token.sub);
      v.Some? && SessionHolds(db, Spend(token, v.value, purpose))
    case Check(goal) => SessionHolds(db, goal)
    case CheckLegacy(goal) => OutlivesRevocation(db, CredentialUser(GoalCredential(goal)), GoalIssuedAt(goal))
    case _ => true
  }

  /** The sweep removes a row whose absence the request would notice. */
  predicate Exposed(db: Database, task: Task, e: Event) {
    match e
    case SweepRefresh(t) =>
      && TokenToSpend(task).Some?
      && var token := TokenToSpend(task).value;
         && token.exp <= t && token in db.refresh && db.refresh[token].user in db.users
         && PassesCheck(db, task)
    case SweepCodes(t) =>
      && task.TakeCode? && task.request.ExchangeCode? && task.request.code in db.codes
      && var row := db.codes[task.request.code];
         && Redeemable(row, task.now) && row.expiresAt < t - CODE_RETENTION
         && SessionHolds(db, MintOidc(task.request.code, task.row))
    case _ => false
  }

  /** Run to its end from either state, the request has the same outcome and revokes the same. */
  predicate EndsAlike(s1: State, s2: State, task: Task, clock: Clock)
    requires Shaped(task)
  {
    var (s1', o1, _) := RunTask(s1, task, clock, 0);
    var (s2', o2, _) := RunTask(s2, task, clock, 0);
    o1 == o2 && s1'.db.users == s2'.db.users
  }

  // ---------------------------------------------------------------------------------------------
  // Requests on an expired refresh token
  // ---------------------------------------------------------------------------------------------

  lemma CheckFails(s: State, goal: Goal, clock: Clock, k: nat)
    requires !SessionHolds(s.db, goal)
    ensures RunTask(s, Check(goal), clock, k).0 == s && RunTask(s, Check(goal), clock, k).1 == Rejected
  {
    hide RunTask;
    var c := GoalCredential(goal);
    NextStatement(s, Check(goal), clock, k);
    if CheckGeneration(s.db, CredentialUser(c), CredentialVersion(c)).Reject? {
      Finished(s, Rejected, clock, k + 1);
    } else {
      NextStatement(s, CheckLegacy(goal), clock, k + 1);
      Finished(s, Rejected, clock, k + 2);
    }
  }

  /** It ends at the replay lookup, which revokes when the row is there, or is rejected before it. */
  lemma ExpiredSpendRuns(s: State, task: Task, clock: Clock, k: nat) returns (k': nat)
    requires Shaped(task) && TokenToSpend(task).Some? && RowsExpireWithTokens(s.db)
    requires Later(clock, TokenToSpend(task).value.exp)
    ensures var token := TokenToSpend(task).value;
      if PassesCheck(s.db, task) && token in s.db.refresh
      then RunTask(s, task, clock, k) == RunTask(s, RevokeRefresh(s.db.refresh[token].user, Rejected), clock, k')
      else RunTask(s, task, clock, k).0 == s && RunTask(s, task, clock, k).1 == Rejected
    decreases Rank(task)
  {
    hide RunTask, SessionHolds;
    k' := k;
    match task
    case ReadVersion(token, purpose) =>
      NextReadVersion(s, token, purpose, clock, k);
      var v := ReadGeneration(s.db, token.sub);
      if v.Some? {
        k' := ExpiredSpendRuns(s, Check(Spend(token, v.value, purpose)), clock, k + 1);
      } else {
        Finished(s, Rejected, clock, k + 1);
      }
    case Check(goal) =>
      if SessionHolds(s.db, goal) {
        var ready := SessionHoldsRuns(s, goal, clock, k);
        k' := ExpiredSpendRuns(s, Ready(goal), clock, ready);
      } else {
        CheckFails(s, goal, clock, k);
      }
    case CheckLegacy(goal) =>
      NextStatement(s, CheckLegacy(goal), clock, k);
      if PassesCheck(s.db, task) {
        k' := ExpiredSpendRuns(s, Ready(goal), clock, k + 1);
      } else {
        Finished(s, Rejected, clock, k + 1);
      }
    case Ready(goal) =>
      NextReady(s, goal, clock, k);
      assert clock(k) > goal.token.exp;
      k' := ExpiredSpendRuns(s, ReplayLookup(goal.token), clock, k + 1);
    case ReplayLookup(token) =>
      NextReplayLookup(s, token, clock, k);
      if token in s.db.refresh { k' := k + 1; } else { Finished(s, Rejected, clock, k + 1); }
  }

  lemma RevokeNobody(s: State, user: UserId, clock: Clock, k: nat)
    requires user !in s.db.users
    ensures var r := RunTask(s, RevokeRefresh(user, Rejected), clock, k);
      r.1 == Rejected && r.0.db.users == s.db.users
  {
    hide RunTask;
    var s1 := s.(db := RevokeRefreshTokens(s.db, user, clock(k)));
    NextStatement(s, RevokeRefresh(user, Rejected), clock, k);
    NextStatement(s1, Bump(user, Rejected), clock, k + 1);
    NextStatement(s1, NoteRevocation(user, Rejected), clock, k + 2);
    Finished(s1, Rejected, clock, k + 3);
  }

  /** The users after a replay's revocation. */
  function UsersAfter(db: Database, user: UserId): map<UserId, UserRow> {
    BumpGeneration(db, user).users
  }

  lemma RevocationEnds(s: State, user: UserId, clock: Clock, k: nat)
    ensures var r := RunTask(s, RevokeRefresh(user, Rejected), clock, k);
      r.1 == Rejected && r.0.db.users == UsersAfter(s.db, user)
  {
    hide RunTask;
    if user in s.db.users {
      CredentialTheorems.RevokeRuns(s, user, Rejected, clock, k);
    } else {
      RevokeNobody(s, user, clock, k);
    }
  }

  lemma ExpiredSpendEnds(s: State, task: Task, clock: Clock)
    requires Shaped(task) && TokenToSpend(task).Some? && RowsExpireWithTokens(s.db)
    requires Later(clock, TokenToSpend(task).value.exp)
    ensures var token := TokenToSpend(task).value;
      var r := RunTask(s, task, clock, 0);
      && r.1 == Rejected
      && r.0.db.users == if PassesCheck(s.db, task) && token in s.db.refresh
                         then UsersAfter(s.db, s.db.refresh[token].user) else s.db.users
  {
    hide RunTask, PassesCheck;
    var k' := ExpiredSpendRuns(s, task, clock, 0);
    var token := TokenToSpend(task).value;
    if token in s.db.refresh { RevocationEnds(s, s.db.refresh[token].user, clock, k'); }
  }

  /** A sweep keeps users and revocations, so it changes no session check. */
  lemma SweptChecksSame(s: State, task: Task, e: Event)
    requires IsSweep(e)
    ensures PassesCheck(s.db, task) == PassesCheck(Swept(s.db, e), task)
    ensures Swept(s.db, e).users == s.db.users
  {
  }

  lemma SweptRefresh(s: State, e: Event, token: Claims)
    requires IsSweep(e) && RowsExpireWithTokens(s.db) && token.exp <= e.now
    ensures var db' := Swept(s.db, e);
      && (token in db'.refresh <==> token in s.db.refresh && !e.SweepRefresh?)
      && (token in db'.refresh ==> db'.refresh[token].user == s.db.refresh[token].user)
      && RowsExpireWithTokens(db')
  {
  }

  lemma SpendExposure(s: State, task: Task, e: Event, clock: Clock)
    requires Shaped(task) && TokenToSpend(task).Some? && RowsExpireWithTokens(s.db) && IsSweep(e)
    requires TokenToSpend(task).value.exp <= e.now && Later(clock, e.now)
    ensures EndsAlike(s, s.(db := Swept(s.db, e)), task, clock) <==> !Exposed(s.db, task, e)
  {
    hide PassesCheck, RunTask, Swept;
    var token := TokenToSpend(task).value;
    var s' := s.(db := Swept(s.db, e));
    SweptChecksSame(s, task, e);
    SweptRefresh(s, e, token);
    ExpiredSpendEnds(s, task, clock);
    ExpiredSpendEnds(s', task, clock);
    if token in s.db.refresh { BumpShows(s.db, s.db.refresh[token].user); }
  }

  lemma BumpShows(db: Database, user: UserId)
    ensures user in db.users ==> UsersAfter(db, user)[user] != db.users[user]
    ensures user !in db.users ==> UsersAfter(db, user) == db.users
  {
  }

  // ---------------------------------------------------------------------------------------------
  // Code exchanges between their two statements
  // ---------------------------------------------------------------------------------------------

  lemma TakeCodeRuns(s: State, task: Task, clock: Clock)
    requires Shaped(task) && task.TakeCode?
    ensures var (request, row) := (task.request, task.row);
      if request.code in s.db.codes && Redeemable(s.db.codes[request.code], task.now)
      then RunTask(s, task, clock, 0)
        == RunTask(ConsumeCode(s, request, row, task.now).0, Check(MintOidc(request.code, row)), clock, 1)
      else RunTask(s, task, clock, 0).0 == s && RunTask(s, task, clock, 0).1 == Rejected
  {
    hide RunTask;
    NextStatement(s, task, clock, 0);
    Finished(s, Rejected, clock, 1);
  }

  lemma MintOidcEnds(s: State, goal: Goal, clock: Clock, k: nat)
    requires goal.MintOidc?
    ensures var r := RunTask(s, Check(goal), clock, k);
      (if SessionHolds(s.db, goal) then r.1.OidcMinted? else r.1 == Rejected) && r.0.db.users == s.db.users
  {
    hide RunTask;
    if SessionHolds(s.db, goal) {
      var k' := SessionHoldsRuns(s, goal, clock, k);
      CredentialTheorems.MintOidcRuns(s, goal, clock, k');
    } else {
      CheckFails(s, goal, clock, k);
    }
  }

  lemma ConsumedSame(s1: State, s2: State, request: Request, row: CodeRow, now: int, past: Past)
    requires SameAfter(s1, s2, past) && request.ExchangeCode?
    requires request.code in s1.db.codes && request.code in s2.db.codes
    requires s1.db.codes[request.code] == s2.db.codes[request.code] && Redeemable(s1.db.codes[request.code], now)
    ensures SameAfter(ConsumeCode(s1, request, row, now).0, ConsumeCode(s2, request, row, now).0, past)
  {
    hide SameRefresh, SameHandoffs;
  }

  lemma SweptCodes(s: State, e: Event, code: nat)
    requires IsSweep(e)
    ensures var db' := Swept(s.db, e);
      && (code in db'.codes <==>
            code in s.db.codes && !(e.SweepCodes? && s.db.codes[code].expiresAt < e.now - CODE_RETENTION))
      && (code in db'.codes ==> db'.codes[code] == s.db.codes[code])
  {
  }

  lemma TakeExposure(s: State, task: Task, e: Event, clock: Clock)
    requires Shaped(task) && task.TakeCode? && RowsExpireWithTokens(s.db) && IsSweep(e) && Later(clock, e.now)
    ensures EndsAlike(s, s.(db := Swept(s.db, e)), task, clock) <==> !Exposed(s.db, task, e)
  {
    hide RunTask, Swept, SessionHolds, SameAfter, SameRefresh, SameHandoffs, SameCodes;
    var (request, row, code) := (task.request, task.row, task.request.code);
    var s' := s.(db := Swept(s.db, e));
    TakeCodeRuns(s, task, clock);
    TakeCodeRuns(s', task, clock);
    SweptCodes(s, e, code);
    SweptChecksSame(s, task, e);
    if code in s.db.codes && Redeemable(s.db.codes[code], task.now) {
      var s1 := ConsumeCode(s, request, row, task.now).0;
      var goal := MintOidc(code, row);
      if code in s'.db.codes {
        SweptIsSame(s, e);
        var past := SweepAlone(s.db, e);
        ConsumedSame(s, s', request, row, task.now, past);
        var s2 := ConsumeCode(s', request, row, task.now).0;
        RunTaskSees(s1, s2, Check(goal), past, clock, 1);
        SameUsers(RunTask(s1, Check(goal), clock, 1).0, RunTask(s2, Check(goal), clock, 1).0, past);
      } else {
        MintOidcEnds(s1, goal, clock, 1);
        ConsumedChecksSame(s, request, row, task.now, goal);
      }
    }
  }

  lemma ConsumedChecksSame(s: State, request: Request, row: CodeRow, now: int, goal: Goal)
    requires request.ExchangeCode?
    ensures var s' := ConsumeCode(s, request, row, now).0;
      SessionHolds(s'.db, goal) == SessionHolds(s.db, goal) && s'.db.users == s.db.users
  {
  }

  lemma SweptIsSame(s: State, e: Event)
    requires IsSweep(e) && RowsExpireWithTokens(s.db)
    ensures SameAfter(s, s.(db := Swept(s.db, e)), SweepAlone(s.db, e))
  {
    hide Swept, PastAfter;
    SweepSame(s, s, e, Past(e.now, {}, {}));
  }

  /** The record of one sweep. */
  function SweepAlone(db: Database, e: Event): (past: Past)
    requires IsSweep(e)
    ensures past.until == e.now
  {
    PastAfter(db, e, Past(e.now, {}, {}))
  }

  lemma SameUsers(s1: State, s2: State, past: Past)
    requires SameAfter(s1, s2, past)
    ensures s1.db.users == s2.db.users
  {
  }

  // ---------------------------------------------------------------------------------------------
  // All requests
  // ---------------------------------------------------------------------------------------------

  lemma StartedAfterIsAlike(s: State, task: Task, e: Event, clock: Clock)
    requires Shaped(task) && RowsExpireWithTokens(s.db) && IsSweep(e) && Later(clock, e.now)
    requires StartedAfter(task, e.now)
    ensures EndsAlike(s, s.(db := Swept(s.db, e)), task, clock)
  {
    hide Swept, RunTask, SameAfter;
    var s' := s.(db := Swept(s.db, e));
    SweptIsSame(s, e);
    RunTaskSees(s, s', task, SweepAlone(s.db, e), clock, 0);
    SameUsers(RunTask(s, task, clock, 0).0, RunTask(s', task, clock, 0).0, SweepAlone(s.db, e));
  }

  lemma Unexposed(db: Database, task: Task, e: Event)
    requires IsSweep(e) && StartedAfter(task, e.now) && !task.TakeCode?
    ensures !Exposed(db, task, e)
  {
  }

  /**
  In every reachable world, a sweep changes how a request in flight ends, or what it revokes, exactly
  when the request is exposed: it would reach the lookup of an expired refresh token whose row the
  sweep deletes, or the guarded update of a code read more than an hour ago that the sweep deletes.
  */
  lemma SweepVisibleIffExposed(w0: World, events: seq<Event>, pid: nat, e: Event, clock: Clock)
    requires CredentialTheorems.Initial(w0) && pid in Run(w0, events).tasks
    requires IsSweep(e) && Later(clock, e.now)
    ensures var w := Run(w0, events);
      && Shaped(w.tasks[pid])
      && (EndsAlike(w.state, w.state.(db := Swept(w.state.db, e)), w.tasks[pid], clock)
          <==> !Exposed(w.state.db, w.tasks[pid], e))
  {
    hide Inv, Run, EndsAlike, Exposed, Swept, CredentialTheorems.Initial, RowsExpireWithTokens;
    var w := Run(w0, events);
    var task := w.tasks[pid];
    CredentialTheorems.Reachable(w0, events);
    FitsAt(w.state, w.tasks, pid);
    InvGivesExpiry(w.state, w.tasks);
    if task.TakeCode? {
      TakeExposure(w.state, task, e, clock);
    } else if StartedAfter(task, e.now) {
      StartedAfterIsAlike(w.state, task, e, clock);
      Unexposed(w.state.db, task, e);
    } else {
      SpendExposure(w.state, task, e, clock);
    }
  }

  // ---------------------------------------------------------------------------------------------
  // A run in which a sweep is visible
  // ---------------------------------------------------------------------------------------------

  /** Statements of one request, `n` of them, at consecutive readings. */
  function Advances(pid: nat, clock: Clock, k: nat, n: nat): seq<Event>
    decreases n
  {
    if n == 0 then [] else [Advance(pid, clock(k))] + Advances(pid, clock, k + 1, n - 1)
  }

  /** Enough statements run a request to its end. */
  lemma {:induction false} AdvancesFinish(w: World, pid: nat, clock: Clock, k: nat, n: nat)
    requires pid in w.tasks && Shaped(w.tasks[pid]) && n >= Rank(w.tasks[pid])
    ensures Run(w, Advances(pid, clock, k, n)).state == RunTask(w.state, w.tasks[pid], clock, k).0
    decreases n
  {
    hide TaskStep;
    if n > 0 {
      var events := Advances(pid, clock, k, n);
      assert events[0] == Advance(pid, clock(k)) && events[1..] == Advances(pid, clock, k + 1, n - 1);
      if w.tasks[pid].Done? {
        AdvancesFinish(w, pid, clock, k + 1, n - 1);
      } else {
        var (s', task') := TaskStep(w.state, w.tasks[pid], clock(k));
        AdvancesFinish(World(s', w.tasks[pid := task']), pid, clock, k + 1, n - 1);
      }
    }
  }

  /** A refresh token that was consumed before the upgrade and expires at 10. */
  const CONSUMED: Claims := Claims(0, RefreshToken, 10, 0, 0, None, None, None)

  const UPGRADED: World := World(
    State(
      Database(map[0 := UserRow(0, true)], None, map[CONSUMED := RefreshRow(0, 10, 0, Some(1), None, None)],
               map[], map[], map[]),
      History(1, map[0 := Login(0, 0, Some(10), 0, true)], map[Central(CONSUMED) := 0], map[0 := [CONSUMED]],
              map[], [], []),
      false),
    map[])

  /** It is presented again at 9, and its request stops before the replay lookup. */
  const ARRIVAL: seq<Event> := [
    Begin(0, Rotate(CONSUMED)), Advance(0, 9), Advance(0, 9), Advance(0, 9), Advance(0, 9), Advance(0, 9)]

  lemma UpgradedIsInitial()
    ensures CredentialTheorems.Initial(UPGRADED)
  {
  }

  lemma RunStep(w: World, e: Event, events: seq<Event>)
    ensures Run(w, [e] + events) == Run(Step(w, e), events)
  {
    assert ([e] + events)[1..] == events;
  }

  lemma ArrivalStops()
    ensures Run(UPGRADED, ARRIVAL) == World(UPGRADED.state, map[0 := ReplayLookup(CONSUMED)])
  {
    hide Run;
    var s := UPGRADED.state;
    var goal := Spend(CONSUMED, 0, ToRotate);
    var w2 := World(s, map[0 := Check(goal)]);
    var w3 := World(s, map[0 := CheckLegacy(goal)]);
    var w4 := World(s, map[0 := Ready(goal)]);
    var w5 := World(s, map[0 := ReplayLookup(CONSUMED)]);
    var a := Advance(0, 9);
    ArrivalReads();
    OneAdvance(w2, w3, [a, a]);
    OneAdvance(w3, w4, [a]);
    OneAdvance(w4, w5, []);
    assert [a] + [a, a] == [a, a, a] && [a] + [a] == [a, a] && [a] + [] == [a];
    RunNone(w5);
  }

  lemma ArrivalReads()
    ensures var a := Advance(0, 9);
      Run(UPGRADED, ARRIVAL) == Run(World(UPGRADED.state, map[0 := Check(Spend(CONSUMED, 0, ToRotate))]), [a, a, a])
  {
    hide Run;
    var s := UPGRADED.state;
    var w0 := World(s, map[0 := Arrived(Rotate(CONSUMED))]);
    var w1 := World(s, map[0 := ReadVersion(CONSUMED, ToRotate)]);
    var w2 := World(s, map[0 := Check(Spend(CONSUMED, 0, ToRotate))]);
    var a := Advance(0, 9);
    RunStep(UPGRADED, ARRIVAL[0], [a, a, a, a, a]);
    assert Step(UPGRADED, ARRIVAL[0]) == w0;
    assert ARRIVAL == [ARRIVAL[0]] + [a, a, a, a, a];
    OneAdvance(w0, w1, [a, a, a, a]);
    OneAdvance(w1, w2, [a, a, a]);
    assert [a] + [a, a, a, a] == [a, a, a, a, a] && [a] + [a, a, a] == [a, a, a, a];
  }

  lemma RunNone(w: World)
    ensures Run(w, []) == w
  {
  }

  lemma OneAdvance(w: World, w': World, events: seq<Event>)
    requires 0 in w.tasks && Shaped(w.tasks[0]) && !w.tasks[0].Done?
    requires var (s', task') := TaskStep(w.state, w.tasks[0], 9); w' == World(s', w.tasks[0 := task'])
    ensures Run(w, [Advance(0, 9)] + events) == Run(w', events)
  {
    RunStep(w, Advance(0, 9), events);
  }

  /**
  One second decides: the same statements at the same later instants end with the user's generation
  bumped, or, when the expired row is swept in between, with it unchanged.
  */
  lemma SweepInFlightIsVisible(clock: Clock)
    requires Later(clock, 10)
    ensures CredentialTheorems.Initial(UPGRADED)
    ensures
      var rest := Advances(0, clock, 0, 20);
      var plain := Run(UPGRADED, ARRIVAL + rest).state.db.users;
      var swept := Run(UPGRADED, ARRIVAL + ([SweepRefresh(10)] + rest)).state.db.users;
      plain == map[0 := UserRow(1, true)] && swept == map[0 := UserRow(0, true)]
  {
    hide Run, RunTask;
    UpgradedIsInitial();
    ArrivalStops();
    var rest := Advances(0, clock, 0, 20);
    var w := Run(UPGRADED, ARRIVAL);
    CredentialTheorems.RunTwice(UPGRADED, ARRIVAL, rest);
    CredentialTheorems.RunTwice(UPGRADED, ARRIVAL, [SweepRefresh(10)] + rest);
    RunStep(w, SweepRefresh(10), rest);
    LookupEnds(w, clock);
    LookupEnds(Step(w, SweepRefresh(10)), clock);
  }

  lemma LookupEnds(w: World, clock: Clock)
    requires w.tasks == map[0 := ReplayLookup(CONSUMED)] && Later(clock, 10) && RowsExpireWithTokens(w.state.db)
    ensures Run(w, Advances(0, clock, 0, 20)).state.db.users
         == if CONSUMED in w.state.db.refresh then UsersAfter(w.state.db, w.state.db.refresh[CONSUMED].user)
            else w.state.db.users
  {
    hide Run, RunTask;
    AdvancesFinish(w, 0, clock, 0, 20);
    ExpiredSpendEnds(w.state, ReplayLookup(CONSUMED), clock);
  }
}
