/** Whole requests, browser rotations and runs of the system keep the invariant. */
module CredentialRuns {
  import opened Wrappers
  import opened CredentialStore
  import opened CredentialMachine
  import opened CredentialInvariant
  import opened CredentialSteps

  // ---------------------------------------------------------------------------------------------
  // A request run to its end
  // ---------------------------------------------------------------------------------------------

  lemma {:induction false} RunTaskKeepsInv(s: State, tasks: map<nat, Task>, pid: nat, clock: Clock, k: nat)
    requires Inv(s, tasks) && pid in tasks
    ensures Shaped(tasks[pid])
    ensures Inv(RunTask(s, tasks[pid], clock, k).0, tasks - {pid})
    decreases Rank(TaskAt(tasks, pid))
  {
    hide Inv;
    FitsAt(s, tasks, pid);
    if tasks[pid].Done? {
      DropTask(s, tasks, pid);
    } else {
      TaskStepKeepsInv(s, tasks, pid, clock(k));
      var (s', task') := TaskStep(s, tasks[pid], clock(k));
      RunTaskKeepsInv(s', tasks[pid := task'], pid, clock, k + 1);
      assert tasks[pid := task'] - {pid} == tasks - {pid};
    }
  }

  function TaskAt(tasks: map<nat, Task>, pid: nat): Task {
    if pid in tasks then tasks[pid] else Done(Failed)
  }

  // ---------------------------------------------------------------------------------------------
  // What a rotation that succeeds has done
  // ---------------------------------------------------------------------------------------------

  predicate MintsFor(h: History, m: Minting, token: Claims) {
    && Central(token) in h.root
    && m.parent == Some(token)
    && m.login == h.root[Central(token)]
  }

  /** `pair` replaced `token`, not before `now`, and its refresh token is live. */
  predicate RotatedTo(s: State, token: Claims, pair: TokenPair, now: int) {
    && Central(token) in s.hist.root
    && RetryFits(s.hist, token, now + RETRY_WINDOW, pair)
    && pair.refresh in s.db.refresh
    && s.db.refresh[pair.refresh].revokedAt.None?
  }

  /** The tasks a rotation of `token` started at `now` goes through. */
  predicate Rotating(s: State, task: Task, token: Claims, now: int) {
    match task
    case Arrived(request) => request == Rotate(token)
    case ReadVersion(t, purpose) => t == token && purpose.ToRotate?
    case Check(goal) => goal.Spend? && goal.token == token && goal.purpose.ToRotate?
    case CheckLegacy(goal) => goal.Spend? && goal.token == token && goal.purpose.ToRotate?
    case Ready(goal) => goal.Spend? && goal.token == token && goal.purpose.ToRotate?
    case LoadUser(m) => MintsFor(s.hist, m, token)
    case MintRemaining(m) => MintsFor(s.hist, m, token)
    case MintAccess(m) => MintsFor(s.hist, m, token)
    case MintRefresh(m, access) =>
      && MintsFor(s.hist, m, token)
      && Central(access) in s.hist.root
      && s.hist.root[Central(access)] == m.login
      && access.typ.AccessToken? && access.version == m.version
      && access.exp >= Min(now + ACCESS_TOKEN_LIFETIME, m.expiresAt)
    case ReplayLookup(_) => true
    case RevokeRefresh(_, after) => after.Rejected?
    case Bump(_, after) => after.Rejected?
    case NoteRevocation(_, after) => after.Rejected?
    case Done(outcome) => outcome.Minted? ==> RotatedTo(s, token, outcome.pair, now)
    case _ => false
  }

  lemma RotatingStep(s: State, task: Task, token: Claims, now: int, t: int)
    requires TaskFits(s.db, s.hist, task) && CredentialsFit(s.hist)
    requires Rotating(s, task, token, now) && !task.Done? && now <= t
    ensures var (s', task') := TaskStep(s, task, t); Rotating(s', task', token, now)
  {
    if task.MintAccess? || task.MintRefresh? {
      RotatingMint(s, task, token, now, t);
    } else {
      hide TaskFits, CredentialsFit, CheckGeneration, OutlivesRevocation, RevokeRefreshTokens;
    }
  }

  lemma RotatingMint(s: State, task: Task, token: Claims, now: int, t: int)
    requires TaskFits(s.db, s.hist, task) && CredentialsFit(s.hist)
    requires Rotating(s, task, token, now) && now <= t && (task.MintAccess? || task.MintRefresh?)
    ensures var (s', task') := TaskStep(s, task, t); Rotating(s', task', token, now)
  {
    match task
    case MintAccess(m) =>
      var access := TaskStep(s, task, t).1.access;
      assert access.jti == s.hist.next && Central(access) !in s.hist.root;
    case MintRefresh(m, access) =>
      InsertRefreshResult(s, task, t);
      var task' := TaskStep(s, task, t).1;
      if task'.outcome.Minted? {
        assert task'.outcome.pair.refresh.jti == s.hist.next;
      }
  }

  lemma PartsOf(s: State, tasks: map<nat, Task>)
    requires Inv(s, tasks)
    ensures CredentialsFit(s.hist) && ChainsFit(s.hist) && RowsFit(s.db, s.hist) && LoginsFit(s.hist)
    ensures UsersFit(s.db, s.hist)
  {
  }

  lemma {:induction false} RunRotation(s: State, tasks: map<nat, Task>, pid: nat, token: Claims, now: int,
                                       clock: Clock, k: nat)
    requires Inv(s, tasks) && pid in tasks && Rotating(s, tasks[pid], token, now)
    requires Monotone(clock) && now <= clock(k)
    ensures Shaped(tasks[pid])
    ensures var (s', outcome, _) := RunTask(s, tasks[pid], clock, k);
      outcome.Minted? ==> RotatedTo(s', token, outcome.pair, now)
    decreases Rank(TaskAt(tasks, pid))
  {
    hide Inv;
    FitsAt(s, tasks, pid);
    if !tasks[pid].Done? {
      PartsOf(s, tasks);
      TaskStepKeepsInv(s, tasks, pid, clock(k));
      RotatingStep(s, tasks[pid], token, now, clock(k));
      var (s', task') := TaskStep(s, tasks[pid], clock(k));
      assert clock(k) <= clock(k + 1);
      RunRotation(s', tasks[pid := task'], pid, token, now, clock, k + 1);
    }
  }

  lemma SparePid(used: set<nat>) returns (pid: nat)
    ensures pid !in used && forall p :: p in used ==> p < pid
  {
    if used == {} {
      pid := 0;
    } else {
      var p :| p in used;
      var rest := SparePid(used - {p});
      assert forall q :: q in used ==> q == p || q in used - {p};
      pid := if rest <= p then p + 1 else rest;
    }
  }

  // ---------------------------------------------------------------------------------------------
  // Browser rotation
  // ---------------------------------------------------------------------------------------------

  lemma NotOwnParent(h: History, l: nat, chain: seq<Claims>, t: Claims)
    requires ChainFits(h, l, chain) && chain != [] && chain[|chain| - 1] == t
    ensures !(t in h.parent && h.parent[t] == t)
  {
    if |chain| > 1 {
      assert h.parent[chain[|chain| - 1]] == chain[|chain| - 2];
    }
  }

  /** The token a live successor replaced is itself revoked. */
  lemma ReplacedIsRevoked(db: Database, h: History, token: Claims, next: Claims)
    requires RowsFit(db, h) && ChainsFit(h) && CredentialsFit(h)
    requires Central(token) in h.root && Central(next) in h.root
    requires h.root[Central(next)] == h.root[Central(token)]
    requires next in h.parent && h.parent[next] == token
    requires next in db.refresh && db.refresh[next].revokedAt.None?
    ensures token in db.refresh ==> db.refresh[token].revokedAt.Some?
  {
    if token in db.refresh && db.refresh[token].revokedAt.None? {
      assert RowFits(h, token, db.refresh[token]) && RowFits(h, next, db.refresh[next]);
      var l := h.root[Central(token)];
      NotOwnParent(h, l, ChainOf(h, l), token);
    }
  }

  lemma SaveRetryKeepsInv(s: State, tasks: map<nat, Task>, token: Claims, until: int, pair: TokenPair)
    requires Inv(s, tasks) && RetryFits(s.hist, token, until, pair)
    requires token in s.db.refresh ==> s.db.refresh[token].revokedAt.Some?
    ensures Inv(s.(db := SaveRetry(s.db, token, until, pair)), tasks)
  {
    SaveRetryKeepsRows(s.db, s.hist, token, until, pair);
    SaveRetryKeepsTasks(s.db, s.hist, tasks, token, until, pair);
  }

  lemma SaveRetryKeepsRows(db: Database, h: History, token: Claims, until: int, pair: TokenPair)
    requires RowsFit(db, h) && RetryFits(h, token, until, pair)
    requires token in db.refresh ==> db.refresh[token].revokedAt.Some?
    ensures RowsFit(SaveRetry(db, token, until, pair), h)
  {
    var db' := SaveRetry(db, token, until, pair);
    forall t | t in db'.refresh ensures RowFits(h, t, db'.refresh[t]) {
      assert RowFits(h, t, db.refresh[t]);
    }
  }

  lemma SaveRetryKeepsTasks(db: Database, h: History, tasks: map<nat, Task>, token: Claims, until: int, pair: TokenPair)
    requires TasksFit(db, h, tasks) && MintingExclusive(db, h, tasks)
    ensures var db' := SaveRetry(db, token, until, pair);
      TasksFit(db', h, tasks) && MintingExclusive(db', h, tasks)
  {
    var db' := SaveRetry(db, token, until, pair);
    forall pid | pid in tasks ensures TaskFits(db', h, tasks[pid]) {
      assert TaskFits(db, h, tasks[pid]);
    }
    forall pid, t | pid in tasks && MintingLogin(tasks[pid]).Some?
      ensures !LiveRowOf(db', h, t, MintingLogin(tasks[pid]).value)
    {
      assert !LiveRowOf(db, h, t, MintingLogin(tasks[pid]).value);
    }
  }

  lemma ForgetIsWeaker(db: Database, now: int)
    ensures Weaker(db, ForgetRetries(db, now))
  {
  }

  /** A rotation that runs alone: the invariant, and what it did if it succeeded. */
  lemma RotateAlone(s: State, tasks: map<nat, Task>, token: Claims, clock: Clock)
    requires Inv(s, tasks) && Monotone(clock)
    ensures var (s', outcome, _) := RunRequest(s, Rotate(token), clock, 1);
      Inv(s', tasks) && (outcome.Minted? ==> RotatedTo(s', token, outcome.pair, clock(0)))
  {
    hide Inv;
    var pid := SparePid(tasks.Keys);
    var tasks' := tasks[pid := Arrived(Rotate(token))];
    MoveTask(s, tasks, pid, Arrived(Rotate(token)));
    RunTaskKeepsInv(s, tasks', pid, clock, 1);
    assert tasks' - {pid} == tasks;
    assert clock(0) <= clock(1);
    RunRotation(s, tasks', pid, token, clock(0), clock, 1);
  }

  lemma SaveAndForget(s: State, tasks: map<nat, Task>, token: Claims, pair: TokenPair, now: int)
    requires Inv(s, tasks) && RotatedTo(s, token, pair, now)
    ensures Inv(s.(db := ForgetRetries(SaveRetry(s.db, token, now + RETRY_WINDOW, pair), now)), tasks)
  {
    hide Inv;
    PartsOf(s, tasks);
    ReplacedIsRevoked(s.db, s.hist, token, pair.refresh);
    SaveRetryKeepsInv(s, tasks, token, now + RETRY_WINDOW, pair);
    var saved := SaveRetry(s.db, token, now + RETRY_WINDOW, pair);
    ForgetIsWeaker(saved, now);
    WeakerKeepsInv(s.(db := saved), tasks, ForgetRetries(saved, now));
  }

  lemma FreshRotationKeepsInv(s: State, tasks: map<nat, Task>, token: Claims, clock: Clock)
    requires Inv(s, tasks) && Monotone(clock)
    ensures var (s', outcome, _) := RunRequest(s, Rotate(token), clock, 1);
      && Inv(s', tasks)
      && (outcome.Minted? ==>
            Inv(s'.(db := ForgetRetries(SaveRetry(s'.db, token, clock(0) + RETRY_WINDOW, outcome.pair), clock(0))), tasks))
  {
    hide Inv;
    RotateAlone(s, tasks, token, clock);
    var (s', outcome, _) := RunRequest(s, Rotate(token), clock, 1);
    if outcome.Minted? { SaveAndForget(s', tasks, token, outcome.pair, clock(0)); }
  }

  lemma BrowserKeepsInv(s: State, tasks: map<nat, Task>, token: Claims, clock: Clock)
    requires Inv(s, tasks) && Monotone(clock)
    ensures Inv(RotateBrowser(s, token, clock).0, tasks)
  {
    hide Inv;
    var (s', outcome, _) := RunRequest(s, Rotate(token), clock, 1);
    FreshRotationKeepsInv(s, tasks, token, clock);
    var r := RotateBrowser(s, token, clock).0;
    if RetryOpen(s.db, token, clock(0)) {
      assert r == s;
    } else if outcome.Minted? {
      assert r == s'.(db := ForgetRetries(SaveRetry(s'.db, token, clock(0) + RETRY_WINDOW, outcome.pair), clock(0)));
    } else {
      assert r == s' || r == s;
    }
  }

  // ---------------------------------------------------------------------------------------------
  // Runs
  // ---------------------------------------------------------------------------------------------

  lemma AddUserKeepsInv(s: State, tasks: map<nat, Task>)
    requires Inv(s, tasks)
    ensures Inv(s.(db := s.db.(users := s.db.users[s.hist.next := UserRow(0, true)]),
                   hist := s.hist.(next := s.hist.next + 1)), tasks)
  {
    hide LoginsFit, CredentialsFit, CodesUnique, ChainsFit, UsersFit, RowsFit, CodesFit, HandoffsFit, TasksFit,
      MintingExclusive;
    var (db, h) := (s.db, s.hist);
    var db' := db.(users := db.users[h.next := UserRow(0, true)]);
    var h' := h.(next := h.next + 1);
    NextKeepsRows(db, h, db', h');
    NextKeepsTasks(db, h, tasks, db', h');
    NextKeepsChains(h, h');
    NextKeepsLogins(db, h, db', h');
    NextKeepsCredentials(h, h');
  }

  lemma NextKeepsRows(db: Database, h: History, db': Database, h': History)
    requires RowsFit(db, h) && db'.refresh == db.refresh && h' == h.(next := h'.next)
    ensures RowsFit(db', h')
  {
    forall t | t in db'.refresh ensures RowFits(h', t, db'.refresh[t]) {
      assert RowFits(h, t, db.refresh[t]);
    }
  }

  lemma NextKeepsTasks(db: Database, h: History, tasks: map<nat, Task>, db': Database, h': History)
    requires TasksFit(db, h, tasks) && MintingExclusive(db, h, tasks) && CredentialsFit(h) && LoginsFit(h)
    requires db' == db.(users := db.users[h.next := UserRow(0, true)]) && h' == h.(next := h.next + 1)
    ensures TasksFit(db', h', tasks) && MintingExclusive(db', h', tasks)
  {
    forall pid | pid in tasks ensures TaskFits(db', h', tasks[pid]) {
      assert TaskFits(db, h, tasks[pid]);
      if tasks[pid].Check? && tasks[pid].goal.Spend? {
        var c := Central(tasks[pid].goal.token);
        assert CredentialFits(c, h.logins[h.root[c]]);
        assert CredentialUser(c) < h.next;
      }
    }
    forall pid, t | pid in tasks && MintingLogin(tasks[pid]).Some?
      ensures !LiveRowOf(db', h', t, MintingLogin(tasks[pid]).value)
    {
      assert !LiveRowOf(db, h, t, MintingLogin(tasks[pid]).value);
    }
  }

  lemma NextKeepsChains(h: History, h': History)
    requires CodesUnique(h) && ChainsFit(h) && h' == h.(next := h.next + 1)
    ensures CodesUnique(h') && ChainsFit(h')
  {
    forall l | l in h'.chain ensures l in h'.logins && ChainFits(h', l, h'.chain[l]) {
      assert ChainFits(h, l, h.chain[l]);
    }
  }

  lemma NextKeepsLogins(db: Database, h: History, db': Database, h': History)
    requires LoginsFit(h) && UsersFit(db, h) && CodesFit(db, h) && HandoffsFit(db, h)
    requires db' == db.(users := db.users[h.next := UserRow(0, true)]) && h' == h.(next := h.next + 1)
    ensures LoginsFit(h') && UsersFit(db', h') && CodesFit(db', h') && HandoffsFit(db', h')
  {
  }

  lemma NextKeepsCredentials(h: History, h': History)
    requires CredentialsFit(h) && h' == h.(next := h.next + 1)
    ensures CredentialsFit(h')
  {
  }

  lemma SweepIsWeaker(w: World, e: Event)
    requires !e.Begin? && !e.Advance? && !e.Browser? && !e.AddUser?
    ensures Step(w, e) == WithDb(w, Step(w, e).state.db) && Weaker(w.state.db, Step(w, e).state.db)
  {
  }

  lemma StepKeepsInv(w: World, e: Event)
    requires Inv(w.state, w.tasks)
    ensures Inv(Step(w, e).state, Step(w, e).tasks)
  {
    hide Inv;
    match e
    case Begin(pid, request) => MoveTask(w.state, w.tasks, pid, Arrived(request));
    case Advance(pid, now) =>
      if pid in w.tasks && !w.tasks[pid].Done? { TaskStepKeepsInv(w.state, w.tasks, pid, now); }
    case Browser(token, clock) =>
      if Monotone(clock) { BrowserKeepsInv(w.state, w.tasks, token, clock); }
    case AddUser => AddUserKeepsInv(w.state, w.tasks);
    case _ =>
      SweepIsWeaker(w, e);
      WeakerKeepsInv(w.state, w.tasks, Step(w, e).state.db);
  }

  lemma {:induction false} RunKeepsInv(w: World, events: seq<Event>)
    requires Inv(w.state, w.tasks)
    ensures Inv(Run(w, events).state, Run(w, events).tasks)
    decreases |events|
  {
    hide Inv;
    if events != [] {
      StepKeepsInv(w, events[0]);
      RunKeepsInv(Step(w, events[0]), events[1..]);
    }
  }
}
