/** Every statement of every request, and hence every run, keeps the invariant. */
module CredentialSteps {
  import opened Wrappers
  import opened CredentialStore
  import opened CredentialMachine
  import opened CredentialInvariant

  /** Statements that only read. */
  predicate Reads(task: Task) {
    match task
    case Arrived(_) => true
    case LoginExpiry(_) => true
    case ReadVersion(_, _) => true
    case Check(_) => true
    case CheckLegacy(_) => true
    case Ready(goal) => 
      goal.AcceptAccess? || goal.AcceptForward? || goal.AcceptOidc? || goal.OpenHandoff? || goal.OpenCode?
    case LoadUser(_) => true
    case MintRemaining(_) => true
    case ReplayLookup(_) => true
    case SelectCode(_) => true
    case LoadActive(_) => true
    case _ => false
  }

  lemma ReadStep(s: State, tasks: map<nat, Task>, pid: nat, now: int)
    requires Inv(s, tasks) && pid in tasks && Shaped(tasks[pid]) && Reads(tasks[pid])
    ensures var (s', task') := TaskStep(s, tasks[pid], now); s' == s && Inv(s', tasks[pid := task'])
  {
    var task' := TaskStep(s, tasks[pid], now).1;
    assert TaskFits(s.db, s.hist, tasks[pid]);
    ReadStepFits(s, tasks[pid], now);
    MoveTask(s, tasks, pid, task');
  }

  lemma ReadStepFits(s: State, task: Task, now: int)
    requires TaskFits(s.db, s.hist, task) && Reads(task) && CodesFit(s.db, s.hist)
    ensures var (s', task') := TaskStep(s, task, now);
      && s' == s && TaskFits(s.db, s.hist, task')
      && (MintingLogin(task').Some? ==> MintingLogin(task') == MintingLogin(task))
  {
    if task.SelectCode? && task.request.code in s.db.codes {
      var row := s.db.codes[task.request.code];
      assert row.consumedAt.None? ==> row.(consumedAt := None) == row;
    }
  }

  /** Statements that only take rights away. */
  predicate Weakens(task: Task) {
    match task
    case RevokeRefresh(_, _) => true
    case Bump(_, _) => true
    case NoteRevocation(_, _) => true
    case PurgeHandoffs(_, _) => true
    case _ => false
  }

  lemma WeakenStepIsWeaker(s: State, task: Task, now: int)
    requires TaskFits(s.db, s.hist, task) && Weakens(task)
    ensures var (s', task') := TaskStep(s, task, now);
      && s' == s.(db := s'.db) && Weaker(s.db, s'.db)
      && TaskFits(s'.db, s'.hist, task') && MintingLogin(task').None?
  {
  }

  lemma WeakenThenMove(s: State, tasks: map<nat, Task>, pid: nat, db': Database, task': Task)
    requires Inv(s, tasks) && Weaker(s.db, db')
    requires TaskFits(db', s.hist, task') && MintingLogin(task').None?
    ensures Inv(s.(db := db'), tasks[pid := task'])
  {
    hide Inv;
    WeakerKeepsInv(s, tasks, db');
    MoveTask(s.(db := db'), tasks, pid, task');
  }

  lemma WeakenStep(s: State, tasks: map<nat, Task>, pid: nat, now: int)
    requires Inv(s, tasks) && pid in tasks && Weakens(tasks[pid])
    ensures Shaped(tasks[pid])
    ensures var (s', task') := TaskStep(s, tasks[pid], now); Inv(s', tasks[pid := task'])
  {
    hide Inv;
    FitsAt(s, tasks, pid);
    var (s', task') := TaskStep(s, tasks[pid], now);
    WeakenStepIsWeaker(s, tasks[pid], now);
    WeakenThenMove(s, tasks, pid, s'.db, task');
  }

  lemma FitsAt(s: State, tasks: map<nat, Task>, pid: nat)
    requires Inv(s, tasks) && pid in tasks
    ensures TaskFits(s.db, s.hist, tasks[pid])
  {
  }

  // ---------------------------------------------------------------------------------------------
  // Statements that sign a credential
  // ---------------------------------------------------------------------------------------------

  lemma IssueThenMove(s: State, tasks: map<nat, Task>, pid: nat, c: Credential, login: nat, task': Task)
    requires Inv(s, tasks)
    requires login in s.hist.logins && CredentialFits(c, s.hist.logins[login])
    requires !IsRefresh(c) && Drawn(s.hist, c)
    requires TaskFits(s.db, s.hist, task')
    requires MintingLogin(task').Some? ==> pid in tasks && MintingLogin(task') == MintingLogin(tasks[pid])
    ensures Inv(s.(hist := Issue(s.hist, c, login)), tasks[pid := task'])
  {
    hide Inv;
    MoveTask(s, tasks, pid, task');
    IssueKeepsInv(s, tasks[pid := task'], c, login);
  }

  /** The credential of a fitting task descends from a known login. */
  lemma RootKnown(s: State, tasks: map<nat, Task>, c: Credential)
    requires Inv(s, tasks) && c in s.hist.root
    ensures var l := RootOf(s.hist, c);
      l in s.hist.logins && CredentialFits(c, s.hist.logins[l]) && CredentialId(c) < s.hist.next
  {
  }

  lemma AccessFits(h: History, m: Minting, now: int)
    requires MintingFits(h, m)
    ensures CredentialFits(
              Central(Claims(m.user, AccessToken, Min(now + ACCESS_TOKEN_LIFETIME, m.expiresAt), now, h.next,
                             Some(m.expiresAt), m.version, Some(m.authTime))),
              h.logins[m.login])
  {
  }

  lemma MintAccessStep(s: State, tasks: map<nat, Task>, pid: nat, now: int)
    requires Inv(s, tasks) && pid in tasks && tasks[pid].MintAccess?
    ensures var (s', task') := TaskStep(s, tasks[pid], now); Inv(s', tasks[pid := task'])
  {
    hide Inv;
    FitsAt(s, tasks, pid);
    var m := tasks[pid].minting;
    var task' := TaskStep(s, tasks[pid], now).1;
    AccessFits(s.hist, m, now);
    IssueThenMove(s, tasks, pid, Central(task'.access), m.login, task');
  }

  /** Tokens minted from a code inherit what the code inherited. */
  lemma OidcFits(l: Login, code: nat, row: CodeRow, now: int, jti: nat)
    requires CredentialFits(AuthorizationCode(code, row), l)
    ensures var exp := now + OIDC_TOKEN_LIFETIME;
      var cut := Min(exp, UnwrapOr(row.sessionExp, exp));
      && CredentialFits(IdToken(IdClaims(row.user, row.application, cut, now, row.authTime, row.version), code), l)
      && CredentialFits(OidcAccess(OidcClaims(row.user, row.application, cut, now, jti, row.version)), l)
  {
  }

  lemma MintOidcStep(s: State, tasks: map<nat, Task>, pid: nat, now: int)
    requires Inv(s, tasks) && pid in tasks
    requires tasks[pid].Ready? && tasks[pid].goal.MintOidc?
    ensures var (s', task') := TaskStep(s, tasks[pid], now); Inv(s', tasks[pid := task'])
  {
    hide Inv;
    FitsAt(s, tasks, pid);
    var goal := tasks[pid].goal;
    var (s', task') := TaskStep(s, tasks[pid], now);
    if task'.MintOidcAccess? {
      var code := AuthorizationCode(goal.code, goal.row);
      var login := RootOf(s.hist, code);
      RootKnown(s, tasks, code);
      OidcFits(s.hist.logins[login], goal.code, goal.row, now, s.hist.next);
      IssueThenMove(s, tasks, pid, IdToken(task'.idToken, goal.code), login, task');
    } else {
      MoveTask(s, tasks, pid, task');
    }
  }

  lemma MintOidcAccessStep(s: State, tasks: map<nat, Task>, pid: nat, now: int)
    requires Inv(s, tasks) && pid in tasks && tasks[pid].MintOidcAccess?
    ensures var (s', task') := TaskStep(s, tasks[pid], now); Inv(s', tasks[pid := task'])
  {
    hide Inv;
    FitsAt(s, tasks, pid);
    var (code, row) := (tasks[pid].code, tasks[pid].row);
    var (s', task') := TaskStep(s, tasks[pid], now);
    var login := RootOf(s.hist, AuthorizationCode(code, row));
    RootKnown(s, tasks, AuthorizationCode(code, row));
    OidcFits(s.hist.logins[login], code, row, now, s.hist.next);
    IssueThenMove(s, tasks, pid, OidcAccess(task'.outcome.access), login, task');
  }

  lemma InsertCodeKeepsInv(s: State, tasks: map<nat, Task>, id: nat, row: CodeRow)
    requires Inv(s, tasks)
    requires AuthorizationCode(id, row) in s.hist.root && row.consumedAt.None?
    requires forall i :: 0 <= i < |s.hist.exchanged| ==> s.hist.exchanged[i].code != id
    ensures Inv(s.(db := s.db.(codes := s.db.codes[id := row])), tasks)
  {
    hide Inv;
    var db' := s.db.(codes := s.db.codes[id := row]);
    assert row.(consumedAt := None) == row;
    TablesFit(s, tasks);
    CodesOnly(s, tasks, db', s.hist);
  }

  /** Tables of codes and handoffs and their logs are seen by their own parts of the invariant only. */
  lemma CodesOnly(s: State, tasks: map<nat, Task>, db': Database, h': History)
    requires Inv(s, tasks)
    requires db' == s.db.(codes := db'.codes, handoffs := db'.handoffs)
    requires h' == s.hist.(exchanged := h'.exchanged, redeemed := h'.redeemed)
    requires CodesFit(db', h') && HandoffsFit(db', h')
    ensures Inv(s.(db := db', hist := h'), tasks)
  {
    CodesOnlyRows(s.db, s.hist, db', h');
    CodesOnlyTasks(s.db, s.hist, tasks, db', h');
    CodesOnlyChains(s.hist, h');
    CodesOnlyLogins(s.db, s.hist, db', h');
  }

  lemma CodesOnlyRows(db: Database, h: History, db': Database, h': History)
    requires RowsFit(db, h) && db'.refresh == db.refresh
    requires h' == h.(exchanged := h'.exchanged, redeemed := h'.redeemed)
    ensures RowsFit(db', h')
  {
    forall t | t in db'.refresh ensures RowFits(h', t, db'.refresh[t]) {
      assert RowFits(h, t, db.refresh[t]);
    }
  }

  lemma CodesOnlyTasks(db: Database, h: History, tasks: map<nat, Task>, db': Database, h': History)
    requires TasksFit(db, h, tasks) && MintingExclusive(db, h, tasks)
    requires db'.refresh == db.refresh && db'.users == db.users
    requires h' == h.(exchanged := h'.exchanged, redeemed := h'.redeemed)
    ensures TasksFit(db', h', tasks) && MintingExclusive(db', h', tasks)
  {
    forall pid | pid in tasks ensures TaskFits(db', h', tasks[pid]) {
      assert TaskFits(db, h, tasks[pid]);
    }
    forall pid, token | pid in tasks && MintingLogin(tasks[pid]).Some?
      ensures !LiveRowOf(db', h', token, MintingLogin(tasks[pid]).value)
    {
      assert !LiveRowOf(db, h, token, MintingLogin(tasks[pid]).value);
    }
  }

  lemma CodesOnlyChains(h: History, h': History)
    requires CodesUnique(h) && ChainsFit(h)
    requires h' == h.(exchanged := h'.exchanged, redeemed := h'.redeemed)
    ensures CodesUnique(h') && ChainsFit(h')
  {
    forall l | l in h'.chain ensures l in h'.logins && ChainFits(h', l, h'.chain[l]) {
      assert ChainFits(h, l, h.chain[l]);
    }
  }

  lemma CodesOnlyLogins(db: Database, h: History, db': Database, h': History)
    requires LoginsFit(h) && CredentialsFit(h) && UsersFit(db, h)
    requires db'.users == db.users
    requires h' == h.(exchanged := h'.exchanged, redeemed := h'.redeemed)
    ensures LoginsFit(h') && CredentialsFit(h') && UsersFit(db', h')
  {
  }

  /** A code or handoff inherits from the central token it was opened with. */
  lemma DerivedFits(l: Login, parent: Claims, c: Credential)
    requires CredentialFits(Central(parent), l)
    requires CredentialUser(c) == parent.sub && CredentialVersion(c) == parent.version
    requires CredentialExpiry(c) <= parent.Deadline()
    requires c.AuthorizationCode? || c.HandoffToken?
    requires c.AuthorizationCode? ==>
      c.row.sessionExp == Some(parent.Deadline()) && c.row.authTime == parent.AuthenticatedAt()
    requires c.HandoffToken? ==> c.handoff.session.exp == parent.Deadline()
    ensures CredentialFits(c, l)
  {
  }

  lemma StoreCodeThenMove(s: State, tasks: map<nat, Task>, pid: nat, row: CodeRow, login: nat, task': Task)
    requires Inv(s, tasks)
    requires login in s.hist.logins && row.consumedAt.None?
    requires CredentialFits(AuthorizationCode(s.hist.next, row), s.hist.logins[login])
    requires task'.Done?
    ensures Inv(s.(db := s.db.(codes := s.db.codes[s.hist.next := row]),
                   hist := Issue(s.hist, AuthorizationCode(s.hist.next, row), login)),
                tasks[pid := task'])
  {
    hide Inv;
    var id := s.hist.next;
    var c := AuthorizationCode(id, row);
    ExchangedBefore(s, tasks);
    IssueThenMove(s, tasks, pid, c, login, task');
    InsertCodeKeepsInv(s.(hist := Issue(s.hist, c, login)), tasks[pid := task'], id, row);
  }

  lemma StoreCodeStep(s: State, tasks: map<nat, Task>, pid: nat, now: int)
    requires Inv(s, tasks) && pid in tasks && tasks[pid].InsertCode?
    ensures Shaped(tasks[pid])
    ensures var (s', task') := TaskStep(s, tasks[pid], now); Inv(s', tasks[pid := task'])
  {
    hide Inv;
    FitsAt(s, tasks, pid);
    var parent := tasks[pid].request.parent;
    var (s', task') := StoreCode(s, tasks[pid].request, now);
    if task'.outcome.CodeIssued? {
      var c := AuthorizationCode(s.hist.next, s'.db.codes[s.hist.next]);
      var login := RootOf(s.hist, Central(parent));
      RootKnown(s, tasks, Central(parent));
      DerivedFits(s.hist.logins[login], parent, c);
      StoreCodeThenMove(s, tasks, pid, c.row, login, task');
    } else {
      MoveTask(s, tasks, pid, task');
    }
  }

  lemma ExchangedBefore(s: State, tasks: map<nat, Task>)
    requires Inv(s, tasks)
    ensures forall i :: 0 <= i < |s.hist.exchanged| ==> s.hist.exchanged[i].code < s.hist.next
    ensures forall i :: 0 <= i < |s.hist.redeemed| ==> s.hist.redeemed[i].jti < s.hist.next
  {
    forall i | 0 <= i < |s.hist.exchanged| ensures s.hist.exchanged[i].code < s.hist.next {
      var e := s.hist.exchanged[i];
      RootKnown(s, tasks, AuthorizationCode(e.code, e.row));
    }
    forall i | 0 <= i < |s.hist.redeemed| ensures s.hist.redeemed[i].jti < s.hist.next {
      RootKnown(s, tasks, HandoffToken(s.hist.redeemed[i]));
    }
  }

  lemma StoreHandoffStep(s: State, tasks: map<nat, Task>, pid: nat, now: int)
    requires Inv(s, tasks) && pid in tasks && tasks[pid].InsertHandoff?
    ensures Shaped(tasks[pid])
    ensures var (s', task') := TaskStep(s, tasks[pid], now); Inv(s', tasks[pid := task'])
  {
    hide Inv;
    FitsAt(s, tasks, pid);
    var parent := tasks[pid].goal.parent;
    var (s', task') := TaskStep(s, tasks[pid], now);
    if task'.outcome.HandedOff? {
      var c := HandoffToken(task'.outcome.handoff);
      var login := RootOf(s.hist, Central(parent));
      RootKnown(s, tasks, Central(parent));
      DerivedFits(s.hist.logins[login], parent, c);
      ExchangedBefore(s, tasks);
      IssueThenMove(s, tasks, pid, c, login, task');
      var issued := s.(hist := Issue(s.hist, c, login));
      TablesFit(issued, tasks[pid := task']);
      CodesOnly(issued, tasks[pid := task'], s'.db, s'.hist);
    } else {
      MoveTask(s, tasks, pid, task');
    }
  }

  lemma TablesFit(s: State, tasks: map<nat, Task>)
    requires Inv(s, tasks)
    ensures CodesFit(s.db, s.hist) && HandoffsFit(s.db, s.hist) && CodesUnique(s.hist)
  {
  }

  lemma RedeemStep(s: State, tasks: map<nat, Task>, pid: nat, now: int)
    requires Inv(s, tasks) && pid in tasks && tasks[pid].Ready? && tasks[pid].goal.RedeemHandoff?
    ensures var (s', task') := TaskStep(s, tasks[pid], now); Inv(s', tasks[pid := task'])
  {
    hide Inv;
    FitsAt(s, tasks, pid);
    var handoff := tasks[pid].goal.handoff;
    var (s', task') := TaskStep(s, tasks[pid], now);
    if task'.outcome.Redeemed? {
      var c := ForwardToken(handoff.session, handoff.jti);
      var login := RootOf(s.hist, HandoffToken(handoff));
      RootKnown(s, tasks, HandoffToken(handoff));
      IssueThenMove(s, tasks, pid, c, login, task');
      var issued := s.(hist := Issue(s.hist, c, login));
      TablesFit(issued, tasks[pid := task']);
      RedeemedFits(issued.db, issued.hist, handoff);
      CodesOnly(issued, tasks[pid := task'], s'.db, s'.hist);
    } else {
      MoveTask(s, tasks, pid, task');
    }
  }

  lemma RedeemedFits(db: Database, h: History, handoff: Handoff)
    requires HandoffsFit(db, h) && handoff.jti in db.handoffs && HandoffToken(handoff) in h.root
    ensures HandoffsFit(db.(handoffs := db.handoffs - {handoff.jti}), h.(redeemed := h.redeemed + [handoff]))
  {
  }

  lemma ConsumeCodeResult(s: State, task: Task)
    requires TaskFits(s.db, s.hist, task) && task.TakeCode?
    ensures var (s', task') := ConsumeCode(s, task.request, task.row, task.now);
      && TaskFits(s.db, s.hist, task') && MintingLogin(task').None?
      && (s' == s
          || (&& task.request.code in s.db.codes && Redeemable(s.db.codes[task.request.code], task.now)
              && task'.Check?))
  {
  }

  lemma ConsumeCodeStep(s: State, tasks: map<nat, Task>, pid: nat, now: int)
    requires Inv(s, tasks) && pid in tasks && tasks[pid].TakeCode?
    ensures Shaped(tasks[pid])
    ensures var (s', task') := TaskStep(s, tasks[pid], now); Inv(s', tasks[pid := task'])
  {
    hide Inv;
    FitsAt(s, tasks, pid);
    var task := tasks[pid];
    ConsumeCodeResult(s, task);
    var (s', task') := ConsumeCode(s, task.request, task.row, task.now);
    MoveTask(s, tasks, pid, task');
    if s' != s {
      TakenCode(s, tasks[pid := task'], task.request, task.row, task.now);
    }
  }

  lemma TakenCode(s: State, tasks: map<nat, Task>, request: Request, row: CodeRow, now: int)
    requires Inv(s, tasks) && request.ExchangeCode?
    requires request.code in s.db.codes && Redeemable(s.db.codes[request.code], now)
    requires AuthorizationCode(request.code, row) in s.hist.root
    requires CodeBindingsHold(row, request.application, request.redirectUri, request.verifier)
    ensures Inv(ConsumeCode(s, request, row, now).0, tasks)
  {
    hide Inv;
    TablesFit(s, tasks);
    ExchangedFits(s.db, s.hist, request, row, now);
    var s' := ConsumeCode(s, request, row, now).0;
    CodesOnly(s, tasks, s'.db, s'.hist);
  }

  lemma ExchangedFits(db: Database, h: History, request: Request, row: CodeRow, now: int)
    requires CodesFit(db, h) && request.ExchangeCode?
    requires request.code in db.codes && Redeemable(db.codes[request.code], now)
    requires AuthorizationCode(request.code, row) in h.root
    requires CodeBindingsHold(row, request.application, request.redirectUri, request.verifier)
    ensures
      var id := request.code;
      var db' := db.(codes := db.codes[id := db.codes[id].(consumedAt := Some(now))]);
      var h' := h.(exchanged := h.exchanged +
        [Exchange(id, row, request.application, request.redirectUri, request.verifier)]);
      CodesFit(db', h')
  {
    var id := request.code;
    var db' := db.(codes := db.codes[id := db.codes[id].(consumedAt := Some(now))]);
    assert db'.codes[id].(consumedAt := None) == db.codes[id].(consumedAt := None);
  }

  // ---------------------------------------------------------------------------------------------
  // Spending a refresh token, logging in, and minting the next refresh token
  // ---------------------------------------------------------------------------------------------

  /** A task may start minting for a login that has no live refresh token and no minting task. */
  lemma StartMinting(s: State, tasks: map<nat, Task>, pid: nat, task: Task)
    requires Inv(s, tasks) && TaskFits(s.db, s.hist, task) && MintingLogin(task).Some?
    requires forall token :: !LiveRowOf(s.db, s.hist, token, MintingLogin(task).value)
    requires forall q :: q in tasks && q != pid ==> MintingLogin(tasks[q]) != MintingLogin(task)
    ensures Inv(s, tasks[pid := task])
  {
    MoveTaskFits(s.db, s.hist, tasks, pid, task);
    StartMintingExclusive(s.db, s.hist, tasks, pid, task);
  }

  lemma StartMintingExclusive(db: Database, h: History, tasks: map<nat, Task>, pid: nat, task: Task)
    requires MintingExclusive(db, h, tasks) && MintingLogin(task).Some?
    requires forall token :: !LiveRowOf(db, h, token, MintingLogin(task).value)
    requires forall q :: q in tasks && q != pid ==> MintingLogin(tasks[q]) != MintingLogin(task)
    ensures MintingExclusive(db, h, tasks[pid := task])
  {
    var tasks' := tasks[pid := task];
    forall p, token | p in tasks' && MintingLogin(tasks'[p]).Some?
      ensures !LiveRowOf(db, h, token, MintingLogin(tasks'[p]).value)
    {
      if p != pid { assert tasks'[p] == tasks[p]; }
    }
    forall p, q | p in tasks' && q in tasks' && p != q && MintingLogin(tasks'[p]).Some?
      ensures MintingLogin(tasks'[p]) != MintingLogin(tasks'[q])
    {
      if p != pid { assert tasks'[p] == tasks[p]; }
      if q != pid { assert tasks'[q] == tasks[q]; }
    }
  }

  /** Spending the live refresh token of a login leaves the login without one. */
  lemma SpendLeavesNoneLive(db: Database, h: History, tasks: map<nat, Task>, pid: nat, token: Claims, now: int)
    requires RowsFit(db, h) && MintingExclusive(db, h, tasks) && Spendable(db, token, now)
    ensures var l := RootOf(h, Central(token));
      && (forall t :: !LiveRowOf(MarkRevoked(db, token, now), h, t, l))
      && (forall q :: q in tasks ==> MintingLogin(tasks[q]) != Some(l))
  {
    var l := RootOf(h, Central(token));
    assert RowFits(h, token, db.refresh[token]);
    assert LiveRowOf(db, h, token, l);
    forall t ensures !LiveRowOf(MarkRevoked(db, token, now), h, t, l) {
      if t != token && t in db.refresh { assert RowFits(h, t, db.refresh[t]); }
    }
  }

  lemma MarkIsWeaker(db: Database, token: Claims, now: int)
    requires token in db.refresh
    ensures Weaker(db, MarkRevoked(db, token, now))
  {
  }

  /** The minting that follows a spent refresh token continues its login. */
  lemma SpentTokenMints(db: Database, h: History, goal: Goal)
    requires goal.Spend? && GoalFits(db, h, goal, true)
    requires RowsFit(db, h) && CredentialsFit(h) && LoginsFit(h)
    requires goal.token in db.refresh && db.refresh[goal.token].revokedAt.None?
    ensures var token := goal.token;
      MintingFits(h, Minting(token.sub, Min(token.Deadline(), token.exp), Some(UnwrapOr(token.version, goal.before)),
                             token.AuthenticatedAt(), RootOf(h, Central(token)), Some(token)))
  {
    var l := RootOf(h, Central(goal.token));
    assert CredentialFits(Central(goal.token), h.logins[l]);
    assert RowFits(h, goal.token, db.refresh[goal.token]);
  }

  lemma SpendResult(s: State, task: Task, now: int)
    requires TaskFits(s.db, s.hist, task) && task.Ready? && task.goal.Spend?
    requires RowsFit(s.db, s.hist) && CredentialsFit(s.hist) && LoginsFit(s.hist)
    ensures var (s', task') := Perform(s, task.goal, now);
      var token := task.goal.token;
      && (!Spendable(s.db, token, now) ==> s' == s && task'.ReplayLookup?)
      && (Spendable(s.db, token, now) ==>
            && s' == s.(db := MarkRevoked(s.db, token, now)) && Weaker(s.db, s'.db)
            && TaskFits(s'.db, s'.hist, task')
            && (if task.goal.purpose.ToLogOut? then MintingLogin(task').None?
                else MintingLogin(task') == Some(RootOf(s.hist, Central(token)))))
  {
    hide Weaker, MintingFits, RowsFit, CredentialsFit, LoginsFit, MarkRevoked, GoalFits;
    if Spendable(s.db, task.goal.token, now) {
      MarkIsWeaker(s.db, task.goal.token, now);
      SpentTokenMints(s.db, s.hist, task.goal);
    }
  }

  lemma SpendStep(s: State, tasks: map<nat, Task>, pid: nat, now: int)
    requires Inv(s, tasks) && pid in tasks && tasks[pid].Ready? && tasks[pid].goal.Spend?
    ensures var (s', task') := TaskStep(s, tasks[pid], now); Inv(s', tasks[pid := task'])
  {
    FitsAt(s, tasks, pid);
    var goal := tasks[pid].goal;
    SpendResult(s, tasks[pid], now);
    var (s', task') := Perform(s, goal, now);
    if !Spendable(s.db, goal.token, now) {
      MoveTask(s, tasks, pid, task');
    } else if goal.purpose.ToLogOut? {
      WeakenThenMove(s, tasks, pid, s'.db, task');
    } else {
      SpendLeavesNoneLive(s.db, s.hist, tasks, pid, goal.token, now);
      WeakerKeepsInv(s, tasks, s'.db);
      StartMinting(s', tasks, pid, task');
    }
  }

  function AddLogin(h: History, l: Login): History {
    h.(next := h.next + 1, logins := h.logins[h.next := l], chain := h.chain[h.next := []])
  }

  lemma AddLoginGrows(h: History, l: Login)
    requires LoginsFit(h)
    ensures Grows(h, AddLogin(h, l)) && h.next !in h.logins
  {
  }

  lemma AddLoginKeepsChains(h: History, l: Login)
    requires ChainsFit(h) && h.next !in h.logins
    ensures ChainsFit(AddLogin(h, l))
  {
    var h' := AddLogin(h, l);
    forall k | k in h'.chain ensures k in h'.logins && ChainFits(h', k, h'.chain[k]) {
      if k != h.next { assert ChainFits(h, k, h.chain[k]); }
    }
  }

  lemma AddLoginKeepsCredentials(h: History, l: Login)
    requires CredentialsFit(h) && h.next !in h.logins
    ensures CredentialsFit(AddLogin(h, l))
  {
    var h' := AddLogin(h, l);
    forall c | c in h'.root
      ensures && CredentialId(c) < h'.next
              && h'.root[c] in h'.logins
              && CredentialFits(c, h'.logins[h'.root[c]])
              && (IsRefresh(c) ==> c.claims in ChainOf(h', h'.root[c]))
    {
      assert h.root[c] in h.logins && h.root[c] != h.next;
    }
  }

  lemma AddLoginKeepsUsers(db: Database, h: History, l: Login)
    requires LoginsFit(h) && CodesUnique(h) && UsersFit(db, h)
    requires l.user in db.users && l.generation <= db.users[l.user].version && !l.legacy && l.deadline.Some?
    ensures var h' := AddLogin(h, l); LoginsFit(h') && CodesUnique(h') && UsersFit(db, h')
  {
  }

  lemma AddLoginKeepsTables(db: Database, h: History, tasks: map<nat, Task>, l: Login)
    requires LoginsFit(h) && CredentialsFit(h)
    requires RowsFit(db, h) && TasksFit(db, h, tasks) && MintingExclusive(db, h, tasks)
    requires CodesFit(db, h) && HandoffsFit(db, h) && Grows(h, AddLogin(h, l))
    ensures var h' := AddLogin(h, l);
      && RowsFit(db, h') && TasksFit(db, h', tasks) && MintingExclusive(db, h', tasks)
      && CodesFit(db, h') && HandoffsFit(db, h')
  {
    var h' := AddLogin(h, l);
    forall t | t in db.refresh ensures RowFits(h', t, db.refresh[t]) {
      var row := db.refresh[t];
      assert RowFits(h, t, row);
      assert h.root[Central(t)] != h.next;
      if row.retryPair.Some? { RetryStillFits(h, h', t, row.retryUntil.value, row.retryPair.value); }
    }
    forall pid | pid in tasks ensures TaskFits(db, h', tasks[pid]) {
      assert TaskFits(db, h, tasks[pid]);
      TaskStillFits(db, h, h', tasks[pid]);
    }
    forall pid, token | pid in tasks && MintingLogin(tasks[pid]).Some?
      ensures !LiveRowOf(db, h', token, MintingLogin(tasks[pid]).value)
    {
      assert !LiveRowOf(db, h, token, MintingLogin(tasks[pid]).value);
    }
  }

  /** A login's identifier is new, so nothing descends from it or mints for it yet. */
  lemma NewLoginIsUnused(s: State, tasks: map<nat, Task>)
    requires Inv(s, tasks)
    ensures forall token :: !LiveRowOf(s.db, s.hist, token, s.hist.next)
    ensures forall q :: q in tasks ==> MintingLogin(tasks[q]) != Some(s.hist.next)
  {
    forall token ensures !LiveRowOf(s.db, s.hist, token, s.hist.next) {
      if token in s.db.refresh { assert RowFits(s.hist, token, s.db.refresh[token]); }
    }
    forall q | q in tasks ensures MintingLogin(tasks[q]) != Some(s.hist.next) {
      assert TaskFits(s.db, s.hist, tasks[q]);
    }
  }

  lemma AddLoginKeepsInv(s: State, tasks: map<nat, Task>, l: Login)
    requires Inv(s, tasks)
    requires l.user in s.db.users && l.generation <= s.db.users[l.user].version && !l.legacy && l.deadline.Some?
    ensures Inv(s.(hist := AddLogin(s.hist, l)), tasks)
  {
    AddLoginGrows(s.hist, l);
    AddLoginKeepsChains(s.hist, l);
    AddLoginKeepsCredentials(s.hist, l);
    AddLoginKeepsUsers(s.db, s.hist, l);
    AddLoginKeepsTables(s.db, s.hist, tasks, l);
  }

  lemma LoginThenMint(s: State, tasks: map<nat, Task>, pid: nat, l: Login, m: Minting)
    requires Inv(s, tasks)
    requires l.user in s.db.users && l.generation <= s.db.users[l.user].version && !l.legacy && l.deadline.Some?
    requires m == Minting(l.user, l.deadline.value, Some(l.generation), l.authTime, s.hist.next, None)
    ensures Inv(s.(hist := AddLogin(s.hist, l)), tasks[pid := MintRemaining(m)])
  {
    hide Inv;
    NewLoginIsUnused(s, tasks);
    AddLoginKeepsInv(s, tasks, l);
    NewLoginLive(s.db, s.hist, tasks, l);
    StartMinting(s.(hist := AddLogin(s.hist, l)), tasks, pid, MintRemaining(m));
  }

  lemma LoginResult(s: State, task: Task, now: int)
    requires task.LoginGeneration?
    ensures var (s', task') := TaskStep(s, task, now);
      (s' == s && task' == Done(Rejected))
      || (&& task.user in s.db.users
          && var v := s.db.users[task.user].version;
             && s' == s.(hist := AddLogin(s.hist, Login(task.user, v, Some(task.expiresAt), now, false)))
             && task' == MintRemaining(Minting(task.user, task.expiresAt, Some(v), now, s.hist.next, None)))
  {
  }

  lemma LoginStep(s: State, tasks: map<nat, Task>, pid: nat, now: int)
    requires Inv(s, tasks) && pid in tasks && tasks[pid].LoginGeneration?
    ensures var (s', task') := TaskStep(s, tasks[pid], now); Inv(s', tasks[pid := task'])
  {
    hide Inv;
    LoginResult(s, tasks[pid], now);
    var (s', task') := TaskStep(s, tasks[pid], now);
    if s' == s {
      MoveTask(s, tasks, pid, task');
    } else {
      var v := s.db.users[tasks[pid].user].version;
      LoginThenMint(s, tasks, pid, Login(tasks[pid].user, v, Some(tasks[pid].expiresAt), now, false), task'.minting);
    }
  }

  lemma NewLoginLive(db: Database, h: History, tasks: map<nat, Task>, l: Login)
    requires forall token :: !LiveRowOf(db, h, token, h.next)
    ensures forall token :: !LiveRowOf(db, AddLogin(h, l), token, h.next)
  {
    forall token ensures !LiveRowOf(db, AddLogin(h, l), token, h.next) {
      assert !LiveRowOf(db, h, token, h.next);
    }
  }

  /** The history after the next refresh token of a chain has been signed. */
  function Extend(h: History, token: Claims, login: nat, parent: Option<Claims>): History {
    var h' := Issue(h, Central(token), login);
    h'.(chain := h'.chain[login := ChainOf(h, login) + [token]],
        parent := if parent.Some? then h'.parent[token := parent.value] else h'.parent)
  }

  /** `token` is a new refresh token that continues the chain of its login. */
  predicate Continues(h: History, token: Claims, login: nat, parent: Option<Claims>) {
    && token.typ.RefreshToken? && token.jti == h.next
    && login in h.logins && CredentialFits(Central(token), h.logins[login])
    && var chain := ChainOf(h, login);
       if parent.Some? then chain != [] && chain[|chain| - 1] == parent.value else chain == []
  }

  lemma ExtendGrows(h: History, token: Claims, login: nat, parent: Option<Claims>)
    requires CredentialsFit(h) && ChainsFit(h) && Continues(h, token, login, parent)
    ensures Grows(h, Extend(h, token, login, parent)) && Central(token) !in h.root && token !in h.parent
  {
  }

  lemma ExtendKeepsChains(h: History, token: Claims, login: nat, parent: Option<Claims>)
    requires ChainsFit(h) && Continues(h, token, login, parent)
    requires Central(token) !in h.root && token !in h.parent
    ensures ChainsFit(Extend(h, token, login, parent))
  {
    var h' := Extend(h, token, login, parent);
    var chain := ChainOf(h, login);
    forall k | k in h'.chain ensures k in h'.logins && ChainFits(h', k, h'.chain[k]) {
      hide ChainFits;
      if k in h.chain { OldChainFits(h, token, login, parent, k, h.chain[k]); }
      if k == login {
        if k !in h.chain { NoChainFits(h', k); }
        LongerChainFits(h', login, chain, token);
      }
    }
  }

  lemma OldChainFits(h: History, token: Claims, login: nat, parent: Option<Claims>, k: nat, chain: seq<Claims>)
    requires ChainFits(h, k, chain) && Central(token) !in h.root && token !in h.parent
    ensures ChainFits(Extend(h, token, login, parent), k, chain) && token !in chain
  {
    assert forall i :: 0 <= i < |chain| ==> Central(chain[i]) in h.root;
  }

  lemma NoChainFits(h: History, k: nat)
    ensures ChainFits(h, k, [])
  {
  }

  /** A token of the same login, whose parent is the end of the chain if there is one, extends the chain. */
  lemma LongerChainFits(h: History, k: nat, chain: seq<Claims>, token: Claims)
    requires ChainFits(h, k, chain) && token !in chain && token.typ.RefreshToken?
    requires Central(token) in h.root && h.root[Central(token)] == k
    requires if chain == [] then token !in h.parent
             else token in h.parent && h.parent[token] == chain[|chain| - 1]
    ensures ChainFits(h, k, chain + [token])
  {
  }

  lemma ExtendKeepsCredentials(h: History, token: Claims, login: nat, parent: Option<Claims>)
    requires LoginsFit(h) && CredentialsFit(h) && CodesUnique(h) && Continues(h, token, login, parent)
    requires Central(token) !in h.root
    ensures var h' := Extend(h, token, login, parent);
      LoginsFit(h') && CredentialsFit(h') && CodesUnique(h')
  {
    var h' := Extend(h, token, login, parent);
    forall c | c in h'.root
      ensures && CredentialId(c) < h'.next
              && h'.root[c] in h'.logins
              && CredentialFits(c, h'.logins[h'.root[c]])
              && (IsRefresh(c) ==> c.claims in ChainOf(h', h'.root[c]))
    {
      if c == Central(token) {
        assert ChainOf(h', login)[|ChainOf(h, login)|] == token;
      } else {
        assert c in h.root;
      }
    }
  }

  /** The old rows still fit, and the new row is the live end of its chain. */
  lemma ExtendKeepsRows(db: Database, h: History, token: Claims, login: nat, parent: Option<Claims>, row: RefreshRow)
    requires RowsFit(db, h) && Continues(h, token, login, parent) && Central(token) !in h.root
    requires Grows(h, Extend(h, token, login, parent))
    requires forall t :: !LiveRowOf(db, h, t, login)
    requires row == RefreshRow(token.sub, token.exp, row.createdAt, None, None, None)
    ensures RowsFit(db.(refresh := db.refresh[token := row]), Extend(h, token, login, parent))
  {
    var h' := Extend(h, token, login, parent);
    var db' := db.(refresh := db.refresh[token := row]);
    forall t | t in db'.refresh ensures RowFits(h', t, db'.refresh[t]) {
      if t == token {
        assert ChainOf(h', login) == ChainOf(h, login) + [token];
      } else {
        var before := db.refresh[t];
        assert RowFits(h, t, before) && !LiveRowOf(db, h, t, login);
        if before.retryPair.Some? { RetryStillFits(h, h', t, before.retryUntil.value, before.retryPair.value); }
      }
    }
  }

  lemma ExtendKeepsTables(db: Database, h: History, token: Claims, login: nat, parent: Option<Claims>, row: RefreshRow)
    requires LoginsFit(h) && UsersFit(db, h) && CodesFit(db, h) && HandoffsFit(db, h)
    requires Grows(h, Extend(h, token, login, parent))
    ensures var (db', h') := (db.(refresh := db.refresh[token := row]), Extend(h, token, login, parent));
      UsersFit(db', h') && CodesFit(db', h') && HandoffsFit(db', h')
  {
  }

  /** The other tasks mint for other logins, so the new live row is none of theirs. */
  lemma ExtendKeepsTasks(db: Database, h: History, tasks: map<nat, Task>, pid: nat,
                         token: Claims, login: nat, parent: Option<Claims>, row: RefreshRow)
    requires RowsFit(db, h) && TasksFit(db, h, tasks) && MintingExclusive(db, h, tasks)
    requires pid in tasks && MintingLogin(tasks[pid]) == Some(login)
    requires Continues(h, token, login, parent) && Grows(h, Extend(h, token, login, parent))
    ensures var (db', h') := (db.(refresh := db.refresh[token := row]), Extend(h, token, login, parent));
      TasksFit(db', h', tasks - {pid}) && MintingExclusive(db', h', tasks - {pid})
  {
    var (db', h') := (db.(refresh := db.refresh[token := row]), Extend(h, token, login, parent));
    var others := tasks - {pid};
    forall p | p in others ensures TaskFits(db', h', others[p]) {
      assert TaskFits(db, h, tasks[p]);
      TaskStillFits(db, h, h', tasks[p]);
      assert TaskFits(db, h', tasks[p]);
    }
    forall p, t | p in others && MintingLogin(others[p]).Some?
      ensures !LiveRowOf(db', h', t, MintingLogin(others[p]).value)
    {
      assert !LiveRowOf(db, h, t, MintingLogin(tasks[p]).value);
      if t in db.refresh { assert RowFits(h, t, db.refresh[t]); }
    }
  }

  function ExtendState(s: State, token: Claims, login: nat, parent: Option<Claims>, row: RefreshRow): State {
    s.(db := s.db.(refresh := s.db.refresh[token := row]), hist := Extend(s.hist, token, login, parent))
  }

  lemma ExtendKeepsInv(s: State, tasks: map<nat, Task>, pid: nat,
                       token: Claims, login: nat, parent: Option<Claims>, row: RefreshRow)
    requires Inv(s, tasks) && pid in tasks && MintingLogin(tasks[pid]) == Some(login)
    requires Continues(s.hist, token, login, parent)
    requires row == RefreshRow(token.sub, token.exp, row.createdAt, None, None, None)
    ensures Inv(ExtendState(s, token, login, parent, row), tasks - {pid})
  {
    var (db, h) := (s.db, s.hist);
    ExtendGrows(h, token, login, parent);
    ExtendKeepsChains(h, token, login, parent);
    ExtendKeepsCredentials(h, token, login, parent);
    ExtendKeepsTables(db, h, token, login, parent, row);
    ExtendKeepsTasks(db, h, tasks, pid, token, login, parent, row);
    NoneLiveWhileMinting(db, h, tasks, pid, login);
    ExtendKeepsRows(db, h, token, login, parent, row);
  }

  lemma NoneLiveWhileMinting(db: Database, h: History, tasks: map<nat, Task>, pid: nat, login: nat)
    requires MintingExclusive(db, h, tasks) && pid in tasks && MintingLogin(tasks[pid]) == Some(login)
    ensures forall t :: !LiveRowOf(db, h, t, login)
  {
    forall t ensures !LiveRowOf(db, h, t, login) {
      assert !LiveRowOf(db, h, t, MintingLogin(tasks[pid]).value);
    }
  }

  lemma InsertRefreshResult(s: State, task: Task, now: int)
    requires TaskFits(s.db, s.hist, task) && task.MintRefresh?
    ensures var m := task.minting;
      var (s', task') := InsertRefresh(s, m, task.access, now);
      var token := Claims(m.user, RefreshToken, m.expiresAt, now, s.hist.next, Some(m.expiresAt), m.version,
                          Some(m.authTime));
      && task'.Done?
      && (s' == s
          || (&& Continues(s.hist, token, m.login, m.parent)
              && s' == s.(
                   db := s.db.(refresh := s.db.refresh[token := RefreshRow(token.sub, token.exp, now, None, None, None)]),
                   hist := Extend(s.hist, token, m.login, m.parent))
              && task' == Done(Minted(TokenPair(task.access, token)))))
  {
  }

  lemma MintedThenMove(s: State, tasks: map<nat, Task>, pid: nat, token: Claims, login: nat,
                       parent: Option<Claims>, row: RefreshRow, outcome: Outcome)
    requires Inv(s, tasks) && pid in tasks && MintingLogin(tasks[pid]) == Some(login)
    requires Continues(s.hist, token, login, parent)
    requires row == RefreshRow(token.sub, token.exp, row.createdAt, None, None, None)
    ensures Inv(ExtendState(s, token, login, parent, row), tasks[pid := Done(outcome)])
  {
    hide Inv;
    ExtendKeepsInv(s, tasks, pid, token, login, parent, row);
    Finish(ExtendState(s, token, login, parent, row), tasks, pid, outcome);
  }

  lemma Finish(s: State, tasks: map<nat, Task>, pid: nat, outcome: Outcome)
    requires Inv(s, tasks - {pid})
    ensures Inv(s, tasks[pid := Done(outcome)])
  {
    MoveTask(s, tasks - {pid}, pid, Done(outcome));
    assert (tasks - {pid})[pid := Done(outcome)] == tasks[pid := Done(outcome)];
  }

  lemma MintRefreshStep(s: State, tasks: map<nat, Task>, pid: nat, now: int)
    requires Inv(s, tasks) && pid in tasks && tasks[pid].MintRefresh?
    ensures var (s', task') := TaskStep(s, tasks[pid], now); Inv(s', tasks[pid := task'])
  {
    hide Inv;
    FitsAt(s, tasks, pid);
    var m := tasks[pid].minting;
    InsertRefreshResult(s, tasks[pid], now);
    var (s', task') := InsertRefresh(s, m, tasks[pid].access, now);
    if s' == s {
      MoveTask(s, tasks, pid, task');
    } else {
      var token := task'.outcome.pair.refresh;
      var row := RefreshRow(token.sub, token.exp, now, None, None, None);
      MintedThenMove(s, tasks, pid, token, m.login, m.parent, row, task'.outcome);
    }
  }

  // ---------------------------------------------------------------------------------------------
  // Every step, every request run to its end, and every run
  // ---------------------------------------------------------------------------------------------

  lemma TaskStepKeepsInv(s: State, tasks: map<nat, Task>, pid: nat, now: int)
    requires Inv(s, tasks) && pid in tasks && !tasks[pid].Done?
    ensures Shaped(tasks[pid])
    ensures var (s', task') := TaskStep(s, tasks[pid], now); Inv(s', tasks[pid := task'])
  {
    hide Inv;
    FitsAt(s, tasks, pid);
    var task := tasks[pid];
    if Reads(task) { ReadStep(s, tasks, pid, now); }
    else if Weakens(task) { WeakenStep(s, tasks, pid, now); }
    else {
      match task
      case LoginGeneration(_, _) => LoginStep(s, tasks, pid, now);
      case Ready(goal) =>
        if goal.Spend? { SpendStep(s, tasks, pid, now); }
        else if goal.RedeemHandoff? { RedeemStep(s, tasks, pid, now); }
        else { MintOidcStep(s, tasks, pid, now); }
      case MintAccess(_) => MintAccessStep(s, tasks, pid, now);
      case MintRefresh(_, _) => MintRefreshStep(s, tasks, pid, now);
      case InsertHandoff(_, _) => StoreHandoffStep(s, tasks, pid, now);
      case InsertCode(_) => StoreCodeStep(s, tasks, pid, now);
      case TakeCode(_, _, _) => ConsumeCodeStep(s, tasks, pid, now);
      case MintOidcAccess(_, _, _) => MintOidcAccessStep(s, tasks, pid, now);
      case _ =>
    }
  }
}
