/**
The invariant of the session protocol and the proof that every statement of every request keeps
it, whatever the interleaving and whatever the clocks say.
*/
module CredentialInvariant {
  import opened Wrappers
  import opened CredentialStore
  import opened CredentialMachine

  // ---------------------------------------------------------------------------------------------
  // What a credential inherits from its login
  // ---------------------------------------------------------------------------------------------

  predicate VersionFits(version: Option<nat>, l: Login) {
    version == Some(l.generation) || (l.legacy && version.None?)
  }

  predicate Within(exp: int, deadline: Option<int>) {
    deadline.Some? ==> exp <= deadline.value
  }

  /** The user, generation, deadline and authentication time of `c` are those of its login. */
  predicate CredentialFits(c: Credential, l: Login) {
    && CredentialUser(c) == l.user
    && VersionFits(CredentialVersion(c), l)
    && Within(CredentialExpiry(c), l.deadline)
    && match c
       case Central(x) =>
         && l.deadline == Some(x.Deadline())
         && x.AuthenticatedAt() == l.authTime
         && (x.typ.RefreshToken? ==> x.exp == x.Deadline())
       case HandoffToken(h) => l.deadline == Some(h.session.exp)
       case ForwardToken(f, _) => l.deadline == Some(f.exp)
       case AuthorizationCode(_, row) => row.sessionExp == l.deadline && row.authTime == l.authTime
       case OidcAccess(_) => true
       case IdToken(i, _) => i.authTime == l.authTime
  }

  predicate IsRefresh(c: Credential) {
    c.Central? && c.claims.typ.RefreshToken?
  }

  /** The random identifier a credential was drawn with, where it has one. */
  function CredentialId(c: Credential): nat {
    match c
    case Central(x) => x.jti
    case HandoffToken(h) => h.jti
    case AuthorizationCode(id, _) => id
    case _ => 0
  }

  // ---------------------------------------------------------------------------------------------
  // The invariant, part by part
  // ---------------------------------------------------------------------------------------------

  predicate LoginsFit(h: History) {
    forall l :: l in h.logins ==>
      && l < h.next && h.logins[l].user < h.next && l in h.chain
      && (if h.logins[l].legacy then h.logins[l].generation == 0 else h.logins[l].deadline.Some?)
  }

  ghost predicate CredentialsFit(h: History) {
    forall c :: c in h.root ==>
      && CredentialId(c) < h.next
      && h.root[c] in h.logins
      && CredentialFits(c, h.logins[h.root[c]])
      && (IsRefresh(c) ==> c.claims in ChainOf(h, h.root[c]))
  }

  ghost predicate CodesUnique(h: History) {
    forall id, r1, r2 ::
      AuthorizationCode(id, r1) in h.root && AuthorizationCode(id, r2) in h.root ==> r1 == r2
  }

  /** A chain lists refresh tokens of one login, each the successor of the one before. */
  predicate ChainFits(h: History, l: nat, chain: seq<Claims>) {
    && (forall i :: 0 <= i < |chain| ==>
          && Central(chain[i]) in h.root
          && h.root[Central(chain[i])] == l
          && chain[i].typ.RefreshToken?)
    && (forall i, j :: 0 <= i < j < |chain| ==> chain[i] != chain[j])
    && (forall i :: 0 < i < |chain| ==> chain[i] in h.parent && h.parent[chain[i]] == chain[i - 1])
    && (chain != [] ==> chain[0] !in h.parent)
  }

  predicate ChainsFit(h: History) {
    && (forall l :: l in h.chain ==> l in h.logins && ChainFits(h, l, h.chain[l]))
    && (forall t :: t in h.parent ==> Central(t) in h.root && t.typ.RefreshToken?)
  }

  predicate UsersFit(db: Database, h: History) {
    && (forall u :: u in db.users ==> u < h.next)
    && (forall l :: l in h.logins && h.logins[l].user in db.users ==>
          h.logins[l].generation <= db.users[h.logins[l].user].version)
  }

  /** A saved retry pair is the pair that replaced the row's token. */
  predicate RetryFits(h: History, token: Claims, until: int, pair: TokenPair) {
    var l := RootOf(h, Central(token));
    && l in h.logins
    && Central(pair.access) in h.root
    && h.root[Central(pair.access)] == l
    && pair.access.typ.AccessToken?
    && pair.access.version == Some(h.logins[l].generation)
    && h.logins[l].deadline.Some?
    && pair.access.exp >= Min(until - RETRY_WINDOW + ACCESS_TOKEN_LIFETIME, h.logins[l].deadline.value)
    && Central(pair.refresh) in h.root
    && h.root[Central(pair.refresh)] == l
    && pair.refresh.typ.RefreshToken?
    && pair.refresh in h.parent
    && h.parent[pair.refresh] == token
  }

  predicate RowFits(h: History, token: Claims, row: RefreshRow) {
    && token.typ.RefreshToken?
    && Central(token) in h.root
    && row.user == token.sub
    && row.expiresAt == token.exp
    && (row.revokedAt.None? ==>
          var chain := ChainOf(h, h.root[Central(token)]);
          chain != [] && chain[|chain| - 1] == token)
    && (row.retryPair.Some? ==>
          row.revokedAt.Some? && row.retryUntil.Some? && RetryFits(h, token, row.retryUntil.value, row.retryPair.value))
  }

  predicate RowsFit(db: Database, h: History) {
    forall token :: token in db.refresh ==> RowFits(h, token, db.refresh[token])
  }

  ghost predicate CodesFit(db: Database, h: History) {
    && (forall id :: id in db.codes ==>
          AuthorizationCode(id, db.codes[id].(consumedAt := None)) in h.root)
    && (forall i :: 0 <= i < |h.exchanged| ==>
          var e := h.exchanged[i];
          && AuthorizationCode(e.code, e.row) in h.root
          && CodeBindingsHold(e.row, e.application, e.redirectUri, e.verifier)
          && (e.code in db.codes ==> db.codes[e.code].consumedAt.Some?))
    && (forall i, j :: 0 <= i < j < |h.exchanged| ==> h.exchanged[i].code != h.exchanged[j].code)
  }

  predicate HandoffsFit(db: Database, h: History) {
    && (forall i :: 0 <= i < |h.redeemed| ==>
          HandoffToken(h.redeemed[i]) in h.root && h.redeemed[i].jti !in db.handoffs)
    && (forall i, j :: 0 <= i < j < |h.redeemed| ==> h.redeemed[i].jti != h.redeemed[j].jti)
  }

  /** The login a task is about to mint a refresh token for. */
  function MintingLogin(task: Task): Option<nat> {
    match task
    case LoadUser(m) => Some(m.login)
    case MintRemaining(m) => Some(m.login)
    case MintAccess(m) => Some(m.login)
    case MintRefresh(m, _) => Some(m.login)
    case _ => None
  }

  predicate MintingFits(h: History, m: Minting) {
    && m.login in h.logins
    && m.user == h.logins[m.login].user
    && m.version == Some(h.logins[m.login].generation)
    && h.logins[m.login].deadline == Some(m.expiresAt)
    && m.authTime == h.logins[m.login].authTime
    && var chain := ChainOf(h, m.login);
       if m.parent.Some? then chain != [] && chain[|chain| - 1] == m.parent.value else chain == []
  }

  predicate GoalFits(db: Database, h: History, goal: Goal, checked: bool) {
    && GoalCredential(goal) in h.root
    && (goal.Spend? ==>
          && goal.token.typ.RefreshToken?
          && (if checked then goal.token.version.None? ==> goal.before == 0
              else goal.token.sub in db.users ==> goal.before <= db.users[goal.token.sub].version))
    && (goal.OpenHandoff? ==> goal.parent.typ.AccessToken?)
  }

  ghost predicate TaskFits(db: Database, h: History, task: Task) {
    && Shaped(task)
    && match task
       case ReadVersion(token, _) => Central(token) in h.root && token.typ.RefreshToken?
       case Check(goal) => GoalFits(db, h, goal, false)
       case CheckLegacy(goal) => GoalFits(db, h, goal, true)
       case Ready(goal) => GoalFits(db, h, goal, true)
       case LoadUser(m) => MintingFits(h, m)
       case MintRemaining(m) => MintingFits(h, m)
       case MintAccess(m) => MintingFits(h, m)
       case MintRefresh(m, access) => MintingFits(h, m)
       case PurgeHandoffs(goal, exp) => Central(goal.parent) in h.root && exp <= goal.parent.Deadline()
       case InsertHandoff(goal, exp) => Central(goal.parent) in h.root && exp <= goal.parent.Deadline()
       case LoadActive(request) => Central(request.parent) in h.root
       case InsertCode(request) => Central(request.parent) in h.root
       case TakeCode(request, row, _) =>
         && row.consumedAt.None?
         && AuthorizationCode(request.code, row) in h.root
         && CodeBindingsHold(row, request.application, request.redirectUri, request.verifier)
       case MintOidcAccess(code, row, _) => AuthorizationCode(code, row) in h.root
       case _ => true
  }

  predicate LiveRowOf(db: Database, h: History, token: Claims, login: nat) {
    token in db.refresh && db.refresh[token].revokedAt.None? && RootOf(h, Central(token)) == login
  }

  /** While a login's next refresh token is being minted it has no live one, and no second task mints. */
  ghost predicate MintingExclusive(db: Database, h: History, tasks: map<nat, Task>) {
    && (forall pid, token :: pid in tasks && MintingLogin(tasks[pid]).Some? ==>
          !LiveRowOf(db, h, token, MintingLogin(tasks[pid]).value))
    && (forall p, q :: p in tasks && q in tasks && p != q && MintingLogin(tasks[p]).Some? ==>
          MintingLogin(tasks[p]) != MintingLogin(tasks[q]))
  }

  ghost predicate TasksFit(db: Database, h: History, tasks: map<nat, Task>) {
    forall pid :: pid in tasks ==> TaskFits(db, h, tasks[pid])
  }

  ghost predicate Inv(s: State, tasks: map<nat, Task>) {
    && LoginsFit(s.hist)
    && CredentialsFit(s.hist)
    && CodesUnique(s.hist)
    && ChainsFit(s.hist)
    && UsersFit(s.db, s.hist)
    && RowsFit(s.db, s.hist)
    && CodesFit(s.db, s.hist)
    && HandoffsFit(s.db, s.hist)
    && TasksFit(s.db, s.hist, tasks)
    && MintingExclusive(s.db, s.hist, tasks)
  }

  // ---------------------------------------------------------------------------------------------
  // Statements that only take rights away
  // ---------------------------------------------------------------------------------------------

  predicate RowWeaker(row: RefreshRow, row': RefreshRow) {
    && row'.user == row.user
    && row'.expiresAt == row.expiresAt
    && (row.revokedAt.Some? ==> row'.revokedAt.Some?)
    && (row'.retryPair.Some? ==> row'.retryPair == row.retryPair && row'.retryUntil == row.retryUntil)
  }

  /** No row, generation or unspent code is gained from `db` to `db'`. */
  predicate Weaker(db: Database, db': Database) {
    && (forall u :: u in db'.users ==> u in db.users && db'.users[u].version >= db.users[u].version)
    && (forall t :: t in db'.refresh ==> t in db.refresh && RowWeaker(db.refresh[t], db'.refresh[t]))
    && (forall id :: id in db'.handoffs ==> id in db.handoffs)
    && (forall id :: id in db'.codes ==>
          && id in db.codes
          && db'.codes[id].(consumedAt := None) == db.codes[id].(consumedAt := None)
          && (db.codes[id].consumedAt.Some? ==> db'.codes[id].consumedAt.Some?))
  }

  lemma WeakerKeepsInv(s: State, tasks: map<nat, Task>, db': Database)
    requires Inv(s, tasks) && Weaker(s.db, db')
    ensures Inv(s.(db := db'), tasks)
  {
    var db, h := s.db, s.hist;
    forall t | t in db'.refresh ensures RowFits(h, t, db'.refresh[t]) {
      assert RowFits(h, t, db.refresh[t]);
    }
    forall pid | pid in tasks ensures TaskFits(db', h, tasks[pid]) {
      assert TaskFits(db, h, tasks[pid]);
    }
    forall pid, token | pid in tasks && MintingLogin(tasks[pid]).Some?
      ensures !LiveRowOf(db', h, token, MintingLogin(tasks[pid]).value)
    {
      assert !LiveRowOf(db, h, token, MintingLogin(tasks[pid]).value);
    }
  }

  // ---------------------------------------------------------------------------------------------
  // Moving a task on, and signing a credential
  // ---------------------------------------------------------------------------------------------

  /** A task may move to any fitting task that does not start minting for another login. */
  lemma MoveTask(s: State, tasks: map<nat, Task>, pid: nat, task: Task)
    requires Inv(s, tasks) && TaskFits(s.db, s.hist, task)
    requires MintingLogin(task).Some? ==> pid in tasks && MintingLogin(task) == MintingLogin(tasks[pid])
    ensures Inv(s, tasks[pid := task])
  {
    MoveTaskFits(s.db, s.hist, tasks, pid, task);
    MoveTaskExclusive(s.db, s.hist, tasks, pid, task);
  }

  lemma MoveTaskFits(db: Database, h: History, tasks: map<nat, Task>, pid: nat, task: Task)
    requires TasksFit(db, h, tasks) && TaskFits(db, h, task)
    ensures TasksFit(db, h, tasks[pid := task])
  {
    var tasks' := tasks[pid := task];
    forall p | p in tasks' ensures TaskFits(db, h, tasks'[p]) {
      if p != pid { assert TaskFits(db, h, tasks[p]); }
    }
  }

  lemma MoveTaskExclusive(db: Database, h: History, tasks: map<nat, Task>, pid: nat, task: Task)
    requires MintingExclusive(db, h, tasks)
    requires MintingLogin(task).Some? ==> pid in tasks && MintingLogin(task) == MintingLogin(tasks[pid])
    ensures MintingExclusive(db, h, tasks[pid := task])
  {
    var tasks' := tasks[pid := task];
    forall p, token | p in tasks' && MintingLogin(tasks'[p]).Some?
      ensures !LiveRowOf(db, h, token, MintingLogin(tasks'[p]).value)
    {
      assert p in tasks && MintingLogin(tasks'[p]) == MintingLogin(tasks[p]);
    }
    forall p, q | p in tasks' && q in tasks' && p != q && MintingLogin(tasks'[p]).Some?
      ensures MintingLogin(tasks'[p]) != MintingLogin(tasks'[q])
    {
      assert p in tasks && MintingLogin(tasks'[p]) == MintingLogin(tasks[p]);
      if MintingLogin(tasks'[q]).Some? {
        assert q in tasks && MintingLogin(tasks'[q]) == MintingLogin(tasks[q]);
      }
    }
  }

  lemma DropTask(s: State, tasks: map<nat, Task>, pid: nat)
    requires Inv(s, tasks)
    ensures Inv(s, tasks - {pid})
  {
    var others := tasks - {pid};
    forall p | p in others ensures TaskFits(s.db, s.hist, others[p]) {
      assert TaskFits(s.db, s.hist, tasks[p]);
    }
    forall p, token | p in others && MintingLogin(others[p]).Some?
      ensures !LiveRowOf(s.db, s.hist, token, MintingLogin(others[p]).value)
    {
      assert !LiveRowOf(s.db, s.hist, token, MintingLogin(tasks[p]).value);
    }
  }

  /** Histories only grow. */
  ghost predicate Grows(h: History, h': History) {
    && h.next <= h'.next
    && (forall l :: l in h.logins ==> l in h'.logins && h'.logins[l] == h.logins[l])
    && (forall c :: c in h.root ==> c in h'.root)
    && (forall c :: c in h.root && c.Central? ==> h'.root[c] == h.root[c])
    && (forall t :: t in h.parent ==> t in h'.parent && h'.parent[t] == h.parent[t])
  }

  lemma RetryStillFits(h: History, h': History, token: Claims, until: int, pair: TokenPair)
    requires RetryFits(h, token, until, pair) && Central(token) in h.root && Grows(h, h')
    ensures RetryFits(h', token, until, pair)
  {
  }

  /** A task keeps fitting when the history grows and its login's chain does not move. */
  lemma TaskStillFits(db: Database, h: History, h': History, task: Task)
    requires TaskFits(db, h, task) && Grows(h, h')
    requires MintingLogin(task).Some? ==>
      ChainOf(h', MintingLogin(task).value) == ChainOf(h, MintingLogin(task).value)
    ensures TaskFits(db, h', task)
  {
  }

  lemma IssueKeepsRows(db: Database, h: History, c: Credential, login: nat)
    requires RowsFit(db, h) && Grows(h, Issue(h, c, login))
    ensures RowsFit(db, Issue(h, c, login))
  {
    var h' := Issue(h, c, login);
    forall t | t in db.refresh ensures RowFits(h', t, db.refresh[t]) {
      var row := db.refresh[t];
      assert RowFits(h, t, row);
      if row.retryPair.Some? { RetryStillFits(h, h', t, row.retryUntil.value, row.retryPair.value); }
    }
  }

  lemma IssueKeepsTasks(db: Database, h: History, tasks: map<nat, Task>, c: Credential, login: nat)
    requires RowsFit(db, h) && TasksFit(db, h, tasks) && MintingExclusive(db, h, tasks)
    requires Grows(h, Issue(h, c, login))
    ensures TasksFit(db, Issue(h, c, login), tasks) && MintingExclusive(db, Issue(h, c, login), tasks)
  {
    var h' := Issue(h, c, login);
    forall pid | pid in tasks ensures TaskFits(db, h', tasks[pid]) {
      assert TaskFits(db, h, tasks[pid]);
      TaskStillFits(db, h, h', tasks[pid]);
    }
    forall pid, token | pid in tasks && MintingLogin(tasks[pid]).Some?
      ensures !LiveRowOf(db, h', token, MintingLogin(tasks[pid]).value)
    {
      assert !LiveRowOf(db, h, token, MintingLogin(tasks[pid]).value);
      if token in db.refresh { assert RowFits(h, token, db.refresh[token]); }
    }
  }

  /** `c` is new, or not a kind that identifiers or chains depend on. */
  predicate Drawn(h: History, c: Credential) {
    && CredentialId(c) <= h.next
    && (c.Central? || c.AuthorizationCode? ==> CredentialId(c) == h.next)
  }

  lemma IssueIsFresh(h: History, c: Credential)
    requires CredentialsFit(h) && Drawn(h, c)
    ensures c.Central? || c.AuthorizationCode? ==> c !in h.root
  {
  }

  lemma IssueKeepsChains(h: History, c: Credential, login: nat)
    requires ChainsFit(h) && (c.Central? ==> c !in h.root)
    ensures ChainsFit(Issue(h, c, login))
  {
    var h' := Issue(h, c, login);
    forall l | l in h'.chain ensures l in h'.logins && ChainFits(h', l, h'.chain[l]) {
      assert ChainFits(h, l, h.chain[l]);
    }
  }

  lemma IssueKeepsCredentials(h: History, c: Credential, login: nat)
    requires CredentialsFit(h)
    requires login in h.logins && CredentialFits(c, h.logins[login]) && !IsRefresh(c) && Drawn(h, c)
    ensures CredentialsFit(Issue(h, c, login))
  {
    var h' := Issue(h, c, login);
    forall x | x in h'.root
      ensures && CredentialId(x) < h'.next
              && h'.root[x] in h'.logins
              && CredentialFits(x, h'.logins[h'.root[x]])
              && (IsRefresh(x) ==> x.claims in ChainOf(h', h'.root[x]))
    {
      assert x == c || x in h.root;
    }
  }

  lemma IssueKeepsCodesUnique(h: History, c: Credential, login: nat)
    requires CredentialsFit(h) && CodesUnique(h) && Drawn(h, c)
    ensures CodesUnique(Issue(h, c, login))
  {
    var h' := Issue(h, c, login);
    forall id, r1, r2 | AuthorizationCode(id, r1) in h'.root && AuthorizationCode(id, r2) in h'.root
      ensures r1 == r2
    {
      assert AuthorizationCode(id, r1) == c || AuthorizationCode(id, r1) in h.root;
      assert AuthorizationCode(id, r2) == c || AuthorizationCode(id, r2) in h.root;
    }
  }

  lemma IssueKeepsTables(db: Database, h: History, c: Credential, login: nat)
    requires LoginsFit(h) && UsersFit(db, h) && CodesFit(db, h) && HandoffsFit(db, h)
    ensures var h' := Issue(h, c, login);
      LoginsFit(h') && UsersFit(db, h') && CodesFit(db, h') && HandoffsFit(db, h')
  {
    var h' := Issue(h, c, login);
    assert forall x :: x in h.root ==> x in h'.root;
  }

  lemma IssueGrows(h: History, c: Credential, login: nat)
    requires c.Central? ==> c !in h.root
    ensures Grows(h, Issue(h, c, login)) && c in Issue(h, c, login).root
  {
  }

  /** Signing a fitting credential that is not a refresh token keeps the invariant. */
  lemma IssueKeepsInv(s: State, tasks: map<nat, Task>, c: Credential, login: nat)
    requires Inv(s, tasks)
    requires login in s.hist.logins && CredentialFits(c, s.hist.logins[login])
    requires !IsRefresh(c) && Drawn(s.hist, c)
    ensures Inv(s.(hist := Issue(s.hist, c, login)), tasks)
    ensures c in Issue(s.hist, c, login).root && Grows(s.hist, Issue(s.hist, c, login))
  {
    IssueIsFresh(s.hist, c);
    IssueGrows(s.hist, c, login);
    IssueKeepsTables(s.db, s.hist, c, login);
    IssueKeepsChains(s.hist, c, login);
    IssueKeepsCredentials(s.hist, c, login);
    IssueKeepsCodesUnique(s.hist, c, login);
    IssueKeepsRows(s.db, s.hist, c, login);
    IssueKeepsTasks(s.db, s.hist, tasks, c, login);
  }
}
