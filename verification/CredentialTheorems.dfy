/**
What the session protocol guarantees over every run from an upgraded database: one chain of
refresh tokens per login, browser retries that end at the live token, revocation for good, a
deadline no derivation can move, and codes and handoffs that are redeemed once.
*/
module CredentialTheorems {
  import opened Wrappers
  import opened CredentialStore
  import opened CredentialMachine
  import opened CredentialInvariant
  import opened CredentialSteps
  import opened CredentialRuns

  // ---------------------------------------------------------------------------------------------
  // The database at the upgrade
  // ---------------------------------------------------------------------------------------------

  /** A credential signed before generations and absolute deadlines existed. */
  predicate LegacyCredential(c: Credential) {
    match c
    case Central(x) => x.version.None? && x.sessionExp.None? && x.authTime.None?
    case AuthorizationCode(_, row) => row.version.None? && row.sessionExp.None? && row.consumedAt.None?
    case OidcAccess(o) => o.version.None?
    case IdToken(i, _) => i.version.None?
    case HandoffToken(_) => false
    case ForwardToken(_, _) => false
  }

  /** Such a credential counts as a login of its own; codes and OIDC tokens carried no deadline. */
  function LegacyLogin(c: Credential): Login {
    match c
    case Central(x) => Login(x.sub, 0, Some(x.exp), x.iat, true)
    case AuthorizationCode(_, row) => Login(row.user, 0, None, row.authTime, true)
    case IdToken(i, _) => Login(i.sub, 0, None, i.authTime, true)
    case _ => Login(CredentialUser(c), 0, None, 0, true)
  }

  ghost predicate InitialHistory(h: History) {
    && (forall c :: c in h.root ==>
          && LegacyCredential(c) && CredentialId(c) < h.next
          && h.root[c] in h.logins && h.logins[h.root[c]] == LegacyLogin(c)
          && (IsRefresh(c) ==> ChainOf(h, h.root[c]) == [c.claims]))
    && (forall id, r1, r2 ::
          AuthorizationCode(id, r1) in h.root && AuthorizationCode(id, r2) in h.root ==> r1 == r2)
    && (forall l :: l in h.logins ==>
          && l < h.next && h.logins[l].user < h.next && h.logins[l].legacy && h.logins[l].generation == 0
          && l in h.chain)
    && (forall l :: l in h.chain ==>
          && l in h.logins
          && (h.chain[l] == []
              || (&& |h.chain[l]| == 1
                  && Central(h.chain[l][0]) in h.root && h.chain[l][0].typ.RefreshToken?
                  && h.root[Central(h.chain[l][0])] == l)))
    && h.parent == map[] && h.redeemed == [] && h.exchanged == []
  }

  ghost predicate InitialTables(db: Database, h: History) {
    && (forall u :: u in db.users ==> u < h.next && db.users[u].version == 0)
    && (forall t :: t in db.refresh ==>
          && Central(t) in h.root && t.typ.RefreshToken?
          && db.refresh[t].user == t.sub && db.refresh[t].expiresAt == t.exp
          && db.refresh[t].retryUntil.None? && db.refresh[t].retryPair.None?)
    && (forall id :: id in db.codes ==> AuthorizationCode(id, db.codes[id].(consumedAt := None)) in h.root)
    && db.handoffs == map[]
  }

  ghost predicate Initial(w: World) {
    InitialHistory(w.state.hist) && InitialTables(w.state.db, w.state.hist) && w.tasks == map[]
  }

  lemma InitialCredentialsFit(h: History)
    requires InitialHistory(h)
    ensures LoginsFit(h) && CredentialsFit(h) && CodesUnique(h)
  {
    forall c | c in h.root
      ensures && CredentialId(c) < h.next && h.root[c] in h.logins
              && CredentialFits(c, h.logins[h.root[c]])
              && (IsRefresh(c) ==> c.claims in ChainOf(h, h.root[c]))
    {
      assert CredentialFits(c, LegacyLogin(c));
      assert IsRefresh(c) ==> ChainOf(h, h.root[c])[0] == c.claims;
    }
  }

  lemma InitialChainsFit(h: History)
    requires InitialHistory(h)
    ensures ChainsFit(h)
  {
    forall l | l in h.chain ensures l in h.logins && ChainFits(h, l, h.chain[l]) {
    }
  }

  lemma InitialTablesFit(db: Database, h: History)
    requires InitialHistory(h) && InitialTables(db, h)
    ensures UsersFit(db, h) && RowsFit(db, h) && CodesFit(db, h) && HandoffsFit(db, h)
    ensures TasksFit(db, h, map[]) && MintingExclusive(db, h, map[])
  {
    forall t | t in db.refresh ensures RowFits(h, t, db.refresh[t]) {
      assert ChainOf(h, h.root[Central(t)]) == [t];
    }
  }

  /** The invariant holds in every reachable world. */
  lemma Reachable(w0: World, events: seq<Event>)
    requires Initial(w0)
    ensures var w := Run(w0, events); Inv(w.state, w.tasks)
  {
    InitialCredentialsFit(w0.state.hist);
    InitialChainsFit(w0.state.hist);
    InitialTablesFit(w0.state.db, w0.state.hist);
    RunKeepsInv(w0, events);
  }

  // ---------------------------------------------------------------------------------------------
  // Lineage
  // ---------------------------------------------------------------------------------------------

  /** Position of a refresh token in the chain of its login. */
  lemma Position(h: History, token: Claims) returns (i: nat)
    requires CredentialsFit(h) && Central(token) in h.root && token.typ.RefreshToken?
    ensures var chain := ChainOf(h, h.root[Central(token)]); i < |chain| && chain[i] == token
  {
    var chain := ChainOf(h, h.root[Central(token)]);
    assert IsRefresh(Central(token)) && token in chain;
    i :| 0 <= i < |chain| && chain[i] == token;
  }

  lemma OneSuccessor(h: History, t1: Claims, t2: Claims)
    requires CredentialsFit(h) && ChainsFit(h)
    requires t1 in h.parent && t2 in h.parent && h.parent[t1] == h.parent[t2]
    ensures t1 == t2
  {
    var (l1, l2) := (h.root[Central(t1)], h.root[Central(t2)]);
    var i := Position(h, t1);
    var j := Position(h, t2);
    var (c1, c2) := (ChainOf(h, l1), ChainOf(h, l2));
    assert ChainFits(h, l1, c1) && ChainFits(h, l2, c2);
    assert i > 0 && j > 0;
    assert h.parent[c1[i]] == c1[i - 1] && h.parent[c2[j]] == c2[j - 1];
    assert l1 == l2;
  }

  /** No refresh token has two successors. */
  predicate Unforked(h: History) {
    forall t1, t2 :: t1 in h.parent && t2 in h.parent && h.parent[t1] == h.parent[t2] ==> t1 == t2
  }

  /**
  The refresh tokens of a login are those of its chain, each the successor of the one before, none
  twice, and only the last can be unrevoked.
  */
  ghost predicate OneChain(db: Database, h: History, login: nat) {
    var chain := ChainOf(h, login);
    && (forall t :: Central(t) in h.root && t.typ.RefreshToken? && h.root[Central(t)] == login ==> t in chain)
    && (forall i :: 0 < i < |chain| ==> chain[i] in h.parent && h.parent[chain[i]] == chain[i - 1])
    && (forall i, j :: 0 <= i < j < |chain| ==> chain[i] != chain[j])
    && (forall t :: LiveRowOf(db, h, t, login) ==> chain != [] && chain[|chain| - 1] == t)
  }

  /** Over every run, the refresh tokens of a login form one unforked chain that only its end keeps live. */
  lemma LineageIsOneChain(w0: World, events: seq<Event>, login: nat)
    requires Initial(w0)
    ensures var s := Run(w0, events).state;
      Unforked(s.hist) && (login in s.hist.logins ==> OneChain(s.db, s.hist, login))
  {
    hide *;
    var w := Run(w0, events);
    Reachable(w0, events);
    PartsOf(w.state, w.tasks);
    SuccessorsUnique(w.state.hist);
    if login in w.state.hist.logins { ChainIsWhole(w.state.db, w.state.hist, login); }
  }

  lemma SuccessorsUnique(h: History)
    requires CredentialsFit(h) && ChainsFit(h)
    ensures Unforked(h)
  {
    hide CredentialsFit, ChainsFit;
    forall t1, t2 | t1 in h.parent && t2 in h.parent && h.parent[t1] == h.parent[t2] ensures t1 == t2 {
      OneSuccessor(h, t1, t2);
    }
  }

  lemma ChainIsWhole(db: Database, h: History, login: nat)
    requires RowsFit(db, h) && CredentialsFit(h) && ChainsFit(h) && LoginsFit(h) && login in h.logins
    ensures OneChain(db, h, login)
  {
    hide RowsFit, CredentialsFit;
    assert ChainFits(h, login, ChainOf(h, login));
    hide ChainsFit, LoginsFit, LiveRowOf;
    AllInChain(h, login);
    LiveIsLast(db, h, login);
  }

  lemma AllInChain(h: History, login: nat)
    requires CredentialsFit(h)
    ensures forall t :: Central(t) in h.root && t.typ.RefreshToken? && h.root[Central(t)] == login ==>
      t in ChainOf(h, login)
  {
    forall t | Central(t) in h.root && t.typ.RefreshToken? && h.root[Central(t)] == login
      ensures t in ChainOf(h, login)
    {
      assert IsRefresh(Central(t));
    }
  }

  lemma LiveIsLast(db: Database, h: History, login: nat)
    requires RowsFit(db, h)
    ensures forall t :: LiveRowOf(db, h, t, login) ==>
      var chain := ChainOf(h, login); chain != [] && chain[|chain| - 1] == t
  {
    forall t | LiveRowOf(db, h, t, login)
      ensures var chain := ChainOf(h, login); chain != [] && chain[|chain| - 1] == t
    {
      assert RowFits(h, t, db.refresh[t]);
    }
  }

  // ---------------------------------------------------------------------------------------------
  // Browser rotation
  // ---------------------------------------------------------------------------------------------

  /** A token that `next` replaced comes right before it in their chain. */
  lemma ReplacedComesBefore(h: History, token: Claims, next: Claims) returns (i: nat)
    requires CredentialsFit(h) && ChainsFit(h)
    requires Central(token) in h.root && token.typ.RefreshToken?
    requires Central(next) in h.root && next.typ.RefreshToken?
    requires h.root[Central(next)] == h.root[Central(token)]
    requires next in h.parent && h.parent[next] == token
    ensures var chain := ChainOf(h, h.root[Central(token)]);
      i + 1 < |chain| && chain[i] == token && chain[i + 1] == next
  {
    var l := h.root[Central(token)];
    var chain := ChainOf(h, l);
    assert ChainFits(h, l, chain);
    var j := Position(h, next);
    assert j > 0;
    i := j - 1;
    assert h.parent[chain[j]] == chain[j - 1];
  }

  /** `pair.refresh` is live, and `token` comes before it in the chain it ends. */
  predicate LiveEndOf(s: State, token: Claims, pair: TokenPair) {
    var h := s.hist;
    && Central(token) in h.root
    && Central(pair.refresh) in h.root
    && h.root[Central(pair.refresh)] == h.root[Central(token)]
    && pair.refresh in s.db.refresh && s.db.refresh[pair.refresh].revokedAt.None?
    && var chain := ChainOf(h, h.root[Central(token)]);
       chain != [] && chain[|chain| - 1] == pair.refresh && token in chain[..|chain| - 1]
  }

  lemma BeforeTheEnd(s: State, token: Claims, mid: Claims, pair: TokenPair, i: nat)
    requires ChainsFit(s.hist) && Central(token) in s.hist.root && Central(mid) in s.hist.root
    requires s.hist.root[Central(mid)] == s.hist.root[Central(token)]
    requires var chain := ChainOf(s.hist, s.hist.root[Central(token)]);
      i + 1 < |chain| && chain[i] == token && chain[i + 1] == mid
    requires LiveEndOf(s, mid, pair)
    ensures LiveEndOf(s, token, pair)
  {
    var chain := ChainOf(s.hist, s.hist.root[Central(token)]);
    assert ChainFits(s.hist, s.hist.root[Central(token)], chain);
    var j :| 0 <= j < |chain| - 1 && chain[j] == mid;
    assert chain[..|chain| - 1][i] == token;
  }

  lemma NextIsLiveEnd(s: State, token: Claims, pair: TokenPair)
    requires RowsFit(s.db, s.hist) && CredentialsFit(s.hist) && ChainsFit(s.hist)
    requires Central(token) in s.hist.root && token.typ.RefreshToken?
    requires exists until :: RetryFits(s.hist, token, until, pair)
    requires pair.refresh in s.db.refresh && s.db.refresh[pair.refresh].revokedAt.None?
    ensures LiveEndOf(s, token, pair)
  {
    var i := ReplacedComesBefore(s.hist, token, pair.refresh);
    assert RowFits(s.hist, pair.refresh, s.db.refresh[pair.refresh]);
    var chain := ChainOf(s.hist, s.hist.root[Central(token)]);
    assert chain[..|chain| - 1][i] == token;
  }

  /** Whatever the retry chain is followed to is the live end of the chain. */
  lemma {:induction false} FollowRetryFindsLiveEnd(s: State, token: Claims, until: int, pair: TokenPair, now: int,
                                                   clock: Clock, k: nat, hops: nat)
    requires RowsFit(s.db, s.hist) && CredentialsFit(s.hist) && ChainsFit(s.hist)
    requires Central(token) in s.hist.root && token.typ.RefreshToken? && RetryFits(s.hist, token, until, pair)
    ensures var r := FollowRetry(s, pair, now, clock, k, hops); r.Some? ==> LiveEndOf(s, token, r.value)
    decreases hops
  {
    hide RowsFit, CredentialsFit, ChainsFit, RetryFits, LiveEndOf, RunRequest;
    var r := FollowRetry(s, pair, now, clock, k, hops);
    if r.Some? {
      var k' := RunRequest(s, VerifyAccess(pair.access), clock, k).2;
      var row := s.db.refresh[pair.refresh];
      if row.revokedAt.None? {
        NextIsLiveEnd(s, token, pair);
      } else {
        SavedRetryFits(s.db, s.hist, pair.refresh);
        FollowRetryFindsLiveEnd(s, pair.refresh, row.retryUntil.value, row.retryPair.value, now, clock, k', hops - 1);
        EndOfNextIsEnd(s, token, until, pair, r.value);
      }
    }
  }

  lemma SavedRetryFits(db: Database, h: History, token: Claims)
    requires RowsFit(db, h) && token in db.refresh
    ensures Central(token) in h.root && token.typ.RefreshToken?
    ensures var row := db.refresh[token];
      row.retryPair.Some? ==> row.retryUntil.Some? && RetryFits(h, token, row.retryUntil.value, row.retryPair.value)
  {
    assert RowFits(h, token, db.refresh[token]);
  }

  lemma EndOfNextIsEnd(s: State, token: Claims, until: int, pair: TokenPair, end: TokenPair)
    requires CredentialsFit(s.hist) && ChainsFit(s.hist)
    requires Central(token) in s.hist.root && token.typ.RefreshToken? && RetryFits(s.hist, token, until, pair)
    requires LiveEndOf(s, pair.refresh, end)
    ensures LiveEndOf(s, token, end)
  {
    hide CredentialsFit;
    var i := ReplacedComesBefore(s.hist, token, pair.refresh);
    BeforeTheEnd(s, token, pair.refresh, end, i);
  }

  /** A fresh rotation leaves its own pair at the live end, also after the retry has been saved. */
  lemma SavedStaysLiveEnd(s: State, token: Claims, pair: TokenPair, now: int)
    requires LiveEndOf(s, token, pair)
    requires token != pair.refresh
    ensures LiveEndOf(s.(db := ForgetRetries(SaveRetry(s.db, token, now + RETRY_WINDOW, pair), now)), token, pair)
  {
  }

  /**
  In every reachable world, a browser rotation that succeeds returns the live end of the
  presented token's chain; answered from the retry window, it changes nothing.
  */
  lemma BrowserReturnsLiveEnd(w0: World, events: seq<Event>, token: Claims, clock: Clock)
    requires Initial(w0) && Monotone(clock)
    ensures
      var s := Run(w0, events).state;
      var (s', outcome) := RotateBrowser(s, token, clock);
      && (outcome.Minted? ==> LiveEndOf(s', token, outcome.pair))
      && (RetryOpen(s.db, token, clock(0)) ==> s' == s)
  {
    var w := Run(w0, events);
    var s := w.state;
    Reachable(w0, events);
    PartsOf(s, w.tasks);
    var now := clock(0);
    if RetryOpen(s.db, token, now) {
      var row := s.db.refresh[token];
      assert RowFits(s.hist, token, row);
      FollowRetryFindsLiveEnd(s, token, row.retryUntil.value, row.retryPair.value, now, clock, 1, RETRY_HOPS);
    } else {
      FreshRotationLiveEnd(s, w.tasks, token, clock);
    }
  }

  lemma FreshRotationLiveEnd(s: State, tasks: map<nat, Task>, token: Claims, clock: Clock)
    requires Inv(s, tasks) && Monotone(clock) && !RetryOpen(s.db, token, clock(0))
    ensures var (s', outcome) := RotateBrowser(s, token, clock);
      outcome.Minted? ==> LiveEndOf(s', token, outcome.pair)
  {
    hide Inv, RunRequest, RowsFit, CredentialsFit, ChainsFit, LiveEndOf, RotatedTo;
    var now := clock(0);
    RotateAlone(s, tasks, token, clock);
    var (s1, outcome, _) := RunRequest(s, Rotate(token), clock, 1);
    if outcome.Minted? {
      PartsOf(s1, tasks);
      OnlyRefreshRotates(s, token, clock);
      RotatedIsLiveEnd(s1, token, outcome.pair, now);
      SavedStaysLiveEnd(s1, token, outcome.pair, now);
    }
  }

  lemma RotatedIsLiveEnd(s: State, token: Claims, pair: TokenPair, now: int)
    requires RowsFit(s.db, s.hist) && CredentialsFit(s.hist) && ChainsFit(s.hist)
    requires RotatedTo(s, token, pair, now) && token.typ.RefreshToken?
    ensures LiveEndOf(s, token, pair) && token != pair.refresh
  {
    NextIsLiveEnd(s, token, pair);
    hide RowsFit, CredentialsFit;
    var i := ReplacedComesBefore(s.hist, token, pair.refresh);
    var l := s.hist.root[Central(token)];
    assert ChainFits(s.hist, l, ChainOf(s.hist, l));
  }

  lemma OnlyRefreshRotates(s: State, token: Claims, clock: Clock)
    ensures RunRequest(s, Rotate(token), clock, 1).1.Minted? ==> token.typ.RefreshToken?
  {
    var task := Admit(s, Rotate(token), clock(1));
    assert RunRequest(s, Rotate(token), clock, 1) == RunTask(s, task, clock, 2);
    if !token.typ.RefreshToken? { assert task == Done(Rejected); }
  }

  /** An access token of a session that is still valid passes, and the check changes nothing. */
  lemma ValidAccessPasses(s: State, access: Claims, clock: Clock, k: nat)
    requires Central(access) in s.hist.root && access.typ.AccessToken?
    requires access.exp > clock(k) && access.Deadline() > clock(k)
    requires ReadGeneration(s.db, access.sub).Some? && access.version == ReadGeneration(s.db, access.sub)
    ensures RunRequest(s, VerifyAccess(access), clock, k).1 == Accepted
  {
    var goal := AcceptAccess(access);
    assert RunRequest(s, VerifyAccess(access), clock, k) == RunTask(s, Check(goal), clock, k + 1);
    assert RunTask(s, Check(goal), clock, k + 1) == RunTask(s, Ready(goal), clock, k + 2);
    assert RunTask(s, Ready(goal), clock, k + 2) == RunTask(s, Done(Accepted), clock, k + 3);
  }

  /** From position `i` of the chain, `hops` retry windows lead to its live end. */
  predicate WindowsOpen(db: Database, chain: seq<Claims>, i: nat, now: int) {
    && i < |chain|
    && (forall j :: i <= j < |chain| ==> chain[j] in db.refresh && db.refresh[chain[j]].expiresAt > now)
    && (forall j :: i <= j < |chain| - 1 ==>
          var row := db.refresh[chain[j]];
          row.revokedAt.Some? && row.retryUntil.Some? && row.retryUntil.value > now && row.retryPair.Some?)
    && db.refresh[chain[|chain| - 1]].revokedAt.None?
  }

  /** The session has not been revoked, and no reading reaches its deadline or its access tokens' expiry. */
  ghost predicate SessionValid(db: Database, l: Login, now: int, clock: Clock) {
    && ReadGeneration(db, l.user) == Some(l.generation)
    && l.deadline.Some?
    && forall k: nat :: clock(k) < l.deadline.value && clock(k) <= now + ACCESS_TOKEN_LIFETIME - RETRY_WINDOW
  }

  /** One hop: the saved pair is the next of the chain, and its access token still passes. */
  lemma RetryHop(s: State, login: nat, i: nat, now: int, clock: Clock, k: nat)
    requires RowsFit(s.db, s.hist) && CredentialsFit(s.hist) && ChainsFit(s.hist) && login in s.hist.logins
    requires WindowsOpen(s.db, ChainOf(s.hist, login), i, now) && i + 1 < |ChainOf(s.hist, login)|
    requires SessionValid(s.db, s.hist.logins[login], now, clock)
    ensures
      var chain := ChainOf(s.hist, login);
      var pair := s.db.refresh[chain[i]].retryPair.value;
      pair.refresh == chain[i + 1] && RunRequest(s, VerifyAccess(pair.access), clock, k).1 == Accepted
  {
    var h := s.hist;
    var chain := ChainOf(h, login);
    assert ChainFits(h, login, chain);
    var row := s.db.refresh[chain[i]];
    assert RowFits(h, chain[i], row);
    var pair := row.retryPair.value;
    assert h.root[Central(chain[i])] == login;
    var j := ReplacedComesBefore(h, chain[i], pair.refresh);
    assert j == i;
    assert CredentialFits(Central(pair.access), h.logins[login]);
    assert clock(k) < h.logins[login].deadline.value;
    ValidAccessPasses(s, pair.access, clock, k);
  }

  lemma {:induction false} FollowRetryReachesEnd(s: State, login: nat, i: nat, now: int, clock: Clock, k: nat,
                                                 hops: nat)
    requires RowsFit(s.db, s.hist) && CredentialsFit(s.hist) && ChainsFit(s.hist) && login in s.hist.logins
    requires var chain := ChainOf(s.hist, login);
      WindowsOpen(s.db, chain, i, now) && i + 1 < |chain| && |chain| - 1 - i <= hops
    requires SessionValid(s.db, s.hist.logins[login], now, clock)
    ensures
      var chain := ChainOf(s.hist, login);
      var r := FollowRetry(s, s.db.refresh[chain[i]].retryPair.value, now, clock, k, hops);
      r.Some? && r.value.refresh == chain[|chain| - 1]
    decreases hops
  {
    hide RowsFit, CredentialsFit, ChainsFit, SessionValid, RunRequest;
    var chain := ChainOf(s.hist, login);
    RetryHop(s, login, i, now, clock, k);
    var pair := s.db.refresh[chain[i]].retryPair.value;
    var k' := RunRequest(s, VerifyAccess(pair.access), clock, k).2;
    if i + 2 < |chain| {
      FollowRetryReachesEnd(s, login, i + 1, now, clock, k', hops - 1);
    }
  }

  /**
  In every reachable world, a retry succeeds when every window from the presented token on is
  open, the live end is at most sixteen hops away and the session is still valid.
  */
  lemma RetryFindsLiveEnd(w0: World, events: seq<Event>, login: nat, i: nat, clock: Clock)
    requires Initial(w0)
    requires login in Run(w0, events).state.hist.logins
    requires
      var s := Run(w0, events).state;
      var chain := ChainOf(s.hist, login);
      && WindowsOpen(s.db, chain, i, clock(0))
      && 1 <= |chain| - 1 - i <= RETRY_HOPS
      && SessionValid(s.db, s.hist.logins[login], clock(0), clock)
    ensures
      var s := Run(w0, events).state;
      var chain := ChainOf(s.hist, login);
      var (s', outcome) := RotateBrowser(s, chain[i], clock);
      s' == s && outcome.Minted? && outcome.pair.refresh == chain[|chain| - 1]
  {
    hide *;
    var w := Run(w0, events);
    Reachable(w0, events);
    PartsOf(w.state, w.tasks);
    RetryReachesEnd(w.state, login, i, clock);
  }

  lemma RetryReachesEnd(s: State, login: nat, i: nat, clock: Clock)
    requires RowsFit(s.db, s.hist) && CredentialsFit(s.hist) && ChainsFit(s.hist) && login in s.hist.logins
    requires
      var chain := ChainOf(s.hist, login);
      && WindowsOpen(s.db, chain, i, clock(0))
      && 1 <= |chain| - 1 - i <= RETRY_HOPS
      && SessionValid(s.db, s.hist.logins[login], clock(0), clock)
    ensures
      var chain := ChainOf(s.hist, login);
      var (s', outcome) := RotateBrowser(s, chain[i], clock);
      s' == s && outcome.Minted? && outcome.pair.refresh == chain[|chain| - 1]
  {
    hide RowsFit, CredentialsFit, ChainsFit, SessionValid, FollowRetry;
    FollowRetryReachesEnd(s, login, i, clock(0), clock, 1, RETRY_HOPS);
  }

  // ---------------------------------------------------------------------------------------------
  // Deadlines
  // ---------------------------------------------------------------------------------------------

  /**
  Over every run, whatever the session setting becomes, a credential expires no later than the
  deadline of the login it descends from, and carries its user and authentication time.
  */
  lemma DeadlineIsAbsolute(w0: World, events: seq<Event>, c: Credential)
    requires Initial(w0) && c in Run(w0, events).state.hist.root
    ensures
      var h := Run(w0, events).state.hist;
      h.root[c] in h.logins &&
      var l := h.logins[h.root[c]];
      && CredentialUser(c) == l.user
      && (l.deadline.Some? ==> CredentialExpiry(c) <= l.deadline.value)
      && (!l.legacy ==> l.deadline.Some? && CredentialVersion(c) == Some(l.generation))
      && (c.Central? ==> l.deadline == Some(c.claims.Deadline()) && c.claims.AuthenticatedAt() == l.authTime)
      && (c.IdToken? ==> c.idClaims.authTime == l.authTime)
  {
    var w := Run(w0, events);
    Reachable(w0, events);
    RootKnown(w.state, w.tasks, c);
    PartsOf(w.state, w.tasks);
  }

  /** A refresh token that replaced another expires at its deadline and keeps its user, deadline and authentication time. */
  lemma RotationInherits(w0: World, events: seq<Event>, token: Claims, next: Claims)
    requires Initial(w0)
    requires var h := Run(w0, events).state.hist; next in h.parent && h.parent[next] == token
    ensures
      && next.sub == token.sub && next.exp == next.Deadline() == token.Deadline()
      && next.AuthenticatedAt() == token.AuthenticatedAt()
  {
    hide CredentialsFit, ChainsFit;
    var w := Run(w0, events);
    Reachable(w0, events);
    PartsOf(w.state, w.tasks);
    SuccessorInherits(w.state.hist, token, next);
  }

  lemma FitsLogin(h: History, c: Credential)
    requires CredentialsFit(h) && c in h.root
    ensures h.root[c] in h.logins && CredentialFits(c, h.logins[h.root[c]])
  {
  }

  lemma SuccessorInherits(h: History, token: Claims, next: Claims)
    requires CredentialsFit(h) && ChainsFit(h) && next in h.parent && h.parent[next] == token
    ensures
      && next.sub == token.sub && next.exp == next.Deadline() == token.Deadline()
      && next.AuthenticatedAt() == token.AuthenticatedAt()
  {
    ParentOf(h, next);
    hide CredentialsFit, ChainsFit;
    FitsLogin(h, Central(next));
    FitsLogin(h, Central(token));
  }

  lemma ParentOf(h: History, next: Claims)
    requires CredentialsFit(h) && ChainsFit(h) && next in h.parent
    ensures Central(next) in h.root && Central(h.parent[next]) in h.root
    ensures h.root[Central(next)] == h.root[Central(h.parent[next])] && next.typ.RefreshToken?
  {
    assert Central(next) in h.root && next.typ.RefreshToken?;
    var i := Position(h, next);
    var l := h.root[Central(next)];
    var chain := ChainOf(h, l);
    assert ChainFits(h, l, chain);
    assert i > 0 && h.parent[chain[i]] == chain[i - 1];
  }

  // ---------------------------------------------------------------------------------------------
  // Revocation
  // ---------------------------------------------------------------------------------------------

  /** Generations never fall, and a deleted user's identifier is never used again. */
  predicate Ages(db: Database, h: History, db': Database) {
    forall u :: u in db'.users && u < h.next ==> u in db.users && db'.users[u].version >= db.users[u].version
  }

  lemma GrowsAgain(h1: History, db1: Database, h2: History, db2: Database, h3: History, db3: Database)
    requires Grows(h1, h2) && Grows(h2, h3) && Ages(db1, h1, db2) && Ages(db2, h2, db3)
    ensures Grows(h1, h3) && Ages(db1, h1, db3)
  {
  }

  lemma TaskStepAges(s: State, task: Task, now: int)
    requires Shaped(task) && !task.Done?
    ensures Ages(s.db, s.hist, TaskStep(s, task, now).0.db)
  {
    hide Perform, Admit, CheckGeneration, OutlivesRevocation, ReadGeneration, CodeBindingsHold, Issue;
    if task.Ready? { PerformAges(s, task.goal, now); }
  }

  lemma PerformAges(s: State, goal: Goal, now: int)
    ensures Perform(s, goal, now).0.db.users == s.db.users
  {
  }

  /** Signing something other than a central token, and writing the logs. */
  lemma OtherIssueGrows(h: History, c: Credential, login: nat, h': History)
    requires !c.Central?
    requires var i := Issue(h, c, login); h' == i.(redeemed := h'.redeemed, exchanged := h'.exchanged)
    ensures Grows(h, h')
  {
  }

  lemma PerformGrows(s: State, goal: Goal, now: int)
    ensures Grows(s.hist, Perform(s, goal, now).0.hist)
  {
    hide Grows;
    var s' := Perform(s, goal, now).0;
    if s'.hist == s.hist { LogsGrow(s.hist, s'.hist); }
    else if goal.RedeemHandoff? {
      OtherIssueGrows(s.hist, ForwardToken(goal.handoff.session, goal.handoff.jti),
                      RootOf(s.hist, HandoffToken(goal.handoff)), s'.hist);
    } else {
      var idToken := Perform(s, goal, now).1.idToken;
      OtherIssueGrows(s.hist, IdToken(idToken, goal.code), RootOf(s.hist, GoalCredential(goal)), s'.hist);
    }
  }

  lemma LogsGrow(h: History, h': History)
    requires h' == h.(redeemed := h'.redeemed, exchanged := h'.exchanged)
    ensures Grows(h, h')
  {
  }

  lemma TaskStepGrows(s: State, task: Task, now: int)
    requires Shaped(task) && !task.Done? && !task.MintRefresh?
    requires LoginsFit(s.hist) && CredentialsFit(s.hist)
    ensures Grows(s.hist, TaskStep(s, task, now).0.hist)
  {
    hide Grows, CredentialsFit;
    var (s', task') := TaskStep(s, task, now);
    match task
    case LoginGeneration(_, _) =>
      LoginResult(s, task, now);
      if s' != s { AddLoginGrows(s.hist, s'.hist.logins[s.hist.next]); } else { LogsGrow(s.hist, s'.hist); }
    case MintAccess(m) =>
      IssueIsFresh(s.hist, Central(task'.access));
      IssueGrows(s.hist, Central(task'.access), m.login);
    case Ready(goal) => PerformGrows(s, goal, now);
    case InsertHandoff(_, _) => GrantIssueGrows(s, task, now);
    case InsertCode(_) => GrantIssueGrows(s, task, now);
    case MintOidcAccess(_, _, _) => GrantIssueGrows(s, task, now);
    case _ => LogsGrow(s.hist, s'.hist);
  }

  lemma GrantIssueGrows(s: State, task: Task, now: int)
    requires Shaped(task) && (task.InsertHandoff? || task.InsertCode? || task.MintOidcAccess?)
    requires LoginsFit(s.hist) && CredentialsFit(s.hist)
    ensures Grows(s.hist, TaskStep(s, task, now).0.hist)
  {
    hide Grows, CredentialsFit;
    var (s', task') := TaskStep(s, task, now);
    if s' == s {
      LogsGrow(s.hist, s'.hist);
    } else {
      match task
      case InsertHandoff(goal, _) =>
        OtherIssueGrows(s.hist, HandoffToken(task'.outcome.handoff), RootOf(s.hist, Central(goal.parent)), s'.hist);
      case InsertCode(request) =>
        var id := task'.outcome.code;
        OtherIssueGrows(s.hist, AuthorizationCode(id, s'.db.codes[id]), RootOf(s.hist, Central(request.parent)), s'.hist);
      case MintOidcAccess(code, row, _) =>
        OtherIssueGrows(s.hist, OidcAccess(task'.outcome.access), RootOf(s.hist, AuthorizationCode(code, row)), s'.hist);
    }
  }

  lemma MintRefreshGrows(s: State, task: Task, now: int)
    requires TaskFits(s.db, s.hist, task) && task.MintRefresh?
    requires CredentialsFit(s.hist) && ChainsFit(s.hist)
    ensures Grows(s.hist, TaskStep(s, task, now).0.hist)
  {
    var m := task.minting;
    InsertRefreshResult(s, task, now);
    var token := Claims(m.user, RefreshToken, m.expiresAt, now, s.hist.next, Some(m.expiresAt), m.version,
                        Some(m.authTime));
    if Continues(s.hist, token, m.login, m.parent) {
      ExtendGrows(s.hist, token, m.login, m.parent);
    }
  }

  lemma {:induction false} RunTaskGrows(s: State, tasks: map<nat, Task>, pid: nat, clock: Clock, k: nat)
    requires Inv(s, tasks) && pid in tasks
    ensures Shaped(tasks[pid])
    ensures var s' := RunTask(s, tasks[pid], clock, k).0; Grows(s.hist, s'.hist) && Ages(s.db, s.hist, s'.db)
    decreases Rank(TaskAt(tasks, pid))
  {
    hide Inv;
    FitsAt(s, tasks, pid);
    if !tasks[pid].Done? {
      StepOfTaskGrows(s, tasks, pid, clock(k));
      TaskStepKeepsInv(s, tasks, pid, clock(k));
      var (s', task') := TaskStep(s, tasks[pid], clock(k));
      RunTaskGrows(s', tasks[pid := task'], pid, clock, k + 1);
      var s'' := RunTask(s', task', clock, k + 1).0;
      GrowsAgain(s.hist, s.db, s'.hist, s'.db, s''.hist, s''.db);
    }
  }

  lemma StepOfTaskGrows(s: State, tasks: map<nat, Task>, pid: nat, now: int)
    requires Inv(s, tasks) && pid in tasks && !tasks[pid].Done?
    ensures Shaped(tasks[pid])
    ensures var s' := TaskStep(s, tasks[pid], now).0; Grows(s.hist, s'.hist) && Ages(s.db, s.hist, s'.db)
  {
    hide Inv, TaskStep;
    FitsAt(s, tasks, pid);
    PartsOf(s, tasks);
    TaskStepAges(s, tasks[pid], now);
    if tasks[pid].MintRefresh? { MintRefreshGrows(s, tasks[pid], now); }
    else { TaskStepGrows(s, tasks[pid], now); }
  }

  lemma BrowserGrows(s: State, tasks: map<nat, Task>, token: Claims, clock: Clock)
    requires Inv(s, tasks)
    ensures var s' := RotateBrowser(s, token, clock).0; Grows(s.hist, s'.hist) && Ages(s.db, s.hist, s'.db)
  {
    hide Inv, RotateBrowser;
    var pid := SparePid(tasks.Keys);
    var tasks' := tasks[pid := Arrived(Rotate(token))];
    MoveTask(s, tasks, pid, Arrived(Rotate(token)));
    RunTaskGrows(s, tasks', pid, clock, 1);
    BrowserKeepsOrRotates(s, token, clock);
  }

  /** A browser rotation leaves the history and the users as they were, or as a rotation leaves them. */
  lemma BrowserKeepsOrRotates(s: State, token: Claims, clock: Clock)
    ensures
      var (s', r) := (RotateBrowser(s, token, clock).0, RunRequest(s, Rotate(token), clock, 1).0);
      || (s'.hist == s.hist && s'.db.users == s.db.users)
      || (s'.hist == r.hist && s'.db.users == r.db.users)
  {
    hide RunRequest, FollowRetry;
  }

  lemma StepGrows(w: World, e: Event)
    requires Inv(w.state, w.tasks)
    ensures var w' := Step(w, e);
      Grows(w.state.hist, w'.state.hist) && Ages(w.state.db, w.state.hist, w'.state.db)
  {
    hide Inv;
    match e
    case Begin(_, _) =>
    case Advance(pid, now) =>
      if pid in w.tasks && !w.tasks[pid].Done? {
        StepOfTaskGrows(w.state, w.tasks, pid, now);
      }
    case Browser(token, clock) => BrowserGrows(w.state, w.tasks, token, clock);
    case AddUser =>
    case _ => SweepIsWeaker(w, e);
  }

  lemma {:induction false} RunGrows(w: World, events: seq<Event>)
    requires Inv(w.state, w.tasks)
    ensures var w' := Run(w, events);
      Grows(w.state.hist, w'.state.hist) && Ages(w.state.db, w.state.hist, w'.state.db)
    decreases |events|
  {
    hide Inv;
    if events != [] {
      StepGrows(w, events[0]);
      StepKeepsInv(w, events[0]);
      RunGrows(Step(w, events[0]), events[1..]);
    }
  }

  lemma {:induction false} RunTwice(w: World, es: seq<Event>, fs: seq<Event>)
    ensures Run(Run(w, es), fs) == Run(w, es + fs)
    decreases |es|
  {
    if es == [] {
      assert [] + fs == fs;
    } else {
      RunTwice(Step(w, es[0]), es[1..], fs);
      assert (es + fs)[0] == es[0] && (es + fs)[1..] == es[1..] + fs;
    }
  }

  /** The generation of `user` has been bumped, or the user deleted, from `before` to `after`. */
  predicate BumpedBetween(before: Database, after: Database, user: UserId) {
    user in before.users && (user in after.users ==> after.users[user].version > before.users[user].version)
  }

  /**
  No resurrection. Take any reachable world, any later one in which the generation of a user has
  been bumped, and any world after that. Every credential of that last world that descends from a
  login of the first one, by whatever steps and whether signed before the bump or by a request in
  flight across it, fails the shared session check there.
  */
  lemma NoResurrection(w0: World, before: seq<Event>, bump: seq<Event>, later: seq<Event>, c: Credential)
    requires Initial(w0)
    requires
      var h1 := Run(w0, before).state.hist;
      var w2 := Run(Run(w0, before), bump);
      && c in Run(w2, later).state.hist.root
      && Run(w2, later).state.hist.root[c] in h1.logins
      && BumpedBetween(Run(w0, before).state.db, w2.state.db, CredentialUser(c))
    ensures
      var w3 := Run(Run(Run(w0, before), bump), later);
      CheckGeneration(w3.state.db, CredentialUser(c), CredentialVersion(c)) == Reject
  {
    hide Inv, CredentialFits, Initial;
    var w1 := Run(w0, before);
    var w2 := Run(w1, bump);
    var w3 := Run(w2, later);
    Reachable(w0, before);
    RunKeepsInv(w1, bump);
    RunKeepsInv(w2, later);
    RunGrows(w1, bump);
    RunGrows(w2, later);
    PartsOf(w1.state, w1.tasks);
    RootKnown(w3.state, w3.tasks, c);
    var l := w3.state.hist.logins[w3.state.hist.root[c]];
    assert l == w1.state.hist.logins[w3.state.hist.root[c]];
    FitsGeneration(c, l);
    PartsOf(w3.state, w3.tasks);
  }

  lemma FitsGeneration(c: Credential, l: Login)
    requires CredentialFits(c, l)
    ensures CredentialUser(c) == l.user && VersionFits(CredentialVersion(c), l)
  {
  }

  /** A failed check ends the request and changes nothing. */
  lemma RejectedCheckEnds(s: State, goal: Goal, now: int)
    requires CheckGeneration(s.db, CredentialUser(GoalCredential(goal)), CredentialVersion(GoalCredential(goal))) == Reject
    ensures TaskStep(s, Check(goal), now) == (s, Done(Rejected))
  {
  }

  /** The credential a request stands on, when the shared session check is on it. */
  function Presented(request: Request): Option<Credential> {
    match request
    case Rotate(token) => Some(Central(token))
    case LogOut(token) => Some(Central(token))
    case VerifyAccess(token) => Some(Central(token))
    case VerifyForward(session, n, _) => Some(ForwardToken(session, n))
    case UserInfo(oidc) => Some(OidcAccess(oidc))
    case IssueHandoff(parent, _, _, _) => Some(Central(parent))
    case Authorize(parent, _, _, _) => Some(Central(parent))
    case Redeem(handoff, _, _) => Some(HandoffToken(handoff))
    case _ => None
  }

  lemma CheckRejects(s: State, goal: Goal, clock: Clock, k: nat)
    requires CheckGeneration(s.db, CredentialUser(GoalCredential(goal)), CredentialVersion(GoalCredential(goal))) == Reject
    ensures RunTask(s, Check(goal), clock, k).0 == s && RunTask(s, Check(goal), clock, k).1 == Rejected
  {
    hide RunTask;
    RejectedCheckEnds(s, goal, clock(k));
    NextStatement(s, Check(goal), clock, k);
    Finished(s, Rejected, clock, k + 1);
  }

  /** A request on a credential whose generation does not hold is rejected and changes nothing. */
  lemma StaleRequestFails(s: State, request: Request, clock: Clock, k: nat)
    requires Presented(request).Some?
    requires var c := Presented(request).value;
      CheckGeneration(s.db, CredentialUser(c), CredentialVersion(c)) == Reject
    ensures RunRequest(s, request, clock, k).0 == s && RunRequest(s, request, clock, k).1 == Rejected
  {
    hide RunTask, ValidState;
    var task := Admit(s, request, clock(k));
    NextStatement(s, Arrived(request), clock, k);
    if task.Check? {
      CheckRejects(s, task.goal, clock, k + 1);
    } else if task.ReadVersion? {
      NextStatement(s, task, clock, k + 1);
      var v := ReadGeneration(s.db, task.token.sub);
      if v.Some? { CheckRejects(s, Spend(task.token, v.value, task.purpose), clock, k + 2); }
      else { Finished(s, Rejected, clock, k + 2); }
    } else {
      Finished(s, Rejected, clock, k + 1);
    }
  }

  lemma ExpiredIsNotAdmitted(s: State, request: Request, clock: Clock, k: nat)
    requires Presented(request).Some?
    requires var c := Presented(request).value;
      && CredentialExpiry(c) < clock(k)
      && (request.IssueHandoff? ==> request.parent.Deadline() < clock(k))
    ensures RunRequest(s, request, clock, k).0 == s && RunRequest(s, request, clock, k).1 == Rejected
  {
    hide RunTask, ValidState;
    NextStatement(s, Arrived(request), clock, k);
    assert Admit(s, request, clock(k)) == Done(Rejected);
    Finished(s, Rejected, clock, k + 1);
  }

  /**
  Past the deadline of the login it descends from, a credential is good for nothing: in every
  reachable world a later request that presents it is rejected and changes nothing.
  */
  lemma NothingOutlivesItsLogin(w0: World, events: seq<Event>, request: Request, clock: Clock)
    requires Initial(w0) && Presented(request).Some? && Presented(request).value in Run(w0, events).state.hist.root
    requires
      var h := Run(w0, events).state.hist;
      var login := h.root[Presented(request).value];
      login in h.logins && h.logins[login].deadline.Some? && h.logins[login].deadline.value < clock(0)
    ensures
      var s := Run(w0, events).state;
      RunRequest(s, request, clock, 0).0 == s && RunRequest(s, request, clock, 0).1 == Rejected
  {
    hide Run, RunRequest, Initial;
    DeadlineIsAbsolute(w0, events, Presented(request).value);
    ExpiredIsNotAdmitted(Run(w0, events).state, request, clock, 0);
  }

  /** An exchange of a code whose generation does not hold mints nothing. */
  lemma StaleCodeFails(s: State, request: Request, clock: Clock, k: nat)
    requires request.ExchangeCode? && request.code in s.db.codes
    requires var row := s.db.codes[request.code]; CheckGeneration(s.db, row.user, row.version) == Reject
    ensures var (s', outcome, _) := RunRequest(s, request, clock, k);
      outcome == Rejected && s'.hist.root == s.hist.root
  {
    hide RunTask, VerifyPkce;
    NextStatement(s, Arrived(request), clock, k);
    NextStatement(s, SelectCode(request), clock, k + 1);
    var (s1, task1) := TaskStep(s, SelectCode(request), clock(k + 1));
    if task1.Done? {
      Finished(s, Rejected, clock, k + 2);
    } else {
      var (s2, task2) := TaskStep(s1, task1, clock(k + 2));
      NextStatement(s1, task1, clock, k + 2);
      CheckRejects(s2, task2.goal, clock, k + 3);
    }
  }

  /**
  No resurrection, as requests see it: after the bump, a whole request on any credential that
  descends from an earlier login is rejected and changes nothing.
  */
  lemma RevokedForGood(w0: World, before: seq<Event>, bump: seq<Event>, later: seq<Event>, request: Request, clock: Clock)
    requires Initial(w0) && Presented(request).Some?
    requires
      var c := Presented(request).value;
      var h1 := Run(w0, before).state.hist;
      var w2 := Run(Run(w0, before), bump);
      && c in Run(w2, later).state.hist.root
      && Run(w2, later).state.hist.root[c] in h1.logins
      && BumpedBetween(Run(w0, before).state.db, w2.state.db, CredentialUser(c))
    ensures
      var s := Run(Run(Run(w0, before), bump), later).state;
      RunRequest(s, request, clock, 0).0 == s && RunRequest(s, request, clock, 0).1 == Rejected
  {
    hide Run, RunRequest;
    NoResurrection(w0, before, bump, later, Presented(request).value);
    StaleRequestFails(Run(Run(Run(w0, before), bump), later).state, request, clock, 0);
  }

  /** A stored retry pair belongs to the login of the token it replaced. */
  lemma RetryOfSameLogin(s: State, tasks: map<nat, Task>, token: Claims)
    requires Inv(s, tasks) && token in s.db.refresh && s.db.refresh[token].retryPair.Some?
    requires Central(token) in s.hist.root
    ensures var access := s.db.refresh[token].retryPair.value.access;
      && Central(access) in s.hist.root && s.hist.root[Central(access)] == s.hist.root[Central(token)]
      && access.sub == token.sub
  {
    hide Inv, CredentialsFit;
    PartsOf(s, tasks);
    assert RowFits(s.hist, token, s.db.refresh[token]);
    FitsLogin(s.hist, Central(token));
    FitsLogin(s.hist, Central(s.db.refresh[token].retryPair.value.access));
  }

  /** A retry whose first saved access token is rejected, or a rotation that is, changes nothing. */
  lemma BrowserFails(s: State, token: Claims, clock: Clock)
    requires !RetryOpen(s.db, token, clock(0)) ==>
      RunRequest(s, Rotate(token), clock, 1).0 == s && RunRequest(s, Rotate(token), clock, 1).1 == Rejected
    requires RetryOpen(s.db, token, clock(0)) ==>
      RunRequest(s, VerifyAccess(s.db.refresh[token].retryPair.value.access), clock, 1).1 == Rejected
    ensures RotateBrowser(s, token, clock) == (s, Rejected)
  {
    hide RunRequest;
  }

  /** The saved access token of a retry descends from the login of its refresh token, and is as stale. */
  lemma RevokedRetry(w0: World, before: seq<Event>, bump: seq<Event>, later: seq<Event>, token: Claims, clock: Clock)
    requires Initial(w0)
    requires
      var h1 := Run(w0, before).state.hist;
      var w2 := Run(Run(w0, before), bump);
      var s := Run(w2, later).state;
      && Central(token) in s.hist.root && s.hist.root[Central(token)] in h1.logins
      && BumpedBetween(Run(w0, before).state.db, w2.state.db, token.sub)
      && RetryOpen(s.db, token, clock(0))
    ensures
      var s := Run(Run(Run(w0, before), bump), later).state;
      RunRequest(s, VerifyAccess(s.db.refresh[token].retryPair.value.access), clock, 1).1 == Rejected
  {
    hide Run, RunRequest, Initial, Inv, CheckGeneration;
    var w := Run(Run(Run(w0, before), bump), later);
    var s := w.state;
    RunTwice(w0, before, bump);
    RunTwice(w0, before + bump, later);
    Reachable(w0, before + bump + later);
    RetryOfSameLogin(s, w.tasks, token);
    var access := s.db.refresh[token].retryPair.value.access;
    NoResurrection(w0, before, bump, later, Central(access));
    StaleRequestFails(s, VerifyAccess(access), clock, 1);
  }

  /**
  No resurrection at the browser endpoint: after the bump, a browser rotation of a refresh token that
  descends from an earlier login is rejected and changes nothing, inside its retry window too.
  */
  lemma RevokedBrowserForGood(w0: World, before: seq<Event>, bump: seq<Event>, later: seq<Event>, token: Claims,
                              clock: Clock)
    requires Initial(w0)
    requires
      var h1 := Run(w0, before).state.hist;
      var w2 := Run(Run(w0, before), bump);
      && Central(token) in Run(w2, later).state.hist.root
      && Run(w2, later).state.hist.root[Central(token)] in h1.logins
      && BumpedBetween(Run(w0, before).state.db, w2.state.db, token.sub)
    ensures
      var s := Run(Run(Run(w0, before), bump), later).state;
      RotateBrowser(s, token, clock) == (s, Rejected)
  {
    hide Run, RunRequest, Initial, RetryOpen, RotateBrowser, CheckGeneration;
    var s := Run(Run(Run(w0, before), bump), later).state;
    NoResurrection(w0, before, bump, later, Central(token));
    StaleRequestFails(s, Rotate(token), clock, 1);
    if RetryOpen(s.db, token, clock(0)) {
      RevokedRetry(w0, before, bump, later, token, clock);
    }
    BrowserFails(s, token, clock);
  }

  /** Past the deadline of its login, a browser rotation of a refresh token is rejected and changes nothing. */
  lemma NoBrowserOutlivesItsLogin(w0: World, events: seq<Event>, token: Claims, clock: Clock)
    requires Initial(w0) && Monotone(clock) && Central(token) in Run(w0, events).state.hist.root
    requires
      var h := Run(w0, events).state.hist;
      var login := h.root[Central(token)];
      login in h.logins && h.logins[login].deadline.Some? && h.logins[login].deadline.value < clock(0)
    ensures var s := Run(w0, events).state; RotateBrowser(s, token, clock) == (s, Rejected)
  {
    hide Run, RunRequest, Initial, Inv, CredentialsFit, ChainsFit, RotateBrowser;
    var w := Run(w0, events);
    DeadlineIsAbsolute(w0, events, Central(token));
    Reachable(w0, events);
    PartsOf(w.state, w.tasks);
    assert clock(0) <= clock(1);
    ExpiredIsNotAdmitted(w.state, Rotate(token), clock, 1);
    if token in w.state.db.refresh { assert RowFits(w.state.hist, token, w.state.db.refresh[token]); }
    BrowserFails(w.state, token, clock);
  }

  /** The stored row of a signed code is the one it was issued with, but for being spent. */
  lemma StoredCode(s: State, tasks: map<nat, Task>, code: nat, row: CodeRow)
    requires Inv(s, tasks) && AuthorizationCode(code, row) in s.hist.root && code in s.db.codes
    ensures s.db.codes[code].(consumedAt := None) == row
  {
    hide Inv;
    TablesFit(s, tasks);
  }

  /** A code cannot be exchanged from the deadline of its login on: that is rejected and changes nothing. */
  lemma NoCodeOutlivesItsLogin(w0: World, events: seq<Event>, request: Request, row: CodeRow, clock: Clock)
    requires Initial(w0) && request.ExchangeCode?
    requires AuthorizationCode(request.code, row) in Run(w0, events).state.hist.root
    requires
      var h := Run(w0, events).state.hist;
      var login := h.root[AuthorizationCode(request.code, row)];
      login in h.logins && h.logins[login].deadline.Some? && h.logins[login].deadline.value <= clock(1)
    ensures
      var s := Run(w0, events).state;
      RunRequest(s, request, clock, 0).0 == s && RunRequest(s, request, clock, 0).1 == Rejected
  {
    hide Run, RunTask, Initial, Inv, VerifyPkce;
    var w := Run(w0, events);
    DeadlineIsAbsolute(w0, events, AuthorizationCode(request.code, row));
    Reachable(w0, events);
    if request.code in w.state.db.codes { StoredCode(w.state, w.tasks, request.code, row); }
    NextStatement(w.state, Arrived(request), clock, 0);
    NextStatement(w.state, SelectCode(request), clock, 1);
    Finished(w.state, Rejected, clock, 2);
  }

  lemma MissingCodeFails(s: State, request: Request, clock: Clock, k: nat)
    requires request.ExchangeCode? && request.code !in s.db.codes
    ensures RunRequest(s, request, clock, k).0 == s && RunRequest(s, request, clock, k).1 == Rejected
  {
    hide RunTask;
    NextStatement(s, Arrived(request), clock, k);
    NextStatement(s, SelectCode(request), clock, k + 1);
    Finished(s, Rejected, clock, k + 2);
  }

  /**
  No resurrection through codes: after the bump, exchanging a code that descends from an earlier
  login is rejected and signs nothing.
  */
  lemma RevokedCodeForGood(w0: World, before: seq<Event>, bump: seq<Event>, later: seq<Event>, request: Request,
                           row: CodeRow, clock: Clock)
    requires Initial(w0) && request.ExchangeCode?
    requires
      var c := AuthorizationCode(request.code, row);
      var h1 := Run(w0, before).state.hist;
      var w2 := Run(Run(w0, before), bump);
      && c in Run(w2, later).state.hist.root
      && Run(w2, later).state.hist.root[c] in h1.logins
      && BumpedBetween(Run(w0, before).state.db, w2.state.db, row.user)
    ensures
      var s := Run(Run(Run(w0, before), bump), later).state;
      var (s', outcome, _) := RunRequest(s, request, clock, 0);
      outcome == Rejected && s'.hist.root == s.hist.root
  {
    hide Run, RunRequest, Initial, Inv;
    var w := Run(Run(Run(w0, before), bump), later);
    NoResurrection(w0, before, bump, later, AuthorizationCode(request.code, row));
    RunTwice(w0, before, bump);
    RunTwice(w0, before + bump, later);
    Reachable(w0, before + bump + later);
    if request.code in w.state.db.codes {
      StoredCode(w.state, w.tasks, request.code, row);
      StaleCodeFails(w.state, request, clock, 0);
    } else {
      MissingCodeFails(w.state, request, clock, 0);
    }
  }

  /** `revoke_all_user_tokens` on the tables, with its readings. */
  function RevokedAll(db: Database, user: UserId, t1: int, t2: int): Database {
    RecordRevocation(BumpGeneration(RevokeRefreshTokens(db, user, t1), user), user, t2)
  }

  lemma RevokeRuns(s: State, user: UserId, after: Outcome, clock: Clock, k: nat)
    requires user in s.db.users
    ensures var r := RunTask(s, RevokeRefresh(user, after), clock, k);
      r.0 == s.(db := RevokedAll(s.db, user, clock(k), clock(k + 2))) && r.1 == after
  {
    hide RunTask;
    var s1 := s.(db := RevokeRefreshTokens(s.db, user, clock(k)));
    var s2 := s1.(db := BumpGeneration(s1.db, user));
    var s3 := s2.(db := RecordRevocation(s2.db, user, clock(k + 2)));
    NextStatement(s, RevokeRefresh(user, after), clock, k);
    NextStatement(s1, Bump(user, after), clock, k + 1);
    NextStatement(s2, NoteRevocation(user, after), clock, k + 2);
    Finished(s3, after, clock, k + 3);
  }

  /** The user's generation has gone up and no refresh token of theirs is live. */
  predicate Revoked(db: Database, user: UserId, db': Database) {
    && user in db.users && user in db'.users && db'.users[user].version == db.users[user].version + 1
    && forall t :: t in db'.refresh && db'.refresh[t].user == user ==> db'.refresh[t].revokedAt.Some?
  }

  /** Logging out everywhere bumps the generation and leaves no live refresh token. */
  lemma RevokeAllRevokes(s: State, user: UserId, clock: Clock, k: nat)
    requires user in s.db.users
    ensures var (s', outcome, _) := RunRequest(s, Revoke(user), clock, k);
      outcome == CredentialMachine.Revoked && Revoked(s.db, user, s'.db)
  {
    hide RunTask;
    NextStatement(s, Arrived(Revoke(user)), clock, k);
    RevokeRuns(s, user, CredentialMachine.Revoked, clock, k + 1);
  }

  lemma SpentIsLookedUp(s: State, goal: Goal, now: int)
    requires goal.Spend? && goal.token in s.db.refresh && s.db.refresh[goal.token].revokedAt.Some?
    ensures TaskStep(s, Ready(goal), now) == (s, ReplayLookup(goal.token))
  {
  }

  lemma SpentTokenReplays(s: State, token: Claims, clock: Clock, k: nat)
    requires Signed(s, Central(token)) && token.typ.RefreshToken? && token.exp > clock(k)
    requires token in s.db.refresh && s.db.refresh[token].revokedAt.Some? && s.db.refresh[token].user == token.sub
    requires token.sub in s.db.users
    requires var v := ReadGeneration(s.db, token.sub); v.Some? && SessionHolds(s.db, Spend(token, v.value, ToRotate))
    ensures var (s', outcome, _) := RunRequest(s, Rotate(token), clock, k);
      outcome == Rejected && Revoked(s.db, token.sub, s'.db)
  {
    hide RunTask;
    var goal := Spend(token, ReadGeneration(s.db, token.sub).value, ToRotate);
    NextStatement(s, Arrived(Rotate(token)), clock, k);
    NextStatement(s, ReadVersion(token, ToRotate), clock, k + 1);
    var k' := SessionHoldsRuns(s, goal, clock, k + 2);
    SpentIsLookedUp(s, goal, clock(k'));
    NextStatement(s, Ready(goal), clock, k');
    NextStatement(s, ReplayLookup(token), clock, k' + 1);
    RevokeRuns(s, token.sub, Rejected, clock, k' + 2);
  }

  /**
  In every reachable world, presenting a refresh token that was already consumed, to the JSON
  endpoint at any time or to the browser endpoint outside its retry window, is rejected, bumps
  the generation and revokes every refresh token of the user.
  */
  lemma LateReplayRevokes(w0: World, events: seq<Event>, token: Claims, clock: Clock)
    requires Initial(w0)
    requires
      var s := Run(w0, events).state;
      && token in s.db.refresh && s.db.refresh[token].revokedAt.Some?
      && token.exp > clock(0) && token.exp > clock(1)
      && var v := ReadGeneration(s.db, token.sub);
         v.Some? && SessionHolds(s.db, Spend(token, v.value, ToRotate))
    ensures
      var s := Run(w0, events).state;
      var (json, outcome, _) := RunRequest(s, Rotate(token), clock, 0);
      && outcome == Rejected && Revoked(s.db, token.sub, json.db)
      && (!RetryOpen(s.db, token, clock(0)) ==>
            var (browser, outcome') := RotateBrowser(s, token, clock);
            outcome' == Rejected && Revoked(s.db, token.sub, browser.db))
  {
    var w := Run(w0, events);
    Reachable(w0, events);
    PartsOf(w.state, w.tasks);
    assert RowFits(w.state.hist, token, w.state.db.refresh[token]);
    SpentTokenReplays(w.state, token, clock, 0);
    SpentTokenReplays(w.state, token, clock, 1);
  }

  // ---------------------------------------------------------------------------------------------
  // Codes and handoffs are redeemed once
  // ---------------------------------------------------------------------------------------------

  /**
  Over every interleaving, no code is exchanged twice and no handoff redeemed twice, and each
  exchange carried the client, redirect URI and verifier the code was issued for.
  */
  lemma RedeemedOnce(w0: World, events: seq<Event>)
    requires Initial(w0)
    ensures
      var h := Run(w0, events).state.hist;
      && (forall i, j :: 0 <= i < j < |h.exchanged| ==> h.exchanged[i].code != h.exchanged[j].code)
      && (forall i, row :: 0 <= i < |h.exchanged| && AuthorizationCode(h.exchanged[i].code, row) in h.root ==>
            var e := h.exchanged[i]; CodeBindingsHold(row, e.application, e.redirectUri, e.verifier))
      && (forall i, j :: 0 <= i < j < |h.redeemed| ==> h.redeemed[i].jti != h.redeemed[j].jti)
  {
    var w := Run(w0, events);
    Reachable(w0, events);
    TablesFit(w.state, w.tasks);
    var h := w.state.hist;
    forall i, row | 0 <= i < |h.exchanged| && AuthorizationCode(h.exchanged[i].code, row) in h.root
      ensures var e := h.exchanged[i]; CodeBindingsHold(row, e.application, e.redirectUri, e.verifier)
    {
      assert AuthorizationCode(h.exchanged[i].code, h.exchanged[i].row) in h.root;
    }
  }

  /** An exchange with the wrong client, redirect URI or verifier is rejected and changes nothing. */
  lemma WrongBindingChangesNothing(s: State, request: Request, clock: Clock, k: nat)
    requires request.ExchangeCode? && request.code in s.db.codes
    requires !CodeBindingsHold(s.db.codes[request.code], request.application, request.redirectUri, request.verifier)
    ensures var (s', outcome, _) := RunRequest(s, request, clock, k); s' == s && outcome == Rejected
  {
    hide RunTask, VerifyPkce;
    NextStatement(s, Arrived(request), clock, k);
    NextStatement(s, SelectCode(request), clock, k + 1);
    Finished(s, Rejected, clock, k + 2);
  }

  /** An unspent, unexpired code of a valid session is redeemed by a request that meets its bindings. */
  lemma RightBindingRedeems(s: State, request: Request, clock: Clock, k: nat)
    requires request.ExchangeCode? && request.code in s.db.codes
    requires
      var row := s.db.codes[request.code];
      && Redeemable(row, clock(k + 1))
      && CodeBindingsHold(row, request.application, request.redirectUri, request.verifier)
      && SessionHolds(s.db, MintOidc(request.code, row))
    ensures
      var row := s.db.codes[request.code];
      var (s', outcome, _) := RunRequest(s, request, clock, k);
      && outcome.OidcMinted? && outcome.access.sub == row.user && outcome.access.client == request.application
      && s'.db == ConsumeCode(s, request, row, clock(k + 1)).0.db
      && s'.hist.exchanged == s.hist.exchanged +
           [Exchange(request.code, row, request.application, request.redirectUri, request.verifier)]
  {
    hide RunTask, VerifyPkce;
    var row := s.db.codes[request.code];
    var s1 := ConsumeCode(s, request, row, clock(k + 1)).0;
    var goal := MintOidc(request.code, row);
    NextStatement(s, Arrived(request), clock, k);
    NextStatement(s, SelectCode(request), clock, k + 1);
    NextStatement(s, TakeCode(request, row, clock(k + 1)), clock, k + 2);
    var k' := SessionHoldsRuns(s1, goal, clock, k + 3);
    MintOidcRuns(s1, goal, clock, k');
  }

  /** A checked code mints both of its tokens and touches no table. */
  lemma MintOidcRuns(s: State, goal: Goal, clock: Clock, k: nat)
    requires goal.MintOidc? && ReadGeneration(s.db, goal.row.user).Some?
    ensures var (s', outcome, _) := RunTask(s, Ready(goal), clock, k);
      && outcome.OidcMinted? && outcome.access.sub == goal.row.user && outcome.access.client == goal.row.application
      && s'.db == s.db && s'.hist.exchanged == s.hist.exchanged
  {
    hide RunTask;
    var (s1, task1) := TaskStep(s, Ready(goal), clock(k));
    NextStatement(s, Ready(goal), clock, k);
    var (s2, task2) := TaskStep(s1, task1, clock(k + 1));
    NextStatement(s1, task1, clock, k + 1);
    Finished(s2, task2.outcome, clock, k + 2);
  }
}
