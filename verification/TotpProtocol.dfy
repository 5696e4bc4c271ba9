/**
Enrolment, activation, login and disabling of the TOTP factor under interleaving. Each statement
is a step; a login that verified a code against a row it read earlier must still win the guarded
update. A stored ciphertext is an identifier drawn afresh at each enrolment.
*/
module TotpProtocol {
  import opened Wrappers
  import opened Text
  import opened Totp

  type User = nat

  /** A row of `user_totps`. */
  datatype TotpRow = TotpRow(secret: nat, lastUsed: Option<int>, activatedAt: Option<int>)

  /** A row of `totp_recovery_codes`: the enrolment whose activation stored it, and whether it is used. */
  datatype RecoveryRow = RecoveryRow(secret: nat, used: bool)

  /** Recovery codes are hashed after dropping white space and dashes and upper-casing. */
  function Canonical(code: string): (r: string)
    ensures forall i :: 0 <= i < |r| ==> r[i] != '-' && !IsWhitespace(r[i])
  {
    if code == [] then []
    else if code[0] == '-' || IsWhitespace(code[0]) then Canonical(code[1..])
    else [UpperChar(code[0])] + Canonical(code[1..])
  }

  datatype Tables = Tables(rows: map<User, TotpRow>, recovery: map<(User, string), RecoveryRow>)

  function DropRecovery(t: Tables, user: User): Tables {
    t.(recovery := map key | key in t.recovery && key.0 != user :: t.recovery[key])
  }

  /** `upsert_pending`: an active factor is never replaced. */
  function UpsertPending(t: Tables, user: User, secret: nat): (Tables, bool) {
    if user in t.rows && t.rows[user].activatedAt.Some? then (t, false)
    else (DropRecovery(t.(rows := t.rows[user := TotpRow(secret, None, None)]), user), true)
  }

  function Activate(t: Tables, user: User, secret: nat, step: int, now: int): (Tables, bool) {
    if user in t.rows && t.rows[user].secret == secret && t.rows[user].activatedAt.None?
    then (t.(rows := t.rows[user := TotpRow(secret, Some(step), Some(now))]), true)
    else (t, false)
  }

  function CodeKeys(user: User, codes: set<string>): set<(User, string)> {
    set c | c in codes :: (user, c)
  }

  function CodeRows(user: User, secret: nat, codes: set<string>): map<(User, string), RecoveryRow> {
    map key | key in CodeKeys(user, codes) :: RecoveryRow(secret, false)
  }

  function Elements(codes: seq<string>): set<string> {
    set c | c in codes
  }

  function StoreRecovery(t: Tables, user: User, secret: nat, codes: set<string>): Tables {
    var t' := DropRecovery(t, user);
    t'.(recovery := t'.recovery + CodeRows(user, secret, codes))
  }

  lemma OneMoreCodeRow(user: User, secret: nat, codes: seq<string>, i: nat)
    requires i < |codes|
    ensures CodeRows(user, secret, Elements(codes[..i + 1]))
         == CodeRows(user, secret, Elements(codes[..i]))[(user, codes[i]) := RecoveryRow(secret, false)]
  {
    assert codes[..i + 1] == codes[..i] + [codes[i]];
  }

  function RecordStep(t: Tables, user: User, secret: nat, step: int): (Tables, bool) {
    if && user in t.rows && t.rows[user].secret == secret && t.rows[user].activatedAt.Some?
       && (t.rows[user].lastUsed.Some? ==> t.rows[user].lastUsed.value < step)
    then (t.(rows := t.rows[user := t.rows[user].(lastUsed := Some(step))]), true)
    else (t, false)
  }

  function ConsumeRecovery(t: Tables, user: User, code: string): (Tables, bool) {
    var key := (user, Canonical(code));
    if key in t.recovery && !t.recovery[key].used
    then (t.(recovery := t.recovery[key := t.recovery[key].(used := true)]), true)
    else (t, false)
  }

  function DeleteRow(t: Tables, user: User): Tables {
    t.(rows := t.rows - {user})
  }

  // ---------------------------------------------------------------------------------------------
  // The state machine
  // ---------------------------------------------------------------------------------------------

  /** One accepted use of a TOTP step: for which enrolment, with which code, verified when. */
  datatype Use = Use(secret: nat, step: int, code: string, at: int)

  datatype RecoveryUse = RecoveryUse(user: User, code: string, secret: nat)

  datatype State = State(tables: Tables, nextSecret: nat, uses: seq<Use>, recovered: seq<RecoveryUse>)

  datatype Outcome = NoFactor | Required | Invalid | Passed | Recovered | Enrolled | Activated | Disabled | Refused

  datatype Task =
    | LoginRead(user: User, presented: Option<string>)
    | LoginRecord(user: User, secret: nat, step: int, code: string, at: int)
    | LoginRecover(user: User, code: string)
    | EnrollRead(user: User)
    | EnrollWrite(user: User)
    | ActivateRead(user: User, code: string)
    | ActivateWrite(user: User, secret: nat, step: int, code: string, at: int)
    | DisableRow(user: User)
    | DisableCodes(user: User)
    | Done(outcome: Outcome)

  /** The code a login presents, with white space trimmed; an empty one counts as absent. */
  function Presented(code: Option<string>): Option<string> {
    if code.Some? && Trim(code.value) != [] then Some(Trim(code.value)) else None
  }

  /** One statement of a task, at clock reading `now`; `drawn` are the recovery codes drawn, if any are. */
  function TaskStep(s: State, task: Task, hmac: Hmac, now: int, drawn: set<string>): (State, Task)
    requires !task.Done?
  {
    var t := s.tables;
    match task
    case LoginRead(user, presented) =>
      if user !in t.rows || t.rows[user].activatedAt.None? then (s, Done(NoFactor))
      else
        var row := t.rows[user];
        (match Presented(presented)
         case None => (s, Done(Required))
         case Some(c) =>
           match VerifyCode(hmac, row.secret, c, now, row.lastUsed)
           case Some(step) => (s, LoginRecord(user, row.secret, step, c, now))
           case None => (s, LoginRecover(user, c)))
    case LoginRecord(user, secret, step, code, at) =>
      var (t', won) := RecordStep(t, user, secret, step);
      if won then (s.(tables := t', uses := s.uses + [Use(secret, step, code, at)]), Done(Passed))
      else (s, Done(Invalid))
    case LoginRecover(user, code) =>
      var (t', won) := ConsumeRecovery(t, user, code);
      if won then
        var row := t.recovery[(user, Canonical(code))];
        (s.(tables := t', recovered := s.recovered + [RecoveryUse(user, Canonical(code), row.secret)]), Done(Recovered))
      else (s, Done(Invalid))
    case EnrollRead(user) =>
      (s, if user in t.rows && t.rows[user].activatedAt.Some? then Done(Refused) else EnrollWrite(user))
    case EnrollWrite(user) =>
      var (t', won) := UpsertPending(t, user, s.nextSecret);
      (s.(tables := t', nextSecret := s.nextSecret + 1), Done(if won then Enrolled else Refused))
    case ActivateRead(user, code) =>
      if user !in t.rows || t.rows[user].activatedAt.Some? then (s, Done(Refused))
      else
        (match VerifyCode(hmac, t.rows[user].secret, code, now, None)
         case Some(step) => (s, ActivateWrite(user, t.rows[user].secret, step, code, now))
         case None => (s, Done(Refused)))
    case ActivateWrite(user, secret, step, code, at) =>
      var (t', won) := Activate(t, user, secret, step, now);
      if won then
        (s.(tables := StoreRecovery(t', user, secret, drawn), uses := s.uses + [Use(secret, step, code, at)]),
         Done(Activated))
      else (s, Done(Refused))
    case DisableRow(user) => (s.(tables := DeleteRow(t, user)), DisableCodes(user))
    case DisableCodes(user) => (s.(tables := DropRecovery(t, user)), Done(Disabled))
  }

  datatype World = World(state: State, tasks: map<nat, Task>)

  datatype Event =
    | Begin(pid: nat, task: Task)
    | Advance(pid: nat, now: int, drawn: set<string>)

  predicate Opening(task: Task) {
    task.LoginRead? || task.EnrollRead? || task.ActivateRead? || task.DisableRow?
  }

  function Step(w: World, e: Event, hmac: Hmac): World {
    match e
    case Begin(pid, task) =>
      if pid in w.tasks || !Opening(task) then w else w.(tasks := w.tasks[pid := task])
    case Advance(pid, now, drawn) =>
      if pid !in w.tasks || w.tasks[pid].Done? then w
      else
        var (s', task') := TaskStep(w.state, w.tasks[pid], hmac, now, drawn);
        World(s', w.tasks[pid := task'])
  }

  function Run(w: World, events: seq<Event>, hmac: Hmac): World
    decreases |events|
  {
    if events == [] then w else Run(Step(w, events[0], hmac), events[1..], hmac)
  }

  /** Any well-formed tables, nothing in flight, and nothing accepted so far. */
  predicate Initial(w: World) {
    && w.tasks == map[] && w.state.uses == [] && w.state.recovered == []
    && RowsFit(w.state) && RecoveryFits(w.state)
  }

  // ---------------------------------------------------------------------------------------------
  // The invariant
  // ---------------------------------------------------------------------------------------------

  /** A use is sound: its code matched its step, within one period of the moment it was checked. */
  predicate Sound(u: Use, hmac: Hmac) {
    && u.at >= 0 && u.step >= 0
    && u.at / TOTP_PERIOD - 1 <= u.step <= u.at / TOTP_PERIOD + 1
    && ParseCode(u.code) == Some(Hotp(hmac, u.secret, u.step))
  }

  predicate UsesFit(s: State, hmac: Hmac) {
    && (forall i :: 0 <= i < |s.uses| ==> Sound(s.uses[i], hmac) && s.uses[i].secret < s.nextSecret)
    && (forall i, j :: 0 <= i < j < |s.uses| && s.uses[i].secret == s.uses[j].secret ==>
          s.uses[i].step < s.uses[j].step)
  }

  /** A row remembers the last step used for it; a pending row has never been used. */
  predicate RowsFit(s: State) {
    && (forall u :: u in s.tables.rows ==>
          var row := s.tables.rows[u];
          && row.secret < s.nextSecret
          && (row.activatedAt.None? ==> row.lastUsed.None?)
          && forall i :: 0 <= i < |s.uses| && s.uses[i].secret == row.secret ==>
               row.lastUsed.Some? && s.uses[i].step <= row.lastUsed.value)
    && (forall u, v :: u in s.tables.rows && v in s.tables.rows && u != v ==>
          s.tables.rows[u].secret != s.tables.rows[v].secret)
  }

  /** A stored recovery code that is unused has not been accepted, and no code is accepted twice. */
  predicate RecoveryFits(s: State) {
    && (forall key :: key in s.tables.recovery ==> s.tables.recovery[key].secret < s.nextSecret)
    && (forall i :: 0 <= i < |s.recovered| ==>
          var r := s.recovered[i];
          && r.secret < s.nextSecret
          && ((r.user, r.code) in s.tables.recovery ==>
                s.tables.recovery[(r.user, r.code)].secret == r.secret ==> s.tables.recovery[(r.user, r.code)].used)
          && (forall u :: u in s.tables.rows && s.tables.rows[u].secret == r.secret ==>
                s.tables.rows[u].activatedAt.Some?))
    && (forall i, j :: 0 <= i < j < |s.recovered| ==> s.recovered[i] != s.recovered[j])
    && (forall key, u ::
          (key in s.tables.recovery && u in s.tables.rows && s.tables.rows[u].secret == s.tables.recovery[key].secret)
          ==> s.tables.rows[u].activatedAt.Some?)
  }

  predicate TaskFits(s: State, task: Task, hmac: Hmac) {
    match task
    case LoginRecord(_, secret, step, code, at) =>
      secret < s.nextSecret && Sound(Use(secret, step, code, at), hmac)
    case ActivateWrite(_, secret, step, code, at) =>
      secret < s.nextSecret && Sound(Use(secret, step, code, at), hmac)
    case _ => true
  }

  predicate Inv(w: World, hmac: Hmac) {
    && UsesFit(w.state, hmac) && RowsFit(w.state) && RecoveryFits(w.state)
    && forall pid :: pid in w.tasks ==> TaskFits(w.state, w.tasks[pid], hmac)
  }

  lemma UsesStep(s: State, task: Task, hmac: Hmac, now: int, drawn: set<string>)
    requires UsesFit(s, hmac) && RowsFit(s) && TaskFits(s, task, hmac) && !task.Done?
    ensures UsesFit(TaskStep(s, task, hmac, now, drawn).0, hmac)
  {
    hide Sound, VerifyCode, Canonical, Trim;
  }

  lemma RowsStep(s: State, task: Task, hmac: Hmac, now: int, drawn: set<string>)
    requires RowsFit(s) && TaskFits(s, task, hmac) && !task.Done? && UsesFit(s, hmac)
    ensures RowsFit(TaskStep(s, task, hmac, now, drawn).0)
  {
    hide RowsFit, UsesFit, Sound, VerifyCode, Canonical, Trim;
    var s' := TaskStep(s, task, hmac, now, drawn).0;
    match task
    case LoginRecord(user, secret, step, code, at) =>
      if RecordStep(s.tables, user, secret, step).1 { UseKeepsRows(s, s', user, Use(secret, step, code, at)); }
    case ActivateWrite(user, secret, step, code, at) =>
      if Activate(s.tables, user, secret, step, now).1 { UseKeepsRows(s, s', user, Use(secret, step, code, at)); }
    case EnrollWrite(user) => EnrollKeepsRows(s, s', user, hmac);
    case DisableRow(_) => FewerKeepRows(s, s');
    case DisableCodes(_) => FewerKeepRows(s, s');
    case LoginRecover(_, _) => FewerKeepRows(s, s');
    case _ =>
  }

  /** A recorded step becomes the last one used for its enrolment. */
  lemma UseKeepsRows(s: State, s': State, user: User, u: Use)
    requires RowsFit(s) && user in s.tables.rows && user in s'.tables.rows && s'.nextSecret == s.nextSecret
    requires s'.tables.rows == s.tables.rows[user := s'.tables.rows[user]] && s'.uses == s.uses + [u]
    requires
      var (row, row') := (s.tables.rows[user], s'.tables.rows[user]);
      && row'.secret == row.secret == u.secret && row'.activatedAt.Some? && row'.lastUsed == Some(u.step)
      && (row.activatedAt.Some? && row.lastUsed.Some? ==> row.lastUsed.value < u.step)
    ensures RowsFit(s')
  {
  }

  /** An enrolment stores nothing, or a pending row for a secret that has no uses. */
  lemma EnrollKeepsRows(s: State, s': State, user: User, hmac: Hmac)
    requires RowsFit(s) && UsesFit(s, hmac) && s'.uses == s.uses && s'.nextSecret == s.nextSecret + 1
    requires s'.tables.rows == s.tables.rows
          || s'.tables.rows == s.tables.rows[user := TotpRow(s.nextSecret, None, None)]
    ensures RowsFit(s')
  {
  }

  lemma FewerKeepRows(s: State, s': State)
    requires RowsFit(s) && s'.uses == s.uses && s'.nextSecret == s.nextSecret
    requires forall u :: u in s'.tables.rows ==> u in s.tables.rows && s'.tables.rows[u] == s.tables.rows[u]
    ensures RowsFit(s')
  {
  }

  lemma RecoveryStep(s: State, task: Task, hmac: Hmac, now: int, drawn: set<string>)
    requires RowsFit(s) && RecoveryFits(s) && !task.Done?
    ensures RecoveryFits(TaskStep(s, task, hmac, now, drawn).0)
  {
    hide VerifyCode, Canonical, Trim;
  }

  /** A verified code is a sound use for the row it was verified against. */
  lemma VerifiedIsSound(hmac: Hmac, secret: nat, code: string, now: int, lastUsed: Option<int>)
    ensures var r := VerifyCode(hmac, secret, code, now, lastUsed);
      r.Some? ==> Sound(Use(secret, r.value, code, now), hmac)
  {
    VerifyCodeIsEarliest(hmac, secret, code, now, lastUsed, 0);
  }

  lemma TaskFitsStep(s: State, task: Task, hmac: Hmac, now: int, drawn: set<string>)
    requires RowsFit(s) && TaskFits(s, task, hmac) && !task.Done?
    ensures var (s', task') := TaskStep(s, task, hmac, now, drawn);
      TaskFits(s', task', hmac) && s'.nextSecret >= s.nextSecret
  {
    hide VerifyCode, Sound, Canonical, Trim;
    if task.LoginRead? && task.user in s.tables.rows && Presented(task.presented).Some? {
      var row := s.tables.rows[task.user];
      VerifiedIsSound(hmac, row.secret, Presented(task.presented).value, now, row.lastUsed);
    } else if task.ActivateRead? && task.user in s.tables.rows {
      VerifiedIsSound(hmac, s.tables.rows[task.user].secret, task.code, now, None);
    }
  }

  lemma StepKeepsInv(w: World, e: Event, hmac: Hmac)
    requires Inv(w, hmac)
    ensures Inv(Step(w, e, hmac), hmac)
  {
    hide UsesFit, RowsFit, RecoveryFits, TaskStep, Sound;
    if e.Advance? && e.pid in w.tasks && !w.tasks[e.pid].Done? {
      var task := w.tasks[e.pid];
      assert TaskFits(w.state, task, hmac);
      UsesStep(w.state, task, hmac, e.now, e.drawn);
      RowsStep(w.state, task, hmac, e.now, e.drawn);
      RecoveryStep(w.state, task, hmac, e.now, e.drawn);
      TaskFitsStep(w.state, task, hmac, e.now, e.drawn);
    }
  }

  lemma {:induction false} RunKeepsInv(w: World, events: seq<Event>, hmac: Hmac)
    requires Inv(w, hmac)
    ensures Inv(Run(w, events, hmac), hmac)
    decreases |events|
  {
    hide Inv, Step;
    if events != [] {
      StepKeepsInv(w, events[0], hmac);
      RunKeepsInv(Step(w, events[0], hmac), events[1..], hmac);
    }
  }

  // ---------------------------------------------------------------------------------------------
  // What holds over every run
  // ---------------------------------------------------------------------------------------------

  /**
  Over every interleaving, the steps accepted for one enrolment strictly increase, activation
  included, so none is accepted twice; each matched its code and lies within one period of the
  moment its code was checked.
  */
  lemma StepsAcceptedOnce(w0: World, events: seq<Event>, hmac: Hmac)
    requires Initial(w0)
    ensures
      var uses := Run(w0, events, hmac).state.uses;
      && (forall i, j :: 0 <= i < j < |uses| && uses[i].secret == uses[j].secret ==> uses[i].step < uses[j].step)
      && (forall i :: 0 <= i < |uses| ==> Sound(uses[i], hmac))
  {
    RunKeepsInv(w0, events, hmac);
  }

  /** No recovery code of an enrolment is accepted twice. */
  lemma RecoveryCodesAcceptedOnce(w0: World, events: seq<Event>, hmac: Hmac)
    requires Initial(w0)
    ensures
      var recovered := Run(w0, events, hmac).state.recovered;
      forall i, j :: 0 <= i < j < |recovered| ==> recovered[i] != recovered[j]
  {
    RunKeepsInv(w0, events, hmac);
  }

  /** Two logins racing with one code: once the step is recorded, the other's record fails. */
  lemma RaceHasOneWinner(s: State, user: User, secret: nat, step: int, code: string, at1: int, at2: int, hmac: Hmac,
                         now1: int, now2: int)
    ensures
      var (s1, first) := TaskStep(s, LoginRecord(user, secret, step, code, at1), hmac, now1, {});
      var (s2, second) := TaskStep(s1, LoginRecord(user, secret, step, code, at2), hmac, now2, {});
      !(first == Done(Passed) && second == Done(Passed)) && (first == Done(Passed) ==> s2 == s1)
  {
  }

  /** Left alone, a login with a code that some unused step matches passes. */
  lemma UndisturbedCodePasses(s: State, user: User, code: string, hmac: Hmac, now: int, step: int)
    requires user in s.tables.rows && s.tables.rows[user].activatedAt.Some? && Trim(code) != []
    requires Eligible(hmac, s.tables.rows[user].secret, Trim(code), now, s.tables.rows[user].lastUsed, step)
    ensures
      var (s1, task1) := TaskStep(s, LoginRead(user, Some(code)), hmac, now, {});
      task1.LoginRecord? && TaskStep(s1, task1, hmac, now, {}).1 == Done(Passed)
  {
    hide Trim, ParseCode, Hotp;
    var row := s.tables.rows[user];
    VerifyCodeIsEarliest(hmac, row.secret, Trim(code), now, row.lastUsed, step);
  }

  // ---------------------------------------------------------------------------------------------
  // The store, as written
  // ---------------------------------------------------------------------------------------------

  /** The two tables and the guarded statements on them. */
  class TotpStore {
    var rows: map<User, TotpRow>
    var recovery: map<(User, string), RecoveryRow>

    function View(): Tables
      reads this
    {
      Tables(rows, recovery)
    }

    /** An active factor stays; otherwise a new pending one is there, and no recovery code works any more. */
    method UpsertPendingRow(user: User, secret: nat) returns (ok: bool)
      modifies this
      ensures ok <==> !(user in old(rows) && old(rows)[user].activatedAt.Some?)
      ensures !ok ==> rows == old(rows) && recovery == old(recovery)
      ensures ok ==> rows == old(rows)[user := TotpRow(secret, None, None)]
      ensures ok ==> forall code :: !ConsumeRecovery(View(), user, code).1
      ensures forall key: (User, string) :: key.0 != user ==>
        (key in recovery <==> key in old(recovery)) && (key in recovery ==> recovery[key] == old(recovery)[key])
      ensures (View(), ok) == UpsertPending(old(View()), user, secret)
    {
      if user in rows && rows[user].activatedAt.Some? {
        return false;
      }
      rows := rows[user := TotpRow(secret, None, None)];
      recovery := map key | key in recovery && key.0 != user :: recovery[key];
      ok := true;
    }

    /**
    Only the pending factor whose secret was verified is activated. The step used counts as used: no
    code of that step or an earlier one is eligible afterwards, and activating again fails.
    */
    method ActivateRow(user: User, secret: nat, step: int, now: int) returns (ok: bool)
      modifies this
      ensures ok <==> user in old(rows) && old(rows)[user].activatedAt.None? && old(rows)[user].secret == secret
      ensures recovery == old(recovery) && (!ok ==> rows == old(rows))
      ensures ok ==> user in rows && rows[user].activatedAt == Some(now) && rows == old(rows)[user := rows[user]]
      ensures ok ==> forall hmac, code, at, next :: Eligible(hmac, secret, code, at, rows[user].lastUsed, next) ==> next > step
      ensures ok ==> forall again, at :: !Activate(View(), user, secret, again, at).1
      ensures (View(), ok) == Activate(old(View()), user, secret, step, now)
    {
      ok := user in rows && rows[user].secret == secret && rows[user].activatedAt.None?;
      if ok {
        rows := rows[user := rows[user].(activatedAt := Some(now), lastUsed := Some(step))];
      }
    }

    /**
    Succeeds exactly for the active factor of that secret and a step later than its last; the row then
    holds the step, so that no code of it or of an earlier one is eligible afterwards.
    */
    method RecordUsedStep(user: User, secret: nat, step: int) returns (ok: bool)
      modifies this
      ensures ok <==>
        && user in old(rows) && old(rows)[user].secret == secret && old(rows)[user].activatedAt.Some?
        && forall last :: old(rows)[user].lastUsed == Some(last) ==> last < step
      ensures recovery == old(recovery) && (!ok ==> rows == old(rows))
      ensures ok ==> rows == old(rows)[user := old(rows)[user].(lastUsed := Some(step))]
      ensures ok ==> forall hmac, code, at, next :: Eligible(hmac, secret, code, at, rows[user].lastUsed, next) ==> next > step
      ensures ok ==> forall again :: again <= step ==> !RecordStep(View(), user, secret, again).1
      ensures (View(), ok) == RecordStep(old(View()), user, secret, step)
    {
      ok := && user in rows && rows[user].secret == secret && rows[user].activatedAt.Some?
            && (rows[user].lastUsed.None? || rows[user].lastUsed.value < step);
      if ok {
        rows := rows[user := rows[user].(lastUsed := Some(step))];
      }
    }

    /** Succeeds exactly for a stored unused code, after which no spelling of it succeeds; other codes stay. */
    method ConsumeRecoveryCode(user: User, code: string) returns (ok: bool)
      modifies this
      ensures ok <==> (user, Canonical(code)) in old(recovery) && !old(recovery)[(user, Canonical(code))].used
      ensures rows == old(rows) && (!ok ==> recovery == old(recovery))
      ensures ok ==> forall again :: Canonical(again) == Canonical(code) ==> !ConsumeRecovery(View(), user, again).1
      ensures forall key: (User, string) :: key != (user, Canonical(code)) ==>
        (key in recovery <==> key in old(recovery)) && (key in recovery ==> recovery[key] == old(recovery)[key])
      ensures (View(), ok) == ConsumeRecovery(old(View()), user, code)
    {
      var key := (user, Canonical(code));
      ok := key in recovery && !recovery[key].used;
      if ok {
        recovery := recovery[key := recovery[key].(used := true)];
      }
    }

    method StoreRecoveryCodes(user: User, secret: nat, codes: seq<string>)
      modifies this
      ensures View() == StoreRecovery(old(View()), user, secret, Elements(codes))
    {
      recovery := map key | key in recovery && key.0 != user :: recovery[key];
      ghost var kept := recovery;
      for i := 0 to |codes|
        invariant rows == old(rows)
        invariant recovery == kept + CodeRows(user, secret, Elements(codes[..i]))
      {
        OneMoreCodeRow(user, secret, codes, i);
        recovery := recovery[(user, codes[i]) := RecoveryRow(secret, false)];
      }
      assert codes[..|codes|] == codes;
    }

    /** The factor is gone with its recovery codes: logins of that user need none, and those of others are as before. */
    method Delete(user: User) returns (ok: bool)
      modifies this
      ensures user !in rows && forall code :: !ConsumeRecovery(View(), user, code).1
      ensures forall other :: other != user ==>
        (other in rows <==> other in old(rows)) && (other in rows ==> rows[other] == old(rows)[other])
      ensures forall key: (User, string) :: key.0 != user ==>
        (key in recovery <==> key in old(recovery)) && (key in recovery ==> recovery[key] == old(recovery)[key])
      ensures View() == DropRecovery(DeleteRow(old(View()), user), user)
      ensures ok == (user in old(rows))
    {
      ok := user in rows;
      rows := rows - {user};
      recovery := map key | key in recovery && key.0 != user :: recovery[key];
    }

    /** `enforce_mfa` when nothing interferes: exactly the login task run to its end. */
    method EnforceMfa(user: User, code: Option<string>, hmac: Hmac, now: int, ghost s: State)
      returns (outcome: Outcome)
      requires s.tables == View()
      modifies this
      ensures
        var (s1, task1) := TaskStep(s, LoginRead(user, code), hmac, now, {});
        var (s2, task2) := if task1.Done? then (s1, task1) else TaskStep(s1, task1, hmac, now, {});
        task2 == Done(outcome) && View() == s2.tables
    {
      if user !in rows {
        return NoFactor;
      }
      var row := rows[user];
      if row.activatedAt.None? {
        return NoFactor;
      }
      var presented := Presented(code);
      if presented.None? {
        return Required;
      }
      var step := VerifyCodeLoop(hmac, row.secret, presented.value, now, row.lastUsed);
      if step.Some? {
        var ok := RecordUsedStep(user, row.secret, step.value);
        return if ok then Passed else Invalid;
      }
      var recovered := ConsumeRecoveryCode(user, presented.value);
      outcome := if recovered then Recovered else Invalid;
    }
  }
}
