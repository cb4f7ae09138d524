/** AuthService.Register as many processes on one database, interleaved at every statement. The
    check and the insert of a registration are separate statements; the insert is retried, and
    an attempt whose reply is lost may have taken effect. */
module Registration {
  import opened Common
  import opened Schema
  import opened Retry

  type Pid = nat

  datatype Phase =
    | Checking
    | Inserting(attempt: nat)
    | Created(user: Uuid)
    | Registered(user: Uuid, token: Bytes)
    | Rejected

  /** `mishap` records that a row was inserted without the process being told, or that the
      session of its new user could not be created. */
  datatype Proc = Proc(login: Bytes, phc: string, phase: Phase, mishap: bool)

  /** `made` records which process inserted which row. */
  datatype State = State(db: Db, procs: map<Pid, Proc>, made: map<Uuid, Pid>)

  datatype Action =
    | Start(pid: Pid, login: Bytes, phc: string)
    | Check(pid: Pid)
    | CheckFails(pid: Pid)
    | Insert(pid: Pid, grant: Option<Uuid>, fate: Fate)
    | Session(pid: Pid, token: Bytes, expiresAt: int, applied: bool, ok: bool)

  ghost predicate Taken(db: Db, login: Bytes) {
    exists u :: u in db.users && db.users[u].loginHash == login
  }

  /** An attempt takes effect only if the constraints let it, and only then can it be
      acknowledged; a session's token is newly generated. */
  ghost predicate Enabled(s: State, a: Action) {
    match a
    case Start(pid, _, _) => pid !in s.procs
    case Check(pid) => pid in s.procs && s.procs[pid].phase.Checking?
    case CheckFails(pid) => pid in s.procs && s.procs[pid].phase.Checking?
    case Insert(pid, grant, fate) =>
      && pid in s.procs && s.procs[pid].phase.Inserting?
      && (fate.applied ==> InsertUser(s.db, grant, RowOf(s.procs[pid])).Some?)
      && (fate.reply == Ack ==> fate.applied)
    case Session(pid, token, expiresAt, applied, ok) =>
      && pid in s.procs && s.procs[pid].phase.Created?
      && token !in s.db.tokens
      && (applied ==> s.procs[pid].phase.user in s.db.users)
      && (ok ==> applied)
  }

  function RowOf(p: Proc): UserRow {
    UserRow(p.login, p.phc)
  }

  function AfterInsert(p: Proc, fate: Fate, grant: Option<Uuid>): Proc
    requires p.phase.Inserting? && (fate.reply == Ack ==> grant.Some?)
  {
    match fate.reply
    case Ack => p.(phase := Created(grant.value))
    case RetryableError =>
      p.(phase := if p.phase.attempt >= MAX_ATTEMPT_COUNT then Rejected else Inserting(p.phase.attempt + 1),
         mishap := p.mishap || fate.applied)
    case OtherError => p.(phase := Rejected, mishap := p.mishap || fate.applied)
  }

  ghost function Step(s: State, a: Action): State
    requires Enabled(s, a)
  {
    match a
    case Start(pid, login, phc) => s.(procs := s.procs[pid := Proc(login, phc, Checking, false)])
    case Check(pid) =>
      var p := s.procs[pid];
      s.(procs := s.procs[pid := p.(phase := if Taken(s.db, p.login) then Rejected else Inserting(0))])
    case CheckFails(pid) => s.(procs := s.procs[pid := s.procs[pid].(phase := Rejected)])
    case Insert(pid, grant, fate) =>
      var p := s.procs[pid];
      if fate.applied then
        State(InsertUser(s.db, grant, RowOf(p)).value,
              s.procs[pid := AfterInsert(p, fate, grant)],
              s.made[grant.value := pid])
      else
        s.(procs := s.procs[pid := AfterInsert(p, fate, grant)])
    case Session(pid, token, expiresAt, applied, ok) =>
      var p := s.procs[pid];
      s.(db := if applied then SaveToken(s.db, token, TokenRow(p.phase.user, expiresAt)).value else s.db,
         procs := s.procs[pid := if ok then p.(phase := Registered(p.phase.user, token))
                                 else p.(phase := Rejected, mishap := true)])
  }

  ghost predicate Run(db0: Db, actions: seq<Action>, states: seq<State>) {
    && |states| == |actions| + 1
    && states[0] == State(db0, map[], map[])
    && (forall i {:trigger actions[i]} :: 0 <= i < |actions| ==>
          Enabled(states[i], actions[i]) && states[i + 1] == Step(states[i], actions[i]))
  }

  // ---- The invariant ----

  predicate HasUser(p: Proc) {
    p.phase.Created? || p.phase.Registered?
  }

  /** A process that was given a user id made that row. */
  ghost predicate HoldersMade(s: State) {
    forall pid :: pid in s.procs && HasUser(s.procs[pid]) ==>
      s.procs[pid].phase.user in s.made && s.made[s.procs[pid].phase.user] == pid
  }

  /** A row that was made carries its maker's login and password; the maker holds it, unless
      something went wrong on the way. */
  ghost predicate MadeBy(s: State, u: Uuid)
    requires u in s.made
  {
    var pid := s.made[u];
    && u in s.db.users && pid in s.procs
    && s.db.users[u] == RowOf(s.procs[pid])
    && (s.procs[pid].mishap || (HasUser(s.procs[pid]) && s.procs[pid].phase.user == u))
  }

  ghost predicate RowsMade(s: State) {
    forall u :: u in s.made ==> MadeBy(s, u)
  }

  ghost predicate SessionsSound(s: State) {
    forall pid :: pid in s.procs && s.procs[pid].phase.Registered? ==>
      && s.procs[pid].phase.token in s.db.tokens
      && s.db.tokens[s.procs[pid].phase.token].userId == s.procs[pid].phase.user
  }

  /** The users are those of db0, unchanged, and the rows made since. */
  ghost predicate UsersAccounted(db0: Db, s: State) {
    && (forall u :: u in db0.users ==> u in s.db.users && s.db.users[u] == db0.users[u] && u !in s.made)
    && (forall u :: u in s.db.users ==> u in db0.users || u in s.made)
  }

  ghost predicate Books(db0: Db, s: State) {
    HoldersMade(s) && RowsMade(s) && SessionsSound(s) && UsersAccounted(db0, s)
  }

  ghost predicate Inv(db0: Db, s: State) {
    Constraints(s.db) && Books(db0, s)
  }

  lemma InsertKeepsMakers(s: State, pid: Pid, grant: Option<Uuid>, fate: Fate)
    requires RowsMade(s) && Enabled(s, Insert(pid, grant, fate))
    ensures RowsMade(Step(s, Insert(pid, grant, fate)))
  {
  }

  lemma InsertKeepsHolders(s: State, pid: Pid, grant: Option<Uuid>, fate: Fate)
    requires HoldersMade(s) && RowsMade(s) && Enabled(s, Insert(pid, grant, fate))
    ensures HoldersMade(Step(s, Insert(pid, grant, fate)))
  {
  }

  lemma InsertKeepsBooks(db0: Db, s: State, pid: Pid, grant: Option<Uuid>, fate: Fate)
    requires Books(db0, s) && Enabled(s, Insert(pid, grant, fate))
    ensures Books(db0, Step(s, Insert(pid, grant, fate)))
  {
    InsertKeepsMakers(s, pid, grant, fate);
    InsertKeepsHolders(s, pid, grant, fate);
  }

  lemma SessionKeepsBooks(db0: Db, s: State, pid: Pid, token: Bytes, expiresAt: int, applied: bool, ok: bool)
    requires Books(db0, s) && Enabled(s, Session(pid, token, expiresAt, applied, ok))
    ensures Books(db0, Step(s, Session(pid, token, expiresAt, applied, ok)))
  {
    var s' := Step(s, Session(pid, token, expiresAt, applied, ok));
    forall u | u in s'.made ensures MadeBy(s', u) {
      assert MadeBy(s, u);
    }
  }

  lemma StepKeepsBooks(db0: Db, s: State, a: Action)
    requires Books(db0, s) && Enabled(s, a)
    ensures Books(db0, Step(s, a))
  {
    match a {
      case Insert(pid, grant, fate) => InsertKeepsBooks(db0, s, pid, grant, fate);
      case Session(pid, token, expiresAt, applied, ok) => SessionKeepsBooks(db0, s, pid, token, expiresAt, applied, ok);
      case _ => CheckKeepsBooks(db0, s, a);
    }
  }

  lemma CheckKeepsBooks(db0: Db, s: State, a: Action)
    requires Books(db0, s) && Enabled(s, a) && (a.Start? || a.Check? || a.CheckFails?)
    ensures Books(db0, Step(s, a))
  {
    var s' := Step(s, a);
    forall u | u in s'.made ensures MadeBy(s', u) {
      assert MadeBy(s, u);
    }
  }

  lemma StepKeepsConstraints(s: State, a: Action)
    requires Constraints(s.db) && Enabled(s, a)
    ensures Constraints(Step(s, a).db)
  {
    if a.Insert? && a.fate.applied {
      InsertUserKeeps(s.db, a.grant, RowOf(s.procs[a.pid]));
    } else if a.Session? && a.applied {
      SaveTokenKeeps(s.db, a.token, TokenRow(s.procs[a.pid].phase.user, a.expiresAt));
    }
  }

  lemma {:induction false} RunKeeps(db0: Db, actions: seq<Action>, states: seq<State>, i: nat)
    requires Constraints(db0) && Run(db0, actions, states) && i < |states|
    ensures Inv(db0, states[i])
  {
    if i > 0 {
      RunKeeps(db0, actions, states, i - 1);
      StepKeepsBooks(db0, states[i - 1], actions[i - 1]);
      StepKeepsConstraints(states[i - 1], actions[i - 1]);
    }
  }

  // ---- What every interleaving guarantees ----

  /** The users table never holds two rows with one login hash. */
  lemma LoginsStayUnique(db0: Db, actions: seq<Action>, states: seq<State>, i: nat)
    requires Constraints(db0) && Run(db0, actions, states) && i < |states|
    ensures LoginUnique(states[i].db) && Constraints(states[i].db)
  {
    RunKeeps(db0, actions, states, i);
  }

  /** At most one registration of a login gets a user id, let alone succeeds, and none does if the
      login was there before. */
  lemma AtMostOneSucceeds(db0: Db, actions: seq<Action>, states: seq<State>, i: nat, p: Pid, q: Pid)
    requires Constraints(db0) && Run(db0, actions, states) && i < |states|
    requires p in states[i].procs && HasUser(states[i].procs[p])
    ensures q in states[i].procs && HasUser(states[i].procs[q]) && states[i].procs[q].login == states[i].procs[p].login
            ==> p == q
    ensures !Taken(db0, states[i].procs[p].login)
  {
    RunKeeps(db0, actions, states, i);
    var s := states[i];
    var u := s.procs[p].phase.user;
    assert MadeBy(s, u);
    if q in s.procs && HasUser(s.procs[q]) && s.procs[q].login == s.procs[p].login {
      assert MadeBy(s, s.procs[q].phase.user);
    }
  }

  /** A successful registration's session belongs to the row that carries its login and password. */
  lemma SessionBelongsToRow(db0: Db, actions: seq<Action>, states: seq<State>, i: nat, p: Pid)
    requires Constraints(db0) && Run(db0, actions, states) && i < |states|
    requires p in states[i].procs && states[i].procs[p].phase.Registered?
    ensures
      var s := states[i];
      var token := s.procs[p].phase.token;
      && token in s.db.tokens && s.db.tokens[token].userId in s.db.users
      && s.db.users[s.db.tokens[token].userId] == RowOf(s.procs[p])
  {
    RunKeeps(db0, actions, states, i);
    assert MadeBy(states[i], states[i].procs[p].phase.user);
  }

  /** A process keeps the login and the password hash it was started with. */
  lemma {:induction false} StartIsHonoured(db0: Db, actions: seq<Action>, states: seq<State>, k: nat, n: nat)
    requires Run(db0, actions, states) && k < n < |states| && actions[k].Start?
    ensures actions[k].pid in states[n].procs
    ensures states[n].procs[actions[k].pid].login == actions[k].login
    ensures states[n].procs[actions[k].pid].phc == actions[k].phc
    decreases n
  {
    assert Enabled(states[n - 1], actions[n - 1]) && states[n] == Step(states[n - 1], actions[n - 1]);
    if n > k + 1 {
      StartIsHonoured(db0, actions, states, k, n - 1);
    }
  }

  /** Every row a registration has made carries the login and the password hash it was called with. */
  lemma MadeAsAsked(db0: Db, actions: seq<Action>, states: seq<State>, k: nat, n: nat, u: Uuid)
    requires Constraints(db0) && Run(db0, actions, states) && k < n < |states| && actions[k].Start?
    requires u in states[n].made && states[n].made[u] == actions[k].pid
    ensures u in states[n].db.users && states[n].db.users[u] == UserRow(actions[k].login, actions[k].phc)
  {
    RunKeeps(db0, actions, states, n);
    StartIsHonoured(db0, actions, states, k, n);
    assert MadeBy(states[n], u);
  }

  /** p's session was saved with this token and expiry. */
  predicate SavesSession(a: Action, p: Pid, token: Bytes, expiresAt: int) {
    a == Session(p, token, expiresAt, true, true)
  }

  ghost predicate SessionWasSaved(actions: seq<Action>, n: nat, s: State, p: Pid)
    requires n <= |actions|
  {
    p in s.procs && s.procs[p].phase.Registered? ==>
      && s.procs[p].phase.token in s.db.tokens
      && exists j :: 0 <= j < n && SavesSession(actions[j], p, s.procs[p].phase.token,
                                                s.db.tokens[s.procs[p].phase.token].expiresAt)
  }

  lemma {:induction false} SessionsWereSaved(db0: Db, actions: seq<Action>, states: seq<State>, n: nat, p: Pid)
    requires Run(db0, actions, states) && n < |states|
    ensures SessionWasSaved(actions, n, states[n], p)
  {
    if n > 0 {
      var s, a := states[n - 1], actions[n - 1];
      SessionsWereSaved(db0, actions, states, n - 1, p);
      assert Enabled(s, a) && states[n] == Step(s, a);
      if p in s.procs && s.procs[p].phase.Registered? {
        assert states[n].procs[p] == s.procs[p];
        assert states[n].db.tokens[s.procs[p].phase.token] == s.db.tokens[s.procs[p].phase.token];
      } else if a.Session? && a.pid == p && a.ok {
        assert SavesSession(a, p, a.token, a.expiresAt);
      }
    }
  }

  /** A registration that succeeded has left exactly what it was called for: the row of its session's
      user is its login and its password hash, and the session expires as its token was issued to. */
  lemma RegisteredAsAsked(db0: Db, actions: seq<Action>, states: seq<State>, k: nat, n: nat)
    requires Constraints(db0) && Run(db0, actions, states) && k < n < |states| && actions[k].Start?
    requires actions[k].pid in states[n].procs && states[n].procs[actions[k].pid].phase.Registered?
    ensures
      var s, p := states[n], actions[k].pid;
      var token := s.procs[p].phase.token;
      && token in s.db.tokens && s.db.tokens[token].userId in s.db.users
      && s.db.users[s.db.tokens[token].userId] == UserRow(actions[k].login, actions[k].phc)
      && exists j :: 0 <= j < n && SavesSession(actions[j], p, token, s.db.tokens[token].expiresAt)
  {
    hide Step, Enabled;
    var s, p := states[n], actions[k].pid;
    SessionBelongsToRow(db0, actions, states, n, p);
    StartIsHonoured(db0, actions, states, k, n);
    SessionsWereSaved(db0, actions, states, n, p);
  }

  /** No row appears unaccounted for: each new row was inserted by one process of its login, which
      holds it, or lost the reply, or could not get its session. */
  lemma EveryRowHasItsMaker(db0: Db, actions: seq<Action>, states: seq<State>, i: nat, u: Uuid)
    requires Constraints(db0) && Run(db0, actions, states) && i < |states|
    requires u in states[i].db.users && u !in db0.users
    ensures u in states[i].made && MadeBy(states[i], u)
    ensures forall v :: v in states[i].made && states[i].made[v] == states[i].made[u] ==> v == u
  {
    RunKeeps(db0, actions, states, i);
    assert MadeBy(states[i], u);
    forall v | v in states[i].made && states[i].made[v] == states[i].made[u] ensures v == u {
      assert MadeBy(states[i], v);
    }
  }

  // ---- Registrations that fail and leave a row ----

  /** p made a row that is there, with p's login and password. */
  ghost predicate LeftARow(s: State, p: Pid)
    requires p in s.procs
  {
    exists u :: u in s.made && s.made[u] == p && u in s.db.users && s.db.users[u] == RowOf(s.procs[p])
  }

  /** An insert that took effect unheard, or a session that could not be created. */
  predicate Unlucky(a: Action, p: Pid) {
    a.pid == p && ((a.Insert? && a.fate.applied && a.fate.reply != Ack) || (a.Session? && !a.ok))
  }

  ghost predicate WasUnlucky(actions: seq<Action>, i: nat, p: Pid)
    requires i <= |actions|
  {
    exists k :: 0 <= k < i && Unlucky(actions[k], p)
  }

  lemma {:induction false} MishapIsHistory(db0: Db, actions: seq<Action>, states: seq<State>, i: nat, p: Pid)
    requires Run(db0, actions, states) && i < |states|
    ensures WasUnlucky(actions, i, p) <==> p in states[i].procs && states[i].procs[p].mishap
  {
    if i > 0 {
      MishapIsHistory(db0, actions, states, i - 1, p);
      var a := actions[i - 1];
      assert WasUnlucky(actions, i, p) <==> WasUnlucky(actions, i - 1, p) || Unlucky(a, p);
      MishapStep(states[i - 1], a, p);
    }
  }

  lemma MishapStep(s: State, a: Action, p: Pid)
    requires Enabled(s, a)
    ensures
      var s' := Step(s, a);
      p in s'.procs && s'.procs[p].mishap <==> (p in s.procs && s.procs[p].mishap) || Unlucky(a, p)
  {
  }

  /** Whatever p made stays, and each unlucky step of p has made a row by then. */
  lemma LeftRowStep(s: State, a: Action, p: Pid)
    requires HoldersMade(s) && RowsMade(s) && Enabled(s, a) && p in s.procs
    requires LeftARow(s, p) || Unlucky(a, p)
    ensures p in Step(s, a).procs && LeftARow(Step(s, a), p)
  {
    var s' := Step(s, a);
    if HasUser(s.procs[p]) {
      assert MadeBy(s, s.procs[p].phase.user);
    }
    if LeftARow(s, p) {
      var u :| u in s.made && s.made[u] == p && u in s.db.users && s.db.users[u] == RowOf(s.procs[p]);
      assert u in s'.made && s'.made[u] == p && u in s'.db.users && s'.db.users[u] == RowOf(s'.procs[p]);
    } else {
      var u := a.grant.value;
      assert u in s'.made && s'.made[u] == p && u in s'.db.users && s'.db.users[u] == RowOf(s'.procs[p]);
    }
  }

  lemma {:induction false} UnluckyLeftARow(db0: Db, actions: seq<Action>, states: seq<State>, i: nat, p: Pid)
    requires Constraints(db0) && Run(db0, actions, states) && i < |states|
    requires WasUnlucky(actions, i, p)
    ensures p in states[i].procs && LeftARow(states[i], p)
    decreases i
  {
    hide Inv, Books, LeftARow, HoldersMade, RowsMade, Step, Enabled, Constraints, Unlucky;
    var k :| 0 <= k < i && Unlucky(actions[k], p);
    RunKeeps(db0, actions, states, i - 1);
    InvHasMakers(db0, states[i - 1]);
    assert Enabled(states[i - 1], actions[i - 1]) && states[i] == Step(states[i - 1], actions[i - 1]);
    if k < i - 1 {
      assert WasUnlucky(actions, i - 1, p);
      UnluckyLeftARow(db0, actions, states, i - 1, p);
    } else {
      UnluckyIsActive(states[k], actions[k], p);
    }
    LeftRowStep(states[i - 1], actions[i - 1], p);
  }

  lemma UnluckyIsActive(s: State, a: Action, p: Pid)
    requires Enabled(s, a) && Unlucky(a, p)
    ensures p in s.procs
  {
  }

  lemma InvHasMakers(db0: Db, s: State)
    requires Inv(db0, s)
    ensures HoldersMade(s) && RowsMade(s)
  {
  }

  /** A failed registration has left a row of its own exactly when one of its inserts took effect
      unheard or the session of its new user could not be created; otherwise it left none. */
  lemma FailedLeftRowIff(db0: Db, actions: seq<Action>, states: seq<State>, i: nat, p: Pid)
    requires Constraints(db0) && Run(db0, actions, states) && i < |states|
    requires p in states[i].procs && states[i].procs[p].phase.Rejected?
    ensures LeftARow(states[i], p) <==> WasUnlucky(actions, i, p)
    ensures (exists u :: u in states[i].made && states[i].made[u] == p) <==> WasUnlucky(actions, i, p)
  {
    hide Constraints;
    var s := states[i];
    RunKeeps(db0, actions, states, i);
    MishapIsHistory(db0, actions, states, i, p);
    if WasUnlucky(actions, i, p) {
      UnluckyLeftARow(db0, actions, states, i, p);
    }
    if u :| u in s.made && s.made[u] == p {
      assert MadeBy(s, u);
    }
  }

  /** A registration that could not check its login, found it taken, or had its insert refused, has
      failed for good; if that was its check it never inserts anything. */
  predicate TurnsAway(s: State, a: Action, p: Pid) {
    && a.pid == p && p in s.procs
    && (a.CheckFails? || (a.Insert? && a.fate.reply == OtherError))
  }

  ghost predicate FindsTaken(s: State, a: Action, p: Pid) {
    a.Check? && a.pid == p && p in s.procs && Taken(s.db, s.procs[p].login)
  }

  lemma TurnedAway(db0: Db, actions: seq<Action>, states: seq<State>, k: nat, n: nat, p: Pid)
    requires Constraints(db0) && Run(db0, actions, states) && k < n < |states|
    requires TurnsAway(states[k], actions[k], p) || FindsTaken(states[k], actions[k], p)
    ensures p in states[n].procs && states[n].procs[p].phase.Rejected?
    ensures !actions[k].Insert? ==> forall u :: u in states[n].made ==> states[n].made[u] != p
  {
    assert Enabled(states[k], actions[k]) && states[k + 1] == Step(states[k], actions[k]);
    RejectedIsFinal(db0, actions, states, k + 1, n, p);
    if !actions[k].Insert? {
      CheckingIsClean(db0, actions, states, k, p);
      RejectedStaysLucky(db0, actions, states, k + 1, n, p);
      FailedLeftRowIff(db0, actions, states, n, p);
    }
  }

  lemma {:induction false} CheckingIsClean(db0: Db, actions: seq<Action>, states: seq<State>, n: nat, p: Pid)
    requires Run(db0, actions, states) && n < |states| && p in states[n].procs && states[n].procs[p].phase.Checking?
    ensures !states[n].procs[p].mishap
  {
    if n > 0 && p in states[n - 1].procs {
      assert Enabled(states[n - 1], actions[n - 1]) && states[n] == Step(states[n - 1], actions[n - 1]);
      CheckingIsClean(db0, actions, states, n - 1, p);
    } else if n > 0 {
      assert Enabled(states[n - 1], actions[n - 1]) && states[n] == Step(states[n - 1], actions[n - 1]);
    }
  }

  lemma RejectedStaysLucky(db0: Db, actions: seq<Action>, states: seq<State>, i: nat, n: nat, p: Pid)
    requires Run(db0, actions, states) && i <= n < |states|
    requires p in states[i].procs && states[i].procs[p].phase.Rejected? && !states[i].procs[p].mishap
    ensures !WasUnlucky(actions, n, p)
  {
    RejectedIsFinal(db0, actions, states, i, n, p);
    MishapIsHistory(db0, actions, states, n, p);
  }

  lemma {:induction false} RejectedIsFinal(db0: Db, actions: seq<Action>, states: seq<State>, i: nat, j: nat, p: Pid)
    requires Run(db0, actions, states) && i <= j < |states|
    requires p in states[i].procs && states[i].procs[p].phase.Rejected?
    ensures p in states[j].procs && states[j].procs[p] == states[i].procs[p]
    decreases j - i
  {
    if i < j {
      RejectedIsFinal(db0, actions, states, i, j - 1, p);
      assert Enabled(states[j - 1], actions[j - 1]);
    }
  }

  /** The price of check-then-insert without a read-back: after such a failure the login is taken
      for good, and no registration of it succeeds in any continuation. */
  lemma FailedButTaken(db0: Db, actions: seq<Action>, states: seq<State>, i: nat, j: nat, p: Pid, q: Pid)
    requires Constraints(db0) && Run(db0, actions, states) && i <= j < |states|
    requires p in states[i].procs && states[i].procs[p].phase.Rejected? && WasUnlucky(actions, i, p)
    ensures Taken(states[j].db, states[i].procs[p].login)
    ensures q in states[j].procs && states[j].procs[q].login == states[i].procs[p].login
            ==> !HasUser(states[j].procs[q])
  {
    var s := states[j];
    RunKeeps(db0, actions, states, j);
    RejectedIsFinal(db0, actions, states, i, j, p);
    assert WasUnlucky(actions, j, p);
    UnluckyLeftARow(db0, actions, states, j, p);
    var u :| u in s.made && s.made[u] == p && u in s.db.users && s.db.users[u] == RowOf(s.procs[p]);
    if q in s.procs && HasUser(s.procs[q]) {
      assert MadeBy(s, s.procs[q].phase.user);
    }
  }

  /** Such a run, on any database where the login is free: the only insert takes effect, the answer
      is an error. */
  lemma FailureThatTakes(db0: Db, login: Bytes, phc: string, u: Uuid)
    returns (actions: seq<Action>, states: seq<State>)
    requires !Taken(db0, login) && u !in db0.users
    ensures Run(db0, actions, states) && |states| == 4
    ensures 0 in states[3].procs && states[3].procs[0].phase.Rejected? && WasUnlucky(actions, 3, 0)
    ensures u in states[3].db.users && states[3].db.users[u] == UserRow(login, phc)
  {
    actions := [Start(0, login, phc), Check(0), Insert(0, Some(u), Fate(true, OtherError))];
    var s0 := State(db0, map[], map[]);
    var s1 := Step(s0, actions[0]);
    var s2 := Step(s1, actions[1]);
    assert InsertUser(db0, Some(u), UserRow(login, phc)).Some?;
    var s3 := Step(s2, actions[2]);
    states := [s0, s1, s2, s3];
    assert Unlucky(actions[2], 0);
  }

  // ---- A registration undisturbed ----

  /** n attempts of the insert fail on their way, in a retryable way. */
  ghost function LoseInserts(s: State, pid: Pid, grant: Option<Uuid>, n: nat): (s': State)
    requires pid in s.procs && s.procs[pid].phase == Inserting(0) && n <= 4
    ensures s'.db == s.db && s'.made == s.made
    ensures s'.procs == s.procs[pid := s.procs[pid].(phase := if n <= 3 then Inserting(n) else Rejected)]
  {
    if n == 0 then assert s.procs == s.procs[pid := s.procs[pid].(phase := Inserting(0))]; s
    else Step(LoseInserts(s, pid, grant, n - 1), Insert(pid, grant, Fate(false, RetryableError)))
  }

  /** Where the login is free a registration gets its row, also after up to three attempts of its insert
      that failed in a retryable way, and succeeds if its session is saved; after four such attempts
      it has failed, with nothing left. */
  lemma RegisterIsASchedule(s: State, pid: Pid, login: Bytes, phc: string, u: Uuid,
                            token: Bytes, expiresAt: int, n: nat, applied: bool, ok: bool)
    requires pid !in s.procs && !Taken(s.db, login) && u !in s.db.users && token !in s.db.tokens && n <= 4
    requires ok ==> applied
    ensures
      var s2 := Step(Step(s, Start(pid, login, phc)), Check(pid));
      && pid in s2.procs && s2.procs[pid].phase == Inserting(0)
      && var s3 := LoseInserts(s2, pid, Some(u), n);
         if n == 4 then s3.procs[pid].phase.Rejected? && s3.db == s.db
         else
           var s4 := Step(s3, Insert(pid, Some(u), Fate(true, Ack)));
           var s5 := Step(s4, Session(pid, token, expiresAt, applied, ok));
           && s5.procs[pid].phase == (if ok then Registered(u, token) else Rejected)
           && s5.db.users == s.db.users[u := UserRow(login, phc)]
           && s5.db.tokens == if applied then s.db.tokens[token := TokenRow(u, expiresAt)] else s.db.tokens
  {
    var s2 := Step(Step(s, Start(pid, login, phc)), Check(pid));
    assert s2.procs[pid] == Proc(login, phc, Inserting(0), false) && s2.db == s.db;
    var s3 := LoseInserts(s2, pid, Some(u), n);
    hide Taken;
    if n < 4 {
      InsertThenSession(s3, pid, u, token, expiresAt, applied, ok);
    }
  }

  lemma InsertThenSession(s: State, pid: Pid, u: Uuid, token: Bytes, expiresAt: int, applied: bool, ok: bool)
    requires pid in s.procs && s.procs[pid].phase.Inserting? && !Taken(s.db, s.procs[pid].login)
    requires u !in s.db.users && token !in s.db.tokens && (ok ==> applied)
    ensures Enabled(s, Insert(pid, Some(u), Fate(true, Ack)))
    ensures
      var row, s4 := UserRow(s.procs[pid].login, s.procs[pid].phc), Step(s, Insert(pid, Some(u), Fate(true, Ack)));
      && Enabled(s4, Session(pid, token, expiresAt, applied, ok))
      && var s5 := Step(s4, Session(pid, token, expiresAt, applied, ok));
         && pid in s5.procs && s5.procs[pid].phase == (if ok then Registered(u, token) else Rejected)
         && s5.db.users == s.db.users[u := row]
         && s5.db.tokens == if applied then s.db.tokens[token := TokenRow(u, expiresAt)] else s.db.tokens
  {
    assert InsertUser(s.db, Some(u), RowOf(s.procs[pid])).Some?;
    var s4 := Step(s, Insert(pid, Some(u), Fate(true, Ack)));
    assert s4.procs[pid].phase == Created(u) && u in s4.db.users && s4.db.tokens == s.db.tokens;
  }
}
