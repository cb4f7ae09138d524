/** AddSealed calls on the Postgres tables, interleaved at every transaction and statement. A put
    needs the object row of its identifier, and rows come only from the metadata insert that follows
    a successful put. */
module PostgresRuns {
  import opened Common
  import opened Retry
  import opened Schema
  import opened SealedRepo
  import PO = PostgresObjects
  import V = Vault

  type Pid = nat

  /** Where a call is. Putting carries what its reader still has. */
  datatype Phase = Putting(rest: Bytes, attempt: nat) | Recording(attempt: nat) | Undoing | Ended(ok: bool)

  /** `id` is the client's identifier if it is a UUID. */
  datatype Proc = Proc(user: Uuid, id: Option<Uuid>, meta: V.Metadata, data: Bytes, phase: Phase)

  datatype State = State(db: Db, procs: map<Pid, Proc>)

  /** Elsewhere stands for any statement that is not an insert into objects: no other makes a row. */
  datatype Action =
    | Call(pid: Pid, user: Uuid, id: Option<Uuid>, meta: V.Metadata, data: Bytes)
    | Attempt(pid: Pid, env: Surroundings)
    | Insert(pid: Pid, grant: Option<Uuid>, fate: Fate)
    | Undo(pid: Pid, result: Option<Db>)
    | Elsewhere(db: Db)

  function LocatorOf(p: Proc): string {
    if p.id.Some? then PO.LocatorOf(p.id.value) else ""
  }

  function InsertRow(db: Db, grant: Option<Uuid>, p: Proc): Option<Db> {
    InsertObject(db, grant, p.user, p.meta.dataType, p.meta.name, p.meta.description, LocatorOf(p))
  }

  ghost predicate Enabled(s: State, a: Action) {
    match a
    case Call(pid, user, _, meta, data) => pid !in s.procs && V.Acceptable(user, Some(meta), data)
    case Attempt(pid, env) =>
      && pid in s.procs && s.procs[pid].phase.Putting? && Ends(s.procs[pid].phase.rest, |s.procs[pid].data|)
      && (env.commit.reply == Ack ==> env.commit.applied)
    case Insert(pid, grant, fate) =>
      && pid in s.procs && s.procs[pid].phase.Recording?
      && (fate.applied ==> InsertRow(s.db, grant, s.procs[pid]).Some?)
      && (fate.reply == Ack ==> fate.applied)
    case Undo(pid, result) =>
      && pid in s.procs && s.procs[pid].phase.Undoing?
      && (result.Some? ==> PO.IsDeleteResult(s.db, LocatorOf(s.procs[pid]), result))
    case Elsewhere(db) => db.objects.Keys <= s.db.objects.Keys
  }

  function AfterAttempt(rest: Bytes, attempt: nat, out: Outcome): Phase {
    if out.Committed? then Recording(0)
    else if attempt >= MAX_ATTEMPT_COUNT || !out.retryable then Ended(false)
    else Putting(rest, attempt + 1)
  }

  function AfterInsert(attempt: nat, reply: Reply): Phase {
    match reply
    case Ack => Ended(true)
    case RetryableError => if attempt >= MAX_ATTEMPT_COUNT then Undoing else Recording(attempt + 1)
    case OtherError => Undoing
  }

  function Go(s: State, pid: Pid, phase: Phase): State
    requires pid in s.procs
  {
    s.(procs := s.procs[pid := s.procs[pid].(phase := phase)])
  }

  ghost function Step(digest: Digest, s: State, a: Action): State
    requires Enabled(s, a)
  {
    match a
    case Call(pid, user, id, meta, data) => s.(procs := s.procs[pid := Proc(user, id, meta, data, Putting(data, 0))])
    case Attempt(pid, env) =>
      var p := s.procs[pid];
      var (db, rest, out) := AttemptOnce(s.db, p.phase.rest, digest, p.id, |p.data|, digest(p.data), env);
      Go(s, pid, AfterAttempt(rest, p.phase.attempt, out)).(db := db)
    case Insert(pid, grant, fate) =>
      var p := s.procs[pid];
      Go(s, pid, AfterInsert(p.phase.attempt, fate.reply))
        .(db := if fate.applied then InsertRow(s.db, grant, p).value else s.db)
    case Undo(pid, result) => Go(s, pid, Ended(false)).(db := if result.Some? then result.value else s.db)
    case Elsewhere(db) => s.(db := db)
  }

  ghost predicate Run(digest: Digest, db0: Db, actions: seq<Action>, states: seq<State>) {
    && |states| == |actions| + 1
    && states[0] == State(db0, map[])
    && (forall i {:trigger actions[i]} :: 0 <= i < |actions| ==>
          Enabled(states[i], actions[i]) && states[i + 1] == Step(digest, states[i], actions[i]))
  }

  // ---- Without a row nothing goes through ----

  /** The attempt has data to insert, and its commit is reported lost in a way that is retried. */
  ghost predicate LosesCommit(s: State, a: Action) {
    && a.Attempt? && a.pid in s.procs && s.procs[a.pid].phase.Putting? && s.procs[a.pid].phase.rest != []
    && a.env.begin == Ack && a.env.commit.reply == RetryableError
  }

  predicate Accepted(p: Proc) {
    p.phase.Recording? || p.phase.Undoing? || p.phase == Ended(true)
  }

  /** No rows, no call past its put, and every reader as it was. */
  ghost predicate Stuck(s: State) {
    && s.db.objects == map[]
    && forall pid :: pid in s.procs ==> StuckCall(s.procs[pid])
  }

  predicate StuckCall(p: Proc) {
    !Accepted(p) && p.data != [] && (p.phase.Putting? ==> p.phase.rest == p.data)
  }

  /** The insert of the only chunk violates its foreign key. */
  lemma LoadNeedsRow(db: Db, digest: Digest, o: Uuid, env: Statements, data: Bytes)
    requires data != [] && o !in db.objects
    ensures LoadAll(db, digest, Job(o, |data|, digest(data)), env, data) == Aborted
  {
    var job := Job(o, |data|, digest(data));
    assert Chunks(data, |data|) == [data];
    assert Load(Active(db), digest, job, env, [data], 0) == Active(db);
    assert PutChunk(Active(db), digest, job, env, 0, data) == Aborted;
  }

  lemma AttemptNeedsRow(digest: Digest, s: State, a: Action)
    requires Enabled(s, a) && a.Attempt? && !LosesCommit(s, a)
    requires s.db.objects == map[] && StuckCall(s.procs[a.pid])
    ensures Step(digest, s, a).db == s.db && StuckCall(Step(digest, s, a).procs[a.pid])
  {
    hide LoadAll;
    var p := s.procs[a.pid];
    if p.id.Some? {
      LoadNeedsRow(s.db, digest, p.id.value, a.env.statements, p.data);
    }
  }

  lemma StepKeepsStuck(digest: Digest, s: State, a: Action)
    requires Enabled(s, a) && Stuck(s) && !LosesCommit(s, a)
    ensures Stuck(Step(digest, s, a))
  {
    hide AttemptOnce, PO.IsDeleteResult;
    if a.Attempt? {
      AttemptNeedsRow(digest, s, a);
    }
  }

  /** From a database without object rows, no call gets past its put until some call has lost the
      commit of its data: the tables never take a first object. */
  lemma {:induction false} NothingIsAccepted(digest: Digest, db0: Db, actions: seq<Action>, states: seq<State>, n: nat)
    requires Run(digest, db0, actions, states) && n < |states| && db0.objects == map[]
    requires forall k :: 0 <= k < n ==> !LosesCommit(states[k], actions[k])
    ensures Stuck(states[n])
  {
    if n > 0 {
      hide Stuck, Step, Enabled, LosesCommit;
      NothingIsAccepted(digest, db0, actions, states, n - 1);
      StepKeepsStuck(digest, states[n - 1], actions[n - 1]);
    }
  }

  /** Whereas one lost commit is enough: the second attempt finds the reader empty and succeeds, and
      AddSealed reports an entry whose object was never stored. */
  lemma AcceptedWithoutObject(digest: Digest, db0: Db, user: Uuid, o: Uuid, meta: V.Metadata, data: Bytes,
                              grant: Uuid, statements: Statements)
    returns (actions: seq<Action>, states: seq<State>)
    requires db0.objects == map[] && user in db0.users && meta.dataType in DATA_TYPES
    requires V.Acceptable(user, Some(meta), data)
    ensures Run(digest, db0, actions, states) && |actions| == 4
    ensures 0 in states[4].procs && states[4].procs[0].phase == Ended(true) && states[4].procs[0].data == data
    ensures states[4].db.blobs == db0.blobs && states[4].db.chunks == db0.chunks
  {
    var lost := Surroundings(Ack, statements, Fate(false, RetryableError));
    var fine := Surroundings(Ack, statements, Fate(true, Ack));
    actions := [Call(0, user, Some(o), meta, data), Attempt(0, lost), Attempt(0, fine),
                Insert(0, Some(grant), Fate(true, Ack))];
    var s0 := State(db0, map[]);
    var s1 := Step(digest, s0, actions[0]);
    LoadNeedsRow(db0, digest, o, statements, data);
    var s2 := Step(digest, s1, actions[1]);
    assert s2.db == db0 && s2.procs[0].phase == Putting([], 1);
    assert Chunks([], |data|) == [];
    assert LoadAll(db0, digest, Job(o, |data|, digest(data)), statements, []) == Active(db0);
    var s3 := Step(digest, s2, actions[2]);
    assert s3.db == db0 && s3.procs[0].phase == Recording(0);
    var s4 := Step(digest, s3, actions[3]);
    states := [s0, s1, s2, s3, s4];
  }

  // ---- Binary data ----

  /** The service accepts three types; the table knows two of them under the service's names. */
  lemma TypesInTable(dataType: string)
    requires V.Supported(dataType)
    ensures dataType in DATA_TYPES <==> dataType != V.BINARY
  {
    assert V.BINARY[0] == ' ' && "DataTypeBinary"[0] == 'D';
    assert "DataTypeCard"[0] == 'D' && "DataTypeAuthenticationCredentials"[0] == 'D';
  }

  /** And the other way round: of the types in the table the service accepts all but the binary one. */
  lemma TypesOfTable(dataType: string)
    requires dataType in DATA_TYPES
    ensures V.Supported(dataType) <==> dataType != "DataTypeBinary"
  {
    assert V.BINARY[0] == ' ' && "DataTypeBinary"[0] == 'D' && |"DataTypeBinary"| == 14;
    assert |"DataTypeCard"| == 12 && |"DataTypeAuthenticationCredentials"| == 33;
  }

  lemma BinaryStep(digest: Digest, s: State, a: Action, pid: Pid)
    requires Enabled(s, a)
    requires pid in s.procs ==> s.procs[pid].meta.dataType == V.BINARY ==> s.procs[pid].phase != Ended(true)
    ensures
      var s' := Step(digest, s, a);
      pid in s'.procs ==> s'.procs[pid].meta.dataType == V.BINARY ==> s'.procs[pid].phase != Ended(true)
  {
    hide AttemptOnce, PO.IsDeleteResult;
    TypesInTable(V.BINARY);
  }

  /** On any database, in every run, no AddSealed of binary data succeeds. */
  lemma {:induction false} BinaryIsNeverAdded(
    digest: Digest, db0: Db, actions: seq<Action>, states: seq<State>, n: nat, pid: Pid)
    requires Run(digest, db0, actions, states) && n < |states|
    ensures pid in states[n].procs ==>
              states[n].procs[pid].meta.dataType == V.BINARY ==> states[n].procs[pid].phase != Ended(true)
  {
    if n > 0 {
      hide Step, Enabled;
      BinaryIsNeverAdded(digest, db0, actions, states, n - 1, pid);
      BinaryStep(digest, states[n - 1], actions[n - 1], pid);
    }
  }

  // ---- A call undisturbed ----

  /** The attempts of the put, one after the other, until it is decided. */
  ghost function PutAll(digest: Digest, s: State, pid: Pid, world: World, c: nat): State
    requires pid in s.procs && s.procs[pid].data != []
    requires s.procs[pid].phase.Putting? && s.procs[pid].phase.attempt == c
    decreases MAX_ATTEMPT_COUNT - c
  {
    var s1 := Step(digest, s, Attempt(pid, world(c)));
    if s1.procs[pid].phase.Putting? then PutAll(digest, s1, pid, world, c + 1) else s1
  }

  /** They are Put. */
  lemma {:induction false} PutAllIsPut(digest: Digest, s: State, pid: Pid, world: World, c: nat)
    requires pid in s.procs && s.procs[pid].data != []
    requires s.procs[pid].phase.Putting? && s.procs[pid].phase.attempt == c
    ensures
      var p, s' := s.procs[pid], PutAll(digest, s, pid, world, c);
      && pid in s'.procs && s'.procs[pid] == p.(phase := s'.procs[pid].phase)
      && (s'.procs[pid].phase == Recording(0) || s'.procs[pid].phase == Ended(false))
      && (s'.db, s'.procs[pid].phase.Recording?)
         == Put(s.db, p.phase.rest, digest, p.id, |p.data|, digest(p.data), world, c)
    decreases MAX_ATTEMPT_COUNT - c
  {
    hide AttemptOnce;
    var s1 := Step(digest, s, Attempt(pid, world(c)));
    if s1.procs[pid].phase.Putting? {
      PutAllIsPut(digest, s1, pid, world, c + 1);
    }
  }

  /** n attempts of the metadata insert fail on their way, in a retryable way. */
  ghost function LoseInserts(digest: Digest, s: State, pid: Pid, n: nat): (s': State)
    requires pid in s.procs && s.procs[pid].phase == Recording(0) && n <= 4
    ensures s'.db == s.db
    ensures s'.procs == s.procs[pid := s.procs[pid].(phase := if n <= 3 then Recording(n) else Undoing)]
  {
    if n == 0 then assert s.procs == s.procs[pid := s.procs[pid].(phase := Recording(0))]; s
    else Step(digest, LoseInserts(digest, s, pid, n - 1), Insert(pid, None, Fate(false, RetryableError)))
  }

  /** A call past its put records its metadata, under the locator of its put, also after up to three
      attempts of the insert that failed in a retryable way; after four it turns to its compensation. */
  lemma InsertIsASchedule(digest: Digest, s: State, pid: Pid, o: Uuid, grant: Uuid, n: nat)
    requires pid in s.procs && s.procs[pid].phase == Recording(0) && s.procs[pid].id == Some(o) && n <= 4
    requires grant !in s.db.objects && s.procs[pid].user in s.db.users && s.procs[pid].meta.dataType in DATA_TYPES
    ensures
      var p, s' := s.procs[pid], LoseInserts(digest, s, pid, n);
      if n == 4 then s'.procs[pid].phase.Undoing? && s'.db == s.db
      else
        var last := Step(digest, s', Insert(pid, Some(grant), Fate(true, Ack)));
        && last.procs[pid].phase == Ended(true)
        && last.db == s.db.(objects := s.db.objects[grant := ObjectRow(
             p.user, DATA_TYPES[p.meta.dataType], p.meta.name, p.meta.description, "pg://" + o)])
  {
    var s' := LoseInserts(digest, s, pid, n);
    if n < 4 {
      assert InsertRow(s.db, Some(grant), s.procs[pid]).Some?;
    }
  }

  /** An insert that is refused is not repeated: the call deletes its object by locator and fails. */
  lemma RefusedInsertIsUndone(digest: Digest, s: State, pid: Pid, grant: Option<Uuid>, applied: bool, r: Option<Db>)
    requires pid in s.procs && s.procs[pid].phase.Recording?
    requires applied ==> InsertRow(s.db, grant, s.procs[pid]).Some?
    ensures
      var s1 := Step(digest, s, Insert(pid, grant, Fate(applied, OtherError)));
      && s1.procs[pid].phase == Undoing
      && (r.None? || PO.IsDeleteResult(s1.db, LocatorOf(s.procs[pid]), r) ==>
            var s2 := Step(digest, s1, Undo(pid, r));
            s2.procs[pid].phase == Ended(false) && s2.db == if r.Some? then r.value else s1.db)
  {
  }
}
