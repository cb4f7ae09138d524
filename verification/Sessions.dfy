/** The refresh_tokens table under retried statements, and session.Manager on top of it. A save that
    the user foreign key refuses is an attempt that did not take effect. */
module Sessions {
  import opened Common
  import opened Retry
  import opened Schema

  type UserId = Uuid
  type Time = int

  /** refresh_tokens, keyed by its unique column token_hash. */
  type Table = map<Bytes, TokenRow>

  // ---- Statements ----

  function Upsert(token: Bytes, user: UserId, expiresAt: Time): Table -> Table {
    (t: Table) => UpsertToken(t, token, TokenRow(user, expiresAt))
  }

  /** DELETE ... WHERE token_hash = $1 */
  function Remove(token: Bytes): Table -> Table {
    (t: Table) => t - {token}
  }

  /** SELECT EXISTS (... token_hash = $1 AND user_id = $2 AND expires_at > NOW()) */
  predicate Validates(t: Table, token: Bytes, user: UserId, now: Time) {
    token in t && t[token].userId == user && t[token].expiresAt > now
  }

  lemma StatementsAreIdempotent(token: Bytes, user: UserId, expiresAt: Time)
    ensures Idempotent(Upsert(token, user, expiresAt))
    ensures Idempotent(Remove(token))
  {
    forall t: Table
      ensures Upsert(token, user, expiresAt)(Upsert(token, user, expiresAt)(t)) == Upsert(token, user, expiresAt)(t)
      ensures Remove(token)(Remove(token)(t)) == Remove(token)(t)
    {
    }
  }

  /** A token Save is one application of the upsert when it succeeds and zero or one when it
      fails; no other token moves. */
  lemma SaveIsAtMostOnce(t: Table, token: Bytes, user: UserId, expiresAt: Time, net: Network)
    ensures
      var (t', ok) := Retried(Upsert(token, user, expiresAt), t, net, 0);
      && (ok ==> t' == t[token := TokenRow(user, expiresAt)])
      && (t' == t || t' == t[token := TokenRow(user, expiresAt)])
      && t' - {token} == t - {token}
  {
    StatementsAreIdempotent(token, user, expiresAt);
    RetriedIsAtMostOnce(Upsert(token, user, expiresAt), t, net, 0);
  }

  /** Likewise for a token Delete. */
  lemma DeleteIsAtMostOnce(t: Table, token: Bytes, net: Network)
    ensures
      var (t', ok) := Retried(Remove(token), t, net, 0);
      && (ok ==> token !in t')
      && (t' == t || t' == t - {token})
      && t' - {token} == t - {token}
  {
    StatementsAreIdempotent(token, "", 0);
    RetriedIsAtMostOnce(Remove(token), t, net, 0);
  }

  // ---- Manager operations ----

  /** Issuing a refresh token: None when a generator fails before the storage is reached. */
  type Issue = Option<(Bytes, Time)>

  datatype Op =
    | Create(user: UserId, issue: Issue, save: Network)
    | Refresh(user: UserId, stale: Bytes, delete: Network, issue: Issue, save: Network)
    | Revoke(token: Bytes, delete: Network)

  function CreateSession(t: Table, user: UserId, issue: Issue, save: Network): (Table, bool) {
    match issue
    case None => (t, false)
    case Some((token, expiresAt)) => Retried(Upsert(token, user, expiresAt), t, save, 0)
  }

  function Step(t: Table, op: Op): (Table, bool) {
    match op
    case Create(user, issue, save) => CreateSession(t, user, issue, save)
    case Refresh(user, stale, delete, issue, save) =>
      var (t1, ok) := Retried(Remove(stale), t, delete, 0);
      if !ok then (t1, false) else CreateSession(t1, user, issue, save)
    case Revoke(token, delete) => Retried(Remove(token), t, delete, 0)
  }

  function Run(t: Table, ops: seq<Op>): Table
    decreases |ops|
  {
    if ops == [] then t else Run(Step(t, ops[0]).0, ops[1..])
  }

  // ---- History: the writes that took effect ----

  datatype Write = Saved(token: Bytes, user: UserId, expiresAt: Time) | Deleted(token: Bytes)

  function Replay(t: Table, log: seq<Write>): Table {
    if log == [] then t
    else
      var t1 := Replay(t, log[..|log| - 1]);
      match log[|log| - 1]
      case Saved(token, user, expiresAt) => t1[token := TokenRow(user, expiresAt)]
      case Deleted(token) => t1 - {token}
  }

  function SaveWrites(user: UserId, issue: Issue, save: Network): seq<Write> {
    if issue.Some? && TookEffect(save, 0) then [Saved(issue.value.0, user, issue.value.1)] else []
  }

  function DeleteWrites(token: Bytes, delete: Network): seq<Write> {
    if TookEffect(delete, 0) then [Deleted(token)] else []
  }

  /** The writes of one operation, in the order the manager makes them. */
  function Writes(op: Op): seq<Write> {
    match op
    case Create(user, issue, save) => SaveWrites(user, issue, save)
    case Refresh(user, stale, delete, issue, save) =>
      DeleteWrites(stale, delete)
      + (if WithRetry(Reports(delete), 0).final.Returned? then SaveWrites(user, issue, save) else [])
    case Revoke(token, delete) => DeleteWrites(token, delete)
  }

  function History(ops: seq<Op>): seq<Write> {
    if ops == [] then [] else Writes(ops[0]) + History(ops[1..])
  }

  lemma {:induction false} ReplaySplit(t: Table, a: seq<Write>, b: seq<Write>)
    ensures Replay(t, a + b) == Replay(Replay(t, a), b)
    decreases |b|
  {
    if b == [] {
      assert a + b == a;
    } else {
      var b1 := b[..|b| - 1];
      assert (a + b)[..|a + b| - 1] == a + b1;
      ReplaySplit(t, a, b1);
    }
  }

  lemma SaveStep(t: Table, user: UserId, issue: Issue, save: Network)
    ensures CreateSession(t, user, issue, save).0 == Replay(t, SaveWrites(user, issue, save))
  {
    if issue.Some? {
      var (token, expiresAt) := issue.value;
      StatementsAreIdempotent(token, user, expiresAt);
      RetriedEffect(Upsert(token, user, expiresAt), t, save, 0);
      assert [Saved(token, user, expiresAt)][..0] == [];
    }
  }

  lemma DeleteStep(t: Table, token: Bytes, delete: Network)
    ensures Retried(Remove(token), t, delete, 0).0 == Replay(t, DeleteWrites(token, delete))
    ensures Retried(Remove(token), t, delete, 0).1 <==> WithRetry(Reports(delete), 0).final.Returned?
  {
    StatementsAreIdempotent(token, "", 0);
    RetriedEffect(Remove(token), t, delete, 0);
    RetriedFollowsWithRetry(Remove(token), t, delete, 0);
    assert [Deleted(token)][..0] == [];
  }

  lemma StepIsReplay(t: Table, op: Op)
    ensures Step(t, op).0 == Replay(t, Writes(op))
  {
    match op
    case Create(user, issue, save) => SaveStep(t, user, issue, save);
    case Revoke(token, delete) => DeleteStep(t, token, delete);
    case Refresh(user, stale, delete, issue, save) =>
      DeleteStep(t, stale, delete);
      var t1 := Retried(Remove(stale), t, delete, 0).0;
      SaveStep(t1, user, issue, save);
      ReplaySplit(t, DeleteWrites(stale, delete), SaveWrites(user, issue, save));
      assert DeleteWrites(stale, delete) + [] == DeleteWrites(stale, delete);
  }

  /** The table after any run is the replay of the writes that took effect. */
  lemma {:induction false} RunIsReplay(t: Table, ops: seq<Op>)
    ensures Run(t, ops) == Replay(t, History(ops))
    decreases |ops|
  {
    if ops != [] {
      StepIsReplay(t, ops[0]);
      RunIsReplay(Step(t, ops[0]).0, ops[1..]);
      ReplaySplit(t, Writes(ops[0]), History(ops[1..]));
    }
  }

  /** Position i is the last write of the history that touches the token. */
  ghost predicate LastWrite(log: seq<Write>, token: Bytes, i: nat) {
    i < |log| && log[i].token == token && forall j :: i < j < |log| ==> log[j].token != token
  }

  /** A token validates exactly when its last write saved it for that user with a later expiry. */
  ghost predicate ValidByHistory(log: seq<Write>, token: Bytes, user: UserId, now: Time) {
    exists i: nat :: LastWrite(log, token, i) && log[i].Saved? && log[i].user == user && log[i].expiresAt > now
  }

  lemma {:induction false} ReplayByLastWrite(log: seq<Write>, token: Bytes, user: UserId, now: Time)
    ensures Validates(Replay(map[], log), token, user, now) <==> ValidByHistory(log, token, user, now)
    decreases |log|
  {
    if log != [] {
      var n := |log| - 1;
      var front := log[..n];
      if log[n].token == token {
        assert LastWrite(log, token, n);
      } else {
        ReplayByLastWrite(front, token, user, now);
        if ValidByHistory(front, token, user, now) {
          var i: nat :|
            LastWrite(front, token, i) && front[i].Saved? && front[i].user == user && front[i].expiresAt > now;
          assert LastWrite(log, token, i) && log[i] == front[i];
        }
        if ValidByHistory(log, token, user, now) {
          var i: nat :| LastWrite(log, token, i) && log[i].Saved? && log[i].user == user && log[i].expiresAt > now;
          assert i < n && LastWrite(front, token, i) && front[i] == log[i];
        }
      }
    }
  }

  /** Over every run from the empty table, with every pattern of lost and repeated statements. */
  lemma ValidationFollowsHistory(ops: seq<Op>, token: Bytes, user: UserId, now: Time)
    ensures Validates(Run(map[], ops), token, user, now) <==> ValidByHistory(History(ops), token, user, now)
  {
    RunIsReplay(map[], ops);
    ReplayByLastWrite(History(ops), token, user, now);
  }

  // ---- Refresh and revoke ----

  /** RefreshSession with a newly issued token that is not yet stored. Success swaps exactly the
      old token for the new one; in every outcome the old and the new are never both stored
      and every other token is untouched. */
  lemma RefreshSwaps(t: Table, user: UserId, stale: Bytes, delete: Network,
                     token: Bytes, expiresAt: Time, save: Network)
    requires token !in t && token != stale
    ensures
      var (t', ok) := Step(t, Refresh(user, stale, delete, Some((token, expiresAt)), save));
      && (ok ==> t' == Swapped(t, stale, token, TokenRow(user, expiresAt)))
      && (t' == t || t' == t - {stale} || t' == Swapped(t, stale, token, TokenRow(user, expiresAt)))
      && !(stale in t' && token in t')
      && t' - {stale, token} == t - {stale, token}
  {
    RefreshOutcome(t, user, stale, delete, token, expiresAt, save);
    var swapped := Swapped(t, stale, token, TokenRow(user, expiresAt));
    assert t - {stale} - {stale, token} == t - {stale, token} == swapped - {stale, token};
  }

  lemma RefreshOutcome(t: Table, user: UserId, stale: Bytes, delete: Network,
                       token: Bytes, expiresAt: Time, save: Network)
    ensures
      var (t', ok) := Step(t, Refresh(user, stale, delete, Some((token, expiresAt)), save));
      var swapped := Swapped(t, stale, token, TokenRow(user, expiresAt));
      && (ok ==> t' == swapped)
      && (t' == t || t' == t - {stale} || t' == swapped)
  {
    var (t1, ok1) := Retried(Remove(stale), t, delete, 0);
    StatementsAreIdempotent(stale, user, expiresAt);
    RetriedIsAtMostOnce(Remove(stale), t, delete, 0);
    if ok1 {
      SaveIsAtMostOnce(t1, token, user, expiresAt, save);
    }
  }

  function Swapped(t: Table, stale: Bytes, token: Bytes, row: TokenRow): Table {
    (t - {stale})[token := row]
  }

  /** A successful refresh keeps the number of tokens exactly when the old one was stored, and
      adds one otherwise: the manager never looks. A failed one never adds more than that. */
  lemma RefreshCount(t: Table, user: UserId, stale: Bytes, delete: Network,
                     token: Bytes, expiresAt: Time, save: Network)
    requires token !in t && token != stale
    ensures
      var (t', ok) := Step(t, Refresh(user, stale, delete, Some((token, expiresAt)), save));
      var swapped := if stale in t then |t| else |t| + 1;
      && (ok ==> |t'| == swapped)
      && |t| - (if stale in t then 1 else 0) <= |t'| <= swapped
  {
    RefreshOutcome(t, user, stale, delete, token, expiresAt, save);
    SwappedSize(t, stale, token, TokenRow(user, expiresAt));
  }

  lemma SwappedSize(t: Table, stale: Bytes, token: Bytes, row: TokenRow)
    requires token !in t && token != stale
    ensures |t - {stale}| == |t| - (if stale in t then 1 else 0)
    ensures |Swapped(t, stale, token, row)| == |t - {stale}| + 1
  {
  }

  predicate Issues(op: Op, token: Bytes) {
    !op.Revoke? && op.issue.Some? && op.issue.value.0 == token
  }

  /** Once a revocation or a refresh of a token has succeeded, the token validates for nobody in
      any later state, as long as the generator does not issue the same bytes again. */
  lemma {:induction false} RevokedStaysInvalid(t: Table, op: Op, later: seq<Op>, token: Bytes, user: UserId, now: Time)
    requires Step(t, op).1
    requires (op.Revoke? && op.token == token) || (op.Refresh? && op.stale == token && !Issues(op, token))
    requires forall i :: 0 <= i < |later| ==> !Issues(later[i], token)
    ensures !Validates(Run(Step(t, op).0, later), token, user, now)
  {
    match op {
      case Revoke(_, delete) =>
        DeleteIsAtMostOnce(t, token, delete);
      case Refresh(u, _, delete, issue, save) =>
        DeleteIsAtMostOnce(t, token, delete);
        var t1 := Retried(Remove(token), t, delete, 0).0;
        if issue.Some? {
          SaveIsAtMostOnce(t1, issue.value.0, u, issue.value.1, save);
        }
    }
    assert token !in Step(t, op).0;
    AbsentStaysAbsent(Step(t, op).0, later, token);
  }

  lemma {:induction false} AbsentStaysAbsent(t: Table, ops: seq<Op>, token: Bytes)
    requires token !in t
    requires forall i :: 0 <= i < |ops| ==> !Issues(ops[i], token)
    ensures token !in Run(t, ops)
    decreases |ops|
  {
    if ops != [] {
      assert !Issues(ops[0], token);
      StepIsReplay(t, ops[0]);
      AbsentInReplay(t, Writes(ops[0]), token);
      AbsentStaysAbsent(Step(t, ops[0]).0, ops[1..], token);
    }
  }

  lemma {:induction false} AbsentInReplay(t: Table, log: seq<Write>, token: Bytes)
    requires token !in t && forall i :: 0 <= i < |log| && log[i].Saved? ==> log[i].token != token
    ensures token !in Replay(t, log)
    decreases |log|
  {
    if log != [] {
      AbsentInReplay(t, log[..|log| - 1], token);
    }
  }

  // ---- The objects themselves ----

  class TokenRepository {
    const connection: Connection<Table>

    constructor (c: Connection<Table>)
      ensures connection == c
    {
      connection := c;
    }

    /** Saved once on success, at most once in any case; no other token moves. */
    method Save(token: Bytes, user: UserId, expiresAt: Time, net: Network) returns (ok: bool)
      modifies connection
      ensures (connection.state, ok) == Retried(Upsert(token, user, expiresAt), old(connection.state), net, 0)
      ensures ok ==> connection.state == old(connection.state)[token := TokenRow(user, expiresAt)]
      ensures || connection.state == old(connection.state)
              || connection.state == old(connection.state)[token := TokenRow(user, expiresAt)]
      ensures connection.state - {token} == old(connection.state) - {token}
      ensures ok <==> WithRetry(Reports(net), 0).final.Returned?
    {
      SaveIsAtMostOnce(connection.state, token, user, expiresAt, net);
      ok := connection.Execute(Upsert(token, user, expiresAt), net, 0);
    }

    /** Gone on success; in any case no other token moves. */
    method Delete(token: Bytes, net: Network) returns (ok: bool)
      modifies connection
      ensures (connection.state, ok) == Retried(Remove(token), old(connection.state), net, 0)
      ensures ok ==> connection.state == old(connection.state) - {token}
      ensures connection.state == old(connection.state) || connection.state == old(connection.state) - {token}
      ensures ok <==> WithRetry(Reports(net), 0).final.Returned?
    {
      DeleteIsAtMostOnce(connection.state, token, net);
      ok := connection.Execute(Remove(token), net, 0);
    }

    /** Retried like the others; an answered "no" is an error that is not retried. */
    method Validate(token: Bytes, user: UserId, now: Time, net: Network, counter: nat) returns (ok: bool)
      ensures ok <==> WithRetry(Reports(net), counter).final.Returned? && Validates(connection.state, token, user, now)
      decreases MAX_ATTEMPT_COUNT - counter
    {
      match net(counter).reply
      case Ack => ok := Validates(connection.state, token, user, now);
      case OtherError => ok := false;
      case RetryableError =>
        if counter >= MAX_ATTEMPT_COUNT {
          ok := false;
        } else {
          ok := Validate(token, user, now, net, counter + 1);
        }
    }
  }

  class Manager {
    const storage: TokenRepository

    constructor (r: TokenRepository)
      ensures storage == r
    {
      storage := r;
    }

    /** Nothing is issued, nothing changes. Otherwise a success leaves the new token valid for its
        user until it expires, and no other token moves. */
    method CreateSession(user: UserId, issue: Issue, save: Network) returns (ok: bool)
      modifies storage.connection
      ensures (storage.connection.state, ok) == Step(old(storage.connection.state), Create(user, issue, save))
      ensures issue.None? ==> !ok && storage.connection.state == old(storage.connection.state)
      ensures issue.Some? ==>
        var (token, expiresAt) := issue.value;
        && (ok <==> WithRetry(Reports(save), 0).final.Returned?)
        && (ok ==> forall u, now ::
              Validates(storage.connection.state, token, u, now) <==> u == user && now < expiresAt)
        && (storage.connection.state != old(storage.connection.state) ==>
              storage.connection.state == old(storage.connection.state)[token := TokenRow(user, expiresAt)])
    {
      match issue
      case None => ok := false;
      case Some((token, expiresAt)) => ok := storage.Save(token, user, expiresAt, save);
    }

    method RefreshSession(user: UserId, oldToken: Bytes, delete: Network, issue: Issue, save: Network)
      returns (ok: bool)
      modifies storage.connection
      ensures (storage.connection.state, ok)
           == Step(old(storage.connection.state), Refresh(user, oldToken, delete, issue, save))
      ensures ok ==> forall u, now ::
        issue.value.0 != oldToken ==> !Validates(storage.connection.state, oldToken, u, now)
    {
      ghost var before := storage.connection.state;
      ok := storage.Delete(oldToken, delete);
      DeleteIsAtMostOnce(before, oldToken, delete);
      if ok {
        ghost var between := storage.connection.state;
        ok := CreateSession(user, issue, save);
        if issue.Some? {
          SaveIsAtMostOnce(between, issue.value.0, user, issue.value.1, save);
        }
      }
    }

    method RevokeSession(token: Bytes, delete: Network) returns (ok: bool)
      modifies storage.connection
      ensures (storage.connection.state, ok) == Step(old(storage.connection.state), Revoke(token, delete))
      ensures ok ==> token !in storage.connection.state
    {
      ghost var before := storage.connection.state;
      ok := storage.Delete(token, delete);
      DeleteIsAtMostOnce(before, token, delete);
    }
  }
}
