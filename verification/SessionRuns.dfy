/** session.Manager calls on one refresh_tokens table, interleaved at every attempt of every
    statement: RefreshSession deletes and then saves, and neither statement looks at the other. */
module SessionRuns {
  import opened Common
  import opened Retry
  import opened Schema
  import opened Sessions

  type Pid = nat

  /** Where a call is. Deleting carries the user to create a session for afterwards, if any. */
  datatype Phase =
    | Deleting(token: Bytes, next: Option<UserId>, attempt: nat)
    | Issuing(user: UserId)
    | Saving(user: UserId, token: Bytes, expiresAt: Time, attempt: nat)
    | Created(user: UserId, token: Bytes, expiresAt: Time)
    | Revoked
    | Erred

  /** `issued` are the tokens the generator has ever made. */
  datatype State = State(table: Table, procs: map<Pid, Phase>, issued: set<Bytes>)

  datatype Action =
    | CallCreate(pid: Pid, user: UserId)
    | CallRefresh(pid: Pid, user: UserId, stale: Bytes)
    | CallRevoke(pid: Pid, token: Bytes)
    | DeleteTry(pid: Pid, fate: Fate)
    | IssueToken(pid: Pid, issue: Issue)
    | SaveTry(pid: Pid, fate: Fate)

  predicate IsCall(a: Action) {
    a.CallCreate? || a.CallRefresh? || a.CallRevoke?
  }

  /** Only an attempt that took effect is acknowledged; an issued token is a new one. */
  predicate Enabled(s: State, a: Action) {
    if IsCall(a) then a.pid !in s.procs
    else
      && a.pid in s.procs
      && match a
         case DeleteTry(pid, fate) => s.procs[pid].Deleting? && (fate.reply == Ack ==> fate.applied)
         case IssueToken(pid, issue) => s.procs[pid].Issuing? && (issue.Some? ==> issue.value.0 !in s.issued)
         case SaveTry(pid, fate) => s.procs[pid].Saving? && (fate.reply == Ack ==> fate.applied)
  }

  /** WithRetry: on to the next phase, another attempt, or an error. */
  function After(reply: Reply, attempt: nat, done: Phase, again: Phase): Phase {
    match reply
    case Ack => done
    case RetryableError => if attempt < MAX_ATTEMPT_COUNT then again else Erred
    case OtherError => Erred
  }

  function NextPhase(s: State, a: Action): Phase
    requires Enabled(s, a)
  {
    match a
    case CallCreate(_, user) => Issuing(user)
    case CallRefresh(_, user, stale) => Deleting(stale, Some(user), 0)
    case CallRevoke(_, token) => Deleting(token, None, 0)
    case DeleteTry(pid, fate) =>
      var p := s.procs[pid];
      After(fate.reply, p.attempt, if p.next.Some? then Issuing(p.next.value) else Revoked,
            Deleting(p.token, p.next, p.attempt + 1))
    case IssueToken(pid, issue) =>
      if issue.None? then Erred else Saving(s.procs[pid].user, issue.value.0, issue.value.1, 0)
    case SaveTry(pid, fate) =>
      var p := s.procs[pid];
      After(fate.reply, p.attempt, Created(p.user, p.token, p.expiresAt),
            Saving(p.user, p.token, p.expiresAt, p.attempt + 1))
  }

  /** What the step writes, if it takes effect. */
  function WritesOf(s: State, a: Action): seq<Write>
    requires Enabled(s, a)
  {
    match a
    case DeleteTry(pid, fate) => if fate.applied then [Deleted(s.procs[pid].token)] else []
    case SaveTry(pid, fate) =>
      var p := s.procs[pid];
      if fate.applied then [Saved(p.token, p.user, p.expiresAt)] else []
    case _ => []
  }

  function TableAfter(s: State, a: Action): Table
    requires Enabled(s, a)
  {
    match a
    case DeleteTry(pid, fate) => if fate.applied then Remove(s.procs[pid].token)(s.table) else s.table
    case SaveTry(pid, fate) =>
      var p := s.procs[pid];
      if fate.applied then Upsert(p.token, p.user, p.expiresAt)(s.table) else s.table
    case _ => s.table
  }

  function Step(s: State, a: Action): State
    requires Enabled(s, a)
  {
    State(TableAfter(s, a), s.procs[a.pid := NextPhase(s, a)],
          if a.IssueToken? && a.issue.Some? then s.issued + {a.issue.value.0} else s.issued)
  }

  /** Runs start with some stored tokens, all of them issued. */
  ghost predicate Run(table0: Table, actions: seq<Action>, states: seq<State>) {
    && |states| == |actions| + 1
    && states[0] == State(table0, map[], table0.Keys)
    && (forall i {:trigger actions[i]} :: 0 <= i < |actions| ==>
          Enabled(states[i], actions[i]) && states[i + 1] == Step(states[i], actions[i]))
  }

  // ---- Validity in every interleaving ----

  /** The writes that took effect before step n, in order. */
  function Log(actions: seq<Action>, states: seq<State>, n: nat): seq<Write>
    requires n <= |actions| <= |states| && forall i :: 0 <= i < |actions| ==> Enabled(states[i], actions[i])
  {
    if n == 0 then [] else Log(actions, states, n - 1) + WritesOf(states[n - 1], actions[n - 1])
  }

  lemma StepIsWrite(s: State, a: Action)
    requires Enabled(s, a)
    ensures Step(s, a).table == Replay(s.table, WritesOf(s, a))
  {
    var w := WritesOf(s, a);
    if w != [] {
      assert w[..0] == [] && Replay(s.table, w[..0]) == s.table;
    }
  }

  lemma {:induction false} RunIsWrites(table0: Table, actions: seq<Action>, states: seq<State>, n: nat)
    requires Run(table0, actions, states) && n < |states|
    ensures states[n].table == Replay(table0, Log(actions, states, n))
  {
    hide Step, Enabled, WritesOf;
    if n > 0 {
      RunIsWrites(table0, actions, states, n - 1);
      StepIsWrite(states[n - 1], actions[n - 1]);
      ReplaySplit(table0, Log(actions, states, n - 1), WritesOf(states[n - 1], actions[n - 1]));
    }
  }

  /** In every interleaving of retried statements a token validates exactly when the last write of it
      that took effect saved it for that user with a later expiry. */
  lemma ValidInEveryRun(actions: seq<Action>, states: seq<State>, n: nat, token: Bytes, user: UserId, now: Time)
    requires Run(map[], actions, states) && n < |states|
    ensures Validates(states[n].table, token, user, now) <==> ValidByHistory(Log(actions, states, n), token, user, now)
  {
    RunIsWrites(map[], actions, states, n);
    ReplayByLastWrite(Log(actions, states, n), token, user, now);
  }

  // ---- How a refresh ends ----

  predicate DeleteHeard(a: Action, p: Pid) {
    a.DeleteTry? && a.pid == p && a.fate.reply == Ack
  }

  predicate SaveHeard(a: Action, p: Pid) {
    a.SaveTry? && a.pid == p && a.fate.reply == Ack
  }

  ghost predicate HeardDelete(actions: seq<Action>, n: nat, p: Pid)
    requires n <= |actions|
  {
    exists k :: 0 <= k < n && DeleteHeard(actions[k], p)
  }

  ghost predicate HeardSave(actions: seq<Action>, n: nat, p: Pid)
    requires n <= |actions|
  {
    exists k :: 0 <= k < n && SaveHeard(actions[k], p)
  }

  /** A refresh past its delete has heard it, and has a session exactly if it has heard the save. */
  ghost predicate Told(p: Phase, deleted: bool, saved: bool) {
    && (p.Deleting? ==> p.next.Some? && !deleted && !saved)
    && (p.Issuing? || p.Saving? ==> deleted && !saved)
    && (p.Created? ==> deleted && saved)
    && !p.Revoked?
    && (p.Erred? ==> !saved)
  }

  lemma ToldStep(s: State, a: Action, p: Pid, deleted: bool, saved: bool)
    requires Enabled(s, a) && p in s.procs && Told(s.procs[p], deleted, saved)
    ensures Told(Step(s, a).procs[p], deleted || DeleteHeard(a, p), saved || SaveHeard(a, p))
  {
  }

  /** Before it is called nothing has been heard. */
  lemma {:induction false} SilentBefore(table0: Table, actions: seq<Action>, states: seq<State>, n: nat, p: Pid)
    requires Run(table0, actions, states) && n < |states| && p !in states[n].procs
    ensures !HeardDelete(actions, n, p) && !HeardSave(actions, n, p)
  {
    if n > 0 {
      assert states[n].procs == Step(states[n - 1], actions[n - 1]).procs;
      SilentBefore(table0, actions, states, n - 1, p);
    }
  }

  lemma {:induction false} RefreshIsTold(table0: Table, actions: seq<Action>, states: seq<State>, k: nat, n: nat)
    requires Run(table0, actions, states) && k < n < |states| && actions[k].CallRefresh?
    ensures actions[k].pid in states[n].procs
    ensures Told(states[n].procs[actions[k].pid],
                 HeardDelete(actions, n, actions[k].pid), HeardSave(actions, n, actions[k].pid))
    decreases n
  {
    var p := actions[k].pid;
    assert HeardDelete(actions, n, p) <==> HeardDelete(actions, n - 1, p) || DeleteHeard(actions[n - 1], p);
    assert HeardSave(actions, n, p) <==> HeardSave(actions, n - 1, p) || SaveHeard(actions[n - 1], p);
    if n == k + 1 {
      SilentBefore(table0, actions, states, k, p);
    } else {
      RefreshIsTold(table0, actions, states, k, n - 1);
      ToldStep(states[n - 1], actions[n - 1], p, HeardDelete(actions, n - 1, p), HeardSave(actions, n - 1, p));
    }
  }

  /** A refresh has a new session exactly when its delete and its save were acknowledged, whatever the
      other calls do and whether or not its old token was ever stored. */
  lemma RefreshedIff(table0: Table, actions: seq<Action>, states: seq<State>, k: nat, n: nat)
    requires Run(table0, actions, states) && k < n < |states| && actions[k].CallRefresh?
    ensures
      var p := actions[k].pid;
      && p in states[n].procs
      && (states[n].procs[p].Created? <==> HeardDelete(actions, n, p) && HeardSave(actions, n, p))
  {
    RefreshIsTold(table0, actions, states, k, n);
  }

  // ---- Calls do what they were called for ----

  /** p issued this token with this expiry. */
  ghost predicate WasIssued(actions: seq<Action>, n: nat, p: Pid, token: Bytes, expiresAt: Time)
    requires n <= |actions|
  {
    exists k :: 0 <= k < n && actions[k] == IssueToken(p, Some((token, expiresAt)))
  }

  /** A session in the making is for the user of the call, with the token and the expiry issued to it. */
  ghost predicate MakesSession(actions: seq<Action>, n: nat, p: Pid, phase: Phase, user: UserId)
    requires n <= |actions|
  {
    match phase
    case Issuing(u) => u == user
    case Saving(u, token, expiresAt, _) => u == user && WasIssued(actions, n, p, token, expiresAt)
    case Created(u, token, expiresAt) => u == user && WasIssued(actions, n, p, token, expiresAt)
    case Erred => true
    case _ => false
  }

  /** Where a call can be, given its arguments and whether it has heard its delete. */
  ghost predicate Honours(actions: seq<Action>, n: nat, phase: Phase, call: Action, deleted: bool)
    requires n <= |actions| && IsCall(call)
  {
    match call
    case CallCreate(p, user) => MakesSession(actions, n, p, phase, user)
    case CallRefresh(p, user, stale) =>
      if phase.Deleting? then phase.token == stale && phase.next == Some(user) && !deleted
      else MakesSession(actions, n, p, phase, user) && (phase.Erred? || deleted)
    case CallRevoke(_, token) =>
      if phase.Deleting? then phase.token == token && phase.next == None && !deleted
      else (phase.Revoked? && deleted) || (phase.Erred? && !deleted)
  }

  lemma HonoursStep(actions: seq<Action>, n: nat, s: State, call: Action, deleted: bool)
    requires n < |actions| && Enabled(s, actions[n]) && IsCall(call) && call.pid in s.procs
    requires Honours(actions, n, s.procs[call.pid], call, deleted)
    ensures Honours(actions, n + 1, Step(s, actions[n]).procs[call.pid], call,
                    deleted || DeleteHeard(actions[n], call.pid))
  {
    var p, p' := s.procs[call.pid], Step(s, actions[n]).procs[call.pid];
    if p'.Saving? || p'.Created? {
      if actions[n].pid == call.pid && actions[n].IssueToken? {
        assert actions[n] == IssueToken(call.pid, Some((p'.token, p'.expiresAt)));
      } else {
        IssuedStays(actions, n, call.pid, p.token, p.expiresAt);
      }
    }
  }

  lemma IssuedStays(actions: seq<Action>, n: nat, p: Pid, token: Bytes, expiresAt: Time)
    requires n < |actions| && WasIssued(actions, n, p, token, expiresAt)
    ensures WasIssued(actions, n + 1, p, token, expiresAt)
  {
  }

  /** In every interleaving every call stands by its arguments: a refresh or a revoke deletes the token
      it was given, in every attempt; a session is for the call's own user, with the token and the
      expiry issued to the call; and a revoke has succeeded exactly when its delete was acknowledged. */
  lemma {:induction false} CallIsHonoured(table0: Table, actions: seq<Action>, states: seq<State>, k: nat, n: nat)
    requires Run(table0, actions, states) && k < n < |states| && IsCall(actions[k])
    ensures actions[k].pid in states[n].procs
    ensures Honours(actions, n, states[n].procs[actions[k].pid], actions[k], HeardDelete(actions, n, actions[k].pid))
    decreases n
  {
    var p := actions[k].pid;
    DeleteHeardStep(actions, n, p);
    if n == k + 1 {
      SilentBefore(table0, actions, states, k, p);
    } else {
      hide Step, Enabled, Honours, HeardDelete;
      CallIsHonoured(table0, actions, states, k, n - 1);
      CallStays(table0, actions, states, k, n);
      HonoursStep(actions, n - 1, states[n - 1], actions[k], HeardDelete(actions, n - 1, p));
    }
  }

  lemma DeleteHeardStep(actions: seq<Action>, n: nat, p: Pid)
    requires 0 < n <= |actions|
    ensures HeardDelete(actions, n, p) <==> HeardDelete(actions, n - 1, p) || DeleteHeard(actions[n - 1], p)
  {
  }

  /** Every delete of a call removes the token named in the call, and leaves the others. */
  lemma DeletesWhatWasAsked(table0: Table, actions: seq<Action>, states: seq<State>, k: nat, j: nat)
    requires Run(table0, actions, states) && k < j < |actions| && IsCall(actions[k])
    requires actions[j].DeleteTry? && actions[j].pid == actions[k].pid
    ensures !actions[k].CallCreate?
    ensures
      var token := if actions[k].CallRefresh? then actions[k].stale else actions[k].token;
      states[j + 1].table == if actions[j].fate.applied then states[j].table - {token} else states[j].table
  {
    hide HeardDelete, WasIssued;
    CallIsHonoured(table0, actions, states, k, j);
    assert Enabled(states[j], actions[j]) && states[j + 1] == Step(states[j], actions[j]);
  }

  // ---- Tokens of different calls ----

  predicate HasToken(p: Phase) {
    p.Saving? || p.Created?
  }

  ghost predicate TokensDiffer(s: State) {
    && (forall p :: p in s.procs && HasToken(s.procs[p]) ==> s.procs[p].token in s.issued)
    && (forall p, q :: p in s.procs && q in s.procs && p != q && HasToken(s.procs[p]) && HasToken(s.procs[q]) ==>
          s.procs[p].token != s.procs[q].token)
  }

  lemma {:induction false} RunKeepsTokens(table0: Table, actions: seq<Action>, states: seq<State>, n: nat)
    requires Run(table0, actions, states) && n < |states|
    ensures TokensDiffer(states[n])
  {
    if n > 0 {
      RunKeepsTokens(table0, actions, states, n - 1);
      StepKeepsTokens(states[n - 1], actions[n - 1]);
    }
  }

  lemma StepKeepsTokens(s: State, a: Action)
    requires TokensDiffer(s) && Enabled(s, a)
    ensures TokensDiffer(Step(s, a))
  {
  }

  /** The session a call was given: its row is stored, unless a delete of its token took effect. */
  ghost predicate SessionKept(s: State, p: Pid, dropped: bool) {
    p in s.procs && s.procs[p].Created? && !dropped ==>
      && s.procs[p].token in s.table
      && s.table[s.procs[p].token] == TokenRow(s.procs[p].user, s.procs[p].expiresAt)
  }

  /** The step deletes the token p holds or is saving. */
  ghost predicate DropsTokenOf(s: State, a: Action, p: Pid) {
    && a.DeleteTry? && a.fate.applied && a.pid in s.procs && s.procs[a.pid].Deleting?
    && p in s.procs && HasToken(s.procs[p]) && s.procs[p].token == s.procs[a.pid].token
  }

  lemma SessionStep(s: State, a: Action, p: Pid, dropped: bool)
    requires Enabled(s, a) && TokensDiffer(s) && SessionKept(s, p, dropped)
    ensures SessionKept(Step(s, a), p, dropped || DropsTokenOf(s, a, p))
  {
  }

  ghost predicate TokenDropped(actions: seq<Action>, states: seq<State>, n: nat, p: Pid)
    requires n <= |actions| <= |states|
  {
    exists k :: 0 <= k < n && DropsTokenOf(states[k], actions[k], p)
  }

  lemma {:induction false} SessionsLast(table0: Table, actions: seq<Action>, states: seq<State>, n: nat, p: Pid)
    requires Run(table0, actions, states) && n < |states|
    ensures SessionKept(states[n], p, TokenDropped(actions, states, n, p))
  {
    if n > 0 {
      hide Step, Enabled, SessionKept, TokensDiffer, DropsTokenOf;
      SessionsLast(table0, actions, states, n - 1, p);
      RunKeepsTokens(table0, actions, states, n - 1);
      SessionStep(states[n - 1], actions[n - 1], p, TokenDropped(actions, states, n - 1, p));
      assert TokenDropped(actions, states, n, p)
             <==> TokenDropped(actions, states, n - 1, p) || DropsTokenOf(states[n - 1], actions[n - 1], p);
    } else {
      assert states[0].procs == map[];
    }
  }

  // ---- Deleted tokens stay deleted ----

  /** The token has left the manager: it was issued and no call is saving it any more. */
  ghost predicate HandedOut(s: State, token: Bytes) {
    token in s.issued && forall p :: p in s.procs && s.procs[p].Saving? ==> s.procs[p].token != token
  }

  /** As every token of a finished call has. */
  lemma CreatedIsHandedOut(s: State, p: Pid)
    requires TokensDiffer(s) && p in s.procs && s.procs[p].Created?
    ensures HandedOut(s, s.procs[p].token)
  {
  }

  lemma GoneStep(s: State, a: Action, token: Bytes)
    requires Enabled(s, a) && HandedOut(s, token)
    ensures HandedOut(Step(s, a), token)
    ensures token in Step(s, a).table ==> token in s.table
    ensures a.DeleteTry? && a.fate.applied && s.procs[a.pid].token == token ==> token !in Step(s, a).table
  {
  }

  lemma {:induction false} StaysGone(table0: Table, actions: seq<Action>, states: seq<State>, i: nat, n: nat,
                                     token: Bytes)
    requires Run(table0, actions, states) && i <= n < |states|
    requires HandedOut(states[i], token) && token !in states[i].table
    ensures HandedOut(states[n], token) && token !in states[n].table
    decreases n
  {
    if i < n {
      hide Step, Enabled, HandedOut;
      StaysGone(table0, actions, states, i, n - 1, token);
      GoneStep(states[n - 1], actions[n - 1], token);
    }
  }

  /** Once a delete of a token that some call has handed out took effect, heard or not, the token
      validates for nobody in any later state of any interleaving. */
  lemma DeletedForGood(table0: Table, actions: seq<Action>, states: seq<State>, k: nat, n: nat, c: Pid,
                       user: UserId, now: Time)
    requires Run(table0, actions, states) && k < n < |states|
    requires actions[k].DeleteTry? && actions[k].fate.applied
    requires c in states[k].procs && states[k].procs[c].Created?
    requires states[k].procs[actions[k].pid].token == states[k].procs[c].token
    ensures !Validates(states[n].table, states[k].procs[c].token, user, now)
  {
    hide Step, HandedOut, TokensDiffer;
    var token := states[k].procs[c].token;
    RunKeepsTokens(table0, actions, states, k);
    CreatedIsHandedOut(states[k], c);
    GoneStep(states[k], actions[k], token);
    StaysGone(table0, actions, states, k + 1, n, token);
  }

  lemma {:induction false} StaysHandedOut(table0: Table, actions: seq<Action>, states: seq<State>, i: nat, n: nat,
                                          token: Bytes)
    requires Run(table0, actions, states) && i <= n < |states| && HandedOut(states[i], token)
    ensures HandedOut(states[n], token)
    decreases n
  {
    if i < n {
      hide Step, Enabled, HandedOut;
      StaysHandedOut(table0, actions, states, i, n - 1, token);
      GoneStep(states[n - 1], actions[n - 1], token);
    }
  }

  /** As every token that was stored from the start has been handed out. */
  lemma StoredIsHandedOut(table0: Table, actions: seq<Action>, states: seq<State>, n: nat, token: Bytes)
    requires Run(table0, actions, states) && n < |states| && token in table0
    ensures HandedOut(states[n], token)
  {
    StaysHandedOut(table0, actions, states, 0, n, token);
  }

  /** A revoke has succeeded exactly when its delete was acknowledged, and then its token, if it was
      handed out when it was called, validates for nobody from there on. */
  lemma RevokedIff(table0: Table, actions: seq<Action>, states: seq<State>, k: nat, n: nat)
    requires Run(table0, actions, states) && k < n < |states| && actions[k].CallRevoke?
    ensures actions[k].pid in states[n].procs
    ensures states[n].procs[actions[k].pid].Revoked? <==> HeardDelete(actions, n, actions[k].pid)
    ensures states[n].procs[actions[k].pid].Revoked? && HandedOut(states[k], actions[k].token) ==>
            forall user, now :: !Validates(states[n].table, actions[k].token, user, now)
  {
    var p, token := actions[k].pid, actions[k].token;
    CallIsHonoured(table0, actions, states, k, n);
    if HeardDelete(actions, n, p) && HandedOut(states[k], token) {
      hide Step, HandedOut, Honours, Enabled;
      var j :| 0 <= j < n && DeleteHeard(actions[j], p);
      HeardAfterCall(table0, actions, states, k, j);
      DeletesWhatWasAsked(table0, actions, states, k, j);
      StaysHandedOut(table0, actions, states, k, j + 1, token);
      StaysGone(table0, actions, states, j + 1, n, token);
    }
  }

  lemma HeardAfterCall(table0: Table, actions: seq<Action>, states: seq<State>, k: nat, j: nat)
    requires Run(table0, actions, states) && k < |actions| && j < |actions| && IsCall(actions[k])
    requires DeleteHeard(actions[j], actions[k].pid)
    ensures k < j && actions[j].fate.applied
  {
    assert Enabled(states[j], actions[j]) && Enabled(states[k], actions[k]);
    if j < k {
      CallStays(table0, actions, states, j, k);
    }
  }

  // ---- One old token, several sessions ----

  /** p holds a session of its own that validates until it expires. */
  ghost predicate HoldsSession(s: State, p: Pid) {
    && p in s.procs && s.procs[p].Created?
    && forall now :: Validates(s.table, s.procs[p].token, s.procs[p].user, now) <==> now < s.procs[p].expiresAt
  }

  /** Two refreshes of the same old token both get a session exactly when both heard their delete and
      their save; the sessions are different, and both are valid unless deleted since. */
  lemma OneTokenTwoSessions(table0: Table, actions: seq<Action>, states: seq<State>, j: nat, k: nat, n: nat)
    requires Run(table0, actions, states) && j < k < n < |states|
    requires actions[j].CallRefresh? && actions[k].CallRefresh? && actions[j].stale == actions[k].stale
    ensures
      var p, q, s := actions[j].pid, actions[k].pid, states[n];
      && p in s.procs && q in s.procs
      && (s.procs[p].Created? && s.procs[q].Created?
          <==> && HeardDelete(actions, n, p) && HeardSave(actions, n, p)
               && HeardDelete(actions, n, q) && HeardSave(actions, n, q))
      && (s.procs[p].Created? && s.procs[q].Created? ==> p != q && s.procs[p].token != s.procs[q].token)
      && (s.procs[p].Created? && !TokenDropped(actions, states, n, p) ==> HoldsSession(s, p))
      && (s.procs[q].Created? && !TokenDropped(actions, states, n, q) ==> HoldsSession(s, q))
  {
    hide Step, Enabled, Told, HeardDelete, HeardSave, TokenDropped;
    var p, q := actions[j].pid, actions[k].pid;
    RefreshedIff(table0, actions, states, j, n);
    RefreshedIff(table0, actions, states, k, n);
    RunKeepsTokens(table0, actions, states, n);
    CallsDiffer(table0, actions, states, j, k);
    SessionsLast(table0, actions, states, n, p);
    SessionsLast(table0, actions, states, n, q);
  }

  lemma {:induction false} CallStays(table0: Table, actions: seq<Action>, states: seq<State>, j: nat, n: nat)
    requires Run(table0, actions, states) && j < n < |states|
    ensures actions[j].pid in states[n].procs
    decreases n
  {
    assert Enabled(states[n - 1], actions[n - 1]);
    if n > j + 1 {
      CallStays(table0, actions, states, j, n - 1);
    }
  }

  lemma CallsDiffer(table0: Table, actions: seq<Action>, states: seq<State>, j: nat, k: nat)
    requires Run(table0, actions, states) && j < k < |actions| && IsCall(actions[k])
    ensures actions[j].pid != actions[k].pid
  {
    CallStays(table0, actions, states, j, k);
    assert Enabled(states[k], actions[k]);
  }

  /** s is one step after before. */
  ghost predicate Follows(before: State, a: Action, s: State) {
    Enabled(before, a) && s == Step(before, a)
  }

  lemma BothDelete(user: UserId, stale: Bytes, row: TokenRow) returns (s1: State, s2: State, s3: State, s4: State)
    ensures Follows(State(map[stale := row], map[], {stale}), CallRefresh(0, user, stale), s1)
    ensures Follows(s1, CallRefresh(1, user, stale), s2)
    ensures Follows(s2, DeleteTry(0, Fate(true, Ack)), s3) && Follows(s3, DeleteTry(1, Fate(true, Ack)), s4)
    ensures s4 == State(map[], map[0 := Issuing(user), 1 := Issuing(user)], {stale})
  {
    s1 := Step(State(map[stale := row], map[], {stale}), CallRefresh(0, user, stale));
    s2 := Step(s1, CallRefresh(1, user, stale));
    assert s2.procs == map[0 := Deleting(stale, Some(user), 0), 1 := Deleting(stale, Some(user), 0)];
    s3 := Step(s2, DeleteTry(0, Fate(true, Ack)));
    assert s3.table == map[];
    s4 := Step(s3, DeleteTry(1, Fate(true, Ack)));
  }

  lemma BothSave(user: UserId, stale: Bytes, t1: Bytes, t2: Bytes, expiry: Time)
    returns (s5: State, s6: State, s7: State, s8: State)
    requires t1 != stale && t2 != stale && t1 != t2
    ensures Follows(State(map[], map[0 := Issuing(user), 1 := Issuing(user)], {stale}),
                    IssueToken(0, Some((t1, expiry))), s5)
    ensures Follows(s5, IssueToken(1, Some((t2, expiry))), s6)
    ensures Follows(s6, SaveTry(0, Fate(true, Ack)), s7) && Follows(s7, SaveTry(1, Fate(true, Ack)), s8)
    ensures s8.table == map[t1 := TokenRow(user, expiry), t2 := TokenRow(user, expiry)]
  {
    var s4 := State(map[], map[0 := Issuing(user), 1 := Issuing(user)], {stale});
    s5 := Step(s4, IssueToken(0, Some((t1, expiry))));
    s6 := Step(s5, IssueToken(1, Some((t2, expiry))));
    assert s6.procs == map[0 := Saving(user, t1, expiry, 0), 1 := Saving(user, t2, expiry, 0)];
    s7 := Step(s6, SaveTry(0, Fate(true, Ack)));
    s8 := Step(s7, SaveTry(1, Fate(true, Ack)));
  }

  /** A run in which they do: one stored token, refreshed twice at the same time. */
  lemma RefreshedTwice(user: UserId, stale: Bytes, t1: Bytes, t2: Bytes, expiry: Time)
    returns (actions: seq<Action>, states: seq<State>)
    requires t1 != stale && t2 != stale && t1 != t2
    ensures Run(map[stale := TokenRow(user, expiry)], actions, states) && |actions| == 8
    ensures actions[0] == CallRefresh(0, user, stale) && actions[1] == CallRefresh(1, user, stale)
    ensures states[8].table == map[t1 := TokenRow(user, expiry), t2 := TokenRow(user, expiry)]
  {
    hide Step, Enabled;
    var s0 := State(map[stale := TokenRow(user, expiry)], map[], {stale});
    var s1, s2, s3, s4 := BothDelete(user, stale, TokenRow(user, expiry));
    var s5, s6, s7, s8 := BothSave(user, stale, t1, t2, expiry);
    var ack := Fate(true, Ack);
    actions := [CallRefresh(0, user, stale), CallRefresh(1, user, stale), DeleteTry(0, ack), DeleteTry(1, ack),
                IssueToken(0, Some((t1, expiry))), IssueToken(1, Some((t2, expiry))), SaveTry(0, ack), SaveTry(1, ack)];
    states := [s0, s1, s2, s3, s4, s5, s6, s7, s8];
    assert map[stale := TokenRow(user, expiry)].Keys == {stale};
  }

  // ---- The same calls undisturbed ----

  /** The attempts of a delete, one after the other, until it is decided. */
  function DeleteAll(s: State, pid: Pid, net: Network, c: nat): State
    requires pid in s.procs && s.procs[pid].Deleting? && s.procs[pid].attempt == c
    decreases MAX_ATTEMPT_COUNT - c
  {
    var s1 := Step(s, DeleteTry(pid, net(c)));
    if s1.procs[pid].Deleting? then DeleteAll(s1, pid, net, c + 1) else s1
  }

  function SaveAll(s: State, pid: Pid, net: Network, c: nat): State
    requires pid in s.procs && s.procs[pid].Saving? && s.procs[pid].attempt == c
    decreases MAX_ATTEMPT_COUNT - c
  {
    var s1 := Step(s, SaveTry(pid, net(c)));
    if s1.procs[pid].Saving? then SaveAll(s1, pid, net, c + 1) else s1
  }

  /** They are the retried statement. */
  lemma {:induction false} DeleteAllIsRetried(s: State, pid: Pid, net: Network, c: nat)
    requires pid in s.procs && s.procs[pid].Deleting? && s.procs[pid].attempt == c
    ensures
      var p, s' := s.procs[pid], DeleteAll(s, pid, net, c);
      var (table, ok) := Retried(Remove(p.token), s.table, net, c);
      && s'.table == table && s'.issued == s.issued && pid in s'.procs
      && s'.procs[pid] == if !ok then Erred else if p.next.Some? then Issuing(p.next.value) else Revoked
    decreases MAX_ATTEMPT_COUNT - c
  {
    var s1 := Step(s, DeleteTry(pid, net(c)));
    if s1.procs[pid].Deleting? {
      DeleteAllIsRetried(s1, pid, net, c + 1);
    }
  }

  lemma {:induction false} SaveAllIsRetried(s: State, pid: Pid, net: Network, c: nat)
    requires pid in s.procs && s.procs[pid].Saving? && s.procs[pid].attempt == c
    ensures
      var p, s' := s.procs[pid], SaveAll(s, pid, net, c);
      var (table, ok) := Retried(Upsert(p.token, p.user, p.expiresAt), s.table, net, c);
      && s'.table == table && pid in s'.procs
      && s'.procs[pid] == if ok then Created(p.user, p.token, p.expiresAt) else Erred
    decreases MAX_ATTEMPT_COUNT - c
  {
    var s1 := Step(s, SaveTry(pid, net(c)));
    if s1.procs[pid].Saving? {
      SaveAllIsRetried(s1, pid, net, c + 1);
    }
  }

  /** CreateSession from where it issues its tokens. */
  function IssueAndSave(s: State, pid: Pid, issue: Issue, save: Network): State
    requires pid in s.procs && s.procs[pid].Issuing? && (issue.Some? ==> issue.value.0 !in s.issued)
  {
    var s1 := Step(s, IssueToken(pid, issue));
    if issue.None? then s1 else SaveAll(s1, pid, save, 0)
  }

  lemma CreateIsASchedule(s: State, pid: Pid, user: UserId, issue: Issue, save: Network)
    requires pid !in s.procs && (issue.Some? ==> issue.value.0 !in s.issued)
    ensures
      var s' := IssueAndSave(Step(s, CallCreate(pid, user)), pid, issue, save);
      pid in s'.procs && (s'.table, s'.procs[pid].Created?) == Sessions.Step(s.table, Create(user, issue, save))
  {
    IssueAndSaveIsCreate(Step(s, CallCreate(pid, user)), pid, issue, save);
  }

  lemma IssueAndSaveIsCreate(s: State, pid: Pid, issue: Issue, save: Network)
    requires pid in s.procs && s.procs[pid].Issuing? && (issue.Some? ==> issue.value.0 !in s.issued)
    ensures
      var s' := IssueAndSave(s, pid, issue, save);
      && pid in s'.procs
      && (s'.table, s'.procs[pid].Created?) == Sessions.CreateSession(s.table, s.procs[pid].user, issue, save)
  {
    if issue.Some? {
      SaveAllIsRetried(Step(s, IssueToken(pid, issue)), pid, save, 0);
    }
  }

  /** Undisturbed, the manager's calls are schedules of the protocol, with the table and the success of
      the sequential calls. */
  lemma RefreshIsASchedule(s: State, pid: Pid, user: UserId, stale: Bytes, delete: Network, issue: Issue, save: Network)
    requires pid !in s.procs && (issue.Some? ==> issue.value.0 !in s.issued)
    ensures
      var s1 := DeleteAll(Step(s, CallRefresh(pid, user, stale)), pid, delete, 0);
      && pid in s1.procs && s1.issued == s.issued
      && (s1.procs[pid].Issuing? || s1.procs[pid].Erred?)
      && var s' := if s1.procs[pid].Issuing? then IssueAndSave(s1, pid, issue, save) else s1;
         && pid in s'.procs
         && (s'.table, s'.procs[pid].Created?)
            == Sessions.Step(s.table, Refresh(user, stale, delete, issue, save))
  {
    var s0 := Step(s, CallRefresh(pid, user, stale));
    DeleteAllIsRetried(s0, pid, delete, 0);
    var s1 := DeleteAll(s0, pid, delete, 0);
    if s1.procs[pid].Issuing? {
      IssueAndSaveIsCreate(s1, pid, issue, save);
    }
  }

  lemma RevokeIsASchedule(s: State, pid: Pid, token: Bytes, delete: Network)
    requires pid !in s.procs
    ensures
      var s' := DeleteAll(Step(s, CallRevoke(pid, token)), pid, delete, 0);
      pid in s'.procs && (s'.table, s'.procs[pid].Revoked?) == Sessions.Step(s.table, Revoke(token, delete))
  {
    DeleteAllIsRetried(Step(s, CallRevoke(pid, token)), pid, delete, 0);
  }
}
