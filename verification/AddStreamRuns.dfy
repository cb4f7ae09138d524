/** The streaming Add handler among other calls: its requests are AddSealed calls of the vault
    protocol, one after the other, in any interleaving. */
module AddStreamRuns {
  import opened Common
  import opened Vault
  import opened VaultRuns
  import opened AddStream

  predicate HasAdded(s: State, p: Pid) {
    p in s.procs && s.procs[p].Done? && s.procs[p].result.Added?
  }

  /** The call is AddSealed with what the request carries. */
  predicate IsRequest(a: Action, user: UserId, req: AddRequest) {
    && WellFormed(req) && a.CallAdd? && a.user == user
    && a.meta == req.metadata.value && a.sealed == req.payload.value.value
  }

  /** What the handler has done by state n: step calls[i] starts the call for request i, each after the
      one before it has added its entry. */
  ghost predicate Streams(actions: seq<Action>, states: seq<State>, n: nat,
                          user: UserId, reqs: seq<AddRequest>, calls: seq<nat>)
  {
    && Run(actions, states) && n < |states| && |calls| <= |reqs|
    && (forall i :: 0 <= i < |calls| ==> calls[i] < n && IsRequest(actions[calls[i]], user, reqs[i]))
    && (forall i :: 0 < i < |calls| ==>
          calls[i - 1] < calls[i] && HasAdded(states[calls[i]], actions[calls[i - 1]].pid))
  }

  /** The handler reports success. */
  ghost predicate StreamEnds(actions: seq<Action>, states: seq<State>, n: nat,
                             user: UserId, reqs: seq<AddRequest>, calls: seq<nat>)
  {
    && Streams(actions, states, n, user, reqs, calls) && |calls| == |reqs|
    && (calls != [] ==> HasAdded(states[n], actions[calls[|calls| - 1]].pid))
  }

  /** Call p has recorded one entry, that of the request, and it is in the vault unless deleted since. */
  ghost predicate Records(actions: seq<Action>, states: seq<State>, n: nat, p: Pid, user: UserId, req: AddRequest)
    requires Run(actions, states) && n < |states| && WellFormed(req)
  {
    var s := states[n];
    && HasAdded(s, p)
    && var id := s.procs[p].result.id;
       && id in s.born && s.born[id].entry == EntryOf(user, req, id)
       && (id in View(s.st) <==> Remove(id) !in Effects(actions, states)[..n])
       && (id in View(s.st) ==> View(s.st)[id] == EntryOf(user, req, id))
  }

  lemma {:induction false} DoneForever(actions: seq<Action>, states: seq<State>, i: nat, n: nat, p: Pid)
    requires Run(actions, states) && i <= n < |states| && p in states[i].procs && states[i].procs[p].Done?
    ensures p in states[n].procs && states[n].procs[p] == states[i].procs[p]
    decreases n
  {
    if i < n {
      DoneForever(actions, states, i, n - 1, p);
      assert Enabled(states[n - 1], actions[n - 1]) && states[n] == Step(states[n - 1], actions[n - 1]);
    }
  }

  lemma RowsAreView(s: State, id: DataId)
    requires RowsBorn(s) && BornSound(s)
    ensures id in View(s.st) <==> id in s.st.rows
    ensures id in View(s.st) ==> id in s.born && View(s.st)[id] == s.born[id].entry
  {
  }

  lemma AddedRecords(actions: seq<Action>, states: seq<State>, k: nat, n: nat, user: UserId, req: AddRequest)
    requires Run(actions, states) && k < n < |states| && IsRequest(actions[k], user, req)
    requires HasAdded(states[n], actions[k].pid)
    ensures Records(actions, states, n, actions[k].pid, user, req)
  {
    hide View, RowsBorn, BornSound, Step, Enabled;
    var id := states[n].procs[actions[k].pid].result.id;
    AddedExactlyOnce(actions, states, k, n, id);
    RunKeepsHeld(actions, states, n);
    LiveIffNotRemoved(actions, states, n, id);
    RowsAreView(states[n], id);
  }

  /** Every call of the stream but the last has added its entry, for good. */
  lemma EarlierAdded(actions: seq<Action>, states: seq<State>, n: nat,
                     user: UserId, reqs: seq<AddRequest>, calls: seq<nat>, i: nat)
    requires Streams(actions, states, n, user, reqs, calls) && i + 1 < |calls|
    ensures HasAdded(states[n], actions[calls[i]].pid)
  {
    hide Step, Enabled;
    assert HasAdded(states[calls[i + 1]], actions[calls[i]].pid);
    DoneForever(actions, states, calls[i + 1], n, actions[calls[i]].pid);
  }

  /** Whatever the other calls do, the entries a stream has recorded are those of its requests in
      order, up to the last it has called for: each call before that has recorded its own request
      under its own id, the last has or has not, and no call has recorded anything else. Every such
      entry is in the vault exactly as long as no delete of its id takes effect. */
  lemma StreamRecords(actions: seq<Action>, states: seq<State>, n: nat,
                      user: UserId, reqs: seq<AddRequest>, calls: seq<nat>, i: nat)
    requires Streams(actions, states, n, user, reqs, calls) && i < |calls|
    ensures
      var p := actions[calls[i]].pid;
      && (i + 1 < |calls| ==> HasAdded(states[n], p))
      && (HasAdded(states[n], p) ==> Records(actions, states, n, p, user, reqs[i]))
      && (forall id :: id in states[n].born && states[n].born[id].adder == p ==>
            HasAdded(states[n], p) && id == states[n].procs[p].result.id)
  {
    hide Step, Enabled, Records;
    var k := calls[i];
    if i + 1 < |calls| {
      EarlierAdded(actions, states, n, user, reqs, calls, i);
    }
    if HasAdded(states[n], actions[k].pid) {
      AddedRecords(actions, states, k, n, user, reqs[i]);
    }
    forall id | id in states[n].born && states[n].born[id].adder == actions[k].pid
      ensures HasAdded(states[n], actions[k].pid) && id == states[n].procs[actions[k].pid].result.id
    {
      AddedExactlyOnce(actions, states, k, n, id);
    }
  }

  /** Different requests have different ids. */
  lemma StreamIdsDiffer(actions: seq<Action>, states: seq<State>, n: nat,
                        user: UserId, reqs: seq<AddRequest>, calls: seq<nat>, i: nat, j: nat)
    requires Streams(actions, states, n, user, reqs, calls) && i < j < |calls|
    requires HasAdded(states[n], actions[calls[i]].pid) && HasAdded(states[n], actions[calls[j]].pid)
    ensures states[n].procs[actions[calls[i]].pid].result.id != states[n].procs[actions[calls[j]].pid].result.id
  {
    var a, b := actions[calls[i]], actions[calls[j]];
    CallsAscend(actions, states, n, user, reqs, calls, i, j);
    CallIsHonoured(actions, states, calls[i], calls[j]);
    AddedExactlyOnce(actions, states, calls[i], n, states[n].procs[a.pid].result.id);
    AddedExactlyOnce(actions, states, calls[j], n, states[n].procs[b.pid].result.id);
  }

  lemma {:induction false} CallsAscend(actions: seq<Action>, states: seq<State>, n: nat,
                                       user: UserId, reqs: seq<AddRequest>, calls: seq<nat>, i: nat, j: nat)
    requires Streams(actions, states, n, user, reqs, calls) && i < j < |calls|
    ensures calls[i] < calls[j]
    decreases j
  {
    assert calls[j - 1] < calls[j];
    if i < j - 1 {
      CallsAscend(actions, states, n, user, reqs, calls, i, j - 1);
    }
  }

  /** And a stream that ends well has recorded every one of its requests. */
  lemma StreamRecordsAll(actions: seq<Action>, states: seq<State>, n: nat,
                         user: UserId, reqs: seq<AddRequest>, calls: seq<nat>, i: nat)
    requires StreamEnds(actions, states, n, user, reqs, calls) && i < |reqs|
    ensures WellFormed(reqs[i]) && Records(actions, states, n, actions[calls[i]].pid, user, reqs[i])
  {
    StreamRecords(actions, states, n, user, reqs, calls, i);
    assert IsRequest(actions[calls[i]], user, reqs[i]);
  }
}
