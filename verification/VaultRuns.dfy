/** What whole runs of the vault protocol guarantee: one abstract map, calls that do what they were
    called for, readers that get what was recorded, and no object unaccounted for. */
module VaultRuns {
  import opened Common
  import opened Vault

  // ---- Refinement to one map ----

  datatype Effect = Nothing | Add(id: DataId, entry: Entry) | Remove(id: DataId)

  /** The abstract effect of a step: recording the metadata row adds an entry, deleting it removes
      one, and nothing else changes anything. */
  ghost function EffectOf(s: State, a: Action): Effect
    requires Enabled(s, a)
  {
    if a.RowPut? && a.grant.Some? then
      Add(a.grant.value, Entry(s.procs[a.pid].meta.(id := a.grant.value), s.procs[a.pid].sealed))
    else if a.RowDelete? && a.applied then Remove(s.procs[a.pid].id)
    else Nothing
  }

  function Apply(m: map<DataId, Entry>, e: Effect): map<DataId, Entry> {
    match e
    case Nothing => m
    case Add(id, entry) => m[id := entry]
    case Remove(id) => m - {id}
  }

  lemma PutRefines(s: State, a: Action)
    requires Consistent(s.st) && HeldLive(s) && RowsBorn(s) && BornSound(s)
    requires Enabled(s, a) && (a.ObjectPut? || a.RowPut?)
    ensures View(Step(s, a).st) == Apply(View(s.st), EffectOf(s, a))
  {
    var p := s.procs[a.pid];
    if a.ObjectPut? && a.locator.Some? {
      assert Step(s, a).st == PutObject(s.st, a.locator.value, p.sealed);
      ViewOfPutObject(s.st, a.locator.value, p.sealed);
    } else if a.RowPut? && a.grant.Some? {
      assert Step(s, a).st == PutRow(s.st, a.grant.value, p.meta, p.loc);
      ViewOfPutRow(s.st, a.grant.value, p.meta, p.loc);
    } else {
      assert Step(s, a).st == s.st;
    }
  }

  lemma DeleteRefines(s: State, a: Action)
    requires HeldUnrecorded(s) && DroppedUnlinked(s) && RowsBorn(s) && BornSound(s)
    requires Enabled(s, a) && (a.Undo? || a.RowDelete? || a.ObjectDelete?)
    ensures View(Step(s, a).st) == Apply(View(s.st), EffectOf(s, a))
  {
    var p := s.procs[a.pid];
    if a.RowDelete? && a.applied {
      assert Step(s, a).st == DropRow(s.st, p.id);
      ViewOfDropRow(s.st, p.id);
    } else if !a.RowDelete? && a.ok {
      assert Step(s, a).st == DropObject(s.st, p.loc);
      forall id | id in s.st.rows ensures s.st.rows[id].loc != p.loc {
        HeldIsUnnamed(s, a.pid, id);
      }
      ViewOfDropObject(s.st, p.loc);
    } else {
      assert Step(s, a).st == s.st;
    }
  }

  /** Each step of the two stores is one step of the map. */
  lemma StepRefines(s: State, a: Action)
    requires Inv(s) && Enabled(s, a)
    ensures View(Step(s, a).st) == Apply(View(s.st), EffectOf(s, a))
  {
    SoundIsConsistent(s);
    hide View, Consistent, EffectOf, Step, HeldLive, HeldOnce, HeldUnrecorded, DroppedUnlinked, AddingSome;
    hide RowsBorn, BornSound;
    if a.ObjectPut? || a.RowPut? {
      PutRefines(s, a);
    } else if IsWrite(a) {
      DeleteRefines(s, a);
    } else {
      QuietStep(s, a);
    }
  }

  lemma QuietStep(s: State, a: Action)
    requires Enabled(s, a) && !IsWrite(a)
    ensures Step(s, a).st == s.st && View(Step(s, a).st) == View(s.st) && EffectOf(s, a) == Nothing
  {
    hide View;
  }

  /** Added entries are new; removed ones were there. */
  lemma EffectsAreExact(s: State, a: Action)
    requires RowsBorn(s) && Enabled(s, a)
    ensures EffectOf(s, a).Add? ==> EffectOf(s, a).id !in View(s.st)
    ensures EffectOf(s, a).Remove? ==> EffectOf(s, a).id in View(s.st)
  {
  }

  lemma RunStep(actions: seq<Action>, states: seq<State>, i: nat)
    requires Run(actions, states) && i < |actions|
    ensures View(states[i + 1].st) == Apply(View(states[i].st), EffectOf(states[i], actions[i]))
    ensures EffectOf(states[i], actions[i]).Add? ==> EffectOf(states[i], actions[i]).id !in View(states[i].st)
    ensures EffectOf(states[i], actions[i]).Remove? ==> EffectOf(states[i], actions[i]).id in View(states[i].st)
  {
    hide View, Apply, EffectOf, Inv, Consistent, RowsBorn;
    RunKeepsInv(actions, states, i);
    RunKeepsRows(actions, states, i);
    StepRefines(states[i], actions[i]);
    EffectsAreExact(states[i], actions[i]);
  }

  /** The effects of a run, and the abstract maps it goes through. */
  ghost function Effects(actions: seq<Action>, states: seq<State>): seq<Effect>
    requires Run(actions, states)
  {
    seq(|actions|, k requires 0 <= k < |actions| => EffectOf(states[k], actions[k]))
  }

  ghost function Views(states: seq<State>): seq<map<DataId, Entry>> {
    seq(|states|, k requires 0 <= k < |states| => View(states[k].st))
  }

  /** The maps follow from each other by the effects; additions are new, removals were there. */
  ghost predicate Traces(views: seq<map<DataId, Entry>>, effects: seq<Effect>) {
    && |views| == |effects| + 1
    && forall k {:trigger effects[k]} :: 0 <= k < |effects| ==>
         && views[k + 1] == Apply(views[k], effects[k])
         && (effects[k].Add? ==> effects[k].id !in views[k])
         && (effects[k].Remove? ==> effects[k].id in views[k])
  }

  function ApplyAll(m: map<DataId, Entry>, es: seq<Effect>): map<DataId, Entry> {
    if es == [] then m else Apply(ApplyAll(m, es[..|es| - 1]), es[|es| - 1])
  }

  lemma RunTraces(actions: seq<Action>, states: seq<State>)
    requires Run(actions, states)
    ensures Traces(Views(states), Effects(actions, states))
  {
    hide View, Apply, EffectOf;
    var views, effects := Views(states), Effects(actions, states);
    forall k {:trigger effects[k]} | 0 <= k < |effects|
      ensures views[k + 1] == Apply(views[k], effects[k])
      ensures effects[k].Add? ==> effects[k].id !in views[k]
      ensures effects[k].Remove? ==> effects[k].id in views[k]
    {
      RunStep(actions, states, k);
    }
  }

  lemma {:induction false} TraceIsReplay(views: seq<map<DataId, Entry>>, effects: seq<Effect>, n: nat)
    requires Traces(views, effects) && n < |views|
    ensures views[n] == ApplyAll(views[0], effects[..n])
  {
    if n > 0 {
      TraceIsReplay(views, effects, n - 1);
      assert effects[..n][..n - 1] == effects[..n - 1];
      assert effects[..n][n - 1] == effects[n - 1];
    }
  }

  // ---- Calls do what they were called for ----

  /** Where an AddSealed with these arguments can be. If it has recorded an entry, it is that of its
      own metadata, marked with its user, and of its own bytes. */
  ghost predicate HonoursAdd(s: State, p: Phase, user: UserId, meta: Option<Metadata>, sealed: Bytes) {
    || p == Done(Failed)
    || (&& Acceptable(user, meta, sealed)
        && var m := meta.value.(userId := user);
           match p
           case Putting(pm, b) => pm == m && b == sealed
           case Recording(pm, b, _) => pm == m && b == sealed
           case Undoing(_) => true
           case Done(Added(id)) => id in s.born && s.born[id].entry == Entry(m.(id := id), sealed)
           case _ => false)
  }

  /** Where a Delete of id can be. Once past the metadata store, the entry of id has no row; once it
      has succeeded, the object is gone as well. */
  ghost predicate HonoursDelete(s: State, p: Phase, id: DataId) {
    match p
    case Unlinking(i) => i == id
    case Dropping(i, _) => i == id && id in s.born && id !in s.st.rows
    case Done(Deleted) => id in s.born && id !in s.st.rows && s.born[id].loc !in s.st.objects
    case Done(Failed) => true
    case _ => false
  }

  ghost predicate HonoursGet(p: Phase, id: DataId) {
    match p
    case Locating(i) => i == id
    case Loading(item) => item.id == id
    case Done(Delivered(item, _)) => item.id == id
    case Done(Failed) => true
    case _ => false
  }

  /** Where a Sync can be. In short mode success means that every item was sent; in any other mode
      nothing is ever sent, and success is exactly the empty list. */
  ghost predicate HonoursSync(p: Phase, user: UserId, mode: int) {
    match p
    case Listing(u, sync) => u == user && sync == Some(mode)
    case Syncing(m, items, sent) => m == mode && (mode != SYNC_MODE_SHORT ==> sent == [])
    case Done(Synced(ok, m, items, sent)) =>
      && m == mode && (ok ==> |sent| == |items|)
      && (mode != SYNC_MODE_SHORT ==> sent == [] && (ok <==> items == []))
    case Done(Failed) => true
    case _ => false
  }

  ghost predicate HonoursList(p: Phase, user: UserId) {
    match p
    case Listing(u, sync) => u == user && sync == None
    case Done(Listed(_)) => true
    case Done(Failed) => true
    case _ => false
  }

  ghost predicate Honours(s: State, call: Action)
    requires IsCall(call)
  {
    && call.pid in s.procs
    && var p := s.procs[call.pid];
       match call
       case CallAdd(_, user, meta, sealed) => HonoursAdd(s, p, user, meta, sealed)
       case CallDelete(_, id) => HonoursDelete(s, p, id)
       case CallGet(_, id) => HonoursGet(p, id)
       case CallList(_, user) => HonoursList(p, user)
       case CallSync(_, user, mode) => HonoursSync(p, user, mode)
  }

  lemma CallStarts(s: State, call: Action)
    requires Enabled(s, call) && IsCall(call)
    ensures Honours(Step(s, call), call)
  {
  }

  /** What was true of a call stays true as others move: entries are never rewritten, an entry
      without a row stays without, and an object that is gone stays gone. */
  ghost predicate Grows(s: State, s': State) {
    && (forall id :: id in s.born ==> id in s'.born && s'.born[id] == s.born[id])
    && (forall id :: id in s.born && id !in s.st.rows ==> id !in s'.st.rows)
    && (forall loc :: loc in s.issued && loc !in s.st.objects ==> loc !in s'.st.objects)
  }

  lemma StepGrows(s: State, a: Action)
    requires BornSound(s) && Enabled(s, a)
    ensures Grows(s, Step(s, a))
  {
    BornForever(s, a);
  }

  /** A step of another call. */
  lemma OtherStepHonours(s: State, s': State, call: Action)
    requires BornSound(s) && Grows(s, s') && IsCall(call) && Honours(s, call)
    requires call.pid in s'.procs && s'.procs[call.pid] == s.procs[call.pid]
    ensures Honours(s', call)
  {
  }

  /** A step of the call itself. */
  lemma OwnReadHonours(s: State, a: Action, call: Action)
    requires Enabled(s, a) && !IsCall(a) && !IsWrite(a)
    requires IsCall(call) && Honours(s, call) && a.pid == call.pid
    ensures Honours(Step(s, a), call)
  {
  }

  lemma OwnWriteHonours(s: State, a: Action, call: Action)
    requires RowsBorn(s) && DroppedUnlinked(s) && Enabled(s, a) && IsWrite(a)
    requires IsCall(call) && Honours(s, call) && a.pid == call.pid
    ensures Honours(Step(s, a), call)
  {
  }

  lemma OthersStay(s: State, a: Action, p: Pid)
    requires Enabled(s, a) && p in s.procs && a.pid != p
    ensures p in Step(s, a).procs && Step(s, a).procs[p] == s.procs[p]
  {
  }

  lemma StepHonours(s: State, a: Action, call: Action)
    requires RowsBorn(s) && BornSound(s) && DroppedUnlinked(s)
    requires Enabled(s, a) && IsCall(call) && Honours(s, call)
    ensures Honours(Step(s, a), call)
  {
    hide RowsBorn, BornSound, DroppedUnlinked, Grows, HonoursAdd, HonoursDelete, HonoursGet, HonoursSync, HonoursList;
    hide AfterRead, AfterWrite, Begin;
    if a.pid != call.pid {
      StepGrows(s, a);
      OthersStay(s, a, call.pid);
      OtherStepHonours(s, Step(s, a), call);
    } else if IsWrite(a) {
      OwnWriteHonours(s, a, call);
    } else {
      OwnReadHonours(s, a, call);
    }
  }

  /** In every interleaving, every call stands by its arguments from its start on. */
  lemma {:induction false} CallIsHonoured(actions: seq<Action>, states: seq<State>, k: nat, n: nat)
    requires Run(actions, states) && k < n < |states| && IsCall(actions[k])
    ensures Honours(states[n], actions[k])
    decreases n
  {
    hide Honours, Step, Enabled, RowsBorn, BornSound, DroppedUnlinked, HeldLive, HeldUnrecorded;
    if n == k + 1 {
      CallStarts(states[k], actions[k]);
    } else {
      CallIsHonoured(actions, states, k, n - 1);
      RunKeepsHeld(actions, states, n - 1);
      StepHonours(states[n - 1], actions[n - 1], actions[k]);
    }
  }

  /** Every process is one call. */
  lemma {:induction false} CallerOf(actions: seq<Action>, states: seq<State>, n: nat, p: Pid) returns (k: nat)
    requires Run(actions, states) && n < |states| && p in states[n].procs
    ensures k < n && IsCall(actions[k]) && actions[k].pid == p
    decreases n
  {
    var a := actions[n - 1];
    if p in states[n - 1].procs {
      k := CallerOf(actions, states, n - 1, p);
    } else {
      k := n - 1;
    }
  }

  /** The effect of step k was asked for: an added entry is the metadata and the bytes of the AddSealed
      that takes the step, a removed id the one of the Delete that does. */
  ghost predicate AskedFor(actions: seq<Action>, k: nat, e: Effect)
    requires k < |actions|
  {
    match e
    case Nothing => true
    case Add(id, entry) => exists c :: 0 <= c < k && AskedToAdd(actions[c], actions[k].pid, id, entry)
    case Remove(id) => exists c :: 0 <= c < k && actions[c] == CallDelete(actions[k].pid, id)
  }

  predicate AskedToAdd(call: Action, p: Pid, id: DataId, entry: Entry) {
    && call.CallAdd? && call.pid == p && Acceptable(call.user, call.meta, call.sealed)
    && entry == Entry(call.meta.value.(userId := call.user, id := id), call.sealed)
  }

  lemma EffectAskedFor(actions: seq<Action>, states: seq<State>, k: nat)
    requires Run(actions, states) && k < |actions|
    ensures AskedFor(actions, k, EffectOf(states[k], actions[k]))
  {
    var e := EffectOf(states[k], actions[k]);
    if !e.Nothing? {
      var c := CallerOf(actions, states, k, actions[k].pid);
      CallIsHonoured(actions, states, c, k);
      if e.Add? {
        assert AskedToAdd(actions[c], actions[k].pid, e.id, e.entry);
      } else {
        assert actions[c] == CallDelete(actions[k].pid, e.id);
      }
    }
  }

  /** Whole runs: the two stores always look like the one map that saw the effects in order, where
      every addition is new, every removal hits, and each was asked for by the call that makes it. */
  lemma RunRefines(actions: seq<Action>, states: seq<State>, n: nat)
    requires Run(actions, states) && n < |states|
    ensures View(states[n].st) == ApplyAll(map[], Effects(actions, states)[..n])
    ensures Traces(Views(states), Effects(actions, states))
    ensures forall k {:trigger actions[k]} :: 0 <= k < |actions| ==>
      AskedFor(actions, k, EffectOf(states[k], actions[k]))
  {
    RunTraces(actions, states);
    TraceIsReplay(Views(states), Effects(actions, states), n);
    assert Views(states)[0] == View(EMPTY.st) == map[];
    forall k {:trigger actions[k]} | 0 <= k < |actions| ensures AskedFor(actions, k, EffectOf(states[k], actions[k])) {
      EffectAskedFor(actions, states, k);
    }
  }

  // ---- What callers may rely on ----

  /** An AddSealed that has ended as Added(id) made exactly the entry id, out of its own arguments, and
      no other call did; one that ended otherwise made none. */
  lemma AddedExactlyOnce(actions: seq<Action>, states: seq<State>, k: nat, n: nat, id: DataId)
    requires Run(actions, states) && k < n < |states| && actions[k].CallAdd?
    ensures
      var call, s := actions[k], states[n];
      && call.pid in s.procs
      && (s.procs[call.pid] == Done(Added(id)) <==> id in s.born && s.born[id].adder == call.pid)
      && (s.procs[call.pid] == Done(Added(id)) ==> AskedToAdd(call, call.pid, id, s.born[id].entry))
  {
    CallIsHonoured(actions, states, k, n);
    RunKeepsInv(actions, states, n);
  }

  lemma {:induction false} TracePersists(
    views: seq<map<DataId, Entry>>, effects: seq<Effect>, i: nat, j: nat, id: DataId)
    requires Traces(views, effects) && i <= j < |views| && id in views[i]
    requires Remove(id) !in effects[i..j]
    ensures id in views[j] && views[j][id] == views[i][id]
    decreases j - i
  {
    if i < j {
      assert effects[i..j][..j - 1 - i] == effects[i..j - 1];
      TracePersists(views, effects, i, j - 1, id);
      assert effects[j - 1] == effects[i..j][j - 1 - i];
    }
  }

  /** Without a delete of id, the entry stays exactly as it is through any run. */
  lemma EntryPersists(actions: seq<Action>, states: seq<State>, i: nat, j: nat, id: DataId)
    requires Run(actions, states) && i <= j < |states|
    requires id in View(states[i].st) && Remove(id) !in Effects(actions, states)[i..j]
    ensures id in View(states[j].st) && View(states[j].st)[id] == View(states[i].st)[id]
  {
    RunTraces(actions, states);
    TracePersists(Views(states), Effects(actions, states), i, j, id);
    assert Views(states)[i] == View(states[i].st) && Views(states)[j] == View(states[j].st);
  }

  /** The step adds id, or it leaves id alone. */
  predicate Adds(e: Effect, id: DataId) {
    e.Add? && e.id == id
  }

  lemma LiveStep(s: State, a: Action, id: DataId)
    requires RowsBorn(s) && Enabled(s, a)
    ensures id in Step(s, a).st.rows <==> (id in s.st.rows && EffectOf(s, a) != Remove(id)) || Adds(EffectOf(s, a), id)
    ensures EffectOf(s, a) == Remove(id) ==> id in s.born
  {
  }

  lemma BornStep(s: State, a: Action, id: DataId)
    requires Enabled(s, a)
    ensures id in Step(s, a).born <==> id in s.born || Adds(EffectOf(s, a), id)
    ensures Adds(EffectOf(s, a), id) ==> id !in s.born
  {
  }

  /** A recorded entry has its row exactly until a delete of its id takes effect. */
  lemma {:induction false} LiveIffNotRemoved(actions: seq<Action>, states: seq<State>, n: nat, id: DataId)
    requires Run(actions, states) && n < |states|
    ensures id in states[n].st.rows <==> id in states[n].born && Remove(id) !in Effects(actions, states)[..n]
    ensures Remove(id) in Effects(actions, states)[..n] ==> id in states[n].born
  {
    if n > 0 {
      hide RowsBorn, Step, Enabled, EffectOf;
      var effects := Effects(actions, states);
      var e := EffectOf(states[n - 1], actions[n - 1]);
      LiveIffNotRemoved(actions, states, n - 1, id);
      RunKeepsRows(actions, states, n - 1);
      LiveStep(states[n - 1], actions[n - 1], id);
      BornStep(states[n - 1], actions[n - 1], id);
      InPrefix(effects, n, Remove(id));
    }
  }

  lemma InPrefix<T>(xs: seq<T>, n: nat, x: T)
    requires 0 < n <= |xs|
    ensures x in xs[..n] <==> x in xs[..n - 1] || xs[n - 1] == x
  {
    assert xs[..n] == xs[..n - 1] + [xs[n - 1]];
  }

  /** The parts of the invariant that the arguments about runs need. */
  lemma RunKeepsRows(actions: seq<Action>, states: seq<State>, i: nat)
    requires Run(actions, states) && i < |states|
    ensures RowsBorn(states[i])
  {
    hide HeldLive, HeldOnce, HeldUnrecorded, DroppedUnlinked, AddingSome;
    hide RowsBorn, BornSound, BornWereAdded, AddedAreBorn, ReadersSound, Accounted;
    RunKeepsInv(actions, states, i);
  }

  lemma RunKeepsHeld(actions: seq<Action>, states: seq<State>, i: nat)
    requires Run(actions, states) && i < |states|
    ensures HeldLive(states[i]) && HeldUnrecorded(states[i]) && DroppedUnlinked(states[i])
    ensures RowsBorn(states[i]) && BornSound(states[i])
  {
    hide HeldLive, HeldOnce, HeldUnrecorded, DroppedUnlinked, AddingSome;
    hide RowsBorn, BornSound, BornWereAdded, AddedAreBorn, ReadersSound, Accounted;
    RunKeepsInv(actions, states, i);
  }

  lemma RunKeepsReaders(actions: seq<Action>, states: seq<State>, i: nat, p: Pid)
    requires Run(actions, states) && i < |states|
    ensures BornSound(states[i]) && (p in states[i].procs ==> PhaseSound(states[i], states[i].procs[p]))
  {
    hide HeldLive, HeldOnce, HeldUnrecorded, DroppedUnlinked, AddingSome;
    hide RowsBorn, BornSound, BornWereAdded, AddedAreBorn, Accounted, PhaseSound;
    RunKeepsInv(actions, states, i);
  }

  /** After AddSealed has returned id for its metadata and bytes, and as long as no delete of id takes
      effect, the map holds exactly them under id, and every GetSealed of id that calls back at all
      calls back with exactly them, whatever else goes on. */
  lemma AddThenGet(actions: seq<Action>, states: seq<State>, k: nat, n: nat, g: nat,
                   id: DataId, item: Item, bytes: Bytes)
    requires Run(actions, states) && k < n < |states| && g < n
    requires actions[k].CallAdd? && actions[g].CallGet? && actions[g].id == id
    requires actions[k].pid in states[n].procs && states[n].procs[actions[k].pid] == Done(Added(id))
    requires actions[g].pid in states[n].procs && states[n].procs[actions[g].pid] == Done(Delivered(item, bytes))
    requires Remove(id) !in Effects(actions, states)[..n]
    ensures actions[k].meta.Some?
    ensures
      var meta := actions[k].meta.value.(userId := actions[k].user, id := id);
      && id in View(states[n].st) && View(states[n].st)[id] == Entry(meta, actions[k].sealed)
      && item.id == id && item.meta == Metadata(id, "", meta.dataType, meta.name, meta.description)
      && bytes == actions[k].sealed
  {
    hide View, RowsBorn, BornSound, PhaseSound, Step, Enabled;
    AddedExactlyOnce(actions, states, k, n, id);
    CallIsHonoured(actions, states, g, n);
    LiveIffNotRemoved(actions, states, n, id);
    RunKeepsRows(actions, states, n);
    RunKeepsReaders(actions, states, n, actions[g].pid);
    LiveIsDelivered(states[n], id, item, bytes);
  }

  lemma LiveIsDelivered(s: State, id: DataId, item: Item, bytes: Bytes)
    requires RowsBorn(s) && BornSound(s) && id in s.st.rows && item.id == id
    requires PhaseSound(s, Done(Delivered(item, bytes)))
    ensures id in s.born && id in View(s.st) && View(s.st)[id] == s.born[id].entry
    ensures item.meta == Shown(id, s.born[id].entry.meta) && bytes == s.born[id].entry.bytes
  {
    var p := Done(Delivered(item, bytes));
    assert ReadSound(s, ItemsIn(p)[0], SentIn(p)[0]);
  }

  // ---- What readers are given, exactly ----

  /** The object delete of a Delete of id goes through. */
  ghost predicate Drops(s: State, a: Action, id: DataId) {
    a.ObjectDelete? && a.ok && a.pid in s.procs && s.procs[a.pid].Dropping? && s.procs[a.pid].id == id
  }

  ghost predicate Dropped(actions: seq<Action>, states: seq<State>, n: nat, id: DataId)
    requires n < |states| == |actions| + 1
  {
    exists d :: 0 <= d < n && Drops(states[d], actions[d], id)
  }

  lemma PutDropsNothing(s: State, a: Action, id: DataId)
    requires HeldLive(s) && BornSound(s) && Enabled(s, a) && (a.ObjectPut? || a.RowPut?) && id in Step(s, a).born
    ensures Step(s, a).born[id].loc !in Step(s, a).st.objects <==> id in s.born && s.born[id].loc !in s.st.objects
  {
  }

  lemma DeleteDrops(s: State, a: Action, id: DataId)
    requires HeldUnrecorded(s) && DroppedUnlinked(s) && BornSound(s)
    requires Enabled(s, a) && (a.Undo? || a.RowDelete? || a.ObjectDelete?) && id in s.born
    ensures s.born[id].loc !in Step(s, a).st.objects <==> s.born[id].loc !in s.st.objects || Drops(s, a, id)
  {
  }

  /** The object of an entry is gone after a step if it was before or the step drops it. */
  lemma DropStep(s: State, a: Action, id: DataId)
    requires HeldLive(s) && HeldUnrecorded(s) && DroppedUnlinked(s) && BornSound(s) && Enabled(s, a)
    ensures Drops(s, a, id) ==> id in s.born
    ensures id in s.born ==> id in Step(s, a).born
    ensures id in Step(s, a).born ==>
            (ObjectGone(Step(s, a), id) <==> id in s.born && (ObjectGone(s, id) || Drops(s, a, id)))
  {
    BornForever(s, a);
    if a.ObjectPut? || a.RowPut? {
      if id in Step(s, a).born {
        PutDropsNothing(s, a, id);
      }
    } else if IsWrite(a) {
      if id in s.born {
        DeleteDrops(s, a, id);
      }
    }
  }

  ghost predicate ObjectGone(s: State, id: DataId)
    requires id in s.born
  {
    s.born[id].loc !in s.st.objects
  }

  lemma DroppedStep(actions: seq<Action>, states: seq<State>, n: nat, id: DataId)
    requires 0 < n < |states| == |actions| + 1
    ensures Dropped(actions, states, n, id)
            <==> Dropped(actions, states, n - 1, id) || Drops(states[n - 1], actions[n - 1], id)
  {
    hide Drops;
  }

  /** The object of an entry is there exactly until the second half of a Delete of its id succeeds. */
  lemma {:induction false} GoneIffDropped(actions: seq<Action>, states: seq<State>, n: nat, id: DataId)
    requires Run(actions, states) && n < |states|
    ensures id in states[n].born ==> (ObjectGone(states[n], id) <==> Dropped(actions, states, n, id))
    ensures Dropped(actions, states, n, id) ==> id in states[n].born
  {
    hide HeldLive, HeldUnrecorded, DroppedUnlinked, RowsBorn, BornSound, Step, Enabled, Drops, Dropped, ObjectGone;
    if n > 0 {
      GoneIffDropped(actions, states, n - 1, id);
      RunKeepsHeld(actions, states, n - 1);
      DropStep(states[n - 1], actions[n - 1], id);
      DroppedStep(actions, states, n, id);
    } else {
      NotDroppedAtFirst(actions, states, id);
    }
  }

  lemma NotDroppedAtFirst(actions: seq<Action>, states: seq<State>, id: DataId)
    requires |states| == |actions| + 1
    ensures !Dropped(actions, states, 0, id)
  {
  }

  /** The item a reading step is about. */
  function ItemRead(p: Phase): Item
    requires p.Loading? || (p.Syncing? && |p.sent| < |p.items|)
  {
    if p.Loading? then p.item else p.items[|p.sent|]
  }

  predicate Reads(a: Action) {
    (a.ObjectGet? && a.ok) || a.SyncSend?
  }

  /** What a reading step passes on: the recorded bytes if the object is there, nothing otherwise. */
  lemma ReadStep(s: State, a: Action)
    requires BornSound(s) && Enabled(s, a) && Reads(a) && PhaseSound(s, s.procs[a.pid])
    ensures
      var item, p := ItemRead(s.procs[a.pid]), Step(s, a).procs[a.pid];
      && item.id in s.born && |SentIn(p)| > 0
      && (SentIn(p)[|SentIn(p)| - 1] == s.born[item.id].entry.bytes <==> !ObjectGone(s, item.id))
      && (ObjectGone(s, item.id) ==> SentIn(p)[|SentIn(p)| - 1] == [])
  {
    var p := s.procs[a.pid];
    assert ItemSound(s, ItemsIn(p)[if p.Loading? then 0 else |p.sent|]);
  }

  /** The bytes GetSealed or Sync passes on are the recorded ones if and only if no Delete of that id
      has got as far as its object before this read; otherwise they are empty. */
  lemma DeliveryExact(actions: seq<Action>, states: seq<State>, k: nat)
    requires Run(actions, states) && k < |actions| && Reads(actions[k])
    ensures
      var s, p := states[k], states[k + 1].procs[actions[k].pid];
      var item := ItemRead(s.procs[actions[k].pid]);
      && item.id in s.born && |SentIn(p)| > 0
      && (SentIn(p)[|SentIn(p)| - 1] == s.born[item.id].entry.bytes <==> !Dropped(actions, states, k, item.id))
      && (Dropped(actions, states, k, item.id) ==> SentIn(p)[|SentIn(p)| - 1] == [])
  {
    hide BornSound, PhaseSound, Step, Dropped, ObjectGone;
    var s := states[k];
    RunKeepsReaders(actions, states, k, actions[k].pid);
    ReadStep(s, actions[k]);
    GoneIffDropped(actions, states, k, ItemRead(s.procs[actions[k].pid]).id);
  }

  /** The item has the columns the call was given, its id, and no user. */
  predicate ShowsCall(call: Action, item: Item) {
    && call.CallAdd? && call.meta.Some?
    && var m := call.meta.value; item.meta == Metadata(item.id, "", m.dataType, m.name, m.description)
  }

  /** An item and bytes that went to a callback: what the AddSealed that was given this id was called
      with, or its metadata and an empty stream if a Delete of it has reached its object. */
  ghost predicate SentSound(actions: seq<Action>, states: seq<State>, n: nat, item: Item, bytes: Bytes)
    requires n < |states| == |actions| + 1
  {
    exists c ::
      && 0 <= c < n && ShowsCall(actions[c], item)
      && actions[c].pid in states[n].procs && states[n].procs[actions[c].pid] == Done(Added(item.id))
      && (bytes == actions[c].sealed || (bytes == [] && Dropped(actions, states, n, item.id)))
  }

  /** Every entry was asked for by the one AddSealed that ended with its id. */
  lemma AdderOf(actions: seq<Action>, states: seq<State>, n: nat, id: DataId) returns (c: nat)
    requires Run(actions, states) && n < |states| && id in states[n].born
    ensures c < n && actions[c].pid in states[n].procs && states[n].procs[actions[c].pid] == Done(Added(id))
    ensures AskedToAdd(actions[c], actions[c].pid, id, states[n].born[id].entry)
  {
    hide Step, Enabled, HeldLive, HeldOnce, HeldUnrecorded, DroppedUnlinked, AddingSome;
    hide RowsBorn, BornSound, AddedAreBorn, ReadersSound, Accounted;
    RunKeepsInv(actions, states, n);
    c := CallerOf(actions, states, n, states[n].born[id].adder);
    CallIsHonoured(actions, states, c, n);
  }

  lemma SentWasAdded(actions: seq<Action>, states: seq<State>, n: nat, item: Item, bytes: Bytes)
    requires Run(actions, states) && n < |states| && ReadSound(states[n], item, bytes)
    ensures SentSound(actions, states, n, item, bytes)
  {
    hide Step, Enabled, Dropped;
    var c := AdderOf(actions, states, n, item.id);
    GoneIffDropped(actions, states, n, item.id);
    assert ShowsCall(actions[c], item);
  }

  /** What a finished GetSealed delivered: the requested entry as recorded, or the empty stream if a
      Delete of it has reached its object. */
  lemma DeliveredIsRecorded(actions: seq<Action>, states: seq<State>, g: nat, n: nat, item: Item, bytes: Bytes)
    requires Run(actions, states) && g < n < |states| && actions[g].CallGet?
    requires actions[g].pid in states[n].procs && states[n].procs[actions[g].pid] == Done(Delivered(item, bytes))
    ensures item.id == actions[g].id && SentSound(actions, states, n, item, bytes)
  {
    var s, q := states[n], actions[g].pid;
    RunKeepsReaders(actions, states, n, q);
    CallIsHonoured(actions, states, g, n);
    assert ReadSound(s, ItemsIn(s.procs[q])[0], SentIn(s.procs[q])[0]);
    SentWasAdded(actions, states, n, item, bytes);
  }

  /** s is one step after before. */
  ghost predicate Follows(before: State, a: Action, s: State) {
    Enabled(before, a) && s == Step(before, a)
  }

  /** An entry is stored and a GetSealed has found its row. */
  lemma Locate(user: UserId, meta: Metadata, sealed: Bytes, loc: Locator, id: DataId)
    returns (s1: State, s2: State, s3: State, s4: State, s5: State)
    requires Acceptable(user, Some(meta), sealed) && id != ""
    ensures Follows(EMPTY, CallAdd(0, user, Some(meta), sealed), s1)
    ensures Follows(s1, ObjectPut(0, Some(loc)), s2) && Follows(s2, RowPut(0, Some(id)), s3)
    ensures Follows(s3, CallGet(1, id), s4) && Follows(s4, RowGet(1, true), s5)
    ensures id in s5.st.rows && s5.st.rows[id].loc == loc
    ensures s5.procs == map[0 := Done(Added(id)), 1 := Loading(Item(id, Shown(id, meta), loc))]
  {
    var m := meta.(userId := user);
    s1 := Step(EMPTY, CallAdd(0, user, Some(meta), sealed));
    assert s1.procs == map[0 := Putting(m, sealed)];
    s2 := Step(s1, ObjectPut(0, Some(loc)));
    assert s2.procs == map[0 := Recording(m, sealed, loc)];
    s3 := Step(s2, RowPut(0, Some(id)));
    assert s3.st.rows == map[id := Row(m.(id := id), loc)];
    s4 := Go(s3, 1, Locating(id));
    s5 := Step(s4, RowGet(1, true));
  }

  /** A Delete runs to its end before the object is opened. */
  lemma Overtake(s5: State, item: Item) returns (s6: State, s7: State, s8: State)
    requires item.id != "" && item.id in s5.st.rows && s5.st.rows[item.id].loc == item.loc
    requires 2 !in s5.procs
    ensures Follows(s5, CallDelete(2, item.id), s6) && Follows(s6, RowDelete(2, true, true), s7)
    ensures Follows(s7, ObjectDelete(2, true), s8)
    ensures s8.procs == s5.procs[2 := Done(Deleted)] && item.loc !in s8.st.objects
  {
    s6 := Step(s5, CallDelete(2, item.id));
    s7 := Step(s6, RowDelete(2, true, true));
    s8 := Step(s7, ObjectDelete(2, true));
  }

  lemma ReadGone(s8: State, item: Item) returns (s9: State)
    requires 1 in s8.procs && s8.procs[1] == Loading(item) && item.loc !in s8.st.objects
    ensures Follows(s8, ObjectGet(1, true), s9) && s9.procs == s8.procs[1 := Done(Delivered(item, []))]
  {
    s9 := Step(s8, ObjectGet(1, true));
  }

  /** A run in which it did: any entry, stored, located by a GetSealed, and deleted before its object
      is opened. The callback is given an empty object. */
  lemma DeliversNothing(user: UserId, meta: Metadata, sealed: Bytes, loc: Locator, id: DataId)
    returns (actions: seq<Action>, states: seq<State>)
    requires Acceptable(user, Some(meta), sealed) && id != ""
    ensures Run(actions, states) && |actions| == 9
    ensures actions[0] == CallAdd(0, user, Some(meta), sealed) && actions[3] == CallGet(1, id)
    ensures 0 in states[9].procs && states[9].procs[0] == Done(Added(id))
    ensures 1 in states[9].procs && states[9].procs[1]
            == Done(Delivered(Item(id, Metadata(id, "", meta.dataType, meta.name, meta.description), loc), []))
  {
    hide Step, Enabled, Acceptable;
    var s1, s2, s3, s4, s5 := Locate(user, meta, sealed, loc, id);
    var s6, s7, s8 := Overtake(s5, Item(id, Shown(id, meta), loc));
    var s9 := ReadGone(s8, Item(id, Shown(id, meta), loc));
    states := [EMPTY, s1, s2, s3, s4, s5, s6, s7, s8, s9];
    actions := [CallAdd(0, user, Some(meta), sealed), ObjectPut(0, Some(loc)), RowPut(0, Some(id)),
                CallGet(1, id), RowGet(1, true),
                CallDelete(2, id), RowDelete(2, true, true), ObjectDelete(2, true),
                ObjectGet(1, true)];
  }

  // ---- List and Sync ----

  predicate HasList(p: Phase) {
    p.Syncing? || (p.Done? && (p.result.Listed? || p.result.Synced?))
  }

  ghost predicate ListedBefore(states: seq<State>, n: nat, user: UserId, items: seq<Item>)
    requires n <= |states|
  {
    exists j :: 0 <= j < n && ListsAll(states[j].st.rows, user, items)
  }

  predicate CallsFor(call: Action, user: UserId) {
    (call.CallList? || call.CallSync?) && call.user == user
  }

  lemma ListStep(s: State, a: Action, call: Action, user: UserId)
    requires Enabled(s, a) && CallsFor(call, user) && Honours(s, call) && HasList(Step(s, a).procs[call.pid])
    ensures || ListsAll(s.st.rows, user, ItemsIn(Step(s, a).procs[call.pid]))
            || (HasList(s.procs[call.pid]) && ItemsIn(s.procs[call.pid]) == ItemsIn(Step(s, a).procs[call.pid]))
  {
  }

  /** The items of a List or a Sync are all rows of its user at one moment, each once. */
  lemma {:induction false} ItemsWereListed(actions: seq<Action>, states: seq<State>, k: nat, n: nat, user: UserId)
    requires Run(actions, states) && k < n < |states| && CallsFor(actions[k], user)
    requires actions[k].pid in states[n].procs && HasList(states[n].procs[actions[k].pid])
    ensures ListedBefore(states, n, user, ItemsIn(states[n].procs[actions[k].pid]))
    decreases n
  {
    var p := actions[k].pid;
    if n > k + 1 {
      CallIsHonoured(actions, states, k, n - 1);
      ListStep(states[n - 1], actions[n - 1], actions[k], user);
      if !ListsAll(states[n - 1].st.rows, user, ItemsIn(states[n].procs[p])) {
        ItemsWereListed(actions, states, k, n - 1, user);
      }
    }
  }

  /** And each shows what an AddSealed of that same user was called with. */
  lemma ListedWereAdded(actions: seq<Action>, states: seq<State>, k: nat, n: nat, user: UserId, i: nat)
    returns (c: nat)
    requires Run(actions, states) && k < n < |states| && CallsFor(actions[k], user)
    requires actions[k].pid in states[n].procs && HasList(states[n].procs[actions[k].pid])
    requires i < |ItemsIn(states[n].procs[actions[k].pid])|
    ensures c < n && actions[c].CallAdd? && actions[c].user == user
    ensures ShowsCall(actions[c], ItemsIn(states[n].procs[actions[k].pid])[i])
  {
    hide Step, Enabled, RowsBorn, ItemsIn, HasList;
    var items := ItemsIn(states[n].procs[actions[k].pid]);
    ItemsWereListed(actions, states, k, n, user);
    var j :| 0 <= j < n && ListsAll(states[j].st.rows, user, items);
    var ids :| IdsOf(states[j].st.rows, user, ids) && items == ItemsOf(states[j].st.rows, ids);
    assert ids[i] in ids && ShowsRow(states[j].st.rows, items[i]);
    c := RowAdder(actions, states, j, items[i]);
  }

  lemma RowAdder(actions: seq<Action>, states: seq<State>, n: nat, item: Item) returns (c: nat)
    requires Run(actions, states) && n < |states| && ShowsRow(states[n].st.rows, item)
    ensures c < n && ShowsCall(actions[c], item) && actions[c].user == states[n].st.rows[item.id].meta.userId
  {
    hide Step, Enabled;
    RunKeepsRows(actions, states, n);
    c := AdderOf(actions, states, n, item.id);
  }

  /** What a finished Sync has done, whatever went on meanwhile. Its items are the user's rows at one
      moment, each once; it called back for a prefix of them, in order, each with the columns and the
      bytes its AddSealed was called with, or with no bytes if a Delete of that entry has reached its
      object. In short mode success means the whole list; in any other mode there was no callback,
      and success is exactly the empty list. */
  lemma SyncedIsRecorded(actions: seq<Action>, states: seq<State>, k: nat, n: nat, r: Result)
    requires Run(actions, states) && k < n < |states| && actions[k].CallSync?
    requires actions[k].pid in states[n].procs && states[n].procs[actions[k].pid] == Done(r) && r.Synced?
    ensures ListedBefore(states, n, actions[k].user, r.items)
    ensures |r.sent| <= |r.items| && (r.ok ==> |r.sent| == |r.items|)
    ensures actions[k].mode != SYNC_MODE_SHORT ==> r.sent == [] && (r.ok <==> r.items == [])
    ensures forall i :: 0 <= i < |r.sent| ==> SentSound(actions, states, n, r.items[i], r.sent[i])
  {
    var s := states[n];
    var p := s.procs[actions[k].pid];
    RunKeepsReaders(actions, states, n, actions[k].pid);
    CallIsHonoured(actions, states, k, n);
    ItemsWereListed(actions, states, k, n, actions[k].user);
    forall i | 0 <= i < |r.sent| ensures SentSound(actions, states, n, r.items[i], r.sent[i]) {
      assert ReadSound(s, ItemsIn(p)[i], SentIn(p)[i]);
      SentWasAdded(actions, states, n, r.items[i], r.sent[i]);
    }
  }

  // ---- Deletes and orphans ----

  /** The compensating delete of AddSealed, and the second half of Delete, never touch an object
      that some row still names. */
  lemma DeletesAreSafe(actions: seq<Action>, states: seq<State>, i: nat, id: DataId)
    requires Run(actions, states) && i < |actions| && (actions[i].Undo? || actions[i].ObjectDelete?)
    requires id in states[i].st.rows
    ensures states[i].procs[actions[i].pid].loc in states[i].st.objects
    ensures states[i].st.rows[id].loc != states[i].procs[actions[i].pid].loc
    ensures View(states[i + 1].st) == View(states[i].st) && id in View(states[i].st)
  {
    hide View, HeldLive, HeldUnrecorded, DroppedUnlinked, RowsBorn, BornSound, Step;
    RunKeepsHeld(actions, states, i);
    DeleteTarget(states[i], actions[i], id);
    DeleteRefines(states[i], actions[i]);
  }

  lemma DeleteTarget(s: State, a: Action, id: DataId)
    requires HeldLive(s) && HeldUnrecorded(s) && DroppedUnlinked(s) && RowsBorn(s) && BornSound(s)
    requires Enabled(s, a) && (a.Undo? || a.ObjectDelete?) && id in s.st.rows
    ensures s.procs[a.pid].loc in s.st.objects && s.st.rows[id].loc != s.procs[a.pid].loc && id in View(s.st)
  {
    HeldIsUnnamed(s, a.pid, id);
  }

  /** The deletes that failed so far: compensations, second halves, and row deletes whose answer
      was lost. */
  function FailedDeletes(actions: seq<Action>): nat {
    if actions == [] then 0
    else
      var a := actions[|actions| - 1];
      FailedDeletes(actions[..|actions| - 1])
      + (if (a.Undo? && !a.ok) || (a.ObjectDelete? && !a.ok) || (a.RowDelete? && a.applied && !a.ok) then 1 else 0)
  }

  lemma {:induction false} LeakedCount(actions: seq<Action>, states: seq<State>, n: nat)
    requires Run(actions, states) && n < |states|
    ensures states[n].leaked == FailedDeletes(actions[..n])
  {
    if n > 0 {
      LeakedCount(actions, states, n - 1);
      assert actions[..n][..n - 1] == actions[..n - 1];
      assert states[n] == Step(states[n - 1], actions[n - 1]);
    }
  }

  /** Orphan accounting over any run: objects minus rows is the number of calls in between their
      two store calls plus the number of failed deletes. Once all calls are done and no delete
      has failed, the stores match one to one. */
  lemma OrphanAccounting(actions: seq<Action>, states: seq<State>, n: nat)
    requires Run(actions, states) && n < |states|
    ensures |states[n].st.objects| - |states[n].st.rows| == |Holders(states[n].procs)| + FailedDeletes(actions[..n])
    ensures (forall p :: p in states[n].procs ==> states[n].procs[p].Done?) && FailedDeletes(actions[..n]) == 0
            ==> |states[n].st.objects| == |states[n].st.rows|
  {
    hide HeldLive, HeldOnce, HeldUnrecorded, DroppedUnlinked, AddingSome;
    hide RowsBorn, BornSound, BornWereAdded, AddedAreBorn, ReadersSound;
    RunKeepsInv(actions, states, n);
    LeakedCount(actions, states, n);
    if forall p :: p in states[n].procs ==> states[n].procs[p].Done? {
      assert Holders(states[n].procs) == {};
    }
  }
}
