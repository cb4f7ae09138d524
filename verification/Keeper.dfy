/** keeper.Service as an object that changes its stores in place.
    What each store call answers is a parameter; the concurrent protocol is in module Vault. */
module Keeper {
  import opened Common
  import opened Vault

  /** ObjectRepo. `grant` is the locator Put will allot, or None if the call fails. */
  class ObjectRepo {
    var objects: map<Locator, Bytes>

    constructor ()
      ensures objects == map[]
    {
      objects := map[];
    }

    method Put(sealed: Bytes, grant: Option<Locator>) returns (r: Option<Locator>)
      modifies this
      ensures r == grant
      ensures objects == if grant.Some? then old(objects)[grant.value := sealed] else old(objects)
    {
      if grant.Some? {
        objects := objects[grant.value := sealed];
      }
      r := grant;
    }

    /** Opens the object; a locator that is gone gives an empty stream. */
    method Get(loc: Locator, ok: bool) returns (r: Option<Bytes>)
      ensures r == if ok then Some(if loc in objects then objects[loc] else []) else None
    {
      r := if ok then Some(if loc in objects then objects[loc] else []) else None;
    }

    method Delete(loc: Locator, ok: bool) returns (r: bool)
      modifies this
      ensures r == ok
      ensures objects == if ok then old(objects) - {loc} else old(objects)
    {
      if ok {
        objects := objects - {loc};
      }
      r := ok;
    }
  }

  /** MetadataRepo. */
  class MetadataRepo {
    var rows: map<DataId, Row>

    constructor ()
      ensures rows == map[]
    {
      rows := map[];
    }

    method Put(meta: Metadata, loc: Locator, grant: Option<DataId>) returns (r: Option<DataId>)
      modifies this
      ensures r == grant
      ensures rows == if grant.Some? then old(rows)[grant.value := Row(meta.(id := grant.value), loc)] else old(rows)
    {
      if grant.Some? {
        rows := rows[grant.value := Row(meta.(id := grant.value), loc)];
      }
      r := grant;
    }

    method Get(id: DataId, ok: bool) returns (r: Option<Item>)
      ensures r == if ok && id in rows then Some(ItemOf(id, rows[id])) else None
    {
      r := if ok && id in rows then Some(ItemOf(id, rows[id])) else None;
    }

    method Delete(id: DataId, ok: bool) returns (r: Option<Locator>)
      modifies this
      ensures r == if ok && id in old(rows) then Some(old(rows)[id].loc) else None
      ensures rows == if ok && id in old(rows) then old(rows) - {id} else old(rows)
    {
      if ok && id in rows {
        r := Some(rows[id].loc);
        rows := rows - {id};
      } else {
        r := None;
      }
    }

    /** The user's rows in some order, each once. */
    method ListByUser(user: UserId, ok: bool) returns (r: Option<seq<Item>>)
      ensures r.Some? <==> ok
      ensures r.Some? ==> ListsAll(rows, user, r.value)
    {
      if !ok {
        return None;
      }
      var left := set id | id in rows && rows[id].meta.userId == user;
      var items: seq<Item> := [];
      ghost var ids: seq<DataId> := [];
      while left != {}
        invariant forall id :: id in left || id in ids <==> id in rows && rows[id].meta.userId == user
        invariant forall id :: id in left ==> id !in ids
        invariant forall i, j :: 0 <= i < j < |ids| ==> ids[i] != ids[j]
        invariant (forall i :: 0 <= i < |ids| ==> ids[i] in rows) && items == ItemsOf(rows, ids)
        decreases left
      {
        var id :| id in left;
        assert ItemsOf(rows, ids + [id]) == ItemsOf(rows, ids) + [ItemOf(id, rows[id])];
        items := items + [ItemOf(id, rows[id])];
        ids := ids + [id];
        left := left - {id};
      }
      ItemsShowRows(rows, user, ids);
      r := Some(items);
    }
  }

  /** The caller's metadata record, which AddSealed writes to. */
  class MetadataBox {
    var value: Metadata

    constructor (m: Metadata)
      ensures value == m
    {
      value := m;
    }
  }

  /** A stream callback that records what it was given. */
  class Callback {
    var trace: seq<(Metadata, Bytes)>

    constructor ()
      ensures trace == []
    {
      trace := [];
    }

    method Invoke(meta: Metadata, sealed: Bytes, ok: bool) returns (r: bool)
      modifies this
      ensures r == ok && trace == old(trace) + [(meta, sealed)]
    {
      trace := trace + [(meta, sealed)];
      r := ok;
    }
  }

  /** The answers of the store calls of one AddSealed, in order. */
  datatype AddEnv = AddEnv(locator: Option<Locator>, id: Option<DataId>, undo: bool)

  /** Opening, reading and closing an object. */
  datatype LoadEnv = LoadEnv(open: bool, read: bool, close: bool)

  /** One item of Sync: whether the context is done first, how the load and the callback go. */
  datatype ItemEnv = ItemEnv(cancelled: bool, load: LoadEnv, callback: bool)

  /** What a callback is given of an entry, column by column. */
  function Visible(id: DataId, e: Entry): (Metadata, Bytes) {
    (Metadata(id, "", e.meta.dataType, e.meta.name, e.meta.description), e.bytes)
  }

  /** The entries as callbacks see them. */
  function Pairs(view: map<DataId, Entry>, ids: seq<DataId>): seq<(Metadata, Bytes)>
    requires forall i :: 0 <= i < |ids| ==> ids[i] in view
  {
    seq(|ids|, i requires 0 <= i < |ids| => Visible(ids[i], view[ids[i]]))
  }

  lemma PairsStep(view: map<DataId, Entry>, ids: seq<DataId>, i: nat)
    requires i < |ids| && forall k :: 0 <= k < |ids| ==> ids[k] in view
    ensures Pairs(view, ids[..i + 1]) == Pairs(view, ids[..i]) + [Visible(ids[i], view[ids[i]])]
  {
  }

  /** Each item shows the entry of its id, and its locator leads to that entry's bytes. */
  ghost predicate Shows(st: Stores, view: map<DataId, Entry>, ids: seq<DataId>, items: seq<Item>) {
    && |ids| == |items|
    && forall i :: 0 <= i < |ids| ==>
         ids[i] in view && (items[i].meta, Contents(st, items[i].loc)) == Visible(ids[i], view[ids[i]])
  }

  lemma InView(st: Stores, id: DataId)
    requires Consistent(st) && id in st.rows
    ensures id in View(st) && View(st)[id] == Entry(st.rows[id].meta, Contents(st, st.rows[id].loc))
  {
  }

  lemma ListedHere(st: Stores, user: UserId, ids: seq<DataId>)
    requires Consistent(st) && IdsOf(st.rows, user, ids)
    ensures Shows(st, View(st), ids, ItemsOf(st.rows, ids))
  {
    hide Consistent;
    var view, items := View(st), ItemsOf(st.rows, ids);
    forall i | 0 <= i < |ids|
      ensures ids[i] in view && (items[i].meta, Contents(st, items[i].loc)) == Visible(ids[i], view[ids[i]])
    {
      assert ids[i] in ids;
      InView(st, ids[i]);
    }
  }

  // ---- What the calls leave in the stores ----

  /** AddSealed past its checks, with the caller's metadata already marked with the user. */
  function AfterAdd(st: Stores, meta: Metadata, sealed: Bytes, env: AddEnv): Stores {
    if env.locator.None? then st
    else
      var stored := PutObject(st, env.locator.value, sealed);
      if env.id.Some? then PutRow(stored, env.id.value, meta, env.locator.value)
      else if env.undo then DropObject(stored, env.locator.value)
      else stored
  }

  predicate FreshFor(st: Stores, env: AddEnv) {
    (env.locator.Some? ==> env.locator.value !in st.objects) && (env.id.Some? ==> env.id.value !in st.rows)
  }

  /** Either exactly one new entry appears, or the abstract map is untouched; the only trace a
      failure can leave is an object whose undo failed too. */
  lemma AddKeepsVault(st: Stores, meta: Metadata, sealed: Bytes, env: AddEnv)
    requires Consistent(st) && FreshFor(st, env)
    ensures
      var st' := AfterAdd(st, meta, sealed, env);
      && Consistent(st')
      && View(st') == (if env.locator.Some? && env.id.Some?
                       then View(st)[env.id.value := Entry(meta.(id := env.id.value), sealed)]
                       else View(st))
      && (env.locator.Some? && env.id.Some? ==> env.id.value !in View(st))
      && (env.locator.None? || (env.id.None? && env.undo) ==> st' == st)
  {
    hide View, Consistent;
    if env.locator.Some? {
      PutIsUnseen(st, env.locator.value, sealed);
      if env.id.Some? {
        PutThenRecord(st, meta, sealed, env.locator.value, env.id.value);
      }
    }
  }

  /** An object no row names yet changes nothing, and dropping it leaves no trace. */
  lemma PutIsUnseen(st: Stores, loc: Locator, sealed: Bytes)
    requires Consistent(st) && loc !in st.objects
    ensures
      var stored := PutObject(st, loc, sealed);
      && Consistent(stored) && Unnamed(stored, loc) && View(stored) == View(st) && DropObject(stored, loc) == st
  {
    ViewOfPutObject(st, loc, sealed);
    PutKeepsConsistent(st, loc, sealed);
    hide View, Consistent;
    assert DropObject(PutObject(st, loc, sealed), loc).objects == st.objects;
  }

  lemma PutKeepsConsistent(st: Stores, loc: Locator, sealed: Bytes)
    requires Consistent(st) && loc !in st.objects
    ensures Consistent(PutObject(st, loc, sealed)) && Unnamed(PutObject(st, loc, sealed), loc)
  {
  }

  lemma PutThenRecord(st: Stores, meta: Metadata, sealed: Bytes, loc: Locator, id: DataId)
    requires Consistent(st) && loc !in st.objects && id !in st.rows
    ensures
      var after := PutRow(PutObject(st, loc, sealed), id, meta, loc);
      && Consistent(after) && id !in View(st)
      && View(after) == View(st)[id := Entry(meta.(id := id), sealed)]
  {
    hide View, Consistent, Unnamed;
    var stored := PutObject(st, loc, sealed);
    PutIsUnseen(st, loc, sealed);
    RowlessIsUnseen(st, id);
    ViewOfPutRow(stored, id, meta, loc);
    RecordingKeepsConsistent(stored, id, meta, loc);
  }

  lemma RowlessIsUnseen(st: Stores, id: DataId)
    requires id !in st.rows
    ensures id !in View(st)
  {
  }

  ghost predicate Unnamed(st: Stores, loc: Locator) {
    forall id :: id in st.rows ==> st.rows[id].loc != loc
  }

  lemma RecordingKeepsConsistent(st: Stores, id: DataId, meta: Metadata, loc: Locator)
    requires Consistent(st) && Unnamed(st, loc) && loc in st.objects && id !in st.rows
    ensures Consistent(PutRow(st, id, meta, loc))
  {
  }

  /** Delete past its check. A metadata delete of an unknown id fails. */
  function AfterDelete(st: Stores, id: DataId, rowOk: bool, objectOk: bool): Stores {
    if !rowOk || id !in st.rows then st
    else if objectOk then DropObject(DropRow(st, id), st.rows[id].loc)
    else DropRow(st, id)
  }

  /** The entry is removed exactly when the metadata delete succeeds, whatever becomes of the
      object; no other entry changes, and an object is left over exactly when its delete failed. */
  lemma DeleteKeepsVault(st: Stores, id: DataId, rowOk: bool, objectOk: bool)
    requires Consistent(st)
    ensures
      var st' := AfterDelete(st, id, rowOk, objectOk);
      && Consistent(st')
      && View(st') == (if rowOk then View(st) - {id} else View(st))
      && |st'.objects| - |st'.rows| == |st.objects| - |st.rows| + (if rowOk && id in st.rows && !objectOk then 1 else 0)
  {
    if rowOk {
      ViewOfDropRow(st, id);
      if id !in st.rows {
        assert View(st) - {id} == View(st);
      } else {
        var unlinked := DropRow(st, id);
        var loc := st.rows[id].loc;
        assert forall other :: other in unlinked.rows ==> unlinked.rows[other].loc != loc;
        ViewOfDropObject(unlinked, loc);
        SizeRemove(st.rows, id);
        SizeRemove(st.objects, loc);
      }
    }
  }

  // ---- The same calls in the concurrent protocol ----

  /** An AddSealed whose store calls follow each other undisturbed is one schedule of the protocol. */
  lemma AddIsASchedule(s: State, pid: Pid, user: UserId, meta: Metadata, sealed: Bytes, env: AddEnv)
    requires pid !in s.procs && Acceptable(user, Some(meta), sealed)
    requires (env.locator.Some? ==> env.locator.value !in s.issued) && (env.id.Some? ==> env.id.value !in s.born)
    ensures
      var s2 := Step(Step(s, CallAdd(pid, user, Some(meta), sealed)), ObjectPut(pid, env.locator));
      var after := AfterAdd(s.st, meta.(userId := user), sealed, env);
      if env.locator.None? then s2.procs[pid] == Done(Failed) && s2.st == after
      else
        var s3 := Step(s2, RowPut(pid, env.id));
        if env.id.Some? then s3.procs[pid] == Done(Added(env.id.value)) && s3.st == after
        else
          var s4 := Step(s3, Undo(pid, env.undo));
          s4.procs[pid] == Done(Failed) && s4.st == after
  {
  }

  lemma DeleteIsASchedule(s: State, pid: Pid, id: DataId, rowOk: bool, objectOk: bool)
    requires pid !in s.procs && id != ""
    ensures
      var applied := rowOk && id in s.st.rows;
      var s2 := Step(Step(s, CallDelete(pid, id)), RowDelete(pid, applied, applied));
      var after := AfterDelete(s.st, id, rowOk, objectOk);
      if !applied then s2.procs[pid] == Done(Failed) && s2.st == after
      else
        var s3 := Step(s2, ObjectDelete(pid, objectOk));
        s3.procs[pid] == Done(if objectOk then Deleted else Failed) && s3.st == after
  {
  }

  /** A Delete whose metadata delete took effect unheard fails, with its entry gone and its object left. */
  lemma LostDeleteIsASchedule(s: State, pid: Pid, id: DataId)
    requires pid !in s.procs && id != "" && id in s.st.rows
    ensures
      var s2 := Step(Step(s, CallDelete(pid, id)), RowDelete(pid, true, false));
      && s2.procs[pid] == Done(Failed) && s2.leaked == s.leaked + 1
      && s2.st == AfterDelete(s.st, id, true, false)
  {
  }

  /** A GetSealed of an id that has a row delivers that row's columns and its object; an error of
      either store is an error. */
  lemma GetIsASchedule(s: State, pid: Pid, id: DataId, rowOk: bool, loadOk: bool)
    requires pid !in s.procs && id != ""
    ensures
      var found := rowOk && id in s.st.rows;
      var s2 := Step(Step(s, CallGet(pid, id)), RowGet(pid, found));
      if !found then s2.procs[pid] == Done(Failed) && s2.st == s.st
      else
        var row, s3 := s.st.rows[id], Step(s2, ObjectGet(pid, loadOk));
        var meta := Metadata(id, "", row.meta.dataType, row.meta.name, row.meta.description);
        && s3.st == s.st
        && s3.procs[pid]
           == Done(if loadOk then Delivered(Item(id, meta, row.loc), Contents(s.st, row.loc)) else Failed)
  {
  }

  /** A List succeeds with all rows of its user, unless the store fails. */
  lemma ListIsASchedule(s: State, pid: Pid, user: UserId, ids: Option<seq<DataId>>)
    requires pid !in s.procs && user != "" && (ids.Some? ==> IdsOf(s.st.rows, user, ids.value))
    ensures
      var s2 := Step(Step(s, CallList(pid, user)), RowList(pid, ids));
      && s2.st == s.st && s2.procs[pid].Done?
      && if ids.None? then s2.procs[pid].result == Failed
         else s2.procs[pid].result.Listed? && ListsAll(s.st.rows, user, s2.procs[pid].result.items)
  {
    if ids.Some? {
      ItemsShowRows(s.st.rows, user, ids.value);
    }
  }

  /** Calls with empty or unacceptable arguments fail at once. */
  lemma BadArgumentsFail(s: State, pid: Pid, user: UserId, meta: Option<Metadata>, sealed: Bytes, mode: int)
    requires pid !in s.procs
    ensures !Acceptable(user, meta, sealed) ==> Step(s, CallAdd(pid, user, meta, sealed)).procs[pid] == Done(Failed)
    ensures Step(s, CallDelete(pid, "")).procs[pid] == Done(Failed) == Step(s, CallGet(pid, "")).procs[pid]
    ensures Step(s, CallList(pid, "")).procs[pid] == Done(Failed) == Step(s, CallSync(pid, "", mode)).procs[pid]
  {
  }

  predicate Loads(env: LoadEnv) {
    env.open && env.read && env.close
  }

  /** How far Sync gets through a list of n items from item i on, and whether it succeeds. */
  function Progress(mode: int, n: nat, env: nat -> ItemEnv, i: nat): (nat, bool)
    requires i <= n
    decreases n - i
  {
    if i == n then (i, true)
    else if env(i).cancelled || mode != SYNC_MODE_SHORT || !Loads(env(i).load) then (i, false)
    else if !env(i).callback then (i + 1, false)
    else Progress(mode, n, env, i + 1)
  }

  predicate Smooth(env: ItemEnv) {
    !env.cancelled && Loads(env.load) && env.callback
  }

  /** In short mode success means the whole list, and comes exactly when every item goes through;
      in any other mode there is no callback, and success exactly on an empty list. */
  lemma {:induction false} ProgressMeaning(mode: int, n: nat, env: nat -> ItemEnv, i: nat)
    requires i <= n
    ensures
      var (delivered, ok) := Progress(mode, n, env, i);
      && i <= delivered <= n
      && (ok ==> delivered == n)
      && (mode == SYNC_MODE_SHORT ==> (ok <==> forall k :: i <= k < n ==> Smooth(env(k))))
      && (mode != SYNC_MODE_SHORT ==> delivered == i && (ok <==> i == n))
    decreases n - i
  {
    if i < n {
      if Smooth(env(i)) && mode == SYNC_MODE_SHORT {
        ProgressMeaning(mode, n, env, i + 1);
      }
    }
  }

  /** Where the loop of Sync stops: at its end, after a callback that failed, or before an item; and it
      gets past an item in short mode only. */
  lemma {:induction false} ProgressEnds(mode: int, n: nat, env: nat -> ItemEnv, i: nat)
    requires i <= n
    ensures
      var (delivered, ok) := Progress(mode, n, env, i);
      && i <= delivered <= n && (delivered > i ==> mode == 1)
      && (ok ==> delivered == n)
      && (!ok ==> delivered < n || (delivered > i && !env(delivered - 1).callback))
    decreases n - i
  {
    if i < n && Smooth(env(i)) && mode == SYNC_MODE_SHORT {
      ProgressEnds(mode, n, env, i + 1);
    }
  }

  /** What the callback is given of the first n items. */
  function Loaded(st: Stores, items: seq<Item>, n: nat): (r: seq<Bytes>)
    requires n <= |items|
    ensures |r| == n
  {
    if n == 0 then [] else Loaded(st, items, n - 1) + [Contents(st, items[n - 1].loc)]
  }

  ghost function SendAll(s: State, pid: Pid, mode: int, items: seq<Item>, n: nat): (s': State)
    requires pid in s.procs && s.procs[pid] == Syncing(mode, items, []) && n <= |items| && (n > 0 ==> mode == 1)
    ensures pid in s'.procs && s'.procs[pid] == Syncing(mode, items, Loaded(s.st, items, n)) && s'.st == s.st
  {
    if n == 0 then s else Step(SendAll(s, pid, mode, items, n - 1), SyncSend(pid, true))
  }

  /** The step that ends a Sync which is to send its next item, if there is one. */
  predicate EndsSync(p: Phase, a: Action)
    requires p.Syncing?
  {
    || (a.SyncEnd? && |p.sent| == |p.items|)
    || (a.SyncStop? && |p.sent| < |p.items|)
    || (a.SyncSend? && !a.callback && |p.sent| < |p.items| && p.mode == 1)
  }

  lemma LastOfSync(s: State, a: Action)
    requires a.pid in s.procs && s.procs[a.pid].Syncing? && EndsSync(s.procs[a.pid], a)
    ensures Enabled(s, a)
    ensures
      var p, s' := s.procs[a.pid], Step(s, a);
      && a.pid in s'.procs && s'.st == s.st
      && s'.procs[a.pid] == Done(Synced(a.SyncEnd?, p.mode, p.items,
           if a.SyncSend? then p.sent + [Contents(s.st, p.items[|p.sent|].loc)] else p.sent))
  {
  }

  /** However far the loop of Sync gets, some schedule of the protocol gets as far: n items sent, then
      a last step. */
  lemma SyncItemsIsASchedule(s: State, pid: Pid, mode: int, items: seq<Item>, env: nat -> ItemEnv)
    returns (n: nat, a: Action)
    requires pid in s.procs && s.procs[pid] == Syncing(mode, items, [])
    ensures n <= |items| && (n > 0 ==> mode == 1) && Enabled(SendAll(s, pid, mode, items, n), a)
    ensures
      var (delivered, ok) := Progress(mode, |items|, env, 0);
      var last := Step(SendAll(s, pid, mode, items, n), a);
      && delivered <= |items| && pid in last.procs && last.st == s.st
      && last.procs[pid] == Done(Synced(ok, mode, items, Loaded(s.st, items, delivered)))
  {
    hide Step, Enabled, Progress, SendAll;
    var (delivered, ok) := Progress(mode, |items|, env, 0);
    ProgressEnds(mode, |items|, env, 0);
    if ok {
      n, a := delivered, SyncEnd(pid);
    } else if delivered > 0 && !env(delivered - 1).callback {
      n, a := delivered - 1, SyncSend(pid, false);
    } else {
      n, a := delivered, SyncStop(pid);
    }
    LastOfSync(SendAll(s, pid, mode, items, n), a);
  }

  /** A Sync whose steps follow each other undisturbed is such a schedule, from its call on. */
  lemma SyncIsASchedule(s: State, pid: Pid, user: UserId, mode: int, ids: seq<DataId>, env: nat -> ItemEnv)
    returns (n: nat, a: Action)
    requires pid !in s.procs && user != "" && IdsOf(s.st.rows, user, ids)
    ensures
      var s2 := Step(Step(s, CallSync(pid, user, mode)), RowList(pid, Some(ids)));
      var items := ItemsOf(s.st.rows, ids);
      var (delivered, ok) := Progress(mode, |items|, env, 0);
      && ListsAll(s.st.rows, user, items) && delivered <= |items|
      && pid in s2.procs && s2.procs[pid] == Syncing(mode, items, []) && s2.st == s.st
      && n <= |items| && (n > 0 ==> mode == 1) && Enabled(SendAll(s2, pid, mode, items, n), a)
      && var last := Step(SendAll(s2, pid, mode, items, n), a);
         && pid in last.procs && last.st == s.st
         && last.procs[pid] == Done(Synced(ok, mode, items, Loaded(s.st, items, delivered)))
  {
    var items := ItemsOf(s.st.rows, ids);
    ItemsShowRows(s.st.rows, user, ids);
    ProgressEnds(mode, |items|, env, 0);
    var s2 := Step(Step(s, CallSync(pid, user, mode)), RowList(pid, Some(ids)));
    assert s2.procs[pid] == Syncing(mode, items, []) && s2.st == s.st;
    hide Step, Enabled, Progress, SendAll, IdsOf;
    n, a := SyncItemsIsASchedule(s2, pid, mode, items, env);
  }

  class Service {
    const objectRepo: ObjectRepo
    const metadataRepo: MetadataRepo

    constructor (o: ObjectRepo, m: MetadataRepo)
      ensures objectRepo == o && metadataRepo == m
    {
      objectRepo, metadataRepo := o, m;
    }

    function Now(): Stores
      reads objectRepo, metadataRepo
    {
      Stores(objectRepo.objects, metadataRepo.rows)
    }

    /** The abstract map of the current stores. */
    function Entries(): map<DataId, Entry>
      reads objectRepo, metadataRepo
    {
      View(Now())
    }

    ghost predicate Valid()
      reads objectRepo, metadataRepo
    {
      Consistent(Now())
    }

    method AddSealed(user: UserId, meta: MetadataBox?, sealed: Bytes, env: AddEnv) returns (r: Option<DataId>)
      requires Valid() && FreshFor(Now(), env)
      modifies objectRepo, metadataRepo, meta
      ensures Valid()
      ensures
        var given := if meta == null then None else Some(old(meta.value));
        if Acceptable(user, given, sealed) then
          && meta.value == old(meta.value).(userId := user)
          && Now() == AfterAdd(old(Now()), meta.value, sealed, env)
          && r == (if env.locator.Some? then env.id else None)
          && Entries() == (if r.Some?
                           then old(Entries())[r.value := Entry(meta.value.(id := r.value), sealed)]
                           else old(Entries()))
        else
          r.None? && Now() == old(Now()) && (meta != null ==> meta.value == old(meta.value))
    {
      hide View, Consistent, FreshFor;
      if user == "" {
        return None;
      }
      if meta == null {
        return None;
      }
      if |sealed| == 0 {
        return None;
      }
      if !Supported(meta.value.dataType) {
        return None;
      }
      meta.value := meta.value.(userId := user);
      AddKeepsVault(Now(), meta.value, sealed, env);
      var loc := objectRepo.Put(sealed, env.locator);
      if loc.None? {
        return None;
      }
      r := metadataRepo.Put(meta.value, loc.value, env.id);
      if r.None? {
        var _ := objectRepo.Delete(loc.value, env.undo);
      }
      assert Now() == AfterAdd(old(Now()), meta.value, sealed, env);
    }

    /** getSealedHelper: an error in opening, reading or closing is an error. */
    method Load(loc: Locator, env: LoadEnv) returns (r: Option<Bytes>)
      ensures r == if Loads(env) then Some(Contents(Now(), loc)) else None
    {
      var stream := objectRepo.Get(loc, env.open);
      if stream.None? {
        return None;
      }
      var sealed := if env.read then stream else None;
      r := if env.close then sealed else None;
    }

    /** At most one callback, with exactly the entry of that id; success means it was made. */
    method GetSealed(id: DataId, callback: Callback, rowOk: bool, load: LoadEnv, callbackOk: bool) returns (ok: bool)
      requires Valid()
      modifies callback
      ensures || callback.trace == old(callback.trace)
              || (id in Entries() && callback.trace == old(callback.trace) + [Visible(id, Entries()[id])])
      ensures ok ==> callback.trace != old(callback.trace)
      ensures ok <==> id != "" && id in Entries() && rowOk && Loads(load) && callbackOk
    {
      if id == "" {
        return false;
      }
      var item := metadataRepo.Get(id, rowOk);
      if item.None? {
        return false;
      }
      var sealed := Load(item.value.loc, load);
      if sealed.None? {
        return false;
      }
      ok := callback.Invoke(item.value.meta, sealed.value, callbackOk);
    }

    method List(user: UserId, listOk: bool) returns (r: Option<seq<Item>>)
      ensures r.Some? <==> user != "" && listOk
      ensures r.Some? ==> ListsAll(metadataRepo.rows, user, r.value)
    {
      if user == "" {
        return None;
      }
      r := metadataRepo.ListByUser(user, listOk);
    }

    method Delete(id: DataId, rowOk: bool, objectOk: bool) returns (ok: bool)
      requires Valid()
      modifies objectRepo, metadataRepo
      ensures Valid()
      ensures Now() == if id == "" then old(Now()) else AfterDelete(old(Now()), id, rowOk, objectOk)
      ensures Entries() == if id != "" && rowOk then old(Entries()) - {id} else old(Entries())
      ensures ok <==> id != "" && id in old(metadataRepo.rows) && rowOk && objectOk
    {
      hide View, Consistent;
      if id == "" {
        return false;
      }
      DeleteKeepsVault(Now(), id, rowOk, objectOk);
      var loc := metadataRepo.Delete(id, rowOk);
      if loc.None? {
        assert Now() == old(Now());
        return false;
      }
      ok := objectRepo.Delete(loc.value, objectOk);
      assert Now() == AfterDelete(old(Now()), id, rowOk, objectOk);
    }

    /** The loop of Sync over the listed items. */
    method SyncItems(mode: int, callback: Callback, items: seq<Item>, env: nat -> ItemEnv,
                     ghost view: map<DataId, Entry>, ghost ids: seq<DataId>)
      returns (ok: bool, delivered: nat)
      requires Shows(Now(), view, ids, items)
      modifies callback
      ensures (delivered, ok) == Progress(mode, |ids|, env, 0) && delivered <= |ids|
      ensures callback.trace == old(callback.trace) + Pairs(view, ids[..delivered])
    {
      delivered := 0;
      while delivered < |items|
        invariant delivered <= |items|
        invariant callback.trace == old(callback.trace) + Pairs(view, ids[..delivered])
        invariant Progress(mode, |ids|, env, 0) == Progress(mode, |ids|, env, delivered)
      {
        var i := delivered;
        if env(i).cancelled {
          return false, delivered;
        }
        if mode != SYNC_MODE_SHORT {
          return false, delivered;
        }
        var sealed := Load(items[i].loc, env(i).load);
        if sealed.None? {
          return false, delivered;
        }
        PairsStep(view, ids, i);
        var sent := callback.Invoke(items[i].meta, sealed.value, env(i).callback);
        delivered := i + 1;
        if !sent {
          return false, delivered;
        }
      }
      ok := true;
    }

    /** What the callback has seen is always a prefix of the user's list, in order, each item with
        its own object's bytes. */
    method Sync(user: UserId, mode: int, callback: Callback, listOk: bool, env: nat -> ItemEnv)
      returns (ok: bool, ghost ids: seq<DataId>, delivered: nat)
      requires Valid()
      modifies callback
      ensures user == "" || !listOk ==> !ok && delivered == 0 && ids == []
      ensures user != "" && listOk ==>
        IdsOf(metadataRepo.rows, user, ids) && (delivered, ok) == Progress(mode, |ids|, env, 0)
      ensures delivered <= |ids| && (forall i :: 0 <= i < |ids| ==> ids[i] in Entries())
      ensures callback.trace == old(callback.trace) + Pairs(Entries(), ids[..delivered])
    {
      ids, delivered := [], 0;
      if user == "" {
        return false, ids, delivered;
      }
      var listed := metadataRepo.ListByUser(user, listOk);
      if listed.None? {
        return false, ids, delivered;
      }
      var items := listed.value;
      ids :| IdsOf(metadataRepo.rows, user, ids) && items == ItemsOf(metadataRepo.rows, ids);
      ListedHere(Now(), user, ids);
      ok, delivered := SyncItems(mode, callback, items, env, Entries(), ids);
    }
  }
}
