/** keeper.Service as a concurrent protocol. Objects and metadata live in two stores without a
    common transaction; any number of AddSealed, Delete, GetSealed, List and Sync calls are
    interleaved at every store call, and every store call may fail. */
module Vault {
  import opened Common

  type UserId = string
  type DataId = string
  type Locator = string
  type Pid = nat

  const AUTHENTICATION_CREDENTIALS := "DataTypeAuthenticationCredentials"
  const CARD := "DataTypeCard"
  const BINARY := " DataTypeBinary"

  const SYNC_MODE_SHORT := 1

  datatype Metadata = Metadata(id: DataId, userId: UserId, dataType: string, name: string, description: string)

  datatype Row = Row(meta: Metadata, loc: Locator)

  datatype Stores = Stores(objects: map<Locator, Bytes>, rows: map<DataId, Row>)

  /** What the service promises to keep under one id. */
  datatype Entry = Entry(meta: Metadata, bytes: Bytes)

  /** A row as the metadata store hands it out. */
  datatype Item = Item(id: DataId, meta: Metadata, loc: Locator)

  /** Every row names a live object, and no two rows name the same one. */
  ghost predicate Consistent(st: Stores) {
    && (forall id :: id in st.rows ==> st.rows[id].loc in st.objects)
    && (forall a, b :: a in st.rows && b in st.rows && st.rows[a].loc == st.rows[b].loc ==> a == b)
  }

  /** The one abstract map behind the two stores. */
  function View(st: Stores): map<DataId, Entry> {
    map id | id in st.rows && st.rows[id].loc in st.objects :: Entry(st.rows[id].meta, st.objects[st.rows[id].loc])
  }

  predicate Supported(dataType: string) {
    dataType == AUTHENTICATION_CREDENTIALS || dataType == CARD || dataType == BINARY
  }

  /** AddSealed's own checks. */
  predicate Acceptable(user: UserId, meta: Option<Metadata>, sealed: Bytes) {
    user != "" && meta.Some? && sealed != [] && Supported(meta.value.dataType)
  }

  /** The metadata repository answers without the owner. */
  function Shown(id: DataId, meta: Metadata): Metadata {
    meta.(id := id, userId := "")
  }

  function ItemOf(id: DataId, row: Row): Item {
    Item(id, Shown(id, row.meta), row.loc)
  }

  /** ids are the user's rows, each once. */
  ghost predicate IdsOf(rows: map<DataId, Row>, user: UserId, ids: seq<DataId>) {
    && (forall id :: id in ids <==> id in rows && rows[id].meta.userId == user)
    && (forall i, j :: 0 <= i < j < |ids| ==> ids[i] != ids[j])
  }

  // ---- Store calls ----

  function PutObject(st: Stores, loc: Locator, sealed: Bytes): Stores {
    st.(objects := st.objects[loc := sealed])
  }

  /** The metadata store assigns the id. */
  function PutRow(st: Stores, id: DataId, meta: Metadata, loc: Locator): Stores {
    st.(rows := st.rows[id := Row(meta.(id := id), loc)])
  }

  function DropObject(st: Stores, loc: Locator): Stores {
    st.(objects := st.objects - {loc})
  }

  function DropRow(st: Stores, id: DataId): Stores {
    st.(rows := st.rows - {id})
  }

  /** Reading a locator that is gone gives an empty stream, as the Postgres store does. */
  function Contents(st: Stores, loc: Locator): Bytes {
    if loc in st.objects then st.objects[loc] else []
  }

  function ItemsOf(rows: map<DataId, Row>, ids: seq<DataId>): seq<Item>
    requires forall i :: 0 <= i < |ids| ==> ids[i] in rows
  {
    seq(|ids|, i requires 0 <= i < |ids| => ItemOf(ids[i], rows[ids[i]]))
  }

  /** The item shows its row, column by column. */
  ghost predicate ShowsRow(rows: map<DataId, Row>, item: Item) {
    && item.id in rows && item.loc == rows[item.id].loc
    && var m := rows[item.id].meta; item.meta == Metadata(item.id, "", m.dataType, m.name, m.description)
  }

  /** items shows every row of the user exactly once. */
  ghost predicate ListsAll(rows: map<DataId, Row>, user: UserId, items: seq<Item>) {
    && (exists ids :: IdsOf(rows, user, ids) && items == ItemsOf(rows, ids))
    && (forall i :: 0 <= i < |items| ==> ShowsRow(rows, items[i]))
  }

  lemma ItemsShowRows(rows: map<DataId, Row>, user: UserId, ids: seq<DataId>)
    requires IdsOf(rows, user, ids)
    ensures ListsAll(rows, user, ItemsOf(rows, ids))
  {
    forall i | 0 <= i < |ids| ensures ShowsRow(rows, ItemsOf(rows, ids)[i]) {
      assert ids[i] in ids;
    }
  }

  lemma ViewOfPutObject(st: Stores, loc: Locator, sealed: Bytes)
    requires Consistent(st) && loc !in st.objects
    ensures View(PutObject(st, loc, sealed)) == View(st)
  {
  }

  lemma ViewOfPutRow(st: Stores, id: DataId, meta: Metadata, loc: Locator)
    requires id !in st.rows && loc in st.objects
    ensures View(PutRow(st, id, meta, loc)) == View(st)[id := Entry(meta.(id := id), st.objects[loc])]
  {
  }

  lemma ViewOfDropObject(st: Stores, loc: Locator)
    requires forall id :: id in st.rows ==> st.rows[id].loc != loc
    ensures View(DropObject(st, loc)) == View(st)
  {
  }

  lemma ViewOfDropRow(st: Stores, id: DataId)
    ensures View(DropRow(st, id)) == View(st) - {id}
  {
  }

  // ---- Calls in progress ----

  /** A finished Sync has called back with the metadata of items[k] and the bytes sent[k], k < |sent|. */
  datatype Result =
    | Failed
    | Added(id: DataId)
    | Deleted
    | Delivered(item: Item, bytes: Bytes)
    | Listed(items: seq<Item>)
    | Synced(ok: bool, mode: int, items: seq<Item>, sent: seq<Bytes>)

  /** The store call each process is about to make. */
  datatype Phase =
    | Putting(meta: Metadata, sealed: Bytes)
    | Recording(meta: Metadata, sealed: Bytes, loc: Locator)
    | Undoing(loc: Locator)
    | Unlinking(id: DataId)
    | Dropping(id: DataId, loc: Locator)
    | Locating(id: DataId)
    | Loading(item: Item)
    | Listing(user: UserId, sync: Option<int>)
    | Syncing(mode: int, items: seq<Item>, sent: seq<Bytes>)
    | Done(result: Result)

  datatype Birth = Birth(entry: Entry, loc: Locator, adder: Pid)

  /** `issued` are the locators ever given out, `born` the entries ever recorded, `leaked` the
      number of objects left behind by failed deletes. */
  datatype State = State(
    st: Stores, procs: map<Pid, Phase>, issued: set<Locator>, born: map<DataId, Birth>, leaked: nat)

  datatype Action =
    | CallAdd(pid: Pid, user: UserId, meta: Option<Metadata>, sealed: Bytes)
    | CallDelete(pid: Pid, id: DataId)
    | CallGet(pid: Pid, id: DataId)
    | CallList(pid: Pid, user: UserId)
    | CallSync(pid: Pid, user: UserId, mode: int)
    | ObjectPut(pid: Pid, locator: Option<Locator>)
    | RowPut(pid: Pid, grant: Option<DataId>)
    | Undo(pid: Pid, ok: bool)
    | RowDelete(pid: Pid, applied: bool, ok: bool)
    | ObjectDelete(pid: Pid, ok: bool)
    | RowGet(pid: Pid, ok: bool)
    | ObjectGet(pid: Pid, ok: bool)
    | RowList(pid: Pid, ids: Option<seq<DataId>>)
    | SyncSend(pid: Pid, callback: bool)
    | SyncStop(pid: Pid)
    | SyncEnd(pid: Pid)

  predicate IsCall(a: Action) {
    a.CallAdd? || a.CallDelete? || a.CallGet? || a.CallList? || a.CallSync?
  }

  /** The store calls answer for the state they find: fresh locators and ids, a row delete only
      where there is a row, acknowledged only if it took effect, a listing of the user's rows.
      Sync stops at any item when its context is done, a load fails, or the mode is not the short
      one; it sends in short mode only, and ends after the last item. */
  ghost predicate Enabled(s: State, a: Action) {
    if IsCall(a) then a.pid !in s.procs
    else
      && a.pid in s.procs
      && var p := s.procs[a.pid];
         match a
         case ObjectPut(_, locator) => p.Putting? && (locator.Some? ==> locator.value !in s.issued)
         case RowPut(_, grant) => p.Recording? && (grant.Some? ==> grant.value !in s.born)
         case Undo(_, _) => p.Undoing?
         case RowDelete(_, applied, ok) => p.Unlinking? && (ok ==> applied) && (applied ==> p.id in s.st.rows)
         case ObjectDelete(_, _) => p.Dropping?
         case RowGet(_, ok) => p.Locating? && (ok ==> p.id in s.st.rows)
         case ObjectGet(_, _) => p.Loading?
         case RowList(_, ids) => p.Listing? && (ids.Some? ==> IdsOf(s.st.rows, p.user, ids.value))
         case SyncSend(_, _) => p.Syncing? && |p.sent| < |p.items| && p.mode == SYNC_MODE_SHORT
         case SyncStop(_) => p.Syncing? && |p.sent| < |p.items|
         case SyncEnd(_) => p.Syncing? && |p.sent| == |p.items|
         case _ => false
  }

  function Go(s: State, pid: Pid, p: Phase): State {
    s.(procs := s.procs[pid := p])
  }

  /** The first phase of a call: its own checks. */
  function Begin(a: Action): Phase
    requires IsCall(a)
  {
    match a
    case CallAdd(_, user, meta, sealed) =>
      if Acceptable(user, meta, sealed) then Putting(meta.value.(userId := user), sealed) else Done(Failed)
    case CallDelete(_, id) => if id == "" then Done(Failed) else Unlinking(id)
    case CallGet(_, id) => if id == "" then Done(Failed) else Locating(id)
    case CallList(_, user) => if user == "" then Done(Failed) else Listing(user, None)
    case CallSync(_, user, mode) => if user == "" then Done(Failed) else Listing(user, Some(mode))
  }

  /** Steps that change a store or what was ever recorded. */
  predicate IsWrite(a: Action) {
    a.ObjectPut? || a.RowPut? || a.Undo? || a.RowDelete? || a.ObjectDelete?
  }

  /** The next phase of a call that only reads. */
  ghost function AfterRead(s: State, a: Action): Phase
    requires Enabled(s, a) && !IsCall(a) && !IsWrite(a)
  {
    var p := s.procs[a.pid];
    match a
    case RowGet(_, ok) => if ok then Loading(ItemOf(p.id, s.st.rows[p.id])) else Done(Failed)
    case ObjectGet(_, ok) => if ok then Done(Delivered(p.item, Contents(s.st, p.item.loc))) else Done(Failed)
    case RowList(_, ids) =>
      if ids.None? then Done(Failed)
      else if p.sync.None? then Done(Listed(ItemsOf(s.st.rows, ids.value)))
      else Syncing(p.sync.value, ItemsOf(s.st.rows, ids.value), [])
    case SyncSend(_, callback) =>
      var sent := p.sent + [Contents(s.st, p.items[|p.sent|].loc)];
      if callback then Syncing(p.mode, p.items, sent) else Done(Synced(false, p.mode, p.items, sent))
    case SyncStop(_) => Done(Synced(false, p.mode, p.items, p.sent))
    case SyncEnd(_) => Done(Synced(true, p.mode, p.items, p.sent))
  }

  ghost function AfterWrite(s: State, a: Action): State
    requires Enabled(s, a) && IsWrite(a)
  {
    var p := s.procs[a.pid];
    match a
    case ObjectPut(pid, locator) =>
      if locator.None? then Go(s, pid, Done(Failed))
      else Go(s, pid, Recording(p.meta, p.sealed, locator.value))
           .(st := PutObject(s.st, locator.value, p.sealed), issued := s.issued + {locator.value})
    case RowPut(pid, grant) =>
      if grant.None? then Go(s, pid, Undoing(p.loc))
      else Go(s, pid, Done(Added(grant.value)))
           .(st := PutRow(s.st, grant.value, p.meta, p.loc),
             born := s.born[grant.value := Birth(Entry(p.meta.(id := grant.value), p.sealed), p.loc, pid)])
    case Undo(pid, ok) =>
      if ok then Go(s, pid, Done(Failed)).(st := DropObject(s.st, p.loc))
      else Go(s, pid, Done(Failed)).(leaked := s.leaked + 1)
    case RowDelete(pid, applied, ok) =>
      if !applied then Go(s, pid, Done(Failed))
      else if ok then Go(s, pid, Dropping(p.id, s.st.rows[p.id].loc)).(st := DropRow(s.st, p.id))
      else Go(s, pid, Done(Failed)).(st := DropRow(s.st, p.id), leaked := s.leaked + 1)
    case ObjectDelete(pid, ok) =>
      if ok then Go(s, pid, Done(Deleted)).(st := DropObject(s.st, p.loc))
      else Go(s, pid, Done(Failed)).(leaked := s.leaked + 1)
  }

  ghost function Step(s: State, a: Action): State
    requires Enabled(s, a)
  {
    if IsCall(a) then Go(s, a.pid, Begin(a))
    else if IsWrite(a) then AfterWrite(s, a)
    else Go(s, a.pid, AfterRead(s, a))
  }

  const EMPTY := State(Stores(map[], map[]), map[], {}, map[], 0)

  ghost predicate Run(actions: seq<Action>, states: seq<State>) {
    && |states| == |actions| + 1
    && states[0] == EMPTY
    && (forall i {:trigger actions[i]} :: 0 <= i < |actions| ==>
          Enabled(states[i], actions[i]) && states[i + 1] == Step(states[i], actions[i]))
  }

  // ---- The invariant ----

  /** The object a call is responsible for: stored, but not, or no longer, named by a row. */
  predicate Holds(p: Phase) {
    p.Recording? || p.Undoing? || p.Dropping?
  }

  /** It is there, with the bytes to be recorded if it is still to be recorded. */
  ghost predicate HeldLive(s: State) {
    forall p :: p in s.procs && Holds(s.procs[p]) ==>
      && s.procs[p].loc in s.st.objects
      && (s.procs[p].Recording? ==> s.st.objects[s.procs[p].loc] == s.procs[p].sealed)
  }

  ghost predicate HeldOnce(s: State) {
    forall p, q :: p in s.procs && q in s.procs && p != q && Holds(s.procs[p]) && Holds(s.procs[q]) ==>
      s.procs[p].loc != s.procs[q].loc
  }

  /** What is still to be recorded, or never will be, was recorded by no one else. */
  ghost predicate HeldUnrecorded(s: State) {
    forall p, id :: p in s.procs && (s.procs[p].Recording? || s.procs[p].Undoing?) && id in s.born ==>
      s.procs[p].loc != s.born[id].loc
  }

  /** What is being dropped is the object of an entry that has no row any more. */
  ghost predicate DroppedUnlinked(s: State) {
    forall p :: p in s.procs && s.procs[p].Dropping? ==>
      && s.procs[p].id in s.born && s.procs[p].id !in s.st.rows
      && s.procs[p].loc == s.born[s.procs[p].id].loc
  }

  /** AddSealed takes no empty data. */
  ghost predicate AddingSome(s: State) {
    forall p :: p in s.procs && (s.procs[p].Putting? || s.procs[p].Recording?) ==> s.procs[p].sealed != []
  }

  /** A row is as it was recorded, and its object is there. */
  ghost predicate RowsBorn(s: State) {
    forall id :: id in s.st.rows ==>
      id in s.born && s.st.rows[id] == Row(s.born[id].entry.meta, s.born[id].loc) && s.born[id].loc in s.st.objects
  }

  /** Recorded objects hold the recorded bytes as long as they are there, and are recorded once. */
  ghost predicate BornSound(s: State) {
    && s.st.objects.Keys <= s.issued
    && (forall id :: id in s.born ==>
          && s.born[id].loc in s.issued && s.born[id].entry.bytes != []
          && (s.born[id].loc in s.st.objects ==> s.st.objects[s.born[id].loc] == s.born[id].entry.bytes))
    && (forall a, b :: a in s.born && b in s.born && s.born[a].loc == s.born[b].loc ==> a == b)
  }

  /** Each entry has one successful AddSealed behind it, and each such call one entry. */
  ghost predicate BornWereAdded(s: State) {
    forall id :: id in s.born ==> s.born[id].adder in s.procs && s.procs[s.born[id].adder] == Done(Added(id))
  }

  ghost predicate AddedAreBorn(s: State) {
    forall p :: p in s.procs && s.procs[p].Done? && s.procs[p].result.Added? ==>
      s.procs[p].result.id in s.born && s.born[s.procs[p].result.id].adder == p
  }

  /** An item in the hands of a reader is some entry ever recorded. */
  ghost predicate ItemSound(s: State, item: Item) {
    item.id in s.born && item == Item(item.id, Shown(item.id, s.born[item.id].entry.meta), s.born[item.id].loc)
  }

  /** Bytes read for an item: those recorded, or nothing if its object has been deleted since. */
  ghost predicate ReadSound(s: State, item: Item, bytes: Bytes) {
    && ItemSound(s, item)
    && (bytes == s.born[item.id].entry.bytes || (bytes == [] && item.loc !in s.st.objects))
  }

  /** The items a call has been given, and what it has passed on of them. */
  function ItemsIn(p: Phase): seq<Item> {
    match p
    case Loading(item) => [item]
    case Syncing(_, items, _) => items
    case Done(Delivered(item, _)) => [item]
    case Done(Listed(items)) => items
    case Done(Synced(_, _, items, _)) => items
    case _ => []
  }

  function SentIn(p: Phase): seq<Bytes> {
    match p
    case Syncing(_, _, sent) => sent
    case Done(Delivered(_, bytes)) => [bytes]
    case Done(Synced(_, _, _, sent)) => sent
    case _ => []
  }

  ghost predicate PhaseSound(s: State, p: Phase) {
    && |SentIn(p)| <= |ItemsIn(p)|
    && (forall k :: 0 <= k < |ItemsIn(p)| ==> ItemSound(s, ItemsIn(p)[k]))
    && (forall k :: 0 <= k < |SentIn(p)| ==> ReadSound(s, ItemsIn(p)[k], SentIn(p)[k]))
  }

  ghost predicate ReadersSound(s: State) {
    forall p :: p in s.procs ==> PhaseSound(s, s.procs[p])
  }

  function Holders(procs: map<Pid, Phase>): set<Pid> {
    set p | p in procs && Holds(procs[p])
  }

  /** Conservation: every object is named by a row, held by a call, or leaked. */
  ghost predicate Accounted(s: State) {
    |s.st.objects| == |s.st.rows| + |Holders(s.procs)| + s.leaked
  }

  ghost predicate StoresSound(s: State) {
    && HeldLive(s) && HeldOnce(s) && HeldUnrecorded(s) && DroppedUnlinked(s) && AddingSome(s)
    && RowsBorn(s) && BornSound(s)
  }

  ghost predicate Inv(s: State) {
    StoresSound(s) && BornWereAdded(s) && AddedAreBorn(s) && ReadersSound(s) && Accounted(s)
  }

  /** It contains what callers see of it: the stores are consistent. */
  lemma SoundIsConsistent(s: State)
    requires Inv(s)
    ensures Consistent(s.st)
  {
  }

  /** And no row names an object in the hands of a call. */
  lemma HeldIsUnnamed(s: State, p: Pid, id: DataId)
    requires HeldUnrecorded(s) && DroppedUnlinked(s) && RowsBorn(s) && BornSound(s)
    requires p in s.procs && Holds(s.procs[p]) && id in s.st.rows
    ensures s.st.rows[id].loc != s.procs[p].loc
  {
  }

  // ---- Every step keeps it ----

  /** A move that touches no store and holds nothing. */
  lemma QuietMoveKeeps(s: State, pid: Pid, p: Phase)
    requires StoresSound(s) && !Holds(p) && (p.Putting? ==> p.sealed != [])
    ensures StoresSound(Go(s, pid, p))
  {
  }

  lemma WriteKeepsHeldLive(s: State, a: Action)
    requires HeldLive(s) && HeldOnce(s) && RowsBorn(s) && BornSound(s) && Enabled(s, a) && IsWrite(a)
    ensures HeldLive(AfterWrite(s, a))
  {
  }

  lemma WriteKeepsHeldOnce(s: State, a: Action)
    requires StoresSound(s) && Enabled(s, a) && IsWrite(a)
    ensures HeldOnce(AfterWrite(s, a))
  {
  }

  lemma WriteKeepsHeldUnrecorded(s: State, a: Action)
    requires HeldOnce(s) && HeldUnrecorded(s) && BornSound(s) && Enabled(s, a) && IsWrite(a)
    ensures HeldUnrecorded(AfterWrite(s, a))
  {
  }

  lemma WriteKeepsDroppedUnlinked(s: State, a: Action)
    requires DroppedUnlinked(s) && RowsBorn(s) && Enabled(s, a) && IsWrite(a)
    ensures DroppedUnlinked(AfterWrite(s, a))
  {
  }

  lemma WriteKeepsRowsBorn(s: State, a: Action)
    requires HeldLive(s) && HeldUnrecorded(s) && DroppedUnlinked(s) && RowsBorn(s) && BornSound(s)
    requires Enabled(s, a) && IsWrite(a)
    ensures RowsBorn(AfterWrite(s, a))
  {
  }

  lemma WriteKeepsBorn(s: State, a: Action)
    requires StoresSound(s) && Enabled(s, a) && IsWrite(a)
    ensures BornSound(AfterWrite(s, a))
  {
  }

  lemma WriteKeepsAdding(s: State, a: Action)
    requires AddingSome(s) && Enabled(s, a) && IsWrite(a)
    ensures AddingSome(AfterWrite(s, a))
  {
  }

  lemma StepKeepsStores(s: State, a: Action)
    requires StoresSound(s) && Enabled(s, a)
    ensures StoresSound(Step(s, a))
  {
    if IsWrite(a) {
      WriteKeepsHeldLive(s, a);
      WriteKeepsHeldOnce(s, a);
      WriteKeepsHeldUnrecorded(s, a);
      WriteKeepsDroppedUnlinked(s, a);
      WriteKeepsRowsBorn(s, a);
      WriteKeepsBorn(s, a);
      WriteKeepsAdding(s, a);
    } else {
      QuietMoveKeeps(s, a.pid, Step(s, a).procs[a.pid]);
    }
  }

  lemma StepKeepsBornWereAdded(s: State, a: Action)
    requires BornWereAdded(s) && Enabled(s, a)
    ensures BornWereAdded(Step(s, a))
  {
  }

  lemma StepKeepsAddedAreBorn(s: State, a: Action)
    requires AddedAreBorn(s) && Enabled(s, a)
    ensures AddedAreBorn(Step(s, a))
  {
  }

  /** Entries once recorded stay as they are, and an object that is gone stays gone. */
  lemma BornForever(s: State, a: Action)
    requires BornSound(s) && Enabled(s, a)
    ensures forall id :: id in s.born ==> id in Step(s, a).born && Step(s, a).born[id] == s.born[id]
    ensures forall loc :: loc in s.issued && loc !in s.st.objects ==> loc !in Step(s, a).st.objects
  {
  }

  lemma PhaseStaysSound(s: State, s': State, p: Phase)
    requires PhaseSound(s, p) && BornSound(s)
    requires forall id :: id in s.born ==> id in s'.born && s'.born[id] == s.born[id]
    requires forall loc :: loc in s.issued && loc !in s.st.objects ==> loc !in s'.st.objects
    ensures PhaseSound(s', p)
  {
    forall k | 0 <= k < |ItemsIn(p)| ensures ItemSound(s', ItemsIn(p)[k]) {
      assert ItemSound(s, ItemsIn(p)[k]);
    }
    forall k | 0 <= k < |SentIn(p)| ensures ReadSound(s', ItemsIn(p)[k], SentIn(p)[k]) {
      assert ReadSound(s, ItemsIn(p)[k], SentIn(p)[k]);
    }
  }

  lemma ReadItemsSound(s: State, a: Action, k: nat)
    requires RowsBorn(s) && Enabled(s, a) && !IsCall(a) && !IsWrite(a)
    requires PhaseSound(s, s.procs[a.pid]) && k < |ItemsIn(AfterRead(s, a))|
    ensures ItemSound(s, ItemsIn(AfterRead(s, a))[k])
  {
    if !a.RowGet? && !a.RowList? {
      assert ItemsIn(AfterRead(s, a))[k] == ItemsIn(s.procs[a.pid])[k];
    }
  }

  /** What a read adds to a phase is sound: a row is some entry, and a live object holds its bytes. */
  lemma ReadIsSound(s: State, a: Action)
    requires RowsBorn(s) && BornSound(s) && Enabled(s, a) && !IsCall(a) && !IsWrite(a)
    requires PhaseSound(s, s.procs[a.pid])
    ensures PhaseSound(s, AfterRead(s, a))
  {
    var p, p' := s.procs[a.pid], AfterRead(s, a);
    forall k | 0 <= k < |ItemsIn(p')| ensures ItemSound(s, ItemsIn(p')[k]) {
      ReadItemsSound(s, a, k);
    }
    hide RowsBorn;
    forall k | 0 <= k < |SentIn(p')| ensures ReadSound(s, ItemsIn(p')[k], SentIn(p')[k]) {
      if k < |SentIn(p)| {
        assert ReadSound(s, ItemsIn(p)[k], SentIn(p)[k]);
      } else {
        assert ItemSound(s, ItemsIn(p)[k]);
      }
    }
  }

  lemma StepKeepsReaders(s: State, a: Action)
    requires RowsBorn(s) && BornSound(s) && ReadersSound(s) && Enabled(s, a)
    ensures ReadersSound(Step(s, a))
  {
    var s' := Step(s, a);
    BornForever(s, a);
    if !IsCall(a) && !IsWrite(a) {
      ReadIsSound(s, a);
    }
    forall p | p in s'.procs ensures PhaseSound(s', s'.procs[p]) {
      if p != a.pid {
        PhaseStaysSound(s, s', s.procs[p]);
      } else if !IsCall(a) && !IsWrite(a) {
        PhaseStaysSound(s, s', s'.procs[p]);
      }
    }
  }

  lemma SizeAdd<K, V>(m: map<K, V>, k: K, v: V)
    requires k !in m
    ensures |m[k := v]| == |m| + 1
  {
  }

  lemma SizeRemove<K, V>(m: map<K, V>, k: K)
    requires k in m
    ensures |m - {k}| == |m| - 1
  {
  }

  lemma HoldersAfter(procs: map<Pid, Phase>, pid: Pid, p: Phase)
    ensures
      |Holders(procs[pid := p])|
      == |Holders(procs)| - (if pid in procs && Holds(procs[pid]) then 1 else 0) + (if Holds(p) then 1 else 0)
  {
    var before, after := Holders(procs), Holders(procs[pid := p]);
    var others := before - {pid};
    assert before == if pid in procs && Holds(procs[pid]) then others + {pid} else others;
    assert after == if Holds(p) then others + {pid} else others;
  }

  lemma PutKeepsAccount(s: State, a: Action)
    requires RowsBorn(s) && BornSound(s) && Accounted(s) && Enabled(s, a) && (a.ObjectPut? || a.RowPut?)
    ensures Accounted(AfterWrite(s, a))
  {
    HoldersAfter(s.procs, a.pid, AfterWrite(s, a).procs[a.pid]);
    if a.ObjectPut? && a.locator.Some? {
      SizeAdd(s.st.objects, a.locator.value, s.procs[a.pid].sealed);
    } else if a.RowPut? && a.grant.Some? {
      SizeAdd(s.st.rows, a.grant.value, AfterWrite(s, a).st.rows[a.grant.value]);
    }
  }

  lemma DeleteKeepsAccount(s: State, a: Action)
    requires HeldLive(s) && Accounted(s) && Enabled(s, a) && (a.Undo? || a.RowDelete? || a.ObjectDelete?)
    ensures Accounted(AfterWrite(s, a))
  {
    HoldersAfter(s.procs, a.pid, AfterWrite(s, a).procs[a.pid]);
    if a.RowDelete? {
      if a.applied {
        SizeRemove(s.st.rows, s.procs[a.pid].id);
      }
    } else if a.ok {
      SizeRemove(s.st.objects, s.procs[a.pid].loc);
    }
  }

  lemma StepKeepsAccount(s: State, a: Action)
    requires HeldLive(s) && RowsBorn(s) && BornSound(s) && Accounted(s) && Enabled(s, a)
    ensures Accounted(Step(s, a))
  {
    if a.ObjectPut? || a.RowPut? {
      PutKeepsAccount(s, a);
    } else if IsWrite(a) {
      DeleteKeepsAccount(s, a);
    } else {
      HoldersAfter(s.procs, a.pid, Step(s, a).procs[a.pid]);
    }
  }

  lemma StepKeepsInv(s: State, a: Action)
    requires Inv(s) && Enabled(s, a)
    ensures Inv(Step(s, a))
  {
    StepKeepsStores(s, a);
    StepKeepsBornWereAdded(s, a);
    StepKeepsAddedAreBorn(s, a);
    StepKeepsReaders(s, a);
    StepKeepsAccount(s, a);
  }

  lemma EmptyIsSound()
    ensures Inv(EMPTY)
  {
  }

  /** In every reachable state: rows are as recorded and name live objects, calls hold what nobody
      else names, readers have what was recorded or what is gone, and every object is accounted for. */
  lemma {:induction false} RunKeepsInv(actions: seq<Action>, states: seq<State>, i: nat)
    requires Run(actions, states) && i < |states|
    ensures Inv(states[i]) && Consistent(states[i].st)
  {
    hide Inv, Consistent, Step, Enabled;
    if i > 0 {
      RunKeepsInv(actions, states, i - 1);
      StepKeepsInv(states[i - 1], actions[i - 1]);
    } else {
      EmptyIsSound();
    }
    SoundIsConsistent(states[i]);
  }
}
