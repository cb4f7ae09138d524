/** Put followed by Get: what the read query finds, and when the reader gets the data back. */
module SealedGet {
  import opened Common
  import opened Schema
  import opened Retry
  import opened SealedRepo
  import opened SealedLoad
  import opened Pipe

  // ---- The read query ----

  function RowAt(db: Db, o: Uuid, i: int): seq<Fetched> {
    var key := ChunkKey(o, i);
    if key in db.chunks && db.chunks[key].blobId in db.blobs
    then [Fetched(db.blobs[db.chunks[key].blobId].sealed, db.chunks[key].length)]
    else []
  }

  /** chunk_manifest JOIN secret_blobs for one object, in chunk_index order, below n. */
  function RowsBelow(db: Db, o: Uuid, n: nat): seq<Fetched> {
    if n == 0 then [] else RowsBelow(db, o, n - 1) + RowAt(db, o, n - 1)
  }

  function OwnersOf(db: Db, locator: string): set<Uuid> {
    set o | o in db.objects && db.objects[o].locator == locator
  }

  /** The scalar subquery fails on several objects with one locator and finds nothing on none. */
  ghost predicate IsQueryResult(db: Db, locator: string, rows: Option<seq<Fetched>>) {
    var owners := OwnersOf(db, locator);
    && (owners == {} ==> rows == Some([]))
    && (forall o :: owners == {o} ==> rows == Some(RowsBelow(db, o, INT32_LIMIT)))
    && (|owners| > 1 ==> rows == None)
  }

  function AsItems(rows: seq<Fetched>): seq<Item> {
    seq(|rows|, i requires 0 <= i < |rows| => Row(rows[i]))
  }

  // ---- What is found after a load ----

  ghost predicate NoChunksOf(db: Db, o: Uuid) {
    forall c :: c in db.chunks ==> c.objectId != o
  }

  /** The matching chunks among the first n, each with the requested length. */
  function Kept(digest: Digest, job: Job, cs: seq<Bytes>, n: nat): seq<Bytes>
    requires n <= |cs|
  {
    if n == 0 then []
    else Kept(digest, job, cs, n - 1) + (if digest(cs[n - 1]) == job.sha then [cs[n - 1]] else [])
  }

  function WithLength(cs: seq<Bytes>, size: int): seq<Fetched> {
    seq(|cs|, i requires 0 <= i < |cs| => Fetched(cs[i], size))
  }

  lemma RowOfLoaded(db: Db, d: Db, digest: Digest, job: Job, cs: seq<Bytes>, n: nat)
    requires Loaded(db, d, digest, job, cs, |cs|) && NoChunksOf(db, job.objectId)
    requires |cs| <= INT32_LIMIT && n < INT32_LIMIT
    ensures RowAt(d, job.objectId, n)
            == if n < |cs| && digest(cs[n]) == job.sha then [Fetched(cs[n], job.size)] else []
  {
    var key := ChunkKey(job.objectId, n);
    IndexInRange(n);
    if n < |cs| && Matches(digest, job, cs, n) {
      assert Holds(d, job, n, cs[n]);
    } else if key in d.chunks {
      assert key !in db.chunks;
      assert KeyOfSome(digest, job, cs, |cs|, key);
      var i :| 0 <= i < |cs| && Matches(digest, job, cs, i) && key == KeyOf(job, i);
      IndexInRange(i);
      assert false;
    }
  }

  lemma WithLengthSnoc(cs: seq<Bytes>, c: Bytes, size: int)
    ensures WithLength(cs + [c], size) == WithLength(cs, size) + [Fetched(c, size)]
    ensures WithLength(cs + [], size) == WithLength(cs, size) + []
  {
  }

  lemma {:induction false} RowsOfLoaded(db: Db, d: Db, digest: Digest, job: Job, cs: seq<Bytes>, n: nat)
    requires Loaded(db, d, digest, job, cs, |cs|) && NoChunksOf(db, job.objectId)
    requires n <= |cs| <= INT32_LIMIT
    ensures RowsBelow(d, job.objectId, n) == WithLength(Kept(digest, job, cs, n), job.size)
  {
    if n > 0 {
      RowsOfLoaded(db, d, digest, job, cs, n - 1);
      RowOfLoaded(db, d, digest, job, cs, n - 1);
      WithLengthSnoc(Kept(digest, job, cs, n - 1), cs[n - 1], job.size);
    }
  }

  lemma {:induction false} NoRowsBeyond(db: Db, d: Db, digest: Digest, job: Job, cs: seq<Bytes>, n: nat)
    requires Loaded(db, d, digest, job, cs, |cs|) && NoChunksOf(db, job.objectId)
    requires |cs| <= n <= INT32_LIMIT
    ensures RowsBelow(d, job.objectId, n) == RowsBelow(d, job.objectId, |cs|)
  {
    if n > |cs| {
      NoRowsBeyond(db, d, digest, job, cs, n - 1);
      RowOfLoaded(db, d, digest, job, cs, n - 1);
    }
  }

  // ---- Concatenations ----

  lemma ConcatSnoc(cs: seq<Bytes>, c: Bytes)
    ensures Concat(cs + [c]) == Concat(cs) + c
  {
  }

  lemma {:induction false} TextOfRows(cs: seq<Bytes>, size: int)
    ensures Text(AsItems(WithLength(cs, size))) == Concat(cs)
  {
    if cs != [] {
      var front := cs[..|cs| - 1];
      var items := AsItems(WithLength(cs, size));
      assert items[..|items| - 1] == AsItems(WithLength(front, size));
      TextOfRows(front, size);
    }
  }

  lemma SoundRows(cs: seq<Bytes>, size: int)
    ensures AllSound(AsItems(WithLength(cs, size))) <==> AllOfLength(cs, size)
  {
    var items := AsItems(WithLength(cs, size));
    assert forall i :: 0 <= i < |cs| ==> items[i] == Row(Fetched(cs[i], size));
  }

  /** Dropping a non-empty chunk shortens the text, so only keeping all of them keeps its length. */
  lemma {:induction false} KeptLength(digest: Digest, job: Job, cs: seq<Bytes>, n: nat)
    requires n <= |cs| && forall i :: 0 <= i < |cs| ==> |cs[i]| >= 1
    ensures |Concat(Kept(digest, job, cs, n))| <= |Concat(cs[..n])|
    ensures |Concat(Kept(digest, job, cs, n))| == |Concat(cs[..n])|
            ==> forall i :: 0 <= i < n ==> digest(cs[i]) == job.sha
  {
    if n > 0 {
      var kept := Kept(digest, job, cs, n - 1);
      KeptLength(digest, job, cs, n - 1);
      assert cs[..n] == cs[..n - 1] + [cs[n - 1]];
      ConcatSnoc(cs[..n - 1], cs[n - 1]);
      ConcatSnoc(kept, cs[n - 1]);
      assert kept + [] == kept;
    }
  }

  lemma {:induction false} KeptAll(digest: Digest, job: Job, cs: seq<Bytes>, n: nat)
    requires n <= |cs| && forall i :: 0 <= i < n ==> digest(cs[i]) == job.sha
    ensures Kept(digest, job, cs, n) == cs[..n]
  {
    if n > 0 {
      KeptAll(digest, job, cs, n - 1);
      assert cs[..n] == cs[..n - 1] + [cs[n - 1]];
    }
  }

  // ---- The round trip ----

  /** The caller's view of a put that will read back: every chunk has the given digest and the
      size divides the data. */
  ghost predicate Storable(digest: Digest, job: Job, data: Bytes)
    requires job.size >= 1
  {
    var cs := Chunks(data, job.size);
    |data| % job.size == 0 && forall i :: 0 <= i < |cs| ==> digest(cs[i]) == job.sha
  }

  /** A load leaves the object row alone, so the query finds what is filed under it. */
  lemma QueryOfOwner(db: Db, d: Db, digest: Digest, job: Job, env: Statements, data: Bytes,
                     locator: string, rows: Option<seq<Fetched>>)
    requires job.size >= 1 && LoadAll(db, digest, job, env, data) == Active(d)
    requires OwnersOf(db, locator) == {job.objectId} && IsQueryResult(d, locator, rows)
    ensures rows == Some(RowsBelow(d, job.objectId, INT32_LIMIT))
  {
    var cs := Chunks(data, job.size);
    LoadHolds(db, digest, job, env, cs, |cs|);
    assert OwnersOf(d, locator) == OwnersOf(db, locator);
  }

  /** The rows found after a load are the matching chunks. */
  lemma QueryAfterLoad(db: Db, d: Db, digest: Digest, job: Job, env: Statements, data: Bytes,
                       locator: string, rows: Option<seq<Fetched>>)
    requires job.size >= 1 && |Chunks(data, job.size)| <= INT32_LIMIT
    requires LoadAll(db, digest, job, env, data) == Active(d)
    requires NoChunksOf(db, job.objectId) && OwnersOf(db, locator) == {job.objectId}
    requires IsQueryResult(d, locator, rows)
    ensures rows == Some(KeptRows(digest, job, data))
  {
    var cs := Chunks(data, job.size);
    LoadHolds(db, digest, job, env, cs, |cs|);
    QueryOfOwner(db, d, digest, job, env, data, locator, rows);
    RowsOfLoaded(db, d, digest, job, cs, |cs|);
    NoRowsBeyond(db, d, digest, job, cs, INT32_LIMIT);
  }

  function KeptRows(digest: Digest, job: Job, data: Bytes): seq<Fetched>
    requires job.size >= 1
  {
    var cs := Chunks(data, job.size);
    WithLength(Kept(digest, job, cs, |cs|), job.size)
  }

  lemma KeptIsDataIff(digest: Digest, job: Job, data: Bytes)
    requires job.size >= 1
    ensures
      var items := AsItems(KeptRows(digest, job, data));
      AllSound(items) && Text(items) == data <==> Storable(digest, job, data)
  {
    var cs := Chunks(data, job.size);
    var kept := Kept(digest, job, cs, |cs|);
    TextOfRows(kept, job.size);
    SoundRows(kept, job.size);
    ChunksAreTheData(data, job.size);
    assert cs[..|cs|] == cs;
    KeptLength(digest, job, cs, |cs|);
    AllFull(data, job.size);
    if forall i :: 0 <= i < |cs| ==> digest(cs[i]) == job.sha {
      KeptAll(digest, job, cs, |cs|);
    }
  }

  // ---- More chunks than indices ----

  /** A row found after a load is one of the chunks. */
  lemma RowIsAChunk(db: Db, d: Db, digest: Digest, job: Job, cs: seq<Bytes>, n: nat)
    requires Loaded(db, d, digest, job, cs, |cs|) && NoChunksOf(db, job.objectId)
    requires forall i :: 0 <= i < |cs| ==> |cs[i]| <= job.size
    ensures Short(RowAt(d, job.objectId, n), job.size)
  {
  }

  lemma TextOfOneMore(rows: seq<Fetched>, more: seq<Fetched>)
    requires |more| <= 1
    ensures |Text(AsItems(rows + more))| == |Text(AsItems(rows))| + (if more == [] then 0 else |more[0].sealed|)
  {
    if more == [] {
      assert rows + more == rows;
    } else {
      var items := AsItems(rows + more);
      assert items[..|items| - 1] == AsItems(rows);
    }
  }

  /** At most one row, no longer than the size. */
  predicate Short(rows: seq<Fetched>, size: nat) {
    |rows| <= 1 && forall i :: 0 <= i < |rows| ==> |rows[i].sealed| <= size
  }

  lemma OneMoreRow(rows: seq<Fetched>, more: seq<Fetched>, size: nat, n: nat)
    requires n > 0 && Short(more, size) && |Text(AsItems(rows))| <= Capacity(n - 1, size)
    ensures |Text(AsItems(rows + more))| <= Capacity(n, size)
  {
    hide Text, AsItems, Capacity;
    TextOfOneMore(rows, more);
    OneMoreChunk(n, size);
  }

  lemma {:induction false} TextIsBounded(d: Db, o: Uuid, size: nat, n: nat)
    requires forall i :: 0 <= i < n ==> Short(RowAt(d, o, i), size)
    ensures |Text(AsItems(RowsBelow(d, o, n)))| <= Capacity(n, size)
  {
    hide RowAt, Capacity, Short;
    if n == 0 {
      assert AsItems(RowsBelow(d, o, n)) == [];
    } else {
      hide Text, AsItems;
      TextIsBounded(d, o, size, n - 1);
      OneMoreRow(RowsBelow(d, o, n - 1), RowAt(d, o, n - 1), size, n);
    }
  }

  /** The most that n chunks of a size hold. */
  function Capacity(n: nat, size: nat): nat {
    n * size
  }

  lemma OneMoreChunk(n: nat, size: nat)
    requires n > 0
    ensures Capacity(n, size) == Capacity(n - 1, size) + size
  {
  }

  lemma ManyChunksMuchData(data: Bytes, size: nat, n: nat)
    requires size >= 1 && |Chunks(data, size)| > n
    ensures |data| > Capacity(n, size)
  {
    hide Capacity;
    ChunkCount(data, size);
    QuotientHolds(|data| + size - 1, size, n + 1);
    OneMoreChunk(n + 1, size);
  }

  lemma QuotientHolds(total: nat, size: nat, q: nat)
    requires size >= 1 && total / size >= q
    ensures total >= Capacity(q, size)
  {
    assert total == size * (total / size) + total % size;
    TimesMonotone(size, q, total / size);
  }

  lemma TimesMonotone(b: nat, x: nat, y: nat)
    requires x <= y
    ensures b * x <= b * y
  {
  }

  /** What is found is too short then, whatever was committed. */
  lemma TooManyChunksTooShort(db: Db, d: Db, digest: Digest, job: Job, env: Statements, data: Bytes)
    requires job.size >= 1 && |Chunks(data, job.size)| > INT32_LIMIT
    requires LoadAll(db, digest, job, env, data) == Active(d) && NoChunksOf(db, job.objectId)
    ensures Text(AsItems(RowsBelow(d, job.objectId, INT32_LIMIT))) != data
  {
    var cs := Chunks(data, job.size);
    LoadHolds(db, digest, job, env, cs, |cs|);
    ChunksAreTheData(data, job.size);
    forall i: nat ensures Short(RowAt(d, job.objectId, i), job.size) {
      RowIsAChunk(db, d, digest, job, cs, i);
    }
    TextIsBounded(d, job.objectId, job.size, INT32_LIMIT);
    ManyChunksMuchData(data, job.size, INT32_LIMIT);
  }

  lemma {:induction false} AbortedStays(db: Db, digest: Digest, job: Job, env: Statements,
                                        cs: seq<Bytes>, k: nat, n: nat)
    requires k <= n <= |cs| && Load(Active(db), digest, job, env, cs, k).Aborted?
    ensures Load(Active(db), digest, job, env, cs, n).Aborted?
    decreases n - k
  {
    if k < n {
      AbortedStays(db, digest, job, env, cs, k, n - 1);
    }
  }

  /** Beyond 2^31 chunks the index has wrapped to a negative number, which the table refuses: data
      that would be storable but for its number of chunks is never committed. */
  lemma TooManyChunksAbort(db: Db, digest: Digest, job: Job, env: Statements, data: Bytes)
    requires job.size >= 1 && |Chunks(data, job.size)| > INT32_LIMIT && Storable(digest, job, data)
    ensures LoadAll(db, digest, job, env, data).Aborted?
  {
    var cs := Chunks(data, job.size);
    IndexInRange(INT32_LIMIT - 1);
    assert Index(INT32_LIMIT) < 0;
    assert Load(Active(db), digest, job, env, cs, INT32_LIMIT + 1).Aborted?;
    AbortedStays(db, digest, job, env, cs, INT32_LIMIT + 1, |cs|);
  }

  /** For every data, size, digest and pattern of statement failures: once the transaction of a
      put commits, the rows found under the locator pass their length checks and concatenate to
      the data exactly when the data was storable in this way. */
  lemma RoundTripIff(db: Db, d: Db, digest: Digest, job: Job, env: Statements, data: Bytes,
                     locator: string, rows: Option<seq<Fetched>>)
    requires job.size >= 1
    requires LoadAll(db, digest, job, env, data) == Active(d)
    requires NoChunksOf(db, job.objectId) && OwnersOf(db, locator) == {job.objectId}
    requires IsQueryResult(d, locator, rows)
    ensures rows.Some?
    ensures AllSound(AsItems(rows.value)) && Text(AsItems(rows.value)) == data <==> Storable(digest, job, data)
  {
    if |Chunks(data, job.size)| <= INT32_LIMIT {
      QueryAfterLoad(db, d, digest, job, env, data, locator, rows);
      KeptIsDataIff(digest, job, data);
    } else {
      QueryOfOwner(db, d, digest, job, env, data, locator, rows);
      TooManyChunksTooShort(db, d, digest, job, env, data);
      if Storable(digest, job, data) {
        TooManyChunksAbort(db, digest, job, env, data);
      }
    }
  }

  /** AddSealed's own arguments: the whole data as one chunk under its digest. The manifest gets
      exactly one entry, at index 0 with the right length, and the query finds exactly it. */
  lemma SealedRoundTrip(db: Db, d: Db, digest: Digest, o: Uuid, env: Statements, data: Bytes,
                        locator: string, rows: Option<seq<Fetched>>)
    requires 1 <= |data| < INT32_LIMIT
    requires LoadAll(db, digest, Job(o, |data|, digest(data)), env, data) == Active(d)
    requires NoChunksOf(db, o) && OwnersOf(db, locator) == {o}
    requires IsQueryResult(d, locator, rows)
    ensures ChunkKey(o, 0) in d.chunks && d.chunks.Keys == db.chunks.Keys + {ChunkKey(o, 0)}
    ensures rows == Some([Fetched(data, |data|)])
  {
    var job := Job(o, |data|, digest(data));
    var cs := Chunks(data, job.size);
    assert cs == [data];
    LoadHolds(db, digest, job, env, cs, 1);
    RowsOfLoaded(db, d, digest, job, cs, |cs|);
    NoRowsBeyond(db, d, digest, job, cs, INT32_LIMIT);
    assert OwnersOf(d, locator) == {o};
    assert Matches(digest, job, cs, 0) && Holds(d, job, 0, data);
    assert Kept(digest, job, cs, 0) == [];
    assert Kept(digest, job, cs, 1) == [data];
    assert WithLength([data], |data|) == [Fetched(data, |data|)];
    forall c | c in d.chunks && c !in db.chunks ensures c == ChunkKey(o, 0) {
      assert KeyOfSome(digest, job, cs, 1, c);
    }
  }

  /** The query and its rows have not failed before step n, and the reader has not closed. */
  predicate Undisturbed(actions: seq<Action>, n: nat)
    requires n <= |actions|
  {
    forall k :: 0 <= k < n ==> !actions[k].QueryFails? && !actions[k].RowsBreak? && !actions[k].CloseReader?
  }

  lemma SealedAsItem(data: Bytes)
    ensures
      var items := AsItems([Fetched(data, |data|)]);
      items == [Row(Fetched(data, |data|))] && AllSound(items) && Text(items) == data
  {
    var items := AsItems([Fetched(data, |data|)]);
    assert items == [Row(Fetched(data, |data|))];
    assert items[..0] == [];
    assert Text(items) == Text(items[..0]) + data == data;
  }

  /** And whatever the schedule and the read sizes, a reader of that stream that ends cleanly has
      read exactly the data, it never sees a length error, and without failures it does end cleanly
      once the producer has finished. */
  lemma ReaderGetsSealed(data: Bytes, actions: seq<Action>, states: seq<State>, i: nat)
    requires i < |states| && Run(AsItems([Fetched(data, |data|)]), actions, states)
    ensures states[i].seen == Some(Eof) ==> states[i].got == data
    ensures states[i].got <= data
    ensures states[i].seen.Some? ==> !states[i].seen.value.LengthMismatch? && !states[i].seen.value.ScanError?
    ensures i < |actions| && Undisturbed(actions, i) && states[i].phase.Finished? && actions[i].Read? ==>
            states[i + 1].seen == Some(Eof) && states[i + 1].got == data
  {
    var items := AsItems([Fetched(data, |data|)]);
    SealedAsItem(data);
    ReaderSeesPrefix(items, actions, states, i);
    if i < |actions| && Undisturbed(actions, i) && states[i].phase.Finished? && actions[i].Read? {
      SoundStreamEndsCleanly(items, actions, states, i);
    }
  }

  /** There is such a run: the sealed bytes can be read to their end. */
  lemma SealedIsReadable(data: Bytes) returns (actions: seq<Action>, states: seq<State>)
    ensures Run(AsItems([Fetched(data, |data|)]), actions, states)
    ensures states[|actions|].seen == Some(Eof) && states[|actions|].got == data
  {
    hide Step, Enabled;
    var items := AsItems([Fetched(data, |data|)]);
    SealedAsItem(data);
    actions, states := CanFinish(items, [], [INITIAL]);
    var n := |actions|;
    RunKeeps(items, actions, states, n);
    var a := NoDeadlock(items, states[n]);
    RunMore(items, actions, states, a);
    actions, states := actions + [a], states + [Step(items, states[n], a)];
    SoundStreamEndsCleanly(items, actions, states, n);
  }

  /** From put to reader: once the transaction of a put commits, what is read back under the locator
      without failures is the data, cleanly ended, for all data that was storable in this way. */
  lemma StorableReadsBack(db: Db, d: Db, digest: Digest, job: Job, env: Statements, data: Bytes,
                          locator: string, rows: Option<seq<Fetched>>, actions: seq<Action>, states: seq<State>, n: nat)
    requires job.size >= 1 && Storable(digest, job, data)
    requires LoadAll(db, digest, job, env, data) == Active(d)
    requires NoChunksOf(db, job.objectId) && OwnersOf(db, locator) == {job.objectId}
    requires IsQueryResult(d, locator, rows)
    requires rows.Some? ==> Run(AsItems(rows.value), actions, states)
    requires n < |actions| < |states| && Undisturbed(actions, n) && states[n].phase.Finished? && actions[n].Read?
    ensures rows.Some? && states[n + 1].seen == Some(Eof) && states[n + 1].got == data
  {
    hide LoadAll, IsQueryResult, OwnersOf, NoChunksOf, Storable, Step, Enabled;
    RoundTripIff(db, d, digest, job, env, data, locator, rows);
    SoundStreamEndsCleanly(AsItems(rows.value), actions, states, n);
  }

  // ---- Retried attempts share one reader ----

  lemma {:induction false} NoChunksNoRows(db: Db, o: Uuid, n: nat)
    requires NoChunksOf(db, o)
    ensures RowsBelow(db, o, n) == []
  {
    if n > 0 {
      NoChunksNoRows(db, o, n - 1);
    }
  }

  /** From AddSealed's put, retries included, to the read query: after a reported success the query
      finds exactly the sealed bytes if no statement of the first attempt that read failed and its
      commit took effect, and an empty object otherwise. */
  lemma PutThenGet(db: Db, data: Bytes, digest: Digest, id: Uuid, world: World,
                   locator: string, rows: Option<seq<Fetched>>)
    requires 1 <= |data| < INT32_LIMIT
    requires NoChunksOf(db, id) && OwnersOf(db, locator) == {id}
    requires Put(db, data, digest, Some(id), |data|, digest(data), world, 0).1
    requires IsQueryResult(Put(db, data, digest, Some(id), |data|, digest(data), world, 0).0, locator, rows)
    ensures Reads(world, 0)
    ensures
      var first := world(FirstReader(world, 0));
      var tx := LoadAll(db, digest, Job(id, |data|, digest(data)), first.statements, data);
      rows == Some(if tx.Active? && first.commit.applied then [Fetched(data, |data|)] else [])
  {
    if !Reads(world, 0) {
      PutWithoutReading(db, data, digest, Some(id), |data|, digest(data), world, 0);
    }
    PutLeaves(db, data, digest, id, |data|, digest(data), world, 0);
    var first := world(FirstReader(world, 0));
    var tx := LoadAll(db, digest, Job(id, |data|, digest(data)), first.statements, data);
    if tx.Active? && first.commit.applied {
      SealedRoundTrip(db, tx.db, digest, id, first.statements, data, locator, rows);
    } else {
      NoChunksNoRows(db, id, INT32_LIMIT);
    }
  }

  /** Only the first commit fails, without effect. */
  function LosingFirst(statements: Statements): World {
    (i: nat) => Surroundings(Ack, statements, if i == 0 then Fate(false, RetryableError) else Fate(true, Ack))
  }

  /** A Put that reports success without storing anything: the first commit is lost, and the second
      attempt finds the reader empty. */
  lemma SuccessWithoutData(db: Db, data: Bytes, digest: Digest, id: Uuid, blob: Uuid)
    requires 1 <= |data| < INT32_LIMIT && NoChunksOf(db, id) && id in db.objects && blob !in db.blobs
    requires forall c :: c in db.chunks ==> db.chunks[c].blobId in db.blobs
    ensures
      var statements := Statements(_ => Some(blob), _ => true);
      var world := LosingFirst(statements);
      && LoadAll(db, digest, Job(id, |data|, digest(data)), statements, data).Active?
      && Put(db, data, digest, Some(id), |data|, digest(data), world, 0) == (db, true)
  {
    var statements := Statements(_ => Some(blob), _ => true);
    var world := LosingFirst(statements);
    var job := Job(id, |data|, digest(data));
    assert Chunks(data, |data|) == [data];
    assert Load(Active(db), digest, job, statements, [data], 0) == Active(db);
    assert Index(0) == 0;
    assert Chunks([], |data|) == [];
  }
}
