/** The Postgres tables as the object store that module Vault takes for granted: what makes the
    locator of a put a new one, and what reads and deletes by locator find. */
module PostgresObjects {
  import opened Common
  import opened Schema
  import opened SealedRepo
  import opened SealedLoad
  import opened SealedGet
  import P = Pipe
  import V = Vault

  /** Put answers with the identifier the client chose. */
  function LocatorOf(o: Uuid): string {
    "pg://" + o
  }

  lemma LocatorsDiffer(o: Uuid, p: Uuid)
    requires LocatorOf(o) == LocatorOf(p)
    ensures o == p
  {
    assert LocatorOf(o)[5..] == o && LocatorOf(p)[5..] == p;
  }

  /** AddSealed puts each object as one chunk. */
  ghost predicate OneChunkEach(db: Db) {
    forall c :: c in db.chunks ==>
      && c.index == 0 && db.chunks[c].blobId in db.blobs
      && db.chunks[c].length == |db.blobs[db.chunks[c].blobId].sealed|
  }

  predicate Stored(db: Db, o: Uuid) {
    ChunkKey(o, 0) in db.chunks && db.chunks[ChunkKey(o, 0)].blobId in db.blobs
  }

  function BytesOf(db: Db, o: Uuid): Bytes
    requires Stored(db, o)
  {
    db.blobs[db.chunks[ChunkKey(o, 0)].blobId].sealed
  }

  /** The objects by locator. */
  function Located(db: Db): map<string, Bytes> {
    var stored := set c | c in db.chunks && Stored(db, c.objectId) :: c.objectId;
    map loc | loc in (set o | o in stored :: LocatorOf(o)) && Stored(db, loc[5..]) :: BytesOf(db, loc[5..])
  }

  lemma LocatedAt(db: Db, loc: string)
    ensures loc in Located(db) <==> exists o :: loc == LocatorOf(o) && Stored(db, o)
    ensures forall o :: loc == LocatorOf(o) && Stored(db, o) ==> Located(db)[loc] == BytesOf(db, o)
  {
    forall o | loc == LocatorOf(o) ensures loc[5..] == o {
    }
    forall o | loc == LocatorOf(o) && Stored(db, o) ensures loc in Located(db) {
      var stored := set c | c in db.chunks && Stored(db, c.objectId) :: c.objectId;
      assert ChunkKey(o, 0).objectId in stored;
    }
  }

  lemma LocatedOne(db: Db, o: Uuid)
    ensures LocatorOf(o) in Located(db) <==> Stored(db, o)
    ensures Stored(db, o) ==> Located(db)[LocatorOf(o)] == BytesOf(db, o)
  {
    LocatedAt(db, LocatorOf(o));
    forall p | LocatorOf(o) == LocatorOf(p) ensures p == o {
      LocatorsDiffer(o, p);
    }
  }

  /** Two databases with the same objects but for one. */
  ghost predicate SameBut(db: Db, d: Db, o: Uuid) {
    forall p :: p != o ==>
      (Stored(db, p) <==> Stored(d, p)) && (Stored(db, p) ==> BytesOf(d, p) == BytesOf(db, p))
  }

  lemma LocatedDiffer(db: Db, d: Db, o: Uuid)
    requires SameBut(db, d, o)
    ensures Located(d) - {LocatorOf(o)} == Located(db) - {LocatorOf(o)}
  {
    hide Located;
    forall loc | loc != LocatorOf(o)
      ensures loc in Located(d) <==> loc in Located(db)
      ensures loc in Located(db) ==> Located(d)[loc] == Located(db)[loc]
    {
      LocatedAt(db, loc);
      LocatedAt(d, loc);
    }
  }

  // ---- Put is that of the object store ----

  lemma OneChunkLoad(db: Db, d: Db, digest: Digest, o: Uuid, env: Statements, data: Bytes)
    requires data != [] && LoadAll(db, digest, Job(o, |data|, digest(data)), env, data) == Active(d)
    ensures o in db.objects && ChunkKey(o, 0) !in db.chunks && env.blob(0).Some? && env.blob(0).value !in db.blobs
    ensures d == db.(blobs := db.blobs[env.blob(0).value := BlobRow(o, data)],
                     chunks := db.chunks[ChunkKey(o, 0) := ChunkRow(env.blob(0).value, |data|)])
  {
    var job := Job(o, |data|, digest(data));
    assert Chunks(data, |data|) == [data];
    assert Load(Active(db), digest, job, env, [data], 0) == Active(db);
    assert PutChunk(Active(db), digest, job, env, 0, data) == Active(d);
    PutChunkAdds(Active(db), digest, job, env, 0, data);
  }

  lemma PutChangesOne(db: Db, d: Db, o: Uuid, b: Uuid, data: Bytes)
    requires OneChunkEach(db) && ChunkKey(o, 0) !in db.chunks && b !in db.blobs
    requires d == db.(blobs := db.blobs[b := BlobRow(o, data)],
                      chunks := db.chunks[ChunkKey(o, 0) := ChunkRow(b, |data|)])
    ensures OneChunkEach(d) && SameBut(db, d, o)
    ensures !Stored(db, o) && Stored(d, o) && BytesOf(d, o) == data
  {
  }

  /** The primary key of the manifest makes the locator of a committed put a new one, and the put is
      PutObject of the protocol. */
  lemma PutIsPutObject(db: Db, d: Db, digest: Digest, o: Uuid, env: Statements, data: Bytes,
                       rows: map<V.DataId, V.Row>)
    requires OneChunkEach(db) && data != []
    requires LoadAll(db, digest, Job(o, |data|, digest(data)), env, data) == Active(d)
    ensures OneChunkEach(d) && LocatorOf(o) !in Located(db)
    ensures V.Stores(Located(d), rows) == V.PutObject(V.Stores(Located(db), rows), LocatorOf(o), data)
  {
    hide Located, LoadAll, OneChunkEach, SameBut, Stored, LocatorOf;
    OneChunkLoad(db, d, digest, o, env, data);
    PutChangesOne(db, d, o, env.blob(0).value, data);
    LocatedOne(db, o);
    LocatedOne(d, o);
    LocatedDiffer(db, d, o);
    assert Located(d) == (Located(d) - {LocatorOf(o)})[LocatorOf(o) := data];
    assert Located(d) == Located(db)[LocatorOf(o) := data];
  }

  /** With statements that reach the database, a put goes through exactly when the object row is
      there and nothing is stored under it. */
  lemma PutGoesThroughIff(db: Db, digest: Digest, o: Uuid, env: Statements, data: Bytes, b: Uuid)
    requires Constraints(db) && OneChunkEach(db) && data != []
    requires env.blob(0) == Some(b) && b !in db.blobs && env.manifest(0)
    ensures LoadAll(db, digest, Job(o, |data|, digest(data)), env, data).Active?
            <==> o in db.objects && LocatorOf(o) !in Located(db)
  {
    var job := Job(o, |data|, digest(data));
    assert Chunks(data, |data|) == [data];
    assert Load(Active(db), digest, job, env, [data], 0) == Active(db);
    assert LoadAll(db, digest, job, env, data) == PutChunk(Active(db), digest, job, env, 0, data);
    assert Index(0) == 0;
    LocatedOne(db, o);
  }

  // ---- Get goes by the row that carries the locator ----

  lemma {:induction false} RowsOfOne(db: Db, o: Uuid, n: nat)
    requires OneChunkEach(db)
    ensures RowsBelow(db, o, n) == if n > 0 && Stored(db, o) then [P.Fetched(BytesOf(db, o), |BytesOf(db, o)|)] else []
  {
    if n > 0 {
      RowsOfOne(db, o, n - 1);
      assert RowsBelow(db, o, n) == RowsBelow(db, o, n - 1) + RowAt(db, o, n - 1);
    }
  }

  lemma OneOwner(db: Db, loc: string, o: Uuid, rows: Option<seq<P.Fetched>>)
    requires IsQueryResult(db, loc, rows) && OwnersOf(db, loc) == {o}
    ensures rows == Some(RowsBelow(db, o, INT32_LIMIT))
  {
    hide OwnersOf, RowsBelow;
  }

  lemma OtherOwners(db: Db, loc: string, rows: Option<seq<P.Fetched>>)
    requires IsQueryResult(db, loc, rows)
    ensures OwnersOf(db, loc) == {} ==> rows == Some([])
    ensures |OwnersOf(db, loc)| > 1 ==> rows == None
  {
    hide OwnersOf, RowsBelow;
  }

  /** A set is empty, or a singleton, or has two elements. */
  lemma NoneOneMany(owners: set<Uuid>)
    ensures owners == {} || |owners| > 1 || exists w :: w in owners && owners == {w}
    ensures forall v, w :: owners == {v} && owners == {w} ==> v == w
  {
    if owners != {} {
      var w :| w in owners;
      assert owners == {w} + (owners - {w});
    }
    forall v, w | owners == {v} && owners == {w} ensures v == w {
      assert v in owners;
    }
  }

  /** The query goes by the one row that carries the locator, whatever its id: it finds the bytes
      exactly when there is one such row and they are stored under that row's id. */
  lemma ReadFindsIff(db: Db, loc: string, rows: Option<seq<P.Fetched>>, data: Bytes)
    requires OneChunkEach(db) && IsQueryResult(db, loc, rows)
    ensures rows == Some([P.Fetched(data, |data|)])
            <==> exists w :: OwnersOf(db, loc) == {w} && Stored(db, w) && BytesOf(db, w) == data
  {
    hide OwnersOf, RowsBelow, IsQueryResult, OneChunkEach, Stored;
    var owners := OwnersOf(db, loc);
    NoneOneMany(owners);
    OtherOwners(db, loc, rows);
    if w :| w in owners && owners == {w} {
      OneOwner(db, loc, w, rows);
      RowsOfOne(db, w, INT32_LIMIT);
    }
  }

  /** So what AddSealed adds does not read back from these tables: the metadata row that carries the
      locator is a new one, with an id of its own, and nothing is stored under that. */
  lemma AddedReadsEmpty(db: Db, d: Db, d': Db, digest: Digest, o: Uuid, env: Statements, data: Bytes,
                        grant: Option<Uuid>, user: Uuid, typeName: string, name: string, description: string,
                        rows: Option<seq<P.Fetched>>)
    requires Constraints(db) && OneChunkEach(db) && data != []
    requires LoadAll(db, digest, Job(o, |data|, digest(data)), env, data) == Active(d)
    requires InsertObject(d, grant, user, typeName, name, description, LocatorOf(o)) == Some(d')
    requires IsQueryResult(d', LocatorOf(o), rows)
    ensures grant.Some? && grant.value != o && grant.value in OwnersOf(d', LocatorOf(o))
    ensures rows == None || rows == Some([])
    ensures rows == Some([]) <==> OwnersOf(db, LocatorOf(o)) == {}
  {
    hide LoadAll, OneChunkEach, Constraints, LocatorOf, OwnersOf, IsQueryResult;
    var id, loc := grant.value, LocatorOf(o);
    OneChunkLoad(db, d, digest, o, env, data);
    PutChangesOne(db, d, o, env.blob(0).value, data);
    OthersHaveNothing(db, id);
    StillOneChunkEach(d, d');
    assert !Stored(d', id);
    OwnersAfterInsert(db, d', loc, id);
    NewOwnerReads(db, d', loc, id, rows);
  }

  lemma OwnersAfterInsert(db: Db, d': Db, loc: string, id: Uuid)
    requires id !in db.objects && d'.objects.Keys == db.objects.Keys + {id} && d'.objects[id].locator == loc
    requires forall o :: o in db.objects ==> d'.objects[o] == db.objects[o]
    ensures id !in OwnersOf(db, loc) && OwnersOf(d', loc) == OwnersOf(db, loc) + {id}
  {
  }

  lemma OneMoreOwner(owners: set<Uuid>, id: Uuid)
    requires id !in owners
    ensures owners == {} ==> owners + {id} == {id}
    ensures owners != {} ==> |owners + {id}| > 1
  {
  }

  /** A new row that carries the locator takes over its reads, or makes them ambiguous. */
  lemma NewOwnerReads(db: Db, d': Db, loc: string, id: Uuid, rows: Option<seq<P.Fetched>>)
    requires id !in OwnersOf(db, loc) && OwnersOf(d', loc) == OwnersOf(db, loc) + {id}
    requires OneChunkEach(d') && !Stored(d', id) && IsQueryResult(d', loc, rows)
    ensures rows == if OwnersOf(db, loc) == {} then Some([]) else None
  {
    hide RowsBelow, Stored, OneChunkEach, OwnersOf, IsQueryResult;
    OneMoreOwner(OwnersOf(db, loc), id);
    OtherOwners(d', loc, rows);
    if OwnersOf(db, loc) == {} {
      OneOwner(d', loc, id, rows);
      RowsOfOne(d', id, INT32_LIMIT);
    }
  }

  lemma ChunkHasObject(db: Db, c: ChunkKey)
    requires ForeignKeys(db) && c in db.chunks
    ensures c.objectId in db.objects
  {
    assert Object(c.objectId) in Parents(db, Chunk(c));
    assert Has(db, Object(c.objectId));
  }

  lemma OthersHaveNothing(db: Db, id: Uuid)
    requires Constraints(db) && id !in db.objects
    ensures ChunkKey(id, 0) !in db.chunks
  {
    if ChunkKey(id, 0) in db.chunks {
      ChunkHasObject(db, ChunkKey(id, 0));
    }
  }

  lemma StillOneChunkEach(d: Db, d': Db)
    requires OneChunkEach(d) && d'.chunks == d.chunks && d'.blobs == d.blobs
    ensures OneChunkEach(d')
  {
  }

  // ---- Delete goes by the row that carries the locator ----

  /** DeleteObject. The scalar subquery fails on several rows with the locator and finds none on none. */
  ghost predicate IsDeleteResult(db: Db, loc: string, r: Option<Db>) {
    if |OwnersOf(db, loc)| > 1 then r == None
    else r.Some? && Deletes(db, BlobsOf(db, OwnersOf(db, loc)), r.value)
  }

  method DeleteObject(db: Db, loc: string) returns (r: Option<Db>)
    requires Constraints(db)
    ensures IsDeleteResult(db, loc, r)
    ensures r.Some? ==> Constraints(r.value) && r.value.objects == db.objects
  {
    var owners := OwnersOf(db, loc);
    if |owners| > 1 {
      return None;
    }
    var d := Delete(db, BlobsOf(db, owners));
    BlobDeleteDrops(db, owners, d);
    r := Some(d);
  }

  /** d has the objects of db but for those under the given ids. */
  ghost predicate Drops(db: Db, gone: set<Uuid>, d: Db) {
    forall o :: (Stored(d, o) <==> Stored(db, o) && o !in gone) && (Stored(d, o) ==> BytesOf(d, o) == BytesOf(db, o))
  }

  /** The blobs and chunks under the given ids are gone and the others are not. */
  ghost predicate Emptied(db: Db, gone: set<Uuid>, d: Db) {
    && (forall c :: c in d.chunks <==> c in db.chunks && c.objectId !in gone)
    && (forall b :: b in d.blobs <==> b in db.blobs && db.blobs[b].objectId !in gone)
  }

  lemma EmptiedDrops(db: Db, gone: set<Uuid>, d: Db)
    requires ManifestSound(db) && OneChunkEach(db) && SameContents(db, d) && Emptied(db, gone, d)
    ensures OneChunkEach(d) && Drops(db, gone, d)
  {
  }

  lemma LocatedDrops(db: Db, gone: set<Uuid>, d: Db)
    requires Drops(db, gone, d)
    ensures Located(d) == Located(db) - set o | o in gone :: LocatorOf(o)
  {
    hide Located, LocatorOf, Stored;
    var locs := set o | o in gone :: LocatorOf(o);
    forall loc
      ensures loc in Located(d) <==> loc in Located(db) && loc !in locs
      ensures loc in Located(d) ==> Located(d)[loc] == Located(db)[loc]
    {
      LocatedAt(db, loc);
      LocatedAt(d, loc);
      forall o, p | loc == LocatorOf(o) && loc == LocatorOf(p) ensures o == p {
        LocatorsDiffer(o, p);
      }
    }
  }

  lemma BlobDeleteEmpties(db: Db, gone: set<Uuid>, d: Db)
    requires Constraints(db) && Deletes(db, BlobsOf(db, gone), d)
    ensures Emptied(db, gone, d)
    ensures forall o :: o in d.objects <==> o in db.objects
  {
    hide Constraints, Owned, SameContents;
    forall c ensures c in d.chunks <==> c in db.chunks && c.objectId !in gone {
      assert Has(d, Chunk(c)) <==> c in d.chunks;
      if c in db.chunks {
        BlobsTakeManifest(db, gone, Chunk(c));
      }
    }
    forall b ensures b in d.blobs <==> b in db.blobs && db.blobs[b].objectId !in gone {
      assert Has(d, Blob(b)) <==> b in d.blobs;
      if b in db.blobs {
        BlobsTakeManifest(db, gone, Blob(b));
      }
    }
    forall o ensures o in d.objects <==> o in db.objects {
      assert Has(d, Object(o)) <==> o in d.objects;
      if o in db.objects {
        BlobsTakeManifest(db, gone, Object(o));
      }
    }
  }

  lemma BlobDeleteDrops(db: Db, gone: set<Uuid>, d: Db)
    requires Constraints(db) && Deletes(db, BlobsOf(db, gone), d)
    ensures d.objects == db.objects
    ensures OneChunkEach(db) ==> OneChunkEach(d) && Drops(db, gone, d)
  {
    hide Owned, OneChunkEach, Drops, Emptied, ForeignKeys, ManifestSound;
    BlobDeleteEmpties(db, gone, d);
    assert d.objects == db.objects;
    if OneChunkEach(db) {
      EmptiedDrops(db, gone, d);
    }
  }

  lemma RowDeleteEmpties(db: Db, w: Uuid, d: Db)
    requires Constraints(db) && w in db.objects && Deletes(db, {Object(w)}, d)
    ensures Emptied(db, {w}, d)
    ensures forall o :: o in d.objects <==> o in db.objects && o != w
  {
    hide Constraints, Owned, SameContents;
    forall c ensures c in d.chunks <==> c in db.chunks && c.objectId != w {
      assert Has(d, Chunk(c)) <==> c in d.chunks;
      if c in db.chunks {
        OwnedExactly(db, Chunk(c), Object(w));
      }
    }
    forall b ensures b in d.blobs <==> b in db.blobs && db.blobs[b].objectId != w {
      assert Has(d, Blob(b)) <==> b in d.blobs;
      if b in db.blobs {
        OwnedExactly(db, Blob(b), Object(w));
      }
    }
    forall o ensures o in d.objects <==> o in db.objects && o != w {
      assert Has(d, Object(o)) <==> o in d.objects;
      if o in db.objects {
        OwnedExactly(db, Object(o), Object(w));
      }
    }
  }

  /** DeleteMetadata takes what is stored under the id of the row, and the row. */
  lemma RowDeleteDrops(db: Db, w: Uuid, d: Db)
    requires Constraints(db) && OneChunkEach(db) && w in db.objects && Deletes(db, {Object(w)}, d)
    ensures d.objects == db.objects - {w} && OneChunkEach(d) && Drops(db, {w}, d)
  {
    hide Owned, OneChunkEach, Drops, Emptied, ForeignKeys, ManifestSound;
    RowDeleteEmpties(db, w, d);
    assert d.objects == db.objects - {w};
    EmptiedDrops(db, {w}, d);
  }

  /** What is stored under a locator is deleted by that locator exactly when the one row that carries
      it is the row it was stored under. */
  lemma DeleteFindsIff(db: Db, o: Uuid, d: Db)
    requires Constraints(db) && OneChunkEach(db) && Stored(db, o) && IsDeleteResult(db, LocatorOf(o), Some(d))
    ensures LocatorOf(o) !in Located(d) <==> OwnersOf(db, LocatorOf(o)) == {o}
  {
    hide Located, LocatorOf, Stored, OneChunkEach, OwnersOf, Constraints, Deletes;
    var owners := OwnersOf(db, LocatorOf(o));
    BlobDeleteDrops(db, owners, d);
    LocatedOne(d, o);
    NoneOneMany(owners);
  }

  /** So the delete is DropObject of the protocol exactly in that case, or when there is nothing
      stored under the locator's id and under its owner. */
  lemma DeleteIsDropObjectIff(db: Db, o: Uuid, d: Db, rows: map<V.DataId, V.Row>)
    requires Constraints(db) && OneChunkEach(db) && IsDeleteResult(db, LocatorOf(o), Some(d))
    ensures V.Stores(Located(d), rows) == V.DropObject(V.Stores(Located(db), rows), LocatorOf(o))
            <==> || OwnersOf(db, LocatorOf(o)) == {o}
                 || forall w :: w in OwnersOf(db, LocatorOf(o)) + {o} ==> !Stored(db, w)
  {
    hide Located, LocatorOf, Stored, OneChunkEach, OwnersOf, Constraints, Deletes, Drops;
    var owners := OwnersOf(db, LocatorOf(o));
    var locs := set w | w in owners :: LocatorOf(w);
    BlobDeleteDrops(db, owners, d);
    LocatedDrops(db, owners, d);
    RemovalsAgree(Located(db), locs, {LocatorOf(o)});
    NoneOneMany(owners);
    forall w | w in owners + {o}
      ensures LocatorOf(w) in Located(db) <==> Stored(db, w)
      ensures (w in owners ==> LocatorOf(w) in locs) && (LocatorOf(w) == LocatorOf(o) ==> w == o)
    {
      LocatedOne(db, w);
      if LocatorOf(w) == LocatorOf(o) {
        LocatorsDiffer(w, o);
      }
    }
    if owners == {o} {
      assert locs == {LocatorOf(o)};
    }
  }

  lemma RemovalsAgree<K, T>(m: map<K, T>, a: set<K>, b: set<K>)
    ensures m - a == m - b <==> forall k :: k in m ==> (k in a <==> k in b)
  {
    if m - a == m - b {
      forall k | k in m ensures k in a <==> k in b {
        assert k in m - a <==> k in m - b;
      }
    }
  }

  /** The compensation of AddSealed comes when no row carries the new locator yet: it reports success
      and leaves the object behind. */
  lemma CompensationMisses(db: Db, d: Db, digest: Digest, o: Uuid, env: Statements, data: Bytes, r: Option<Db>)
    requires Constraints(db) && OneChunkEach(db) && data != [] && OwnersOf(db, LocatorOf(o)) == {}
    requires LoadAll(db, digest, Job(o, |data|, digest(data)), env, data) == Active(d)
    requires IsDeleteResult(d, LocatorOf(o), r)
    ensures r.Some? && LocatorOf(o) in Located(r.value) && Located(r.value)[LocatorOf(o)] == data
  {
    hide Located, LocatorOf, LoadAll, Constraints, OneChunkEach, Deletes, Stored;
    PutKeepsConstraints(db, d, digest, o, env, data);
    OneChunkLoad(db, d, digest, o, env, data);
    PutChangesOne(db, d, o, env.blob(0).value, data);
    assert OwnersOf(d, LocatorOf(o)) == {};
    BlobDeleteDrops(d, {}, r.value);
    LocatedOne(r.value, o);
  }

  lemma PutKeepsConstraints(db: Db, d: Db, digest: Digest, o: Uuid, env: Statements, data: Bytes)
    requires Constraints(db) && data != []
    requires LoadAll(db, digest, Job(o, |data|, digest(data)), env, data) == Active(d)
    ensures Constraints(d)
  {
    var cs := Chunks(data, |data|);
    LoadKeepsConstraints(db, digest, Job(o, |data|, digest(data)), env, cs, |cs|);
  }

  /** keeper.Service.Delete on the tables: the metadata row w, then the object by its locator. What
      that locator was given for is gone afterwards exactly when the row it was stored under carries
      the locator too. */
  lemma BothDeletesFindIff(db: Db, w: Uuid, o: Uuid, d: Db, d': Db)
    requires Constraints(db) && OneChunkEach(db) && Stored(db, o)
    requires w in OwnersOf(db, LocatorOf(o)) && Deletes(db, {Object(w)}, d)
    requires IsDeleteResult(d, LocatorOf(o), Some(d'))
    ensures LocatorOf(o) !in Located(d') <==> o in OwnersOf(db, LocatorOf(o))
    ensures LocatorOf(o) in Located(d') ==> Located(d')[LocatorOf(o)] == BytesOf(db, o)
  {
    hide Located, LocatorOf, Constraints, OneChunkEach, Deletes, Stored;
    var loc := LocatorOf(o);
    RowDeleteDrops(db, w, d);
    DeleteKeepsConstraints(db, {Object(w)}, d);
    assert OwnersOf(d, loc) == OwnersOf(db, loc) - {w};
    BlobDeleteDrops(d, OwnersOf(d, loc), d');
    LocatedOne(d', o);
  }

  /** In particular a Delete that reports success leaves the bytes of every entry that AddSealed has
      added under a locator no row carried. */
  lemma DeleteLeavesObject(db: Db, d: Db, d': Db, digest: Digest, o: Uuid, env: Statements, data: Bytes,
                           w: Uuid, user: Uuid, typeName: string, name: string, description: string,
                           unlinked: Db, r: Option<Db>)
    requires Constraints(db) && OneChunkEach(db) && data != [] && OwnersOf(db, LocatorOf(o)) == {}
    requires LoadAll(db, digest, Job(o, |data|, digest(data)), env, data) == Active(d)
    requires InsertObject(d, Some(w), user, typeName, name, description, LocatorOf(o)) == Some(d')
    requires Deletes(d', {Object(w)}, unlinked) && IsDeleteResult(unlinked, LocatorOf(o), r)
    ensures r.Some? && w !in r.value.objects
    ensures LocatorOf(o) in Located(r.value) && Located(r.value)[LocatorOf(o)] == data
  {
    hide Located, LocatorOf, LoadAll, Constraints, OneChunkEach, Deletes, Stored;
    var loc := LocatorOf(o);
    PutKeepsConstraints(db, d, digest, o, env, data);
    OneChunkLoad(db, d, digest, o, env, data);
    PutChangesOne(db, d, o, env.blob(0).value, data);
    InsertObjectKeeps(d, Some(w), user, typeName, name, description, loc);
    StillOneChunkEach(d, d');
    StillStored(d, d', o);
    OwnersAfterInsert(db, d', loc, w);
    RowDeleteDrops(d', w, unlinked);
    DeleteKeepsConstraints(d', {Object(w)}, unlinked);
    assert OwnersOf(unlinked, loc) == {};
    BlobDeleteDrops(unlinked, {}, r.value);
    LocatedOne(r.value, o);
  }

  lemma StillStored(d: Db, d': Db, o: Uuid)
    requires d'.chunks == d.chunks && d'.blobs == d.blobs && Stored(d, o)
    ensures Stored(d', o) && BytesOf(d', o) == BytesOf(d, o)
  {
  }
}
