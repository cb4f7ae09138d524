/** The tables of the first migration, their constraints, the insert statements, and deletion
    with its cascades. */
module Schema {
  import opened Common

  type Uuid = string

  datatype UserRow = UserRow(loginHash: Bytes, passwordPhc: string)
  datatype TokenRow = TokenRow(userId: Uuid, expiresAt: int)
  datatype ObjectRow = ObjectRow(userId: Uuid, dataType: int, name: string, description: string, locator: string)
  datatype BlobRow = BlobRow(objectId: Uuid, sealed: Bytes)
  datatype ChunkKey = ChunkKey(objectId: Uuid, index: int)
  datatype ChunkRow = ChunkRow(blobId: Uuid, length: int)

  /** Each table is keyed by its primary key; refresh_tokens by its unique token_hash. */
  datatype Db = Db(
    users: map<Uuid, UserRow>,
    tokens: map<Bytes, TokenRow>,
    objects: map<Uuid, ObjectRow>,
    blobs: map<Uuid, BlobRow>,
    chunks: map<ChunkKey, ChunkRow>)

  /** The rows of data_types, filled by the second migration. */
  const DATA_TYPES: map<string, int> :=
    map["DataTypeAuthenticationCredentials" := 1, "DataTypeCard" := 2, "DataTypeBinary" := 3]

  // ---- Rows and references ----

  datatype Ref = User(id: Uuid) | Token(hash: Bytes) | Object(id: Uuid) | Blob(id: Uuid) | Chunk(key: ChunkKey)

  predicate Has(db: Db, r: Ref) {
    match r
    case User(id) => id in db.users
    case Token(hash) => hash in db.tokens
    case Object(id) => id in db.objects
    case Blob(id) => id in db.blobs
    case Chunk(key) => key in db.chunks
  }

  function Rows(db: Db): set<Ref> {
    (set id | id in db.users :: User(id)) + (set h | h in db.tokens :: Token(h))
    + (set id | id in db.objects :: Object(id)) + (set id | id in db.blobs :: Blob(id))
    + (set k | k in db.chunks :: Chunk(k))
  }

  /** The rows a row references through its ON DELETE CASCADE foreign keys. */
  function Parents(db: Db, r: Ref): set<Ref>
    requires Has(db, r)
  {
    match r
    case User(_) => {}
    case Token(hash) => {User(db.tokens[hash].userId)}
    case Object(id) => {User(db.objects[id].userId)}
    case Blob(id) => {Object(db.blobs[id].objectId)}
    case Chunk(key) => {Object(key.objectId), Blob(db.chunks[key].blobId)}
  }

  // ---- Constraints ----

  ghost predicate ForeignKeys(db: Db) {
    forall r, p :: Has(db, r) && p in Parents(db, r) ==> Has(db, p)
  }

  ghost predicate LoginUnique(db: Db) {
    forall u, v :: u in db.users && v in db.users && db.users[u].loginHash == db.users[v].loginHash ==> u == v
  }

  /** fk_manifest_blob_same_object, the two checks, and UNIQUE (blob_id). */
  ghost predicate ManifestSound(db: Db) {
    && (forall k :: k in db.chunks && db.chunks[k].blobId in db.blobs ==>
          db.blobs[db.chunks[k].blobId].objectId == k.objectId)
    && (forall k :: k in db.chunks ==> k.index >= 0 && db.chunks[k].length > 0)
    && (forall k, l :: k in db.chunks && l in db.chunks && db.chunks[k].blobId == db.chunks[l].blobId ==> k == l)
  }

  ghost predicate TypesKnown(db: Db) {
    forall o :: o in db.objects ==> db.objects[o].dataType in DATA_TYPES.Values
  }

  ghost predicate Constraints(db: Db) {
    ForeignKeys(db) && LoginUnique(db) && ManifestSound(db) && TypesKnown(db)
  }

  // ---- Inserts: None is a constraint violation, or a statement that failed on its way ----
  // A `grant` is the identifier that gen_random_uuid() will produce; None makes the statement fail.

  function InsertUser(db: Db, grant: Option<Uuid>, row: UserRow): Option<Db> {
    if grant.None? || grant.value in db.users || (exists u :: u in db.users && db.users[u].loginHash == row.loginHash)
    then None
    else Some(db.(users := db.users[grant.value := row]))
  }

  /** INSERT ... ON CONFLICT (token_hash) DO UPDATE */
  function UpsertToken(tokens: map<Bytes, TokenRow>, hash: Bytes, row: TokenRow): map<Bytes, TokenRow> {
    tokens[hash := row]
  }

  function SaveToken(db: Db, hash: Bytes, row: TokenRow): Option<Db> {
    if row.userId !in db.users then None else Some(db.(tokens := UpsertToken(db.tokens, hash, row)))
  }

  /** PutMetadata: the type id is looked up by name, and NULL violates NOT NULL. */
  function InsertObject(db: Db, grant: Option<Uuid>, userId: Uuid, typeName: string,
                        name: string, description: string, locator: string): Option<Db>
  {
    if grant.None? || grant.value in db.objects || userId !in db.users || typeName !in DATA_TYPES then None
    else
      var row := ObjectRow(userId, DATA_TYPES[typeName], name, description, locator);
      Some(db.(objects := db.objects[grant.value := row]))
  }

  function InsertBlob(db: Db, grant: Option<Uuid>, objectId: Uuid, sealed: Bytes): Option<Db> {
    if grant.None? || grant.value in db.blobs || objectId !in db.objects then None
    else Some(db.(blobs := db.blobs[grant.value := BlobRow(objectId, sealed)]))
  }

  function PutManifest(db: Db, reached: bool, objectId: Uuid, blobId: Uuid, index: int, length: int): Option<Db> {
    var key := ChunkKey(objectId, index);
    if || !reached || objectId !in db.objects
       || blobId !in db.blobs || db.blobs[blobId].objectId != objectId
       || key in db.chunks || (exists k :: k in db.chunks && db.chunks[k].blobId == blobId)
       || index < 0 || length <= 0
    then None
    else Some(db.(chunks := db.chunks[key := ChunkRow(blobId, length)]))
  }

  lemma InsertUserKeeps(db: Db, grant: Option<Uuid>, row: UserRow)
    requires Constraints(db) && InsertUser(db, grant, row).Some?
    ensures Constraints(InsertUser(db, grant, row).value)
  {
    KeptReferences(db, InsertUser(db, grant, row).value, User(grant.value));
  }

  lemma SaveTokenKeeps(db: Db, hash: Bytes, row: TokenRow)
    requires Constraints(db) && SaveToken(db, hash, row).Some?
    ensures Constraints(SaveToken(db, hash, row).value)
  {
    KeptReferences(db, SaveToken(db, hash, row).value, Token(hash));
  }

  lemma InsertObjectKeeps(db: Db, grant: Option<Uuid>, userId: Uuid, typeName: string,
                          name: string, description: string, locator: string)
    requires Constraints(db) && InsertObject(db, grant, userId, typeName, name, description, locator).Some?
    ensures Constraints(InsertObject(db, grant, userId, typeName, name, description, locator).value)
  {
    var db' := InsertObject(db, grant, userId, typeName, name, description, locator).value;
    KeptReferences(db, db', Object(grant.value));
  }

  /** The new row, column by column, under the granted id; no other row and no other table changes. */
  lemma InsertObjectColumns(db: Db, grant: Option<Uuid>, userId: Uuid, typeName: string,
                            name: string, description: string, locator: string)
    ensures
      var r := InsertObject(db, grant, userId, typeName, name, description, locator);
      && (r.Some? <==> grant.Some? && grant.value !in db.objects && userId in db.users
                       && typeName in {"DataTypeAuthenticationCredentials", "DataTypeCard", "DataTypeBinary"})
      && (r.Some? ==>
            && r.value == db.(objects := r.value.objects) && grant.value in r.value.objects
            && r.value.objects - {grant.value} == db.objects
            && var row := r.value.objects[grant.value];
               && row.userId == userId && row.name == name && row.description == description && row.locator == locator
               && (row.dataType == 1 <==> typeName == "DataTypeAuthenticationCredentials")
               && (row.dataType == 2 <==> typeName == "DataTypeCard")
               && (row.dataType == 3 <==> typeName == "DataTypeBinary"))
  {
    assert |"DataTypeCard"| == 12 && |"DataTypeAuthenticationCredentials"| == 33 && |"DataTypeBinary"| == 14;
  }

  lemma InsertBlobKeeps(db: Db, grant: Option<Uuid>, objectId: Uuid, sealed: Bytes)
    requires Constraints(db) && InsertBlob(db, grant, objectId, sealed).Some?
    ensures Constraints(InsertBlob(db, grant, objectId, sealed).value)
  {
    var db' := InsertBlob(db, grant, objectId, sealed).value;
    KeptReferences(db, db', Blob(grant.value));
    forall k | k in db'.chunks && db'.chunks[k].blobId in db'.blobs
      ensures db'.blobs[db'.chunks[k].blobId].objectId == k.objectId
    {
      assert Blob(db.chunks[k].blobId) in Parents(db, Chunk(k));
      assert Has(db, Blob(db.chunks[k].blobId));
    }
  }

  lemma PutManifestKeeps(db: Db, reached: bool, objectId: Uuid, blobId: Uuid, index: int, length: int)
    requires Constraints(db) && PutManifest(db, reached, objectId, blobId, index, length).Some?
    ensures Constraints(PutManifest(db, reached, objectId, blobId, index, length).value)
  {
    var db' := PutManifest(db, reached, objectId, blobId, index, length).value;
    KeptReferences(db, db', Chunk(ChunkKey(objectId, index)));
  }

  /** Foreign keys survive when only one row changes and that row's references exist. */
  lemma KeptReferences(db: Db, db': Db, changed: Ref)
    requires ForeignKeys(db) && Has(db', changed)
    requires forall r :: Has(db, r) ==> Has(db', r)
    requires forall r :: Has(db', r) && r != changed ==> Has(db, r) && Parents(db', r) == Parents(db, r)
    requires forall p :: p in Parents(db', changed) ==> Has(db', p)
    ensures ForeignKeys(db')
  {
  }

  // ---- Deletion ----

  function Without(db: Db, gone: set<Ref>): Db {
    Db(map id | id in db.users && User(id) !in gone :: db.users[id],
       map h | h in db.tokens && Token(h) !in gone :: db.tokens[h],
       map id | id in db.objects && Object(id) !in gone :: db.objects[id],
       map id | id in db.blobs && Blob(id) !in gone :: db.blobs[id],
       map k | k in db.chunks && Chunk(k) !in gone :: db.chunks[k])
  }

  /** A chain of references, child first. */
  ghost predicate Chain(db: Db, path: seq<Ref>) {
    && |path| > 0
    && (forall i :: 0 <= i < |path| ==> Has(db, path[i]))
    && (forall i :: 0 < i < |path| ==> path[i] in Parents(db, path[i - 1]))
  }

  /** Row r is one of the roots or reaches one through references. */
  ghost predicate Owned(db: Db, r: Ref, roots: set<Ref>) {
    exists path :: Chain(db, path) && path[0] == r && path[|path| - 1] in roots
  }

  ghost predicate NoOwnedOutside(db: Db, gone: set<Ref>) {
    forall r, p :: Has(db, r) && p in Parents(db, r) && p in gone ==> r in gone
  }

  lemma OwnedRoot(db: Db, r: Ref, roots: set<Ref>)
    requires Has(db, r) && r in roots
    ensures Owned(db, r, roots)
  {
    assert Chain(db, [r]);
  }

  lemma OwnedChild(db: Db, r: Ref, p: Ref, roots: set<Ref>)
    requires Has(db, r) && p in Parents(db, r) && Owned(db, p, roots)
    ensures Owned(db, r, roots)
  {
    var path :| Chain(db, path) && path[0] == p && path[|path| - 1] in roots;
    var longer := [r] + path;
    assert Chain(db, longer);
    assert longer[0] == r && longer[|longer| - 1] == path[|path| - 1];
  }

  lemma {:induction false} OwnedIsInside(db: Db, path: seq<Ref>, roots: set<Ref>, gone: set<Ref>)
    requires Chain(db, path) && path[|path| - 1] in roots
    requires NoOwnedOutside(db, gone) && forall r :: r in roots && Has(db, r) ==> r in gone
    ensures path[0] in gone
    decreases |path|
  {
    if |path| > 1 {
      assert Chain(db, path[1..]) by {
        forall i | 0 < i < |path[1..]| ensures path[1..][i] in Parents(db, path[1..][i - 1]) {
          assert path[i + 1] in Parents(db, path[i]);
        }
      }
      OwnedIsInside(db, path[1..], roots, gone);
      assert path[1] in Parents(db, path[0]);
    }
  }

  lemma RowsAreAll(db: Db)
    ensures forall r :: r in Rows(db) <==> Has(db, r)
  {
  }

  /** The rows that reference p. */
  function Children(db: Db, p: Ref): set<Ref> {
    set r | r in Rows(db) && Has(db, r) && p in Parents(db, r)
  }

  lemma ChildrenAreAll(db: Db, p: Ref)
    ensures forall r :: r in Children(db, p) <==> Has(db, r) && p in Parents(db, r)
  {
  }

  ghost predicate AllOwned(db: Db, rows: set<Ref>, roots: set<Ref>) {
    forall r :: r in rows ==> Has(db, r) && Owned(db, r, roots)
  }

  /** Whatever references a row that is gone is gone or queued. */
  ghost predicate Queued(db: Db, gone: set<Ref>, pending: set<Ref>) {
    forall r, p :: Has(db, r) && p in Parents(db, r) && p in gone ==> r in gone || r in pending
  }

  /** The state of a cascade: everything taken or queued is owned, the roots and whatever
      references a taken row are among it. */
  ghost predicate Cascading(db: Db, roots: set<Ref>, gone: set<Ref>, pending: set<Ref>) {
    && gone !! pending
    && AllOwned(db, gone, roots) && AllOwned(db, pending, roots)
    && (forall r :: r in roots && Has(db, r) ==> r in gone || r in pending)
    && Queued(db, gone, pending)
  }

  lemma CascadeStart(db: Db, roots: set<Ref>, pending: set<Ref>)
    requires forall r :: r in pending <==> r in roots && Has(db, r)
    ensures Cascading(db, roots, {}, pending)
  {
    forall r | r in pending ensures Owned(db, r, roots) {
      OwnedRoot(db, r, roots);
    }
  }

  lemma ChildrenOwned(db: Db, p: Ref, roots: set<Ref>)
    requires Owned(db, p, roots)
    ensures AllOwned(db, Children(db, p), roots)
  {
    ChildrenAreAll(db, p);
    forall r | r in Children(db, p) ensures Owned(db, r, roots) {
      OwnedChild(db, r, p, roots);
    }
  }

  lemma QueuedStep(db: Db, gone: set<Ref>, pending: set<Ref>, p: Ref, gone': set<Ref>, pending': set<Ref>)
    requires Queued(db, gone, pending)
    requires gone' == gone + {p} && pending' == pending + Children(db, p) - gone'
    ensures Queued(db, gone', pending')
  {
    ChildrenAreAll(db, p);
  }

  lemma CascadeStep(db: Db, roots: set<Ref>, gone: set<Ref>, pending: set<Ref>, p: Ref,
                    gone': set<Ref>, pending': set<Ref>)
    requires Cascading(db, roots, gone, pending) && p in pending
    requires gone' == gone + {p} && pending' == pending + Children(db, p) - gone'
    ensures Cascading(db, roots, gone', pending')
  {
    ChildrenOwned(db, p, roots);
    QueuedStep(db, gone, pending, p, gone', pending');
  }

  lemma CascadeEnd(db: Db, roots: set<Ref>, gone: set<Ref>)
    requires Cascading(db, roots, gone, {})
    ensures forall r :: r in gone <==> Has(db, r) && Owned(db, r, roots)
  {
    forall r | Has(db, r) && Owned(db, r, roots) ensures r in gone {
      var path :| Chain(db, path) && path[0] == r && path[|path| - 1] in roots;
      OwnedIsInside(db, path, roots, gone);
    }
  }

  /** The cascade of a DELETE: referencing rows are queued and taken in turn until none is left.
      What it takes is exactly what the roots transitively own. */
  method Cascade(db: Db, roots: set<Ref>) returns (gone: set<Ref>)
    ensures forall r :: r in gone <==> Has(db, r) && Owned(db, r, roots)
  {
    RowsAreAll(db);
    gone := {};
    var pending := Rows(db) * roots;
    CascadeStart(db, roots, pending);
    while pending != {}
      invariant Cascading(db, roots, gone, pending)
      decreases Rows(db) - gone
    {
      var p :| p in pending;
      ghost var gone0, pending0 := gone, pending;
      gone := gone + {p};
      pending := pending + Children(db, p) - gone;
      CascadeStep(db, roots, gone0, pending0, p, gone, pending);
      assert p in Rows(db) - gone0;
    }
    CascadeEnd(db, roots, gone);
  }

  /** Every row of db' has the contents it has in db. */
  ghost predicate SameContents(db: Db, db': Db) {
    && (forall id :: id in db'.users ==> id in db.users && db'.users[id] == db.users[id])
    && (forall h :: h in db'.tokens ==> h in db.tokens && db'.tokens[h] == db.tokens[h])
    && (forall id :: id in db'.objects ==> id in db.objects && db'.objects[id] == db.objects[id])
    && (forall id :: id in db'.blobs ==> id in db.blobs && db'.blobs[id] == db.blobs[id])
    && (forall k :: k in db'.chunks ==> k in db.chunks && db'.chunks[k] == db.chunks[k])
  }

  lemma WithoutIsExact(db: Db, gone: set<Ref>)
    ensures SameContents(db, Without(db, gone))
    ensures forall r :: Has(Without(db, gone), r) <==> Has(db, r) && r !in gone
  {
  }

  /** db' is db without what the roots own. */
  ghost predicate Deletes(db: Db, roots: set<Ref>, db': Db) {
    && (forall r :: Has(db', r) <==> Has(db, r) && !Owned(db, r, roots))
    && SameContents(db, db')
  }

  /** DELETE of the given rows. Everything they own disappears; every other row stays as it was,
      and the constraints still hold. */
  method Delete(db: Db, roots: set<Ref>) returns (db': Db)
    requires Constraints(db)
    ensures Constraints(db') && Deletes(db, roots, db')
  {
    var gone := Cascade(db, roots);
    WithoutIsExact(db, gone);
    db' := Without(db, gone);
    DeleteKeepsConstraints(db, roots, db');
  }

  /** Removing what some roots own breaks no constraint: no survivor points at a removed row. */
  lemma DeleteKeepsConstraints(db: Db, roots: set<Ref>, db': Db)
    requires Constraints(db) && Deletes(db, roots, db')
    ensures Constraints(db')
  {
    assert LoginUnique(db') && ManifestSound(db') && TypesKnown(db');
    forall r, p | Has(db', r) && p in Parents(db', r) ensures Has(db', p) {
      SurvivorsParentSurvives(db, roots, r, p);
    }
  }

  lemma SurvivorsParentSurvives(db: Db, roots: set<Ref>, r: Ref, p: Ref)
    requires ForeignKeys(db) && Has(db, r) && !Owned(db, r, roots) && p in Parents(db, r)
    ensures Has(db, p) && !Owned(db, p, roots)
  {
    if Owned(db, p, roots) {
      OwnedChild(db, r, p, roots);
    }
  }

  // ---- What the roots own, table by table ----

  /** Owned rows of a single root, said in the columns of the tables. */
  predicate BelongsTo(db: Db, r: Ref, root: Ref)
    requires Has(db, r)
  {
    || r == root
    || match r
       case User(_) => false
       case Token(h) => User(db.tokens[h].userId) == root
       case Object(id) => User(db.objects[id].userId) == root
       case Blob(id) => ObjectBelongsTo(db, db.blobs[id].objectId, root)
       case Chunk(k) => Blob(db.chunks[k].blobId) == root || ObjectBelongsTo(db, k.objectId, root)
  }

  predicate ObjectBelongsTo(db: Db, objectId: Uuid, root: Ref) {
    Object(objectId) == root || (objectId in db.objects && User(db.objects[objectId].userId) == root)
  }

  lemma BelongsStep(db: Db, r: Ref, p: Ref, root: Ref)
    requires Constraints(db) && Has(db, r) && p in Parents(db, r) && Has(db, p) && BelongsTo(db, p, root)
    ensures BelongsTo(db, r, root)
  {
  }

  lemma {:induction false} ChainBelongs(db: Db, path: seq<Ref>)
    requires Constraints(db) && Chain(db, path)
    ensures BelongsTo(db, path[0], path[|path| - 1])
    decreases |path|
  {
    if |path| > 1 {
      assert Chain(db, path[1..]) by {
        forall i | 0 < i < |path[1..]| ensures path[1..][i] in Parents(db, path[1..][i - 1]) {
          assert path[i + 1] in Parents(db, path[i]);
        }
      }
      ChainBelongs(db, path[1..]);
      assert path[1] in Parents(db, path[0]);
      BelongsStep(db, path[0], path[1], path[|path| - 1]);
    }
  }

  lemma ChainOfObject(db: Db, objectId: Uuid, root: Ref)
    requires Constraints(db) && Has(db, Object(objectId)) && Has(db, root) && ObjectBelongsTo(db, objectId, root)
    ensures Owned(db, Object(objectId), {root})
  {
    OwnedRoot(db, root, {root});
    if Object(objectId) != root {
      OwnedChild(db, Object(objectId), root, {root});
    }
  }

  lemma BelongingIsOwned(db: Db, r: Ref, root: Ref)
    requires Constraints(db) && Has(db, r) && Has(db, root) && BelongsTo(db, r, root)
    ensures Owned(db, r, {root})
  {
    OwnedRoot(db, root, {root});
    if r != root {
      if root in Parents(db, r) {
        OwnedChild(db, r, root, {root});
      } else {
        var objectId := if r.Blob? then db.blobs[r.id].objectId else r.key.objectId;
        assert Object(objectId) in Parents(db, r);
        ChainOfObject(db, objectId, root);
        OwnedChild(db, r, Object(objectId), {root});
      }
    }
  }

  /** Transitive ownership through any chain of references is the columns' ownership: a user owns
      its tokens, its objects, and their blobs and chunks; an object owns its blobs and chunks. */
  lemma OwnedExactly(db: Db, r: Ref, root: Ref)
    requires Constraints(db) && Has(db, r) && Has(db, root)
    ensures Owned(db, r, {root}) <==> BelongsTo(db, r, root)
  {
    if Owned(db, r, {root}) {
      var path :| Chain(db, path) && path[0] == r && path[|path| - 1] in {root};
      ChainBelongs(db, path);
    }
    if BelongsTo(db, r, root) {
      BelongingIsOwned(db, r, root);
    }
  }

  // ---- The blobs of some objects ----

  function BlobsOf(db: Db, objects: set<Uuid>): set<Ref> {
    set id | id in db.blobs && db.blobs[id].objectId in objects :: Blob(id)
  }

  /** Deleting the blobs of some objects takes their whole manifests with them and nothing else: the
      composite foreign key leaves no chunk of an object that points at some other object's blob. */
  lemma BlobsTakeManifest(db: Db, objects: set<Uuid>, r: Ref)
    requires Constraints(db) && Has(db, r)
    ensures Owned(db, r, BlobsOf(db, objects)) <==>
            || (r.Blob? && db.blobs[r.id].objectId in objects)
            || (r.Chunk? && r.key.objectId in objects)
  {
    var roots := BlobsOf(db, objects);
    if Owned(db, r, roots) {
      var path :| Chain(db, path) && path[0] == r && path[|path| - 1] in roots;
      ChainBelongs(db, path);
    }
    if r.Blob? && db.blobs[r.id].objectId in objects {
      OwnedRoot(db, r, roots);
    }
    if r.Chunk? && r.key.objectId in objects {
      var b := Blob(db.chunks[r.key].blobId);
      assert b in Parents(db, r);
      OwnedRoot(db, b, roots);
      OwnedChild(db, r, b, roots);
    }
  }
}
