/** What a transaction of SealedRepo.Put holds after its read loop. */
module SealedLoad {
  import opened Common
  import opened Schema
  import opened SealedRepo

  ghost predicate Matches(digest: Digest, job: Job, cs: seq<Bytes>, i: nat)
    requires i < |cs|
  {
    digest(cs[i]) == job.sha
  }

  function KeyOf(job: Job, i: nat): ChunkKey {
    ChunkKey(job.objectId, Index(i))
  }

  /** Chunk i is in the manifest, with its own bytes and the requested length. */
  ghost predicate Holds(db: Db, job: Job, i: nat, chunk: Bytes) {
    var key := KeyOf(job, i);
    && key in db.chunks
    && db.chunks[key].length == job.size
    && db.chunks[key].blobId in db.blobs
    && db.blobs[db.chunks[key].blobId] == BlobRow(job.objectId, chunk)
  }

  /** Nothing that db had is changed. */
  ghost predicate Extends(db: Db, d: Db) {
    && d.users == db.users && d.tokens == db.tokens && d.objects == db.objects
    && (forall b :: b in db.blobs ==> b in d.blobs && d.blobs[b] == db.blobs[b])
    && (forall c :: c in db.chunks ==> c in d.chunks && d.chunks[c] == db.chunks[c])
  }

  /** Each matching chunk below k is there, under a key that db did not have. */
  ghost predicate AllPresent(db: Db, d: Db, digest: Digest, job: Job, cs: seq<Bytes>, k: nat)
    requires k <= |cs|
  {
    forall i :: 0 <= i < k && Matches(digest, job, cs, i) ==> Holds(d, job, i, cs[i]) && KeyOf(job, i) !in db.chunks
  }

  /** c is the key of a matching chunk below k. */
  ghost predicate KeyOfSome(digest: Digest, job: Job, cs: seq<Bytes>, k: nat, c: ChunkKey)
    requires k <= |cs|
  {
    exists i :: 0 <= i < k && Matches(digest, job, cs, i) && c == KeyOf(job, i)
  }

  ghost predicate NothingElse(db: Db, d: Db, digest: Digest, job: Job, cs: seq<Bytes>, k: nat)
    requires k <= |cs|
  {
    forall c :: c in d.chunks && c !in db.chunks ==> KeyOfSome(digest, job, cs, k, c)
  }

  /** Matching chunks have different indices. */
  ghost predicate Distinct(digest: Digest, job: Job, cs: seq<Bytes>, k: nat)
    requires k <= |cs|
  {
    forall i, j :: 0 <= i < j < k && Matches(digest, job, cs, i) && Matches(digest, job, cs, j) ==>
      KeyOf(job, i) != KeyOf(job, j)
  }

  /** d is db plus, for the first k chunks, exactly the matching ones. */
  ghost predicate Loaded(db: Db, d: Db, digest: Digest, job: Job, cs: seq<Bytes>, k: nat)
    requires k <= |cs|
  {
    && Extends(db, d)
    && AllPresent(db, d, digest, job, cs, k)
    && NothingElse(db, d, digest, job, cs, k)
    && Distinct(digest, job, cs, k)
  }

  lemma PutChunkAdds(tx: Tx, digest: Digest, job: Job, env: Statements, i: nat, chunk: Bytes)
    requires tx.Active? && PutChunk(tx, digest, job, env, i, chunk).Active? && digest(chunk) == job.sha
    ensures
      var d, d' := tx.db, PutChunk(tx, digest, job, env, i, chunk).db;
      && KeyOf(job, i) !in d.chunks && Index(i) >= 0
      && env.blob(i).Some? && env.blob(i).value !in d.blobs
      && d' == d.(blobs := d.blobs[env.blob(i).value := BlobRow(job.objectId, chunk)],
                  chunks := d.chunks[KeyOf(job, i) := ChunkRow(env.blob(i).value, job.size)])
  {
  }

  lemma LoadedStep(db: Db, d: Db, d': Db, digest: Digest, job: Job, cs: seq<Bytes>, k: nat, b: Uuid)
    requires k < |cs| && Loaded(db, d, digest, job, cs, k) && Matches(digest, job, cs, k)
    requires KeyOf(job, k) !in d.chunks && b !in d.blobs
    requires d' == d.(blobs := d.blobs[b := BlobRow(job.objectId, cs[k])],
                      chunks := d.chunks[KeyOf(job, k) := ChunkRow(b, job.size)])
    ensures Loaded(db, d', digest, job, cs, k + 1)
  {
    forall i | 0 <= i < k + 1 && Matches(digest, job, cs, i)
      ensures Holds(d', job, i, cs[i]) && KeyOf(job, i) !in db.chunks
    {
      if i < k {
        assert Holds(d, job, i, cs[i]);
      }
    }
    forall c | c in d'.chunks && c !in db.chunks ensures KeyOfSome(digest, job, cs, k + 1, c) {
      if c in d.chunks {
        KeyOfSomeGrows(digest, job, cs, k, c);
      }
    }
    forall i, j | 0 <= i < j < k + 1 && Matches(digest, job, cs, i) && Matches(digest, job, cs, j)
      ensures KeyOf(job, i) != KeyOf(job, j)
    {
      assert Holds(d, job, i, cs[i]);
    }
  }

  lemma KeyOfSomeGrows(digest: Digest, job: Job, cs: seq<Bytes>, k: nat, c: ChunkKey)
    requires k < |cs| && KeyOfSome(digest, job, cs, k, c)
    ensures KeyOfSome(digest, job, cs, k + 1, c)
  {
  }

  lemma LoadedSkip(db: Db, d: Db, digest: Digest, job: Job, cs: seq<Bytes>, k: nat)
    requires k < |cs| && Loaded(db, d, digest, job, cs, k) && !Matches(digest, job, cs, k)
    ensures Loaded(db, d, digest, job, cs, k + 1)
  {
  }

  /** A transaction that is still active after the loop lost none of its inserts: it holds every
      matching chunk, at distinct indices, and nothing else is new. */
  lemma {:induction false} LoadHolds(db: Db, digest: Digest, job: Job, env: Statements, cs: seq<Bytes>, k: nat)
    requires k <= |cs| && Load(Active(db), digest, job, env, cs, k).Active?
    ensures Loaded(db, Load(Active(db), digest, job, env, cs, k).db, digest, job, cs, k)
  {
    if k > 0 {
      var tx := Load(Active(db), digest, job, env, cs, k - 1);
      LoadHolds(db, digest, job, env, cs, k - 1);
      if Matches(digest, job, cs, k - 1) {
        PutChunkAdds(tx, digest, job, env, k - 1, cs[k - 1]);
        var d := PutChunk(tx, digest, job, env, k - 1, cs[k - 1]).db;
        LoadedStep(db, tx.db, d, digest, job, cs, k - 1, env.blob(k - 1).value);
      } else {
        LoadedSkip(db, tx.db, digest, job, cs, k - 1);
      }
    }
  }

  lemma {:induction false} LoadKeepsConstraints(db: Db, digest: Digest, job: Job, env: Statements,
                                                cs: seq<Bytes>, k: nat)
    requires k <= |cs| && Constraints(db) && Load(Active(db), digest, job, env, cs, k).Active?
    ensures Constraints(Load(Active(db), digest, job, env, cs, k).db)
  {
    if k > 0 {
      var tx := Load(Active(db), digest, job, env, cs, k - 1);
      LoadKeepsConstraints(db, digest, job, env, cs, k - 1);
      if digest(cs[k - 1]) == job.sha {
        var db1 := InsertBlob(tx.db, env.blob(k - 1), job.objectId, cs[k - 1]);
        InsertBlobKeeps(tx.db, env.blob(k - 1), job.objectId, cs[k - 1]);
        PutManifestKeeps(db1.value, env.manifest(k - 1), job.objectId, env.blob(k - 1).value, Index(k - 1), job.size);
      }
    }
  }

  // ---- Loads that go through ----

  /** The statements of the first k chunks reach the database and get new, different blob ids. */
  ghost predicate AllReach(db: Db, env: Statements, k: nat) {
    && (forall i :: 0 <= i < k ==> env.blob(i).Some? && env.blob(i).value !in db.blobs && env.manifest(i))
    && (forall i, j :: 0 <= i < j < k ==> env.blob(i) != env.blob(j))
  }

  lemma {:induction false} NewBlobs(db: Db, digest: Digest, job: Job, env: Statements, cs: seq<Bytes>, k: nat, b: Uuid)
    requires k <= |cs| && Load(Active(db), digest, job, env, cs, k).Active?
    requires b in Load(Active(db), digest, job, env, cs, k).db.blobs && b !in db.blobs
    ensures exists i :: 0 <= i < k && env.blob(i) == Some(b)
  {
    var tx := Load(Active(db), digest, job, env, cs, k - 1);
    if b in tx.db.blobs {
      NewBlobs(db, digest, job, env, cs, k - 1, b);
    } else {
      PutChunkAdds(tx, digest, job, env, k - 1, cs[k - 1]);
    }
  }

  lemma ChunkGoesThrough(d: Db, digest: Digest, job: Job, env: Statements, n: nat, chunk: Bytes)
    requires ForeignKeys(d) && job.objectId in d.objects && job.size >= 1 && Index(n) >= 0
    requires KeyOf(job, n) !in d.chunks && env.blob(n).Some? && env.blob(n).value !in d.blobs && env.manifest(n)
    ensures PutChunk(Active(d), digest, job, env, n, chunk).Active?
  {
    forall c | c in d.chunks ensures d.chunks[c].blobId != env.blob(n).value {
      assert Has(d, Chunk(c)) && Blob(d.chunks[c].blobId) in Parents(d, Chunk(c));
      assert Has(d, Blob(d.chunks[c].blobId));
    }
  }

  /** On an object that is there and has nothing stored, with statements that reach the database, the
      transaction of any data in up to 2^31 chunks stays active, so its commit can succeed. */
  lemma {:induction false} LoadGoesThrough(db: Db, digest: Digest, job: Job, env: Statements, cs: seq<Bytes>, k: nat)
    requires Constraints(db) && job.objectId in db.objects && job.size >= 1
    requires forall c :: c in db.chunks ==> c.objectId != job.objectId
    requires k <= |cs| && k <= 2147483648 && AllReach(db, env, k)
    ensures Load(Active(db), digest, job, env, cs, k).Active?
  {
    if k > 0 {
      LoadGoesThrough(db, digest, job, env, cs, k - 1);
      var d := Load(Active(db), digest, job, env, cs, k - 1).db;
      LoadHolds(db, digest, job, env, cs, k - 1);
      LoadKeepsConstraints(db, digest, job, env, cs, k - 1);
      hide Loaded, Constraints, PutChunk;
      KeyIsFree(db, d, digest, job, cs, k - 1);
      if env.blob(k - 1).value in d.blobs {
        NewBlobs(db, digest, job, env, cs, k - 1, env.blob(k - 1).value);
      }
      ConstraintsHaveKeys(d);
      ChunkGoesThrough(d, digest, job, env, k - 1, cs[k - 1]);
    }
  }

  lemma ConstraintsHaveKeys(d: Db)
    requires Constraints(d)
    ensures ForeignKeys(d)
  {
  }

  lemma KeyIsFree(db: Db, d: Db, digest: Digest, job: Job, cs: seq<Bytes>, k: nat)
    requires k < |cs| && k < 2147483648 && Loaded(db, d, digest, job, cs, k)
    requires forall c :: c in db.chunks ==> c.objectId != job.objectId
    ensures KeyOf(job, k) !in d.chunks && Index(k) >= 0 && d.objects == db.objects
  {
    IndexInRange(k);
    if KeyOf(job, k) in d.chunks {
      assert KeyOfSome(digest, job, cs, k, KeyOf(job, k));
      var i :| 0 <= i < k && Matches(digest, job, cs, i) && KeyOf(job, k) == KeyOf(job, i);
      IndexInRange(i);
    }
  }
}
