/** SealedRepo.Put: a reader is cut into chunks, each chunk is checked and inserted inside one
    transaction, insert errors are dropped on the floor, and the whole attempt is retried on the
    same reader. The digest is a parameter. */
module SealedRepo {
  import opened Common
  import opened Schema
  import opened Retry

  type Digest = Bytes -> Bytes

  const INT32_LIMIT := 0x8000_0000

  /** idx++ on an int32. */
  function Increment(idx: int): int {
    if idx == INT32_LIMIT - 1 then -INT32_LIMIT else idx + 1
  }

  /** The chunk index after n increments from zero. */
  function Index(n: nat): int {
    if n == 0 then 0 else Increment(Index(n - 1))
  }

  lemma {:induction false} IndexInRange(n: nat)
    requires n < INT32_LIMIT
    ensures Index(n) == n
  {
    if n > 0 {
      IndexInRange(n - 1);
    }
  }

  /** In numbers: 2^31 indices, then the index wraps to the lowest int32. */
  lemma IndexWraps(n: nat)
    requires n < 2147483648
    ensures Index(n) == n && Index(2147483648) == -2147483648
  {
    IndexInRange(n);
    IndexInRange(2147483647);
    var last: nat := 2147483648;
    assert Index(last) == Increment(Index(last - 1));
  }

  /** bytes.Reader: reads what is asked for, or what is left; end of file only once nothing is. */
  class Reader {
    var rest: Bytes

    constructor (data: Bytes)
      ensures rest == data
    {
      rest := data;
    }

    method Read(size: nat) returns (chunk: Bytes, eof: bool)
      modifies this
      ensures eof <==> old(rest) == []
      ensures chunk + rest == old(rest)
      ensures |chunk| == if size <= |old(rest)| then size else |old(rest)|
    {
      eof := rest == [];
      var n := if size <= |rest| then size else |rest|;
      chunk := rest[..n];
      rest := rest[n..];
    }
  }

  // ---- What one attempt does ----

  /** When the loop gets to end of file: reads of size zero leave the reader where it is. */
  predicate Ends(data: Bytes, size: nat) {
    size >= 1 || data == []
  }

  /** The reads that a loop of fixed-size reads makes before end of file. */
  function Chunks(data: Bytes, size: nat): seq<Bytes>
    requires Ends(data, size)
    decreases |data|
  {
    if data == [] then []
    else if |data| <= size then [data]
    else [data[..size]] + Chunks(data[size..], size)
  }

  /** One read takes the first chunk off, or finds the end. */
  lemma OneRead(before: Bytes, size: nat, chunk: Bytes, rest: Bytes)
    requires Ends(before, size) && chunk + rest == before && |chunk| == if size <= |before| then size else |before|
    ensures Ends(rest, size)
    ensures if before == [] then Chunks(before, size) == [] else Chunks(before, size) == [chunk] + Chunks(rest, size)
  {
    assert chunk == before[..|chunk|] && rest == before[|chunk|..];
    if |before| <= size {
      assert chunk == before && rest == [] && Chunks(rest, size) == [];
    }
  }

  /** One of the first n reads finds end of file. */
  predicate EofWithin(data: Bytes, size: nat, n: nat) {
    n > 0 && (data == [] || EofWithin(data[if size <= |data| then size else |data|..], size, n - 1))
  }

  lemma {:induction false} EofAfterChunks(data: Bytes, size: nat, n: nat)
    requires Ends(data, size)
    ensures EofWithin(data, size, n) <==> n > |Chunks(data, size)|
    decreases n
  {
    if n > 0 && data != [] {
      if |data| <= size {
        assert data[|data|..] == [];
      }
      EofAfterChunks(data[if size <= |data| then size else |data|..], size, n - 1);
    }
  }

  lemma {:induction false} EofNever(data: Bytes, n: nat)
    requires data != []
    ensures !EofWithin(data, 0, n)
  {
    if n > 0 {
      assert data[0..] == data;
      EofNever(data, n - 1);
    }
  }

  /** The loop ends exactly when the size is not zero or there is nothing to read. */
  lemma LoopEndsIff(data: Bytes, size: nat)
    ensures (exists n: nat :: EofWithin(data, size, n)) <==> Ends(data, size)
  {
    if Ends(data, size) {
      EofAfterChunks(data, size, |Chunks(data, size)| + 1);
    } else {
      forall n: nat ensures !EofWithin(data, size, n) {
        EofNever(data, n);
      }
    }
  }

  /** A transaction in progress. Any failed statement aborts it; nothing after that has effect. */
  datatype Tx = Active(db: Db) | Aborted

  /** What Put is asked to store: the object, the chunk size, and the expected digest. */
  datatype Job = Job(objectId: Uuid, size: nat, sha: Bytes)

  /** The identifiers the inserts get, or their failure, by chunk number. */
  datatype Statements = Statements(blob: nat -> Option<Uuid>, manifest: nat -> bool)

  /** putHelper after a successful read. A digest mismatch issues no statement and leaves the
      transaction as it is; the manifest records the requested size, not the chunk's own length. */
  function PutHelper(tx: Tx, digest: Digest, job: Job, env: Statements, n: nat, idx: int, chunk: Bytes): Tx {
    if digest(chunk) != job.sha || tx.Aborted? then tx
    else
      var db1 := InsertBlob(tx.db, env.blob(n), job.objectId, chunk);
      if db1.None? then Aborted
      else
        var db2 := PutManifest(db1.value, env.manifest(n), job.objectId, env.blob(n).value, idx, job.size);
        if db2.None? then Aborted else Active(db2.value)
  }

  /** putHelper for chunk n of the loop. */
  function PutChunk(tx: Tx, digest: Digest, job: Job, env: Statements, n: nat, chunk: Bytes): Tx {
    PutHelper(tx, digest, job, env, n, Index(n), chunk)
  }

  /** The transaction after the first k chunks. */
  function Load(tx: Tx, digest: Digest, job: Job, env: Statements, cs: seq<Bytes>, k: nat): Tx
    requires k <= |cs|
  {
    if k == 0 then tx
    else PutChunk(Load(tx, digest, job, env, cs, k - 1), digest, job, env, k - 1, cs[k - 1])
  }

  function LoadAll(db: Db, digest: Digest, job: Job, env: Statements, data: Bytes): Tx
    requires Ends(data, job.size)
  {
    var cs := Chunks(data, job.size);
    Load(Active(db), digest, job, env, cs, |cs|)
  }

  /** One attempt's surroundings: how Begin answers, the statements, and how Commit fares. */
  datatype Surroundings = Surroundings(begin: Reply, statements: Statements, commit: Fate)
  type World = w: nat -> Surroundings | forall i :: w(i).commit.reply == Ack ==> w(i).commit.applied
    witness i => Surroundings(Ack, Statements(_ => None, _ => false), Fate(true, Ack))

  datatype Outcome = Committed | Err(retryable: bool)

  /** putLogic: database and unread input after one attempt. An identifier that is no UUID fails
      after Begin; a commit of an aborted transaction fails, whatever it reports. */
  function AttemptOnce(db: Db, rest: Bytes, digest: Digest, id: Option<Uuid>, size: nat, sha: Bytes, s: Surroundings)
    : (Db, Bytes, Outcome)
    requires s.begin == Ack && id.Some? ==> Ends(rest, size)
  {
    if s.begin != Ack then (db, rest, Err(s.begin == RetryableError))
    else if id.None? then (db, rest, Err(false))
    else
      match LoadAll(db, digest, Job(id.value, size, sha), s.statements, rest)
      case Aborted => (db, [], Err(s.commit.reply == RetryableError))
      case Active(d) =>
        (if s.commit.applied then d else db, [],
         if s.commit.reply == Ack then Committed else Err(s.commit.reply == RetryableError))
  }

  /** Some attempt gets past Begin. */
  predicate Reads(world: World, counter: nat)
    decreases MAX_ATTEMPT_COUNT - counter
  {
    || world(counter).begin == Ack
    || (world(counter).begin == RetryableError && counter < MAX_ATTEMPT_COUNT && Reads(world, counter + 1))
  }

  /** Put: attempts on one shared reader under WithRetry. */
  function Put(db: Db, rest: Bytes, digest: Digest, id: Option<Uuid>, size: nat, sha: Bytes,
               world: World, counter: nat): (Db, bool)
    requires id.Some? && Reads(world, counter) ==> Ends(rest, size)
    decreases MAX_ATTEMPT_COUNT - counter
  {
    var (db1, rest1, out) := AttemptOnce(db, rest, digest, id, size, sha, world(counter));
    if out.Committed? then (db1, true)
    else if counter >= MAX_ATTEMPT_COUNT || !out.retryable then (db1, false)
    else Put(db1, rest1, digest, id, size, sha, world, counter + 1)
  }

  // ---- What the attempts together leave ----

  lemma {:induction false} NothingLeftToPut(db: Db, digest: Digest, id: Option<Uuid>, size: nat, sha: Bytes,
                                            world: World, counter: nat)
    ensures Put(db, [], digest, id, size, sha, world, counter).0 == db
    decreases MAX_ATTEMPT_COUNT - counter
  {
    var s := world(counter);
    assert Chunks([], size) == [];
    var out := AttemptOnce(db, [], digest, id, size, sha, s).2;
    if out.Err? && out.retryable && counter < MAX_ATTEMPT_COUNT {
      NothingLeftToPut(db, digest, id, size, sha, world, counter + 1);
    }
  }

  /** The first attempt whose Begin succeeds, after retryable refusals only. */
  function FirstReader(world: World, counter: nat): (j: nat)
    requires Reads(world, counter)
    ensures counter <= j && (j == counter || j <= MAX_ATTEMPT_COUNT) && world(j).begin == Ack
    ensures forall i :: counter <= i < j ==> world(i).begin == RetryableError
    decreases MAX_ATTEMPT_COUNT - counter
  {
    if world(counter).begin == Ack then counter else FirstReader(world, counter + 1)
  }

  /** The database and the report of a Put, given the transaction of its first attempt that reads
      and the commit of that attempt. */
  predicate Leaves(db: Db, tx: Tx, commit: Fate, db': Db, ok: bool) {
    && (tx.Aborted? ==> db' == db && (ok ==> commit.reply == RetryableError))
    && (tx.Active? ==> db' == (if commit.applied then tx.db else db))
    && (tx.Active? && commit.reply == Ack ==> ok)
  }

  /** Exactly what a retried Put leaves, whatever it reports. Only the first attempt that gets to
      read has anything to insert; if one of its statements failed, the database is as before, and Put
      fails unless that attempt's commit is reported lost; otherwise the chunks are there exactly
      when that commit took effect. */
  lemma {:induction false} PutLeaves(db: Db, data: Bytes, digest: Digest, id: Uuid, size: nat, sha: Bytes,
                                     world: World, counter: nat)
    requires Reads(world, counter) && Ends(data, size)
    ensures
      var first := world(FirstReader(world, counter));
      var (db', ok) := Put(db, data, digest, Some(id), size, sha, world, counter);
      Leaves(db, LoadAll(db, digest, Job(id, size, sha), first.statements, data), first.commit, db', ok)
    decreases MAX_ATTEMPT_COUNT - counter
  {
    hide LoadAll;
    if world(counter).begin != Ack {
      PutLeaves(db, data, digest, id, size, sha, world, counter + 1);
    } else {
      var (db1, rest1, out) := AttemptOnce(db, data, digest, Some(id), size, sha, world(counter));
      if out.Err? && out.retryable && counter < MAX_ATTEMPT_COUNT {
        NothingLeftToPut(db1, digest, Some(id), size, sha, world, counter + 1);
      }
    }
  }

  /** If no attempt gets past Begin, or the identifier is no UUID, nothing changes and Put fails. */
  lemma {:induction false} PutWithoutReading(db: Db, data: Bytes, digest: Digest, id: Option<Uuid>, size: nat,
                                             sha: Bytes, world: World, counter: nat)
    requires id.None? || !Reads(world, counter)
    ensures Put(db, data, digest, id, size, sha, world, counter) == (db, false)
    decreases MAX_ATTEMPT_COUNT - counter
  {
    if world(counter).begin == RetryableError && counter < MAX_ATTEMPT_COUNT {
      PutWithoutReading(db, data, digest, id, size, sha, world, counter + 1);
    }
  }

  /** The repository itself. */
  class Repo {
    var db: Db

    /** putLogic. The loop stops only at end of file: it reads once more than there are chunks,
        with the reader consumed. */
    method PutLogic(reader: Reader, digest: Digest, id: Option<Uuid>, size: nat, sha: Bytes, s: Surroundings)
      returns (out: Outcome, readCount: nat)
      requires s.begin == Ack && id.Some? ==> Ends(reader.rest, size)
      modifies this, reader
      ensures (db, reader.rest, out) == AttemptOnce(old(db), old(reader.rest), digest, id, size, sha, s)
      ensures readCount == if s.begin == Ack && id.Some? then |Chunks(old(reader.rest), size)| + 1 else 0
    {
      hide PutHelper, Increment, Chunks;
      readCount := 0;
      if s.begin != Ack {
        return Err(s.begin == RetryableError), readCount;
      }
      if id.None? {
        return Err(false), readCount;
      }
      var job := Job(id.value, size, sha);
      var tx := Active(db);
      var idx := 0;
      ghost var cs := Chunks(reader.rest, size);
      while true
        invariant db == old(db)
        invariant Ends(reader.rest, size) && readCount <= |cs| && Chunks(reader.rest, size) == cs[readCount..]
        invariant idx == Index(readCount)
        invariant tx == Load(Active(db), digest, job, s.statements, cs, readCount)
        decreases |reader.rest|
      {
        ghost var before := reader.rest;
        var chunk, eof := reader.Read(size);
        readCount := readCount + 1;
        OneRead(before, size, chunk, reader.rest);
        if eof {
          break;
        }
        assert chunk == cs[readCount - 1];
        tx := PutHelper(tx, digest, job, s.statements, readCount - 1, idx, chunk);
        idx := Increment(idx);
      }
      match tx
      case Aborted => out := Err(s.commit.reply == RetryableError);
      case Active(d) =>
        if s.commit.applied {
          db := d;
        }
        out := if s.commit.reply == Ack then Committed else Err(s.commit.reply == RetryableError);
    }

    /** Put. Without an attempt that reads nothing changes; with one, the reader is consumed and the
        chunks are there if that attempt's statements all succeeded and its commit took effect. */
    method PutRetried(reader: Reader, digest: Digest, id: Option<Uuid>, size: nat, sha: Bytes,
                      world: World, counter: nat)
      returns (ok: bool)
      requires id.Some? && Reads(world, counter) ==> Ends(reader.rest, size)
      modifies this, reader
      ensures (db, ok) == Put(old(db), old(reader.rest), digest, id, size, sha, world, counter)
      ensures if id.None? || !Reads(world, counter) then !ok && db == old(db) && reader.rest == old(reader.rest)
              else
                var first := world(FirstReader(world, counter));
                var tx := LoadAll(old(db), digest, Job(id.value, size, sha), first.statements, old(reader.rest));
                Leaves(old(db), tx, first.commit, db, ok) && reader.rest == []
      decreases MAX_ATTEMPT_COUNT - counter
    {
      hide LoadAll, Chunks, Leaves;
      if id.Some? && Reads(world, counter) {
        PutLeaves(db, reader.rest, digest, id.value, size, sha, world, counter);
      } else {
        PutWithoutReading(db, reader.rest, digest, id, size, sha, world, counter);
      }
      var out, _ := PutLogic(reader, digest, id, size, sha, world(counter));
      if out.Committed? {
        return true;
      }
      if counter >= MAX_ATTEMPT_COUNT || !out.retryable {
        return false;
      }
      ok := PutRetried(reader, digest, id, size, sha, world, counter + 1);
    }
  }

  // ---- Chunking ----

  function Concat(cs: seq<Bytes>): Bytes {
    if cs == [] then [] else Concat(cs[..|cs| - 1]) + cs[|cs| - 1]
  }

  lemma {:induction false} ConcatCons(c: Bytes, cs: seq<Bytes>)
    ensures Concat([c] + cs) == c + Concat(cs)
    decreases |cs|
  {
    if cs != [] {
      var front := cs[..|cs| - 1];
      ConcatCons(c, front);
      assert ([c] + cs)[..|cs|] == [c] + front;
    }
  }

  /** The chunks are the data again; every one but the last is full and none is empty. */
  lemma {:induction false} ChunksAreTheData(data: Bytes, size: nat)
    requires size >= 1
    ensures
      var cs := Chunks(data, size);
      && Concat(cs) == data
      && (forall i :: 0 <= i < |cs| ==> 1 <= |cs[i]| <= size)
      && (forall i :: 0 <= i < |cs| - 1 ==> |cs[i]| == size)
    decreases |data|
  {
    var cs := Chunks(data, size);
    if data == [] {
    } else if |data| <= size {
      assert Concat([data]) == Concat([]) + data;
    } else {
      ChunksAreTheData(data[size..], size);
      ConcatCons(data[..size], Chunks(data[size..], size));
      assert data == data[..size] + data[size..];
    }
  }

  /** The loop makes ceil(|data| / size) inserts at most. */
  lemma {:induction false} ChunkCount(data: Bytes, size: nat)
    requires size >= 1
    ensures |Chunks(data, size)| == (|data| + size - 1) / size
    decreases |data|
  {
    if |data| > size {
      ChunkCount(data[size..], size);
      DivStep(|data| - 1, size);
    } else if data != [] {
      DivStep(|data| - 1, size);
      assert (|data| - 1) / size == 0;
    } else {
      assert (size - 1) / size == 0;
    }
  }

  lemma DivStep(a: nat, b: nat)
    requires b >= 1
    ensures (a + b) / b == a / b + 1 && (a + b) % b == a % b
  {
    var q, r := a / b, a % b;
    assert a + b == b * (q + 1) + r;
    DivUnique(a + b, b, q + 1, r);
  }

  lemma DivUnique(n: nat, b: nat, q: nat, r: nat)
    requires b >= 1 && n == b * q + r && r < b
    ensures n / b == q && n % b == r
  {
    var q', r' := n / b, n % b;
    assert b * (q - q') == r' - r;
    if q < q' {
      TimesAtLeast(b, q' - q);
    } else if q' < q {
      TimesAtLeast(b, q - q');
    }
  }

  lemma TimesAtLeast(b: nat, d: nat)
    requires d >= 1
    ensures b * d >= b
  {
  }

  predicate AllOfLength(cs: seq<Bytes>, n: int) {
    forall i :: 0 <= i < |cs| ==> |cs[i]| == n
  }

  lemma AllOfLengthCons(c: Bytes, cs: seq<Bytes>, n: int)
    ensures AllOfLength([c] + cs, n) <==> |c| == n && AllOfLength(cs, n)
  {
    var all := [c] + cs;
    assert all[0] == c && all[1..] == cs;
    if AllOfLength(all, n) {
      forall i | 0 <= i < |cs| ensures |cs[i]| == n { assert cs[i] == all[i + 1]; }
    }
  }

  lemma ShortRemainder(n: nat, size: nat)
    requires 1 <= n <= size
    ensures n % size == 0 <==> n == size
  {
  }

  /** The last chunk is full exactly when the size divides the data. */
  lemma {:induction false} AllFull(data: Bytes, size: nat)
    requires size >= 1
    ensures AllOfLength(Chunks(data, size), size) <==> |data| % size == 0
    decreases |data|
  {
    if |data| > size {
      AllFull(data[size..], size);
      DivStep(|data| - size, size);
      AllOfLengthCons(data[..size], Chunks(data[size..], size), size);
    } else if data != [] {
      ShortRemainder(|data|, size);
      assert Chunks(data, size)[0] == data;
    }
  }
}
