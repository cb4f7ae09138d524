/** MetadataRepository.Put is an insert under WithRetry that gets a new id each time it takes effect.
    A repeated attempt after a success that was not heard leaves more rows than one. */
module LostRows {
  import opened Common
  import opened Vault
  import opened Keeper
  import R = Retry

  /** The table, and how many ids the database has drawn for this put. */
  datatype Puts = Puts(rows: map<DataId, Row>, drawn: nat)

  /** The ids the database will draw are new and all different. */
  ghost predicate NewIds(rows: map<DataId, Row>, ids: nat -> DataId) {
    && (forall i: nat :: ids(i) !in rows)
    && (forall i, j :: 0 <= i < j ==> ids(i) != ids(j))
  }

  /** INSERT ... RETURNING id */
  function InsertRow(meta: Metadata, loc: Locator, ids: nat -> DataId): Puts -> Puts {
    (p: Puts) => Puts(p.rows[ids(p.drawn) := Row(meta.(id := ids(p.drawn)), loc)], p.drawn + 1)
  }

  /** The retried insert; the caller hears the id of the attempt that was acknowledged. */
  function PutMetadata(rows: map<DataId, Row>, meta: Metadata, loc: Locator, ids: nat -> DataId, net: R.Network)
    : (map<DataId, Row>, Option<DataId>)
  {
    var (p, ok) := R.Retried(InsertRow(meta, loc, ids), Puts(rows, 0), net, 0);
    (p.rows, if ok && p.drawn > 0 then Some(ids(p.drawn - 1)) else None)
  }

  /** AddSealed past its checks and its object put. */
  function AddOver(st: Stores, meta: Metadata, sealed: Bytes, loc: Locator,
                   ids: nat -> DataId, net: R.Network, undone: bool): Stores
  {
    var stored := PutObject(st, loc, sealed);
    var (rows, granted) := PutMetadata(st.rows, meta, loc, ids, net);
    if granted.None? && undone then DropObject(stored.(rows := rows), loc) else stored.(rows := rows)
  }

  // ---- What a network does to the insert ----

  predicate GoesOn(net: R.Network, counter: nat) {
    net(counter).reply == R.RetryableError && counter < R.MAX_ATTEMPT_COUNT
  }

  /** The attempts that took effect without the caller hearing so. */
  function Losses(net: R.Network, counter: nat): nat
    decreases R.MAX_ATTEMPT_COUNT - counter
  {
    (if net(counter).applied && net(counter).reply != R.Ack then 1 else 0)
    + (if GoesOn(net, counter) then Losses(net, counter + 1) else 0)
  }

  predicate Acknowledged(net: R.Network, counter: nat) {
    R.WithRetry(R.Reports(net), counter).final.Returned?
  }

  function Inserted(net: R.Network, counter: nat): nat {
    Losses(net, counter) + (if Acknowledged(net, counter) then 1 else 0)
  }

  function WithRows(rows: map<DataId, Row>, meta: Metadata, loc: Locator, ids: nat -> DataId, n: nat)
    : map<DataId, Row>
  {
    if n == 0 then rows
    else WithRows(rows, meta, loc, ids, n - 1)[ids(n - 1) := Row(meta.(id := ids(n - 1)), loc)]
  }

  lemma OneAttempt(net: R.Network, counter: nat)
    ensures Acknowledged(net, counter)
            <==> net(counter).reply == R.Ack || (GoesOn(net, counter) && Acknowledged(net, counter + 1))
    ensures Inserted(net, counter)
            == (if net(counter).applied then 1 else 0)
               + (if GoesOn(net, counter) then Inserted(net, counter + 1) else 0)
  {
  }

  /** One row for each lost answer and one for the acknowledged attempt, and no more. */
  lemma {:induction false} InsertsUnder(rows: map<DataId, Row>, meta: Metadata, loc: Locator, ids: nat -> DataId,
                                        net: R.Network, counter: nat, n: nat)
    ensures
      var total := n + Inserted(net, counter);
      R.Retried(InsertRow(meta, loc, ids), Puts(WithRows(rows, meta, loc, ids, n), n), net, counter)
      == (Puts(WithRows(rows, meta, loc, ids, total), total), Acknowledged(net, counter))
    decreases R.MAX_ATTEMPT_COUNT - counter
  {
    hide Inserted, Acknowledged;
    OneAttempt(net, counter);
    var before := Puts(WithRows(rows, meta, loc, ids, n), n);
    assert InsertRow(meta, loc, ids)(before) == Puts(WithRows(rows, meta, loc, ids, n + 1), n + 1);
    if GoesOn(net, counter) {
      InsertsUnder(rows, meta, loc, ids, net, counter + 1, if net(counter).applied then n + 1 else n);
    }
  }

  /** The answer is the id of the last row exactly when an attempt was acknowledged. */
  lemma PutMetadataLeaves(rows: map<DataId, Row>, meta: Metadata, loc: Locator, ids: nat -> DataId, net: R.Network)
    ensures
      var (rows', granted) := PutMetadata(rows, meta, loc, ids, net);
      && rows' == WithRows(rows, meta, loc, ids, Inserted(net, 0))
      && granted == (if Acknowledged(net, 0) then Some(ids(Losses(net, 0))) else None)
  {
    InsertsUnder(rows, meta, loc, ids, net, 0, 0);
  }

  /** The losses the bound on attempts admits: up to three before a success, four without one. */
  lemma {:induction false} LossesBounded(net: R.Network, counter: nat)
    requires counter <= R.MAX_ATTEMPT_COUNT
    ensures Inserted(net, counter) <= R.MAX_ATTEMPT_COUNT + 1 - counter
    decreases R.MAX_ATTEMPT_COUNT - counter
  {
    if GoesOn(net, counter) {
      LossesBounded(net, counter + 1);
    }
  }

  /** `lost` answers are lost in a row, then the next attempt is heard, or refused. */
  function Losing(lost: nat, heard: bool): R.Network {
    (i: nat) =>
      if i < lost then R.Fate(true, R.RetryableError)
      else if heard then R.Fate(true, R.Ack) else R.Fate(false, R.OtherError)
  }

  lemma {:induction false} LosingLoses(lost: nat, heard: bool, counter: nat)
    requires counter <= lost && counter <= R.MAX_ATTEMPT_COUNT
    requires lost + (if heard then 1 else 0) <= R.MAX_ATTEMPT_COUNT + 1
    ensures Losses(Losing(lost, heard), counter) == lost - counter
    ensures Acknowledged(Losing(lost, heard), counter) <==> heard
    decreases lost - counter
  {
    if counter < lost && counter < R.MAX_ATTEMPT_COUNT {
      LosingLoses(lost, heard, counter + 1);
    }
  }

  /** And all of them occur. */
  lemma LossesExactly(lost: nat, heard: bool)
    ensures (exists net: R.Network :: Losses(net, 0) == lost && Acknowledged(net, 0) == heard)
            <==> lost + (if heard then 1 else 0) <= 4
  {
    if lost + (if heard then 1 else 0) <= R.MAX_ATTEMPT_COUNT + 1 {
      LosingLoses(lost, heard, 0);
    } else {
      forall net: R.Network | Losses(net, 0) == lost && Acknowledged(net, 0) == heard ensures false {
        LossesBounded(net, 0);
      }
    }
  }

  // ---- What is left of consistency ----

  lemma {:induction false} RowsNameTheObject(rows: map<DataId, Row>, meta: Metadata, loc: Locator, ids: nat -> DataId,
                                             n: nat, id: DataId)
    requires NewIds(rows, ids)
    ensures
      var after := WithRows(rows, meta, loc, ids, n);
      && (id in rows ==> id in after && after[id] == rows[id])
      && (id !in rows && id in after ==> after[id].loc == loc && (n == 1 ==> id == ids(0)))
      && (n > 0 ==> ids(0) in after)
      && (n > 1 ==> ids(1) in after)
  {
    if n > 0 {
      RowsNameTheObject(rows, meta, loc, ids, n - 1, id);
    }
  }

  lemma ConsistentWith(st: Stores, meta: Metadata, sealed: Bytes, loc: Locator, ids: nat -> DataId, n: nat, kept: bool)
    requires Consistent(st) && loc !in st.objects && NewIds(st.rows, ids)
    ensures
      var objects := if kept then st.objects[loc := sealed] else st.objects[loc := sealed] - {loc};
      Consistent(Stores(objects, WithRows(st.rows, meta, loc, ids, n))) <==> n == 0 || (n == 1 && kept)
  {
    var objects := if kept then st.objects[loc := sealed] else st.objects[loc := sealed] - {loc};
    var after := Stores(objects, WithRows(st.rows, meta, loc, ids, n));
    forall id ensures
      && (id in st.rows ==> id in after.rows && after.rows[id] == st.rows[id])
      && (id !in st.rows && id in after.rows ==> after.rows[id].loc == loc && n > 0 && (n == 1 ==> id == ids(0)))
    {
      RowsNameTheObject(st.rows, meta, loc, ids, n, id);
    }
    RowsNameTheObject(st.rows, meta, loc, ids, n, ids(0));
    RowsNameTheObject(st.rows, meta, loc, ids, n, ids(1));
    if n > 1 {
      assert ids(0) in after.rows && ids(1) in after.rows && ids(0) != ids(1);
    }
  }

  /** For every network: the stores stay consistent exactly when no answer was lost, or a single one
      was, no attempt was acknowledged, and the compensating delete failed as well. Retrying the
      insert duplicates the row, and undoing the object leaves the lost row dangling. */
  lemma ConsistentIffHeard(st: Stores, meta: Metadata, sealed: Bytes, loc: Locator,
                           ids: nat -> DataId, net: R.Network, undone: bool)
    requires Consistent(st) && loc !in st.objects && NewIds(st.rows, ids)
    ensures Consistent(AddOver(st, meta, sealed, loc, ids, net, undone))
            <==> Losses(net, 0) == 0 || (Losses(net, 0) == 1 && !Acknowledged(net, 0) && !undone)
  {
    hide Consistent, Losses, Acknowledged;
    PutMetadataLeaves(st.rows, meta, loc, ids, net);
    ConsistentWith(st, meta, sealed, loc, ids, Inserted(net, 0), Acknowledged(net, 0) || !undone);
  }

  /** The two ways to break them, on any stores: a lost answer, then a success; and a lost answer,
      then an error that is not retried, with the object deleted again. */
  lemma LostAnswersBreakStores(st: Stores, meta: Metadata, sealed: Bytes, loc: Locator, ids: nat -> DataId)
    requires Consistent(st) && loc !in st.objects && NewIds(st.rows, ids)
    ensures !Consistent(AddOver(st, meta, sealed, loc, ids, Losing(1, true), true))
    ensures !Consistent(AddOver(st, meta, sealed, loc, ids, Losing(1, false), true))
  {
    hide Consistent, AddOver;
    LosingLoses(1, true, 0);
    LosingLoses(1, false, 0);
    ConsistentIffHeard(st, meta, sealed, loc, ids, Losing(1, true), true);
    ConsistentIffHeard(st, meta, sealed, loc, ids, Losing(1, false), true);
  }

  /** Without a lost answer the retried put is the single store call of the protocol. */
  lemma HeardIsOneStep(st: Stores, meta: Metadata, sealed: Bytes, loc: Locator,
                       ids: nat -> DataId, net: R.Network, undone: bool)
    requires Losses(net, 0) == 0
    ensures
      var id := if Acknowledged(net, 0) then Some(ids(0)) else None;
      AddOver(st, meta, sealed, loc, ids, net, undone) == AfterAdd(st, meta, sealed, AddEnv(Some(loc), id, undone))
  {
    hide Losses, Acknowledged;
    PutMetadataLeaves(st.rows, meta, loc, ids, net);
    assert WithRows(st.rows, meta, loc, ids, 0) == st.rows;
  }
}
