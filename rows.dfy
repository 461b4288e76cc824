/**
 * Row fold: the events on one (code, scope, table, primary key) are reduced
 * to the first event's operation and old payer/data and the last event's
 * operation and new payer/data. From those the block writes nothing (no net
 * change, or a row born and removed within the block), a live row with the
 * last payer and data, or a tombstone.
 */
module TableDatas {
  import opened Events
  import opened Keyed

  /** The identity of a contract table row. */
  datatype DataKey = DataKey(code: Name, scope: Name, table: Name, primaryKey: Name)

  function KeyOf(op: DbOp): DataKey
  {
    DataKey(op.code, op.scope, op.tableName, op.primaryKey)
  }

  function RowKeyOf(row: TableDataRow): DataKey
  {
    DataKey(row.account, row.scope, row.table, row.primKey)
  }

  /** A live row for k carrying payer and data. */
  function LiveRow(k: DataKey, payer: Name, data: Bytes): TableDataRow
  {
    TableDataRow(k.code, k.scope, k.table, k.primaryKey, payer, false, data)
  }

  /** A deletion of k: empty payer, no data. */
  function Tombstone(k: DataKey): TableDataRow
  {
    TableDataRow(k.code, k.scope, k.table, k.primaryKey, "", true, [])
  }

  /**
   * Per-key fold state: the first event's operation and old payer/data (the
   * row as it stood before the block), the last event's operation and new
   * payer/data (the row as the block leaves it).
   */
  datatype RowState = RowState(
    firstOp: Operation, oldPayer: Name, oldData: Bytes,
    lastOp: Operation, newPayer: Name, newData: Bytes)

  /** The state left by a run of events on one key that starts with first and ends with last. */
  function Span(first: DbOp, last: DbOp): RowState
  {
    RowState(first.operation, first.oldPayer, first.oldData, last.operation, last.newPayer, last.newData)
  }

  /** The key of every event, in block order. */
  function RowKeys(ops: seq<DbOp>): (ks: seq<DataKey>)
    ensures |ks| == |ops|
    ensures forall i :: 0 <= i < |ops| ==> ks[i] == KeyOf(ops[i])
  {
    if ops == [] then [] else RowKeys(ops[..|ops| - 1]) + [KeyOf(ops[|ops| - 1])]
  }

  /** The first and the last event on a touched key. */
  function FirstOn(ops: seq<DbOp>, k: DataKey): DbOp
    requires k in RowKeys(ops)
  {
    ops[FirstIndex(RowKeys(ops), k)]
  }

  function LastOn(ops: seq<DbOp>, k: DataKey): DbOp
    requires k in RowKeys(ops)
  {
    ops[LastIndex(RowKeys(ops), k)]
  }

  /**
   * The fold state after ops: the keys in first-seen order and, per key, the
   * state kept so far. The first event on a key starts its state; every later
   * one replaces only the last operation and new payer/data.
   */
  function Scan(ops: seq<DbOp>): (seq<DataKey>, map<DataKey, RowState>)
  {
    if ops == [] then ([], map[])
    else
      var (order, states) := Scan(ops[..|ops| - 1]);
      var e := ops[|ops| - 1];
      var k := KeyOf(e);
      if k in states then
        (order, states[k := states[k].(lastOp := e.operation, newPayer := e.newPayer, newData := e.newData)])
      else
        (order + [k], states[k := Span(e, e)])
  }

  lemma {:induction false} ScanSnoc(ops: seq<DbOp>, e: DbOp)
    ensures Scan(ops + [e]) ==
      var (order, states) := Scan(ops);
      var k := KeyOf(e);
      if k in states then
        (order, states[k := states[k].(lastOp := e.operation, newPayer := e.newPayer, newData := e.newData)])
      else
        (order + [k], states[k := Span(e, e)])
  {
    assert (ops + [e])[..|ops|] == ops;
  }

  /** The fold keeps each touched key once, in first-seen order. */
  lemma {:induction false} ScanOrder(ops: seq<DbOp>)
    ensures Scan(ops).0 == FirstSeen(RowKeys(ops))
    ensures forall k :: k in Scan(ops).1 <==> k in RowKeys(ops)
  {
    if ops != [] {
      var prefix, e := ops[..|ops| - 1], ops[|ops| - 1];
      assert ops == prefix + [e];
      ScanOrder(prefix);
      ScanSnoc(prefix, e);
      assert RowKeys(ops) == RowKeys(prefix) + [KeyOf(e)];
      FirstSeenSnoc(RowKeys(prefix), KeyOf(e));
    }
  }

  /** The state the fold keeps for a touched key is what its first and last events determine. */
  lemma {:induction false} ScanStateOn(ops: seq<DbOp>, k: DataKey)
    requires k in RowKeys(ops)
    ensures k in Scan(ops).1 && Scan(ops).1[k] == Span(FirstOn(ops, k), LastOn(ops, k))
  {
    var prefix, e := ops[..|ops| - 1], ops[|ops| - 1];
    assert ops == prefix + [e];
    ScanOrder(prefix);
    ScanSnoc(prefix, e);
    var ks, ks', x := RowKeys(ops), RowKeys(prefix), KeyOf(e);
    assert ks == ks' + [x];
    if k == x {
      assert LastIndex(ks, k) == |prefix|;
      if x in ks' {
        ScanStateOn(prefix, k);
        FirstIndexSnoc(ks', x, k);
      } else {
        assert FirstIndex(ks, k) == |prefix|;
      }
    } else {
      ScanStateOn(prefix, k);
      FirstIndexSnoc(ks', x, k);
      LastIndexSnoc(ks', x, k);
    }
  }

  /**
   * The write for key k at the end of the block: a removal erases a row
   * that existed before the block and cancels one born within it; otherwise
   * a row is written only when it differs from where it started.
   */
  function Decide(k: DataKey, s: RowState): (r: Option<TableDataRow>)
    ensures r.Some? ==> RowKeyOf(r.value) == k
    ensures r.Some? ==> (r.value.deleted <==> s.lastOp == Remove)
  {
    if s.lastOp == Remove then
      if s.firstOp == Insert then None else Some(Tombstone(k))
    else if s.oldPayer == s.newPayer && s.oldData == s.newData then None
    else Some(LiveRow(k, s.newPayer, s.newData))
  }

  function AsSeq<T>(o: Option<T>): seq<T>
  {
    if o.Some? then [o.value] else []
  }

  /** The writes for the keys of order, in that order. */
  function EmitRows(order: seq<DataKey>, states: map<DataKey, RowState>): seq<TableDataRow>
    requires forall k :: k in order ==> k in states
  {
    if order == [] then []
    else
      var k := order[|order| - 1];
      EmitRows(order[..|order| - 1], states) + AsSeq(Decide(k, states[k]))
  }

  /** The writes of EmitRows are about keys of order, in the order those keys occupy. */
  lemma {:induction false} EmitRowsRanked(order: seq<DataKey>, states: map<DataKey, RowState>)
    requires Distinct(order)
    requires forall k :: k in order ==> k in states
    ensures forall i :: 0 <= i < |EmitRows(order, states)| ==> RowKeyOf(EmitRows(order, states)[i]) in order
    ensures forall i, j :: 0 <= i < j < |EmitRows(order, states)| ==>
      FirstIndex(order, RowKeyOf(EmitRows(order, states)[i])) < FirstIndex(order, RowKeyOf(EmitRows(order, states)[j]))
  {
    if order != [] {
      var prefix, x := order[..|order| - 1], order[|order| - 1];
      assert order == prefix + [x];
      DistinctSnoc(prefix, x);
      assert forall k :: k in prefix ==> k in order;
      EmitRowsRanked(prefix, states);
      var rows' := EmitRows(prefix, states);
      var rows := rows' + AsSeq(Decide(x, states[x]));
      assert EmitRows(order, states) == rows;
      forall i | 0 <= i < |rows'|
        ensures RowKeyOf(rows[i]) in order && FirstIndex(order, RowKeyOf(rows[i])) == FirstIndex(prefix, RowKeyOf(rows'[i]))
      {
        assert rows[i] == rows'[i];
        FirstIndexSnoc(prefix, x, RowKeyOf(rows'[i]));
      }
      if |rows| > |rows'| {
        assert RowKeyOf(rows[|rows'|]) == x;
        assert FirstIndex(order, x) == |prefix|;
      }
    }
  }

  /** The TableDatas collection of the WriteRequest for the block's row events. */
  function TableDataRows(ops: seq<DbOp>): seq<TableDataRow>
  {
    ScanOrder(ops);
    EmitRows(Scan(ops).0, Scan(ops).1)
  }

  lemma {:induction false} RowsOnAppend(rows: seq<TableDataRow>, o: Option<TableDataRow>, k: DataKey)
    ensures RowsOn(rows + AsSeq(o), RowKeyOf, k) ==
      RowsOn(rows, RowKeyOf, k) + (if o.Some? && RowKeyOf(o.value) == k then [o.value] else [])
  {
    if o.Some? {
      RowsOnSnoc(rows, o.value, RowKeyOf, k);
    } else {
      assert rows + [] == rows;
    }
  }

  lemma {:induction false} EmitRowsOn(order: seq<DataKey>, states: map<DataKey, RowState>, k: DataKey)
    requires Distinct(order)
    requires forall k' :: k' in order ==> k' in states
    ensures RowsOn(EmitRows(order, states), RowKeyOf, k) == if k in order then AsSeq(Decide(k, states[k])) else []
  {
    if order != [] {
      var prefix, x := order[..|order| - 1], order[|order| - 1];
      assert order == prefix + [x];
      EmitRowsOn(prefix, states, k);
      RowsOnAppend(EmitRows(prefix, states), Decide(x, states[x]), k);
    }
  }

  /**
   * The block's writes for key k, stated by the first and the last event on
   * k alone: nothing for an untouched key; for a touched one a tombstone when
   * it ends removed after a first UPDATE or REMOVE, nothing when it ends
   * removed after a first INSERT, nothing when it ends where it started, and
   * otherwise one live row with the last payer and data.
   */
  lemma {:induction false} TableDataRowsOn(ops: seq<DbOp>, k: DataKey)
    ensures k !in RowKeys(ops) ==> RowsOn(TableDataRows(ops), RowKeyOf, k) == []
    ensures k in RowKeys(ops) ==>
      var first, last := FirstOn(ops, k), LastOn(ops, k);
      RowsOn(TableDataRows(ops), RowKeyOf, k) ==
        if last.operation == Remove then
          (if first.operation == Insert then [] else [Tombstone(k)])
        else if first.oldPayer == last.newPayer && first.oldData == last.newData then []
        else [LiveRow(k, last.newPayer, last.newData)]
  {
    ScanOrder(ops);
    EmitRowsOn(Scan(ops).0, Scan(ops).1, k);
    if k in RowKeys(ops) {
      ScanStateOn(ops, k);
    }
  }

  /** A key whose last event leaves it where its first event found it gets no write. */
  /**
   * TableDatas holds rows only for keys the block's row events touched, in
   * the order their keys were first touched.
   */
  lemma {:induction false} TableDataRowsOrdered(ops: seq<DbOp>)
    ensures forall i :: 0 <= i < |TableDataRows(ops)| ==> RowKeyOf(TableDataRows(ops)[i]) in RowKeys(ops)
    ensures forall i, j :: 0 <= i < j < |TableDataRows(ops)| ==>
      FirstIndex(RowKeys(ops), RowKeyOf(TableDataRows(ops)[i])) < FirstIndex(RowKeys(ops), RowKeyOf(TableDataRows(ops)[j]))
  {
    var ks, rows := RowKeys(ops), TableDataRows(ops);
    ScanOrder(ops);
    var order := FirstSeen(ks);
    EmitRowsRanked(order, Scan(ops).1);
    FirstSeenOrdered(ks);
    forall i, j | 0 <= i < j < |rows|
      ensures FirstIndex(ks, RowKeyOf(rows[i])) < FirstIndex(ks, RowKeyOf(rows[j]))
    {
      var p, q := FirstIndex(order, RowKeyOf(rows[i])), FirstIndex(order, RowKeyOf(rows[j]));
      assert order[p] == RowKeyOf(rows[i]) && order[q] == RowKeyOf(rows[j]);
    }
  }

  lemma {:induction false} NoNetChangeWritesNothing(ops: seq<DbOp>, k: DataKey)
    requires k in RowKeys(ops)
    requires LastOn(ops, k).operation != Remove
    requires FirstOn(ops, k).oldPayer == LastOn(ops, k).newPayer
    requires FirstOn(ops, k).oldData == LastOn(ops, k).newData
    ensures RowsOn(TableDataRows(ops), RowKeyOf, k) == []
  {
    TableDataRowsOn(ops, k);
  }

  /** A key left changed and present gets one live row with exactly the last payer and data. */
  lemma {:induction false} LastValueWins(ops: seq<DbOp>, k: DataKey)
    requires k in RowKeys(ops)
    requires LastOn(ops, k).operation != Remove
    requires FirstOn(ops, k).oldPayer != LastOn(ops, k).newPayer || FirstOn(ops, k).oldData != LastOn(ops, k).newData
    ensures RowsOn(TableDataRows(ops), RowKeyOf, k) == [LiveRow(k, LastOn(ops, k).newPayer, LastOn(ops, k).newData)]
  {
    TableDataRowsOn(ops, k);
  }

  /** A row that existed before the block and ends removed gets exactly one tombstone, whatever came between. */
  lemma {:induction false} RemovedExistingRowTombstones(ops: seq<DbOp>, k: DataKey)
    requires k in RowKeys(ops)
    requires FirstOn(ops, k).operation in {Update, Remove}
    requires LastOn(ops, k).operation == Remove
    ensures RowsOn(TableDataRows(ops), RowKeyOf, k) == [Tombstone(k)]
  {
    TableDataRowsOn(ops, k);
  }

  /** A row inserted and removed within the block leaves no write, whatever came between. */
  lemma {:induction false} InsertThenRemoveCancels(ops: seq<DbOp>, k: DataKey)
    requires k in RowKeys(ops)
    requires FirstOn(ops, k).operation == Insert
    requires LastOn(ops, k).operation == Remove
    ensures RowsOn(TableDataRows(ops), RowKeyOf, k) == []
  {
    TableDataRowsOn(ops, k);
  }

  /** When every event is on key k, the block's writes are exactly its writes for k. */
  lemma {:induction false} OneKeyRows(ops: seq<DbOp>, k: DataKey)
    requires forall i :: 0 <= i < |ops| ==> KeyOf(ops[i]) == k
    ensures TableDataRows(ops) == RowsOn(TableDataRows(ops), RowKeyOf, k)
  {
    if ops != [] {
      ScanOrder(ops);
      var ks := RowKeys(ops);
      var order := FirstSeen(ks);
      FirstSeenConst(ks, k);
      var states := Scan(ops).1;
      EmitRowsOn(order, states, k);
      assert order[..0] == [];
    }
  }

  /**
   * A block whose events are all on key k writes what its first and last
   * events decide for k, and nothing else.
   */
  lemma {:induction false} OneKeyDecision(ops: seq<DbOp>, k: DataKey)
    requires ops != []
    requires forall i :: 0 <= i < |ops| ==> KeyOf(ops[i]) == k
    ensures TableDataRows(ops) == AsSeq(Decide(k, Span(ops[0], ops[|ops| - 1])))
  {
    OneKeyRows(ops, k);
    var ks := RowKeys(ops);
    assert ks[0] == k;
    assert FirstIndex(ks, k) == 0;
    assert LastIndex(ks, k) == |ops| - 1;
    TableDataRowsOn(ops, k);
  }

  lemma {:induction false} EmitRowsAllWritten(order: seq<DataKey>, states: map<DataKey, RowState>)
    requires forall k :: k in order ==> k in states && Decide(k, states[k]).Some?
    ensures |EmitRows(order, states)| == |order|
    ensures forall i :: 0 <= i < |order| ==> EmitRows(order, states)[i] == Decide(order[i], states[order[i]]).value
  {
    if order != [] {
      var prefix, x := order[..|order| - 1], order[|order| - 1];
      assert order == prefix + [x];
      assert forall k :: k in prefix ==> k in order;
      EmitRowsAllWritten(prefix, states);
      var rows', rows := EmitRows(prefix, states), EmitRows(order, states);
      assert rows == rows' + [Decide(x, states[x]).value];
      forall i | 0 <= i < |order|
        ensures rows[i] == Decide(order[i], states[order[i]]).value
      {
        if i < |prefix| {
          assert rows[i] == rows'[i] && order[i] == prefix[i];
        }
      }
    }
  }

  /**
   * Inserts on pairwise distinct keys, each writing something new, give one
   * live row per event, in event order, carrying that event's payer and data.
   */
  lemma {:induction false} DistinctInsertsWriteInOrder(ops: seq<DbOp>)
    requires Distinct(RowKeys(ops))
    requires forall i :: 0 <= i < |ops| ==> ops[i].operation == Insert
    requires forall i :: 0 <= i < |ops| ==> ops[i].oldPayer != ops[i].newPayer || ops[i].oldData != ops[i].newData
    ensures |TableDataRows(ops)| == |ops|
    ensures forall i :: 0 <= i < |ops| ==>
      TableDataRows(ops)[i] == LiveRow(KeyOf(ops[i]), ops[i].newPayer, ops[i].newData)
  {
    var ks := RowKeys(ops);
    ScanOrder(ops);
    FirstSeenDistinct(ks);
    var states := Scan(ops).1;
    FreshInsertsDecided(ops);
    forall k | k in ks
      ensures k in states && Decide(k, states[k]).Some?
    {
      var i :| 0 <= i < |ks| && ks[i] == k;
    }
    EmitRowsAllWritten(ks, states);
  }

  lemma {:induction false} FreshInsertsDecided(ops: seq<DbOp>)
    requires Distinct(RowKeys(ops))
    requires forall i :: 0 <= i < |ops| ==> ops[i].operation == Insert
    requires forall i :: 0 <= i < |ops| ==> ops[i].oldPayer != ops[i].newPayer || ops[i].oldData != ops[i].newData
    ensures forall i :: 0 <= i < |ops| ==>
      RowKeys(ops)[i] in Scan(ops).1 &&
      Decide(RowKeys(ops)[i], Scan(ops).1[RowKeys(ops)[i]]) == Some(LiveRow(RowKeys(ops)[i], ops[i].newPayer, ops[i].newData))
  {
    var ks := RowKeys(ops);
    forall i | 0 <= i < |ops|
      ensures ks[i] in Scan(ops).1 && Decide(ks[i], Scan(ops).1[ks[i]]) == Some(LiveRow(ks[i], ops[i].newPayer, ops[i].newData))
    {
      ScanStateOn(ops, ks[i]);
      assert FirstIndex(ks, ks[i]) == i;
      assert LastIndex(ks, ks[i]) == i;
      FreshInsertWrites(ks[i], ops[i]);
    }
  }

  lemma {:induction false} FreshInsertWrites(k: DataKey, e: DbOp)
    requires e.operation == Insert && (e.oldPayer != e.newPayer || e.oldData != e.newData)
    ensures Decide(k, Span(e, e)) == Some(LiveRow(k, e.newPayer, e.newData))
  {
  }

  /** One scan over the block's row events, in block order. */
  method ScanTableDatas(traces: seq<TransactionTrace>) returns (order: seq<DataKey>, states: map<DataKey, RowState>)
    ensures (order, states) == Scan(DbOpsOf(traces))
  {
    order, states := [], map[];
    for t := 0 to |traces|
      invariant (order, states) == Scan(DbOpsOf(traces[..t]))
    {
      order, states := ScanTrace(order, states, DbOpsOf(traces[..t]), traces[t].dbOps);
      EventsOfNextTrace(traces, t);
    }
    SliceAll(traces);
  }

  /** Folds one transaction's row events into the state left by the earlier ones. */
  method ScanTrace(order0: seq<DataKey>, states0: map<DataKey, RowState>, ghost before: seq<DbOp>, ops: seq<DbOp>)
    returns (order: seq<DataKey>, states: map<DataKey, RowState>)
    requires (order0, states0) == Scan(before)
    ensures (order, states) == Scan(before + ops)
  {
    order, states := order0, states0;
    assert before + ops[..0] == before;
    for i := 0 to |ops|
      invariant (order, states) == Scan(before + ops[..i])
    {
      SliceSnoc(ops, i);
      AppendAssoc(before, ops[..i], [ops[i]]);
      ScanSnoc(before + ops[..i], ops[i]);
      var e := ops[i];
      var k := KeyOf(e);
      if k in states {
        states := states[k := states[k].(lastOp := e.operation, newPayer := e.newPayer, newData := e.newData)];
      } else {
        order := order + [k];
        states := states[k := RowState(e.operation, e.oldPayer, e.oldData, e.operation, e.newPayer, e.newData)];
      }
    }
    SliceAll(ops);
  }

  /** The reducer's row pass: scan the block, then decide each key's write in first-seen order. */
  method ReduceTableDatas(traces: seq<TransactionTrace>) returns (rows: seq<TableDataRow>)
    ensures rows == TableDataRows(DbOpsOf(traces))
  {
    var order, states := ScanTableDatas(traces);
    ScanOrder(DbOpsOf(traces));
    rows := EmitTableDatas(order, states);
  }

  lemma {:induction false} EmitRowsSnoc(order: seq<DataKey>, k: DataKey, states: map<DataKey, RowState>)
    requires forall k' :: k' in order ==> k' in states
    requires k in states
    ensures EmitRows(order + [k], states) == EmitRows(order, states) + AsSeq(Decide(k, states[k]))
  {
    assert (order + [k])[..|order|] == order;
  }

  /** Writes the decision of every key of order that has one, in that order. */
  method EmitTableDatas(order: seq<DataKey>, states: map<DataKey, RowState>) returns (rows: seq<TableDataRow>)
    requires forall k :: k in order ==> k in states
    ensures rows == EmitRows(order, states)
  {
    rows := [];
    for i := 0 to |order|
      invariant rows == EmitRows(order[..i], states)
    {
      SliceSnoc(order, i);
      EmitRowsSnoc(order[..i], order[i], states);
      var write := Decide(order[i], states[order[i]]);
      if write.Some? {
        rows := rows + [write.value];
      }
    }
    SliceAll(order);
  }
}
