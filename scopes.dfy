/**
 * Table-scope fold: every (code, scope, table, payer) touched in the block
 * yields one TableScopeRow whose deleted flag is the last operation seen on
 * that key. No cancellation: a scope inserted and removed within the block
 * is still written, as a deletion.
 */
module TableScopes {
  import opened Events
  import opened Keyed

  /** The identity of a table scope. */
  datatype ScopeKey = ScopeKey(code: Name, scope: Name, table: Name, payer: Name)

  function KeyOf(op: TableOp): ScopeKey
  {
    ScopeKey(op.code, op.scope, op.tableName, op.payer)
  }

  function RowKey(row: TableScopeRow): ScopeKey
  {
    ScopeKey(row.account, row.scope, row.table, row.payer)
  }

  /** The row written for a key whose last operation was op. */
  function ScopeRow(k: ScopeKey, op: Operation): (row: TableScopeRow)
    ensures RowKey(row) == k
    ensures row.deleted <==> op == Remove
  {
    TableScopeRow(k.code, k.scope, k.table, op == Remove, k.payer)
  }

  /** The key of every event, in block order. */
  function ScopeKeys(ops: seq<TableOp>): (ks: seq<ScopeKey>)
    ensures |ks| == |ops|
    ensures forall i :: 0 <= i < |ops| ==> ks[i] == KeyOf(ops[i])
  {
    if ops == [] then [] else ScopeKeys(ops[..|ops| - 1]) + [KeyOf(ops[|ops| - 1])]
  }

  /** The operation of every event, in block order. */
  function Operations(ops: seq<TableOp>): (vs: seq<Operation>)
    ensures |vs| == |ops|
    ensures forall i :: 0 <= i < |ops| ==> vs[i] == ops[i].operation
  {
    if ops == [] then [] else Operations(ops[..|ops| - 1]) + [ops[|ops| - 1].operation]
  }

  /** The fold state after ops: the keys in first-seen order and the last operation on each. */
  function Scan(ops: seq<TableOp>): (seq<ScopeKey>, map<ScopeKey, Operation>)
  {
    if ops == [] then ([], map[])
    else
      var (order, last) := Scan(ops[..|ops| - 1]);
      var k := KeyOf(ops[|ops| - 1]);
      (if k in last then order else order + [k], last[k := ops[|ops| - 1].operation])
  }

  lemma {:induction false} ScanSnoc(ops: seq<TableOp>, e: TableOp)
    ensures Scan(ops + [e]) ==
      (if KeyOf(e) in Scan(ops).1 then Scan(ops).0 else Scan(ops).0 + [KeyOf(e)],
       Scan(ops).1[KeyOf(e) := e.operation])
  {
    assert (ops + [e])[..|ops|] == ops;
  }

  /**
   * The fold keeps each key once, in first-seen order, and maps it to the
   * operation of the last event on it.
   */
  lemma {:induction false} ScanMeaning(ops: seq<TableOp>)
    ensures Scan(ops).0 == FirstSeen(ScopeKeys(ops))
    ensures Scan(ops).1 == LastWins(ScopeKeys(ops), Operations(ops))
  {
    if ops != [] {
      var prefix, e := ops[..|ops| - 1], ops[|ops| - 1];
      assert ops == prefix + [e];
      ScanMeaning(prefix);
      ScanSnoc(prefix, e);
      assert ScopeKeys(ops) == ScopeKeys(prefix) + [KeyOf(e)];
      assert Operations(ops) == Operations(prefix) + [e.operation];
      FirstSeenSnoc(ScopeKeys(prefix), KeyOf(e));
      LastWinsSnoc(ScopeKeys(prefix), Operations(prefix), KeyOf(e), e.operation);
    }
  }

  /** One row per key of order, carrying the last operation recorded for it. */
  function EmitScopes(order: seq<ScopeKey>, last: map<ScopeKey, Operation>): (rows: seq<TableScopeRow>)
    requires forall k :: k in order ==> k in last
    ensures |rows| == |order|
    ensures forall i :: 0 <= i < |order| ==> rows[i] == ScopeRow(order[i], last[order[i]])
  {
    if order == [] then []
    else EmitScopes(order[..|order| - 1], last) + [ScopeRow(order[|order| - 1], last[order[|order| - 1]])]
  }

  /** The TableScopes collection of the WriteRequest for the block's table-scope events. */
  function TableScopeRows(ops: seq<TableOp>): seq<TableScopeRow>
  {
    ScanMeaning(ops);
    EmitScopes(Scan(ops).0, Scan(ops).1)
  }

  lemma {:induction false} EmitScopesOn(order: seq<ScopeKey>, last: map<ScopeKey, Operation>, k: ScopeKey)
    requires Distinct(order)
    requires forall k' :: k' in order ==> k' in last
    ensures RowsOn(EmitScopes(order, last), RowKey, k) == if k in order then [ScopeRow(k, last[k])] else []
  {
    if order != [] {
      var prefix, x := order[..|order| - 1], order[|order| - 1];
      assert order == prefix + [x];
      EmitScopesOn(prefix, last, k);
      EmitScopesSnoc(prefix, x, last);
      RowsOnSnoc(EmitScopes(prefix, last), ScopeRow(x, last[x]), RowKey, k);
    }
  }

  /**
   * Last operation wins, and every touched key is written: the rows about
   * key k are exactly one row, deleted iff the last event on k was REMOVE,
   * when some event touched k, and none otherwise.
   */
  lemma {:induction false} TableScopeRowsOn(ops: seq<TableOp>, k: ScopeKey)
    ensures RowsOn(TableScopeRows(ops), RowKey, k) ==
      if k in ScopeKeys(ops) then [ScopeRow(k, ops[LastIndex(ScopeKeys(ops), k)].operation)] else []
  {
    ScanMeaning(ops);
    EmitScopesOn(Scan(ops).0, Scan(ops).1, k);
  }

  /** Rows come out in the order in which their keys were first touched. */
  lemma {:induction false} TableScopeRowsOrdered(ops: seq<TableOp>)
    ensures forall i :: 0 <= i < |TableScopeRows(ops)| ==> RowKey(TableScopeRows(ops)[i]) in ScopeKeys(ops)
    ensures forall i, j :: 0 <= i < j < |TableScopeRows(ops)| ==>
      FirstIndex(ScopeKeys(ops), RowKey(TableScopeRows(ops)[i])) <
      FirstIndex(ScopeKeys(ops), RowKey(TableScopeRows(ops)[j]))
  {
    var ks, rows := ScopeKeys(ops), TableScopeRows(ops);
    RowKeysFirstSeen(ops);
    FirstSeenOrdered(ks);
    forall i, j | 0 <= i < j < |rows|
      ensures FirstIndex(ks, RowKey(rows[i])) < FirstIndex(ks, RowKey(rows[j]))
    {
      assert RowKey(rows[i]) == FirstSeen(ks)[i] && RowKey(rows[j]) == FirstSeen(ks)[j];
    }
  }

  /** The rows' keys are the touched keys in first-seen order. */
  lemma {:induction false} RowKeysFirstSeen(ops: seq<TableOp>)
    ensures |TableScopeRows(ops)| == |FirstSeen(ScopeKeys(ops))|
    ensures forall i :: 0 <= i < |TableScopeRows(ops)| ==>
      RowKey(TableScopeRows(ops)[i]) == FirstSeen(ScopeKeys(ops))[i] && FirstSeen(ScopeKeys(ops))[i] in ScopeKeys(ops)
  {
    ScanMeaning(ops);
  }

  /** One scan over the block's table-scope events, in block order. */
  method ScanTableScopes(traces: seq<TransactionTrace>) returns (order: seq<ScopeKey>, last: map<ScopeKey, Operation>)
    ensures (order, last) == Scan(TableOpsOf(traces))
  {
    order, last := [], map[];
    for t := 0 to |traces|
      invariant (order, last) == Scan(TableOpsOf(traces[..t]))
    {
      order, last := ScanTrace(order, last, TableOpsOf(traces[..t]), traces[t].tableOps);
      EventsOfNextTrace(traces, t);
    }
    SliceAll(traces);
  }

  /** Folds one transaction's table-scope events into the state left by the earlier ones. */
  method ScanTrace(order0: seq<ScopeKey>, last0: map<ScopeKey, Operation>, ghost before: seq<TableOp>, ops: seq<TableOp>)
    returns (order: seq<ScopeKey>, last: map<ScopeKey, Operation>)
    requires (order0, last0) == Scan(before)
    ensures (order, last) == Scan(before + ops)
  {
    order, last := order0, last0;
    assert before + ops[..0] == before;
    for i := 0 to |ops|
      invariant (order, last) == Scan(before + ops[..i])
    {
      SliceSnoc(ops, i);
      AppendAssoc(before, ops[..i], [ops[i]]);
      ScanSnoc(before + ops[..i], ops[i]);
      var k := KeyOf(ops[i]);
      if k !in last {
        order := order + [k];
      }
      last := last[k := ops[i].operation];
    }
    SliceAll(ops);
  }

  /** The reducer's table-scope pass: scan the block, then write one row per key. */
  method ReduceTableScopes(traces: seq<TransactionTrace>) returns (rows: seq<TableScopeRow>)
    ensures rows == TableScopeRows(TableOpsOf(traces))
  {
    var order, last := ScanTableScopes(traces);
    ScanMeaning(TableOpsOf(traces));
    rows := EmitTableScopes(order, last);
  }

  lemma {:induction false} EmitScopesSnoc(order: seq<ScopeKey>, k: ScopeKey, last: map<ScopeKey, Operation>)
    requires forall k' :: k' in order ==> k' in last
    requires k in last
    ensures EmitScopes(order + [k], last) == EmitScopes(order, last) + [ScopeRow(k, last[k])]
  {
    assert (order + [k])[..|order|] == order;
  }

  /** Writes one row per key of order, carrying the key's last operation, in that order. */
  method EmitTableScopes(order: seq<ScopeKey>, last: map<ScopeKey, Operation>) returns (rows: seq<TableScopeRow>)
    requires forall k :: k in order ==> k in last
    ensures rows == EmitScopes(order, last)
  {
    rows := [];
    for i := 0 to |order|
      invariant rows == EmitScopes(order[..i], last)
    {
      SliceSnoc(order, i);
      EmitScopesSnoc(order[..i], order[i], last);
      rows := rows + [ScopeRow(order[i], last[order[i]])];
    }
    SliceAll(order);
  }
}
