/**
 * The reducer's behaviour on the row events of its test suite: nine
 * sequences of row events, each with the TableDatas the suite expects, and
 * the block that carries such a sequence in its first transaction. The
 * cases are stated on Ev terms; FixtureBuildsEv shows that the fixture's
 * strings build exactly those events, and DbOpsBlock that the reducer on
 * the block returns TableDataRows of them, so together each lemma is the
 * suite's case from its strings to the reducer's output.
 */
module Scenarios {
  import opened Events
  import opened Keyed
  import opened Fixtures
  import TableScopes
  import TableDatas
  import KeyAccounts
  import Preproc

  /** A row event on table eosio/scope/table1, as the row fixtures build it. */
  function Ev(o: Operation, key: Name, oldPayer: Name, newPayer: Name, oldData: string, newData: string): DbOp
  {
    DbOp(o, "eosio", "scope", "table1", key, oldPayer, newPayer, Utf8(oldData), Utf8(newData))
  }

  /** The fixture turns "eosio/scope/table1/<key>", "<old>/<new>" payers and data into exactly that event. */
  lemma {:induction false} FixtureBuildsEv(o: Operation, key: Name, oldPayer: Name, newPayer: Name, oldData: string, newData: string)
    requires o != Unknown && '/' !in oldPayer && '/' !in oldData
    ensures TestDbOp(OpCode(o), "eosio/scope/table1/" + key, oldPayer + "/" + newPayer, oldData + "/" + newData)
      == Some(Ev(o, key, oldPayer, newPayer, oldData, newData))
  {
    var code, scope, table := "eosio", "scope", "table1";
    assert code + "/" + scope + "/" + table + "/" + key == "eosio/scope/table1/" + key;
    TestDbOpFields(o, code, scope, table, key, oldPayer, newPayer, oldData, newData);
  }

  const Key1 := TableDatas.DataKey("eosio", "scope", "table1", "key1")
  const Key2 := TableDatas.DataKey("eosio", "scope", "table1", "key2")

  /** An update that leaves payer and data as they were writes nothing. */
  lemma {:induction false} UnchangedUpdate()
    ensures TableDatas.TableDataRows([Ev(Update, "key1", "payer", "payer", "data", "data")]) == []
  {
    TableDatas.OneKeyDecision([Ev(Update, "key1", "payer", "payer", "data", "data")], Key1);
  }

  /** Two inserts on different keys write two live rows, in event order. */
  lemma {:induction false} TwoKeysTwoWrites()
    ensures TableDatas.TableDataRows([Ev(Insert, "key1", "", "payer1", "", "d1"), Ev(Insert, "key2", "", "payer2", "", "d2")])
      == [TableDatas.LiveRow(Key1, "payer1", Utf8("d1")), TableDatas.LiveRow(Key2, "payer2", Utf8("d2"))]
  {
    var ops := [Ev(Insert, "key1", "", "payer1", "", "d1"), Ev(Insert, "key2", "", "payer2", "", "d2")];
    assert TableDatas.RowKeys(ops) == [Key1, Key2];
    TableDatas.DistinctInsertsWriteInOrder(ops);
  }

  /** Of two updates, the second one's payer and data stick. */
  lemma {:induction false} TwoUpdatesOneSticks()
    ensures TableDatas.TableDataRows([Ev(Update, "key1", "payer1", "payer1", "d0", "d1"), Ev(Update, "key1", "payer1", "payer1", "d1", "d2")])
      == [TableDatas.LiveRow(Key1, "payer1", Utf8("d2"))]
  {
    Utf8Ascii("d0");
    Utf8Ascii("d2");
    assert Utf8("d0")[1] != Utf8("d2")[1];
    TableDatas.OneKeyDecision([Ev(Update, "key1", "payer1", "payer1", "d0", "d1"), Ev(Update, "key1", "payer1", "payer1", "d1", "d2")], Key1);
  }

  /** Removing a row that existed writes a tombstone. */
  lemma {:induction false} RemoveTakesItOut()
    ensures TableDatas.TableDataRows([Ev(Remove, "key1", "payer1", "", "d0", "")]) == [TableDatas.Tombstone(Key1)]
  {
    TableDatas.OneKeyDecision([Ev(Remove, "key1", "payer1", "", "d0", "")], Key1);
  }

  /** Updates followed by a removal keep the removal. */
  lemma {:induction false} UpdateUpdateRemove()
    ensures TableDatas.TableDataRows([Ev(Update, "key1", "payer1", "payer1", "d0", "d1"), Ev(Update, "key1", "payer1", "payer1", "d1", "d2"),
      Ev(Remove, "key1", "payer1", "", "d2", "")]) == [TableDatas.Tombstone(Key1)]
  {
    TableDatas.OneKeyDecision([Ev(Update, "key1", "payer1", "payer1", "d0", "d1"), Ev(Update, "key1", "payer1", "payer1", "d1", "d2"),
      Ev(Remove, "key1", "payer1", "", "d2", "")], Key1);
  }

  /** A removal, re-insertion and removal after an update still keep the removal. */
  lemma {:induction false} UpdateRemoveInsertRemove()
    ensures TableDatas.TableDataRows([Ev(Update, "key1", "payer1", "payer1", "d0", "d1"), Ev(Remove, "key1", "payer1", "", "d1", ""),
      Ev(Insert, "key1", "", "payer1", "", "d2"), Ev(Remove, "key1", "payer1", "", "d2", "")]) == [TableDatas.Tombstone(Key1)]
  {
    TableDatas.OneKeyDecision([Ev(Update, "key1", "payer1", "payer1", "d0", "d1"), Ev(Remove, "key1", "payer1", "", "d1", ""),
      Ev(Insert, "key1", "", "payer1", "", "d2"), Ev(Remove, "key1", "payer1", "", "d2", "")], Key1);
  }

  /** An insert and its removal cancel out. */
  lemma {:induction false} InsertRemoveGobbled()
    ensures TableDatas.TableDataRows([Ev(Insert, "key1", "", "payer1", "", "d1"), Ev(Remove, "key1", "payer1", "", "d1", "")]) == []
  {
    TableDatas.OneKeyDecision([Ev(Insert, "key1", "", "payer1", "", "d1"), Ev(Remove, "key1", "payer1", "", "d1", "")], Key1);
  }

  /** Repeated insert and removal pairs cancel out. */
  lemma {:induction false} RepeatedInsertRemoveGobbled()
    ensures TableDatas.TableDataRows([Ev(Insert, "key1", "", "payer1", "", "d1"), Ev(Remove, "key1", "payer1", "", "d1", ""),
      Ev(Insert, "key1", "", "payer1", "", "d1"), Ev(Remove, "key1", "payer1", "", "d1", "")]) == []
  {
    TableDatas.OneKeyDecision([Ev(Insert, "key1", "", "payer1", "", "d1"), Ev(Remove, "key1", "payer1", "", "d1", ""),
      Ev(Insert, "key1", "", "payer1", "", "d1"), Ev(Remove, "key1", "payer1", "", "d1", "")], Key1);
  }

  /** An insert, updates and a removal cancel out. */
  lemma {:induction false} InsertUpdatesRemoveGobbled()
    ensures TableDatas.TableDataRows([Ev(Insert, "key1", "", "payer1", "", "d1"), Ev(Update, "key1", "payer1", "payer1", "d1", "d2"),
      Ev(Update, "key1", "payer1", "payer1", "d2", "d3"), Ev(Remove, "key1", "payer1", "", "d3", "")]) == []
  {
    TableDatas.OneKeyDecision([Ev(Insert, "key1", "", "payer1", "", "d1"), Ev(Update, "key1", "payer1", "payer1", "d1", "d2"),
      Ev(Update, "key1", "payer1", "payer1", "d2", "d3"), Ev(Remove, "key1", "payer1", "", "d3", "")], Key1);
  }

  /** Row events placed in the first of a block's two transactions reduce to the row fold of those events. */
  lemma {:induction false} FirstTraceRows(ops: seq<DbOp>)
    ensures Preproc.Reduce(Block([TransactionTrace([], ops, []), TransactionTrace([], [], [])])).tableDatas
      == TableDatas.TableDataRows(ops)
  {
    var t0, t1 := TransactionTrace([], ops, []), TransactionTrace([], [], []);
    assert [t0, t1][..1] == [t0];
    assert [t0][..0] == [];
    assert DbOpsOf([t0]) == ops;
    assert DbOpsOf([t0, t1]) == ops + [];
    assert ops + [] == ops;
  }

  /**
   * One case of the row-event table as a block: the events go into the
   * first of two transactions, the reducer runs, and its TableDatas are the
   * row fold of the events.
   */
  method DbOpsBlock(ops: seq<DbOp>) returns (rows: seq<TableDataRow>)
    ensures rows == TableDatas.TableDataRows(ops)
  {
    var req := Preproc.PreprocessBlock(Block([TransactionTrace([], ops, []), TransactionTrace([], [], [])]));
    rows := req.tableDatas;
    FirstTraceRows(ops);
  }
}

module TableOpsScenario {
  import opened Events
  import opened TableScopes
  import Preproc

  const Ops0 := [
    TableOp(Insert, "eosio", "eosio", "scope", "table1"),
    TableOp(Insert, "john", "john", "scope2", "table3"),
    TableOp(Remove, "eosio", "eosio", "scope", "table1")]
  const Ops1 := [TableOp(Remove, "another", "another", "scope1", "table1")]

  const Expected := [
    TableScopeRow("eosio", "scope", "table1", true, "eosio"),
    TableScopeRow("john", "scope2", "table3", false, "john"),
    TableScopeRow("another", "scope1", "table1", true, "another")]

  /** The same rows ordered by account, table, scope and payer. */
  const ExpectedSorted := [
    TableScopeRow("another", "scope1", "table1", true, "another"),
    TableScopeRow("eosio", "scope", "table1", true, "eosio"),
    TableScopeRow("john", "scope2", "table3", false, "john")]

  lemma {:induction false} ScanFresh(p: seq<TableOp>, e: TableOp, q: seq<TableOp>, order: seq<ScopeKey>, last: map<ScopeKey, Operation>)
    requires q == p + [e] && Scan(p) == (order, last) && KeyOf(e) !in last
    ensures Scan(q) == (order + [KeyOf(e)], last[KeyOf(e) := e.operation])
  {
    ScanSnoc(p, e);
  }

  lemma {:induction false} ScanSeen(p: seq<TableOp>, e: TableOp, q: seq<TableOp>, order: seq<ScopeKey>, last: map<ScopeKey, Operation>)
    requires q == p + [e] && Scan(p) == (order, last) && KeyOf(e) in last
    ensures Scan(q) == (order, last[KeyOf(e) := e.operation])
  {
    ScanSnoc(p, e);
  }

  /** The scan of four events on keys a, b, a, c (a, b, c distinct). */
  lemma {:induction false} ScanRepeatedFirstKey(e0: TableOp, e1: TableOp, e2: TableOp, e3: TableOp)
    requires KeyOf(e2) == KeyOf(e0)
    requires KeyOf(e0) != KeyOf(e1) && KeyOf(e0) != KeyOf(e3) && KeyOf(e1) != KeyOf(e3)
    ensures Scan([e0, e1, e2, e3]) == ([KeyOf(e0), KeyOf(e1), KeyOf(e3)],
      map[KeyOf(e0) := e2.operation, KeyOf(e1) := e1.operation, KeyOf(e3) := e3.operation])
  {
    var k0, k1, k3 := KeyOf(e0), KeyOf(e1), KeyOf(e3);
    var m1 := map[k0 := e0.operation];
    var m2 := m1[k1 := e1.operation];
    assert Scan([]) == ([], map[]);
    ScanFresh([], e0, [e0], [], map[]);
    assert [] + [k0] == [k0] && map[][k0 := e0.operation] == m1;
    ScanFresh([e0], e1, [e0, e1], [k0], m1);
    assert [k0] + [k1] == [k0, k1];
    ScanSeen([e0, e1], e2, [e0, e1, e2], [k0, k1], m2);
    ScanFresh([e0, e1, e2], e3, [e0, e1, e2, e3], [k0, k1], m2[k0 := e2.operation]);
    assert [k0, k1] + [k3] == [k0, k1, k3];
    assert m2[k0 := e2.operation][k3 := e3.operation] == map[k0 := e2.operation, k1 := e1.operation, k3 := e3.operation];
  }

  /**
   * Four events on keys a, b, a, c (a, b, c distinct) write a with its
   * second event's operation, then b, then c, in that order.
   */
  lemma {:induction false} RepeatedFirstKey(ops: seq<TableOp>)
    requires |ops| == 4
    requires KeyOf(ops[2]) == KeyOf(ops[0])
    requires KeyOf(ops[0]) != KeyOf(ops[1]) && KeyOf(ops[0]) != KeyOf(ops[3]) && KeyOf(ops[1]) != KeyOf(ops[3])
    ensures TableScopeRows(ops) ==
      [ScopeRow(KeyOf(ops[0]), ops[2].operation), ScopeRow(KeyOf(ops[1]), ops[1].operation), ScopeRow(KeyOf(ops[3]), ops[3].operation)]
  {
    assert ops == [ops[0], ops[1], ops[2], ops[3]];
    ScanRepeatedFirstKey(ops[0], ops[1], ops[2], ops[3]);
    var order, last := Scan(ops).0, Scan(ops).1;
    EmitThree(order, last);
  }

  /** Emitting three keys writes three rows, in that order. */
  lemma {:induction false} EmitThree(order: seq<ScopeKey>, last: map<ScopeKey, Operation>)
    requires |order| == 3 && forall k :: k in order ==> k in last
    ensures EmitScopes(order, last) ==
      [ScopeRow(order[0], last[order[0]]), ScopeRow(order[1], last[order[1]]), ScopeRow(order[2], last[order[2]])]
  {
  }

  lemma {:induction false} TableOpsRows()
    ensures TableScopeRows(Ops0 + Ops1) == Expected
  {
    RepeatedFirstKey(Ops0 + Ops1);
  }

  lemma {:induction false} TableOpsOfTwo(t0: TransactionTrace, t1: TransactionTrace)
    ensures TableOpsOf([t0, t1]) == t0.tableOps + t1.tableOps
  {
    assert [t0, t1][..1] == [t0];
    assert [t0][..0] == [];
    assert TableOpsOf([t0]) == t0.tableOps;
  }

  /** The scenario as a block of two transactions: the reducer writes Expected. */
  method TableOpsBlock() returns (rows: seq<TableScopeRow>)
    ensures rows == Expected
    ensures multiset(rows) == multiset(ExpectedSorted)
  {
    var t0, t1 := TransactionTrace(Ops0, [], []), TransactionTrace(Ops1, [], []);
    var req := Preproc.PreprocessBlock(Block([t0, t1]));
    rows := req.tableScopes;
    TableOpsOfTwo(t0, t1);
    TableOpsRows();
    RotateThree(Expected[0], Expected[1], Expected[2]);
  }

  lemma {:induction false} RotateThree<T>(a: T, b: T, c: T)
    ensures multiset([a, b, c]) == multiset([c, a, b])
  {
  }
}

/**
 * The permission scenario: owner is created with keys k1 and k2, active
 * with k2, owner is then removed while holding k2, and a later transaction
 * creates owner again with k3.
 */
module PermOpsScenario {
  import opened Events
  import opened KeyAccounts
  import Fixtures
  import Preproc

  /** The rows the block writes, in the order their links were first touched. */
  const Expected := [
    KeyAccountRow("k1", "eosio", "owner", false),
    KeyAccountRow("k2", "eosio", "owner", true),
    KeyAccountRow("k2", "eosio", "active", false),
    KeyAccountRow("k3", "eosio", "owner", false)]

  /** The same rows ordered by public key, then permission. */
  const ExpectedSorted := [
    KeyAccountRow("k1", "eosio", "owner", false),
    KeyAccountRow("k2", "eosio", "active", false),
    KeyAccountRow("k2", "eosio", "owner", true),
    KeyAccountRow("k3", "eosio", "owner", false)]

  lemma {:induction false} DiffOne(x: LinkKey, ys: seq<LinkKey>, deleted: bool)
    requires x !in ys
    ensures Diff([x], ys, deleted) == [LinkRow(x, deleted)]
  {
    assert [x][..0] == [];
  }

  lemma {:induction false} DiffTwo(x: LinkKey, y: LinkKey, ys: seq<LinkKey>, deleted: bool)
    requires x !in ys && y !in ys
    ensures Diff([x, y], ys, deleted) == [LinkRow(x, deleted), LinkRow(y, deleted)]
  {
    assert [x, y][..1] == [x];
    DiffOne(x, ys, deleted);
  }

  /** Creating a permission with keys a and b intends to link both. */
  lemma {:induction false} CreateTwo(op: Operation, o: Name, n: Name, a: string, b: string)
    ensures IntentsOf(PermOp(op, None, Some(PermissionObject(o, n, [KeyWeight(a), KeyWeight(b)])))) ==
      [LinkRow(LinkKey(a, o, n), false), LinkRow(LinkKey(b, o, n), false)]
  {
    var ks := [KeyWeight(a), KeyWeight(b)];
    var ls := LinksOf(o, n, ks);
    assert ls == [LinkKey(a, o, n), LinkKey(b, o, n)];
    assert Links(Some(PermissionObject(o, n, ks))) == ls;
    DiffTwo(ls[0], ls[1], [], false);
  }

  /** Creating a permission with key a intends to link it. */
  lemma {:induction false} CreateOne(op: Operation, o: Name, n: Name, a: string)
    ensures IntentsOf(PermOp(op, None, Some(PermissionObject(o, n, [KeyWeight(a)])))) == [LinkRow(LinkKey(a, o, n), false)]
  {
    var ks := [KeyWeight(a)];
    assert Links(Some(PermissionObject(o, n, ks))) == [LinkKey(a, o, n)];
    DiffOne(LinkKey(a, o, n), [], false);
  }

  /** Removing a permission that holds key a intends to unlink it. */
  lemma {:induction false} RemoveOne(op: Operation, o: Name, n: Name, a: string)
    ensures IntentsOf(PermOp(op, Some(PermissionObject(o, n, [KeyWeight(a)])), None)) == [LinkRow(LinkKey(a, o, n), true)]
  {
    var ks := [KeyWeight(a)];
    assert Links(Some(PermissionObject(o, n, ks))) == [LinkKey(a, o, n)];
    DiffOne(LinkKey(a, o, n), [], true);
  }

  lemma {:induction false} ScanFresh(p: seq<KeyAccountRow>, r: KeyAccountRow, q: seq<KeyAccountRow>, order: seq<LinkKey>, last: map<LinkKey, KeyAccountRow>)
    requires q == p + [r] && Scan(p) == (order, last) && RowKey(r) !in last
    ensures Scan(q) == (order + [RowKey(r)], last[RowKey(r) := r])
  {
    ScanSnoc(p, r);
  }

  lemma {:induction false} ScanSeen(p: seq<KeyAccountRow>, r: KeyAccountRow, q: seq<KeyAccountRow>, order: seq<LinkKey>, last: map<LinkKey, KeyAccountRow>)
    requires q == p + [r] && Scan(p) == (order, last) && RowKey(r) in last
    ensures Scan(q) == (order, last[RowKey(r) := r])
  {
    ScanSnoc(p, r);
  }

  /** The scan of three intents on distinct links a, b, c. */
  lemma {:induction false} ScanThreeFresh(r0: KeyAccountRow, r1: KeyAccountRow, r2: KeyAccountRow)
    requires RowKey(r0) != RowKey(r1) && RowKey(r0) != RowKey(r2) && RowKey(r1) != RowKey(r2)
    ensures Scan([r0, r1, r2]) == ([RowKey(r0), RowKey(r1), RowKey(r2)],
      map[RowKey(r0) := r0, RowKey(r1) := r1, RowKey(r2) := r2])
  {
    var k0, k1, k2 := RowKey(r0), RowKey(r1), RowKey(r2);
    var m1 := map[k0 := r0];
    assert Scan([]) == ([], map[]);
    ScanFresh([], r0, [r0], [], map[]);
    assert [] + [k0] == [k0] && map[][k0 := r0] == m1;
    ScanFresh([r0], r1, [r0, r1], [k0], m1);
    assert [k0] + [k1] == [k0, k1];
    ScanFresh([r0, r1], r2, [r0, r1, r2], [k0, k1], m1[k1 := r1]);
    assert [k0, k1] + [k2] == [k0, k1, k2];
  }

  /** The scan of five intents on links a, b, c, b, d (a, b, c, d distinct). */
  lemma {:induction false} ScanRepeatedSecondLink(r0: KeyAccountRow, r1: KeyAccountRow, r2: KeyAccountRow, r3: KeyAccountRow, r4: KeyAccountRow)
    requires RowKey(r3) == RowKey(r1)
    requires RowKey(r0) != RowKey(r1) && RowKey(r0) != RowKey(r2) && RowKey(r0) != RowKey(r4)
    requires RowKey(r1) != RowKey(r2) && RowKey(r1) != RowKey(r4) && RowKey(r2) != RowKey(r4)
    ensures Scan([r0, r1, r2, r3, r4]) == ([RowKey(r0), RowKey(r1), RowKey(r2), RowKey(r4)],
      map[RowKey(r0) := r0, RowKey(r1) := r3, RowKey(r2) := r2, RowKey(r4) := r4])
  {
    var k0, k1, k2, k4 := RowKey(r0), RowKey(r1), RowKey(r2), RowKey(r4);
    var m3 := map[k0 := r0, k1 := r1, k2 := r2];
    ScanThreeFresh(r0, r1, r2);
    ScanSeen([r0, r1, r2], r3, [r0, r1, r2, r3], [k0, k1, k2], m3);
    ScanFresh([r0, r1, r2, r3], r4, [r0, r1, r2, r3, r4], [k0, k1, k2], m3[k1 := r3]);
    assert [k0, k1, k2] + [k4] == [k0, k1, k2, k4];
    assert m3[k1 := r3][k4 := r4] == map[k0 := r0, k1 := r3, k2 := r2, k4 := r4];
  }

  /** Emitting four links writes their four rows, in that order. */
  lemma {:induction false} EmitFour(order: seq<LinkKey>, last: map<LinkKey, KeyAccountRow>)
    requires |order| == 4 && forall l :: l in order ==> l in last
    ensures EmitLinks(order, last) == [last[order[0]], last[order[1]], last[order[2]], last[order[3]]]
  {
  }

  lemma {:induction false} AllIntentsFour(e0: PermOp, e1: PermOp, e2: PermOp, e3: PermOp)
    ensures AllIntents([e0, e1, e2, e3]) == IntentsOf(e0) + IntentsOf(e1) + IntentsOf(e2) + IntentsOf(e3)
  {
    var p1, p2, p3 := [e0], [e0, e1], [e0, e1, e2];
    assert p1 == [] + [e0];
    AllIntentsSnoc([], e0);
    assert AllIntents(p1) == IntentsOf(e0);
    assert p2 == p1 + [e1];
    AllIntentsSnoc(p1, e1);
    assert p3 == p2 + [e2];
    AllIntentsSnoc(p2, e2);
    assert [e0, e1, e2, e3] == p3 + [e3];
    AllIntentsSnoc(p3, e3);
  }

  lemma {:induction false} PermOpsOfTwo(t0: TransactionTrace, t1: TransactionTrace)
    ensures PermOpsOf([t0, t1]) == t0.permOps + t1.permOps
  {
    assert [t0, t1][..1] == [t0];
    assert [t0][..0] == [];
    assert PermOpsOf([t0]) == t0.permOps;
  }

  lemma {:induction false} ConcatFive<T>(a: T, b: T, c: T, d: T, e: T)
    ensures [a, b] + [c] + [d] + [e] == [a, b, c, d, e]
  {
  }

  /**
   * Create permission own of acct with keys k1 and k2, create act with k2,
   * remove own while it holds k2, create own with k3: the rows are k1 and
   * k3 linked to own, k2 unlinked from own, k2 linked to act, in the order
   * the links were first touched.
   */
  lemma {:induction false} ScenarioRows(acct: Name, own: Name, act: Name, k1: string, k2: string, k3: string, e0: PermOp, e1: PermOp, e2: PermOp, e3: PermOp)
    requires own != act && k1 != k2 && k1 != k3 && k2 != k3
    requires e0.oldPerm.None? && e0.newPerm == Some(PermissionObject(acct, own, [KeyWeight(k1), KeyWeight(k2)]))
    requires e1.oldPerm.None? && e1.newPerm == Some(PermissionObject(acct, act, [KeyWeight(k2)]))
    requires e2.oldPerm == Some(PermissionObject(acct, own, [KeyWeight(k2)])) && e2.newPerm.None?
    requires e3.oldPerm.None? && e3.newPerm == Some(PermissionObject(acct, own, [KeyWeight(k3)]))
    ensures KeyAccountRows([e0, e1, e2, e3]) ==
      [LinkRow(LinkKey(k1, acct, own), false), LinkRow(LinkKey(k2, acct, own), true),
       LinkRow(LinkKey(k2, acct, act), false), LinkRow(LinkKey(k3, acct, own), false)]
  {
    assert e0 == PermOp(e0.operation, None, Some(PermissionObject(acct, own, [KeyWeight(k1), KeyWeight(k2)])));
    assert e1 == PermOp(e1.operation, None, Some(PermissionObject(acct, act, [KeyWeight(k2)])));
    assert e2 == PermOp(e2.operation, Some(PermissionObject(acct, own, [KeyWeight(k2)])), None);
    assert e3 == PermOp(e3.operation, None, Some(PermissionObject(acct, own, [KeyWeight(k3)])));
    CreateTwo(e0.operation, acct, own, k1, k2);
    CreateOne(e1.operation, acct, act, k2);
    RemoveOne(e2.operation, acct, own, k2);
    CreateOne(e3.operation, acct, own, k3);
    AllIntentsFour(e0, e1, e2, e3);
    var a, b, c, d, e := LinkRow(LinkKey(k1, acct, own), false), LinkRow(LinkKey(k2, acct, own), false),
      LinkRow(LinkKey(k2, acct, act), false), LinkRow(LinkKey(k2, acct, own), true), LinkRow(LinkKey(k3, acct, own), false);
    ConcatFive(a, b, c, d, e);
    var rs := AllIntents([e0, e1, e2, e3]);
    assert rs == [a, b, c, d, e];
    ScanRepeatedSecondLink(a, b, c, d, e);
    ScanMeaning(rs);
    assert KeyAccountRows([e0, e1, e2, e3]) == EmitLinks(Scan(rs).0, Scan(rs).1);
    EmitFour(Scan(rs).0, Scan(rs).1);
  }

  /** The scenario's events, the first three in one transaction and the last in another, reduce to the same rows. */
  lemma {:induction false} BlockRows(acct: Name, own: Name, act: Name, k1: string, k2: string, k3: string, e0: PermOp, e1: PermOp, e2: PermOp, e3: PermOp)
    requires own != act && k1 != k2 && k1 != k3 && k2 != k3
    requires e0.oldPerm.None? && e0.newPerm == Some(PermissionObject(acct, own, [KeyWeight(k1), KeyWeight(k2)]))
    requires e1.oldPerm.None? && e1.newPerm == Some(PermissionObject(acct, act, [KeyWeight(k2)]))
    requires e2.oldPerm == Some(PermissionObject(acct, own, [KeyWeight(k2)])) && e2.newPerm.None?
    requires e3.oldPerm.None? && e3.newPerm == Some(PermissionObject(acct, own, [KeyWeight(k3)]))
    ensures Preproc.Reduce(Block([TransactionTrace([], [], [e0, e1, e2]), TransactionTrace([], [], [e3])])).keyAccounts ==
      [LinkRow(LinkKey(k1, acct, own), false), LinkRow(LinkKey(k2, acct, own), true),
       LinkRow(LinkKey(k2, acct, act), false), LinkRow(LinkKey(k3, acct, own), false)]
  {
    var t0, t1 := TransactionTrace([], [], [e0, e1, e2]), TransactionTrace([], [], [e3]);
    PermOpsOfTwo(t0, t1);
    assert [e0, e1, e2] + [e3] == [e0, e1, e2, e3];
    ScenarioRows(acct, own, act, k1, k2, k3, e0, e1, e2, e3);
  }

  /** The scenario's four events, built by the fixtures. */
  method ScenarioEvents(acct: Name, own: Name, act: Name, k1: string, k2: string, k3: string)
    returns (e0: PermOp, e1: PermOp, e2: PermOp, e3: PermOp)
    ensures e0.oldPerm.None? && e0.newPerm == Some(PermissionObject(acct, own, [KeyWeight(k1), KeyWeight(k2)]))
    ensures e1.oldPerm.None? && e1.newPerm == Some(PermissionObject(acct, act, [KeyWeight(k2)]))
    ensures e2.oldPerm == Some(PermissionObject(acct, own, [KeyWeight(k2)])) && e2.newPerm.None?
    ensures e3.oldPerm.None? && e3.newPerm == Some(PermissionObject(acct, own, [KeyWeight(k3)]))
  {
    var owner12 := Fixtures.NewPermOpData(acct, own, [k1, k2]);
    assert owner12 == PermissionObject(acct, own, [KeyWeight(k1), KeyWeight(k2)]);
    var active2 := Fixtures.NewPermOpData(acct, act, [k2]);
    assert active2 == PermissionObject(acct, act, [KeyWeight(k2)]);
    var owner2 := Fixtures.NewPermOpData(acct, own, [k2]);
    assert owner2 == PermissionObject(acct, own, [KeyWeight(k2)]);
    var owner3 := Fixtures.NewPermOpData(acct, own, [k3]);
    assert owner3 == PermissionObject(acct, own, [KeyWeight(k3)]);
    e0 := Fixtures.NewPermOp("INS", None, Some(owner12));
    e1 := Fixtures.NewPermOp("INS", None, Some(active2));
    e2 := Fixtures.NewPermOp("REM", Some(owner2), None);
    e3 := Fixtures.NewPermOp("INS", None, Some(owner3));
  }

  /**
   * The permission scenario as a block: the fixtures build the four events
   * in two transactions, and the reducer writes, per link, its last intent.
   */
  method PermOpsBlock() returns (rows: seq<KeyAccountRow>)
    ensures rows == Expected
    ensures multiset(rows) == multiset(ExpectedSorted)
  {
    var acct, own, act, k1, k2, k3 := "eosio", "owner", "active", "k1", "k2", "k3";
    var e0, e1, e2, e3 := ScenarioEvents(acct, own, act, k1, k2, k3);
    var req := Preproc.PreprocessBlock(Block([TransactionTrace([], [], [e0, e1, e2]), TransactionTrace([], [], [e3])]));
    rows := req.keyAccounts;
    BlockRows(acct, own, act, k1, k2, k3, e0, e1, e2, e3);
    SwapMiddle(Expected[0], Expected[1], Expected[2], Expected[3]);
  }

  lemma {:induction false} SwapMiddle<T>(a: T, b: T, c: T, d: T)
    ensures multiset([a, b, c, d]) == multiset([a, c, b, d])
  {
  }
}
