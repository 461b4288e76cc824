/**
 * The decoded block the reducer consumes and the WriteRequest it produces.
 *
 * Ledger names (accounts, scopes, tables, permissions, payers, primary keys)
 * are kept as the strings they print as; the base-32 name codec is not part
 * of this model.
 */
module Events {

  type Name = string

  newtype byte = x: int | 0 <= x < 256

  type Bytes = seq<byte>

  /** The operation tag carried by every raw event. Table-scope events only
      ever carry Insert or Remove; Unknown is the protobuf default. */
  datatype Operation = Unknown | Insert | Update | Remove

  /** A table scope now exists (Insert) or no longer exists (Remove). */
  datatype TableOp = TableOp(operation: Operation, payer: Name, code: Name, scope: Name, tableName: Name)

  /** One row mutation, with the row's payer and data before and after. */
  datatype DbOp = DbOp(
    operation: Operation,
    code: Name, scope: Name, tableName: Name, primaryKey: Name,
    oldPayer: Name, newPayer: Name,
    oldData: Bytes, newData: Bytes)

  /** One authorized key of a permission (its weight is not modelled). */
  datatype KeyWeight = KeyWeight(publicKey: string)

  /** A snapshot of a permission: its owning account, its name and its keys. */
  datatype PermissionObject = PermissionObject(owner: Name, name: Name, keys: seq<KeyWeight>)

  /** A permission change, with optional before and after snapshots. */
  datatype PermOp = PermOp(operation: Operation, oldPerm: Option<PermissionObject>, newPerm: Option<PermissionObject>)

  /** An optional value: a permission snapshot that may be absent, a row
      that may not be emitted, a fixture that may not parse. */
  datatype Option<+T> = None | Some(value: T)

  /** One transaction: its events of each kind, in execution order. */
  datatype TransactionTrace = TransactionTrace(tableOps: seq<TableOp>, dbOps: seq<DbOp>, permOps: seq<PermOp>)

  datatype Block = Block(traces: seq<TransactionTrace>)

  /** Output rows; field order follows the store's row structs. */
  datatype TableScopeRow = TableScopeRow(account: Name, scope: Name, table: Name, deleted: bool, payer: Name)

  datatype TableDataRow = TableDataRow(
    account: Name, scope: Name, table: Name, primKey: Name,
    payer: Name, deleted: bool, data: Bytes)

  datatype KeyAccountRow = KeyAccountRow(publicKey: string, account: Name, permission: Name, deleted: bool)

  datatype WriteRequest = WriteRequest(
    tableScopes: seq<TableScopeRow>,
    tableDatas: seq<TableDataRow>,
    keyAccounts: seq<KeyAccountRow>)

  /** All table-scope events of the traces, in block order. */
  function TableOpsOf(traces: seq<TransactionTrace>): seq<TableOp>
  {
    if traces == [] then [] else TableOpsOf(traces[..|traces| - 1]) + traces[|traces| - 1].tableOps
  }

  /** All row events of the traces, in block order. */
  function DbOpsOf(traces: seq<TransactionTrace>): seq<DbOp>
  {
    if traces == [] then [] else DbOpsOf(traces[..|traces| - 1]) + traces[|traces| - 1].dbOps
  }

  /** All permission events of the traces, in block order. */
  function PermOpsOf(traces: seq<TransactionTrace>): seq<PermOp>
  {
    if traces == [] then [] else PermOpsOf(traces[..|traces| - 1]) + traces[|traces| - 1].permOps
  }

  /** Taking one more trace appends exactly that trace's events. */
  lemma {:induction false} EventsOfNextTrace(traces: seq<TransactionTrace>, t: nat)
    requires t < |traces|
    ensures TableOpsOf(traces[..t + 1]) == TableOpsOf(traces[..t]) + traces[t].tableOps
    ensures DbOpsOf(traces[..t + 1]) == DbOpsOf(traces[..t]) + traces[t].dbOps
    ensures PermOpsOf(traces[..t + 1]) == PermOpsOf(traces[..t]) + traces[t].permOps
  {
    assert traces[..t + 1][..t] == traces[..t];
  }
}
