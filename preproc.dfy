/**
 * PreprocessBlock: reduce one block's table-scope, row and permission
 * events to the WriteRequest the store applies for that block.
 */
module Preproc {
  import opened Events
  import TableScopes
  import TableDatas
  import KeyAccounts

  /** The WriteRequest a block reduces to: each collection is its fold over the block's events of that kind. */
  function Reduce(blk: Block): WriteRequest
  {
    WriteRequest(
      TableScopes.TableScopeRows(TableOpsOf(blk.traces)),
      TableDatas.TableDataRows(DbOpsOf(blk.traces)),
      KeyAccounts.KeyAccountRows(PermOpsOf(blk.traces)))
  }

  /** The reducer: one pass per event kind over the block's traces. */
  method PreprocessBlock(blk: Block) returns (req: WriteRequest)
    ensures req == Reduce(blk)
  {
    var scopes := TableScopes.ReduceTableScopes(blk.traces);
    var datas := TableDatas.ReduceTableDatas(blk.traces);
    var links := KeyAccounts.ReduceKeyAccounts(blk.traces);
    req := WriteRequest(scopes, datas, links);
  }
}
