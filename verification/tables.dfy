/** The table registry: `updateTableStatus`, the only operation on tables. */
module TableRegistry {
  import opened Wrappers
  import opened Domain

  function TableIds(tables: seq<Table>): (ids: seq<string>)
    ensures |ids| == |tables| && forall i :: 0 <= i < |tables| ==> ids[i] == tables[i].id
  {
    seq(|tables|, i requires 0 <= i < |tables| => tables[i].id)
  }

  /** Every table whose id matches gets the new status, occupant and waiter;
      omitted occupant or waiter clear the field. No transition is refused. */
  function UpdateTableStatus(tables: seq<Table>, tableId: string, status: TableStatus,
                             customerId: Option<string>, waiterId: Option<string>): (r: seq<Table>)
    ensures |r| == |tables|
    ensures forall i :: 0 <= i < |r| ==>
      r[i].id == tables[i].id && r[i].number == tables[i].number && r[i].capacity == tables[i].capacity
    ensures forall i :: 0 <= i < |r| && tables[i].id != tableId ==> r[i] == tables[i]
    ensures forall i :: 0 <= i < |r| && tables[i].id == tableId ==>
      r[i].status == status && r[i].currentCustomerId == customerId && r[i].waiter == waiterId
  {
    seq(|tables|, i requires 0 <= i < |tables| =>
      if tables[i].id == tableId
      then tables[i].(status := status, currentCustomerId := customerId, waiter := waiterId)
      else tables[i])
  }

  /** An unknown table id leaves the list unchanged. */
  lemma UnknownTableIsNoOp(tables: seq<Table>, tableId: string, status: TableStatus,
                           customerId: Option<string>, waiterId: Option<string>)
    requires tableId !in TableIds(tables)
    ensures UpdateTableStatus(tables, tableId, status, customerId, waiterId) == tables
  {
    var r := UpdateTableStatus(tables, tableId, status, customerId, waiterId);
    forall i | 0 <= i < |tables|
      ensures r[i] == tables[i]
    {
      assert TableIds(tables)[i] == tables[i].id;
    }
  }

  /** The last update of a table wins: an earlier update of the same table is
      entirely overwritten. */
  lemma LastTableUpdateWins(tables: seq<Table>, tableId: string,
                            s1: TableStatus, c1: Option<string>, w1: Option<string>,
                            s2: TableStatus, c2: Option<string>, w2: Option<string>)
    ensures UpdateTableStatus(UpdateTableStatus(tables, tableId, s1, c1, w1), tableId, s2, c2, w2)
         == UpdateTableStatus(tables, tableId, s2, c2, w2)
  {
  }

  /** Hence repeating an update is the same as doing it once. */
  lemma UpdateTableIdempotent(tables: seq<Table>, tableId: string, status: TableStatus,
                              customerId: Option<string>, waiterId: Option<string>)
    ensures UpdateTableStatus(UpdateTableStatus(tables, tableId, status, customerId, waiterId),
                              tableId, status, customerId, waiterId)
         == UpdateTableStatus(tables, tableId, status, customerId, waiterId)
  {
    LastTableUpdateWins(tables, tableId, status, customerId, waiterId, status, customerId, waiterId);
  }

  /** Updates of two different tables commute. */
  lemma TableUpdatesCommute(tables: seq<Table>,
                            id1: string, s1: TableStatus, c1: Option<string>, w1: Option<string>,
                            id2: string, s2: TableStatus, c2: Option<string>, w2: Option<string>)
    requires id1 != id2
    ensures UpdateTableStatus(UpdateTableStatus(tables, id1, s1, c1, w1), id2, s2, c2, w2)
         == UpdateTableStatus(UpdateTableStatus(tables, id2, s2, c2, w2), id1, s1, c1, w1)
  {
  }
}
