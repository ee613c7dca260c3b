/**
 * The column repository: creates columns at the right end of the board and
 * reads, retitles and deletes rows of the columns table.
 */
module ColumnRepository {

  import opened Store
  import opened Queries

  /** The gap left between successive appended columns. */
  const MIN_INDEX: real := 3000.0

  function ColumnIndices(columns: map<ColumnID, Column>): set<real> {
    set id | id in columns :: columns[id].columnIndex
  }

  /** The answer of `getMaxColumnIndex`: the highest column index, or 0 on an empty board. */
  function MaxColumnIndex(columns: map<ColumnID, Column>): (r: real)
    ensures columns == map[] ==> r == 0.0
    ensures forall id :: id in columns ==> columns[id].columnIndex <= r
    ensures columns != map[] ==> exists id :: id in columns && columns[id].columnIndex == r
  {
    var s := ColumnIndices(columns);
    assert forall id :: id in columns ==> columns[id].columnIndex in s;
    MaxOf(s)
  }

  /** The index `createColumn` gives a new column. */
  function CreateIndex(columns: map<ColumnID, Column>): (r: real)
    ensures forall id :: id in columns ==> columns[id].columnIndex < r
    ensures forall id :: id in columns ==> r - columns[id].columnIndex >= MIN_INDEX
    ensures columns == map[] ==> r == MIN_INDEX
  {
    MaxColumnIndex(columns) + MIN_INDEX
  }

  /** The row `createColumn` writes. */
  function NewColumn(columns: map<ColumnID, Column>, columnID: ColumnID, columnTitle: string): (r: Column)
    ensures r.columnID == columnID && r.columnTitle == columnTitle
    ensures forall id :: id in columns ==> r.columnIndex - columns[id].columnIndex >= MIN_INDEX
    ensures columns == map[] ==> r.columnIndex == MIN_INDEX
  {
    Column(columnID, CreateIndex(columns), columnTitle)
  }

  /** Successive creates rise by exactly MIN_INDEX. */
  lemma SuccessiveCreatesRise(columns: map<ColumnID, Column>, columnID: ColumnID, columnTitle: string)
    requires columnID !in columns
    ensures CreateIndex(columns[columnID := NewColumn(columns, columnID, columnTitle)])
            == CreateIndex(columns) + MIN_INDEX
  {
    var column := NewColumn(columns, columnID, columnTitle);
    var columns' := columns[columnID := column];
    forall x | x in ColumnIndices(columns) ensures x in ColumnIndices(columns') {
      var id :| id in columns && columns[id].columnIndex == x;
      assert columns'[id] == columns[id];
    }
    assert columns'[columnID] == column;
    assert ColumnIndices(columns') == ColumnIndices(columns) + {column.columnIndex};
    if columns != map[] {
      var id :| id in columns;
      assert columns[id].columnIndex in ColumnIndices(columns);
      MaxOfInsert(ColumnIndices(columns), column.columnIndex);
    } else {
      assert ColumnIndices(columns') == {column.columnIndex};
    }
  }

  /**
   * The board's ordering invariant: no two columns share an index, and every
   * index is positive (so the sorted query, `columnIndex > 0`, sees them all).
   */
  predicate IndicesOrdered(columns: map<ColumnID, Column>) {
    && (forall id :: id in columns ==> columns[id].columnIndex > 0.0)
    && (forall a, b :: a in columns && b in columns && a != b ==> columns[a].columnIndex != columns[b].columnIndex)
  }

  /** Appending a column keeps the ordering invariant. */
  lemma CreateKeepsIndicesOrdered(columns: map<ColumnID, Column>, columnID: ColumnID, columnTitle: string)
    requires IndicesOrdered(columns) && columnID !in columns
    ensures IndicesOrdered(columns[columnID := NewColumn(columns, columnID, columnTitle)])
  {
    if columns != map[] {
      var id :| id in columns;
      assert MaxColumnIndex(columns) >= columns[id].columnIndex > 0.0;
    }
  }

  /** The rows the sorted query admits: `columnIndex > 0`. */
  function VisibleColumns(columns: map<ColumnID, Column>): (r: set<Column>)
    requires KeyedColumns(columns)
    ensures forall c :: c in r <==> c.columnID in columns && columns[c.columnID] == c && c.columnIndex > 0.0
  {
    set id | id in columns && columns[id].columnIndex > 0.0 :: columns[id]
  }

  predicate ColumnOrder(a: Column, b: Column) {
    a.columnIndex <= b.columnIndex
  }

  predicate StrictlyAscending(q: seq<Column>) {
    forall i, j :: 0 <= i < j < |q| ==> q[i].columnIndex < q[j].columnIndex
  }

  /**
   * While the ordering invariant holds, a sorted listing holds every column
   * and its indices strictly ascend.
   */
  lemma OrderedListingIsComplete(columns: map<ColumnID, Column>, q: seq<Column>)
    requires KeyedColumns(columns) && IndicesOrdered(columns)
    requires IsListing(q, VisibleColumns(columns), ColumnOrder)
    ensures multiset(q) == multiset(columns.Values)
    ensures StrictlyAscending(q)
  {
    assert VisibleColumns(columns) == columns.Values;
    forall i, j | 0 <= i < j < |q| ensures q[i].columnIndex < q[j].columnIndex {
      assert q[i] in multiset(q) && q[j] in multiset(q);
      ListingHasNoRepeats(q, VisibleColumns(columns), i, j);
      assert ColumnOrder(q[i], q[j]);
    }
  }

  /** Two strictly ascending listings of the same rows start with the same row. */
  lemma AscendingListingsShareHead(q1: seq<Column>, q2: seq<Column>)
    requires multiset(q1) == multiset(q2) && q1 != []
    requires StrictlyAscending(q1) && StrictlyAscending(q2)
    ensures q2 != [] && q1[0] == q2[0]
  {
    assert q1[0] in multiset(q2);
    assert q1[0] in q2;
    var m :| 0 <= m < |q2| && q2[m] == q1[0];
    assert q2[0] in multiset(q1);
    assert q2[0] in q1;
    var n :| 0 <= n < |q1| && q1[n] == q2[0];
    // q2[0] is no higher than q1[0], and q1[0] no higher than q2[0]
    assert q2[0].columnIndex <= q1[0].columnIndex;
    assert q1[0].columnIndex <= q2[0].columnIndex;
    assert m == 0;
  }

  /** Two strictly ascending listings of the same rows are the same listing. */
  lemma {:induction false} AscendingListingUnique(q1: seq<Column>, q2: seq<Column>)
    requires multiset(q1) == multiset(q2)
    requires StrictlyAscending(q1) && StrictlyAscending(q2)
    ensures q1 == q2
    decreases |q1|
  {
    if q1 == [] {
      assert |multiset(q2)| == 0;
    } else {
      AscendingListingsShareHead(q1, q2);
      assert q1 == [q1[0]] + q1[1..];
      assert q2 == [q2[0]] + q2[1..];
      var head := q1[0];
      assert multiset(q1) == multiset{head} + multiset(q1[1..]);
      assert multiset(q2) == multiset{head} + multiset(q2[1..]);
      forall x ensures multiset(q1[1..])[x] == multiset(q2[1..])[x] {
        assert multiset(q1)[x] == multiset{head}[x] + multiset(q1[1..])[x];
        assert multiset(q2)[x] == multiset{head}[x] + multiset(q2[1..])[x];
      }
      assert multiset(q1[1..]) == multiset(q2[1..]);
      AscendingListingUnique(q1[1..], q2[1..]);
    }
  }

  /** A created column comes last in every sorted listing of the board. */
  lemma CreatedColumnIsListedLast(columns: map<ColumnID, Column>, columnID: ColumnID, columnTitle: string,
                                  q: seq<Column>)
    requires KeyedColumns(columns) && IndicesOrdered(columns) && columnID !in columns
    requires IsListing(q, VisibleColumns(columns[columnID := NewColumn(columns, columnID, columnTitle)]), ColumnOrder)
    ensures q != [] && q[|q| - 1] == NewColumn(columns, columnID, columnTitle)
  {
    var column := NewColumn(columns, columnID, columnTitle);
    var columns' := columns[columnID := column];
    CreateKeepsIndicesOrdered(columns, columnID, columnTitle);
    assert column in VisibleColumns(columns');
    assert column in multiset(q);
    var k :| 0 <= k < |q| && q[k] == column;
    var last := |q| - 1;
    assert q[last] in multiset(q);
    assert q[last].columnIndex >= column.columnIndex;
    assert q[last] == columns'[q[last].columnID];
  }

  class ColumnRepository {
    const board: Board

    constructor (board: Board)
      ensures this.board == board
    {
      this.board := board;
    }

    /** createColumn: append a column after the highest column index. */
    method CreateColumn(columnTitle: string) returns (r: Outcome)
      requires board.Valid()
      modifies board`columns
      ensures board.Valid()
      ensures IndicesOrdered(old(board.columns)) ==> IndicesOrdered(board.columns)
      ensures r.Failure? ==> board.columns == old(board.columns)
      ensures r.Success? ==>
                (exists columnID :: columnID !in old(board.columns) &&
                   board.columns == old(board.columns)[columnID := NewColumn(old(board.columns), columnID, columnTitle)])
    {
      var maxIndex := GetMaxColumnIndex();
      if maxIndex.Failed? {
        return Failure;
      }
      var columnIndex := maxIndex.value + MIN_INDEX;
      FreshKeyExists(board.columns.Keys);
      var columnID: ColumnID :| columnID !in board.columns.Keys;
      var accepted: bool := *;
      if !accepted {
        return Failure;
      }
      if IndicesOrdered(board.columns) {
        CreateKeepsIndicesOrdered(board.columns, columnID, columnTitle);
      }
      board.columns := board.columns[columnID := Column(columnID, columnIndex, columnTitle)];
      r := Success;
    }

    /** getColumn: the row stored under `columnID`, or none. */
    method GetColumn(columnID: ColumnID) returns (r: Result<Option<Column>>)
      ensures r.Ok? ==> (r.value.Some? <==> columnID in board.columns)
      ensures r.Ok? && r.value.Some? ==> r.value.value == board.columns[columnID]
    {
      var answered: bool := *;
      if !answered {
        return Failed;
      }
      r := Ok(if columnID in board.columns then Some(board.columns[columnID]) else None);
    }

    /** updateColumn: set the title of one column; its index stays. */
    method UpdateColumn(columnID: ColumnID, columnTitle: string) returns (r: Outcome)
      requires board.Valid()
      modifies board`columns
      ensures board.Valid()
      ensures IndicesOrdered(old(board.columns)) ==> IndicesOrdered(board.columns)
      ensures board.columns == if r.Success? && columnID in old(board.columns)
                               then old(board.columns)[columnID := old(board.columns)[columnID].(columnTitle := columnTitle)]
                               else old(board.columns)
    {
      var accepted: bool := *;
      if !accepted {
        return Failure;
      }
      if columnID in board.columns {
        board.columns := board.columns[columnID := board.columns[columnID].(columnTitle := columnTitle)];
      }
      r := Success;
    }

    /** deleteColumn: remove the column row only (its cards are the service's concern). */
    method DeleteColumn(columnID: ColumnID) returns (r: Outcome)
      requires board.Valid()
      modifies board`columns
      ensures board.Valid()
      ensures IndicesOrdered(old(board.columns)) ==> IndicesOrdered(board.columns)
      ensures board.columns == if r.Success? then old(board.columns) - {columnID} else old(board.columns)
    {
      var accepted: bool := *;
      if !accepted {
        return Failure;
      }
      board.columns := board.columns - {columnID};
      r := Success;
    }

    /** getColumns: every row of the table, in no particular order. */
    method GetColumns() returns (r: Result<set<Column>>)
      ensures r.Ok? ==> forall c :: c in r.value <==> exists id :: id in board.columns && board.columns[id] == c
    {
      var answered: bool := *;
      if !answered {
        return Failed;
      }
      r := Ok(board.columns.Values);
    }

    /** getSortedColumns: the columns with a positive index, in ascending index order. */
    method GetSortedColumns() returns (r: Result<seq<Column>>)
      requires board.Valid()
      ensures r.Ok? ==> IsListing(r.value, VisibleColumns(board.columns), ColumnOrder)
    {
      var answered: bool := *;
      if !answered {
        return Failed;
      }
      ghost var q := ListingExists(VisibleColumns(board.columns), ColumnOrder);
      var listing: seq<Column> :| IsListing(listing, VisibleColumns(board.columns), ColumnOrder);
      r := Ok(listing);
    }

    /** getMaxColumnIndex: the highest column index, or 0 on an empty board. */
    method GetMaxColumnIndex() returns (r: Result<real>)
      ensures r.Ok? ==> r.value == MaxColumnIndex(board.columns)
    {
      var answered: bool := *;
      if !answered {
        return Failed;
      }
      r := Ok(MaxColumnIndex(board.columns));
    }
  }
}
