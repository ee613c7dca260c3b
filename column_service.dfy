/**
 * The column service: forwards each request to the column repository, and
 * deletes a column only after the cascade has removed the column's cards.
 */
module ColumnService {

  import opened Store
  import opened Queries
  import ColR = ColumnRepository
  import CS = CardService

  class ColumnService {
    const repository: ColR.ColumnRepository
    const cardService: CS.CardService

    /** The column repository and the card service work on the same tables. */
    predicate SharesBoard() {
      cardService.repository.board == repository.board
    }

    constructor (board: Board)
      ensures repository.board == board
      ensures SharesBoard()
    {
      repository := new ColR.ColumnRepository(board);
      cardService := new CS.CardService(board);
    }

    method CreateColumn(columnTitle: string) returns (r: Outcome)
      requires repository.board.Valid()
      modifies repository.board`columns
      ensures repository.board.Valid()
      ensures ColR.IndicesOrdered(old(repository.board.columns)) ==> ColR.IndicesOrdered(repository.board.columns)
      ensures r.Failure? ==> repository.board.columns == old(repository.board.columns)
      ensures r.Success? ==>
                (exists columnID :: columnID !in old(repository.board.columns) &&
                   repository.board.columns == old(repository.board.columns)[columnID :=
                     ColR.NewColumn(old(repository.board.columns), columnID, columnTitle)])
    {
      r := repository.CreateColumn(columnTitle);
    }

    method GetColumn(columnId: ColumnID) returns (r: Result<Option<Column>>)
      ensures r.Ok? ==> (r.value.Some? <==> columnId in repository.board.columns)
      ensures r.Ok? && r.value.Some? ==> r.value.value == repository.board.columns[columnId]
    {
      r := repository.GetColumn(columnId);
    }

    method UpdateColumn(columnId: ColumnID, columnTitle: string) returns (r: Outcome)
      requires repository.board.Valid()
      modifies repository.board`columns
      ensures repository.board.Valid()
      ensures ColR.IndicesOrdered(old(repository.board.columns)) ==> ColR.IndicesOrdered(repository.board.columns)
      ensures repository.board.columns ==
                if r.Success? && columnId in old(repository.board.columns)
                then old(repository.board.columns)[columnId :=
                       old(repository.board.columns)[columnId].(columnTitle := columnTitle)]
                else old(repository.board.columns)
    {
      r := repository.UpdateColumn(columnId, columnTitle);
    }

    /**
     * deleteColumn: first the column's cards (the cascade), then the column
     * row. A failed cascade ends the request before the column is touched.
     */
    method DeleteColumn(columnId: ColumnID) returns (r: Outcome)
      requires SharesBoard()
      requires repository.board.Valid()
      modifies repository.board
      ensures repository.board.Valid()
      ensures ColR.IndicesOrdered(old(repository.board.columns)) ==> ColR.IndicesOrdered(repository.board.columns)
      ensures r.Success? ==>
                && repository.board.columns == old(repository.board.columns) - {columnId}
                && repository.board.cards == CS.WithoutColumn(old(repository.board.cards), columnId)
      ensures r.Failure? ==> repository.board.columns == old(repository.board.columns)
      // the cards change by the cascade or not at all, and the column row goes only after the cascade
      ensures repository.board.cards == old(repository.board.cards)
              || repository.board.cards == CS.WithoutColumn(old(repository.board.cards), columnId)
      ensures repository.board.columns != old(repository.board.columns) ==>
                repository.board.cards == CS.WithoutColumn(old(repository.board.cards), columnId)
    {
      var cascade := cardService.DeleteCardsInBatch(columnId);
      if cascade.Failure? {
        return Failure;
      }
      r := repository.DeleteColumn(columnId);
    }

    method GetColumns() returns (r: Result<set<Column>>)
      ensures r.Ok? ==> forall c :: c in r.value <==>
                exists id :: id in repository.board.columns && repository.board.columns[id] == c
    {
      r := repository.GetColumns();
    }

    method GetSortedColumns() returns (r: Result<seq<Column>>)
      requires repository.board.Valid()
      ensures r.Ok? ==> IsListing(r.value, ColR.VisibleColumns(repository.board.columns), ColR.ColumnOrder)
    {
      r := repository.GetSortedColumns();
    }

    method GetMaxColumnIndex() returns (r: Result<real>)
      ensures r.Ok? ==> r.value == ColR.MaxColumnIndex(repository.board.columns)
    {
      r := repository.GetMaxColumnIndex();
    }
  }
}
