# Kanban board ordering, modelled in Dafny

This project models the core of a serverless kanban API. The board has two
DynamoDB tables, columns and cards. Each row carries a numeric position
(`columnIndex`, `cardIndex`), and the board is shown in ascending position
order. Dafny proves how positions are handed out:

- `createCard` and `createColumn` add a row at the current maximum plus
  `MIN_INDEX = 3000`.
- `move` places a card between two neighbours by a midpoint rule, or by a
  one-sided rule at either end.
- Deleting a column first removes its cards, then the column row.

The model is split the way the source is:

- `store.dfy` (module `Store`): the rows (`Card`, `Column`) and one `Board`
  object that holds both tables as maps (`cards`, `columns`). The
  repositories and services share this object and update it in place.
- `queries.dfy` (module `Queries`): what the store's ordered queries answer.
  A descending `Limit: 1` query gives the maximum (`MaxOf`). An ascending
  query gives a listing (`IsListing`), where rows with equal keys may come
  in any order.
- `card_repository.dfy`, `column_repository.dfy`: the two repository
  classes. Pure functions give each operation's effect on a table. The
  methods write the `Board` and say what its new state is.
- `card_service.dfy`, `column_service.dfy`: the two services, including the
  per-column batch delete and the column-delete cascade.

Every request to the store can fail. The store's answer is a
nondeterministic choice in each method. A read returns `Ok(rows)` or
`Failed`. A write returns `Success` or `Failure`. A failed request writes
nothing, and an operation stops at the first failed request, as an awaited
rejected promise does in the source.

In these places the code does something its comments and names do not suggest; the model follows the code:

- `move` with no truthy neighbour writes index `0`, not `MIN_INDEX`
  (`src/repository/CardRepository.js:158`). `getSortedCards` keeps only rows
  with `cardIndex > 0`. So such a card drops out of the sorted listing
  (`MoveWithoutNeighboursHidesCard`).
- `createCard` calls `getMaxCardIndex()` with no column
  (`src/repository/CardRepository.js:18`). The model reads this as the
  maximum over all cards of the board, so a new card's index is
  board-wide maximum + 3000, not its column's maximum + 3000. It is still
  above every index in its own column (`CardRepository.CreateIndex`).
- `move` returns nothing. It does not return the computed position.
- There is no `moveColumn`: columns are only appended, retitled and
  deleted. So, in the model, column indices stay distinct and positive
  (`ColumnRepository.IndicesOrdered`), and the sorted column listing is
  fully determined (`ColumnRepository.AscendingListingUnique`).

A neighbour index is an `Option<real>`. It is *truthy* when it is present
and not 0, as a JavaScript number is in a condition.

## Model

| member | source | states |
|---|---|---|
| `Store.Board.constructor` | src/local-usage-scripts/cards-table.js:9-39 | a new board starts with both tables empty and every row keyed by its own id (the columns table is declared in src/local-usage-scripts/columns-table.js:9-23) |
| `Store.Board.Valid` | src/local-usage-scripts/cards-table.js:11-13 | the board invariant: every card is stored under its `cardID` and every column under its `columnID` (the columns key is at src/local-usage-scripts/columns-table.js:11-14) |
| `Store.FreshKeyExists` | src/repository/CardRepository.js:16 | a generated id can always avoid every id already in a table (stands for `uuidv4()`) |
| `Queries.MaxOf` | src/repository/CardRepository.js:198-207 | the descending `Limit: 1` answer is 0 when nothing matches; otherwise it is one of the matched values and no matched value exceeds it |
| `Queries.MaxOfInsert` | src/repository/CardRepository.js:198-207 | adding one value to a non-empty set makes the maximum the larger of the old maximum and that value |
| `Queries.ListingExists` | src/repository/CardRepository.js:139-144 | an ascending query over a finite table always has an answer: every matching row exactly once, in key order |
| `Queries.IsListing` | src/repository/CardRepository.js:139-144 | the shape of every sorted answer: each matching row exactly once, and every earlier row ordered before every later one |
| `Queries.ListingHasNoRepeats` | src/repository/CardRepository.js:139-144 | a listing never holds the same row twice |
| `CardRepository.MIN_INDEX` | src/repository/CardRepository.js:11 | the gap between successive created cards, 3000 |
| `CardRepository.Truthy` | src/repository/CardRepository.js:159-165 | the JavaScript truth value of a neighbour index in the conditions of `move`: an absent index and 0 are false, every other number is true |
| `CardRepository.MoveIndex` | src/repository/CardRepository.js:158-167 | both neighbours truthy: the midpoint, strictly between them when prev < next; prev only: 1.5·prev, above prev when prev > 0; next only: next/2, in (0, next) when next > 0; neither: 0 |
| `CardRepository.ZeroNeighbourIsAbsent` | src/repository/CardRepository.js:158-166 | a neighbour at index 0 selects the same rule as an absent neighbour, on either side |
| `CardRepository.MaxCardIndex` | src/repository/CardRepository.js:191-207 | 0 when no card is in scope (scope: one column, or every card when no column is given); otherwise the largest `cardIndex` in scope, held by some card in scope |
| `CardRepository.CreateIndex` | src/repository/CardRepository.js:18-19 | a new card's index is at least 3000 above every existing card index, so it is above every index in its own column; on an empty table it is 3000 |
| `CardRepository.NewCard` | src/repository/CardRepository.js:16-24 | the row `createCard` writes: the given id, column and title, no description, and an index after every card of its column and at least 3000 above every card of the board |
| `CardRepository.SuccessiveCreatesRise` | src/repository/CardRepository.js:14-26 | after one create, the next create's index is exactly 3000 higher |
| `CardRepository.CardsOfColumn` | src/repository/CardRepository.js:68-80 | a card is returned exactly when it is a stored row whose `columnID` is the column asked for |
| `CardRepository.VisibleCards` | src/repository/CardRepository.js:130-140 | the sorted query admits exactly the stored rows with `cardIndex > 0` |
| `CardRepository.CardOrder` | src/repository/CardRepository.js:129-140 | the order of the sorted card answer: by column id in string order, then by `cardIndex` within a column |
| `CardRepository.CardOrderIsTotalPreorder` | src/repository/CardRepository.js:129-140 | ordering by column id (string order), then by index, is a total, transitive order, so the sorted listing exists |
| `CardRepository.WithoutItems` | src/repository/CardRepository.js:88-108 | a batch delete removes exactly the rows whose ids are listed and leaves every other row as it was |
| `CardRepository.MovedCards` | src/repository/CardRepository.js:169-183 | a move rewrites only that card's `columnID` and `cardIndex`; its id, title and description stay; every other card and the set of ids stay |
| `CardRepository.MoveLandsBetween` | src/repository/CardRepository.js:153-183 | a card dropped between cards at prev < next of its new column comes strictly after the first and before the second in every sorted listing |
| `CardRepository.MoveWithoutNeighboursHidesCard` | src/repository/CardRepository.js:130-189 | a card moved with no truthy neighbour gets index 0 and is missing from every sorted listing |
| `CardRepository.CardRepository.constructor` | src/repository/CardRepository.js:9-12 | the repository works on the board's cards table that it is given |
| `CardRepository.CardRepository.CreateCard` | src/repository/CardRepository.js:14-28 | on success exactly one row is added, under an id not in use, with the given column and title, no description, and index `CreateIndex` of the old table; nothing is written on failure |
| `CardRepository.CardRepository.GetCard` | src/repository/CardRepository.js:30-41 | returns the row stored under the id, or none when no such row exists |
| `CardRepository.CardRepository.UpdateCard` | src/repository/CardRepository.js:43-55 | only that card's `cardTitle` changes; every other field and every other card stay the same |
| `CardRepository.CardRepository.DeleteCard` | src/repository/CardRepository.js:57-66 | removes exactly that row |
| `CardRepository.CardRepository.GetCardsByColumnID` | src/repository/CardRepository.js:68-86 | returns exactly the rows of the column |
| `CardRepository.CardRepository.DeleteCardsInBatch` | src/repository/CardRepository.js:88-116 | removes exactly the listed rows; an empty list sends no request and always succeeds |
| `CardRepository.CardRepository.GetCards` | src/repository/CardRepository.js:118-127 | returns every row of the table |
| `CardRepository.CardRepository.GetSortedCards` | src/repository/CardRepository.js:129-151 | returns each row with a positive index exactly once, ordered by column id and then by index |
| `CardRepository.CardRepository.Move` | src/repository/CardRepository.js:153-189 | on success the table becomes `MovedCards` with the index `MoveIndex` of the two neighbours; nothing is written on failure |
| `CardRepository.CardRepository.GetMaxCardIndex` | src/repository/CardRepository.js:191-214 | returns `MaxCardIndex` of the cards in scope |
| `ColumnRepository.MIN_INDEX` | src/repository/ColumnRepository.js:11 | the gap between successive created columns, 3000 |
| `ColumnRepository.MaxColumnIndex` | src/repository/ColumnRepository.js:103-126 | 0 on an empty board; otherwise the largest `columnIndex`, held by some column |
| `ColumnRepository.CreateIndex` | src/repository/ColumnRepository.js:18-19 | a new column's index is at least 3000 above every existing column index; on an empty board it is 3000 |
| `ColumnRepository.NewColumn` | src/repository/ColumnRepository.js:16-24 | the row `createColumn` writes: the given id and title, and an index at least 3000 above every column, 3000 on an empty board |
| `ColumnRepository.IndicesOrdered` | src/repository/ColumnRepository.js:14-28 | the invariant that creates, retitles and deletes keep: column indices are positive and no two columns share one |
| `ColumnRepository.SuccessiveCreatesRise` | src/repository/ColumnRepository.js:14-26 | after one create, the next create's index is exactly 3000 higher |
| `ColumnRepository.CreateKeepsIndicesOrdered` | src/repository/ColumnRepository.js:14-26 | appending a column keeps all column indices distinct and positive |
| `ColumnRepository.VisibleColumns` | src/repository/ColumnRepository.js:79-89 | the sorted query admits exactly the stored rows with `columnIndex > 0` |
| `ColumnRepository.ColumnOrder` | src/repository/ColumnRepository.js:79-89 | the order of the sorted column answer: ascending `columnIndex` |
| `ColumnRepository.OrderedListingIsComplete` | src/repository/ColumnRepository.js:79-101 | while column indices are distinct and positive, a sorted listing holds every column and its indices strictly ascend |
| `ColumnRepository.AscendingListingsShareHead` | src/repository/ColumnRepository.js:79-101 | two strictly ascending listings of the same columns start with the same column |
| `ColumnRepository.AscendingListingUnique` | src/repository/ColumnRepository.js:79-101 | two strictly ascending listings of the same columns are equal, so the board has one column order |
| `ColumnRepository.CreatedColumnIsListedLast` | src/repository/ColumnRepository.js:14-26 | a newly created column is the last column in every sorted listing |
| `ColumnRepository.ColumnRepository.constructor` | src/repository/ColumnRepository.js:9-12 | the repository works on the board's columns table that it is given |
| `ColumnRepository.ColumnRepository.CreateColumn` | src/repository/ColumnRepository.js:14-28 | on success exactly one column is added, under an id not in use, with the given title and index `CreateIndex` of the old table; other columns stay; the ordering invariant is kept |
| `ColumnRepository.ColumnRepository.GetColumn` | src/repository/ColumnRepository.js:30-41 | returns the row stored under the id, or none |
| `ColumnRepository.ColumnRepository.UpdateColumn` | src/repository/ColumnRepository.js:43-55 | only that column's `columnTitle` changes; its index and all other columns stay |
| `ColumnRepository.ColumnRepository.DeleteColumn` | src/repository/ColumnRepository.js:57-66 | removes only that column row (the cards table is outside its frame) |
| `ColumnRepository.ColumnRepository.GetColumns` | src/repository/ColumnRepository.js:68-77 | returns every row of the table |
| `ColumnRepository.ColumnRepository.GetSortedColumns` | src/repository/ColumnRepository.js:79-101 | returns each column with a positive index exactly once, in ascending `columnIndex` order |
| `ColumnRepository.ColumnRepository.GetMaxColumnIndex` | src/repository/ColumnRepository.js:103-126 | returns `MaxColumnIndex` of the board |
| `CardService.WithoutColumn` | src/service/CardService.js:33-40 | after the cascade no card belongs to the column, cards of every other column are unchanged, and no row is added |
| `CardService.CascadeOfEmptyColumnChangesNothing` | src/service/CardService.js:38 | a column with no cards leaves the cards table unchanged |
| `CardService.CascadeEmptiesColumn` | src/service/CardService.js:33-40 | after the cascade, asking for the column's cards gives none |
| `CardService.BatchOfColumnIsCascade` | src/service/CardService.js:33-38 | batch-deleting the rows returned for a column is the same as removing that column's cards |
| `CardService.CardService.constructor` | src/service/CardService.js:5-8 | the service builds its own card repository, and that repository works on the given board |
| `CardService.CardService.CreateCard` | src/service/CardService.js:10-13 | forwards its arguments and promises what the repository's `createCard` promises |
| `CardService.CardService.GetCard` | src/service/CardService.js:15-19 | forwards to the repository's `getCard` |
| `CardService.CardService.UpdateCard` | src/service/CardService.js:21-25 | the description is accepted but not written: only `cardTitle` changes, so `cardDescription` stays |
| `CardService.CardService.DeleteCard` | src/service/CardService.js:27-31 | forwards to the repository's `deleteCard` |
| `CardService.CardService.DeleteCardsInBatch` | src/service/CardService.js:33-40 | on success the table becomes `WithoutColumn` of the old table; on failure nothing changes; a column without cards leaves the table unchanged |
| `CardService.CardService.GetCards` | src/service/CardService.js:42-46 | forwards to the repository's `getCards` |
| `CardService.CardService.GetCardsByColumnID` | src/service/CardService.js:48-52 | forwards to the repository's `getCardsByColumnID` |
| `CardService.CardService.GetSortedCards` | src/service/CardService.js:54-58 | forwards to the repository's `getSortedCards` |
| `CardService.CardService.Move` | src/service/CardService.js:60-64 | forwards all four arguments unchanged; promises what the repository's `move` promises |
| `CardService.CardService.GetMaxCardIndex` | src/service/CardService.js:66-69 | forwards the column id, scoping the maximum to that column |
| `ColumnService.ColumnService.constructor` | src/service/ColumnService.js:6-9 | the service builds its own column repository and card service over the given board, so `SharesBoard` holds from the start |
| `ColumnService.ColumnService.SharesBoard` | src/service/ColumnService.js:6-9 | the wiring `DeleteColumn` relies on: the column repository and the card service's repository work on the same board |
| `ColumnService.ColumnService.CreateColumn` | src/service/ColumnService.js:11-14 | forwards to the repository's `createColumn` and promises the same |
| `ColumnService.ColumnService.GetColumn` | src/service/ColumnService.js:16-20 | forwards to the repository's `getColumn` |
| `ColumnService.ColumnService.UpdateColumn` | src/service/ColumnService.js:22-26 | forwards to the repository's `updateColumn` |
| `ColumnService.ColumnService.DeleteColumn` | src/service/ColumnService.js:28-34 | on success the column row is gone and the cards table is `WithoutColumn` of the old one (other columns and their cards unchanged); on failure the column row stays; the cards change by the cascade or not at all, and the column row changes only once the cascade is done |
| `ColumnService.ColumnService.GetColumns` | src/service/ColumnService.js:36-40 | forwards to the repository's `getColumns` |
| `ColumnService.ColumnService.GetSortedColumns` | src/service/ColumnService.js:42-46 | forwards to the repository's `getSortedColumns` |
| `ColumnService.ColumnService.GetMaxColumnIndex` | src/service/ColumnService.js:48-51 | forwards to the repository's `getMaxColumnIndex` |

## Left out

- The controllers, the middleware wrapper and response formatting: HTTP envelopes, JSON, `unmarshall`, validation and the mapping of errors to status 500.
- Table creation scripts: they only fix the key shapes. Cards are keyed by `cardID`. Columns are keyed by `columnID` alone, although the table also declares `columnIndex` as its range key.
- DynamoDB attribute marshalling. `getMaxCardIndex` really returns the `{N: ...}` attribute map of the top row, so `maxIndex + 3000` would not add numbers in JavaScript. The model works with plain numbers.
- JavaScript string coercion: path parameters arrive as strings, so `prev + next` would concatenate and `"0"` would be truthy. Neighbour indices are modelled as numbers.
- `CardRepository.CardRepository.CreateCard`: the real query passes `undefined` as the column key, which DynamoDB would reject. The model reads the call as a maximum over every card.
- Query and key validity. Each of these requests is modelled by what its parameters ask for, and the list is not exhaustive:
  the card query by `columnID` on the base table;
  the unmarshalled `{ ':columnID': columnID }` value of `getMaxCardIndex`;
  the column maximum's key condition on the hash key;
  the sorted-cards query without a hash-key condition;
  the sorted-columns `Scan` with a key condition;
  the start values `marshall({ N: '0' })` of both sorted queries, which marshal to a map and not to the number 0;
  the batch delete's key, which names `columnID` as well as `cardID`;
  the sorted-columns request's index `columnsByIndex`, which the columns table does not declare;
  the column `getColumn`, `updateColumn` and `deleteColumn` keys, which name `columnID` without the range key `columnIndex`.
- `CardRepository.CardRepository.UpdateCard`, `CardRepository.CardRepository.Move`, `ColumnRepository.ColumnRepository.UpdateColumn`: for an id with no row, DynamoDB's `UpdateItem` would create a partial row. The model leaves the table unchanged, because a partial row has no place in the row types.
- `CardRepository.CardRepository.GetSortedCards`, `ColumnRepository.ColumnRepository.GetSortedColumns`: the order between rows with equal sort keys is left open, as the store leaves it. For cards, the order of column ids is taken as character-by-character string order.
- UUID generation: the model chooses any id not yet in use.
- Floating-point precision and running out of room under repeated halving: positions are `real`.
- `CardRepository.CardRepository.CreateCard`, `ColumnRepository.ColumnRepository.CreateColumn`, `CardService.CardService.DeleteCardsInBatch`, `ColumnService.ColumnService.DeleteColumn`: store reads are eventually consistent. The source never sets `ConsistentRead`, and the `cardsByColumnIdAndIndex` secondary index cannot be read consistently at all. A create made soon after another can read an old maximum and reuse its index, and the cascade can miss a card written just before it. The model reads the current tables.
- Concurrent requests, such as two moves that compute the same midpoint.
- `CardRepository.CardRepository.GetCards`, `CardRepository.CardRepository.GetCardsByColumnID`, `CardRepository.CardRepository.GetSortedCards`, `ColumnRepository.ColumnRepository.GetColumns`, `ColumnRepository.ColumnRepository.GetSortedColumns`, `CardService.CardService.DeleteCardsInBatch`, `ColumnService.ColumnService.DeleteColumn`: a Scan or Query answers one page of at most 1 MB, and the source never asks for the next page (`LastEvaluatedKey` is never read). On a larger table these reads return only the first part of the rows, and the column cascade can then leave cards of the deleted column behind. The model answers every read with all matching rows.
- `BatchWriteItem` size limits and unprocessed items: a batch delete either removes all listed rows or fails as a whole.
- Logging and error message text: a failure is the abstract `Failed` / `Failure`.
- What the SDK returns on a successful write: the model returns `Success` only. For `move`, which returns nothing, `Success` stands for the resolved promise.
- The second copy `src/service/СardService.js`, which the core does not use. No `moveColumn` exists in the column repository, so none is modelled.
