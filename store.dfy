/**
 * The two DynamoDB tables of the kanban board, as values.
 *
 * The cards table is keyed by `cardID`; its secondary index orders the
 * cards of one column by `cardIndex`. The columns table is declared with
 * `columnID` as hash key and `columnIndex` as range key; the model keys it
 * by `columnID` alone. Both tables are held by one `Board` object, which the
 * repositories and services share and update in place.
 */
module Store {

  type CardID = string
  type ColumnID = string

  datatype Option<T> = None | Some(value: T)

  /** What a read request to the store answers: the rows, or a fault. */
  datatype Result<T> = Ok(value: T) | Failed

  /** What a write request to the store answers. */
  datatype Outcome = Success | Failure

  datatype Card = Card(
    cardID: CardID,
    columnID: ColumnID,
    cardIndex: real,
    cardTitle: string,
    cardDescription: Option<string>)

  datatype Column = Column(
    columnID: ColumnID,
    columnIndex: real,
    columnTitle: string)

  /** Every row is stored under its own id attribute. */
  predicate KeyedCards(cards: map<CardID, Card>) {
    forall id :: id in cards ==> cards[id].cardID == id
  }

  predicate KeyedColumns(columns: map<ColumnID, Column>) {
    forall id :: id in columns ==> columns[id].columnID == id
  }

  class Board {
    var cards: map<CardID, Card>
    var columns: map<ColumnID, Column>

    ghost predicate Valid()
      reads this
    {
      KeyedCards(cards) && KeyedColumns(columns)
    }

    constructor ()
      ensures Valid()
      ensures cards == map[] && columns == map[]
    {
      cards := map[];
      columns := map[];
    }
  }

  /** A bound on the length of every key of a finite table. */
  lemma {:induction false} LongerThanAllKeys(keys: set<string>) returns (n: nat)
    ensures forall k :: k in keys ==> |k| < n
  {
    if keys == {} {
      n := 0;
    } else {
      var k := Pick(keys);
      var m := LongerThanAllKeys(keys - {k});
      n := if |k| < m then m else |k| + 1;
    }
  }

  /** A generated id (a UUID in the system) can always avoid the ids in use. */
  lemma FreshKeyExists(keys: set<string>)
    ensures exists id: string :: id !in keys
  {
    var n := LongerThanAllKeys(keys);
    var id := seq(n, _ => 'a');
    assert id !in keys;
  }

  lemma Pick<T>(s: set<T>) returns (x: T)
    requires s != {}
    ensures x in s
  {
    x :| x in s;
  }
}
