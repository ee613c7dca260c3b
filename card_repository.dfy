/**
 * The card repository: creates cards at the end of the board, moves a card
 * to a position computed from its new neighbours, and reads and deletes
 * rows of the cards table.
 */
module CardRepository {

  import opened Store
  import opened Queries

  /** The gap left between successive appended cards. */
  const MIN_INDEX: real := 3000.0

  // ---- the position rule of `move` ----

  /**
   * JavaScript truthiness of a neighbour index: an absent neighbour and a
   * neighbour at 0 both count as "no neighbour on this side".
   */
  predicate Truthy(v: Option<real>) {
    v.Some? && v.value != 0.0
  }

  /**
   * The index a moved card receives from the indices of the cards before
   * (`prev`) and after (`next`) its drop position.
   */
  function MoveIndex(prev: Option<real>, next: Option<real>): (r: real)
    // between two neighbours: their midpoint, strictly inside the gap
    ensures Truthy(prev) && Truthy(next) ==> r - prev.value == next.value - r
    ensures Truthy(prev) && Truthy(next) && prev.value < next.value ==> prev.value < r < next.value
    // after the last card: half as far again as `prev`
    ensures Truthy(prev) && !Truthy(next) ==> r == 1.5 * prev.value
    ensures Truthy(prev) && !Truthy(next) && prev.value > 0.0 ==> r > prev.value
    // before the first card: half of `next`, between 0 and `next`
    ensures !Truthy(prev) && Truthy(next) ==> 2.0 * r == next.value
    ensures !Truthy(prev) && Truthy(next) && next.value > 0.0 ==> 0.0 < r < next.value
    // no neighbour at all: 0
    ensures !Truthy(prev) && !Truthy(next) ==> r == 0.0
  {
    if Truthy(prev) && Truthy(next) then (prev.value + next.value) / 2.0
    else if Truthy(prev) then prev.value + prev.value / 2.0
    else if Truthy(next) then next.value / 2.0
    else 0.0
  }

  /** A neighbour index of 0 selects the same rule as a missing neighbour. */
  lemma ZeroNeighbourIsAbsent(v: Option<real>)
    ensures MoveIndex(Some(0.0), v) == MoveIndex(None, v)
    ensures MoveIndex(v, Some(0.0)) == MoveIndex(v, None)
  {
  }

  // ---- reads of the cards table ----

  /** The cards `getMaxCardIndex` looks at: one column's, or all when no column is given. */
  predicate InScope(card: Card, columnID: Option<ColumnID>) {
    columnID.None? || card.columnID == columnID.value
  }

  function CardIndices(cards: map<CardID, Card>, columnID: Option<ColumnID>): set<real> {
    set id | id in cards && InScope(cards[id], columnID) :: cards[id].cardIndex
  }

  /** The answer of the descending, `Limit: 1` query: the highest index in scope, or 0. */
  function MaxCardIndex(cards: map<CardID, Card>, columnID: Option<ColumnID>): (r: real)
    ensures (forall id :: id in cards ==> !InScope(cards[id], columnID)) ==> r == 0.0
    ensures forall id :: id in cards && InScope(cards[id], columnID) ==> cards[id].cardIndex <= r
    ensures (exists id :: id in cards && InScope(cards[id], columnID)) ==>
              exists id :: id in cards && InScope(cards[id], columnID) && cards[id].cardIndex == r
  {
    var s := CardIndices(cards, columnID);
    assert forall id :: id in cards && InScope(cards[id], columnID) ==> cards[id].cardIndex in s;
    MaxOf(s)
  }

  /** The index `createCard` gives a new card: the board-wide maximum plus MIN_INDEX. */
  function CreateIndex(cards: map<CardID, Card>): (r: real)
    ensures forall id :: id in cards ==> cards[id].cardIndex < r
    ensures forall id :: id in cards ==> r - cards[id].cardIndex >= MIN_INDEX
    ensures cards == map[] ==> r == MIN_INDEX
  {
    MaxCardIndex(cards, None) + MIN_INDEX
  }

  /** The row `createCard` writes. */
  function NewCard(cards: map<CardID, Card>, cardID: CardID, columnID: ColumnID, cardTitle: string): (r: Card)
    ensures r.cardID == cardID && r.columnID == columnID && r.cardTitle == cardTitle
    ensures r.cardDescription == None
    // it lands after every card of its column, and after every card of the board
    ensures forall id :: id in cards && cards[id].columnID == columnID ==> cards[id].cardIndex < r.cardIndex
    ensures forall id :: id in cards ==> r.cardIndex - cards[id].cardIndex >= MIN_INDEX
  {
    Card(cardID, columnID, CreateIndex(cards), cardTitle, None)
  }

  /** Successive creates rise by exactly MIN_INDEX, whatever columns they go to. */
  lemma SuccessiveCreatesRise(cards: map<CardID, Card>, cardID: CardID, columnID: ColumnID, cardTitle: string)
    requires cardID !in cards
    ensures CreateIndex(cards[cardID := NewCard(cards, cardID, columnID, cardTitle)])
            == CreateIndex(cards) + MIN_INDEX
  {
    var card := NewCard(cards, cardID, columnID, cardTitle);
    var cards' := cards[cardID := card];
    forall x | x in CardIndices(cards, None) ensures x in CardIndices(cards', None) {
      var id :| id in cards && cards[id].cardIndex == x;
      assert cards'[id] == cards[id];
    }
    assert cards'[cardID] == card;
    assert CardIndices(cards', None) == CardIndices(cards, None) + {card.cardIndex};
    if cards != map[] {
      var id :| id in cards;
      assert cards[id].cardIndex in CardIndices(cards, None);
      MaxOfInsert(CardIndices(cards, None), card.cardIndex);
    } else {
      assert CardIndices(cards', None) == {card.cardIndex};
    }
  }

  /** The rows of one column (`getCardsByColumnID`). */
  function CardsOfColumn(cards: map<CardID, Card>, columnID: ColumnID): (r: set<Card>)
    requires KeyedCards(cards)
    ensures forall c :: c in r <==> c.cardID in cards && cards[c.cardID] == c && c.columnID == columnID
  {
    set id | id in cards && cards[id].columnID == columnID :: cards[id]
  }

  /** The rows the sorted query admits: `cardIndex > 0`. */
  function VisibleCards(cards: map<CardID, Card>): (r: set<Card>)
    requires KeyedCards(cards)
    ensures forall c :: c in r <==> c.cardID in cards && cards[c.cardID] == c && c.cardIndex > 0.0
  {
    set id | id in cards && cards[id].cardIndex > 0.0 :: cards[id]
  }

  /** Order of the sorted listing: by column id, then by index within a column. */
  predicate CardOrder(a: Card, b: Card) {
    if a.columnID == b.columnID then a.cardIndex <= b.cardIndex
    else StringLe(a.columnID, b.columnID)
  }

  lemma CardOrderIsTotalPreorder(s: set<Card>)
    ensures Total(s, CardOrder) && Transitive(s, CardOrder)
  {
    forall a, b | a in s && b in s ensures CardOrder(a, b) || CardOrder(b, a) {
      StringLeTotal(a.columnID, b.columnID);
    }
    forall a, b, c | a in s && b in s && c in s && CardOrder(a, b) && CardOrder(b, c)
      ensures CardOrder(a, c)
    {
      if a.columnID != b.columnID && b.columnID != c.columnID {
        StringLeTransitive(a.columnID, b.columnID, c.columnID);
        if a.columnID == c.columnID {
          StringLeAntisymmetric(a.columnID, b.columnID);
        }
      }
    }
  }

  /** The rows left after a batch delete of `items`, which names rows by their card id. */
  function WithoutItems(cards: map<CardID, Card>, items: set<Card>): (r: map<CardID, Card>)
    ensures forall id :: id in r <==> id in cards && forall c :: c in items ==> c.cardID != id
    ensures forall id :: id in r ==> r[id] == cards[id]
  {
    cards - set c | c in items :: c.cardID
  }

  /** The table after `move` has rewritten one card's column and index. */
  function MovedCards(cards: map<CardID, Card>, cardID: CardID, columnID: ColumnID, cardIndex: real)
    : (r: map<CardID, Card>)
    ensures r.Keys == cards.Keys
    ensures KeyedCards(cards) ==> KeyedCards(r)
    ensures forall id :: id in cards && id != cardID ==> r[id] == cards[id]
    ensures cardID in cards ==>
              && r[cardID].columnID == columnID
              && r[cardID].cardIndex == cardIndex
              && r[cardID].cardID == cards[cardID].cardID
              && r[cardID].cardTitle == cards[cardID].cardTitle
              && r[cardID].cardDescription == cards[cardID].cardDescription
  {
    if cardID in cards then cards[cardID := cards[cardID].(columnID := columnID, cardIndex := cardIndex)]
    else cards
  }

  /**
   * Dropping a card between two cards of its new column, at `prev` < `next`,
   * puts it between them in every sorted listing of the board.
   */
  lemma MoveLandsBetween(cards: map<CardID, Card>, cardID: CardID, columnID: ColumnID,
                         prev: real, next: real, q: seq<Card>, i: nat, j: nat, k: nat)
    requires KeyedCards(cards) && cardID in cards
    requires 0.0 < prev < next
    requires IsListing(q, VisibleCards(MovedCards(cards, cardID, columnID, MoveIndex(Some(prev), Some(next)))), CardOrder)
    requires i < |q| && j < |q| && k < |q|
    requires q[i].columnID == columnID && q[i].cardIndex == prev
    requires q[k].columnID == columnID && q[k].cardIndex == next
    requires q[j].cardID == cardID
    ensures i < j < k
  {
    var cards' := MovedCards(cards, cardID, columnID, MoveIndex(Some(prev), Some(next)));
    assert q[j] in multiset(q);
    assert q[j] == cards'[cardID];
    assert q[j].columnID == columnID && prev < q[j].cardIndex < next;
  }

  /**
   * A card moved with no neighbour on either side gets index 0, which the
   * sorted query (`cardIndex > 0`) no longer returns.
   */
  lemma MoveWithoutNeighboursHidesCard(cards: map<CardID, Card>, cardID: CardID, columnID: ColumnID, q: seq<Card>)
    requires KeyedCards(cards)
    requires IsListing(q, VisibleCards(MovedCards(cards, cardID, columnID, MoveIndex(None, None))), CardOrder)
    ensures forall i :: 0 <= i < |q| ==> q[i].cardID != cardID
  {
    forall i | 0 <= i < |q| ensures q[i].cardID != cardID {
      assert q[i] in multiset(q);
    }
  }

  // ---- the repository ----

  class CardRepository {
    const board: Board

    constructor (board: Board)
      ensures this.board == board
    {
      this.board := board;
    }

    /** createCard: append a card after the highest index on the whole board. */
    method CreateCard(columnID: ColumnID, cardTitle: string) returns (r: Outcome)
      requires board.Valid()
      modifies board`cards
      ensures board.Valid()
      ensures r.Failure? ==> board.cards == old(board.cards)
      ensures r.Success? ==>
                (exists cardID :: cardID !in old(board.cards) &&
                   board.cards == old(board.cards)[cardID := NewCard(old(board.cards), cardID, columnID, cardTitle)])
    {
      var maxIndex := GetMaxCardIndex(None);
      if maxIndex.Failed? {
        return Failure;
      }
      var cardIndex := maxIndex.value + MIN_INDEX;
      FreshKeyExists(board.cards.Keys);
      var cardID: CardID :| cardID !in board.cards.Keys;
      var accepted: bool := *;
      if !accepted {
        return Failure;
      }
      board.cards := board.cards[cardID := Card(cardID, columnID, cardIndex, cardTitle, None)];
      r := Success;
    }

    /** getCard: the row stored under `cardID`, or none. */
    method GetCard(cardID: CardID) returns (r: Result<Option<Card>>)
      ensures r.Ok? ==> (r.value.Some? <==> cardID in board.cards)
      ensures r.Ok? && r.value.Some? ==> r.value.value == board.cards[cardID]
    {
      var answered: bool := *;
      if !answered {
        return Failed;
      }
      r := Ok(if cardID in board.cards then Some(board.cards[cardID]) else None);
    }

    /** updateCard: set the title of one card. */
    method UpdateCard(cardID: CardID, cardTitle: string) returns (r: Outcome)
      requires board.Valid()
      modifies board`cards
      ensures board.Valid()
      ensures board.cards == if r.Success? && cardID in old(board.cards)
                             then old(board.cards)[cardID := old(board.cards)[cardID].(cardTitle := cardTitle)]
                             else old(board.cards)
    {
      var accepted: bool := *;
      if !accepted {
        return Failure;
      }
      if cardID in board.cards {
        board.cards := board.cards[cardID := board.cards[cardID].(cardTitle := cardTitle)];
      }
      r := Success;
    }

    /** deleteCard: remove one row. */
    method DeleteCard(cardID: CardID) returns (r: Outcome)
      requires board.Valid()
      modifies board`cards
      ensures board.Valid()
      ensures board.cards == if r.Success? then old(board.cards) - {cardID} else old(board.cards)
    {
      var accepted: bool := *;
      if !accepted {
        return Failure;
      }
      board.cards := board.cards - {cardID};
      r := Success;
    }

    /** getCardsByColumnID: the rows of one column. */
    method GetCardsByColumnID(columnID: ColumnID) returns (r: Result<set<Card>>)
      requires board.Valid()
      ensures r.Ok? ==> r.value == CardsOfColumn(board.cards, columnID)
    {
      var answered: bool := *;
      if !answered {
        return Failed;
      }
      r := Ok(CardsOfColumn(board.cards, columnID));
    }

    /** deleteCardsInBatch: remove the listed rows; an empty list sends no request. */
    method DeleteCardsInBatch(items: set<Card>) returns (r: Outcome)
      requires board.Valid()
      modifies board`cards
      ensures board.Valid()
      ensures items == {} ==> r.Success?
      ensures board.cards == if r.Success? then WithoutItems(old(board.cards), items) else old(board.cards)
    {
      if items == {} {
        assert WithoutItems(board.cards, items) == board.cards;
        return Success;
      }
      var accepted: bool := *;
      if !accepted {
        return Failure;
      }
      board.cards := WithoutItems(board.cards, items);
      r := Success;
    }

    /** getCards: every row of the table, in no particular order. */
    method GetCards() returns (r: Result<set<Card>>)
      ensures r.Ok? ==> forall c :: c in r.value <==> exists id :: id in board.cards && board.cards[id] == c
    {
      var answered: bool := *;
      if !answered {
        return Failed;
      }
      r := Ok(board.cards.Values);
    }

    /** getSortedCards: the rows with a positive index, by column and then by index. */
    method GetSortedCards() returns (r: Result<seq<Card>>)
      requires board.Valid()
      ensures r.Ok? ==> IsListing(r.value, VisibleCards(board.cards), CardOrder)
    {
      var answered: bool := *;
      if !answered {
        return Failed;
      }
      CardOrderIsTotalPreorder(VisibleCards(board.cards));
      ghost var q := ListingExists(VisibleCards(board.cards), CardOrder);
      var listing: seq<Card> :| IsListing(listing, VisibleCards(board.cards), CardOrder);
      r := Ok(listing);
    }

    /**
     * move: give the card a new column and the index that MoveIndex computes
     * from its new neighbours. The card keeps its id, title and description.
     */
    method Move(cardID: CardID, columnID: ColumnID, prevCardIndex: Option<real>, nextCardIndex: Option<real>)
      returns (r: Outcome)
      requires board.Valid()
      modifies board`cards
      ensures board.Valid()
      ensures board.cards == if r.Success?
                             then MovedCards(old(board.cards), cardID, columnID, MoveIndex(prevCardIndex, nextCardIndex))
                             else old(board.cards)
    {
      var cardIndex := MoveIndex(prevCardIndex, nextCardIndex);
      var accepted: bool := *;
      if !accepted {
        return Failure;
      }
      board.cards := MovedCards(board.cards, cardID, columnID, cardIndex);
      r := Success;
    }

    /** getMaxCardIndex: the highest index among the cards in scope, or 0. */
    method GetMaxCardIndex(columnID: Option<ColumnID>) returns (r: Result<real>)
      ensures r.Ok? ==> r.value == MaxCardIndex(board.cards, columnID)
    {
      var answered: bool := *;
      if !answered {
        return Failed;
      }
      r := Ok(MaxCardIndex(board.cards, columnID));
    }
  }
}
