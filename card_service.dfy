/**
 * The card service: forwards each request to the card repository, and
 * implements the per-column batch delete that a column delete cascades to.
 */
module CardService {

  import opened Store
  import opened Queries
  import CR = CardRepository

  /** The cards table once the cards of `columnID` are gone. */
  function WithoutColumn(cards: map<CardID, Card>, columnID: ColumnID): (r: map<CardID, Card>)
    ensures forall id :: id in r ==> r[id].columnID != columnID
    ensures forall id :: id in cards && cards[id].columnID != columnID ==> id in r && r[id] == cards[id]
    ensures r.Keys <= cards.Keys
    ensures KeyedCards(cards) ==> KeyedCards(r)
  {
    map id | id in cards && cards[id].columnID != columnID :: cards[id]
  }

  /** A column without cards loses nothing to the cascade. */
  lemma CascadeOfEmptyColumnChangesNothing(cards: map<CardID, Card>, columnID: ColumnID)
    requires forall id :: id in cards ==> cards[id].columnID != columnID
    ensures WithoutColumn(cards, columnID) == cards
  {
  }

  /** After the cascade, asking for the column's cards gives none. */
  lemma CascadeEmptiesColumn(cards: map<CardID, Card>, columnID: ColumnID)
    requires KeyedCards(cards)
    ensures CR.CardsOfColumn(WithoutColumn(cards, columnID), columnID) == {}
  {
  }

  /** Deleting the rows of a column's listing is the cascade for that column. */
  lemma BatchOfColumnIsCascade(cards: map<CardID, Card>, columnID: ColumnID)
    requires KeyedCards(cards)
    ensures CR.WithoutItems(cards, CR.CardsOfColumn(cards, columnID)) == WithoutColumn(cards, columnID)
  {
    var items := CR.CardsOfColumn(cards, columnID);
    forall id | id in cards && cards[id].columnID == columnID
      ensures id !in CR.WithoutItems(cards, items)
    {
      assert cards[id] in items;
    }
  }

  class CardService {
    const repository: CR.CardRepository

    constructor (board: Board)
      ensures repository.board == board
    {
      repository := new CR.CardRepository(board);
    }

    method CreateCard(columnID: ColumnID, cardTitle: string) returns (r: Outcome)
      requires repository.board.Valid()
      modifies repository.board`cards
      ensures repository.board.Valid()
      ensures r.Failure? ==> repository.board.cards == old(repository.board.cards)
      ensures r.Success? ==>
                (exists cardID :: cardID !in old(repository.board.cards) &&
                   repository.board.cards == old(repository.board.cards)[cardID :=
                     CR.NewCard(old(repository.board.cards), cardID, columnID, cardTitle)])
    {
      r := repository.CreateCard(columnID, cardTitle);
    }

    method GetCard(cardId: CardID) returns (r: Result<Option<Card>>)
      ensures r.Ok? ==> (r.value.Some? <==> cardId in repository.board.cards)
      ensures r.Ok? && r.value.Some? ==> r.value.value == repository.board.cards[cardId]
    {
      r := repository.GetCard(cardId);
    }

    /** The description is passed on, but the repository writes only the title. */
    method UpdateCard(cardId: CardID, cardTitle: string, cardDescription: Option<string>) returns (r: Outcome)
      requires repository.board.Valid()
      modifies repository.board`cards
      ensures repository.board.Valid()
      ensures repository.board.cards ==
                if r.Success? && cardId in old(repository.board.cards)
                then old(repository.board.cards)[cardId := old(repository.board.cards)[cardId].(cardTitle := cardTitle)]
                else old(repository.board.cards)
    {
      r := repository.UpdateCard(cardId, cardTitle);
    }

    method DeleteCard(cardId: CardID) returns (r: Outcome)
      requires repository.board.Valid()
      modifies repository.board`cards
      ensures repository.board.Valid()
      ensures repository.board.cards ==
                if r.Success? then old(repository.board.cards) - {cardId} else old(repository.board.cards)
    {
      r := repository.DeleteCard(cardId);
    }

    /**
     * deleteCardsInBatch: read the column's cards and, when there are any,
     * delete them in one batch. A column without cards gets no delete request.
     */
    method DeleteCardsInBatch(columnID: ColumnID) returns (r: Outcome)
      requires repository.board.Valid()
      modifies repository.board`cards
      ensures repository.board.Valid()
      ensures repository.board.cards ==
                if r.Success? then WithoutColumn(old(repository.board.cards), columnID)
                else old(repository.board.cards)
      ensures (forall id :: id in old(repository.board.cards) ==> old(repository.board.cards)[id].columnID != columnID)
              ==> repository.board.cards == old(repository.board.cards)
    {
      BatchOfColumnIsCascade(repository.board.cards, columnID);
      var items := GetCardsByColumnID(columnID);
      if items.Failed? {
        return Failure;
      }
      if |items.value| > 0 {
        r := repository.DeleteCardsInBatch(items.value);
      } else {
        assert WithoutColumn(repository.board.cards, columnID) == CR.WithoutItems(repository.board.cards, {});
        r := Success;
      }
    }

    method GetCards() returns (r: Result<set<Card>>)
      ensures r.Ok? ==> forall c :: c in r.value <==> exists id :: id in repository.board.cards && repository.board.cards[id] == c
    {
      r := repository.GetCards();
    }

    method GetCardsByColumnID(columnID: ColumnID) returns (r: Result<set<Card>>)
      requires repository.board.Valid()
      ensures r.Ok? ==> r.value == CR.CardsOfColumn(repository.board.cards, columnID)
    {
      r := repository.GetCardsByColumnID(columnID);
    }

    method GetSortedCards() returns (r: Result<seq<Card>>)
      requires repository.board.Valid()
      ensures r.Ok? ==> IsListing(r.value, CR.VisibleCards(repository.board.cards), CR.CardOrder)
    {
      r := repository.GetSortedCards();
    }

    method Move(cardID: CardID, columnID: ColumnID, prevCardIndex: Option<real>, nextCardIndex: Option<real>)
      returns (r: Outcome)
      requires repository.board.Valid()
      modifies repository.board`cards
      ensures repository.board.Valid()
      ensures repository.board.cards ==
                if r.Success?
                then CR.MovedCards(old(repository.board.cards), cardID, columnID, CR.MoveIndex(prevCardIndex, nextCardIndex))
                else old(repository.board.cards)
    {
      r := repository.Move(cardID, columnID, prevCardIndex, nextCardIndex);
    }

    method GetMaxCardIndex(columnID: ColumnID) returns (r: Result<real>)
      ensures r.Ok? ==> r.value == CR.MaxCardIndex(repository.board.cards, Some(columnID))
    {
      r := repository.GetMaxCardIndex(Some(columnID));
    }
  }
}
