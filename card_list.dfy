/**
 * The ordered list of cards a grid shows, and the three patches the grids
 * apply to it: find the first card with an id (the attribute selector),
 * replace that card, remove that card. A missing id changes nothing.
 */
module CardList {
  import opened Wrappers
  import opened ClientTypes

  /** The position of the first card with `id`, if there is one. */
  function FirstIndex(cards: seq<Card>, id: int): (r: Option<nat>)
    ensures r.Some? ==> r.value < |cards| && cards[r.value].id == id
    ensures r.Some? ==> forall j :: 0 <= j < r.value ==> cards[j].id != id
    ensures r.None? <==> forall j :: 0 <= j < |cards| ==> cards[j].id != id
  {
    if cards == [] then None
    else if cards[0].id == id then Some(0)
    else match FirstIndex(cards[1..], id)
      case None => None
      case Some(i) => Some(i + 1)
  }

  /** The list with the first card carrying `id` replaced by `card`. */
  function ReplaceFirst(cards: seq<Card>, id: int, card: Card): (r: seq<Card>)
    ensures |r| == |cards|
    ensures FirstIndex(cards, id).None? ==> r == cards
    ensures FirstIndex(cards, id).Some? ==> r == cards[FirstIndex(cards, id).value := card]
  {
    if cards == [] then []
    else if cards[0].id == id then [card] + cards[1..]
    else [cards[0]] + ReplaceFirst(cards[1..], id, card)
  }

  /** The list without the first card carrying `id`; the others keep their order. */
  function RemoveFirst(cards: seq<Card>, id: int): (r: seq<Card>)
    ensures FirstIndex(cards, id).None? ==> r == cards
    ensures FirstIndex(cards, id).Some? ==>
      var i := FirstIndex(cards, id).value;
      r == cards[..i] + cards[i + 1..]
  {
    if cards == [] then []
    else if cards[0].id == id then cards[1..]
    else
      var rest := RemoveFirst(cards[1..], id);
      CutOfTail(cards, FirstIndex(cards[1..], id));
      [cards[0]] + rest
  }

  /** Cutting position i out of the tail is cutting position i + 1 out of the whole list, past its head. */
  lemma CutOfTail(cards: seq<Card>, found: Option<nat>)
    requires cards != [] && (found.Some? ==> found.value < |cards| - 1)
    ensures found.Some? ==>
      [cards[0]] + (cards[1..][..found.value] + cards[1..][found.value + 1..])
      == cards[..found.value + 1] + cards[found.value + 2..]
  {
    if found.Some? {
      var i := found.value;
      assert cards[..i + 1] == [cards[0]] + cards[1..][..i];
      assert cards[i + 2..] == cards[1..][i + 1..];
    }
  }

  /** No two cards share an id, as when each task is rendered once. */
  predicate UniqueIds(cards: seq<Card>) {
    forall i, j :: 0 <= i < j < |cards| ==> cards[i].id != cards[j].id
  }

  /** Where the cards of a list with one position cut out come from. */
  lemma CutIndex(cards: seq<Card>, i: nat, k: nat)
    requires i < |cards| && k < |cards| - 1
    ensures (cards[..i] + cards[i + 1..])[k] == if k < i then cards[k] else cards[k + 1]
  {
  }

  /** Removing a card of a list with unique ids leaves no card with that id, and the ids stay unique. */
  lemma RemoveFirstOfUnique(cards: seq<Card>, id: int)
    requires UniqueIds(cards)
    ensures UniqueIds(RemoveFirst(cards, id))
    ensures forall c :: c in RemoveFirst(cards, id) ==> c.id != id
  {
    var r := RemoveFirst(cards, id);
    var found := FirstIndex(cards, id);
    if found.Some? {
      var i := found.value;
      assert |r| == |cards| - 1 && r == cards[..i] + cards[i + 1..];
      forall k | 0 <= k < |r|
        ensures r[k].id != id
      {
        CutIndex(cards, i, k);
      }
      forall a, b | 0 <= a < b < |r|
        ensures r[a].id != r[b].id
      {
        CutIndex(cards, i, a);
        CutIndex(cards, i, b);
      }
    }
  }

  /** Replacing a card by one with the same id keeps the ids unique and the card findable at the same place. */
  lemma ReplaceFirstKeepsIds(cards: seq<Card>, id: int, html: string)
    requires UniqueIds(cards)
    ensures UniqueIds(ReplaceFirst(cards, id, Card(id, html)))
    ensures FirstIndex(ReplaceFirst(cards, id, Card(id, html)), id) == FirstIndex(cards, id)
  {
    var r := ReplaceFirst(cards, id, Card(id, html));
    match FirstIndex(cards, id)
    case None =>
    case Some(i) =>
      assert forall j :: 0 <= j < |r| ==> r[j].id == cards[j].id;
  }

  /** A card put in front is taken out again by its id, and the rest is as before. */
  lemma PrependThenRemove(cards: seq<Card>, card: Card)
    ensures RemoveFirst([card] + cards, card.id) == cards
  {
    assert ([card] + cards)[1..] == cards;
  }
}
