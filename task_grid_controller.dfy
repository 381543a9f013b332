/**
 * The earlier bus-driven grid: the same card patches as the grid controller,
 * without a handler for replacing the whole list.
 */
module TaskGridController {
  import opened Wrappers
  import opened ClientTypes
  import CardList
  import GridController

  datatype Handler = Prepend | Replace | Remove

  /** The subscriptions made on connect. */
  function Route(name: string): (h: Option<Handler>)
    ensures h == Some(Prepend) <==> name == TaskCreated
    ensures h == Some(Replace) <==> name in {TaskUpdated, TaskDone, TaskRemoved, TaskRestored}
    ensures h == Some(Remove) <==> name == TaskDeleted
  {
    if name == TaskCreated then Some(Prepend)
    else if name == TaskUpdated then Some(Replace)
    else if name == TaskDone then Some(Replace)
    else if name == TaskRemoved then Some(Replace)
    else if name == TaskDeleted then Some(Remove)
    else if name == TaskRestored then Some(Replace)
    else None
  }

  /** The cards after one bus event; a detail without the fields a handler reads changes nothing. */
  function Apply(cards: seq<Card>, e: Event): seq<Card> {
    match Route(e.name)
    case None => cards
    case Some(Prepend) =>
      if e.detail.Markup? then [e.detail.card] + cards else cards
    case Some(Replace) =>
      if e.detail.Reply? then CardList.ReplaceFirst(cards, e.detail.task.id, Card(e.detail.task.id, e.detail.task.html))
      else cards
    case Some(Remove) =>
      if e.detail.Reply? then CardList.RemoveFirst(cards, e.detail.task.id)
      else if e.detail.IdOnly? && e.detail.maybeId.Some? then CardList.RemoveFirst(cards, e.detail.maybeId.value)
      else cards
  }

  /** On every event but `grid:updated`, this grid and the later one end with the same cards. */
  lemma AgreesWithGridController(cards: seq<Card>, e: Event)
    ensures e.name != GridUpdated ==> Apply(cards, e) == GridController.Apply(cards, e)
    ensures e.name == GridUpdated ==> Apply(cards, e) == cards
  {
  }

  class TaskGridController {
    var cards: seq<Card>

    constructor (cards: seq<Card>)
      ensures this.cards == cards
    {
      this.cards := cards;
    }

    method OnTaskCreated(card: Card)
      modifies this
      ensures cards == [card] + old(cards)
    {
      cards := [card] + cards;
    }

    method OnTaskUpdated(id: int, html: string)
      modifies this
      ensures cards == CardList.ReplaceFirst(old(cards), id, Card(id, html))
    {
      var item := CardList.FirstIndex(cards, id);
      if item.None? {
        return;
      }
      cards := cards[item.value := Card(id, html)];
    }

    method OnTaskDeleted(id: int)
      modifies this
      ensures cards == CardList.RemoveFirst(old(cards), id)
    {
      var item := CardList.FirstIndex(cards, id);
      if item.None? {
        return;
      }
      cards := cards[..item.value] + cards[item.value + 1..];
    }

    method Dispatch(e: Event)
      modifies this
      ensures cards == Apply(old(cards), e)
    {
      match Route(e.name)
      case None =>
      case Some(Prepend) =>
        if e.detail.Markup? { OnTaskCreated(e.detail.card); }
      case Some(Replace) =>
        if e.detail.Reply? { OnTaskUpdated(e.detail.task.id, e.detail.task.html); }
      case Some(Remove) =>
        if e.detail.Reply? {
          OnTaskDeleted(e.detail.task.id);
        } else if e.detail.IdOnly? && e.detail.maybeId.Some? {
          OnTaskDeleted(e.detail.maybeId.value);
        }
    }
  }
}
