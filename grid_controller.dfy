/**
 * The bus-driven task grid: it subscribes one handler per event name and
 * patches its list of cards in place. The layout library's bookkeeping
 * (prepended, reloadItems, layout) is not modelled.
 */
module GridController {
  import opened Wrappers
  import opened ClientTypes
  import CardList
  import ItemController

  datatype Handler = Prepend | Replace | Remove | ReplaceAll

  /** The subscriptions made on connect. */
  function Route(name: string): (h: Option<Handler>)
    ensures h == Some(Prepend) <==> name == TaskCreated
    ensures h == Some(Replace) <==> name in {TaskUpdated, TaskDone, TaskRemoved, TaskRestored}
    ensures h == Some(Remove) <==> name == TaskDeleted
    ensures h == Some(ReplaceAll) <==> name == GridUpdated
  {
    if name == TaskCreated then Some(Prepend)
    else if name == TaskUpdated then Some(Replace)
    else if name == TaskDone then Some(Replace)
    else if name == TaskRemoved then Some(Replace)
    else if name == TaskDeleted then Some(Remove)
    else if name == TaskRestored then Some(Replace)
    else if name == GridUpdated then Some(ReplaceAll)
    else None
  }

  /**
   * The cards after one bus event. A handler reads from the detail only the
   * fields it needs; a detail without them (which no emitter sends) leaves
   * the cards as they are.
   */
  function Apply(cards: seq<Card>, e: Event): seq<Card> {
    match Route(e.name)
    case None => cards
    case Some(Prepend) =>
      if e.detail.Markup? then [e.detail.card] + cards else cards
    case Some(Replace) =>
      if e.detail.Reply? then CardList.ReplaceFirst(cards, e.detail.task.id, Card(e.detail.task.id, e.detail.task.html))
      else cards
    case Some(Remove) =>
      if e.detail.Reply? then CardList.RemoveFirst(cards, e.detail.task.id)
      else if e.detail.IdOnly? && e.detail.maybeId.Some? then CardList.RemoveFirst(cards, e.detail.maybeId.value)
      else cards
    case Some(ReplaceAll) =>
      if e.detail.GridMarkup? then e.detail.cards else cards
  }

  /** The cards after a sequence of events dispatched one after another. */
  function ApplyAll(cards: seq<Card>, events: seq<Event>): seq<Card>
    decreases |events|
  {
    if events == [] then cards else ApplyAll(Apply(cards, events[0]), events[1..])
  }

  class GridController {
    var cards: seq<Card>

    constructor (cards: seq<Card>)
      ensures this.cards == cards
    {
      this.cards := cards;
    }

    /** The new card goes first; the others follow, unchanged and in order. */
    method OnTaskCreated(card: Card)
      modifies this
      ensures cards == [card] + old(cards)
    {
      cards := [card] + cards;
    }

    /** The first card with the id is replaced in place; an unknown id changes nothing. */
    method OnTaskUpdated(id: int, html: string)
      modifies this
      ensures cards == CardList.ReplaceFirst(old(cards), id, Card(id, html))
    {
      var item := CardList.FirstIndex(cards, id);
      if item.None? {
        return;
      }
      cards := cards[item.value := Card(id, html)];
    }

    /** The first card with the id is taken out; an unknown id changes nothing. */
    method OnTaskDeleted(id: int)
      modifies this
      ensures cards == CardList.RemoveFirst(old(cards), id)
    {
      var item := CardList.FirstIndex(cards, id);
      if item.None? {
        return;
      }
      cards := cards[..item.value] + cards[item.value + 1..];
    }

    /** The whole list becomes the given content. */
    method OnGridUpdated(content: seq<Card>)
      modifies this
      ensures cards == content
    {
      cards := content;
    }

    /** One bus event reaching the grid through its subscriptions. */
    method Dispatch(e: Event)
      modifies this
      ensures cards == Apply(old(cards), e)
    {
      match Route(e.name)
      case None =>
      case Some(Prepend) =>
        if e.detail.Markup? { OnTaskCreated(e.detail.card); }
      case Some(Replace) =>
        if e.detail.Reply? { OnTaskUpdated(e.detail.task.id, e.detail.task.html); }
      case Some(Remove) =>
        if e.detail.Reply? {
          OnTaskDeleted(e.detail.task.id);
        } else if e.detail.IdOnly? && e.detail.maybeId.Some? {
          OnTaskDeleted(e.detail.maybeId.value);
        }
      case Some(ReplaceAll) =>
        if e.detail.GridMarkup? { OnGridUpdated(e.detail.cards); }
    }
  }

  /**
   * Toggling done always ends in `task:deleted`, so once the grid has handled
   * what the card emitted, that task's card is gone, whatever the status
   * filter and whether or not `task:done` came first.
   */
  lemma DoneAlwaysDropsTheCard(cards: seq<Card>, options: FilterOptions, reply: TaskReply)
    requires CardList.UniqueIds(cards)
    ensures var after := ApplyAll(cards, ItemController.DoneEvents(options, Some(reply)));
      forall c :: c in after ==> c.id != reply.id
  {
    var events := ItemController.DoneEvents(options, Some(reply));
    var last := Event(TaskDeleted, Reply(reply));
    if |events| == 2 {
      var mid := Apply(cards, events[0]);
      CardList.ReplaceFirstKeepsIds(cards, reply.id, reply.html);
      assert ApplyAll(cards, events) == ApplyAll(mid, [last]);
      CardList.RemoveFirstOfUnique(mid, reply.id);
    } else {
      assert ApplyAll(cards, events) == ApplyAll(cards, [last]);
      CardList.RemoveFirstOfUnique(cards, reply.id);
    }
  }

  /** A hard delete that succeeded takes the card out, and only that card. */
  lemma DeleteDropsExactlyTheCard(cards: seq<Card>, id: int)
    requires CardList.UniqueIds(cards)
    ensures var after := ApplyAll(cards, ItemController.DeleteEvents(id, true));
      && after == CardList.RemoveFirst(cards, id)
      && forall c :: c in after ==> c.id != id
  {
    var events := ItemController.DeleteEvents(id, true);
    assert ApplyAll(cards, events) == ApplyAll(CardList.RemoveFirst(cards, id), []);
    CardList.RemoveFirstOfUnique(cards, id);
  }

  /** A new card followed by its hard delete leaves the grid as it was. */
  lemma CreateThenDeleteRestoresGrid(cards: seq<Card>, card: Card)
    ensures ApplyAll(cards, [Event(TaskCreated, Markup(card)), Event(TaskDeleted, IdOnly(Some(card.id)))]) == cards
  {
    var events := [Event(TaskCreated, Markup(card)), Event(TaskDeleted, IdOnly(Some(card.id)))];
    var del := Event(TaskDeleted, IdOnly(Some(card.id)));
    assert events[1..] == [del];
    assert Apply(cards, events[0]) == [card] + cards;
    CardList.PrependThenRemove(cards, card);
    assert Apply([card] + cards, del) == cards;
    assert ApplyAll([card] + cards, [del]) == ApplyAll(cards, []);
  }
}
