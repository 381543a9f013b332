/**
 * The oldest grid: it listens for events dispatched on its own element, not
 * on the bus, and finds a card by its `data-task-item-id-value`. It prepends
 * and replaces cards itself; for a deletion it hands the found card to the
 * layout library's remove, which takes it off the layout and out of the page,
 * so the card list loses that card just as in the later grids.
 */
module ElementTaskGridController {
  import opened Wrappers
  import opened ClientTypes
  import CardList
  import GridController

  const TaskGridAdd: string := "task-grid:add"
  const TaskGridChange: string := "task-grid:change"
  const TaskGridDelete: string := "task-grid:delete"
  const TaskItemDone: string := "task-item:done"
  const TaskItemDelete: string := "task-item:delete"
  const TaskItemRestore: string := "task-item:restore"

  datatype Handler = Prepend | Replace | Remove

  /** The listeners added on connect. */
  function Route(name: string): (h: Option<Handler>)
    ensures h == Some(Prepend) <==> name == TaskGridAdd
    ensures h == Some(Replace) <==> name in {TaskGridChange, TaskItemDone, TaskItemRestore}
    ensures h == Some(Remove) <==> name in {TaskGridDelete, TaskItemDelete}
  {
    if name == TaskGridAdd then Some(Prepend)
    else if name == TaskGridChange then Some(Replace)
    else if name == TaskGridDelete then Some(Remove)
    else if name == TaskItemDone then Some(Replace)
    else if name == TaskItemDelete then Some(Remove)
    else if name == TaskItemRestore then Some(Replace)
    else None
  }

  class ElementTaskGridController {
    var cards: seq<Card>

    constructor (cards: seq<Card>)
      ensures this.cards == cards
    {
      this.cards := cards;
    }

    method OnTaskAdded(card: Card)
      modifies this
      ensures cards == [card] + old(cards)
    {
      cards := [card] + cards;
    }

    method OnTaskChanged(id: int, html: string)
      modifies this
      ensures cards == CardList.ReplaceFirst(old(cards), id, Card(id, html))
    {
      var item := CardList.FirstIndex(cards, id);
      if item.None? {
        return;
      }
      cards := cards[item.value := Card(id, html)];
    }

    /** The found card is removed through the layout; an unknown id changes nothing. */
    method OnTaskDeleted(id: int)
      modifies this
      ensures cards == CardList.RemoveFirst(old(cards), id)
    {
      var item := CardList.FirstIndex(cards, id);
      if item.None? {
        return;
      }
      LayoutRemove(item.value);
    }

    /** The layout library's remove of the card at `i`: the card leaves the page. */
    method LayoutRemove(i: nat)
      requires i < |cards|
      modifies this
      ensures cards == old(cards)[..i] + old(cards)[i + 1..]
    {
      cards := cards[..i] + cards[i + 1..];
    }

    /** One event dispatched on the grid's element; a detail of the wrong shape changes nothing. */
    method Dispatch(e: Event)
      modifies this
      ensures Route(e.name) == None ==> cards == old(cards)
      ensures Route(e.name) == Some(Prepend) ==>
        cards == if e.detail.Markup? then [e.detail.card] + old(cards) else old(cards)
      ensures Route(e.name) == Some(Replace) ==>
        cards == if e.detail.Reply? then CardList.ReplaceFirst(old(cards), e.detail.task.id, Card(e.detail.task.id, e.detail.task.html))
                 else old(cards)
      ensures Route(e.name) == Some(Remove) ==>
        cards == if e.detail.Reply? then CardList.RemoveFirst(old(cards), e.detail.task.id)
                 else if e.detail.IdOnly? && e.detail.maybeId.Some? then CardList.RemoveFirst(old(cards), e.detail.maybeId.value)
                 else old(cards)
    {
      match Route(e.name)
      case None =>
      case Some(Prepend) =>
        if e.detail.Markup? { OnTaskAdded(e.detail.card); }
      case Some(Replace) =>
        if e.detail.Reply? { OnTaskChanged(e.detail.task.id, e.detail.task.html); }
      case Some(Remove) =>
        if e.detail.Reply? {
          OnTaskDeleted(e.detail.task.id);
        } else if e.detail.IdOnly? && e.detail.maybeId.Some? {
          OnTaskDeleted(e.detail.maybeId.value);
        }
    }
  }

  /** A deletion on the element grid leaves the same cards as the bus grid's removal of that id, for every id. */
  method DeletionMatchesBusGrid(cards: seq<Card>, id: int) returns (element: seq<Card>, bus: seq<Card>)
    ensures element == bus
    ensures CardList.UniqueIds(cards) ==> forall c :: c in element ==> c.id != id
  {
    if CardList.UniqueIds(cards) {
      CardList.RemoveFirstOfUnique(cards, id);
    }
    var g := new ElementTaskGridController(cards);
    g.OnTaskDeleted(id);
    element := g.cards;
    var h := new GridController.GridController(cards);
    h.OnTaskDeleted(id);
    bus := h.cards;
  }
}
