/**
 * What the browser side passes around: rendered task cards, the events the
 * controllers emit on the bus (a name and a detail), the filter options kept
 * in the session, and the two modes of the task form.
 */
module ClientTypes {
  import opened Wrappers

  /** A rendered task card: its markup and the task id carried in its data attribute. */
  datatype Card = Card(id: int, html: string)

  /** The `task` object of a server reply, as the client reads it; absent keys are None. */
  datatype TaskReply = TaskReply(id: int, html: string, done: Option<bool>, deadline: Option<int>)

  /** The detail an event carries: a bare card's markup, a grid's markup, a reply, an id, form fields or a toast text. */
  datatype Detail =
    | Markup(card: Card)
    | GridMarkup(cards: seq<Card>)
    | Reply(task: TaskReply)
    | IdOnly(maybeId: Option<int>)
    | EditFields(id: int, name: string, description: string, deadline: string)
    | Message(text: string)

  datatype Event = Event(name: string, detail: Detail)

  /** The filter options stored in the session: the status and the raw deadline bounds. */
  datatype FilterOptions = FilterOptions(status: string, deadlineFrom: Option<string>, deadlineTo: Option<string>)

  datatype FormMode = Create | Update

  /** The request a submitted task form starts: create, or update of the stored id (None when none is stored). */
  datatype Submission = CreateRequest | UpdateRequest(id: Option<int>)

  const TaskCreated: string := "task:created"
  const TaskUpdated: string := "task:updated"
  const TaskDone: string := "task:done"
  const TaskRemoved: string := "task:removed"
  const TaskRestored: string := "task:restored"
  const TaskDeleted: string := "task:deleted"
  const GridUpdated: string := "grid:updated"
  const ModalUpdate: string := "modal:update"
  const ToastMessage: string := "toast:message"

  /** The names of a sequence of events, in order. */
  function Names(events: seq<Event>): (names: seq<string>)
    ensures |names| == |events|
    ensures forall i :: 0 <= i < |events| ==> names[i] == events[i].name
  {
    if events == [] then [] else [events[0].name] + Names(events[1..])
  }
}
