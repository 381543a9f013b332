/**
 * A task card's actions and the bus events each emits once its request
 * settles. `reply` is the task object the server sent back, or None when the
 * request failed (then the only effect is an alert, which is not modelled);
 * `options` are the session's filter options at that moment.
 */
module ItemController {
  import opened Wrappers
  import opened ClientTypes

  /** Toggle done: `task:done` when every status is shown or the task is now done, then `task:deleted` in any case. */
  function DoneEvents(options: FilterOptions, reply: Option<TaskReply>): (events: seq<Event>)
    ensures reply.None? ==> events == []
    ensures reply.Some? ==>
      && |events| == (if options.status == "all" || reply.value.done == Some(true) then 2 else 1)
      && events[|events| - 1] == Event(TaskDeleted, Reply(reply.value))
      && (|events| == 2 ==> events[0] == Event(TaskDone, Reply(reply.value)))
    ensures TaskDone in Names(events) <==> reply.Some? && (options.status == "all" || reply.value.done == Some(true))
  {
    match reply
    case None => []
    case Some(task) =>
      (if options.status == "all" || task.done == Some(true) then [Event(TaskDone, Reply(task))] else [])
      + [Event(TaskDeleted, Reply(task))]
  }

  /** Edit: hands exactly the card's id, name, description and deadline to the task modal. */
  function UpdateEvents(id: int, name: string, description: string, deadline: string): (events: seq<Event>)
    ensures |events| == 1 && events[0].name == ModalUpdate
    ensures events[0].detail.EditFields? && events[0].detail.id == id && events[0].detail.name == name
    ensures events[0].detail.description == description && events[0].detail.deadline == deadline
  {
    [Event(ModalUpdate, EditFields(id, name, description, deadline))]
  }

  /**
   * Soft-delete (flag true) or restore (flag false): `task:deleted` only for a
   * deletion the current status cannot show, `task:restored` only for a
   * restore, and `task:removed` last in every case.
   */
  function SetDeletedEvents(flag: bool, options: FilterOptions, reply: Option<TaskReply>): (events: seq<Event>)
    ensures reply.None? ==> events == []
    ensures reply.Some? ==> 1 <= |events| <= 2 && events[|events| - 1] == Event(TaskRemoved, Reply(reply.value))
    ensures TaskDeleted in Names(events) <==>
      reply.Some? && flag && options.status != "all" && options.status != "deleted"
    ensures TaskRestored in Names(events) <==> reply.Some? && !flag
    ensures |events| == 2 ==> events[0].detail == Reply(reply.value) && (events[0].name == TaskDeleted || events[0].name == TaskRestored)
  {
    match reply
    case None => []
    case Some(task) =>
      var cannotBeDeletedShown := options.status != "all" && options.status != "deleted";
      (if flag && cannotBeDeletedShown then [Event(TaskDeleted, Reply(task))] else [])
      + (if !flag then [Event(TaskRestored, Reply(task))] else [])
      + [Event(TaskRemoved, Reply(task))]
  }

  /** Remove is a soft delete: it never emits `task:restored`. */
  function RemoveEvents(options: FilterOptions, reply: Option<TaskReply>): (events: seq<Event>)
    ensures TaskRestored !in Names(events)
    ensures TaskDeleted in Names(events) <==> reply.Some? && options.status != "all" && options.status != "deleted"
    ensures reply.Some? ==> events != [] && events[|events| - 1] == Event(TaskRemoved, Reply(reply.value))
  {
    SetDeletedEvents(true, options, reply)
  }

  /** Restore: `task:restored` then `task:removed`, whatever the status. */
  function RestoreEvents(options: FilterOptions, reply: Option<TaskReply>): (events: seq<Event>)
    ensures reply.Some? ==> events == [Event(TaskRestored, Reply(reply.value)), Event(TaskRemoved, Reply(reply.value))]
    ensures reply.None? ==> events == []
  {
    SetDeletedEvents(false, options, reply)
  }

  /** Hard delete: on success, `task:deleted` carrying only the card's id. */
  function DeleteEvents(id: int, succeeded: bool): (events: seq<Event>)
    ensures succeeded ==> events == [Event(TaskDeleted, IdOnly(Some(id)))]
    ensures !succeeded ==> events == []
  {
    if succeeded then [Event(TaskDeleted, IdOnly(Some(id)))] else []
  }

  /** Under status "all" a soft delete emits nothing but `task:removed`. */
  lemma RemoveUnderAllOnlyRefreshes(reply: TaskReply, from: Option<string>, to: Option<string>)
    ensures RemoveEvents(FilterOptions("all", from, to), Some(reply)) == [Event(TaskRemoved, Reply(reply))]
  {
    var events := RemoveEvents(FilterOptions("all", from, to), Some(reply));
    assert TaskDeleted !in Names(events);
    assert TaskRestored !in Names(events);
  }
}
