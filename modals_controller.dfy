/**
 * The page's two modals: the task form (create or update) and the delete
 * confirmation. Each has an open flag that makes a second open a no-op. The
 * form fields and the title and button texts are fields of the controller;
 * the Bootstrap modals themselves are not modelled. A settled request is
 * modelled by the events its handler emits.
 */
module ModalsController {
  import opened Wrappers
  import opened ClientTypes
  import DeadlineFilter
  import ItemController

  const CreateTitle: string := "Создать задачу"
  const UpdateTitle: string := "Редактировать задачу"
  const SaveText: string := "Сохранить"

  const CreatedToast: string := "Задача успешна создана"
  const CreateFailedToast: string := "Во время создания задачи произошла ошибка"
  const UpdatedToast: string := "Задача успешна редактирована"
  const UpdateFailedToast: string := "Во время редактирования задачи произошла ошибка"
  const DeletedToast: string := "Задача успешна бесвозрастно удалена"
  const DeleteFailedToast: string := "Во время удаления задачи произошла ошибка"

  /** After a created task comes back (its card) or the request fails (None). */
  function CreateEvents(reply: Option<Card>): (events: seq<Event>)
    ensures reply.Some? ==> events == [Event(TaskCreated, Markup(reply.value)), Event(ToastMessage, Message(CreatedToast))]
    ensures reply.None? ==> events == [Event(ToastMessage, Message(CreateFailedToast))]
  {
    match reply
    case Some(card) => [Event(TaskCreated, Markup(card)), Event(ToastMessage, Message(CreatedToast))]
    case None => [Event(ToastMessage, Message(CreateFailedToast))]
  }

  /**
   * After an update: a task still visible under the deadline bounds is
   * re-rendered with no toast; one that is not is taken off the grid, then
   * the success toast follows. A failure only shows the error toast.
   */
  function UpdateEvents(reply: Option<TaskReply>, options: FilterOptions, parse: string -> int): (events: seq<Event>)
    ensures reply.None? ==> events == [Event(ToastMessage, Message(UpdateFailedToast))]
    ensures reply.Some? && DeadlineFilter.ShouldBeVisible(reply.value.deadline, options.deadlineFrom, options.deadlineTo, parse) ==>
      events == [Event(TaskUpdated, Reply(reply.value))]
    ensures reply.Some? && !DeadlineFilter.ShouldBeVisible(reply.value.deadline, options.deadlineFrom, options.deadlineTo, parse) ==>
      events == [Event(TaskDeleted, Reply(reply.value)), Event(ToastMessage, Message(UpdatedToast))]
  {
    match reply
    case None => [Event(ToastMessage, Message(UpdateFailedToast))]
    case Some(task) =>
      if DeadlineFilter.ShouldBeVisible(task.deadline, options.deadlineFrom, options.deadlineTo, parse) then
        [Event(TaskUpdated, Reply(task))]
      else
        [Event(TaskDeleted, Reply(task))] + [Event(ToastMessage, Message(UpdatedToast))]
  }

  /** A successful update never both re-renders and removes the card; the toast comes only with a removal. */
  lemma UpdateEmitsOneCardEvent(reply: TaskReply, options: FilterOptions, parse: string -> int)
    ensures var names := Names(UpdateEvents(Some(reply), options, parse));
      (TaskUpdated in names) != (TaskDeleted in names)
      && (ToastMessage in names <==> TaskDeleted in names)
  {
    var events := UpdateEvents(Some(reply), options, parse);
    if DeadlineFilter.ShouldBeVisible(reply.deadline, options.deadlineFrom, options.deadlineTo, parse) {
      assert Names(events) == [TaskUpdated];
    } else {
      assert Names(events) == [TaskDeleted, ToastMessage];
    }
  }

  /**
   * The update endpoint's reply holds only the id and the card, so the
   * deadline the visibility test reads is absent: under any set bound the
   * updated card is taken off the grid, whatever the task's real deadline.
   */
  lemma UndatedReplyIsRemovedUnderAnyBound(id: int, html: string, options: FilterOptions, parse: string -> int)
    requires DeadlineFilter.JsTruthy(options.deadlineFrom) || DeadlineFilter.JsTruthy(options.deadlineTo)
    ensures var reply := TaskReply(id, html, None, None);
      UpdateEvents(Some(reply), options, parse) == [Event(TaskDeleted, Reply(reply)), Event(ToastMessage, Message(UpdatedToast))]
  {
  }

  class ModalsController {
    var isTaskModalOpen: bool
    var isDeleteModalOpen: bool
    var taskFormMode: Option<FormMode>
    var updateFormId: Option<int>
    var deleteFormId: Option<int>
    var title: string
    var submitText: string
    var nameField: string
    var descriptionField: string
    var deadlineField: string

    /** A fresh controller: nothing open, no mode, the template's texts and an empty form. */
    constructor (title: string, submitText: string)
      ensures !isTaskModalOpen && !isDeleteModalOpen
      ensures taskFormMode == None && updateFormId == None && deleteFormId == None
      ensures this.title == title && this.submitText == submitText
      ensures nameField == "" && descriptionField == "" && deadlineField == ""
    {
      isTaskModalOpen := false;
      isDeleteModalOpen := false;
      taskFormMode := None;
      updateFormId := None;
      deleteFormId := None;
      this.title := title;
      this.submitText := submitText;
      nameField := "";
      descriptionField := "";
      deadlineField := "";
    }

    /** Texts from the current mode's entry, then the task modal counts as open. */
    method OpenTaskModal()
      requires taskFormMode.Some?
      modifies this
      ensures isDeleteModalOpen == old(isDeleteModalOpen) && taskFormMode == old(taskFormMode)
      ensures old(taskFormMode) == Some(Create) ==> title == CreateTitle
      ensures old(taskFormMode) == Some(Update) ==> title == UpdateTitle
      ensures submitText == SaveText
      ensures isTaskModalOpen
      ensures updateFormId == old(updateFormId) && deleteFormId == old(deleteFormId)
      ensures nameField == old(nameField) && descriptionField == old(descriptionField) && deadlineField == old(deadlineField)
    {
      match taskFormMode.value {
        case Create =>
          title, submitText := "Создать задачу", "Сохранить";
        case Update =>
          title, submitText := "Редактировать задачу", "Сохранить";
      }
      isTaskModalOpen := true;
    }

    /** A no-op while the task modal is open; otherwise an empty form in create mode. */
    method OpenCreateModal()
      modifies this
      ensures old(isTaskModalOpen) ==> unchanged(this)
      ensures !old(isTaskModalOpen) ==>
        && isTaskModalOpen && taskFormMode == Some(Create)
        && (title, submitText) == (CreateTitle, SaveText)
        && nameField == "" && descriptionField == "" && deadlineField == ""
        && isDeleteModalOpen == old(isDeleteModalOpen)
        && updateFormId == old(updateFormId) && deleteFormId == old(deleteFormId)
    {
      if isTaskModalOpen {
        return;
      }
      nameField, descriptionField, deadlineField := "", "", "";
      taskFormMode := Some(Create);
      OpenTaskModal();
    }

    /**
     * A no-op while the task modal is open; otherwise the form is filled from
     * the event, the id kept for the submit, and the mode set to update.
     * `format` is the conversion of a deadline to the input's text.
     */
    method OpenUpdateModal(detail: Detail, format: string -> string)
      requires detail.EditFields?
      modifies this
      ensures old(isTaskModalOpen) ==> unchanged(this)
      ensures !old(isTaskModalOpen) ==>
        && isTaskModalOpen && taskFormMode == Some(Update)
        && (title, submitText) == (UpdateTitle, SaveText)
        && updateFormId == Some(detail.id)
        && nameField == detail.name && descriptionField == detail.description
        && deadlineField == (if detail.deadline != "" then format(detail.deadline) else "")
        && isDeleteModalOpen == old(isDeleteModalOpen) && deleteFormId == old(deleteFormId)
    {
      if isTaskModalOpen {
        return;
      }
      nameField := detail.name;
      descriptionField := detail.description;
      updateFormId := Some(detail.id);
      if detail.deadline != "" {
        deadlineField := format(detail.deadline);
      } else {
        deadlineField := "";
      }
      taskFormMode := Some(Update);
      OpenTaskModal();
    }

    /** A no-op while the confirmation is open; otherwise it keeps the id and opens. */
    method OpenDeleteModal(id: int)
      modifies this
      ensures old(isDeleteModalOpen) ==> unchanged(this)
      ensures !old(isDeleteModalOpen) ==>
        && isDeleteModalOpen && deleteFormId == Some(id)
        && isTaskModalOpen == old(isTaskModalOpen) && taskFormMode == old(taskFormMode)
        && updateFormId == old(updateFormId) && title == old(title) && submitText == old(submitText)
        && nameField == old(nameField) && descriptionField == old(descriptionField) && deadlineField == old(deadlineField)
    {
      if isDeleteModalOpen {
        return;
      }
      deleteFormId := Some(id);
      isDeleteModalOpen := true;
    }

    /** The request the current mode starts (none without a mode); the task modal's flag is reset in every case. */
    method SubmitForm() returns (request: Option<Submission>)
      modifies this
      ensures old(taskFormMode) == Some(Create) ==> request == Some(CreateRequest)
      ensures old(taskFormMode) == Some(Update) ==> request == Some(UpdateRequest(old(updateFormId)))
      ensures old(taskFormMode) == None ==> request == None
      ensures !isTaskModalOpen
      ensures isDeleteModalOpen == old(isDeleteModalOpen) && taskFormMode == old(taskFormMode)
      ensures updateFormId == old(updateFormId) && deleteFormId == old(deleteFormId)
      ensures title == old(title) && submitText == old(submitText)
      ensures nameField == old(nameField) && descriptionField == old(descriptionField) && deadlineField == old(deadlineField)
    {
      request := None;
      match taskFormMode {
        case Some(Create) =>
          request := Some(CreateRequest);
        case Some(Update) =>
          request := Some(UpdateRequest(updateFormId));
        case None =>
      }
      isTaskModalOpen := false;
    }

    /** When the delete request settles: only a success closes the confirmation. */
    method Delete(succeeded: bool) returns (events: seq<Event>)
      modifies this
      ensures succeeded ==>
        && events == [Event(TaskDeleted, IdOnly(old(deleteFormId))), Event(ToastMessage, Message(DeletedToast))]
        && !isDeleteModalOpen
      ensures !succeeded ==> events == [Event(ToastMessage, Message(DeleteFailedToast))] && isDeleteModalOpen == old(isDeleteModalOpen)
      ensures isTaskModalOpen == old(isTaskModalOpen) && taskFormMode == old(taskFormMode)
      ensures updateFormId == old(updateFormId) && deleteFormId == old(deleteFormId)
      ensures title == old(title) && submitText == old(submitText)
      ensures nameField == old(nameField) && descriptionField == old(descriptionField) && deadlineField == old(deadlineField)
    {
      if !succeeded {
        return [Event(ToastMessage, Message(DeleteFailedToast))];
      }
      events := [Event(TaskDeleted, IdOnly(deleteFormId))];
      isDeleteModalOpen := false;
      events := events + [Event(ToastMessage, Message(DeletedToast))];
    }
  }

  /**
   * A card's edit request reaches the modal through `modal:update`: whatever
   * state the modals are in, an open task modal ignores it and the submit
   * still targets the mode that was open; once the submit has reset the flag
   * the same request opens the form for that id.
   */
  method EditWhileOpenIsIgnored(modals: ModalsController, id: int, name: string, description: string, deadline: string, format: string -> string)
    returns (first: Option<Submission>, second: Option<Submission>)
    requires modals.isTaskModalOpen
    modifies modals
    ensures old(modals.taskFormMode) == Some(Create) ==> first == Some(CreateRequest)
    ensures old(modals.taskFormMode) == Some(Update) ==> first == Some(UpdateRequest(old(modals.updateFormId)))
    ensures old(modals.taskFormMode) == None ==> first == None
    ensures second == Some(UpdateRequest(Some(id)))
    ensures modals.nameField == name && modals.descriptionField == description
  {
    var edit := ItemController.UpdateEvents(id, name, description, deadline)[0].detail;
    modals.OpenUpdateModal(edit, format);
    assert modals.taskFormMode == old(modals.taskFormMode) && modals.updateFormId == old(modals.updateFormId);
    first := modals.SubmitForm();
    modals.OpenUpdateModal(edit, format);
    second := modals.SubmitForm();
  }
}
