/**
 * The earlier single task modal: no open flags; the id of the task being
 * edited is kept on the form element (deleted for a create), and the mode
 * decides what a submit does. Failures only raise an alert, which is not
 * modelled, so they emit nothing.
 */
module ModalController {
  import opened Wrappers
  import opened ClientTypes
  import DeadlineFilter

  const CreateTitle: string := "Создание задачи"
  const CreateSubmitText: string := "Создать"
  const UpdateTitle: string := "Редактирование задачи"
  const UpdateSubmitText: string := "Сохранить"

  function CreateEvents(reply: Option<Card>): (events: seq<Event>)
    ensures reply.Some? ==> events == [Event(TaskCreated, Markup(reply.value))]
    ensures reply.None? ==> events == []
  {
    if reply.Some? then [Event(TaskCreated, Markup(reply.value))] else []
  }

  /** After a successful update exactly one card event: re-render while visible under the deadline bounds, otherwise removal. */
  function UpdateEvents(reply: Option<TaskReply>, options: FilterOptions, parse: string -> int): (events: seq<Event>)
    ensures reply.None? ==> events == []
    ensures reply.Some? ==> |events| == 1 && events[0].detail == Reply(reply.value)
    ensures reply.Some? ==>
      (events[0].name == TaskUpdated <==>
         DeadlineFilter.ShouldBeVisible(reply.value.deadline, options.deadlineFrom, options.deadlineTo, parse))
    ensures reply.Some? ==> events[0].name in {TaskUpdated, TaskDeleted}
  {
    match reply
    case None => []
    case Some(task) =>
      if DeadlineFilter.ShouldBeVisible(task.deadline, options.deadlineFrom, options.deadlineTo, parse) then
        [Event(TaskUpdated, Reply(task))]
      else
        [Event(TaskDeleted, Reply(task))]
  }

  class ModalController {
    var formMode: Option<FormMode>
    /** The form element's `data-id`, None once deleted. */
    var datasetId: Option<int>
    var title: string
    var submitText: string
    var nameField: string
    var descriptionField: string
    var deadlineField: string

    constructor (title: string, submitText: string)
      ensures formMode == None && datasetId == None
      ensures this.title == title && this.submitText == submitText
      ensures nameField == "" && descriptionField == "" && deadlineField == ""
    {
      formMode := None;
      datasetId := None;
      this.title := title;
      this.submitText := submitText;
      nameField, descriptionField, deadlineField := "", "", "";
    }

    method OpenModal()
      requires formMode.Some?
      modifies this
      ensures formMode == old(formMode) && datasetId == old(datasetId)
      ensures old(formMode) == Some(Create) ==> (title, submitText) == (CreateTitle, CreateSubmitText)
      ensures old(formMode) == Some(Update) ==> (title, submitText) == (UpdateTitle, UpdateSubmitText)
      ensures nameField == old(nameField) && descriptionField == old(descriptionField) && deadlineField == old(deadlineField)
    {
      match formMode.value {
        case Create =>
          title, submitText := "Создание задачи", "Создать";
        case Update =>
          title, submitText := "Редактирование задачи", "Сохранить";
      }
    }

    /** The stored id is dropped and the form emptied, in create mode. */
    method OpenCreateModal()
      modifies this
      ensures datasetId == None && formMode == Some(Create)
      ensures (title, submitText) == (CreateTitle, CreateSubmitText)
      ensures nameField == "" && descriptionField == "" && deadlineField == ""
    {
      datasetId := None;
      nameField, descriptionField, deadlineField := "", "", "";
      formMode := Some(Create);
      OpenModal();
    }

    /** The form takes the event's fields and its id, in update mode. */
    method OpenEditModal(detail: Detail, format: string -> string)
      requires detail.EditFields?
      modifies this
      ensures datasetId == Some(detail.id) && formMode == Some(Update)
      ensures (title, submitText) == (UpdateTitle, UpdateSubmitText)
      ensures nameField == detail.name && descriptionField == detail.description
      ensures deadlineField == (if detail.deadline != "" then format(detail.deadline) else "")
    {
      nameField := detail.name;
      descriptionField := detail.description;
      datasetId := Some(detail.id);
      if detail.deadline != "" {
        deadlineField := format(detail.deadline);
      } else {
        deadlineField := "";
      }
      formMode := Some(Update);
      OpenModal();
    }

    /** The request the mode selects; without a mode, none. Nothing else changes. */
    method SubmitForm() returns (request: Option<Submission>)
      ensures formMode == Some(Create) ==> request == Some(CreateRequest)
      ensures formMode == Some(Update) ==> request == Some(UpdateRequest(datasetId))
      ensures formMode == None ==> request == None
    {
      request := None;
      match formMode {
        case Some(Create) =>
          request := Some(CreateRequest);
        case Some(Update) =>
          request := Some(UpdateRequest(datasetId));
        case None =>
      }
    }
  }

  /**
   * From any state of the modal, an edit followed by a create, or the other
   * way round: the last open decides what the submit targets, since a create
   * drops the id an edit stored.
   */
  method LastOpenDecidesSubmit(modal: ModalController, detail: Detail, format: string -> string)
    returns (afterEdit: Option<Submission>, afterCreate: Option<Submission>)
    requires detail.EditFields?
    modifies modal
    ensures afterEdit == Some(UpdateRequest(Some(detail.id)))
    ensures afterCreate == Some(CreateRequest)
    ensures modal.datasetId == None
  {
    modal.OpenEditModal(detail, format);
    afterEdit := modal.SubmitForm();
    modal.OpenCreateModal();
    afterCreate := modal.SubmitForm();
  }
}
