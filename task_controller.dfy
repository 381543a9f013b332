/**
 * The task controller: query defaults and the JSON/HTML choice of the index
 * page, and the status code and JSON envelope of each endpoint. The service
 * the endpoints call, and the template that renders a task, are parameters:
 * a service call yields its task or the exception it throws, and a thrown
 * exception leaves the endpoint without a response (it goes on to the error
 * listener).
 */
module TaskController {
  import opened Wrappers
  import opened Domain
  import opened Http
  import TaskRepository
  import TaskType

  // ---------------------------------------------------------------------------
  // Index

  function IndexCriteria(query: map<string, string>): (r: (TaskRepository.SortCriteria, TaskRepository.FilterCriteria))
    ensures r.0.field == (if "sort" in query then query["sort"] else "created_at")
    ensures r.0.order == (if "order" in query then query["order"] else "desc")
    ensures r.1.status == (if "status" in query then query["status"] else "active")
    ensures r.1.deadlineFrom == (if "deadline_from" in query then Some(query["deadline_from"]) else None)
    ensures r.1.deadlineTo == (if "deadline_to" in query then Some(query["deadline_to"]) else None)
  {
    var sort := TaskRepository.SortCriteria(
      if "sort" in query then query["sort"] else "created_at",
      if "order" in query then query["order"] else "desc");
    var filter := TaskRepository.FilterCriteria(
      if "status" in query then query["status"] else "active",
      if "deadline_from" in query then Some(query["deadline_from"]) else None,
      if "deadline_to" in query then Some(query["deadline_to"]) else None);
    (sort, filter)
  }

  lemma EmptyQueryDefaults()
    ensures IndexCriteria(map[]) ==
      (TaskRepository.SortCriteria("created_at", "desc"), TaskRepository.FilterCriteria("active", None, None))
  {
  }

  /** Either the JSON fragment or the full page, each with the tasks it is rendered from. */
  datatype IndexResponse =
    | Fragment(response: JsonResponse, tasks: seq<Task>)
    | FullPage(tasks: seq<Task>, sort: TaskRepository.SortCriteria, filter: TaskRepository.FilterCriteria)

  /**
   * `rows` are the stored tasks, `parse` the date conversion the repository
   * applies to deadline bounds, `renderTasks` the task-list template.
   */
  method Index(request: Request, rows: seq<Task>, parse: string -> int, renderTasks: seq<Task> -> string)
    returns (r: IndexResponse)
    ensures r.Fragment? <==> WantsJson(request)
    ensures var (sort, filter) := IndexCriteria(request.query);
      var (s, f) := TaskRepository.ValidateCriteria(sort, filter);
      && (r.FullPage? ==> r.sort == sort && r.filter == filter)
      && (r.Fragment? ==> r.response == JsonResponse(
            map["success" := JBool(true), "tasks" := JString(renderTasks(r.tasks))], 200))
      && (forall t :: multiset(r.tasks)[t] == if TaskRepository.Selects(f, parse, t) then multiset(rows)[t] else 0)
      && TaskRepository.OrderedBy(r.tasks, s.field, s.order)
  {
    var criteria := IndexCriteria(request.query);
    var sort, filter := criteria.0, criteria.1;
    var tasks := TaskRepository.FindByCriteria(sort, filter, rows, parse);

    if request.isXmlHttpRequest || request.accept == Some("application/json") {
      return Fragment(JsonResponse(map["success" := JBool(true), "tasks" := JString(renderTasks(tasks))], 200), tasks);
    }

    r := FullPage(tasks, sort, filter);
  }

  // ---------------------------------------------------------------------------
  // Response helpers

  /** A form after handleRequest: whether it was submitted and the violations validation found. */
  datatype Form = Form(submitted: bool, data: TaskDto, errors: seq<string>)

  /**
   * handleRequest: a submitted form is validated against the task type's
   * constraints. The form is valid exactly when it was submitted with
   * acceptable data, and then the endpoints act on that data.
   */
  function HandleRequest(submitted: bool, data: TaskDto): (form: Form)
    ensures form.data == data
    ensures IsValid(form) <==> submitted && TaskType.Acceptable(data)
    ensures !submitted ==> !IsValid(form) && form.errors == []
    ensures submitted ==> form.errors == TaskType.Validate(data)
  {
    Form(submitted, data, if submitted then TaskType.Validate(data) else [])
  }

  predicate IsValid(form: Form) {
    form.submitted && form.errors == []
  }

  /** 422 with success false and the form's messages, in the order the form reports them. */
  method SendUnprocessableEntityResponse(form: Form) returns (r: JsonResponse)
    ensures r.status == 422
    ensures r.data.Keys == {"success", "errors"} && r.data["success"] == JBool(false)
    ensures r.data["errors"].JList? && |r.data["errors"].items| == |form.errors|
    ensures forall i :: 0 <= i < |form.errors| ==> r.data["errors"].items[i] == JString(form.errors[i])
  {
    var errors: seq<Json> := [];
    var i := 0;
    while i < |form.errors|
      invariant 0 <= i <= |form.errors|
      invariant |errors| == i
      invariant forall k :: 0 <= k < i ==> errors[k] == JString(form.errors[k])
    {
      errors := errors + [JString(form.errors[i])];
      i := i + 1;
    }
    r := JsonResponse(map["success" := JBool(false), "errors" := JList(errors)], 422);
  }

  /**
   * `html` is the task's rendered card. Adding `done` to the bare string the
   * method starts from would be an error in the source, so includeDone
   * demands includeId.
   */
  method SendPartialTaskResponse(task: Task, html: string, statusCode: int, includeId: bool := true, includeDone: bool := false)
    returns (r: JsonResponse)
    requires includeDone ==> includeId
    ensures r.status == statusCode
    ensures r.data.Keys == {"success", "task"} && r.data["success"] == JBool(true)
    ensures !includeId ==> r.data["task"] == JString(html)
    ensures includeId ==> (r.data["task"].JObject?
      && r.data["task"].fields.Keys == (if includeDone then {"id", "html", "done"} else {"id", "html"})
      && r.data["task"].fields["id"] == JInt(task.id) && r.data["task"].fields["html"] == JString(html)
      && (includeDone ==> r.data["task"].fields["done"] == JBool(task.isDone)))
  {
    var data := JString(html);
    if includeId {
      data := JObject(map["id" := JInt(task.id), "html" := data]);
    }
    if includeDone {
      data := JObject(data.fields["done" := JBool(task.isDone)]);
    }
    r := JsonResponse(map["success" := JBool(true), "task" := data], statusCode);
  }

  /** The envelope `{success: true, task: {id, html}}`, read back from its parts. */
  lemma CardEnvelope(r: JsonResponse, task: Task, html: string, statusCode: int)
    requires r.status == statusCode
    requires r.data.Keys == {"success", "task"} && r.data["success"] == JBool(true)
    requires r.data["task"].JObject? && r.data["task"].fields.Keys == {"id", "html"}
    requires r.data["task"].fields["id"] == JInt(task.id) && r.data["task"].fields["html"] == JString(html)
    ensures r == JsonResponse(map["success" := JBool(true),
      "task" := JObject(map["id" := JInt(task.id), "html" := JString(html)])], statusCode)
  {
    assert r.data["task"].fields == map["id" := JInt(task.id), "html" := JString(html)];
    assert r.data == map["success" := JBool(true), "task" := JObject(map["id" := JInt(task.id), "html" := JString(html)])];
  }

  // ---------------------------------------------------------------------------
  // Endpoints

  /** What an endpoint ends in: a response, or an exception thrown by the service. */
  datatype Reply = Respond(response: JsonResponse) | Throw(exception: Throwable)

  method Create(form: Form, create: TaskDto -> Task, render: Task -> string) returns (r: JsonResponse)
    ensures !IsValid(form) ==> (r.status == 422
      && r.data.Keys == {"success", "errors"} && r.data["success"] == JBool(false)
      && r.data["errors"].JList? && |r.data["errors"].items| == |form.errors|
      && forall i :: 0 <= i < |form.errors| ==> r.data["errors"].items[i] == JString(form.errors[i]))
    ensures IsValid(form) ==>
      r == JsonResponse(map["success" := JBool(true), "task" := JString(render(create(form.data)))], 201)
  {
    if !form.submitted || form.errors != [] {
      r := SendUnprocessableEntityResponse(form);
      return;
    }
    var task := create(form.data);
    r := SendPartialTaskResponse(task, render(task), 201, false);
    assert r.data == map["success" := JBool(true), "task" := JString(render(task))];
  }

  method Update(id: int, form: Form, update: (int, TaskDto) -> Result<Task, Throwable>, render: Task -> string)
    returns (r: Reply)
    ensures !IsValid(form) ==> (r.Respond? && r.response.status == 422
      && r.response.data.Keys == {"success", "errors"} && r.response.data["success"] == JBool(false)
      && r.response.data["errors"].JList? && |r.response.data["errors"].items| == |form.errors|
      && forall i :: 0 <= i < |form.errors| ==> r.response.data["errors"].items[i] == JString(form.errors[i]))
    ensures IsValid(form) && update(id, form.data).Failure? ==> r == Throw(update(id, form.data).error)
    ensures IsValid(form) && update(id, form.data).Success? ==>
      var task := update(id, form.data).value;
      r == Respond(JsonResponse(map["success" := JBool(true),
        "task" := JObject(map["id" := JInt(task.id), "html" := JString(render(task))])], 202))
  {
    if !form.submitted || form.errors != [] {
      var response := SendUnprocessableEntityResponse(form);
      return Respond(response);
    }
    var result := update(id, form.data);
    if result.Failure? {
      return Throw(result.error);
    }
    var response := SendPartialTaskResponse(result.value, render(result.value), 202, true);
    CardEnvelope(response, result.value, render(result.value), 202);
    r := Respond(response);
  }

  method Delete(id: int, delete: int -> Outcome<Throwable>) returns (r: Reply)
    ensures delete(id).Fail? ==> r == Throw(delete(id).error)
    ensures delete(id).Pass? ==> r == Respond(JsonResponse(map["success" := JBool(true)], 200))
  {
    var outcome := delete(id);
    if outcome.Fail? {
      return Throw(outcome.error);
    }
    r := Respond(JsonResponse(map["success" := JBool(true)], 200));
  }

  /** Soft-delete or restore: relies on the default includeId. */
  method Deleted(flag: bool, id: int, setDeleted: (int, bool) -> Result<Task, Throwable>, render: Task -> string)
    returns (r: Reply)
    ensures setDeleted(id, flag).Failure? ==> r == Throw(setDeleted(id, flag).error)
    ensures setDeleted(id, flag).Success? ==>
      var task := setDeleted(id, flag).value;
      r == Respond(JsonResponse(map["success" := JBool(true),
        "task" := JObject(map["id" := JInt(task.id), "html" := JString(render(task))])], 202))
  {
    var result := setDeleted(id, flag);
    if result.Failure? {
      return Throw(result.error);
    }
    var response := SendPartialTaskResponse(result.value, render(result.value), 202);
    CardEnvelope(response, result.value, render(result.value), 202);
    r := Respond(response);
  }

  /** Toggle done: the reply carries the task's new flag. */
  method Done(id: int, toggleDone: int -> Result<Task, Throwable>, render: Task -> string) returns (r: Reply)
    ensures toggleDone(id).Failure? ==> r == Throw(toggleDone(id).error)
    ensures toggleDone(id).Success? ==>
      var task := toggleDone(id).value;
      r == Respond(JsonResponse(map["success" := JBool(true),
        "task" := JObject(map["id" := JInt(task.id), "html" := JString(render(task)), "done" := JBool(task.isDone)])], 202))
  {
    var result := toggleDone(id);
    if result.Failure? {
      return Throw(result.error);
    }
    var response := SendPartialTaskResponse(result.value, render(result.value), 202, true, true);
    ghost var fields := response.data["task"].fields;
    assert fields == map["id" := JInt(result.value.id), "html" := JString(render(result.value)), "done" := JBool(result.value.isDone)];
    assert response.data == map["success" := JBool(true), "task" := JObject(fields)];
    r := Respond(response);
  }

  /** A submitted form with a blank name is answered 422, and the blank-name message comes first. */
  method BlankNameIsUnprocessable(data: TaskDto, create: TaskDto -> Task, render: Task -> string) returns (r: JsonResponse)
    requires data.name == ""
    ensures r.status == 422 && "errors" in r.data && r.data["errors"].JList? && r.data["errors"].items != []
    ensures r.data["errors"].items[0] == JString(TaskType.NameBlankMessage)
  {
    var form := HandleRequest(true, data);
    TaskType.BlankNameRejected(data);
    r := Create(form, create, render);
  }
}
