# Task list: a Dafny model of its core

The application is a small task list. A Symfony back end stores tasks. Each task has a name, an optional description, a deadline, and a done flag and a soft-delete flag. The back end lists the tasks with sorting and filtering, and answers form posts and AJAX calls with JSON envelopes. A set of Stimulus controllers in the browser turns server replies into bus events, and those events patch a grid of rendered task cards in place.

This project models that core and proves properties of the model.

**Values.** `Domain` holds the task row and the form's data class. `Http` holds requests, JSON bodies and thrown exceptions. `ClientTypes` holds cards, bus events, filter options and the form modes. Exceptions are modelled as records of the classes they belong to, so that the listener's first-match order can be observed.

**Server side.**
- `TaskRepository`:
  - `ValidateCriteria` normalises the sort and filter parameters against their whitelists.
  - `ApplyCriteria` drives a `QueryBuilder` object: one ORDER BY plus a conjunction of conditions.
  - The query result is an in-memory filter and sort over the stored rows.
  - `FindByCriteria` composes the three.
  - Lemmas prove what each status and each deadline bound selects.
- `TaskService`:
  - A class holding the table of tasks keyed by id, changed in place.
  - Every method is proved to perform exactly one table transition, or to throw not-found and leave the table alone.
  - The transitions are functions, with lemmas for the round trips (flip twice, delete then restore) and for idempotence.
- `TaskType`: the form's field constraints, as a function from submitted data to violation messages.
- `TaskController`:
  - The index page's parameter defaults.
  - The choice between the JSON fragment and the full page.
  - The status code and envelope of every endpoint.
  - A service call is a function parameter that yields its task or the exception it throws.
- `AjaxExceptionEvent` and `AjaxExceptionListener`:
  - The wrapper around the framework's exception event.
  - The listener that, for AJAX requests only, installs one JSON error response chosen by a fixed-order chain of checks.

**Browser side.**
- `DeadlineFilter`:
  - The visibility test that both modal controllers carry.
  - It is proved to agree with the server's deadline conditions on the same timestamp under one date conversion, except on the bound "0". PHP treats "0" as falsy and JavaScript treats it as truthy.
- `ItemController`: a card's actions, as functions from the filter options and the server reply to the emitted events.
- `ModalsController` and `ModalController`: the two revisions of the task modal. Each is a class whose methods update:
  - the open flags,
  - the form mode,
  - the stored ids,
  - the texts,
  - the form fields.

  Each also has functions for the events a settled request emits.
- `CardList`: the patches of a card list, as functions (find the first card with an id, replace it, remove it).
- `GridController`, `TaskGridController` and `ElementTaskGridController`:
  - The three grid revisions, each a class holding `cards: seq<Card>` together with its event routing.
  - Cross-module lemmas feed an item's emitted events through the grid.

**Parameters.** Several things are parameters rather than modelled:
- date parsing (`parse: string -> int`),
- deadline formatting (`format`),
- templates (`render`),
- the current time (`now`),
- request outcomes: an `Option` or `Result` reply, or a `succeeded` flag.

## Model

| member | source | states |
|---|---|---|
| TaskRepository.ToLower | src/Repository/TaskRepository.php:39 | lower-casing keeps the length and maps each character by ASCII-only strtolower |
| TaskRepository.ToLowerIdempotent | src/Repository/TaskRepository.php:39-42 | lower-casing twice is the same as lower-casing once |
| TaskRepository.ValidateCriteria | src/Repository/TaskRepository.php:33-50 | a whitelisted field is kept and any other becomes created_at; the order is lower-cased, then kept if asc/desc, else desc; a status outside all/active/completed/deleted becomes active; the deadline bounds pass through |
| TaskRepository.NormalizedIsFixpoint | src/Repository/TaskRepository.php:33-50 | criteria already inside the whitelists are returned unchanged |
| TaskRepository.ValidateCriteriaIdempotent | src/Repository/TaskRepository.php:33-50 | normalising twice equals normalising once |
| TaskRepository.OrderIsCaseInsensitive | src/Repository/TaskRepository.php:39-42 | for every order string, validating it gives the same criteria as validating its lower-cased form, so the case of the order never matters |
| TaskRepository.CriteriaMeaning | src/Repository/TaskRepository.php:52-94 | a task satisfies the built conditions iff the status admits it and every set bound admits its deadline |
| TaskRepository.ActiveKeepsUndoneUndeleted | src/Repository/TaskRepository.php:59-65 | status active keeps exactly the tasks that are neither deleted nor done |
| TaskRepository.CompletedKeepsDoneUndeleted | src/Repository/TaskRepository.php:66-72 | status completed keeps exactly the tasks that are done and not deleted |
| TaskRepository.DeletedKeepsDeletedWhateverDone | src/Repository/TaskRepository.php:73-77 | status deleted keeps exactly the deleted tasks, whatever their done flag |
| TaskRepository.AllHasNoStatusRestriction | src/Repository/TaskRepository.php:78-81 | status all with no bounds keeps every task |
| TaskRepository.LowerBoundExcludesNoDeadline | src/Repository/TaskRepository.php:85-89 | with deadline_from set, a task without a deadline is never selected |
| TaskRepository.FalsyBoundsAddNothing | src/Repository/TaskRepository.php:85-94 | absent, empty or "0" bounds add no condition beyond the status ones |
| TaskRepository.BoundsFormInclusiveInterval | src/Repository/TaskRepository.php:85-94 | both bounds together select exactly the deadlines in the closed interval |
| TaskRepository.QueryBuilder.constructor | src/Repository/TaskRepository.php:22 | a new builder has no ordering and no conditions |
| TaskRepository.QueryBuilder.OrderBy | src/Repository/TaskRepository.php:55 | the ordering becomes the given field and direction; the conditions are untouched |
| TaskRepository.QueryBuilder.AndWhere | src/Repository/TaskRepository.php:60-76 | the condition is appended; the ordering is untouched |
| TaskRepository.QueryBuilder.GetResult | src/Repository/TaskRepository.php:30 | each row keeps its multiplicity iff it satisfies every condition, and the result is ordered by the builder's ordering |
| TaskRepository.ApplyCriteria | src/Repository/TaskRepository.php:52-97 | the builder ends ordered by the criteria and holding exactly the status and deadline conditions, in that order |
| TaskRepository.FindByCriteria | src/Repository/TaskRepository.php:20-31 | the result holds the stored tasks the normalised filter selects, each as often as stored, ordered by the normalised sort; it is a sub-multiset of the stored rows |
| TaskService.UpdatedTable | src/Service/TaskService.php:56-69 | not-found iff the id is absent; otherwise only that task changes, and only its name, description and deadline |
| TaskService.FlippedTable | src/Service/TaskService.php:77-89 | not-found iff the id is absent; otherwise only that task's done flag is negated |
| TaskService.RemovedTable | src/Service/TaskService.php:96-106 | not-found iff the id is absent; otherwise exactly that id leaves the table and the others stay |
| TaskService.FlaggedTable | src/Service/TaskService.php:114-124 | not-found iff the id is absent; otherwise only that task's deleted flag becomes the given one |
| TaskService.FlipTwiceRestores | src/Service/TaskService.php:85 | flipping done twice gives back the original table |
| TaskService.FlipIgnoresDeletedFlag | src/Service/TaskService.php:77-89 | a soft-deleted task can still be flipped, and it stays deleted |
| TaskService.SetDeletedIdempotent | src/Service/TaskService.php:122 | setting the same deleted flag twice equals setting it once |
| TaskService.DeleteThenRestoreRoundTrip | src/Service/TaskService.php:122 | soft-deleting an undeleted task and restoring it gives back the original table |
| TaskService.UpdateWithOwnFieldsIsIdentity | src/Service/TaskService.php:64-66 | updating a task with its own name, description and deadline changes nothing |
| TaskService.TransitionsKeepKeyed | src/Service/TaskService.php:56-124 | every transition keeps each task stored under its own id |
| TaskService.TaskService.constructor | src/Service/TaskService.php:23-30 | the service starts consistent; the empty table with next id 1 is the model's choice of a fresh database, since the source only stores its injected collaborators and every method is specified over any consistent state |
| TaskService.TaskService.CreateTask | src/Service/TaskService.php:37-48 | the returned task has the DTO's name, description and deadline and a fresh id; it is added under that id and nothing else changes |
| TaskService.TaskService.UpdateTask | src/Service/TaskService.php:56-69 | an unknown id fails with not-found and leaves the table; otherwise the table becomes UpdatedTable |
| TaskService.TaskService.FlipDone | src/Service/TaskService.php:77-89 | an unknown id fails with not-found and leaves the table; otherwise the table becomes FlippedTable and the flipped task is returned |
| TaskService.TaskService.FullDeleteTask | src/Service/TaskService.php:96-106 | an unknown id fails with not-found and leaves the table; otherwise the table becomes RemovedTable |
| TaskService.TaskService.DeleteOrRestoreTask | src/Service/TaskService.php:114-124 | an unknown id fails with not-found and leaves the table; otherwise the table becomes FlaggedTable |
| TaskType.Validate | src/Form/TaskType.php:19-43 | no violations iff the name has 3 to 70 characters, the description is absent or at most 140, and a deadline is given; each message appears iff its own condition holds; at most three messages |
| TaskType.MessagesDistinct | src/Form/TaskType.php:25-40 | the five violation messages are pairwise different, so each one identifies its rule |
| TaskType.BlankNameRejected | src/Form/TaskType.php:25 | a blank name gets the blank-name message first and no length message |
| TaskType.DescriptionIsOptional | src/Form/TaskType.php:29-35 | with a good name and a deadline, leaving out the description is valid |
| TaskType.MissingDeadlineRejected | src/Form/TaskType.php:36-41 | a missing deadline is always a violation, despite required false |
| TaskController.IndexCriteria | src/Controller/TaskController.php:49-57 | each parameter is taken from the query if present; sort, order and status otherwise default to created_at, desc and active, and the bounds to none |
| TaskController.EmptyQueryDefaults | src/Controller/TaskController.php:49-57 | an empty query gives created_at, desc, active and no bounds |
| TaskController.Index | src/Controller/TaskController.php:44-80 | the JSON fragment iff XHR or an Accept of exactly application/json; either way the tasks are exactly the rows the validated criteria select, each as often as stored, in the validated order; the fragment is exactly 200 with success true and the markup rendered from those tasks; the full page also gets the criteria as read from the query |
| TaskController.HandleRequest | src/Controller/TaskController.php:88-89 | the form is valid exactly when it was submitted with data that meets every constraint of the task type; a submitted form carries the task type's violations and an unsubmitted one none |
| TaskController.SendUnprocessableEntityResponse | src/Controller/TaskController.php:166-178 | status 422, success false, and the form's messages as a list in the same order |
| TaskController.SendPartialTaskResponse | src/Controller/TaskController.php:190-205 | success true with the given status; task is the bare markup without includeId, else an object with id and html, plus done exactly when includeDone; includeDone demands includeId |
| TaskController.CardEnvelope | src/Controller/TaskController.php:197-204 | an envelope with this status, success true and task {id, html} is exactly that response |
| TaskController.Create | src/Controller/TaskController.php:86-99 | an unsubmitted or invalid form gets 422 with its messages; a valid one gets 201 with task as the bare card markup |
| TaskController.Update | src/Controller/TaskController.php:105-118 | an invalid form gets 422; a service exception is passed on; otherwise 202 with task {id, html} |
| TaskController.Delete | src/Controller/TaskController.php:124-129 | a service exception is passed on; otherwise 200 with success true alone |
| TaskController.Deleted | src/Controller/TaskController.php:136-144 | a service exception is passed on; otherwise 202 with task {id, html}, using the default includeId |
| TaskController.Done | src/Controller/TaskController.php:150-156 | a service exception is passed on; otherwise 202 with task {id, html, done}, where done is the task's new flag |
| TaskController.BlankNameIsUnprocessable | src/Controller/TaskController.php:88-93 | creating from a submitted blank name answers 422, with the blank-name message first |
| AjaxExceptionEvent.ExceptionEvent.SetResponse | src/Event/AjaxExceptionEvent.php:45 | the event's response becomes the given one, replacing any earlier one |
| AjaxExceptionEvent.AjaxExceptionEvent.constructor | src/Event/AjaxExceptionEvent.php:13-16 | the wrapper holds the given event |
| AjaxExceptionEvent.AjaxExceptionEvent.IsAjaxRequest | src/Event/AjaxExceptionEvent.php:33-37 | holds iff the request is XHR or its Accept header is exactly application/json |
| AjaxExceptionEvent.AjaxExceptionEvent.SetJsonResponse | src/Event/AjaxExceptionEvent.php:42-46 | installs a response with exactly the given data and status (default 500) |
| AjaxExceptionEvent.AjaxExceptionEvent.SetNotFoundResponse | src/Event/AjaxExceptionEvent.php:48-54 | installs 404 with success false and the message, by default 'Не найдено' |
| AjaxExceptionEvent.AjaxExceptionEvent.SetBadRequestResponse | src/Event/AjaxExceptionEvent.php:56-62 | installs 400 with success false and the message, by default 'Неверный запрос' |
| AjaxExceptionEvent.AjaxExceptionEvent.SetInternalServerErrorResponse | src/Event/AjaxExceptionEvent.php:64-70 | installs 500 with success false and the message, by default 'Внутренняя ошибка сервера' |
| AjaxExceptionEvent.DefaultsAreApplied | src/Event/AjaxExceptionEvent.php:42-70 | the default status and each default message take effect, and the last call's response is the one left |
| AjaxExceptionListener.Classify | src/EventListener/AjaxExceptionListener.php:28-63 | first match wins: not-found 404 'Не найдено'; bad request or invalid argument 400 with its message; access denied 403 'Доступ запрещен'; other HTTP exceptions their own status and message; else 500; always success false |
| AjaxExceptionListener.OnKernelException | src/EventListener/AjaxExceptionListener.php:16-64 | a non-AJAX request keeps its response; an AJAX one gets exactly the classified response |
| AjaxExceptionListener.FirstMatchWins | src/EventListener/AjaxExceptionListener.php:28-60 | an exception that also carries HTTP status 409 is still answered by the earlier checks when they match |
| AjaxExceptionListener.NotFoundStatusSources | src/EventListener/AjaxExceptionListener.php:28-60 | a 404 comes from a not-found exception, or from an HTTP exception saying 404, and from nothing else |
| AjaxExceptionListener.NotFoundFromServiceIs404 | src/EventListener/AjaxExceptionListener.php:28-32 | the service's not-found exception in an AJAX request ends as 404 'Не найдено' with success false |
| AjaxExceptionListener.NonAjaxGetsNoResponse | src/EventListener/AjaxExceptionListener.php:21-23 | outside AJAX no response is set, whatever was thrown |
| DeadlineFilter.ShouldBeVisible | assets/js/controllers/modals_controller.js:223-244 | a task without a deadline is visible iff neither bound is set; one with a deadline is visible iff it is not before a set from and not after a set to |
| DeadlineFilter.NoBoundsShowEverything | assets/js/controllers/modals_controller.js:224-243 | with both bounds absent or empty, every task is visible |
| DeadlineFilter.BoundsAreInclusive | assets/js/controllers/modals_controller.js:235-243 | a deadline equal to either bound is visible, and one just outside is hidden |
| DeadlineFilter.AgreesWithServerFilter | assets/js/controllers/modal_controller.js:154-175 | given the same timestamp and one date conversion for both sides, the client's visibility test and the server's deadline conditions agree, except for a "0" bound |
| DeadlineFilter.ZeroBoundDisagrees | assets/js/controllers/modals_controller.js:224 | a "0" lower bound hides an undated task on the client, while the server adds no bound for it |
| ItemController.DoneEvents | assets/js/controllers/item_controller.js:19-35 | on success task:done iff the status is all or the task is now done, and always task:deleted last; nothing on failure |
| ItemController.UpdateEvents | assets/js/controllers/item_controller.js:37-44 | one modal:update carrying exactly the card's id, name, description and deadline |
| ItemController.SetDeletedEvents | assets/js/controllers/item_controller.js:66-86 | on success task:deleted iff deleting under a status other than all and deleted; task:restored iff restoring; task:removed always last |
| ItemController.RemoveEvents | assets/js/controllers/item_controller.js:46-48 | remove is a soft delete: never task:restored, task:deleted iff the status cannot show deleted tasks, task:removed last |
| ItemController.RestoreEvents | assets/js/controllers/item_controller.js:61-63 | restore emits task:restored then task:removed, whatever the status |
| ItemController.DeleteEvents | assets/js/controllers/item_controller.js:50-59 | a successful delete emits only task:deleted with the card's id; a failed one nothing |
| ItemController.RemoveUnderAllOnlyRefreshes | assets/js/controllers/item_controller.js:72-81 | under status all a soft delete emits only task:removed |
| ModalsController.CreateEvents | assets/js/controllers/modals_controller.js:143-156 | success emits task:created with the card, then the success toast; failure only the error toast |
| ModalsController.UpdateEvents | assets/js/controllers/modals_controller.js:161-190 | a visible updated task emits only task:updated; a hidden one task:deleted, then the success toast; failure only the error toast |
| ModalsController.UndatedReplyIsRemovedUnderAnyBound | assets/js/controllers/modals_controller.js:171-184 | an update reply without a deadline, as the update endpoint sends it, emits task:deleted and the success toast whenever a bound is set |
| ModalsController.UpdateEmitsOneCardEvent | assets/js/controllers/modals_controller.js:171-184 | exactly one of task:updated and task:deleted, and a toast only with the removal |
| ModalsController.ModalsController.OpenTaskModal | assets/js/controllers/modals_controller.js:106-116 | the title is 'Создать задачу' in create mode and 'Редактировать задачу' in update mode, the button says 'Сохранить' in both, and the task modal counts as open; nothing else changes |
| ModalsController.ModalsController.OpenCreateModal | assets/js/controllers/modals_controller.js:31-46 | a no-op while the task modal is open; otherwise an emptied form in create mode, with the create texts, open |
| ModalsController.ModalsController.OpenUpdateModal | assets/js/controllers/modals_controller.js:52-82 | a no-op while the task modal is open; otherwise the form takes the event's fields, the id is kept, update mode, open |
| ModalsController.ModalsController.OpenDeleteModal | assets/js/controllers/modals_controller.js:88-101 | a no-op while the confirmation is open; otherwise it keeps the id and sets the flag |
| ModalsController.ModalsController.SubmitForm | assets/js/controllers/modals_controller.js:122-138 | the submit starts create or update of the kept id according to the mode, and the task modal's flag is reset in every case |
| ModalsController.ModalsController.Delete | assets/js/controllers/modals_controller.js:195-214 | success emits task:deleted with the kept id then the toast, and clears the flag; failure emits the error toast and keeps the flag |
| ModalsController.EditWhileOpenIsIgnored | assets/js/controllers/modals_controller.js:52-82 | from any state with the task modal open, an edit request is ignored and the submit targets the mode that was already open; after that submit the same request opens the form for that id with its fields |
| ModalController.CreateEvents | assets/js/controllers/modal_controller.js:109-121 | success emits only task:created with the card; failure emits nothing |
| ModalController.UpdateEvents | assets/js/controllers/modal_controller.js:126-152 | success emits exactly one event carrying the reply: task:updated iff the task is visible under the bounds, else task:deleted |
| ModalController.ModalController.OpenModal | assets/js/controllers/modal_controller.js:76-85 | create mode shows 'Создание задачи' / 'Создать', update mode 'Редактирование задачи' / 'Сохранить'; nothing else changes |
| ModalController.ModalController.OpenCreateModal | assets/js/controllers/modal_controller.js:32-43 | the stored id is dropped, the form emptied, create mode and texts |
| ModalController.ModalController.OpenEditModal | assets/js/controllers/modal_controller.js:49-74 | the form takes the event's fields and its id, update mode and texts |
| ModalController.ModalController.SubmitForm | assets/js/controllers/modal_controller.js:92-104 | create in create mode, update of the stored id in update mode, nothing without a mode |
| ModalController.LastOpenDecidesSubmit | assets/js/controllers/modal_controller.js:32-104 | from any state of the modal, after an edit the submit updates that id; after a later create it creates and the stored id is gone |
| CardList.FirstIndex | assets/js/controllers/grid_controller.js:57-59 | the position of the first card with the id, or none iff no card has it |
| CardList.ReplaceFirst | assets/js/controllers/grid_controller.js:56-68 | same length; an unknown id changes nothing; otherwise only the first match is replaced |
| CardList.RemoveFirst | assets/js/controllers/grid_controller.js:78-90 | an unknown id changes nothing; otherwise one card fewer, the first match is gone, and the rest keep their order |
| CardList.RemoveFirstOfUnique | assets/js/controllers/grid_controller.js:78-90 | with unique ids, after removal no card has that id and the ids stay unique |
| CardList.ReplaceFirstKeepsIds | assets/js/controllers/grid_controller.js:56-68 | replacing a card by one with the same id keeps the ids unique and the card at the same place |
| CardList.PrependThenRemove | assets/js/controllers/grid_controller.js:37-90 | a card put in front and then removed by its id leaves the list as it was |
| GridController.Route | assets/js/controllers/grid_controller.js:21-30 | task:created prepends; task:updated, done, removed and restored replace; task:deleted removes; grid:updated replaces everything |
| GridController.GridController.OnTaskCreated | assets/js/controllers/grid_controller.js:37-47 | the new card is first and the old cards follow unchanged |
| GridController.GridController.OnTaskUpdated | assets/js/controllers/grid_controller.js:53-69 | the cards become ReplaceFirst of the old ones |
| GridController.GridController.OnTaskDeleted | assets/js/controllers/grid_controller.js:75-91 | the cards become RemoveFirst of the old ones |
| GridController.GridController.OnGridUpdated | assets/js/controllers/grid_controller.js:97-106 | the cards become exactly the given content |
| GridController.GridController.Dispatch | assets/js/controllers/grid_controller.js:23-29 | a bus event patches the cards as its route's handler does |
| GridController.DoneAlwaysDropsTheCard | assets/js/controllers/grid_controller.js:25-27 | after a toggle-done's events reach the grid, that task has no card, whatever the status and the new flag |
| GridController.DeleteDropsExactlyTheCard | assets/js/controllers/grid_controller.js:75-91 | a successful hard delete removes that card and only it |
| GridController.CreateThenDeleteRestoresGrid | assets/js/controllers/grid_controller.js:37-91 | a created card followed by its delete leaves the grid as it was |
| TaskGridController.Route | assets/js/controllers/task_grid_controller.js:6-21 | the same routing as the later grid, without grid:updated |
| TaskGridController.AgreesWithGridController | assets/js/controllers/task_grid_controller.js:8-13 | on every event but grid:updated this grid ends as the later one does; grid:updated changes nothing here |
| TaskGridController.TaskGridController.OnTaskCreated | assets/js/controllers/task_grid_controller.js:28-38 | the new card is first and the old cards follow unchanged |
| TaskGridController.TaskGridController.OnTaskUpdated | assets/js/controllers/task_grid_controller.js:44-61 | the cards become ReplaceFirst of the old ones |
| TaskGridController.TaskGridController.OnTaskDeleted | assets/js/controllers/task_grid_controller.js:67-83 | the cards become RemoveFirst of the old ones |
| TaskGridController.TaskGridController.Dispatch | assets/js/controllers/task_grid_controller.js:8-13 | a bus event patches the cards as its route's handler does |
| ElementTaskGridController.Route | assets/controllers/task_grid_controller.js:5-22 | task-grid:add prepends; task-grid:change, task-item:done and task-item:restore change; task-grid:delete and task-item:delete delete |
| ElementTaskGridController.ElementTaskGridController.OnTaskAdded | assets/controllers/task_grid_controller.js:29-39 | the new card is first and the old cards follow unchanged |
| ElementTaskGridController.ElementTaskGridController.OnTaskChanged | assets/controllers/task_grid_controller.js:45-61 | the cards become ReplaceFirst of the old ones |
| ElementTaskGridController.ElementTaskGridController.OnTaskDeleted | assets/controllers/task_grid_controller.js:67-82 | the first card with the id, if any, is removed through the layout and every other card stays in order; an unknown id changes nothing |
| ElementTaskGridController.ElementTaskGridController.LayoutRemove | assets/controllers/task_grid_controller.js:80 | the layout's remove takes exactly the card at the position out of the list |
| ElementTaskGridController.ElementTaskGridController.Dispatch | assets/controllers/task_grid_controller.js:7-14 | an element event patches the cards as its route's handler does: prepend, ReplaceFirst or RemoveFirst of the id in the detail; an event no listener takes, or a detail of the wrong shape, changes nothing |
| ElementTaskGridController.DeletionMatchesBusGrid | assets/controllers/task_grid_controller.js:67-82 | for every id, the element grid's deletion leaves the same cards as the bus grid's, and with unique ids no card of that id remains |

## Left out

- Storage: the database, the ORM, SQL and the entity manager are replaced by a map from id to task (the service) and by a sequence of rows (the repository). The service's constructor starts from an empty table; every service method is specified over any consistent table.
- Task entity: src/Entity/Task.php is not part of this model. A new task is taken to start not done and not deleted, with the next free id and the given creation time.
- TaskRepository.FindByCriteria: promises order only between rows whose sort keys are both present. Where NULL deadlines go and how ties are broken is the database's choice; the model sorts with NULL lowest.
- TaskRepository.QueryBuilder.GetResult: the same weaker ordering promise as FindByCriteria, for the same reason.
- Dates:
  - PHP `new \DateTime`, JavaScript `Date` and `toISOString` are parameters.
  - A date string the conversion rejects is not modelled. PHP would throw; JavaScript would compare against NaN in the visibility test, and `toISOString()` would throw a RangeError when an edit form is opened for a card with such a deadline.
- Rendering: Twig templates are opaque strings produced by a `render` parameter.
- Card markup:
  - A card's markup is taken as already parsed into its id and its HTML; HTML parsing is not modelled.
  - The markup of a created or replaced card is taken to carry its task's id.
  - Cards are found by their id attribute. The element grid (assets/controllers/task_grid_controller.js:50 and :72) reads `data-task-item-id-value` and the bus grid (assets/js/controllers/grid_controller.js:58 and :80) `data-item-id-value`. The markup each revision's templates emit with that attribute is not modelled; each grid is taken to be fed cards its own selector finds.
- Layout: Masonry (prepended, reloadItems, layout) and Bootstrap modals and toasts are foreign UI libraries. Only the card list and the open flags are modelled. Masonry's remove takes the element off the page, so it is modelled as taking the card out of the list.
- Form internals: the Symfony form, validator and request internals (how an empty field becomes null, character counting) are not modelled. Validation is stated as the declared constraints, with lengths counted in characters.
- Out-of-sync service names: the controller calls service methods under names the service file does not define. The endpoints therefore take the service's outcome as a parameter rather than calling the `TaskService` class.
- Event bus:
  - Emitted events are returned sequences.
  - Dispatch through the browser's EventTarget is modelled only as applying events to a grid one after another.
- Event details: a grid handler given a detail without the fields it reads (a shape no emitter sends) is modelled as changing nothing.
- Failures: alerts and console output on failed requests are not modelled.
- Update reply deadline: the update endpoint's reply holds only the id and the card markup (src/Controller/TaskController.php:196-204), while both modals test the reply's deadline against the bounds (assets/js/controllers/modals_controller.js:171-176, assets/js/controllers/modal_controller.js:135-141). The modals' UpdateEvents take the reply as a free input; ModalsController.UndatedReplyIsRemovedUnderAnyBound states what the reply as sent leads to. AgreesWithServerFilter compares the two predicates on one timestamp and does not describe the update path.
- Filter options: reading them from sessionStorage, including the exception when none are stored, is not modelled. The options are a plain record input.
- Glue and library files: the AJAX client, the other task modal, item and add controllers, the page scripts, the options controller, the utilities, the toast controller and the error classes only move data between the DOM and the controllers. They are not modelled.
- Form URLs: `formTarget.action` is not modelled, and neither is the deadline input's exact text, which comes from a `format` parameter.
- Concurrency: double submits and promise interleaving are not modelled. Each handler runs to completion, and a request's outcome is a parameter of the code that runs when it settles.
- Integers: they are unbounded, and the source relies on no wrap-around.
