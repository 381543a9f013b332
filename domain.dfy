/**
 * The task entity and the form's data class. Deadlines and creation times are
 * integer timestamps; an absent description or deadline is None.
 */
module Domain {
  import opened Wrappers

  /** A stored task row: the entity the service edits and the repository queries. */
  datatype Task = Task(
    id: int,
    name: string,
    description: Option<string>,
    deadline: Option<int>,
    isDone: bool,
    isDeleted: bool,
    createdAt: int)

  /** The data class of the task form: name, optional description, optional deadline. */
  datatype TaskDto = TaskDto(name: string, description: Option<string>, deadline: Option<int>)
}
