/**
 * The constraints the task form declares on its three fields, as a function
 * from the submitted data to the list of violation messages, in field order.
 * Lengths are counted in characters.
 */
module TaskType {
  import opened Wrappers
  import opened Domain

  const NameMin: nat := 3
  const NameMax: nat := 70
  const DescriptionMax: nat := 140

  const NameBlankMessage: string := "Пожалуйста, введите название задачи"
  const NameTooShortMessage: string := "Пожалуйста, введите название задачи от 3-х символов"
  const NameTooLongMessage: string := "Пожалуйста, введите название задачи до 70 символов"
  const DescriptionTooLongMessage: string := "Пожалуйста, введите описание задачи до 140 символов"
  const DeadlineBlankMessage: string := "Пожалуйста, введите дедлайн задачи"

  /** NotBlank, then Length(3, 70); Length passes over an empty value. */
  function NameViolations(name: string): seq<string> {
    (if name == "" then [NameBlankMessage] else [])
    + (if name != "" && |name| < NameMin then [NameTooShortMessage] else [])
    + (if name != "" && |name| > NameMax then [NameTooLongMessage] else [])
  }

  /** Optional; Length(max 140) passes over null and the empty value. */
  function DescriptionViolations(description: Option<string>): seq<string> {
    if description.Some? && |description.value| > DescriptionMax then [DescriptionTooLongMessage] else []
  }

  /** Declared `required => false`, yet NotBlank still rejects a missing deadline. */
  function DeadlineViolations(deadline: Option<int>): seq<string> {
    if deadline.None? then [DeadlineBlankMessage] else []
  }

  /** When the submitted data satisfies every declared constraint. */
  predicate Acceptable(dto: TaskDto) {
    && NameMin <= |dto.name| <= NameMax
    && (dto.description.None? || |dto.description.value| <= DescriptionMax)
    && dto.deadline.Some?
  }

  function Validate(dto: TaskDto): (errors: seq<string>)
    ensures errors == [] <==> Acceptable(dto)
    ensures NameBlankMessage in errors <==> dto.name == ""
    ensures NameTooShortMessage in errors <==> 0 < |dto.name| < NameMin
    ensures NameTooLongMessage in errors <==> |dto.name| > NameMax
    ensures DescriptionTooLongMessage in errors <==> dto.description.Some? && |dto.description.value| > DescriptionMax
    ensures DeadlineBlankMessage in errors <==> dto.deadline.None?
    ensures |errors| <= 3
  {
    MessagesDistinct();
    NameViolations(dto.name) + DescriptionViolations(dto.description) + DeadlineViolations(dto.deadline)
  }

  lemma MessagesDistinct()
    ensures NameBlankMessage != NameTooShortMessage && NameBlankMessage != NameTooLongMessage
    ensures NameBlankMessage != DescriptionTooLongMessage && NameBlankMessage != DeadlineBlankMessage
    ensures NameTooShortMessage != NameTooLongMessage && NameTooShortMessage != DescriptionTooLongMessage
    ensures NameTooShortMessage != DeadlineBlankMessage && NameTooLongMessage != DescriptionTooLongMessage
    ensures NameTooLongMessage != DeadlineBlankMessage && DescriptionTooLongMessage != DeadlineBlankMessage
  {
    assert |NameBlankMessage| != |NameTooShortMessage|;
    assert |NameBlankMessage| != |NameTooLongMessage|;
    assert |NameBlankMessage| != |DescriptionTooLongMessage|;
    assert |NameBlankMessage| != |DeadlineBlankMessage|;
    assert |NameTooShortMessage| != |NameTooLongMessage|;
    assert NameTooShortMessage[20] != DescriptionTooLongMessage[20];
    assert |NameTooShortMessage| != |DeadlineBlankMessage|;
    assert |NameTooLongMessage| != |DescriptionTooLongMessage|;
    assert |NameTooLongMessage| != |DeadlineBlankMessage|;
    assert |DescriptionTooLongMessage| != |DeadlineBlankMessage|;
  }

  /** A blank name yields exactly the blank-name message first, and never a length message. */
  lemma BlankNameRejected(dto: TaskDto)
    requires dto.name == ""
    ensures Validate(dto) != [] && Validate(dto)[0] == NameBlankMessage
    ensures NameTooShortMessage !in Validate(dto) && NameTooLongMessage !in Validate(dto)
  {
  }

  /** The description may be left out entirely. */
  lemma DescriptionIsOptional(name: string, deadline: int)
    requires NameMin <= |name| <= NameMax
    ensures Validate(TaskDto(name, None, Some(deadline))) == []
  {
  }

  /** However good the rest, a missing deadline is a violation. */
  lemma MissingDeadlineRejected(dto: TaskDto)
    requires dto.deadline.None?
    ensures Validate(dto) != [] && Validate(dto)[|Validate(dto)| - 1] == DeadlineBlankMessage
  {
  }
}
