/**
 * The client's visibility test for a task's deadline against the session's
 * deadline bounds. Both modal controllers carry the same copy of it. A bound
 * is set when its raw value is a non-empty string (JavaScript truthiness);
 * `parse` is the date conversion, and dates compare as timestamps.
 */
module DeadlineFilter {
  import opened Wrappers
  import opened Domain
  import TaskRepository

  predicate JsTruthy(v: Option<string>) {
    v.Some? && v.value != ""
  }

  function ShouldBeVisible(current: Option<int>, from: Option<string>, to: Option<string>, parse: string -> int): (visible: bool)
    ensures current.None? ==> (visible <==> !JsTruthy(from) && !JsTruthy(to))
    ensures current.Some? ==>
      (visible <==> ((JsTruthy(from) ==> parse(from.value) <= current.value)
                     && (JsTruthy(to) ==> current.value <= parse(to.value))))
  {
    var hasFilter := JsTruthy(from) || JsTruthy(to);
    if current.None? then !hasFilter
    else
      var fromDate := if JsTruthy(from) then Some(parse(from.value)) else None;
      var toDate := if JsTruthy(to) then Some(parse(to.value)) else None;
      if fromDate.Some? && current.value < fromDate.value then false
      else if toDate.Some? && current.value > toDate.value then false
      else true
  }

  /** A bound that is absent or empty restricts nothing: with none set, every task is visible. */
  lemma NoBoundsShowEverything(current: Option<int>, from: Option<string>, to: Option<string>, parse: string -> int)
    requires from == None || from == Some("")
    requires to == None || to == Some("")
    ensures ShouldBeVisible(current, from, to, parse)
  {
  }

  /** Both bounds are inclusive: a deadline equal to either end of a non-empty interval is visible. */
  lemma BoundsAreInclusive(from: string, to: string, parse: string -> int)
    requires from != "" && to != "" && parse(from) <= parse(to)
    ensures ShouldBeVisible(Some(parse(from)), Some(from), Some(to), parse)
    ensures ShouldBeVisible(Some(parse(to)), Some(from), Some(to), parse)
    ensures ShouldBeVisible(Some(parse(from) - 1), Some(from), Some(to), parse) == false
    ensures ShouldBeVisible(Some(parse(to) + 1), Some(from), Some(to), parse) == false
  {
  }

  /**
   * The two visibility predicates agree on the same timestamp under one date
   * conversion, as long as no bound is the string "0" (falsy for PHP, truthy
   * for JavaScript). Which timestamp the client is given is up to its
   * caller: the update reply it is fed carries no deadline.
   */
  lemma AgreesWithServerFilter(status: string, from: Option<string>, to: Option<string>, parse: string -> int, t: Task)
    requires from != Some("0") && to != Some("0")
    ensures ShouldBeVisible(t.deadline, from, to, parse)
      <==> TaskRepository.DeadlineAdmits(TaskRepository.FilterCriteria(status, from, to), parse, t)
  {
    assert JsTruthy(from) <==> TaskRepository.Truthy(from);
    assert JsTruthy(to) <==> TaskRepository.Truthy(to);
  }

  /** Where the two truthiness rules part: a "0" lower bound hides an undated task on the client only. */
  lemma ZeroBoundDisagrees(status: string, parse: string -> int, t: Task)
    requires t.deadline.None?
    ensures !ShouldBeVisible(t.deadline, Some("0"), None, parse)
    ensures TaskRepository.DeadlineAdmits(TaskRepository.FilterCriteria(status, Some("0"), None), parse, t)
  {
  }
}
