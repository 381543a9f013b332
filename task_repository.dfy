/**
 * The task repository's query by criteria: the sort and filter parameters are
 * normalised against whitelists, turned into an ORDER BY and a conjunction of
 * WHERE conditions on a query builder, and the query is evaluated over the
 * stored rows as an in-memory filter followed by a sort.
 */
module TaskRepository {
  import opened Wrappers
  import opened Domain

  datatype SortCriteria = SortCriteria(field: string, order: string)

  /** deadlineFrom and deadlineTo are the raw query-string values (None when absent). */
  datatype FilterCriteria = FilterCriteria(status: string, deadlineFrom: Option<string>, deadlineTo: Option<string>)

  const SortFields: set<string> := {"id", "created_at", "deadline"}
  const SortOrders: set<string> := {"asc", "desc"}
  const Statuses: set<string> := {"all", "active", "completed", "deleted"}

  // ---------------------------------------------------------------------------
  // Normalisation

  /** The byte mapping of strtolower: ASCII upper-case letters only. */
  function LowerChar(c: char): (r: char)
    ensures 'A' <= c <= 'Z' ==> r != c && 'a' <= r <= 'z'
    ensures !('A' <= c <= 'Z') ==> r == c
    ensures !('A' <= r <= 'Z')
  {
    if 'A' <= c <= 'Z' then (c as int - 'A' as int + 'a' as int) as char else c
  }

  function ToLower(s: string): (r: string)
    ensures |r| == |s|
    ensures forall i :: 0 <= i < |s| ==> r[i] == LowerChar(s[i])
  {
    if s == [] then [] else [LowerChar(s[0])] + ToLower(s[1..])
  }

  lemma {:induction false} ToLowerIdempotent(s: string)
    ensures ToLower(ToLower(s)) == ToLower(s)
  {
    var once := ToLower(s);
    var twice := ToLower(once);
    assert |twice| == |once|;
    forall i | 0 <= i < |once| ensures twice[i] == once[i] {
      assert once[i] == LowerChar(s[i]);
    }
  }

  lemma {:induction false} ToLowerKeepsLowerCase(s: string)
    requires forall i :: 0 <= i < |s| ==> !('A' <= s[i] <= 'Z')
    ensures ToLower(s) == s
  {
    var r := ToLower(s);
    forall i | 0 <= i < |s| ensures r[i] == s[i] {
      assert r[i] == LowerChar(s[i]);
    }
  }

  /** Replaces every parameter outside its whitelist by its default. */
  function ValidateCriteria(sort: SortCriteria, filter: FilterCriteria): (r: (SortCriteria, FilterCriteria))
    ensures r.0.field in SortFields && r.0.order in SortOrders && r.1.status in Statuses
    ensures sort.field in SortFields ==> r.0.field == sort.field
    ensures sort.field !in SortFields ==> r.0.field == "created_at"
    ensures ToLower(sort.order) in SortOrders ==> r.0.order == ToLower(sort.order)
    ensures ToLower(sort.order) !in SortOrders ==> r.0.order == "desc"
    ensures filter.status in Statuses ==> r.1.status == filter.status
    ensures filter.status !in Statuses ==> r.1.status == "active"
    ensures r.1.deadlineFrom == filter.deadlineFrom && r.1.deadlineTo == filter.deadlineTo
  {
    var field := if sort.field in SortFields then sort.field else "created_at";
    var lowered := ToLower(sort.order);
    var order := if lowered in SortOrders then lowered else "desc";
    var status := if filter.status in Statuses then filter.status else "active";
    (SortCriteria(field, order), filter.(status := status))
  }

  predicate Normalized(sort: SortCriteria, filter: FilterCriteria) {
    sort.field in SortFields && sort.order in SortOrders && filter.status in Statuses
  }

  /** Normalising already-normalised criteria changes nothing. */
  lemma NormalizedIsFixpoint(sort: SortCriteria, filter: FilterCriteria)
    requires Normalized(sort, filter)
    ensures ValidateCriteria(sort, filter) == (sort, filter)
  {
    ToLowerKeepsLowerCase(sort.order);
  }

  lemma ValidateCriteriaIdempotent(sort: SortCriteria, filter: FilterCriteria)
    ensures var (s, f) := ValidateCriteria(sort, filter);
      ValidateCriteria(s, f) == (s, f)
  {
    var (s, f) := ValidateCriteria(sort, filter);
    NormalizedIsFixpoint(s, f);
  }

  /** The order is lowered before the whitelist check, so its case never matters. */
  lemma OrderIsCaseInsensitive(field: string, order: string, filter: FilterCriteria)
    ensures ValidateCriteria(SortCriteria(field, order), filter) == ValidateCriteria(SortCriteria(field, ToLower(order)), filter)
  {
    ToLowerIdempotent(order);
  }

  // ---------------------------------------------------------------------------
  // Conditions and their meaning

  /** One `andWhere` predicate together with the parameter bound to it. */
  datatype Condition =
    | IsDeletedIs(deleted: bool)
    | IsDoneIs(done: bool)
    | DeadlineAtLeast(from: int)
    | DeadlineAtMost(to: int)

  /** SQL semantics: a comparison with a NULL deadline is not true, so the row is dropped. */
  predicate Holds(c: Condition, t: Task) {
    match c
    case IsDeletedIs(b) => t.isDeleted == b
    case IsDoneIs(b) => t.isDone == b
    case DeadlineAtLeast(b) => t.deadline.Some? && t.deadline.value >= b
    case DeadlineAtMost(b) => t.deadline.Some? && t.deadline.value <= b
  }

  predicate HoldsAll(cs: seq<Condition>, t: Task) {
    forall i :: 0 <= i < |cs| ==> Holds(cs[i], t)
  }

  /** PHP truthiness of a query-string value: null, "" and "0" are falsy. */
  predicate Truthy(v: Option<string>) {
    v.Some? && v.value != "" && v.value != "0"
  }

  function StatusConditions(status: string): seq<Condition> {
    if status == "active" then [IsDeletedIs(false), IsDoneIs(false)]
    else if status == "completed" then [IsDeletedIs(false), IsDoneIs(true)]
    else if status == "deleted" then [IsDeletedIs(true)]
    else []
  }

  function DeadlineConditions(filter: FilterCriteria, parse: string -> int): seq<Condition> {
    (if Truthy(filter.deadlineFrom) then [DeadlineAtLeast(parse(filter.deadlineFrom.value))] else [])
    + (if Truthy(filter.deadlineTo) then [DeadlineAtMost(parse(filter.deadlineTo.value))] else [])
  }

  function CriteriaConditions(filter: FilterCriteria, parse: string -> int): seq<Condition> {
    StatusConditions(filter.status) + DeadlineConditions(filter, parse)
  }

  /** Reference meaning of the status filter. */
  predicate StatusAdmits(status: string, t: Task) {
    match status
    case "active" => !t.isDeleted && !t.isDone
    case "completed" => !t.isDeleted && t.isDone
    case "deleted" => t.isDeleted
    case _ => true
  }

  /** Reference meaning of the deadline filter: inclusive bounds, each present only when truthy. */
  predicate DeadlineAdmits(filter: FilterCriteria, parse: string -> int, t: Task) {
    && (Truthy(filter.deadlineFrom) ==> t.deadline.Some? && parse(filter.deadlineFrom.value) <= t.deadline.value)
    && (Truthy(filter.deadlineTo) ==> t.deadline.Some? && t.deadline.value <= parse(filter.deadlineTo.value))
  }

  predicate Selects(filter: FilterCriteria, parse: string -> int, t: Task) {
    StatusAdmits(filter.status, t) && DeadlineAdmits(filter, parse, t)
  }

  lemma HoldsAllAppend(a: seq<Condition>, b: seq<Condition>, t: Task)
    ensures HoldsAll(a + b, t) <==> HoldsAll(a, t) && HoldsAll(b, t)
  {
    if HoldsAll(a, t) && HoldsAll(b, t) {
      forall i | 0 <= i < |a + b| ensures Holds((a + b)[i], t) {
        if i < |a| { assert (a + b)[i] == a[i]; } else { assert (a + b)[i] == b[i - |a|]; }
      }
    }
    if HoldsAll(a + b, t) {
      forall i | 0 <= i < |a| ensures Holds(a[i], t) { assert (a + b)[i] == a[i]; }
      forall i | 0 <= i < |b| ensures Holds(b[i], t) { assert (a + b)[|a| + i] == b[i]; }
    }
  }

  /** The conditions built for a filter hold of a task exactly when the reference meaning selects it. */
  lemma CriteriaMeaning(filter: FilterCriteria, parse: string -> int, t: Task)
    ensures HoldsAll(CriteriaConditions(filter, parse), t) <==> Selects(filter, parse, t)
  {
    var st := StatusConditions(filter.status);
    var from := if Truthy(filter.deadlineFrom) then [DeadlineAtLeast(parse(filter.deadlineFrom.value))] else [];
    var to := if Truthy(filter.deadlineTo) then [DeadlineAtMost(parse(filter.deadlineTo.value))] else [];
    HoldsAllAppend(st, from + to, t);
    HoldsAllAppend(from, to, t);
    assert HoldsAll(st, t) <==> StatusAdmits(filter.status, t) by {
      if filter.status == "active" || filter.status == "completed" {
        assert Holds(st[0], t) && Holds(st[1], t) ==> HoldsAll(st, t);
      } else if filter.status == "deleted" {
        assert Holds(st[0], t) ==> HoldsAll(st, t);
      }
    }
    assert HoldsAll(from, t) <==> (Truthy(filter.deadlineFrom) ==> t.deadline.Some? && parse(filter.deadlineFrom.value) <= t.deadline.value) by {
      if Truthy(filter.deadlineFrom) { assert Holds(from[0], t) ==> HoldsAll(from, t); }
    }
    assert HoldsAll(to, t) <==> (Truthy(filter.deadlineTo) ==> t.deadline.Some? && t.deadline.value <= parse(filter.deadlineTo.value)) by {
      if Truthy(filter.deadlineTo) { assert Holds(to[0], t) ==> HoldsAll(to, t); }
    }
  }

  lemma ActiveKeepsUndoneUndeleted(parse: string -> int, t: Task)
    ensures HoldsAll(CriteriaConditions(FilterCriteria("active", None, None), parse), t) <==> !t.isDeleted && !t.isDone
  {
    CriteriaMeaning(FilterCriteria("active", None, None), parse, t);
  }

  lemma CompletedKeepsDoneUndeleted(parse: string -> int, t: Task)
    ensures HoldsAll(CriteriaConditions(FilterCriteria("completed", None, None), parse), t) <==> !t.isDeleted && t.isDone
  {
    CriteriaMeaning(FilterCriteria("completed", None, None), parse, t);
  }

  lemma DeletedKeepsDeletedWhateverDone(parse: string -> int, t: Task)
    ensures HoldsAll(CriteriaConditions(FilterCriteria("deleted", None, None), parse), t) <==> t.isDeleted
  {
    CriteriaMeaning(FilterCriteria("deleted", None, None), parse, t);
  }

  lemma AllHasNoStatusRestriction(parse: string -> int, t: Task)
    ensures HoldsAll(CriteriaConditions(FilterCriteria("all", None, None), parse), t)
  {
    CriteriaMeaning(FilterCriteria("all", None, None), parse, t);
  }

  /** With a lower bound set, a task without a deadline is never selected. */
  lemma LowerBoundExcludesNoDeadline(filter: FilterCriteria, parse: string -> int, t: Task)
    requires Truthy(filter.deadlineFrom) && t.deadline.None?
    ensures !HoldsAll(CriteriaConditions(filter, parse), t)
  {
    CriteriaMeaning(filter, parse, t);
  }

  /** An absent, empty or "0" bound adds no condition at all. */
  lemma FalsyBoundsAddNothing(filter: FilterCriteria, parse: string -> int)
    requires !Truthy(filter.deadlineFrom) && !Truthy(filter.deadlineTo)
    ensures CriteriaConditions(filter, parse) == StatusConditions(filter.status)
  {
  }

  /** Both bounds together form an inclusive interval. */
  lemma BoundsFormInclusiveInterval(filter: FilterCriteria, parse: string -> int, t: Task)
    requires filter.status == "all" && Truthy(filter.deadlineFrom) && Truthy(filter.deadlineTo)
    ensures HoldsAll(CriteriaConditions(filter, parse), t) <==>
      t.deadline.Some? && parse(filter.deadlineFrom.value) <= t.deadline.value <= parse(filter.deadlineTo.value)
  {
    CriteriaMeaning(filter, parse, t);
  }

  // ---------------------------------------------------------------------------
  // The query builder and the evaluated query

  /** The part of the query builder the repository drives: one ORDER BY and a conjunction of conditions. */
  class QueryBuilder {
    var orderField: Option<string>
    var orderDirection: string
    var conditions: seq<Condition>

    constructor ()
      ensures orderField == None && conditions == []
    {
      orderField := None;
      orderDirection := "asc";
      conditions := [];
    }

    /** orderBy replaces any earlier ordering. */
    method OrderBy(field: string, direction: string)
      modifies this
      ensures orderField == Some(field) && orderDirection == direction
      ensures conditions == old(conditions)
    {
      orderField := Some(field);
      orderDirection := direction;
    }

    /** andWhere with its parameter already bound. */
    method AndWhere(c: Condition)
      modifies this
      ensures conditions == old(conditions) + [c]
      ensures orderField == old(orderField) && orderDirection == old(orderDirection)
    {
      conditions := conditions + [c];
    }

    /** getQuery()->getResult() over the stored rows. */
    function GetResult(rows: seq<Task>): (r: seq<Task>)
      reads this
      ensures forall t :: multiset(r)[t] == if HoldsAll(conditions, t) then multiset(rows)[t] else 0
      ensures orderField.Some? ==> OrderedBy(r, orderField.value, orderDirection)
    {
      var kept := Filter(rows, conditions);
      if orderField.Some? then SortRows(kept, orderField.value, orderDirection) else kept
    }
  }

  method ApplyCriteria(q: QueryBuilder, sort: SortCriteria, filter: FilterCriteria, parse: string -> int)
    modifies q
    ensures q.orderField == Some(sort.field) && q.orderDirection == sort.order
    ensures q.conditions == old(q.conditions) + CriteriaConditions(filter, parse)
  {
    q.OrderBy(sort.field, sort.order);
    if filter.status == "active" {
      q.AndWhere(IsDeletedIs(false));
      q.AndWhere(IsDoneIs(false));
    } else if filter.status == "completed" {
      q.AndWhere(IsDeletedIs(false));
      q.AndWhere(IsDoneIs(true));
    } else if filter.status == "deleted" {
      q.AndWhere(IsDeletedIs(true));
    }
    if Truthy(filter.deadlineFrom) {
      q.AndWhere(DeadlineAtLeast(parse(filter.deadlineFrom.value)));
    }
    if Truthy(filter.deadlineTo) {
      q.AndWhere(DeadlineAtMost(parse(filter.deadlineTo.value)));
    }
  }

  /**
   * The tasks matching the normalised filter, each as often as it is stored,
   * ordered by the normalised field in the normalised direction.
   */
  method FindByCriteria(sort: SortCriteria, filter: FilterCriteria, rows: seq<Task>, parse: string -> int)
    returns (result: seq<Task>)
    ensures var (s, f) := ValidateCriteria(sort, filter);
      && (forall t :: multiset(result)[t] == if Selects(f, parse, t) then multiset(rows)[t] else 0)
      && OrderedBy(result, s.field, s.order)
    ensures multiset(result) <= multiset(rows)
  {
    var q := new QueryBuilder();
    var normalized := ValidateCriteria(sort, filter);
    var s, f := normalized.0, normalized.1;
    ApplyCriteria(q, s, f, parse);
    assert q.conditions == CriteriaConditions(f, parse);
    result := q.GetResult(rows);
    forall t ensures multiset(result)[t] == if Selects(f, parse, t) then multiset(rows)[t] else 0 {
      CriteriaMeaning(f, parse, t);
    }
  }

  /** Each row keeps its multiplicity when it satisfies every condition and is dropped otherwise. */
  function Filter(rows: seq<Task>, cs: seq<Condition>): (r: seq<Task>)
    ensures forall t :: multiset(r)[t] == if HoldsAll(cs, t) then multiset(rows)[t] else 0
  {
    if rows == [] then []
    else
      var rest := Filter(rows[1..], cs);
      assert rows == [rows[0]] + rows[1..];
      if HoldsAll(cs, rows[0]) then [rows[0]] + rest else rest
  }

  // ---------------------------------------------------------------------------
  // Ordering

  /** The column a sort field names; None is SQL NULL. */
  function SortKey(t: Task, field: string): Option<int> {
    match field
    case "id" => Some(t.id)
    case "created_at" => Some(t.createdAt)
    case "deadline" => t.deadline
    case _ => None
  }

  /**
   * What the query promises about order: rows whose keys are both present are
   * in the requested direction. Where NULLs go, and how ties are broken, is left
   * to the database.
   */
  ghost predicate OrderedBy(s: seq<Task>, field: string, direction: string) {
    forall i, j :: 0 <= i < j < |s| && SortKey(s[i], field).Some? && SortKey(s[j], field).Some? ==>
      if direction == "asc" then SortKey(s[i], field).value <= SortKey(s[j], field).value
      else SortKey(s[i], field).value >= SortKey(s[j], field).value
  }

  /** A total preorder on keys with NULL lowest: one placement the database may choose. */
  predicate KeyLe(x: Option<int>, y: Option<int>) {
    x.None? || (y.Some? && x.value <= y.value)
  }

  predicate Before(field: string, direction: string, a: Task, b: Task) {
    if direction == "asc" then KeyLe(SortKey(a, field), SortKey(b, field))
    else KeyLe(SortKey(b, field), SortKey(a, field))
  }

  ghost predicate SortedBy(s: seq<Task>, field: string, direction: string) {
    forall i, j :: 0 <= i < j < |s| ==> Before(field, direction, s[i], s[j])
  }

  lemma SortedIsOrdered(s: seq<Task>, field: string, direction: string)
    requires SortedBy(s, field, direction)
    ensures OrderedBy(s, field, direction)
  {
  }

  lemma BeforeTotal(field: string, direction: string, a: Task, b: Task)
    ensures Before(field, direction, a, b) || Before(field, direction, b, a)
  {
  }

  lemma BeforeTransitive(field: string, direction: string, a: Task, b: Task, c: Task)
    requires Before(field, direction, a, b) && Before(field, direction, b, c)
    ensures Before(field, direction, a, c)
  {
  }

  function Insert(x: Task, s: seq<Task>, field: string, direction: string): (r: seq<Task>)
    ensures multiset(r) == multiset(s) + multiset{x}
  {
    if s == [] then [x]
    else if Before(field, direction, x, s[0]) then [x] + s
    else
      assert s == [s[0]] + s[1..];
      [s[0]] + Insert(x, s[1..], field, direction)
  }

  lemma {:induction false} InsertSorted(x: Task, s: seq<Task>, field: string, direction: string)
    requires SortedBy(s, field, direction)
    ensures SortedBy(Insert(x, s, field, direction), field, direction)
  {
    if s == [] {
    } else if Before(field, direction, x, s[0]) {
      var r := Insert(x, s, field, direction);
      assert r == [x] + s;
      forall i, j | 0 <= i < j < |r| ensures Before(field, direction, r[i], r[j]) {
        if i == 0 && j > 1 {
          BeforeTransitive(field, direction, x, s[0], s[j - 1]);
        }
      }
    } else {
      var rest := Insert(x, s[1..], field, direction);
      var r := Insert(x, s, field, direction);
      assert r == [s[0]] + rest;
      assert SortedBy(s[1..], field, direction);
      InsertSorted(x, s[1..], field, direction);
      BeforeTotal(field, direction, x, s[0]);
      assert s == [s[0]] + s[1..];
      forall j | 0 <= j < |rest| ensures Before(field, direction, s[0], rest[j]) {
        assert rest[j] in multiset(rest);
        assert rest[j] == x || rest[j] in multiset(s[1..]);
        if rest[j] != x {
          var k :| 0 <= k < |s[1..]| && s[1..][k] == rest[j];
          assert s[k + 1] == rest[j];
        }
      }
      forall i, j | 0 <= i < j < |r| ensures Before(field, direction, r[i], r[j]) {
        if i > 0 { assert r[i] == rest[i - 1] && r[j] == rest[j - 1]; }
        else { assert r[j] == rest[j - 1]; }
      }
    }
  }

  function SortRows(s: seq<Task>, field: string, direction: string): (r: seq<Task>)
    ensures multiset(r) == multiset(s)
    ensures SortedBy(r, field, direction) && OrderedBy(r, field, direction)
  {
    if s == [] then []
    else
      assert s == [s[0]] + s[1..];
      var sortedRest := SortRows(s[1..], field, direction);
      var r := Insert(s[0], sortedRest, field, direction);
      InsertSorted(s[0], sortedRest, field, direction);
      SortedIsOrdered(r, field, direction);
      r
  }
}
