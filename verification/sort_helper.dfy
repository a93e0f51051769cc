/** The `sort`/`desc` query parser and validator (`SortHelper.execute`).

    `sort=a,b&desc=b` becomes the ordered list `[ASC a, DESC b]`; the list is
    then checked against the resource method's `searchFields` allow-list and
    against the entity's fields, and a `sortEnabled` flag is computed beside it. */
module SortHelper {
  import opened Wrappers
  import opened CrudCommon
  import Seqs
  import QueryString

  /** `ReservedKeyWords.DEFAULT_SORT_KEY` and `DEFAULT_SORT_DESC_KEY`. */
  const SortKey: string := "sort"
  const DescKey: string := "desc"
  /** The `searchFields` value that lifts the allow-list. */
  const Wildcard: string := "*"

  datatype CrudSort = Asc | Desc

  datatype SortModel = SortModel(direction: CrudSort, field: string)

  /** The sort part of the request-scoped context. */
  datatype SortContext = SortContext(sortEnabled: bool, sorts: seq<SortModel>)

  /** The attributes of a `@DemoiselleCrud` annotation that sorting reads. */
  datatype CrudAnnotation = CrudAnnotation(searchFields: seq<string>, enableSort: bool)

  /** What the helper learns from the matched resource. */
  datatype Resource = Resource(
    /** the target class extends the abstract REST resource */
    abstractRestTarget: bool,
    /** the annotation `CrudUtilHelper.getDemoiselleCrudAnnotation` resolves */
    crudAnnotation: Option<CrudAnnotation>,
    /** the annotation present on the resource method itself */
    methodAnnotation: Option<CrudAnnotation>)

  /** The entity-field oracle `CrudUtilHelper.checkIfExistField`: the failure
      it raises for a field of the entity class, or `None` when the field exists. */
  type FieldCheck = (Option<ClassRef>, string) -> Option<Thrown>

  /** The context after `execute` and the exception it raised, if any. */
  datatype SortOutcome = SortOutcome(context: SortContext, error: Option<Thrown>)

  /** The global switch, the request's `sort` key and the resource's own
      permission together decide whether sorting is applied. */
  function IsSortEnabled(globalSortEnabled: bool, query: QueryString.Query, resource: Resource): bool {
    && globalSortEnabled
    && QueryString.HasKey(query, SortKey)
    && (resource.abstractRestTarget
        || (resource.crudAnnotation.Some? && resource.crudAnnotation.value.enableSort))
  }

  /** A `desc` value that names no `sort` value; empty values are skipped. */
  function IsStrayDesc(sortValues: seq<string>): string -> bool {
    v => v != "" && v !in sortValues
  }

  predicate FirstStrayDescAt(descValues: seq<string>, sortValues: seq<string>, i: int) {
    && 0 <= i < |descValues|
    && descValues[i] != "" && descValues[i] !in sortValues
    && forall j :: 0 <= j < i ==> descValues[j] == "" || descValues[j] in sortValues
  }

  /** `desc` holds no value outside `sort` (empty values are ignored). */
  predicate DescConsistent(descValues: seq<string>, sortValues: seq<string>) {
    forall i :: 0 <= i < |descValues| ==> descValues[i] == "" || descValues[i] in sortValues
  }

  /** The loop over explicit `desc` values: the set of fields to sort
      descending, or a Bad Request naming the first value that is not sorted. */
  function DescFields(descValues: seq<string>, sortValues: seq<string>): (r: Result<set<string>, Thrown>)
    ensures r.Success? <==> DescConsistent(descValues, sortValues)
    ensures r.Success? ==> forall f :: f in r.value <==> f != "" && f in descValues
    ensures r.Failure? ==>
      exists i :: FirstStrayDescAt(descValues, sortValues, i)
        && r.error == Thrown(BadRequest, FieldRequestDoesNotExistsOnSearchField(descValues[i]))
  {
    match Seqs.FindFirst(descValues, IsStrayDesc(sortValues))
    case Some(i) =>
      assert FirstStrayDescAt(descValues, sortValues, i);
      Result.Failure(Thrown(BadRequest, FieldRequestDoesNotExistsOnSearchField(descValues[i])))
    case None => Success(set v | v in descValues && v != "")
  }

  /** One entry per `sort` value, in order, descending when every field is
      (`descAll`) or when the field was named in `desc`. */
  function BuildSorts(sortValues: seq<string>, descAll: bool, descFields: set<string>): (sorts: seq<SortModel>)
    ensures |sorts| == |sortValues|
    ensures forall i :: 0 <= i < |sorts| ==> sorts[i].field == sortValues[i]
    ensures forall i :: 0 <= i < |sorts| ==>
      (sorts[i].direction == Desc <==> descAll || sortValues[i] in descFields)
  {
    if |sortValues| == 0 then []
    else
      var direction := if descAll || sortValues[0] in descFields then Desc else Asc;
      [SortModel(direction, sortValues[0])] + BuildSorts(sortValues[1..], descAll, descFields)
  }

  function OutsideSearchFields(searchFields: seq<string>): SortModel -> bool {
    (m: SortModel) => m.field !in searchFields
  }

  /** The allow-list check on the resource method's annotation. Only the
      first `searchFields` entry is tested for the wildcard, and an empty
      array fails on `get(0)`. */
  function CheckSearchFields(sorts: seq<SortModel>, annotation: Option<CrudAnnotation>): (r: Option<Thrown>)
    ensures annotation.None? ==> r.None?
    ensures annotation.Some? && |annotation.value.searchFields| == 0 ==>
      r == Some(Thrown(IndexOutOfBounds, IndexOutOfRange(0)))
    ensures annotation.Some? && |annotation.value.searchFields| > 0 && annotation.value.searchFields[0] == Wildcard ==>
      r.None?
    ensures annotation.Some? && |annotation.value.searchFields| > 0 && annotation.value.searchFields[0] != Wildcard ==>
      (r.None? <==> forall i :: 0 <= i < |sorts| ==> sorts[i].field in annotation.value.searchFields)
    // on a non-empty list, every failure is the Bad Request for the first unlisted field
    ensures annotation.Some? && |annotation.value.searchFields| > 0 && r.Some? ==>
      exists i :: 0 <= i < |sorts| && sorts[i].field !in annotation.value.searchFields
        && (forall j :: 0 <= j < i ==> sorts[j].field in annotation.value.searchFields)
        && r.value == Thrown(BadRequest, FieldRequestDoesNotExistsOnSearchField(sorts[i].field))
  {
    match annotation
    case None => None
    case Some(a) =>
      if |a.searchFields| == 0 then Some(Thrown(IndexOutOfBounds, IndexOutOfRange(0)))
      else if a.searchFields[0] == Wildcard then None
      else
        match Seqs.FindFirst(sorts, OutsideSearchFields(a.searchFields))
        case None => None
        case Some(i) => Some(Thrown(BadRequest, FieldRequestDoesNotExistsOnSearchField(sorts[i].field)))
  }

  function FailsCheck(entity: Option<ClassRef>, check: FieldCheck): SortModel -> bool {
    (m: SortModel) => check(entity, m.field).Some?
  }

  /** The entity-field check, in sort order: the first failure raised, if any. */
  function CheckEntityFields(sorts: seq<SortModel>, entity: Option<ClassRef>, check: FieldCheck): (r: Option<Thrown>)
    ensures r.None? <==> forall i :: 0 <= i < |sorts| ==> check(entity, sorts[i].field).None?
    ensures r.Some? ==>
      exists i :: 0 <= i < |sorts| && check(entity, sorts[i].field) == r
        && forall j :: 0 <= j < i ==> check(entity, sorts[j].field).None?
  {
    match Seqs.FindFirst(sorts, FailsCheck(entity, check))
    case None => None
    case Some(i) => check(entity, sorts[i].field)
  }

  /** The direction a sorted field gets: descending when `desc` is present
      with no values at all, or when it names the field. */
  function ExpectedDirection(descValues: Option<seq<string>>, field: string): CrudSort {
    if descValues == Some([]) || (descValues.Some? && field != "" && field in descValues.value) then Desc
    else Asc
  }

  /** Direction assignment for a present `sort` parameter: one entry per
      `sort` value, duplicates included, in `sort` order; or the Bad Request
      for the first `desc` value that is not sorted. */
  function ParseSorts(descValues: Option<seq<string>>, sortValues: seq<string>): (r: Result<seq<SortModel>, Thrown>)
    ensures r.Success? <==> descValues.None? || DescConsistent(descValues.value, sortValues)
    ensures r.Success? ==>
      && |r.value| == |sortValues|
      && forall i :: 0 <= i < |sortValues| ==>
           r.value[i] == SortModel(ExpectedDirection(descValues, sortValues[i]), sortValues[i])
    ensures r.Failure? ==>
      exists i :: FirstStrayDescAt(descValues.value, sortValues, i)
        && r.error == Thrown(BadRequest, FieldRequestDoesNotExistsOnSearchField(descValues.value[i]))
  {
    if descValues.Some? && |descValues.value| > 0 then
      match DescFields(descValues.value, sortValues)
      case Failure(e) => Result.Failure(e)
      case Success(descFields) => Success(BuildSorts(sortValues, false, descFields))
    else
      Success(BuildSorts(sortValues, descValues.Some?, {}))
  }

  /** The requests `execute` accepts, stated per rule rather than in the
      order the checks run. */
  ghost predicate Accepts(descValues: Option<seq<string>>, sortValues: Option<seq<string>>,
                          annotation: Option<CrudAnnotation>, entity: Option<ClassRef>, check: FieldCheck) {
    && (descValues.Some? ==> sortValues.Some?)
    && (descValues.Some? && sortValues.Some? ==> DescConsistent(descValues.value, sortValues.value))
    && (annotation.Some? ==>
          && |annotation.value.searchFields| > 0
          && (annotation.value.searchFields[0] != Wildcard && sortValues.Some? ==>
                forall i :: 0 <= i < |sortValues.value| ==> sortValues.value[i] in annotation.value.searchFields))
    && (sortValues.Some? ==>
          forall i :: 0 <= i < |sortValues.value| ==> check(entity, sortValues.value[i]).None?)
  }

  /** `execute` once the two parameters have been looked up and the flag
      computed: parse, assign directions, validate, in that order. */
  function ExecuteOn(prior: SortContext, descValues: Option<seq<string>>, sortValues: Option<seq<string>>, enabled: bool,
                     annotation: Option<CrudAnnotation>, entity: Option<ClassRef>, check: FieldCheck): (out: SortOutcome)
    // `desc` without `sort` fails before the context is touched
    ensures descValues.Some? && sortValues.None? ==>
      out == SortOutcome(prior, Some(Thrown(IllegalArgument, DescParameterWithoutSortParameter)))
    // otherwise the flag is stored whatever the parse gives
    ensures !(descValues.Some? && sortValues.None?) ==> out.context.sortEnabled == enabled
    // no `sort` parameter, no entries
    ensures sortValues.None? ==> out.context.sorts == [] || out.context == prior
    // neither parameter: the flag is stored, the entries are emptied, and only
    // an empty allow-list array still fails
    ensures descValues.None? && sortValues.None? ==>
      && out.context == SortContext(enabled, [])
      && (out.error.Some? <==> annotation.Some? && |annotation.value.searchFields| == 0)
    // once parsing succeeds, an empty allow-list array fails on `get(0)`
    ensures && annotation.Some? && |annotation.value.searchFields| == 0
            && !(descValues.Some? && sortValues.None?)
            && (descValues.Some? && sortValues.Some? ==> DescConsistent(descValues.value, sortValues.value))
            ==> out.error == Some(Thrown(IndexOutOfBounds, IndexOutOfRange(0)))
    // a stray `desc` value is reported before any entry is built
    ensures descValues.Some? && sortValues.Some? && !DescConsistent(descValues.value, sortValues.value) ==>
      && out.context.sorts == []
      && exists i :: FirstStrayDescAt(descValues.value, sortValues.value, i)
           && out.error == Some(Thrown(BadRequest, FieldRequestDoesNotExistsOnSearchField(descValues.value[i])))
    // otherwise the entries follow `sort`
    ensures sortValues.Some? && (descValues.Some? ==> DescConsistent(descValues.value, sortValues.value)) ==>
      && |out.context.sorts| == |sortValues.value|
      && forall i :: 0 <= i < |sortValues.value| ==>
           out.context.sorts[i] == SortModel(ExpectedDirection(descValues, sortValues.value[i]), sortValues.value[i])
  {
    if descValues.Some? && sortValues.None? then
      SortOutcome(prior, Some(Thrown(IllegalArgument, DescParameterWithoutSortParameter)))
    else
      var parsed := if sortValues.None? then Success([]) else ParseSorts(descValues, sortValues.value);
      if parsed.Failure? then
        SortOutcome(SortContext(enabled, []), Some(parsed.error))
      else
        var context := SortContext(enabled, parsed.value);
        var searchFailure := CheckSearchFields(parsed.value, annotation);
        if searchFailure.Some? then SortOutcome(context, searchFailure)
        else SortOutcome(context, CheckEntityFields(parsed.value, entity, check))
  }

  /** `SortHelper.execute`. */
  function Execute(prior: SortContext, query: QueryString.Query, globalSortEnabled: bool,
                   resource: Resource, entity: Option<ClassRef>, check: FieldCheck): (out: SortOutcome)
    ensures var descValues := QueryString.ValuesOf(query, DescKey);
      var sortValues := QueryString.ValuesOf(query, SortKey);
      !(descValues.Some? && sortValues.None?) ==>
        out.context.sortEnabled == IsSortEnabled(globalSortEnabled, query, resource)
  {
    ExecuteOn(prior, QueryString.ValuesOf(query, DescKey), QueryString.ValuesOf(query, SortKey),
              IsSortEnabled(globalSortEnabled, query, resource), resource.methodAnnotation, entity, check)
  }

  /** With a restricted allow-list on the resource method, a sorted field
      outside it is rejected by name: the first such field in `sort` order. */
  lemma ExecuteRejectsFieldOutsideSearchFields(prior: SortContext, descValues: Option<seq<string>>, sortValues: seq<string>,
                                               enabled: bool, annotation: CrudAnnotation, entity: Option<ClassRef>,
                                               check: FieldCheck, k: nat)
    requires descValues.Some? ==> DescConsistent(descValues.value, sortValues)
    requires |annotation.searchFields| > 0 && annotation.searchFields[0] != Wildcard
    requires k < |sortValues| && sortValues[k] !in annotation.searchFields
    ensures exists i ::
      && 0 <= i <= k && sortValues[i] !in annotation.searchFields
      && (forall j :: 0 <= j < i ==> sortValues[j] in annotation.searchFields)
      && ExecuteOn(prior, descValues, Some(sortValues), enabled, Some(annotation), entity, check).error
           == Some(Thrown(BadRequest, FieldRequestDoesNotExistsOnSearchField(sortValues[i])))
  {
    var sorts := ParseSorts(descValues, sortValues).value;
    assert ExecuteOn(prior, descValues, Some(sortValues), enabled, Some(annotation), entity, check).error
        == CheckSearchFields(sorts, Some(annotation));
    assert OutsideSearchFields(annotation.searchFields)(sorts[k]);
    var found := Seqs.FindFirst(sorts, OutsideSearchFields(annotation.searchFields));
    var i := found.value;
    assert CheckSearchFields(sorts, Some(annotation))
        == Some(Thrown(BadRequest, FieldRequestDoesNotExistsOnSearchField(sortValues[i])));
    assert i <= k;
    forall j | 0 <= j < i
      ensures sortValues[j] in annotation.searchFields
    {
      assert !OutsideSearchFields(annotation.searchFields)(sorts[j]);
    }
  }

  /** Once parsing and the allow-list pass, the entity-field oracle is asked
      about every sorted field in order and its first failure is reported. */
  lemma ExecuteChecksEntityFieldsInOrder(prior: SortContext, descValues: Option<seq<string>>, sortValues: seq<string>,
                                         enabled: bool, annotation: Option<CrudAnnotation>, entity: Option<ClassRef>,
                                         check: FieldCheck)
    requires descValues.Some? ==> DescConsistent(descValues.value, sortValues)
    requires annotation.Some? ==>
      && |annotation.value.searchFields| > 0
      && (annotation.value.searchFields[0] == Wildcard ||
          forall i :: 0 <= i < |sortValues| ==> sortValues[i] in annotation.value.searchFields)
    ensures var out := ExecuteOn(prior, descValues, Some(sortValues), enabled, annotation, entity, check);
      && (out.error.None? <==> forall i :: 0 <= i < |sortValues| ==> check(entity, sortValues[i]).None?)
      && (out.error.Some? ==>
            exists i :: 0 <= i < |sortValues| && out.error == check(entity, sortValues[i])
              && forall j :: 0 <= j < i ==> check(entity, sortValues[j]).None?)
  {
    var out := ExecuteOn(prior, descValues, Some(sortValues), enabled, annotation, entity, check);
    var sorts := out.context.sorts;
    assert forall i :: 0 <= i < |sorts| ==> sorts[i].field == sortValues[i];
    assert CheckSearchFields(sorts, annotation).None?;
    assert out.error == CheckEntityFields(sorts, entity, check);
  }

  /** Nothing is raised exactly when every rule holds. */
  lemma ExecuteAcceptsExactly(prior: SortContext, descValues: Option<seq<string>>, sortValues: Option<seq<string>>,
                              enabled: bool, annotation: Option<CrudAnnotation>, entity: Option<ClassRef>, check: FieldCheck)
    ensures ExecuteOn(prior, descValues, sortValues, enabled, annotation, entity, check).error.None?
      <==> Accepts(descValues, sortValues, annotation, entity, check)
  {
    var out := ExecuteOn(prior, descValues, sortValues, enabled, annotation, entity, check);
    if sortValues.Some? && (descValues.Some? ==> DescConsistent(descValues.value, sortValues.value)) {
      var sorts := out.context.sorts;
      assert forall i :: 0 <= i < |sorts| ==> sorts[i].field == sortValues.value[i];
    }
  }

  /** Apart from the one case that leaves the context untouched, the outcome
      does not depend on the context `execute` starts from; so running it
      again on its own result gives the same outcome. */
  lemma ExecuteIgnoresPriorContext(p1: SortContext, p2: SortContext, query: QueryString.Query, globalSortEnabled: bool,
                                   resource: Resource, entity: Option<ClassRef>, check: FieldCheck)
    ensures var o1 := Execute(p1, query, globalSortEnabled, resource, entity, check);
      var o2 := Execute(p2, query, globalSortEnabled, resource, entity, check);
      o1.error == o2.error && (o1.context == o2.context || (o1.context == p1 && o2.context == p2))
  {
  }
}
