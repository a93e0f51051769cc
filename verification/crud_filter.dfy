/** The CRUD request/response filter (`CrudFilter`).

    On the way in it fills the request context: the result transformer, then
    the filter, sort, pagination and field helpers in that order, turning the
    argument and instantiation exceptions they raise into Bad Request. On the
    way out it unwraps a `Result` envelope into its bare content list, sets
    200 or 206 and the exposed headers, and on a rejected request for a known
    entity lets the pagination helper advertise the accepted range. */
module CrudFilter {
  import opened Wrappers
  import opened CrudCommon
  import SortHelper
  import QueryString

  const StatusOk: int := 200
  const StatusPartialContent: int := 206
  const StatusBadRequest: int := 400

  /** `ReservedHTTPHeaders` and `HttpHeaders.LINK`. */
  const AcceptRangeHeader: string := "Accept-Range"
  const ContentRangeHeader: string := "Content-Range"
  const ExposeHeadersHeader: string := "Access-Control-Expose-Headers"
  const LinkHeader: string := "Link"

  /** The value first given to `Access-Control-Expose-Headers`. */
  const ExposedHeaders: string := AcceptRangeHeader + ", " + ContentRangeHeader + ", " + LinkHeader

  // ---------------------------------------------------------------- request

  /** The `@DemoiselleResult` annotation: the transformer class it declares. */
  datatype ResultAnnotation = ResultAnnotation(resultTransformer: ClassRef)

  /** The result transformer stored in the request context. */
  datatype Transformer = Identity | Instance(transformerClass: ClassRef)

  /** What the filter learns from the matched resource. */
  datatype ResourceInfo = ResourceInfo(
    endpoint: SortHelper.Resource,
    resultAnnotation: Option<ResultAnnotation>,
    /** `CrudUtilHelper.getEntityClass` */
    entityClass: Option<ClassRef>,
    /** `CrudUtilHelper.getResultClass` */
    resultClass: Option<ClassRef>)

  /** The request-scoped `DemoiselleRequestContext`, as far as this filter
      and the sort helper write it. */
  datatype RequestContext = RequestContext(
    abstractRestRequest: bool,
    resultAnnotation: Option<ResultAnnotation>,
    entityClass: Option<ClassRef>,
    resultClass: Option<ClassRef>,
    resultTransformer: Transformer,
    sortContext: SortHelper.SortContext)

  /** The collaborators whose internals are not modelled, reduced to what
      they raise: `newInstance` gives the exception instantiating a
      transformer class raises, if any; the three helpers are represented by
      the exception their `execute` raises, if any. */
  datatype Collaborators = Collaborators(
    newInstance: ClassRef -> Option<Thrown>,
    filterHelper: Option<Thrown>,
    paginationHelper: Option<Thrown>,
    fieldHelper: Option<Thrown>,
    globalSortEnabled: bool,
    fieldCheck: SortHelper.FieldCheck)

  datatype Step = FilterStep | SortStep | PaginationStep | FieldStep

  /** The order the helpers run in. */
  const HelperOrder: seq<Step> := [FilterStep, SortStep, PaginationStep, FieldStep]

  /** The context after the request filter, the helpers that ran, and the
      exception that left the filter, if any. */
  datatype RequestOutcome = RequestOutcome(context: RequestContext, ran: seq<Step>, error: Option<Thrown>)

  /** The `catch` clause: an exception of the three caught classes (or of a
      subclass, which carries the same kind) becomes a Bad Request with the
      same message; anything else passes through. */
  function Caught(e: Thrown): Thrown {
    if e.kind == IllegalArgument || e.kind == Instantiation || e.kind == IllegalAccess
    then Thrown(BadRequest, e.message)
    else e
  }

  /** The exception a step raises. */
  function StepFailure(step: Step, c: Collaborators, sort: SortHelper.SortOutcome): Option<Thrown> {
    match step
    case FilterStep => c.filterHelper
    case SortStep => sort.error
    case PaginationStep => c.paginationHelper
    case FieldStep => c.fieldHelper
  }

  /** The sort helper's run within the request filter, on the context as the
      filter has just filled it. */
  function SortRun(prior: RequestContext, resource: ResourceInfo, query: QueryString.Query, c: Collaborators): SortHelper.SortOutcome {
    SortHelper.Execute(prior.sortContext, query, c.globalSortEnabled, resource.endpoint, resource.entityClass, c.fieldCheck)
  }

  /** The transformer the annotation asks for, or the instantiation failure. */
  function TransformerFor(annotation: Option<ResultAnnotation>, c: Collaborators): Result<Transformer, Thrown> {
    match annotation
    case None => Success(Identity)
    case Some(a) =>
      match c.newInstance(a.resultTransformer)
      case Some(e) => Result.Failure(e)
      case None => Success(Instance(a.resultTransformer))
  }

  /** `filter(ContainerRequestContext)`. */
  function FilterRequest(prior: RequestContext, resource: ResourceInfo, query: QueryString.Query, c: Collaborators): (out: RequestOutcome)
    // the resource facts are recorded before anything can fail
    ensures out.context.abstractRestRequest == resource.endpoint.abstractRestTarget
    ensures out.context.resultAnnotation == resource.resultAnnotation
    ensures out.context.entityClass == resource.entityClass
    ensures out.context.resultClass == resource.resultClass
    // the transformer: identity without the annotation, else the declared class
    ensures resource.resultAnnotation.None? ==> out.context.resultTransformer == Identity
    ensures resource.resultAnnotation.Some? && out.ran != [] ==>
      out.context.resultTransformer == Instance(resource.resultAnnotation.value.resultTransformer)
    // a failed instantiation runs no helper and reports a Bad Request
    ensures out.ran == [] <==> TransformerFor(resource.resultAnnotation, c).Failure?
    ensures out.ran == [] ==>
      && out.context.resultTransformer == prior.resultTransformer
      && out.error == Some(Caught(TransformerFor(resource.resultAnnotation, c).error))
    // the helpers run in the fixed order, stopping at the first that raises
    ensures out.ran <= HelperOrder
    ensures out.error.None? <==> out.ran == HelperOrder && StepFailure(FieldStep, c, SortRun(prior, resource, query, c)).None?
    ensures out.ran != [] ==>
      && (forall j :: 0 <= j < |out.ran| - 1 ==> StepFailure(out.ran[j], c, SortRun(prior, resource, query, c)).None?)
      && (out.error.Some? ==>
            && StepFailure(out.ran[|out.ran| - 1], c, SortRun(prior, resource, query, c)).Some?
            && out.error == Some(Caught(StepFailure(out.ran[|out.ran| - 1], c, SortRun(prior, resource, query, c)).value)))
    // the sort context is the sort helper's when it ran, untouched otherwise
    ensures out.context.sortContext ==
      if SortStep in out.ran then SortRun(prior, resource, query, c).context else prior.sortContext
  {
    var filled := prior.(abstractRestRequest := resource.endpoint.abstractRestTarget,
                         resultAnnotation := resource.resultAnnotation,
                         entityClass := resource.entityClass,
                         resultClass := resource.resultClass);
    match TransformerFor(resource.resultAnnotation, c)
    case Failure(e) => RequestOutcome(filled, [], Some(Caught(e)))
    case Success(transformer) =>
      var ctx := filled.(resultTransformer := transformer);
      if c.filterHelper.Some? then
        RequestOutcome(ctx, [FilterStep], Some(Caught(c.filterHelper.value)))
      else
        var sort := SortHelper.Execute(ctx.sortContext, query, c.globalSortEnabled, resource.endpoint,
                                       ctx.entityClass, c.fieldCheck);
        var sorted := ctx.(sortContext := sort.context);
        if sort.error.Some? then
          RequestOutcome(sorted, [FilterStep, SortStep], Some(Caught(sort.error.value)))
        else if c.paginationHelper.Some? then
          RequestOutcome(sorted, [FilterStep, SortStep, PaginationStep], Some(Caught(c.paginationHelper.value)))
        else if c.fieldHelper.Some? then
          RequestOutcome(sorted, HelperOrder, Some(Caught(c.fieldHelper.value)))
        else
          RequestOutcome(sorted, HelperOrder, None)
  }

  /** A `desc` parameter without `sort` reaches the client as a Bad Request
      carrying the sort helper's message, and pagination never runs. */
  lemma DescWithoutSortIsBadRequest(prior: RequestContext, resource: ResourceInfo, query: QueryString.Query, c: Collaborators)
    requires TransformerFor(resource.resultAnnotation, c).Success?
    requires c.filterHelper.None?
    requires QueryString.ValuesOf(query, SortHelper.DescKey).Some?
    requires QueryString.ValuesOf(query, SortHelper.SortKey).None?
    ensures var out := FilterRequest(prior, resource, query, c);
      && out.error == Some(Thrown(BadRequest, DescParameterWithoutSortParameter))
      && out.ran == [FilterStep, SortStep]
      && out.context.sortContext == prior.sortContext
  {
  }

  /** Exceptions other than the three caught classes leave the filter
      unchanged: a Bad Request from the sort helper keeps its message, and an
      index failure on an empty allow-list is not turned into a Bad Request. */
  lemma UncaughtExceptionsPropagate(e: Thrown)
    ensures e.kind !in {IllegalArgument, Instantiation, IllegalAccess} ==> Caught(e) == e
    ensures e.kind in {IllegalArgument, Instantiation, IllegalAccess} ==> Caught(e) == Thrown(BadRequest, e.message)
    ensures Caught(e).message == e.message
    ensures Caught(e).kind != IllegalArgument && Caught(e).kind != Instantiation && Caught(e).kind != IllegalAccess
  {
  }

  // --------------------------------------------------------------- response

  /** An entity of the response body, opaque to the filter. */
  datatype Payload = Payload(json: string)

  /** The `Result` envelope a list endpoint returns. */
  datatype CrudResult = CrudResult(content: seq<Payload>, resultType: Option<ClassRef>, count: int)

  /** The response entity: an envelope, a bare list, any other object, or none. */
  datatype Entity = Envelope(result: CrudResult) | Items(items: seq<Payload>) | Plain(payload: Payload) | NoEntity

  /** A response: status, multi-valued headers and entity. */
  datatype Response = Response(status: int, headers: map<string, seq<string>>, entity: Entity)

  /** The pagination helper's hooks the response side calls. */
  datatype PaginationHooks = PaginationHooks(
    isPartialContentResponse: CrudResult -> bool,
    /** the header map `buildHeaders` returns, in iteration order */
    buildHeaders: CrudResult -> seq<(string, string)>,
    buildAcceptRangeWithResponse: Response -> Response)

  /** The response after the filter, and whether the accept-range hook ran. */
  datatype ResponseOutcome = ResponseOutcome(response: Response, acceptRangeBuilt: bool)

  /** The keys a sequence of header entries names. */
  function EntryKeys(entries: seq<(string, string)>): (keys: set<string>)
    ensures forall k :: k in keys <==> exists i :: 0 <= i < |entries| && entries[i].0 == k
  {
    if |entries| == 0 then {}
    else
      var init := entries[..|entries| - 1];
      assert forall i :: 0 <= i < |init| ==> init[i] == entries[i];
      EntryKeys(init) + {entries[|entries| - 1].0}
  }

  /** No entry after position `i` has the key of entry `i`. */
  predicate LastWithKey(entries: seq<(string, string)>, i: int) {
    0 <= i < |entries| && forall j :: i < j < |entries| ==> entries[j].0 != entries[i].0
  }

  /** `putSingle` of every entry in order. */
  function PutAllSingle(headers: map<string, seq<string>>, entries: seq<(string, string)>): map<string, seq<string>> {
    if |entries| == 0 then headers
    else
      var last := entries[|entries| - 1];
      PutAllSingle(headers, entries[..|entries| - 1])[last.0 := [last.1]]
  }

  /** The keys after merging are the old ones and the entries' ones. */
  lemma {:induction false} PutAllSingleKeys(headers: map<string, seq<string>>, entries: seq<(string, string)>)
    ensures PutAllSingle(headers, entries).Keys == headers.Keys + EntryKeys(entries)
  {
    if |entries| > 0 {
      var init := entries[..|entries| - 1];
      PutAllSingleKeys(headers, init);
      assert EntryKeys(entries) == EntryKeys(init) + {entries[|entries| - 1].0};
    }
  }

  /** A key no entry names keeps its old values. */
  lemma {:induction false} PutAllSingleKeepsOthers(headers: map<string, seq<string>>, entries: seq<(string, string)>, k: string)
    requires k in headers && k !in EntryKeys(entries)
    ensures k in PutAllSingle(headers, entries) && PutAllSingle(headers, entries)[k] == headers[k]
  {
    if |entries| > 0 {
      var init := entries[..|entries| - 1];
      assert EntryKeys(entries) == EntryKeys(init) + {entries[|entries| - 1].0};
      PutAllSingleKeepsOthers(headers, init, k);
    }
  }

  /** The last entry with a key gives that key its single value. */
  lemma {:induction false} PutAllSingleLastWins(headers: map<string, seq<string>>, entries: seq<(string, string)>, i: nat)
    requires LastWithKey(entries, i)
    ensures entries[i].0 in PutAllSingle(headers, entries)
    ensures PutAllSingle(headers, entries)[entries[i].0] == [entries[i].1]
  {
    var init := entries[..|entries| - 1];
    if i < |init| {
      assert init[i] == entries[i];
      assert LastWithKey(init, i);
      PutAllSingleLastWins(headers, init, i);
    }
  }

  /** The three facts about a merge, for every key at once. */
  lemma PutAllSingleFacts(headers: map<string, seq<string>>, entries: seq<(string, string)>)
    ensures PutAllSingle(headers, entries).Keys == headers.Keys + EntryKeys(entries)
    ensures forall k :: k in headers && k !in EntryKeys(entries) ==> PutAllSingle(headers, entries)[k] == headers[k]
    ensures forall i :: LastWithKey(entries, i) ==> PutAllSingle(headers, entries)[entries[i].0] == [entries[i].1]
  {
    PutAllSingleKeys(headers, entries);
    forall k | k in headers && k !in EntryKeys(entries)
      ensures PutAllSingle(headers, entries)[k] == headers[k]
    {
      PutAllSingleKeepsOthers(headers, entries, k);
    }
    forall i | LastWithKey(entries, i)
      ensures PutAllSingle(headers, entries)[entries[i].0] == [entries[i].1]
    {
      PutAllSingleLastWins(headers, entries, i);
    }
  }

  /** `buildHeaders`: the exposed-headers value first, then the pagination
      headers, which win on a clash. */
  function BuildHeaders(headers: map<string, seq<string>>, result: CrudResult, hooks: PaginationHooks): map<string, seq<string>> {
    PutAllSingle(headers[ExposeHeadersHeader := [ExposedHeaders]], hooks.buildHeaders(result))
  }

  /** `filter(req, response)`: `entityClass` is the one the request context holds. */
  function FilterResponse(entityClass: Option<ClassRef>, response: Response, hooks: PaginationHooks): (out: ResponseOutcome)
    // an envelope is replaced by its bare content, with 206 exactly for partial content
    ensures response.entity.Envelope? ==>
      && out.response.entity == Items(response.entity.result.content)
      && out.response.status == (if hooks.isPartialContentResponse(response.entity.result) then StatusPartialContent else StatusOk)
      && !out.acceptRangeBuilt
    // the headers: exposed-headers value unless pagination overrides it, pagination values, the rest untouched
    ensures response.entity.Envelope? ==>
      var entries := hooks.buildHeaders(response.entity.result);
      && out.response.headers.Keys == response.headers.Keys + {ExposeHeadersHeader} + EntryKeys(entries)
      && (ExposeHeadersHeader !in EntryKeys(entries) ==> out.response.headers[ExposeHeadersHeader] == [ExposedHeaders])
      && (forall i :: LastWithKey(entries, i) ==> out.response.headers[entries[i].0] == [entries[i].1])
      && (forall k :: k in response.headers && k != ExposeHeadersHeader && k !in EntryKeys(entries) ==>
            out.response.headers[k] == response.headers[k])
    // anything else is left as it is, except that a Bad Request for an entity class other than Object is passed to the accept-range hook
    ensures !response.entity.Envelope? ==>
      && (out.acceptRangeBuilt <==> response.status == StatusBadRequest && entityClass != Some(ObjectClass))
      && out.response == (if out.acceptRangeBuilt then hooks.buildAcceptRangeWithResponse(response) else response)
  {
    match response.entity
    case Envelope(result) =>
      PutAllSingleFacts(response.headers[ExposeHeadersHeader := [ExposedHeaders]], hooks.buildHeaders(result));
      var headers := BuildHeaders(response.headers, result, hooks);
      var status := if !hooks.isPartialContentResponse(result) then StatusOk else StatusPartialContent;
      ResponseOutcome(Response(status, headers, Items(result.content)), false)
    case _ =>
      if response.status == StatusBadRequest && entityClass != Some(ObjectClass) then
        ResponseOutcome(hooks.buildAcceptRangeWithResponse(response), true)
      else
        ResponseOutcome(response, false)
  }

  /** `getEntityClassFrom`: the result's own type, else the request
      context's entity class, else the resource's. */
  function EntityClassFrom(result: CrudResult, contextEntityClass: Option<ClassRef>, resourceEntityClass: Option<ClassRef>): (r: Option<ClassRef>)
    // a class is found exactly when one of the three sources knows it, and it is one of theirs
    ensures r.Some? <==> result.resultType.Some? || contextEntityClass.Some? || resourceEntityClass.Some?
    ensures r == result.resultType || r == contextEntityClass || r == resourceEntityClass
    // precedence: the result's own type wins, and the context wins over the resource
    ensures result.resultType.Some? ==> r == result.resultType
    ensures result.resultType.None? && contextEntityClass.Some? ==> r == contextEntityClass
    ensures result.resultType.None? && contextEntityClass.None? ==> r == resourceEntityClass
  {
    if result.resultType.Some? then result.resultType
    else if contextEntityClass.Some? then contextEntityClass
    else resourceEntityClass
  }
}
