# Demoiselle CRUD query handling and security gates, in Dafny

This project models four sequential decision components of the Demoiselle
framework (a Java EE / JAX-RS framework) and proves properties about them:

- **`SortHelper`** (demoiselle-crud) turns the `sort` and `desc` query
  parameters into an ordered list of `(direction, field)` entries. It stores
  the list in the request context beside an independent `sortEnabled` flag.
  It rejects inconsistent queries, sorts on fields outside the resource
  method's `searchFields` allow-list, and sorts on fields the entity does not
  have.
- **`CrudFilter`** (demoiselle-crud) is the JAX-RS request and response
  filter. On a request it fills the request context, picks the result
  transformer, runs the filter, sort, pagination and field helpers in that
  order, and turns argument and instantiation exceptions into Bad Request. On
  a response it unwraps a `Result` envelope into its bare content list. It
  sets 200 or 206 and the exposed headers. On a rejected request whose entity
  class is not `Object`, it calls the pagination helper's accept-range hook.
- **`RequiredRoleInterceptor`** (demoiselle-security) lets a call through only
  for a logged-in user who holds at least one listed role. A role list on the
  method takes precedence over one on the class.
- **`TokenManagerImpl`** (demoiselle-security-token) is the in-memory
  key→user store behind token authentication, with the current request's
  token.

The JAX-RS, CDI and reflection collaborators become plain inputs. The
resource's annotations and classes become records and `Option`s. The entity
field check and the transformer instantiation become oracle functions that
return the exception they raise. The pagination helper becomes a record of
hook functions. A Java exception is a `Thrown(kind, message)` value. Its
kind names the class hierarchy it belongs to, and a Java `null` is `None`.

Files: `wrappers.dfy` (Option/Result), `text.dfy` (`equalsIgnoreCase`),
`seqs.dfy` (first-match search, concatenation, order-preserving filter),
`query_string.dfy` (query-parameter lookup), `crud_common.dfy` (class
handles, exception kinds, message keys), `sort_helper.dfy`,
`sort_examples.dfy` (worked queries), `crud_filter.dfy`, `required_role.dfy`,
`token_manager.dfy`.

### Behaviour of the code worth knowing

- Duplicate `sort` values are kept. `sort=a,a` gives two entries; nothing
  enforces one entry per field.
- `desc` without `sort` raises `IllegalArgumentException`. It leaves the sort
  context untouched. `CrudFilter` then turns it into a Bad Request.
- Empty `desc` values are skipped. If `desc` carries only empty strings, then
  it is not "desc-all" mode: every field is ascending. Desc-all needs `desc`
  to be present with no values at all.
- Only the first `searchFields` entry is tested for the wildcard. So
  `{"a", "*"}` is a restricting list. An empty `searchFields` array fails on
  `get(0)` with an index exception. `CrudFilter` does not catch it.
- The allow-list is read from the resource method's own annotation. The
  `enableSort` flag comes from `CrudUtilHelper.getDemoiselleCrudAnnotation`,
  which may resolve it differently. The model keeps them as two inputs.
- A later failure leaves the sort context partly written. Once the `desc`
  check has run, `sortEnabled` is set. Once the allow-list check runs, the
  sort list is set as well.
- The accept-range hook runs when the status is 400 and the context's
  entity class is not `Object`. An absent (null) entity class also passes
  that test.
- `getEntityClassFrom` is private and nothing in `CrudFilter` calls it.
  It is modelled on its own (`CrudFilter.EntityClassFrom`).

## Model

| member | source | states |
|---|---|---|
| `QueryString.ValuesOf` | demoiselle-crud/src/main/java/org/demoiselle/jee/crud/sort/SortHelper.java:174-186 | Absent exactly when no query key equals the name ignoring case; otherwise the concatenated split values of the first matching key |
| `QueryString.HasKey` | demoiselle-crud/src/main/java/org/demoiselle/jee/crud/sort/SortHelper.java:165-172 | True exactly when some query key equals the name ignoring case |
| `QueryString.HasKeyIffValuesPresent` | demoiselle-crud/src/main/java/org/demoiselle/jee/crud/sort/SortHelper.java:165-186 | The "request carries `sort`" test agrees with the `sort` lookup returning a list |
| `Text.EqualsIgnoreCaseIsFoldEquality` | demoiselle-crud/src/main/java/org/demoiselle/jee/crud/sort/SortHelper.java:177 | Case-insensitive key comparison is equality of lower-cased forms, hence an equivalence |
| `SortHelper.DescFields` | demoiselle-crud/src/main/java/org/demoiselle/jee/crud/sort/SortHelper.java:103-119 | Succeeds iff every non-empty `desc` value is a `sort` value, giving exactly the non-empty `desc` values; otherwise Bad Request naming the first offending value in `desc` order |
| `SortHelper.BuildSorts` | demoiselle-crud/src/main/java/org/demoiselle/jee/crud/sort/SortHelper.java:121-135 | One entry per `sort` value in the same order with that field; descending iff desc-all or the field is a listed `desc` field |
| `SortHelper.ParseSorts` | demoiselle-crud/src/main/java/org/demoiselle/jee/crud/sort/SortHelper.java:103-135 | Parsing succeeds iff `desc` is absent or consistent with `sort`; entry i is `sort[i]` with its expected direction (desc-all when `desc` has no values, else listed non-empty fields); the failure names the first stray `desc` value |
| `SortHelper.CheckSearchFields` | demoiselle-crud/src/main/java/org/demoiselle/jee/crud/sort/SortHelper.java:137-146 | No annotation or a leading `*` lets all through; an empty array is an index failure; otherwise passes iff every sorted field is listed, and any failure is the Bad Request naming the first unlisted field in sort order |
| `SortHelper.CheckEntityFields` | demoiselle-crud/src/main/java/org/demoiselle/jee/crud/sort/SortHelper.java:148-151 | Passes iff the field oracle accepts every sorted field; otherwise reports the oracle's failure for the first rejected field in sort order |
| `SortHelper.ExecuteOn` | demoiselle-crud/src/main/java/org/demoiselle/jee/crud/sort/SortHelper.java:91-153 | `desc` without `sort` fails with the argument exception and leaves the prior context; otherwise the flag is stored whatever the parse; with neither parameter the entries are emptied and only an empty allow-list array fails; once parsing succeeds, an empty allow-list array is the uncaught index failure; a stray `desc` value fails before entries are built; a consistent query yields one entry per `sort` value in order with its direction |
| `SortHelper.Execute` | demoiselle-crud/src/main/java/org/demoiselle/jee/crud/sort/SortHelper.java:94-163 | Except for `desc` without `sort`, `sortEnabled` is the global flag and the presence of a `sort` key and (abstract REST target or annotation `enableSort`), independent of the parsed list |
| `SortHelper.ExecuteRejectsFieldOutsideSearchFields` | demoiselle-crud/src/main/java/org/demoiselle/jee/crud/sort/SortHelper.java:138-145 | With a restricting allow-list, an unlisted sorted field makes `execute` fail with a Bad Request naming the first unlisted field at or before it |
| `SortHelper.ExecuteChecksEntityFieldsInOrder` | demoiselle-crud/src/main/java/org/demoiselle/jee/crud/sort/SortHelper.java:148-151 | With `desc` consistent and any allow-list that passes (none, a leading wildcard, or one listing every sorted field), `execute` succeeds iff the oracle accepts every `sort` value, else reports the failure of the first rejected one |
| `SortHelper.ExecuteAcceptsExactly` | demoiselle-crud/src/main/java/org/demoiselle/jee/crud/sort/SortHelper.java:94-151 | `execute` raises nothing iff the rules hold: `desc` implies `sort`, `desc` consistent, non-empty allow-list with wildcard or all fields listed, every field known to the entity |
| `SortHelper.ExecuteIgnoresPriorContext` | demoiselle-crud/src/main/java/org/demoiselle/jee/crud/sort/SortHelper.java:87-153 | The error does not depend on the starting context, and neither does the resulting context except in the `desc`-without-`sort` case, which leaves each starting context as it was |
| `SortExamples.SortWithoutDescIsAscending` | demoiselle-crud/src/main/java/org/demoiselle/jee/crud/sort/SortHelper.java:121-134 | `sort=a,b` gives `[ASC a, ASC b]` |
| `SortExamples.DescNamesOneField` | demoiselle-crud/src/main/java/org/demoiselle/jee/crud/sort/SortHelper.java:109-134 | `SORT=a&SORT=b&desc=b` gives `[ASC a, DESC b]` (keys match ignoring case, values concatenate) |
| `SortExamples.BareDescSortsAllDescending` | demoiselle-crud/src/main/java/org/demoiselle/jee/crud/sort/SortHelper.java:105-125 | `sort=a,b&desc`, whose single raw `desc` value splits to no field, gives `[DESC a, DESC b]` |
| `SortExamples.DescWithoutSortFails` | demoiselle-crud/src/main/java/org/demoiselle/jee/crud/sort/SortHelper.java:97-100 | `desc=a` alone fails with the argument exception and leaves the context as it was |
| `SortExamples.StrayDescIsRejected` | demoiselle-crud/src/main/java/org/demoiselle/jee/crud/sort/SortHelper.java:111-114 | `sort=a,b&desc=c` fails with a Bad Request naming `c` |
| `SortExamples.FieldOutsideSearchFieldsIsRejected` | demoiselle-crud/src/main/java/org/demoiselle/jee/crud/sort/SortHelper.java:138-145 | With `searchFields={"a"}`, `sort=a,b` fails with a Bad Request naming `b` |
| `CrudFilter.FilterRequest` | demoiselle-crud/src/main/java/org/demoiselle/jee/crud/CrudFilter.java:111-131 | Records the resource facts; identity transformer without the result annotation, else the declared class; a failed instantiation runs no helper; helpers run as a prefix of filter, sort, pagination, field, stopping at the first that raises, whose exception leaves after the catch mapping; sort context is the sort helper's iff it ran |
| `CrudFilter.DescWithoutSortIsBadRequest` | demoiselle-crud/src/main/java/org/demoiselle/jee/crud/CrudFilter.java:116-130 | `desc` without `sort` reaches the client as a Bad Request with the sort helper's message; pagination never runs and the sort context is untouched |
| `CrudFilter.UncaughtExceptionsPropagate` | demoiselle-crud/src/main/java/org/demoiselle/jee/crud/CrudFilter.java:127-130 | The catch keeps the message, turns each of the three caught classes into exactly a Bad Request with that message, and passes every other exception through unchanged |
| `CrudFilter.PutAllSingleKeys` | demoiselle-crud/src/main/java/org/demoiselle/jee/crud/CrudFilter.java:170 | Merging pagination headers yields the old keys plus the pagination keys |
| `CrudFilter.PutAllSingleKeepsOthers` | demoiselle-crud/src/main/java/org/demoiselle/jee/crud/CrudFilter.java:170 | A header the pagination map does not name keeps its values |
| `CrudFilter.PutAllSingleLastWins` | demoiselle-crud/src/main/java/org/demoiselle/jee/crud/CrudFilter.java:170 | Each pagination key ends with the single value of its last entry |
| `CrudFilter.PutAllSingleFacts` | demoiselle-crud/src/main/java/org/demoiselle/jee/crud/CrudFilter.java:167-171 | The three merge facts for all keys at once |
| `CrudFilter.FilterResponse` | demoiselle-crud/src/main/java/org/demoiselle/jee/crud/CrudFilter.java:138-189 | An envelope becomes its bare content list, status 206 iff partial content else 200, exposed-headers value unless pagination overrides it, pagination values win, other headers untouched, hook not called; any other entity is untouched except that the accept-range hook runs iff status 400 and entity class not `Object` |
| `CrudFilter.EntityClassFrom` | demoiselle-crud/src/main/java/org/demoiselle/jee/crud/CrudFilter.java:197-204 | Finds a class exactly when one of the three sources has one, and returns one of theirs; the result's own type wins, then the context's entity class, then the resource's |
| `RequiredRoleInterceptor.GetRoles` | demoiselle-security/src/main/java/org/demoiselle/jee/security/interceptor/RequiredRoleInterceptor.java:106-116 | The method annotation's roles when present; otherwise the class annotation's, absent when the class is not annotated |
| `RequiredRoleInterceptor.Manage` | demoiselle-security/src/main/java/org/demoiselle/jee/security/interceptor/RequiredRoleInterceptor.java:75-95 | Neither method nor class annotated: the null-pointer failure, before the login check; not logged in: 401 before any role is consulted; collected roles are exactly the held ones in annotation order, repeats included; proceeds iff logged in and some listed role is held, returning exactly `proceed()`'s result; otherwise 401 naming the list, so an empty list always rejects |
| `TokenManager.GetUser` | demoiselle-security-token/src/main/java/org/demoiselle/jee/security/token/impl/TokenManagerImpl.java:40-45 | A user exactly when the key is non-null, non-empty and stored, and then the user stored under that key |
| `TokenManager.Validate` | demoiselle-security-token/src/main/java/org/demoiselle/jee/security/token/impl/TokenManagerImpl.java:76-78 | Holds exactly when the current key is non-null, non-empty and stored |
| `TokenManager.SetUser` | demoiselle-security-token/src/main/java/org/demoiselle/jee/security/token/impl/TokenManagerImpl.java:54-68 | Type becomes `"Token"`; a stored identity (ignoring case) reuses a matching key and leaves the map alone; a new identity is put under the fresh key (if free) and the token points at it; with non-empty keys `validate()` holds afterwards; identities stay unique |
| `TokenManager.RemoveToken` | demoiselle-security-token/src/main/java/org/demoiselle/jee/security/token/impl/TokenManagerImpl.java:83-86 | Fails iff the key is null; otherwise removes only that key's entry, clears the key, and `validate()` no longer holds |
| `TokenManager.RemoveUser` | demoiselle-security-token/src/main/java/org/demoiselle/jee/security/token/impl/TokenManagerImpl.java:94-99 | Removes one matching identity's entry if any, otherwise behaves as `removeToken` on the current key; on success only the key changes, to null; with unique identities the user is gone |

## Left out

- Reflection helpers in `CrudUtilHelper` are replaced by inputs, because
  their source is not part of this model: `getEntityClass`, `getResultClass`,
  `getAbstractRestTargetClass`, `getDemoiselleCrudAnnotation`,
  `getDemoiselleResultAnnotation`, `checkIfExistField` and `getPropertyGetter`.
  `checkIfExistField` becomes an oracle that returns the exception it raises.
- `CrudUtilHelper.extractFields` is not part of this model. Query values
  arrive already split, one sequence per raw value. A bare `desc` is one raw
  value `""`, and `extractFields("")` is assumed to yield no fields. This is
  the desc-all case of `SortExamples.BareDescSortsAllDescending`.
- `CrudFilter.getValueFromObjectField` is left out. It is an unused
  reflective getter call.
- `SortHelper.execute` falls back to its stored `resourceInfo`/`uriInfo`
  when given null (lines 88-89). This is injection plumbing and is not
  modelled.
- `FilterHelper`, `PaginationHelper` and `FieldHelper` are not part of this
  model. Their internals are out of scope.
- CrudFilter.FilterRequest: the filter, pagination and field helpers appear
  only through the exception their `execute` raises. Their writes to the
  request context are not modelled.
- The pagination hooks (`isPartialContentResponse`, `buildHeaders`,
  `buildAcceptRangeWithResponse`) are uninterpreted function inputs.
- `Class.newInstance` of the transformer is an oracle returning its
  exception. A successful instance is represented by its class.
- Message-bundle texts are represented by their keys and arguments.
  `printStackTrace` and logging are not modelled.
- CrudFilter.UncaughtExceptionsPropagate: exception kinds classify as
  `instanceof` does. A subclass such as `NumberFormatException` carries the
  kind `IllegalArgument`, and `OtherException` names only a class outside
  the three caught hierarchies. The model does not represent the Java class
  tree itself.
- Text.EqualsIgnoreCaseIsFoldEquality: only the ASCII case mapping is
  modelled. Java's full Unicode `toUpperCase`/`toLowerCase` is not. The
  same narrowing applies to `QueryString.ValuesOf`, `QueryString.HasKey`,
  `TokenManager.SetUser` and `TokenManager.RemoveUser`, whose "ignoring
  case" is ASCII-only. For example, Java treats `JOÃO` and `joão` as one
  identity, while the model stores them under two keys.
- `ReservedHTTPHeaders` is not part of this model. The header names
  `Accept-Range`, `Content-Range` and `Access-Control-Expose-Headers` are
  taken as its values, and `Link` is JAX-RS's `HttpHeaders.LINK`. Response
  header keys are compared exactly.
- TokenManager.SetUser: the store is modelled sequentially. The
  `ConcurrentHashMap`, the parallel stream and the race between the scan and
  the insert are not modelled. Under concurrency two logins with one
  identity can create two keys, which the sequential uniqueness result does
  not cover. Among several matching entries, the key picked is any matching
  key.
- TokenManager.SetUser: `randomUUID()` is the `uuid` parameter. `clone()` is
  a value copy. A null user or a null identity (a null pointer in Java) is
  not modelled.
- TokenManager.RemoveUser: a null user, or a null identity in the argument
  or in a stored user, is not modelled. Java dereferences both when it
  compares identities and fails with a null pointer.
- RequiredRoleInterceptor.Manage: `proceed()` is the value it returns.
  Exceptions thrown by the intercepted method itself are not modelled.
  `SecurityContext.hasRole` is a function input.

## Findings

None.
