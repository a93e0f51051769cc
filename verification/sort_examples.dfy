/** Worked `sort`/`desc` queries, evaluated through `SortHelper.Execute`
    from the query map onwards. */
module SortExamples {
  import opened Wrappers
  import opened CrudCommon
  import opened SortHelper
  import QueryString
  import Seqs
  import Text

  const Start: SortContext := SortContext(false, [])
  const Open: Resource := Resource(true, None, None)
  const Entity: Option<ClassRef> := Some(ClassRef("User"))

  /** Every field exists. */
  function AnyField(entity: Option<ClassRef>, field: string): Option<Thrown> {
    None
  }

  lemma ReservedKeysMatch()
    ensures Text.EqualsIgnoreCase(SortKey, "sort") && Text.EqualsIgnoreCase(SortKey, "SORT")
    ensures Text.EqualsIgnoreCase(DescKey, "desc")
    ensures !Text.EqualsIgnoreCase(SortKey, "desc") && !Text.EqualsIgnoreCase(DescKey, "sort")
    ensures !Text.EqualsIgnoreCase(DescKey, "SORT")
  {
    assert !Text.CharEqualsIgnoreCase(SortKey[0], "desc"[0]);
    assert !Text.CharEqualsIgnoreCase(DescKey[0], "sort"[0]);
    assert !Text.CharEqualsIgnoreCase(DescKey[0], "SORT"[0]);
    assert forall i :: 0 <= i < 4 ==> Text.CharEqualsIgnoreCase(SortKey[i], "SORT"[i]);
  }

  lemma LookupFirst(query: QueryString.Query, key: string)
    requires |query| > 0 && Text.EqualsIgnoreCase(key, query[0].key)
    ensures QueryString.ValuesOf(query, key) == Some(Seqs.Flatten(query[0].values))
  {
  }

  lemma LookupSkip(query: QueryString.Query, key: string)
    requires |query| > 0 && !Text.EqualsIgnoreCase(key, query[0].key)
    ensures QueryString.ValuesOf(query, key) == QueryString.ValuesOf(query[1..], key)
  {
  }

  lemma FlattenSingle(s: seq<string>)
    ensures Seqs.Flatten([s]) == s
  {
    assert [s][1..] == [];
  }

  lemma FlattenPair(s: seq<string>, t: seq<string>)
    ensures Seqs.Flatten([s, t]) == s + t
  {
    assert [s, t][1..] == [t];
    FlattenSingle(t);
  }

  /** The outcome of a query with the given `desc` and `sort` lookups on an
      open resource whose fields all exist. */
  lemma OpenOutcome(query: QueryString.Query, descValues: Option<seq<string>>, sortValues: seq<string>)
    ensures && QueryString.ValuesOf(query, DescKey) == descValues
            && QueryString.ValuesOf(query, SortKey) == Some(sortValues)
            && (descValues.Some? ==> DescConsistent(descValues.value, sortValues))
            ==> (Execute(Start, query, true, Open, Entity, AnyField)
                 == SortOutcome(SortContext(true, seq(|sortValues|, i requires 0 <= i < |sortValues| =>
                                                        SortModel(ExpectedDirection(descValues, sortValues[i]), sortValues[i]))), None))
  {
    if && QueryString.ValuesOf(query, DescKey) == descValues
       && QueryString.ValuesOf(query, SortKey) == Some(sortValues)
       && (descValues.Some? ==> DescConsistent(descValues.value, sortValues))
    {
      QueryString.HasKeyIffValuesPresent(query, SortKey);
      assert IsSortEnabled(true, query, Open);
      ExecuteChecksEntityFieldsInOrder(Start, descValues, sortValues, true, None, Entity, AnyField);
      var out := ExecuteOn(Start, descValues, Some(sortValues), true, None, Entity, AnyField);
      assert out == Execute(Start, query, true, Open, Entity, AnyField);
      assert out.error == None;
    }
  }

  lemma SortWithoutDescIsAscending()
    ensures Execute(Start, [QueryString.Param("sort", [["a", "b"]])], true, Open, Entity, AnyField)
         == SortOutcome(SortContext(true, [SortModel(Asc, "a"), SortModel(Asc, "b")]), None)
  {
    ReservedKeysMatch();
    var q := [QueryString.Param("sort", [["a", "b"]])];
    LookupFirst(q, SortKey);
    FlattenSingle(["a", "b"]);
    LookupSkip(q, DescKey);
    OpenOutcome(q, None, ["a", "b"]);
  }

  lemma DescNamesOneField()
    ensures Execute(Start, [QueryString.Param("SORT", [["a"], ["b"]]), QueryString.Param("desc", [["b"]])], true, Open, Entity, AnyField)
         == SortOutcome(SortContext(true, [SortModel(Asc, "a"), SortModel(Desc, "b")]), None)
  {
    ReservedKeysMatch();
    var q := [QueryString.Param("SORT", [["a"], ["b"]]), QueryString.Param("desc", [["b"]])];
    LookupFirst(q, SortKey);
    FlattenPair(["a"], ["b"]);
    assert ["a"] + ["b"] == ["a", "b"];
    LookupSkip(q, DescKey);
    LookupFirst(q[1..], DescKey);
    FlattenSingle(["b"]);
    OpenOutcome(q, Some(["b"]), ["a", "b"]);
  }

  /** A bare `desc` arrives as one raw value that splits to no field. */
  lemma BareDescSortsAllDescending()
    ensures Execute(Start, [QueryString.Param("sort", [["a", "b"]]), QueryString.Param("desc", [[]])], true, Open, Entity, AnyField)
         == SortOutcome(SortContext(true, [SortModel(Desc, "a"), SortModel(Desc, "b")]), None)
  {
    ReservedKeysMatch();
    var q := [QueryString.Param("sort", [["a", "b"]]), QueryString.Param("desc", [[]])];
    LookupFirst(q, SortKey);
    FlattenSingle(["a", "b"]);
    LookupSkip(q, DescKey);
    LookupFirst(q[1..], DescKey);
    FlattenSingle([]);
    OpenOutcome(q, Some([]), ["a", "b"]);
  }

  lemma DescWithoutSortFails()
    ensures Execute(Start, [QueryString.Param("desc", [["a"]])], true, Open, Entity, AnyField)
         == SortOutcome(Start, Some(Thrown(IllegalArgument, DescParameterWithoutSortParameter)))
  {
    ReservedKeysMatch();
    var q := [QueryString.Param("desc", [["a"]])];
    LookupFirst(q, DescKey);
    LookupSkip(q, SortKey);
  }

  lemma StrayDescIsRejected()
    ensures Execute(Start, [QueryString.Param("sort", [["a", "b"]]), QueryString.Param("desc", [["c"]])], true, Open, Entity, AnyField).error
         == Some(Thrown(BadRequest, FieldRequestDoesNotExistsOnSearchField("c")))
  {
    ReservedKeysMatch();
    var q := [QueryString.Param("sort", [["a", "b"]]), QueryString.Param("desc", [["c"]])];
    LookupFirst(q, SortKey);
    FlattenSingle(["a", "b"]);
    LookupSkip(q, DescKey);
    LookupFirst(q[1..], DescKey);
    FlattenSingle(["c"]);
    assert !DescConsistent(["c"], ["a", "b"]) by {
      assert ["c"][0] !in ["a", "b"];
    }
  }

  lemma FieldOutsideSearchFieldsIsRejected()
    ensures Execute(Start, [QueryString.Param("sort", [["a", "b"]])], true,
                    Resource(true, None, Some(CrudAnnotation(["a"], true))), Entity, AnyField).error
         == Some(Thrown(BadRequest, FieldRequestDoesNotExistsOnSearchField("b")))
  {
    ReservedKeysMatch();
    var q := [QueryString.Param("sort", [["a", "b"]])];
    LookupFirst(q, SortKey);
    FlattenSingle(["a", "b"]);
    LookupSkip(q, DescKey);
    ExecuteRejectsFieldOutsideSearchFields(Start, None, ["a", "b"], true, CrudAnnotation(["a"], true), Entity, AnyField, 1);
  }
}
