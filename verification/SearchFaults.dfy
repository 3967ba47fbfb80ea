/** Which searches are refused, and why. */
module SearchFaults {
  import opened Json
  import opened Decorators
  import opened QueryDecoder
  import opened QueryMeaning
  import opened QueryTheorems

  /** The fault of a criterion that does not compile: a null value, too few or too many values, or a type that
      is not one of the seven. */
  lemma CriterionFault(c: Criterion)
    requires !Compiles(c)
    ensures CriterionModel(c) == Err(
              match if c.searchType.Some? then c.searchType.value else "term"
              case "term" => NullValue
              case "betweenRange" => if |c.values| == 2 then NullValue else ExpectedTwoValues
              case "betweenTemporal" => if |c.values| == 2 then NullValue else ExpectedTwoValues
              case "beforeRange" => if c.values == [] then MissingValue else NullValue
              case "beforeTemporal" => if c.values == [] then MissingValue else NullValue
              case "afterRange" => if c.values == [] then MissingValue else NullValue
              case "afterTemporal" => if c.values == [] then MissingValue else NullValue
              case _ => UnsupportedSearchType)
  {
    NullStopsTerm(c.field, c.values);
  }

  lemma {:induction false} NullStopsTerm(field: string, values: seq<Scalar>)
    ensures TermLeaves(field, values).Err? ==> TermLeaves(field, values) == Err(NullValue)
    ensures TermLeaves(field, values).Err? <==> VNull in values
    decreases |values|
  {
    if values == [] {
    } else {
      NullStopsTerm(field, values[..|values| - 1]);
      InitAndLast(values);
    }
  }

  /** The first criterion that does not compile. */
  ghost predicate IsFirstBad(cs: seq<Criterion>, i: int) {
    0 <= i < |cs| && !Compiles(cs[i]) && forall j :: 0 <= j < i ==> Compiles(cs[j])
  }

  lemma LastBadDecides(cs: seq<Criterion>)
    requires IsFirstBad(cs, |cs| - 1) && CriterionModel(cs[|cs| - 1]).Err?
    ensures CriterionModels(cs) == Err(CriterionModel(cs[|cs| - 1]).error)
  {
    var init := cs[..|cs| - 1];
    forall c | c in init
      ensures Compiles(c)
    {
      var j :| 0 <= j < |init| && init[j] == c;
      assert cs[j] == c;
    }
    CriterionModelsMeaning(init, map[], ANY_ENGINE);
  }

  lemma FirstBadDecides(cs: seq<Criterion>, i: int)
    requires IsFirstBad(cs, i) && CriterionModel(cs[i]).Err?
    ensures CriterionModels(cs) == Err(CriterionModel(cs[i]).error)
  {
    LastBadDecides(cs[..i + 1]);
    FirstErrorStops(cs, i + 1);
  }

  /** The fault of the criteria block. */
  lemma CriteriaFault(r: CriteriaRequest, i: int)
    ensures r.searchCriteria == Some([]) ==> CriteriaClauses(r) == Err(EmptyCriteria)
    ensures r.searchCriteria.Some? && IsFirstBad(r.searchCriteria.value, i) ==>
              var bad := CriterionModel(r.searchCriteria.value[i]);
              bad.Err? && CriteriaClauses(r) == Err(bad.error)
  {
    if r.searchCriteria.Some? && IsFirstBad(r.searchCriteria.value, i) {
      CriterionFault(r.searchCriteria.value[i]);
      FirstBadDecides(r.searchCriteria.value, i);
    }
  }

  /** The fault of a refused search: that of its criteria, else that of its text, else that of its response
      filter; a missing part is a missing request, and a search type that names no part is invalid. */
  lemma SearchFault(r: SearchRequest)
    requires !IsParentLookup(r) && !Accepted(r)
    ensures Names(r, SEARCH_CRITERIA) && r.criteria.Some? && !CriteriaAccepted(r.criteria) ==>
              CriteriaClauses(r.criteria.value).Err? && Decode(r) == Err(CriteriaClauses(r.criteria.value).error)
    ensures !(Names(r, SEARCH_CRITERIA) && r.criteria.Some? && !CriteriaAccepted(r.criteria)) ==>
            Decode(r) ==
            if Names(r, SEARCH_CRITERIA) && r.criteria.None? then Err(MissingRequest)
            else if Names(r, TEXT_SEARCH) && !TextAccepted(r.text) then
              Err(if r.text.None? then MissingRequest else BadText)
            else if Names(r, RESPONSE_FILTER) && !ResponseFilterAccepted(r.responseFilter) then
              Err(if r.responseFilter.None? then MissingRequest
                  else if r.responseFilter.value.search != Some(false) then FilteringNotAllowed
                  else MissingFilter)
            else Err(InvalidSearch)
  {
    AsksExactly(r);
    AskedBlocks(r, map[], ANY_ENGINE);
    if r.responseFilter.Some? && r.responseFilter.value.searchType.Some? {
      ContainsExactly(r.responseFilter.value.searchType.value, RESPONSE_FILTER);
    }
  }

  /** A listing without criteria is a missing request; otherwise it fails with the fault of its criteria. */
  lemma ListingFault(r: SearchRequest)
    ensures r.criteria.None? ==> DecodeListing(r) == Err(MissingRequest)
    ensures r.criteria.Some? && !CriteriaAccepted(r.criteria) ==>
              CriteriaClauses(r.criteria.value).Err? && DecodeListing(r) == Err(CriteriaClauses(r.criteria.value).error)
  {
    if r.criteria.Some? {
      CriteriaBlockMeaning(r.criteria.value, map[], ANY_ENGINE);
    }
  }
}
