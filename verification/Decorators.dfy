/** The decorators: each appends clauses to one clause map they all share. */
module Decorators {
  import opened Fields
  import opened Json
  import opened QueryModels
  import Elastic
  import Text

  const TERM_SEARCH := "term"
  const BETWEEN_RANGE := "betweenRange"
  const AFTER_RANGE := "afterRange"
  const BEFORE_RANGE := "beforeRange"
  const BETWEEN_TEMPORAL := "betweenTemporal"
  const AFTER_TEMPORAL := "afterTemporal"
  const BEFORE_TEMPORAL := "beforeTemporal"
  const DESCRIPTION := "description"
  const LOCATION := "location"
  const FILE_FORMAT := "fileFormat"
  const INSTANCE := "instance"
  const OPEN := "OPEN"
  const RESTRICTED := "RESTRICTED"
  const PRIVATE := "PRIVATE"
  const TEXT_FIELDS := ["label", "tags", "description"]

  datatype FilterType = FILTER | MUST | MUST_NOT | SHOULD

  const FILTER_TYPES: set<FilterType> := {FILTER, MUST, MUST_NOT, FilterType.SHOULD}

  datatype DecoderError =
    | EmptyCriteria | ExpectedTwoValues | MissingValue | NullValue | UnsupportedSearchType
    | BadText | FilteringNotAllowed | MissingFilter | InvalidSearch | MissingRequest

  // ---------------------------------------------------------------- requests

  /** A criterion value: its printed form and, for a number, its int part. */
  datatype Scalar = VText(s: string) | VNumber(lexeme: string, asInt: int) | VNull

  datatype Criterion = Criterion(field: string, searchType: Option<string>, values: seq<Scalar>)

  datatype CriteriaRequest = CriteriaRequest(searchCriteria: Option<seq<Criterion>>)

  datatype TextRequest = TextRequest(q: Option<string>, fuzzy: Option<bool>, autoComplete: Option<bool>)

  datatype AccessRequest = AccessRequest(sub: Option<string>, myAssets: Option<bool>)

  datatype InstanceRequest = InstanceRequest(instanceId: Option<string>)

  datatype ResponseFilterRequest = ResponseFilterRequest(
    searchType: Option<string>, search: Option<bool>, attribute: Option<seq<string>>, filter: Option<seq<string>>)

  // ---------------------------------------------------------------- the shared map

  datatype Clauses = Clauses(
    must: seq<QueryModel>, should: seq<QueryModel>, mustNot: seq<QueryModel>, filter: seq<QueryModel>)
  {
    function Plus(c: Clauses): Clauses {
      Clauses(must + c.must, should + c.should, mustNot + c.mustNot, filter + c.filter)
    }
  }

  const NO_CLAUSES := Clauses([], [], [], [])

  class ClauseMap {
    var lists: map<FilterType, seq<QueryModel>>

    ghost predicate Valid()
      reads this
    {
      lists.Keys == FILTER_TYPES
    }

    ghost function Contents(): Clauses
      reads this
      requires Valid()
    {
      Clauses(lists[MUST], lists[FilterType.SHOULD], lists[MUST_NOT], lists[FILTER])
    }

    constructor ()
      ensures Valid() && Contents() == NO_CLAUSES
    {
      var filled: map<FilterType, seq<QueryModel>> := map[];
      var pending := FILTER_TYPES;
      while pending != {}
        invariant pending <= FILTER_TYPES && filled.Keys == FILTER_TYPES - pending
        invariant forall t :: t in filled ==> filled[t] == []
        decreases pending
      {
        var t :| t in pending;
        filled, pending := filled[t := []], pending - {t};
      }
      lists := filled;
    }

    method Append(t: FilterType, q: QueryModel)
      requires Valid()
      modifies this
      ensures Valid()
      ensures Contents() == old(Contents()).Plus(One(t, q))
    {
      lists := lists[t := lists[t] + [q]];
    }
  }

  function One(t: FilterType, q: QueryModel): Clauses {
    match t
    case MUST => NO_CLAUSES.(must := [q])
    case SHOULD => NO_CLAUSES.(should := [q])
    case MUST_NOT => NO_CLAUSES.(mustNot := [q])
    case FILTER => NO_CLAUSES.(filter := [q])
  }

  // ---------------------------------------------------------------- search criteria

  function ValueText(v: Scalar): Result<string, DecoderError> {
    match v
    case VText(s) => Ok(s)
    case VNumber(lexeme, _) => Ok(lexeme)
    case VNull => Err(NullValue)
  }

  /** How a term criterion asks for one value, depending on the field. */
  function TermLeaf(field: string, value: string): QueryModel {
    if field == DESCRIPTION || Text.StartsWith(field, LOCATION) then
      Leaf(MATCH, map[FIELD := PStr(field), VALUE := PStr(value)])
    else if field == TAGS then
      Leaf(MATCH_PHRASE, map[FIELD := PStr(field), VALUE := PStr(value)])
    else if field == FILE_FORMAT then
      Leaf(WILDCARD, map[FIELD := PStr(field + Elastic.KEYWORD), VALUE := PStr(Text.ToLower(value)),
                         CASE_INSENSITIVE := PBool(true)])
    else
      var searchField := if Text.EndsWith(field, Elastic.KEYWORD) then field else field + Elastic.KEYWORD;
      Leaf(TERM, map[FIELD := PStr(searchField), VALUE := PStr(value)])
  }

  function TermLeaves(field: string, values: seq<Scalar>): Result<seq<QueryModel>, DecoderError>
    decreases |values|
  {
    if values == [] then Ok([])
    else
      var init := TermLeaves(field, values[..|values| - 1]);
      var last := ValueText(values[|values| - 1]);
      if init.Err? then init
      else if last.Err? then Err(last.error)
      else Ok(init.value + [TermLeaf(field, last.value)])
  }

  function RangeModel(field: string, operators: map<string, string>): QueryModel {
    Leaf(RANGE, map[FIELD := PStr(field)] + (map k | k in operators :: PStr(operators[k])))
  }

  function OneBound(c: Criterion, op: string): Result<QueryModel, DecoderError> {
    if |c.values| == 0 then Err(MissingValue)
    else
      var v := ValueText(c.values[0]);
      if v.Err? then Err(v.error) else Ok(RangeModel(c.field, map[op := v.value]))
  }

  function TypeOf(c: Criterion): string {
    if c.searchType.Some? then c.searchType.value else TERM_SEARCH
  }

  function CriterionModel(c: Criterion): Result<QueryModel, DecoderError> {
    var t := TypeOf(c);
    if t == TERM_SEARCH then
      var leaves := TermLeaves(c.field, c.values);
      if leaves.Err? then Err(leaves.error) else Ok(BOOL_MODEL.(should := leaves.value))
    else if t == BETWEEN_RANGE || t == BETWEEN_TEMPORAL then
      if |c.values| != 2 then Err(ExpectedTwoValues)
      else
        var lo, hi := ValueText(c.values[0]), ValueText(c.values[1]);
        if lo.Err? then Err(lo.error)
        else if hi.Err? then Err(hi.error)
        else Ok(RangeModel(c.field, map[GREATER_THAN_EQUALS := lo.value, LESS_THAN_EQUALS := hi.value]))
    else if t == BEFORE_RANGE || t == BEFORE_TEMPORAL then OneBound(c, LESS_THAN)
    else if t == AFTER_RANGE || t == AFTER_TEMPORAL then OneBound(c, GREATER_THAN)
    else Err(UnsupportedSearchType)
  }

  function CriterionModels(cs: seq<Criterion>): Result<seq<QueryModel>, DecoderError>
    decreases |cs|
  {
    if cs == [] then Ok([])
    else
      var init := CriterionModels(cs[..|cs| - 1]);
      var last := CriterionModel(cs[|cs| - 1]);
      if init.Err? then init
      else if last.Err? then Err(last.error)
      else Ok(init.value + [last.value])
  }

  /** What the criteria decorator adds: one filter clause holding one must clause per criterion. */
  function CriteriaClauses(r: CriteriaRequest): Result<Clauses, DecoderError> {
    if r.searchCriteria.None? then Ok(NO_CLAUSES)
    else if r.searchCriteria.value == [] then Err(EmptyCriteria)
    else
      var models := CriterionModels(r.searchCriteria.value);
      if models.Err? then Err(models.error)
      else Ok(One(FILTER, BOOL_MODEL.(must := models.value)))
  }

  lemma {:induction false} FirstErrorStops(cs: seq<Criterion>, n: nat)
    requires n <= |cs| && CriterionModels(cs[..n]).Err?
    ensures CriterionModels(cs) == CriterionModels(cs[..n])
    decreases |cs|
  {
    if n == |cs| {
      assert cs[..n] == cs;
    } else {
      assert cs[..|cs| - 1][..n] == cs[..n];
      FirstErrorStops(cs[..|cs| - 1], n);
    }
  }

  lemma {:induction false} FirstBadValueStops(field: string, values: seq<Scalar>, n: nat)
    requires n <= |values| && TermLeaves(field, values[..n]).Err?
    ensures TermLeaves(field, values) == TermLeaves(field, values[..n])
    decreases |values|
  {
    if n == |values| {
      assert values[..n] == values;
    } else {
      assert values[..|values| - 1][..n] == values[..n];
      FirstBadValueStops(field, values[..|values| - 1], n);
    }
  }

  class SearchCriteriaQueryDecorator {
    const queryMap: ClauseMap
    const request: CriteriaRequest

    constructor (queryMap: ClauseMap, request: CriteriaRequest)
      ensures this.queryMap == queryMap && this.request == request
    {
      this.queryMap, this.request := queryMap, request;
    }

    method Add() returns (r: Result<(), DecoderError>)
      requires queryMap.Valid()
      modifies queryMap
      ensures queryMap.Valid()
      ensures match CriteriaClauses(request)
              case Ok(c) => r.Ok? && queryMap.Contents() == old(queryMap.Contents()).Plus(c)
              case Err(e) => r == Err(e) && queryMap.Contents() == old(queryMap.Contents())
    {
      if request.searchCriteria.None? {
        return Ok(());
      }
      var criteria := request.searchCriteria.value;
      if criteria == [] {
        return Err(EmptyCriteria);
      }
      var mustList: seq<QueryModel> := [];
      for i := 0 to |criteria|
        invariant CriterionModels(criteria[..i]) == Ok(mustList)
        invariant queryMap.lists == old(queryMap.lists)
      {
        assert criteria[..i + 1][..i] == criteria[..i];
        var model := BuildCriterion(criteria[i]);
        if model.Err? {
          FirstErrorStops(criteria, i + 1);
          return Err(model.error);
        }
        mustList := mustList + [model.value];
      }
      assert criteria[..|criteria|] == criteria;
      queryMap.Append(FILTER, BOOL_MODEL.(must := mustList));
      return Ok(());
    }

    method BuildCriterion(c: Criterion) returns (r: Result<QueryModel, DecoderError>)
      ensures r == CriterionModel(c)
    {
      var t := if c.searchType.Some? then c.searchType.value else TERM_SEARCH;
      match t {
        case "term" => r := BuildTermQuery(c.field, c.values);
        case "betweenRange" | "betweenTemporal" =>
          if |c.values| != 2 {
            return Err(ExpectedTwoValues);
          }
          var lo, hi := ValueText(c.values[0]), ValueText(c.values[1]);
          if lo.Err? {
            return Err(lo.error);
          }
          if hi.Err? {
            return Err(hi.error);
          }
          r := Ok(RangeModel(c.field, map[GREATER_THAN_EQUALS := lo.value, LESS_THAN_EQUALS := hi.value]));
        case "beforeRange" | "beforeTemporal" => r := OneBound(c, LESS_THAN);
        case "afterRange" | "afterTemporal" => r := OneBound(c, GREATER_THAN);
        case _ => r := Err(UnsupportedSearchType);
      }
    }

    method BuildTermQuery(field: string, values: seq<Scalar>) returns (r: Result<QueryModel, DecoderError>)
      ensures r == CriterionModel(Criterion(field, None, values))
    {
      var shouldQueries: seq<QueryModel> := [];
      for i := 0 to |values|
        invariant TermLeaves(field, values[..i]) == Ok(shouldQueries)
      {
        assert values[..i + 1][..i] == values[..i];
        var value := ValueText(values[i]);
        if value.Err? {
          FirstBadValueStops(field, values, i + 1);
          return Err(value.error);
        }
        shouldQueries := shouldQueries + [TermLeaf(field, value.value)];
      }
      assert values[..|values|] == values;
      r := Ok(BOOL_MODEL.(should := shouldQueries));
    }
  }

  // ---------------------------------------------------------------- text

  function FuzzyModel(q: string): QueryModel {
    Leaf(MULTI_MATCH, map["fields" := PList(TEXT_FIELDS), "query" := PStr(q),
                          "fuzziness" := PStr("AUTO"), "boost" := PStr("1.0")])
  }

  function PrefixModel(q: string): QueryModel {
    Leaf(MULTI_MATCH, map["fields" := PList(TEXT_FIELDS), "query" := PStr(q),
                          "type" := PStr("BoolPrefix"), "boost" := PStr("5.0")])
  }

  /** Both text flags are read from "fuzzy": the autoComplete field plays no part. */
  function TextClauses(r: TextRequest): Result<Clauses, DecoderError> {
    if r.q.None? || Text.IsBlank(r.q.value) then Err(BadText)
    else
      var should := if r.fuzzy == Some(true) then [FuzzyModel(r.q.value), PrefixModel(r.q.value)]
                    else [Leaf(TEXT, map[Q_VALUE := PStr(r.q.value)])];
      Ok(One(MUST, BOOL_MODEL.(should := should, minimumShouldMatch := Some(1))))
  }

  class TextSearchQueryDecorator {
    const queryMap: ClauseMap
    const request: TextRequest

    constructor (queryMap: ClauseMap, request: TextRequest)
      ensures this.queryMap == queryMap && this.request == request
    {
      this.queryMap, this.request := queryMap, request;
    }

    method Add() returns (r: Result<(), DecoderError>)
      requires queryMap.Valid()
      modifies queryMap
      ensures queryMap.Valid()
      ensures match TextClauses(request)
              case Ok(c) => r.Ok? && queryMap.Contents() == old(queryMap.Contents()).Plus(c)
              case Err(e) => r == Err(e) && queryMap.Contents() == old(queryMap.Contents())
    {
      if request.q.None? || Text.IsBlank(request.q.value) {
        return Err(BadText);
      }
      var q := request.q.value;
      var isFuzzy := request.fuzzy == Some(true);
      var isAutoComplete := request.fuzzy == Some(true);
      var shouldQueries: seq<QueryModel> := [];
      if isFuzzy {
        shouldQueries := shouldQueries + [FuzzyModel(q)];
      }
      if isAutoComplete {
        shouldQueries := shouldQueries + [PrefixModel(q)];
      }
      if !isFuzzy && !isAutoComplete {
        shouldQueries := shouldQueries + [Leaf(TEXT, map[Q_VALUE := PStr(q)])];
      }
      assert TextClauses(request).value.must[0].should == shouldQueries;
      queryMap.Append(MUST, BOOL_MODEL.(should := shouldQueries, minimumShouldMatch := Some(1)));
      return Ok(());
    }
  }

  // ---------------------------------------------------------------- access policy

  function MatchModel(field: string, value: string): QueryModel {
    Leaf(MATCH, map[FIELD := PStr(field), VALUE := PStr(value)])
  }

  function AccessClauses(r: AccessRequest): Clauses {
    if r.sub.Some? && r.sub.value != "" then
      if r.myAssets == Some(true) then One(MUST, MatchModel(OWNER, r.sub.value))
      else
        var privateOwned := BOOL_MODEL.(must := [MatchModel(ACCESS_POLICY, PRIVATE), MatchModel(OWNER, r.sub.value)]);
        One(MUST, BOOL_MODEL.(
            should := [MatchModel(ACCESS_POLICY, OPEN), MatchModel(ACCESS_POLICY, RESTRICTED), privateOwned],
            minimumShouldMatch := Some(1)))
    else One(MUST_NOT, MatchModel(ACCESS_POLICY, PRIVATE))
  }

  class AccessPolicyQueryDecorator {
    const queryMap: ClauseMap
    const request: AccessRequest

    constructor (queryMap: ClauseMap, request: AccessRequest)
      ensures this.queryMap == queryMap && this.request == request
    {
      this.queryMap, this.request := queryMap, request;
    }

    method Add()
      requires queryMap.Valid()
      modifies queryMap
      ensures queryMap.Valid()
      ensures queryMap.Contents() == old(queryMap.Contents()).Plus(AccessClauses(request))
    {
      var isMyAssetsRequest := request.myAssets == Some(true);
      if request.sub.Some? && request.sub.value != "" {
        var sub := request.sub.value;
        if isMyAssetsRequest {
          queryMap.Append(MUST, MatchModel(OWNER, sub));
        } else {
          var privateOwned := BOOL_MODEL.(must := [MatchModel(ACCESS_POLICY, PRIVATE), MatchModel(OWNER, sub)]);
          var accessFilter := BOOL_MODEL.(
            should := [MatchModel(ACCESS_POLICY, OPEN), MatchModel(ACCESS_POLICY, RESTRICTED), privateOwned],
            minimumShouldMatch := Some(1));
          queryMap.Append(MUST, accessFilter);
        }
      } else {
        queryMap.Append(MUST_NOT, MatchModel(ACCESS_POLICY, PRIVATE));
      }
    }
  }

  // ---------------------------------------------------------------- response and instance filters

  const RESPONSE_FILTER := "responseFilter"

  function ResponseFilterClauses(r: ResponseFilterRequest): Result<Clauses, DecoderError> {
    if r.searchType.None? || !Text.Contains(r.searchType.value, RESPONSE_FILTER) then Ok(NO_CLAUSES)
    else if r.search != Some(false) then Err(FilteringNotAllowed)
    else
      var source := if r.attribute.None? || r.attribute.value == [] then r.filter else r.attribute;
      if source.None? || source.value == [] then Err(MissingFilter)
      else Ok(One(FILTER, BOOL_MODEL.(includeFields := source)))
  }

  class ResponseFilterDecorator {
    const queryMap: ClauseMap
    const request: ResponseFilterRequest

    constructor (queryMap: ClauseMap, request: ResponseFilterRequest)
      ensures this.queryMap == queryMap && this.request == request
    {
      this.queryMap, this.request := queryMap, request;
    }

    method Add() returns (r: Result<(), DecoderError>)
      requires queryMap.Valid()
      modifies queryMap
      ensures queryMap.Valid()
      ensures match ResponseFilterClauses(request)
              case Ok(c) => r.Ok? && queryMap.Contents() == old(queryMap.Contents()).Plus(c)
              case Err(e) => r == Err(e) && queryMap.Contents() == old(queryMap.Contents())
    {
      if request.searchType.None? || !Text.Contains(request.searchType.value, RESPONSE_FILTER) {
        return Ok(());
      }
      if request.search != Some(false) {
        return Err(FilteringNotAllowed);
      }
      var sourceFilter := request.attribute;
      if sourceFilter.None? || sourceFilter.value == [] {
        sourceFilter := request.filter;
      }
      if sourceFilter.None? || sourceFilter.value == [] {
        return Err(MissingFilter);
      }
      queryMap.Append(FILTER, BOOL_MODEL.(includeFields := sourceFilter));
      return Ok(());
    }
  }

  function InstanceClauses(r: InstanceRequest): Clauses {
    if r.instanceId.Some? && r.instanceId.value != "" then
      One(FILTER, Leaf(TERM, map[FIELD := PStr(INSTANCE + Elastic.KEYWORD), VALUE := PStr(r.instanceId.value)]))
    else NO_CLAUSES
  }

  class InstanceFilterQueryDecorator {
    const queryMap: ClauseMap
    const request: InstanceRequest

    constructor (queryMap: ClauseMap, request: InstanceRequest)
      ensures this.queryMap == queryMap && this.request == request
    {
      this.queryMap, this.request := queryMap, request;
    }

    method Add()
      requires queryMap.Valid()
      modifies queryMap
      ensures queryMap.Valid()
      ensures queryMap.Contents() == old(queryMap.Contents()).Plus(InstanceClauses(request))
    {
      if request.instanceId.Some? && request.instanceId.value != "" {
        var params := map[FIELD := PStr(INSTANCE + Elastic.KEYWORD), VALUE := PStr(request.instanceId.value)];
        queryMap.Append(FILTER, Leaf(TERM, params));
      }
    }
  }
}
