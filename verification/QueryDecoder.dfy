/** Turns a decoded search request into a query model. */
module QueryDecoder {
  import opened Fields
  import opened Json
  import opened QueryModels
  import opened Decorators
  import Elastic
  import Int32
  import Text

  const TYPE_KEYWORD := "type.keyword"
  const ID_KEYWORD := "id.keyword"
  const SEARCH_CRITERIA := "searchCriteria"
  const TEXT_SEARCH := "textSearch"
  const PARENT_OBJECT_INFO := "getParentObjectInfo"
  const FILTER_PAGINATION_SIZE := 10000

  datatype SearchRequest = SearchRequest(
    searchType: Option<string>,
    size: Option<int>,
    page: Option<int>,
    id: Option<string>,
    filters: Option<seq<string>>,
    text: Option<TextRequest>,
    criteria: Option<CriteriaRequest>,
    access: AccessRequest,
    inst: InstanceRequest,
    responseFilter: Option<ResponseFilterRequest>)

  /** A terms aggregation. */
  datatype Aggregation = Aggregation(name: string, field: string, size: int)

  datatype SearchQuery = SearchQuery(
    queries: QueryModel,
    limit: Option<int>,
    offset: Option<int>,
    includeFields: Option<seq<string>>,
    aggregations: seq<Aggregation>)

  datatype Decoded = Search(query: SearchQuery) | ParentLookup(model: QueryModel)

  // ---------------------------------------------------------------- building blocks

  function TermModel(field: string, value: string): QueryModel {
    Leaf(TERM, map[FIELD := PStr(field), VALUE := PStr(value)])
  }

  /** Selects the items of a type whose data is not uploaded or whose publishing is pending. */
  function ExclusionModel(itemType: string): QueryModel {
    var typeTerm := TermModel(TYPE_KEYWORD, itemType);
    var shouldClause := BOOL_MODEL.(should := [
        Leaf(TERM, map[FIELD := PStr(DATA_UPLOAD_STATUS), VALUE := PBool(false)]),
        TermModel(PUBLISH_STATUS + Elastic.KEYWORD, PENDING)]);
    BOOL_MODEL.(must := [typeTerm, shouldClause])
  }

  const EXCLUSION_CLAUSES: Clauses :=
    NO_CLAUSES.(mustNot := [ExclusionModel(DATA_BANK), ExclusionModel(AI_MODEL)])

  function ItemByIdModel(id: string): QueryModel {
    BOOL_MODEL.(must := [TermModel(ID_KEYWORD, id)])
  }

  function NameExistsModel(itemType: string, name: string): QueryModel {
    BOOL_MODEL.(must := [MatchModel(TYPE, itemType), MatchModel(NAME + Elastic.KEYWORD, name)])
  }

  function Assemble(c: Clauses): QueryModel {
    BOOL_MODEL.(must := c.must, should := c.should, mustNot := c.mustNot, filter := c.filter)
  }

  predicate Asks(r: SearchRequest, block: string) {
    r.searchType.Some? && Text.Contains(r.searchType.value, block)
  }

  // ---------------------------------------------------------------- specification

  function CriteriaBlock(r: SearchRequest): Result<Clauses, DecoderError> {
    if !Asks(r, SEARCH_CRITERIA) then Ok(NO_CLAUSES)
    else if r.criteria.None? then Err(MissingRequest)
    else CriteriaClauses(r.criteria.value)
  }

  function TextBlock(r: SearchRequest): Result<Clauses, DecoderError> {
    if !Asks(r, TEXT_SEARCH) then Ok(NO_CLAUSES)
    else if r.text.None? then Err(MissingRequest)
    else TextClauses(r.text.value)
  }

  function ResponseBlock(r: SearchRequest): Result<Clauses, DecoderError> {
    if !Asks(r, RESPONSE_FILTER) then Ok(NO_CLAUSES)
    else if r.responseFilter.None? then Err(MissingRequest)
    else ResponseFilterClauses(r.responseFilter.value)
  }

  /** All the clauses of a search, in the order the decoder accumulates them. */
  function SearchClauses(r: SearchRequest): Result<Clauses, DecoderError> {
    var criteria :- CriteriaBlock(r);
    var text :- TextBlock(r);
    var response :- ResponseBlock(r);
    if Asks(r, SEARCH_CRITERIA) || Asks(r, TEXT_SEARCH) || Asks(r, RESPONSE_FILTER) then
      Ok(NO_CLAUSES.Plus(criteria).Plus(text).Plus(AccessClauses(r.access)).Plus(EXCLUSION_CLAUSES).Plus(response))
    else Err(InvalidSearch)
  }

  /** The last include-fields list among the filter clauses. */
  function LastIncludeFields(filter: seq<QueryModel>): Option<seq<string>>
    decreases |filter|
  {
    if filter == [] then None
    else
      var last := filter[|filter| - 1];
      if last.includeFields.Some? then last.includeFields else LastIncludeFields(filter[..|filter| - 1])
  }

  /** The offset is an int product and may wrap around. */
  function Offset(page: int, size: int): int {
    Int32.Wrap(Int32.Wrap(page - 1) * size)
  }

  /** A request with a size gets a window and no source filter; only one without a size gets the source filter. */
  function Windowed(r: SearchRequest, c: Clauses): SearchQuery {
    if r.size.Some? then
      var offset := if r.page.Some? then Some(Offset(r.page.value, r.size.value)) else None;
      SearchQuery(Assemble(c), r.size, offset, None, [])
    else SearchQuery(Assemble(c), None, None, LastIncludeFields(c.filter), [])
  }

  predicate IsParentLookup(r: SearchRequest) {
    r.searchType.Some? && Text.EqualsIgnoreCase(r.searchType.value, PARENT_OBJECT_INFO)
  }

  function Decode(r: SearchRequest): Result<Decoded, DecoderError> {
    if IsParentLookup(r) then
      if r.id.None? then Err(MissingRequest) else Ok(ParentLookup(ParentInfoModel(r.id.value)))
    else
      var c :- SearchClauses(r);
      Ok(Search(Windowed(r, c)))
  }

  const PARENT_INFO_FIELDS := [
    "type", "provider", "ownerUserId", "resourceGroup", "name", "organizationId", "shortDescription",
    "resourceServer", "resourceServerRegURL", "cos", "cos_admin"]

  function ParentInfoModel(id: string): QueryModel {
    ItemByIdModel(id).(includeFields := Some(PARENT_INFO_FIELDS))
  }

  function ListingClauses(r: SearchRequest): Result<Clauses, DecoderError> {
    if r.criteria.None? then Err(MissingRequest)
    else
      var criteria :- CriteriaClauses(r.criteria.value);
      Ok(NO_CLAUSES.Plus(AccessClauses(r.access)).Plus(criteria).Plus(InstanceClauses(r.inst)).Plus(EXCLUSION_CLAUSES))
  }

  function ListingSize(r: SearchRequest): int {
    if r.size.Some? then r.size.value
    else FILTER_PAGINATION_SIZE - (if r.page.Some? then r.page.value else 1)
  }

  function FilterAggregation(filter: string, size: int): Aggregation {
    Aggregation(filter, filter + Elastic.KEYWORD, size)
  }

  function Aggregations(filters: seq<string>, size: int): seq<Aggregation> {
    seq(|filters|, i requires 0 <= i < |filters| => FilterAggregation(filters[i], size))
  }

  function DecodeListing(r: SearchRequest): Result<SearchQuery, DecoderError> {
    var c :- ListingClauses(r);
    var size := ListingSize(r);
    var aggs := if r.filters.None? then [] else Aggregations(r.filters.value, size);
    Ok(SearchQuery(Assemble(c), if r.page.Some? then Some(size) else None, None, None, aggs))
  }

  // ---------------------------------------------------------------- the decoder

  class Decoder {
    constructor () {
    }

    method AddCriteria(queryMap: ClauseMap, request: SearchRequest) returns (r: Result<bool, DecoderError>)
      requires queryMap.Valid()
      modifies queryMap
      ensures queryMap.Valid()
      ensures match CriteriaBlock(request)
              case Ok(c) =>
                && r == Ok(Asks(request, SEARCH_CRITERIA))
                && queryMap.Contents() == old(queryMap.Contents()).Plus(c)
              case Err(e) => r == Err(e)
    {
      if !Asks(request, SEARCH_CRITERIA) {
        return Ok(false);
      }
      if request.criteria.None? {
        return Err(MissingRequest);
      }
      var decorator := new SearchCriteriaQueryDecorator(queryMap, request.criteria.value);
      var _ :- decorator.Add();
      return Ok(true);
    }

    method AddText(queryMap: ClauseMap, request: SearchRequest) returns (r: Result<bool, DecoderError>)
      requires queryMap.Valid()
      modifies queryMap
      ensures queryMap.Valid()
      ensures match TextBlock(request)
              case Ok(c) =>
                && r == Ok(Asks(request, TEXT_SEARCH))
                && queryMap.Contents() == old(queryMap.Contents()).Plus(c)
              case Err(e) => r == Err(e)
    {
      if !Asks(request, TEXT_SEARCH) {
        return Ok(false);
      }
      if request.text.None? {
        return Err(MissingRequest);
      }
      var decorator := new TextSearchQueryDecorator(queryMap, request.text.value);
      var _ :- decorator.Add();
      return Ok(true);
    }

    method AddResponseFilter(queryMap: ClauseMap, request: SearchRequest) returns (r: Result<bool, DecoderError>)
      requires queryMap.Valid()
      modifies queryMap
      ensures queryMap.Valid()
      ensures match ResponseBlock(request)
              case Ok(c) =>
                && r == Ok(Asks(request, RESPONSE_FILTER))
                && queryMap.Contents() == old(queryMap.Contents()).Plus(c)
              case Err(e) => r == Err(e)
    {
      if !Asks(request, RESPONSE_FILTER) {
        return Ok(false);
      }
      if request.responseFilter.None? {
        return Err(MissingRequest);
      }
      var decorator := new ResponseFilterDecorator(queryMap, request.responseFilter.value);
      var _ :- decorator.Add();
      return Ok(true);
    }

    method AddAccess(queryMap: ClauseMap, request: SearchRequest)
      requires queryMap.Valid()
      modifies queryMap
      ensures queryMap.Valid()
      ensures queryMap.Contents() == old(queryMap.Contents()).Plus(AccessClauses(request.access))
    {
      var decorator := new AccessPolicyQueryDecorator(queryMap, request.access);
      decorator.Add();
    }

    method AddExclusions(queryMap: ClauseMap)
      requires queryMap.Valid()
      modifies queryMap
      ensures queryMap.Valid()
      ensures queryMap.Contents() == old(queryMap.Contents()).Plus(EXCLUSION_CLAUSES)
    {
      queryMap.Append(MUST_NOT, ExclusionModel(DATA_BANK));
      queryMap.Append(MUST_NOT, ExclusionModel(AI_MODEL));
    }

    method SourceFilter(filter: seq<QueryModel>) returns (includeFields: Option<seq<string>>)
      ensures includeFields == LastIncludeFields(filter)
    {
      includeFields := None;
      for i := 0 to |filter|
        invariant includeFields == LastIncludeFields(filter[..i])
      {
        assert filter[..i + 1][..i] == filter[..i];
        if filter[i].includeFields.Some? {
          includeFields := filter[i].includeFields;
        }
      }
      assert filter[..|filter|] == filter;
    }

    method GetQueryModel(request: SearchRequest) returns (r: Result<Decoded, DecoderError>)
      ensures r == Decode(request)
    {
      if IsParentLookup(request) {
        if request.id.None? {
          return Err(MissingRequest);
        }
        return Ok(ParentLookup(ParentInfoModel(request.id.value)));
      }
      var queryMap := new ClauseMap();
      var criteriaAdded :- AddCriteria(queryMap, request);
      var textAdded :- AddText(queryMap, request);
      AddAccess(queryMap, request);
      AddExclusions(queryMap);
      var responseAdded :- AddResponseFilter(queryMap, request);
      if !criteriaAdded && !textAdded && !responseAdded {
        return Err(InvalidSearch);
      }
      var boolQuery := GetBoolQuery(queryMap);
      if request.size.Some? {
        var offset: Option<int> := None;
        if request.page.Some? {
          offset := Some(Offset(request.page.value, request.size.value));
        }
        return Ok(Search(SearchQuery(boolQuery, request.size, offset, None, [])));
      }
      var includeFields := SourceFilter(queryMap.lists[FILTER]);
      return Ok(Search(SearchQuery(boolQuery, None, None, includeFields, [])));
    }

    method AggregationsFor(filters: seq<string>, size: int) returns (aggs: seq<Aggregation>)
      ensures aggs == Aggregations(filters, size)
    {
      aggs := [];
      for i := 0 to |filters|
        invariant aggs == Aggregations(filters[..i], size)
      {
        aggs := aggs + [FilterAggregation(filters[i], size)];
      }
      assert filters[..|filters|] == filters;
    }

    method ListMultipleItemTypesQuery(request: SearchRequest) returns (r: Result<SearchQuery, DecoderError>)
      ensures r == DecodeListing(request)
    {
      var queryMap := new ClauseMap();
      AddAccess(queryMap, request);
      if request.criteria.None? {
        return Err(MissingRequest);
      }
      var criteria := new SearchCriteriaQueryDecorator(queryMap, request.criteria.value);
      var _ :- criteria.Add();
      var instanceFilter := new InstanceFilterQueryDecorator(queryMap, request.inst);
      instanceFilter.Add();
      AddExclusions(queryMap);
      var boolQuery := GetBoolQuery(queryMap);
      var size := ListingSize(request);
      var aggs: seq<Aggregation> := [];
      if request.filters.Some? {
        aggs := AggregationsFor(request.filters.value, size);
      }
      return Ok(SearchQuery(boolQuery, if request.page.Some? then Some(size) else None, None, None, aggs));
    }

    /** The clause map is unordered: in whatever order its entries are visited, the same bool model results. */
    method GetBoolQuery(queryMap: ClauseMap) returns (q: QueryModel)
      requires queryMap.Valid()
      ensures q == Assemble(queryMap.Contents())
    {
      q := BOOL_MODEL;
      var pending := FILTER_TYPES;
      while pending != {}
        invariant pending <= FILTER_TYPES
        invariant q == BOOL_MODEL.(
            must := if MUST in pending then [] else queryMap.lists[MUST],
            should := if FilterType.SHOULD in pending then [] else queryMap.lists[FilterType.SHOULD],
            mustNot := if MUST_NOT in pending then [] else queryMap.lists[MUST_NOT],
            filter := if FILTER in pending then [] else queryMap.lists[FILTER])
        decreases pending
      {
        var t :| t in pending;
        var list := queryMap.lists[t];
        match t {
          case MUST => q := q.(must := list);
          case FILTER => q := q.(filter := list);
          case MUST_NOT => q := q.(mustNot := list);
          case SHOULD => q := q.(should := list);
        }
        pending := pending - {t};
      }
    }
  }
}
