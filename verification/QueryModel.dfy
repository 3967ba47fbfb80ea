/** The intermediate query tree and its lowering to the target language. */
module QueryModels {
  import opened Json
  import opened Elastic

  const FIELD := "field"
  const VALUE := "value"
  const Q_VALUE := "q"
  const CASE_INSENSITIVE := "case_insensitive"
  const GREATER_THAN := "gt"
  const LESS_THAN := "lt"
  const GREATER_THAN_EQUALS := "gte"
  const LESS_THAN_EQUALS := "lte"

  datatype QueryType = MATCH_ALL | MATCH | TERM | SHOULD | BOOL | RANGE | WILDCARD | TEXT | MATCH_PHRASE | MULTI_MATCH

  datatype Param = PStr(s: string) | PBool(b: bool) | PList(items: seq<string>)

  datatype QueryModel = QueryModel(
    queryType: Option<QueryType>,
    params: map<string, Param>,
    must: seq<QueryModel>,
    should: seq<QueryModel>,
    mustNot: seq<QueryModel>,
    filter: seq<QueryModel>,
    minimumShouldMatch: Option<nat>,
    includeFields: Option<seq<string>>)

  function Leaf(t: QueryType, params: map<string, Param>): QueryModel {
    QueryModel(Some(t), params, [], [], [], [], None, None)
  }

  /** A bool model with no clause set. */
  const BOOL_MODEL := Leaf(BOOL, map[])

  datatype LowerError = NullQueryType | Unsupported | BadParameter

  /** String.valueOf on a stored parameter. */
  function Shown(p: Param): Option<string> {
    match p
    case PStr(s) => Some(s)
    case PBool(b) => Some(if b then "true" else "false")
    case PList(_) => None
  }

  function ShownParam(params: map<string, Param>, key: string): Option<string> {
    if key in params then Shown(params[key]) else None
  }

  function StrParam(params: map<string, Param>, key: string): Option<string> {
    if key in params && params[key].PStr? then Some(params[key].s) else None
  }

  /** A cast to String: absent keys read as null, anything but a string throws. */
  predicate StrOrAbsent(params: map<string, Param>, key: string) {
    key in params ==> params[key].PStr?
  }

  function FieldAndValue(params: map<string, Param>, make: (string, string) -> EsQuery): Result<EsQuery, LowerError> {
    var f, v := StrParam(params, FIELD), ShownParam(params, VALUE);
    if f.Some? && v.Some? then Ok(make(f.value, v.value)) else Err(BadParameter)
  }

  const TEXT_QUERY_TYPES: set<string> :=
    {"BestFields", "MostFields", "CrossFields", "Phrase", "PhrasePrefix", "BoolPrefix"}

  function Lower(q: QueryModel): Result<EsQuery, LowerError>
    decreases q, 1
  {
    match q.queryType
    case None => Err(NullQueryType)
    case Some(MATCH_ALL) => Ok(MatchAll)
    case Some(MATCH) => FieldAndValue(q.params, (f, v) => Match(f, v))
    case Some(MATCH_PHRASE) => FieldAndValue(q.params, (f, v) => MatchPhrase(f, v))
    case Some(TERM) => FieldAndValue(q.params, (f, v) => Term(f, v))
    case Some(BOOL) => LowerBool(q)
    case Some(WILDCARD) =>
      if StrParam(q.params, VALUE).Some? then
        var ci := CASE_INSENSITIVE in q.params && q.params[CASE_INSENSITIVE] == PBool(true);
        FieldAndValue(q.params, (f, v) => Wildcard(f, v, ci))
      else Err(BadParameter)
    case Some(TEXT) =>
      var v := ShownParam(q.params, Q_VALUE);
      if v.Some? then Ok(QueryString(v.value)) else Err(BadParameter)
    case Some(MULTI_MATCH) => LowerMultiMatch(q.params)
    case Some(RANGE) =>
      var f := ShownParam(q.params, FIELD);
      if f.Some? then Ok(Range(f.value, BoundsOf(q.params))) else Err(BadParameter)
    case Some(SHOULD) => Err(Unsupported)
  }

  function LowerBool(q: QueryModel): Result<EsQuery, LowerError>
    decreases q, 0
  {
    var must, should, mustNot, filter := LowerAll(q.must), LowerAll(q.should), LowerAll(q.mustNot), LowerAll(q.filter);
    if must.Err? then Err(must.error)
    else if should.Err? then Err(should.error)
    else if mustNot.Err? then Err(mustNot.error)
    else if filter.Err? then Err(filter.error)
    else Ok(Bool(must.value, should.value, mustNot.value, filter.value, q.minimumShouldMatch))
  }

  function LowerAll(qs: seq<QueryModel>): Result<seq<EsQuery>, LowerError>
    decreases qs, 0
  {
    if qs == [] then Ok([])
    else
      var head := Lower(qs[0]);
      if head.Err? then Err(head.error)
      else
        var tail := LowerAll(qs[1..]);
        if tail.Err? then Err(tail.error) else Ok([head.value] + tail.value)
  }

  function LowerMultiMatch(params: map<string, Param>): Result<EsQuery, LowerError> {
    if && "query" in params && params["query"].PStr?
       && "fields" in params && params["fields"].PList?
       && StrOrAbsent(params, "fuzziness")
       && StrOrAbsent(params, "type")
       && ("type" in params ==> params["type"].s in TEXT_QUERY_TYPES)
    then
      Ok(MultiMatch(params["fields"].items, params["query"].s, StrParam(params, "fuzziness"), StrParam(params, "type")))
    else Err(BadParameter)
  }

  /** The bounds a range model carries. */
  function BoundsOf(params: map<string, Param>): Bounds {
    Bounds(ShownParam(params, GREATER_THAN_EQUALS), ShownParam(params, LESS_THAN_EQUALS),
           ShownParam(params, GREATER_THAN), ShownParam(params, LESS_THAN))
  }

  function WithBound(b: Bounds, key: string, v: string): Bounds {
    if key == GREATER_THAN_EQUALS then b.(gte := Some(v))
    else if key == LESS_THAN_EQUALS then b.(lte := Some(v))
    else if key == GREATER_THAN then b.(gt := Some(v))
    else if key == LESS_THAN then b.(lt := Some(v))
    else b
  }

  const RANGE_CONDITIONS: set<string> := {GREATER_THAN_EQUALS, LESS_THAN_EQUALS, GREATER_THAN, LESS_THAN}

  /** The range lowering walks an unordered map of setters: whatever order the
      conditions come in, the builder ends with the same bounds. */
  method CollectBounds(params: map<string, Param>) returns (b: Bounds)
    ensures b == BoundsOf(params)
  {
    b := Bounds(None, None, None, None);
    var pending := RANGE_CONDITIONS;
    ghost var done: set<string> := {};
    while pending != {}
      invariant pending <= RANGE_CONDITIONS && done == RANGE_CONDITIONS - pending
      invariant b.gte == if GREATER_THAN_EQUALS in done then ShownParam(params, GREATER_THAN_EQUALS) else None
      invariant b.lte == if LESS_THAN_EQUALS in done then ShownParam(params, LESS_THAN_EQUALS) else None
      invariant b.gt == if GREATER_THAN in done then ShownParam(params, GREATER_THAN) else None
      invariant b.lt == if LESS_THAN in done then ShownParam(params, LESS_THAN) else None
      decreases pending
    {
      var key :| key in pending;
      var v := ShownParam(params, key);
      if v.Some? {
        b := WithBound(b, key, v.value);
      }
      pending, done := pending - {key}, done + {key};
    }
  }
}
