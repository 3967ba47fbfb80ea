/** The target language of the query compiler and its meaning over documents. */
module Elastic {
  import opened Json
  import Text

  const KEYWORD := ".keyword"

  datatype Bounds = Bounds(gte: Option<string>, lte: Option<string>, gt: Option<string>, lt: Option<string>)

  datatype EsQuery =
    | Match(field: string, query: string)
    | MatchPhrase(field: string, query: string)
    | Term(field: string, value: string)
    | Wildcard(field: string, pattern: string, caseInsensitive: bool)
    | Range(field: string, bounds: Bounds)
    | QueryString(query: string)
    | MultiMatch(fields: seq<string>, query: string, fuzziness: Option<string>, kind: Option<string>)
    | MatchAll
    | Bool(must: seq<EsQuery>, should: seq<EsQuery>, mustNot: seq<EsQuery>, filter: seq<EsQuery>,
           minimumShouldMatch: Option<nat>)

  /** What the search engine decides by itself: analysed text, wildcards, terms on fields that are not keyword
      fields, and the point a value of a field denotes in a range. Every result holds for every engine. */
  datatype Engine = Engine(
    fullText: (string, string, seq<string>) -> bool,
    phrase: (string, string, seq<string>) -> bool,
    wildcard: (string, bool, string) -> bool,
    textWildcard: (string, string, bool, seq<string>) -> bool,
    term: (string, string, seq<string>) -> bool,
    queryString: (string, Object) -> bool,
    multiMatch: (seq<string>, string, Option<string>, Option<string>, Object) -> bool,
    instant: (string, string) -> int)

  /** The engine analyses this field as one case-folded token. */
  ghost predicate CaseFolds(e: Engine, field: string) {
    forall query: string, values: seq<string> ::
      e.fullText(field, query, values) <==> exists v :: v in values && Text.EqualsIgnoreCase(v, query)
  }

  /** "x.keyword" indexes the same source field as "x". */
  function BaseField(field: string): string {
    if Text.EndsWith(field, KEYWORD) then field[..|field| - |KEYWORD|] else field
  }

  /** The indexed values of a source value: arrays index each of their elements. */
  function Scalars(v: Json): seq<string> {
    match v
    case JNull => []
    case JBool(b) => [if b then "true" else "false"]
    case JNum(lexeme) => [lexeme]
    case JStr(s) => [s]
    case JArr(elems) => AllScalars(elems)
    case JObj(_) => []
  }

  function AllScalars(vs: seq<Json>): seq<string> {
    if vs == [] then [] else Scalars(vs[0]) + AllScalars(vs[1..])
  }

  function Values(d: Object, field: string): seq<string> {
    Scalars(Get(d, BaseField(field)))
  }

  predicate WithinBounds(field: string, v: string, b: Bounds, e: Engine) {
    && (b.gte.Some? ==> e.instant(field, v) >= e.instant(field, b.gte.value))
    && (b.lte.Some? ==> e.instant(field, v) <= e.instant(field, b.lte.value))
    && (b.gt.Some? ==> e.instant(field, v) > e.instant(field, b.gt.value))
    && (b.lt.Some? ==> e.instant(field, v) < e.instant(field, b.lt.value))
  }

  /** A term on a keyword field is one of its whole values, elsewhere the engine compares it with what it
      indexed. */
  predicate TermMatches(d: Object, e: Engine, field: string, value: string) {
    if Text.EndsWith(field, KEYWORD) then value in Values(d, field) else e.term(field, value, Values(d, field))
  }

  /** The engine indexes the values of this field as they are. */
  ghost predicate ExactTerms(e: Engine, field: string) {
    forall value: string, values: seq<string> :: e.term(field, value, values) <==> value in values
  }

  predicate WildcardMatches(d: Object, e: Engine, field: string, pattern: string, caseInsensitive: bool) {
    if Text.EndsWith(field, KEYWORD) then exists v | v in Values(d, field) :: e.wildcard(pattern, caseInsensitive, v)
    else e.textWildcard(field, pattern, caseInsensitive, Values(d, field))
  }

  /** A match on a keyword field compares whole values, elsewhere it analyses text. */
  predicate FieldMatches(d: Object, e: Engine, field: string, query: string) {
    if Text.EndsWith(field, KEYWORD)
    then query in Values(d, field)
    else e.fullText(field, query, Values(d, field))
  }

  /** How many should clauses a bool query needs. */
  function Required(must: nat, should: nat, filter: nat, minimumShouldMatch: Option<nat>): nat {
    if minimumShouldMatch.Some? then minimumShouldMatch.value
    else if should > 0 && must == 0 && filter == 0 then 1
    else 0
  }

  /** The documents a query selects. */
  predicate Matches(q: EsQuery, d: Object, e: Engine)
    decreases q, 1
  {
    match q
    case Match(field, query) => FieldMatches(d, e, field, query)
    case MatchPhrase(field, query) => e.phrase(field, query, Values(d, field))
    case Term(field, value) => TermMatches(d, e, field, value)
    case Wildcard(field, pattern, ci) => WildcardMatches(d, e, field, pattern, ci)
    case Range(field, bounds) => exists v | v in Values(d, field) :: WithinBounds(field, v, bounds, e)
    case QueryString(query) => e.queryString(query, d)
    case MultiMatch(fields, query, fuzziness, kind) => e.multiMatch(fields, query, fuzziness, kind, d)
    case MatchAll => true
    case Bool(must, should, mustNot, filter, msm) =>
      && (forall m | m in must :: Matches(m, d, e))
      && (forall m | m in filter :: Matches(m, d, e))
      && (forall m | m in mustNot :: !Matches(m, d, e))
      && CountMatches(should, d, e) >= Required(|must|, |should|, |filter|, msm)
  }

  function CountMatches(qs: seq<EsQuery>, d: Object, e: Engine): nat
    decreases qs, 0
  {
    if qs == [] then 0
    else (if Matches(qs[0], d, e) then 1 else 0) + CountMatches(qs[1..], d, e)
  }
}
