/** What a search request means, and the proof that the compiled query selects exactly that. */
module QueryMeaning {
  import opened Fields
  import opened Json
  import opened Elastic
  import opened QueryModels
  import opened Decorators
  import opened QueryDecoder
  import Text

  // ---------------------------------------------------------------- meaning of a model

  /** The model lowers, and the query it lowers to selects the document. */
  predicate Holds(q: QueryModel, d: Object, e: Engine) {
    Lower(q).Ok? && Matches(Lower(q).value, d, e)
  }

  ghost predicate AllLower(qs: seq<QueryModel>) {
    forall q :: q in qs ==> Lower(q).Ok?
  }

  ghost predicate ClausesLower(c: Clauses) {
    AllLower(c.must) && AllLower(c.should) && AllLower(c.mustNot) && AllLower(c.filter)
  }

  function CountIf<T>(s: seq<T>, p: T -> bool): nat {
    if s == [] then 0 else (if p(s[0]) then 1 else 0) + CountIf(s[1..], p)
  }

  function CountHolds(qs: seq<QueryModel>, d: Object, e: Engine): nat {
    CountIf(qs, q => Holds(q, d, e))
  }

  /** A clause list lowers exactly when each of its clauses does, clause by clause and in order. */
  lemma {:induction false} LowerAllPointwise(qs: seq<QueryModel>)
    ensures LowerAll(qs).Ok? <==> AllLower(qs)
    ensures LowerAll(qs).Ok? ==>
              && |LowerAll(qs).value| == |qs|
              && forall i :: 0 <= i < |qs| ==> Lower(qs[i]) == Ok(LowerAll(qs).value[i])
  {
    if qs == [] {
    } else {
      LowerAllPointwise(qs[1..]);
      FirstAndRest(qs);
    }
  }

  lemma FirstAndRest(qs: seq<QueryModel>)
    requires qs != []
    ensures AllLower(qs) <==> Lower(qs[0]).Ok? && AllLower(qs[1..])
  {
    assert forall q :: q in qs <==> q == qs[0] || q in qs[1..];
  }

  lemma {:induction false} CountLowered(qs: seq<QueryModel>, d: Object, e: Engine)
    requires AllLower(qs)
    ensures LowerAll(qs).Ok? && CountMatches(LowerAll(qs).value, d, e) == CountHolds(qs, d, e)
  {
    if qs == [] {
    } else {
      CountLowered(qs[1..], d, e);
      LowerAllPointwise(qs);
      assert LowerAll(qs).value[1..] == LowerAll(qs[1..]).value;
    }
  }

  lemma AllPointwise<S, T>(s: seq<S>, t: seq<T>, p: S -> bool, r: T -> bool)
    requires |s| == |t| && forall i :: 0 <= i < |s| ==> p(s[i]) == r(t[i])
    ensures (forall x | x in s :: p(x)) <==> (forall y | y in t :: r(y))
  {
    if forall x | x in s :: p(x) {
      forall y | y in t
        ensures r(y)
      {
        var i :| 0 <= i < |t| && t[i] == y;
        assert s[i] in s;
      }
    } else {
      var x :| x in s && !p(x);
      var i :| 0 <= i < |s| && s[i] == x;
      assert t[i] in t;
    }
  }

  lemma LoweredMembers(qs: seq<QueryModel>, d: Object, e: Engine)
    requires AllLower(qs)
    ensures LowerAll(qs).Ok?
    ensures (forall m | m in LowerAll(qs).value :: Matches(m, d, e)) <==> (forall q | q in qs :: Holds(q, d, e))
    ensures (forall m | m in LowerAll(qs).value :: !Matches(m, d, e)) <==> (forall q | q in qs :: !Holds(q, d, e))
  {
    LowerAllPointwise(qs);
    AllPointwise(LowerAll(qs).value, qs, m => Matches(m, d, e), q => Holds(q, d, e));
    AllPointwise(LowerAll(qs).value, qs, m => !Matches(m, d, e), q => !Holds(q, d, e));
  }

  lemma LowerBoolShape(q: QueryModel)
    requires q.queryType == Some(BOOL)
    requires AllLower(q.must) && AllLower(q.should) && AllLower(q.mustNot) && AllLower(q.filter)
    ensures LowerAll(q.must).Ok? && LowerAll(q.should).Ok? && LowerAll(q.mustNot).Ok? && LowerAll(q.filter).Ok?
    ensures Lower(q) == Ok(Bool(LowerAll(q.must).value, LowerAll(q.should).value, LowerAll(q.mustNot).value,
                                LowerAll(q.filter).value, q.minimumShouldMatch))
    ensures |LowerAll(q.must).value| == |q.must|
    ensures |LowerAll(q.should).value| == |q.should|
    ensures |LowerAll(q.filter).value| == |q.filter|
  {
    LowerAllPointwise(q.must);
    LowerAllPointwise(q.should);
    LowerAllPointwise(q.mustNot);
    LowerAllPointwise(q.filter);
  }

  /** The bool rules, read on models instead of lowered queries. */
  lemma BoolHolds(q: QueryModel, d: Object, e: Engine)
    requires q.queryType == Some(BOOL)
    requires AllLower(q.must) && AllLower(q.should) && AllLower(q.mustNot) && AllLower(q.filter)
    ensures Lower(q).Ok?
    ensures Holds(q, d, e) <==>
            && (forall m | m in q.must :: Holds(m, d, e))
            && (forall m | m in q.filter :: Holds(m, d, e))
            && (forall m | m in q.mustNot :: !Holds(m, d, e))
            && CountHolds(q.should, d, e) >= Required(|q.must|, |q.should|, |q.filter|, q.minimumShouldMatch)
  {
    LowerBoolShape(q);
    LoweredMembers(q.must, d, e);
    LoweredMembers(q.filter, d, e);
    LoweredMembers(q.mustNot, d, e);
    CountLowered(q.should, d, e);
    BoolRules(Lower(q).value, d, e);
  }

  lemma BoolRules(q: EsQuery, d: Object, e: Engine)
    requires q.Bool?
    ensures Matches(q, d, e) <==>
            && (forall m | m in q.must :: Matches(m, d, e))
            && (forall m | m in q.filter :: Matches(m, d, e))
            && (forall m | m in q.mustNot :: !Matches(m, d, e))
            && CountMatches(q.should, d, e) >= Required(|q.must|, |q.should|, |q.filter|, q.minimumShouldMatch)
  {
  }

  lemma {:induction false} SomeHolds(qs: seq<QueryModel>, d: Object, e: Engine)
    ensures CountHolds(qs, d, e) >= 1 <==> exists q :: q in qs && Holds(q, d, e)
  {
    if qs == [] {
    } else {
      SomeHolds(qs[1..], d, e);
      assert forall q :: q in qs <==> q == qs[0] || q in qs[1..];
    }
  }

  /** A bool of should clauses alone needs one of them; without clauses it selects everything. */
  lemma ShouldOnly(qs: seq<QueryModel>, d: Object, e: Engine)
    requires AllLower(qs)
    ensures Lower(BOOL_MODEL.(should := qs)).Ok?
    ensures Holds(BOOL_MODEL.(should := qs), d, e) <==> qs == [] || exists q :: q in qs && Holds(q, d, e)
  {
    BoolHolds(BOOL_MODEL.(should := qs), d, e);
    SomeHolds(qs, d, e);
  }

  lemma OneShould(qs: seq<QueryModel>, d: Object, e: Engine)
    requires AllLower(qs)
    ensures Lower(BOOL_MODEL.(should := qs, minimumShouldMatch := Some(1))).Ok?
    ensures Holds(BOOL_MODEL.(should := qs, minimumShouldMatch := Some(1)), d, e)
       <==> exists q :: q in qs && Holds(q, d, e)
  {
    BoolHolds(BOOL_MODEL.(should := qs, minimumShouldMatch := Some(1)), d, e);
    SomeHolds(qs, d, e);
  }

  lemma MustOnly(qs: seq<QueryModel>, fields: Option<seq<string>>, d: Object, e: Engine)
    requires AllLower(qs)
    ensures Lower(BOOL_MODEL.(must := qs, includeFields := fields)).Ok?
    ensures Holds(BOOL_MODEL.(must := qs, includeFields := fields), d, e) <==> forall q | q in qs :: Holds(q, d, e)
  {
    BoolHolds(BOOL_MODEL.(must := qs, includeFields := fields), d, e);
  }

  // ---------------------------------------------------------------- meaning of a request

  /** One requested value of a term criterion. */
  predicate ValueHolds(field: string, value: string, d: Object, e: Engine) {
    if field == "description" || Text.StartsWith(field, "location") then FieldMatches(d, e, field, value)
    else if field == "tags" then e.phrase(field, value, Values(d, field))
    else if field == "fileFormat" then exists v | v in Values(d, field) :: e.wildcard(Text.ToLower(value), true, v)
    else value in Values(d, field)
  }

  function Printed(v: Scalar): string {
    match v
    case VText(s) => s
    case VNumber(lexeme, _) => lexeme
    case VNull => "null"
  }

  predicate IsBetween(t: string) { t == BETWEEN_RANGE || t == BETWEEN_TEMPORAL }

  predicate IsBefore(t: string) { t == BEFORE_RANGE || t == BEFORE_TEMPORAL }

  predicate IsAfter(t: string) { t == AFTER_RANGE || t == AFTER_TEMPORAL }

  /** The criteria the decorator compiles without throwing. */
  predicate Compiles(c: Criterion) {
    var t := TypeOf(c);
    || (t == TERM_SEARCH && forall v | v in c.values :: !v.VNull?)
    || (IsBetween(t) && |c.values| == 2 && !c.values[0].VNull? && !c.values[1].VNull?)
    || ((IsBefore(t) || IsAfter(t)) && |c.values| >= 1 && !c.values[0].VNull?)
  }

  /** A criterion as a condition on documents. An empty list of term values asks for nothing. */
  predicate CriterionHolds(c: Criterion, d: Object, e: Engine)
    requires Compiles(c)
  {
    var t := TypeOf(c);
    if t == TERM_SEARCH then
      c.values == [] || exists v | v in c.values :: ValueHolds(c.field, Printed(v), d, e)
    else if IsBetween(t) then
      exists v | v in Values(d, c.field) ::
        e.instant(c.field, Printed(c.values[0])) <= e.instant(c.field, v) <= e.instant(c.field, Printed(c.values[1]))
    else if IsBefore(t) then
      exists v | v in Values(d, c.field) :: e.instant(c.field, v) < e.instant(c.field, Printed(c.values[0]))
    else
      exists v | v in Values(d, c.field) :: e.instant(c.field, v) > e.instant(c.field, Printed(c.values[0]))
  }

  predicate TextHolds(r: TextRequest, d: Object, e: Engine)
    requires r.q.Some?
  {
    if r.fuzzy == Some(true) then
      || e.multiMatch(TEXT_FIELDS, r.q.value, Some("AUTO"), None, d)
      || e.multiMatch(TEXT_FIELDS, r.q.value, None, Some("BoolPrefix"), d)
    else e.queryString(r.q.value, d)
  }

  predicate SignedIn(r: AccessRequest) {
    r.sub.Some? && r.sub.value != ""
  }

  predicate AccessAllows(r: AccessRequest, d: Object, e: Engine) {
    if SignedIn(r) then
      if r.myAssets == Some(true) then FieldMatches(d, e, OWNER, r.sub.value)
      else
        || FieldMatches(d, e, ACCESS_POLICY, OPEN)
        || FieldMatches(d, e, ACCESS_POLICY, RESTRICTED)
        || (FieldMatches(d, e, ACCESS_POLICY, PRIVATE) && FieldMatches(d, e, OWNER, r.sub.value))
    else !FieldMatches(d, e, ACCESS_POLICY, PRIVATE)
  }

  /** An AI model or data bank whose data is missing or whose publishing is pending. */
  predicate Withheld(d: Object, e: Engine) {
    && (DATA_BANK in Values(d, TYPE) || AI_MODEL in Values(d, TYPE))
    && (TermMatches(d, e, DATA_UPLOAD_STATUS, "false") || PENDING in Values(d, PUBLISH_STATUS))
  }

  predicate CriteriaHold(r: CriteriaRequest, d: Object, e: Engine)
    requires r.searchCriteria.Some? ==> forall c | c in r.searchCriteria.value :: Compiles(c)
  {
    r.searchCriteria.Some? ==> forall c | c in r.searchCriteria.value :: CriterionHolds(c, d, e)
  }

  // ---------------------------------------------------------------- which requests are accepted

  predicate CriteriaAccepted(r: Option<CriteriaRequest>) {
    && r.Some?
    && (r.value.searchCriteria.Some? ==>
          && r.value.searchCriteria.value != []
          && forall c | c in r.value.searchCriteria.value :: Compiles(c))
  }

  predicate TextAccepted(r: Option<TextRequest>) {
    r.Some? && r.value.q.Some? && !Text.IsBlank(r.value.q.value)
  }

  ghost predicate ResponseFilterAccepted(r: Option<ResponseFilterRequest>) {
    && r.Some?
    && (r.value.searchType.Some? && Occurs(RESPONSE_FILTER, r.value.searchType.value) ==>
          && r.value.search == Some(false)
          && (|| (r.value.attribute.Some? && r.value.attribute.value != [])
              || (r.value.filter.Some? && r.value.filter.value != [])))
  }

  ghost predicate Occurs(part: string, s: string) {
    exists before: string, after: string :: s == before + part + after
  }

  /** The name of the block occurs in the search type. */
  ghost predicate Names(r: SearchRequest, block: string) {
    r.searchType.Some? && Occurs(block, r.searchType.value)
  }

  ghost predicate Accepted(r: SearchRequest) {
    && (Names(r, SEARCH_CRITERIA) ==> CriteriaAccepted(r.criteria))
    && (Names(r, TEXT_SEARCH) ==> TextAccepted(r.text))
    && (Names(r, RESPONSE_FILTER) ==> ResponseFilterAccepted(r.responseFilter))
    && (Names(r, SEARCH_CRITERIA) || Names(r, TEXT_SEARCH) || Names(r, RESPONSE_FILTER))
  }

  /** The documents a search request asks for. */
  ghost predicate Satisfies(r: SearchRequest, d: Object, e: Engine)
    requires Accepted(r)
  {
    && (Names(r, TEXT_SEARCH) ==> TextHolds(r.text.value, d, e))
    && (Names(r, SEARCH_CRITERIA) ==> CriteriaHold(r.criteria.value, d, e))
    && AccessAllows(r.access, d, e)
    && !Withheld(d, e)
  }

  lemma ContainsExactly(s: string, part: string)
    ensures Text.Contains(s, part) <==> Occurs(part, s)
  {
    if Text.Contains(s, part) {
      var i :| 0 <= i <= |s| && Text.StartsWith(s[i..], part);
      assert s == s[..i] + part + s[i + |part|..];
    }
    if Occurs(part, s) {
      var before, after :| s == before + part + after;
      assert s[|before|..|before| + |part|] == part;
      Text.ContainsAt(s, part, |before|);
    }
  }

  /** The decoder asks for exactly the blocks the search type names. */
  lemma AsksExactly(r: SearchRequest)
    ensures Asks(r, SEARCH_CRITERIA) == Names(r, SEARCH_CRITERIA)
    ensures Asks(r, TEXT_SEARCH) == Names(r, TEXT_SEARCH)
    ensures Asks(r, RESPONSE_FILTER) == Names(r, RESPONSE_FILTER)
  {
    if r.searchType.Some? {
      ContainsExactly(r.searchType.value, SEARCH_CRITERIA);
      ContainsExactly(r.searchType.value, TEXT_SEARCH);
      ContainsExactly(r.searchType.value, RESPONSE_FILTER);
    }
  }

  // ---------------------------------------------------------------- leaves

  lemma KeywordBase(field: string)
    requires !Text.EndsWith(field, KEYWORD)
    ensures Text.EndsWith(field + KEYWORD, KEYWORD)
    ensures BaseField(field + KEYWORD) == BaseField(field) == field
  {
    assert (field + KEYWORD)[|field|..] == KEYWORD;
    assert (field + KEYWORD)[..|field|] == field;
  }

  lemma LeafMeaning(field: string, value: string, d: Object, e: Engine)
    ensures Holds(Leaf(MATCH, map[FIELD := PStr(field), VALUE := PStr(value)]), d, e)
       <==> FieldMatches(d, e, field, value)
    ensures Holds(Leaf(MATCH_PHRASE, map[FIELD := PStr(field), VALUE := PStr(value)]), d, e)
       <==> e.phrase(field, value, Values(d, field))
    ensures Holds(Leaf(TERM, map[FIELD := PStr(field), VALUE := PStr(value)]), d, e)
       <==> TermMatches(d, e, field, value)
  {
  }

  lemma WildcardMeaning(field: string, pattern: string, d: Object, e: Engine)
    requires !Text.EndsWith(field, KEYWORD)
    ensures Holds(Leaf(WILDCARD, map[FIELD := PStr(field + KEYWORD), VALUE := PStr(pattern),
                                     CASE_INSENSITIVE := PBool(true)]), d, e)
       <==> exists v | v in Values(d, field) :: e.wildcard(pattern, true, v)
  {
    KeywordBase(field);
  }

  lemma KeywordLeafMeaning(field: string, value: string, d: Object, e: Engine)
    ensures Holds(Leaf(TERM, map[FIELD := PStr(if Text.EndsWith(field, KEYWORD) then field else field + KEYWORD),
                                 VALUE := PStr(value)]), d, e)
       <==> value in Values(d, field)
  {
    if !Text.EndsWith(field, KEYWORD) {
      KeywordBase(field);
    }
  }

  lemma TextLeafMeaning(field: string, value: string, d: Object, e: Engine)
    requires field == DESCRIPTION || Text.StartsWith(field, LOCATION) || field == TAGS
    ensures Lower(TermLeaf(field, value)).Ok?
    ensures Holds(TermLeaf(field, value), d, e) <==> ValueHolds(field, value, d, e)
  {
    LeafMeaning(field, value, d, e);
  }

  lemma FormatLeafMeaning(value: string, d: Object, e: Engine)
    ensures Lower(TermLeaf(FILE_FORMAT, value)).Ok?
    ensures Holds(TermLeaf(FILE_FORMAT, value), d, e) <==> ValueHolds(FILE_FORMAT, value, d, e)
  {
    WildcardMeaning(FILE_FORMAT, Text.ToLower(value), d, e);
  }

  lemma TermLeafMeaning(field: string, value: string, d: Object, e: Engine)
    ensures Lower(TermLeaf(field, value)).Ok?
    ensures Holds(TermLeaf(field, value), d, e) <==> ValueHolds(field, value, d, e)
  {
    if field == DESCRIPTION || Text.StartsWith(field, LOCATION) || field == TAGS {
      TextLeafMeaning(field, value, d, e);
    } else if field == FILE_FORMAT {
      FormatLeafMeaning(value, d, e);
    } else {
      KeywordLeafMeaning(field, value, d, e);
    }
  }

  lemma TermLeavesStep(field: string, values: seq<Scalar>)
    requires values != []
    ensures var n := |values| - 1;
            && (TermLeaves(field, values).Ok? <==> TermLeaves(field, values[..n]).Ok? && !values[n].VNull?)
            && (TermLeaves(field, values).Ok? ==>
                  TermLeaves(field, values).value
                    == TermLeaves(field, values[..n]).value + [TermLeaf(field, Printed(values[n]))])
  {
  }

  lemma InitAndLast<T>(s: seq<T>)
    requires s != []
    ensures s == s[..|s| - 1] + [s[|s| - 1]]
    ensures forall x :: x in s <==> x in s[..|s| - 1] || x == s[|s| - 1]
  {
  }

  /** One leaf per value, in order, unless a value is null. */
  lemma {:induction false} TermLeavesPointwise(field: string, values: seq<Scalar>)
    ensures TermLeaves(field, values).Ok? <==> forall v | v in values :: !v.VNull?
    ensures TermLeaves(field, values).Ok? ==>
              && |TermLeaves(field, values).value| == |values|
              && forall i :: 0 <= i < |values| ==>
                   TermLeaves(field, values).value[i] == TermLeaf(field, Printed(values[i]))
    decreases |values|
  {
    if values == [] {
    } else {
      TermLeavesPointwise(field, values[..|values| - 1]);
      TermLeavesStep(field, values);
      InitAndLast(values);
    }
  }

  lemma TermLeavesMeaning(field: string, values: seq<Scalar>, d: Object, e: Engine)
    ensures TermLeaves(field, values).Ok? <==> forall v | v in values :: !v.VNull?
    ensures TermLeaves(field, values).Ok? ==>
              && AllLower(TermLeaves(field, values).value)
              && |TermLeaves(field, values).value| == |values|
              && ((exists q :: q in TermLeaves(field, values).value && Holds(q, d, e))
                    <==> exists v | v in values :: ValueHolds(field, Printed(v), d, e))
  {
    TermLeavesPointwise(field, values);
    if TermLeaves(field, values).Ok? {
      var leaves := TermLeaves(field, values).value;
      forall i | 0 <= i < |values|
        ensures Lower(leaves[i]).Ok? && (Holds(leaves[i], d, e) <==> ValueHolds(field, Printed(values[i]), d, e))
      {
        TermLeafMeaning(field, Printed(values[i]), d, e);
      }
      AllPointwise(values, leaves, v => !ValueHolds(field, Printed(v), d, e), q => !Holds(q, d, e));
    }
  }

  lemma RangeModelMeaning(field: string, ops: map<string, string>, b: Bounds, d: Object, e: Engine)
    requires FIELD !in ops
    requires BoundsOf(RangeModel(field, ops).params) == b
    ensures Lower(RangeModel(field, ops)) == Ok(Range(field, b))
    ensures Holds(RangeModel(field, ops), d, e) <==> exists v | v in Values(d, field) :: WithinBounds(field, v, b, e)
  {
  }

  lemma BetweenMeaning(c: Criterion, d: Object, e: Engine)
    requires IsBetween(TypeOf(c)) && Compiles(c)
    ensures CriterionModel(c).Ok? && Lower(CriterionModel(c).value).Ok?
    ensures Holds(CriterionModel(c).value, d, e) <==> CriterionHolds(c, d, e)
  {
    var lo, hi := Printed(c.values[0]), Printed(c.values[1]);
    RangeModelMeaning(c.field, map[GREATER_THAN_EQUALS := lo, LESS_THAN_EQUALS := hi],
                      Bounds(Some(lo), Some(hi), None, None), d, e);
  }

  lemma OneSidedMeaning(c: Criterion, d: Object, e: Engine)
    requires (IsBefore(TypeOf(c)) || IsAfter(TypeOf(c))) && Compiles(c)
    ensures CriterionModel(c).Ok? && Lower(CriterionModel(c).value).Ok?
    ensures Holds(CriterionModel(c).value, d, e) <==> CriterionHolds(c, d, e)
  {
    var v := Printed(c.values[0]);
    if IsBefore(TypeOf(c)) {
      RangeModelMeaning(c.field, map[LESS_THAN := v], Bounds(None, None, None, Some(v)), d, e);
    } else {
      RangeModelMeaning(c.field, map[GREATER_THAN := v], Bounds(None, None, Some(v), None), d, e);
    }
  }

  /** A criterion compiles exactly when it is well formed, and then means what it says. */
  lemma CriterionMeaning(c: Criterion, d: Object, e: Engine)
    ensures CriterionModel(c).Ok? <==> Compiles(c)
    ensures Compiles(c) ==>
              && Lower(CriterionModel(c).value).Ok?
              && (Holds(CriterionModel(c).value, d, e) <==> CriterionHolds(c, d, e))
  {
    if TypeOf(c) == TERM_SEARCH {
      TermLeavesMeaning(c.field, c.values, d, e);
      if Compiles(c) {
        ShouldOnly(TermLeaves(c.field, c.values).value, d, e);
      }
    } else if Compiles(c) {
      if IsBetween(TypeOf(c)) {
        BetweenMeaning(c, d, e);
      } else {
        OneSidedMeaning(c, d, e);
      }
    }
  }

  lemma OneMoreModel(cs: seq<Criterion>, init: seq<QueryModel>, last: QueryModel)
    requires cs != [] && CriterionModels(cs[..|cs| - 1]) == Ok(init) && CriterionModel(cs[|cs| - 1]) == Ok(last)
    ensures CriterionModels(cs) == Ok(init + [last])
  {
  }

  lemma NoMoreModels(cs: seq<Criterion>)
    requires cs != [] && (CriterionModels(cs[..|cs| - 1]).Err? || CriterionModel(cs[|cs| - 1]).Err?)
    ensures CriterionModels(cs).Err?
  {
  }

  lemma {:induction false} CriterionModelsPointwise(cs: seq<Criterion>)
    ensures CriterionModels(cs).Ok? <==> forall c | c in cs :: CriterionModel(c).Ok?
    ensures CriterionModels(cs).Ok? ==>
              && |CriterionModels(cs).value| == |cs|
              && forall i :: 0 <= i < |cs| ==> CriterionModel(cs[i]) == Ok(CriterionModels(cs).value[i])
    decreases |cs|
  {
    if cs == [] {
    } else {
      var init, last := CriterionModels(cs[..|cs| - 1]), CriterionModel(cs[|cs| - 1]);
      CriterionModelsPointwise(cs[..|cs| - 1]);
      InitAndLast(cs);
      if init.Ok? && last.Ok? {
        OneMoreModel(cs, init.value, last.value);
      } else {
        NoMoreModels(cs);
      }
    }
  }

  ghost predicate MeansCriterion(c: Criterion, d: Object, e: Engine) {
    && (CriterionModel(c).Ok? <==> Compiles(c))
    && (Compiles(c) ==>
          && Lower(CriterionModel(c).value).Ok?
          && (Holds(CriterionModel(c).value, d, e) <==> CriterionHolds(c, d, e)))
  }

  lemma ModelsMean(cs: seq<Criterion>, models: seq<QueryModel>, d: Object, e: Engine)
    requires |models| == |cs| && forall i :: 0 <= i < |cs| ==> CriterionModel(cs[i]) == Ok(models[i])
    requires forall c | c in cs :: Compiles(c) && MeansCriterion(c, d, e)
    ensures AllLower(models)
    ensures (forall q | q in models :: Holds(q, d, e)) <==> forall c | c in cs :: CriterionHolds(c, d, e)
  {
    forall i | 0 <= i < |cs|
      ensures Lower(models[i]).Ok? && (Holds(models[i], d, e) <==> Compiles(cs[i]) && CriterionHolds(cs[i], d, e))
    {
      assert cs[i] in cs && MeansCriterion(cs[i], d, e);
    }
    AllPointwise(cs, models, c => Compiles(c) && CriterionHolds(c, d, e), q => Holds(q, d, e));
  }

  /** The criteria compile exactly when each of them does; together they select the conjunction. */
  lemma CriterionModelsMeaning(cs: seq<Criterion>, d: Object, e: Engine)
    ensures CriterionModels(cs).Ok? <==> forall c | c in cs :: Compiles(c)
    ensures CriterionModels(cs).Ok? ==>
              && AllLower(CriterionModels(cs).value)
              && ((forall q | q in CriterionModels(cs).value :: Holds(q, d, e))
                    <==> forall c | c in cs :: CriterionHolds(c, d, e))
  {
    CriterionModelsPointwise(cs);
    forall c | c in cs
      ensures MeansCriterion(c, d, e)
    {
      CriterionMeaning(c, d, e);
    }
    if CriterionModels(cs).Ok? {
      ModelsMean(cs, CriterionModels(cs).value, d, e);
    }
  }
}
