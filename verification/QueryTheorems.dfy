/** Main results about the query compiler. */
module QueryTheorems {
  import opened Fields
  import opened Json
  import opened Elastic
  import opened QueryModels
  import opened Decorators
  import opened QueryDecoder
  import opened QueryMeaning
  import SearchTypes
  import Text

  // ---------------------------------------------------------------- clause blocks

  /** A block of clauses without should clauses, as a condition on documents. */
  predicate ClausesHold(c: Clauses, d: Object, e: Engine) {
    && (forall q | q in c.must :: Holds(q, d, e))
    && (forall q | q in c.filter :: Holds(q, d, e))
    && (forall q | q in c.mustNot :: !Holds(q, d, e))
  }

  ghost predicate Plain(c: Clauses) {
    c.should == [] && ClausesLower(c)
  }

  lemma PlusHolds(a: Clauses, b: Clauses, d: Object, e: Engine)
    requires Plain(a) && Plain(b)
    ensures Plain(a.Plus(b))
    ensures ClausesHold(a.Plus(b), d, e) <==> ClausesHold(a, d, e) && ClausesHold(b, d, e)
  {
    var c := a.Plus(b);
    assert forall q :: q in c.must <==> q in a.must || q in b.must;
    assert forall q :: q in c.filter <==> q in a.filter || q in b.filter;
    assert forall q :: q in c.mustNot <==> q in a.mustNot || q in b.mustNot;
  }

  lemma AssembleHolds(c: Clauses, d: Object, e: Engine)
    requires Plain(c)
    ensures Lower(Assemble(c)).Ok?
    ensures Holds(Assemble(c), d, e) <==> ClausesHold(c, d, e)
  {
    BoolHolds(Assemble(c), d, e);
  }

  lemma MatchMeaning(field: string, value: string, d: Object, e: Engine)
    ensures Lower(MatchModel(field, value)).Ok?
    ensures Holds(MatchModel(field, value), d, e) <==> FieldMatches(d, e, field, value)
  {
  }

  lemma TermMeaning(field: string, value: string, d: Object, e: Engine)
    ensures Lower(TermModel(field, value)).Ok?
    ensures Holds(TermModel(field, value), d, e) <==> TermMatches(d, e, field, value)
  {
  }

  lemma CriteriaBlockMeaning(r: CriteriaRequest, d: Object, e: Engine)
    ensures CriteriaClauses(r).Ok? <==> CriteriaAccepted(Some(r))
    ensures CriteriaClauses(r).Ok? ==>
              && Plain(CriteriaClauses(r).value)
              && (ClausesHold(CriteriaClauses(r).value, d, e) <==> CriteriaHold(r, d, e))
  {
    if r.searchCriteria.Some? {
      var cs := r.searchCriteria.value;
      CriterionModelsMeaning(cs, d, e);
      if CriteriaClauses(r).Ok? {
        MustOnly(CriterionModels(cs).value, None, d, e);
      }
    }
  }

  lemma TextModelsMeaning(q: string, d: Object, e: Engine)
    ensures Lower(FuzzyModel(q)) == Ok(MultiMatch(TEXT_FIELDS, q, Some("AUTO"), None))
    ensures Lower(PrefixModel(q)) == Ok(MultiMatch(TEXT_FIELDS, q, None, Some("BoolPrefix")))
    ensures Lower(Leaf(TEXT, map[Q_VALUE := PStr(q)])) == Ok(QueryString(q))
  {
  }

  lemma FuzzyTextMeaning(q: string, d: Object, e: Engine)
    ensures var m := BOOL_MODEL.(should := [FuzzyModel(q), PrefixModel(q)], minimumShouldMatch := Some(1));
            && Lower(m).Ok?
            && Holds(m, d, e) == (e.multiMatch(TEXT_FIELDS, q, Some("AUTO"), None, d)
                                  || e.multiMatch(TEXT_FIELDS, q, None, Some("BoolPrefix"), d))
  {
    TextModelsMeaning(q, d, e);
    var models := [FuzzyModel(q), PrefixModel(q)];
    OneShould(models, d, e);
    assert models[0] in models && models[1] in models;
  }

  lemma PlainTextMeaning(q: string, d: Object, e: Engine)
    ensures var m := BOOL_MODEL.(should := [Leaf(TEXT, map[Q_VALUE := PStr(q)])], minimumShouldMatch := Some(1));
            Lower(m).Ok? && (Holds(m, d, e) <==> e.queryString(q, d))
  {
    TextModelsMeaning(q, d, e);
    var models := [Leaf(TEXT, map[Q_VALUE := PStr(q)])];
    OneShould(models, d, e);
    assert models[0] in models;
  }

  lemma TextBlockMeaning(r: TextRequest, d: Object, e: Engine)
    ensures TextClauses(r).Ok? <==> TextAccepted(Some(r))
    ensures TextClauses(r).Ok? ==>
              Plain(TextClauses(r).value) && (ClausesHold(TextClauses(r).value, d, e) <==> TextHolds(r, d, e))
  {
    if TextClauses(r).Ok? {
      FuzzyTextMeaning(r.q.value, d, e);
      PlainTextMeaning(r.q.value, d, e);
      OneBlock(MUST, TextClauses(r).value.must[0], d, e);
    }
  }

  /** The text flags as they are described: fuzzy asks for approximate matches, autoComplete for matches as
      the user types, and without either flag the words are searched as they are. */
  predicate FlagsHold(r: TextRequest, d: Object, e: Engine)
    requires r.q.Some?
  {
    || (r.fuzzy == Some(true) && e.multiMatch(TEXT_FIELDS, r.q.value, Some("AUTO"), None, d))
    || (r.autoComplete == Some(true) && e.multiMatch(TEXT_FIELDS, r.q.value, None, Some("BoolPrefix"), d))
    || (r.fuzzy != Some(true) && r.autoComplete != Some(true) && e.queryString(r.q.value, d))
  }

  /** The compiled text clause selects what the flags are described to ask for. */
  ghost predicate FlagsHonoured(r: TextRequest)
    requires TextClauses(r).Ok?
  {
    forall d: Object, e: Engine :: ClausesHold(TextClauses(r).value, d, e) <==> FlagsHold(r, d, e)
  }

  /** An engine for which only matches as the user types succeed. */
  const PREFIX_ENGINE: Engine :=
    ANY_ENGINE.(multiMatch := (fields, query, fuzziness, kind, d) => kind == Some("BoolPrefix"))

  lemma PrefixEngineMeaning(r: TextRequest)
    requires TextClauses(r).Ok?
    ensures ClausesHold(TextClauses(r).value, map[], PREFIX_ENGINE) <==> r.fuzzy == Some(true)
    ensures FlagsHold(r, map[], PREFIX_ENGINE) <==> r.autoComplete == Some(true)
  {
    TextBlockMeaning(r, map[], PREFIX_ENGINE);
  }

  /** The code meets the description of the two flags exactly when they are set together or not at all. */
  lemma FlagsHonouredExactly(r: TextRequest)
    requires TextAccepted(Some(r))
    ensures TextClauses(r).Ok?
    ensures FlagsHonoured(r) <==> (r.fuzzy == Some(true) <==> r.autoComplete == Some(true))
  {
    TextBlockMeaning(r, map[], ANY_ENGINE);
    PrefixEngineMeaning(r);
    if r.fuzzy == Some(true) <==> r.autoComplete == Some(true) {
      forall d: Object, e: Engine
        ensures ClausesHold(TextClauses(r).value, d, e) <==> FlagsHold(r, d, e)
      {
        TextBlockMeaning(r, d, e);
      }
    } else {
      assert !(ClausesHold(TextClauses(r).value, map[], PREFIX_ENGINE) <==> FlagsHold(r, map[], PREFIX_ENGINE));
    }
  }

  /** The flag that is set by itself and ignored: the search misses what completes the query. */
  lemma AutoCompleteAloneIsIgnored()
    ensures var r := TextRequest(Some("wat"), Some(false), Some(true));
            && TextAccepted(Some(r))
            && !ClausesHold(TextClauses(r).value, map[], PREFIX_ENGINE)
            && FlagsHold(r, map[], PREFIX_ENGINE)
  {
    var r := TextRequest(Some("wat"), Some(false), Some(true));
    assert !Text.IsWhitespace(r.q.value[0]);
    TextBlockMeaning(r, map[], PREFIX_ENGINE);
  }

  lemma Conjunction(a: QueryModel, b: QueryModel, d: Object, e: Engine)
    requires Lower(a).Ok? && Lower(b).Ok?
    ensures Lower(BOOL_MODEL.(must := [a, b])).Ok?
    ensures Holds(BOOL_MODEL.(must := [a, b]), d, e) <==> Holds(a, d, e) && Holds(b, d, e)
  {
    var qs := [a, b];
    MustOnly(qs, None, d, e);
    assert qs[0] in qs && qs[1] in qs;
  }

  /** Without must and filter clauses, one should clause has to hold. */
  lemma Disjunction(a: QueryModel, b: QueryModel, d: Object, e: Engine)
    requires Lower(a).Ok? && Lower(b).Ok?
    ensures Lower(BOOL_MODEL.(should := [a, b])).Ok?
    ensures Holds(BOOL_MODEL.(should := [a, b]), d, e) <==> Holds(a, d, e) || Holds(b, d, e)
  {
    var qs := [a, b];
    ShouldOnly(qs, d, e);
    assert qs[0] in qs && qs[1] in qs;
  }

  lemma OneOfThree(a: QueryModel, b: QueryModel, c: QueryModel, d: Object, e: Engine)
    requires Lower(a).Ok? && Lower(b).Ok? && Lower(c).Ok?
    ensures Lower(BOOL_MODEL.(should := [a, b, c], minimumShouldMatch := Some(1))).Ok?
    ensures Holds(BOOL_MODEL.(should := [a, b, c], minimumShouldMatch := Some(1)), d, e)
       <==> Holds(a, d, e) || Holds(b, d, e) || Holds(c, d, e)
  {
    var qs := [a, b, c];
    OneShould(qs, d, e);
    assert qs[0] in qs && qs[1] in qs && qs[2] in qs;
  }

  lemma OneOfFive(a: QueryModel, b: QueryModel, c: QueryModel, x: QueryModel, y: QueryModel, d: Object, e: Engine)
    requires Lower(a).Ok? && Lower(b).Ok? && Lower(c).Ok? && Lower(x).Ok? && Lower(y).Ok?
    ensures Lower(BOOL_MODEL.(should := [a, b, c, x, y])).Ok?
    ensures Holds(BOOL_MODEL.(should := [a, b, c, x, y]), d, e)
       <==> Holds(a, d, e) || Holds(b, d, e) || Holds(c, d, e) || Holds(x, d, e) || Holds(y, d, e)
  {
    var qs := [a, b, c, x, y];
    ShouldOnly(qs, d, e);
    assert qs[0] in qs && qs[1] in qs && qs[2] in qs && qs[3] in qs && qs[4] in qs;
  }

  lemma OneBlock(t: FilterType, q: QueryModel, d: Object, e: Engine)
    requires Lower(q).Ok? && t != FilterType.SHOULD
    ensures Plain(One(t, q))
    ensures ClausesHold(One(t, q), d, e) <==> if t == MUST_NOT then !Holds(q, d, e) else Holds(q, d, e)
  {
    assert q in [q];
  }

  lemma AccessBlockMeaning(r: AccessRequest, d: Object, e: Engine)
    ensures Plain(AccessClauses(r))
    ensures ClausesHold(AccessClauses(r), d, e) <==> AccessAllows(r, d, e)
  {
    var open, restricted, closed :=
      MatchModel(ACCESS_POLICY, OPEN), MatchModel(ACCESS_POLICY, RESTRICTED), MatchModel(ACCESS_POLICY, PRIVATE);
    MatchMeaning(ACCESS_POLICY, PRIVATE, d, e);
    if SignedIn(r) {
      var mine := MatchModel(OWNER, r.sub.value);
      MatchMeaning(OWNER, r.sub.value, d, e);
      if r.myAssets == Some(true) {
        OneBlock(MUST, mine, d, e);
      } else {
        MatchMeaning(ACCESS_POLICY, OPEN, d, e);
        MatchMeaning(ACCESS_POLICY, RESTRICTED, d, e);
        var owned := BOOL_MODEL.(must := [closed, mine]);
        Conjunction(closed, mine, d, e);
        OneOfThree(open, restricted, owned, d, e);
        OneBlock(MUST, BOOL_MODEL.(should := [open, restricted, owned], minimumShouldMatch := Some(1)), d, e);
      }
    } else {
      OneBlock(MUST_NOT, closed, d, e);
    }
  }

  lemma KeywordValues(field: string, d: Object)
    requires !Text.EndsWith(field, KEYWORD)
    ensures Values(d, field + KEYWORD) == Values(d, field)
  {
    KeywordBase(field);
  }

  lemma TypedEither(t: QueryModel, a: QueryModel, b: QueryModel, d: Object, e: Engine)
    requires Lower(t).Ok? && Lower(a).Ok? && Lower(b).Ok?
    ensures var m := BOOL_MODEL.(must := [t, BOOL_MODEL.(should := [a, b])]);
            Lower(m).Ok? && (Holds(m, d, e) <==> Holds(t, d, e) && (Holds(a, d, e) || Holds(b, d, e)))
  {
    Disjunction(a, b, d, e);
    Conjunction(t, BOOL_MODEL.(should := [a, b]), d, e);
  }

  lemma PendingTermMeaning(d: Object, e: Engine)
    ensures var q := TermModel(PUBLISH_STATUS + KEYWORD, PENDING);
            Lower(q).Ok? && (Holds(q, d, e) <==> PENDING in Values(d, PUBLISH_STATUS))
  {
    TermMeaning(PUBLISH_STATUS + KEYWORD, PENDING, d, e);
    PublishKeyword(d);
  }

  lemma TypeTermMeaning(itemType: string, d: Object, e: Engine)
    ensures var q := TermModel(TYPE_KEYWORD, itemType);
            Lower(q).Ok? && (Holds(q, d, e) <==> itemType in Values(d, TYPE))
  {
    TermMeaning(TYPE_KEYWORD, itemType, d, e);
    TypeKeyword(d);
  }

  lemma ExclusionMeaning(itemType: string, d: Object, e: Engine)
    ensures Lower(ExclusionModel(itemType)).Ok?
    ensures Holds(ExclusionModel(itemType), d, e) <==>
            && itemType in Values(d, TYPE)
            && (TermMatches(d, e, DATA_UPLOAD_STATUS, "false") || PENDING in Values(d, PUBLISH_STATUS))
  {
    UploadTermMeaning(d, e);
    PendingTermMeaning(d, e);
    TypeTermMeaning(itemType, d, e);
    TypedEither(TermModel(TYPE_KEYWORD, itemType),
                Leaf(TERM, map[FIELD := PStr(DATA_UPLOAD_STATUS), VALUE := PBool(false)]),
                TermModel(PUBLISH_STATUS + KEYWORD, PENDING), d, e);
  }

  lemma UploadTermMeaning(d: Object, e: Engine)
    ensures var q := Leaf(TERM, map[FIELD := PStr(DATA_UPLOAD_STATUS), VALUE := PBool(false)]);
            Lower(q).Ok? && (Holds(q, d, e) <==> TermMatches(d, e, DATA_UPLOAD_STATUS, "false"))
  {
  }

  lemma TypeKeyword(d: Object)
    ensures Values(d, TYPE_KEYWORD) == Values(d, TYPE)
  {
    assert TYPE_KEYWORD == TYPE + KEYWORD;
    KeywordValues(TYPE, d);
  }

  lemma PublishKeyword(d: Object)
    ensures Values(d, PUBLISH_STATUS + KEYWORD) == Values(d, PUBLISH_STATUS)
  {
    assert PUBLISH_STATUS[5] != KEYWORD[0];
    KeywordValues(PUBLISH_STATUS, d);
  }

  lemma InstanceKeyword(d: Object)
    ensures Values(d, INSTANCE + KEYWORD) == Values(d, INSTANCE)
  {
    assert INSTANCE[0] != KEYWORD[0];
    KeywordValues(INSTANCE, d);
  }

  lemma ExclusionBlockMeaning(d: Object, e: Engine)
    ensures Plain(EXCLUSION_CLAUSES)
    ensures ClausesHold(EXCLUSION_CLAUSES, d, e) <==> !Withheld(d, e)
  {
    ExclusionMeaning(DATA_BANK, d, e);
    ExclusionMeaning(AI_MODEL, d, e);
    var qs := EXCLUSION_CLAUSES.mustNot;
    assert qs[0] in qs && qs[1] in qs;
  }

  /** Where the upload status is indexed as it is, an AI model or data bank is withheld exactly when its upload
      status is false or its publish status is PENDING. */
  lemma WithheldPlainly(d: Object, e: Engine)
    requires ExactTerms(e, DATA_UPLOAD_STATUS)
    ensures Withheld(d, e) <==>
            && (DATA_BANK in Values(d, TYPE) || AI_MODEL in Values(d, TYPE))
            && ("false" in Values(d, DATA_UPLOAD_STATUS) || PENDING in Values(d, PUBLISH_STATUS))
  {
    assert DATA_UPLOAD_STATUS[8] != KEYWORD[0];
  }

  /** The response filter never changes which documents match. */
  lemma ResponseBlockMeaning(r: ResponseFilterRequest, d: Object, e: Engine)
    ensures ResponseFilterClauses(r).Ok? <==> ResponseFilterAccepted(Some(r))
    ensures ResponseFilterClauses(r).Ok? ==>
              Plain(ResponseFilterClauses(r).value) && ClausesHold(ResponseFilterClauses(r).value, d, e)
  {
    if r.searchType.Some? {
      ContainsExactly(r.searchType.value, RESPONSE_FILTER);
    }
    if ResponseFilterClauses(r).Ok? && ResponseFilterClauses(r).value != NO_CLAUSES {
      var source := if r.attribute.None? || r.attribute.value == [] then r.filter else r.attribute;
      MustOnly([], source, d, e);
    }
  }

  lemma InstanceBlockMeaning(r: InstanceRequest, d: Object, e: Engine)
    ensures Plain(InstanceClauses(r))
    ensures ClausesHold(InstanceClauses(r), d, e) <==>
            (r.instanceId.Some? && r.instanceId.value != "" ==> r.instanceId.value in Values(d, INSTANCE))
  {
    if r.instanceId.Some? && r.instanceId.value != "" {
      TermMeaning(INSTANCE + KEYWORD, r.instanceId.value, d, e);
      InstanceKeyword(d);
      OneBlock(FILTER, TermModel(INSTANCE + KEYWORD, r.instanceId.value), d, e);
    }
  }

  // ---------------------------------------------------------------- compilation preserves meaning

  lemma FiveBlocks(a: Clauses, b: Clauses, c: Clauses, x: Clauses, y: Clauses, d: Object, e: Engine)
    requires Plain(a) && Plain(b) && Plain(c) && Plain(x) && Plain(y)
    ensures Plain(NO_CLAUSES.Plus(a).Plus(b).Plus(c).Plus(x).Plus(y))
    ensures ClausesHold(NO_CLAUSES.Plus(a).Plus(b).Plus(c).Plus(x).Plus(y), d, e) <==>
            && ClausesHold(a, d, e) && ClausesHold(b, d, e) && ClausesHold(c, d, e)
            && ClausesHold(x, d, e) && ClausesHold(y, d, e)
  {
    var c1 := NO_CLAUSES.Plus(a);
    PlusHolds(NO_CLAUSES, a, d, e);
    var c2 := c1.Plus(b);
    PlusHolds(c1, b, d, e);
    var c3 := c2.Plus(c);
    PlusHolds(c2, c, d, e);
    var c4 := c3.Plus(x);
    PlusHolds(c3, x, d, e);
    PlusHolds(c4, y, d, e);
  }

  lemma AskedBlocks(r: SearchRequest, d: Object, e: Engine)
    ensures CriteriaBlock(r).Ok? <==> (Names(r, SEARCH_CRITERIA) ==> CriteriaAccepted(r.criteria))
    ensures TextBlock(r).Ok? <==> (Names(r, TEXT_SEARCH) ==> TextAccepted(r.text))
    ensures ResponseBlock(r).Ok? <==> (Names(r, RESPONSE_FILTER) ==> ResponseFilterAccepted(r.responseFilter))
    ensures CriteriaBlock(r).Ok? ==>
              && Plain(CriteriaBlock(r).value)
              && (ClausesHold(CriteriaBlock(r).value, d, e) <==>
                    (Names(r, SEARCH_CRITERIA) ==> CriteriaHold(r.criteria.value, d, e)))
    ensures TextBlock(r).Ok? ==>
              && Plain(TextBlock(r).value)
              && ClausesHold(TextBlock(r).value, d, e) == (Names(r, TEXT_SEARCH) ==> TextHolds(r.text.value, d, e))
    ensures ResponseBlock(r).Ok? ==> Plain(ResponseBlock(r).value) && ClausesHold(ResponseBlock(r).value, d, e)
  {
    AsksExactly(r);
    if r.criteria.Some? { CriteriaBlockMeaning(r.criteria.value, d, e); }
    if r.text.Some? { TextBlockMeaning(r.text.value, d, e); }
    if r.responseFilter.Some? { ResponseBlockMeaning(r.responseFilter.value, d, e); }
  }

  lemma SearchClausesMeaning(r: SearchRequest, d: Object, e: Engine)
    ensures SearchClauses(r).Ok? <==> Accepted(r)
    ensures Accepted(r) ==>
              Plain(SearchClauses(r).value) && (ClausesHold(SearchClauses(r).value, d, e) <==> Satisfies(r, d, e))
  {
    AsksExactly(r);
    AskedBlocks(r, d, e);
    if Accepted(r) {
      AccessBlockMeaning(r.access, d, e);
      ExclusionBlockMeaning(d, e);
      FiveBlocks(CriteriaBlock(r).value, TextBlock(r).value, AccessClauses(r.access), EXCLUSION_CLAUSES,
                 ResponseBlock(r).value, d, e);
    }
  }

  /** Every accepted search request compiles to a query that lowers without error and
      selects, on every document and for every engine, exactly what the request asks for. */
  lemma CompilationPreservesMeaning(r: SearchRequest, d: Object, e: Engine)
    requires !IsParentLookup(r)
    ensures Decode(r).Ok? <==> Accepted(r)
    ensures Accepted(r) ==>
              && Decode(r).value.Search?
              && Lower(Decode(r).value.query.queries).Ok?
              && (Matches(Lower(Decode(r).value.query.queries).value, d, e) <==> Satisfies(r, d, e))
  {
    SearchClausesMeaning(r, d, e);
    if Accepted(r) {
      AssembleHolds(SearchClauses(r).value, d, e);
    }
  }

  // ---------------------------------------------------------------- requests of the request builder

  lemma BuiltIsNoParentLookup(r: SearchRequest, criteria: bool, text: bool, filter: bool)
    requires criteria || text || filter
    requires r.searchType == SearchTypes.Build(criteria, text, filter)
    ensures !IsParentLookup(r)
  {
    var c, x, f := SearchTypes.Part(criteria, SearchTypes.CRITERIA_PART), SearchTypes.Part(text, SearchTypes.TEXT_PART),
      SearchTypes.Part(filter, SearchTypes.FILTER_PART);
    assert |r.searchType.value| == |c| + |x| + |f| != |PARENT_OBJECT_INFO|;
    assert |Text.ToLower(r.searchType.value)| != |Text.ToLower(PARENT_OBJECT_INFO)|;
  }

  lemma BuiltNames(r: SearchRequest, criteria: bool, text: bool, filter: bool)
    requires criteria || text || filter
    requires r.searchType == SearchTypes.Build(criteria, text, filter)
    ensures Names(r, SEARCH_CRITERIA) <==> criteria
    ensures Names(r, TEXT_SEARCH) <==> text
    ensures Names(r, RESPONSE_FILTER) <==> filter
  {
    SearchTypes.BlocksReadBack(r, criteria, text, filter);
    AsksExactly(r);
  }

  /** Whatever parts the builder put into the search type, each of them and no other is compiled: the request
      is never taken for a parent lookup, it decodes exactly when the parts it has are acceptable, and then
      selects the documents that meet its text, its criteria and the access rule and are not withheld. */
  lemma BuiltSearchMeaning(r: SearchRequest, criteria: bool, text: bool, filter: bool, d: Object, e: Engine)
    requires criteria || text || filter
    requires r.searchType == SearchTypes.Build(criteria, text, filter)
    ensures !IsParentLookup(r)
    ensures Decode(r).Ok? <==>
            && (criteria ==> CriteriaAccepted(r.criteria))
            && (text ==> TextAccepted(r.text))
            && (filter ==> ResponseFilterAccepted(r.responseFilter))
    ensures Decode(r).Ok? ==>
              && Decode(r).value.Search?
              && Lower(Decode(r).value.query.queries).Ok?
              && (Matches(Lower(Decode(r).value.query.queries).value, d, e) <==>
                    && (text ==> TextHolds(r.text.value, d, e))
                    && (criteria ==> CriteriaHold(r.criteria.value, d, e))
                    && AccessAllows(r.access, d, e) && !Withheld(d, e))
  {
    BuiltIsNoParentLookup(r, criteria, text, filter);
    BuiltNames(r, criteria, text, filter);
    CompilationPreservesMeaning(r, d, e);
  }

  /** The one search type, in any case, that is looked up by id: with an id its query selects exactly the
      documents that have it and asks for eleven of their fields, without one it fails. */
  lemma ParentLookupMeaning(r: SearchRequest, d: Object, e: Engine)
    requires r.searchType.Some? && Text.ToLower(r.searchType.value) == "getparentobjectinfo"
    ensures r.id.None? ==> Decode(r) == Err(MissingRequest)
    ensures r.id.Some? ==>
              && Decode(r).Ok? && Decode(r).value.ParentLookup?
              && Decode(r).value.model.includeFields == Some([
                   "type", "provider", "ownerUserId", "resourceGroup", "name", "organizationId", "shortDescription",
                   "resourceServer", "resourceServerRegURL", "cos", "cos_admin"])
              && Lower(Decode(r).value.model).Ok?
              && (Holds(Decode(r).value.model, d, e) <==> r.id.value in Values(d, ID))
  {
    assert Text.ToLower(PARENT_OBJECT_INFO) == "getparentobjectinfo";
    if r.id.Some? {
      IdTermMeaning(r.id.value, d, e);
      var qs := [TermModel(ID_KEYWORD, r.id.value)];
      MustOnly(qs, Some(PARENT_INFO_FIELDS), d, e);
      assert qs[0] in qs;
    }
  }

  lemma IdTermMeaning(id: string, d: Object, e: Engine)
    ensures Lower(TermModel(ID_KEYWORD, id)).Ok?
    ensures Holds(TermModel(ID_KEYWORD, id), d, e) <==> id in Values(d, ID)
  {
    TermMeaning(ID_KEYWORD, id, d, e);
    assert ID_KEYWORD == ID + KEYWORD;
    assert ID[0] != KEYWORD[0];
    KeywordValues(ID, d);
  }

  const ANY_ENGINE: Engine := Engine((f, q, vs) => false, (f, q, vs) => false, (p, ci, v) => false,
                                    (f, p, ci, vs) => false, (f, q, vs) => false, (q, d) => false,
                                    (fs, q, z, t, d) => false, (f, s) => 0)

  /** The fields a response filter asks for: its attributes or, failing them, its filters. */
  function SourceOf(r: ResponseFilterRequest): Option<seq<string>> {
    if r.attribute.None? || r.attribute.value == [] then r.filter else r.attribute
  }

  lemma NoSourceInCriteria(r: SearchRequest)
    requires CriteriaBlock(r).Ok?
    ensures |CriteriaBlock(r).value.filter| <= 1 && LastIncludeFields(CriteriaBlock(r).value.filter) == None
  {
  }

  lemma LastSource(filter: seq<QueryModel>, q: QueryModel)
    ensures LastIncludeFields(filter + [q])
         == if q.includeFields.Some? then q.includeFields else LastIncludeFields(filter)
  {
    assert (filter + [q])[..|filter|] == filter;
  }

  function SourceModel(r: ResponseFilterRequest): QueryModel {
    BOOL_MODEL.(includeFields := SourceOf(r))
  }

  lemma ResponseSource(r: SearchRequest)
    requires Names(r, RESPONSE_FILTER) && ResponseFilterAccepted(r.responseFilter)
    requires r.responseFilter.value.searchType == r.searchType
    ensures SourceOf(r.responseFilter.value).Some?
    ensures ResponseBlock(r).Ok? && ResponseBlock(r).value.filter == [SourceModel(r.responseFilter.value)]
  {
    AsksExactly(r);
    ContainsExactly(r.searchType.value, RESPONSE_FILTER);
  }

  lemma FilterParts(r: SearchRequest)
    requires SearchClauses(r).Ok?
    ensures CriteriaBlock(r).Ok? && ResponseBlock(r).Ok?
    ensures SearchClauses(r).value.filter == CriteriaBlock(r).value.filter + ResponseBlock(r).value.filter
  {
    assert TextBlock(r).value.filter == [] && AccessClauses(r.access).filter == [] && EXCLUSION_CLAUSES.filter == [];
  }

  /** An accepted response filter restricts the returned fields exactly when the request has no size:
      a request with a size returns before the source filter is set. */
  lemma SourceFilterExactly(r: SearchRequest)
    requires !IsParentLookup(r) && Accepted(r) && Names(r, RESPONSE_FILTER)
    requires r.responseFilter.value.searchType == r.searchType
    ensures Decode(r).Ok? && SourceOf(r.responseFilter.value).Some?
    ensures Decode(r).value.query.includeFields == SourceOf(r.responseFilter.value) <==> r.size.None?
  {
    SearchClausesMeaning(r, map[], ANY_ENGINE);
    FilterParts(r);
    NoSourceInCriteria(r);
    ResponseSource(r);
    LastSource(CriteriaBlock(r).value.filter, SourceModel(r.responseFilter.value));
  }

  /** A text search that asks for some fields only, without a size, as the request builder makes it. */
  function FieldsOnly(q: string, fields: seq<string>, sub: Option<string>): SearchRequest {
    var searchType := SearchTypes.Build(false, true, true);
    SearchRequest(searchType, Some(100), Some(1), None, Some(fields),
                  Some(TextRequest(Some(q), Some(false), Some(false))), None,
                  AccessRequest(sub, Some(false)), InstanceRequest(None),
                  Some(ResponseFilterRequest(searchType, Some(false), Some([]), Some(fields))))
  }

  /** The builder sets a size of 100 when none is asked for, so the fields asked for are dropped and whole
      documents come back. */
  lemma SizedFilterIsDropped(q: string, fields: seq<string>, sub: Option<string>)
    requires !Text.IsBlank(q) && fields != []
    ensures Accepted(FieldsOnly(q, fields, sub)) && !IsParentLookup(FieldsOnly(q, fields, sub))
    ensures SourceOf(FieldsOnly(q, fields, sub).responseFilter.value) == Some(fields)
    ensures Decode(FieldsOnly(q, fields, sub)).Ok? && Decode(FieldsOnly(q, fields, sub)).value.Search?
    ensures Decode(FieldsOnly(q, fields, sub)).value.query.includeFields == None
  {
    BuiltNames(FieldsOnly(q, fields, sub), false, true, true);
    BuiltIsNoParentLookup(FieldsOnly(q, fields, sub), false, true, true);
    SourceFilterExactly(FieldsOnly(q, fields, sub));
  }

  /** The document has one of the values of the criterion. */
  predicate HasOneOf(c: Criterion, d: Object, e: Engine) {
    exists v | v in c.values :: ValueHolds(c.field, Printed(v), d, e)
  }

  /** Read plainly, a term criterion asks for one of its values. The compiled criterion agrees with
      that reading on a document exactly when the list of values is not empty: an empty list
      compiles to an empty bool, which selects everything. */
  lemma PlainTermReading(c: Criterion, d: Object, e: Engine)
    requires TypeOf(c) == TERM_SEARCH && Compiles(c)
    ensures CriterionModel(c).Ok?
    ensures (Holds(CriterionModel(c).value, d, e) <==> HasOneOf(c, d, e)) <==> c.values != []
  {
    CriterionMeaning(c, d, e);
  }

  /** A term criterion without values selects every document, though none has one of its values. */
  lemma EmptyTermSelectsAll(d: Object, e: Engine)
    ensures var c := Criterion("industry", Some(TERM_SEARCH), []);
            CriterionModel(c).Ok? && Holds(CriterionModel(c).value, d, e) && !HasOneOf(c, d, e)
  {
    CriterionMeaning(Criterion("industry", Some(TERM_SEARCH), []), d, e);
  }

  // ---------------------------------------------------------------- order independence

  /** Applying decorators one after the other accumulates their clauses. */
  function Accumulated(blocks: seq<Clauses>): Clauses {
    if blocks == [] then NO_CLAUSES else blocks[0].Plus(Accumulated(blocks[1..]))
  }

  ghost predicate SameClauses(a: Clauses, b: Clauses) {
    && multiset(a.must) == multiset(b.must)
    && multiset(a.should) == multiset(b.should)
    && multiset(a.mustNot) == multiset(b.mustNot)
    && multiset(a.filter) == multiset(b.filter)
  }

  lemma {:induction false} TakeOut<T>(s: seq<T>, i: nat)
    requires i < |s|
    ensures multiset(s[..i] + s[i + 1..]) == multiset(s) - multiset{s[i]}
  {
    assert s == s[..i] + [s[i]] + s[i + 1..];
  }

  lemma {:induction false} AccumulateTakeOut(blocks: seq<Clauses>, i: nat)
    requires i < |blocks|
    ensures SameClauses(Accumulated(blocks), blocks[i].Plus(Accumulated(blocks[..i] + blocks[i + 1..])))
    decreases i
  {
    var rest := blocks[..i] + blocks[i + 1..];
    if i == 0 {
      assert rest == blocks[1..];
    } else {
      AccumulateTakeOut(blocks[1..], i - 1);
      assert rest[0] == blocks[0];
      assert rest[1..] == blocks[1..][..i - 1] + blocks[1..][i..];
    }
  }

  lemma DropFirst<T>(s: seq<T>)
    requires s != []
    ensures multiset(s[1..]) == multiset(s) - multiset{s[0]}
  {
    assert s == [s[0]] + s[1..];
  }

  lemma Find<T>(t: seq<T>, x: T) returns (i: nat)
    requires x in multiset(t)
    ensures i < |t| && t[i] == x
  {
    assert x in t;
    i :| 0 <= i < |t| && t[i] == x;
  }

  /** The first element of a permutation stands somewhere in the other sequence; without it the rests are
      permutations again. */
  lemma FindFirst<T>(s: seq<T>, t: seq<T>) returns (i: nat)
    requires s != [] && multiset(s) == multiset(t)
    ensures i < |t| && t[i] == s[0]
    ensures multiset(s[1..]) == multiset(t[..i] + t[i + 1..])
  {
    assert s[0] in multiset(s);
    i := Find(t, s[0]);
    TakeOut(t, i);
    DropFirst(s);
  }

  lemma NothingPermuted<T>(t: seq<T>)
    requires multiset(t) == multiset{}
    ensures t == []
  {
    assert |multiset(t)| == 0;
  }

  lemma SamePlus(c: Clauses, x: Clauses, y: Clauses)
    requires SameClauses(x, y)
    ensures SameClauses(c.Plus(x), c.Plus(y))
  {
  }

  lemma {:induction false} AccumulatePermuted(bs: seq<Clauses>, cs: seq<Clauses>)
    requires multiset(bs) == multiset(cs)
    ensures SameClauses(Accumulated(bs), Accumulated(cs))
    decreases |bs|
  {
    if bs == [] {
      NothingPermuted(cs);
    } else {
      var i := FindFirst(bs, cs);
      var rest := cs[..i] + cs[i + 1..];
      AccumulatePermuted(bs[1..], rest);
      SamePlus(bs[0], Accumulated(bs[1..]), Accumulated(rest));
      AccumulateTakeOut(cs, i);
    }
  }

  lemma {:induction false} CountTakeOut<T>(s: seq<T>, i: nat, p: T -> bool)
    requires i < |s|
    ensures CountIf(s, p) == (if p(s[i]) then 1 else 0) + CountIf(s[..i] + s[i + 1..], p)
    decreases i
  {
    var rest := s[..i] + s[i + 1..];
    if i == 0 {
      assert rest == s[1..];
    } else {
      CountTakeOut(s[1..], i - 1, p);
      assert rest[0] == s[0];
      assert rest[1..] == s[1..][..i - 1] + s[1..][i..];
    }
  }

  lemma {:induction false} CountPermuted<T>(s: seq<T>, t: seq<T>, p: T -> bool)
    requires multiset(s) == multiset(t)
    ensures CountIf(s, p) == CountIf(t, p)
    decreases |s|
  {
    if s == [] {
      NothingPermuted(t);
    } else {
      var i := FindFirst(s, t);
      CountPermuted(s[1..], t[..i] + t[i + 1..], p);
      CountTakeOut(t, i, p);
    }
  }

  lemma SameMembers(ps: seq<QueryModel>, qs: seq<QueryModel>)
    requires multiset(ps) == multiset(qs)
    ensures |ps| == |qs|
    ensures forall q :: q in ps <==> q in qs
  {
    assert forall q :: q in ps <==> q in multiset(ps);
    assert forall q :: q in qs <==> q in multiset(qs);
    assert |ps| == |multiset(ps)|;
    assert |qs| == |multiset(qs)|;
  }

  lemma SameClausesSameMatches(a: Clauses, b: Clauses, d: Object, e: Engine)
    requires SameClauses(a, b) && ClausesLower(a)
    ensures Holds(Assemble(a), d, e) <==> Holds(Assemble(b), d, e)
  {
    SameMembers(a.must, b.must);
    SameMembers(a.should, b.should);
    SameMembers(a.mustNot, b.mustNot);
    SameMembers(a.filter, b.filter);
    CountPermuted(a.should, b.should, q => Holds(q, d, e));
    BoolHolds(Assemble(a), d, e);
    BoolHolds(Assemble(b), d, e);
  }

  lemma PlusLowers(a: Clauses, b: Clauses)
    requires ClausesLower(a) && ClausesLower(b)
    ensures ClausesLower(a.Plus(b))
  {
    var c := a.Plus(b);
    assert forall q :: q in c.must <==> q in a.must || q in b.must;
    assert forall q :: q in c.should <==> q in a.should || q in b.should;
    assert forall q :: q in c.mustNot <==> q in a.mustNot || q in b.mustNot;
    assert forall q :: q in c.filter <==> q in a.filter || q in b.filter;
  }

  lemma {:induction false} AccumulateLowers(bs: seq<Clauses>)
    requires forall b | b in bs :: ClausesLower(b)
    ensures ClausesLower(Accumulated(bs))
  {
    if bs == [] {
    } else {
      assert forall b | b in bs[1..] :: b in bs;
      AccumulateLowers(bs[1..]);
      PlusLowers(bs[0], Accumulated(bs[1..]));
    }
  }

  /** Decorators commute: whatever clauses they contribute, should clauses included,
      the order in which they are applied does not change which documents match. */
  lemma DecoratorsCommute(bs: seq<Clauses>, cs: seq<Clauses>, d: Object, e: Engine)
    requires multiset(bs) == multiset(cs)
    requires forall b | b in bs :: ClausesLower(b)
    ensures Holds(Assemble(Accumulated(bs)), d, e) <==> Holds(Assemble(Accumulated(cs)), d, e)
  {
    AccumulatePermuted(bs, cs);
    AccumulateLowers(bs);
    SameClausesSameMatches(Accumulated(bs), Accumulated(cs), d, e);
  }

  function SearchBlocks(r: SearchRequest): seq<Clauses>
    requires Accepted(r) && SearchClauses(r).Ok?
  {
    [CriteriaBlock(r).value, TextBlock(r).value, AccessClauses(r.access), EXCLUSION_CLAUSES, ResponseBlock(r).value]
  }

  lemma {:induction false} AccumulatedHolds(bs: seq<Clauses>, d: Object, e: Engine)
    requires forall b | b in bs :: Plain(b)
    ensures Plain(Accumulated(bs))
    ensures ClausesHold(Accumulated(bs), d, e) <==> forall b | b in bs :: ClausesHold(b, d, e)
  {
    if bs == [] {
    } else {
      assert forall b :: b in bs <==> b == bs[0] || b in bs[1..];
      AccumulatedHolds(bs[1..], d, e);
      PlusHolds(bs[0], Accumulated(bs[1..]), d, e);
    }
  }

  lemma FiveMembers(a: Clauses, b: Clauses, c: Clauses, x: Clauses, y: Clauses, d: Object, e: Engine)
    ensures (forall q | q in [a, b, c, x, y] :: Plain(q)) <==> Plain(a) && Plain(b) && Plain(c) && Plain(x) && Plain(y)
    ensures (forall q | q in [a, b, c, x, y] :: ClausesHold(q, d, e)) <==>
            && ClausesHold(a, d, e) && ClausesHold(b, d, e) && ClausesHold(c, d, e)
            && ClausesHold(x, d, e) && ClausesHold(y, d, e)
  {
    var s := [a, b, c, x, y];
    assert s[0] in s && s[1] in s && s[2] in s && s[3] in s && s[4] in s;
  }

  lemma BlocksMeaning(r: SearchRequest, d: Object, e: Engine)
    requires Accepted(r) && SearchClauses(r).Ok?
    ensures forall b | b in SearchBlocks(r) :: Plain(b)
    ensures (forall b | b in SearchBlocks(r) :: ClausesHold(b, d, e)) <==> Satisfies(r, d, e)
  {
    AskedBlocks(r, d, e);
    AccessBlockMeaning(r.access, d, e);
    ExclusionBlockMeaning(d, e);
    FiveMembers(CriteriaBlock(r).value, TextBlock(r).value, AccessClauses(r.access), EXCLUSION_CLAUSES,
                ResponseBlock(r).value, d, e);
  }

  /** Run in any order, the decorators of an accepted search still select what the request asks for. */
  lemma AnyDecoratorOrder(r: SearchRequest, order: seq<Clauses>, d: Object, e: Engine)
    requires Accepted(r) && SearchClauses(r).Ok?
    requires multiset(order) == multiset(SearchBlocks(r))
    ensures Holds(Assemble(Accumulated(order)), d, e) <==> Satisfies(r, d, e)
  {
    var blocks := SearchBlocks(r);
    BlocksMeaning(r, d, e);
    assert forall b :: b in order <==> b in multiset(order);
    assert forall b :: b in blocks <==> b in multiset(blocks);
    AccumulatedHolds(order, d, e);
    AssembleHolds(Accumulated(order), d, e);
  }

  // ---------------------------------------------------------------- the two builders

  predicate InstanceAllows(r: SearchRequest, d: Object) {
    r.inst.instanceId.Some? && r.inst.instanceId.value != "" ==> r.inst.instanceId.value in Values(d, "instance")
  }

  lemma PlusNothing(c: Clauses)
    ensures c.Plus(NO_CLAUSES) == c
  {
  }

  lemma ListingMeaning(r: SearchRequest, d: Object, e: Engine)
    ensures DecodeListing(r).Ok? <==> CriteriaAccepted(r.criteria)
    ensures DecodeListing(r).Ok? ==>
              && Lower(DecodeListing(r).value.queries).Ok?
              && (Holds(DecodeListing(r).value.queries, d, e) <==>
                    && CriteriaHold(r.criteria.value, d, e) && AccessAllows(r.access, d, e)
                    && InstanceAllows(r, d) && !Withheld(d, e))
  {
    if r.criteria.Some? {
      CriteriaBlockMeaning(r.criteria.value, d, e);
      if CriteriaClauses(r.criteria.value).Ok? {
        var access, inst := AccessClauses(r.access), InstanceClauses(r.inst);
        var criteria := CriteriaClauses(r.criteria.value).value;
        AccessBlockMeaning(r.access, d, e);
        InstanceBlockMeaning(r.inst, d, e);
        ExclusionBlockMeaning(d, e);
        FiveBlocks(access, criteria, inst, EXCLUSION_CLAUSES, NO_CLAUSES, d, e);
        PlusNothing(NO_CLAUSES.Plus(access).Plus(criteria).Plus(inst).Plus(EXCLUSION_CLAUSES));
        AssembleHolds(ListingClauses(r).value, d, e);
      }
    }
  }

  /** For a criteria search without text, the filter listing matches exactly the documents the search
      matches that also belong to the instance asked for; it carries one aggregation per filter, in order. */
  lemma BuildersAgree(r: SearchRequest, d: Object, e: Engine)
    requires !IsParentLookup(r) && Accepted(r)
    requires Names(r, SEARCH_CRITERIA) && !Names(r, TEXT_SEARCH)
    ensures Decode(r).Ok? && DecodeListing(r).Ok?
    ensures Holds(DecodeListing(r).value.queries, d, e) <==>
            Holds(Decode(r).value.query.queries, d, e) && InstanceAllows(r, d)
    ensures var aggs := DecodeListing(r).value.aggregations;
            if r.filters.None? then aggs == []
            else && |aggs| == |r.filters.value|
                 && forall i :: 0 <= i < |aggs| ==>
                      aggs[i].name == r.filters.value[i] && aggs[i].field == r.filters.value[i] + KEYWORD
  {
    CompilationPreservesMeaning(r, d, e);
    ListingMeaning(r, d, e);
  }

  /** With a size the listing and each of its aggregations are cut at it. Without one, page and cut add up
      to 10000, the first page being the default; without a page the listing itself has no limit. */
  lemma ListingCutsExactly(r: SearchRequest)
    requires DecodeListing(r).Ok?
    ensures var q := DecodeListing(r).value;
            && (q.limit.Some? <==> r.page.Some?)
            && q.offset == None && q.includeFields == None
            && (r.size.Some? ==>
                  && (q.limit.Some? ==> q.limit == r.size)
                  && forall a | a in q.aggregations :: a.size == r.size.value)
            && (r.size.None? ==>
                  && (q.limit.Some? ==> q.limit.value + r.page.value == 10000)
                  && forall a | a in q.aggregations ::
                       a.size + (if r.page.Some? then r.page.value else 1) == 10000)
  {
  }

  // ---------------------------------------------------------------- monotonicity and ranges

  function WithCriteria(r: SearchRequest, cs: seq<Criterion>): SearchRequest {
    r.(criteria := Some(CriteriaRequest(Some(cs))))
  }

  /** The compiled search selects the document. */
  predicate Selects(r: SearchRequest, d: Object, e: Engine) {
    !IsParentLookup(r) && Decode(r).Ok? && Holds(Decode(r).value.query.queries, d, e)
  }

  /** What a request selects besides its criteria. */
  ghost predicate SelectsBeside(r: SearchRequest, d: Object, e: Engine) {
    && !IsParentLookup(r)
    && (Names(r, TEXT_SEARCH) ==> TextAccepted(r.text) && TextHolds(r.text.value, d, e))
    && (Names(r, RESPONSE_FILTER) ==> ResponseFilterAccepted(r.responseFilter))
    && AccessAllows(r.access, d, e) && !Withheld(d, e)
  }

  lemma SelectsExactly(r: SearchRequest, cs: seq<Criterion>, d: Object, e: Engine)
    requires Names(r, SEARCH_CRITERIA)
    ensures Selects(WithCriteria(r, cs), d, e) <==>
            && SelectsBeside(r, d, e) && cs != []
            && (forall c | c in cs :: Compiles(c)) && (forall c | c in cs :: CriterionHolds(c, d, e))
  {
    var q := WithCriteria(r, cs);
    assert Names(q, SEARCH_CRITERIA) && Names(q, TEXT_SEARCH) == Names(r, TEXT_SEARCH);
    assert Names(q, RESPONSE_FILTER) == Names(r, RESPONSE_FILTER);
    if !IsParentLookup(q) {
      CompilationPreservesMeaning(q, d, e);
    }
  }

  /** Adding a criterion never adds hits. */
  lemma AddingCriterionNarrows(r: SearchRequest, cs: seq<Criterion>, c: Criterion, d: Object, e: Engine)
    requires Names(r, SEARCH_CRITERIA) && cs != []
    requires Selects(WithCriteria(r, cs + [c]), d, e)
    ensures Selects(WithCriteria(r, cs), d, e)
  {
    SelectsExactly(r, cs + [c], d, e);
    assert forall x | x in cs :: x in cs + [c];
    SelectsExactly(r, cs, d, e);
  }

  function WithValue(c: Criterion, v: Scalar): Criterion {
    c.(values := c.values + [v])
  }

  lemma WiderCriterion(c: Criterion, v: Scalar, d: Object, e: Engine)
    requires TypeOf(c) == TERM_SEARCH && c.values != [] && !v.VNull?
    requires Compiles(c)
    ensures Compiles(WithValue(c, v))
    ensures CriterionHolds(c, d, e) ==> CriterionHolds(WithValue(c, v), d, e)
  {
    assert forall w :: w in WithValue(c, v).values <==> w in c.values || w == v;
  }

  lemma Replacing(cs: seq<Criterion>, i: nat, c: Criterion, d: Object, e: Engine)
    requires forall x | x in cs :: Compiles(x)
    requires i < |cs| && Compiles(cs[i]) && Compiles(c)
    requires CriterionHolds(cs[i], d, e) ==> CriterionHolds(c, d, e)
    ensures cs[i := c] != [] && forall x | x in cs[i := c] :: Compiles(x)
    ensures (forall x | x in cs :: CriterionHolds(x, d, e)) ==> forall x | x in cs[i := c] :: CriterionHolds(x, d, e)
  {
    assert cs[i] in cs;
    assert forall x | x in cs[i := c] :: x == c || x in cs;
  }

  /** Adding a value to a term criterion that has one never removes hits. */
  lemma AddingValueWidens(r: SearchRequest, cs: seq<Criterion>, i: nat, v: Scalar, d: Object, e: Engine)
    requires Names(r, SEARCH_CRITERIA) && i < |cs|
    requires TypeOf(cs[i]) == TERM_SEARCH && cs[i].values != [] && !v.VNull?
    requires Selects(WithCriteria(r, cs), d, e)
    ensures Selects(WithCriteria(r, cs[i := WithValue(cs[i], v)]), d, e)
  {
    SelectsExactly(r, cs, d, e);
    assert cs[i] in cs;
    WiderCriterion(cs[i], v, d, e);
    Replacing(cs, i, WithValue(cs[i], v), d, e);
    SelectsExactly(r, cs[i := WithValue(cs[i], v)], d, e);
  }

  function Before(field: string, a: Scalar, temporal: bool): Criterion {
    Criterion(field, Some(if temporal then BEFORE_TEMPORAL else BEFORE_RANGE), [a])
  }

  function Between(field: string, a: Scalar, b: Scalar, temporal: bool): Criterion {
    Criterion(field, Some(if temporal then BETWEEN_TEMPORAL else BETWEEN_RANGE), [a, b])
  }

  function After(field: string, b: Scalar, temporal: bool): Criterion {
    Criterion(field, Some(if temporal then AFTER_TEMPORAL else AFTER_RANGE), [b])
  }

  predicate CriterionHits(c: Criterion, d: Object, e: Engine) {
    CriterionModel(c).Ok? && Holds(CriterionModel(c).value, d, e)
  }

  lemma BeforeHits(field: string, a: Scalar, temporal: bool, d: Object, e: Engine, x: string)
    requires !a.VNull? && Values(d, field) == [x]
    ensures CriterionHits(Before(field, a, temporal), d, e) <==> e.instant(field, x) < e.instant(field, Printed(a))
  {
    assert x in Values(d, field) && forall v :: v in Values(d, field) ==> v == x;
    CriterionMeaning(Before(field, a, temporal), d, e);
  }

  lemma BetweenHits(field: string, a: Scalar, b: Scalar, temporal: bool, d: Object, e: Engine, x: string)
    requires !a.VNull? && !b.VNull? && Values(d, field) == [x]
    ensures CriterionHits(Between(field, a, b, temporal), d, e)
       <==> e.instant(field, Printed(a)) <= e.instant(field, x) <= e.instant(field, Printed(b))
  {
    assert x in Values(d, field) && forall v :: v in Values(d, field) ==> v == x;
    CriterionMeaning(Between(field, a, b, temporal), d, e);
  }

  lemma AfterHits(field: string, b: Scalar, temporal: bool, d: Object, e: Engine, x: string)
    requires !b.VNull? && Values(d, field) == [x]
    ensures CriterionHits(After(field, b, temporal), d, e) <==> e.instant(field, x) > e.instant(field, Printed(b))
  {
    assert x in Values(d, field) && forall v :: v in Values(d, field) ==> v == x;
    CriterionMeaning(After(field, b, temporal), d, e);
  }

  /** On a field with one value and for ordered bounds, numbers or dates, exactly one of before, between
      and after matches. */
  lemma RangesPartition(field: string, a: Scalar, b: Scalar, temporal: bool, d: Object, e: Engine)
    requires |Values(d, field)| == 1
    requires !a.VNull? && !b.VNull? && e.instant(field, Printed(a)) <= e.instant(field, Printed(b))
    ensures CriterionHits(Before(field, a, temporal), d, e)
         || CriterionHits(Between(field, a, b, temporal), d, e)
         || CriterionHits(After(field, b, temporal), d, e)
    ensures !(CriterionHits(Before(field, a, temporal), d, e) && CriterionHits(Between(field, a, b, temporal), d, e))
    ensures !(CriterionHits(Before(field, a, temporal), d, e) && CriterionHits(After(field, b, temporal), d, e))
    ensures !(CriterionHits(Between(field, a, b, temporal), d, e) && CriterionHits(After(field, b, temporal), d, e))
  {
    var x := Values(d, field)[0];
    BeforeHits(field, a, temporal, d, e, x);
    BetweenHits(field, a, b, temporal, d, e, x);
    AfterHits(field, b, temporal, d, e, x);
  }
}
