/** The checks made after schema validation, and what they guarantee to the compiler. */
module SearchCriteriaValidation {
  import opened Json
  import opened QueryModels
  import opened Decorators
  import opened QueryMeaning
  import opened QueryTheorems

  /** Why a list is turned down; a value of the wrong kind makes the handler throw and gives no answer. */
  datatype Rejection = WrongCount | WrongOrder | Unsupported | NoAnswer

  /** What the term, range and temporal schemas let through. */
  predicate SchemaValid(c: Criterion) {
    && c.searchType.Some?
    && var t := c.searchType.value;
       || (t == TERM_SEARCH && AllText(c.values))
       || (t in {BETWEEN_RANGE, BEFORE_RANGE, AFTER_RANGE} && 1 <= |c.values| <= 2 && AllNumbers(c.values))
       || (t in {BETWEEN_TEMPORAL, BEFORE_TEMPORAL, AFTER_TEMPORAL} && 1 <= |c.values| <= 2 && AllText(c.values))
  }

  predicate AllText(values: seq<Scalar>) {
    forall i :: 0 <= i < |values| ==> values[i].VText?
  }

  predicate AllNumbers(values: seq<Scalar>) {
    forall i :: 0 <= i < |values| ==> values[i].VNumber?
  }

  /** Both ends parse and the start is strictly earlier. */
  predicate IsValidDateTimeOrder(start: string, end: string, parse: string -> Option<int>) {
    parse(start).Some? && parse(end).Some? && parse(start).value < parse(end).value
  }

  predicate IsValidRangeOrder(start: int, end: int) {
    start <= end
  }

  function CheckTemporal(values: seq<Scalar>, parse: string -> Option<int>): Result<(), Rejection> {
    if |values| != 2 then Err(WrongCount)
    else if ValueText(values[0]).Err? || ValueText(values[1]).Err? then Err(NoAnswer)
    else if !IsValidDateTimeOrder(ValueText(values[0]).value, ValueText(values[1]).value, parse) then Err(WrongOrder)
    else Ok(())
  }

  function CheckRange(values: seq<Scalar>): Result<(), Rejection> {
    if |values| != 2 then Err(WrongCount)
    else if !values[0].VNumber? || !values[1].VNumber? then Err(NoAnswer)
    else if !IsValidRangeOrder(values[0].asInt, values[1].asInt) then Err(WrongOrder)
    else Ok(())
  }

  /** What the checks are for: a betweenRange has two numbers, the first not above the second; a
      betweenTemporal has two dates that parse, the first strictly earlier; before and after have one value. */
  ghost predicate WellFormed(c: Criterion, parse: string -> Option<int>)
    requires SchemaValid(c)
  {
    var t := c.searchType.value;
    && (t == BETWEEN_RANGE ==>
          exists a: string, m: int, b: string, n: int :: c.values == [VNumber(a, m), VNumber(b, n)] && m <= n)
    && (t == BETWEEN_TEMPORAL ==>
          exists start: string, end: string ::
            && c.values == [VText(start), VText(end)]
            && parse(start).Some? && parse(end).Some? && parse(start).value < parse(end).value)
    && (t in {BEFORE_RANGE, AFTER_RANGE, BEFORE_TEMPORAL, AFTER_TEMPORAL} ==> |c.values| == 1)
  }

  /** The check of one criterion. */
  function Check(c: Criterion, parse: string -> Option<int>): Result<(), Rejection> {
    if c.searchType.None? then Err(NoAnswer)
    else if c.searchType.value == TERM_SEARCH then Ok(())
    else if IsBetween(c.searchType.value) then
      if c.searchType.value == BETWEEN_TEMPORAL then CheckTemporal(c.values, parse) else CheckRange(c.values)
    else if IsBefore(c.searchType.value) || IsAfter(c.searchType.value) then
      if |c.values| != 1 then Err(WrongCount) else Ok(())
    else Err(Rejection.Unsupported)
  }

  lemma RangeChecksExactly(c: Criterion, parse: string -> Option<int>)
    requires SchemaValid(c) && c.searchType.value == BETWEEN_RANGE
    ensures Check(c, parse).Ok? <==> WellFormed(c, parse)
  {
    if |c.values| == 2 {
      var a, b := c.values[0], c.values[1];
      assert c.values == [VNumber(a.lexeme, a.asInt), VNumber(b.lexeme, b.asInt)];
    }
  }

  lemma TemporalChecksExactly(c: Criterion, parse: string -> Option<int>)
    requires SchemaValid(c) && c.searchType.value == BETWEEN_TEMPORAL
    ensures Check(c, parse).Ok? <==> WellFormed(c, parse)
  {
    if |c.values| == 2 {
      assert c.values == [VText(c.values[0].s), VText(c.values[1].s)];
    }
  }

  /** A criterion that its schema lets through passes the check exactly when it is well formed. */
  lemma CheckExactly(c: Criterion, parse: string -> Option<int>)
    requires SchemaValid(c)
    ensures Check(c, parse).Ok? <==> WellFormed(c, parse)
  {
    if c.searchType.value == BETWEEN_RANGE {
      RangeChecksExactly(c, parse);
    } else if c.searchType.value == BETWEEN_TEMPORAL {
      TemporalChecksExactly(c, parse);
    }
  }

  /** A criterion that its schema lets through and that is not well formed is turned down for its number of
      values or, if that is right, for their order. */
  lemma FaultExactly(c: Criterion, parse: string -> Option<int>)
    requires SchemaValid(c) && !WellFormed(c, parse)
    ensures Check(c, parse) ==
            if |c.values| != (if c.searchType.value in {BETWEEN_RANGE, BETWEEN_TEMPORAL} then 2 else 1)
            then Err(WrongCount) else Err(WrongOrder)
  {
    CheckExactly(c, parse);
  }

  /** A criterion without a type gives no answer, and one of a type that is not one of the seven is not
      supported, whatever its values are. */
  lemma TypeFaults(c: Criterion, parse: string -> Option<int>)
    ensures c.searchType == None ==> Check(c, parse) == Err(NoAnswer)
    ensures c.searchType.Some? && c.searchType.value !in {"term", "betweenRange", "betweenTemporal", "beforeRange",
                                                          "beforeTemporal", "afterRange", "afterTemporal"} ==>
              Check(c, parse) == Err(Rejection.Unsupported)
  {
  }

  lemma ListChecksExactly(cs: seq<Criterion>, parse: string -> Option<int>)
    ensures (forall i :: 0 <= i < |cs| ==> SchemaValid(cs[i])) ==>
              ((forall i :: 0 <= i < |cs| ==> Check(cs[i], parse).Ok?)
                 <==> forall i :: 0 <= i < |cs| ==> WellFormed(cs[i], parse))
  {
    if forall i :: 0 <= i < |cs| ==> SchemaValid(cs[i]) {
      forall i | 0 <= i < |cs|
        ensures Check(cs[i], parse).Ok? <==> WellFormed(cs[i], parse)
      {
        CheckExactly(cs[i], parse);
      }
    }
  }

  /** The loop stops at the first criterion that fails and reports its fault. */
  method HandleSearchCriteriaResult(criteria: seq<Criterion>, parse: string -> Option<int>)
    returns (r: Result<(), Rejection>)
    ensures r.Ok? <==> forall i :: 0 <= i < |criteria| ==> Check(criteria[i], parse).Ok?
    ensures r.Err? ==>
              exists i :: 0 <= i < |criteria| && Check(criteria[i], parse) == r &&
                          forall j :: 0 <= j < i ==> Check(criteria[j], parse).Ok?
    ensures (forall i :: 0 <= i < |criteria| ==> SchemaValid(criteria[i])) ==>
              (r.Ok? <==> forall i :: 0 <= i < |criteria| ==> WellFormed(criteria[i], parse))
  {
    ListChecksExactly(criteria, parse);
    for i := 0 to |criteria|
      invariant forall j :: 0 <= j < i ==> Check(criteria[j], parse).Ok?
    {
      var criterion := criteria[i];
      if criterion.searchType.None? {
        return Err(NoAnswer);
      }
      match criterion.searchType.value {
        case "term" =>
        case "betweenTemporal" =>
          if |criterion.values| != 2 {
            return Err(WrongCount);
          }
          var start, end := ValueText(criterion.values[0]), ValueText(criterion.values[1]);
          if start.Err? || end.Err? {
            return Err(NoAnswer);
          }
          if !IsValidDateTimeOrder(start.value, end.value, parse) {
            return Err(WrongOrder);
          }
        case "betweenRange" =>
          if |criterion.values| != 2 {
            return Err(WrongCount);
          }
          if !criterion.values[0].VNumber? || !criterion.values[1].VNumber? {
            return Err(NoAnswer);
          }
          if !IsValidRangeOrder(criterion.values[0].asInt, criterion.values[1].asInt) {
            return Err(WrongOrder);
          }
        case "beforeTemporal" | "afterTemporal" | "beforeRange" | "afterRange" =>
          if |criterion.values| != 1 {
            return Err(WrongCount);
          }
        case _ =>
          return Err(Rejection.Unsupported);
      }
    }
    return Ok(());
  }

  /** A non-empty list of criteria that the schemas and the loop accept compiles without error into
      one must clause per criterion, in order, and every clause lowers. */
  lemma ValidatedCriteriaCompile(cs: seq<Criterion>, parse: string -> Option<int>)
    requires cs != []
    requires forall i :: 0 <= i < |cs| ==> SchemaValid(cs[i]) && WellFormed(cs[i], parse)
    ensures var clauses := CriteriaClauses(CriteriaRequest(Some(cs)));
            && clauses.Ok?
            && |clauses.value.filter| == 1 && clauses.value == One(FILTER, clauses.value.filter[0])
            && Lower(clauses.value.filter[0]).Ok?
            && var must := clauses.value.filter[0].must;
               && |must| == |cs|
               && forall i :: 0 <= i < |cs| ==> CriterionModel(cs[i]) == Ok(must[i])
  {
    forall c | c in cs
      ensures Compiles(c)
    {
      ValidatedCriterionCompiles(c, parse);
    }
    CriterionModelsMeaning(cs, map[], ANY_ENGINE);
    CriterionModelsPointwise(cs);
    MustOnly(CriterionModels(cs).value, None, map[], ANY_ENGINE);
  }

  lemma ValidatedCriterionCompiles(c: Criterion, parse: string -> Option<int>)
    requires SchemaValid(c) && WellFormed(c, parse)
    ensures Compiles(c)
  {
    CheckExactly(c, parse);
  }
}
