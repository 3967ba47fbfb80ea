/** The search type string the request builder makes and the decoder matches. */
module SearchTypes {
  import opened Json
  import Decoder = QueryDecoder
  import Decorators
  import Text

  const CRITERIA_PART := "searchCriteria_"
  const TEXT_PART := "textSearch_"
  const FILTER_PART := "responseFilter_"

  function Build(criteria: bool, text: bool, filter: bool): Option<string> {
    if !criteria && !text && !filter then None
    else Some(Part(criteria, CRITERIA_PART) + Part(text, TEXT_PART) + Part(filter, FILTER_PART))
  }

  function Part(asked: bool, part: string): string {
    if asked then part else ""
  }

  lemma CriteriaReadBack(t: string, rest: string)
    requires t == CRITERIA_PART + rest
    ensures Text.Contains(t, Decoder.SEARCH_CRITERIA)
  {
    assert CRITERIA_PART == Decoder.SEARCH_CRITERIA + "_";
    Text.ContainsAt(t, Decoder.SEARCH_CRITERIA, 0);
  }

  lemma TextReadBack(t: string, before: string, rest: string)
    requires t == before + TEXT_PART + rest
    ensures Text.Contains(t, Decoder.TEXT_SEARCH)
  {
    assert TEXT_PART == Decoder.TEXT_SEARCH + "_";
    Text.ContainsAt(t, Decoder.TEXT_SEARCH, |before|);
  }

  lemma FilterReadBack(t: string, before: string)
    requires t == before + FILTER_PART
    ensures Text.Contains(t, Decorators.RESPONSE_FILTER)
  {
    assert FILTER_PART == Decorators.RESPONSE_FILTER + "_";
    Text.ContainsAt(t, Decorators.RESPONSE_FILTER, |before|);
  }

  lemma NoCriteria(text: bool, filter: bool)
    requires text || filter
    ensures !Text.Contains(Build(false, text, filter).value, Decoder.SEARCH_CRITERIA)
  {
    if Text.Contains(Build(false, text, filter).value, Decoder.SEARCH_CRITERIA) {
      Text.ContainsLetters(Build(false, text, filter).value, Decoder.SEARCH_CRITERIA, 6);
      assert false;
    }
  }

  lemma NoText(criteria: bool, filter: bool)
    requires criteria || filter
    ensures !Text.Contains(Build(criteria, false, filter).value, Decoder.TEXT_SEARCH)
  {
    if Text.Contains(Build(criteria, false, filter).value, Decoder.TEXT_SEARCH) {
      Text.ContainsLetters(Build(criteria, false, filter).value, Decoder.TEXT_SEARCH, 2);
      assert false;
    }
  }

  lemma NoFilter(criteria: bool, text: bool)
    requires criteria || text
    ensures !Text.Contains(Build(criteria, text, false).value, Decorators.RESPONSE_FILTER)
  {
    if Text.Contains(Build(criteria, text, false).value, Decorators.RESPONSE_FILTER) {
      Text.ContainsLetters(Build(criteria, text, false).value, Decorators.RESPONSE_FILTER, 8);
      assert false;
    }
  }

  /** Each block of the decoder runs exactly when its part went into the search type. */
  lemma BlocksReadBack(r: Decoder.SearchRequest, criteria: bool, text: bool, filter: bool)
    requires criteria || text || filter
    requires r.searchType == Build(criteria, text, filter)
    ensures Decoder.Asks(r, Decoder.SEARCH_CRITERIA) <==> criteria
    ensures Decoder.Asks(r, Decoder.TEXT_SEARCH) <==> text
    ensures Decoder.Asks(r, Decorators.RESPONSE_FILTER) <==> filter
  {
    var c, x, f := Part(criteria, CRITERIA_PART), Part(text, TEXT_PART), Part(filter, FILTER_PART);
    var t := Build(criteria, text, filter).value;
    assert t == c + x + f == c + (x + f);
    if criteria { CriteriaReadBack(t, x + f); } else { NoCriteria(text, filter); }
    if text { TextReadBack(t, c, f); } else { NoText(criteria, filter); }
    if filter { FilterReadBack(t, c + x); } else { NoFilter(criteria, text); }
  }
}
