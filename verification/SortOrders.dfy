/** Parsing the sort parameter. */
module SortOrders {
  import opened Json
  import Elastic
  import Text

  datatype Direction = ASC | DESC

  datatype OrderBy = OrderBy(column: string, direction: Direction)

  datatype SortError = TooManyFields | BadFormat | BadOrder

  const CREATED_AT := "itemCreatedAt"
  const MAX_SORT_FIELDS := 3

  // ---------------------------------------------------------------- java.lang.String

  function IndexOf(s: string, c: char): (i: nat)
    ensures i <= |s| && (i < |s| ==> s[i] == c)
    ensures forall j :: 0 <= j < i ==> s[j] != c
  {
    if s == "" || s[0] == c then 0 else 1 + IndexOf(s[1..], c)
  }

  function AllPieces(s: string, c: char): seq<string>
    decreases |s|
  {
    var i := IndexOf(s, c);
    if i == |s| then [s] else [s[..i]] + AllPieces(s[i + 1..], c)
  }

  function DropTrailingEmpty(pieces: seq<string>): seq<string> {
    if pieces != [] && pieces[|pieces| - 1] == "" then DropTrailingEmpty(pieces[..|pieces| - 1]) else pieces
  }

  /** String.split on one character: trailing empty pieces are dropped, an unsplit string is kept. */
  function Split(s: string, c: char): seq<string> {
    if IndexOf(s, c) == |s| then [s] else DropTrailingEmpty(AllPieces(s, c))
  }

  function TrimLeft(s: string): string {
    if s != "" && s[0] <= ' ' then TrimLeft(s[1..]) else s
  }

  function TrimRight(s: string): string {
    if s != "" && s[|s| - 1] <= ' ' then TrimRight(s[..|s| - 1]) else s
  }

  function Trim(s: string): string {
    TrimRight(TrimLeft(s))
  }

  // ---------------------------------------------------------------- parsing

  function WithKeyword(field: string): string {
    if !Text.EndsWith(field, Elastic.KEYWORD) && !Text.EqualsIgnoreCase(field, CREATED_AT)
    then field + Elastic.KEYWORD
    else field
  }

  function ParseItem(item: string): Result<OrderBy, SortError> {
    var parts := Split(item, ':');
    if |parts| != 2 then Err(BadFormat)
    else
      var direction := Text.ToLower(Trim(parts[1]));
      if direction == "asc" then Ok(OrderBy(WithKeyword(Trim(parts[0])), ASC))
      else if direction == "desc" then Ok(OrderBy(WithKeyword(Trim(parts[0])), DESC))
      else Err(BadOrder)
  }

  function ParseItems(items: seq<string>): Result<seq<OrderBy>, SortError>
    decreases |items|
  {
    if items == [] then Ok([])
    else
      var init := ParseItems(items[..|items| - 1]);
      var last := ParseItem(items[|items| - 1]);
      if init.Err? then init
      else if last.Err? then Err(last.error)
      else Ok(init.value + [last.value])
  }

  /** An empty parameter sorts by creation time, latest first. */
  function Parse(param: string): Result<seq<OrderBy>, SortError> {
    if param == "" then Ok([OrderBy(CREATED_AT, DESC)])
    else if |Split(param, ';')| > MAX_SORT_FIELDS then Err(TooManyFields)
    else ParseItems(Split(param, ';'))
  }

  lemma {:induction false} FirstErrorStops(items: seq<string>, n: nat)
    requires n <= |items| && ParseItems(items[..n]).Err?
    ensures ParseItems(items) == ParseItems(items[..n])
    decreases |items|
  {
    if n == |items| {
      assert items[..n] == items;
    } else {
      assert items[..|items| - 1][..n] == items[..n];
      FirstErrorStops(items[..|items| - 1], n);
    }
  }

  method ExtractSortOrders(param: string) returns (r: Result<seq<OrderBy>, SortError>)
    ensures r == Parse(param)
  {
    if param == "" {
      return Ok([OrderBy(CREATED_AT, DESC)]);
    }
    var items := Split(param, ';');
    if |items| > MAX_SORT_FIELDS {
      return Err(TooManyFields);
    }
    var orderByList: seq<OrderBy> := [];
    for i := 0 to |items|
      invariant ParseItems(items[..i]) == Ok(orderByList)
    {
      assert items[..i + 1][..i] == items[..i];
      var order := ParseItem(items[i]);
      if order.Err? {
        FirstErrorStops(items, i + 1);
        return Err(order.error);
      }
      orderByList := orderByList + [order.value];
    }
    assert items[..|items|] == items;
    return Ok(orderByList);
  }

  // ---------------------------------------------------------------- printing

  function DirectionText(d: Direction): string {
    match d
    case ASC => "asc"
    case DESC => "desc"
  }

  function PrintItem(o: OrderBy): string {
    o.column + ":" + DirectionText(o.direction)
  }

  function Print(orders: seq<OrderBy>): string
    requires orders != []
  {
    if |orders| == 1 then PrintItem(orders[0]) else PrintItem(orders[0]) + ";" + Print(orders[1..])
  }

  function PrintedItems(orders: seq<OrderBy>): seq<string> {
    seq(|orders|, i requires 0 <= i < |orders| => PrintItem(orders[i]))
  }

  predicate Printable(name: string) {
    ':' !in name && ';' !in name
  }

  function Normalised(o: OrderBy): OrderBy {
    o.(column := WithKeyword(Trim(o.column)))
  }

  function AllNormalised(orders: seq<OrderBy>): seq<OrderBy> {
    seq(|orders|, i requires 0 <= i < |orders| => Normalised(orders[i]))
  }

  // ---------------------------------------------------------------- round trip

  lemma {:induction false} IndexOfAppended(a: string, c: char, b: string)
    requires c !in a
    ensures IndexOf(a + [c] + b, c) == |a|
    ensures IndexOf(a, c) == |a|
  {
    assert (a + [c] + b)[|a|] == c;
    assert forall j | 0 <= j < |a| :: (a + [c] + b)[j] == a[j] && a[j] in a;
  }

  lemma PiecesAppended(a: string, c: char, b: string)
    requires c !in a
    ensures AllPieces(a + [c] + b, c) == [a] + AllPieces(b, c)
  {
    IndexOfAppended(a, c, b);
    assert (a + [c] + b)[..|a|] == a;
    assert (a + [c] + b)[|a| + 1..] == b;
  }

  lemma UnsplitPiece(a: string, c: char)
    requires c !in a
    ensures AllPieces(a, c) == [a]
  {
    IndexOfAppended(a, c, "");
  }

  lemma SplitItem(o: OrderBy)
    requires ':' !in o.column
    ensures Split(PrintItem(o), ':') == [o.column, DirectionText(o.direction)]
  {
    var d := DirectionText(o.direction);
    assert PrintItem(o) == o.column + [':'] + d;
    IndexOfAppended(o.column, ':', d);
    PiecesAppended(o.column, ':', d);
    assert ':' !in d;
    UnsplitPiece(d, ':');
  }

  lemma ItemHasNoSemicolon(o: OrderBy)
    requires ';' !in o.column
    ensures ';' !in PrintItem(o) && PrintItem(o) != ""
  {
    assert ';' !in DirectionText(o.direction);
  }

  lemma PrintStep(orders: seq<OrderBy>)
    requires |orders| > 1
    ensures Print(orders) == PrintItem(orders[0]) + [';'] + Print(orders[1..])
  {
  }

  lemma PrintedItemsStep(orders: seq<OrderBy>)
    requires orders != []
    ensures PrintedItems(orders) == [PrintItem(orders[0])] + PrintedItems(orders[1..])
  {
  }

  lemma {:induction false} PiecesOfPrinted(orders: seq<OrderBy>)
    requires orders != [] && forall i :: 0 <= i < |orders| ==> ';' !in orders[i].column
    ensures AllPieces(Print(orders), ';') == PrintedItems(orders)
    decreases |orders|
  {
    ItemHasNoSemicolon(orders[0]);
    PrintedItemsStep(orders);
    if |orders| == 1 {
      UnsplitPiece(PrintItem(orders[0]), ';');
      assert PrintedItems(orders[1..]) == [];
    } else {
      PiecesOfPrinted(orders[1..]);
      PrintStep(orders);
      PiecesAppended(PrintItem(orders[0]), ';', Print(orders[1..]));
    }
  }

  lemma SplitPrinted(orders: seq<OrderBy>)
    requires orders != [] && forall i :: 0 <= i < |orders| ==> ';' !in orders[i].column
    ensures Print(orders) != "" && Split(Print(orders), ';') == PrintedItems(orders)
  {
    PiecesOfPrinted(orders);
    ItemHasNoSemicolon(orders[0]);
    ItemHasNoSemicolon(orders[|orders| - 1]);
    var items := PrintedItems(orders);
    assert items[|items| - 1] != "";
    assert DropTrailingEmpty(items) == items;
    assert Print(orders) != "";
    if IndexOf(Print(orders), ';') == |Print(orders)| {
      assert AllPieces(Print(orders), ';') == [Print(orders)];
    }
  }

  lemma DirectionReadsBack(d: Direction)
    ensures Text.ToLower(Trim(DirectionText(d))) == DirectionText(d)
    ensures DirectionText(ASC) != DirectionText(DESC)
  {
    var t := DirectionText(d);
    assert TrimLeft(t) == t && TrimRight(t) == t;
  }

  lemma ItemReadsBack(o: OrderBy)
    requires ':' !in o.column
    ensures ParseItem(PrintItem(o)) == Ok(Normalised(o))
  {
    SplitItem(o);
    DirectionReadsBack(o.direction);
    if o.direction == DESC {
      DirectionReadsBack(ASC);
    }
  }

  lemma ParsesOneMore(items: seq<string>, init: seq<OrderBy>, last: OrderBy)
    requires items != [] && ParseItems(items[..|items| - 1]) == Ok(init) && ParseItem(items[|items| - 1]) == Ok(last)
    ensures ParseItems(items) == Ok(init + [last])
  {
  }

  lemma PrintedInit(orders: seq<OrderBy>, n: nat)
    requires |orders| == n + 1
    ensures PrintedItems(orders)[..n] == PrintedItems(orders[..n])
    ensures AllNormalised(orders) == AllNormalised(orders[..n]) + [Normalised(orders[n])]
  {
  }

  lemma {:induction false} ParsePrinted(orders: seq<OrderBy>)
    requires forall i :: 0 <= i < |orders| ==> ':' !in orders[i].column
    ensures ParseItems(PrintedItems(orders)) == Ok(AllNormalised(orders))
    decreases |orders|
  {
    if orders == [] {
      assert PrintedItems(orders) == [] && AllNormalised(orders) == [];
    } else {
      var n := |orders| - 1;
      ParsePrinted(orders[..n]);
      PrintedInit(orders, n);
      ItemReadsBack(orders[n]);
      ParsesOneMore(PrintedItems(orders), AllNormalised(orders[..n]), Normalised(orders[n]));
    }
  }

  /** Printing one to three orders with columns free of separators and parsing them gives the orders, with
      their columns normalised. */
  lemma PrintThenParse(orders: seq<OrderBy>)
    requires 1 <= |orders| <= 3
    requires forall i :: 0 <= i < |orders| ==> Printable(orders[i].column)
    ensures Parse(Print(orders)) == Ok(AllNormalised(orders))
  {
    SplitPrinted(orders);
    ParsePrinted(orders);
  }

  lemma {:induction false} TrimLeftStops(s: string)
    ensures TrimLeft(s) == "" || TrimLeft(s)[0] > ' '
    ensures forall c :: c in TrimLeft(s) ==> c in s
  {
    if s == "" || s[0] > ' ' {
    } else {
      TrimLeftStops(s[1..]);
    }
  }

  lemma {:induction false} TrimRightStops(s: string)
    ensures TrimRight(s) == "" || TrimRight(s)[|TrimRight(s)| - 1] > ' '
    ensures TrimRight(s) <= s
    ensures s != "" && s[0] > ' ' ==> TrimRight(s) != ""
  {
    if s == "" || s[|s| - 1] > ' ' {
    } else {
      TrimRightStops(s[..|s| - 1]);
    }
  }

  /** A string that starts and ends with printing characters is its own trim. */
  predicate Trimmed(s: string) {
    s != "" && s[0] > ' ' && s[|s| - 1] > ' '
  }

  lemma TrimIsTrimmed(s: string)
    requires Trim(s) != ""
    ensures Trimmed(Trim(s)) && Trim(Trim(s)) == Trim(s)
    ensures forall c :: c in Trim(s) ==> c in s
  {
    TrimLeftStops(s);
    TrimRightStops(TrimLeft(s));
    var t := Trim(s);
    assert t[0] == TrimLeft(s)[0];
    forall c | c in t
      ensures c in TrimLeft(s)
    {
      var i :| 0 <= i < |t| && t[i] == c;
      assert TrimLeft(s)[i] == c;
    }
  }

  lemma KeywordIsTrimmed()
    ensures Trimmed(Elastic.KEYWORD) && ':' !in Elastic.KEYWORD && ';' !in Elastic.KEYWORD
    ensures WithKeyword("") == Elastic.KEYWORD
  {
    assert "" + Elastic.KEYWORD == Elastic.KEYWORD;
  }

  lemma TrimmedStays(s: string)
    requires Trimmed(s)
    ensures Trim(s) == s
  {
    assert TrimLeft(s) == s && TrimRight(s) == s;
  }

  lemma SuffixedEnds(f: string)
    ensures Text.EndsWith(f + Elastic.KEYWORD, Elastic.KEYWORD)
    ensures f == "" || Trimmed(f) ==> Trimmed(f + Elastic.KEYWORD)
    ensures f + Elastic.KEYWORD == WithKeyword(f + Elastic.KEYWORD)
  {
    assert (f + Elastic.KEYWORD)[|f|..] == Elastic.KEYWORD;
    KeywordIsTrimmed();
  }

  /** Normalising a column a second time changes nothing, even when trimming leaves nothing of it. */
  lemma NormalisedIsPrintable(o: OrderBy)
    requires Printable(o.column)
    ensures Printable(Normalised(o).column) && Normalised(Normalised(o)) == Normalised(o)
  {
    var f := Trim(o.column);
    var w := WithKeyword(f);
    KeywordIsTrimmed();
    if f != "" {
      TrimIsTrimmed(o.column);
    }
    if w == f {
      assert f != "";
    } else {
      SuffixedEnds(f);
    }
    TrimmedStays(w);
  }

  lemma PrintsToItself(orders: seq<OrderBy>)
    requires 1 <= |orders| <= 3
    requires forall i :: 0 <= i < |orders| ==> Printable(orders[i].column) && Normalised(orders[i]) == orders[i]
    ensures Parse(Print(orders)) == Ok(orders)
  {
    PrintThenParse(orders);
    assert AllNormalised(orders) == orders;
  }

  lemma {:induction false} PieceLacks(s: string, c: char, p: string)
    requires p in AllPieces(s, c)
    ensures c !in p && forall x :: x in p ==> x in s
    decreases |s|
  {
    var i := IndexOf(s, c);
    if i == |s| || p == s[..i] {
    } else {
      assert AllPieces(s, c)[1..] == AllPieces(s[i + 1..], c);
      PieceLacks(s[i + 1..], c, p);
    }
  }

  lemma {:induction false} DropKeepsPrefix(pieces: seq<string>)
    ensures DropTrailingEmpty(pieces) <= pieces
  {
    if pieces == [] || pieces[|pieces| - 1] != "" {
    } else {
      DropKeepsPrefix(pieces[..|pieces| - 1]);
    }
  }

  lemma SplitPieceLacks(s: string, c: char, p: string)
    requires p in Split(s, c)
    ensures c !in p && forall x :: x in p ==> x in s
  {
    if IndexOf(s, c) == |s| {
      assert p == s;
    } else {
      DropKeepsPrefix(AllPieces(s, c));
      PieceLacks(s, c, p);
    }
  }

  lemma {:induction false} ParsedItems(items: seq<string>)
    requires ParseItems(items).Ok?
    ensures |ParseItems(items).value| == |items|
    ensures forall i :: 0 <= i < |items| ==> ParseItem(items[i]) == Ok(ParseItems(items).value[i])
    decreases |items|
  {
    if items == [] {
    } else {
      ParsedItems(items[..|items| - 1]);
    }
  }

  /** A parsed order is normalised and free of separators. */
  lemma ParsedItemIsNormal(item: string)
    requires ';' !in item && ParseItem(item).Ok?
    ensures Printable(ParseItem(item).value.column)
    ensures Normalised(ParseItem(item).value) == ParseItem(item).value
  {
    var parts := Split(item, ':');
    assert parts[0] in parts;
    SplitPieceLacks(item, ':', parts[0]);
    NormalisedIsPrintable(OrderBy(parts[0], ParseItem(item).value.direction));
  }

  lemma DefaultIsNormal()
    ensures Printable(CREATED_AT) && Normalised(OrderBy(CREATED_AT, DESC)) == OrderBy(CREATED_AT, DESC)
  {
    TrimmedStays(CREATED_AT);
  }

  /** What parsing any parameter gives is a fixed point: printed and parsed again it stays the same. */
  lemma ParsedIsFixedPoint(param: string)
    requires Parse(param).Ok? && Parse(param).value != []
    ensures Parse(Print(Parse(param).value)) == Parse(param)
  {
    var orders := Parse(param).value;
    if param == "" {
      DefaultIsNormal();
    } else {
      var items := Split(param, ';');
      ParsedItems(items);
      forall i | 0 <= i < |orders|
        ensures Printable(orders[i].column) && Normalised(orders[i]) == orders[i]
      {
        assert items[i] in items;
        SplitPieceLacks(param, ';', items[i]);
        ParsedItemIsNormal(items[i]);
      }
    }
    PrintsToItself(orders);
  }
}
