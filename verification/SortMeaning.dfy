/** What the sort parameter is parsed into, said without the splitting and trimming that parse it. */
module SortMeaning {
  import opened Json
  import opened SortOrders
  import Text

  // ---------------------------------------------------------------- splitting

  function Join(pieces: seq<string>, c: char): string
    requires pieces != []
  {
    if |pieces| == 1 then pieces[0] else pieces[0] + [c] + Join(pieces[1..], c)
  }

  function Repeated<T>(x: T, k: nat): seq<T> {
    seq(k, i => x)
  }

  /** The string is the pieces joined, followed by k separators; without a separator it is one piece. */
  ghost predicate SplitsInto(s: string, c: char, pieces: seq<string>, k: nat) {
    && (forall p | p in pieces :: c !in p)
    && pieces + Repeated("", k) != [] && s == Join(pieces + Repeated("", k), c)
    && if c in s then pieces == [] || pieces[|pieces| - 1] != "" else |pieces| == 1 && k == 0
  }

  lemma {:induction false} PiecesJoin(s: string, c: char)
    ensures AllPieces(s, c) != [] && Join(AllPieces(s, c), c) == s
    decreases |s|
  {
    var i := IndexOf(s, c);
    if i < |s| {
      PiecesJoin(s[i + 1..], c);
      var rest := AllPieces(s[i + 1..], c);
      assert AllPieces(s, c) == [s[..i]] + rest && ([s[..i]] + rest)[1..] == rest;
      assert s == s[..i] + [c] + s[i + 1..];
    }
  }

  lemma {:induction false} JoinedPieces(pieces: seq<string>, c: char)
    requires pieces != [] && forall p | p in pieces :: c !in p
    ensures AllPieces(Join(pieces, c), c) == pieces
    decreases |pieces|
  {
    if |pieces| == 1 {
      UnsplitPiece(pieces[0], c);
    } else {
      JoinedPieces(pieces[1..], c);
      PiecesAppended(pieces[0], c, Join(pieces[1..], c));
    }
  }

  lemma {:induction false} DropsEmpties(pieces: seq<string>)
    ensures var kept := DropTrailingEmpty(pieces);
            && |kept| <= |pieces| && pieces == kept + Repeated("", |pieces| - |kept|)
            && (kept == [] || kept[|kept| - 1] != "")
    decreases |pieces|
  {
    if pieces != [] && pieces[|pieces| - 1] == "" {
      DropsEmpties(pieces[..|pieces| - 1]);
    }
  }

  lemma {:induction false} DropsAppended(pieces: seq<string>, k: nat)
    requires pieces == [] || pieces[|pieces| - 1] != ""
    ensures DropTrailingEmpty(pieces + Repeated("", k)) == pieces
  {
    if k == 0 {
      assert pieces + Repeated("", 0) == pieces;
    } else {
      DropsAppended(pieces, k - 1);
      assert (pieces + Repeated("", k))[..|pieces| + k - 1] == pieces + Repeated("", k - 1);
    }
  }

  lemma FoundExactly(s: string, c: char)
    ensures IndexOf(s, c) < |s| <==> c in s
  {
  }

  lemma SplitSplits(s: string, c: char)
    ensures exists k: nat :: SplitsInto(s, c, Split(s, c), k)
  {
    FoundExactly(s, c);
    var all := AllPieces(s, c);
    forall p | p in Split(s, c)
      ensures c !in p
    {
      SplitPieceLacks(s, c, p);
    }
    if c in s {
      PiecesJoin(s, c);
      DropsEmpties(all);
      assert SplitsInto(s, c, Split(s, c), |all| - |DropTrailingEmpty(all)|);
    } else {
      assert Split(s, c) == [s] && [s] + Repeated("", 0) == [s];
      assert SplitsInto(s, c, Split(s, c), 0);
    }
  }

  lemma SplitIs(s: string, c: char, pieces: seq<string>, k: nat)
    requires SplitsInto(s, c, pieces, k)
    ensures Split(s, c) == pieces
  {
    FoundExactly(s, c);
    if c in s {
      JoinedPieces(pieces + Repeated("", k), c);
      DropsAppended(pieces, k);
    } else {
      assert pieces + Repeated("", 0) == pieces;
      assert pieces == [s];
    }
  }

  /** String.split on one character gives exactly the pieces that, joined again, are the string but for
      separators at its end. */
  lemma SplitExactly(s: string, c: char, pieces: seq<string>)
    ensures Split(s, c) == pieces <==> exists k: nat :: SplitsInto(s, c, pieces, k)
  {
    SplitSplits(s, c);
    if exists k: nat :: SplitsInto(s, c, pieces, k) {
      var k: nat :| SplitsInto(s, c, pieces, k);
      SplitIs(s, c, pieces, k);
    }
  }

  // ---------------------------------------------------------------- trimming and columns

  predicate IsSpace(s: string) {
    forall i :: 0 <= i < |s| ==> s[i] <= ' '
  }

  lemma {:induction false} LeftTrimmed(s: string) returns (left: string)
    ensures IsSpace(left) && s == left + TrimLeft(s) && (TrimLeft(s) == "" || TrimLeft(s)[0] > ' ')
  {
    if s != "" && s[0] <= ' ' {
      var rest := LeftTrimmed(s[1..]);
      left := [s[0]] + rest;
    } else {
      left := "";
    }
  }

  lemma {:induction false} RightTrimmed(s: string) returns (right: string)
    ensures IsSpace(right) && s == TrimRight(s) + right
    ensures TrimRight(s) == "" || TrimRight(s)[|TrimRight(s)| - 1] > ' '
  {
    if s != "" && s[|s| - 1] <= ' ' {
      var rest := RightTrimmed(s[..|s| - 1]);
      right := rest + [s[|s| - 1]];
    } else {
      right := "";
    }
  }

  /** Trimming takes the characters up to the space off both ends and nothing else. */
  lemma TrimExactly(s: string) returns (left: string, right: string)
    ensures IsSpace(left) && IsSpace(right) && s == left + Trim(s) + right
    ensures Trim(s) == "" || (Trim(s)[0] > ' ' && Trim(s)[|Trim(s)| - 1] > ' ')
  {
    left := LeftTrimmed(s);
    right := RightTrimmed(TrimLeft(s));
    if Trim(s) != "" {
      assert TrimLeft(s)[0] == Trim(s)[0];
    }
  }

  /** A column is sorted by its keyword field, unless it names one or is the creation time in any case. */
  ghost predicate IsColumn(field: string, column: string) {
    if (exists stem: string :: field == stem + ".keyword") || Text.ToLower(field) == "itemcreatedat"
    then column == field
    else column == field + ".keyword"
  }

  lemma EndsExactly(s: string, suffix: string)
    ensures Text.EndsWith(s, suffix) <==> exists stem: string :: s == stem + suffix
  {
    if Text.EndsWith(s, suffix) {
      assert s == s[..|s| - |suffix|] + suffix;
    }
    if exists stem: string :: s == stem + suffix {
      var stem: string :| s == stem + suffix;
      assert s[|s| - |suffix|..] == suffix;
    }
  }

  lemma ColumnExactly(field: string)
    ensures IsColumn(field, WithKeyword(field))
  {
    EndsExactly(field, ".keyword");
    assert Text.ToLower("itemCreatedAt") == "itemcreatedat";
  }

  // ---------------------------------------------------------------- one item

  /** A column and a direction with one colon between them, and colons only after them. */
  ghost predicate IsItem(item: string, column: string, direction: string, k: nat) {
    && ':' !in column && ':' !in direction && direction != ""
    && item == column + ":" + direction + Repeated(':', k)
  }

  lemma {:induction false} JoinsEmpties(c: char, k: nat)
    ensures Join([""] + Repeated("", k), c) == Repeated(c, k)
  {
    if k == 0 {
      assert [""] + Repeated("", 0) == [""];
    } else {
      JoinsEmpties(c, k - 1);
      var all := [""] + Repeated("", k);
      assert all[1..] == [""] + Repeated("", k - 1);
      assert Repeated(c, k) == [c] + Repeated(c, k - 1);
    }
  }

  lemma JoinsItem(column: string, direction: string, k: nat)
    ensures Join([column, direction] + Repeated("", k), ':') == column + ":" + direction + Repeated(':', k)
  {
    var all := [column, direction] + Repeated("", k);
    var rest := [direction] + Repeated("", k);
    assert all[1..] == rest;
    if k == 0 {
      assert rest == [direction];
    } else {
      JoinsEmpties(':', k - 1);
      assert rest[1..] == [""] + Repeated("", k - 1);
      assert Repeated(':', k) == [':'] + Repeated(':', k - 1);
    }
  }

  lemma ItemSplits(item: string, column: string, direction: string, k: nat)
    ensures IsItem(item, column, direction, k) <==> SplitsInto(item, ':', [column, direction], k)
  {
    var pieces := [column, direction];
    JoinsItem(column, direction, k);
    assert pieces[0] in pieces && pieces[1] in pieces;
    if item == column + ":" + direction + Repeated(':', k) {
      assert item[|column|] == ':';
    }
  }

  ghost predicate IsOrder(o: OrderBy, column: string, direction: string) {
    && IsColumn(Trim(column), o.column)
    && Text.ToLower(Trim(direction)) == if o.direction == ASC then "asc" else "desc"
  }

  /** An item that is a column, a colon and a direction, with colons after it at most, is parsed into the column,
      trimmed and with its keyword suffix, and the direction in any case; a wrong direction is a bad order, and
      every other item is badly formatted. */
  lemma ParseItemExactly(item: string, column: string, direction: string, k: nat)
    ensures IsItem(item, column, direction, k) ==>
              match ParseItem(item)
              case Ok(o) => IsOrder(o, column, direction)
              case Err(e) => e == BadOrder && Text.ToLower(Trim(direction)) !in {"asc", "desc"}
    ensures (forall a: string, b: string, n: nat :: !IsItem(item, a, b, n)) <==> ParseItem(item) == Err(BadFormat)
  {
    ItemSplits(item, column, direction, k);
    ColumnExactly(Trim(column));
    if IsItem(item, column, direction, k) {
      SplitIs(item, ':', [column, direction], k);
    }
    BadlyFormatted(item);
  }

  lemma BadlyFormatted(item: string)
    ensures (forall a: string, b: string, n: nat :: !IsItem(item, a, b, n)) <==> ParseItem(item) == Err(BadFormat)
  {
    var parts := Split(item, ':');
    SplitSplits(item, ':');
    var k: nat :| SplitsInto(item, ':', parts, k);
    if |parts| == 2 {
      assert parts == [parts[0], parts[1]];
      ItemSplits(item, parts[0], parts[1], k);
    }
    forall a: string, b: string, n: nat | IsItem(item, a, b, n)
      ensures |parts| == 2
    {
      ItemSplits(item, a, b, n);
      SplitIs(item, ':', [a, b], n);
    }
  }

  // ---------------------------------------------------------------- the parameter

  /** An empty parameter asks for the latest items first. Of any other one the fields between semicolons,
      those at its end apart, are at most three, and are parsed one by one and in order; the first bad one
      decides the error. */
  lemma ParseExactly(param: string, fields: seq<string>, k: nat)
    requires SplitsInto(param, ';', fields, k)
    ensures param == "" ==> Parse(param) == Ok([OrderBy("itemCreatedAt", DESC)])
    ensures param != "" && |fields| > 3 ==> Parse(param) == Err(TooManyFields)
    ensures param != "" && |fields| <= 3 ==>
              match Parse(param)
              case Ok(orders) =>
                |orders| == |fields| && forall i :: 0 <= i < |fields| ==> ParseItem(fields[i]) == Ok(orders[i])
              case Err(e) => exists i :: IsFirstFault(fields, i, e)
  {
    SplitIs(param, ';', fields, k);
    if ParseItems(fields).Ok? {
      ParsedItems(fields);
    } else {
      FirstFaultDecides(fields);
    }
  }

  /** The item fails so, and none before it fails. */
  ghost predicate IsFirstFault(items: seq<string>, i: int, e: SortError) {
    0 <= i < |items| && ParseItem(items[i]) == Err(e) && forall j :: 0 <= j < i ==> ParseItem(items[j]).Ok?
  }

  lemma FaultStays(items: seq<string>, n: nat, i: int, e: SortError)
    requires n <= |items| && IsFirstFault(items[..n], i, e)
    ensures IsFirstFault(items, i, e)
  {
    assert forall j :: 0 <= j < n ==> items[..n][j] == items[j];
  }

  lemma LastFault(items: seq<string>, e: SortError)
    requires items != [] && ParseItems(items[..|items| - 1]).Ok? && ParseItem(items[|items| - 1]) == Err(e)
    ensures IsFirstFault(items, |items| - 1, e)
  {
    ParsedItems(items[..|items| - 1]);
    assert forall j :: 0 <= j < |items| - 1 ==> items[..|items| - 1][j] == items[j];
  }

  lemma {:induction false} FirstFaultDecides(items: seq<string>)
    requires ParseItems(items).Err?
    ensures exists i :: IsFirstFault(items, i, ParseItems(items).error)
    decreases |items|
  {
    var n := |items| - 1;
    if ParseItems(items[..n]).Err? {
      FirstFaultDecides(items[..n]);
      var i :| IsFirstFault(items[..n], i, ParseItems(items).error);
      FaultStays(items, n, i, ParseItems(items).error);
    } else {
      LastFault(items, ParseItems(items).error);
    }
  }
}
