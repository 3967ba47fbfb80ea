/** Schema errors are printed as one list and split back into messages. */
module ValidationMessages {
  import opened Json
  import Sort = SortOrders
  import Text

  const FIELD := "Field"

  /** The whitespace class of the splitting pattern. */
  predicate IsSpace(c: char) {
    c == ' ' || '\t' <= c <= '\r'
  }

  /** A comma at i is followed by optional whitespace up to j and the word Field. */
  predicate CutsAt(s: string, i: nat, j: nat) {
    && i < j <= |s| && s[i] == ','
    && (forall k :: i < k < j ==> IsSpace(s[k]))
    && Text.StartsWith(s[j..], FIELD)
  }

  predicate IsCut(s: string, i: nat) {
    exists j :: i < j <= |s| && CutsAt(s, i, j)
  }

  /** The first comma that separates two messages. */
  function FirstCut(s: string, from: nat): (i: nat)
    requires from <= |s|
    ensures from <= i <= |s|
    ensures i < |s| ==> IsCut(s, i)
    ensures forall k: nat :: from <= k < i ==> !IsCut(s, k)
    decreases |s| - from
  {
    if from == |s| || IsCut(s, from) then from else FirstCut(s, from + 1)
  }

  function SplitFields(s: string): seq<string>
    decreases |s|
  {
    var i := FirstCut(s, 0);
    if i == |s| then [s] else [s[..i]] + SplitFields(s[i + 1..])
  }

  function Joined(ms: seq<string>): string {
    if ms == [] then "" else if |ms| == 1 then ms[0] else ms[0] + ", " + Joined(ms[1..])
  }

  /** A list of strings as toString prints it. */
  function Printed(ms: seq<string>): string {
    "[" + Joined(ms) + "]"
  }

  /** A bracket is stripped from each end that has one. */
  function StripBrackets(s: string): string {
    var t := if s != "" && s[0] == '[' then s[1..] else s;
    if t != "" && t[|t| - 1] == ']' then t[..|t| - 1] else t
  }

  function Without(s: string, c: char): string {
    if s == "" then "" else (if s[0] == c then "" else [s[0]]) + Without(s[1..], c)
  }

  /** First every backslash before a quote is dropped, then every backslash. */
  function Unescaped(s: string): string {
    if s == "" then ""
    else if |s| >= 2 && s[0] == '\\' && s[1] == '"' then ['"'] + Unescaped(s[2..])
    else [s[0]] + Unescaped(s[1..])
  }

  function Cleaned(s: string): string {
    Without(Unescaped(Sort.Trim(s)), '\\')
  }

  /** The two replacements amount to dropping all backslashes. */
  lemma {:induction false} UnescapeThenStrip(s: string)
    ensures Without(Unescaped(s), '\\') == Without(s, '\\')
  {
    if s == "" {
    } else if |s| >= 2 && s[0] == '\\' && s[1] == '"' {
      UnescapeThenStrip(s[2..]);
      assert s[1..][1..] == s[2..];
      assert Without(s[1..], '\\') == ['"'] + Without(s[2..], '\\');
      assert (['"'] + Unescaped(s[2..]))[1..] == Unescaped(s[2..]);
    } else {
      UnescapeThenStrip(s[1..]);
      assert ([s[0]] + Unescaped(s[1..]))[1..] == Unescaped(s[1..]);
    }
  }

  // ---------------------------------------------------------------- one message per error

  method ParseValidationMessages(raw: string, describe: string -> string) returns (messages: seq<string>)
    ensures var pieces := SplitFields(StripBrackets(raw));
            && |messages| == |pieces|
            && forall i :: 0 <= i < |pieces| ==> messages[i] == describe(Cleaned(pieces[i]))
  {
    var rawMessages := SplitFields(StripBrackets(raw));
    messages := [];
    for i := 0 to |rawMessages|
      invariant |messages| == i
      invariant forall k :: 0 <= k < i ==> messages[k] == describe(Cleaned(rawMessages[k]))
    {
      messages := messages + [describe(Cleaned(rawMessages[i]))];
    }
  }

  // ---------------------------------------------------------------- round trip

  ghost predicate Uncut(m: string) {
    forall i: nat :: i < |m| ==> !IsCut(m, i)
  }

  /** A message that starts with Field and holds no separator itself. */
  ghost predicate Separable(m: string) {
    Text.StartsWith(m, FIELD) && Uncut(m)
  }

  ghost predicate AllSeparable(ms: seq<string>) {
    forall i :: 0 <= i < |ms| ==> Separable(ms[i])
  }

  /** No separator reaches across the comma that follows a message. */
  lemma NoCutAcross(m: string, rest: string, i: nat)
    requires i < |m| && IsCut(m + "," + rest, i)
    ensures IsCut(m, i)
  {
    var s := m + "," + rest;
    var j :| i < j <= |s| && CutsAt(s, i, j);
    assert s[|m|] == ',' && !IsSpace(s[|m|]);
    assert j <= |m|;
    assert s[j..][..|FIELD|] == FIELD;
    forall p | j <= p < j + |FIELD|
      ensures s[p] != ',' && s[p] == FIELD[p - j]
    {
      assert s[j..][p - j] == FIELD[p - j];
    }
    assert j + |FIELD| <= |m|;
    assert m[j..][..|FIELD|] == FIELD;
    assert forall k :: i < k < j ==> m[k] == s[k];
    assert CutsAt(m, i, j);
  }

  /** A leading space adds no separator. */
  lemma NoCutAfterSpace(m: string, i: nat)
    requires i < |" " + m| && IsCut(" " + m, i)
    ensures i > 0 && IsCut(m, i - 1)
  {
    var s := " " + m;
    var j :| i < j <= |s| && CutsAt(s, i, j);
    assert s[j..] == m[j - 1..];
    assert forall k :: i < k < j ==> m[k - 1] == s[k];
    assert forall k :: i - 1 < k < j - 1 ==> m[k] == s[k + 1];
    assert CutsAt(m, i - 1, j - 1);
  }

  lemma SpacedUncut(m: string)
    requires Uncut(m)
    ensures Uncut(" " + m)
  {
    forall i: nat | i < |" " + m|
      ensures !IsCut(" " + m, i)
    {
      if IsCut(" " + m, i) {
        NoCutAfterSpace(m, i);
      }
    }
  }

  lemma CutThere(m: string, next: string)
    requires Text.StartsWith(next, FIELD)
    ensures IsCut(m + ", " + next, |m|)
  {
    var s := m + ", " + next;
    assert s[|m| + 2..] == next;
    assert CutsAt(s, |m|, |m| + 2);
  }

  lemma NoEarlierCut(m: string, next: string, i: nat)
    requires Uncut(m) && i < |m|
    ensures !IsCut(m + ", " + next, i)
  {
    assert m + ", " + next == m + "," + (" " + next);
    if IsCut(m + "," + (" " + next), i) {
      NoCutAcross(m, " " + next, i);
    }
  }

  lemma CutAfter(m: string, next: string)
    requires Uncut(m) && Text.StartsWith(next, FIELD)
    ensures FirstCut(m + ", " + next, 0) == |m|
  {
    var s := m + ", " + next;
    CutThere(m, next);
    forall i: nat | i < |m| {
      NoEarlierCut(m, next, i);
    }
    FirstCutIs(s, |m|);
  }

  lemma FirstCutIs(s: string, n: nat)
    requires n < |s| && IsCut(s, n) && forall i: nat :: i < n ==> !IsCut(s, i)
    ensures FirstCut(s, 0) == n
  {
  }

  lemma JoinedStarts(ms: seq<string>)
    requires ms != [] && AllSeparable(ms)
    ensures Text.StartsWith(Joined(ms), FIELD)
  {
    if |ms| > 1 {
      assert Joined(ms)[..|FIELD|] == ms[0][..|FIELD|];
    }
  }

  /** Every message after the first comes back with the space of the separator in front. */
  function Spaced(ms: seq<string>): seq<string> {
    seq(|ms|, i requires 0 <= i < |ms| => " " + ms[i])
  }

  lemma SplitAtFirstCut(s: string, n: nat)
    requires n < |s| && FirstCut(s, 0) == n
    ensures SplitFields(s) == [s[..n]] + SplitFields(s[n + 1..])
  {
  }

  lemma SplitAt(s: string, n: nat)
    requires n < |s| && IsCut(s, n) && forall i: nat :: i < n ==> !IsCut(s, i)
    ensures SplitFields(s) == [s[..n]] + SplitFields(s[n + 1..])
  {
    FirstCutIs(s, n);
    SplitAtFirstCut(s, n);
  }

  lemma UnsplitFields(s: string)
    requires Uncut(s)
    ensures SplitFields(s) == [s]
  {
    assert FirstCut(s, 0) == |s|;
  }

  lemma SplitAfter(m: string, next: string)
    requires Uncut(m) && Text.StartsWith(next, FIELD)
    ensures SplitFields(m + ", " + next) == [m] + SplitFields(" " + next)
  {
    var s := m + ", " + next;
    CutAfter(m, next);
    assert s[..|m|] == m && s[|m| + 1..] == " " + next;
  }

  lemma Associates(a: string, b: string, c: string, x: string)
    ensures a + (b + c + x) == (a + b) + c + x
  {
  }

  lemma SpacedStep(ms: seq<string>)
    requires ms != []
    ensures Spaced(ms) == [" " + ms[0]] + Spaced(ms[1..])
  {
  }

  lemma SpacedAt(ms: seq<string>, i: nat)
    requires i < |ms|
    ensures |[ms[0]] + Spaced(ms[1..])| == |ms|
    ensures ([ms[0]] + Spaced(ms[1..]))[i] == if i == 0 then ms[0] else " " + ms[i]
  {
  }

  lemma {:induction false} SplitJoined(head: string, ms: seq<string>)
    requires ms != [] && AllSeparable(ms)
    requires Uncut(head + ms[0])
    ensures SplitFields(head + Joined(ms)) == [head + ms[0]] + Spaced(ms[1..])
    decreases |ms|
  {
    if |ms| == 1 {
      UnsplitFields(head + ms[0]);
      assert Spaced(ms[1..]) == [];
    } else {
      var rest := ms[1..];
      assert Separable(ms[1]) && rest[0] == ms[1];
      JoinedStarts(rest);
      Associates(head, ms[0], ", ", Joined(rest));
      SpacedStep(rest);
      SplitAfter(head + ms[0], Joined(rest));
      SpacedUncut(rest[0]);
      SplitJoined(" ", rest);
    }
  }

  lemma SpaceTrims(m: string)
    ensures Sort.Trim(" " + m) == Sort.Trim(m)
  {
    assert (" " + m)[1..] == m;
  }

  lemma PieceCleaned(m: string)
    ensures Cleaned(m) == Cleaned(" " + m) == Without(Sort.Trim(m), '\\')
  {
    SpaceTrims(m);
    UnescapeThenStrip(Sort.Trim(m));
  }

  lemma StripPrinted(ms: seq<string>)
    ensures StripBrackets(Printed(ms)) == Joined(ms)
  {
    assert Printed(ms)[1..] == Joined(ms) + "]";
  }

  lemma PiecesOfPrinted(ms: seq<string>)
    requires ms != [] && AllSeparable(ms)
    ensures SplitFields(StripBrackets(Printed(ms))) == [ms[0]] + Spaced(ms[1..])
  {
    StripPrinted(ms);
    assert "" + Joined(ms) == Joined(ms) && "" + ms[0] == ms[0];
    SplitJoined("", ms);
  }

  /** Printing any non-empty list of separable messages and splitting it back yields the same messages,
      trimmed and without backslashes, in the same order: exactly one piece per schema error. */
  lemma SplitPrinted(ms: seq<string>)
    requires ms != [] && AllSeparable(ms)
    ensures var pieces := SplitFields(StripBrackets(Printed(ms)));
            && |pieces| == |ms|
            && forall i :: 0 <= i < |ms| ==> Cleaned(pieces[i]) == Without(Sort.Trim(ms[i]), '\\')
  {
    PiecesOfPrinted(ms);
    var pieces := SplitFields(StripBrackets(Printed(ms)));
    SpacedAt(ms, 0);
    forall i | 0 <= i < |ms|
      ensures Cleaned(pieces[i]) == Without(Sort.Trim(ms[i]), '\\')
    {
      SpacedAt(ms, i);
      PieceCleaned(ms[i]);
    }
  }

  // ---------------------------------------------------------------- when the count is right

  lemma CutStays(m: string, rest: string, i: nat)
    requires i < |m| && IsCut(m, i)
    ensures IsCut(m + rest, i)
  {
    var j :| i < j <= |m| && CutsAt(m, i, j);
    var s := m + rest;
    assert forall k :: i < k < j ==> s[k] == m[k];
    assert s[j..][..|FIELD|] == m[j..][..|FIELD|];
    assert CutsAt(s, i, j);
  }

  lemma NoCutBefore(a: string, next: string, k: nat)
    requires k < |a| && !IsCut(a, k)
    ensures !IsCut(a + ", " + next, k)
  {
    assert a + ", " + next == a + "," + (" " + next);
    if IsCut(a + "," + (" " + next), k) {
      NoCutAcross(a, " " + next, k);
    }
  }

  lemma AroundCut(a: string, rest: string, i: nat)
    requires i < |a|
    ensures (a + rest)[..i] == a[..i] && (a + rest)[i + 1..] == a[i + 1..] + rest
  {
  }

  lemma StaysFirst(a: string, next: string, i: nat)
    requires i < |a| && IsCut(a, i) && forall k: nat :: k < i ==> !IsCut(a, k)
    ensures IsCut(a + ", " + next, i) && forall k: nat :: k < i ==> !IsCut(a + ", " + next, k)
  {
    assert a + ", " + next == a + (", " + next);
    CutStays(a, ", " + next, i);
    forall k: nat | k < i
      ensures !IsCut(a + ", " + next, k)
    {
      NoCutBefore(a, next, k);
    }
  }

  lemma FirstStays(a: string, next: string, i: nat)
    requires i < |a| && IsCut(a, i) && forall k: nat :: k < i ==> !IsCut(a, k)
    ensures SplitFields(a + ", " + next) == [a[..i]] + SplitFields(a[i + 1..] + ", " + next)
  {
    StaysFirst(a, next, i);
    SplitAt(a + ", " + next, i);
    AroundCut(a, ", " + next, i);
    assert a + ", " + next == a + (", " + next);
    assert a[i + 1..] + ", " + next == a[i + 1..] + (", " + next);
  }

  lemma {:induction false} PiecesAdd(a: string, next: string)
    requires Text.StartsWith(next, FIELD)
    ensures |SplitFields(a + ", " + next)| == |SplitFields(a)| + |SplitFields(" " + next)|
    decreases |a|
  {
    var i := FirstCut(a, 0);
    if i == |a| {
      SplitAfter(a, next);
      UnsplitFields(a);
    } else {
      FirstStays(a, next, i);
      SplitAt(a, i);
      PiecesAdd(a[i + 1..], next);
    }
  }

  lemma SpacedCut(m: string, i: nat)
    requires i < |m| && IsCut(m, i)
    ensures IsCut(" " + m, i + 1)
  {
    var j :| i < j <= |m| && CutsAt(m, i, j);
    var s := " " + m;
    assert forall k :: i + 1 < k < j + 1 ==> s[k] == m[k - 1];
    assert s[j + 1..] == m[j..];
    assert CutsAt(s, i + 1, j + 1);
  }

  lemma NoEarlierSpacedCut(m: string, i: nat)
    requires forall k: nat :: k < i ==> !IsCut(m, k)
    requires i <= |m|
    ensures forall k: nat :: k < i + 1 ==> !IsCut(" " + m, k)
  {
    forall k: nat | k < i + 1
      ensures !IsCut(" " + m, k)
    {
      if IsCut(" " + m, k) {
        NoCutAfterSpace(m, k);
      }
    }
  }

  lemma SpaceKeepsCount(m: string)
    ensures |SplitFields(" " + m)| == |SplitFields(m)|
  {
    var i := FirstCut(m, 0);
    if i == |m| {
      SpacedUncut(m);
      UnsplitFields(m);
      UnsplitFields(" " + m);
    } else {
      SpacedCut(m, i);
      NoEarlierSpacedCut(m, i);
      SplitAt(m, i);
      SplitAt(" " + m, i + 1);
      assert (" " + m)[i + 2..] == m[i + 1..];
    }
  }

  function TotalPieces(ms: seq<string>): nat {
    if ms == [] then 0 else |SplitFields(ms[0])| + TotalPieces(ms[1..])
  }

  lemma {:induction false} JoinedPieces(ms: seq<string>)
    requires ms != [] && forall i :: 0 <= i < |ms| ==> Text.StartsWith(ms[i], FIELD)
    ensures Text.StartsWith(Joined(ms), FIELD)
    ensures |SplitFields(Joined(ms))| == TotalPieces(ms)
    decreases |ms|
  {
    if |ms| == 1 {
    } else {
      JoinedPieces(ms[1..]);
      PiecesAdd(ms[0], Joined(ms[1..]));
      SpaceKeepsCount(Joined(ms[1..]));
      assert Joined(ms)[..|FIELD|] == ms[0][..|FIELD|];
    }
  }

  lemma {:induction false} TotalPiecesExactly(ms: seq<string>)
    ensures TotalPieces(ms) >= |ms|
    ensures TotalPieces(ms) == |ms| <==> forall i :: 0 <= i < |ms| ==> Uncut(ms[i])
  {
    if ms == [] {
    } else {
      TotalPiecesExactly(ms[1..]);
      assert |SplitFields(ms[0])| == 1 <==> Uncut(ms[0]);
    }
  }

  /** Split back, a list of errors never gives fewer messages than errors, and exactly one message per error
      precisely when there is an error and no error text holds a comma followed by optional whitespace and
      the word Field. */
  lemma OneMessagePerErrorExactly(ms: seq<string>)
    requires forall i :: 0 <= i < |ms| ==> Text.StartsWith(ms[i], FIELD)
    ensures |SplitFields(StripBrackets(Printed(ms)))| >= |ms|
    ensures |SplitFields(StripBrackets(Printed(ms)))| == |ms| <==> ms != [] && AllSeparable(ms)
  {
    StripPrinted(ms);
    if ms == [] {
      UnsplitFields("");
    } else {
      JoinedPieces(ms);
      TotalPiecesExactly(ms);
    }
  }

  // ---------------------------------------------------------------- the schema report

  /** One entry of the schema report: its level, the pointer to the instance and the text of the message. */
  datatype Entry = Entry(level: string, pointer: Option<string>, message: Option<string>)

  const UNKNOWN := "Unknown field"

  /** The field an entry blames. The regular expression that finds the first missing property is a parameter. */
  function BlamedField(n: Entry, missing: string -> Option<string>): string {
    if n.pointer.Some? && n.pointer.value != "" then n.pointer.value[1..]
    else if Text.Contains(ErrorText(n), "missing required properties") && missing(ErrorText(n)).Some? then
      missing(ErrorText(n)).value
    else UNKNOWN
  }

  function ErrorText(n: Entry): string {
    if n.message.Some? then n.message.value else "Validation failed"
  }

  predicate IsError(n: Entry) {
    Text.EqualsIgnoreCase(n.level, "error")
  }

  function UserMessage(n: Entry, missing: string -> Option<string>): string {
    FIELD + " \"" + BlamedField(n, missing) + "\": " + ErrorText(n)
  }

  function Errors(report: seq<Entry>): seq<Entry>
    decreases |report|
  {
    if report == [] then []
    else
      var n := |report| - 1;
      Errors(report[..n]) + if IsError(report[n]) then [report[n]] else []
  }

  /** The user messages of the errors, in the order of the report. */
  function ErrorList(report: seq<Entry>, missing: string -> Option<string>): seq<string> {
    MessagesOf(Errors(report), missing)
  }

  function MessagesOf(errors: seq<Entry>, missing: string -> Option<string>): seq<string> {
    seq(|errors|, i requires 0 <= i < |errors| => UserMessage(errors[i], missing))
  }

  /** The blamed fields, each once, in the order in which they are first blamed. */
  function BlamedFields(errors: seq<Entry>, missing: string -> Option<string>): seq<string>
    decreases |errors|
  {
    if errors == [] then []
    else
      var n := |errors| - 1;
      Added(BlamedFields(errors[..n], missing), BlamedField(errors[n], missing))
  }

  /** What a set that keeps insertion order holds once the field is added. */
  function Added(fields: seq<string>, field: string): seq<string> {
    if field in fields then fields else fields + [field]
  }

  lemma {:induction false} BlamedFieldsExactly(errors: seq<Entry>, missing: string -> Option<string>)
    ensures forall f :: f in BlamedFields(errors, missing) <==> exists n :: n in errors && BlamedField(n, missing) == f
    ensures forall i, j :: 0 <= i < j < |BlamedFields(errors, missing)| ==>
              BlamedFields(errors, missing)[i] != BlamedFields(errors, missing)[j]
    decreases |errors|
  {
    if errors == [] {
    } else {
      var n := |errors| - 1;
      BlamedFieldsExactly(errors[..n], missing);
      assert errors == errors[..n] + [errors[n]];
      assert forall x :: x in errors <==> x in errors[..n] || x == errors[n];
    }
  }

  lemma ErrorsOfPrefix(report: seq<Entry>, i: nat)
    requires i < |report|
    ensures Errors(report[..i + 1]) == Errors(report[..i]) + if IsError(report[i]) then [report[i]] else []
  {
    assert report[..i + 1][..i] == report[..i];
  }

  lemma ListsOneMore(errors: seq<Entry>, n: Entry, missing: string -> Option<string>)
    ensures MessagesOf(errors + [n], missing) == MessagesOf(errors, missing) + [UserMessage(n, missing)]
    ensures BlamedFields(errors + [n], missing) == Added(BlamedFields(errors, missing), BlamedField(n, missing))
  {
    assert (errors + [n])[..|errors|] == errors;
  }

  /** The error loop over the schema report. */
  method CollectErrors(report: seq<Entry>, missing: string -> Option<string>)
    returns (schemaErrorList: seq<string>, errorFields: seq<string>)
    ensures schemaErrorList == ErrorList(report, missing)
    ensures errorFields == BlamedFields(Errors(report), missing)
  {
    schemaErrorList, errorFields := [], [];
    for i := 0 to |report|
      invariant schemaErrorList == MessagesOf(Errors(report[..i]), missing)
      invariant errorFields == BlamedFields(Errors(report[..i]), missing)
    {
      ErrorsOfPrefix(report, i);
      if IsError(report[i]) {
        ListsOneMore(Errors(report[..i]), report[i], missing);
        errorFields := Added(errorFields, BlamedField(report[i], missing));
        schemaErrorList := schemaErrorList + [UserMessage(report[i], missing)];
      } else {
        assert Errors(report[..i + 1]) == Errors(report[..i]);
      }
    }
    assert report[..|report|] == report;
  }

  /** The answer to a document that fails its schema. */
  datatype Rejection = Rejection(fields: seq<string>, results: seq<string>)

  /** A document is accepted when the report says so; otherwise it is rejected with the messages split
      back out of the printed list of errors. */
  method Validate(report: seq<Entry>, success: bool, missing: string -> Option<string>, describe: string -> string)
    returns (r: Option<Rejection>)
    ensures r.None? <==> success
    ensures !success ==>
              && r.value.fields == BlamedFields(Errors(report), missing)
              && |r.value.results| >= |Errors(report)|
              && (|r.value.results| == |Errors(report)| <==>
                    Errors(report) != [] && AllSeparable(ErrorList(report, missing)))
              && (Errors(report) != [] && AllSeparable(ErrorList(report, missing)) ==>
                    forall i :: 0 <= i < |Errors(report)| ==>
                      r.value.results[i] == describe(Without(Sort.Trim(UserMessage(Errors(report)[i], missing)), '\\')))
  {
    var schemaErrorList, errorFields := CollectErrors(report, missing);
    if success {
      return None;
    }
    var results := ParseValidationMessages(Printed(schemaErrorList), describe);
    ErrorsReadBack(report, missing);
    return Some(Rejection(errorFields, results));
  }

  lemma ErrorsReadBack(report: seq<Entry>, missing: string -> Option<string>)
    ensures var pieces := SplitFields(StripBrackets(Printed(ErrorList(report, missing))));
            && |pieces| >= |Errors(report)|
            && (|pieces| == |Errors(report)| <==> Errors(report) != [] && AllSeparable(ErrorList(report, missing)))
            && (Errors(report) != [] && AllSeparable(ErrorList(report, missing)) ==>
                  forall i :: 0 <= i < |Errors(report)| ==>
                    Cleaned(pieces[i]) == Without(Sort.Trim(UserMessage(Errors(report)[i], missing)), '\\'))
  {
    var ms := ErrorList(report, missing);
    forall i | 0 <= i < |ms|
      ensures Text.StartsWith(ms[i], FIELD)
    {
      assert ms[i][..|FIELD|] == FIELD;
    }
    OneMessagePerErrorExactly(ms);
    if ms != [] && AllSeparable(ms) {
      SplitPrinted(ms);
    }
  }

  /** An entry blames the field its pointer names; without a pointer the first missing property that the
      expression finds in a message about missing properties, and otherwise no known field. */
  lemma BlamedFieldExactly(n: Entry, f: string, missing: string -> Option<string>)
    ensures n.pointer == Some("/" + f) ==> BlamedField(n, missing) == f
    ensures n.pointer == None || n.pointer == Some("") ==>
              BlamedField(n, missing) ==
              if n.message.Some? && Text.Contains(n.message.value, "missing required properties")
                 && missing(n.message.value).Some?
              then missing(n.message.value).value else "Unknown field"
  {
    assert ("/" + f)[1..] == f;
    if n.message.None? {
      Text.LacksLetter("Validation failed", "missing required properties", 0);
    }
  }

  lemma OneMoreEntry(report: seq<Entry>, n: Entry, kept: seq<Entry>)
    requires kept == if IsError(n) then [n] else []
    ensures Errors(report + [n]) == Errors(report) + kept
  {
    assert (report + [n])[..|report|] == report;
  }

  lemma Rejoined(a: seq<Entry>, b: seq<Entry>, c: seq<Entry>)
    ensures (a + b) + c == a + (b + c)
  {
  }

  lemma {:induction false} ErrorsAppend(a: seq<Entry>, b: seq<Entry>)
    ensures Errors(a + b) == Errors(a) + Errors(b)
    decreases |b|
  {
    if b == [] {
      assert a + b == a;
    } else {
      var init, last := b[..|b| - 1], b[|b| - 1];
      ErrorsAppend(a, init);
      var kept := if IsError(last) then [last] else [];
      OneMoreEntry(a + init, last, kept);
      OneMoreEntry(init, last, kept);
      assert init + [last] == b;
      Rejoined(a, init, [last]);
      Rejoined(Errors(a), Errors(init), kept);
    }
  }

  /** The report loop keeps the entries whose level is error, in any case, and their order. */
  lemma ErrorsExactly(a: seq<Entry>, b: seq<Entry>, n: Entry)
    ensures Errors(a + b) == Errors(a) + Errors(b)
    ensures Errors([n]) == if Text.ToLower(n.level) == "error" then [n] else []
  {
    ErrorsAppend(a, b);
    OneMoreEntry([], n, if IsError(n) then [n] else []);
    assert [] + [n] == [n] && Text.ToLower("error") == "error";
  }

  // ---------------------------------------------------------------- one message too many

  function MessageCount(report: seq<Entry>, missing: string -> Option<string>): nat {
    |SplitFields(StripBrackets(Printed(ErrorList(report, missing))))|
  }

  const QUOTE_START := "ECMA 262 regex \"^(RESTRICTED|OPEN|PRIVATE)$\" does not match input string \"OPEN"
  const QUOTE_END := "\""

  /** An error whose text quotes the value "OPEN,Field" from the request. */
  const QUOTED := Entry("error", Some("/accessPolicy"), Some(QUOTE_START + "," + FIELD + QUOTE_END))

  lemma CutInside(before: string, after: string)
    ensures !Uncut(before + "," + FIELD + after)
  {
    var m := before + "," + FIELD + after;
    assert m[|before| + 1..] == FIELD + after;
    assert CutsAt(m, |before|, |before| + 1);
    assert IsCut(m, |before|);
  }

  lemma Regrouped(head: string, before: string, mid: string, after: string)
    ensures head + (before + "," + mid + after) == (head + before) + "," + mid + after
  {
  }

  lemma StartsWithField(rest: string)
    ensures Text.StartsWith(FIELD + rest, FIELD)
  {
    assert (FIELD + rest)[..|FIELD|] == FIELD;
  }

  lemma MessageHolds(n: Entry, before: string, after: string, missing: string -> Option<string>)
    requires n.message == Some(before + "," + FIELD + after)
    ensures !Uncut(UserMessage(n, missing)) && Text.StartsWith(UserMessage(n, missing), FIELD)
  {
    var rest := " \"" + BlamedField(n, missing) + "\": ";
    var head := FIELD + rest;
    assert head == FIELD + " \"" + BlamedField(n, missing) + "\": ";
    CutInside(head + before, after);
    Regrouped(head, before, FIELD, after);
    StartsWithField(rest + ErrorText(n));
    assert FIELD + (rest + ErrorText(n)) == head + ErrorText(n);
  }

  /** An error whose text holds a comma and the word Field gives more than one message. */
  lemma SeparatorInText(n: Entry, before: string, after: string, missing: string -> Option<string>)
    requires IsError(n) && n.message == Some(before + "," + FIELD + after)
    ensures MessageCount([n], missing) > 1
  {
    MessageHolds(n, before, after, missing);
    assert Errors([n][..0]) == [] && Errors([n]) == [n];
    var ms := ErrorList([n], missing);
    assert ms == [UserMessage(n, missing)];
    OneMessagePerErrorExactly(ms);
    assert !Separable(ms[0]);
  }

  /** A rejection without a single error still gives one message, and an error that quotes a value with a
      comma and the word Field in it gives two or more. */
  lemma WrongNumberOfMessages(missing: string -> Option<string>)
    ensures MessageCount([], missing) == 1
    ensures |Errors([QUOTED])| == 1 && MessageCount([QUOTED], missing) > 1
  {
    StripPrinted([]);
    UnsplitFields("");
    SeparatorInText(QUOTED, QUOTE_START, QUOTE_END, missing);
    assert Errors([QUOTED][..0]) == [] && Errors([QUOTED]) == [QUOTED];
  }
}
