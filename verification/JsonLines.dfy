/** Turning JSON input into newline-delimited JSON (src/conversion.rs): arrays are re-encoded one element per line,
    Python objects one object per line. */
module JsonLines {
  import opened Common
  import opened Json
  import opened JsonParser

  // ----- encoded values have no line break -----------------------------------------------------

  ghost predicate OneLine(s: string) {
    '\n' !in s
  }

  lemma {:induction false} QuoteOneLine(style: Style, s: string)
    ensures OneLine(EscapeAll(style, s)) && OneLine(Quote(style, s))
  {
    if s != "" {
      QuoteOneLine(style, s[1..]);
    }
  }

  lemma JoinedOneLine(a: string, b: string)
    requires OneLine(a) && OneLine(b)
    ensures OneLine(a + b)
  {}

  /** A key, its value and what follows. */
  lemma MemberOneLine(style: Style, key: string, value: string, more: string)
    requires OneLine(value) && OneLine(more)
    ensures OneLine(Quote(style, key) + (Colon(style) + (value + more)))
  {
    QuoteOneLine(style, key);
    JoinedOneLine(value, more);
    JoinedOneLine(Colon(style), value + more);
    JoinedOneLine(Quote(style, key), Colon(style) + (value + more));
  }

  /** A raw line break never appears in a value's text, whatever its strings hold. */
  lemma {:induction false} EncodeOneLine(style: Style, v: Value)
    ensures OneLine(Encode(style, v))
    decreases v
  {
    match v
    case Str(text) => QuoteOneLine(style, text);
    case Arr(Item(head, tail)) =>
      EncodeOneLine(style, head);
      MoreItemsOneLine(style, tail);
      JoinedOneLine(Encode(style, head), MoreItems(style, tail));
    case Obj(Member(key, value, tail)) =>
      EncodeOneLine(style, value);
      MoreMembersOneLine(style, tail);
      MemberOneLine(style, key, Encode(style, value), MoreMembers(style, tail));
    case _ =>
  }

  lemma {:induction false} MoreItemsOneLine(style: Style, items: Items)
    ensures OneLine(MoreItems(style, items))
    decreases items
  {
    if items.Item? {
      EncodeOneLine(style, items.head);
      MoreItemsOneLine(style, items.tail);
      JoinedOneLine(Encode(style, items.head), MoreItems(style, items.tail));
    }
  }

  lemma {:induction false} MoreMembersOneLine(style: Style, members: Members)
    ensures OneLine(MoreMembers(style, members))
    decreases members
  {
    if members.Member? {
      EncodeOneLine(style, members.value);
      MoreMembersOneLine(style, members.tail);
      MemberOneLine(style, members.key, Encode(style, members.value), MoreMembers(style, members.tail));
    }
  }

  // ----- lines ---------------------------------------------------------------------------------

  /** `join("\n")` */
  function JoinLines(lines: seq<string>): string {
    if lines == [] then ""
    else if |lines| == 1 then lines[0]
    else lines[0] + ("\n" + JoinLines(lines[1..]))
  }

  /** The pieces between line breaks. */
  function SplitLines(text: string): (lines: seq<string>)
    ensures lines != []
  {
    if text == "" then [""]
    else
      var rest := SplitLines(text[1..]);
      if text[0] == '\n' then [""] + rest else [[text[0]] + rest[0]] + rest[1..]
  }

  lemma {:induction false} SplitFirst(line: string, more: string)
    requires OneLine(line) && (more == "" || more[0] == '\n')
    ensures SplitLines(line + more) == [line] + SplitLines(more)[1..]
  {
    if line == "" {
      assert line + more == more;
    } else {
      SplitFirst(line[1..], more);
      assert (line + more)[1..] == line[1..] + more;
      assert [line[0]] + line[1..] == line;
    }
  }

  lemma {:induction false} SplitJoin(lines: seq<string>)
    requires lines != [] && forall i :: 0 <= i < |lines| ==> OneLine(lines[i])
    ensures SplitLines(JoinLines(lines)) == lines
  {
    if |lines| == 1 {
      SplitFirst(lines[0], "");
      assert lines[0] + "" == lines[0];
    } else {
      var more := JoinLines(lines[1..]);
      SplitJoin(lines[1..]);
      SplitFirst(lines[0], "\n" + more);
      assert ("\n" + more)[1..] == more;
      assert SplitLines("\n" + more) == [""] + SplitLines(more);
    }
  }

  // ----- trimming ------------------------------------------------------------------------------

  /** Unicode white space. */
  predicate White(c: char) {
    var n := c as int;
    || 9 <= n <= 13 || n == 32 || n == 0x85 || n == 0xA0 || n == 0x1680 || 0x2000 <= n <= 0x200A
    || n == 0x2028 || n == 0x2029 || n == 0x202F || n == 0x205F || n == 0x3000
  }

  ghost predicate AllWhite(s: string) {
    forall i :: 0 <= i < |s| ==> White(s[i])
  }

  function TrimStart(s: string): string {
    if s != "" && White(s[0]) then TrimStart(s[1..]) else s
  }

  function TrimEnd(s: string): string {
    if s != "" && White(s[|s| - 1]) then TrimEnd(s[..|s| - 1]) else s
  }

  function Trim(s: string): string {
    TrimEnd(TrimStart(s))
  }

  lemma {:induction false} TrimStartPadded(before: string, s: string)
    requires AllWhite(before) && s != "" && !White(s[0])
    ensures TrimStart(before + s) == s
  {
    if before == "" {
      assert before + s == s;
    } else {
      assert (before + s)[1..] == before[1..] + s;
      TrimStartPadded(before[1..], s);
    }
  }

  lemma {:induction false} TrimEndPadded(s: string, after: string)
    requires AllWhite(after) && s != "" && !White(s[|s| - 1])
    ensures TrimEnd(s + after) == s
  {
    if after == "" {
      assert s + after == s;
    } else {
      assert (s + after)[..|s + after| - 1] == s + after[..|after| - 1];
      TrimEndPadded(s, after[..|after| - 1]);
    }
  }

  lemma TrimPadded(before: string, s: string, after: string)
    requires AllWhite(before) && AllWhite(after) && s != "" && !White(s[0]) && !White(s[|s| - 1])
    ensures Trim(before + (s + after)) == s
  {
    TrimStartPadded(before, s + after);
    TrimEndPadded(s, after);
  }

  /** Trimming takes white space off both ends and nothing else, and leaves none there. */
  lemma TrimMeans(s: string) returns (before: string, after: string)
    ensures s == before + (Trim(s) + after) && AllWhite(before) && AllWhite(after)
    ensures Trim(s) != "" ==> !White(Trim(s)[0]) && !White(Trim(s)[|Trim(s)| - 1])
  {
    before := TrimStartMeans(s);
    after := TrimEndMeans(TrimStart(s));
  }

  lemma {:induction false} TrimStartMeans(s: string) returns (before: string)
    ensures s == before + TrimStart(s) && AllWhite(before)
    ensures TrimStart(s) != "" ==> !White(TrimStart(s)[0])
  {
    if s != "" && White(s[0]) {
      before := TrimStartMeans(s[1..]);
      before := [s[0]] + before;
    } else {
      before := "";
    }
  }

  lemma {:induction false} TrimEndMeans(s: string) returns (after: string)
    ensures s == TrimEnd(s) + after && AllWhite(after)
    ensures TrimEnd(s) != "" ==> TrimEnd(s)[0] == s[0] && !White(TrimEnd(s)[|TrimEnd(s)| - 1])
  {
    if s != "" && White(s[|s| - 1]) {
      after := TrimEndMeans(s[..|s| - 1]);
      after := after + [s[|s| - 1]];
    } else {
      after := "";
    }
  }

  // ----- the text given to the line reader -----------------------------------------------------

  datatype Error = ParseError

  /** The JSON parser, a library call. `JsonParser.Parse` says how it differs from reading the text. */
  type Parser = string -> Option<Value>

  function ToSeq(items: Items): seq<Value> {
    match items
    case NoItems => []
    case Item(head, tail) => [head] + ToSeq(tail)
  }

  function Texts(style: Style, values: seq<Value>): (texts: seq<string>)
    ensures |texts| == |values|
  {
    seq(|values|, i requires 0 <= i < |values| => Encode(style, values[i]))
  }

  /** Texts after one another, each with the separator before it. */
  function Separated(separator: string, texts: seq<string>): string {
    if texts == [] then "" else separator + (texts[0] + Separated(separator, texts[1..]))
  }

  /** An array's text is the texts of its elements, in order, between brackets, with commas between them, and with
      blanks after these in Python's style only. */
  lemma ArrayText(style: Style, items: Items)
    requires items != NoItems
    ensures var texts := Texts(style, ToSeq(items));
      texts != [] && Encode(style, Arr(items))
      == "[" + (texts[0] + (Separated(if style.Compact? then "," else ", ", texts[1..]) + "]"))
  {
    MoreItemsText(style, items.tail);
    TextsCons(style, items.head, ToSeq(items.tail));
  }

  lemma {:induction false} MoreItemsText(style: Style, items: Items)
    ensures MoreItems(style, items)
         == Separated(if style.Compact? then "," else ", ", Texts(style, ToSeq(items))) + "]"
  {
    if items.Item? {
      MoreItemsText(style, items.tail);
      TextsCons(style, items.head, ToSeq(items.tail));
      var more := Separated(Comma(style), Texts(style, ToSeq(items.tail)));
      ConcatAssoc(Encode(style, items.head), more, "]");
      ConcatAssoc(Comma(style), Encode(style, items.head) + more, "]");
    }
  }

  predicate Bracketed(s: string) {
    s != "" && s[0] == '[' && s[|s| - 1] == ']'
  }

  /** What the line reader is given for a JSON string. */
  function ReaderInput(json: string, parse: Parser): Result<string, Error> {
    var trimmed := Trim(json);
    if !Bracketed(trimmed) then Ok(trimmed)
    else
      match parse(trimmed)
      case None => Err(ParseError)
      case Some(Arr(items)) => Ok(JoinLines(Texts(Compact, ToSeq(items))))
      case Some(_) => Ok(trimmed)
  }

  method JsonStrToReaderInput(json: string, parse: Parser) returns (r: Result<string, Error>)
    ensures r == ReaderInput(json, parse)
  {
    var trimmed := Trim(json);
    if Bracketed(trimmed) {
      var parsed := parse(trimmed);
      match parsed
      case None =>
        r := Err(ParseError);
      case Some(Arr(items)) =>
        var values := ToSeq(items);
        var lines: seq<string> := [];
        for i := 0 to |values|
          invariant lines == Texts(Compact, values[..i])
        {
          lines := lines + [Encode(Compact, values[i])];
        }
        assert values[..|values|] == values;
        r := Ok(JoinLines(lines));
      case Some(_) =>
        r := Ok(trimmed);
    } else {
      r := Ok(trimmed);
    }
  }

  /** The values on the lines of a text, if every line holds exactly one. */
  function ReadLines(lines: seq<string>): (r: Option<seq<Value>>)
    ensures r.Some? ==> |r.value| == |lines|
  {
    if lines == [] then Some([])
    else
      match (Read(lines[0]), ReadLines(lines[1..]))
      case (Some(v), Some(rest)) => Some([v] + rest)
      case _ => None
  }

  function Records(text: string): Option<seq<Value>> {
    ReadLines(SplitLines(text))
  }

  lemma {:induction false} ReadTexts(style: Style, values: seq<Value>)
    ensures ReadLines(Texts(style, values)) == Some(values)
  {
    if values != [] {
      var v, rest := values[0], values[1..];
      ReadEncode(style, v);
      ReadTexts(style, rest);
      TextsCons(style, v, rest);
      assert [v] + rest == values;
    }
  }

  lemma TextsCons(style: Style, v: Value, rest: seq<Value>)
    ensures Texts(style, [v] + rest) == [Encode(style, v)] + Texts(style, rest)
  {}

  /** Joined encodings split back into one line per value, each holding its value. */
  lemma LinesRoundTrip(style: Style, values: seq<Value>)
    requires values != []
    ensures SplitLines(JoinLines(Texts(style, values))) == Texts(style, values)
    ensures Records(JoinLines(Texts(style, values))) == Some(values)
  {
    forall i | 0 <= i < |values| ensures OneLine(Texts(style, values)[i]) {
      EncodeOneLine(style, values[i]);
    }
    SplitJoin(Texts(style, values));
    ReadTexts(style, values);
  }

  /** Whatever the parser, an array it finds reaches the reader as one element per line, in order; an empty one as an
      empty text. */
  lemma ArrayBecomesLines(json: string, parse: Parser, items: Items)
    requires Bracketed(Trim(json)) && parse(Trim(json)) == Some(Arr(items))
    ensures ReaderInput(json, parse).Ok?
    ensures items == NoItems ==> ReaderInput(json, parse).value == ""
    ensures items != NoItems ==> Records(ReaderInput(json, parse).value) == Some(ToSeq(items))
  {
    if items != NoItems {
      LinesRoundTrip(Compact, ToSeq(items));
    }
  }

  lemma NotWhite(c: char)
    requires EndChar(c)
    ensures !White(c)
  {}

  lemma {:induction false} ToSeqIsInjective(a: Items, b: Items)
    requires ToSeq(a) == ToSeq(b)
    ensures a == b
  {
    if a.Item? {
      assert ToSeq(a)[0] == a.head && ToSeq(a)[1..] == ToSeq(a.tail);
      assert ToSeq(b)[0] == b.head && ToSeq(b)[1..] == ToSeq(b.tail);
      ToSeqIsInjective(a.tail, b.tail);
    }
  }

  /** The whole way for an array of any values, in either encoding and with white space around it: an array nested too
      deep or with a number out of range is refused, and otherwise its elements reach the reader one to a line and in
      order, as the library stores them. */
  lemma JsonArrayOutcome(library: Library, style: Style, items: Items, before: string, after: string)
    requires AllWhite(before) && AllWhite(after)
    ensures var r := ReaderInput(before + (Encode(style, Arr(items)) + after), Parse(library));
      if !Readable(library, Arr(items)) then r == Err(ParseError)
      else
        && r.Ok?
        && (items == NoItems ==> r.value == "")
        && (items != NoItems ==> Records(r.value) == Some(ToSeq(StoredItems(library, items))))
  {
    var text := Encode(style, Arr(items));
    EncodeEnds(style, Arr(items));
    NotWhite(text[0]);
    NotWhite(text[|text| - 1]);
    TrimPadded(before, text, after);
    ParseEncode(library, style, Arr(items));
    if Readable(library, Arr(items)) {
      ArrayBecomesLines(before + (text + after), Parse(library), StoredItems(library, items));
    }
  }

  /** Each element is stored on its own and in its place. */
  lemma {:induction false} StoredInPlace(library: Library, items: Items, i: nat)
    requires i < |ToSeq(items)|
    ensures |ToSeq(StoredItems(library, items))| == |ToSeq(items)|
    ensures ToSeq(StoredItems(library, items))[i] == Stored(library, ToSeq(items)[i])
  {
    if |ToSeq(items)| > 1 {
      StoredInPlace(library, items.tail, if i == 0 then 0 else i - 1);
    } else {
      assert items.tail == NoItems;
    }
  }

  /** So the reader gets exactly the array's elements if and only if the array is not nested too deep, repeats no key
      in an object and has only numbers that the library keeps. */
  lemma JsonArrayRoundTripIff(library: Library, style: Style, items: Items, before: string, after: string)
    requires items != NoItems && AllWhite(before) && AllWhite(after)
    ensures var r := ReaderInput(before + (Encode(style, Arr(items)) + after), Parse(library));
      (r.Ok? && Records(r.value) == Some(ToSeq(items)))
      <==> Depth(Arr(items)) <= library.limit && KeptItems(library, items)
  {
    JsonArrayOutcome(library, style, items, before, after);
    ItemsIffKept(library, items);
    if KeptItems(library, items) {
      KeptItemsInRange(library, items);
    }
    if ToSeq(StoredItems(library, items)) == ToSeq(items) {
      ToSeqIsInjective(StoredItems(library, items), items);
    }
  }

  /** An encoded array is trimmed and bracketed already. */
  lemma EncodedArray(style: Style, items: Items)
    ensures var text := Encode(style, Arr(items)); Trim(text) == text && Bracketed(text)
  {
    EncodeEnds(style, Arr(items));
    TrimBare(Encode(style, Arr(items)));
  }

  lemma TrimBare(text: string)
    requires text != "" && EndChar(text[0]) && EndChar(text[|text| - 1])
    ensures Trim(text) == text
  {
    NotWhite(text[0]);
    NotWhite(text[|text| - 1]);
    TrimPadded("", text, "");
    assert "" + (text + "") == text;
  }

  lemma OneStored(text: string, parse: Parser, stored: Value)
    requires Trim(text) == text && Bracketed(text) && parse(text) == Some(Arr(Item(stored, NoItems)))
    ensures var r := ReaderInput(text, parse); r.Ok? && Records(r.value) == Some([stored])
  {
    var items := Item(stored, NoItems);
    ArrayBecomesLines(text, parse, items);
    assert ToSeq(items) == [stored] by {
      assert ToSeq(items) == [stored] + ToSeq(items.tail);
    }
  }

  lemma OneParsed(library: Library, style: Style, record: Value)
    ensures Parse(library)(Encode(style, Arr(Item(record, NoItems))))
         == if OneReadable(library, record) then Some(Arr(Item(Stored(library, record), NoItems))) else None
  {
    var items := Item(record, NoItems);
    ParseEncode(library, style, Arr(items));
    OneInArray(library, record);
    assert StoredItems(library, items) == Item(Stored(library, record), NoItems);
  }

  /** An array of one such record is accepted. */
  predicate OneReadable(library: Library, record: Value) {
    Depth(record) < library.limit && InRange(library, record)
  }

  lemma OneInArray(library: Library, record: Value)
    ensures Readable(library, Arr(Item(record, NoItems))) == OneReadable(library, record)
  {
    assert ItemsDepth(Item(record, NoItems)) == Max(Depth(record), ItemsDepth(NoItems));
    assert ItemsInRange(library, Item(record, NoItems)) == (InRange(library, record) && ItemsInRange(library, NoItems));
  }

  /** An array of one record. */
  lemma OneRecord(library: Library, style: Style, record: Value)
    ensures var r := ReaderInput(Encode(style, Arr(Item(record, NoItems))), Parse(library));
      if OneReadable(library, record) then r.Ok? && Records(r.value) == Some([Stored(library, record)])
      else r == Err(ParseError)
  {
    EncodedArray(style, Item(record, NoItems));
    OneParsed(library, style, record);
    OneOutcome(library, Encode(style, Arr(Item(record, NoItems))), record);
  }

  lemma OneOutcome(library: Library, text: string, record: Value)
    requires Trim(text) == text && Bracketed(text)
    requires Parse(library)(text)
          == if OneReadable(library, record) then Some(Arr(Item(Stored(library, record), NoItems))) else None
    ensures var r := ReaderInput(text, Parse(library));
      if OneReadable(library, record) then r.Ok? && Records(r.value) == Some([Stored(library, record)])
      else r == Err(ParseError)
  {
    if OneReadable(library, record) {
      OneStored(text, Parse(library), Stored(library, record));
    }
  }

  lemma RepeatedKeyStored(library: Library, key: string, a: Value, b: Value)
    ensures Stored(library, Obj(Member(key, a, Member(key, b, NoMembers))))
         == Obj(Member(key, Stored(library, b), NoMembers))
  {
    var second := Member(key, b, NoMembers);
    var first := Insert(NoMembers, key, Stored(library, a));
    assert first == Member(key, Stored(library, a), NoMembers);
    assert StoredMembers(library, first, second) == Insert(first, key, Stored(library, b)) by {
      assert StoredMembers(library, Insert(first, key, Stored(library, b)), NoMembers)
          == Insert(first, key, Stored(library, b));
    }
    assert StoredMembers(library, NoMembers, Member(key, a, second)) == StoredMembers(library, first, second);
  }

  lemma RepeatedKeyReadable(library: Library, key: string, a: Value, b: Value)
    ensures var record := Obj(Member(key, a, Member(key, b, NoMembers)));
      && Depth(record) == 1 + Max(Depth(a), Depth(b))
      && InRange(library, record) == (InRange(library, a) && InRange(library, b))
  {
    var second := Member(key, b, NoMembers);
    assert MembersDepth(second) == Max(Depth(b), MembersDepth(NoMembers));
    assert MembersInRange(library, second) == (InRange(library, b) && MembersInRange(library, NoMembers));
  }

  /** A repeated key loses a member: of `[{"k":a,"k":b}]`, unless it is refused, the reader gets `{"k":b}`. */
  lemma RepeatedKeyIsLost(library: Library, style: Style, key: string, a: Value, b: Value)
    ensures var record := Obj(Member(key, a, Member(key, b, NoMembers)));
      var r := ReaderInput(Encode(style, Arr(Item(record, NoItems))), Parse(library));
      if Depth(a) + 1 < library.limit && Depth(b) + 1 < library.limit && InRange(library, a) && InRange(library, b) then
        r.Ok? && Records(r.value) == Some([Obj(Member(key, Stored(library, b), NoMembers))])
      else
        r == Err(ParseError)
  {
    RepeatedKeyStored(library, key, a, b);
    RepeatedKeyReadable(library, key, a, b);
    OneRecord(library, style, Obj(Member(key, a, Member(key, b, NoMembers))));
  }

  /** A number out of the library's range, anywhere in a record, fails the whole array. */
  lemma OutOfRangeIsRefused(library: Library, style: Style, items: Items)
    requires !ItemsInRange(library, items)
    ensures ReaderInput(Encode(style, Arr(items)), Parse(library)) == Err(ParseError)
  {
    EncodedArray(style, items);
    ParseEncode(library, style, Arr(items));
  }

  /** A failing input: one integer of more than 309 digits. */
  lemma HugeIntegerIsRefusedOnTheWay(library: Library, style: Style, key: string, t: NumberText)
    requires RefusesHuge(library) && IsInteger(t) && t[0] != '-' && t[0] != '0' && |t| > 309
    ensures var record := Obj(Member(key, Number(t), NoMembers));
      ReaderInput(Encode(style, Arr(Item(record, NoItems))), Parse(library)) == Err(ParseError)
  {
    HugeIntegerIsRefused(library, t);
    var members := Member(key, Number(t), NoMembers);
    assert !MembersInRange(library, members);
    assert !ItemsInRange(library, Item(Obj(members), NoItems));
    OutOfRangeIsRefused(library, style, Item(Obj(members), NoItems));
  }

  lemma LongIntegerStored(library: Library, key: string, t: NumberText)
    requires KeepsWords(library) && IsInteger(t) && t[0] != '-' && t[0] != '0' && |t| > 20
    ensures var record := Obj(Member(key, Number(t), NoMembers)); Stored(library, record) != record
  {
    LongIntegerIsLost(library, t);
    var record := Obj(Member(key, Number(t), NoMembers));
    assert !KeptMembers(library, record.members);
    StoredIffKept(library, record);
  }

  /** An integer of more than twenty digits does not reach the reader. */
  lemma LongIntegerIsLostOnTheWay(library: Library, style: Style, key: string, t: NumberText)
    requires KeepsWords(library) && IsInteger(t) && t[0] != '-' && t[0] != '0' && |t| > 20
    ensures var record := Obj(Member(key, Number(t), NoMembers));
      var r := ReaderInput(Encode(style, Arr(Item(record, NoItems))), Parse(library));
      r.Ok? ==> Records(r.value) != Some([record])
  {
    LongIntegerStored(library, key, t);
    OneRecord(library, style, Obj(Member(key, Number(t), NoMembers)));
  }

  lemma LongIntegerExample()
    ensures var digits := "123456789012345678901";
      && NumberRun(digits) == |digits| && IsNumber(digits) && IsInteger(digits) && |digits| > 20
  {
    DigitsAreInteger("123456789012345678901");
  }

  /** `n` arrays in one another. */
  function Nest(n: nat): Items {
    if n == 0 then NoItems else Item(Arr(Nest(n - 1)), NoItems)
  }

  lemma {:induction false} NestDepth(n: nat)
    ensures Depth(Arr(Nest(n))) == n + 1
  {
    if n > 0 {
      NestDepth(n - 1);
    }
  }

  /** Whatever the library's limit, one more level is refused. */
  lemma DeepNestingIsRefused(library: Library, style: Style)
    ensures ReaderInput(Encode(style, Arr(Nest(library.limit))), Parse(library)) == Err(ParseError)
  {
    var items := Nest(library.limit);
    NestDepth(library.limit);
    EncodedArray(style, items);
    ParseEncode(library, style, Arr(items));
  }

  // ----- the fallback for Python objects -------------------------------------------------------

  /** One encoded object and a line break for each. */
  function Pushed(values: seq<Value>): string {
    if values == [] then ""
    else Pushed(values[..|values| - 1]) + (Encode(Python, values[|values| - 1]) + "\n")
  }

  method ListToReaderInput(values: seq<Value>, parse: Parser) returns (r: Result<string, Error>)
    ensures r == ReaderInput(Pushed(values), parse)
  {
    var ndjson := "";
    for i := 0 to |values|
      invariant ndjson == Pushed(values[..i])
    {
      var line := Encode(Python, values[i]);
      assert values[..i + 1][..i] == values[..i];
      ConcatAssoc(ndjson, line, "\n");
      ndjson := ndjson + line;
      ndjson := ndjson + "\n";
    }
    assert values[..|values|] == values;
    r := JsonStrToReaderInput(ndjson, parse);
  }

  lemma {:induction false} JoinSnoc(lines: seq<string>, last: string)
    requires lines != []
    ensures JoinLines(lines + [last]) == JoinLines(lines) + ("\n" + last)
  {
    assert (lines + [last])[1..] == lines[1..] + [last];
    if |lines| > 1 {
      JoinSnoc(lines[1..], last);
      JoinGrows(lines[0], JoinLines(lines[1..]), "\n" + last);
    }
  }

  lemma JoinGrows(first: string, middle: string, last: string)
    ensures first + ("\n" + (middle + last)) == (first + ("\n" + middle)) + last
  {}

  lemma TextsSnoc(style: Style, values: seq<Value>, last: Value)
    ensures Texts(style, values + [last]) == Texts(style, values) + [Encode(style, last)]
  {}

  lemma {:induction false} PushedIsJoined(values: seq<Value>)
    requires values != []
    ensures Pushed(values) == JoinLines(Texts(Python, values)) + "\n"
  {
    var init, last := values[..|values| - 1], values[|values| - 1];
    var line := Encode(Python, last);
    assert values == init + [last];
    TextsSnoc(Python, init, last);
    if init == [] {
      assert "" + (line + "\n") == line + "\n";
    } else {
      PushedIsJoined(init);
      JoinSnoc(Texts(Python, init), line);
      PushGrows(JoinLines(Texts(Python, init)), line);
    }
  }

  lemma PushGrows(text: string, line: string)
    ensures (text + "\n") + (line + "\n") == (text + ("\n" + line)) + "\n"
  {}

  /** Joined lines begin as the first and end as the last. */
  lemma {:induction false} JoinEnds(lines: seq<string>)
    requires lines != [] && forall i :: 0 <= i < |lines| ==> lines[i] != ""
    ensures var s := JoinLines(lines);
      var last := lines[|lines| - 1];
      s != "" && s[0] == lines[0][0] && s[|s| - 1] == last[|last| - 1]
  {
    if |lines| > 1 {
      JoinEnds(lines[1..]);
      var more := JoinLines(lines[1..]);
      EndsWith(lines[0], "\n", more);
    }
  }

  ghost predicate ListsAtBothEnds(values: seq<Value>) {
    values != [] && values[0].Arr? && values[|values| - 1].Arr?
  }

  lemma JoinedEnds(lines: seq<string>, opens: bool, closes: bool)
    requires lines != [] && forall i :: 0 <= i < |lines| ==> lines[i] != ""
    requires Ends(lines[0], opens) && Ends(lines[|lines| - 1], closes)
    ensures var s := JoinLines(lines);
      && s != "" && EndChar(s[0]) && EndChar(s[|s| - 1])
      && (s[0] == '[' <==> opens) && (s[|s| - 1] == ']' <==> closes)
  {
    JoinEnds(lines);
  }

  lemma TextEnds(style: Style, values: seq<Value>, i: nat)
    requires i < |values|
    ensures Ends(Texts(style, values)[i], values[i].Arr?)
  {
    EncodeEnds(style, values[i]);
  }

  /** Joined encodings begin as the first value's and end as the last one's. */
  lemma TextsEnds(style: Style, values: seq<Value>)
    requires values != []
    ensures var s := JoinLines(Texts(style, values));
      && s != "" && EndChar(s[0]) && EndChar(s[|s| - 1])
      && (s[0] == '[' <==> values[0].Arr?) && (s[|s| - 1] == ']' <==> values[|values| - 1].Arr?)
  {
    var texts := Texts(style, values);
    forall i | 0 <= i < |texts| ensures Ends(texts[i], values[i].Arr?) {
      TextEnds(style, values, i);
    }
    JoinedEnds(texts, values[0].Arr?, values[|values| - 1].Arr?);
  }

  lemma TrimLine(text: string)
    requires text != "" && EndChar(text[0]) && EndChar(text[|text| - 1])
    ensures Trim(text + "\n") == text
  {
    NotWhite(text[0]);
    NotWhite(text[|text| - 1]);
    TrimPadded("", text, "\n");
    assert "" + (text + "\n") == text + "\n";
  }

  /** Trimming the pushed lines leaves the joined lines, which look like an array exactly if lists are at both ends. */
  lemma PushedTrims(values: seq<Value>)
    requires values != []
    ensures Trim(Pushed(values)) == JoinLines(Texts(Python, values))
    ensures Bracketed(Trim(Pushed(values))) <==> ListsAtBothEnds(values)
  {
    TextsEnds(Python, values);
    PushedIsJoined(values);
    TrimLine(JoinLines(Texts(Python, values)));
  }

  /** A single list is refused or taken apart: what reaches the reader is not the list. */
  lemma SingleListIsTakenApart(library: Library, items: Items)
    ensures var r := ReaderInput(Pushed([Arr(items)]), Parse(library));
      r.Ok? ==> Records(r.value) != Some([Arr(items)])
  {
    var values := [Arr(items)];
    PushedTrims(values);
    ParseEncode(library, Python, Arr(items));
    assert JoinLines(Texts(Python, values)) == Encode(Python, Arr(items));
    if Readable(library, Arr(items)) {
      var stored := StoredItems(library, items);
      ArrayBecomesLines(Pushed(values), Parse(library), stored);
      if items == NoItems {
        assert SplitLines("")[0] == "";
      } else {
        assert ToSeq(stored)[0] == Stored(library, items.head);
        StoredDepth(library, items.head);
      }
    }
  }

  lemma FirstThenMore(style: Style, values: seq<Value>)
    requires |values| > 1
    ensures JoinLines(Texts(style, values))
         == Encode(style, values[0]) + ("\n" + JoinLines(Texts(style, values[1..])))
  {
    assert Texts(style, values)[1..] == Texts(style, values[1..]);
  }

  /** A text with more than one value on it is not one value. */
  lemma MoreIsNotOneValue(style: Style, v: Value, later: string)
    requires later != "" && EndChar(later[0])
    ensures Read(Encode(style, v) + ("\n" + later)) == None
  {
    EncodeEnds(style, v);
    RoundTrip(style, v, "\n" + later);
    MoreIsNotBlank(later);
  }

  /** Several values with lists at both ends are read as one array followed by more text, which is an error. */
  lemma ListsAtBothEndsFail(library: Library, values: seq<Value>)
    requires |values| > 1 && ListsAtBothEnds(values)
    ensures ReaderInput(Pushed(values), Parse(library)) == Err(ParseError)
  {
    PushedTrims(values);
    FirstThenMore(Python, values);
    TextsEnds(Python, values[1..]);
    MoreIsNotOneValue(Python, values[0], JoinLines(Texts(Python, values[1..])));
  }

  lemma MoreIsNotBlank(later: string)
    requires later != "" && EndChar(later[0])
    ensures SkipSpaces("\n" + later) == later
  {
    assert ("\n" + later)[1..] == later;
  }

  /** The fallback puts one record per line exactly if the list does not have lists at both ends; in particular for
      every list of dictionaries. */
  lemma FallbackKeepsRecordsIff(library: Library, values: seq<Value>)
    requires values != []
    ensures var r := ReaderInput(Pushed(values), Parse(library));
      (r.Ok? && Records(r.value) == Some(values)) <==> !ListsAtBothEnds(values)
  {
    PushedTrims(values);
    if !ListsAtBothEnds(values) {
      LinesRoundTrip(Python, values);
    } else if |values| > 1 {
      ListsAtBothEndsFail(library, values);
    } else {
      SingleListIsTakenApart(library, values[0].items);
      assert values == [Arr(values[0].items)];
    }
  }
}
