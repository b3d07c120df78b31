/** JSON values, the two encoders the bindings use (compact `serde_json` text and Python's `json.dumps`) and a reader
    that takes both back (RFC 8259). */
module Json {
  import opened Common

  predicate NumberChar(c: char) {
    '0' <= c <= '9' || c == '+' || c == '-' || c == '.' || c == 'e' || c == 'E'
  }

  function NumberRun(s: string): (n: nat)
    ensures n <= |s|
    ensures forall i :: 0 <= i < n ==> NumberChar(s[i])
    ensures n < |s| ==> !NumberChar(s[n])
  {
    if s == "" || !NumberChar(s[0]) then 0 else 1 + NumberRun(s[1..])
  }

  function DigitRun(s: string): (n: nat)
    ensures n <= |s|
  {
    if s == "" || !('0' <= s[0] <= '9') then 0 else 1 + DigitRun(s[1..])
  }

  predicate IsExponent(s: string) {
    s == "" ||
    ((s[0] == 'e' || s[0] == 'E') &&
     var digits := if |s| > 1 && (s[1] == '+' || s[1] == '-') then s[2..] else s[1..];
     digits != "" && DigitRun(digits) == |digits|)
  }

  predicate IsFraction(s: string) {
    if s != "" && s[0] == '.' then DigitRun(s[1..]) > 0 && IsExponent(s[1 + DigitRun(s[1..])..]) else IsExponent(s)
  }

  /** The grammar of numbers (section 6 of RFC 8259). */
  predicate IsNumber(s: string) {
    var digits := if s != "" && s[0] == '-' then s[1..] else s;
    var n := DigitRun(digits);
    n > 0 && (digits[0] == '0' ==> n == 1) && IsFraction(digits[n..])
  }

  type NumberText = t: string | NumberRun(t) == |t| && IsNumber(t) witness "0"

  datatype Value =
    | Null
    | Bool(flag: bool)
    | Number(text: NumberText)
    | Str(content: string)
    | Arr(items: Items)
    | Obj(members: Members)

  datatype Items = NoItems | Item(head: Value, tail: Items)

  datatype Members = NoMembers | Member(key: string, value: Value, tail: Members)

  datatype Style = Compact | Python

  // ----- strings -------------------------------------------------------------------------------

  function Hex(n: nat): char
    requires n < 16
  {
    if n < 10 then ('0' as int + n) as char else ('a' as int + n - 10) as char
  }

  function HexValue(c: char): (r: Option<nat>)
    ensures r.Some? ==> r.value < 16
  {
    if '0' <= c <= '9' then Some(c as int - '0' as int)
    else if 'a' <= c <= 'f' then Some(c as int - 'a' as int + 10)
    else if 'A' <= c <= 'F' then Some(c as int - 'A' as int + 10)
    else None
  }

  /** The escape of one UTF-16 code unit. */
  function UnitEscape(n: nat): string
    requires n < 0x10000
  {
    ['\\', 'u', Hex(n / 4096), Hex(n / 256 % 16), Hex(n / 16 % 16), Hex(n % 16)]
  }

  /** Both encoders escape quotes, backslashes and control characters; Python's also escapes all that is not printable
      ASCII, the characters beyond the basic plane as a surrogate pair. */
  function Escape(style: Style, c: char): string {
    if c == '\"' then ['\\', '\"']
    else if c == '\\' then ['\\', '\\']
    else if c as int == 8 then ['\\', 'b']
    else if c as int == 12 then ['\\', 'f']
    else if c == '\n' then ['\\', 'n']
    else if c == '\r' then ['\\', 'r']
    else if c == '\t' then ['\\', 't']
    else if c < ' ' then UnitEscape(c as int)
    else if style.Compact? || c <= '~' then [c]
    else if c as int < 0x10000 then UnitEscape(c as int)
    else
      var x := c as int - 0x10000;
      UnitEscape(0xD800 + x / 0x400) + UnitEscape(0xDC00 + x % 0x400)
  }

  function EscapeAll(style: Style, s: string): string {
    if s == "" then "" else Escape(style, s[0]) + EscapeAll(style, s[1..])
  }

  function ReadUnit(s: string): (r: Option<nat>)
    ensures r.Some? ==> |s| >= 6 && r.value < 0x10000
  {
    if |s| < 6 || s[0] != '\\' || s[1] != 'u' then None
    else
      match (HexValue(s[2]), HexValue(s[3]), HexValue(s[4]), HexValue(s[5]))
      case (Some(a), Some(b), Some(c), Some(d)) => Some(a * 4096 + b * 256 + c * 16 + d)
      case _ => None
  }

  function ReadUnicode(s: string): (r: Option<(char, string)>)
    ensures r.Some? ==> |r.value.1| < |s|
  {
    match ReadUnit(s)
    case None => None
    case Some(n) =>
      if n < 0xD800 || n >= 0xE000 then Some((n as char, s[6..]))
      else if n >= 0xDC00 then None
      else
        match ReadUnit(s[6..])
        case None => None
        case Some(m) =>
          if m < 0xDC00 || m >= 0xE000 then None
          else Some(((0x10000 + (n - 0xD800) * 0x400 + (m - 0xDC00)) as char, s[12..]))
  }

  function ReadChar(s: string): (r: Option<(char, string)>)
    ensures r.Some? ==> |r.value.1| < |s|
  {
    if s == "" then None
    else if s[0] != '\\' then (if s[0] < ' ' then None else Some((s[0], s[1..])))
    else if |s| < 2 then None
    else
      match s[1]
      case '\"' => Some(('\"', s[2..]))
      case '\\' => Some(('\\', s[2..]))
      case '/' => Some(('/', s[2..]))
      case 'b' => Some((8 as char, s[2..]))
      case 'f' => Some((12 as char, s[2..]))
      case 'n' => Some(('\n', s[2..]))
      case 'r' => Some(('\r', s[2..]))
      case 't' => Some(('\t', s[2..]))
      case 'u' => ReadUnicode(s)
      case _ => None
  }

  /** Reads up to the closing quote. */
  function ReadString(s: string): (r: Option<(string, string)>)
    ensures r.Some? ==> |r.value.1| < |s|
    decreases |s|
  {
    if s == "" then None
    else if s[0] == '\"' then Some(("", s[1..]))
    else
      match ReadChar(s)
      case None => None
      case Some((c, rest)) =>
        match ReadString(rest)
        case None => None
        case Some((text, rest')) => Some(([c] + text, rest'))
  }

  lemma HexRoundTrip(n: nat)
    requires n < 16
    ensures HexValue(Hex(n)) == Some(n)
  {}

  lemma Digits(n: nat)
    requires n < 0x10000
    ensures n / 4096 < 16 && n == n / 4096 * 4096 + n / 256 % 16 * 256 + n / 16 % 16 * 16 + n % 16
  {
    var a, b := n / 16, n / 256;
    assert a / 16 == b && b / 16 == n / 4096;
    assert n == a * 16 + n % 16 && a == b * 16 + a % 16 && b == n / 4096 * 16 + b % 16;
  }

  lemma UnitRoundTrip(n: nat, rest: string)
    requires n < 0x10000
    ensures ReadUnit(UnitEscape(n) + rest) == Some(n) && (UnitEscape(n) + rest)[6..] == rest
  {
    Digits(n);
    var a, b, c, d := n / 4096, n / 256 % 16, n / 16 % 16, n % 16;
    HexRoundTrip(a);
    HexRoundTrip(b);
    HexRoundTrip(c);
    HexRoundTrip(d);
    var s := ['\\', 'u', Hex(a), Hex(b), Hex(c), Hex(d)] + rest;
    assert s[2] == Hex(a) && s[3] == Hex(b) && s[4] == Hex(c) && s[5] == Hex(d);
  }

  lemma UnicodeRoundTrip(n: nat, rest: string)
    requires n < 0xD800 || 0xE000 <= n < 0x10000
    ensures ReadUnicode(UnitEscape(n) + rest) == Some((n as char, rest))
  {
    UnitRoundTrip(n, rest);
  }

  lemma PairRoundTrip(hi: nat, lo: nat, rest: string)
    requires 0xD800 <= hi < 0xDC00 <= lo < 0xE000
    ensures ReadUnicode(UnitEscape(hi) + (UnitEscape(lo) + rest))
         == Some(((0x10000 + (hi - 0xD800) * 0x400 + (lo - 0xDC00)) as char, rest))
  {
    var s := UnitEscape(hi) + (UnitEscape(lo) + rest);
    UnitRoundTrip(hi, UnitEscape(lo) + rest);
    UnitRoundTrip(lo, rest);
    assert s[12..] == s[6..][6..];
  }

  /** Characters beyond the basic plane. */
  lemma AstralRoundTrip(c: char, rest: string)
    requires c as int >= 0x10000
    ensures ReadChar(Escape(Python, c) + rest) == Some((c, rest))
  {
    var x := c as int - 0x10000;
    var hi, lo := 0xD800 + x / 0x400, 0xDC00 + x % 0x400;
    var s := UnitEscape(hi) + (UnitEscape(lo) + rest);
    assert Escape(Python, c) + rest == s by {
      ConcatAssoc(UnitEscape(hi), UnitEscape(lo), rest);
    }
    PairRoundTrip(hi, lo, rest);
    EscapeIsUnicode(hi, UnitEscape(lo) + rest);
  }

  lemma EscapeIsUnicode(n: nat, rest: string)
    requires n < 0x10000
    ensures ReadChar(UnitEscape(n) + rest) == ReadUnicode(UnitEscape(n) + rest)
  {}

  lemma CharRoundTrip(style: Style, c: char, rest: string)
    ensures ReadChar(Escape(style, c) + rest) == Some((c, rest))
  {
    if |Escape(style, c)| == 12 {
      AstralRoundTrip(c, rest);
    } else if |Escape(style, c)| == 6 {
      UnicodeRoundTrip(c as int, rest);
      EscapeIsUnicode(c as int, rest);
    }
  }

  lemma {:induction false} StringRoundTrip(style: Style, text: string, rest: string)
    ensures ReadString(EscapeAll(style, text) + (['\"'] + rest)) == Some((text, rest))
  {
    if text == "" {
      assert EscapeAll(style, text) + (['\"'] + rest) == ['\"'] + rest;
    } else {
      var more := EscapeAll(style, text[1..]) + (['\"'] + rest);
      ConcatAssoc(Escape(style, text[0]), EscapeAll(style, text[1..]), ['\"'] + rest);
      CharRoundTrip(style, text[0], more);
      StringRoundTrip(style, text[1..], rest);
      assert (Escape(style, text[0]) + more)[0] != '\"';
      assert [text[0]] + text[1..] == text;
    }
  }

  // ----- values --------------------------------------------------------------------------------

  function Comma(style: Style): string {
    if style.Compact? then "," else ", "
  }

  function Colon(style: Style): string {
    if style.Compact? then ":" else ": "
  }

  function Quote(style: Style, s: string): string {
    ['\"'] + (EscapeAll(style, s) + ['\"'])
  }

  function Encode(style: Style, v: Value): string {
    match v
    case Null => "null"
    case Bool(flag) => if flag then "true" else "false"
    case Number(text) => text
    case Str(text) => Quote(style, text)
    case Arr(NoItems) => "[]"
    case Arr(Item(head, tail)) => "[" + (Encode(style, head) + MoreItems(style, tail))
    case Obj(NoMembers) => "{}"
    case Obj(Member(key, value, tail)) =>
      "{" + (Quote(style, key) + (Colon(style) + (Encode(style, value) + MoreMembers(style, tail))))
  }

  /** The rest of an array after a first element, with the closing bracket. */
  function MoreItems(style: Style, items: Items): string {
    match items
    case NoItems => "]"
    case Item(head, tail) => Comma(style) + (Encode(style, head) + MoreItems(style, tail))
  }

  function MoreMembers(style: Style, members: Members): string {
    match members
    case NoMembers => "}"
    case Member(key, value, tail) =>
      Comma(style) + (Quote(style, key) + (Colon(style) + (Encode(style, value) + MoreMembers(style, tail))))
  }

  predicate Space(c: char) {
    c == ' ' || c == '\t' || c == '\n' || c == '\r'
  }

  function SkipSpaces(s: string): (r: string)
    ensures |r| <= |s|
  {
    if s != "" && Space(s[0]) then SkipSpaces(s[1..]) else s
  }

  /** Reads the value that a text begins with, and says what follows it. */
  function ReadValue(s: string): (r: Option<(Value, string)>)
    ensures r.Some? ==> |r.value.1| < |s|
    decreases |s|, 0
  {
    if s == "" then None
    else if s[0] == '\"' then
      match ReadString(s[1..])
      case None => None
      case Some((text, rest)) => Some((Str(text), rest))
    else if s[0] == '[' then
      var body := SkipSpaces(s[1..]);
      if body != "" && body[0] == ']' then Some((Arr(NoItems), body[1..]))
      else
        match ReadItems(body)
        case None => None
        case Some((items, rest)) => Some((Arr(items), rest))
    else if s[0] == '{' then
      var body := SkipSpaces(s[1..]);
      if body != "" && body[0] == '}' then Some((Obj(NoMembers), body[1..]))
      else
        match ReadMembers(body)
        case None => None
        case Some((members, rest)) => Some((Obj(members), rest))
    else if NumberChar(s[0]) then
      var n := NumberRun(s);
      RunIs(s[..n], n);
      if IsNumber(s[..n]) then Some((Number(s[..n]), s[n..])) else None
    else if "null" <= s then Some((Null, s[4..]))
    else if "true" <= s then Some((Bool(true), s[4..]))
    else if "false" <= s then Some((Bool(false), s[5..]))
    else None
  }

  function ReadItems(s: string): (r: Option<(Items, string)>)
    ensures r.Some? ==> |r.value.1| < |s|
    decreases |s|, 1
  {
    match ReadValue(s)
    case None => None
    case Some((v, rest)) =>
      match ReadMoreItems(rest)
      case None => None
      case Some((items, rest')) => Some((Item(v, items), rest'))
  }

  function ReadMoreItems(s: string): (r: Option<(Items, string)>)
    ensures r.Some? ==> |r.value.1| < |s|
    decreases |s|, 2
  {
    var more := SkipSpaces(s);
    if more != "" && more[0] == ']' then Some((NoItems, more[1..]))
    else if more != "" && more[0] == ',' then ReadItems(SkipSpaces(more[1..]))
    else None
  }

  function ReadMembers(s: string): (r: Option<(Members, string)>)
    ensures r.Some? ==> |r.value.1| < |s|
    decreases |s|, 3
  {
    if s == "" || s[0] != '\"' then None
    else
      match ReadString(s[1..])
      case None => None
      case Some((key, rest)) => ReadColon(key, rest)
  }

  function ReadColon(key: string, s: string): (r: Option<(Members, string)>)
    ensures r.Some? ==> |r.value.1| < |s|
    decreases |s|, 2
  {
    var colon := SkipSpaces(s);
    if colon == "" || colon[0] != ':' then None else ReadMember(key, SkipSpaces(colon[1..]))
  }

  /** The value of a key, and the members after it. */
  function ReadMember(key: string, s: string): (r: Option<(Members, string)>)
    ensures r.Some? ==> |r.value.1| < |s|
    decreases |s|, 1
  {
    match ReadValue(s)
    case None => None
    case Some((v, rest)) =>
      match ReadMoreMembers(rest)
      case None => None
      case Some((members, rest')) => Some((Member(key, v, members), rest'))
  }

  function ReadMoreMembers(s: string): (r: Option<(Members, string)>)
    ensures r.Some? ==> |r.value.1| < |s|
    decreases |s|, 2
  {
    var more := SkipSpaces(s);
    if more != "" && more[0] == '}' then Some((NoMembers, more[1..]))
    else if more != "" && more[0] == ',' then ReadMembers(SkipSpaces(more[1..]))
    else None
  }

  /** Reads a whole text as one value. */
  function Read(s: string): Option<Value> {
    match ReadValue(SkipSpaces(s))
    case None => None
    case Some((v, rest)) => if SkipSpaces(rest) == "" then Some(v) else None
  }

  // ----- what is read is what was written ------------------------------------------------------

  /** A number before `rest` ends where `rest` begins. */
  predicate Stops(rest: string) {
    rest == "" || !NumberChar(rest[0])
  }

  /** Characters that a value can begin and end with. */
  predicate EndChar(c: char) {
    NumberChar(c) || 'a' <= c <= 'z' || c == '\"' || c == '[' || c == ']' || c == '{' || c == '}'
  }

  ghost predicate Ends(s: string, bracketed: bool) {
    && s != "" && EndChar(s[0]) && EndChar(s[|s| - 1])
    && (s[0] == '[' <==> bracketed) && (s[|s| - 1] == ']' <==> bracketed) && s[0] != ']'
  }

  /** An encoded value has such characters at its ends, and brackets there exactly if it is an array. */
  lemma EncodeEnds(style: Style, v: Value)
    ensures Ends(Encode(style, v), v.Arr?)
  {
    match v
    case Arr(Item(head, tail)) => ArrayEnds(style, head, tail);
    case Obj(Member(key, value, tail)) => ObjectEnds(style, key, value, tail);
    case _ =>
  }

  lemma ArrayEnds(style: Style, head: Value, tail: Items)
    ensures Ends(Encode(style, Arr(Item(head, tail))), true)
  {
    MoreItemsEnds(style, tail);
    EndsWith("[", Encode(style, head), MoreItems(style, tail));
  }

  lemma ObjectEnds(style: Style, key: string, value: Value, tail: Members)
    ensures Ends(Encode(style, Obj(Member(key, value, tail))), false)
  {
    MoreMembersEnds(style, tail);
    EndsWith(Colon(style), Encode(style, value), MoreMembers(style, tail));
    EndsWith("{", Quote(style, key), Colon(style) + (Encode(style, value) + MoreMembers(style, tail)));
  }

  lemma EndsWith(a: string, b: string, c: string)
    requires a != "" && c != ""
    ensures var s := a + (b + c); s[0] == a[0] && s[|s| - 1] == c[|c| - 1]
  {}

  lemma {:induction false} MoreItemsEnds(style: Style, items: Items)
    ensures var s := MoreItems(style, items); s != "" && s[|s| - 1] == ']' && !NumberChar(s[0])
  {
    if items.Item? {
      MoreItemsEnds(style, items.tail);
    }
  }

  lemma {:induction false} MoreMembersEnds(style: Style, members: Members)
    ensures var s := MoreMembers(style, members); s != "" && s[|s| - 1] == '}' && !NumberChar(s[0])
  {
    if members.Member? {
      MoreMembersEnds(style, members.tail);
      var value := Encode(style, members.value) + MoreMembers(style, members.tail);
      EndsWith(Comma(style), Quote(style, members.key), Colon(style) + value);
    }
  }

  lemma NumberRoundTrip(text: NumberText, rest: string)
    requires Stops(rest)
    ensures ReadValue(text + rest) == Some((Number(text), rest))
  {
    var s := text + rest;
    RunIs(s, |text|);
    assert s[..|text|] == text && s[|text|..] == rest;
    assert s[0] == text[0];
  }

  lemma {:induction false} RunIs(s: string, n: nat)
    requires n <= |s| && (forall i :: 0 <= i < n ==> NumberChar(s[i])) && (n < |s| ==> !NumberChar(s[n]))
    ensures NumberRun(s) == n
  {
    if n > 0 {
      RunIs(s[1..], n - 1);
    }
  }

  /** A separator's space is skipped. */
  lemma SkipAfter(space: string, s: string)
    requires space == "" || space == " "
    requires s != "" && !Space(s[0])
    ensures SkipSpaces(space + s) == s
  {
    assert space == "" ==> space + s == s;
    assert space == " " ==> (space + s)[1..] == s;
  }

  /** Both styles are read back exactly, from any position in a text. */
  lemma {:induction false} RoundTrip(style: Style, v: Value, rest: string)
    requires Stops(rest)
    ensures ReadValue(Encode(style, v) + rest) == Some((v, rest))
    decreases v
  {
    match v
    case Number(text) => NumberRoundTrip(text, rest);
    case Str(text) => StrRoundTrip(style, text, rest);
    case Arr(Item(head, tail)) =>
      ItemsRoundTrip(style, head, tail, rest);
      Bracketed(style, head, tail, rest);
    case Obj(Member(key, value, tail)) =>
      MembersRoundTrip(style, key, value, tail, rest);
      Braced(style, key, value, tail, rest);
    case _ => PlainRoundTrip(style, v, rest);
  }

  /** Values of one fixed text. */
  lemma PlainRoundTrip(style: Style, v: Value, rest: string)
    requires v.Null? || v.Bool? || v == Arr(NoItems) || v == Obj(NoMembers)
    ensures ReadValue(Encode(style, v) + rest) == Some((v, rest))
  {
    var text := Encode(style, v);
    assert (text + rest)[|text|..] == rest;
    match v
    case Bool(flag) => LiteralRoundTrip(flag, rest);
    case Null => assert "null" <= text + rest;
    case Arr(_) => assert (text + rest)[1..][1..] == rest;
    case Obj(_) => assert (text + rest)[1..][1..] == rest;
  }

  lemma StrRoundTrip(style: Style, text: string, rest: string)
    ensures ReadValue(Quote(style, text) + rest) == Some((Str(text), rest))
  {
    QuoteRoundTrip(style, text, rest);
  }

  lemma LiteralRoundTrip(flag: bool, rest: string)
    ensures ReadValue((if flag then "true" else "false") + rest) == Some((Bool(flag), rest))
  {
    assert flag ==> ("true" + rest)[4..] == rest;
    assert !flag ==> ("false" + rest)[5..] == rest;
  }

  lemma OpenedArray(body: string)
    requires body != "" && !Space(body[0]) && body[0] != ']'
    ensures ReadValue("[" + body)
         == match ReadItems(body) case None => None case Some((items, after)) => Some((Arr(items), after))
  {
    var s := "[" + body;
    assert s[1..] == body;
    assert SkipSpaces(s[1..]) == body;
  }

  lemma OpenedObject(body: string)
    requires body != "" && !Space(body[0]) && body[0] != '}'
    ensures ReadValue("{" + body)
         == match ReadMembers(body) case None => None case Some((members, after)) => Some((Obj(members), after))
  {
    var s := "{" + body;
    assert s[1..] == body;
    assert SkipSpaces(s[1..]) == body;
  }

  lemma Bracketed(style: Style, head: Value, tail: Items, rest: string)
    requires ReadItems(Encode(style, head) + MoreItems(style, tail) + rest) == Some((Item(head, tail), rest))
    ensures ReadValue(Encode(style, Arr(Item(head, tail))) + rest) == Some((Arr(Item(head, tail)), rest))
  {
    EncodeEnds(style, head);
    var first := Encode(style, head);
    var body := first + MoreItems(style, tail);
    ConcatAssoc("[", body, rest);
    assert (body + rest)[0] == first[0];
    OpenedArray(body + rest);
  }

  lemma Braced(style: Style, key: string, value: Value, tail: Members, rest: string)
    requires ReadMembers(OneMore(style, key, value, tail) + rest) == Some((Member(key, value, tail), rest))
    ensures ReadValue(Encode(style, Obj(Member(key, value, tail))) + rest)
         == Some((Obj(Member(key, value, tail)), rest))
  {
    var body := OneMore(style, key, value, tail);
    ConcatAssoc("{", body, rest);
    assert (body + rest)[0] == '\"';
    OpenedObject(body + rest);
  }

  lemma Quoted(escaped: string, rest: string)
    ensures var s := (['\"'] + (escaped + ['\"'])) + rest; s[0] == '\"' && s[1..] == escaped + (['\"'] + rest)
  {}

  lemma QuoteRoundTrip(style: Style, text: string, rest: string)
    ensures var s := Quote(style, text) + rest;
      s[0] == '\"' && ReadString(s[1..]) == Some((text, rest))
  {
    StringRoundTrip(style, text, rest);
    Quoted(EscapeAll(style, text), rest);
  }

  /** A first element and what follows it. */
  lemma {:induction false} ItemsRoundTrip(style: Style, head: Value, tail: Items, rest: string)
    ensures ReadItems(Encode(style, head) + MoreItems(style, tail) + rest) == Some((Item(head, tail), rest))
    decreases Item(head, tail), 0
  {
    var more := MoreItems(style, tail) + rest;
    MoreItemsEnds(style, tail);
    ConcatAssoc(Encode(style, head), MoreItems(style, tail), rest);
    assert more[0] == MoreItems(style, tail)[0];
    RoundTrip(style, head, more);
    MoreItemsRoundTrip(style, tail, rest);
  }

  lemma {:induction false} MoreItemsRoundTrip(style: Style, items: Items, rest: string)
    ensures ReadMoreItems(MoreItems(style, items) + rest) == Some((items, rest))
    decreases items, 1
  {
    match items
    case NoItems => assert ("]" + rest)[1..] == rest;
    case Item(head, tail) =>
      var body := Encode(style, head) + MoreItems(style, tail);
      ItemsRoundTrip(style, head, tail, rest);
      ItemStart(style, head, MoreItems(style, tail) + rest);
      ConcatAssoc(Encode(style, head), MoreItems(style, tail), rest);
      AfterComma(style, body + rest);
      ConcatAssoc(Comma(style), body, rest);
  }

  lemma ItemStart(style: Style, v: Value, more: string)
    ensures var s := Encode(style, v) + more; s != "" && !Space(s[0])
  {
    EncodeEnds(style, v);
  }

  lemma AfterComma(style: Style, body: string)
    requires body != "" && !Space(body[0])
    ensures ReadMoreItems(Comma(style) + body) == ReadItems(body)
    ensures ReadMoreMembers(Comma(style) + body) == ReadMembers(body)
  {
    AfterSeparator(Comma(style), body);
  }

  /** Nothing is left of a separator but the body. */
  lemma AfterSeparator(separator: string, body: string)
    requires separator != "" && (separator[1..] == "" || separator[1..] == " ")
    requires body != "" && !Space(body[0])
    ensures var s := separator + body; s[0] == separator[0] && SkipSpaces(s[1..]) == body
  {
    assert (separator + body)[1..] == separator[1..] + body;
    SkipAfter(separator[1..], body);
  }

  function OneMore(style: Style, key: string, value: Value, tail: Members): string {
    Quote(style, key) + (Colon(style) + (Encode(style, value) + MoreMembers(style, tail)))
  }

  lemma {:induction false} MembersRoundTrip(style: Style, key: string, value: Value, tail: Members, rest: string)
    ensures ReadMembers(OneMore(style, key, value, tail) + rest) == Some((Member(key, value, tail), rest))
    decreases Member(key, value, tail), 0
  {
    var more := MoreMembers(style, tail) + rest;
    var body := Encode(style, value) + more;
    MoreMembersEnds(style, tail);
    RoundTrip(style, value, more);
    MoreMembersRoundTrip(style, tail, rest);
    ItemStart(style, value, more);
    KeyIsRead(style, key, body);
    OneMoreThen(style, key, value, tail, rest);
  }

  lemma OneMoreThen(style: Style, key: string, value: Value, tail: Members, rest: string)
    ensures OneMore(style, key, value, tail) + rest
         == Quote(style, key) + (Colon(style) + (Encode(style, value) + (MoreMembers(style, tail) + rest)))
  {}

  lemma KeyIsRead(style: Style, key: string, body: string)
    requires body != "" && !Space(body[0])
    ensures ReadMembers(Quote(style, key) + (Colon(style) + body)) == ReadMember(key, body)
  {
    var after := Colon(style) + body;
    QuoteRoundTrip(style, key, after);
    assert ReadMembers(Quote(style, key) + after) == ReadColon(key, after);
    ColonIsRead(style, key, body);
  }

  lemma ColonIsRead(style: Style, key: string, body: string)
    requires body != "" && !Space(body[0])
    ensures ReadColon(key, Colon(style) + body) == ReadMember(key, body)
  {
    AfterSeparator(Colon(style), body);
    assert SkipSpaces(Colon(style) + body) == Colon(style) + body;
  }

  lemma {:induction false} MoreMembersRoundTrip(style: Style, members: Members, rest: string)
    ensures ReadMoreMembers(MoreMembers(style, members) + rest) == Some((members, rest))
    decreases members, 1
  {
    match members
    case NoMembers => assert ("}" + rest)[1..] == rest;
    case Member(key, value, tail) =>
      var body := OneMore(style, key, value, tail);
      MembersRoundTrip(style, key, value, tail, rest);
      AfterComma(style, body + rest);
      ConcatAssoc(Comma(style), body, rest);
  }

  /** A whole text holds exactly the value that was written. */
  lemma ReadEncode(style: Style, v: Value)
    ensures Read(Encode(style, v)) == Some(v)
  {
    RoundTrip(style, v, "");
    EncodeEnds(style, v);
    assert Encode(style, v) + "" == Encode(style, v);
  }

  // ----- the two encodings and the reader, by example ------------------------------------------

  /** What stays as it is: `serde_json` escapes only control characters, quotes and backslashes, and Python everything
      but visible ASCII as well; both in lower-case hexadecimal. */
  lemma EscapeMeans(style: Style, c: char)
    ensures Escape(style, c) == [c] <==> c >= ' ' && c != '\"' && c != '\\' && (style.Compact? || c <= '~')
    ensures Escape(style, 0x1F as char) == "\\u001f" && Escape(Python, 0xE9 as char) == "\\u00e9"
  {}

  /** Blanks follow commas and colons in Python's style only. */
  lemma EncodeExample(style: Style, a: string, b: string)
    ensures var comma, colon := if style.Compact? then "," else ", ", if style.Compact? then ":" else ": ";
      Encode(style, Obj(Member(a, Null, Member(b, Null, NoMembers))))
      == "{" + (Quote(style, a) + (colon + ("null" + (comma + (Quote(style, b) + (colon + ("null" + "}")))))))
  {
    var tail := Member(b, Null, NoMembers);
    assert MoreMembers(style, NoMembers) == "}" && Encode(style, Null) == "null";
    assert MoreMembers(style, tail) == Comma(style) + (Quote(style, b) + (Colon(style) + ("null" + "}")));
    assert Encode(style, Obj(Member(a, Null, tail)))
        == "{" + (Quote(style, a) + (Colon(style) + ("null" + MoreMembers(style, tail))));
  }

  /** The reader refuses what is not JSON. */
  lemma RefusedTexts()
    ensures !IsNumber("01") && !IsNumber("+1") && !IsNumber("1.") && !IsNumber(".5") && !IsNumber("1e")
    ensures ReadString("\n\"").None? && ReadString("a").None? && ReadString("\\q\"").None?
    ensures ReadValue("nul").None? && ReadMoreItems("").None? && ReadMembers("a").None?
    ensures ReadMoreItems(",]").None? && ReadMoreMembers(",}").None? && ReadColon("k", "}").None?
  {
    assert ",]"[1..] == "]" && ",}"[1..] == "}";
    assert "01"[1..] == "1" && ".5"[1..] == "5" && "1e"[1..] == "e" && "1."[1..] == "." && "."[1..] == "";
    assert ReadString("a"[1..]).None?;
  }
}
