/** The JSON parser behind `serde_json::from_str`, as far as its results differ from the text. */
module JsonParser {
  import opened Common
  import opened Json

  /** A library stores one entry per key. What it does to a number, as the text it prints afterwards or not at all if
      it refuses it, and how many arrays and objects it follows into one another. */
  datatype Library = Library(number: NumberText -> Option<NumberText>, limit: nat)

  // ----- nesting -------------------------------------------------------------------------------

  function Max(a: nat, b: nat): nat {
    if a >= b then a else b
  }

  /** How many arrays and objects are nested in one another. */
  function Depth(v: Value): nat {
    match v
    case Arr(items) => 1 + ItemsDepth(items)
    case Obj(members) => 1 + MembersDepth(members)
    case _ => 0
  }

  function ItemsDepth(items: Items): nat {
    match items
    case NoItems => 0
    case Item(head, tail) => Max(Depth(head), ItemsDepth(tail))
  }

  function MembersDepth(members: Members): nat {
    match members
    case NoMembers => 0
    case Member(_, value, tail) => Max(Depth(value), MembersDepth(tail))
  }

  // ----- what is refused -----------------------------------------------------------------------

  /** No number in the value is out of the library's range, be it under a key that is overwritten. */
  predicate InRange(library: Library, v: Value)
    decreases v
  {
    match v
    case Number(text) => library.number(text).Some?
    case Arr(items) => ItemsInRange(library, items)
    case Obj(members) => MembersInRange(library, members)
    case _ => true
  }

  predicate ItemsInRange(library: Library, items: Items)
    decreases items
  {
    match items
    case NoItems => true
    case Item(head, tail) => InRange(library, head) && ItemsInRange(library, tail)
  }

  predicate MembersInRange(library: Library, members: Members)
    decreases members
  {
    match members
    case NoMembers => true
    case Member(_, value, tail) => InRange(library, value) && MembersInRange(library, tail)
  }

  /** The library accepts the value. */
  predicate Readable(library: Library, v: Value) {
    Depth(v) <= library.limit && InRange(library, v)
  }

  // ----- what is stored ------------------------------------------------------------------------

  /** A map entry: a key that is there keeps its place and takes the new value. */
  function Insert(members: Members, key: string, value: Value): Members {
    match members
    case NoMembers => Member(key, value, NoMembers)
    case Member(k, v, tail) => if k == key then Member(key, value, tail) else Member(k, v, Insert(tail, key, value))
  }

  /** A value as the library keeps it. What stands for a refused number does not matter: such a value is never stored.
      */
  function Stored(library: Library, v: Value): Value
    decreases v
  {
    match v
    case Number(text) => (match library.number(text) case Some(kept) => Number(kept) case None => Null)
    case Arr(items) => Arr(StoredItems(library, items))
    case Obj(members) => Obj(StoredMembers(library, NoMembers, members))
    case _ => v
  }

  function StoredItems(library: Library, items: Items): Items
    decreases items
  {
    match items
    case NoItems => NoItems
    case Item(head, tail) => Item(Stored(library, head), StoredItems(library, tail))
  }

  /** The members added to a map, one after another. */
  function StoredMembers(library: Library, done: Members, members: Members): Members
    decreases members
  {
    match members
    case NoMembers => done
    case Member(key, value, tail) => StoredMembers(library, Insert(done, key, Stored(library, value)), tail)
  }

  /** The parser: the value a text holds, as it is stored, unless the text is not JSON or the library refuses the
      value. */
  function Parse(library: Library): string -> Option<Value> {
    s => match Read(s)
      case None => None
      case Some(v) => if Readable(library, v) then Some(Stored(library, v)) else None
  }

  // ----- what survives -------------------------------------------------------------------------

  function KeysOf(members: Members): seq<string> {
    match members
    case NoMembers => []
    case Member(key, _, tail) => [key] + KeysOf(tail)
  }

  /** Every number is one the library keeps, and no object repeats a key. */
  ghost predicate Kept(library: Library, v: Value) {
    match v
    case Number(text) => library.number(text) == Some(text)
    case Arr(items) => KeptItems(library, items)
    case Obj(members) => Distinct(KeysOf(members)) && KeptMembers(library, members)
    case _ => true
  }

  ghost predicate KeptItems(library: Library, items: Items) {
    match items
    case NoItems => true
    case Item(head, tail) => Kept(library, head) && KeptItems(library, tail)
  }

  ghost predicate KeptMembers(library: Library, members: Members) {
    match members
    case NoMembers => true
    case Member(_, value, tail) => Kept(library, value) && KeptMembers(library, tail)
  }

  function Append(a: Members, b: Members): Members {
    match a
    case NoMembers => b
    case Member(key, value, tail) => Member(key, value, Append(tail, b))
  }

  /** Each value stored, keys left alone. */
  function EachStored(library: Library, members: Members): Members {
    match members
    case NoMembers => NoMembers
    case Member(key, value, tail) => Member(key, Stored(library, value), EachStored(library, tail))
  }

  lemma {:induction false} InsertKeys(members: Members, key: string, value: Value)
    ensures KeysOf(Insert(members, key, value))
         == if key in KeysOf(members) then KeysOf(members) else KeysOf(members) + [key]
    ensures key !in KeysOf(members) ==> Insert(members, key, value) == Append(members, Member(key, value, NoMembers))
  {
    if members.Member? && members.key != key {
      InsertKeys(members.tail, key, value);
    }
  }

  lemma DistinctSnoc<T>(xs: seq<T>, x: T)
    requires Distinct(xs) && x !in xs
    ensures Distinct(xs + [x])
  {}

  lemma {:induction false} StoredKeysDistinct(library: Library, done: Members, members: Members)
    requires Distinct(KeysOf(done))
    ensures Distinct(KeysOf(StoredMembers(library, done, members)))
    decreases members
  {
    match members
    case NoMembers =>
    case Member(key, value, tail) =>
      var stored := Stored(library, value);
      InsertKeys(done, key, stored);
      if key !in KeysOf(done) {
        DistinctSnoc(KeysOf(done), key);
      }
      StoredKeysDistinct(library, Insert(done, key, stored), tail);
  }

  lemma {:induction false} AppendAssoc(a: Members, b: Members, c: Members)
    ensures Append(Append(a, b), c) == Append(a, Append(b, c))
  {
    if a.Member? {
      AppendAssoc(a.tail, b, c);
    }
  }

  lemma FirstIsFresh<T>(a: seq<T>, b: seq<T>)
    requires Distinct(a + b) && b != []
    ensures b[0] !in a
  {
    var all := a + b;
    assert all[|a|] == b[0];
    assert forall i :: 0 <= i < |a| ==> all[i] == a[i] && all[i] != all[|a|];
  }

  /** The value of a key, if the object has it; the last one if it has several. */
  function LastOf(members: Members, key: string): Option<Value> {
    match members
    case NoMembers => None
    case Member(k, value, tail) =>
      if LastOf(tail, key).Some? then LastOf(tail, key) else if k == key then Some(value) else None
  }

  /** Keys in the order in which they first appear. */
  function FirstSeen(done: seq<string>, keys: seq<string>): seq<string>
    decreases |keys|
  {
    if keys == [] then done
    else FirstSeen(if keys[0] in done then done else done + [keys[0]], keys[1..])
  }

  lemma {:induction false} InsertMeans(members: Members, key: string, value: Value, other: string)
    requires Distinct(KeysOf(members))
    ensures LastOf(Insert(members, key, value), other) == if other == key then Some(value) else LastOf(members, other)
  {
    if members.Member? {
      DistinctTail([members.key], KeysOf(members.tail));
      NoLast(members.tail, members.key);
      InsertMeans(members.tail, key, value, other);
    }
  }

  lemma DistinctTail<T>(a: seq<T>, b: seq<T>)
    requires Distinct(a + b)
    ensures Distinct(b) && forall x :: x in a ==> x !in b
  {
    var all := a + b;
    assert forall i :: 0 <= i < |b| ==> b[i] == all[|a| + i];
    assert forall i :: 0 <= i < |a| ==> a[i] == all[i];
  }

  lemma {:induction false} NoLast(members: Members, key: string)
    ensures LastOf(members, key).Some? <==> key in KeysOf(members)
  {
    if members.Member? {
      NoLast(members.tail, key);
    }
  }

  /** A stored object has each key once, where it first appeared, with the last value given for it. */
  lemma {:induction false} StoredMembersMean(library: Library, done: Members, members: Members, key: string)
    requires Distinct(KeysOf(done))
    ensures var stored := StoredMembers(library, done, members);
      && Distinct(KeysOf(stored))
      && KeysOf(stored) == FirstSeen(KeysOf(done), KeysOf(members))
      && LastOf(stored, key) == (match LastOf(members, key)
                                 case Some(value) => Some(Stored(library, value))
                                 case None => LastOf(done, key))
    decreases members
  {
    match members
    case NoMembers =>
    case Member(k, value, tail) =>
      var more := Insert(done, k, Stored(library, value));
      InsertMeans(done, k, Stored(library, value), key);
      InsertKeys(done, k, Stored(library, value));
      assert KeysOf(members)[1..] == KeysOf(tail);
      InsertKeepsDistinct(done, k, Stored(library, value));
      StoredMembersMean(library, more, tail, key);
  }

  lemma InsertKeepsDistinct(members: Members, key: string, value: Value)
    requires Distinct(KeysOf(members))
    ensures Distinct(KeysOf(Insert(members, key, value)))
  {
    InsertKeys(members, key, value);
    if key !in KeysOf(members) {
      DistinctSnoc(KeysOf(members), key);
    }
  }

  /** A number is stored as the library keeps it; texts, truth values and null as they are. */
  lemma ScalarsStored(library: Library, v: Value)
    requires !v.Arr? && !v.Obj? && InRange(library, v)
    ensures v.Number? ==> Stored(library, v).Number? && library.number(v.text) == Some(Stored(library, v).text)
    ensures !v.Number? ==> Stored(library, v) == v
  {}

  /** The numbers in a value. */
  function NumbersOf(v: Value): set<NumberText>
    decreases v
  {
    match v
    case Number(text) => {text}
    case Arr(items) => ItemsNumbers(items)
    case Obj(members) => MembersNumbers(members)
    case _ => {}
  }

  function ItemsNumbers(items: Items): set<NumberText>
    decreases items
  {
    match items
    case NoItems => {}
    case Item(head, tail) => NumbersOf(head) + ItemsNumbers(tail)
  }

  function MembersNumbers(members: Members): set<NumberText>
    decreases members
  {
    match members
    case NoMembers => {}
    case Member(_, value, tail) => NumbersOf(value) + MembersNumbers(tail)
  }

  /** A value is in range exactly if the library refuses none of the numbers in it, wherever they are. */
  lemma {:induction false} InRangeIff(library: Library, v: Value)
    ensures InRange(library, v) <==> forall t :: t in NumbersOf(v) ==> library.number(t).Some?
    decreases v
  {
    match v
    case Arr(items) => ItemsInRangeIff(library, items);
    case Obj(members) => MembersInRangeIff(library, members);
    case _ =>
  }

  lemma {:induction false} ItemsInRangeIff(library: Library, items: Items)
    ensures ItemsInRange(library, items) <==> forall t :: t in ItemsNumbers(items) ==> library.number(t).Some?
    decreases items
  {
    if items.Item? {
      InRangeIff(library, items.head);
      ItemsInRangeIff(library, items.tail);
    }
  }

  lemma {:induction false} MembersInRangeIff(library: Library, members: Members)
    ensures MembersInRange(library, members) <==> forall t :: t in MembersNumbers(members) ==> library.number(t).Some?
    decreases members
  {
    if members.Member? {
      InRangeIff(library, members.value);
      MembersInRangeIff(library, members.tail);
    }
  }

  /** With distinct keys nothing is overwritten. */
  lemma {:induction false} StoredApart(library: Library, done: Members, members: Members)
    requires Distinct(KeysOf(done) + KeysOf(members))
    ensures StoredMembers(library, done, members) == Append(done, EachStored(library, members))
    decreases members
  {
    match members
    case NoMembers =>
      AppendNothing(done);
    case Member(key, value, tail) =>
      var stored := Stored(library, value);
      FirstIsFresh(KeysOf(done), KeysOf(members));
      InsertKeys(done, key, stored);
      ConcatAssoc(KeysOf(done), [key], KeysOf(tail));
      StoredApart(library, Insert(done, key, stored), tail);
      AppendAssoc(done, Member(key, stored, NoMembers), EachStored(library, tail));
  }

  lemma {:induction false} AppendNothing(a: Members)
    ensures Append(a, NoMembers) == a
  {
    if a.Member? {
      AppendNothing(a.tail);
    }
  }

  /** Storing a value changes nothing exactly if the library keeps its numbers and no object repeats a key. */
  lemma {:induction false} StoredIffKept(library: Library, v: Value)
    ensures Stored(library, v) == v <==> Kept(library, v)
    decreases v
  {
    match v
    case Arr(items) => ItemsIffKept(library, items);
    case Obj(members) =>
      EachIffKept(library, members);
      StoredKeysDistinct(library, NoMembers, members);
      if Distinct(KeysOf(members)) {
        assert KeysOf(NoMembers) + KeysOf(members) == KeysOf(members);
        StoredApart(library, NoMembers, members);
      }
    case _ =>
  }

  lemma {:induction false} ItemsIffKept(library: Library, items: Items)
    ensures StoredItems(library, items) == items <==> KeptItems(library, items)
    decreases items
  {
    if items.Item? {
      StoredIffKept(library, items.head);
      ItemsIffKept(library, items.tail);
    }
  }

  lemma {:induction false} EachIffKept(library: Library, members: Members)
    ensures EachStored(library, members) == members <==> KeptMembers(library, members)
    decreases members
  {
    if members.Member? {
      StoredIffKept(library, members.value);
      EachIffKept(library, members.tail);
    }
  }

  /** Storing never nests deeper. */
  lemma {:induction false} StoredDepth(library: Library, v: Value)
    ensures Depth(Stored(library, v)) <= Depth(v)
    decreases v
  {
    match v
    case Arr(items) => StoredItemsDepth(library, items);
    case Obj(members) => StoredMembersDepth(library, NoMembers, members);
    case _ =>
  }

  lemma {:induction false} StoredItemsDepth(library: Library, items: Items)
    ensures ItemsDepth(StoredItems(library, items)) <= ItemsDepth(items)
    decreases items
  {
    if items.Item? {
      StoredDepth(library, items.head);
      StoredItemsDepth(library, items.tail);
    }
  }

  lemma {:induction false} StoredMembersDepth(library: Library, done: Members, members: Members)
    ensures MembersDepth(StoredMembers(library, done, members)) <= Max(MembersDepth(done), MembersDepth(members))
    decreases members
  {
    match members
    case NoMembers =>
    case Member(key, value, tail) =>
      var stored := Stored(library, value);
      StoredDepth(library, value);
      InsertDepth(done, key, stored);
      StoredMembersDepth(library, Insert(done, key, stored), tail);
  }

  lemma {:induction false} InsertDepth(members: Members, key: string, value: Value)
    ensures MembersDepth(Insert(members, key, value)) <= Max(MembersDepth(members), Depth(value))
  {
    if members.Member? && members.key != key {
      InsertDepth(members.tail, key, value);
    }
  }

  /** A number that is kept is in range. */
  lemma {:induction false} KeptInRange(library: Library, v: Value)
    requires Kept(library, v)
    ensures InRange(library, v)
    decreases v
  {
    match v
    case Arr(items) => KeptItemsInRange(library, items);
    case Obj(members) => KeptMembersInRange(library, members);
    case _ =>
  }

  lemma {:induction false} KeptItemsInRange(library: Library, items: Items)
    requires KeptItems(library, items)
    ensures ItemsInRange(library, items)
    decreases items
  {
    if items.Item? {
      KeptInRange(library, items.head);
      KeptItemsInRange(library, items.tail);
    }
  }

  lemma {:induction false} KeptMembersInRange(library: Library, members: Members)
    requires KeptMembers(library, members)
    ensures MembersInRange(library, members)
    decreases members
  {
    if members.Member? {
      KeptInRange(library, members.value);
      KeptMembersInRange(library, members.tail);
    }
  }

  /** What the parser makes of an encoded value, in either style. */
  lemma ParseEncode(library: Library, style: Style, v: Value)
    ensures Parse(library)(Encode(style, v)) == if Readable(library, v) then Some(Stored(library, v)) else None
  {
    ReadEncode(style, v);
  }

  /** The parser gives a value back exactly if it is not nested too deep, repeats no key and has only numbers it
      keeps. */
  lemma ParseGivesBackIff(library: Library, style: Style, v: Value)
    ensures Parse(library)(Encode(style, v)) == Some(v) <==> Depth(v) <= library.limit && Kept(library, v)
  {
    ParseEncode(library, style, v);
    StoredIffKept(library, v);
    if Kept(library, v) {
      KeptInRange(library, v);
    }
  }

  // ----- what is known of the library's numbers ------------------------------------------------

  function Power10(n: nat): nat {
    if n == 0 then 1 else 10 * Power10(n - 1)
  }

  predicate AreDigits(s: string) {
    forall i :: 0 <= i < |s| ==> '0' <= s[i] <= '9'
  }

  /** The value of some digits. */
  function DigitsValue(s: string): nat
    requires AreDigits(s)
  {
    if s == "" then 0
    else
      var n := |s| - 1;
      10 * DigitsValue(s[..n]) + (s[n] as int - '0' as int)
  }

  /** A number without fraction or exponent. */
  predicate IsInteger(t: NumberText) {
    AreDigits(DigitsOf(t))
  }

  function DigitsOf(t: NumberText): string {
    if t[0] == '-' then t[1..] else t
  }

  /** The integer fits a signed or unsigned machine word of 64 bits; minus zero is a floating-point number. */
  predicate FitsWord(t: NumberText)
    requires IsInteger(t)
  {
    var magnitude := DigitsValue(DigitsOf(t));
    if t[0] == '-' then 0 < magnitude <= 0x8000_0000_0000_0000 else magnitude < 0x1_0000_0000_0000_0000
  }

  /** Integers that fit are kept; the others become floating-point numbers, which print with a point or an exponent, or
      are refused. */
  ghost predicate KeepsWords(library: Library) {
    forall t: NumberText :: IsInteger(t) ==> (library.number(t) == Some(t) <==> FitsWord(t))
  }

  /** An integer beyond the largest double. */
  predicate Huge(t: NumberText) {
    IsInteger(t) && DigitsValue(DigitsOf(t)) >= Power10(309)
  }

  /** Such integers are refused. */
  ghost predicate RefusesHuge(library: Library) {
    forall t: NumberText :: Huge(t) ==> library.number(t).None?
  }

  lemma {:induction false} LeadingDigit(s: string)
    requires s != "" && AreDigits(s) && s[0] != '0'
    ensures DigitsValue(s) >= Power10(|s| - 1)
  {
    if |s| > 1 {
      LeadingDigit(s[..|s| - 1]);
    } else {
      assert DigitsValue(s) == 10 * DigitsValue(s[..0]) + (s[0] as int - '0' as int);
    }
  }

  lemma {:induction false} Power10Grows(n: nat, m: nat)
    requires n <= m
    ensures Power10(n) <= Power10(m)
  {
    if n < m {
      Power10Grows(n, m - 1);
    }
  }

  lemma Power10Of20()
    ensures Power10(20) > 0x1_0000_0000_0000_0000
  {
    assert Power10(4) == 10_000;
    assert Power10(8) == 100_000_000;
    assert Power10(12) == 1_000_000_000_000;
    assert Power10(16) == 10_000_000_000_000_000;
  }

  lemma HugeDoesNotFit(t: NumberText)
    requires IsInteger(t) && Huge(t)
    ensures !FitsWord(t)
  {
    Power10Grows(20, 309);
    Power10Of20();
  }

  /** What such a library makes of a number. */
  function KnownNumber(t: NumberText, float: NumberText): Option<NumberText> {
    if Huge(t) then None else if IsInteger(t) && !FitsWord(t) then Some(float) else Some(t)
  }

  /** Libraries of both kinds at once exist. */
  lemma KnownLibraryExists(limit: nat) returns (library: Library)
    ensures library.limit == limit && KeepsWords(library) && RefusesHuge(library)
  {
    var float: NumberText := "0.0";
    library := Library((t: NumberText) => KnownNumber(t, float), limit);
    forall t: NumberText | IsInteger(t) ensures library.number(t) == Some(t) <==> FitsWord(t) {
      if Huge(t) {
        HugeDoesNotFit(t);
      }
    }
  }

  /** An integer of more than twenty digits is not kept. */
  lemma LongIntegerIsLost(library: Library, t: NumberText)
    requires KeepsWords(library) && IsInteger(t) && t[0] != '-' && t[0] != '0' && |t| > 20
    ensures !Kept(library, Number(t))
  {
    LeadingDigit(t);
    Power10Grows(20, |t| - 1);
    Power10Of20();
  }

  /** An integer of more than 309 digits is refused. */
  lemma HugeIntegerIsRefused(library: Library, t: NumberText)
    requires RefusesHuge(library) && IsInteger(t) && t[0] != '-' && t[0] != '0' && |t| > 309
    ensures !InRange(library, Number(t))
  {
    LeadingDigit(t);
    Power10Grows(309, |t| - 1);
  }

  lemma {:induction false} AllDigits(s: string)
    requires AreDigits(s)
    ensures DigitRun(s) == |s| && NumberRun(s) == |s|
  {
    if s != "" {
      AllDigits(s[1..]);
    }
  }

  /** A row of digits that does not begin with a zero is an integer. */
  lemma DigitsAreInteger(s: string)
    requires s != "" && s[0] != '0' && AreDigits(s)
    ensures NumberRun(s) == |s| && IsNumber(s) && IsInteger(s)
  {
    AllDigits(s);
    assert s[|s|..] == "";
  }

  lemma HugeIntegerExample()
    ensures var s := seq(400, _ => '9'); NumberRun(s) == |s| && IsNumber(s) && IsInteger(s) && |s| > 309
  {
    DigitsAreInteger(seq(400, _ => '9'));
  }

  /** The text 1e400 is a number. */
  lemma OutOfRangeExample()
    ensures NumberRun("1e400") == 5 && IsNumber("1e400")
  {
    var s := "1e400";
    AllDigits("400");
    assert s[1..] == "e400" && s[1..][1..] == "400" && s[2..] == "400";
    assert DigitRun(s) == 1 + DigitRun(s[1..]);
    assert NumberRun(s) == 2 + NumberRun("400");
  }
}
