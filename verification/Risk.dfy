/** The portfolio-risk demo (examples/python-demo/portfolio_risk.py): bounded price histories, the fallback
    value-at-risk and the rows of the correlation matrix, in exact arithmetic. */
module Risk {
  import opened Common

  const HISTORY_SIZE: nat := 200
  const MIN_VAR_PRICES: nat := 20
  const MIN_CORR_PRICES: nat := 30
  const CORR_RETURNS: nat := 29

  datatype Error = ZeroDivision | IndexError

  // ----- counting and sorting ------------------------------------------------------------------

  function CountBelow(s: seq<real>, v: real): nat {
    if s == [] then 0 else (if s[0] < v then 1 else 0) + CountBelow(s[1..], v)
  }

  function CountAtMost(s: seq<real>, v: real): nat {
    if s == [] then 0 else (if s[0] <= v then 1 else 0) + CountAtMost(s[1..], v)
  }

  ghost predicate IsSorted(s: seq<real>) {
    forall i, j :: 0 <= i < j < |s| ==> s[i] <= s[j]
  }

  function Insert(x: real, s: seq<real>): seq<real> {
    if s == [] || x <= s[0] then [x] + s else [s[0]] + Insert(x, s[1..])
  }

  /** Python's `sorted`. */
  function Sorted(s: seq<real>): seq<real> {
    if s == [] then [] else Insert(s[0], Sorted(s[1..]))
  }

  lemma {:induction false} InsertSorts(x: real, s: seq<real>)
    requires IsSorted(s)
    ensures IsSorted(Insert(x, s)) && |Insert(x, s)| == |s| + 1
    ensures forall y :: y in Insert(x, s) <==> y == x || y in s
  {
    if s != [] && x > s[0] {
      var rest := Insert(x, s[1..]);
      InsertSorts(x, s[1..]);
      assert forall y :: y in s <==> y == s[0] || y in s[1..];
      forall i | 0 <= i < |rest| ensures s[0] <= rest[i] {
        assert rest[i] in rest;
      }
    }
  }

  lemma {:induction false} InsertCounts(x: real, s: seq<real>, v: real)
    ensures CountBelow(Insert(x, s), v) == (if x < v then 1 else 0) + CountBelow(s, v)
    ensures CountAtMost(Insert(x, s), v) == (if x <= v then 1 else 0) + CountAtMost(s, v)
  {
    if s == [] || x <= s[0] {
      assert ([x] + s)[1..] == s;
    } else {
      InsertCounts(x, s[1..], v);
      assert ([s[0]] + Insert(x, s[1..]))[1..] == Insert(x, s[1..]);
    }
  }

  lemma {:induction false} SortedSorts(s: seq<real>)
    ensures IsSorted(Sorted(s)) && |Sorted(s)| == |s|
    ensures forall y :: y in Sorted(s) <==> y in s
  {
    if s != [] {
      SortedSorts(s[1..]);
      InsertSorts(s[0], Sorted(s[1..]));
      assert forall y :: y in s <==> y == s[0] || y in s[1..];
    }
  }

  lemma {:induction false} SortedCounts(s: seq<real>, v: real)
    ensures CountBelow(Sorted(s), v) == CountBelow(s, v)
    ensures CountAtMost(Sorted(s), v) == CountAtMost(s, v)
  {
    if s != [] {
      SortedCounts(s[1..], v);
      InsertCounts(s[0], Sorted(s[1..]), v);
    }
  }

  lemma {:induction false} SortedRank(t: seq<real>, k: nat)
    requires IsSorted(t) && k < |t|
    ensures CountBelow(t, t[k]) <= k < CountAtMost(t, t[k])
  {
    if k == 0 {
      NoneBelow(t, t[0]);
    } else {
      SortedRank(t[1..], k - 1);
    }
  }

  lemma {:induction false} NoneBelow(t: seq<real>, v: real)
    requires forall i :: 0 <= i < |t| ==> v <= t[i]
    ensures CountBelow(t, v) == 0
  {
    if t != [] {
      NoneBelow(t[1..], v);
    }
  }

  lemma {:induction false} CountsAreMonotone(s: seq<real>, a: real, b: real)
    requires a < b
    ensures CountAtMost(s, a) <= CountBelow(s, b)
  {
    if s != [] {
      CountsAreMonotone(s[1..], a, b);
    }
  }

  function Without(t: seq<real>, x: real): seq<real> {
    if t == [] then [] else if t[0] == x then t[1..] else [t[0]] + Without(t[1..], x)
  }

  lemma {:induction false} WithoutElements(t: seq<real>, x: real)
    requires x in t
    ensures multiset(Without(t, x)) == multiset(t) - multiset{x}
  {
    assert t == [t[0]] + t[1..];
    if t[0] != x {
      WithoutElements(t[1..], x);
    }
  }

  lemma {:induction false} WithoutCounts(t: seq<real>, x: real, v: real)
    requires x in t
    ensures CountBelow(t, v) == CountBelow(Without(t, x), v) + (if x < v then 1 else 0)
    ensures CountAtMost(t, v) == CountAtMost(Without(t, x), v) + (if x <= v then 1 else 0)
  {
    if t[0] != x {
      WithoutCounts(t[1..], x, v);
      assert Without(t, x)[1..] == Without(t[1..], x);
    }
  }

  /** The counts do not depend on the order of the list. */
  lemma {:induction false} CountsIgnoreOrder(s: seq<real>, t: seq<real>, v: real)
    requires multiset(s) == multiset(t)
    ensures CountBelow(s, v) == CountBelow(t, v) && CountAtMost(s, v) == CountAtMost(t, v)
  {
    if s == [] {
      assert |multiset(t)| == 0;
    } else {
      assert s[0] in multiset(t);
      assert multiset(s[1..]) == multiset(s) - multiset{s[0]} by {
        assert s == [s[0]] + s[1..];
      }
      WithoutElements(t, s[0]);
      WithoutCounts(t, s[0], v);
      CountsIgnoreOrder(s[1..], Without(t, s[0]), v);
    }
  }

  /** `v` has rank `k` in `s`: at most `k` entries are strictly below it and at least `k + 1` are at or below it. */
  predicate HasRank(s: seq<real>, k: nat, v: real) {
    v in s && CountBelow(s, v) <= k < CountAtMost(s, v)
  }

  /** The entry at place `k` of the sorted list is the one value of rank `k`. */
  lemma SortedEntryIff(s: seq<real>, k: nat, v: real)
    requires k < |s|
    ensures |Sorted(s)| == |s|
    ensures HasRank(s, k, v) <==> v == Sorted(s)[k]
  {
    SortedSorts(s);
    var w := Sorted(s)[k];
    SortedRank(Sorted(s), k);
    SortedCounts(s, w);
    assert w in Sorted(s);
    if v < w {
      CountsAreMonotone(s, v, w);
    } else if w < v {
      CountsAreMonotone(s, w, v);
    }
  }

  lemma RankIgnoresOrder(s: seq<real>, t: seq<real>, k: nat, v: real)
    requires multiset(s) == multiset(t)
    ensures HasRank(s, k, v) <==> HasRank(t, k, v)
  {
    CountsIgnoreOrder(s, t, v);
    assert v in s <==> v in multiset(s);
    assert v in t <==> v in multiset(t);
  }

  // ----- returns -------------------------------------------------------------------------------

  /** The returns divide by every price but the last. */
  predicate Divisible(prices: seq<real>) {
    forall i :: 0 <= i < |prices| - 1 ==> prices[i] != 0.0
  }

  function Rate(before: real, now: real): real
    requires before != 0.0
  {
    (now - before) / before
  }

  function Returns(prices: seq<real>): (r: seq<real>)
    requires |prices| > 0 && Divisible(prices)
    ensures |r| == |prices| - 1
  {
    seq(|prices| - 1, i requires 0 <= i < |prices| - 1 => Rate(prices[i], prices[i + 1]))
  }

  ghost predicate IsChange(before: real, now: real, change: real) {
    before * (1.0 + change) == now
  }

  /** Each change takes one price to the next. */
  ghost predicate AreChanges(prices: seq<real>, changes: seq<real>) {
    && |changes| + 1 == |prices|
    && forall i :: 0 <= i < |changes| ==> IsChange(prices[i], prices[i + 1], changes[i])
  }

  /** The rate is the one change, and a positive price rises exactly if it is positive. */
  lemma RateIs(before: real, now: real, r: real)
    requires before != 0.0
    ensures IsChange(before, now, r) <==> r == Rate(before, now)
    ensures before > 0.0 ==> (Rate(before, now) > 0.0 <==> now > before)
  {
    var rate := Rate(before, now);
    assert before * rate == now - before;
    assert before * (1.0 + r) == before + before * r;
    if before * r == before * rate {
      assert before * (r - rate) == 0.0;
    }
    if before > 0.0 {
      PositiveFactor(before, rate);
    }
  }

  lemma PositiveFactor(a: real, b: real)
    requires a > 0.0
    ensures a * b > 0.0 <==> b > 0.0
  {}

  /** Each entry is a change exactly if it is the return there. */
  lemma ReturnIs(prices: seq<real>, i: nat, r: real)
    requires |prices| > 0 && Divisible(prices) && i + 1 < |prices|
    ensures IsChange(prices[i], prices[i + 1], r) <==> r == Returns(prices)[i]
  {
    RateIs(prices[i], prices[i + 1], r);
  }

  /** The returns are the changes, and no other list is. */
  lemma ReturnsAreChanges(prices: seq<real>, changes: seq<real>)
    requires |prices| > 0 && Divisible(prices)
    ensures AreChanges(prices, changes) <==> changes == Returns(prices)
  {
    if |changes| + 1 == |prices| {
      forall i | 0 <= i < |changes|
        ensures IsChange(prices[i], prices[i + 1], changes[i]) <==> changes[i] == Returns(prices)[i]
      {
        ReturnIs(prices, i, changes[i]);
      }
    }
  }

  /** A return is positive exactly on a rise. */
  lemma ReturnsRise(prices: seq<real>, i: nat)
    requires |prices| > 0 && Divisible(prices) && i < |prices| - 1 && prices[i] > 0.0
    ensures Returns(prices)[i] > 0.0 <==> prices[i + 1] > prices[i]
  {
    RateIs(prices[i], prices[i + 1], 0.0);
  }

  /** The growth over some changes, one after another. */
  function Compounded(changes: seq<real>): real {
    if changes == [] then 1.0 else Compounded(changes[..|changes| - 1]) * (1.0 + changes[|changes| - 1])
  }

  lemma ChangesInit(prices: seq<real>, changes: seq<real>)
    requires AreChanges(prices, changes) && changes != []
    ensures AreChanges(prices[..|prices| - 1], changes[..|changes| - 1])
  {}

  lemma OneMoreChange(first: real, growth: real, before: real, change: real, now: real)
    requires first * growth == before && IsChange(before, now, change)
    ensures first * (growth * (1.0 + change)) == now
  {
    assert first * (growth * (1.0 + change)) == (first * growth) * (1.0 + change);
  }

  /** Compounded, the changes lead from the first price to the last. */
  lemma {:induction false} ReturnsCompound(prices: seq<real>, changes: seq<real>)
    requires AreChanges(prices, changes)
    ensures prices[0] * Compounded(changes) == prices[|prices| - 1]
  {
    if changes == [] {
      assert Compounded(changes) == 1.0;
    } else {
      var n := |changes| - 1;
      var init, first := prices[..n + 1], changes[..n];
      ChangesInit(prices, changes);
      ReturnsCompound(init, first);
      OneMoreChange(prices[0], Compounded(first), prices[n], changes[n], prices[n + 1]);
    }
  }

  /** The returns comprehension, which fails on the first zero it divides by. */
  method ComputeReturns(prices: seq<real>) returns (r: Result<seq<real>, Error>)
    requires |prices| > 0
    ensures r == if Divisible(prices) then Ok(Returns(prices)) else Err(ZeroDivision)
    ensures r.Ok? ==> AreChanges(prices, r.value)
  {
    var rates: seq<real> := [];
    for i := 1 to |prices|
      invariant forall j :: 0 <= j < i - 1 ==> prices[j] != 0.0
      invariant |rates| == i - 1
      invariant forall j :: 0 <= j < i - 1 ==> rates[j] == Rate(prices[j], prices[j + 1])
    {
      if prices[i - 1] == 0.0 {
        return Err(ZeroDivision);
      }
      rates := rates + [Rate(prices[i - 1], prices[i])];
    }
    assert rates == Returns(prices);
    ReturnsAreChanges(prices, rates);
    r := Ok(rates);
  }

  // ----- value at risk -------------------------------------------------------------------------

  /** Python's `int`: truncation toward zero. */
  function Truncate(x: real): int {
    if x >= 0.0 then x.Floor else -(-x).Floor
  }

  function Max(a: int, b: int): int {
    if a >= b then a else b
  }

  /** The place the fallback takes in the sorted returns. */
  function VarIndex(n: nat, confidence: real): nat {
    Max(0, Truncate(n as real * (1.0 - confidence)))
  }

  /** The index is inside the list exactly for a positive confidence. */
  lemma VarIndexIff(n: nat, confidence: real)
    requires n > 0
    ensures VarIndex(n, confidence) < n <==> confidence > 0.0
    ensures confidence <= 1.0 ==> VarIndex(n, confidence) == (n as real * (1.0 - confidence)).Floor
    ensures confidence > 1.0 ==> VarIndex(n, confidence) == 0
  {
    var x := n as real * (1.0 - confidence);
    assert x == n as real - n as real * confidence;
    if confidence > 0.0 {
      assert n as real * confidence > 0.0;
    } else {
      assert n as real * confidence <= 0.0;
    }
    if confidence <= 1.0 {
      assert x >= 0.0;
    } else {
      assert x < 0.0;
    }
  }

  /** The fallback for one symbol. */
  function VarOf(prices: seq<real>, confidence: real): Result<real, Error>
    requires |prices| > 0
  {
    if !Divisible(prices) then Err(ZeroDivision)
    else
      var sorted := Sorted(Returns(prices));
      var k := VarIndex(|sorted|, confidence);
      if k < |sorted| then Ok(sorted[k]) else Err(IndexError)
  }

  /** With a usable history the fallback succeeds exactly for a positive confidence, and it then gives the one price
      change of its rank among the changes from each price to the next, whatever order they come in. */
  lemma VarMeans(prices: seq<real>, confidence: real, changes: seq<real>)
    requires |prices| > 1 && Divisible(prices) && AreChanges(prices, changes)
    ensures VarOf(prices, confidence).Ok? <==> confidence > 0.0
    ensures forall v :: VarOf(prices, confidence) == Ok(v) <==>
      confidence > 0.0 && HasRank(changes, VarIndex(|prices| - 1, confidence), v)
  {
    ReturnsAreChanges(prices, changes);
    forall v
      ensures VarOf(prices, confidence) == Ok(v) <==>
        confidence > 0.0 && HasRank(Returns(prices), VarIndex(|prices| - 1, confidence), v)
    {
      VarOfIs(prices, confidence, v);
    }
    VarOfIs(prices, confidence, 0.0);
  }

  lemma VarOfIs(prices: seq<real>, confidence: real, v: real)
    requires |prices| > 1 && Divisible(prices)
    ensures VarOf(prices, confidence).Ok? <==> confidence > 0.0
    ensures VarOf(prices, confidence) == Ok(v) <==>
      confidence > 0.0 && HasRank(Returns(prices), VarIndex(|prices| - 1, confidence), v)
  {
    var rates := Returns(prices);
    SortedSorts(rates);
    VarIndexIff(|rates|, confidence);
    if confidence > 0.0 {
      SortedEntryIff(rates, VarIndex(|rates|, confidence), v);
    }
  }

  method ComputeVarOf(prices: seq<real>, confidence: real) returns (r: Result<real, Error>)
    requires |prices| > 0
    ensures r == VarOf(prices, confidence)
  {
    var rates := ComputeReturns(prices);
    if rates.Err? {
      return Err(rates.error);
    }
    var sorted := Sorted(rates.value);
    var idx := Truncate(|sorted| as real * (1.0 - confidence));
    if Max(0, idx) >= |sorted| {
      return Err(IndexError);
    }
    r := Ok(sorted[Max(0, idx)]);
  }

  /** The values of the first symbols in order, or the first failure. */
  function VarResults(symbols: seq<string>, history: map<string, seq<real>>, confidence: real)
    : Result<map<string, real>, Error>
  {
    if symbols == [] then Ok(map[])
    else
      var n := |symbols| - 1;
      var prices := Get(history, symbols[n]);
      match VarResults(symbols[..n], history, confidence)
      case Err(error) => Err(error)
      case Ok(values) =>
        if |prices| < MIN_VAR_PRICES then Ok(values)
        else
          match VarOf(prices, confidence)
          case Err(error) => Err(error)
          case Ok(v) => Ok(values[symbols[n] := v])
  }

  lemma {:induction false} VarFailureSticks(
    symbols: seq<string>, history: map<string, seq<real>>, confidence: real, i: nat)
    requires i <= |symbols| && VarResults(symbols[..i], history, confidence).Err?
    ensures VarResults(symbols, history, confidence) == VarResults(symbols[..i], history, confidence)
  {
    if i < |symbols| {
      var n := |symbols| - 1;
      assert symbols[..n][..i] == symbols[..i];
      VarFailureSticks(symbols[..n], history, confidence, i);
    } else {
      assert symbols[..i] == symbols;
    }
  }

  ghost predicate EachSucceeds(symbols: seq<string>, history: map<string, seq<real>>, confidence: real) {
    forall s :: s in symbols && |Get(history, s)| >= 20 ==> VarOf(Get(history, s), confidence).Ok?
  }

  /** A value for each symbol with enough prices and for no other. */
  ghost predicate ValuesOf(
    symbols: seq<string>, history: map<string, seq<real>>, confidence: real, values: map<string, real>)
  {
    && (forall s :: s in values <==> s in symbols && |Get(history, s)| >= 20)
    && forall s :: s in values ==> VarOf(Get(history, s), confidence) == Ok(values[s])
  }

  lemma ValuesSnoc(
    symbols: seq<string>, last: string, history: map<string, seq<real>>, confidence: real, values: map<string, real>)
    requires ValuesOf(symbols, history, confidence, values)
    ensures |Get(history, last)| < MIN_VAR_PRICES ==> ValuesOf(symbols + [last], history, confidence, values)
    ensures |Get(history, last)| >= MIN_VAR_PRICES && VarOf(Get(history, last), confidence).Ok? ==>
      ValuesOf(symbols + [last], history, confidence, values[last := VarOf(Get(history, last), confidence).value])
  {}

  /** The call succeeds exactly if it does for each symbol with enough prices, and then it has a value for those
      symbols and no others. */
  lemma {:induction false} VarResultsMean(symbols: seq<string>, history: map<string, seq<real>>, confidence: real)
    ensures var r := VarResults(symbols, history, confidence);
      && (r.Ok? <==> EachSucceeds(symbols, history, confidence))
      && (r.Ok? ==> ValuesOf(symbols, history, confidence, r.value))
  {
    if symbols != [] {
      var init, last := symbols[..|symbols| - 1], symbols[|symbols| - 1];
      assert symbols == init + [last];
      VarResultsMean(init, history, confidence);
      var r := VarResults(init, history, confidence);
      if r.Ok? {
        ValuesSnoc(init, last, history, confidence, r.value);
      }
    }
  }

  // ----- the rows of the correlation -----------------------------------------------------------

  /** `row` holds the 29 changes from each of the last 30 prices to the next. */
  ghost predicate RowFor(all: seq<real>, row: seq<real>) {
    |all| >= 30 && Divisible(all[|all| - 30..]) && AreChanges(all[|all| - 30..], row)
  }

  lemma ReturnsOfTail(w: seq<real>, n: nat)
    requires 0 < n <= |w| && Divisible(w)
    ensures Divisible(w[|w| - n..]) && Returns(w[|w| - n..]) == Last(Returns(w), n - 1)
  {
    var tail, rates := w[|w| - n..], Returns(w);
    assert forall i :: 0 <= i < n ==> tail[i] == w[|w| - n + i];
    forall i | 0 <= i < n - 1 ensures Returns(tail)[i] == rates[|w| - n + i] {}
    LastAt(rates, n - 1);
  }

  lemma LastAt<T>(s: seq<T>, n: nat)
    requires n <= |s|
    ensures |Last(s, n)| == n && forall i :: 0 <= i < n ==> Last(s, n)[i] == s[|s| - n + i]
  {}

  /** The last 29 returns of the bounded window are the returns of the last 30 prices of the whole history. */
  lemma LastReturns(all: seq<real>)
    requires |all| >= MIN_CORR_PRICES && Divisible(Last(all, HISTORY_SIZE))
    ensures RowFor(all, Last(Returns(Last(all, HISTORY_SIZE)), CORR_RETURNS))
  {
    var w := Last(all, HISTORY_SIZE);
    ReturnsOfTail(w, MIN_CORR_PRICES);
    var tail := all[|all| - MIN_CORR_PRICES..];
    assert w[|w| - MIN_CORR_PRICES..] == tail;
    ReturnsAreChanges(tail, Returns(tail));
  }

  /** The symbols with at least 30 prices, in order. */
  function WithData(symbols: seq<string>, history: map<string, seq<real>>): seq<string> {
    if symbols == [] then []
    else
      var n := |symbols| - 1;
      WithData(symbols[..n], history) +
      (if |Get(history, symbols[n])| >= MIN_CORR_PRICES then [symbols[n]] else [])
  }

  lemma {:induction false} WithDataMeans(symbols: seq<string>, history: map<string, seq<real>>)
    ensures forall s :: s in WithData(symbols, history) <==> s in symbols && |Get(history, s)| >= 30
    ensures Distinct(symbols) ==> Distinct(WithData(symbols, history))
  {
    if symbols != [] {
      var n := |symbols| - 1;
      assert symbols == symbols[..n] + [symbols[n]];
      WithDataMeans(symbols[..n], history);
    }
  }

  /** They keep their order. */
  lemma {:induction false} WithDataKeepsOrder(symbols: seq<string>, history: map<string, seq<real>>, i: nat, j: nat)
      returns (p: nat, q: nat)
    requires i < j < |WithData(symbols, history)|
    ensures p < q < |symbols|
    ensures symbols[p] == WithData(symbols, history)[i] && symbols[q] == WithData(symbols, history)[j]
  {
    var n := |symbols| - 1;
    var chosen := WithData(symbols[..n], history);
    if j < |chosen| {
      p, q := WithDataKeepsOrder(symbols[..n], history, i, j);
    } else {
      WithDataMeans(symbols[..n], history);
      assert chosen[i] in symbols[..n];
      p :| 0 <= p < n && symbols[..n][p] == chosen[i];
      q := n;
    }
  }

  function MinLength(rows: seq<seq<real>>): (m: nat)
    requires rows != []
    ensures forall i :: 0 <= i < |rows| ==> m <= |rows[i]|
    ensures exists i :: 0 <= i < |rows| && m == |rows[i]|
  {
    if |rows| == 1 then |rows[0]|
    else
      var rest := MinLength(rows[1..]);
      if |rows[0]| <= rest then |rows[0]| else rest
  }

  /** The last `n` returns of each row. */
  function Trimmed(rows: seq<seq<real>>, n: nat): seq<seq<real>> {
    seq(|rows|, i requires 0 <= i < |rows| => Last(rows[i], n))
  }

  /** Rows of equal length are not trimmed. */
  lemma EqualRowsAreKept(rows: seq<seq<real>>, n: nat)
    requires rows != [] && forall i :: 0 <= i < |rows| ==> |rows[i]| == n
    ensures MinLength(rows) == n && Trimmed(rows, n) == rows
  {}

  /** No window has a zero but at its end. */
  predicate AllDivisible(chosen: seq<string>, history: map<string, seq<real>>) {
    forall i :: 0 <= i < |chosen| ==> Divisible(Get(history, chosen[i]))
  }

  /** The last 29 returns of each window. */
  function RowsOf(chosen: seq<string>, history: map<string, seq<real>>): seq<seq<real>>
    requires forall i :: 0 <= i < |chosen| ==> Get(history, chosen[i]) != []
    requires AllDivisible(chosen, history)
  {
    seq(|chosen|, i requires 0 <= i < |chosen| => Last(Returns(Get(history, chosen[i])), CORR_RETURNS))
  }

  /** The same, or `None` if one of them divides by zero. */
  function WindowRows(chosen: seq<string>, history: map<string, seq<real>>): Option<seq<seq<real>>>
    requires forall i :: 0 <= i < |chosen| ==> Get(history, chosen[i]) != []
  {
    if AllDivisible(chosen, history) then Some(RowsOf(chosen, history)) else None
  }

  lemma RowsSnoc(chosen: seq<string>, history: map<string, seq<real>>, i: nat)
    requires (forall j :: 0 <= j < |chosen| ==> Get(history, chosen[j]) != []) && i < |chosen|
    requires AllDivisible(chosen[..i], history)
    ensures AllDivisible(chosen[..i + 1], history) <==> Divisible(Get(history, chosen[i]))
    ensures AllDivisible(chosen, history) ==> Divisible(Get(history, chosen[i]))
    ensures Divisible(Get(history, chosen[i])) ==>
      RowsOf(chosen[..i + 1], history)
      == RowsOf(chosen[..i], history) + [Last(Returns(Get(history, chosen[i])), CORR_RETURNS)]
  {
    assert forall j :: 0 <= j < i ==> chosen[..i + 1][j] == chosen[..i][j];
    assert chosen[..i + 1][i] == chosen[i];
  }

  /** Two symbols of 31 prices, the first of them zero: the 29 returns of each row could be computed, and still the rows
      are not. */
  lemma ZeroOutsideTheRows(prices: seq<real>, a: string, b: string)
    requires |prices| == 31 && prices[0] == 0.0 && (forall i :: 0 < i < 31 ==> prices[i] != 0.0) && a != b
    ensures var history := map[a := prices, b := prices];
      && WithData([a, b], history) == [a, b]
      && Divisible(prices[|prices| - 30..])
      && WindowRows([a, b], history) == None
  {
    var history := map[a := prices, b := prices];
    assert [a, b][..1] == [a] && [a][..0] == [];
    assert WithData([a], history) == WithData([], history) + [a];
    assert WithData([a, b], history) == WithData([a], history) + [b];
    assert [a, b][0] == a && !Divisible(Get(history, a));
  }

  method BuildRows(chosen: seq<string>, history: map<string, seq<real>>) returns (r: Result<seq<seq<real>>, Error>)
    requires forall i :: 0 <= i < |chosen| ==> Get(history, chosen[i]) != []
    ensures match WindowRows(chosen, history)
      case None => r == Err(ZeroDivision)
      case Some(rows) => r == Ok(rows)
  {
    var rows: seq<seq<real>> := [];
    for i := 0 to |chosen|
      invariant AllDivisible(chosen[..i], history) && rows == RowsOf(chosen[..i], history)
    {
      var prices := Get(history, chosen[i]);
      var rates := ComputeReturns(prices);
      RowsSnoc(chosen, history, i);
      if rates.Err? {
        assert !Divisible(prices);
        return Err(rates.error);
      }
      rows := rows + [Last(rates.value, CORR_RETURNS)];
    }
    assert chosen[..|chosen|] == chosen;
    r := Ok(rows);
  }

  // ----- the engine ----------------------------------------------------------------------------

  /** The deques, the latest prices and the key order all reflect the prices given so far. */
  ghost predicate Reflects(
    symbols: seq<string>, history: map<string, seq<real>>, latest: map<string, real>, prices: map<string, seq<real>>)
  {
    && Distinct(symbols)
    && (forall s :: s in symbols <==> s in prices)
    && history.Keys == prices.Keys && latest.Keys == prices.Keys
    && forall s :: s in prices ==>
         prices[s] != [] && history[s] == Last(prices[s], 200) && latest[s] == prices[s][|prices[s]| - 1]
  }

  lemma ReflectsStep(
    symbols: seq<string>, history: map<string, seq<real>>, latest: map<string, real>, prices: map<string, seq<real>>,
    symbol: string, price: real)
    requires Reflects(symbols, history, latest, prices)
    ensures Reflects(
      if symbol in history then symbols else symbols + [symbol],
      history[symbol := Push(Get(history, symbol), price, HISTORY_SIZE)],
      latest[symbol := price],
      prices[symbol := Get(prices, symbol) + [price]])
  {
    PushKeepsLast(Get(prices, symbol), price, HISTORY_SIZE);
  }

  /** Row `i` is that of symbol `i`. */
  ghost predicate RowsFor(chosen: seq<string>, prices: map<string, seq<real>>, rows: seq<seq<real>>) {
    |rows| == |chosen| && forall i :: 0 <= i < |chosen| ==> RowFor(Get(prices, chosen[i]), rows[i])
  }

  /** The windows' rows are the last 29 returns of the whole histories. */
  lemma RowsReachBack(
    chosen: seq<string>, symbols: seq<string>, history: map<string, seq<real>>, latest: map<string, real>,
    prices: map<string, seq<real>>)
    requires Reflects(symbols, history, latest, prices)
    requires forall s :: s in chosen ==> |Get(history, s)| >= MIN_CORR_PRICES
    ensures match WindowRows(chosen, history)
      case None => true
      case Some(rows) =>
        && RowsFor(chosen, prices, rows)
        && forall i :: 0 <= i < |rows| ==> |rows[i]| == CORR_RETURNS
  {
    if WindowRows(chosen, history).Some? {
      forall i | 0 <= i < |chosen|
        ensures RowFor(Get(prices, chosen[i]), Last(Returns(Get(history, chosen[i])), CORR_RETURNS))
      {
        assert chosen[i] in chosen;
        LastReturns(Get(prices, chosen[i]));
      }
    }
  }

  lemma Overwrite<K, V>(m: map<K, V>, key: K, first: V, second: V)
    ensures m[key := first][key := second] == m[key := second]
  {}

  class RiskEngine {
    var symbols: seq<string>                  // the keys of the price history, oldest first
    var history: map<string, seq<real>>
    var latest: map<string, real>
    var var95: map<string, real>
    ghost var prices: map<string, seq<real>>  // every price given so far

    ghost predicate Valid()
      reads this
    {
      Reflects(symbols, history, latest, prices)
    }

    constructor ()
      ensures Valid() && prices == map[]
    {
      symbols, history, latest, var95, prices := [], map[], map[], map[], map[];
    }

    method UpdatePriceHistory(symbol: string, price: real)
      requires Valid()
      modifies this`symbols, this`history, this`latest, this`prices
      ensures Valid()
      ensures prices == old(prices)[symbol := Get(old(prices), symbol) + [price]]
      ensures symbols == if symbol in old(history) then old(symbols) else old(symbols) + [symbol]
    {
      ReflectsStep(symbols, history, latest, prices, symbol, price);
      Overwrite(history, symbol, [], Push(Get(history, symbol), price, HISTORY_SIZE));
      if symbol !in history {
        symbols, history := symbols + [symbol], history[symbol := []];
      }
      history := history[symbol := Push(history[symbol], price, HISTORY_SIZE)];
      latest := latest[symbol := price];
      prices := prices[symbol := Get(prices, symbol) + [price]];
    }

    /** A failing symbol fails the whole call and leaves the old results. */
    method ComputeVar(confidence: real) returns (r: Result<map<string, real>, Error>)
      requires Valid()
      modifies this`var95
      ensures r == VarResults(symbols, history, confidence)
      ensures var95 == if r.Ok? then r.value else old(var95)
    {
      var values: map<string, real> := map[];
      for i := 0 to |symbols|
        invariant VarResults(symbols[..i], history, confidence) == Ok(values)
        invariant var95 == old(var95)
      {
        var hist := Get(history, symbols[i]);
        assert symbols[..i + 1][..i] == symbols[..i];
        if |hist| < MIN_VAR_PRICES {
          continue;
        }
        var v := ComputeVarOf(hist, confidence);
        if v.Err? {
          VarFailureSticks(symbols, history, confidence, i + 1);
          return Err(v.error);
        }
        values := values[symbols[i] := v.value];
      }
      assert symbols[..|symbols|] == symbols;
      var95 := values;
      r := Ok(values);
    }

    /** The symbols and rows given to the correlation: for each symbol with enough prices, in the order of the
        history, the last 29 returns of its whole price history. Nothing is computed for fewer than two symbols, and a
        zero anywhere in a window but at its end fails the call, even one that the 29 returns do not reach. */
    method CorrelationRows() returns (r: Result<Option<(seq<string>, seq<seq<real>>)>, Error>)
      requires Valid()
      ensures var chosen := WithData(symbols, history);
        if |chosen| < 2 then r == Ok(None)
        else if !AllDivisible(chosen, history) then r == Err(ZeroDivision)
        else
          && r.Ok? && r.value.Some? && r.value.value.0 == chosen
          && RowsFor(chosen, prices, r.value.value.1)
    {
      var chosen := WithData(symbols, history);
      WithDataMeans(symbols, history);
      if |chosen| < 2 {
        return Ok(None);
      }
      var built := BuildRows(chosen, history);
      if built.Err? {
        return Err(built.error);
      }
      var rows := built.value;
      RowsReachBack(chosen, symbols, history, latest, prices);
      EqualRowsAreKept(rows, CORR_RETURNS);
      var minLen := MinLength(rows);
      if minLen < 10 {
        assert false;
      }
      r := Ok(Some((chosen, Trimmed(rows, minLen))));
    }
  }
}
