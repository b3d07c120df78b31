/** The moving-average crossover of the trading demo (examples/python-demo/trading_signals.py), with prices and
    averages in exact arithmetic. The demo keeps a bounded window of prices for each symbol; the signals are stated
    of the whole history. */
module Signals {
  import opened Common

  const MA_SHORT: nat := 10
  const MA_LONG: nat := 30
  const HISTORY: nat := MA_LONG + 5

  datatype Signal = Buy | Sell | Hold {
    function Opposite(): Signal {
      match this
      case Buy => Sell
      case Sell => Buy
      case Hold => Hold
    }
  }

  function SumTo(s: seq<real>, k: nat): real
    requires k <= |s|
  {
    if k == 0 then 0.0 else SumTo(s, k - 1) + s[k - 1]
  }

  function Sum(s: seq<real>): real {
    SumTo(s, |s|)
  }

  // ----- the signal, from the whole price history ----------------------------------------------

  function Average(prices: seq<real>, n: nat): real
    requires 0 < n <= |prices|
  {
    Sum(prices[|prices| - n..]) / n as real
  }

  /** Short minus long average. */
  function Gap(prices: seq<real>): real
    requires |prices| >= MA_LONG
  {
    Average(prices, MA_SHORT) - Average(prices, MA_LONG)
  }

  /** The signal at the last price: nothing while the long average is undefined, and otherwise a crossing of the two
      averages between the previous price and this one. */
  function SignalAt(prices: seq<real>): Option<Signal> {
    if |prices| < MA_LONG then None
    else if |prices| == MA_LONG then Some(Hold)
    else
      var before, now := Gap(prices[..|prices| - 1]), Gap(prices);
      if before <= 0.0 && now > 0.0 then Some(Buy)
      else if before >= 0.0 && now < 0.0 then Some(Sell)
      else Some(Hold)
  }

  // ----- the signal as the code computes it ----------------------------------------------------

  class SignalEngine {
    var history: map<string, seq<real>>
    ghost var prices: map<string, seq<real>>   // every price given so far

    /** Each deque holds the end of its symbol's price history. */
    ghost predicate Valid()
      reads this
    {
      && history.Keys == prices.Keys
      && forall s :: s in history ==> history[s] == Last(prices[s], 35)
    }

    ghost function PricesOf(symbol: string): seq<real>
      reads this
    {
      Get(prices, symbol)
    }

    constructor ()
      ensures Valid() && prices == map[]
    {
      history, prices := map[], map[];
    }

    /** The answer depends on the symbol's own prices alone, all of them, and no other symbol's history changes. */
    method ComputeSignal(symbol: string, price: real) returns (r: Option<Signal>)
      requires Valid()
      modifies this
      ensures Valid()
      ensures prices == old(prices)[symbol := old(PricesOf(symbol)) + [price]]
      ensures r == SignalAt(PricesOf(symbol))
      ensures forall s :: s != symbol ==> (s in history <==> s in old(history))
      ensures forall s :: s != symbol && s in history ==> history[s] == old(history)[s]
    {
      ghost var before := PricesOf(symbol);
      PushKeepsLast(before, price, 35);
      if symbol !in history {
        history := history[symbol := []];
      }
      history := history[symbol := Push(history[symbol], price, HISTORY)];
      prices := prices[symbol := before + [price]];
      WindowSignalIsSignalAt(before + [price]);
      r := WindowSignal(history[symbol]);
    }
  }

  function Crossover(prevShort: real, prevLong: real, short: real, long: real): Signal {
    if prevShort <= prevLong && short > long then Buy
    else if prevShort >= prevLong && short < long then Sell
    else Hold
  }

  /** The decision over the deque's contents. */
  function WindowSignal(hist: seq<real>): Option<Signal> {
    var n := |hist|;
    if n < MA_LONG then None
    else if n == MA_LONG then Some(Hold)
    else
      Some(Crossover(
        Sum(hist[n - (MA_SHORT + 1)..n - 1]) / MA_SHORT as real,
        Sum(hist[n - (MA_LONG + 1)..n - 1]) / MA_LONG as real,
        Sum(hist[n - MA_SHORT..]) / MA_SHORT as real,
        Sum(hist[n - MA_LONG..]) / MA_LONG as real))
  }

  /** A sum grows by what is appended. */
  lemma SumSnoc(s: seq<real>, x: real)
    ensures Sum([]) == 0.0 && Sum(s + [x]) == Sum(s) + x
  {
    SumOfPrefix(s, [x], |s|);
  }

  lemma {:induction false} SumOfPrefix(s: seq<real>, more: seq<real>, k: nat)
    requires k <= |s|
    ensures SumTo(s + more, k) == SumTo(s, k)
  {
    if k > 0 {
      SumOfPrefix(s, more, k - 1);
    }
  }

  /** What the signal is, in prices alone: none before the thirtieth; a crossing if ten prices outweigh thirty now,
      three to one, and did not one price earlier, or the other way round; otherwise to hold. */
  lemma SignalMeans(prices: seq<real>)
    ensures SignalAt(prices).None? <==> |prices| < 30
    ensures var n := |prices|;
      var rises := n > 30 && 3.0 * Sum(prices[n - 11..n - 1]) <= Sum(prices[n - 31..n - 1])
                   && 3.0 * Sum(prices[n - 10..]) > Sum(prices[n - 30..]);
      var falls := n > 30 && 3.0 * Sum(prices[n - 11..n - 1]) >= Sum(prices[n - 31..n - 1])
                   && 3.0 * Sum(prices[n - 10..]) < Sum(prices[n - 30..]);
      && (SignalAt(prices) == Some(Buy) <==> rises)
      && (SignalAt(prices) == Some(Sell) <==> falls)
  {
    var n := |prices|;
    if n > 30 {
      var init := prices[..n - 1];
      assert init[n - 11..] == prices[n - 11..n - 1] && init[n - 31..] == prices[n - 31..n - 1];
      SidesAre(init);
      SidesAre(prices);
    }
  }

  /** On which side the averages are, in sums. */
  lemma SidesAre(prices: seq<real>)
    requires |prices| >= 30
    ensures var n := |prices|;
      Gap(prices) == (3.0 * Sum(prices[n - 10..]) - Sum(prices[n - 30..])) / 30.0
  {}

  lemma SignalIsCrossover(all: seq<real>)
    requires |all| > MA_LONG
    ensures var init := all[..|all| - 1];
      SignalAt(all) == Some(Crossover(Average(init, MA_SHORT), Average(init, MA_LONG),
                                      Average(all, MA_SHORT), Average(all, MA_LONG)))
  {
    var init := all[..|all| - 1];
    assert Gap(init) <= 0.0 <==> Average(init, MA_SHORT) <= Average(init, MA_LONG);
    assert Gap(all) > 0.0 <==> Average(all, MA_SHORT) > Average(all, MA_LONG);
  }

  /** The bounded window is enough: its signal is that of the whole history. */
  lemma WindowSignalIsSignalAt(all: seq<real>)
    ensures WindowSignal(Last(all, HISTORY)) == SignalAt(all)
  {
    if |all| >= MA_LONG {
      WindowAverages(all);
      if |all| > MA_LONG {
        SignalIsCrossover(all);
      }
    }
  }

  /** The window ends as the whole history does. */
  lemma WindowSlices(all: seq<real>)
    requires |all| >= 30
    ensures var w := Last(all, 35);
      var n, m := |w|, |all|;
      && n >= 30 && (n > 30 <==> m > 30)
      && w[n - 10..] == all[m - 10..] && w[n - 30..] == all[m - 30..]
      && (n > 30 ==> w[n - 11..n - 1] == all[..m - 1][m - 11..] && w[n - 31..n - 1] == all[..m - 1][m - 31..])
  {}

  /** The averages over slices of the bounded window are those of the whole history, now and one price earlier. */
  lemma WindowAverages(all: seq<real>)
    requires |all| >= MA_LONG
    ensures var w := Last(all, HISTORY);
      var n := |w|;
      && n >= MA_LONG && (n > MA_LONG <==> |all| > MA_LONG)
      && Sum(w[n - MA_SHORT..]) / MA_SHORT as real == Average(all, MA_SHORT)
      && Sum(w[n - MA_LONG..]) / MA_LONG as real == Average(all, MA_LONG)
      && (n > MA_LONG ==>
            && Sum(w[n - (MA_SHORT + 1)..n - 1]) / MA_SHORT as real == Average(all[..|all| - 1], MA_SHORT)
            && Sum(w[n - (MA_LONG + 1)..n - 1]) / MA_LONG as real == Average(all[..|all| - 1], MA_LONG))
  {
    WindowSlices(all);
  }

  // ----- a stream of trades --------------------------------------------------------------------

  datatype Trade = Trade(symbol: string, price: real)

  function PricesIn(trades: seq<Trade>, symbol: string): seq<real> {
    if trades == [] then []
    else
      var last := trades[|trades| - 1];
      PricesIn(trades[..|trades| - 1], symbol) + (if last.symbol == symbol then [last.price] else [])
  }

  /** The signal of the last trade of a stream, from the trades of its own symbol. */
  function TradeSignal(trades: seq<Trade>): Option<Signal>
    requires trades != []
  {
    SignalAt(PricesIn(trades, trades[|trades| - 1].symbol))
  }

  datatype Logged = Logged(symbol: string, signal: Signal, price: real)

  /** What the log receives for a stream of trades: every trade that crossed, in order. */
  function LogOf(trades: seq<Trade>): seq<Logged> {
    if trades == [] then []
    else
      var last := trades[|trades| - 1];
      LogOf(trades[..|trades| - 1]) +
      (match TradeSignal(trades)
       case None => []
       case Some(Hold) => []
       case Some(signal) => [Logged(last.symbol, signal, last.price)])
  }

  /** What the log receives for trade `i`. */
  function Entry(trades: seq<Trade>, i: nat): seq<Logged>
    requires i < |trades|
  {
    var signal := TradeSignal(trades[..i + 1]);
    if signal.Some? && signal.value != Hold then [Logged(trades[i].symbol, signal.value, trades[i].price)] else []
  }

  lemma LogStep(trades: seq<Trade>, i: nat)
    requires i < |trades|
    ensures LogOf(trades[..i + 1]) == LogOf(trades[..i]) + Entry(trades, i)
  {
    assert trades[..i + 1][..i] == trades[..i];
  }

  /** Entry by entry: a trade adds its symbol, its signal and its price if its symbol's own prices cross with it, and
      nothing otherwise. */
  lemma LoggedExactly(trades: seq<Trade>, i: nat)
    requires i < |trades|
    ensures var t := trades[i];
      var signal := SignalAt(PricesIn(trades[..i + 1], t.symbol));
      LogOf(trades[..i + 1]) == LogOf(trades[..i])
        + (if signal == Some(Buy) then [Logged(t.symbol, Buy, t.price)]
           else if signal == Some(Sell) then [Logged(t.symbol, Sell, t.price)] else [])
  {
    LogStep(trades, i);
  }

  ghost predicate Tracks(prices: map<string, seq<real>>, trades: seq<Trade>) {
    forall s :: Get(prices, s) == PricesIn(trades, s)
  }

  lemma TracksStep(prices: map<string, seq<real>>, trades: seq<Trade>, i: nat)
    requires i < |trades| && Tracks(prices, trades[..i])
    ensures var t := trades[i];
      var prices' := prices[t.symbol := Get(prices, t.symbol) + [t.price]];
      && Tracks(prices', trades[..i + 1])
      && SignalAt(Get(prices', t.symbol)) == TradeSignal(trades[..i + 1])
  {
    var t := trades[i];
    assert trades[..i + 1][..i] == trades[..i];
    var prices' := prices[t.symbol := Get(prices, t.symbol) + [t.price]];
    forall s ensures Get(prices', s) == PricesIn(trades[..i + 1], s) {
      assert Get(prices, s) == PricesIn(trades[..i], s);
    }
  }

  /** The handler of the trade stream, on a fresh engine: whatever symbols are interleaved, it logs what each symbol's
      own prices call for. */
  method OnActiveTrades(engine: SignalEngine, trades: seq<Trade>) returns (log: seq<Logged>)
    requires engine.Valid() && engine.prices == map[]
    modifies engine
    ensures log == LogOf(trades)
    ensures engine.Valid() && Tracks(engine.prices, trades)
  {
    log := [];
    for i := 0 to |trades|
      invariant engine.Valid()
      invariant Tracks(engine.prices, trades[..i])
      invariant log == LogOf(trades[..i])
    {
      var t := trades[i];
      TracksStep(engine.prices, trades, i);
      LogStep(trades, i);
      var signal := engine.ComputeSignal(t.symbol, t.price);
      if signal.Some? && signal.value != Hold {
        log := log + [Logged(t.symbol, signal.value, t.price)];
      }
    }
    assert trades[..|trades|] == trades;
  }

  // ----- alternation ---------------------------------------------------------------------------

  /** The averages are on the side the signal announces. */
  predicate OnSide(prices: seq<real>, signal: Signal)
    requires |prices| >= MA_LONG
  {
    match signal
    case Buy => Gap(prices) > 0.0
    case Sell => Gap(prices) < 0.0
    case Hold => Gap(prices) == 0.0
  }

  /** Without the opposite signal in between the averages stay on the signal's side, or level. */
  lemma {:induction false} StaysOnSide(prices: seq<real>, i: nat, k: nat, signal: Signal)
    requires i <= k <= |prices| && signal != Hold
    requires SignalAt(prices[..i]) == Some(signal)
    requires forall m :: i < m <= k ==> SignalAt(prices[..m]) != Some(signal.Opposite())
    ensures i > MA_LONG && !OnSide(prices[..k], signal.Opposite())
  {
    if i < k {
      StaysOnSide(prices, i, k - 1, signal);
      assert prices[..k][..k - 1] == prices[..k - 1];
    }
  }

  /** The next signal is the same again if and only if the averages were exactly level just before it and leave that
      level on the side they came from; in between they were never on the other side. */
  lemma RepeatedSignalIff(prices: seq<real>, i: nat, j: nat, signal: Signal)
    requires i < j <= |prices| && signal != Hold
    requires SignalAt(prices[..i]) == Some(signal)
    requires forall m :: i < m < j ==> SignalAt(prices[..m]) != Some(signal.Opposite())
    ensures i > MA_LONG && forall k :: i <= k < j ==> !OnSide(prices[..k], signal.Opposite())
    ensures SignalAt(prices[..j]) == Some(signal)
      <==> i < j - 1 && OnSide(prices[..j - 1], Hold) && OnSide(prices[..j], signal)
  {
    forall k | i <= k < j ensures i > MA_LONG && !OnSide(prices[..k], signal.Opposite()) {
      StaysOnSide(prices, i, k, signal);
    }
    assert prices[..j][..j - 1] == prices[..j - 1];
    assert OnSide(prices[..i], signal);
  }

  // ----- when a whole history alternates -------------------------------------------------------

  /** The same signal twice with no opposite one in between. */
  ghost predicate Repeated(prices: seq<real>, i: nat, j: nat, signal: Signal) {
    && i < j <= |prices| && Signals(prices, i, signal) && Signals(prices, j, signal)
    && forall m :: i < m < j ==> !Signals(prices, m, signal.Opposite())
  }

  /** Buys and sells alternate strictly. */
  ghost predicate Alternates(prices: seq<real>) {
    forall i, j, signal :: !Repeated(prices, i, j, signal)
  }

  /** A buy or a sell after the first `i` prices. */
  predicate Signals(prices: seq<real>, i: nat, signal: Signal)
    requires i <= |prices|
  {
    signal != Hold && SignalAt(prices[..i]) == Some(signal)
  }

  /** After the first `k` prices the averages are on the signal's side. */
  predicate Side(prices: seq<real>, k: nat, signal: Signal) {
    MA_LONG <= k <= |prices| && OnSide(prices[..k], signal)
  }

  /** A level stretch, after `a` and before `b`, entered from a side and left on it, the averages having been off that
      side at some time `k` before. */
  ghost predicate Bounce(prices: seq<real>, k: nat, a: nat, b: nat, signal: Signal) {
    && signal != Hold && MA_LONG <= k < a && a + 1 < b <= |prices|
    && !Side(prices, k, signal) && Side(prices, a, signal) && Side(prices, b, signal)
    && forall m :: a < m < b ==> Side(prices, m, Hold)
  }

  ghost predicate Bounces(prices: seq<real>) {
    exists k, a, b, signal :: Bounce(prices, k, a, b, signal)
  }

  lemma SignalSides(prices: seq<real>, i: nat, signal: Signal)
    requires i <= |prices| && signal != Hold
    ensures Signals(prices, i, signal) <==> i > MA_LONG && !Side(prices, i - 1, signal) && Side(prices, i, signal)
  {
    if i > MA_LONG {
      assert prices[..i][..i - 1] == prices[..i - 1];
    }
  }

  /** Coming from off a side to it, the averages cross over. */
  lemma {:induction false} Crossed(prices: seq<real>, k: nat, a: nat, signal: Signal) returns (i: nat)
    requires signal != Hold && MA_LONG <= k < a && !Side(prices, k, signal) && Side(prices, a, signal)
    ensures k < i <= a && Signals(prices, i, signal)
    ensures forall m :: i <= m <= a ==> Side(prices, m, signal)
    decreases a - k
  {
    if Side(prices, a - 1, signal) {
      i := Crossed(prices, k, a - 1, signal);
    } else {
      i := a;
      SignalSides(prices, a, signal);
    }
  }

  /** Where the averages last were not level. */
  lemma {:induction false} LastOffLevel(prices: seq<real>, i: nat, j: nat) returns (a: nat)
    requires MA_LONG <= i <= j <= |prices| && !Side(prices, i, Hold)
    ensures i <= a <= j && !Side(prices, a, Hold) && forall m :: a < m <= j ==> Side(prices, m, Hold)
    decreases j - i
  {
    if i < j && Side(prices, j, Hold) {
      a := LastOffLevel(prices, i, j - 1);
    } else {
      a := j;
    }
  }

  /** A bounce repeats the signal: the crossing before it, and the leaving of the level. */
  lemma BounceRepeats(prices: seq<real>, k: nat, a: nat, b: nat, signal: Signal)
    requires Bounce(prices, k, a, b, signal)
    ensures !Alternates(prices)
  {
    var i := Crossed(prices, k, a, signal);
    assert Side(prices, b - 1, Hold);
    SignalSides(prices, b, signal);
    forall m | i < m < b ensures !Signals(prices, m, signal.Opposite()) {
      SignalSides(prices, m, signal.Opposite());
      assert m <= a ==> Side(prices, m, signal);
      assert m > a ==> Side(prices, m, Hold);
    }
    assert Repeated(prices, i, b, signal);
  }

  /** A repeated signal comes of a bounce. */
  lemma RepeatBounces(prices: seq<real>, i: nat, j: nat, signal: Signal)
    requires Repeated(prices, i, j, signal)
    ensures Bounces(prices)
  {
    assert signal.Opposite() != Hold;
    forall m | i < m < j ensures SignalAt(prices[..m]) != Some(signal.Opposite()) {
      assert !Signals(prices, m, signal.Opposite());
    }
    RepeatedSignalIff(prices, i, j, signal);
    SignalSides(prices, i, signal);
    SignalSides(prices, j, signal);
    var a := LastOffLevel(prices, i, j - 1);
    assert Side(prices, j - 1, Hold);
    assert !OnSide(prices[..a], signal.Opposite());
    assert Side(prices, a, signal);
    assert Bounce(prices, i - 1, a, j, signal);
  }

  /** Buys and sells of a whole history alternate strictly if and only if no level stretch is left on the side it was
      entered from, once the averages have been off that side. */
  lemma AlternatesIff(prices: seq<real>)
    ensures Alternates(prices) <==> !Bounces(prices)
  {
    if k: nat, a: nat, b: nat, signal :| Bounce(prices, k, a, b, signal) {
      BounceRepeats(prices, k, a, b, signal);
    } else if i: nat, j: nat, signal :| Repeated(prices, i, j, signal) {
      RepeatBounces(prices, i, j, signal);
    }
  }

  ghost predicate NoTies(prices: seq<real>) {
    forall k :: MA_LONG <= k <= |prices| ==> Gap(prices[..k]) != 0.0
  }

  lemma BounceHasTie(prices: seq<real>, k: nat, a: nat, b: nat, signal: Signal)
    requires NoTies(prices)
    ensures !Bounce(prices, k, a, b, signal)
  {
    assert a + 1 <= |prices| ==> !Side(prices, a + 1, Hold);
  }

  /** In particular, without exact ties buys and sells alternate strictly. */
  lemma NoTiesAlternate(prices: seq<real>)
    requires NoTies(prices)
    ensures Alternates(prices)
  {
    forall k: nat, a: nat, b: nat, signal ensures !Bounce(prices, k, a, b, signal) {
      BounceHasTie(prices, k, a, b, signal);
    }
    AlternatesIff(prices);
  }

  function Ones(n: nat): seq<real> {
    seq(n, _ => 1.0)
  }

  lemma {:induction false} SumAfterOnes(n: nat, more: seq<real>, k: nat)
    requires k <= |more|
    ensures SumTo(Ones(n) + more, n + k) == n as real + SumTo(more, k)
  {
    if k > 0 {
      SumAfterOnes(n, more, k - 1);
    } else {
      SumOnes(n, more, n);
    }
  }

  lemma {:induction false} SumOnes(n: nat, more: seq<real>, k: nat)
    requires k <= n
    ensures SumTo(Ones(n) + more, k) == k as real
  {
    if k > 0 {
      SumOnes(n, more, k - 1);
    }
  }

  /** An average over thirty flat prices and a few more. */
  lemma AverageAfterOnes(more: seq<real>, n: nat)
    requires |more| <= n <= MA_LONG && n > 0
    ensures Average(Ones(MA_LONG) + more, n) == ((n - |more|) as real + Sum(more)) / n as real
  {
    var prices := Ones(MA_LONG) + more;
    assert prices[|prices| - n..] == Ones(n - |more|) + more;
    SumAfterOnes(n - |more|, more, |more|);
  }

  lemma GapAfterOnes(more: seq<real>)
    requires |more| <= MA_SHORT
    ensures Gap(Ones(MA_LONG) + more)
         == ((MA_SHORT - |more|) as real + Sum(more)) / 10.0 - ((MA_LONG - |more|) as real + Sum(more)) / 30.0
  {
    AverageAfterOnes(more, MA_SHORT);
    AverageAfterOnes(more, MA_LONG);
  }

  /** Ties do break alternation: thirty flat prices, a rise, a fall that levels the averages and a rise give two buys
      with no sell between them. */
  lemma TieBreaksAlternation()
    ensures var flat := Ones(MA_LONG);
      && SignalAt(flat + [2.0]) == Some(Buy)
      && SignalAt(flat + [2.0, 0.0]) == Some(Hold)
      && SignalAt(flat + [2.0, 0.0, 2.0]) == Some(Buy)
  {
    var flat := Ones(MA_LONG);
    assert (flat + [2.0])[..30] == flat + [] && (flat + [2.0, 0.0])[..31] == flat + [2.0];
    assert (flat + [2.0, 0.0, 2.0])[..32] == flat + [2.0, 0.0];
    GapAfterOnes([]);
    GapAfterOnes([2.0]);
    GapAfterOnes([2.0, 0.0]);
    GapAfterOnes([2.0, 0.0, 2.0]);
    ExampleSums();
  }

  /** So that series does not alternate. */
  lemma TieExampleDoesNotAlternate()
    ensures !Alternates(Ones(MA_LONG) + [2.0, 0.0, 2.0])
  {
    var flat, all := Ones(MA_LONG), Ones(MA_LONG) + [2.0, 0.0, 2.0];
    TieBreaksAlternation();
    assert all[..31] == flat + [2.0] && all[..32] == flat + [2.0, 0.0] && all[..33] == all;
    assert Signals(all, 31, Buy) && !Signals(all, 32, Sell) && Signals(all, 33, Buy);
    assert Repeated(all, 31, 33, Buy);
  }

  lemma ExampleSums()
    ensures Sum([]) == 0.0 && Sum([2.0]) == 2.0 && Sum([2.0, 0.0]) == 2.0 && Sum([2.0, 0.0, 2.0]) == 4.0
  {
    var s := [2.0, 0.0, 2.0];
    assert SumTo(s, 1) == SumTo(s, 0) + 2.0;
    assert SumTo(s, 2) == SumTo(s, 1) + 0.0;
  }
}
