// Slippage-stressed trade metrics, the project score and the per-target gates of
// the strategy research run.

module StressMetrics {
  import opened Util
  import opened Numbers

  const STARTING_BALANCE := 1000.0

  /** One backtest trade; absent or null numbers have already become 0.0. */
  datatype Trade = Trade(
    openedAt: Option<int>, closedAt: int, stake: real, profitRatio: real, profitAbs: real)

  datatype Metrics = Metrics(
    totalTrades: nat, profitPct: real, profitAbs: real, maxDrawdownPct: real, winRate: real)

  /** The limits of the research contract. */
  datatype Policy = Policy(
    minTrades: nat, maxDrawdown: real, minScore: real,
    maxSimilarity: real, maxCorrelation: real)

  // ---------------------------------------------------------------- ordering

  /** Insert after every trade that does not close later: a stable sort step. */
  function InsertByClose(x: Trade, s: seq<Trade>): (r: seq<Trade>)
    ensures multiset(r) == multiset(s) + multiset{x}
  {
    if s == [] || s[|s| - 1].closedAt <= x.closedAt then
      s + [x]
    else
      assert s == s[..|s| - 1] + [s[|s| - 1]];
      InsertByClose(x, s[..|s| - 1]) + [s[|s| - 1]]
  }

  /** `sorted(trades, key=close_timestamp)`. */
  function SortByClose(s: seq<Trade>): (r: seq<Trade>)
    ensures multiset(r) == multiset(s)
    ensures |r| == |s|
  {
    if s == [] then
      []
    else
      assert s == s[..|s| - 1] + [s[|s| - 1]];
      var r := InsertByClose(s[|s| - 1], SortByClose(s[..|s| - 1]));
      assert |r| == |multiset(r)| == |multiset(s)| == |s|;
      r
  }

  ghost predicate OrderedByClose(s: seq<Trade>) {
    forall i, j :: 0 <= i < j < |s| ==> s[i].closedAt <= s[j].closedAt
  }

  /** Trades closing at the same time are the same trade. */
  ghost predicate DistinctCloses(m: multiset<Trade>) {
    forall x, y :: x in m && y in m && x.closedAt == y.closedAt ==> x == y
  }

  lemma {:induction false} InsertKeepsOrder(x: Trade, s: seq<Trade>)
    requires OrderedByClose(s)
    ensures OrderedByClose(InsertByClose(x, s))
  {
    if s == [] || s[|s| - 1].closedAt <= x.closedAt {
    } else {
      var front := s[..|s| - 1];
      InsertKeepsOrder(x, front);
      var r := InsertByClose(x, front);
      forall t | t in r
        ensures t.closedAt <= s[|s| - 1].closedAt
      {
        assert t in multiset(r);
        assert t in multiset(front) || t == x;
      }
    }
  }

  lemma {:induction false} SortOrders(s: seq<Trade>)
    ensures OrderedByClose(SortByClose(s))
  {
    if s != [] {
      SortOrders(s[..|s| - 1]);
      InsertKeepsOrder(s[|s| - 1], SortByClose(s[..|s| - 1]));
    }
  }

  /** The trades closing at one time, in list order. */
  function ClosingAt(s: seq<Trade>, time: int): seq<Trade> {
    if s == [] then []
    else ClosingAt(s[..|s| - 1], time) + if s[|s| - 1].closedAt == time then [s[|s| - 1]] else []
  }

  lemma {:induction false} InsertIsStable(x: Trade, s: seq<Trade>, time: int)
    ensures ClosingAt(InsertByClose(x, s), time) == ClosingAt(s, time) + if x.closedAt == time then [x] else []
  {
    if s == [] || s[|s| - 1].closedAt <= x.closedAt {
      assert (s + [x])[..|s|] == s;
    } else {
      var r := InsertByClose(x, s[..|s| - 1]);
      InsertIsStable(x, s[..|s| - 1], time);
      assert (r + [s[|s| - 1]])[..|r|] == r;
    }
  }

  /** Trades closing at the same time keep their order. */
  lemma {:induction false} SortIsStable(s: seq<Trade>, time: int)
    ensures ClosingAt(SortByClose(s), time) == ClosingAt(s, time)
  {
    if s != [] {
      SortIsStable(s[..|s| - 1], time);
      InsertIsStable(s[|s| - 1], SortByClose(s[..|s| - 1]), time);
    }
  }

  lemma LastClosesLatest(a: seq<Trade>, x: Trade)
    requires OrderedByClose(a) && a != [] && x in multiset(a)
    ensures x.closedAt <= a[|a| - 1].closedAt
  {
    var i :| 0 <= i < |a| && a[i] == x;
  }

  lemma MultisetOfInit(a: seq<Trade>)
    requires a != []
    ensures multiset(a) == multiset(a[..|a| - 1]) + multiset{a[|a| - 1]}
  {
    assert a == a[..|a| - 1] + [a[|a| - 1]];
  }

  lemma LastAgrees(a: seq<Trade>, b: seq<Trade>)
    requires a != [] && b != [] && OrderedByClose(a) && OrderedByClose(b)
    requires multiset(a) == multiset(b) && DistinctCloses(multiset(a))
    ensures a[|a| - 1] == b[|b| - 1]
  {
    var x, y := a[|a| - 1], b[|b| - 1];
    MultisetOfInit(a);
    MultisetOfInit(b);
    assert x in multiset(a) && y in multiset(b);
    LastClosesLatest(a, y);
    LastClosesLatest(b, x);
  }

  lemma FewerTradesStayDistinct(m: multiset<Trade>, x: Trade)
    requires DistinctCloses(m + multiset{x})
    ensures DistinctCloses(m)
  {
    forall y, z | y in m && z in m && y.closedAt == z.closedAt
      ensures y == z
    {
      assert y in m + multiset{x} && z in m + multiset{x};
    }
  }

  lemma CancelLast(m: multiset<Trade>, n: multiset<Trade>, x: Trade)
    requires m + multiset{x} == n + multiset{x}
    ensures m == n
  {
    assert m == m + multiset{x} - multiset{x};
    assert n == n + multiset{x} - multiset{x};
  }

  /** Ordered lists with the same trades, closing at distinct times, are equal. */
  lemma {:induction false} OrderedUnique(a: seq<Trade>, b: seq<Trade>)
    requires OrderedByClose(a) && OrderedByClose(b)
    requires multiset(a) == multiset(b) && DistinctCloses(multiset(a))
    ensures a == b
  {
    hide DistinctCloses, OrderedByClose;
    if a == [] || b == [] {
      assert |multiset(a)| == |a| && |multiset(b)| == |b|;
    } else {
      var a', b', x := a[..|a| - 1], b[..|b| - 1], a[|a| - 1];
      DropLast(a, b);
      OrderedUnique(a', b');
      assert a == a' + [x] && b == b' + [x];
    }
  }

  lemma DropLast(a: seq<Trade>, b: seq<Trade>)
    requires a != [] && b != [] && OrderedByClose(a) && OrderedByClose(b)
    requires multiset(a) == multiset(b) && DistinctCloses(multiset(a))
    ensures a[|a| - 1] == b[|b| - 1]
    ensures OrderedByClose(a[..|a| - 1]) && OrderedByClose(b[..|b| - 1])
    ensures multiset(a[..|a| - 1]) == multiset(b[..|b| - 1])
    ensures DistinctCloses(multiset(a[..|a| - 1]))
  {
    var a', b', x := a[..|a| - 1], b[..|b| - 1], a[|a| - 1];
    LastAgrees(a, b);
    MultisetOfInit(a);
    MultisetOfInit(b);
    CancelLast(multiset(a'), multiset(b'), x);
    FewerTradesStayDistinct(multiset(a'), x);
  }

  // ------------------------------------------------------------ specification

  function StressedRatio(t: Trade, slippage: real): real {
    t.profitRatio - 2.0 * slippage
  }

  function StressedProfit(t: Trade, slippage: real): real {
    t.profitAbs - t.stake * 2.0 * slippage
  }

  function StressedRatios(ts: seq<Trade>, slippage: real): (r: seq<real>)
    ensures |r| == |ts|
  {
    seq(|ts|, i requires 0 <= i < |ts| => StressedRatio(ts[i], slippage))
  }

  function StressedProfits(ts: seq<Trade>, slippage: real): (r: seq<real>)
    ensures |r| == |ts|
  {
    seq(|ts|, i requires 0 <= i < |ts| => StressedProfit(ts[i], slippage))
  }

  /** Running maximum of the prefix sums, the empty prefix included. */
  function Peak(p: seq<real>): real {
    if p == [] then 0.0 else Max(Peak(p[..|p| - 1]), Sum(p))
  }

  function Drawdown(p: seq<real>): real {
    if p == [] then 0.0 else Max(Drawdown(p[..|p| - 1]), Peak(p) - Sum(p))
  }

  function Wins(r: seq<real>): (n: nat)
    ensures n <= |r|
  {
    if r == [] then 0 else Wins(r[..|r| - 1]) + if r[|r| - 1] > 0.0 then 1 else 0
  }

  /** The reported figures, each rounded to eight places. */
  function Report(trades: nat, total: real, peak: real, drawdown: real, wins: nat): Metrics {
    Metrics(
      trades,
      Round8(total / STARTING_BALANCE),
      Round8(total),
      Round8(if STARTING_BALANCE + peak != 0.0 then drawdown / (STARTING_BALANCE + peak) else 0.0),
      Round8(if trades > 0 then wins as real / trades as real else 0.0))
  }

  function MetricsOf(ordered: seq<Trade>, slippage: real): Metrics {
    var p := StressedProfits(ordered, slippage);
    Report(|ordered|, Sum(p), Peak(p), Drawdown(p), Wins(StressedRatios(ordered, slippage)))
  }

  lemma PeakNonNegative(p: seq<real>)
    ensures Peak(p) >= 0.0 && Drawdown(p) >= 0.0
  {
  }

  // ------------------------------------------------------------------- method

  /** The stress loop: slippage on both sides, then one pass for the drawdown. */
  method Stress(trades: seq<Trade>, slippage: real) returns (m: Metrics)
    ensures m == MetricsOf(SortByClose(trades), slippage)
    ensures m.totalTrades == |trades|
    ensures ProfitFigures(m, Sum(Gains(trades, slippage)))
    ensures DrawdownFigure(m, Gains(SortByClose(trades), slippage))
    ensures WinFigure(m, |Winners(trades, slippage)|)
  {
    FiguresMean(trades, slippage);
    hide ProfitFigures, DrawdownFigure, WinFigure, Round8, Gains, Winners, SortByClose, Max;
    var ordered := SortByClose(trades);
    var profits: seq<real> := [];
    var ratios: seq<real> := [];
    for i := 0 to |ordered|
      invariant profits == StressedProfits(ordered, slippage)[..i]
      invariant ratios == StressedRatios(ordered, slippage)[..i]
    {
      var p, r := StressedProfits(ordered, slippage), StressedRatios(ordered, slippage);
      assert p[..i + 1] == p[..i] + [p[i]] && r[..i + 1] == r[..i] + [r[i]];
      ratios := ratios + [ordered[i].profitRatio - 2.0 * slippage];
      profits := profits + [ordered[i].profitAbs - ordered[i].stake * 2.0 * slippage];
    }
    var cumulative, peak, maxDrawdown, wins := 0.0, 0.0, 0.0, 0;
    for i := 0 to |profits|
      invariant cumulative == Sum(profits[..i])
      invariant peak == Peak(profits[..i])
      invariant maxDrawdown == Drawdown(profits[..i])
    {
      assert profits[..i + 1][..i] == profits[..i];
      cumulative := cumulative + profits[i];
      peak := Max(peak, cumulative);
      maxDrawdown := Max(maxDrawdown, peak - cumulative);
    }
    for i := 0 to |ratios|
      invariant wins == Wins(ratios[..i])
    {
      assert ratios[..i + 1][..i] == ratios[..i];
      if ratios[i] > 0.0 {
        wins := wins + 1;
      }
    }
    assert profits[..|profits|] == profits && ratios[..|ratios|] == ratios;
    assert profits == StressedProfits(ordered, slippage);
    assert ratios == StressedRatios(ordered, slippage);
    m := Report(|ordered|, cumulative, peak, maxDrawdown, wins);
  }

  // ------------------------------------------------- what the drawdown means

  /** Cumulative profit after the first i trades. */
  function Prefix(p: seq<real>, i: nat): real
    requires i <= |p|
  {
    Sum(p[..i])
  }

  lemma PrefixOfInit(p: seq<real>)
    requires p != []
    ensures forall i :: 0 <= i < |p| ==> Prefix(p[..|p| - 1], i) == Prefix(p, i)
    ensures Prefix(p, |p|) == Sum(p)
  {
    forall i | 0 <= i < |p|
      ensures Prefix(p[..|p| - 1], i) == Prefix(p, i)
    {
      assert p[..|p| - 1][..i] == p[..i];
    }
    assert p[..|p|] == p;
  }

  lemma {:induction false} PeakIsLargestPrefix(p: seq<real>) returns (k: nat)
    ensures k <= |p| && Peak(p) == Prefix(p, k)
    ensures forall i :: 0 <= i <= |p| ==> Prefix(p, i) <= Peak(p)
  {
    if p == [] {
      k := 0;
    } else {
      PrefixOfInit(p);
      k := PeakIsLargestPrefix(p[..|p| - 1]);
      if Peak(p) == Sum(p) {
        k := |p|;
      }
    }
  }

  /** The drawdown is the largest fall from an earlier prefix sum to a later one. */
  lemma {:induction false} DrawdownIsLargestFall(p: seq<real>) returns (from: nat, to: nat)
    ensures from <= to <= |p| && Drawdown(p) == Prefix(p, from) - Prefix(p, to)
    ensures forall i, j :: 0 <= i <= j <= |p| ==> Prefix(p, i) - Prefix(p, j) <= Drawdown(p)
    ensures Drawdown(p) >= -Sum(p)
  {
    if p == [] {
      from, to := 0, 0;
    } else {
      PrefixOfInit(p);
      from, to := DrawdownIsLargestFall(p[..|p| - 1]);
      var k := PeakIsLargestPrefix(p);
      if Drawdown(p) == Peak(p) - Sum(p) {
        from, to := k, |p|;
      }
      assert Prefix(p, 0) - Prefix(p, |p|) <= Drawdown(p);
    }
  }

  /**
   * The reported percentage divides by the final peak, so it never exceeds the
   * largest percentage measured against the peak of its own moment.
   */
  lemma {:induction false} ReportedDrawdownIsALowerBound(p: seq<real>)
    returns (j: nat)
    ensures j <= |p| && Peak(p) >= 0.0 && Peak(p[..j]) >= 0.0
    ensures Drawdown(p) / (STARTING_BALANCE + Peak(p))
         <= (Peak(p[..j]) - Sum(p[..j])) / (STARTING_BALANCE + Peak(p[..j]))
  {
    j := WorstMoment(p);
    PeakNonNegative(p);
    PeakNonNegative(p[..j]);
    FractionMonotone(Drawdown(p), STARTING_BALANCE + Peak(p),
                     Peak(p[..j]) - Sum(p[..j]), STARTING_BALANCE + Peak(p[..j]));
  }

  lemma {:induction false} WorstMoment(p: seq<real>) returns (j: nat)
    ensures j <= |p|
    ensures Drawdown(p) == Peak(p[..j]) - Sum(p[..j])
    ensures Peak(p[..j]) <= Peak(p)
  {
    var n := |p|;
    assert p[..n] == p;
    if n == 0 || Drawdown(p) == Peak(p) - Sum(p) {
      j := n;
    } else {
      j := WorstMoment(p[..n - 1]);
      assert p[..n - 1][..j] == p[..j];
    }
  }

  /** With distinct close times the order of the input list does not matter. */
  lemma MetricsIgnoreInputOrder(ts: seq<Trade>, us: seq<Trade>, slippage: real)
    requires multiset(ts) == multiset(us) && DistinctCloses(multiset(ts))
    ensures MetricsOf(SortByClose(ts), slippage) == MetricsOf(SortByClose(us), slippage)
  {
    SortOrders(ts);
    SortOrders(us);
    OrderedUnique(SortByClose(ts), SortByClose(us));
  }

  // ------------------------------------------------- what the figures mean

  /** Profit of each trade, less twice the slippage on its stake. */
  ghost function Gains(ts: seq<Trade>, slippage: real): seq<real> {
    seq(|ts|, i requires 0 <= i < |ts| => ts[i].profitAbs - ts[i].stake * 2.0 * slippage)
  }

  /** The trades whose ratio is still positive after slippage on both sides. */
  ghost function Winners(ts: seq<Trade>, slippage: real): set<int> {
    set i | 0 <= i < |ts| && Win(ts[i], slippage)
  }

  ghost predicate Win(t: Trade, slippage: real) {
    t.profitRatio - 2.0 * slippage > 0.0
  }

  ghost predicate GreatestPrefix(p: seq<real>, peak: real) {
    (exists k :: 0 <= k <= |p| && Prefix(p, k) == peak) && forall k :: 0 <= k <= |p| ==> Prefix(p, k) <= peak
  }

  ghost predicate GreatestFall(p: seq<real>, fall: real) {
    && (exists i, j :: 0 <= i <= j <= |p| && Prefix(p, i) - Prefix(p, j) == fall)
    && forall i, j :: 0 <= i <= j <= |p| ==> Prefix(p, i) - Prefix(p, j) <= fall
  }

  /** The total, and the total over the starting balance of 1000. */
  ghost predicate ProfitFigures(m: Metrics, total: real) {
    Near8(m.profitAbs, total) && Near8(m.profitPct, total / 1000.0)
  }

  /** The greatest fall over the balance at the greatest prefix. */
  ghost predicate DrawdownFigure(m: Metrics, p: seq<real>) {
    exists peak, fall :: GreatestPrefix(p, peak) && GreatestFall(p, fall) && Fraction8(m.maxDrawdownPct, fall, 1000.0 + peak)
  }

  /** The winners over the trades; without trades the rate is 0. */
  ghost predicate WinFigure(m: Metrics, winners: nat) {
    if m.totalTrades == 0 then m.winRate == 0.0 else Fraction8(m.winRate, winners as real, m.totalTrades as real)
  }

  ghost predicate Fraction8(figure: real, part: real, whole: real) {
    whole > 0.0 && Near8(figure, part / whole)
  }

  /** Each figure is its meaning rounded to eight places. */
  lemma FiguresMean(trades: seq<Trade>, slippage: real)
    ensures var m := MetricsOf(SortByClose(trades), slippage);
      && m.totalTrades == |trades|
      && ProfitFigures(m, Sum(Gains(trades, slippage)))
      && DrawdownFigure(m, Gains(SortByClose(trades), slippage))
      && WinFigure(m, |Winners(trades, slippage)|)
  {
    hide Round8, Near8, Sum, Wins, GreatestPrefix, GreatestFall, SortByClose;
    var ordered := SortByClose(trades);
    var p, r := StressedProfits(ordered, slippage), StressedRatios(ordered, slippage);
    SameGains(ordered, slippage);
    SameGains(trades, slippage);
    SortKeepsTotals(trades, slippage);
    WinsCounted(StressedRatios(trades, slippage));
    SameWinners(trades, slippage);
    ReportMeans(|trades|, p, Wins(r));
  }

  lemma SameGains(ts: seq<Trade>, slippage: real)
    ensures Gains(ts, slippage) == StressedProfits(ts, slippage)
  {
  }

  lemma SameWinners(ts: seq<Trade>, slippage: real)
    ensures Winners(ts, slippage) == set i | 0 <= i < |ts| && StressedRatios(ts, slippage)[i] > 0.0
  {
  }

  lemma ReportMeans(n: nat, p: seq<real>, wins: nat)
    requires wins <= n
    ensures var m := Report(n, Sum(p), Peak(p), Drawdown(p), wins);
      m.totalTrades == n && ProfitFigures(m, Sum(p)) && DrawdownFigure(m, p) && WinFigure(m, wins)
  {
    hide Round8, Near8, GreatestPrefix, GreatestFall, Sum, Peak, Drawdown;
    PeakNonNegative(p);
    ExtremesAttained(p);
    Round8Near(Sum(p));
    Round8Near(Sum(p) / 1000.0);
    Round8Near(Drawdown(p) / (1000.0 + Peak(p)));
    RoundsZero();
    if n > 0 {
      Round8Near(wins as real / n as real);
    }
    assert Fraction8(Round8(Drawdown(p) / (1000.0 + Peak(p))), Drawdown(p), 1000.0 + Peak(p));
  }

  lemma RoundsZero()
    ensures Round8(0.0) == 0.0
  {
  }

  lemma ExtremesAttained(p: seq<real>)
    ensures GreatestPrefix(p, Peak(p)) && GreatestFall(p, Drawdown(p))
  {
    var k := PeakIsLargestPrefix(p);
    var from, to := DrawdownIsLargestFall(p);
  }

  /** Sorting changes neither the total nor the number of wins. */
  lemma {:induction false} SortKeepsTotals(s: seq<Trade>, slippage: real)
    ensures Sum(StressedProfits(SortByClose(s), slippage)) == Sum(StressedProfits(s, slippage))
    ensures Wins(StressedRatios(SortByClose(s), slippage)) == Wins(StressedRatios(s, slippage))
  {
    if s != [] {
      var front, x := s[..|s| - 1], s[|s| - 1];
      SortKeepsTotals(front, slippage);
      InsertAddsToTotals(x, SortByClose(front), slippage);
      LastAddsToTotals(s, slippage);
    } else {
      assert SortByClose(s) == s;
    }
  }

  lemma LastAddsToTotals(s: seq<Trade>, slippage: real)
    requires s != []
    ensures var front, x := s[..|s| - 1], s[|s| - 1];
      && Sum(StressedProfits(s, slippage)) == Sum(StressedProfits(front, slippage)) + StressedProfit(x, slippage)
      && Wins(StressedRatios(s, slippage))
         == Wins(StressedRatios(front, slippage)) + if StressedRatio(x, slippage) > 0.0 then 1 else 0
  {
    var n := |s| - 1;
    assert StressedProfits(s, slippage)[..n] == StressedProfits(s[..n], slippage);
    assert StressedRatios(s, slippage)[..n] == StressedRatios(s[..n], slippage);
  }

  lemma {:induction false} InsertAddsToTotals(x: Trade, s: seq<Trade>, slippage: real)
    ensures Sum(StressedProfits(InsertByClose(x, s), slippage))
         == Sum(StressedProfits(s, slippage)) + StressedProfit(x, slippage)
    ensures Wins(StressedRatios(InsertByClose(x, s), slippage))
         == Wins(StressedRatios(s, slippage)) + if StressedRatio(x, slippage) > 0.0 then 1 else 0
  {
    hide StressedProfits, StressedRatios, StressedProfit, StressedRatio, Sum, Wins;
    var r := InsertByClose(x, s);
    if s == [] || s[|s| - 1].closedAt <= x.closedAt {
      LastAddsToTotals(r, slippage);
      assert r[..|r| - 1] == s;
    } else {
      InsertAddsToTotals(x, s[..|s| - 1], slippage);
      LastAddsToTotals(s, slippage);
      LastAddsToTotals(r, slippage);
      assert r[..|r| - 1] == InsertByClose(x, s[..|s| - 1]);
    }
  }

  lemma {:induction false} WinsCounted(r: seq<real>)
    ensures Wins(r) == |set i | 0 <= i < |r| && r[i] > 0.0|
  {
    if r != [] {
      var n := |r| - 1;
      WinsCounted(r[..n]);
      var before := set i | 0 <= i < n && r[..n][i] > 0.0;
      var all := set i | 0 <= i < |r| && r[i] > 0.0;
      assert all == before + if r[n] > 0.0 then {n} else {};
    }
  }

  // ------------------------------------------------------------ project score

  function Clamp(v: real): real {
    Max(0.0, Min(100.0, v))
  }

  function Eliminated(m: Metrics): bool {
    m.totalTrades < 3 || m.maxDrawdownPct >= 0.35
  }

  /** The unrounded total of `_project_score`. */
  function WeightedTotal(m: Metrics): real {
    Weigh(
      Clamp(m.profitPct * 500.0 + 50.0),
      Clamp(100.0 - m.maxDrawdownPct * 500.0),
      Clamp(m.winRate * 100.0),
      Clamp(m.totalTrades as real / 30.0 * 100.0) * 0.35 + 65.0)
  }

  function Weigh(profit: real, risk: real, stability: real, quality: real): real {
    profit * 0.35 + risk * 0.25 + stability * 0.15 + quality * 0.25
  }

  function ProjectScore(m: Metrics): real {
    Round6(if Eliminated(m) then 0.0 else WeightedTotal(m))
  }

  /** Scores lie between 0 and 100; exactly the eliminated targets score 0. */
  lemma ScoreInRange(m: Metrics)
    ensures 0.0 <= ProjectScore(m) <= 100.0
    ensures ProjectScore(m) == 0.0 <==> m.totalTrades < 3 || m.maxDrawdownPct >= 0.35
  {
    ClampMonotone(m.profitPct * 500.0 + 50.0, m.profitPct * 500.0 + 50.0);
    ClampMonotone(100.0 - m.maxDrawdownPct * 500.0, 100.0 - m.maxDrawdownPct * 500.0);
    ClampMonotone(m.winRate * 100.0, m.winRate * 100.0);
    ClampMonotone(m.totalTrades as real / 30.0 * 100.0, m.totalTrades as real / 30.0 * 100.0);
    hide Clamp;
    Round6Monotone(0.0, WeightedTotal(m));
    Round6Monotone(WeightedTotal(m), 100.0);
    Round6Monotone(16.25, WeightedTotal(m));
    assert Round6(0.0) == 0.0 && Round6(16.25) == 16.25;
  }

  /**
   * What a change of one metric, inside the range it is not clamped in, does to the
   * unrounded total.
   */
  lemma MarginalScores(m: Metrics, d: real)
    requires d >= 0.0
    ensures -0.1 <= m.profitPct && m.profitPct + d <= 0.1 ==>
      WeightedTotal(m.(profitPct := m.profitPct + d)) == WeightedTotal(m) + 175.0 * d
    ensures 0.0 <= m.maxDrawdownPct && m.maxDrawdownPct + d <= 0.2 ==>
      WeightedTotal(m.(maxDrawdownPct := m.maxDrawdownPct + d)) == WeightedTotal(m) - 125.0 * d
    ensures 0.0 <= m.winRate && m.winRate + d <= 1.0 ==>
      WeightedTotal(m.(winRate := m.winRate + d)) == WeightedTotal(m) + 15.0 * d
    ensures m.totalTrades < 30 ==>
      WeightedTotal(m.(totalTrades := m.totalTrades + 1)) == WeightedTotal(m) + 7.0 / 24.0
  {
    hide Clamp;
    ClampStep(m.profitPct * 500.0 + 50.0, 500.0 * d);
    ClampStep(100.0 - (m.maxDrawdownPct + d) * 500.0, 500.0 * d);
    ClampStep(m.winRate * 100.0, 100.0 * d);
    ClampStep(m.totalTrades as real / 30.0 * 100.0, 100.0 / 30.0);
  }

  lemma ClampStep(x: real, step: real)
    requires step >= 0.0
    ensures 0.0 <= x && x + step <= 100.0 ==> Clamp(x) == x && Clamp(x + step) == x + step
  {
  }

  /** The best metrics score 100; the worst of those not eliminated lose all but their activity. */
  lemma ScoreAnchors(m: Metrics)
    ensures m.totalTrades >= 30 && m.profitPct >= 0.1 && m.maxDrawdownPct <= 0.0 && m.winRate >= 1.0 ==>
      ProjectScore(m) == 100.0
    ensures m.totalTrades >= 30 && m.profitPct <= -0.1 && 0.2 <= m.maxDrawdownPct < 0.35 && m.winRate <= 0.0 ==>
      ProjectScore(m) == 25.0
  {
    if m.totalTrades >= 30 {
      ActivityIsFull(m.totalTrades);
    }
  }

  lemma ActivityIsFull(trades: nat)
    requires trades >= 30
    ensures Clamp(trades as real / 30.0 * 100.0) == 100.0
  {
  }

  // -------------------------------------------------------------------- gates

  /** A window is a finished backtest or is missing from the payload. */
  datatype Window = Missing | Success(metrics: Metrics)

  predicate WindowPasses(w: Window, policy: Policy) {
    && w.Success?
    && w.metrics.totalTrades >= policy.minTrades
    && w.metrics.profitPct > 0.0
    && w.metrics.maxDrawdownPct <= policy.maxDrawdown
  }

  /** The validation gate over `wf_bull`, `wf_range`, `oos` and `wf_bear`. */
  predicate ValidationPassed(windows: seq<Window>, policy: Policy) {
    forall i :: 0 <= i < |windows| ==> WindowPasses(windows[i], policy)
  }

  predicate ScorePassed(primary: Metrics, policy: Policy) {
    ProjectScore(primary) >= policy.minScore
  }

  // ------------------------------------------------------------- monotonicity

  ghost predicate NonNegativeStakes(ts: seq<Trade>) {
    forall i :: 0 <= i < |ts| ==> ts[i].stake >= 0.0
  }

  /** Lowering every profit lowers the sum and the peak and deepens the drawdown. */
  lemma {:induction false} LowerProfitsDeepenDrawdown(low: seq<real>, high: seq<real>)
    requires |low| == |high| && forall i :: 0 <= i < |low| ==> low[i] <= high[i]
    ensures Sum(low) <= Sum(high)
    ensures Peak(low) <= Peak(high)
    ensures Peak(high) - Sum(high) <= Peak(low) - Sum(low)
    ensures Drawdown(high) <= Drawdown(low)
  {
    if low != [] {
      LowerProfitsDeepenDrawdown(low[..|low| - 1], high[..|high| - 1]);
    }
  }

  lemma {:induction false} LowerRatiosWinLess(low: seq<real>, high: seq<real>)
    requires |low| == |high| && forall i :: 0 <= i < |low| ==> low[i] <= high[i]
    ensures Wins(low) <= Wins(high)
  {
    if low != [] {
      LowerRatiosWinLess(low[..|low| - 1], high[..|high| - 1]);
    }
  }

  lemma StressLowersEachTrade(ts: seq<Trade>, less: real, more: real)
    requires NonNegativeStakes(ts) && less <= more
    ensures forall i :: 0 <= i < |ts| ==>
      StressedProfits(ts, more)[i] <= StressedProfits(ts, less)[i]
    ensures forall i :: 0 <= i < |ts| ==>
      StressedRatios(ts, more)[i] <= StressedRatios(ts, less)[i]
  {
    forall i | 0 <= i < |ts|
      ensures StressedProfits(ts, more)[i] <= StressedProfits(ts, less)[i]
    {
      assert ts[i].stake * less <= ts[i].stake * more;
      assert StressedProfit(ts[i], less) == ts[i].profitAbs - 2.0 * (ts[i].stake * less);
      assert StressedProfit(ts[i], more) == ts[i].profitAbs - 2.0 * (ts[i].stake * more);
    }
  }

  ghost predicate AtMostAsGood(worse: Metrics, better: Metrics) {
    && worse.totalTrades == better.totalTrades
    && worse.profitPct <= better.profitPct
    && worse.profitAbs <= better.profitAbs
    && worse.maxDrawdownPct >= better.maxDrawdownPct
    && worse.winRate <= better.winRate
  }

  /** More slippage never improves a reported metric. */
  lemma SlippageWorsensMetrics(trades: seq<Trade>, less: real, more: real)
    requires NonNegativeStakes(trades) && less <= more
    ensures AtMostAsGood(MetricsOf(SortByClose(trades), more), MetricsOf(SortByClose(trades), less))
  {
    var ts := SortByClose(trades);
    SortKeepsStakes(trades);
    StressLowersEachTrade(ts, less, more);
    var low, high := StressedProfits(ts, more), StressedProfits(ts, less);
    var lowRatios, highRatios := StressedRatios(ts, more), StressedRatios(ts, less);
    LowerProfitsDeepenDrawdown(low, high);
    LowerRatiosWinLess(lowRatios, highRatios);
    PeakNonNegative(low);
    PeakNonNegative(high);
    ReportMonotone(|ts|, Sum(low), Sum(high), Peak(low), Peak(high), Drawdown(low), Drawdown(high),
                   Wins(lowRatios), Wins(highRatios));
  }

  lemma SortKeepsStakes(trades: seq<Trade>)
    requires NonNegativeStakes(trades)
    ensures NonNegativeStakes(SortByClose(trades))
  {
    var ts := SortByClose(trades);
    forall i | 0 <= i < |ts|
      ensures ts[i].stake >= 0.0
    {
      assert ts[i] in multiset(ts);
      assert ts[i] in multiset(trades);
    }
  }

  lemma ReportMonotone(n: nat, total: real, total': real, peak: real, peak': real,
                       drawdown: real, drawdown': real, wins: nat, wins': nat)
    requires total <= total' && 0.0 <= peak <= peak' && 0.0 <= drawdown' <= drawdown && wins <= wins'
    ensures AtMostAsGood(Report(n, total, peak, drawdown, wins), Report(n, total', peak', drawdown', wins'))
  {
    Round8Monotone(total, total');
    Round8Monotone(total / STARTING_BALANCE, total' / STARTING_BALANCE);
    FractionMonotone(drawdown', STARTING_BALANCE + peak', drawdown, STARTING_BALANCE + peak);
    Round8Monotone(drawdown' / (STARTING_BALANCE + peak'), drawdown / (STARTING_BALANCE + peak));
    if n > 0 {
      FractionMonotone(wins as real, n as real, wins' as real, n as real);
      Round8Monotone(wins as real / n as real, wins' as real / n as real);
    }
  }

  lemma WeightsMonotone(worse: Metrics, better: Metrics)
    requires AtMostAsGood(worse, better)
    ensures 0.0 <= WeightedTotal(worse) <= WeightedTotal(better)
  {
    hide Clamp;
    ClampMonotone(worse.profitPct * 500.0 + 50.0, better.profitPct * 500.0 + 50.0);
    ClampMonotone(100.0 - worse.maxDrawdownPct * 500.0, 100.0 - better.maxDrawdownPct * 500.0);
    ClampMonotone(worse.winRate * 100.0, better.winRate * 100.0);
    ClampMonotone(worse.totalTrades as real / 30.0 * 100.0, better.totalTrades as real / 30.0 * 100.0);
  }

  lemma ClampMonotone(x: real, y: real)
    requires x <= y
    ensures 0.0 <= Clamp(x) <= Clamp(y) <= 100.0
  {
  }

  /** A metric set that is nowhere better never scores higher. */
  lemma ScoreFollowsMetrics(worse: Metrics, better: Metrics)
    requires AtMostAsGood(worse, better)
    ensures ProjectScore(worse) <= ProjectScore(better)
    ensures Eliminated(better) ==> Eliminated(worse)
  {
    var w := if Eliminated(worse) then 0.0 else WeightedTotal(worse);
    var b := if Eliminated(better) then 0.0 else WeightedTotal(better);
    WeightsMonotone(worse, better);
    hide WeightedTotal;
    Round6Monotone(w, b);
  }

  /** The trades of one target: its primary window and its validation windows. */
  datatype TargetTrades = TargetTrades(primary: seq<Trade>, validation: seq<Option<seq<Trade>>>)

  function WindowOf(trades: Option<seq<Trade>>, slippage: real): Window {
    match trades
    case None => Missing
    case Some(ts) => Success(MetricsOf(SortByClose(ts), slippage))
  }

  predicate GatesPass(t: TargetTrades, slippage: real, policy: Policy) {
    && ScorePassed(MetricsOf(SortByClose(t.primary), slippage), policy)
    && ValidationPassed(
         seq(|t.validation|, i requires 0 <= i < |t.validation| => WindowOf(t.validation[i], slippage)), policy)
  }

  /** A target that fails the score or validation gate still fails it under more slippage. */
  lemma SlippageNeverRescuesATarget(t: TargetTrades, less: real, more: real, policy: Policy)
    requires less <= more && NonNegativeStakes(t.primary)
    requires forall i :: 0 <= i < |t.validation| && t.validation[i].Some? ==>
      NonNegativeStakes(t.validation[i].value)
    ensures GatesPass(t, more, policy) ==> GatesPass(t, less, policy)
  {
    if GatesPass(t, more, policy) {
      SlippageWorsensMetrics(t.primary, less, more);
      ScoreFollowsMetrics(MetricsOf(SortByClose(t.primary), more), MetricsOf(SortByClose(t.primary), less));
      var atMore := seq(|t.validation|, i requires 0 <= i < |t.validation| => WindowOf(t.validation[i], more));
      forall i | 0 <= i < |t.validation|
        ensures WindowPasses(WindowOf(t.validation[i], less), policy)
      {
        assert WindowPasses(atMore[i], policy);
        SlippageWorsensMetrics(t.validation[i].value, less, more);
      }
    }
  }
}
