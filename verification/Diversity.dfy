// Diversity inputs of a unit, the evidence computed for every candidate of one
// target, and the final qualification of units.

module Diversity {
  import opened Util
  import opened Numbers
  import opened StressMetrics
  import opened Correlation

  const MS_PER_DAY := 86400000

  /** 2025-01-01 and 2025-10-01, as days since 1970-01-01. */
  const OOS_START := 20089
  const OOS_END := 20362

  /** BTC, ETH and SOL perpetuals, numbered from 0. */
  const PAIRS := 3

  /** Entry times and daily PnL of one unit; a unit without an OOS window has neither. */
  datatype Input = Input(entries: set<int>, dailyPnl: map<int, real>)

  const NO_INPUT := Input({}, map[])

  ghost predicate Within(lo: int, day: int, hi: int) {
    lo <= day < hi
  }

  ghost function Days(lo: int, hi: int): set<int> {
    set day | lo <= day < hi && Within(lo, day, hi)
  }

  /** The out-of-sample days. */
  ghost function Calendar(): set<int> {
    Days(OOS_START, OOS_END)
  }

  // ------------------------------------------------------------- daily series

  function DayOf(t: Trade): int {
    t.closedAt / MS_PER_DAY
  }

  /** Stressed ratios of the trades that close on one day. */
  function DayTotal(trades: seq<Trade>, slippage: real, day: int): real {
    if trades == [] then 0.0
    else
      var t := trades[|trades| - 1];
      DayTotal(trades[..|trades| - 1], slippage, day)
      + if DayOf(t) == day then StressedRatio(t, slippage) else 0.0
  }

  method CollectInput(trades: seq<Trade>, slippage: real) returns (input: Input)
    ensures input.entries == set t | t in trades && t.openedAt.Some? :: t.openedAt.value
    ensures Collected(input.dailyPnl, trades, slippage)
    ensures Sum(FullSeries(input.dailyPnl)) == InsideTotal(trades, slippage, OOS_START, OOS_END)
  {
    var entries: set<int> := {};
    var daily: map<int, real> := map[];
    for day := OOS_START to OOS_END
      invariant daily.Keys == Days(OOS_START, day)
      invariant forall d :: d in daily ==> daily[d] == 0.0
    {
      daily := daily[day := 0.0];
    }
    for i := 0 to |trades|
      invariant entries == set t | t in trades[..i] && t.openedAt.Some? :: t.openedAt.value
      invariant daily.Keys == Calendar()
      invariant forall d :: d in daily ==> daily[d] == DayTotal(trades[..i], slippage, d)
    {
      var trade := trades[i];
      assert trades[..i + 1] == trades[..i] + [trade];
      if trade.openedAt.Some? {
        entries := entries + {trade.openedAt.value};
      }
      var day := trade.closedAt / MS_PER_DAY;
      if day in daily {
        daily := daily[day := daily[day] + (trade.profitRatio - 2.0 * slippage)];
      }
    }
    assert trades[..|trades|] == trades;
    CollectedPnlConserved(daily, trades, slippage);
    input := Input(entries, daily);
  }

  /** Sum of the daily values over the days lo <= day < hi. */
  function DailySum(trades: seq<Trade>, slippage: real, lo: int, hi: int): real
    decreases hi - lo
  {
    if hi <= lo then 0.0
    else DailySum(trades, slippage, lo, hi - 1) + DayTotal(trades, slippage, hi - 1)
  }

  /** Stressed ratios of the trades that close inside the interval. */
  function InsideTotal(trades: seq<Trade>, slippage: real, lo: int, hi: int): real {
    if trades == [] then 0.0
    else
      var t := trades[|trades| - 1];
      InsideTotal(trades[..|trades| - 1], slippage, lo, hi)
      + if lo * 86400000 <= t.closedAt < hi * 86400000 then t.profitRatio - 2.0 * slippage else 0.0
  }

  /** The daily values add up to the stressed ratios of exactly the trades inside. */
  lemma {:induction false} DailyPnlConserved(trades: seq<Trade>, slippage: real, lo: int, hi: int)
    requires lo <= hi
    ensures DailySum(trades, slippage, lo, hi) == InsideTotal(trades, slippage, lo, hi)
  {
    if trades == [] {
      EmptyDays(slippage, lo, hi);
    } else {
      DailyPnlConserved(trades[..|trades| - 1], slippage, lo, hi);
      LastTradeCountsOnce(trades, slippage, lo, hi);
      DayContains(trades[|trades| - 1], lo);
      DayContains(trades[|trades| - 1], hi);
    }
  }

  lemma DayContains(t: Trade, day: int)
    ensures day <= DayOf(t) <==> day * 86400000 <= t.closedAt
  {
  }

  /** The dictionary of daily values that `CollectInput` builds. */
  ghost predicate Collected(daily: map<int, real>, trades: seq<Trade>, slippage: real) {
    daily.Keys == Calendar() && forall day :: day in Calendar() ==> daily[day] == DayTotal(trades, slippage, day)
  }

  /** The collected values add up to the stressed ratios of exactly the trades closing on its days. */
  lemma CollectedPnlConserved(daily: map<int, real>, trades: seq<Trade>, slippage: real)
    requires Collected(daily, trades, slippage)
    ensures Sum(FullSeries(daily)) == InsideTotal(trades, slippage, OOS_START, OOS_END)
  {
    hide Sorted, Days, DayTotal, DailySum, InsideTotal, Sum;
    var s, n := FullSeries(daily), OOS_END - OOS_START;
    DaysInOrder(OOS_START, OOS_END);
    SumOfDays(s, trades, slippage, OOS_START, n);
    assert s[..n] == s;
    DailyPnlConserved(trades, slippage, OOS_START, OOS_END);
  }

  /** The days of an interval, in order, are every day from its first to its last. */
  lemma DaysInOrder(lo: int, hi: int)
    requires lo <= hi
    ensures |Sorted(Days(lo, hi))| == hi - lo
    ensures forall i :: 0 <= i < hi - lo ==> Sorted(Days(lo, hi))[i] == lo + i && lo + i in Days(lo, hi)
  {
    hide Sorted;
    var days := seq(hi - lo, i => lo + i);
    assert forall i :: 0 <= i < |days| ==> Within(lo, days[i], hi);
    forall day
      ensures day in days <==> day in Days(lo, hi)
    {
      if Within(lo, day, hi) {
        assert days[day - lo] == day;
      }
    }
    SortedAscends(Days(lo, hi));
    AscendingUnique(Sorted(Days(lo, hi)), days);
  }

  lemma {:induction false} SumOfDays(s: seq<real>, trades: seq<Trade>, slippage: real, lo: int, n: nat)
    requires n <= |s| && forall i :: 0 <= i < n ==> s[i] == DayTotal(trades, slippage, lo + i)
    ensures Sum(s[..n]) == DailySum(trades, slippage, lo, lo + n)
  {
    if n > 0 {
      SumOfDays(s, trades, slippage, lo, n - 1);
      assert s[..n][..n - 1] == s[..n - 1];
    }
  }

  lemma {:induction false} EmptyDays(slippage: real, lo: int, hi: int)
    requires lo <= hi
    ensures DailySum([], slippage, lo, hi) == 0.0
    decreases hi - lo
  {
    if lo < hi {
      EmptyDays(slippage, lo, hi - 1);
    }
  }

  lemma {:induction false} LastTradeCountsOnce(trades: seq<Trade>, slippage: real, lo: int, hi: int)
    requires lo <= hi && trades != []
    ensures var t := trades[|trades| - 1];
      DailySum(trades, slippage, lo, hi) == DailySum(trades[..|trades| - 1], slippage, lo, hi)
        + if lo <= DayOf(t) < hi then StressedRatio(t, slippage) else 0.0
    decreases hi - lo
  {
    if lo < hi {
      LastTradeCountsOnce(trades, slippage, lo, hi - 1);
    }
  }

  // ------------------------------------------------------------------ entities

  datatype Unit = Unit(
    lookaheadPassed: bool, primary: Window, validation: seq<Window>, input: Input)

  /** A candidate class with one unit per research pair, by pair number. */
  datatype Candidate = Candidate(
    name: string, timeframe: string, hasBlueprint: bool, loadable: bool, units: seq<Unit>)

  /** Labels a unit across the whole run: pair number, timeframe, class name. */
  datatype Label = Label(pair: nat, timeframe: string, name: string)

  /** Comparison maxima; None is the BLOCKED status, Some the PASSED one. */
  datatype Evidence = Evidence(maxSimilarity: Option<real>, maxCorrelationSquared: Option<real>)

  /** What the evaluation loop leaves behind for each candidate. */
  ghost predicate WellFormed(all: seq<Candidate>) {
    && DistinctNames(all)
    && Complete(all)
    && (forall c, u :: c in all && u in c.units ==>
          u.input == NO_INPUT || u.input.dailyPnl.Keys == Calendar())
  }

  predicate Complete(all: seq<Candidate>) {
    forall c :: c in all ==> |c.units| == PAIRS
  }

  function LabelOf(c: Candidate, pair: nat): Label {
    Label(pair, c.timeframe, c.name)
  }

  /** Every unit of the run with its label: the cross-unit inputs. */
  function CrossUnits(all: seq<Candidate>): seq<(Label, Input)> {
    if all == [] then [] else CrossUnits(all[..|all| - 1]) + UnitsOf(all[|all| - 1], |all[|all| - 1].units|)
  }

  function UnitsOf(c: Candidate, n: nat): (r: seq<(Label, Input)>)
    requires n <= |c.units|
    ensures |r| == n
  {
    seq(n, i requires 0 <= i < n => (LabelOf(c, i), c.units[i].input))
  }

  /** The candidates evaluated on one timeframe. */
  function Peers(all: seq<Candidate>, timeframe: string): (r: seq<Candidate>)
    ensures forall c :: c in r <==> c in all && c.timeframe == timeframe
  {
    if all == [] then []
    else
      assert all == all[..|all| - 1] + [all[|all| - 1]];
      Peers(all[..|all| - 1], timeframe)
      + if all[|all| - 1].timeframe == timeframe then [all[|all| - 1]] else []
  }

  // --------------------------------------------------------------- comparisons

  function Jaccard(a: set<int>, b: set<int>): real
    requires a + b != {}
  {
    |a * b| as real / |a + b| as real
  }

  predicate Comparable(a: set<int>, b: set<int>, minTrades: nat) {
    a + b != {} && |a| >= minTrades && |b| >= minTrades
  }

  function DailySeries(daily: map<int, real>, days: seq<int>): (s: seq<real>)
    requires forall i :: 0 <= i < |days| ==> days[i] in daily
    ensures |s| == |days|
  {
    seq(|days|, i requires 0 <= i < |days| => daily[days[i]])
  }

  /** Correlation of two units over the days they share. */
  ghost function UnitCorrelation(a: map<int, real>, b: map<int, real>): Option<real> {
    var days := Sorted(a.Keys * b.Keys);
    assert forall i :: 0 <= i < |days| ==> days[i] in days;
    PearsonSquared(DailySeries(a, days), DailySeries(b, days))
  }

  function SignalValues(c: Candidate, peers: seq<Candidate>, pair: nat, minTrades: nat): seq<real>
    requires pair < PAIRS && |c.units| == PAIRS && Complete(peers)
  {
    if peers == [] then []
    else
      var other := peers[|peers| - 1];
      assert other in peers;
      var mine, theirs := c.units[pair].input.entries, other.units[pair].input.entries;
      SignalValues(c, peers[..|peers| - 1], pair, minTrades)
      + if other.name != c.name && Comparable(mine, theirs, minTrades) then [Jaccard(mine, theirs)] else []
  }

  /** Two peers with enough entries each, whose shared entries are this part of all of theirs. */
  ghost predicate Compared(c: Candidate, other: Candidate, pair: nat, minTrades: nat, part: real)
    requires pair < |c.units| && pair < |other.units|
  {
    var mine, theirs := c.units[pair].input.entries, other.units[pair].input.entries;
    && other.name != c.name && |mine| >= minTrades && |theirs| >= minTrades
    && mine + theirs != {} && part * |mine + theirs| as real == |mine * theirs| as real
  }

  lemma {:induction false} SignalValuesMean(c: Candidate, peers: seq<Candidate>, pair: nat, minTrades: nat)
    requires pair < PAIRS && |c.units| == PAIRS && Complete(peers)
    ensures forall v :: v in SignalValues(c, peers, pair, minTrades) ==>
      exists k :: 0 <= k < |peers| && Compared(c, peers[k], pair, minTrades, v)
    ensures forall k, v :: 0 <= k < |peers| && Compared(c, peers[k], pair, minTrades, v) ==>
      v in SignalValues(c, peers, pair, minTrades)
  {
    if peers != [] {
      var n := |peers| - 1;
      SignalValuesMean(c, peers[..n], pair, minTrades);
      LastCompared(c, peers[n], pair, minTrades);
      hide Compared, Comparable, Jaccard;
      forall k, v | 0 <= k < |peers| && Compared(c, peers[k], pair, minTrades, v)
        ensures v in SignalValues(c, peers, pair, minTrades)
      {
        assert k < n ==> peers[..n][k] == peers[k];
      }
    }
  }

  lemma LastCompared(c: Candidate, other: Candidate, pair: nat, minTrades: nat)
    requires pair < |c.units| && pair < |other.units|
    ensures var mine, theirs := c.units[pair].input.entries, other.units[pair].input.entries;
      if other.name != c.name && Comparable(mine, theirs, minTrades)
      then forall v :: Compared(c, other, pair, minTrades, v) <==> v == Jaccard(mine, theirs)
      else forall v :: !Compared(c, other, pair, minTrades, v)
  {
    var mine, theirs := c.units[pair].input.entries, other.units[pair].input.entries;
    if mine + theirs != {} {
      forall v
        ensures Compared(c, other, pair, minTrades, v) <==>
          other.name != c.name && Comparable(mine, theirs, minTrades) && v == Jaccard(mine, theirs)
      {
        PartOfWhole(v, |mine * theirs| as real, |mine + theirs| as real);
      }
    }
  }

  lemma PartOfWhole(v: real, part: real, whole: real)
    requires whole > 0.0
    ensures v * whole == part <==> v == part / whole
  {
  }

  ghost function CorrelationValues(own: Label, daily: map<int, real>, units: seq<(Label, Input)>): seq<real> {
    if units == [] then []
    else
      var (other, input) := units[|units| - 1];
      var r := UnitCorrelation(daily, input.dailyPnl);
      CorrelationValues(own, daily, units[..|units| - 1])
      + if other != own && r.Some? then [r.value] else []
  }

  function Greatest(values: seq<real>): Option<real> {
    if values == [] then None else Some(MaxOf(values))
  }

  ghost function EvidenceOf(c: Candidate, peers: seq<Candidate>, all: seq<Candidate>, pair: nat, policy: Policy): Evidence
    requires pair < PAIRS && |c.units| == PAIRS && Complete(peers)
  {
    Evidence(
      Greatest(SignalValues(c, peers, pair, policy.minTrades)),
      Greatest(CorrelationValues(LabelOf(c, pair), c.units[pair].input.dailyPnl, CrossUnits(all))))
  }

  predicate Deployable(c: Candidate, u: Unit, policy: Policy) {
    && c.loadable && u.lookaheadPassed
    && ValidationPassed(u.validation, policy)
    && u.primary.Success? && ScorePassed(u.primary.metrics, policy)
    && c.hasBlueprint
  }

  /** The correlation limit is compared in squares; a negative limit admits nothing. */
  predicate EvidencePasses(e: Evidence, policy: Policy) {
    && e.maxSimilarity.Some? && e.maxCorrelationSquared.Some?
    && e.maxSimilarity.value <= policy.maxSimilarity
    && policy.maxCorrelation >= 0.0
    && e.maxCorrelationSquared.value <= Square(policy.maxCorrelation)
  }

  ghost predicate Qualified(c: Candidate, pair: nat, all: seq<Candidate>, policy: Policy)
    requires pair < PAIRS && |c.units| == PAIRS && Complete(all)
  {
    && Deployable(c, c.units[pair], policy)
    && EvidencePasses(EvidenceOf(c, Peers(all, c.timeframe), all, pair, policy), policy)
  }

  // ------------------------------------------------------------------- methods

  method Correlate(a: map<int, real>, b: map<int, real>) returns (r: Option<real>)
    ensures r == UnitCorrelation(a, b)
  {
    var days := SortSet(a.Keys * b.Keys);
    assert forall i :: 0 <= i < |days| ==> days[i] in days;
    r := PearsonSquared(DailySeries(a, days), DailySeries(b, days));
  }

  /** The cross-unit inputs, candidate by candidate and target by target. */
  method CollectCrossUnits(all: seq<Candidate>) returns (units: seq<(Label, Input)>)
    ensures units == CrossUnits(all)
  {
    units := [];
    for i := 0 to |all|
      invariant units == CrossUnits(all[..i])
    {
      assert all[..i + 1][..i] == all[..i];
      for j := 0 to |all[i].units|
        invariant units == CrossUnits(all[..i]) + UnitsOf(all[i], j)
      {
        units := units + [(LabelOf(all[i], j), all[i].units[j].input)];
      }
    }
    assert all[..|all|] == all;
  }

  /** Both comparison loops for one candidate of a target. */
  method CompareCandidate(c: Candidate, peers: seq<Candidate>, all: seq<Candidate>, units: seq<(Label, Input)>,
                          pair: nat, policy: Policy) returns (e: Evidence)
    requires pair < PAIRS && |c.units| == PAIRS && Complete(peers) && units == CrossUnits(all)
    ensures e == EvidenceOf(c, peers, all, pair, policy)
  {
    var signals := CompareSignals(c, peers, pair, policy.minTrades);
    var correlations := CompareDailyPnl(LabelOf(c, pair), c.units[pair].input.dailyPnl, units);
    e := Evidence(Greatest(signals), Greatest(correlations));
  }

  ghost predicate DistinctNames(s: seq<Candidate>) {
    forall i, j :: 0 <= i < j < |s| ==> s[i].name != s[j].name
  }

  /** The evidence of every candidate of one target, by class name. */
  method EvidenceForTarget(peers: seq<Candidate>, all: seq<Candidate>, pair: nat, policy: Policy)
    returns (evidence: map<string, Evidence>)
    requires pair < PAIRS && Complete(peers) && DistinctNames(peers)
    ensures forall k :: 0 <= k < |peers| ==>
      peers[k].name in evidence && evidence[peers[k].name] == EvidenceOf(peers[k], peers, all, pair, policy)
  {
    hide EvidenceOf;
    var units := CollectCrossUnits(all);
    evidence := map[];
    for i := 0 to |peers|
      invariant forall k :: 0 <= k < i ==>
        peers[k].name in evidence && evidence[peers[k].name] == EvidenceOf(peers[k], peers, all, pair, policy)
    {
      var e := CompareCandidate(peers[i], peers, all, units, pair, policy);
      evidence := evidence[peers[i].name := e];
    }
  }

  method CompareSignals(c: Candidate, peers: seq<Candidate>, pair: nat, minTrades: nat) returns (values: seq<real>)
    requires pair < PAIRS && |c.units| == PAIRS && Complete(peers)
    ensures values == SignalValues(c, peers, pair, minTrades)
    ensures forall v :: v in values ==> exists k :: 0 <= k < |peers| && Compared(c, peers[k], pair, minTrades, v)
    ensures forall k, v :: 0 <= k < |peers| && Compared(c, peers[k], pair, minTrades, v) ==> v in values
  {
    SignalValuesMean(c, peers, pair, minTrades);
    hide Jaccard, Compared;
    values := [];
    var mine := c.units[pair].input.entries;
    for k := 0 to |peers|
      invariant values == SignalValues(c, peers[..k], pair, minTrades)
    {
      assert peers[..k + 1][..k] == peers[..k];
      if peers[k].name != c.name {
        var theirs := peers[k].units[pair].input.entries;
        if mine + theirs != {} && |mine| >= minTrades && |theirs| >= minTrades {
          values := values + [Jaccard(mine, theirs)];
        }
      }
    }
    assert peers[..|peers|] == peers;
  }

  method CompareDailyPnl(own: Label, daily: map<int, real>, units: seq<(Label, Input)>) returns (values: seq<real>)
    ensures values == CorrelationValues(own, daily, units)
  {
    values := [];
    for k := 0 to |units|
      invariant values == CorrelationValues(own, daily, units[..k])
    {
      assert units[..k + 1][..k] == units[..k];
      if units[k].0 != own {
        var r := Correlate(daily, units[k].1.dailyPnl);
        if r.Some? {
          values := values + [r.value];
        }
      }
    }
    assert units[..|units|] == units;
  }

  method SelectPeers(all: seq<Candidate>, timeframe: string) returns (peers: seq<Candidate>)
    ensures peers == Peers(all, timeframe)
  {
    peers := [];
    for i := 0 to |all|
      invariant peers == Peers(all[..i], timeframe)
    {
      assert all[..i + 1][..i] == all[..i];
      if all[i].timeframe == timeframe {
        peers := peers + [all[i]];
      }
    }
    assert all[..|all|] == all;
  }

  /** A primary window without metrics makes the scoring step fail. */
  datatype RunError = PrimaryWindowMissing

  ghost predicate AllScored(all: seq<Candidate>) {
    forall i, j :: 0 <= i < |all| && 0 <= j < |all[i].units| ==> all[i].units[j].primary.Success?
  }

  /** The qualified units of one candidate, among its first n targets. */
  ghost function QualifiedOf(c: Candidate, n: nat, all: seq<Candidate>, policy: Policy): seq<Label>
    requires n <= PAIRS && |c.units| == PAIRS && Complete(all)
  {
    if n == 0 then []
    else QualifiedOf(c, n - 1, all, policy) + if Qualified(c, n - 1, all, policy) then [LabelOf(c, n - 1)] else []
  }

  /** `qualified_units`, for the candidates visited so far. */
  ghost function QualifiedList(visited: seq<Candidate>, all: seq<Candidate>, policy: Policy): seq<Label>
    requires Complete(visited) && Complete(all)
  {
    if visited == [] then []
    else
      var n := |visited| - 1;
      assert visited[n] in visited;
      QualifiedList(visited[..n], all, policy) + QualifiedOf(visited[n], PAIRS, all, policy)
  }

  /**
   * The gates of the run: every unit is scored, then compared, and the qualified
   * ones are listed.
   */
  method Qualify(all: seq<Candidate>, policy: Policy) returns (r: Result<seq<Label>, RunError>)
    requires WellFormed(all)
    ensures r.Ok? <==> AllScored(all)
    ensures r.Ok? ==> r.value == QualifiedList(all, all, policy) && NoDuplicates(r.value)
  {
    QualifiedListDistinct(all, all, policy);
    for i := 0 to |all|
      invariant forall k, j :: 0 <= k < i && 0 <= j < |all[k].units| ==> all[k].units[j].primary.Success?
    {
      for j := 0 to |all[i].units|
        invariant forall k :: 0 <= k < j ==> all[i].units[k].primary.Success?
      {
        if all[i].units[j].primary.Missing? {
          return Err(PrimaryWindowMissing);
        }
      }
    }
    var qualified: seq<Label> := [];
    for i := 0 to |all|
      invariant qualified == QualifiedList(all[..i], all, policy)
    {
      assert all[..i + 1][..i] == all[..i];
      var labels := QualifyCandidate(all[i], all, policy);
      qualified := qualified + labels;
    }
    assert all[..|all|] == all;
    r := Ok(qualified);
  }

  method QualifyCandidate(c: Candidate, all: seq<Candidate>, policy: Policy) returns (labels: seq<Label>)
    requires WellFormed(all) && c in all
    ensures labels == QualifiedOf(c, PAIRS, all, policy)
  {
    hide Deployable, EvidenceOf, EvidencePasses;
    var peers := SelectPeers(all, c.timeframe);
    PeersDistinct(all, c.timeframe);
    var k :| 0 <= k < |peers| && peers[k] == c;
    labels := [];
    for pair := 0 to PAIRS
      invariant labels == QualifiedOf(c, pair, all, policy)
    {
      var evidence := EvidenceForTarget(peers, all, pair, policy);
      assert evidence[peers[k].name] == EvidenceOf(c, peers, all, pair, policy);
      if Deployable(c, c.units[pair], policy) && EvidencePasses(evidence[c.name], policy) {
        labels := labels + [LabelOf(c, pair)];
      }
    }
  }

  lemma {:induction false} PeersDistinct(all: seq<Candidate>, timeframe: string)
    requires DistinctNames(all)
    ensures DistinctNames(Peers(all, timeframe))
  {
    if all != [] {
      var rest, last := all[..|all| - 1], all[|all| - 1];
      PeersDistinct(rest, timeframe);
      var p := Peers(rest, timeframe);
      forall i | 0 <= i < |p|
        ensures p[i].name != last.name
      {
        assert p[i] in rest;
      }
      assert DistinctNames(p + [last]);
    }
  }

  // ------------------------------------------------------------------ guarantee

  lemma {:induction false} SignalValueListed(c: Candidate, other: Candidate, peers: seq<Candidate>, pair: nat, minTrades: nat)
    requires pair < PAIRS && |c.units| == PAIRS && Complete(peers)
    requires other in peers && other.name != c.name
    requires Comparable(c.units[pair].input.entries, other.units[pair].input.entries, minTrades)
    ensures Jaccard(c.units[pair].input.entries, other.units[pair].input.entries)
      in SignalValues(c, peers, pair, minTrades)
  {
    var n := |peers| - 1;
    if peers[n] != other {
      assert peers == peers[..n] + [peers[n]];
      SignalValueListed(c, other, peers[..n], pair, minTrades);
    }
  }

  /** Any comparison at all needs enough entries of the candidate itself. */
  lemma {:induction false} SignalsNeedEntries(c: Candidate, peers: seq<Candidate>, pair: nat, minTrades: nat)
    requires pair < PAIRS && |c.units| == PAIRS && Complete(peers)
    requires SignalValues(c, peers, pair, minTrades) != []
    ensures |c.units[pair].input.entries| >= minTrades
  {
    var n := |peers| - 1;
    if SignalValues(c, peers[..n], pair, minTrades) != [] {
      SignalsNeedEntries(c, peers[..n], pair, minTrades);
    }
  }

  lemma {:induction false} CorrelationListed(own: Label, daily: map<int, real>, units: seq<(Label, Input)>, other: (Label, Input))
    requires other in units && other.0 != own && UnitCorrelation(daily, other.1.dailyPnl).Some?
    ensures UnitCorrelation(daily, other.1.dailyPnl).value in CorrelationValues(own, daily, units)
  {
    var n := |units| - 1;
    if units[n] != other {
      assert units == units[..n] + [units[n]];
      CorrelationListed(own, daily, units[..n], other);
    }
  }

  lemma {:induction false} SomeCorrelation(own: Label, daily: map<int, real>, units: seq<(Label, Input)>) returns (other: (Label, Input))
    requires CorrelationValues(own, daily, units) != []
    ensures other in units && UnitCorrelation(daily, other.1.dailyPnl).Some?
  {
    var n := |units| - 1;
    if CorrelationValues(own, daily, units[..n]) != [] {
      other := SomeCorrelation(own, daily, units[..n]);
    } else {
      other := units[n];
    }
  }

  lemma {:induction false} UnitListed(all: seq<Candidate>, c: Candidate, pair: nat)
    requires c in all && pair < |c.units|
    ensures (LabelOf(c, pair), c.units[pair].input) in CrossUnits(all)
  {
    var n := |all| - 1;
    var last := UnitsOf(all[n], |all[n].units|);
    if c == all[n] {
      assert last[pair] == (LabelOf(c, pair), c.units[pair].input);
      assert CrossUnits(all)[|CrossUnits(all[..n])| + pair] == last[pair];
    } else {
      assert all == all[..n] + [all[n]];
      UnitListed(all[..n], c, pair);
      assert (LabelOf(c, pair), c.units[pair].input) in CrossUnits(all[..n]) + last;
    }
  }

  lemma {:induction false} InputsWellFormed(all: seq<Candidate>, entry: (Label, Input))
    requires WellFormed(all) && entry in CrossUnits(all)
    ensures entry.1 == NO_INPUT || entry.1.dailyPnl.Keys == Calendar()
  {
    var n := |all| - 1;
    if entry in CrossUnits(all[..n]) {
      assert all == all[..n] + [all[n]];
      InputsWellFormed(all[..n], entry);
    } else {
      var i :| 0 <= i < |all[n].units| && entry.1 == all[n].units[i].input;
      assert all[n] in all && all[n].units[i] in all[n].units;
    }
  }

  /** The daily series of a unit over the whole out-of-sample calendar. */
  ghost function FullSeries(daily: map<int, real>): seq<real>
    requires daily.Keys == Calendar()
  {
    var days := Sorted(Calendar());
    assert forall i :: 0 <= i < |days| ==> days[i] in days;
    DailySeries(daily, days)
  }

  /** A defined correlation forces the full calendar and a nonzero norm on both sides. */
  lemma DefinedCorrelation(a: Input, b: Input)
    requires a == NO_INPUT || a.dailyPnl.Keys == Calendar()
    requires b == NO_INPUT || b.dailyPnl.Keys == Calendar()
    requires UnitCorrelation(a.dailyPnl, b.dailyPnl).Some?
    ensures a.dailyPnl.Keys == Calendar() && b.dailyPnl.Keys == Calendar()
    ensures |FullSeries(a.dailyPnl)| >= MIN_SERIES && Spread(FullSeries(a.dailyPnl)) != 0.0
  {
    if a == NO_INPUT || b == NO_INPUT {
      assert a.dailyPnl.Keys * b.dailyPnl.Keys == {};
    }
    assert a.dailyPnl.Keys * b.dailyPnl.Keys == Calendar();
  }

  lemma CorrelationDefined(a: map<int, real>, b: map<int, real>)
    requires a.Keys == Calendar() && b.Keys == Calendar()
    requires |FullSeries(a)| >= MIN_SERIES && Spread(FullSeries(a)) != 0.0
    requires |FullSeries(b)| >= MIN_SERIES && Spread(FullSeries(b)) != 0.0
    ensures UnitCorrelation(a, b).Some?
  {
    assert a.Keys * b.Keys == Calendar();
  }

  /** What the PASSED status of a unit forces: enough entries, all days, some variation. */
  lemma PassedForces(c: Candidate, pair: nat, all: seq<Candidate>, policy: Policy)
    requires WellFormed(all) && c in all && pair < PAIRS && Qualified(c, pair, all, policy)
    ensures |c.units[pair].input.entries| >= policy.minTrades
    ensures var daily := c.units[pair].input.dailyPnl;
      && daily.Keys == Calendar()
      && |FullSeries(daily)| >= MIN_SERIES
      && Spread(FullSeries(daily)) != 0.0
  {
    hide Deployable, UnitCorrelation, FullSeries;
    var input := c.units[pair].input;
    assert c.units[pair] in c.units;
    SignalsNeedEntries(c, Peers(all, c.timeframe), pair, policy.minTrades);
    var other := SomeCorrelation(LabelOf(c, pair), input.dailyPnl, CrossUnits(all));
    InputsWellFormed(all, other);
    DefinedCorrelation(input, other.1);
  }

  /**
   * Qualified units are pairwise diverse: any two have a defined correlation within
   * the limit, and two of one target have entry similarity within the limit.
   */
  lemma QualifiedUnitsAreDiverse(all: seq<Candidate>, policy: Policy, c: Candidate, i: nat, d: Candidate, j: nat)
    requires WellFormed(all) && policy.minTrades >= 1
    requires c in all && i < PAIRS && Qualified(c, i, all, policy)
    requires d in all && j < PAIRS && Qualified(d, j, all, policy)
    requires LabelOf(c, i) != LabelOf(d, j)
    ensures var r := UnitCorrelation(c.units[i].input.dailyPnl, d.units[j].input.dailyPnl);
      r.Some? && r.value <= Square(policy.maxCorrelation)
    ensures i == j && c.timeframe == d.timeframe ==>
      && c.units[i].input.entries + d.units[j].input.entries != {}
      && Jaccard(c.units[i].input.entries, d.units[j].input.entries) <= policy.maxSimilarity
      && SharesAtMost(c.units[i].input.entries, d.units[j].input.entries, policy.maxSimilarity)
  {
    PassedForces(c, i, all, policy);
    PassedForces(d, j, all, policy);
    var mine, theirs := c.units[i].input, d.units[j].input;
    CorrelationDefined(mine.dailyPnl, theirs.dailyPnl);
    UnitListed(all, d, j);
    CorrelationListed(LabelOf(c, i), mine.dailyPnl, CrossUnits(all), (LabelOf(d, j), theirs));
    if i == j && c.timeframe == d.timeframe {
      var peers := Peers(all, c.timeframe);
      assert |mine.entries| >= 1;
      UnionNotEmpty(mine.entries, theirs.entries);
      SignalValueListed(c, d, peers, i, policy.minTrades);
      JaccardBounds(mine.entries, theirs.entries, policy.maxSimilarity);
    }
  }

  /** The shared entries are at most this part of all entries; below 1 the entries differ. */
  ghost predicate SharesAtMost(a: set<int>, b: set<int>, limit: real) {
    |a * b| as real <= limit * |a + b| as real && (limit < 1.0 ==> a != b)
  }

  lemma JaccardBounds(a: set<int>, b: set<int>, limit: real)
    requires a + b != {} && Jaccard(a, b) <= limit
    ensures SharesAtMost(a, b, limit)
  {
    var part, whole := |a * b| as real, |a + b| as real;
    assert whole > 0.0;
    PartOfWhole(Jaccard(a, b), part, whole);
    ProductMonotone(Jaccard(a, b), limit, whole);
    if a == b {
      assert a * b == a + b;
      PartOfWhole(1.0, part, whole);
    }
  }

  lemma ProductMonotone(x: real, y: real, z: real)
    requires x <= y && z >= 0.0
    ensures x * z <= y * z
  {
  }

  /**
   * The correlation that the program computes for two qualified units, from whatever
   * norms its square roots yield, is defined and its absolute value within the limit.
   */
  lemma QualifiedQuotientsWithinLimit(all: seq<Candidate>, policy: Policy, c: Candidate, i: nat, d: Candidate, j: nat)
    requires WellFormed(all) && policy.minTrades >= 1
    requires c in all && i < PAIRS && Qualified(c, i, all, policy)
    requires d in all && j < PAIRS && Qualified(d, j, all, policy)
    requires LabelOf(c, i) != LabelOf(d, j)
    ensures c.units[i].input.dailyPnl.Keys == Calendar() && d.units[j].input.dailyPnl.Keys == Calendar()
    ensures var left, right := FullSeries(c.units[i].input.dailyPnl), FullSeries(d.units[j].input.dailyPnl);
      forall l, r :: IsNorm(l, left) && IsNorm(r, right) ==> QuotientWithin(left, right, l, r, policy.maxCorrelation)
  {
    hide Deployable, EvidenceOf, FullSeries, UnitCorrelation;
    PassedForces(c, i, all, policy);
    PassedForces(d, j, all, policy);
    QualifiedUnitsAreDiverse(all, policy, c, i, d, j);
    var left, right := c.units[i].input.dailyPnl, d.units[j].input.dailyPnl;
    FullCorrelation(left, right);
    QuotientLimited(FullSeries(left), FullSeries(right), policy.maxCorrelation);
  }

  /** Units with all days are correlated over the whole calendar. */
  lemma FullCorrelation(a: map<int, real>, b: map<int, real>)
    requires a.Keys == Calendar() && b.Keys == Calendar()
    ensures UnitCorrelation(a, b) == PearsonSquared(FullSeries(a), FullSeries(b))
  {
    assert a.Keys * b.Keys == Calendar();
  }

  lemma UnionNotEmpty(a: set<int>, b: set<int>)
    requires |a| >= 1
    ensures a + b != {}
  {
    HasMember(a);
    var x :| x in a;
    assert x in a + b;
  }

  lemma {:induction false} QualifiedOfDistinct(c: Candidate, n: nat, all: seq<Candidate>, policy: Policy)
    requires n <= PAIRS && |c.units| == PAIRS && Complete(all)
    ensures NoDuplicates(QualifiedOf(c, n, all, policy))
  {
    hide Qualified;
    if n > 0 {
      QualifiedOfDistinct(c, n - 1, all, policy);
      QualifiedOfExactly(c, n - 1, all, policy, LabelOf(c, n - 1));
    }
  }

  /** No unit is listed twice. */
  lemma {:induction false} QualifiedListDistinct(visited: seq<Candidate>, all: seq<Candidate>, policy: Policy)
    requires Complete(visited) && Complete(all) && DistinctNames(visited)
    ensures NoDuplicates(QualifiedList(visited, all, policy))
  {
    hide Qualified, QualifiedOf;
    if visited != [] {
      var n := |visited| - 1;
      var front, last := QualifiedList(visited[..n], all, policy), QualifiedOf(visited[n], PAIRS, all, policy);
      QualifiedListDistinct(visited[..n], all, policy);
      QualifiedOfDistinct(visited[n], PAIRS, all, policy);
      forall own | own in front
        ensures own !in last
      {
        QualifiedListed(visited[..n], all, policy, own);
        var k :| 0 <= k < n && own in QualifiedOf(visited[k], PAIRS, all, policy);
        QualifiedOfExactly(visited[k], PAIRS, all, policy, own);
        QualifiedOfExactly(visited[n], PAIRS, all, policy, own);
        assert visited[k].name != visited[n].name;
      }
      AppendDistinct(front, last);
    }
  }

  // ------------------------------------------------------ what qualification means

  /** Everything but diversity: loading, look-ahead, the four windows, the score and the blueprint. */
  ghost predicate GatesMet(c: Candidate, pair: nat, policy: Policy)
    requires pair < |c.units|
  {
    var u := c.units[pair];
    && c.loadable && c.hasBlueprint && u.lookaheadPassed
    && (forall i :: 0 <= i < |u.validation| ==>
          && u.validation[i].Success? && u.validation[i].metrics.totalTrades >= policy.minTrades
          && u.validation[i].metrics.profitPct > 0.0 && u.validation[i].metrics.maxDrawdownPct <= policy.maxDrawdown)
    && u.primary.Success? && ProjectScore(u.primary.metrics) >= policy.minScore
  }

  /** Some other candidate of the target shares this part of the entries. */
  ghost predicate Similar(c: Candidate, all: seq<Candidate>, pair: nat, minTrades: nat, part: real)
    requires pair < PAIRS && |c.units| == PAIRS && Complete(all)
  {
    exists d :: d in all && d.timeframe == c.timeframe && Compared(c, d, pair, minTrades, part)
  }

  /** Some differently labelled unit of the run has this squared correlation. */
  ghost predicate Correlated(c: Candidate, pair: nat, all: seq<Candidate>, square: real)
    requires pair < PAIRS && |c.units| == PAIRS && Complete(all)
  {
    exists d, j :: CorrelatedWith(c, pair, all, d, j, square)
  }

  ghost predicate CorrelatedWith(c: Candidate, i: nat, all: seq<Candidate>, d: Candidate, j: nat, square: real)
    requires i < PAIRS && |c.units| == PAIRS && Complete(all)
  {
    && d in all && 0 <= j < PAIRS && LabelOf(d, j) != LabelOf(c, i)
    && UnitCorrelation(c.units[i].input.dailyPnl, d.units[j].input.dailyPnl) == Some(square)
  }

  /**
   * A unit qualifies exactly when it meets the gates, is similar to no unit of its
   * target and correlated with no unit of the run beyond the limits, and has been
   * compared at least once in both ways.
   */
  lemma QualifiesExactlyWhen(c: Candidate, pair: nat, all: seq<Candidate>, policy: Policy)
    requires pair < PAIRS && |c.units| == PAIRS && Complete(all)
    ensures Qualified(c, pair, all, policy) <==>
      && GatesMet(c, pair, policy)
      && (exists part :: Similar(c, all, pair, policy.minTrades, part))
      && (forall part :: Similar(c, all, pair, policy.minTrades, part) ==> part <= policy.maxSimilarity)
      && (exists square :: Correlated(c, pair, all, square))
      && policy.maxCorrelation >= 0.0
      && (forall square :: Correlated(c, pair, all, square) ==> square <= policy.maxCorrelation * policy.maxCorrelation)
  {
    hide Similar, Correlated, SignalValues, CorrelationValues, Deployable, GatesMet, Greatest, CrossUnits, Peers;
    var peers := Peers(all, c.timeframe);
    var signals := SignalValues(c, peers, pair, policy.minTrades);
    var correlations := CorrelationValues(LabelOf(c, pair), c.units[pair].input.dailyPnl, CrossUnits(all));
    SignalsAreSimilar(c, all, pair, policy.minTrades);
    ValuesAreCorrelated(c, pair, all);
    LimitedByGreatest(signals, policy.maxSimilarity);
    LimitedByGreatest(correlations, Square(policy.maxCorrelation));
    DeployableMeans(c, pair, policy);
    assert signals != [] ==> Similar(c, all, pair, policy.minTrades, signals[0]);
    assert correlations != [] ==> Correlated(c, pair, all, correlations[0]);
    if part :| Similar(c, all, pair, policy.minTrades, part) {
      assert part in signals;
    }
    if square :| Correlated(c, pair, all, square) {
      assert square in correlations;
    }
  }

  lemma DeployableMeans(c: Candidate, pair: nat, policy: Policy)
    requires pair < |c.units|
    ensures Deployable(c, c.units[pair], policy) <==> GatesMet(c, pair, policy)
  {
    hide ProjectScore;
    var u := c.units[pair];
    assert ValidationPassed(u.validation, policy) <==> forall i :: 0 <= i < |u.validation| ==> WindowPasses(u.validation[i], policy);
  }

  lemma LimitedByGreatest(values: seq<real>, limit: real)
    ensures Greatest(values).Some? <==> values != []
    ensures Greatest(values).Some? ==> (Greatest(values).value <= limit <==> forall v :: v in values ==> v <= limit)
  {
  }

  lemma SignalsAreSimilar(c: Candidate, all: seq<Candidate>, pair: nat, minTrades: nat)
    requires pair < PAIRS && |c.units| == PAIRS && Complete(all)
    ensures var values := SignalValues(c, Peers(all, c.timeframe), pair, minTrades);
      forall v :: v in values <==> Similar(c, all, pair, minTrades, v)
  {
    hide SignalValues, Compared;
    var peers := Peers(all, c.timeframe);
    SignalValuesMean(c, peers, pair, minTrades);
    forall v
      ensures v in SignalValues(c, peers, pair, minTrades) <==> Similar(c, all, pair, minTrades, v)
    {
      if v in SignalValues(c, peers, pair, minTrades) {
        var k :| 0 <= k < |peers| && Compared(c, peers[k], pair, minTrades, v);
        assert peers[k] in peers;
      }
      if Similar(c, all, pair, minTrades, v) {
        var d :| d in all && d.timeframe == c.timeframe && Compared(c, d, pair, minTrades, v);
        var k :| 0 <= k < |peers| && peers[k] == d;
        assert Compared(c, peers[k], pair, minTrades, v);
      }
    }
  }

  lemma ValuesAreCorrelated(c: Candidate, pair: nat, all: seq<Candidate>)
    requires pair < PAIRS && |c.units| == PAIRS && Complete(all)
    ensures var values := CorrelationValues(LabelOf(c, pair), c.units[pair].input.dailyPnl, CrossUnits(all));
      forall v :: v in values <==> Correlated(c, pair, all, v)
  {
    hide CorrelationValues, CrossUnits, Correlated, UnitCorrelation;
    var values := CorrelationValues(LabelOf(c, pair), c.units[pair].input.dailyPnl, CrossUnits(all));
    forall v
      ensures v in values <==> Correlated(c, pair, all, v)
    {
      if v in values {
        ValueIsCorrelated(c, pair, all, v);
      }
      if Correlated(c, pair, all, v) {
        CorrelatedIsListed(c, pair, all, v);
      }
    }
  }

  lemma ValueIsCorrelated(c: Candidate, pair: nat, all: seq<Candidate>, v: real)
    requires pair < PAIRS && |c.units| == PAIRS && Complete(all)
    requires v in CorrelationValues(LabelOf(c, pair), c.units[pair].input.dailyPnl, CrossUnits(all))
    ensures Correlated(c, pair, all, v)
  {
    hide CorrelationValues, CrossUnits, UnitCorrelation;
    var entry := CorrelationFrom(LabelOf(c, pair), c.units[pair].input.dailyPnl, CrossUnits(all), v);
    var d, j := UnitFrom(all, entry);
    assert CorrelatedWith(c, pair, all, d, j, v);
  }

  lemma CorrelatedIsListed(c: Candidate, pair: nat, all: seq<Candidate>, v: real)
    requires pair < PAIRS && |c.units| == PAIRS && Complete(all) && Correlated(c, pair, all, v)
    ensures v in CorrelationValues(LabelOf(c, pair), c.units[pair].input.dailyPnl, CrossUnits(all))
  {
    hide CorrelationValues, CrossUnits, UnitCorrelation;
    var d: Candidate, j: nat :| CorrelatedWith(c, pair, all, d, j, v);
    UnitListed(all, d, j);
    CorrelationListed(LabelOf(c, pair), c.units[pair].input.dailyPnl, CrossUnits(all), (LabelOf(d, j), d.units[j].input));
  }

  lemma {:induction false} CorrelationFrom(own: Label, daily: map<int, real>, units: seq<(Label, Input)>, v: real)
    returns (entry: (Label, Input))
    requires v in CorrelationValues(own, daily, units)
    ensures entry in units && entry.0 != own && UnitCorrelation(daily, entry.1.dailyPnl) == Some(v)
  {
    var n := |units| - 1;
    if v in CorrelationValues(own, daily, units[..n]) {
      entry := CorrelationFrom(own, daily, units[..n], v);
    } else {
      entry := units[n];
    }
  }

  lemma {:induction false} UnitFrom(all: seq<Candidate>, entry: (Label, Input)) returns (d: Candidate, j: nat)
    requires entry in CrossUnits(all)
    ensures d in all && j < |d.units| && entry == (LabelOf(d, j), d.units[j].input)
  {
    var n := |all| - 1;
    if entry in CrossUnits(all[..n]) {
      d, j := UnitFrom(all[..n], entry);
    } else {
      d := all[n];
      j :| 0 <= j < |d.units| && UnitsOf(d, |d.units|)[j] == entry;
    }
  }

  /** The list holds exactly the units listed for some visited candidate. */
  lemma {:induction false} QualifiedListed(visited: seq<Candidate>, all: seq<Candidate>, policy: Policy, own: Label)
    requires Complete(visited) && Complete(all)
    ensures own in QualifiedList(visited, all, policy) <==>
      exists k :: 0 <= k < |visited| && own in QualifiedOf(visited[k], PAIRS, all, policy)
  {
    hide QualifiedOf;
    if visited != [] {
      var n := |visited| - 1;
      QualifiedListed(visited[..n], all, policy, own);
    }
  }

  lemma {:induction false} QualifiedOfExactly(c: Candidate, n: nat, all: seq<Candidate>, policy: Policy, own: Label)
    requires n <= PAIRS && |c.units| == PAIRS && Complete(all)
    ensures own in QualifiedOf(c, n, all, policy) <==>
      own.pair < n && own == LabelOf(c, own.pair) && Qualified(c, own.pair, all, policy)
  {
    hide Qualified;
    if n > 0 {
      QualifiedOfExactly(c, n - 1, all, policy, own);
    }
  }

  /** Any two different units that the run reports as qualified are diverse. */
  lemma ReportedUnitsAreDiverse(all: seq<Candidate>, policy: Policy, left: Label, right: Label)
    returns (c: Candidate, d: Candidate)
    requires WellFormed(all) && policy.minTrades >= 1 && left != right
    requires left in QualifiedList(all, all, policy) && right in QualifiedList(all, all, policy)
    ensures c in all && d in all && left.pair < PAIRS && right.pair < PAIRS
    ensures left == LabelOf(c, left.pair) && right == LabelOf(d, right.pair)
    ensures var r := UnitCorrelation(c.units[left.pair].input.dailyPnl, d.units[right.pair].input.dailyPnl);
      r.Some? && r.value <= Square(policy.maxCorrelation)
    ensures left.pair == right.pair && left.timeframe == right.timeframe ==>
      var mine, theirs := c.units[left.pair].input.entries, d.units[right.pair].input.entries;
      mine + theirs != {} && Jaccard(mine, theirs) <= policy.maxSimilarity && SharesAtMost(mine, theirs, policy.maxSimilarity)
  {
    QualifiedListed(all, all, policy, left);
    QualifiedListed(all, all, policy, right);
    var i :| 0 <= i < |all| && left in QualifiedOf(all[i], PAIRS, all, policy);
    var j :| 0 <= j < |all| && right in QualifiedOf(all[j], PAIRS, all, policy);
    c, d := all[i], all[j];
    QualifiedOfExactly(c, PAIRS, all, policy, left);
    QualifiedOfExactly(d, PAIRS, all, policy, right);
    QualifiedUnitsAreDiverse(all, policy, c, left.pair, d, right.pair);
  }
}
