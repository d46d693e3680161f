// The deterministic derivation of 15-minute candles from five-minute candles.

module Aggregation {
  import opened Util
  import opened CandlePages
  import Numbers

  /** Fifteen minutes, in milliseconds; buckets are aligned to the epoch. */
  const BUCKET := 900000

  datatype DeriveError = NoCompleteBucket

  function BucketOf(c: Candle): int {
    c.date / BUCKET
  }

  function MaxHigh(rows: Frame): real
    requires rows != []
  {
    if |rows| == 1 then rows[0].bar.high
    else Numbers.Max(MaxHigh(rows[..|rows| - 1]), rows[|rows| - 1].bar.high)
  }

  function MinLow(rows: Frame): real
    requires rows != []
  {
    if |rows| == 1 then rows[0].bar.low
    else Numbers.Min(MinLow(rows[..|rows| - 1]), rows[|rows| - 1].bar.low)
  }

  function Volume(rows: Frame): real {
    if rows == [] then 0.0 else Volume(rows[..|rows| - 1]) + rows[|rows| - 1].bar.volume
  }

  /** First open, greatest high, least low, last close, summed volume. */
  function Aggregate(rows: Frame): Candle
    requires rows != []
  {
    Candle(
      BucketOf(rows[0]) * BUCKET,
      Bar(rows[0].bar.open, MaxHigh(rows), MinLow(rows), rows[|rows| - 1].bar.close, Volume(rows)))
  }

  function InBucket(f: Frame, bucket: int): Frame {
    if f == [] then []
    else InBucket(f[..|f| - 1], bucket) + if BucketOf(f[|f| - 1]) == bucket then [f[|f| - 1]] else []
  }

  /** Resample into the buckets lo <= b < hi and keep those holding three candles. */
  function Resample(f: Frame, lo: int, hi: int): Frame
    decreases hi - lo
  {
    if hi <= lo then []
    else
      var rows := InBucket(f, hi - 1);
      Resample(f, lo, hi - 1) + if |rows| == 3 then [Aggregate(rows)] else []
  }

  predicate DatesAscend(f: Frame) {
    forall i, j :: 0 <= i < j < |f| ==> f[i].date < f[j].date
  }

  function Derive15m(f: Frame): Result<Frame, DeriveError>
    requires DatesAscend(f)
  {
    var derived := if f == [] then [] else Resample(f, BucketOf(f[0]), BucketOf(f[|f| - 1]) + 1);
    if derived == [] then Err(NoCompleteBucket) else Ok(derived)
  }

  // ------------------------------------------------------------ gap-free frames

  /** The slot of the first candle inside its bucket: 0, 1 or 2. */
  function Slot(f: Frame): int
    requires f != []
  {
    (f[0].date % BUCKET) / INTERVAL
  }

  /** Leading candles that belong to a bucket begun before the frame. */
  function Lead(f: Frame): nat
    requires f != []
  {
    (3 - Slot(f)) % 3
  }

  /** Complete buckets after the leading candles. */
  function CompleteCount(f: Frame): nat
    requires f != []
  {
    if |f| < Lead(f) then 0 else (|f| - Lead(f)) / 3
  }

  function Triple(f: Frame, j: nat): Frame
    requires f != [] && j < CompleteCount(f)
  {
    f[Lead(f) + 3 * j..Lead(f) + 3 * j + 3]
  }

  /** The specification: one row for each three consecutive candles after the lead. */
  function Triples(f: Frame): Frame
    requires f != []
  {
    seq(CompleteCount(f), j requires 0 <= j < CompleteCount(f) => Aggregate(Triple(f, j)))
  }

  lemma SpacedAscend(f: Frame)
    requires Spaced(f)
    ensures DatesAscend(f)
  {
    forall i, j | 0 <= i < j < |f|
      ensures f[i].date < f[j].date
    {
      SpacedDates(f, i, j);
    }
  }

  lemma BucketArithmetic(d: int, i: nat)
    ensures (d + i * INTERVAL) / BUCKET == d / BUCKET + ((d % BUCKET) / INTERVAL + i) / 3
    ensures 0 <= (d % BUCKET) / INTERVAL < 3
    ensures ((d % BUCKET) / INTERVAL + i) % 3 == 0 ==> (d + i * INTERVAL) % BUCKET < INTERVAL
  {
    var q, r := (d % BUCKET) / INTERVAL, (d % BUCKET) % INTERVAL;
    var m, s := (q + i) / 3, (q + i) % 3;
    assert d == BUCKET * (d / BUCKET) + INTERVAL * q + r;
    assert d + i * INTERVAL == BUCKET * (d / BUCKET + m) + (INTERVAL * s + r);
  }

  /** Candle i of a gap-free frame lies in bucket (Slot + i) / 3 after the first. */
  lemma BucketOfIndex(f: Frame, i: nat)
    requires Spaced(f) && i < |f|
    ensures 0 <= Slot(f) < 3
    ensures BucketOf(f[i]) == BucketOf(f[0]) + (Slot(f) + i) / 3
  {
    SpacedDates(f, 0, i);
    BucketArithmetic(f[0].date, i);
  }

  function Clip(x: int, n: nat): nat {
    if x < 0 then 0 else if x > n then n else x
  }

  /** The candles of bucket m among the first n, when a bucket begins at slot q. */
  function Slice(f: Frame, q: int, m: nat, n: nat): Frame
    requires 0 <= q < 3 && n <= |f|
  {
    f[Clip(3 * m - q, n)..Clip(3 * m - q + 3, n)]
  }

  lemma SliceStep(f: Frame, q: int, m: nat, n: nat)
    requires 0 <= q < 3 && 0 < n <= |f|
    ensures Slice(f, q, m, n) == Slice(f, q, m, n - 1) + if (q + n - 1) / 3 == m then [f[n - 1]] else []
  {
    var from := 3 * m - q;
    assert (q + n - 1) / 3 == m <==> from <= n - 1 < from + 3;
  }

  /** A bucket of a gap-free frame is a slice of at most three candles. */
  lemma {:induction false} BucketIsSlice(f: Frame, n: nat, m: nat)
    requires Spaced(f) && 0 < |f| && n <= |f| && 0 <= Slot(f) < 3
    ensures InBucket(f[..n], BucketOf(f[0]) + m) == Slice(f, Slot(f), m, n)
  {
    hide Spaced, Slot, Slice, BucketOf;
    if n == 0 {
      EmptySlice(f, Slot(f), m);
    } else {
      BucketIsSlice(f, n - 1, m);
      BucketOfIndex(f, n - 1);
      SliceStep(f, Slot(f), m, n);
      assert f[..n][..n - 1] == f[..n - 1];
    }
  }

  lemma EmptySlice(f: Frame, q: int, m: nat)
    requires 0 <= q < 3
    ensures Slice(f, q, m, 0) == []
  {
  }

  /** Buckets skipped before the first complete one. */
  function Skipped(f: Frame): nat
    requires f != []
  {
    if Lead(f) == 0 then 0 else 1
  }

  lemma SliceIsTriple(f: Frame, m: nat)
    requires f != [] && 0 <= Slot(f) < 3
    ensures var s := Slice(f, Slot(f), m, |f|); var j := m - Skipped(f);
      if 0 <= j < CompleteCount(f) then s == Triple(f, j) && |s| == 3 else |s| < 3
  {
    CompleteArithmetic(Slot(f), |f|, m);
    hide Slot;
  }

  lemma CompleteArithmetic(q: int, n: nat, m: nat)
    requires 0 <= q < 3
    ensures var lead := (3 - q) % 3;
      var j, count := m - (if lead == 0 then 0 else 1), if n < lead then 0 else (n - lead) / 3;
      && 3 * m - q == lead + 3 * j
      && (0 <= j < count <==> 0 <= 3 * m - q && 3 * m - q + 3 <= n)
  {
  }

  /** The first rows of the resample are the first complete triples. */
  lemma {:induction false} ResampleIsTriples(f: Frame, m: nat)
    requires ValidFrame(f) && 0 <= Slot(f) < 3
    ensures Resample(f, BucketOf(f[0]), BucketOf(f[0]) + m) == Triples(f)[..Clip(m - Skipped(f), CompleteCount(f))]
  {
    hide Spaced, Slot, Slice, BucketOf, Skipped, CompleteCount, Triple, Aggregate;
    if m > 0 {
      ResampleIsTriples(f, m - 1);
      BucketIsSlice(f, |f|, m - 1);
      assert f[..|f|] == f;
      SliceIsTriple(f, m - 1);
      var j := m - 1 - Skipped(f);
      if 0 <= j < CompleteCount(f) {
        assert Triples(f)[..j + 1] == Triples(f)[..j] + [Aggregate(Triple(f, j))];
      }
    }
  }

  /** On a gap-free frame the derivation yields exactly the complete triples. */
  lemma DerivationIsTriples(f: Frame)
    requires ValidFrame(f)
    ensures DatesAscend(f)
    ensures Derive15m(f) == if Triples(f) == [] then Err(NoCompleteBucket) else Ok(Triples(f))
  {
    hide InBucket, BucketOf, Spaced, DatesAscend, Slot, CompleteCount, Skipped, Resample, Triple, Aggregate;
    SpacedAscend(f);
    BucketOfIndex(f, 0);
    BucketOfIndex(f, |f| - 1);
    LastBucketCovers(f);
    var m := (Slot(f) + |f| - 1) / 3 + 1;
    ResampleIsTriples(f, m);
    assert Triples(f)[..CompleteCount(f)] == Triples(f);
  }

  /** The bucket of the last candle comes after every complete triple. */
  lemma LastBucketCovers(f: Frame)
    requires f != [] && 0 <= Slot(f) < 3
    ensures (Slot(f) + |f| - 1) / 3 + 1 - Skipped(f) >= CompleteCount(f)
  {
    hide Slot;
  }

  // ------------------------------------------------------------------ guarantees

  /**
   * What a row says of three consecutive bars: the open of the first, the close of the
   * last, the greatest high, the least low, and all of their volume.
   */
  ghost predicate Summarises(row: Bar, first: Bar, second: Bar, third: Bar) {
    && row.open == first.open && row.close == third.close
    && (row.high == first.high || row.high == second.high || row.high == third.high)
    && row.high >= first.high && row.high >= second.high && row.high >= third.high
    && (row.low == first.low || row.low == second.low || row.low == third.low)
    && row.low <= first.low && row.low <= second.low && row.low <= third.low
    && row.volume == first.volume + second.volume + third.volume
  }

  lemma AggregateSummarises(rows: Frame)
    requires |rows| == 3
    ensures Summarises(Aggregate(rows).bar, rows[0].bar, rows[1].bar, rows[2].bar)
  {
    var two, one := rows[..2], rows[..1];
    assert two[..1] == one && one[..0] == [];
    assert Volume(one) == one[0].bar.volume;
    assert Volume(two) == Volume(one) + two[1].bar.volume;
    assert Volume(rows) == Volume(two) + rows[2].bar.volume;
    assert MaxHigh(two) == Numbers.Max(MaxHigh(one), two[1].bar.high) && MaxHigh(one) == one[0].bar.high;
    assert MinLow(two) == Numbers.Min(MinLow(one), two[1].bar.low) && MinLow(one) == one[0].bar.low;
  }

  /**
   * A gap-free frame of n candles gives a gap-free 15-minute grid of k rows with
   * n - 4 <= 3k <= n, and fails exactly when no bucket is complete.
   */
  lemma DerivedGrid(f: Frame)
    requires ValidFrame(f) && DatesAscend(f)
    ensures var k := CompleteCount(f);
      && |f| - 4 <= 3 * k <= |f|
      && (Derive15m(f).Err? <==> k == 0)
      && (k > 0 ==> |Derive15m(f).value| == k)
    ensures Derive15m(f).Ok? ==> var rows := Derive15m(f).value;
      forall j :: 0 <= j < |rows| ==> RowOf(f, j, rows[j])
  {
    hide RowOf, CompleteCount, Spaced, Aggregate, Derive15m, Triple;
    DerivationIsTriples(f);
    CompleteCountBounds(f);
    forall j | 0 <= j < CompleteCount(f)
      ensures RowOf(f, j, Triples(f)[j])
    {
      TripleIsRow(f, j);
    }
  }

  /** The row of the j-th complete triple: its start in the grid, and what it says of its candles. */
  ghost predicate RowOf(f: Frame, j: nat, row: Candle)
    requires f != []
  {
    var i := Lead(f) + 3 * j;
    && i + 3 <= |f|
    && row.date == (BucketOf(f[0]) + Skipped(f) + j) * BUCKET
    && row.date % 900000 == 0 && row.date <= f[i].date < row.date + 300000
    && row == Aggregate(f[i..i + 3])
    && Summarises(row.bar, f[i].bar, f[i + 1].bar, f[i + 2].bar)
  }

  lemma TripleIsRow(f: Frame, j: nat)
    requires ValidFrame(f) && j < CompleteCount(f)
    ensures RowOf(f, j, Aggregate(Triple(f, j)))
  {
    hide Lead, CompleteCount, Spaced, Skipped, Summarises, MaxHigh, MinLow, Volume;
    TripleWithin(f, j);
    TripleBucket(f, j);
    StartOfBucket(f[Lead(f) + 3 * j].date);
    AggregateSummarises(Triple(f, j));
  }

  lemma TripleWithin(f: Frame, j: nat)
    requires f != [] && j < CompleteCount(f)
    ensures Lead(f) + 3 * j + 3 <= |f|
  {
  }

  lemma CompleteCountBounds(f: Frame)
    requires f != []
    ensures |f| - 4 <= 3 * CompleteCount(f) <= |f|
    ensures CompleteCount(f) > 0 ==> Lead(f) + 3 * CompleteCount(f) <= |f|
  {
  }

  lemma LeadArithmetic(q: int, j: nat)
    requires 0 <= q < 3
    ensures (q + (3 - q) % 3 + 3 * j) % 3 == 0
    ensures (q + (3 - q) % 3 + 3 * j) / 3 == (if (3 - q) % 3 == 0 then 0 else 1) + j
  {
  }

  lemma StartOfBucket(date: int)
    ensures date / BUCKET * BUCKET == date - date % BUCKET && (date / BUCKET * BUCKET) % 900000 == 0
  {
  }

  lemma TripleBucket(f: Frame, j: nat)
    requires ValidFrame(f) && j < CompleteCount(f)
    ensures BucketOf(Triple(f, j)[0]) == BucketOf(f[0]) + Skipped(f) + j
    ensures Triple(f, j)[0] == f[Lead(f) + 3 * j] && f[Lead(f) + 3 * j].date % BUCKET < INTERVAL
  {
    var i := Lead(f) + 3 * j;
    assert Triple(f, j)[0] == f[i];
    BucketOfIndex(f, i);
    SpacedDates(f, 0, i);
    BucketArithmetic(f[0].date, i);
    LeadArithmetic(Slot(f), j);
  }

  lemma {:induction false} VolumeSplits(a: Frame, b: Frame)
    ensures Volume(a + b) == Volume(a) + Volume(b)
  {
    if b == [] {
      assert a + b == a;
    } else {
      assert (a + b)[..|a + b| - 1] == a + b[..|b| - 1];
      VolumeSplits(a, b[..|b| - 1]);
    }
  }

  /** The volume of the derived rows is the volume of the candles they are built from. */
  lemma {:induction false} VolumeConserved(f: Frame, k: nat)
    requires f != [] && k <= CompleteCount(f)
    ensures Lead(f) + 3 * k <= |f| || k == 0
    ensures k > 0 ==> Volume(Triples(f)[..k]) == Volume(f[Lead(f)..Lead(f) + 3 * k])
  {
    if k > 0 {
      VolumeConserved(f, k - 1);
      var r, lead := Triples(f)[..k], Lead(f);
      assert r[..k - 1] == Triples(f)[..k - 1];
      assert r[k - 1].bar.volume == Volume(Triple(f, k - 1));
      hide Lead, CompleteCount, Triples;
      VolumeOfRange(f, lead, lead + 3 * (k - 1), lead + 3 * k);
    }
  }

  lemma VolumeOfRange(f: Frame, lo: nat, mid: nat, hi: nat)
    requires lo <= mid <= hi <= |f|
    ensures Volume(f[lo..hi]) == Volume(f[lo..mid]) + Volume(f[mid..hi])
  {
    assert f[lo..hi] == f[lo..mid] + f[mid..hi];
    VolumeSplits(f[lo..mid], f[mid..hi]);
  }

  /** Open and close lie between low and high. */
  predicate Sane(b: Bar) {
    b.low <= b.open <= b.high && b.low <= b.close <= b.high
  }

  lemma {:induction false} Envelope(rows: Frame, i: nat)
    requires i < |rows|
    ensures MinLow(rows) <= rows[i].bar.low && rows[i].bar.high <= MaxHigh(rows)
  {
    if |rows| > 1 && i < |rows| - 1 {
      Envelope(rows[..|rows| - 1], i);
    }
  }

  lemma AggregateIsSane(rows: Frame)
    requires rows != [] && forall i :: 0 <= i < |rows| ==> Sane(rows[i].bar)
    ensures Sane(Aggregate(rows).bar)
  {
    assert Sane(rows[0].bar) && Sane(rows[|rows| - 1].bar);
    Envelope(rows, 0);
    Envelope(rows, |rows| - 1);
  }

  /** Derived rows keep low <= open, close <= high. */
  lemma DerivedRowsAreSane(f: Frame)
    requires ValidFrame(f) && DatesAscend(f) && Derive15m(f).Ok?
    requires forall i :: 0 <= i < |f| ==> Sane(f[i].bar)
    ensures forall j :: 0 <= j < |Derive15m(f).value| ==> Sane(Derive15m(f).value[j].bar)
  {
    DerivationIsTriples(f);
    forall j | 0 <= j < CompleteCount(f)
      ensures Sane(Triples(f)[j].bar)
    {
      AggregateIsSane(Triple(f, j));
    }
  }

  /** Newer candles leave every complete bucket as it was. */
  lemma AppendingKeepsCompleteBuckets(f: Frame, newer: Frame)
    requires f != [] && ValidFrame(f + newer) && DatesAscend(f) && DatesAscend(f + newer)
    ensures ValidFrame(f)
    ensures Derive15m(f).Ok? ==>
      Derive15m(f + newer).Ok? && Derive15m(f).value <= Derive15m(f + newer).value
  {
    var g := f + newer;
    SpacedPrefix(f, newer);
    DerivationIsTriples(f);
    DerivationIsTriples(g);
    hide Derive15m, DatesAscend, Spaced, Aggregate;
    forall j | 0 <= j < CompleteCount(f)
      ensures j < CompleteCount(g) && Triples(f)[j] == Triples(g)[j]
    {
      SameTriple(f, newer, j);
    }
    SameCount(f, newer);
  }

  lemma SpacedPrefix(f: Frame, newer: Frame)
    requires Spaced(f + newer)
    ensures Spaced(f)
  {
    var g := f + newer;
    forall i | 0 < i < |f|
      ensures f[i].date - f[i - 1].date == INTERVAL
    {
      assert f[i] == g[i] && f[i - 1] == g[i - 1];
    }
  }

  lemma SameCount(f: Frame, newer: Frame)
    requires f != []
    ensures Lead(f) == Lead(f + newer) && CompleteCount(f) <= CompleteCount(f + newer)
  {
    assert (f + newer)[0] == f[0];
  }

  lemma SameTriple(f: Frame, newer: Frame, j: nat)
    requires f != [] && j < CompleteCount(f)
    ensures j < CompleteCount(f + newer) && Triple(f, j) == Triple(f + newer, j)
  {
    SameCount(f, newer);
  }
}
