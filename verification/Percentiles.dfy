/**
 The load generator's latency histogram and the percentiles read off it. Comparisons
 such as c >= tot * 0.99 are taken over the rationals.
 */
module Percentiles {

  const HBUCKETS: nat := 1024
  const HUS_PER: nat := 50

  /** Division as in C, toward zero. */
  function TruncDiv(a: int, b: int): int
    requires b > 0
  {
    if a >= 0 then a / b else -((-a) / b)
  }

  /** The bucket of a latency in microseconds. */
  function Bucket(us: int): (b: nat)
    ensures b <= HBUCKETS
  {
    var b := TruncDiv(us, HUS_PER);
    if b < 0 then 0 else if b > HBUCKETS then HBUCKETS else b
  }

  /** What a bucket is: fifty microseconds wide from zero on, with everything from 51.2
      milliseconds on in the last one. */
  lemma BucketMeans(us: int)
    ensures 0 <= us < 51200 ==> 50 * Bucket(us) <= us < 50 * Bucket(us) + 50 && Bucket(us) < 1024
    ensures us < 0 ==> Bucket(us) == 0
    ensures us >= 51200 ==> Bucket(us) == 1024
  {
  }

  /** The value printed for a latency: exact to fifty microseconds, capped at 51.2 ms. */
  predicate Prints(v: nat, us: int) {
    && (0 <= us < 51200 ==> v <= us < v + 50)
    && (us < 0 ==> v == 0)
    && (us >= 51200 ==> v == 51200)
  }

  lemma BucketPrints(us: int)
    ensures Prints(Bucket(us) * HUS_PER, us)
  {
    BucketMeans(us);
  }

  lemma BucketMonotone(x: int, y: int)
    requires x <= y
    ensures Bucket(x) <= Bucket(y)
  {
  }

  function CountAt(lats: seq<int>, b: nat): nat {
    if lats == [] then 0 else (if Bucket(lats[0]) == b then 1 else 0) + CountAt(lats[1..], b)
  }

  /** Latencies in buckets up to b. */
  function CountUpTo(lats: seq<int>, b: int): nat {
    if lats == [] then 0 else (if Bucket(lats[0]) <= b then 1 else 0) + CountUpTo(lats[1..], b)
  }

  /** The histogram of the latencies. */
  ghost predicate Histogram(hist: seq<nat>, lats: seq<int>) {
    |hist| == HBUCKETS + 1 && forall b :: 0 <= b <= HBUCKETS ==> hist[b] == CountAt(lats, b)
  }

  function Total(s: seq<nat>): nat {
    if s == [] then 0 else Total(s[..|s| - 1]) + s[|s| - 1]
  }

  lemma TotalSnoc(s: seq<nat>, x: nat)
    ensures Total(s + [x]) == Total(s) + x
  {
    assert (s + [x])[..|s|] == s;
  }

  lemma {:induction false} CountAtConcat(a: seq<int>, c: seq<int>, b: nat)
    ensures CountAt(a + c, b) == CountAt(a, b) + CountAt(c, b)
  {
    if a == [] {
      assert a + c == c;
    } else {
      CountAtConcat(a[1..], c, b);
      assert (a + c)[0] == a[0] && (a + c)[1..] == a[1..] + c;
    }
  }

  lemma CountAtSnoc(a: seq<int>, us: int, b: nat)
    ensures CountAt(a + [us], b) == CountAt(a, b) + if Bucket(us) == b then 1 else 0
  {
    CountAtConcat(a, [us], b);
    assert [us][1..] == [];
  }

  lemma {:induction false} CountStep(lats: seq<int>, b: nat)
    ensures CountUpTo(lats, b) == CountUpTo(lats, b - 1) + CountAt(lats, b)
  {
    if lats != [] { CountStep(lats[1..], b); }
  }

  lemma {:induction false} CountNone(lats: seq<int>)
    ensures CountUpTo(lats, -1) == 0
  {
    if lats != [] { CountNone(lats[1..]); }
  }

  lemma {:induction false} CountAll(lats: seq<int>)
    ensures CountUpTo(lats, HBUCKETS) == |lats|
  {
    if lats != [] { CountAll(lats[1..]); }
  }

  lemma {:induction false} CountMono(lats: seq<int>, a: int, b: int)
    requires a <= b
    ensures CountUpTo(lats, a) <= CountUpTo(lats, b) <= |lats|
  {
    if lats != [] { CountMono(lats[1..], a, b); }
  }

  /** The sums the percentile loop accumulates are counts of latencies. */
  lemma {:induction false} Cumulative(hist: seq<nat>, lats: seq<int>, b: nat)
    requires Histogram(hist, lats) && b <= HBUCKETS + 1
    ensures Total(hist[..b]) == CountUpTo(lats, b - 1)
  {
    if b == 0 {
      CountNone(lats);
    } else {
      Cumulative(hist, lats, b - 1);
      assert hist[..b] == hist[..b - 1] + [hist[b - 1]];
      TotalSnoc(hist[..b - 1], hist[b - 1]);
      CountStep(lats, b - 1);
    }
  }

  /** The histogram holds as many latencies as were recorded. */
  lemma HistogramTotal(hist: seq<nat>, lats: seq<int>)
    requires Histogram(hist, lats)
    ensures Total(hist) == |lats|
  {
    Cumulative(hist, lats, HBUCKETS + 1);
    assert hist[..HBUCKETS + 1] == hist;
    CountAll(lats);
  }

  // ---- order statistics

  predicate Sorted(s: seq<int>) {
    forall i, j :: 0 <= i <= j < |s| ==> s[i] <= s[j]
  }

  /** The 1-based rank of the num/den quantile among n: the least r with r >= n*num/den. */
  function Rank(n: nat, num: nat, den: nat): nat
    requires den > 0
  {
    (n * num + den - 1) / den
  }

  lemma RankSpec(n: nat, num: nat, den: nat, c: nat)
    requires den > 0
    ensures c * den >= n * num <==> c >= Rank(n, num, den)
  {
    var m := n * num;
    var r := Rank(n, num, den);
    assert r * den <= m + den - 1 < r * den + den;
    if c >= r {
      assert c * den >= r * den;
    } else {
      assert c + 1 <= r;
      assert (c + 1) * den <= r * den;
    }
  }

  lemma RankRange(n: nat, num: nat, den: nat)
    requires n > 0 && 0 < num <= den
    ensures 1 <= Rank(n, num, den) <= n
  {
    RankSpec(n, num, den, 0);
    RankSpec(n, num, den, n);
    assert n * num >= 1;
    assert n * den >= n * num;
  }

  lemma RankMono(n: nat, a: nat, b: nat, d: nat, e: nat)
    requires b > 0 && e > 0 && a * e <= d * b
    ensures Rank(n, a, b) <= Rank(n, d, e)
  {
    var r := Rank(n, d, e);
    RankSpec(n, d, e, r);
    assert r * b >= n * a by {
      assert r * e >= n * d;
      assert (r * e) * b >= (n * d) * b;
      assert (n * d) * b == n * (d * b) >= n * (a * e);
      assert (r * e) * b == (r * b) * e && n * (a * e) == (n * a) * e;
      assert (r * b) * e >= (n * a) * e;
    }
    RankSpec(n, a, b, r);
  }

  /** In a sorted list the latencies in buckets up to b are a prefix. */
  lemma {:induction false} SortedPrefix(s: seq<int>, r: nat, b: int)
    requires Sorted(s) && 1 <= r <= |s|
    ensures CountUpTo(s, b) >= r <==> Bucket(s[r - 1]) <= b
  {
    CountMono(s[1..], b, b);
    if Bucket(s[0]) > b {
      forall i | 0 <= i < |s| ensures Bucket(s[i]) > b { BucketMonotone(s[0], s[i]); }
      AllAbove(s, b);
    } else if r > 1 {
      assert Sorted(s[1..]);
      SortedPrefix(s[1..], r - 1, b);
    }
  }

  lemma {:induction false} AllAbove(s: seq<int>, b: int)
    requires forall i :: 0 <= i < |s| ==> Bucket(s[i]) > b
    ensures CountUpTo(s, b) == 0
  {
    if s != [] { AllAbove(s[1..], b); }
  }

  lemma TakeOut(s: seq<int>, i: nat)
    requires i < |s|
    ensures multiset(s[..i] + s[i + 1..]) == multiset(s) - multiset{s[i]}
  {
    assert s == s[..i] + [s[i]] + s[i + 1..];
  }

  /** Where the first element of a is in a rearrangement of a. */
  lemma Locate(a: seq<int>, c: seq<int>) returns (i: nat)
    requires a != [] && multiset(a) == multiset(c)
    ensures i < |c| && c[i] == a[0] && multiset(a[1..]) == multiset(c[..i] + c[i + 1..])
  {
    assert a[0] in multiset(a);
    i :| 0 <= i < |c| && c[i] == a[0];
    TakeOut(c, i);
    assert a == [a[0]] + a[1..];
  }

  lemma {:induction false} CountMultiset(a: seq<int>, c: seq<int>, b: int)
    requires multiset(a) == multiset(c)
    ensures CountUpTo(a, b) == CountUpTo(c, b)
  {
    if a == [] {
      assert |c| == |multiset(c)| == |multiset(a)| == 0;
    } else {
      var i := Locate(a, c);
      CountMultiset(a[1..], c[..i] + c[i + 1..], b);
      CountWithout(c, i, b);
    }
  }

  lemma CountWithout(c: seq<int>, i: nat, b: int)
    requires i < |c|
    ensures CountUpTo(c, b) == CountUpTo(c[..i] + c[i + 1..], b) + if Bucket(c[i]) <= b then 1 else 0
  {
    CountUpToConcat(c[..i], c[i..], b);
    CountUpToConcat(c[..i], c[i + 1..], b);
    assert c == c[..i] + c[i..];
    assert c[i..][0] == c[i] && c[i..][1..] == c[i + 1..];
  }

  lemma {:induction false} CountUpToConcat(a: seq<int>, c: seq<int>, b: int)
    ensures CountUpTo(a + c, b) == CountUpTo(a, b) + CountUpTo(c, b)
  {
    if a == [] {
      assert a + c == c;
    } else {
      CountUpToConcat(a[1..], c, b);
      assert (a + c)[0] == a[0] && (a + c)[1..] == a[1..] + c;
    }
  }

  // ---- what the loop reports

  /** The latencies counted up to bucket b are at least num/den of tot. */
  predicate Reached(hist: seq<nat>, tot: nat, num: nat, den: nat, b: nat)
    requires b < |hist|
  {
    Total(hist[..b + 1]) * den >= tot * num
  }

  ghost predicate NotYet(hist: seq<nat>, tot: nat, num: nat, den: nat, b: nat)
    requires b <= |hist|
  {
    forall a :: 0 <= a < b ==> !Reached(hist, tot, num, den, a)
  }

  /** b is the first bucket at which the cumulative count reaches num/den of tot. */
  ghost predicate FirstReaching(hist: seq<nat>, tot: nat, num: nat, den: nat, b: nat) {
    b < |hist| && Reached(hist, tot, num, den, b) && NotYet(hist, tot, num, den, b)
  }

  lemma ReachedRank(hist: seq<nat>, lats: seq<int>, s: seq<int>, num: nat, den: nat, b: nat)
    requires Histogram(hist, lats) && lats != [] && 0 < num <= den && b <= HBUCKETS
    requires Sorted(s) && multiset(s) == multiset(lats) && |s| == |lats|
    requires 1 <= Rank(|lats|, num, den) <= |s|
    ensures Reached(hist, |lats|, num, den, b) <==> Bucket(s[Rank(|lats|, num, den) - 1]) <= b
  {
    Cumulative(hist, lats, b + 1);
    CountMultiset(lats, s, b);
    RankSpec(|lats|, num, den, CountUpTo(lats, b));
    SortedPrefix(s, Rank(|lats|, num, den), b);
  }

  lemma ReachedInBucket(hist: seq<nat>, tot: nat, num: nat, den: nat, b: nat)
    requires FirstReaching(hist, tot, num, den, b) && tot > 0 && num > 0
    ensures hist[b] > 0
  {
    assert hist[..b + 1] == hist[..b] + [hist[b]];
    TotalSnoc(hist[..b], hist[b]);
    if b > 0 {
      assert !Reached(hist, tot, num, den, b - 1);
    } else {
      assert tot * num > 0;
    }
  }

  /** The reported bucket is the bucket of the order statistic of that rank, whatever
      sorted arrangement of the recorded latencies one takes, and it is not empty. */
  lemma PercentileIsOrderStatistic(hist: seq<nat>, lats: seq<int>, s: seq<int>, num: nat, den: nat, b: nat)
    requires Histogram(hist, lats) && lats != [] && 0 < num <= den
    requires Sorted(s) && multiset(s) == multiset(lats)
    requires FirstReaching(hist, |lats|, num, den, b)
    ensures |s| == |lats| && 1 <= Rank(|lats|, num, den) <= |s|
    ensures b == Bucket(s[Rank(|lats|, num, den) - 1]) && hist[b] > 0
  {
    assert |s| == |multiset(s)| && |lats| == |multiset(lats)|;
    RankRange(|lats|, num, den);
    ReachedRank(hist, lats, s, num, den, b);
    if b > 0 {
      ReachedRank(hist, lats, s, num, den, b - 1);
      assert !Reached(hist, |lats|, num, den, b - 1);
    }
    ReachedInBucket(hist, |lats|, num, den, b);
  }

  /** A smaller quantile is reached no later. */
  lemma FirstMono(hist: seq<nat>, tot: nat, num: nat, den: nat, b: nat, num1: nat, den1: nat, b1: nat)
    requires FirstReaching(hist, tot, num, den, b) && FirstReaching(hist, tot, num1, den1, b1)
    requires den > 0 && den1 > 0 && num * den1 <= num1 * den
    ensures b <= b1
  {
    if b1 < b {
      var c := Total(hist[..b1 + 1]);
      assert !Reached(hist, tot, num, den, b1);
      RankSpec(tot, num, den, c);
      RankSpec(tot, num1, den1, c);
      RankMono(tot, num, den, num1, den1);
    }
  }

  /** The scan has noted the first bucket to reach num/den, if it passed it. */
  ghost predicate Noted(hist: seq<nat>, tot: nat, num: nat, den: nat, noted: bool, us: nat, b: nat)
    requires b <= |hist|
  {
    if noted then exists a: nat :: us == a * HUS_PER && FirstReaching(hist, tot, num, den, a)
    else NotYet(hist, tot, num, den, b)
  }

  lemma NoteStep(hist: seq<nat>, tot: nat, num: nat, den: nat, noted: bool, us: nat, b: nat)
    requires b < |hist| && Noted(hist, tot, num, den, noted, us, b)
    ensures var now := Reached(hist, tot, num, den, b);
            Noted(hist, tot, num, den, noted || now, if !noted && now then b * HUS_PER else us, b + 1)
  {
    if !noted && Reached(hist, tot, num, den, b) {
      assert FirstReaching(hist, tot, num, den, b);
    }
  }

  /** What is reported: first buckets to reach the three shares and the highest
      non-empty bucket, in order. */
  ghost predicate Reported(hist: seq<nat>, tot: nat, p50: nat, p99: nat, p999: nat, max: nat) {
    exists b50: nat, b99: nat, b999: nat, top: nat ::
      && p50 == b50 * HUS_PER && p99 == b99 * HUS_PER && p999 == b999 * HUS_PER && max == top * HUS_PER
      && FirstReaching(hist, tot, 50, 100, b50)
      && FirstReaching(hist, tot, 99, 100, b99)
      && FirstReaching(hist, tot, 999, 1000, b999)
      && IsHighest(hist, top)
      && b50 <= b99 <= b999 <= top
  }

  predicate IsHighest(hist: seq<nat>, top: nat) {
    top < |hist| && hist[top] > 0 && forall b :: top < b < |hist| ==> hist[b] == 0
  }

  /** The highest non-empty bucket is that of the greatest latency: below it the count is
      short of the total. */
  lemma HighestIsLast(hist: seq<nat>, lats: seq<int>, s: seq<int>, top: nat)
    requires Histogram(hist, lats) && lats != [] && IsHighest(hist, top)
    requires Sorted(s) && multiset(s) == multiset(lats)
    ensures |s| == |lats| && top == Bucket(s[|s| - 1])
  {
    assert |s| == |multiset(s)| && |lats| == |multiset(lats)|;
    AllBelow(hist, lats, top, HBUCKETS);
    CountStep(lats, top);
    CountMultiset(lats, s, top);
    CountMultiset(lats, s, top - 1);
    SortedPrefix(s, |s|, top);
    SortedPrefix(s, |s|, top - 1);
  }

  lemma {:induction false} AllBelow(hist: seq<nat>, lats: seq<int>, top: nat, b: nat)
    requires Histogram(hist, lats) && IsHighest(hist, top) && top <= b <= HBUCKETS
    ensures CountUpTo(lats, top) == CountUpTo(lats, b)
    ensures b == HBUCKETS ==> CountUpTo(lats, top) == |lats|
    decreases b
  {
    if b == HBUCKETS { CountAll(lats); }
    if b > top {
      AllBelow(hist, lats, top, b - 1);
      CountStep(lats, b);
    }
  }

  /** The reported values are the buckets of order statistics. */
  lemma ReportedStatistics(h: seq<nat>, lats: seq<int>, s: seq<int>, p50: nat, p99: nat, p999: nat, max: nat)
    requires Histogram(h, lats) && lats != [] && Reported(h, |lats|, p50, p99, p999, max)
    requires Sorted(s) && multiset(s) == multiset(lats)
    ensures |s| == |lats| && p50 <= p99 <= p999 <= max
    ensures 1 <= Rank(|s|, 50, 100) <= |s| && p50 == Bucket(s[Rank(|s|, 50, 100) - 1]) * HUS_PER
    ensures 1 <= Rank(|s|, 99, 100) <= |s| && p99 == Bucket(s[Rank(|s|, 99, 100) - 1]) * HUS_PER
    ensures 1 <= Rank(|s|, 999, 1000) <= |s| && p999 == Bucket(s[Rank(|s|, 999, 1000) - 1]) * HUS_PER
    ensures max == Bucket(s[|s| - 1]) * HUS_PER
  {
    var b50: nat, b99: nat, b999: nat, top: nat :|
      && p50 == b50 * HUS_PER && p99 == b99 * HUS_PER && p999 == b999 * HUS_PER && max == top * HUS_PER
      && FirstReaching(h, |lats|, 50, 100, b50)
      && FirstReaching(h, |lats|, 99, 100, b99)
      && FirstReaching(h, |lats|, 999, 1000, b999)
      && IsHighest(h, top)
      && b50 <= b99 <= b999 <= top;
    PercentileIsOrderStatistic(h, lats, s, 50, 100, b50);
    PercentileIsOrderStatistic(h, lats, s, 99, 100, b99);
    PercentileIsOrderStatistic(h, lats, s, 999, 1000, b999);
    HighestIsLast(h, lats, s, top);
  }

  /** p50, p99, p99.9 and the maximum in microseconds. */
  method Report(hist: array<nat>, tot: nat, ghost lats: seq<int>) returns (p50: nat, p99: nat, p999: nat, max: nat)
    requires hist.Length == HBUCKETS + 1 && Histogram(hist[..], lats) && tot == |lats|
    ensures tot == 0 ==> p50 == p99 == p999 == max == 0
    ensures tot > 0 ==> Reported(hist[..], tot, p50, p99, p999, max)
  {
    p50, p99, p999, max := 0, 0, 0, 0;
    if tot == 0 {
      return;
    }
    var top := Highest(hist, lats);
    max := top * HUS_PER;
    p50, p99, p999 := Scan(hist, tot, lats);
    InOrder(hist[..], tot, p50, p99, p999, top);
  }

  /** All three shares are noted before the scan is at b, or not yet reached. */
  ghost predicate Scanned(hist: seq<nat>, tot: nat, s50: bool, p50: nat, s99: bool, p99: nat, s999: bool,
                          p999: nat, b: nat)
    requires b <= |hist|
  {
    && Noted(hist, tot, 50, 100, s50, p50, b)
    && Noted(hist, tot, 99, 100, s99, p99, b)
    && Noted(hist, tot, 999, 1000, s999, p999, b)
  }

  /** One pass over the buckets that notes the first to reach each share and stops when
      the last share is reached. */
  method Scan(hist: array<nat>, tot: nat, ghost lats: seq<int>) returns (p50: nat, p99: nat, p999: nat)
    requires hist.Length == HBUCKETS + 1 && Histogram(hist[..], lats) && tot == |lats|
    ensures Scanned(hist[..], tot, true, p50, true, p99, true, p999, 0)
  {
    p50, p99, p999 := 0, 0, 0;
    var c, b := 0, 0;
    var set50, set99, set999 := false, false, false;
    while b <= HBUCKETS && !set999
      invariant 0 <= b <= HBUCKETS + 1 && c == Total(hist[..b])
      invariant Scanned(hist[..], tot, set50, p50, set99, p99, set999, p999, b)
      invariant set999 ==> set99 && set50
      decreases HBUCKETS + 1 - b
    {
      c := c + hist[b];
      CumStep(hist[..], b, c);
      ScanStep(hist[..], tot, set50, p50, set99, p99, set999, p999, b, c);
      if !set50 && c * 100 >= tot * 50 {
        p50, set50 := b * HUS_PER, true;
      }
      if !set99 && c * 100 >= tot * 99 {
        p99, set99 := b * HUS_PER, true;
      }
      if !set999 && c * 1000 >= tot * 999 {
        p999, set999 := b * HUS_PER, true;
      }
      b := b + 1;
      assert c == Total(hist[..b]);
    }
    AllReached(hist[..], lats);
  }

  lemma CumStep(hist: seq<nat>, b: nat, c: nat)
    requires b < |hist| && c == Total(hist[..b]) + hist[b]
    ensures c == Total(hist[..b + 1])
  {
    assert hist[..b + 1] == hist[..b] + [hist[b]];
    TotalSnoc(hist[..b], hist[b]);
  }

  lemma ScanStep(hist: seq<nat>, tot: nat, s50: bool, p50: nat, s99: bool, p99: nat, s999: bool, p999: nat,
                 b: nat, c: nat)
    requires b < |hist| && c == Total(hist[..b + 1]) && Scanned(hist, tot, s50, p50, s99, p99, s999, p999, b)
    ensures var r50, r99, r999 := c * 100 >= tot * 50, c * 100 >= tot * 99, c * 1000 >= tot * 999;
            Scanned(hist, tot, s50 || r50, if !s50 && r50 then b * HUS_PER else p50,
                    s99 || r99, if !s99 && r99 then b * HUS_PER else p99,
                    s999 || r999, if !s999 && r999 then b * HUS_PER else p999, b + 1)
  {
    NoteStep(hist, tot, 50, 100, s50, p50, b);
    NoteStep(hist, tot, 99, 100, s99, p99, b);
    NoteStep(hist, tot, 999, 1000, s999, p999, b);
  }

  lemma InOrder(hist: seq<nat>, tot: nat, p50: nat, p99: nat, p999: nat, top: nat)
    requires tot > 0 && Scanned(hist, tot, true, p50, true, p99, true, p999, 0) && IsHighest(hist, top)
    ensures Reported(hist, tot, p50, p99, p999, top * HUS_PER)
  {
    var b50: nat :| p50 == b50 * HUS_PER && FirstReaching(hist, tot, 50, 100, b50);
    var b99: nat :| p99 == b99 * HUS_PER && FirstReaching(hist, tot, 99, 100, b99);
    var b999: nat :| p999 == b999 * HUS_PER && FirstReaching(hist, tot, 999, 1000, b999);
    FirstMono(hist, tot, 50, 100, b50, 99, 100, b99);
    FirstMono(hist, tot, 99, 100, b99, 999, 1000, b999);
    ReachedInBucket(hist, tot, 999, 1000, b999);
  }

  lemma AllReached(hist: seq<nat>, lats: seq<int>)
    requires Histogram(hist, lats)
    ensures Reached(hist, |lats|, 999, 1000, HBUCKETS)
  {
    HistogramTotal(hist, lats);
    assert hist[..HBUCKETS + 1] == hist;
  }

  /** The highest non-empty bucket. */
  method Highest(hist: array<nat>, ghost lats: seq<int>) returns (top: nat)
    requires hist.Length == HBUCKETS + 1 && Histogram(hist[..], lats) && lats != []
    ensures IsHighest(hist[..], top)
  {
    var found := false;
    top := 0;
    for b := 0 to HBUCKETS + 1
      invariant found ==> top < b && hist[top] > 0
      invariant forall a :: (if found then top < a else 0 <= a) && a < b ==> hist[a] == 0
    {
      if hist[b] > 0 {
        found, top := true, b;
      }
    }
    assert hist[..][Bucket(lats[0])] == hist[Bucket(lats[0])];
  }
}
