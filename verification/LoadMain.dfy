/**
 The load generator as a whole: how the target concurrency is split over threads, and
 how the threads' books are added up and reported.
 */
module LoadMain {
  import opened Basics
  import opened Percentiles
  import opened LoadGen
  import opened LoadWorker
  import opened LoadCourse
  import opened LoadLoop

  // ---- closed-loop concurrency

  /** The number of threads actually started: as many as asked for, but at least one, and no
      more than there are connections to share out. */
  function Threads(threads: int, conns: int): (n: nat)
    ensures n >= 1 && (conns > 0 ==> n <= conns)
    ensures (n < threads ==> n == conns) && (n > threads ==> n == 1)
  {
    var t := if threads < 1 then 1 else threads;
    if conns > 0 && t > conns then conns else t
  }

  /** The share of thread i out of n. */
  function Share(conns: nat, n: nat, i: nat): nat
    requires n > 0
  {
    conns / n + if i < conns % n then 1 else 0
  }

  function ShareSum(conns: nat, n: nat, k: nat): nat
    requires n > 0
  {
    if k == 0 then 0 else ShareSum(conns, n, k - 1) + Share(conns, n, k - 1)
  }

  lemma {:induction false} ShareSumUpTo(conns: nat, n: nat, k: nat)
    requires n > 0
    ensures ShareSum(conns, n, k) == k * (conns / n) + Min(k, conns % n)
  {
    if k > 0 {
      ShareSumUpTo(conns, n, k - 1);
      assert k * (conns / n) == (k - 1) * (conns / n) + conns / n;
    }
  }

  lemma AtLeastOne(conns: nat, n: nat)
    requires 0 < n <= conns
    ensures conns / n >= 1
  {
    assert conns == n * (conns / n) + conns % n;
  }

  /** Every thread gets at least one connection, so none falls into the open-loop mode, and
      together they get exactly the target; no two differ by more than one, and the larger
      shares come first. */
  lemma SharesExact(conns: nat, threads: int, i: nat, j: nat)
    requires conns > 0 && i <= j < Threads(threads, conns)
    ensures var n := Threads(threads, conns);
            && Share(conns, n, i) >= 1 && ShareSum(conns, n, n) == conns
            && Share(conns, n, j) <= Share(conns, n, i) <= Share(conns, n, j) + 1
  {
    var n := Threads(threads, conns);
    ShareSumUpTo(conns, n, n);
    assert n * (conns / n) + conns % n == conns;
    AtLeastOne(conns, n);
  }

  /** How many connections a thread has in flight after its first k starts and events. */
  ghost function InFlightAfter(trace: seq<nat>, k: nat): nat {
    if k <= |trace| then Latest(trace[..k]) else Latest(trace)
  }

  /** The first n threads together, when thread i has come as far as the schedule lets it:
      a schedule names, turn by turn, the thread that moves. */
  ghost function InFlight(traces: seq<seq<nat>>, schedule: seq<nat>, n: nat): nat
    requires n <= |traces|
  {
    if n == 0 then 0
    else InFlight(traces, schedule, n - 1)
         + InFlightAfter(traces[n - 1], Count((i: nat) => i == n - 1, schedule))
  }

  lemma {:induction false} WithinTotal(conns: nat, traces: seq<seq<nat>>, schedule: seq<nat>, n: nat, k: nat)
    requires n > 0 && k <= |traces|
    requires forall i :: 0 <= i < |traces| ==> WithinCap(traces[i], Share(conns, n, i))
    ensures InFlight(traces, schedule, k) <= ShareSum(conns, n, k)
  {
    if k > 0 { WithinTotal(conns, traces, schedule, n, k - 1); }
  }

  /** However the threads interleave, no more than the target is ever in flight in total. */
  lemma ConcurrencyBound(conns: nat, threads: int, traces: seq<seq<nat>>, schedule: seq<nat>)
    requires conns > 0 && |traces| == Threads(threads, conns)
    requires forall i :: 0 <= i < |traces| ==> WithinCap(traces[i], Share(conns, |traces|, i))
    ensures InFlight(traces, schedule, |traces|) <= conns
  {
    WithinTotal(conns, traces, schedule, |traces|, |traces|);
    SharesExact(conns, threads, 0, 0);
  }

  /** The target of thread i. */
  function Target(conns: int, n: nat, i: nat): int
    requires n > 0
  {
    if conns > 0 then Share(conns, n, i) else 0
  }

  ghost predicate Joined(w: Worker, b: Books)
    reads w, w.failed, w.hist, w.live
  {
    w.Valid() && w.Abs() == b
  }

  /** What each thread has to do: its share of the target, or of the rate. */
  function Jobs(conns: int, rate: real, duration: real, starts: seq<real>): seq<Job>
    requires starts != []
  {
    seq(|starts|, i requires 0 <= i < |starts| =>
      Job(Target(conns, |starts|, i), rate / |starts| as real, duration, starts[i]))
  }

  /** The books, the way out, what is left in flight and the trace are those of the job. So the
      books balance with what is left in flight, nothing if the thread came out of its loop; it
      was never above its cap; and open-loop it kept to its rate and kept up with it. */
  ghost predicate Does(job: Job, pct: int, script: seq<Pass>, b: Books, exited: bool, left: nat, trace: seq<nat>) {
    var th := ThreadTo(job, Empty(pct), script);
    && b == th.load.books && trace == th.load.trace && exited == !th.end.Running?
    && left == (if exited then 0 else |th.load.conns|) && Accounted(b, left)
    && WithinCap(trace, if job.target > 0 then job.target else 60000)
    && Paced(b, job.target, job.rate, job.duration) && KeptUp(b, trace, job, script)
  }

  /** The threads joined so far have done their jobs. */
  ghost predicate AllDo(jobs: seq<Job>, pct: int, scripts: seq<seq<Pass>>, bs: seq<Books>, exited: seq<bool>,
                        left: seq<nat>, traces: seq<seq<nat>>)
  {
    && |bs| == |exited| == |left| == |traces| <= |jobs| == |scripts|
    && forall i :: 0 <= i < |bs| ==> Does(jobs[i], pct, scripts[i], bs[i], exited[i], left[i], traces[i])
  }

  lemma AllDoSnoc(jobs: seq<Job>, pct: int, scripts: seq<seq<Pass>>, bs: seq<Books>, exited: seq<bool>, left: seq<nat>,
                  traces: seq<seq<nat>>, b: Books, out: bool, stay: nat, trace: seq<nat>)
    requires AllDo(jobs, pct, scripts, bs, exited, left, traces) && |bs| < |jobs|
    requires Does(jobs[|bs|], pct, scripts[|bs|], b, out, stay, trace)
    ensures AllDo(jobs, pct, scripts, bs + [b], exited + [out], left + [stay], traces + [trace])
  {
  }

  method RunThread(samplePct: int, job: Job, script: seq<Pass>)
    returns (w: Worker, exited: bool, ghost b: Books, ghost left: nat, ghost trace: seq<nat>)
    ensures Joined(w, b) && w.samplePct == samplePct && Does(job, samplePct, script, b, exited, left, trace)
  {
    w := new Worker(samplePct);
    var inflight;
    exited, inflight := WorkerMain(w, job, script);
    b, left, trace := w.Abs(), if exited then 0 else |w.live|, w.trace;
  }

  /** Start the threads, each with its share of the rate or of the target, and join them.
      They share nothing, so how they interleave matters to the total in flight only. */
  method StartThreads(samplePct: int, jobs: seq<Job>, scripts: seq<seq<Pass>>)
    returns (ws: seq<Worker>, exited: seq<bool>,
             ghost bs: seq<Books>, ghost left: seq<nat>, ghost traces: seq<seq<nat>>)
    requires |scripts| == |jobs|
    ensures |ws| == |bs| == |jobs| && AllDo(jobs, samplePct, scripts, bs, exited, left, traces)
    ensures forall i :: 0 <= i < |ws| ==> Joined(ws[i], bs[i]) && ws[i].samplePct == samplePct
  {
    ws, exited, bs, left, traces := [], [], [], [], [];
    for i := 0 to |jobs|
      invariant |ws| == |bs| == i && AllDo(jobs, samplePct, scripts, bs, exited, left, traces)
      invariant forall j :: 0 <= j < i ==> Joined(ws[j], bs[j]) && ws[j].samplePct == samplePct
    {
      var w, out;
      ghost var b, stay, trace;
      w, out, b, stay, trace := RunThread(samplePct, jobs[i], scripts[i]);
      AllDoSnoc(jobs, samplePct, scripts, bs, exited, left, traces, b, out, stay, trace);
      ws, exited, bs, left, traces := ws + [w], exited + [out], bs + [b], left + [stay], traces + [trace];
    }
  }

  method RunThreads(conns: int, threads: int, samplePct: int, rate: real, duration: real,
                    starts: seq<real>, scripts: seq<seq<Pass>>)
    returns (ws: seq<Worker>, exited: seq<bool>,
             ghost bs: seq<Books>, ghost left: seq<nat>, ghost traces: seq<seq<nat>>)
    requires |starts| == |scripts| == Threads(threads, conns)
    ensures |ws| == |bs| == Threads(threads, conns)
    ensures AllDo(Jobs(conns, rate, duration, starts), samplePct, scripts, bs, exited, left, traces)
    ensures forall i :: 0 <= i < |ws| ==> Joined(ws[i], bs[i]) && ws[i].samplePct == samplePct
    ensures conns > 0 ==> forall schedule :: InFlight(traces, schedule, |traces|) <= conns
  {
    ws, exited, bs, left, traces := StartThreads(samplePct, Jobs(conns, rate, duration, starts), scripts);
    if conns > 0 {
      EachWithin(conns, traces);
      forall schedule ensures InFlight(traces, schedule, |traces|) <= conns {
        ConcurrencyBound(conns, threads, traces, schedule);
      }
    }
  }

  /** The thread comes round at least once an interval, never reaches its cap, and comes
      round x behind its start or later. */
  ghost predicate OnTime(trace: seq<nat>, job: Job, script: seq<Pass>, x: real) {
    Dense(job, script) && NeverFull(trace) && CameRound(job, script, x)
  }

  ghost predicate AllOnTime(traces: seq<seq<nat>>, jobs: seq<Job>, scripts: seq<seq<Pass>>, x: real)
    requires |jobs| == |traces| == |scripts|
  {
    forall i :: 0 <= i < |jobs| ==> OnTime(traces[i], jobs[i], scripts[i], x)
  }

  ghost predicate AllOutpace(bs: seq<Books>, share: real, x: real) {
    forall i :: 0 <= i < |bs| ==> Outpaces(Attempts(bs[i]), share, x)
  }

  lemma EachOutpaces(bs: seq<Books>, traces: seq<seq<nat>>, jobs: seq<Job>, scripts: seq<seq<Pass>>, share: real,
                     x: real)
    requires |bs| == |jobs| == |traces| == |scripts| && share > 0.0
    requires forall i :: 0 <= i < |jobs| ==> jobs[i].target <= 0 && jobs[i].rate == share
    requires forall i :: 0 <= i < |bs| ==> KeptUp(bs[i], traces[i], jobs[i], scripts[i])
    requires AllOnTime(traces, jobs, scripts, x)
    ensures AllOutpace(bs, share, x)
  {
    forall i | 0 <= i < |bs| ensures Outpaces(Attempts(bs[i]), share, x) {
      assert KeptUp(bs[i], traces[i], jobs[i], scripts[i]) && OnTime(traces[i], jobs[i], scripts[i], x);
    }
  }

  lemma TotalAbove(bs: seq<Books>, bound: real)
    requires bs != [] && forall i :: 0 <= i < |bs| ==> Attempts(bs[i]) as real > bound
    ensures SumOf(Attempts, bs) as real > Span(|bs|, bound)
  {
    SumAbove(bs, bound, |bs|);
    assert bs[..|bs|] == bs;
  }

  lemma TotalOutpaces(bs: seq<Books>, share: real, rate: real, x: real)
    requires bs != [] && share == rate / |bs| as real && AllOutpace(bs, share, x)
    ensures Outpaces(SumOf(Attempts, bs), rate, x)
  {
    TotalAbove(bs, share * x);
    Spread(share, rate, |bs|, x);
  }

  /** Open-loop, the threads together attempt more than rate * x starts, if all are on time
      for x seconds. */
  lemma TotalKeptUp(bs: seq<Books>, traces: seq<seq<nat>>, conns: int, rate: real, duration: real, starts: seq<real>,
                    scripts: seq<seq<Pass>>, x: real)
    requires |bs| == |starts| == |traces| == |scripts| > 0 && conns <= 0 && rate > 0.0
    requires var jobs := Jobs(conns, rate, duration, starts);
             && (forall i :: 0 <= i < |bs| ==> KeptUp(bs[i], traces[i], jobs[i], scripts[i]))
             && AllOnTime(traces, jobs, scripts, x)
    ensures Outpaces(SumOf(Attempts, bs), rate, x)
  {
    SharePositive(rate, |bs|);
    EachOutpaces(bs, traces, Jobs(conns, rate, duration, starts), scripts, rate / |bs| as real, x);
    TotalOutpaces(bs, rate / |bs| as real, rate, x);
  }

  lemma {:induction false} SumAbove(bs: seq<Books>, bound: real, k: nat)
    requires k <= |bs| && forall i :: 0 <= i < |bs| ==> Attempts(bs[i]) as real > bound
    ensures SumOf(Attempts, bs[..k]) as real >= Span(k, bound)
    ensures k > 0 ==> SumOf(Attempts, bs[..k]) as real > Span(k, bound)
  {
    if k > 0 {
      SumAbove(bs, bound, k - 1);
      assert bs[..k] == bs[..k - 1] + [bs[k - 1]];
      SumSnoc(Attempts, bs[..k - 1], bs[k - 1]);
      SpanAdd(k - 1, 1, bound);
    }
  }

  ghost predicate AllPaced(bs: seq<Books>, share: real, duration: real) {
    forall i :: 0 <= i < |bs| ==> Paced(bs[i], 0, share, duration)
  }

  /** Open-loop, the threads together attempt fewer than rate * duration + threads starts. */
  lemma TotalPaced(bs: seq<Books>, rate: real, duration: real)
    requires bs != [] && rate > 0.0 && SumOf(Attempts, bs) > 0 && AllPaced(bs, rate / |bs| as real, duration)
    ensures SumOf(Attempts, bs) as real < rate * duration + |bs| as real
  {
    SharePositive(rate, |bs|);
    TotalPacedBy(bs, rate / |bs| as real, rate, duration);
  }

  lemma TotalPacedBy(bs: seq<Books>, share: real, rate: real, duration: real)
    requires bs != [] && share == rate / |bs| as real > 0.0 && SumOf(Attempts, bs) > 0 && AllPaced(bs, share, duration)
    ensures SumOf(Attempts, bs) as real < rate * duration + |bs| as real
  {
    TotalBelow(bs, share, duration);
    Spread(share, rate, |bs|, duration);
  }

  lemma SharePositive(rate: real, n: nat)
    requires n > 0 && rate > 0.0
    ensures rate / n as real > 0.0
  {
  }

  lemma TotalBelow(bs: seq<Books>, share: real, duration: real)
    requires bs != [] && share > 0.0 && SumOf(Attempts, bs) > 0
    requires AllPaced(bs, share, duration)
    ensures SumOf(Attempts, bs) as real < Span(|bs|, share * duration + 1.0)
  {
    EachBelow(bs, share, duration);
    SumBelow(bs, share * duration + 1.0, |bs|);
    assert bs[..|bs|] == bs;
  }

  lemma EachBelow(bs: seq<Books>, share: real, duration: real)
    requires share > 0.0 && SumOf(Attempts, bs) > 0
    requires AllPaced(bs, share, duration)
    ensures forall i :: 0 <= i < |bs| ==> Attempts(bs[i]) as real < share * duration + 1.0
  {
    var i := SomeAttempt(bs);
    assert Paced(bs[i], 0, share, duration);
    forall j | 0 <= j < |bs| ensures Attempts(bs[j]) as real < share * duration + 1.0 {
      assert Paced(bs[j], 0, share, duration);
    }
  }

  /** Together the threads have the whole rate. */
  lemma Spread(share: real, rate: real, n: nat, duration: real)
    requires n > 0 && share == rate / n as real
    ensures Span(n, share * duration) == rate * duration
    ensures Span(n, share * duration + 1.0) == rate * duration + n as real
  {
    var m := n as real;
    assert m * share == rate;
    assert m * (share * duration) == (m * share) * duration;
  }

  lemma {:induction false} SomeAttempt(bs: seq<Books>) returns (i: nat)
    requires SumOf(Attempts, bs) > 0
    ensures i < |bs| && Attempts(bs[i]) > 0
  {
    var n := |bs| - 1;
    if Attempts(bs[n]) > 0 {
      i := n;
    } else {
      i := SomeAttempt(bs[..n]);
    }
  }

  lemma {:induction false} SumBelow(bs: seq<Books>, bound: real, k: nat)
    requires k <= |bs| && forall i :: 0 <= i < |bs| ==> Attempts(bs[i]) as real < bound
    ensures SumOf(Attempts, bs[..k]) as real <= Span(k, bound)
    ensures k > 0 ==> SumOf(Attempts, bs[..k]) as real < Span(k, bound)
  {
    if k > 0 {
      SumBelow(bs, bound, k - 1);
      assert bs[..k] == bs[..k - 1] + [bs[k - 1]];
      SumSnoc(Attempts, bs[..k - 1], bs[k - 1]);
      SpanAdd(k - 1, 1, bound);
    }
  }

  lemma EachWithin(conns: nat, traces: seq<seq<nat>>)
    requires 0 < |traces| <= conns
    requires forall i :: 0 <= i < |traces| ==>
               var target := Target(conns, |traces|, i); WithinCap(traces[i], if target > 0 then target else 60000)
    ensures forall i :: 0 <= i < |traces| ==> WithinCap(traces[i], Share(conns, |traces|, i))
  {
    AtLeastOne(conns, |traces|);
    forall i | 0 <= i < |traces| ensures Target(conns, |traces|, i) == Share(conns, |traces|, i) > 0 {}
  }

  // ---- adding up the threads

  ghost function AllLats(bs: seq<Books>): seq<int> {
    if bs == [] then [] else AllLats(bs[..|bs| - 1]) + Lats(bs[|bs| - 1].resolved)
  }

  function SumOf(f: Books -> nat, bs: seq<Books>): nat {
    if bs == [] then 0 else SumOf(f, bs[..|bs| - 1]) + f(bs[|bs| - 1])
  }

  lemma SumSnoc(f: Books -> nat, bs: seq<Books>, b: Books)
    ensures SumOf(f, bs + [b]) == SumOf(f, bs) + f(b)
  {
    assert (bs + [b])[..|bs|] == bs;
  }

  lemma HistogramAdd(h: seq<nat>, a: seq<int>, g: seq<nat>, c: seq<int>, sum: seq<nat>)
    requires Histogram(h, a) && Histogram(g, c) && |sum| == HBUCKETS + 1
    requires forall b :: 0 <= b <= HBUCKETS ==> sum[b] == h[b] + g[b]
    ensures Histogram(sum, a + c)
  {
    forall b | 0 <= b <= HBUCKETS ensures sum[b] == CountAt(a + c, b) {
      CountAtConcat(a, c, b);
    }
  }

  method AddInto(sum: array<nat>, x: array<nat>)
    requires sum.Length == x.Length && sum != x
    modifies sum
    ensures forall b :: 0 <= b < sum.Length ==> sum[b] == old(sum[b]) + x[b]
  {
    for b := 0 to sum.Length
      invariant forall a :: 0 <= a < b ==> sum[a] == old(sum[a]) + x[a]
      invariant forall a :: b <= a < sum.Length ==> sum[a] == old(sum[a])
    {
      sum[b] := sum[b] + x[b];
    }
  }

  method SumArray(x: array<nat>) returns (t: nat)
    ensures t == Total(x[..])
  {
    t := 0;
    for i := 0 to x.Length
      invariant t == Total(x[..i])
    {
      assert x[..i + 1] == x[..i] + [x[i]];
      TotalSnoc(x[..i], x[i]);
      t := t + x[i];
    }
    assert x[..x.Length] == x[..];
  }

  /** The figures the generator prints. */
  datatype Figures = Figures(offered: nat, completed: nat, failed: nat, failedBy: seq<nat>, sampled: nat,
                             sampledBad: nat)

  function FailedFor(r: nat, b: Books): nat {
    if r < |b.failed| then b.failed[r] else 0
  }

  /** The figures are those of the threads' books, and the histogram is that of all their
      latencies. */
  ghost predicate AddsUp(f: Figures, hist: seq<nat>, bs: seq<Books>) {
    && Histogram(hist, AllLats(bs)) && f.completed == |AllLats(bs)|
    && f.offered == SumOf((b: Books) => b.offered, bs)
    && f.failed == SumOf((b: Books) => Total(b.failed), bs)
    && |f.failedBy| == F_NREASONS
    && (forall r :: 0 <= r < F_NREASONS ==> f.failedBy[r] == SumOf((b: Books) => FailedFor(r, b), bs))
    && f.sampled == SumOf((b: Books) => b.sampledTotal, bs)
    && f.sampledBad == SumOf((b: Books) => b.sampledBad, bs)
  }

  lemma AddsUpSnoc(f: Figures, h: seq<nat>, bs: seq<Books>, b: Books, f1: Figures, h1: seq<nat>)
    requires AddsUp(f, h, bs) && BooksOk(b) && |h1| == HBUCKETS + 1
    requires forall i :: 0 <= i <= HBUCKETS ==> h1[i] == h[i] + b.hist[i]
    requires |f1.failedBy| == F_NREASONS
    requires forall r :: 0 <= r < F_NREASONS ==> f1.failedBy[r] == f.failedBy[r] + b.failed[r]
    requires f1 == Figures(f.offered + b.offered, f.completed + b.completed, f.failed + Total(b.failed),
                           f1.failedBy, f.sampled + b.sampledTotal, f.sampledBad + b.sampledBad)
    ensures AddsUp(f1, h1, bs + [b])
  {
    forall r | 0 <= r < F_NREASONS ensures f1.failedBy[r] == SumOf((x: Books) => FailedFor(r, x), bs + [b]) {
      SumSnoc((x: Books) => FailedFor(r, x), bs, b);
    }
    assert (bs + [b])[..|bs|] == bs;
    HistogramAdd(h, AllLats(bs), b.hist, Lats(b.resolved), h1);
    SumSnoc((x: Books) => x.offered, bs, b);
    SumSnoc((x: Books) => Total(x.failed), bs, b);
    SumSnoc((x: Books) => x.sampledTotal, bs, b);
    SumSnoc((x: Books) => x.sampledBad, bs, b);
  }

  /** Add one thread's results. */
  method AddThread(w: Worker, ghost b: Books, f: Figures, hist: array<nat>, reasons: array<nat>, ghost bs: seq<Books>)
    returns (f1: Figures)
    requires Joined(w, b) && {hist, reasons} !! {w.hist, w.failed} && hist != reasons
    requires hist.Length == HBUCKETS + 1 && AddsUp(f, hist[..], bs) && f.failedBy == reasons[..]
    modifies hist, reasons
    ensures AddsUp(f1, hist[..], bs + [b]) && f1.failedBy == reasons[..]
  {
    ghost var h0 := hist[..];
    AddInto(hist, w.hist);
    AddInto(reasons, w.failed);
    var failed := SumArray(w.failed);
    f1 := Figures(f.offered + w.offered, f.completed + w.completed, f.failed + failed, reasons[..],
                  f.sampled + w.sampledTotal, f.sampledBad + w.sampledBad);
    AddsUpSnoc(f, h0, bs, b, f1, hist[..]);
  }

  /** Add up the threads. */
  method Aggregate(ws: seq<Worker>, ghost bs: seq<Books>) returns (f: Figures, hist: array<nat>)
    requires |bs| == |ws| && forall i :: 0 <= i < |ws| ==> Joined(ws[i], bs[i])
    ensures fresh(hist) && hist.Length == HBUCKETS + 1 && AddsUp(f, hist[..], bs)
  {
    hist := new nat[HBUCKETS + 1](_ => 0);
    var reasons := new nat[F_NREASONS](_ => 0);
    f := Figures(0, 0, 0, reasons[..], 0, 0);
    for i := 0 to |ws|
      invariant AddsUp(f, hist[..], bs[..i]) && f.failedBy == reasons[..]
      invariant fresh(hist) && fresh(reasons) && reasons != hist
    {
      f := AddThread(ws[i], bs[i], f, hist, reasons, bs[..i]);
      assert bs[..i + 1] == bs[..i] + [bs[i]];
    }
    assert bs[..|ws|] == bs;
  }

  /** The percentiles that are printed; zeros when nothing completed. */
  ghost predicate Printed(h: seq<nat>, completed: nat, p50: nat, p99: nat, p999: nat, max: nat) {
    if completed > 0 then Reported(h, completed, p50, p99, p999, max) else p50 == p99 == p999 == max == 0
  }

  /** The report of a run: percentiles of all latencies of all threads. */
  method Summary(ws: seq<Worker>, ghost bs: seq<Books>)
    returns (f: Figures, p50: nat, p99: nat, p999: nat, max: nat, replyOk: bool)
    requires |bs| == |ws| && forall i :: 0 <= i < |ws| ==> Joined(ws[i], bs[i])
    ensures exists h :: AddsUp(f, h, bs) && Printed(h, f.completed, p50, p99, p999, max)
    ensures replyOk <==> forall i :: 0 <= i < |bs| ==> forall o :: o in bs[i].resolved ==> !ValidatedBad(o)
  {
    var hist;
    f, hist := Aggregate(ws, bs);
    p50, p99, p999, max := Report(hist, f.completed, AllLats(bs));
    replyOk := f.sampledBad == 0;
    forall i | 0 <= i < |bs| ensures BooksOk(bs[i]) { assert Joined(ws[i], bs[i]); }
    BadReplies(bs);
  }

  /** What the figures mean: take any sorted arrangement of all latencies of all threads.
      The reported values are the buckets of its median, its 99th and 99.9th percentile
      and its maximum, and so exact to fifty microseconds below 51.2 milliseconds. */
  lemma ReportIsOrderStatistics(f: Figures, h: seq<nat>, bs: seq<Books>, s: seq<int>, p50: nat, p99: nat,
                                p999: nat, max: nat)
    requires AddsUp(f, h, bs) && f.completed > 0 && Reported(h, f.completed, p50, p99, p999, max)
    requires Sorted(s) && multiset(s) == multiset(AllLats(bs))
    ensures |s| == f.completed && p50 <= p99 <= p999 <= max
    ensures 1 <= Rank(|s|, 50, 100) <= |s| && p50 == Bucket(s[Rank(|s|, 50, 100) - 1]) * HUS_PER
    ensures 1 <= Rank(|s|, 99, 100) <= |s| && p99 == Bucket(s[Rank(|s|, 99, 100) - 1]) * HUS_PER
    ensures 1 <= Rank(|s|, 999, 1000) <= |s| && p999 == Bucket(s[Rank(|s|, 999, 1000) - 1]) * HUS_PER
    ensures max == Bucket(s[|s| - 1]) * HUS_PER
    ensures Prints(p50, s[Rank(|s|, 50, 100) - 1]) && Prints(p99, s[Rank(|s|, 99, 100) - 1])
    ensures Prints(p999, s[Rank(|s|, 999, 1000) - 1]) && Prints(max, s[|s| - 1])
  {
    ReportedStatistics(h, AllLats(bs), s, p50, p99, p999, max);
    BucketPrints(s[Rank(|s|, 50, 100) - 1]);
    BucketPrints(s[Rank(|s|, 99, 100) - 1]);
    BucketPrints(s[Rank(|s|, 999, 1000) - 1]);
    BucketPrints(s[|s| - 1]);
  }

  lemma {:induction false} NoneBad(s: seq<Outcome>)
    ensures Count(ValidatedBad, s) == 0 <==> forall o :: o in s ==> !ValidatedBad(o)
  {
    if s != [] {
      NoneBad(s[1..]);
      assert s == [s[0]] + s[1..];
    }
  }

  lemma {:induction false} BadReplies(bs: seq<Books>)
    requires forall i :: 0 <= i < |bs| ==> BooksOk(bs[i])
    ensures SumOf((b: Books) => b.sampledBad, bs) == 0
       <==> forall i :: 0 <= i < |bs| ==> forall o :: o in bs[i].resolved ==> !ValidatedBad(o)
  {
    if bs != [] {
      var n := |bs| - 1;
      BadReplies(bs[..n]);
      NoneBad(bs[n].resolved);
      assert forall i :: 0 <= i < n ==> bs[..n][i] == bs[i];
    }
  }

  lemma {:induction false} AllCompleted(bs: seq<Books>)
    requires forall i :: 0 <= i < |bs| ==> BooksOk(bs[i])
    ensures |AllLats(bs)| == SumOf((b: Books) => b.completed, bs)
  {
    if bs != [] {
      var n := |bs| - 1;
      assert forall i :: 0 <= i < n ==> bs[..n][i] == bs[i];
      AllCompleted(bs[..n]);
    }
  }

  lemma {:induction false} AllAccounted(bs: seq<Books>, left: seq<nat>)
    requires |bs| == |left| && forall i :: 0 <= i < |bs| ==> Accounted(bs[i], left[i])
    ensures SumOf((b: Books) => b.completed, bs) + SumOf((b: Books) => Total(b.failed), bs) + Total(left)
         == SumOf(Attempts, bs)
  {
    if bs != [] {
      var n := |bs| - 1;
      assert forall i :: 0 <= i < n ==> bs[..n][i] == bs[i] && left[..n][i] == left[i];
      AllAccounted(bs[..n], left[..n]);
    }
  }

  /** The whole generator, from the options to the figures. The figures are those of the
      threads that ran; every start any thread tried is among the completed, the failed or
      those a script left in flight; closed-loop the target bounds what is in flight in
      total, however the threads interleave; and open-loop the n threads attempt fewer than
      rate * duration + n starts, and more than rate * x if all are on time for x seconds. */
  method Generate(conns: int, threads: int, samplePct: int, rate: real, duration: real,
                  starts: seq<real>, scripts: seq<seq<Pass>>)
    returns (ws: seq<Worker>, exited: seq<bool>, f: Figures, p50: nat, p99: nat, p999: nat, max: nat, replyOk: bool,
             ghost bs: seq<Books>, ghost left: seq<nat>, ghost traces: seq<seq<nat>>)
    requires |starts| == |scripts| == Threads(threads, conns)
    ensures |ws| == |bs| == Threads(threads, conns)
    ensures AllDo(Jobs(conns, rate, duration, starts), samplePct, scripts, bs, exited, left, traces)
    ensures forall i :: 0 <= i < |ws| ==> Joined(ws[i], bs[i]) && ws[i].samplePct == samplePct
    ensures exists h :: AddsUp(f, h, bs) && Printed(h, f.completed, p50, p99, p999, max)
    ensures f.completed + f.failed + Total(left) == SumOf(Attempts, bs)
    ensures replyOk <==> forall i :: 0 <= i < |bs| ==> forall o :: o in bs[i].resolved ==> !ValidatedBad(o)
    ensures conns > 0 ==> forall schedule :: InFlight(traces, schedule, |traces|) <= conns
    ensures conns <= 0 && rate > 0.0 && SumOf(Attempts, bs) > 0 ==>
              SumOf(Attempts, bs) as real < rate * duration + |ws| as real
    ensures conns <= 0 && rate > 0.0 ==>
              forall x :: AllOnTime(traces, Jobs(conns, rate, duration, starts), scripts, x) ==>
                Outpaces(SumOf(Attempts, bs), rate, x)
  {
    ws, exited, bs, left, traces := RunThreads(conns, threads, samplePct, rate, duration, starts, scripts);
    f, p50, p99, p999, max, replyOk := Summary(ws, bs);
    AllCompleted(bs);
    AllAccounted(bs, left);
    if conns <= 0 && rate > 0.0 {
      if SumOf(Attempts, bs) > 0 { TotalPaced(bs, rate, duration); }
      forall x | AllOnTime(traces, Jobs(conns, rate, duration, starts), scripts, x)
        ensures Outpaces(SumOf(Attempts, bs), rate, x)
      {
        TotalKeptUp(bs, traces, conns, rate, duration, starts, scripts, x);
      }
    }
  }
}
