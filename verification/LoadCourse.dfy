/**
 A load generator thread under a script, as a function: starts, events, passes and the two ways
 out, and what follows for every clock and every behaviour of the network. Times are real
 numbers.
 */
module LoadCourse {
  import opened Basics
  import opened Percentiles
  import opened LoadGen
  import opened LoadWorker

  /** One pass of the loop: the clock, how successive starts turn out, and the events of the
      epoll_wait, each with the place of its connection. */
  datatype Pass = Pass(t: real, starts: seq<StartResult>, events: seq<(nat, Io)>)

  /** A thread's connections in flight, whether each is sampled, its books, and how many were in
      flight after each start and each event. */
  datatype Load = Load(conns: seq<(View, bool)>, books: Books, trace: seq<nat>)

  /** What a thread is to do; a positive target makes it closed-loop. */
  datatype Job = Job(target: int, rate: real, duration: real, start: real)

  function Tend(job: Job): real {
    job.start + job.duration
  }

  function Interval(job: Job): (r: real)
    ensures r > 0.0
  {
    if job.rate > 0.0 then 1.0 / job.rate else 1000000000.0
  }

  /** The number of connections a thread may have in flight. */
  function Cap(target: int): nat {
    if target > 0 then target else MAX_INFLIGHT
  }

  function Latest(trace: seq<nat>): nat {
    if trace == [] then 0 else trace[|trace| - 1]
  }

  ghost predicate LoadOk(l: Load) {
    && BooksOk(l.books) && l.books.live == |l.conns| == Latest(l.trace)
    && forall c :: c in l.conns ==> ViewOk(c.0)
  }

  function Attempts(b: Books): nat {
    b.offered + b.noSocket + b.refused
  }

  function Noted(l: Load): Load {
    l.(trace := l.trace + [|l.conns|])
  }

  function Nth(starts: seq<StartResult>, i: nat): StartResult {
    if i < |starts| then starts[i] else NoSocket
  }

  /** What neither a start nor an event changes: time-outs, and the past. */
  ghost predicate Goes(l: Load, r: Load) {
    && LoadOk(r) && r.books.timedOut == l.books.timedOut
    && l.trace <= r.trace && l.books.completed <= r.books.completed
  }

  function StartOne(l: Load, x: StartResult): (r: Load)
    requires LoadOk(l)
    ensures Goes(l, r) && Attempts(r.books) == Attempts(l.books) + 1
    ensures |r.conns| == |l.conns| + if x.Started? then 1 else 0
  {
    match x
    case Started(_) =>
      OfferedOk(l.books);
      var c := (View(Connecting, 0, []), SampledAt(l.books.samplePct, l.books.offered));
      Noted(l.(conns := l.conns + [c], books := Offered(l.books)))
    case _ =>
      StartFailedOk(l.books, x.NoSocket?);
      Noted(l.(books := StartFailed(l.books, x.NoSocket?)))
  }

  /** n starts in turn. */
  function StartsTo(l: Load, starts: seq<StartResult>, n: nat): (r: Load)
    requires LoadOk(l)
    ensures Goes(l, r) && Attempts(r.books) == Attempts(l.books) + n
  {
    if n == 0 then l else StartOne(StartsTo(l, starts, n - 1), Nth(starts, n - 1))
  }

  /** The event of the connection at place i; one that is not registered has no events. */
  function OneEvent(l: Load, i: nat, io: Io): (r: Load)
    requires LoadOk(l)
    ensures Goes(l, r) && Attempts(r.books) == Attempts(l.books) && |r.conns| <= |l.conns|
  {
    if i >= |l.conns| then l
    else
      var (v, sampled) := l.conns[i];
      assert l.conns[i] in l.conns;
      HandleOk(v, sampled, io);
      var (v1, end) := Handle(v, sampled, io);
      match end
      case None => Noted(l.(conns := l.conns[i := (v1, sampled)]))
      case Some(x) =>
        var o := Outcome(sampled, v1.rbuf, x);
        ResolveOk(l.books, o);
        Noted(l.(conns := Without(l.conns, i), books := Resolve(l.books, o)))
  }

  function AllEvents(l: Load, events: seq<(nat, Io)>): (r: Load)
    requires LoadOk(l)
    ensures Goes(l, r) && Attempts(r.books) == Attempts(l.books) && |r.conns| <= |l.conns|
  {
    if events == [] then l
    else
      var n := |events| - 1;
      OneEvent(AllEvents(l, events[..n]), events[n].0, events[n].1)
  }

  /** Open loop: start connections while one is due. */
  function PaceTo(l: Load, next: real, t: real, tend: real, interval: real, cap: nat, starts: seq<StartResult>, i: nat):
    (r: (Load, real))
    requires LoadOk(l) && interval > 0.0
    ensures Goes(l, r.0)
    decreases if next < t then 2 else if next == t then 1 else 0
  {
    if t < tend && t >= next && |l.conns| < cap
    then PaceTo(StartOne(l, Nth(starts, i)), if next + interval < t then t else next + interval,
                t, tend, interval, cap, starts, i + 1)
    else (l, next)
  }

  /** Closed loop: start connections up to the target, or to the first that fails. */
  function RefillTo(l: Load, t: real, tend: real, cap: nat, starts: seq<StartResult>, i: nat): (r: Load)
    requires LoadOk(l)
    ensures Goes(l, r)
    decreases cap - |l.conns|
  {
    if t < tend && |l.conns| < cap then
      var l1 := StartOne(l, Nth(starts, i));
      if Nth(starts, i).Started? then RefillTo(l1, t, tend, cap, starts, i + 1) else l1
    else l
  }

  /** The starts of a pass, and when the next one is due. */
  function PassStarts(job: Job, l: Load, next: real, p: Pass): (r: (Load, real))
    requires LoadOk(l)
    ensures Goes(l, r.0)
  {
    if job.target > 0 then (RefillTo(l, p.t, Tend(job), job.target, p.starts, 0), next)
    else PaceTo(l, next, p.t, Tend(job), Interval(job), MAX_INFLIGHT, p.starts, 0)
  }

  datatype Status = Running | Idle | GaveUp

  /** Where a thread is: its load, when its next start is due, and whether it is out of its
      loop, with nothing in flight or at the deadline. */
  datatype Thread = Thread(load: Load, next: real, end: Status)

  ghost predicate Fit(th: Thread) {
    LoadOk(th.load) && th.load.books.timedOut == if th.end.GaveUp? then |th.load.conns| else 0
  }

  /** The connections still in flight at the deadline are time-outs. */
  function TimeOut(l: Load): (r: Load)
    requires LoadOk(l) && l.books.timedOut == 0
    ensures LoadOk(r) && r.books.timedOut == |l.conns|
  {
    var b := l.books;
    l.(books := b.(failed := b.failed[F_TIMEOUT := b.failed[F_TIMEOUT] + b.live], timedOut := b.live))
  }

  /** The loop over the passes, from an empty load. */
  function ThreadTo(job: Job, l: Load, passes: seq<Pass>): (r: Thread)
    requires LoadOk(l) && l.books.timedOut == 0
    ensures Fit(r) && l.trace <= r.load.trace
  {
    if passes == [] then Thread(l, job.start, Running)
    else
      var n := |passes| - 1;
      NextTo(job, ThreadTo(job, l, passes[..n]), passes[n])
  }

  /** One pass, with the exit tests before it. */
  function NextTo(job: Job, th: Thread, p: Pass): (r: Thread)
    requires Fit(th)
    ensures Fit(r) && th.load.trace <= r.load.trace
  {
    if !th.end.Running? then th
    else if p.t >= Tend(job) && th.load.conns == [] then th.(end := Idle)
    else if p.t >= Tend(job) + 5.0 then Thread(TimeOut(th.load), th.next, GaveUp)
    else
      var (l, next) := PassStarts(job, th.load, th.next, p);
      Thread(AllEvents(l, p.events), next, Running)
  }

  function Empty(pct: int): (r: Load)
    ensures LoadOk(r) && r.books.timedOut == Attempts(r.books) == 0
  {
    Load([], NoBooks(pct), [])
  }

  // ---- starts

  /** A failed start counts as no socket or as a failed connect, and a started connection is
      new, unsent and unread; it is sampled by its position among the offered. */
  lemma StartMeans(l: Load, x: StartResult)
    requires LoadOk(l)
    ensures var r, b := StartOne(l, x), l.books;
            match x
            case NoSocket =>
              r.conns == l.conns && r.books == b.(failed := b.failed[5 := b.failed[5] + 1], noSocket := b.noSocket + 1)
            case Refused =>
              r.conns == l.conns && r.books == b.(failed := b.failed[0 := b.failed[0] + 1], refused := b.refused + 1)
            case Started(_) =>
              && r.conns == l.conns + [(View(Connecting, 0, []), b.samplePct > 0 && b.offered % 100 < b.samplePct)]
              && r.books.offered == b.offered + 1 && r.books.failed == b.failed && r.books.completed == b.completed
  {
  }

  /** What the pacing loop does: no start unless one is due, at most two in a pass, the schedule
      moved by one interval each and never left in the past; and it stops only when time is
      up, nothing more is due, or the cap is reached. */
  lemma PaceShape(l: Load, next: real, t: real, tend: real, interval: real, cap: nat, starts: seq<StartResult>)
    returns (n: nat)
    requires LoadOk(l) && interval > 0.0
    ensures var (r, next1) := PaceTo(l, next, t, tend, interval, cap, starts, 0);
            && n <= 2 && r == StartsTo(l, starts, n)
            && (n == 0 ==> next1 == next)
            && (n == 1 ==> next1 == if next + interval < t then t else next + interval)
            && (n == 2 ==> next + interval <= t && next1 == t + interval)
            && (n > 0 ==> t < tend && t >= next)
            && (t >= tend || t < next1 || |r.conns| >= cap)
  {
    n := 0;
    if t < tend && t >= next && |l.conns| < cap {
      var l1, n1 := StartOne(l, Nth(starts, 0)), if next + interval < t then t else next + interval;
      PaceTakes(l, next, t, tend, interval, cap, starts, 0);
      n := 1;
      if t >= n1 && |l1.conns| < cap {
        PaceTakes(l1, n1, t, tend, interval, cap, starts, 1);
        n := 2;
      }
    }
    StartsUnfold(l, starts);
  }

  lemma PaceTakes(l: Load, next: real, t: real, tend: real, interval: real, cap: nat, starts: seq<StartResult>, i: nat)
    requires LoadOk(l) && interval > 0.0 && t < tend && t >= next && |l.conns| < cap
    ensures var l1, n1 := StartOne(l, Nth(starts, i)), if next + interval < t then t else next + interval;
            var r := PaceTo(l, next, t, tend, interval, cap, starts, i);
            && r == PaceTo(l1, n1, t, tend, interval, cap, starts, i + 1)
            && (!(t >= n1 && |l1.conns| < cap) ==> r == (l1, n1))
  {
  }

  lemma RefillTakes(l: Load, t: real, tend: real, cap: nat, starts: seq<StartResult>, i: nat)
    requires LoadOk(l) && t < tend && |l.conns| < cap
    ensures var l1 := StartOne(l, Nth(starts, i));
            RefillTo(l, t, tend, cap, starts, i)
            == if Nth(starts, i).Started? then RefillTo(l1, t, tend, cap, starts, i + 1) else l1
  {
  }

  lemma StartsUnfold(l: Load, starts: seq<StartResult>)
    requires LoadOk(l)
    ensures StartsTo(l, starts, 0) == l && StartsTo(l, starts, 1) == StartOne(l, Nth(starts, 0))
    ensures StartsTo(l, starts, 2) == StartOne(StartOne(l, Nth(starts, 0)), Nth(starts, 1))
  {
    assert StartsTo(l, starts, 1) == StartOne(StartsTo(l, starts, 0), Nth(starts, 0));
  }

  /** What the refill does: with time left it fills up to the cap, unless a start fails, which
      is then the last one tried. */
  lemma {:induction false} RefillShape(l: Load, t: real, tend: real, cap: nat, starts: seq<StartResult>, i: nat)
    requires LoadOk(l) && |l.conns| <= cap
    ensures var r := RefillTo(l, t, tend, cap, starts, i);
            var short := t < tend && |r.conns| < cap;
            && |l.conns| <= |r.conns| <= cap && (t >= tend ==> r == l)
            && Attempts(r.books) == Attempts(l.books) + (|r.conns| - |l.conns|) + (if short then 1 else 0)
            && r.books.noSocket + r.books.refused == l.books.noSocket + l.books.refused + if short then 1 else 0
    decreases cap - |l.conns|
  {
    if t < tend && |l.conns| < cap && Nth(starts, i).Started? {
      RefillShape(StartOne(l, Nth(starts, i)), t, tend, cap, starts, i + 1);
    }
  }

  // ---- never above the cap

  /** At no point were more than cap in flight. */
  ghost predicate WithinCap(trace: seq<nat>, cap: int) {
    forall i :: 0 <= i < |trace| ==> trace[i] <= cap
  }

  ghost predicate Capped(l: Load, cap: nat) {
    WithinCap(l.trace, cap) && |l.conns| <= cap
  }

  lemma {:induction false} PaceCapped(l: Load, next: real, t: real, tend: real, interval: real, cap: nat,
                                      starts: seq<StartResult>, i: nat)
    requires LoadOk(l) && interval > 0.0 && Capped(l, cap)
    ensures Capped(PaceTo(l, next, t, tend, interval, cap, starts, i).0, cap)
    decreases if next < t then 2 else if next == t then 1 else 0
  {
    if t < tend && t >= next && |l.conns| < cap {
      PaceCapped(StartOne(l, Nth(starts, i)), if next + interval < t then t else next + interval,
                 t, tend, interval, cap, starts, i + 1);
    }
  }

  lemma {:induction false} RefillCapped(l: Load, t: real, tend: real, cap: nat, starts: seq<StartResult>, i: nat)
    requires LoadOk(l) && Capped(l, cap)
    ensures Capped(RefillTo(l, t, tend, cap, starts, i), cap)
    decreases cap - |l.conns|
  {
    if t < tend && |l.conns| < cap && Nth(starts, i).Started? {
      RefillCapped(StartOne(l, Nth(starts, i)), t, tend, cap, starts, i + 1);
    }
  }

  lemma EventCapped(l: Load, i: nat, io: Io, cap: nat)
    requires LoadOk(l) && Capped(l, cap)
    ensures Capped(OneEvent(l, i, io), cap)
  {
  }

  lemma {:induction false} EventsCapped(l: Load, events: seq<(nat, Io)>, cap: nat)
    requires LoadOk(l) && Capped(l, cap)
    ensures Capped(AllEvents(l, events), cap)
  {
    if events != [] {
      var n := |events| - 1;
      EventsCapped(l, events[..n], cap);
      EventCapped(AllEvents(l, events[..n]), events[n].0, events[n].1, cap);
    }
  }

  lemma NextCapped(job: Job, th: Thread, p: Pass)
    requires Fit(th)
    requires Capped(th.load, Cap(job.target))
    ensures Capped(NextTo(job, th, p).load, Cap(job.target))
  {
    if job.target > 0 {
      RefillCapped(th.load, p.t, Tend(job), job.target, p.starts, 0);
    } else {
      PaceCapped(th.load, th.next, p.t, Tend(job), Interval(job), MAX_INFLIGHT, p.starts, 0);
    }
    EventsCapped(PassStarts(job, th.load, th.next, p).0, p.events, Cap(job.target));
  }

  /** A thread is never above its cap: closed-loop its target, else 60000. */
  lemma {:induction false} ThreadCapped(job: Job, l: Load, passes: seq<Pass>)
    requires LoadOk(l) && l.books.timedOut == 0 && l.trace == []
    ensures Capped(ThreadTo(job, l, passes).load, if job.target > 0 then job.target else 60000)
  {
    if passes != [] {
      var n := |passes| - 1;
      ThreadCapped(job, l, passes[..n]);
      NextCapped(job, ThreadTo(job, l, passes[..n]), passes[n]);
    }
  }

  // ---- the schedule

  /** n steps of length `interval`. */
  function Span(n: int, interval: real): real {
    n as real * interval
  }

  lemma SpanAdd(m: int, n: int, interval: real)
    ensures Span(m + n, interval) == Span(m, interval) + Span(n, interval)
  {
  }

  lemma SpanMono(m: int, n: int, interval: real)
    requires m <= n && interval > 0.0
    ensures Span(m, interval) <= Span(n, interval)
  {
    assert (n - m) as real * interval >= 0.0;
    SpanAdd(m, n - m, interval);
  }

  /** A pacing schedule in which A attempts were made by `next`. */
  predicate OnSchedule(start: real, duration: real, interval: real, next: real, A: nat) {
    && next >= start + Span(A, interval)
    && (A > 0 ==> Span(A - 1, interval) < duration)
  }

  lemma ScheduleStep(start: real, duration: real, interval: real, due: real, A: nat, next: real, n: nat)
    requires OnSchedule(start, duration, interval, due, A)
    requires next >= due + Span(n, interval)
    requires n > 0 ==> due + Span(n - 1, interval) < start + duration
    ensures OnSchedule(start, duration, interval, next, A + n)
  {
    SpanAdd(A, n, interval);
    if n > 0 { SpanAdd(A, n - 1, interval); }
  }

  /** Fewer than rate * duration + 1 attempts fit. */
  lemma ScheduleBound(start: real, duration: real, rate: real, next: real, A: nat)
    requires rate > 0.0 && OnSchedule(start, duration, 1.0 / rate, next, A) && A > 0
    ensures A as real < rate * duration + 1.0
  {
    var x := A as real - 1.0;
    assert Span(A - 1, 1.0 / rate) == x * (1.0 / rate);
    Rescale(x, rate, duration);
  }

  lemma Rescale(x: real, rate: real, duration: real)
    requires rate > 0.0 && x * (1.0 / rate) < duration
    ensures x < rate * duration
  {
    var y := x * (1.0 / rate);
    assert y * rate == x;
    assert (duration - y) * rate > 0.0;
  }

  /** A pass with n attempts, due as PaceShape says, keeps the schedule. */
  lemma PaceKeeps(job: Job, t: real, due: real, A: nat, next: real, n: nat)
    requires OnSchedule(job.start, job.duration, Interval(job), due, A)
    requires n <= 2 && (n > 0 ==> due <= t < Tend(job)) && (n == 0 ==> next == due)
    requires n == 1 ==> next >= due + Interval(job)
    requires n == 2 ==> due + Interval(job) <= t && next == t + Interval(job)
    ensures OnSchedule(job.start, job.duration, Interval(job), next, A + n)
  {
    var iv := Interval(job);
    assert Span(0, iv) == 0.0 && Span(1, iv) == iv && Span(2, iv) == iv + iv;
    ScheduleStep(job.start, job.duration, iv, due, A, next, n);
  }

  /** Every pass of an open-loop thread keeps the schedule. */
  lemma PaceOnSchedule(job: Job, l: Load, due: real, p: Pass)
    requires LoadOk(l) && job.target <= 0
    requires OnSchedule(job.start, job.duration, Interval(job), due, Attempts(l.books))
    ensures var (r, next) := PassStarts(job, l, due, p);
            OnSchedule(job.start, job.duration, Interval(job), next, Attempts(r.books))
  {
    var n := PaceShape(l, due, p.t, Tend(job), Interval(job), MAX_INFLIGHT, p.starts);
    PaceKeeps(job, p.t, due, Attempts(l.books), PassStarts(job, l, due, p).1, n);
  }

  lemma {:induction false} ThreadOnSchedule(job: Job, l: Load, passes: seq<Pass>)
    requires LoadOk(l) && l.books.timedOut == 0 && job.target <= 0 && Attempts(l.books) == 0
    ensures var th := ThreadTo(job, l, passes);
            OnSchedule(job.start, job.duration, Interval(job), th.next, Attempts(th.load.books))
  {
    if passes == [] {
      assert Span(0, Interval(job)) == 0.0;
    } else {
      var n := |passes| - 1;
      ThreadOnSchedule(job, l, passes[..n]);
      NextOnSchedule(job, ThreadTo(job, l, passes[..n]), passes[n]);
    }
  }

  lemma NextOnSchedule(job: Job, th: Thread, p: Pass)
    requires Fit(th)
    requires job.target <= 0 && OnSchedule(job.start, job.duration, Interval(job), th.next, Attempts(th.load.books))
    ensures var r := NextTo(job, th, p);
            OnSchedule(job.start, job.duration, Interval(job), r.next, Attempts(r.load.books))
  {
    PaceOnSchedule(job, th.load, th.next, p);
  }

  /** Open-loop, fewer than rate * duration + 1 starts were attempted. */
  predicate Paced(b: Books, target: int, rate: real, duration: real) {
    target <= 0 && rate > 0.0 && Attempts(b) > 0 ==> Attempts(b) as real < rate * duration + 1.0
  }

  lemma ThreadPaced(job: Job, l: Load, passes: seq<Pass>)
    requires LoadOk(l) && l.books.timedOut == 0 && Attempts(l.books) == 0
    ensures Paced(ThreadTo(job, l, passes).load.books, job.target, job.rate, job.duration)
  {
    if job.target <= 0 {
      ThreadOnSchedule(job, l, passes);
      SchedulePaced(job, ThreadTo(job, l, passes).next, ThreadTo(job, l, passes).load.books);
    }
  }

  lemma SchedulePaced(job: Job, next: real, b: Books)
    requires OnSchedule(job.start, job.duration, Interval(job), next, Attempts(b))
    ensures Paced(b, job.target, job.rate, job.duration)
  {
    if job.rate > 0.0 && Attempts(b) > 0 {
      ScheduleBound(job.start, job.duration, job.rate, next, Attempts(b));
    }
  }

  /** Without a rate a thread attempts one start at most in a billion seconds. */
  lemma UnratedStartsOnce(job: Job, l: Load, passes: seq<Pass>)
    requires LoadOk(l) && l.books.timedOut == 0 && Attempts(l.books) == 0
    requires job.target <= 0 && job.rate <= 0.0 && job.duration <= 1000000000.0
    ensures Attempts(ThreadTo(job, l, passes).load.books) <= 1
  {
    ThreadOnSchedule(job, l, passes);
    OneFits(job, ThreadTo(job, l, passes).next, Attempts(ThreadTo(job, l, passes).load.books));
  }

  lemma OneFits(job: Job, next: real, A: nat)
    requires job.rate <= 0.0 && job.duration <= 1000000000.0
    requires OnSchedule(job.start, job.duration, Interval(job), next, A)
    ensures A <= 1
  {
    if A > 1 { SpanMono(1, A - 1, Interval(job)); }
  }

  // ---- and the schedule is kept up with

  /** The clock does not go back and a pass comes at most one interval behind the other. */
  ghost predicate Dense(job: Job, passes: seq<Pass>) {
    forall i :: 0 <= i < |passes| ==> Clock(job, passes, i) <= passes[i].t <= Clock(job, passes, i) + Interval(job)
  }

  /** The clock when pass i is about to come. */
  function Clock(job: Job, passes: seq<Pass>, i: nat): real
    requires i <= |passes|
  {
    if i == 0 then job.start else passes[i - 1].t
  }

  /** The cap of an open-loop thread was never reached. */
  ghost predicate NeverFull(trace: seq<nat>) {
    forall i :: 0 <= i < |trace| ==> trace[i] < 60000
  }

  /** The schedule is neither ahead nor behind, and past every pass before the end. */
  ghost predicate UpToDate(job: Job, passes: seq<Pass>, next: real, A: nat) {
    && next == job.start + Span(A, Interval(job))
    && forall i :: 0 <= i < |passes| && passes[i].t < Tend(job) ==> passes[i].t < next
  }

  /** n attempts, due as PaceShape says, take the schedule past t. */
  lemma PaceMeets(start: real, iv: real, tend: real, due: real, t: real, before: real, A: nat, next: real, n: nat)
    requires due == start + Span(A, iv) && iv > 0.0 && n <= 2 && (n > 0 ==> due <= t < tend)
    requires t < tend ==> t <= before + iv && before <= due
    requires n == 0 ==> next == due
    requires n == 1 ==> next == if due + iv < t then t else due + iv
    requires n == 2 ==> due + iv <= t && next == t + iv
    requires t >= tend || t < next
    ensures next == start + Span(A + n, iv) && due <= next && (t < tend ==> t < next)
  {
    SpanAdd(A, n, iv);
    assert Span(0, iv) == 0.0 && Span(1, iv) == iv && Span(2, iv) == iv + iv;
  }

  lemma PaceUpToDate(job: Job, l: Load, due: real, p: Pass, before: real, A: nat)
    requires LoadOk(l) && job.target <= 0 && A == Attempts(l.books) && due == job.start + Span(A, Interval(job))
    requires p.t < Tend(job) ==> p.t <= before + Interval(job) && before <= due
    requires NeverFull(PassStarts(job, l, due, p).0.trace)
    ensures var (r, next) := PassStarts(job, l, due, p);
            && next == job.start + Span(Attempts(r.books), Interval(job)) && due <= next
            && (p.t < Tend(job) ==> p.t < next)
  {
    var n := PaceShape(l, due, p.t, Tend(job), Interval(job), MAX_INFLIGHT, p.starts);
    var (r, next) := PassStarts(job, l, due, p);
    assert |r.conns| < 60000 by { if r.trace != [] { assert r.trace[|r.trace| - 1] < 60000; } }
    PaceMeets(job.start, Interval(job), Tend(job), due, p.t, before, A, next, n);
  }

  /** The same for a thread that goes on. */
  lemma PassUpToDate(job: Job, th: Thread, p: Pass, before: real)
    requires job.target <= 0 && LoadOk(th.load) && th.load.books.timedOut == 0 && th.end.Running?
    requires NextTo(job, th, p).end.Running? && NeverFull(NextTo(job, th, p).load.trace)
    requires th.next == job.start + Span(Attempts(th.load.books), Interval(job))
    requires p.t < Tend(job) ==> p.t <= before + Interval(job) && before <= th.next
    ensures var r := NextTo(job, th, p);
            && r.next == job.start + Span(Attempts(r.load.books), Interval(job)) && th.next <= r.next
            && (p.t < Tend(job) ==> p.t < r.next)
  {
    NeverFullBefore(PassStarts(job, th.load, th.next, p).0.trace, NextTo(job, th, p).load.trace);
    PaceUpToDate(job, th.load, th.next, p, before, Attempts(th.load.books));
  }

  /** Before the first pass, and behind a pass before the end, the schedule is ahead. */
  lemma ClockIsBehind(job: Job, passes: seq<Pass>, next: real, A: nat)
    requires passes != [] && Dense(job, passes) && UpToDate(job, passes[..|passes| - 1], next, A)
    ensures var n := |passes| - 1; passes[n].t < Tend(job) ==> Clock(job, passes, n) <= next
  {
    var n := |passes| - 1;
    if n == 0 {
      SpanMono(0, A, Interval(job));
      assert Span(0, Interval(job)) == 0.0;
    } else {
      assert passes[..n][n - 1] == passes[n - 1];
    }
  }

  lemma UpToDateSnoc(job: Job, passes: seq<Pass>, next: real, A: nat, next1: real, A1: nat)
    requires passes != [] && UpToDate(job, passes[..|passes| - 1], next, A) && next <= next1
    requires next1 == job.start + Span(A1, Interval(job))
    requires passes[|passes| - 1].t < Tend(job) ==> passes[|passes| - 1].t < next1
    ensures UpToDate(job, passes, next1, A1)
  {
    var n := |passes| - 1;
    forall i | 0 <= i < |passes| && passes[i].t < Tend(job) ensures passes[i].t < next1 {
      if i < n { assert passes[..n][i] == passes[i]; }
    }
  }

  lemma NextUpToDate(job: Job, th: Thread, passes: seq<Pass>)
    requires job.target <= 0 && passes != [] && Dense(job, passes) && Fit(th)
    requires UpToDate(job, passes[..|passes| - 1], th.next, Attempts(th.load.books))
    requires !th.end.Running? ==> SawEnd(job, passes[..|passes| - 1])
    requires NeverFull(NextTo(job, th, passes[|passes| - 1]).load.trace)
    ensures var r := NextTo(job, th, passes[|passes| - 1]);
            && UpToDate(job, passes, r.next, Attempts(r.load.books))
            && (!r.end.Running? ==> SawEnd(job, passes))
  {
    var n := |passes| - 1;
    var p, r := passes[n], NextTo(job, th, passes[n]);
    if !th.end.Running? {
      SawEndStays(job, passes);
    } else if !r.end.Running? {
      assert passes[n].t >= Tend(job);
    } else {
      ClockIsBehind(job, passes, th.next, Attempts(th.load.books));
      PassUpToDate(job, th, p, Clock(job, passes, n));
    }
    UpToDateSnoc(job, passes, th.next, Attempts(th.load.books), r.next, Attempts(r.load.books));
  }

  lemma {:induction false} ClockGrows(job: Job, passes: seq<Pass>, i: nat, j: nat)
    requires Dense(job, passes) && i <= j < |passes|
    ensures passes[i].t <= passes[j].t
  {
    if i < j { ClockGrows(job, passes, i, j - 1); }
  }

  lemma DensePrefix(job: Job, passes: seq<Pass>)
    requires passes != [] && Dense(job, passes)
    ensures Dense(job, passes[..|passes| - 1])
  {
    var n := |passes| - 1;
    var front := passes[..n];
    forall i | 0 <= i < n ensures Clock(job, front, i) <= front[i].t <= Clock(job, front, i) + Interval(job) {
      assert front[i] == passes[i] && Clock(job, front, i) == Clock(job, passes, i);
    }
  }

  /** Some pass came when time was up. */
  ghost predicate SawEnd(job: Job, passes: seq<Pass>) {
    exists i :: 0 <= i < |passes| && passes[i].t >= Tend(job)
  }

  lemma SawEndStays(job: Job, passes: seq<Pass>)
    requires passes != [] && Dense(job, passes) && SawEnd(job, passes[..|passes| - 1])
    ensures SawEnd(job, passes) && passes[|passes| - 1].t >= Tend(job)
  {
    var n := |passes| - 1;
    var i :| 0 <= i < n && passes[..n][i].t >= Tend(job);
    assert passes[i].t >= Tend(job);
    ClockGrows(job, passes, i, n);
  }

  lemma {:induction false} ThreadUpToDate(job: Job, l: Load, passes: seq<Pass>)
    requires LoadOk(l) && l.books.timedOut == 0 && Attempts(l.books) == 0 && job.target <= 0
    requires Dense(job, passes) && NeverFull(ThreadTo(job, l, passes).load.trace)
    ensures var th := ThreadTo(job, l, passes);
            && UpToDate(job, passes, th.next, Attempts(th.load.books))
            && (!th.end.Running? ==> SawEnd(job, passes))
  {
    if passes == [] {
      assert Span(0, Interval(job)) == 0.0;
    } else {
      var n := |passes| - 1;
      var th := ThreadTo(job, l, passes[..n]);
      DensePrefix(job, passes);
      NeverFullBefore(th.load.trace, ThreadTo(job, l, passes).load.trace);
      ThreadUpToDate(job, l, passes[..n]);
      NextUpToDate(job, th, passes);
    }
  }

  lemma NeverFullBefore(a: seq<nat>, b: seq<nat>)
    requires a <= b && NeverFull(b)
    ensures NeverFull(a)
  {
    forall i | 0 <= i < |a| ensures a[i] < 60000 { assert a[i] == b[i]; }
  }

  /** Some pass before the end came x behind the start or later. */
  ghost predicate CameRound(job: Job, passes: seq<Pass>, x: real) {
    exists i :: 0 <= i < |passes| && job.start + x <= passes[i].t < job.start + job.duration
  }

  /** More than rate * x. */
  predicate Outpaces(A: nat, rate: real, x: real) {
    A as real > rate * x
  }

  /** Open-loop and below the cap, a thread that comes round at least once an interval has
      attempted more than rate * x starts when it has come round x behind its start. */
  ghost predicate KeptUp(b: Books, trace: seq<nat>, job: Job, passes: seq<Pass>) {
    job.target <= 0 && job.rate > 0.0 && Dense(job, passes) && NeverFull(trace) ==>
      forall x :: CameRound(job, passes, x) ==> Outpaces(Attempts(b), job.rate, x)
  }

  lemma ThreadKeptUp(job: Job, l: Load, passes: seq<Pass>)
    requires LoadOk(l) && l.books.timedOut == 0 && Attempts(l.books) == 0
    ensures var r := ThreadTo(job, l, passes).load; KeptUp(r.books, r.trace, job, passes)
  {
    var th := ThreadTo(job, l, passes);
    if job.target <= 0 && Dense(job, passes) && NeverFull(th.load.trace) {
      ThreadUpToDate(job, l, passes);
      UpToDateMeans(job, passes, th.next, th.load.books, th.load.trace);
    }
  }

  lemma UpToDateMeans(job: Job, passes: seq<Pass>, next: real, b: Books, trace: seq<nat>)
    requires UpToDate(job, passes, next, Attempts(b))
    ensures KeptUp(b, trace, job, passes)
  {
    if job.rate > 0.0 {
      forall x | CameRound(job, passes, x) ensures Outpaces(Attempts(b), job.rate, x) {
        var i :| 0 <= i < |passes| && job.start + x <= passes[i].t < job.start + job.duration;
        assert passes[i].t < next;
        BehindNext(job, x, next, Attempts(b));
      }
    }
  }

  lemma BehindNext(job: Job, x: real, next: real, A: nat)
    requires job.rate > 0.0 && next == job.start + Span(A, Interval(job)) && job.start + x < next
    ensures Outpaces(A, job.rate, x)
  {
    ScaleUp(x, job.rate, A);
  }

  lemma ScaleUp(x: real, rate: real, A: nat)
    requires rate > 0.0 && x < Span(A, 1.0 / rate)
    ensures A as real > rate * x
  {
    var y := A as real * (1.0 / rate);
    assert y * rate == A as real;
    assert (y - x) * rate > 0.0;
  }

  // ---- the ways out

  /** Pass p meets an exit test when the thread is at th. */
  predicate Exits(job: Job, th: Thread, p: Pass) {
    (p.t >= job.start + job.duration && th.load.conns == []) || p.t >= job.start + job.duration + 5.0
  }

  /** What pass p makes of a thread. */
  ghost predicate Proceeds(job: Job, th: Thread, p: Pass, r: Thread)
    requires LoadOk(th.load)
  {
    && (!th.end.Running? ==> r == th)
    && (th.end.Running? ==> (r.end.Running? <==> !Exits(job, th, p)))
    && (th.end.Running? && r.end.Running? ==>
          r.load == AllEvents(PassStarts(job, th.load, th.next, p).0, p.events))
    && (th.end.Running? && !r.end.Running? ==>
          && r.load.conns == th.load.conns && Attempts(r.load.books) == Attempts(th.load.books)
          && r.load.books.completed == th.load.books.completed
          && r.load.books.failed == th.load.books.failed[2 := th.load.books.failed[2] + |th.load.conns|])
  }

  /** A thread goes on until a pass meets an exit test: time is up and nothing is in flight, or
      it has been up for five seconds. Then, and only then, what is in flight is timed out;
      and every pass before makes its starts and handles all its events. */
  lemma ThreadGoesOn(job: Job, l: Load, passes: seq<Pass>, p: Pass)
    requires LoadOk(l) && l.books.timedOut == 0
    ensures Proceeds(job, ThreadTo(job, l, passes), p, ThreadTo(job, l, passes + [p]))
  {
    ThreadSnoc(job, l, passes, p);
    NextMeans(job, ThreadTo(job, l, passes), p);
  }

  lemma ThreadSnoc(job: Job, l: Load, passes: seq<Pass>, p: Pass)
    requires LoadOk(l) && l.books.timedOut == 0
    ensures ThreadTo(job, l, passes + [p]) == NextTo(job, ThreadTo(job, l, passes), p)
  {
    assert (passes + [p])[..|passes|] == passes;
  }

  lemma NextMeans(job: Job, th: Thread, p: Pass)
    requires Fit(th)
    ensures Proceeds(job, th, p, NextTo(job, th, p))
  {
    var b := th.load.books;
    assert b.failed == b.failed[2 := b.failed[2] + 0];
  }

  // ---- events

  /** An event ends a connection, which then is booked with its outcome, or leaves it where the
      socket let it get; the other connections stay as they are. */
  lemma EventMeans(l: Load, i: nat, io: Io)
    requires LoadOk(l) && i < |l.conns|
    ensures var (v, sampled), r := l.conns[i], OneEvent(l, i, io);
            assert l.conns[i] in l.conns;
            var (v1, end) := Handle(v, sampled, io);
            if end.Some?
            then && r.conns == Without(l.conns, i)
                 && r.books.resolved == l.books.resolved + [Outcome(sampled, v1.rbuf, end.value)]
            else r.conns == l.conns[i := (v1, sampled)] && r.books == l.books
  {
    assert l.conns[i] in l.conns;
  }

  /** The event lets a connection finish: the socket takes the rest of the request and delivers
      the rest of a reply that passes the check. */
  predicate Finishes(v: View, sampled: bool, io: Io) {
    && !io.hup && !NoConnection(v, io) && SentBy(v, io) == 18
    && |GotBy(v, io)| == 19 && ReplyAccepted(sampled, GotBy(v, io))
  }

  /** Such a connection is completed by that event, and its latency recorded. */
  lemma FinishedIsCompleted(l: Load, i: nat, io: Io)
    requires LoadOk(l) && i < |l.conns| && Finishes(l.conns[i].0, l.conns[i].1, io)
    ensures var r, b := OneEvent(l, i, io), Bucket(io.us);
            && r.books.completed == l.books.completed + 1 && r.conns == Without(l.conns, i)
            && |l.books.hist| == 1025 && r.books.hist == l.books.hist[b := l.books.hist[b] + 1]
            && r.books.failed == l.books.failed
  {
    assert l.conns[i] in l.conns;
    EventMoves(l.conns[i].0, l.conns[i].1, io);
  }

  lemma EventsSnoc(l: Load, events: seq<(nat, Io)>, j: nat)
    requires LoadOk(l) && j < |events|
    ensures AllEvents(l, events[..j + 1]) == OneEvent(AllEvents(l, events[..j]), events[j].0, events[j].1)
  {
    assert events[..j + 1][..j] == events[..j];
  }

  lemma LastEventGrows(l: Load, events: seq<(nat, Io)>, j: nat)
    requires LoadOk(l) && j < |events|
    ensures AllEvents(l, events[..j]).books.completed <= AllEvents(l, events[..j + 1]).books.completed
  {
    EventsSnoc(l, events, j);
  }

  lemma {:induction false} Climbs(counts: seq<nat>, i: nat, j: nat)
    requires i <= j < |counts| && forall k :: 0 < k < |counts| ==> counts[k - 1] <= counts[k]
    ensures counts[i] <= counts[j]
  {
    if i < j { Climbs(counts, i, j - 1); }
  }

  lemma EventsGrow(l: Load, events: seq<(nat, Io)>, j: nat)
    requires LoadOk(l) && j <= |events|
    ensures AllEvents(l, events[..j]).books.completed <= AllEvents(l, events).books.completed
  {
    var counts := seq(|events| + 1, k requires 0 <= k <= |events| => AllEvents(l, events[..k]).books.completed);
    forall k | 0 < k < |counts| ensures counts[k - 1] <= counts[k] { LastEventGrows(l, events, k - 1); }
    Climbs(counts, j, |events|);
    assert events[..|events|] == events;
  }

  /** A connection that one of the events lets finish is completed when they are handled. */
  lemma EventsComplete(l: Load, events: seq<(nat, Io)>, j: nat, mid: Load)
    requires LoadOk(l) && j < |events| && mid == AllEvents(l, events[..j])
    requires events[j].0 < |mid.conns| && Finishes(mid.conns[events[j].0].0, mid.conns[events[j].0].1, events[j].1)
    ensures AllEvents(l, events).books.completed >= mid.books.completed + 1
  {
    OneCompletes(l, events, j, mid);
    EventsGrow(l, events, j + 1);
  }

  lemma OneCompletes(l: Load, events: seq<(nat, Io)>, j: nat, mid: Load)
    requires LoadOk(l) && j < |events| && mid == AllEvents(l, events[..j])
    requires events[j].0 < |mid.conns| && Finishes(mid.conns[events[j].0].0, mid.conns[events[j].0].1, events[j].1)
    ensures AllEvents(l, events[..j + 1]).books.completed == mid.books.completed + 1
  {
    EventsSnoc(l, events, j);
    FinishedIsCompleted(mid, events[j].0, events[j].1);
  }

  /** From end to end: a connection that an event of a pass lets finish is completed by the end
      of that pass. */
  lemma PassCompletes(job: Job, l: Load, passes: seq<Pass>, p: Pass, j: nat)
    requires LoadOk(l) && l.books.timedOut == 0 && j < |p.events|
    requires ThreadTo(job, l, passes).end.Running? && !Exits(job, ThreadTo(job, l, passes), p)
    requires var th := ThreadTo(job, l, passes);
             var mid, i := AllEvents(PassStarts(job, th.load, th.next, p).0, p.events[..j]), p.events[j].0;
             i < |mid.conns| && Finishes(mid.conns[i].0, mid.conns[i].1, p.events[j].1)
    ensures var th := ThreadTo(job, l, passes);
            ThreadTo(job, l, passes + [p]).load.books.completed
            >= AllEvents(PassStarts(job, th.load, th.next, p).0, p.events[..j]).books.completed + 1
  {
    var th := ThreadTo(job, l, passes);
    ThreadGoesOn(job, l, passes, p);
    var l1 := PassStarts(job, th.load, th.next, p).0;
    EventsComplete(l1, p.events, j, AllEvents(l1, p.events[..j]));
  }

  // ---- the books balance

  /** Every start attempt, successful or not, is completed, failed or in flight. */
  predicate Accounted(b: Books, inflight: int) {
    b.completed + Total(b.failed) + inflight == Attempts(b)
  }

  /** At the loop head and after either exit. */
  lemma ThreadAccounted(job: Job, l: Load, passes: seq<Pass>)
    requires LoadOk(l) && l.books.timedOut == 0
    ensures var th := ThreadTo(job, l, passes);
            Accounted(th.load.books, if th.end.GaveUp? then 0 else |th.load.conns|)
    ensures ThreadTo(job, l, passes).end.Idle? ==> ThreadTo(job, l, passes).load.conns == []
  {
    var th := ThreadTo(job, l, passes);
    Conservation(th.load.books);
    IdleIsEmpty(job, l, passes);
  }

  lemma {:induction false} IdleIsEmpty(job: Job, l: Load, passes: seq<Pass>)
    requires LoadOk(l) && l.books.timedOut == 0
    ensures ThreadTo(job, l, passes).end.Idle? ==> ThreadTo(job, l, passes).load.conns == []
  {
    if passes != [] { IdleIsEmpty(job, l, passes[..|passes| - 1]); }
  }
}
