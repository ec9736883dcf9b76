/**
 The load generator's event loop: paced or closed-loop starts, events, and the two ways
 out. A script says what the outside does in each pass.
 */
module LoadLoop {
  import opened Basics
  import opened LoadGen
  import opened LoadWorker
  import opened LoadCourse

  /** The thread's state is the load l. */
  ghost predicate Holds(w: Worker, l: Load)
    reads w, w.failed, w.hist, w.live
  {
    && w.Valid() && w.Abs() == l.books && w.trace == l.trace && |w.live| == |l.conns|
    && forall i :: 0 <= i < |w.live| ==> l.conns[i] == (w.live[i].Value(), w.live[i].sampled)
  }

  method StartAt(w: Worker, x: StartResult, ghost l: Load) returns (ok: bool)
    requires LoadOk(l) && Holds(w, l)
    modifies w`offered, w`live, w`noSocket, w`refused, w`flags, w`trace, w.failed
    ensures Holds(w, StartOne(l, x)) && (ok <==> x.Started?)
    ensures forall c :: c in w.live ==> c in old(w.live) || fresh(c)
  {
    ok := w.ConnStart(x);
    if ok {
      assert forall i :: 0 <= i < |old(w.live)| ==> w.live[i] == old(w.live)[i];
    }
  }

  /** The pacing loop start by start: the load and when the next start is due. */
  ghost predicate PaceTrail(t: real, tend: real, interval: real, cap: nat, starts: seq<StartResult>, i: nat,
                            trail: seq<(Load, real)>)
  {
    && trail != [] && (forall x :: x in trail ==> LoadOk(x.0))
    && (forall k :: 0 <= k < |trail| ==>
          (t < tend && t >= trail[k].1 && |trail[k].0.conns| < cap <==> k < |trail| - 1))
    && (forall k :: 0 < k < |trail| ==> OneStart(trail[k - 1], t, interval, Nth(starts, i + k - 1), trail[k]))
  }

  ghost predicate OneStart(x: (Load, real), t: real, interval: real, r: StartResult, y: (Load, real)) {
    LoadOk(x.0) && y == (StartOne(x.0, r), if x.1 + interval < t then t else x.1 + interval)
  }

  lemma PaceTrailCons(x: (Load, real), t: real, tend: real, interval: real, cap: nat, starts: seq<StartResult>, i: nat,
                      rest: seq<(Load, real)>)
    requires LoadOk(x.0) && t < tend && t >= x.1 && |x.0.conns| < cap
    requires PaceTrail(t, tend, interval, cap, starts, i + 1, rest) && OneStart(x, t, interval, Nth(starts, i), rest[0])
    ensures PaceTrail(t, tend, interval, cap, starts, i, [x] + rest)
  {
    var trail := [x] + rest;
    forall k | 0 < k < |trail| ensures OneStart(trail[k - 1], t, interval, Nth(starts, i + k - 1), trail[k]) {
      if k > 1 { assert OneStart(rest[k - 2], t, interval, Nth(starts, i + 1 + (k - 1) - 1), rest[k - 1]); }
    }
  }

  lemma {:induction false} MakePaceTrail(l: Load, next: real, t: real, tend: real, interval: real, cap: nat,
                                         starts: seq<StartResult>, i: nat)
    returns (trail: seq<(Load, real)>)
    requires LoadOk(l) && interval > 0.0
    ensures PaceTrail(t, tend, interval, cap, starts, i, trail) && trail[0] == (l, next)
    ensures trail[|trail| - 1] == PaceTo(l, next, t, tend, interval, cap, starts, i)
    decreases if next < t then 2 else if next == t then 1 else 0
  {
    if t < tend && t >= next && |l.conns| < cap {
      var n1 := if next + interval < t then t else next + interval;
      PaceTakes(l, next, t, tend, interval, cap, starts, i);
      var rest := MakePaceTrail(StartOne(l, Nth(starts, i)), n1, t, tend, interval, cap, starts, i + 1);
      PaceTrailCons((l, next), t, tend, interval, cap, starts, i, rest);
      trail := [(l, next)] + rest;
    } else {
      trail := [(l, next)];
    }
  }

  /** Open loop: start connections while one is due. */
  method Pace(w: Worker, t: real, tend: real, due: real, interval: real, cap: nat, inflight0: int,
              starts: seq<StartResult>, ghost l: Load)
    returns (next: real, inflight: int)
    requires LoadOk(l) && Holds(w, l) && inflight0 == |w.live| && interval > 0.0
    modifies w`offered, w`live, w`noSocket, w`refused, w`flags, w`trace, w.failed
    ensures var (r, n) := PaceTo(l, due, t, tend, interval, cap, starts, 0);
            Holds(w, r) && next == n && inflight == |w.live|
    ensures t >= tend || t < next || inflight >= cap
    ensures forall c :: c in w.live ==> c in old(w.live) || fresh(c)
  {
    ghost var trail := MakePaceTrail(l, due, t, tend, interval, cap, starts, 0);
    next, inflight := due, inflight0;
    var i := 0;
    while t < tend && t >= next && inflight < cap
      invariant i < |trail| && Holds(w, trail[i].0) && next == trail[i].1 && inflight == |w.live|
      invariant forall c :: c in w.live ==> c in old(w.live) || fresh(c)
      decreases |trail| - i
    {
      assert OneStart(trail[i], t, interval, Nth(starts, i), trail[i + 1]);
      var ok := StartAt(w, Nth(starts, i), trail[i].0);
      if ok {
        inflight := inflight + 1;
      }
      next := next + interval;
      if next < t {
        next := t;
      }
      i := i + 1;
    }
  }

  /** Closed loop: fill up to the target, or until a start fails. */
  method Refill(w: Worker, t: real, tend: real, cap: nat, inflight0: int, starts: seq<StartResult>, ghost l: Load)
    returns (inflight: int)
    requires LoadOk(l) && Holds(w, l) && inflight0 == |w.live|
    modifies w`offered, w`live, w`noSocket, w`refused, w`flags, w`trace, w.failed
    ensures Holds(w, RefillTo(l, t, tend, cap, starts, 0)) && inflight == |w.live|
    ensures forall c :: c in w.live ==> c in old(w.live) || fresh(c)
  {
    inflight := inflight0;
    var i := 0;
    ghost var m := l;
    while t < tend && inflight < cap
      invariant LoadOk(m) && Holds(w, m) && inflight == |w.live|
      invariant RefillTo(m, t, tend, cap, starts, i) == RefillTo(l, t, tend, cap, starts, 0)
      invariant forall c :: c in w.live ==> c in old(w.live) || fresh(c)
      decreases cap - inflight
    {
      RefillTakes(m, t, tend, cap, starts, i);
      var ok := StartAt(w, Nth(starts, i), m);
      m := StartOne(m, Nth(starts, i));
      if !ok {
        return;
      }
      inflight := inflight + 1;
      i := i + 1;
    }
  }

  /** When connection i goes, the rest of the connections are what they were. */
  lemma OthersStay(live: seq<Conn>, i: nat, conns: seq<(View, bool)>)
    requires i < |live| == |conns|
    requires forall j :: 0 <= j < |live| && j != i ==> conns[j] == (live[j].Value(), live[j].sampled)
    ensures var rest := Without(live, i);
            && (forall j :: 0 <= j < |rest| ==> Without(conns, i)[j] == (rest[j].Value(), rest[j].sampled))
            && (forall c :: c in rest ==> c in live)
  {
    var rest := Without(live, i);
    forall j | 0 <= j < |rest| ensures Without(conns, i)[j] == (rest[j].Value(), rest[j].sampled) {
      WithoutAt(conns, i, j);
      WithoutAt(live, i, j);
    }
  }

  /** An event of the connection at place i, if there is one. */
  method HandleAt(w: Worker, i: nat, io: Io, ghost l: Load) returns (done: int)
    requires LoadOk(l) && Holds(w, l)
    modifies w, w.failed, w.hist, set c | c in w.live
    ensures Holds(w, OneEvent(l, i, io)) && done == |old(w.live)| - |w.live|
    ensures forall c :: c in w.live ==> c in old(w.live)
  {
    done := 0;
    if i < |w.live| {
      assert w.live[i] in w.live;
      ghost var c, r := w.live[i], OneEvent(l, i, io);
      EventMeans(l, i, io);
      done := w.Handle(w.live[i], i, io);
      if done == 0 {
        assert r.conns == l.conns[i := (c.Value(), c.sampled)];
        forall j | 0 <= j < |w.live| ensures r.conns[j] == (w.live[j].Value(), w.live[j].sampled) {
          assert j != i ==> w.live[j] != c;
        }
      } else {
        OthersStay(old(w.live), i, l.conns);
      }
    }
  }

  /** Handle the events of one epoll_wait. */
  method Events(w: Worker, inflight0: int, events: seq<(nat, Io)>, ghost l: Load) returns (inflight: int)
    requires LoadOk(l) && Holds(w, l) && inflight0 == |w.live|
    modifies w, w.failed, w.hist, set c | c in w.live
    ensures Holds(w, AllEvents(l, events)) && inflight == |w.live|
    ensures forall c :: c in w.live ==> c in old(w.live)
  {
    inflight := inflight0;
    for j := 0 to |events|
      invariant Holds(w, AllEvents(l, events[..j])) && inflight == |w.live|
      invariant forall c :: c in w.live ==> c in old(w.live)
    {
      EventsSnoc(l, events, j);
      var done := HandleAt(w, events[j].0, events[j].1, AllEvents(l, events[..j]));
      inflight := inflight - done;
    }
    assert events[..|events|] == events;
  }

  /** The connections still in flight at the deadline are time-outs. */
  method GiveUp(w: Worker, inflight: int, ghost l: Load)
    requires LoadOk(l) && Holds(w, l) && inflight == |w.live| && l.books.timedOut == 0
    modifies w`timedOut, w.failed
    ensures Holds(w, TimeOut(l))
  {
    w.failed[F_TIMEOUT] := w.failed[F_TIMEOUT] + inflight;
    w.timedOut := inflight;
    assert w.Abs() == TimeOut(l).books;
  }

  /** One pass behind the exit tests: starts, then events. */
  method OnePass(w: Worker, p: Pass, job: Job, tend: real, due: real, interval: real, inflight0: int, ghost l: Load)
    returns (next: real, inflight: int)
    requires LoadOk(l) && Holds(w, l) && inflight0 == |w.live| && tend == Tend(job) && interval == Interval(job)
    modifies w, w.failed, w.hist, set c | c in w.live
    ensures var (r, n) := PassStarts(job, l, due, p);
            Holds(w, AllEvents(r, p.events)) && next == n && inflight == |w.live|
    ensures forall c :: c in w.live ==> c in old(w.live) || fresh(c)
  {
    next := due;
    if job.target > 0 {
      inflight := Refill(w, p.t, tend, job.target, inflight0, p.starts, l);
    } else {
      next, inflight := Pace(w, p.t, tend, due, interval, MAX_INFLIGHT, inflight0, p.starts, l);
    }
    inflight := Events(w, inflight, p.events, PassStarts(job, l, due, p).0);
  }

  /** The thread pass by pass. */
  ghost predicate Trail(job: Job, l: Load, passes: seq<Pass>, trail: seq<Thread>) {
    && |trail| == |passes| + 1 && trail[0] == Thread(l, job.start, Running)
    && forall i {:trigger passes[i]} :: 0 <= i < |passes| ==>
         Fit(trail[i]) && trail[i + 1] == NextTo(job, trail[i], passes[i])
  }

  lemma MakeTrail(job: Job, l: Load, passes: seq<Pass>) returns (trail: seq<Thread>)
    requires LoadOk(l) && l.books.timedOut == 0
    ensures Trail(job, l, passes, trail) && trail[|passes|] == ThreadTo(job, l, passes)
  {
    trail := seq(|passes| + 1, i requires 0 <= i <= |passes| => ThreadTo(job, l, passes[..i]));
    forall i {:trigger passes[i]} | 0 <= i < |passes|
      ensures Fit(trail[i]) && trail[i + 1] == NextTo(job, trail[i], passes[i])
    {
      ThreadAt(job, l, passes, i);
    }
    assert passes[..|passes|] == passes;
  }

  lemma ThreadAt(job: Job, l: Load, passes: seq<Pass>, i: nat)
    requires LoadOk(l) && l.books.timedOut == 0 && i < |passes|
    ensures ThreadTo(job, l, passes[..i + 1]) == NextTo(job, ThreadTo(job, l, passes[..i]), passes[i])
  {
    ThreadSnoc(job, l, passes[..i], passes[i]);
    assert passes[..i] + [passes[i]] == passes[..i + 1];
  }

  /** A thread that is out of its loop stays where it is. */
  lemma {:induction false} Stays(job: Job, l: Load, passes: seq<Pass>, trail: seq<Thread>, i: nat, j: nat)
    requires Trail(job, l, passes, trail) && i <= j <= |passes| && !trail[i].end.Running?
    ensures trail[j] == trail[i]
  {
    if i < j {
      Stays(job, l, passes, trail, i, j - 1);
      assert trail[j] == NextTo(job, trail[j - 1], passes[j - 1]);
    }
  }

  /** The exit tests and, if none is met, the rest of the pass. */
  method Turn(w: Worker, p: Pass, job: Job, tend: real, deadline: real, due: real, interval: real, inflight0: int,
              ghost th: Thread)
    returns (exited: bool, next: real, inflight: int)
    requires Fit(th) && th.end.Running? && Holds(w, th.load) && inflight0 == |w.live| && due == th.next
    requires tend == Tend(job) && deadline == tend + 5.0 && interval == Interval(job)
    modifies w, w.failed, w.hist, set c | c in w.live
    ensures var r := NextTo(job, th, p);
            Holds(w, r.load) && exited == !r.end.Running? && next == r.next && inflight == |w.live|
    ensures forall c :: c in w.live ==> c in old(w.live) || fresh(c)
  {
    exited, next, inflight := false, due, inflight0;
    if p.t >= tend && inflight == 0 {
      return true, due, inflight;
    }
    if p.t >= deadline {
      GiveUp(w, inflight, th.load);
      return true, due, inflight;
    }
    next, inflight := OnePass(w, p, job, tend, due, interval, inflight, th.load);
  }

  /** The loop, for every clock and every behaviour of the network. */
  method Passes(w: Worker, job: Job, passes: seq<Pass>, ghost l: Load, ghost trail: seq<Thread>)
    returns (exited: bool, inflight: int)
    requires Trail(job, l, passes, trail) && Holds(w, l) && w.live == []
    modifies w, w.failed, w.hist
    ensures Holds(w, trail[|passes|].load) && exited == !trail[|passes|].end.Running? && inflight == |w.live|
  {
    var tend := job.start + job.duration;
    var interval := if job.rate > 0.0 then 1.0 / job.rate else 1000000000.0;
    var next := job.start;
    var deadline := tend + 5.0;
    inflight := 0;
    exited := false;
    for i := 0 to |passes|
      invariant trail[i].end.Running? && next == trail[i].next && !exited
      invariant Holds(w, trail[i].load) && inflight == |w.live|
      invariant forall c :: c in w.live ==> fresh(c)
    {
      var p := passes[i];
      exited, next, inflight := Turn(w, p, job, tend, deadline, next, interval, inflight, trail[i]);
      if exited {
        Stays(job, l, passes, trail, i + 1, |passes|);
        return;
      }
    }
  }

  /** The thread as a whole. At the loop head and after either exit its books balance; it never
      has more than its cap in flight, which closed-loop is its target; open-loop it makes
      fewer than rate * duration + 1 start attempts, and keeps up with its rate. */
  method WorkerMain(w: Worker, job: Job, passes: seq<Pass>) returns (exited: bool, inflight: int)
    requires Holds(w, Empty(w.samplePct))
    modifies w, w.failed, w.hist
    ensures var th := ThreadTo(job, Empty(w.samplePct), passes);
            Holds(w, th.load) && exited == !th.end.Running? && inflight == |w.live|
    ensures Accounted(w.Abs(), if exited then 0 else inflight)
    ensures WithinCap(w.trace, if job.target > 0 then job.target else 60000) && inflight == Latest(w.trace)
    ensures Paced(w.Abs(), job.target, job.rate, job.duration) && KeptUp(w.Abs(), w.trace, job, passes)
  {
    ghost var trail := MakeTrail(job, Empty(w.samplePct), passes);
    exited, inflight := Passes(w, job, passes, Empty(w.samplePct), trail);
    ThreadAccounted(job, Empty(w.samplePct), passes);
    ThreadCapped(job, Empty(w.samplePct), passes);
    ThreadPaced(job, Empty(w.samplePct), passes);
    ThreadKeptUp(job, Empty(w.samplePct), passes);
  }
}
