/**
 What one connection goes through, and what it costs in records.
 */
module Lifecycle {
  import opened Basics
  import opened Ring
  import opened Engine
  import opened System
  import opened Tokens
  import opened Safety
  import opened DrainSafety
  import opened Runs
  import opened Descriptors
  import opened Replies

  /** The history projected onto connection c. */
  function Life(log: seq<Event>, c: ConnId): seq<Event> {
    if log == [] then []
    else
      var n := |log| - 1;
      Life(log[..n], c) + if About(log[n], c) then [log[n]] else []
  }

  predicate Opening(c: ConnId, f: seq<Event>) {
    |f| > 2 && f[0] == Accepted(c) && f[1] == RecvIssued(c, c) && f[2].Received? && f[2].conn == c
  }

  /** A full connection: accepted and closed for want of memory; or accepted, received
      from and closed because the recv failed, because the handler declined, or after
      the reply was sent. */
  predicate FullLife(cap: nat, c: ConnId, f: seq<Event>) {
    || f == [Accepted(c), Closed(c, c)]
    || (|f| == 4 && Opening(c, f) && f[2].res <= 0 && f[3] == Closed(c, c))
    || (|f| == 5 && Opening(c, f) && Handles(c, f) && f[3].rlen <= 0 && f[4] == Closed(c, c))
    || (|f| == 6 && Opening(c, f) && Handles(c, f) && f[3].rlen > 0
        && f[4].Sent? && f[4].conn == f[4].intended == c && |f[4].bytes| == Min(f[3].rlen, cap)
        && f[5] == Closed(c, c))
  }

  /** The handler is called on the bytes that were received, at least one of them. */
  predicate Handles(c: ConnId, f: seq<Event>)
    requires |f| > 3 && f[2].Received?
  {
    && f[2].res > 0 && |f[2].payload| == f[2].res
    && f[3].Handled? && f[3].conn == c && f[3].req == f[2].payload
  }

  ghost predicate Protocol(cap: nat, c: ConnId, p: seq<Event>) {
    exists f :: FullLife(cap, c, f) && p <= f
  }

  /** What a connection has been through when it is at a stage. */
  predicate Been(cap: nat, c: ConnId, st: Stage, p: seq<Event>) {
    match st
    case Unborn => p == []
    case Fresh => p == [Accepted(c)]
    case Waiting => p == [Accepted(c), RecvIssued(c, c)]
    case Got(b) => |b| > 0 && p == [Accepted(c), RecvIssued(c, c), Received(c, |b|, b)]
    case Owing(len) =>
      |p| == 4 && Opening(c, p) && Handles(c, p) && p[3].rlen > 0 && len == Min(p[3].rlen, cap)
    case Done =>
      p != [] && FullLife(cap, c, p + [Closed(c, c)]) && |p| > 2
    case Shut => FullLife(cap, c, p)
    case Broken => true
  }

  lemma {:induction false} LifeStage(cap: nat, log: seq<Event>, c: ConnId)
    ensures Been(cap, c, StageOf(cap, log, c), Life(log, c))
  {
    if log != [] {
      var n := |log| - 1;
      LifeStage(cap, log[..n], c);
      LifeStep(cap, c, StageOf(cap, log[..n], c), Life(log[..n], c), log[n]);
    }
  }

  lemma LifeStep(cap: nat, c: ConnId, st: Stage, p: seq<Event>, e: Event)
    requires Been(cap, c, st, p)
    ensures About(e, c) ==> Been(cap, c, Advance(cap, st, e), p + [e])
  {
    if About(e, c) {
      var q := p + [e];
      match st
      case Got(b) => assert q[2] == Received(c, |b|, b);
      case _ =>
    }
  }

  lemma BeenProtocol(cap: nat, c: ConnId, st: Stage, p: seq<Event>)
    requires Been(cap, c, st, p) && st != Broken
    ensures Protocol(cap, c, p)
  {
    var cl := Closed(c, c);
    match st
    case Unborn => assert FullLife(cap, c, [Accepted(c), cl]) && p <= [Accepted(c), cl];
    case Fresh => assert FullLife(cap, c, [Accepted(c), cl]) && p <= [Accepted(c), cl];
    case Waiting =>
      var f := p + [Received(c, 0, []), cl];
      assert FullLife(cap, c, f) && p <= f;
    case Got(b) =>
      var f := p + [Handled(c, b, 0, []), cl];
      assert FullLife(cap, c, f) && p <= f;
    case Owing(len) =>
      var f := p + [Sent(c, c, seq(len, _ => 0)), cl];
      assert FullLife(cap, c, f) && p <= f;
    case Done =>
      assert FullLife(cap, c, p + [cl]) && p <= p + [cl];
    case Shut =>
      assert FullLife(cap, c, p) && p <= p;
  }

  /** Lifecycle: projected onto any connection, every run is a prefix of accept, recv,
      then close, or handler, optional send and close. */
  lemma LifecycleRefinement(run: seq<State>, steps: seq<Step>, i: nat, c: ConnId)
    requires IsRun(run, steps) && i < |run|
    ensures Protocol(run[i].w.cfg.replyCap, c, Life(run[i].k.log, c))
  {
    RunInv(run, steps, i);
    var s := run[i];
    NoneBroken(s, c);
    LifeStage(s.w.cfg.replyCap, s.k.log, c);
    BeenProtocol(s.w.cfg.replyCap, c, StageOf(s.w.cfg.replyCap, s.k.log, c), Life(s.k.log, c));
  }

  /** What the protocol promises a connection: one handler call at most, on a request of at
      least one byte; one send at most, behind the handler and within the reply capacity;
      one close at most, and nothing after it. */
  lemma ProtocolMeaning(cap: nat, c: ConnId, p: seq<Event>, j: nat, k: nat)
    requires Protocol(cap, c, p) && j < |p| && k < |p|
    ensures p[j].Handled? ==> j == 3 && |p[j].req| > 0
    ensures p[j].Sent? ==> j == 4 && p[3].Handled? && |p[j].bytes| == Min(p[3].rlen, cap) <= cap
    ensures p[j].Closed? ==> j == |p| - 1
    ensures p[j].Sent? && p[k].Closed? ==> j < k
  {
    var f :| FullLife(cap, c, f) && p <= f;
    assert p[j] == f[j] && p[k] == f[k] && (|p| > 3 ==> p[3] == f[3]);
  }

  // ---- connections that are dropped for want of memory

  /** An event that closes c comes when the recv of c is done with, unless the worker was
      out of memory when it drained c's accept. */
  lemma CloseStep(s: State, a: Step, c: ConnId)
    requires Inv(s) && Enabled(s, a)
    requires a.Drain? ==> a.env.block.Some?
    requires Do(s, a).k.log == s.k.log + [Closed(c, c)]
    ensures StageOf(s.w.cfg.replyCap, s.k.log, c) == Done
  {
    var n := |s.k.log|;
    assert Do(s, a).k.log[n] == Closed(c, c);
    match a
    case KIssue =>
      SqResolves0(s);
    case Drain(env) =>
      DrainNoClose(s, env);
    case _ =>
  }

  lemma SqResolves0(s: State)
    requires Inv(s) && Enabled(s, KIssue) && s.w.sq[0].Close?
    ensures Resolves(s.k, s.w.sq[0].desc, s.w.sq[0].conn)
    ensures StageOf(s.w.cfg.replyCap, s.k.log, s.w.sq[0].conn) == Done
  {
    var e := s.w.sq[0];
    SqHas(false, s.w.sq, 0, DescTok(e.desc, e.conn, Done));
    DescMeans(s, e.desc, e.conn, Done);
  }

  lemma DrainNoClose(s: State, env: Env)
    requires Inv(s) && Enabled(s, Drain(env)) && env.block.Some?
    ensures var log := DoDrain(s, env).k.log;
            log == s.k.log || (|log| == |s.k.log| + 1 && log[|s.k.log|].Handled?)
  {
    var e := s.k.cq[0];
    assert e in s.k.cq && CqeOk(s.w, e);
    if e.data.Ref? {
      RecvShape(s, env, e);
    } else if e.data.Marker? && e.res >= 0 {
      AdoptShape(s, env, e, if s.w.free != [] then s.w.free[0] else env.block.value.0);
    }
  }

  /** Barring malloc failure every closed connection went through its recv: its life has at
      least accept, recv issued, recv completed and close. */
  lemma {:induction false} ServedBeforeClosed(run: seq<State>, steps: seq<Step>, i: nat, c: ConnId)
    requires IsRun(run, steps) && i < |run|
    requires forall a :: a in steps && a.Drain? ==> a.env.block.Some?
    ensures Closed(c, c) in run[i].k.log ==> |Life(run[i].k.log, c)| >= 4
    ensures run[i].w.cfg == run[0].w.cfg
  {
    if i > 0 {
      ServedBeforeClosed(run, steps, i - 1, c);
      RunInv(run, steps, i - 1);
      assert steps[i - 1] in steps;
      StepScratchAt(run, steps, i - 1);
      ServedStep(run[i - 1], steps[i - 1], c);
    }
  }

  lemma ServedStep(s: State, a: Step, c: ConnId)
    requires Inv(s) && Enabled(s, a) && (a.Drain? ==> a.env.block.Some?)
    requires s.k.log <= Do(s, a).k.log && |Do(s, a).k.log| <= |s.k.log| + 1
    requires Closed(c, c) in s.k.log ==> |Life(s.k.log, c)| >= 4
    ensures Closed(c, c) in Do(s, a).k.log ==> |Life(Do(s, a).k.log, c)| >= 4
  {
    var log, log1 := s.k.log, Do(s, a).k.log;
    if log1 == log + [Closed(c, c)] { CloseStep(s, a, c); }
    LifeGrows(s.w.cfg.replyCap, log, log1, c);
  }

  lemma LifeGrows(cap: nat, log: seq<Event>, log1: seq<Event>, c: ConnId)
    requires log <= log1 && |log1| <= |log| + 1
    requires log1 == log + [Closed(c, c)] ==> StageOf(cap, log, c) == Done
    requires Closed(c, c) in log ==> |Life(log, c)| >= 4
    ensures Closed(c, c) in log1 ==> |Life(log1, c)| >= 4
  {
    if |log1| == |log| {
      assert log1 == log;
    } else {
      assert log1 == log + [log1[|log|]] && log1[..|log|] == log;
      LifeStage(cap, log, c);
    }
  }

  // ---- records

  function InUse(s: State): int {
    |s.w.recs| - |s.w.free|
  }

  /** The largest number of records in use at the same time. */
  function Peak(run: seq<State>): int
    requires run != []
  {
    var n := |run| - 1;
    if n == 0 then InUse(run[0]) else Max(Peak(run[..n]), InUse(run[n]))
  }

  /** A step allocates only when the freelist is empty, and then every record is in use. */
  lemma StepRecs(s: State, a: Step)
    requires Inv(s) && Enabled(s, a)
    ensures var t := Do(s, a);
            || |t.w.recs| == |s.w.recs|
            || (|t.w.recs| == |s.w.recs| + 1 && s.w.free == [] && InUse(t) == |t.w.recs|)
  {
    match a
    case Drain(env) => DrainRecs(s, env);
    case KRecv(i, res, payload) =>
      assert s.k.pending[i] in s.k.pending;
      assert PendingOk(s.w, s.k.pending[i]);
      assert Do(s, a).w.recs.Keys == s.w.recs.Keys;
      SizeOfKeys(Do(s, a).w.recs, s.w.recs);
    case _ =>
  }

  lemma SizeOfKeys(m: map<Addr, Record>, n: map<Addr, Record>)
    requires m.Keys == n.Keys
    ensures |m| == |n|
  {
    assert |m| == |m.Keys| && |n| == |n.Keys|;
  }

  lemma DrainRecs(s: State, env: Env)
    requires Inv(s) && Enabled(s, Drain(env))
    ensures var t := DoDrain(s, env);
            || |t.w.recs| == |s.w.recs|
            || (|t.w.recs| == |s.w.recs| + 1 && s.w.free == [] && InUse(t) == |t.w.recs|)
  {
    var e := s.k.cq[0];
    assert e in s.k.cq && CqeOk(s.w, e);
    if e.data.Ref? {
      RecvShape(s, env, e);
    } else if e.data.Marker? && e.res >= 0 && (s.w.free != [] || env.block.Some?) {
      var r := if s.w.free != [] then s.w.free[0] else env.block.value.0;
      AdoptShape(s, env, e, r);
      var t := DoDrain(s, env);
      if s.w.free != [] {
        FreeUnnamed(s, r);
        assert t.w.recs.Keys == s.w.recs.Keys;
        SizeOfKeys(t.w.recs, s.w.recs);
      } else {
        assert t.w.recs.Keys == s.w.recs.Keys + {r};
        assert |t.w.recs.Keys| == |s.w.recs.Keys| + 1;
      }
    }
  }

  /** Allocation: the records a worker has ever allocated are the larger of the warm-up
      count and the peak number simultaneously in use. */
  lemma {:induction false} AllocationBound(run: seq<State>, steps: seq<Step>)
    requires IsRun(run, steps)
    ensures |run[|run| - 1].w.recs| == Max(|run[0].w.recs|, Peak(run))
    decreases |run|
  {
    var n := |run| - 1;
    if n > 0 {
      assert IsRun(run[..n], steps[..n - 1]);
      AllocationBound(run[..n], steps[..n - 1]);
      RunInv(run, steps, n - 1);
      StepRecs(run[n - 1], steps[n - 1]);
    }
  }

  /** The recvs that own record r: queued, in flight, or completed but not drained. */
  function RecvOwners(s: State, r: Addr): nat {
    Count((e: Sqe) => e.Recv? && e.rec == r, s.w.sq)
    + Count((p: Pending) => p.rec == r, s.k.pending)
    + Count((e: Cqe) => e.data == Ref(r), s.k.cq)
  }

  lemma {:induction false} CountZero(free: seq<Addr>, r: Addr)
    ensures Count((y: Addr) => y == r, free) == 0 <==> r !in free
  {
    if free != [] { CountZero(free[1..], r); }
  }

  /** Teardown frees the freelist and nothing else: what it leaves allocated are exactly the
      records that a recv still owns, one recv each. */
  lemma TeardownLeaves(run: seq<State>, steps: seq<Step>, i: nat, r: Addr)
    requires IsRun(run, steps) && i < |run|
    ensures r in run[i].w.recs && r !in run[i].w.free <==> RecvOwners(run[i], r) == 1
    ensures r in run[i].w.free ==> RecvOwners(run[i], r) == 0
    ensures Distinct(run[i].w.free)
  {
    OwnershipPartition(run, steps, i, r);
    CountZero(run[i].w.free, r);
    RunInv(run, steps, i);
    FreeDistinct(run[i]);
  }

  lemma FreeDistinct(s: State)
    requires Inv(s)
    ensures Distinct(s.w.free)
  {
    forall i, j | 0 <= i < j < |s.w.free| ensures s.w.free[i] != s.w.free[j] {
      var r := s.w.free[i];
      RecOnce(s, r);
      SumWithout(FreeToks, s.w.free, i, RecTok(r));
      var rest := Without(s.w.free, i);
      assert rest[j - 1] == s.w.free[j];
      SumHas(FreeToks, rest, s.w.free[j], RecTok(r));
    }
  }
}
