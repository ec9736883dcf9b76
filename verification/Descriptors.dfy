/**
 Descriptors over whole runs: every request acts on the connection it was meant for,
 and no descriptor is lost, shared or closed twice.
 */
module Descriptors {
  import opened Basics
  import opened Ring
  import opened Engine
  import opened System
  import opened Tokens
  import opened Safety
  import opened DrainSafety
  import opened Runs

  lemma PlacesHeld(s: State, d: Desc, c: ConnId, st: Stage)
    requires Inv(s)
    requires forall st1 :: st1 != st ==> Held(s, DescTok(d, c, st1)) == 0
    ensures Places(s, d, c) == Held(s, DescTok(d, c, st))
  {
    forall st1 | st1 != st
      ensures Sum(CqeToks, s.k.cq, DescTok(d, c, st1)) == 0
      ensures Sum(PendingToks, s.k.pending, DescTok(d, c, st1)) == 0
      ensures Sum(LeakToks, s.k.leaked, DescTok(d, c, st1)) == 0
      ensures SqToks(false, s.w.sq, DescTok(d, c, st1)) == 0
    {
      assert Held(s, DescTok(d, c, st1)) == 0;
    }
    PlacesCq(s.k.cq, d, c, st);
    PlacesPending(s.k.pending, d, c, st);
    PlacesLeaked(s.k.leaked, d, c, st);
    SqDescs(false, s.w.sq, d, c, st);
    SumIsCount(StandingToks, DescTok(d, c, st), (e: Sqe) => false, s.k.standing);
    CountNone(s.k.standing);
    FreeToksOnly(s.w.free, DescTok(d, c, st));
  }

  lemma PlacesCq(cq: seq<Cqe>, d: Desc, c: ConnId, st: Stage)
    requires forall st1 :: st1 != st ==> Sum(CqeToks, cq, DescTok(d, c, st1)) == 0
    ensures Sum(CqeToks, cq, DescTok(d, c, st))
         == Count((e: Cqe) => !e.data.Null? && (e.data.Marker? ==> e.res >= 0) && e.desc == d && e.conn == c, cq)
  {
    var p := (e: Cqe) => !e.data.Null? && (e.data.Marker? ==> e.res >= 0) && e.desc == d && e.conn == c;
    forall e | e in cq && p(e) ensures exists st1 :: CqeToks(e, DescTok(d, c, st1)) == 1 {
      var st1 := if e.data.Marker? then Fresh else if e.res <= 0 then Done else Got(e.payload);
      assert CqeToks(e, DescTok(d, c, st1)) == 1;
    }
    SumIsCountAt(CqeToks, d, c, st, p, cq);
  }

  lemma PlacesPending(ps: seq<Pending>, d: Desc, c: ConnId, st: Stage)
    requires forall st1 :: st1 != st ==> Sum(PendingToks, ps, DescTok(d, c, st1)) == 0
    ensures Sum(PendingToks, ps, DescTok(d, c, st)) == Count((p: Pending) => p.desc == d && p.conn == c, ps)
  {
    var q := (p: Pending) => p.desc == d && p.conn == c;
    forall p | p in ps && q(p) ensures exists st1 :: PendingToks(p, DescTok(d, c, st1)) == 1 {
      assert PendingToks(p, DescTok(d, c, Waiting)) == 1;
    }
    SumIsCountAt(PendingToks, d, c, st, q, ps);
  }

  lemma PlacesLeaked(ls: seq<(Desc, ConnId)>, d: Desc, c: ConnId, st: Stage)
    requires forall st1 :: st1 != st ==> Sum(LeakToks, ls, DescTok(d, c, st1)) == 0
    ensures Sum(LeakToks, ls, DescTok(d, c, st)) == Count((l: (Desc, ConnId)) => l == (d, c), ls)
  {
    var q := (l: (Desc, ConnId)) => l == (d, c);
    forall l | l in ls && q(l) ensures exists st1 :: LeakToks(l, DescTok(d, c, st1)) == 1 {
      assert LeakToks(l, DescTok(d, c, Fresh)) == 1;
    }
    SumIsCountAt(LeakToks, d, c, st, q, ls);
  }

  /** Conservation: an open descriptor is in exactly one place of the system, and what is
      in a place is open. A connection without an open descriptor went through its close. */
  lemma DescriptorConservation(run: seq<State>, steps: seq<Step>, i: nat, d: Desc, c: ConnId)
    requires IsRun(run, steps) && i < |run|
    ensures var s := run[i];
            && Places(s, d, c) == (if d in s.k.open && s.k.open[d] == c then 1 else 0)
            && (c < s.k.next && c !in s.k.open.Values ==> Closed(c, c) in s.k.log)
  {
    RunInv(run, steps, i);
    var s := run[i];
    var st := StageOf(s.w.cfg.replyCap, s.k.log, c);
    forall st1 | st1 != st ensures Held(s, DescTok(d, c, st1)) == 0 {
      assert Held(s, DescTok(d, c, st1)) == Due(s, DescTok(d, c, st1));
    }
    PlacesHeld(s, d, c, st);
    assert Held(s, DescTok(d, c, st)) == Due(s, DescTok(d, c, st));
    if st == Shut { ShutClosed(s.w.cfg.replyCap, s.k.log, c); }
  }

  lemma {:induction false} ShutClosed(cap: nat, log: seq<Event>, c: ConnId)
    requires StageOf(cap, log, c) == Shut
    ensures Closed(c, c) in log
  {
    var n := |log| - 1;
    if About(log[n], c) {
      assert log[n] == Closed(c, c);
    } else {
      ShutClosed(cap, log[..n], c);
    }
  }

  /** A slot is given up without a close only in direct mode and only when malloc fails. */
  lemma {:induction false} LeakOnlyOnOom(run: seq<State>, steps: seq<Step>, i: nat)
    requires IsRun(run, steps) && i < |run|
    requires !run[0].w.cfg.direct || forall a :: a in steps && a.Drain? ==> a.env.block.Some?
    ensures run[i].k.leaked == [] && run[i].w.cfg == run[0].w.cfg
  {
    if i > 0 {
      LeakOnlyOnOom(run, steps, i - 1);
      assert steps[i - 1] in steps;
      StepLeakAt(run, steps, i - 1);
    }
  }

  lemma StepLeakAt(run: seq<State>, steps: seq<Step>, i: nat)
    requires IsRun(run, steps) && i < |steps|
    requires !run[i].w.cfg.direct || (steps[i].Drain? ==> steps[i].env.block.Some?)
    ensures run[i + 1].k.leaked == run[i].k.leaked && run[i + 1].w.cfg == run[i].w.cfg
  {
    RunInv(run, steps, i);
    StepLeak(run[i], steps[i]);
  }

  lemma StepLeak(s: State, a: Step)
    requires Inv(s) && Enabled(s, a)
    requires !s.w.cfg.direct || (a.Drain? ==> a.env.block.Some?)
    ensures Do(s, a).k.leaked == s.k.leaked && Do(s, a).w.cfg == s.w.cfg
  {
    if a.Drain? { DrainLeak(s, a.env); }
  }

  lemma DrainLeak(s: State, env: Env)
    requires Inv(s) && Enabled(s, Drain(env))
    requires !s.w.cfg.direct || env.block.Some?
    ensures DoDrain(s, env).k.leaked == s.k.leaked && DoDrain(s, env).w.cfg == s.w.cfg
  {
    var e := s.k.cq[0];
    assert e in s.k.cq && CqeOk(s.w, e);
    if e.data.Ref? {
      RecvShape(s, env, e);
    } else if e.data.Marker? && e.res >= 0 {
      if s.w.free != [] || env.block.Some? {
        AdoptShape(s, env, e, if s.w.free != [] then s.w.free[0] else env.block.value.0);
      } else {
        AcceptDropped(s, env, e);
      }
    }
  }

  predicate Resolves(k: Kernel, d: Desc, c: ConnId) {
    d in k.open && k.open[d] == c
  }

  lemma SqResolves(s: State, i: nat)
    requires Inv(s) && i < |s.w.sq| && !s.w.sq[i].Accept?
    ensures Resolves(s.k, s.w.sq[i].desc, s.w.sq[i].conn)
  {
    var e := s.w.sq[i];
    if e.Close? && i > 0 && s.w.sq[i - 1].Send? {
      SqResolves(s, i - 1);
    } else {
      var st := if e.Recv? then Fresh else if e.Send? then Owing(e.len) else Done;
      SqHas(false, s.w.sq, i, DescTok(e.desc, e.conn, st));
      DescMeans(s, e.desc, e.conn, st);
    }
  }

  /** Every queued recv, send and close, and every recv in flight, names a descriptor that
      is open for the very connection the request is meant for. */
  lemma RequestsResolve(run: seq<State>, steps: seq<Step>, i: nat)
    requires IsRun(run, steps) && i < |run|
    ensures forall e :: e in run[i].w.sq && !e.Accept? ==> Resolves(run[i].k, e.desc, e.conn)
    ensures forall p :: p in run[i].k.pending ==> Resolves(run[i].k, p.desc, p.conn)
  {
    RunInv(run, steps, i);
    var s := run[i];
    forall e | e in s.w.sq && !e.Accept? ensures Resolves(s.k, e.desc, e.conn) {
      var j :| 0 <= j < |s.w.sq| && s.w.sq[j] == e;
      SqResolves(s, j);
    }
    forall p | p in s.k.pending ensures Resolves(s.k, p.desc, p.conn) {
      SumHas(PendingToks, s.k.pending, p, DescTok(p.desc, p.conn, Waiting));
      DescMeans(s, p.desc, p.conn, Waiting);
    }
  }

  /** The event acted on the connection the worker meant. */
  predicate OnTarget(e: Event) {
    match e
    case RecvIssued(c, i) => c == i
    case Sent(c, i, _) => c == i
    case Closed(c, i) => c == i
    case Stray(_) => false
    case _ => true
  }

  lemma {:induction false} BrokenStays(cap: nat, log: seq<Event>, j: nat, c: ConnId)
    requires j <= |log| && StageOf(cap, log[..j], c) == Broken
    ensures StageOf(cap, log, c) == Broken
    decreases |log| - j
  {
    if j < |log| {
      assert log[..j + 1][..j] == log[..j];
      BrokenStays(cap, log, j + 1, c);
    } else {
      assert log[..j] == log;
    }
  }

  lemma NoneBroken(s: State, c: ConnId)
    requires Inv(s)
    ensures StageOf(s.w.cfg.replyCap, s.k.log, c) != Broken
  {
    if c < s.k.next && c in s.k.open.Values {
      var d :| d in s.k.open && s.k.open[d] == c;
      var x := DescTok(d, c, Broken);
      NobodyHoldsBroken(s, x);
      assert Held(s, x) == Due(s, x);
    }
  }

  lemma {:induction false} SqNotBroken(p: bool, sq: seq<Sqe>, x: Token)
    requires x.DescTok? && x.stage == Broken
    ensures SqToks(p, sq, x) == 0
    decreases |sq|
  {
    if sq != [] { SqNotBroken(sq[0].Send?, sq[1..], x); }
  }

  lemma NobodyHoldsBroken(s: State, x: Token)
    requires x.DescTok? && x.stage == Broken
    ensures Held(s, x) == 0
  {
    SqNotBroken(false, s.w.sq, x);
    SumIsCount(CqeToks, x, (e: Cqe) => false, s.k.cq);
    SumIsCount(PendingToks, x, (p: Pending) => false, s.k.pending);
    SumIsCount(StandingToks, x, (e: Sqe) => false, s.k.standing);
    SumIsCount(LeakToks, x, (l: (Desc, ConnId)) => false, s.k.leaked);
    SumIsCount(FreeToks, x, (r: Addr) => false, s.w.free);
    CountNone(s.k.cq);
    CountNone(s.k.pending);
    CountNone(s.k.standing);
    CountNone(s.k.leaked);
    CountNone(s.w.free);
  }

  /** Descriptor identity: whatever the kernel resolved at issue, in the whole history of
      the run, was the connection the request was queued for. */
  lemma DescriptorIdentity(run: seq<State>, steps: seq<Step>, i: nat, j: nat)
    requires IsRun(run, steps) && i < |run| && j < |run[i].k.log|
    ensures OnTarget(run[i].k.log[j])
  {
    RunInv(run, steps, i);
    var s := run[i];
    var log, cap := s.k.log, s.w.cfg.replyCap;
    if !log[j].Stray? && !OnTarget(log[j]) {
      assert log[..j + 1] == log[..j] + [log[j]];
      StageAppend(cap, log[..j], log[j], log[j].conn);
      BrokenStays(cap, log, j + 1, log[j].conn);
      NoneBroken(s, log[j].conn);
    }
  }

  /** A descriptor changes hands only through the close of the connection that has it. */
  lemma ReleasedOnlyByClose(run: seq<State>, steps: seq<Step>, i: nat, d: Desc)
    requires IsRun(run, steps) && i < |steps| && d in run[i].k.open
    ensures var c := run[i].k.open[d];
            || Resolves(run[i + 1].k, d, c)
            || (d !in run[i + 1].k.open && run[i + 1].k.log == run[i].k.log + [Closed(c, c)])
  {
    RunInv(run, steps, i);
    var s, a := run[i], steps[i];
    match a
    case KIssue => IssueKeeps(s, d);
    case Drain(env) => DrainKeeps(s, env, d);
    case _ =>
  }

  lemma IssueKeeps(s: State, d: Desc)
    requires Inv(s) && Enabled(s, KIssue) && d in s.k.open
    ensures var c, k := s.k.open[d], IssueSqe(s.k, s.w.scratch, s.w.sq[0]);
            Resolves(k, d, c) || (d !in k.open && k.log == s.k.log + [Closed(c, c)])
  {
    if !s.w.sq[0].Accept? { SqResolves(s, 0); }
  }

  lemma DrainKeeps(s: State, env: Env, d: Desc)
    requires Inv(s) && Enabled(s, Drain(env)) && d in s.k.open
    ensures var c, k := s.k.open[d], DoDrain(s, env).k;
            Resolves(k, d, c) || (d !in k.open && k.log == s.k.log + [Closed(c, c)])
  {
    var e := s.k.cq[0];
    assert e in s.k.cq && CqeOk(s.w, e);
    if e.data.Ref? {
      RecvShape(s, env, e);
    } else if e.data.Marker? && e.res >= 0 {
      if s.w.free != [] || env.block.Some? {
        AdoptShape(s, env, e, if s.w.free != [] then s.w.free[0] else env.block.value.0);
      } else {
        DropKeeps(s, env, e, d);
      }
    }
  }

  lemma DropKeeps(s: State, env: Env, e: Cqe, d: Desc)
    requires AtAccept(s, env, e) && e.res >= 0 && s.w.free == [] && env.block.None? && d in s.k.open
    ensures var c, k := s.k.open[d], DoDrain(s, env).k;
            Resolves(k, d, c) || (d !in k.open && k.log == s.k.log + [Closed(c, c)])
  {
    assert e in s.k.cq && CqeOk(s.w, e);
    SumHas(CqeToks, s.k.cq, e, DescTok(e.desc, e.conn, Fresh));
    DescMeans(s, e.desc, e.conn, Fresh);
    var act := if s.w.cfg.direct then Leak(e.desc, e.conn) else SyncClose(e.desc, e.conn);
    var w1 := DrainOne(s.w, e, env);
    assert w1.acts == [act];
    var k1 := s.k.(cq := s.k.cq[1..]);
    assert ApplyAll(k1, w1.scratch, [act]) == Apply(k1, w1.scratch, act);
  }
}
