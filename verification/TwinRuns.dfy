/**
 The simulation over whole runs of the engine and its kernel: the treatment server that
 meets the same completions and the same kernel moves stays in step with the engine.
 */
module TwinRuns {
  import opened Basics
  import opened Ring
  import opened System
  import opened Runs
  import opened Simulation
  import E = Engine
  import T = Treatment

  /** malloc's answer on the treatment's side: the same address, other content. */
  function TwinBlock(block: Option<(Addr, Record)>, junk: T.TRecord): Option<(Addr, T.TRecord)> {
    match block
    case None => None
    case Some((r, _)) => Some((r, junk))
  }

  /** A fresh treatment worker with the engine's records on its freelist. */
  ghost predicate TwinInit(w: E.Worker, t: T.Treat) {
    && t.direct == w.cfg.direct && t.free == w.free && t.recs.Keys == w.recs.Keys
    && t.sq == [Accept(t.direct, true)] && t.acts == [] && t.starved == 0
  }

  /** The treatment's state t1 behind the engine's step a from s, and in a drain the same
      system calls. */
  ghost predicate TwinStep(s: State, a: Step, junk: T.TRecord, t: T.Treat, t1: T.Treat)
    requires Enabled(s, a)
  {
    match a
    case Drain(env) =>
      && T.Derefs(t, s.k.cq[0])
      && var u := T.DrainOne(t, s.k.cq[0], TwinBlock(env.block, junk), env.k1, env.k2);
         t1 == u.(acts := []) && u.acts == Erase(E.DrainOne(s.w, s.k.cq[0], env).acts)
    case KIssue => t.sq != [] && t.sq[0] == s.w.sq[0] && t1 == t.(sq := t.sq[1..])
    case KRecv(i, res, payload) =>
      var r := s.k.pending[i].rec;
      t1 == T.Filled(t, r, payload)
    case _ => t1 == t
  }

  lemma TwinDrain(s: State, env: E.Env, junk: T.TRecord, t: T.Treat) returns (t1: T.Treat)
    requires Sim(s.w, t) && Enabled(s, Drain(env)) && DispatchOk(s) && FixedReply(s.w, env)
    ensures TwinStep(s, Drain(env), junk, t, t1) && Sim(DoDrain(s, env).w, t1)
  {
    var e, block := s.k.cq[0], TwinBlock(env.block, junk);
    SimStep(s.w, t, e, env, block);
    t1 := T.DrainOne(t, e, block, env.k1, env.k2).(acts := []);
  }

  lemma TwinOne(s: State, a: Step, junk: T.TRecord, t: T.Treat) returns (t1: T.Treat)
    requires Sim(s.w, t) && Enabled(s, a)
    requires a.Drain? ==> DispatchOk(s) && FixedReply(s.w, a.env)
    ensures TwinStep(s, a, junk, t, t1) && Sim(Do(s, a).w, t1)
  {
    match a
    case Drain(env) =>
      t1 := TwinDrain(s, env, junk, t);
    case KIssue =>
      t1 := t.(sq := t.sq[1..]);
    case KRecv(i, res, payload) =>
      var r := s.k.pending[i].rec;
      t1 := T.Filled(t, r, payload);
    case _ =>
      t1 := t;
  }

  /** The engine's configuration under which it does the treatment's work. */
  predicate TwinConfig(cfg: Config) {
    cfg.multishot && cfg.recvBuf == T.READ_BUF_SZ && cfg.replyCap >= REPLY_LEN
  }

  lemma TwinStart(s: State, t: T.Treat)
    requires Init(s) && TwinConfig(s.w.cfg) && TwinInit(s.w, t)
    ensures Sim(s.w, t)
  {
    forall r | r in s.w.recs ensures r in s.w.free { assert r in s.w.recs.Keys; }
  }

  /** In every run of the engine in which the handler always gives the fixed reply, the
      treatment server meets the same completions in the same order with the same queue,
      the same freelist and the same system calls, whatever malloc leaves in its blocks. */
  lemma {:induction false} TwinRun(run: seq<State>, steps: seq<Step>, t0: T.Treat, junk: seq<T.TRecord>, n: nat)
    returns (ts: seq<T.Treat>)
    requires IsRun(run, steps) && |junk| == |steps| && n < |run|
    requires TwinConfig(run[0].w.cfg) && TwinInit(run[0].w, t0)
    requires forall i :: 0 <= i < n && steps[i].Drain? ==> FixedReply(run[i].w, steps[i].env)
    ensures |ts| == n + 1 && ts[0] == t0
    ensures forall i :: 0 <= i < n ==> TwinStep(run[i], steps[i], junk[i], ts[i], ts[i + 1])
    ensures forall i :: 0 <= i <= n ==> Sim(run[i].w, ts[i])
  {
    if n == 0 {
      TwinStart(run[0], t0);
      ts := [t0];
    } else {
      ts := TwinRun(run, steps, t0, junk, n - 1);
      if steps[n - 1].Drain? { DispatchCorrect(run, steps, n - 1); }
      var t1 := TwinOne(run[n - 1], steps[n - 1], junk[n - 1], ts[n - 1]);
      ts := ts + [t1];
    }
  }

  /** A run of the engine and, state by state, the treatment server in step with it. */
  ghost predicate TwinTrace(run: seq<State>, steps: seq<Step>, junk: seq<T.TRecord>, ts: seq<T.Treat>) {
    && IsRun(run, steps) && |junk| == |steps| && |ts| == |run|
    && (forall i :: 0 <= i < |steps| ==> TwinStep(run[i], steps[i], junk[i], ts[i], ts[i + 1]))
    && forall i :: 0 <= i < |run| ==> Sim(run[i].w, ts[i])
  }

  /** Some run leads the engine to s and the treatment server to t. */
  ghost predicate InStep(init: State, t0: T.Treat, s: State, t: T.Treat) {
    exists run, steps, junk, ts ::
      && TwinTrace(run, steps, junk, ts) && run[0] == init && ts[0] == t0
      && run[|run| - 1] == s && ts[|ts| - 1] == t
  }

  lemma InStepBegin(init: State, t0: T.Treat)
    requires Init(init) && TwinConfig(init.w.cfg) && TwinInit(init.w, t0)
    ensures InStep(init, t0, init, t0)
  {
    TwinStart(init, t0);
    var run: seq<State>, steps: seq<Step>, junk: seq<T.TRecord> := [init], [], [];
    assert TwinTrace(run, steps, junk, [t0]);
  }

  lemma InStepGo(init: State, t0: T.Treat, s: State, t: T.Treat, a: Step, block: T.TRecord, s1: State, t1: T.Treat)
    requires InStep(init, t0, s, t) && Enabled(s, a) && s1 == Do(s, a)
    requires TwinStep(s, a, block, t, t1) && Sim(s1.w, t1)
    ensures InStep(init, t0, s1, t1)
  {
    var run, steps, junk, ts :|
      && TwinTrace(run, steps, junk, ts) && run[0] == init && ts[0] == t0
      && run[|run| - 1] == s && ts[|ts| - 1] == t;
    TraceSnoc(run, steps, junk, ts, a, block, s1, t1);
    var run1 := run + [s1];
    assert TwinTrace(run1, steps + [a], junk + [block], ts + [t1]);
  }

  lemma TraceSnoc(run: seq<State>, steps: seq<Step>, junk: seq<T.TRecord>, ts: seq<T.Treat>,
                  a: Step, block: T.TRecord, s1: State, t1: T.Treat)
    requires TwinTrace(run, steps, junk, ts)
    requires var n := |run| - 1;
             Enabled(run[n], a) && s1 == Do(run[n], a) && TwinStep(run[n], a, block, ts[n], t1) && Sim(s1.w, t1)
    ensures TwinTrace(run + [s1], steps + [a], junk + [block], ts + [t1])
  {
    var run1, steps1, junk1, ts1 := run + [s1], steps + [a], junk + [block], ts + [t1];
    assert IsRun(run1, steps1);
    forall i | 0 <= i < |steps1| ensures TwinStep(run1[i], steps1[i], junk1[i], ts1[i], ts1[i + 1]) {
      if i < |steps| { assert TwinStep(run[i], steps[i], junk[i], ts[i], ts[i + 1]); }
    }
    forall i | 0 <= i < |run1| ensures Sim(run1[i].w, ts1[i]) {
      if i < |run| { assert Sim(run[i].w, ts[i]); }
    }
  }

  lemma InStepMeans(init: State, t0: T.Treat, s: State, t: T.Treat)
    requires InStep(init, t0, s, t)
    ensures Reaches(init, s) && Sim(s.w, t)
  {
    var run, steps, junk, ts :|
      && TwinTrace(run, steps, junk, ts) && run[0] == init && ts[0] == t0
      && run[|run| - 1] == s && ts[|ts| - 1] == t;
  }
}
