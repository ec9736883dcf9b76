/**
 What the loop gets done. A flushed pass drains the completions that were there, in order and
 with the answers of the script; no queued request is lost; and so a connection is received
 from, answered and closed as soon as the kernel has done its part.
 */
module Progress {
  import opened Basics
  import opened Ring
  import opened Engine
  import opened System
  import opened Tokens
  import opened Safety
  import opened DrainSafety
  import opened Runs
  import opened Descriptors
  import opened Replies
  import opened Lifecycle
  import opened Schedule

  /** Draining takes the first completion away and adds nothing to the completion queue; it
      only appends to the submission queue and to the history. */
  lemma DrainGrows(s: State, env: Env)
    requires Inv(s) && Enabled(s, Drain(env))
    ensures var t := DoDrain(s, env);
            t.k.cq == s.k.cq[1..] && s.w.sq <= t.w.sq && s.k.log <= t.k.log
  {
    var e := s.k.cq[0];
    assert e in s.k.cq && CqeOk(s.w, e);
    if e.data.Ref? {
      RecvShape(s, env, e);
    } else if e.data.Marker? && e.res >= 0 {
      if s.w.free != [] || env.block.Some? {
        AdoptShape(s, env, e, if s.w.free != [] then s.w.free[0] else env.block.value.0);
      } else {
        DropGrows(s, env, e);
      }
    }
  }

  lemma DropGrows(s: State, env: Env, e: Cqe)
    requires AtAccept(s, env, e) && e.res >= 0 && s.w.free == [] && env.block.None?
    ensures var t := DoDrain(s, env);
            t.k.cq == s.k.cq[1..] && s.w.sq <= t.w.sq && s.k.log <= t.k.log
  {
    assert e in s.k.cq && CqeOk(s.w, e);
    var act := if s.w.cfg.direct then Leak(e.desc, e.conn) else SyncClose(e.desc, e.conn);
    var w1 := DrainOne(s.w, e, env);
    assert w1.acts == [act];
    var k1 := s.k.(cq := s.k.cq[1..]);
    assert ApplyAll(k1, w1.scratch, [act]) == Apply(k1, w1.scratch, act);
  }

  // ---- no queued request is lost

  /** The history shows that request e was carried out, for the connection it was queued for. */
  ghost predicate Fulfilled(e: Sqe, log: seq<Event>) {
    match e
    case Accept(_, _) => true
    case Recv(_, _, _, c) => RecvIssued(c, c) in log
    case Send(_, len, c) => exists bytes :: Sent(c, c, bytes) in log && |bytes| == len
    case Close(_, c) => Closed(c, c) in log
  }

  /** What was queued in s is queued in t or was carried out, and the history has grown. */
  ghost predicate Keeps(s: State, t: State) {
    && s.k.log <= t.k.log
    && forall e :: e in s.w.sq ==> e in t.w.sq || Fulfilled(e, t.k.log)
  }

  lemma KeepsTrans(s: State, t: State, u: State)
    requires Keeps(s, t) && Keeps(t, u)
    ensures Keeps(s, u)
  {
    forall e | e in s.w.sq ensures e in u.w.sq || Fulfilled(e, u.k.log) {
      if e !in t.w.sq { FulfilledStays(e, t.k.log, u.k.log); }
    }
  }

  lemma FulfilledStays(e: Sqe, log: seq<Event>, log1: seq<Event>)
    requires Fulfilled(e, log) && log <= log1
    ensures Fulfilled(e, log1)
  {
    assert forall x :: x in log ==> x in log1;
  }

  lemma StepKeeps(s: State, a: Step)
    requires Inv(s) && Enabled(s, a)
    ensures Keeps(s, Do(s, a))
  {
    match a
    case Drain(env) => DrainGrows(s, env);
    case KIssue => IssueFulfils(s);
    case _ =>
  }

  lemma IssueFulfils(s: State)
    requires Inv(s) && Enabled(s, KIssue)
    ensures Keeps(s, Do(s, KIssue)) && Fulfilled(s.w.sq[0], Do(s, KIssue).k.log)
  {
    var e, t := s.w.sq[0], Do(s, KIssue);
    assert e in s.w.sq && SqeOk(s.w, e);
    if !e.Accept? {
      SqResolves(s, 0);
      if e.Send? { assert Sent(e.conn, e.conn, Prefix(s.w.scratch, e.len)) in t.k.log; }
    }
    forall x | x in s.w.sq ensures x == e || x in t.w.sq {}
  }

  /** No queued request is lost: it stays queued until the kernel carries it out, in every
      run. */
  lemma {:induction false} QueuedHappens(run: seq<State>, steps: seq<Step>, i: nat, j: nat)
    requires IsRun(run, steps) && i <= j < |run|
    ensures Keeps(run[i], run[j])
    decreases j - i
  {
    if i < j {
      RunInv(run, steps, i);
      StepKeeps(run[i], steps[i]);
      QueuedHappens(run, steps, i + 1, j);
      KeepsTrans(run[i], run[i + 1], run[j]);
    }
  }

  lemma PcKeeps(s: State, pc: Pc)
    ensures Keeps(s, s.(pc := pc)) && Keeps(s.(pc := pc), s)
  {
  }

  lemma {:induction false} MovesKeep(init: State, s: State, moves: seq<Step>)
    requires Reaches(init, s)
    ensures Keeps(s, AfterAll(s, moves)) && s.k.cq <= AfterAll(s, moves).k.cq
  {
    if moves != [] {
      var n := |moves| - 1;
      MovesKeep(init, s, moves[..n]);
      MovesReach(init, s, moves[..n]);
      var s1, a := AfterAll(s, moves[..n]), moves[n];
      ReachInv(init, s1);
      if KernelMove?(a) && Enabled(s1, a) {
        StepKeeps(s1, a);
        KeepsTrans(s, s1, Do(s1, a));
      }
    }
  }

  // ---- the batch

  /** Completion i of the batch is drained in state t, with the answers of entry i of the
      script, and comes off the queue. */
  ghost predicate TakesNext(ans: Answering, s: State, drains: seq<(seq<Step>, Env)>, i: nat) {
    var t := Before(ans, s, drains, i);
    && i < |s.k.cq| && s.k.cq[i..] <= t.k.cq && t.k.cq[0] == s.k.cq[i]
    && var env := ans(t.w, Nth(drains, i).1);
       && Enabled(t, Drain(env)) && BatchTo(ans, s, drains, i + 1) == DoDrain(t, env)
       && BatchTo(ans, s, drains, i + 1).k.cq == t.k.cq[1..]
  }

  lemma {:induction false} BatchTakes(ans: Answering, init: State, s: State, drains: seq<(seq<Step>, Env)>, i: nat)
    requires Possible(ans) && Reaches(init, s) && s.pc.Draining? && i < s.pc.left
    ensures TakesNext(ans, s, drains, i)
  {
    ReachInv(init, s);
    if i > 0 {
      BatchTakes(ans, init, s, drains, i - 1);
      assert s.k.cq[i..] == s.k.cq[i - 1..][1..];
    }
    TakesOne(ans, init, s, drains, i);
  }

  lemma TakesOne(ans: Answering, init: State, s: State, drains: seq<(seq<Step>, Env)>, i: nat)
    requires Possible(ans) && Reaches(init, s) && s.pc.Draining? && i < s.pc.left <= |s.k.cq|
    requires s.k.cq[i..] <= BatchTo(ans, s, drains, i).k.cq
    ensures TakesNext(ans, s, drains, i)
  {
    BatchReach(ans, init, s, drains, i);
    var b, t := BatchTo(ans, s, drains, i), Before(ans, s, drains, i);
    MovesKeep(init, b, Nth(drains, i).0);
    assert t.k.cq[0] == s.k.cq[i..][0];
    DrainReach(ans, init, t, Nth(drains, i).1);
    ReachInv(init, t);
    DrainGrows(t, ans(t.w, Nth(drains, i).1));
  }

  lemma {:induction false} BatchKeeps(ans: Answering, init: State, s: State, drains: seq<(seq<Step>, Env)>, i: nat,
                                      n: nat)
    requires Possible(ans) && Reaches(init, s) && s.pc.Draining? && i <= n <= s.pc.left
    ensures Keeps(BatchTo(ans, s, drains, i), BatchTo(ans, s, drains, n))
    decreases n - i
  {
    if i < n {
      NextKeeps(ans, init, s, drains, i);
      BatchKeeps(ans, init, s, drains, i + 1, n);
      KeepsTrans(BatchTo(ans, s, drains, i), BatchTo(ans, s, drains, i + 1), BatchTo(ans, s, drains, n));
    }
  }

  lemma NextKeeps(ans: Answering, init: State, s: State, drains: seq<(seq<Step>, Env)>, i: nat)
    requires Possible(ans) && Reaches(init, s) && s.pc.Draining? && i < s.pc.left
    ensures Keeps(BatchTo(ans, s, drains, i), BatchTo(ans, s, drains, i + 1))
  {
    var b, t := BatchTo(ans, s, drains, i), Before(ans, s, drains, i);
    BatchReach(ans, init, s, drains, i);
    MovesKeep(init, b, Nth(drains, i).0);
    DrainReach(ans, init, t, Nth(drains, i).1);
    ReachInv(init, t);
    StepKeeps(t, Drain(ans(t.w, Nth(drains, i).1)));
    KeepsTrans(b, t, BatchTo(ans, s, drains, i + 1));
  }

  /** A pass whose enter call returns on an empty queue drains the completions that are there,
      the first 256 at most: each in turn, with the answers of its entry of the script, and
      behind them are left the other completions and what the kernel posted meanwhile. */
  lemma PassDrains(ans: Answering, init: State, s: State, r: Round)
    requires Possible(ans) && Reaches(init, s) && s.pc == Head && Flushes(s, r)
    ensures var ready := Entered(s, r).k.cq;
            var n := if |ready| < 256 then |ready| else 256;
            && BatchStart(s, r) == Entered(s, r).(pc := Draining(n))
            && (forall i :: 0 <= i < n ==> TakesNext(ans, BatchStart(s, r), r.drains, i))
            && PassTo(ans, s, r) == BatchTo(ans, BatchStart(s, r), r.drains, n).(pc := Head)
            && ready[n..] <= PassTo(ans, s, r).k.cq
  {
    EnteredReach(init, s, r);
    var b := BatchStart(s, r);
    var n := b.pc.left;
    forall i | 0 <= i < n ensures TakesNext(ans, b, r.drains, i) { BatchTakes(ans, init, b, r.drains, i); }
    if n > 0 {
      assert TakesNext(ans, b, r.drains, n - 1);
      assert b.k.cq[n..] == b.k.cq[n - 1..][1..];
    }
  }

  lemma EnteredKeeps(init: State, s: State, r: Round)
    requires Reaches(init, s) && s.pc == Head
    ensures Keeps(s, Entered(s, r))
  {
    var s1 := s.(pc := Entering);
    Go(init, s, Enter, s1);
    PcKeeps(s, Entering);
    MovesKeep(init, s1, r.moves);
    KeepsTrans(s, s1, Entered(s, r));
  }

  /** From any point of its batch on a pass keeps what is queued. */
  lemma RestKeeps(ans: Answering, init: State, s: State, r: Round, i: nat)
    requires Possible(ans) && Reaches(init, s) && s.pc == Head && Flushes(s, r) && i <= BatchStart(s, r).pc.left
    ensures Keeps(BatchTo(ans, BatchStart(s, r), r.drains, i), PassTo(ans, s, r))
  {
    EnteredReach(init, s, r);
    var b := BatchStart(s, r);
    BatchKeeps(ans, init, b, r.drains, i, b.pc.left);
    var e := BatchTo(ans, b, r.drains, b.pc.left);
    PcKeeps(e, Head);
    KeepsTrans(BatchTo(ans, b, r.drains, i), e, e.(pc := Head));
  }

  lemma PassKeeps(ans: Answering, init: State, s: State, r: Round)
    requires Possible(ans) && Reaches(init, s) && s.pc == Head
    ensures Keeps(s, PassTo(ans, s, r))
  {
    if r.stop {
      PcKeeps(s, Exited);
    } else {
      EnteredKeeps(init, s, r);
      var s1 := Entered(s, r);
      if Flushes(s, r) {
        RestKeeps(ans, init, s, r, 0);
        PcKeeps(s1, BatchStart(s, r).pc);
        KeepsTrans(s, s1, BatchStart(s, r));
        KeepsTrans(s, BatchStart(s, r), PassTo(ans, s, r));
      } else {
        PcKeeps(s1, PassTo(ans, s, r).pc);
        KeepsTrans(s, s1, PassTo(ans, s, r));
      }
    }
  }

  lemma {:induction false} RunKeeps(ans: Answering, init: State, s: State, rounds: seq<Round>)
    requires Possible(ans) && Reaches(init, s) && s.pc == Head
    ensures Keeps(s, RunTo(ans, s, rounds))
  {
    if rounds != [] {
      var n := |rounds| - 1;
      RunKeeps(ans, init, s, rounds[..n]);
      RunReach(ans, init, s, rounds[..n]);
      var s1 := RunTo(ans, s, rounds[..n]);
      if s1.pc == Head {
        PassKeeps(ans, init, s1, rounds[n]);
        KeepsTrans(s, s1, RunTo(ans, s, rounds));
      }
    }
  }

  // ---- from end to end

  /** What is queued at point i of a batch has happened when, any number of passes later, an
      enter call returns on an empty queue. */
  lemma HappensByFlush(ans: Answering, init: State, s: State, r: Round, i: nat, later: seq<Round>, r1: Round, e: Sqe)
    requires Possible(ans) && Reaches(init, s) && s.pc == Head && Flushes(s, r) && i <= BatchStart(s, r).pc.left
    requires e in BatchTo(ans, BatchStart(s, r), r.drains, i).w.sq
    requires !Leaves(r) && !SomeLeaves(later) && Flushes(RunTo(ans, PassTo(ans, s, r), later), r1)
    ensures var end := Entered(RunTo(ans, PassTo(ans, s, r), later), r1);
            Reaches(init, end) && Fulfilled(e, end.k.log)
    ensures BatchTo(ans, BatchStart(s, r), r.drains, i).k.log
            <= Entered(RunTo(ans, PassTo(ans, s, r), later), r1).k.log
  {
    var b, p := BatchTo(ans, BatchStart(s, r), r.drains, i), PassTo(ans, s, r);
    RestKeeps(ans, init, s, r, i);
    PassReach(ans, init, s, r);
    RunKeeps(ans, init, p, later);
    RunReach(ans, init, p, later);
    var q := RunTo(ans, p, later);
    EnteredKeeps(init, q, r1);
    EnteredReach(init, q, r1);
    KeepsTrans(b, p, q);
    KeepsTrans(b, q, Entered(q, r1));
  }

  /** An accepted connection for which there is a record is received from by the next time the
      queue is flushed. */
  lemma AcceptIsReceivedFrom(init: State, s: State, r: Round, i: nat, later: seq<Round>, r1: Round)
    requires Reaches(init, s) && s.pc == Head && Flushes(s, r) && i < BatchStart(s, r).pc.left
    requires i < |Entered(s, r).k.cq| && Entered(s, r).k.cq[i].data == Marker && Entered(s, r).k.cq[i].res >= 0
    requires var t := Before(Answers, BatchStart(s, r), r.drains, i);
             t.w.free != [] || FreshBlock(t.w, Nth(r.drains, i).1.block).Some?
    requires !SomeLeaves(later) && Flushes(RunTo(Answers, PassTo(Answers, s, r), later), r1)
    ensures var c := Entered(s, r).k.cq[i].conn;
            RecvIssued(c, c) in Entered(RunTo(Answers, PassTo(Answers, s, r), later), r1).k.log
  {
    AnswersPossible();
    EnteredReach(init, s, r);
    var b := BatchStart(s, r);
    BatchTakes(Answers, init, b, r.drains, i);
    BatchReach(Answers, init, b, r.drains, i);
    var t := Before(Answers, b, r.drains, i);
    ReachInv(init, t);
    var e, env := t.k.cq[0], Answers(t.w, Nth(r.drains, i).1);
    ArmedOk(t, env, e);
    var rec := if t.w.free != [] then t.w.free[0] else env.block.value.0;
    AdoptShape(t, env, e, rec);
    var q := Recv(rec, e.desc, t.w.cfg.recvBuf, e.conn);
    assert BatchTo(Answers, b, r.drains, i + 1).w.sq[|Armed(t.w, e)|] == q;
    HappensByFlush(Answers, init, s, r, i + 1, later, r1, q);
  }

  /** What the next flush shows of a connection whose recv completion e was drained with the
      answer rlen: a failed recv is closed, and so is a declined request; any other is
      answered with the length asked for, within the capacity, and closed. */
  ghost predicate DealtWith(cap: nat, e: Cqe, env: Env, log: seq<Event>) {
    && Closed(e.conn, e.conn) in log
    && (e.res > 0 ==> Handled(e.conn, e.payload, env.rlen, env.reply) in log)
    && (e.res > 0 && env.rlen > 0 ==>
          exists bytes :: Sent(e.conn, e.conn, bytes) in log && |bytes| == Min(env.rlen, cap))
  }

  /** Every recv completion that a flushed pass finds among its first 256 is dealt with: the
      handler is called in that pass, on the bytes received and with the answer of the
      script, and by the next time the queue is flushed, any number of passes later, the
      answer is sent and the connection closed. */
  lemma RecvIsDealtWith(init: State, s: State, r: Round, i: nat, later: seq<Round>, r1: Round)
    requires Reaches(init, s) && s.pc == Head && Flushes(s, r) && i < BatchStart(s, r).pc.left
    requires i < |Entered(s, r).k.cq| && Entered(s, r).k.cq[i].data.Ref?
    requires |Nth(r.drains, i).1.reply| == s.w.cfg.replyCap
    requires !SomeLeaves(later) && Flushes(RunTo(Answers, PassTo(Answers, s, r), later), r1)
    ensures var e, env := Entered(s, r).k.cq[i], Nth(r.drains, i).1;
            && (e.res > 0 ==> Handled(e.conn, e.payload, env.rlen, env.reply) in PassTo(Answers, s, r).k.log)
            && DealtWith(s.w.cfg.replyCap, e, env,
                         Entered(RunTo(Answers, PassTo(Answers, s, r), later), r1).k.log)
  {
    var b, e := BatchStart(s, r), Entered(s, r).k.cq[i];
    var u := BatchTo(Answers, b, r.drains, i + 1);
    var env := DrainedRecv(init, s, r, i);
    AnswersPossible();
    HappensByFlush(Answers, init, s, r, i + 1, later, r1, Close(e.desc, e.conn));
    if e.res > 0 {
      assert Handled(e.conn, e.payload, env.rlen, env.reply) in u.k.log;
      RestKeeps(Answers, init, s, r, i + 1);
      if env.rlen > 0 {
        HappensByFlush(Answers, init, s, r, i + 1, later, r1,
                       Send(e.desc, Min(env.rlen, s.w.cfg.replyCap), e.conn));
      }
    }
  }

  /** The state behind the drain of a recv completion. */
  lemma DrainedRecv(init: State, s: State, r: Round, i: nat) returns (env: Env)
    requires Reaches(init, s) && s.pc == Head && Flushes(s, r) && i < BatchStart(s, r).pc.left
    requires i < |Entered(s, r).k.cq| && Entered(s, r).k.cq[i].data.Ref?
    requires |Nth(r.drains, i).1.reply| == s.w.cfg.replyCap
    ensures env.rlen == Nth(r.drains, i).1.rlen && env.reply == Nth(r.drains, i).1.reply
    ensures var e, u := Entered(s, r).k.cq[i], BatchTo(Answers, BatchStart(s, r), r.drains, i + 1);
            && Close(e.desc, e.conn) in u.w.sq
            && (e.res > 0 ==> Handled(e.conn, e.payload, env.rlen, env.reply) in u.k.log)
            && (e.res > 0 && env.rlen > 0 ==> Send(e.desc, Min(env.rlen, s.w.cfg.replyCap), e.conn) in u.w.sq)
  {
    AnswersPossible();
    EnteredReach(init, s, r);
    var b := BatchStart(s, r);
    BatchTakes(Answers, init, b, r.drains, i);
    BatchReach(Answers, init, b, r.drains, i);
    var t := Before(Answers, b, r.drains, i);
    ReachInv(init, t);
    ReachCfg(init, t);
    ReachCfg(init, s);
    env := Answers(t.w, Nth(r.drains, i).1);
    RecvShape(t, env, t.k.cq[0]);
    RetiredHas(t, env, t.k.cq[0]);
  }

  lemma ReachCfg(init: State, s: State)
    requires Reaches(init, s)
    ensures s.w.cfg == init.w.cfg && |s.w.scratch| == init.w.cfg.replyCap
  {
    var run, steps :| IsRun(run, steps) && run[0] == init && run[|run| - 1] == s;
    ScratchHistory(run, steps, |run| - 1);
    RunInv(run, steps, |run| - 1);
  }

  lemma RetiredHas(t: State, env: Env, e: Cqe)
    requires AtRecv(t, env, e)
    ensures var u := DoDrain(t, env);
            && Close(e.desc, e.conn) in u.w.sq
            && (e.res > 0 ==> Handled(e.conn, e.payload, env.rlen, env.reply) in u.k.log)
            && (e.res > 0 && env.rlen > 0 ==> Send(e.desc, Min(env.rlen, t.w.cfg.replyCap), e.conn) in u.w.sq)
  {
    RecvShape(t, env, e);
    var u, n := DoDrain(t, env), |t.w.sq|;
    if e.res > 0 && env.rlen > 0 {
      assert u.w.sq[n] == Send(e.desc, Min(env.rlen, t.w.cfg.replyCap), e.conn);
      assert u.w.sq[n + 1] == Close(e.desc, e.conn);
    } else {
      assert u.w.sq[n] == Close(e.desc, e.conn);
    }
  }

  lemma {:induction false} LifeHas(log: seq<Event>, c: ConnId, e: Event)
    requires e in log && About(e, c)
    ensures e in Life(log, c)
  {
    var n := |log| - 1;
    if log[n] != e { LifeHas(log[..n], c, e); }
  }

  /** A connection that was dealt with has lived its whole life, and nothing more will happen
      to it: accept, recv, handler, send and close, in this order, if it was answered. */
  lemma WholeLife(init: State, s: State, c: ConnId)
    requires Reaches(init, s) && Closed(c, c) in s.k.log
    ensures FullLife(s.w.cfg.replyCap, c, Life(s.k.log, c))
    ensures forall e :: e in s.k.log && About(e, c) && e.Sent? ==> |Life(s.k.log, c)| == 6
  {
    var run, steps :| IsRun(run, steps) && run[0] == init && run[|run| - 1] == s;
    LifecycleRefinement(run, steps, |run| - 1, c);
    ProtocolEnds(s.w.cfg.replyCap, c, s.k.log);
  }

  lemma ProtocolEnds(cap: nat, c: ConnId, log: seq<Event>)
    requires Protocol(cap, c, Life(log, c)) && Closed(c, c) in log
    ensures FullLife(cap, c, Life(log, c))
    ensures forall e :: e in log && About(e, c) && e.Sent? ==> |Life(log, c)| == 6
  {
    var p := Life(log, c);
    LifeHas(log, c, Closed(c, c));
    var j :| 0 <= j < |p| && p[j] == Closed(c, c);
    ClosedIsLast(cap, c, p, j);
    forall e | e in log && About(e, c) && e.Sent? ensures |p| == 6 {
      LifeHas(log, c, e);
      var k :| 0 <= k < |p| && p[k] == e;
      SentMeansSix(cap, c, p, k);
    }
  }

  lemma ClosedIsLast(cap: nat, c: ConnId, p: seq<Event>, j: nat)
    requires Protocol(cap, c, p) && j < |p| && p[j].Closed?
    ensures FullLife(cap, c, p)
  {
    var f :| FullLife(cap, c, f) && p <= f;
    assert f[j] == p[j];
    assert j == |f| - 1;
    assert p == f;
  }

  lemma SentMeansSix(cap: nat, c: ConnId, p: seq<Event>, k: nat)
    requires FullLife(cap, c, p) && k < |p| && p[k].Sent?
    ensures |p| == 6
  {
  }
}
