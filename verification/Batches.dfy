/**
 Where a reply can be overwritten: between the handler call of a connection and its send
 there is exactly one end of a batch, and what is sent is the scratch as it stands there.
 */
module Batches {
  import opened Basics
  import opened Ring
  import opened Engine
  import opened System
  import opened Tokens
  import opened Safety
  import opened DrainSafety
  import opened Runs
  import opened Replies

  lemma LogStep(run: seq<State>, steps: seq<Step>, m: nat)
    requires IsRun(run, steps) && m < |steps|
    ensures run[m].k.log <= run[m + 1].k.log && |run[m + 1].k.log| <= |run[m].k.log| + 1
    ensures run[m].w.cfg == run[m + 1].w.cfg
  {
    StepScratchAt(run, steps, m);
  }

  /** The history only grows. */
  lemma {:induction false} LogGrows(run: seq<State>, steps: seq<Step>, m: nat, i: nat)
    requires IsRun(run, steps) && m <= i < |run|
    ensures run[m].k.log <= run[i].k.log && run[m].w.cfg == run[i].w.cfg
    decreases i - m
  {
    if m < i {
      LogStep(run, steps, m);
      LogGrows(run, steps, m + 1, i);
    }
  }

  /** Step m is the one that added event j to the history. */
  ghost predicate Logs(run: seq<State>, m: nat, j: nat) {
    m + 1 < |run| && |run[m].k.log| == j && |run[m + 1].k.log| == j + 1
  }

  lemma {:induction false} FindStep(run: seq<State>, steps: seq<Step>, i: nat, j: nat) returns (m: nat)
    requires IsRun(run, steps) && i < |run| && j < |run[i].k.log|
    ensures m < i && Logs(run, m, j) && run[m + 1].k.log <= run[i].k.log
  {
    LogStep(run, steps, i - 1);
    if j < |run[i - 1].k.log| {
      m := FindStep(run, steps, i - 1, j);
    } else {
      m := i - 1;
    }
  }

  /** Draining logs a handler call or a close, nothing else. */
  lemma DrainLogs(s: State, env: Env)
    requires Inv(s) && Enabled(s, Drain(env))
    ensures var log := DoDrain(s, env).k.log;
            log == s.k.log || (|log| == |s.k.log| + 1 && !log[|s.k.log|].Sent?)
  {
    var e := s.k.cq[0];
    assert e in s.k.cq && CqeOk(s.w, e);
    if e.data.Ref? {
      RecvShape(s, env, e);
    } else if e.data.Marker? && e.res >= 0 {
      if s.w.free != [] || env.block.Some? {
        AdoptShape(s, env, e, if s.w.free != [] then s.w.free[0] else env.block.value.0);
      } else {
        DropLogs(s, env, e);
      }
    }
  }

  lemma DropLogs(s: State, env: Env, e: Cqe)
    requires AtAccept(s, env, e) && e.res >= 0 && s.w.free == [] && env.block.None?
    ensures var log := DoDrain(s, env).k.log;
            log == s.k.log || (|log| == |s.k.log| + 1 && !log[|s.k.log|].Sent?)
  {
    assert e in s.k.cq && CqeOk(s.w, e);
    var act := if s.w.cfg.direct then Leak(e.desc, e.conn) else SyncClose(e.desc, e.conn);
    var w1 := DrainOne(s.w, e, env);
    assert w1.acts == [act];
    var k1 := s.k.(cq := s.k.cq[1..]);
    assert ApplyAll(k1, w1.scratch, [act]) == Apply(k1, w1.scratch, act);
  }

  /** Handlers are called while a batch is drained, sends are issued inside the enter call. */
  lemma WhoLogs(run: seq<State>, steps: seq<Step>, m: nat, j: nat)
    requires IsRun(run, steps) && Logs(run, m, j)
    ensures run[m + 1].k.log[j].Handled? ==> steps[m].Drain?
    ensures run[m + 1].k.log[j].Sent? ==> steps[m].KIssue?
  {
    RunInv(run, steps, m);
    if steps[m].Drain? { DrainLogs(run[m], steps[m].env); }
  }

  /** From its handler call to its send a connection owes its reply. */
  lemma {:induction false} OwesBetween(cap: nat, log: seq<Event>, c: ConnId, h: nat, q: nat, j: nat)
    requires h < q <= j <= |log| && log[h].Handled? && log[h].conn == c
    requires StageOf(cap, log[..j], c).Owing?
    ensures StageOf(cap, log[..q], c).Owing?
    decreases j - q
  {
    if q < j {
      assert log[..j][..j - 1] == log[..j - 1] && log[..j][j - 1] == log[j - 1];
      if About(log[j - 1], c) {
        LaterCallBreaks(cap, log, c, h, j - 1);
      } else {
        OwesBetween(cap, log, c, h, q, j - 1);
      }
    }
  }

  /** What makes a connection owe a reply is a handler call, and it cannot be a second one. */
  lemma LaterCallBreaks(cap: nat, log: seq<Event>, c: ConnId, h: nat, k: nat)
    requires h < k < |log| && log[h].Handled? && log[h].conn == c && About(log[k], c)
    ensures !StageOf(cap, log[..k + 1], c).Owing?
  {
    assert log[..h + 1] == log[..h] + [log[h]];
    StageAppend(cap, log[..h], log[h], c);
    SpentStays(cap, log, h + 1, k, c);
    assert log[..k + 1] == log[..k] + [log[k]];
    StageAppend(cap, log[..k], log[k], c);
  }

  /** No batch starts between the step of a handler call and the step of its send. */
  lemma NoFlushBetween(run: seq<State>, steps: seq<Step>, i: nat, h: nat, j: nat, m: nat, n: nat, q: nat)
    requires IsRun(run, steps) && i < |run| && h < j < |run[i].k.log|
    requires m < q <= n < i && Logs(run, m, h) && Logs(run, n, j)
    requires var log := run[i].k.log;
             log[h].Handled? && StageOf(run[0].w.cfg.replyCap, log[..j], log[h].conn).Owing?
    ensures steps[q] != ReturnFlushed
  {
    var log, c := run[i].k.log, run[i].k.log[h].conn;
    LogGrows(run, steps, 0, q);
    LogGrows(run, steps, m + 1, q);
    LogGrows(run, steps, q, n);
    LogGrows(run, steps, n, i);
    var len := |run[q].k.log|;
    assert run[q].k.log == log[..len];
    OwesBetween(run[0].w.cfg.replyCap, log, c, h, len, j);
    if steps[q] == ReturnFlushed { BatchStartsClean(run, steps, q, c); }
  }

  /** Steps m to n span the rest of one batch: none of them starts another. */
  ghost predicate OneBatch(steps: seq<Step>, m: nat, n: nat) {
    n < |steps| && forall q :: m <= q <= n ==> steps[q] != ReturnFlushed
  }

  /** While no batch starts, draining goes on until the batch ends. */
  lemma {:induction false} EndOfBatch(run: seq<State>, steps: seq<Step>, m: nat, n: nat) returns (e: nat)
    requires IsRun(run, steps) && m <= n && OneBatch(steps, m, n)
    requires run[m].pc.Draining? && !run[n].pc.Draining?
    ensures m <= e < n && steps[e] == BatchEnd && forall q :: m <= q < e ==> steps[q] != BatchEnd
    decreases n - m
  {
    if steps[m] == BatchEnd {
      e := m;
    } else {
      e := EndOfBatch(run, steps, m + 1, n);
    }
  }

  /** Behind the end of a batch the scratch stays as it is until the next one starts. */
  lemma {:induction false} ScratchRests(run: seq<State>, steps: seq<Step>, e: nat, n: nat)
    requires IsRun(run, steps) && e <= n && OneBatch(steps, e, n) && !run[e].pc.Draining?
    ensures run[n].w.scratch == run[e].w.scratch && !run[n].pc.Draining?
    decreases n - e
  {
    if e < n { ScratchRests(run, steps, e + 1, n); }
  }

  /** Event h is a handler call logged by step m, event j its connection's send issued by
      step n, and step e the end of the batch in which the handler was called. */
  ghost predicate CallAndSend(run: seq<State>, steps: seq<Step>, log: seq<Event>, h: nat, j: nat, m: nat,
                              e: nat, n: nat) {
    && h < j < |log| && log[h].Handled? && log[j].Sent? && log[h].conn == log[j].conn && log[h].rlen > 0
    && |run| == |steps| + 1 && m < e < n < |steps|
    && Logs(run, m, h) && steps[m].Drain? && Logs(run, n, j) && steps[n] == KIssue
    && steps[e] == BatchEnd && OneBatch(steps, m, n) && forall q :: m <= q < e ==> steps[q] != BatchEnd
  }

  lemma Placed(run: seq<State>, steps: seq<Step>, i: nat, j: nat) returns (h: nat, m: nat, e: nat, n: nat)
    requires IsRun(run, steps) && i < |run| && j < |run[i].k.log| && run[i].k.log[j].Sent?
    ensures CallAndSend(run, steps, run[i].k.log, h, j, m, e, n)
    ensures run[m + 1].k.log <= run[i].k.log && run[n + 1].k.log <= run[i].k.log && n < i
  {
    var log, cap := run[i].k.log, run[0].w.cfg.replyCap;
    h := Caller(run, steps, i, j);
    m := FindStep(run, steps, i, h);
    n := FindStep(run, steps, i, j);
    if n <= m { LogGrows(run, steps, n, m); }
    WhoLogs(run, steps, m, h);
    WhoLogs(run, steps, n, j);
    forall q | m < q <= n ensures steps[q] != ReturnFlushed {
      NoFlushBetween(run, steps, i, h, j, m, n, q);
    }
    e := EndOfBatch(run, steps, m + 1, n);
  }

  lemma Caller(run: seq<State>, steps: seq<Step>, i: nat, j: nat) returns (h: nat)
    requires IsRun(run, steps) && i < |run| && j < |run[i].k.log| && run[i].k.log[j].Sent?
    ensures var log, cap := run[i].k.log, run[0].w.cfg.replyCap;
            && h < j && log[h].Handled? && log[h].conn == log[j].conn && log[h].rlen > 0
            && |log[j].bytes| == Min(log[h].rlen, cap) && StageOf(cap, log[..j], log[h].conn).Owing?
  {
    RunInv(run, steps, i);
    LogGrows(run, steps, 0, i);
    var s := run[i];
    SentOwing(s, j);
    h := OwingHandled(s.w.cfg.replyCap, s.k.log[..j], s.k.log[j].conn);
    assert s.k.log[..j][h] == s.k.log[h];
  }

  /** The last handler call before event j. */
  lemma {:induction false} LastCall(log: seq<Event>, h: nat, j: nat) returns (g: nat)
    requires h < j <= |log| && log[h].Handled?
    ensures h <= g < j && log[g].Handled? && forall k :: g < k < j ==> !log[k].Handled?
    decreases j
  {
    if log[j - 1].Handled? {
      g := j - 1;
    } else {
      g := LastCall(log, h, j - 1);
    }
  }

  /** Reply bytes, for every handler: every send j belongs to an earlier handler call h for
      the same connection, and no other batch starts between the two. What is sent has the
      length the call asked for, within the capacity, and is the scratch as it stands at the
      end of the call's batch, which is what the last handler call g of that batch left. So
      the connection is sent its own reply exactly when call g left the bytes of call h. */
  lemma ReplyBytes(run: seq<State>, steps: seq<Step>, i: nat, j: nat) returns (h: nat, g: nat, m: nat, e: nat, n: nat)
    requires IsRun(run, steps) && i < |run| && j < |run[i].k.log| && run[i].k.log[j].Sent?
    ensures CallAndSend(run, steps, run[i].k.log, h, j, m, e, n)
    ensures var log := run[i].k.log;
            && h <= g < j && log[g].Handled? && (forall k :: g < k < j ==> !log[k].Handled?)
            && run[m + 1].w.scratch == log[h].scratch && run[e].w.scratch == log[g].scratch
            && |log[j].bytes| == Min(log[h].rlen, run[0].w.cfg.replyCap)
            && log[j].bytes == Prefix(run[e].w.scratch, log[h].rlen)
            && (log[j].bytes == Prefix(log[h].scratch, log[h].rlen) <==>
                Prefix(log[g].scratch, log[h].rlen) == Prefix(log[h].scratch, log[h].rlen))
  {
    h, m, e, n := Placed(run, steps, i, j);
    g := LastCall(run[i].k.log, h, j);
    SentBy(run, steps, i, h, j);
    StepScratchAt(run, steps, m);
    StepScratchAt(run, steps, n);
    ScratchRests(run, steps, e + 1, n);
    FullScratch(run, steps, e);
    LeftBy(run, steps, i, j, n, g);
  }

  /** When event j is logged the scratch is what the last handler call before it left. */
  lemma LeftBy(run: seq<State>, steps: seq<Step>, i: nat, j: nat, n: nat, g: nat)
    requires IsRun(run, steps) && i < |run| && j < |run[i].k.log| && n < i && Logs(run, n, j)
    requires var log := run[i].k.log; g < j && log[g].Handled? && forall k :: g < k < j ==> !log[k].Handled?
    ensures run[n].w.scratch == run[i].k.log[g].scratch
  {
    LogGrows(run, steps, n, i);
    assert run[n].k.log == run[i].k.log[..j];
    ScratchHistory(run, steps, n);
    LastIs(run[0].w.scratch, run[i].k.log, g, j);
  }

  lemma FullScratch(run: seq<State>, steps: seq<Step>, e: nat)
    requires IsRun(run, steps) && e < |run|
    ensures |run[e].w.scratch| == run[0].w.cfg.replyCap
  {
    RunInv(run, steps, e);
    LogGrows(run, steps, 0, e);
  }

  /** A connection whose handler call is the last of its batch, in particular the only one,
      is sent its own reply, whatever the handler. */
  lemma LastCallServed(run: seq<State>, steps: seq<Step>, i: nat, h: nat, j: nat)
    requires IsRun(run, steps) && i < |run| && h < j < |run[i].k.log|
    requires var log := run[i].k.log;
             && log[h].Handled? && log[j].Sent? && log[h].conn == log[j].conn
             && forall k :: h < k < j ==> !log[k].Handled?
    ensures run[i].k.log[j].bytes == Prefix(run[i].k.log[h].scratch, run[i].k.log[h].rlen)
  {
    var log := run[i].k.log;
    ScratchHistory(run, steps, i);
    SentBy(run, steps, i, h, j);
    ScratchSize(run, steps, i, j);
    LastIs(run[0].w.scratch, log, h, j);
  }

  lemma {:induction false} LastIs(init: Bytes, log: seq<Event>, h: nat, j: nat)
    requires h < j <= |log| && log[h].Handled? && forall k :: h < k < j ==> !log[k].Handled?
    ensures LastScratch(init, log[..j]) == log[h].scratch
  {
    assert log[..j][..j - 1] == log[..j - 1] && log[..j][j - 1] == log[j - 1];
    if h < j - 1 { LastIs(init, log, h, j - 1); }
  }
}
