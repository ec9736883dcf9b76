/**
 The bytes a connection is sent. Replies of one batch share the worker's scratch, and
 the kernel reads it only when the batch is over; so a reply survives exactly when the
 handler calls behind it leave its bytes alone.
 */
module Replies {
  import opened Basics
  import opened Ring
  import opened Engine
  import opened System
  import opened Tokens
  import opened Safety
  import opened DrainSafety
  import opened Runs
  import opened Descriptors

  /** The scratch as the last handler call left it. */
  function LastScratch(init: Bytes, log: seq<Event>): Bytes {
    if log == [] then init
    else
      var e := log[|log| - 1];
      if e.Handled? then e.scratch else LastScratch(init, log[..|log| - 1])
  }

  /** One step adds at most one event, and the scratch changes with a handler call only. */
  predicate ScratchStep(s: State, t: State) {
    && s.k.log <= t.k.log
    && |t.k.log| <= |s.k.log| + 1
    && (|t.k.log| == |s.k.log| ==> t.w.scratch == s.w.scratch)
    && (|t.k.log| == |s.k.log| + 1 ==>
          var e := t.k.log[|s.k.log|];
          && t.w.scratch == (if e.Handled? then e.scratch else s.w.scratch)
          && (e.Handled? ==> |e.scratch| == |s.w.scratch|)
          && (e.Sent? ==> e.bytes == Prefix(s.w.scratch, |e.bytes|))
          && (e.Received? ==> |e.payload| <= s.w.cfg.recvBuf))
  }

  lemma StepScratch(s: State, a: Step)
    requires Inv(s) && Enabled(s, a)
    ensures ScratchStep(s, Do(s, a)) && Do(s, a).w.cfg == s.w.cfg
  {
    match a
    case Drain(env) => DrainScratch(s, env);
    case KRecv(i, _, _) => assert PendingOk(s.w, s.k.pending[i]);
    case _ =>
  }

  lemma DrainScratch(s: State, env: Env)
    requires Inv(s) && Enabled(s, Drain(env))
    ensures ScratchStep(s, DoDrain(s, env)) && DoDrain(s, env).w.cfg == s.w.cfg
  {
    var e := s.k.cq[0];
    assert e in s.k.cq && CqeOk(s.w, e);
    if e.data.Ref? {
      RecvShape(s, env, e);
    } else if e.data.Marker? && e.res >= 0 {
      if s.w.free != [] || env.block.Some? {
        AdoptShape(s, env, e, if s.w.free != [] then s.w.free[0] else env.block.value.0);
      } else {
        var act := if s.w.cfg.direct then Leak(e.desc, e.conn) else SyncClose(e.desc, e.conn);
        var w1 := DrainOne(s.w, e, env);
        assert w1.acts == [act];
        var k1 := s.k.(cq := s.k.cq[1..]);
        assert ApplyAll(k1, w1.scratch, [act]) == Apply(k1, w1.scratch, act);
      }
    }
  }

  lemma StepScratchAt(run: seq<State>, steps: seq<Step>, i: nat)
    requires IsRun(run, steps) && i < |steps|
    ensures ScratchStep(run[i], run[i + 1]) && run[i + 1].w.cfg == run[i].w.cfg
  {
    RunInv(run, steps, i);
    StepScratch(run[i], steps[i]);
  }

  lemma {:induction false} ScratchHistory(run: seq<State>, steps: seq<Step>, i: nat)
    requires IsRun(run, steps) && i < |run|
    ensures run[i].w.scratch == LastScratch(run[0].w.scratch, run[i].k.log)
    ensures forall j :: 0 <= j < |run[i].k.log| && run[i].k.log[j].Sent? ==>
              run[i].k.log[j].bytes
              == Prefix(LastScratch(run[0].w.scratch, run[i].k.log[..j]), |run[i].k.log[j].bytes|)
    ensures run[i].w.cfg == run[0].w.cfg
  {
    if i > 0 {
      ScratchHistory(run, steps, i - 1);
      StepScratchAt(run, steps, i - 1);
      HistoryStep(run[0].w.scratch, run[i - 1], run[i]);
    }
  }

  lemma HistoryStep(init: Bytes, s: State, t: State)
    requires ScratchStep(s, t) && s.w.scratch == LastScratch(init, s.k.log)
    requires forall j :: 0 <= j < |s.k.log| && s.k.log[j].Sent? ==>
               s.k.log[j].bytes == Prefix(LastScratch(init, s.k.log[..j]), |s.k.log[j].bytes|)
    ensures t.w.scratch == LastScratch(init, t.k.log)
    ensures forall j :: 0 <= j < |t.k.log| && t.k.log[j].Sent? ==>
              t.k.log[j].bytes == Prefix(LastScratch(init, t.k.log[..j]), |t.k.log[j].bytes|)
  {
    var n := |s.k.log|;
    assert t.k.log[..n] == s.k.log;
    if |t.k.log| == n { assert t.k.log == s.k.log; }
    forall j | 0 <= j < n ensures t.k.log[..j] == s.k.log[..j] && t.k.log[j] == s.k.log[j] {}
  }

  /** A connection that owes a reply had its handler called. */
  lemma {:induction false} OwingHandled(cap: nat, log: seq<Event>, c: ConnId) returns (h: nat)
    requires StageOf(cap, log, c).Owing?
    ensures h < |log| && log[h].Handled? && log[h].conn == c && log[h].rlen > 0
    ensures StageOf(cap, log, c) == Owing(Min(log[h].rlen, cap))
    ensures StageOf(cap, log[..h], c) == Got(log[h].req)
  {
    var n := |log| - 1;
    if About(log[n], c) {
      h := n;
    } else {
      h := OwingHandled(cap, log[..n], c);
      assert log[..n][..h] == log[..h];
    }
  }

  lemma SentOwing(s: State, j: nat)
    requires Inv(s) && j < |s.k.log| && s.k.log[j].Sent?
    ensures StageOf(s.w.cfg.replyCap, s.k.log[..j], s.k.log[j].conn) == Owing(|s.k.log[j].bytes|)
  {
    var log, cap := s.k.log, s.w.cfg.replyCap;
    var c := log[j].conn;
    assert log[..j + 1] == log[..j] + [log[j]];
    StageAppend(cap, log[..j], log[j], c);
    if StageOf(cap, log[..j], c) != Owing(|log[j].bytes|) {
      BrokenStays(cap, log, j + 1, c);
      NoneBroken(s, c);
    }
  }

  lemma {:induction false} ScratchSize(run: seq<State>, steps: seq<Step>, i: nat, j: nat)
    requires IsRun(run, steps) && i < |run| && j <= |run[i].k.log|
    ensures |LastScratch(run[0].w.scratch, run[i].k.log[..j])| == run[0].w.cfg.replyCap
  {
    if i > 0 {
      RunInv(run, steps, i);
      StepScratchAt(run, steps, i - 1);
      ScratchHistory(run, steps, i);
      var n := |run[i - 1].k.log|;
      if j <= n {
        ScratchSize(run, steps, i - 1, j);
        assert run[i].k.log[..j] == run[i - 1].k.log[..j];
      } else {
        assert run[i].k.log[..j] == run[i].k.log;
      }
    }
  }

  /** When a batch starts, no connection owes a reply: every send of the batch before is
      out. */
  lemma BatchStartsClean(run: seq<State>, steps: seq<Step>, i: nat, c: ConnId)
    requires IsRun(run, steps) && i < |steps| && steps[i] == ReturnFlushed
    ensures !StageOf(run[i].w.cfg.replyCap, run[i].k.log, c).Owing?
  {
    RunInv(run, steps, i);
    var s := run[i];
    var st := StageOf(s.w.cfg.replyCap, s.k.log, c);
    if c < s.k.next && c in s.k.open.Values {
      var d :| d in s.k.open && s.k.open[d] == c;
      var x := DescTok(d, c, st);
      assert Held(s, x) == Due(s, x) == 1;
      if st.Owing? { OnlySendsOwe(s, x); }
    }
  }

  lemma OnlySendsOwe(s: State, x: Token)
    requires x.DescTok? && x.stage.Owing? && s.w.sq == []
    ensures Held(s, x) == 0
  {
    SumIsCount(CqeToks, x, (e: Cqe) => false, s.k.cq);
    SumIsCount(PendingToks, x, (p: Pending) => false, s.k.pending);
    SumIsCount(StandingToks, x, (e: Sqe) => false, s.k.standing);
    SumIsCount(LeakToks, x, (l: (Desc, ConnId)) => false, s.k.leaked);
    SumIsCount(FreeToks, x, (r: Addr) => false, s.w.free);
    CountNone(s.k.cq);
    CountNone(s.k.pending);
    CountNone(s.k.standing);
    CountNone(s.k.leaked);
    CountNone(s.w.free);
  }

  // ---- handlers that answer from the request alone

  /** What one handler call does: what it writes into the scratch, position by position,
      None where it writes nothing, and what it returns. */
  datatype Answer = Answer(writes: seq<Option<Byte>>, rlen: int)

  /** A handler says which answers it may give to a request. */
  type Handler = (Bytes, Answer) -> bool

  function Overlay(before: Bytes, writes: seq<Option<Byte>>): (r: Bytes)
    ensures |r| == |before|
  {
    seq(|before|, i requires 0 <= i < |before| =>
      if i < |writes| && writes[i].Some? then writes[i].value else before[i])
  }

  /** Event e is a call of W that gave answer x and found the scratch as `before`. */
  ghost predicate Calls(W: Handler, before: Bytes, e: Event, x: Answer)
    requires e.Handled?
  {
    W(e.req, x) && e.rlen == x.rlen && |x.writes| <= |before| && e.scratch == Overlay(before, x.writes)
  }

  /** All handler calls are calls of W. */
  ghost predicate Obeys(W: Handler, init: Bytes, log: seq<Event>) {
    forall j :: 0 <= j < |log| && log[j].Handled? ==>
      exists x :: Calls(W, LastScratch(init, log[..j]), log[j], x)
  }

  /** Every send so far carried what that connection's own handler call left in the scratch. */
  predicate OwnReplies(log: seq<Event>) {
    forall h, j :: 0 <= h < j < |log| && log[h].Handled? && log[j].Sent? && log[h].conn == log[j].conn ==>
      log[j].bytes == Prefix(log[h].scratch, log[h].rlen)
  }

  /** Requests a connection can present. */
  predicate Request(cfg: Config, req: Bytes) {
    0 < |req| <= cfg.recvBuf
  }

  /** W may answer x to a request, staying within the scratch. */
  ghost predicate May(W: Handler, cfg: Config, req: Bytes, x: Answer) {
    Request(cfg, req) && |x.writes| <= cfg.replyCap && W(req, x)
  }

  /** y leaves the reply of x alone: what it writes there, x has written as well. */
  predicate Spares(y: Answer, x: Answer) {
    forall p :: 0 <= p < |y.writes| && p < x.rlen && y.writes[p].Some? ==>
      p < |x.writes| && x.writes[p] == y.writes[p]
  }

  /** All answers leave the replies of all answers alone. */
  ghost predicate Compatible(W: Handler, cfg: Config) {
    forall a, x, b, y :: May(W, cfg, a, x) && May(W, cfg, b, y) ==> Spares(y, x)
  }

  /** No two bytes at a position both have differ. */
  predicate Agree(a: Bytes, b: Bytes) {
    forall p :: 0 <= p < |a| && p < |b| ==> a[p] == b[p]
  }

  lemma OverlaySpares(before: Bytes, x: Answer, s: Bytes, y: Answer)
    requires Spares(y, x) && |s| == |before|
    requires Prefix(s, x.rlen) == Prefix(Overlay(before, x.writes), x.rlen)
    ensures Prefix(Overlay(s, y.writes), x.rlen) == Prefix(Overlay(before, x.writes), x.rlen)
  {
    var own, now := Overlay(before, x.writes), Overlay(s, y.writes);
    forall p | 0 <= p < |s| && p < x.rlen ensures now[p] == own[p] {
      assert Prefix(s, x.rlen)[p] == Prefix(own, x.rlen)[p];
    }
  }

  /** Call h's reply stays in the scratch while the calls behind it leave it alone. */
  lemma {:induction false} ReplySurvives(W: Handler, cfg: Config, init: Bytes, log: seq<Event>, h: nat, j: nat)
    requires Obeys(W, init, log) && Compatible(W, cfg) && h < j <= |log| && log[h].Handled?
    requires |init| == cfg.replyCap
    requires forall k :: h <= k < j && log[k].Handled? ==> Request(cfg, log[k].req)
    requires forall k :: h <= k <= j ==> |LastScratch(init, log[..k])| == cfg.replyCap
    ensures Prefix(LastScratch(init, log[..j]), log[h].rlen) == Prefix(log[h].scratch, log[h].rlen)
  {
    var k := j - 1;
    assert log[..j][..k] == log[..k] && log[..j][k] == log[k];
    if k > h {
      ReplySurvives(W, cfg, init, log, h, k);
      if log[k].Handled? {
        var x :| Calls(W, LastScratch(init, log[..h]), log[h], x);
        var y :| Calls(W, LastScratch(init, log[..k]), log[k], y);
        assert May(W, cfg, log[h].req, x) && May(W, cfg, log[k].req, y);
        OverlaySpares(LastScratch(init, log[..h]), x, LastScratch(init, log[..k]), y);
      }
    }
  }

  lemma HandledRequest(s: State, h: nat)
    requires Inv(s) && h < |s.k.log| && s.k.log[h].Handled?
    requires WithinBuffer(s.w.cfg.recvBuf, s.k.log)
    ensures Request(s.w.cfg, s.k.log[h].req)
  {
    var log, cap := s.k.log, s.w.cfg.replyCap;
    var c := log[h].conn;
    assert log[..h + 1] == log[..h] + [log[h]];
    StageAppend(cap, log[..h], log[h], c);
    if StageOf(cap, log[..h], c) != Got(log[h].req) {
      BrokenStays(cap, log, h + 1, c);
      NoneBroken(s, c);
    } else {
      GotReceived(cap, log[..h], c);
    }
  }

  lemma {:induction false} GotReceived(cap: nat, log: seq<Event>, c: ConnId)
    requires StageOf(cap, log, c).Got?
    ensures var p := StageOf(cap, log, c).payload;
            |p| > 0 && exists j :: 0 <= j < |log| && log[j] == Received(c, |p|, p)
  {
    var n := |log| - 1;
    if About(log[n], c) {
      assert log[n].Received?;
    } else {
      GotReceived(cap, log[..n], c);
      var p := StageOf(cap, log, c).payload;
      var j :| 0 <= j < n && log[..n][j] == Received(c, |p|, p);
      assert log[j] == Received(c, |p|, p);
    }
  }

  ghost predicate WithinBuffer(size: nat, log: seq<Event>) {
    forall j :: 0 <= j < |log| && log[j].Received? ==> |log[j].payload| <= size
  }

  lemma WithinStep(s: State, t: State)
    requires ScratchStep(s, t) && WithinBuffer(s.w.cfg.recvBuf, s.k.log)
    ensures WithinBuffer(s.w.cfg.recvBuf, t.k.log)
  {
    forall j | 0 <= j < |s.k.log| ensures t.k.log[j] == s.k.log[j] {}
  }

  lemma {:induction false} ReceivedBound(run: seq<State>, steps: seq<Step>, i: nat)
    requires IsRun(run, steps) && i < |run|
    ensures WithinBuffer(run[i].w.cfg.recvBuf, run[i].k.log)
  {
    if i > 0 {
      ReceivedBound(run, steps, i - 1);
      StepScratchAt(run, steps, i - 1);
      WithinStep(run[i - 1], run[i]);
    }
  }

  /** With a compatible handler every connection is sent its own reply, in every run. */
  lemma CompatibleSafe(W: Handler, run: seq<State>, steps: seq<Step>, i: nat)
    requires IsRun(run, steps) && i < |run|
    requires Compatible(W, run[0].w.cfg) && Obeys(W, run[0].w.scratch, run[i].k.log)
    ensures OwnReplies(run[i].k.log)
  {
    var log := run[i].k.log;
    forall h, j | 0 <= h < j < |log| && log[h].Handled? && log[j].Sent? && log[h].conn == log[j].conn
      ensures log[j].bytes == Prefix(log[h].scratch, log[h].rlen)
    {
      SendMatches(W, run, steps, i, h, j);
    }
  }

  lemma SendMatches(W: Handler, run: seq<State>, steps: seq<Step>, i: nat, h: nat, j: nat)
    requires IsRun(run, steps) && i < |run|
    requires Compatible(W, run[0].w.cfg) && Obeys(W, run[0].w.scratch, run[i].k.log)
    requires var log := run[i].k.log;
             h < j < |log| && log[h].Handled? && log[j].Sent? && log[h].conn == log[j].conn
    ensures run[i].k.log[j].bytes == Prefix(run[i].k.log[h].scratch, run[i].k.log[h].rlen)
  {
    var s := run[i];
    var init, log := run[0].w.scratch, s.k.log;
    ScratchHistory(run, steps, i);
    SentBy(run, steps, i, h, j);
    RequestsFit(run, steps, i);
    forall k | h <= k <= j ensures |LastScratch(init, log[..k])| == s.w.cfg.replyCap { ScratchSize(run, steps, i, k); }
    ReplySurvives(W, s.w.cfg, init, log, h, j);
  }

  /** A send is as long as its connection's handler call asked for, within the capacity. */
  lemma SentBy(run: seq<State>, steps: seq<Step>, i: nat, h: nat, j: nat)
    requires IsRun(run, steps) && i < |run|
    requires var log := run[i].k.log;
             h < |log| && j < |log| && log[h].Handled? && log[j].Sent? && log[h].conn == log[j].conn
    ensures var log := run[i].k.log;
            h < j && log[h].rlen > 0 && |log[j].bytes| == Min(log[h].rlen, run[0].w.cfg.replyCap)
  {
    RunInv(run, steps, i);
    ScratchHistory(run, steps, i);
    var s := run[i];
    SentOwing(s, j);
    var g := OwingHandled(s.w.cfg.replyCap, s.k.log[..j], s.k.log[j].conn);
    assert s.k.log[..j][g] == s.k.log[g];
    HandledOnce(s, g, h);
  }

  lemma RequestsFit(run: seq<State>, steps: seq<Step>, i: nat)
    requires IsRun(run, steps) && i < |run|
    ensures forall k :: 0 <= k < |run[i].k.log| && run[i].k.log[k].Handled? ==>
        Request(run[i].w.cfg, run[i].k.log[k].req)
  {
    RunInv(run, steps, i);
    ReceivedBound(run, steps, i);
    forall k | 0 <= k < |run[i].k.log| && run[i].k.log[k].Handled? ensures Request(run[i].w.cfg, run[i].k.log[k].req) {
      HandledRequest(run[i], k);
    }
  }

  predicate Spent(st: Stage) {
    st.Owing? || st.Done? || st.Shut? || st.Broken?
  }

  lemma {:induction false} SpentStays(cap: nat, log: seq<Event>, g: nat, h: nat, c: ConnId)
    requires g <= h <= |log| && Spent(StageOf(cap, log[..g], c))
    ensures Spent(StageOf(cap, log[..h], c))
    decreases h - g
  {
    if g < h {
      assert log[..g + 1] == log[..g] + [log[g]];
      StageAppend(cap, log[..g], log[g], c);
      SpentStays(cap, log, g + 1, h, c);
    }
  }

  lemma HandledTwice(cap: nat, log: seq<Event>, g: nat, h: nat, c: ConnId)
    requires g < h < |log| && log[g].Handled? && log[h].Handled? && log[g].conn == log[h].conn == c
    ensures StageOf(cap, log, c) == Broken
  {
    assert log[..g + 1] == log[..g] + [log[g]];
    StageAppend(cap, log[..g], log[g], c);
    SpentStays(cap, log, g + 1, h, c);
    assert log[..h + 1] == log[..h] + [log[h]];
    StageAppend(cap, log[..h], log[h], c);
    BrokenStays(cap, log, h + 1, c);
  }

  /** The handler is called once per connection. */
  lemma HandledOnce(s: State, g: nat, h: nat)
    requires Inv(s) && g < |s.k.log| && h < |s.k.log|
    requires s.k.log[g].Handled? && s.k.log[h].Handled? && s.k.log[g].conn == s.k.log[h].conn
    ensures g == h
  {
    var c := s.k.log[g].conn;
    NoneBroken(s, c);
    if g < h {
      HandledTwice(s.w.cfg.replyCap, s.k.log, g, h, c);
    } else if h < g {
      HandledTwice(s.w.cfg.replyCap, s.k.log, h, g, c);
    }
  }
}
