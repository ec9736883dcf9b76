/**
 Handlers that write into each other's replies are not safe: a run in which the second of
 two requests that arrive in one batch overwrites the reply to the first. Together with the
 safety of compatible handlers this says exactly which handlers the engine serves
 correctly.
 */
module Overwrite {
  import opened Basics
  import opened Ring
  import opened Engine
  import opened System
  import opened Runs
  import opened Replies

  function Filled(n: nat, b: Byte): Bytes {
    seq(n, _ => b)
  }

  function Zeros(n: nat): Bytes {
    Filled(n, 0)
  }

  function Blank(cfg: Config): Record {
    Record(StAccept, 0, Zeros(cfg.recvBuf), 0)
  }

  function Slot(cfg: Config, n: int): Desc {
    Desc(cfg.direct, n)
  }

  function AcceptOf(cfg: Config): Sqe {
    Accept(cfg.direct, cfg.multishot)
  }

  function RecvOf(cfg: Config, n: nat): Sqe {
    Recv(n, Slot(cfg, n), cfg.recvBuf, n)
  }

  function Idle(cfg: Config): Env {
    Env(None, 0, Zeros(cfg.replyCap), 0, 0)
  }

  /** Two warm records and the first accept queued. */
  function State0(cfg: Config, fill: Byte): State {
    State(
      Worker(cfg, [0, 1], map[0 := Blank(cfg), 1 := Blank(cfg)], [AcceptOf(cfg)], Filled(cfg.replyCap, fill), [], 0),
      Head, Kernel(map[], [], [], [], [], 0, []))
  }

  function Taken(cfg: Config, n: nat): Record {
    Blank(cfg).(state := StRecv, fd := n, conn := n)
  }

  /** Connection 0 was accepted and its recv queued. */
  function State1(cfg: Config, fill: Byte): State {
    State(
      Worker(cfg, [1], map[0 := Taken(cfg, 0), 1 := Blank(cfg)],
             [AcceptOf(cfg), RecvOf(cfg, 0)], Filled(cfg.replyCap, fill), [], 0),
      Head, Kernel(map[Slot(cfg, 0) := 0], [], [], [], [], 1, [Accepted(0)]))
  }

  /** Connection 1 as well; the recv of connection 0 is in flight. */
  function State2(cfg: Config, fill: Byte): State {
    State(
      Worker(cfg, [], map[0 := Taken(cfg, 0), 1 := Taken(cfg, 1)],
             [AcceptOf(cfg), RecvOf(cfg, 1)], Filled(cfg.replyCap, fill), [], 0),
      Head,
      Kernel(map[Slot(cfg, 0) := 0, Slot(cfg, 1) := 1], [],
             [Pending(0, Slot(cfg, 0), cfg.recvBuf, 0)], [], [], 2,
             [Accepted(0), RecvIssued(0, 0), Accepted(1)]))
  }

  lemma Begin0(cfg: Config, fill: Byte)
    ensures Reaches(State0(cfg, fill), State0(cfg, fill))
  {
    var s0 := State0(cfg, fill);
    assert s0.w.recs.Keys == {0, 1} == (set r | r in s0.w.free);
    Begin(s0);
  }

  lemma Phase1(cfg: Config, fill: Byte)
    ensures Reaches(State0(cfg, fill), State1(cfg, fill))
  {
    var s0 := State0(cfg, fill);
    Begin0(cfg, fill);
    var s1 := s0.(pc := Entering);
    Go(s0, s0, Enter, s1);
    var s2 := s1.(w := s1.w.(sq := []), k := s1.k.(standing := [AcceptOf(cfg)]));
    Go(s0, s1, KIssue, s2);
    var e := Cqe(Marker, 0, false, 0, Slot(cfg, 0), []);
    var s3 := s2.(k := Kernel(map[Slot(cfg, 0) := 0], [], [], [e], [], 1, [Accepted(0)]));
    Go(s0, s2, KAccept(0, 0, false), s3);
    var s4 := s3.(pc := Draining(1));
    Go(s0, s3, ReturnFlushed, s4);
    Drain1(cfg, fill, s4, e);
    var s5 := State1(cfg, fill).(pc := Draining(0));
    Go(s0, s4, Drain(Idle(cfg)), s5);
    Go(s0, s5, BatchEnd, State1(cfg, fill));
  }

  lemma Drain1(cfg: Config, fill: Byte, s: State, e: Cqe)
    requires e == Cqe(Marker, 0, false, 0, Slot(cfg, 0), [])
    requires s == State(State0(cfg, fill).w.(sq := []), Draining(1),
                        Kernel(map[Slot(cfg, 0) := 0], [], [], [e], [], 1, [Accepted(0)]))
    ensures Enabled(s, Drain(Idle(cfg)))
    ensures DoDrain(s, Idle(cfg)) == State1(cfg, fill).(pc := Draining(0))
  {
    var w1 := DrainOne(s.w, e, Idle(cfg));
    assert s.w.free[1..] == [1];
    assert w1.recs == State1(cfg, fill).w.recs;
    assert w1.sq == State1(cfg, fill).w.sq;
    assert w1 == State1(cfg, fill).w;
  }

  /** Between them: the kernel has taken the accept and the recv of connection 0. */
  function State12(cfg: Config, fill: Byte): State {
    var s := State1(cfg, fill);
    State(s.w.(sq := []), Entering,
          s.k.(standing := [AcceptOf(cfg)], pending := [Pending(0, Slot(cfg, 0), cfg.recvBuf, 0)],
               log := [Accepted(0), RecvIssued(0, 0)]))
  }

  lemma Phase12(cfg: Config, fill: Byte)
    requires Reaches(State0(cfg, fill), State1(cfg, fill))
    ensures Reaches(State0(cfg, fill), State12(cfg, fill))
  {
    var s0, s := State0(cfg, fill), State1(cfg, fill);
    var s1 := s.(pc := Entering);
    Go(s0, s, Enter, s1);
    var s2 := s1.(w := s1.w.(sq := [RecvOf(cfg, 0)]), k := s1.k.(standing := [AcceptOf(cfg)]));
    Go(s0, s1, KIssue, s2);
    Go(s0, s2, KIssue, State12(cfg, fill));
  }

  lemma Phase2(cfg: Config, fill: Byte)
    requires Reaches(State0(cfg, fill), State1(cfg, fill))
    ensures Reaches(State0(cfg, fill), State2(cfg, fill))
  {
    Phase12(cfg, fill);
    var s0, s3 := State0(cfg, fill), State12(cfg, fill);
    var e := Cqe(Marker, 1, false, 1, Slot(cfg, 1), []);
    var s4 := s3.(k := State2(cfg, fill).k.(cq := [e]));
    assert s3.k.open[Slot(cfg, 1) := 1] == State2(cfg, fill).k.open;
    Go(s0, s3, KAccept(0, 1, false), s4);
    var s5 := s4.(pc := Draining(1));
    Go(s0, s4, ReturnFlushed, s5);
    Drain2(cfg, fill, s5, e);
    var s6 := State2(cfg, fill).(pc := Draining(0));
    Go(s0, s5, Drain(Idle(cfg)), s6);
    Go(s0, s6, BatchEnd, State2(cfg, fill));
  }

  lemma Drain2(cfg: Config, fill: Byte, s: State, e: Cqe)
    requires e == Cqe(Marker, 1, false, 1, Slot(cfg, 1), [])
    requires s == State(State1(cfg, fill).w.(sq := []), Draining(1), State2(cfg, fill).k.(cq := [e]))
    ensures Enabled(s, Drain(Idle(cfg)))
    ensures DoDrain(s, Idle(cfg)) == State2(cfg, fill).(pc := Draining(0))
  {
    var w1 := DrainOne(s.w, e, Idle(cfg));
    assert s.w.free[1..] == [];
    assert w1.recs == State2(cfg, fill).w.recs;
    assert w1.sq == State2(cfg, fill).w.sq;
    assert w1 == State2(cfg, fill).w;
  }

  function Loaded(cfg: Config, n: nat, req: Bytes): Record {
    Taken(cfg, n).(buf := Fill(Zeros(cfg.recvBuf), req))
  }

  function Arrived(cfg: Config, n: nat, req: Bytes): Cqe {
    Cqe(Ref(n), |req|, false, n, Slot(cfg, n), req)
  }

  /** Both requests have arrived and the batch of two is about to be drained. */
  function State3(cfg: Config, fill: Byte, a: Bytes, b: Bytes): State {
    State(
      Worker(cfg, [], map[0 := Loaded(cfg, 0, a), 1 := Loaded(cfg, 1, b)], [], Filled(cfg.replyCap, fill), [], 0),
      Draining(2),
      Kernel(map[Slot(cfg, 0) := 0, Slot(cfg, 1) := 1], [AcceptOf(cfg)], [],
             [Arrived(cfg, 0, a), Arrived(cfg, 1, b)], [], 2,
             [Accepted(0), RecvIssued(0, 0), Accepted(1), RecvIssued(1, 1),
              Received(0, |a|, a), Received(1, |b|, b)]))
  }

  lemma Phase3(cfg: Config, fill: Byte, a: Bytes, b: Bytes)
    requires Request(cfg, a) && Request(cfg, b)
    requires Reaches(State0(cfg, fill), State2(cfg, fill))
    ensures Reaches(State0(cfg, fill), State3(cfg, fill, a, b))
  {
    var s0, s, t := State0(cfg, fill), State2(cfg, fill), State3(cfg, fill, a, b);
    var s1 := s.(pc := Entering);
    Go(s0, s, Enter, s1);
    var s2 := s1.(w := s1.w.(sq := [RecvOf(cfg, 1)]), k := s1.k.(standing := [AcceptOf(cfg)]));
    Go(s0, s1, KIssue, s2);
    var p0, p1 := Pending(0, Slot(cfg, 0), cfg.recvBuf, 0), Pending(1, Slot(cfg, 1), cfg.recvBuf, 1);
    var s3 := s2.(w := s2.w.(sq := []), k := s2.k.(pending := [p0, p1], log := t.k.log[..4]));
    assert s2.k.log + [RecvIssued(1, 1)] == t.k.log[..4];
    Go(s0, s2, KIssue, s3);
    var s4 := s3.(w := s3.w.(recs := map[0 := Loaded(cfg, 0, a), 1 := Taken(cfg, 1)]),
                  k := s3.k.(pending := [p1], cq := [Arrived(cfg, 0, a)], log := t.k.log[..5]));
    Arrive0(cfg, fill, a, b, s3, s4);
    Go(s0, s3, KRecv(0, |a|, a), s4);
    var s5 := s4.(w := t.w, k := t.k);
    Arrive1(cfg, fill, a, b, s4, s5);
    Go(s0, s4, KRecv(0, |b|, b), s5);
    Go(s0, s5, ReturnFlushed, t);
  }

  lemma Arrive0(cfg: Config, fill: Byte, a: Bytes, b: Bytes, s: State, t: State)
    requires Request(cfg, a) && Request(cfg, b)
    requires var p0, p1 := Pending(0, Slot(cfg, 0), cfg.recvBuf, 0), Pending(1, Slot(cfg, 1), cfg.recvBuf, 1);
             && s.w == State2(cfg, fill).w.(sq := [])
             && s.k.pending == [p0, p1] && s.k.cq == [] && s.k.log == State3(cfg, fill, a, b).k.log[..4]
             && t == s.(w := s.w.(recs := map[0 := Loaded(cfg, 0, a), 1 := Taken(cfg, 1)]),
                        k := s.k.(pending := [p1], cq := [Arrived(cfg, 0, a)],
                                  log := State3(cfg, fill, a, b).k.log[..5]))
    ensures Enabled(s, KRecv(0, |a|, a)) && Do(s, KRecv(0, |a|, a)) == t
  {
    var u := DoRecv(s, 0, |a|, a);
    assert u.w.recs == t.w.recs;
    assert u.k.pending == t.k.pending;
    assert u.k.cq == t.k.cq;
    assert u.k.log == t.k.log;
  }

  lemma Arrive1(cfg: Config, fill: Byte, a: Bytes, b: Bytes, s: State, t: State)
    requires Request(cfg, a) && Request(cfg, b)
    requires && s.w == State2(cfg, fill).w.(sq := [], recs := map[0 := Loaded(cfg, 0, a), 1 := Taken(cfg, 1)])
             && s.k.pending == [Pending(1, Slot(cfg, 1), cfg.recvBuf, 1)] && s.k.cq == [Arrived(cfg, 0, a)]
             && s.k.log == State3(cfg, fill, a, b).k.log[..5]
             && s.k.open == State3(cfg, fill, a, b).k.open && s.k.standing == [AcceptOf(cfg)]
             && s.k.leaked == [] && s.k.next == 2
             && t == s.(w := State3(cfg, fill, a, b).w, k := State3(cfg, fill, a, b).k)
    ensures Enabled(s, KRecv(0, |b|, b)) && Do(s, KRecv(0, |b|, b)) == t
  {
    var u := DoRecv(s, 0, |b|, b);
    assert u.w.recs == t.w.recs;
    assert u.k.pending == t.k.pending;
    assert u.k.cq == t.k.cq;
    assert u.k.log == t.k.log;
  }

  /** What is queued for connection n behind a handler call that returned rlen. */
  function Tail(cfg: Config, n: nat, rlen: int): seq<Sqe> {
    if rlen > 0 then [Send(Slot(cfg, n), Min(rlen, cfg.replyCap), n), Close(Slot(cfg, n), n)]
    else [Close(Slot(cfg, n), n)]
  }

  /** The state behind s when connection n's request gets answer x. */
  function Served(cfg: Config, s: State, n: nat, req: Bytes, x: Answer): State
    requires s.k.cq != [] && s.pc.Draining? && s.pc.left > 0
  {
    var w := Overlay(s.w.scratch, x.writes);
    State(s.w.(sq := s.w.sq + Tail(cfg, n, x.rlen), free := [n] + s.w.free, scratch := w),
          Draining(s.pc.left - 1),
          s.k.(cq := s.k.cq[1..], log := s.k.log + [Handled(n, req, x.rlen, w)]))
  }

  lemma ServeWorker(cfg: Config, w: Worker, n: nat, req: Bytes, x: Answer, env: Env)
    requires Request(cfg, req) && w.cfg == cfg && n in w.recs && w.recs[n] == Loaded(cfg, n, req)
    requires w.acts == [] && |w.sq| + 2 < QUEUE_DEPTH && FreeListed(w)
    requires env == Env(None, x.rlen, Overlay(w.scratch, x.writes), 0, 0)
    ensures DrainOne(w, Arrived(cfg, n, req), env)
         == w.(sq := w.sq + Tail(cfg, n, x.rlen), free := [n] + w.free, scratch := env.reply,
               acts := [Call(n, req, x.rlen, env.reply)])
  {
    var w1 := DrainOne(w, Arrived(cfg, n, req), env);
    assert Prefix(Loaded(cfg, n, req).buf, |req|) == req;
    assert w1.acts == [Call(n, req, x.rlen, env.reply)];
    assert w1.sq == w.sq + Tail(cfg, n, x.rlen);
  }

  lemma Serve(cfg: Config, s0: State, s: State, n: nat, req: Bytes, x: Answer)
    requires Reaches(s0, s)
    requires Request(cfg, req) && s.w.cfg == cfg && s.pc.Draining? && s.pc.left > 0
    requires s.k.cq != [] && s.k.cq[0] == Arrived(cfg, n, req) && n in s.w.recs && s.w.recs[n] == Loaded(cfg, n, req)
    requires s.w.acts == [] && |s.w.sq| + 2 < QUEUE_DEPTH && FreeListed(s.w)
    ensures Reaches(s0, Served(cfg, s, n, req, x))
  {
    var w := Overlay(s.w.scratch, x.writes);
    var env := Env(None, x.rlen, w, 0, 0);
    var w1 := DrainOne(s.w, s.k.cq[0], env);
    var act := Call(n, req, x.rlen, w);
    ServeWorker(cfg, s.w, n, req, x, env);
    var k1 := s.k.(cq := s.k.cq[1..]);
    assert ApplyAll(k1, w1.scratch, [act]) == Apply(k1, w1.scratch, act);
    Go(s0, s, Drain(env), Served(cfg, s, n, req, x));
  }

  /** Both requests were answered, into the same scratch. */
  function State5(cfg: Config, fill: Byte, a: Bytes, x: Answer, b: Bytes, y: Answer): State {
    Served(cfg, Served(cfg, State3(cfg, fill, a, b), 0, a, x), 1, b, y)
  }

  lemma Phase4(cfg: Config, fill: Byte, a: Bytes, x: Answer, b: Bytes, y: Answer)
    requires Request(cfg, a) && Request(cfg, b)
    requires Reaches(State0(cfg, fill), State3(cfg, fill, a, b))
    ensures Reaches(State0(cfg, fill), State5(cfg, fill, a, x, b, y))
  {
    var s0, s := State0(cfg, fill), State3(cfg, fill, a, b);
    Serve(cfg, s0, s, 0, a, x);
    Serve(cfg, s0, Served(cfg, s, 0, a, x), 1, b, y);
  }

  /** The history when the first reply goes out. */
  function FinalLog(cfg: Config, fill: Byte, a: Bytes, x: Answer, b: Bytes, y: Answer): seq<Event> {
    var w0 := Overlay(Filled(cfg.replyCap, fill), x.writes);
    var w1 := Overlay(w0, y.writes);
    State3(cfg, fill, a, b).k.log
    + [Handled(0, a, x.rlen, w0), Handled(1, b, y.rlen, w1), Sent(0, 0, Prefix(w1, Min(x.rlen, cfg.replyCap)))]
  }

  lemma SendFirst(cfg: Config, fill: Byte, a: Bytes, x: Answer, b: Bytes, y: Answer) returns (last: State)
    requires x.rlen > 0 && Reaches(State0(cfg, fill), State5(cfg, fill, a, x, b, y))
    ensures Reaches(State0(cfg, fill), last) && last.k.log == FinalLog(cfg, fill, a, x, b, y)
  {
    var s0, s := State0(cfg, fill), State5(cfg, fill, a, x, b, y);
    Go(s0, s, BatchEnd, s.(pc := Head));
    Go(s0, s.(pc := Head), Enter, s.(pc := Entering));
    var s1 := s.(pc := Entering);
    assert s1.w.sq[0] == Tail(cfg, 0, x.rlen)[0];
    last := Do(s1, KIssue);
    Go(s0, s1, KIssue, last);
  }

  lemma FinalObeys(cfg: Config, W: Handler, fill: Byte, a: Bytes, x: Answer, b: Bytes, y: Answer)
    requires May(W, cfg, a, x) && May(W, cfg, b, y)
    ensures Obeys(W, Filled(cfg.replyCap, fill), FinalLog(cfg, fill, a, x, b, y))
  {
    var init, log := Filled(cfg.replyCap, fill), FinalLog(cfg, fill, a, x, b, y);
    assert log[..6] == State3(cfg, fill, a, b).k.log;
    NoHandler(init, log[..6]);
    assert log[..7][..6] == log[..6] && log[..7][6] == log[6];
    assert Calls(W, LastScratch(init, log[..6]), log[6], x);
    assert Calls(W, LastScratch(init, log[..7]), log[7], y);
    forall j | 0 <= j < |log| && log[j].Handled? ensures j == 6 || j == 7 {}
  }

  lemma {:induction false} NoHandler(init: Bytes, log: seq<Event>)
    requires forall j :: 0 <= j < |log| ==> !log[j].Handled?
    ensures LastScratch(init, log) == init
  {
    if log != [] { NoHandler(init, log[..|log| - 1]); }
  }

  lemma TheRun(cfg: Config, fill: Byte, a: Bytes, x: Answer, b: Bytes, y: Answer) returns (last: State)
    requires Request(cfg, a) && Request(cfg, b) && x.rlen > 0
    ensures Reaches(State0(cfg, fill), last) && last.k.log == FinalLog(cfg, fill, a, x, b, y)
  {
    Phase1(cfg, fill);
    Phase2(cfg, fill);
    Phase3(cfg, fill, a, b);
    Phase4(cfg, fill, a, x, b, y);
    last := SendFirst(cfg, fill, a, x, b, y);
  }

  /** Position p of the first reply was overwritten with something else. */
  lemma FinalNotOwn(cfg: Config, fill: Byte, a: Bytes, x: Answer, b: Bytes, y: Answer, p: nat)
    requires p < |y.writes| <= cfg.replyCap && p < x.rlen && y.writes[p].Some?
    requires Overlay(Filled(cfg.replyCap, fill), x.writes)[p] != y.writes[p].value
    ensures !OwnReplies(FinalLog(cfg, fill, a, x, b, y))
  {
    var log := FinalLog(cfg, fill, a, x, b, y);
    assert log[6].Handled? && log[8].Sent? && log[6].conn == log[8].conn;
    assert log[8].bytes[p] == y.writes[p].value;
    assert Prefix(log[6].scratch, x.rlen)[p] != y.writes[p].value;
  }

  /** The answer writes every byte it has sent, within the capacity. */
  predicate WritesAll(cfg: Config, x: Answer) {
    && Min(x.rlen, cfg.replyCap) <= |x.writes|
    && forall p :: 0 <= p < |x.writes| && p < x.rlen ==> x.writes[p].Some?
  }

  /** What the scratch must have been filled with so that x leaves something else than v at
      position p. */
  lemma PickFill(cfg: Config, x: Answer, v: Byte, p: nat) returns (fill: Byte)
    requires p < x.rlen && p < cfg.replyCap && !(p < |x.writes| && x.writes[p] == Some(v))
    ensures Overlay(Filled(cfg.replyCap, fill), x.writes)[p] != v && (WritesAll(cfg, x) ==> fill == 0)
  {
    var written := p < |x.writes| && x.writes[p].Some?;
    fill := if v == 0 && !written then 1 else 0;
    assert WritesAll(cfg, x) ==> written;
    assert Filled(cfg.replyCap, fill)[p] == fill;
    if written { assert x.writes[p] == Some(x.writes[p].value); }
  }

  /** An answer that writes into another's reply: in some run of the engine the first
      connection is sent bytes that are not its reply. If the first answer writes all it
      sends, as the handler's contract says, the run starts from a scratch of zeros. */
  lemma DisagreementHarms(cfg: Config, W: Handler, a: Bytes, x: Answer, b: Bytes, y: Answer)
    returns (fill: Byte, last: State)
    requires May(W, cfg, a, x) && May(W, cfg, b, y) && !Spares(y, x)
    ensures Reaches(State0(cfg, fill), last) && (WritesAll(cfg, x) ==> fill == 0)
    ensures Obeys(W, State0(cfg, fill).w.scratch, last.k.log) && !OwnReplies(last.k.log)
  {
    var p :| 0 <= p < |y.writes| && p < x.rlen && y.writes[p].Some? && !(p < |x.writes| && x.writes[p] == y.writes[p]);
    fill := PickFill(cfg, x, y.writes[p].value, p);
    last := TheRun(cfg, fill, a, x, b, y);
    FinalObeys(cfg, W, fill, a, x, b, y);
    FinalNotOwn(cfg, fill, a, x, b, y, p);
  }

  /** The engine serves W correctly: whatever the run, if the handler calls are those of W,
      every connection that is sent something is sent what its own call left. */
  ghost predicate Serves(cfg: Config, W: Handler) {
    forall run: seq<State>, steps: seq<Step> ::
      (&& IsRun(run, steps) && run[0].w.cfg == cfg
       && Obeys(W, run[0].w.scratch, run[|run| - 1].k.log))
      ==> OwnReplies(run[|run| - 1].k.log)
  }

  /** Exactly the handlers whose answers leave each other's replies alone are served
      correctly. */
  lemma ServesExactlyCompatible(cfg: Config, W: Handler)
    ensures Serves(cfg, W) <==> Compatible(W, cfg)
  {
    if Compatible(W, cfg) {
      forall run: seq<State>, steps: seq<Step> | IsRun(run, steps) && run[0].w.cfg == cfg
        && Obeys(W, run[0].w.scratch, run[|run| - 1].k.log)
        ensures OwnReplies(run[|run| - 1].k.log)
      {
        CompatibleSafe(W, run, steps, |run| - 1);
      }
    } else {
      var a, x, b, y :| May(W, cfg, a, x) && May(W, cfg, b, y) && !Spares(y, x);
      var fill, last := DisagreementHarms(cfg, W, a, x, b, y);
      var run: seq<State>, steps: seq<Step> :|
        IsRun(run, steps) && run[0] == State0(cfg, fill) && run[|run| - 1] == last;
      assert !OwnReplies(run[|run| - 1].k.log);
    }
  }

  // ---- a newly made server

  /** y leaves the reply of x alone in a scratch that began as zeros: what it writes there, x
      has written as well, or it is a zero where x writes nothing. */
  predicate SparesZeros(y: Answer, x: Answer) {
    forall p :: 0 <= p < |y.writes| && p < x.rlen && y.writes[p].Some? ==>
      if p < |x.writes| && x.writes[p].Some? then x.writes[p] == y.writes[p] else y.writes[p].value == 0
  }

  ghost predicate CompatibleZeros(W: Handler, cfg: Config) {
    forall a, x, b, y :: May(W, cfg, a, x) && May(W, cfg, b, y) ==> SparesZeros(y, x)
  }

  /** The engine serves W correctly in every run that starts from a scratch of zeros. */
  ghost predicate ServesNew(cfg: Config, W: Handler) {
    forall run: seq<State>, steps: seq<Step> ::
      (&& IsRun(run, steps) && run[0].w.cfg == cfg && run[0].w.scratch == Zeros(cfg.replyCap)
       && Obeys(W, run[0].w.scratch, run[|run| - 1].k.log))
      ==> OwnReplies(run[|run| - 1].k.log)
  }

  /** All handler calls in the log are on requests a connection can present, and the scratch
      keeps its size. */
  ghost predicate Fits(cfg: Config, init: Bytes, log: seq<Event>) {
    && (forall k :: 0 <= k < |log| && log[k].Handled? ==> Request(cfg, log[k].req))
    && (forall k :: 0 <= k <= |log| ==> |LastScratch(init, log[..k])| == cfg.replyCap)
  }

  /** Where an answer x sends a byte it does not write, the scratch stays zero. */
  lemma {:induction false} StaysZero(W: Handler, cfg: Config, log: seq<Event>, j: nat, a: Bytes, x: Answer, p: nat)
    requires CompatibleZeros(W, cfg) && May(W, cfg, a, x) && p < cfg.replyCap && p < x.rlen
    requires !(p < |x.writes| && x.writes[p].Some?)
    requires Obeys(W, Zeros(cfg.replyCap), log) && Fits(cfg, Zeros(cfg.replyCap), log) && j <= |log|
    ensures LastScratch(Zeros(cfg.replyCap), log[..j])[p] == 0
  {
    var init := Zeros(cfg.replyCap);
    assert |LastScratch(init, log[..j])| == cfg.replyCap;
    if j > 0 {
      var k := j - 1;
      assert log[..j][..k] == log[..k] && log[..j][k] == log[k];
      StaysZero(W, cfg, log, k, a, x, p);
      if log[k].Handled? {
        assert |LastScratch(init, log[..k])| == cfg.replyCap;
        var y :| Calls(W, LastScratch(init, log[..k]), log[k], y);
        assert May(W, cfg, log[k].req, y);
        assert SparesZeros(y, x);
      }
    }
  }

  /** Call h's reply stays in the scratch up to event j. */
  lemma {:induction false} SurvivesFromZeros(W: Handler, cfg: Config, log: seq<Event>, h: nat, j: nat,
                                             x: Answer, p: nat)
    requires CompatibleZeros(W, cfg) && Obeys(W, Zeros(cfg.replyCap), log) && Fits(cfg, Zeros(cfg.replyCap), log)
    requires h < j <= |log| && log[h].Handled? && p < cfg.replyCap && p < x.rlen
    requires Calls(W, LastScratch(Zeros(cfg.replyCap), log[..h]), log[h], x) && |log[h].scratch| == cfg.replyCap
    ensures |LastScratch(Zeros(cfg.replyCap), log[..j])| == cfg.replyCap
    ensures LastScratch(Zeros(cfg.replyCap), log[..j])[p] == log[h].scratch[p]
  {
    var init, k := Zeros(cfg.replyCap), j - 1;
    assert |LastScratch(init, log[..j])| == cfg.replyCap && |LastScratch(init, log[..h])| == cfg.replyCap;
    assert log[..j][..k] == log[..k] && log[..j][k] == log[k];
    if k > h {
      SurvivesFromZeros(W, cfg, log, h, k, x, p);
      if log[k].Handled? {
        var y :| Calls(W, LastScratch(init, log[..k]), log[k], y);
        assert May(W, cfg, log[h].req, x) && May(W, cfg, log[k].req, y);
        assert SparesZeros(y, x);
        if !(p < |x.writes| && x.writes[p].Some?) { StaysZero(W, cfg, log, h, log[h].req, x, p); }
      }
    }
  }

  lemma SafeFromZeros(W: Handler, run: seq<State>, steps: seq<Step>, i: nat, h: nat, j: nat)
    requires IsRun(run, steps) && i < |run| && run[0].w.scratch == Zeros(run[0].w.cfg.replyCap)
    requires CompatibleZeros(W, run[0].w.cfg) && Obeys(W, run[0].w.scratch, run[i].k.log)
    requires var log := run[i].k.log;
             h < j < |log| && log[h].Handled? && log[j].Sent? && log[h].conn == log[j].conn
    ensures run[i].k.log[j].bytes == Prefix(run[i].k.log[h].scratch, run[i].k.log[h].rlen)
  {
    var cfg, log := run[0].w.cfg, run[i].k.log;
    var init := Zeros(cfg.replyCap);
    ScratchHistory(run, steps, i);
    SentBy(run, steps, i, h, j);
    RequestsFit(run, steps, i);
    forall k | 0 <= k <= |log| ensures |LastScratch(init, log[..k])| == cfg.replyCap { ScratchSize(run, steps, i, k); }
    var x :| Calls(W, LastScratch(init, log[..h]), log[h], x);
    var now := LastScratch(init, log[..j]);
    forall p | 0 <= p < cfg.replyCap && p < x.rlen ensures now[p] == log[h].scratch[p] {
      SurvivesFromZeros(W, cfg, log, h, j, x, p);
    }
    assert |now| == cfg.replyCap == |log[h].scratch|;
    assert Prefix(now, x.rlen) == Prefix(log[h].scratch, x.rlen);
  }

  lemma HarmsFromZeros(cfg: Config, W: Handler, a: Bytes, x: Answer, b: Bytes, y: Answer) returns (last: State)
    requires May(W, cfg, a, x) && May(W, cfg, b, y) && !SparesZeros(y, x)
    ensures Reaches(State0(cfg, 0), last) && Obeys(W, Zeros(cfg.replyCap), last.k.log) && !OwnReplies(last.k.log)
  {
    var p :| && 0 <= p < |y.writes| && p < x.rlen && y.writes[p].Some?
             && !(if p < |x.writes| && x.writes[p].Some? then x.writes[p] == y.writes[p] else y.writes[p].value == 0);
    last := TheRun(cfg, 0, a, x, b, y);
    FinalObeys(cfg, W, 0, a, x, b, y);
    assert Zeros(cfg.replyCap)[p] == 0;
    if p < |x.writes| && x.writes[p].Some? { assert x.writes[p] == Some(x.writes[p].value); }
    FinalNotOwn(cfg, 0, a, x, b, y, p);
  }

  /** The exact condition for a newly made server, whose scratch is zeros. */
  lemma ServesNewExactly(cfg: Config, W: Handler)
    ensures ServesNew(cfg, W) <==> CompatibleZeros(W, cfg)
  {
    if CompatibleZeros(W, cfg) {
      forall run: seq<State>, steps: seq<Step> |
        && IsRun(run, steps) && run[0].w.cfg == cfg && run[0].w.scratch == Zeros(cfg.replyCap)
        && Obeys(W, run[0].w.scratch, run[|run| - 1].k.log)
        ensures OwnReplies(run[|run| - 1].k.log)
      {
        var log := run[|run| - 1].k.log;
        forall h, j | 0 <= h < j < |log| && log[h].Handled? && log[j].Sent? && log[h].conn == log[j].conn
          ensures log[j].bytes == Prefix(log[h].scratch, log[h].rlen)
        {
          SafeFromZeros(W, run, steps, |run| - 1, h, j);
        }
      }
    } else {
      var a, x, b, y :| May(W, cfg, a, x) && May(W, cfg, b, y) && !SparesZeros(y, x);
      var last := HarmsFromZeros(cfg, W, a, x, b, y);
      var run: seq<State>, steps: seq<Step> :|
        IsRun(run, steps) && run[0] == State0(cfg, 0) && run[|run| - 1] == last;
      assert !OwnReplies(run[|run| - 1].k.log);
    }
  }

  /** For handlers that write all they send, as their contract says, it is the same condition:
      a newly made server serves them correctly exactly when any server does. */
  lemma ContractHandlersServed(cfg: Config, W: Handler)
    requires forall req, x :: May(W, cfg, req, x) ==> WritesAll(cfg, x)
    ensures ServesNew(cfg, W) <==> Compatible(W, cfg)
    ensures ServesNew(cfg, W) <==> Serves(cfg, W)
  {
    ServesNewExactly(cfg, W);
    ServesExactlyCompatible(cfg, W);
    forall a, x, b, y | May(W, cfg, a, x) && May(W, cfg, b, y) ensures Spares(y, x) <==> SparesZeros(y, x) {
      SparesAlike(cfg, y, x);
    }
    if CompatibleZeros(W, cfg) {
      forall a, x, b, y | May(W, cfg, a, x) && May(W, cfg, b, y) ensures Spares(y, x) { assert SparesZeros(y, x); }
    }
    if Compatible(W, cfg) {
      forall a, x, b, y | May(W, cfg, a, x) && May(W, cfg, b, y) ensures SparesZeros(y, x) { assert Spares(y, x); }
    }
  }

  lemma SparesAlike(cfg: Config, y: Answer, x: Answer)
    requires WritesAll(cfg, x) && |y.writes| <= cfg.replyCap
    ensures Spares(y, x) <==> SparesZeros(y, x)
  {
    forall p | 0 <= p < |y.writes| && p < x.rlen ensures p < |x.writes| && x.writes[p].Some? {}
  }

  /** The answer of a handler that copies its reply to the start of the scratch. */
  function Copied(reply: Bytes): Answer {
    Answer(seq(|reply|, i requires 0 <= i < |reply| => Some(reply[i])), |reply|)
  }

  /** In particular a handler with a constant reply, such as the example server's. */
  lemma ConstantHandlerServed(cfg: Config, reply: Bytes)
    ensures Serves(cfg, (req: Bytes, x: Answer) => x == Copied(reply))
  {
    ServesExactlyCompatible(cfg, (req: Bytes, x: Answer) => x == Copied(reply));
  }

  /** And with handlers that compute their reply from the request and copy it, exactly those
      of which no two replies disagree at a position both have. */
  lemma CopyingHandlersServed(cfg: Config, H: Bytes -> Bytes)
    requires forall req :: |H(req)| <= cfg.replyCap
    ensures Serves(cfg, (req: Bytes, x: Answer) => x == Copied(H(req)))
       <==> forall a, b :: Request(cfg, a) && Request(cfg, b) ==> Agree(H(a), H(b))
  {
    var W := (req: Bytes, x: Answer) => x == Copied(H(req));
    ServesExactlyCompatible(cfg, W);
    forall a, b | Request(cfg, a) && Request(cfg, b)
      ensures Spares(Copied(H(b)), Copied(H(a))) <==> Agree(H(a), H(b))
    {
      SparesAgree(H(a), H(b));
    }
    if Compatible(W, cfg) {
      forall a, b | Request(cfg, a) && Request(cfg, b) ensures Agree(H(a), H(b)) {
        assert May(W, cfg, a, Copied(H(a))) && May(W, cfg, b, Copied(H(b)));
      }
    }
  }

  lemma SparesAgree(a: Bytes, b: Bytes)
    ensures Spares(Copied(b), Copied(a)) <==> Agree(a, b)
  {
    if Spares(Copied(b), Copied(a)) {
      forall p | 0 <= p < |a| && p < |b| ensures a[p] == b[p] { assert Copied(b).writes[p] == Some(b[p]); }
    }
  }

  /** Request [1] is answered "AB", any other "A" with a zero behind it that is not sent. */
  function Terminated(req: Bytes): Answer {
    if req == [1] then Answer([Some(65), Some(66)], 2) else Answer([Some(65), Some(0)], 1)
  }

  /** That replies agree where both have bytes is not enough when a call writes more than it
      sends. */
  lemma AgreeingIsNotEnough(cfg: Config)
    requires cfg.recvBuf >= 1 && cfg.replyCap >= 2
    ensures !Serves(cfg, (req: Bytes, x: Answer) => x == Terminated(req))
  {
    var W := (req: Bytes, x: Answer) => x == Terminated(req);
    assert May(W, cfg, [1], Terminated([1])) && May(W, cfg, [2], Terminated([2]));
    assert Terminated([2]).writes[1] != Terminated([1]).writes[1];
    ServesExactlyCompatible(cfg, W);
  }
}
