/**
 What the outside does to a worker, as a script, and what the worker makes of it: the event
 loop as a function. A move the kernel could not make at that point is passed over, so
 every script is a schedule.
 */
module Schedule {
  import opened Basics
  import opened Ring
  import opened Engine
  import opened System
  import opened Runs

  datatype Ret = Flushed | Retry | Fatal

  /** One pass of the loop: the stop flag when it is tested, the kernel's moves inside
      submit_and_wait_timeout and its return value, and for each completion of the batch
      the kernel's moves before it and the answers of the outside while it is drained. */
  datatype Round = Round(stop: bool, moves: seq<Step>, ret: Ret, drains: seq<(seq<Step>, Env)>)

  predicate KernelMove?(a: Step) {
    a.KIssue? || a.KAccept? || a.KRecv? || a.KFail?
  }

  function After(s: State, a: Step): State {
    if KernelMove?(a) && Enabled(s, a) then Do(s, a) else s
  }

  function AfterAll(s: State, moves: seq<Step>): State {
    if moves == [] then s else After(AfterAll(s, moves[..|moves| - 1]), moves[|moves| - 1])
  }

  /** How the answers of a script become answers that are possible in the worker's state. */
  type Answering = (Worker, Env) -> Env

  ghost predicate Possible(ans: Answering) {
    forall w, env :: EnvOk(w, ans(w, env))
  }

  /** malloc gives the block if it is not in use and of the right size, and fails otherwise;
      the handler's answer stands if it leaves a scratch of the right size, and it declines
      otherwise. */
  function Answers(w: Worker, env: Env): Env {
    var fits := |env.reply| == |w.scratch|;
    Env(FreshBlock(w, env.block), if fits then env.rlen else 0, if fits then env.reply else w.scratch, env.k1, env.k2)
  }

  function FreshBlock(w: Worker, block: Option<(Addr, Record)>): Option<(Addr, Record)> {
    if block.Some? && block.value.0 !in w.recs && |block.value.1.buf| == w.cfg.recvBuf then block else None
  }

  lemma AnswersPossible()
    ensures Possible(Answers)
  {
  }

  /** The i-th entry of the script for a batch; nothing happens where it has none. */
  function Nth(drains: seq<(seq<Step>, Env)>, i: nat): (seq<Step>, Env) {
    if i < |drains| then drains[i] else ([], Env(None, 0, [], 0, 0))
  }

  /** The next completion is drained. */
  function Drained(ans: Answering, s: State, env: Env): State {
    if Enabled(s, Drain(ans(s.w, env))) then DoDrain(s, ans(s.w, env)) else s
  }

  /** The state in which completion i of a batch that starts in s is drained. */
  function Before(ans: Answering, s: State, drains: seq<(seq<Step>, Env)>, i: nat): State
    decreases i, 1
  {
    AfterAll(BatchTo(ans, s, drains, i), Nth(drains, i).0)
  }

  /** The state when n completions of the batch are drained. */
  function BatchTo(ans: Answering, s: State, drains: seq<(seq<Step>, Env)>, n: nat): State
    decreases n, 0
  {
    if n == 0 then s else Drained(ans, Before(ans, s, drains, n - 1), Nth(drains, n - 1).1)
  }

  /** The state in which the enter call of a pass returns. */
  function Entered(s: State, r: Round): State {
    AfterAll(s.(pc := Entering), r.moves)
  }

  /** The call returns a value that is not negative. */
  predicate Flushes(s: State, r: Round) {
    !r.stop && r.ret.Flushed? && Entered(s, r).w.sq == []
  }

  /** The state in which a batch begins. */
  function BatchStart(s: State, r: Round): State {
    var s1 := Entered(s, r);
    s1.(pc := Draining(Min(|s1.k.cq|, CQE_BATCH)))
  }

  /** One pass of the loop. */
  function PassTo(ans: Answering, s: State, r: Round): State {
    if r.stop then s.(pc := Exited)
    else if r.ret.Fatal? then Entered(s, r).(pc := Exited)
    else if !Flushes(s, r) then Entered(s, r).(pc := Head)
    else BatchTo(ans, BatchStart(s, r), r.drains, BatchStart(s, r).pc.left).(pc := Head)
  }

  /** The loop over rounds; no further pass once it is left. */
  function RunTo(ans: Answering, s: State, rounds: seq<Round>): State {
    if rounds == [] then s
    else
      var s1 := RunTo(ans, s, rounds[..|rounds| - 1]);
      if s1.pc.Exited? then s1 else PassTo(ans, s1, rounds[|rounds| - 1])
  }

  // ---- the start

  /** What n of the warm-up allocations make of a worker. */
  function Warmed(w: Worker, blocks: seq<Option<(Addr, Record)>>, n: nat): Worker {
    if n == 0 then w
    else
      var w1 := Warmed(w, blocks, n - 1);
      var block := if n - 1 < |blocks| then FreshBlock(w1, blocks[n - 1]) else None;
      match block
      case None => w1
      case Some((r, content)) => Free(w1.(recs := w1.recs[r := content]), r)
  }

  /** A worker that has done nothing. */
  function Blank(cfg: Config, scratch: Bytes): Worker {
    Worker(cfg, [], map[], [], scratch, [], 0)
  }

  /** The kernel has seen nothing. */
  const QUIET := Kernel(map[], [], [], [], [], 0, [])

  /** The state at the first loop head. */
  function Started(cfg: Config, scratch: Bytes, blocks: seq<Option<(Addr, Record)>>): State {
    State(ArmAccept(Warmed(Blank(cfg, scratch), blocks, FREELIST_WARM), 0), Head, QUIET)
  }

  /** A block of the right size was offered at address r among the first n. */
  ghost predicate Offered(cfg: Config, blocks: seq<Option<(Addr, Record)>>, n: nat, r: Addr) {
    exists i :: 0 <= i < n && i < |blocks| && Suits(cfg, blocks[i], r)
  }

  predicate Suits(cfg: Config, block: Option<(Addr, Record)>, r: Addr) {
    block.Some? && block.value.0 == r && |block.value.1.buf| == cfg.recvBuf
  }

  /** The freelist holds every block offered, each once, and all records are on it. */
  ghost predicate Warm(w: Worker, cfg: Config, scratch: Bytes, blocks: seq<Option<(Addr, Record)>>, n: nat) {
    && w == Blank(cfg, scratch).(free := w.free, recs := w.recs)
    && Distinct(w.free) && |w.free| <= n
    && (forall r :: r in w.free <==> Offered(cfg, blocks, n, r))
    && (forall r :: r in w.recs <==> r in w.free)
    && (forall r :: r in w.recs ==> |w.recs[r].buf| == cfg.recvBuf)
  }

  lemma {:induction false} WarmedIsWarm(cfg: Config, scratch: Bytes, blocks: seq<Option<(Addr, Record)>>, n: nat)
    ensures Warm(Warmed(Blank(cfg, scratch), blocks, n), cfg, scratch, blocks, n)
  {
    if n > 0 {
      WarmedIsWarm(cfg, scratch, blocks, n - 1);
      WarmStep(cfg, scratch, blocks, n, Warmed(Blank(cfg, scratch), blocks, n - 1));
    }
  }

  lemma WarmStep(cfg: Config, scratch: Bytes, blocks: seq<Option<(Addr, Record)>>, n: nat, w: Worker)
    requires n > 0 && w == Warmed(Blank(cfg, scratch), blocks, n - 1) && Warm(w, cfg, scratch, blocks, n - 1)
    ensures Warm(Warmed(Blank(cfg, scratch), blocks, n), cfg, scratch, blocks, n)
  {
    var w1 := Warmed(Blank(cfg, scratch), blocks, n);
    forall r ensures r in w1.free <==> Offered(cfg, blocks, n, r) {
      if Offered(cfg, blocks, n, r) && !Offered(cfg, blocks, n - 1, r) {
        var i :| 0 <= i < n && i < |blocks| && Suits(cfg, blocks[i], r);
        assert i == n - 1;
      }
      if n - 1 < |blocks| && Suits(cfg, blocks[n - 1], r) { assert Offered(cfg, blocks, n, r); }
      assert Offered(cfg, blocks, n - 1, r) ==> Offered(cfg, blocks, n, r);
    }
  }

  /** Warm-up: of the first 128 allocations every one that succeeds is on the freelist, each
      once, and nothing else is; the first accept is queued. */
  lemma StartedMeans(cfg: Config, scratch: Bytes, blocks: seq<Option<(Addr, Record)>>)
    requires |scratch| == cfg.replyCap
    ensures var w := Started(cfg, scratch, blocks).w;
            && Init(Started(cfg, scratch, blocks)) && w.cfg == cfg && w.scratch == scratch
            && Distinct(w.free) && w.sq == [Accept(cfg.direct, cfg.multishot)]
            && forall r :: r in w.free <==> Offered(cfg, blocks, 128, r)
  {
    WarmedIsWarm(cfg, scratch, blocks, FREELIST_WARM);
  }

  // ---- the loop stays within the runs of worker and kernel

  lemma {:induction false} MovesReach(init: State, s: State, moves: seq<Step>)
    requires Reaches(init, s)
    ensures Reaches(init, AfterAll(s, moves)) && AfterAll(s, moves).pc == s.pc
  {
    if moves != [] {
      var n := |moves| - 1;
      MovesReach(init, s, moves[..n]);
      var s1, a := AfterAll(s, moves[..n]), moves[n];
      if KernelMove?(a) && Enabled(s1, a) { Go(init, s1, a, Do(s1, a)); }
    }
  }

  lemma ReachDispatch(init: State, s: State)
    requires Reaches(init, s) && s.pc.Draining? && s.pc.left > 0
    ensures DispatchOk(s)
  {
    ReachInv(init, s);
    InvDispatch(s);
  }

  lemma DrainReach(ans: Answering, init: State, s: State, env: Env)
    requires Possible(ans) && Reaches(init, s) && s.pc.Draining? && s.pc.left > 0
    ensures Enabled(s, Drain(ans(s.w, env))) && Drained(ans, s, env) == DoDrain(s, ans(s.w, env))
    ensures Reaches(init, Drained(ans, s, env)) && Drained(ans, s, env).pc == Draining(s.pc.left - 1)
  {
    ReachDispatch(init, s);
    Go(init, s, Drain(ans(s.w, env)), DoDrain(s, ans(s.w, env)));
  }

  lemma {:induction false} BatchReach(ans: Answering, init: State, s: State, drains: seq<(seq<Step>, Env)>, n: nat)
    requires Possible(ans) && Reaches(init, s) && s.pc.Draining? && n <= s.pc.left
    ensures Reaches(init, BatchTo(ans, s, drains, n)) && BatchTo(ans, s, drains, n).pc == Draining(s.pc.left - n)
    ensures Reaches(init, Before(ans, s, drains, n)) && Before(ans, s, drains, n).pc == Draining(s.pc.left - n)
  {
    if n > 0 {
      BatchReach(ans, init, s, drains, n - 1);
      DrainReach(ans, init, Before(ans, s, drains, n - 1), Nth(drains, n - 1).1);
    }
    MovesReach(init, BatchTo(ans, s, drains, n), Nth(drains, n).0);
  }

  lemma EnteredReach(init: State, s: State, r: Round)
    requires Reaches(init, s) && s.pc == Head
    ensures Reaches(init, Entered(s, r)) && Entered(s, r).pc == Entering
    ensures Flushes(s, r) ==> Reaches(init, BatchStart(s, r))
  {
    Go(init, s, Enter, s.(pc := Entering));
    MovesReach(init, s.(pc := Entering), r.moves);
    if Flushes(s, r) { Go(init, Entered(s, r), ReturnFlushed, BatchStart(s, r)); }
  }

  lemma PassReach(ans: Answering, init: State, s: State, r: Round)
    requires Possible(ans) && Reaches(init, s) && s.pc == Head
    ensures Reaches(init, PassTo(ans, s, r))
    ensures PassTo(ans, s, r).pc == if r.stop || r.ret.Fatal? then Exited else Head
  {
    if r.stop {
      Go(init, s, Stop, s.(pc := Exited));
    } else {
      EnteredReach(init, s, r);
      var s1 := Entered(s, r);
      if r.ret.Fatal? {
        Go(init, s1, ReturnFatal, s1.(pc := Exited));
      } else if !Flushes(s, r) {
        Go(init, s1, ReturnRetry, s1.(pc := Head));
      } else {
        var b := BatchStart(s, r);
        BatchReach(ans, init, b, r.drains, b.pc.left);
        var e := BatchTo(ans, b, r.drains, b.pc.left);
        Go(init, e, BatchEnd, e.(pc := Head));
      }
    }
  }

  /** A pass after which the loop is left. */
  predicate Leaves(r: Round) {
    r.stop || r.ret.Fatal?
  }

  ghost predicate SomeLeaves(rounds: seq<Round>) {
    exists i :: 0 <= i < |rounds| && Leaves(rounds[i])
  }

  lemma SomeLeavesSnoc(rounds: seq<Round>)
    requires rounds != []
    ensures SomeLeaves(rounds) <==> SomeLeaves(rounds[..|rounds| - 1]) || Leaves(rounds[|rounds| - 1])
  {
    var n := |rounds| - 1;
    assert forall i :: 0 <= i < n ==> rounds[..n][i] == rounds[i];
  }

  /** The loop goes through all rounds unless one of them leaves it, and is left exactly then. */
  lemma {:induction false} RunReach(ans: Answering, init: State, s: State, rounds: seq<Round>)
    requires Possible(ans) && Reaches(init, s) && s.pc == Head
    ensures Reaches(init, RunTo(ans, s, rounds))
    ensures RunTo(ans, s, rounds).pc == if SomeLeaves(rounds) then Exited else Head
  {
    if rounds != [] {
      var n := |rounds| - 1;
      RunReach(ans, init, s, rounds[..n]);
      var s1 := RunTo(ans, s, rounds[..n]);
      if s1.pc == Head { PassReach(ans, init, s1, rounds[n]); }
      SomeLeavesSnoc(rounds);
    }
  }

  /** Once the loop is left the rest of the script is not looked at. */
  lemma {:induction false} RunLeft(ans: Answering, s: State, rounds: seq<Round>, i: nat)
    requires i <= |rounds| && RunTo(ans, s, rounds[..i]).pc.Exited?
    ensures RunTo(ans, s, rounds) == RunTo(ans, s, rounds[..i])
  {
    if i < |rounds| {
      var n := |rounds| - 1;
      assert rounds[..n][..i] == rounds[..i];
      RunLeft(ans, s, rounds[..n], i);
    } else {
      assert rounds[..i] == rounds;
    }
  }

  lemma RunSnoc(ans: Answering, s: State, rounds: seq<Round>, i: nat)
    requires i < |rounds| && !RunTo(ans, s, rounds[..i]).pc.Exited?
    ensures RunTo(ans, s, rounds[..i + 1]) == PassTo(ans, RunTo(ans, s, rounds[..i]), rounds[i])
  {
    assert rounds[..i + 1][..i] == rounds[..i];
  }

  lemma AfterSnoc(s: State, moves: seq<Step>, i: nat)
    requires i < |moves|
    ensures AfterAll(s, moves[..i + 1]) == After(AfterAll(s, moves[..i]), moves[i])
    ensures AfterAll(s, moves[..i]).pc == s.pc
  {
    assert moves[..i + 1][..i] == moves[..i];
    MovesPc(s, moves[..i]);
  }

  lemma {:induction false} MovesPc(s: State, moves: seq<Step>)
    ensures AfterAll(s, moves).pc == s.pc
  {
    if moves != [] { MovesPc(s, moves[..|moves| - 1]); }
  }
}
