/**
 The engine and the treatment server under one script, as functions: the handler always gives
 the fixed reply, both meet the same completions and the same kernel moves.
 */
module TwinSchedule {
  import opened Basics
  import opened Ring
  import opened System
  import opened Runs
  import opened Schedule
  import opened Simulation
  import opened TwinRuns
  import E = Engine
  import T = Treatment

  /** Where no block is allocated its content does not matter. */
  const NOTHING := T.TRecord(T.TAccept, 0, 0, [], 0)

  /** What the treatment's malloc leaves in the block at an address. */
  type Junk = Addr -> T.TRecord

  function JunkOf(block: Option<(Addr, Record)>, junk: Junk): T.TRecord {
    if block.Some? then junk(block.value.0) else NOTHING
  }

  /** The handler that always gives the fixed reply; malloc as the script says, if possible. */
  function FixedAnswers(w: E.Worker, env: E.Env): E.Env {
    if |w.scratch| < REPLY_LEN then Answers(w, env)
    else E.Env(FreshBlock(w, env.block), REPLY_LEN, REPLY + w.scratch[REPLY_LEN..], env.k1, env.k2)
  }

  lemma FixedPossible()
    ensures Possible(FixedAnswers)
  {
  }

  lemma FixedIsFixed(w: E.Worker, env: E.Env)
    requires |w.scratch| >= REPLY_LEN
    ensures FixedReply(w, FixedAnswers(w, env))
  {
    assert Prefix(FixedAnswers(w, env).reply, REPLY_LEN) == REPLY;
  }

  /** The engine with its kernel, and the treatment server. */
  datatype Pair = Pair(s: State, t: T.Treat)

  /** A run led both from where they began to where they are, in step. */
  ghost predicate Together(from: Pair, p: Pair) {
    InStep(from.s, from.t, p.s, p.t)
  }

  /** What a kernel move does to the treatment server. */
  function Moved(k: Kernel, pc: Pc, a: Step, t: T.Treat): T.Treat {
    match a
    case KIssue => if pc.Entering? && t.sq != [] then t.(sq := t.sq[1..]) else t
    case KRecv(i, res, payload) =>
      if i < |k.pending| && |payload| == Max(res, 0) && |payload| <= k.pending[i].len
      then T.Filled(t, k.pending[i].rec, payload) else t
    case _ => t
  }

  function PairAfter(p: Pair, a: Step): Pair {
    Pair(After(p.s, a), Moved(p.s.k, p.s.pc, a, p.t))
  }

  function PairMoves(p: Pair, moves: seq<Step>): Pair {
    if moves == [] then p else PairAfter(PairMoves(p, moves[..|moves| - 1]), moves[|moves| - 1])
  }

  /** Both drain the next completion. */
  function PairDrained(p: Pair, env: E.Env, junk: Junk): Pair {
    var e := FixedAnswers(p.s.w, env);
    Pair(Drained(FixedAnswers, p.s, env),
         if p.s.k.cq != [] && T.Derefs(p.t, p.s.k.cq[0])
         then T.DrainOne(p.t, p.s.k.cq[0], TwinBlock(e.block, JunkOf(e.block, junk)), e.k1, e.k2).(acts := [])
         else p.t)
  }

  function PairBatch(p: Pair, drains: seq<(seq<Step>, E.Env)>, junk: Junk, n: nat): Pair {
    if n == 0 then p
    else PairDrained(PairMoves(PairBatch(p, drains, junk, n - 1), Nth(drains, n - 1).0), Nth(drains, n - 1).1, junk)
  }

  function PairEntered(p: Pair, r: Round): Pair {
    PairMoves(p.(s := p.s.(pc := Entering)), r.moves)
  }

  function PairStart(p: Pair, r: Round): Pair {
    PairEntered(p, r).(s := BatchStart(p.s, r))
  }

  /** One pass of both loops. */
  function PairPass(p: Pair, r: Round, junk: Junk): Pair {
    Pair(PassTo(FixedAnswers, p.s, r),
         if r.stop then p.t
         else if !Flushes(p.s, r) then PairEntered(p, r).t
         else PairBatch(PairStart(p, r), r.drains, junk, BatchStart(p.s, r).pc.left).t)
  }

  function PairRun(p: Pair, rounds: seq<Round>, junk: Junk): Pair {
    if rounds == [] then p
    else
      var p1 := PairRun(p, rounds[..|rounds| - 1], junk);
      if p1.s.pc.Exited? then p1 else PairPass(p1, rounds[|rounds| - 1], junk)
  }

  // ---- in step all the way

  lemma MovedSim(s: State, a: Step, t: T.Treat)
    requires Sim(s.w, t)
    ensures Sim(After(s, a).w, Moved(s.k, s.pc, a, t))
  {
  }

  lemma MoveTogether(from: Pair, p: Pair, a: Step)
    requires Together(from, p)
    ensures Together(from, PairAfter(p, a))
  {
    InStepMeans(from.s, from.t, p.s, p.t);
    MovedSim(p.s, a, p.t);
    if KernelMove?(a) && Enabled(p.s, a) {
      InStepGo(from.s, from.t, p.s, p.t, a, NOTHING, Do(p.s, a), Moved(p.s.k, p.s.pc, a, p.t));
    }
  }

  lemma {:induction false} MovesTogether(from: Pair, p: Pair, moves: seq<Step>)
    requires Together(from, p)
    ensures Together(from, PairMoves(p, moves)) && PairMoves(p, moves).s == AfterAll(p.s, moves)
  {
    if moves != [] {
      var n := |moves| - 1;
      MovesTogether(from, p, moves[..n]);
      MoveTogether(from, PairMoves(p, moves[..n]), moves[n]);
    }
  }

  /** Both workers can drain e. */
  ghost predicate BothCan(w: E.Worker, t: T.Treat, e: Cqe, env: E.Env, block: Option<(Addr, T.TRecord)>) {
    && E.EnvOk(w, env) && Usable(w, e)
    && T.Derefs(t, e) && (e.data.Ref? ==> e.data.rec !in t.free) && (block.Some? ==> block.value.0 !in t.recs)
  }

  lemma DrainTogether(from: Pair, p: Pair, env: E.Env, junk: Junk)
    requires Together(from, p) && p.s.pc.Draining? && p.s.pc.left > 0
    ensures DispatchOk(p.s) && Enabled(p.s, Drain(FixedAnswers(p.s.w, env)))
    ensures var e := FixedAnswers(p.s.w, env);
            BothCan(p.s.w, p.t, p.s.k.cq[0], e, TwinBlock(e.block, JunkOf(e.block, junk)))
    ensures Together(from, PairDrained(p, env, junk)) && PairDrained(p, env, junk).s.pc == Draining(p.s.pc.left - 1)
  {
    InStepMeans(from.s, from.t, p.s, p.t);
    FixedPossible();
    ReachDispatch(from.s, p.s);
    DrainReach(FixedAnswers, from.s, p.s, env);
    FixedIsFixed(p.s.w, env);
    var e := FixedAnswers(p.s.w, env);
    var j := JunkOf(e.block, junk);
    SimStep(p.s.w, p.t, p.s.k.cq[0], e, TwinBlock(e.block, j));
    InStepGo(from.s, from.t, p.s, p.t, Drain(e), j, DoDrain(p.s, e), PairDrained(p, env, junk).t);
  }

  lemma {:induction false} BatchTogether(from: Pair, p: Pair, drains: seq<(seq<Step>, E.Env)>, junk: Junk, n: nat)
    requires Together(from, p) && p.s.pc.Draining? && n <= p.s.pc.left
    ensures var q := PairBatch(p, drains, junk, n);
            && Together(from, q) && q.s == BatchTo(FixedAnswers, p.s, drains, n) && q.s.pc == Draining(p.s.pc.left - n)
  {
    if n > 0 {
      BatchTogether(from, p, drains, junk, n - 1);
      var q := PairBatch(p, drains, junk, n - 1);
      MovesTogether(from, q, Nth(drains, n - 1).0);
      MovesPc(q.s, Nth(drains, n - 1).0);
      DrainTogether(from, PairMoves(q, Nth(drains, n - 1).0), Nth(drains, n - 1).1, junk);
    }
  }

  /** The worker loop takes a step that changes its position only. */
  lemma OnwardTogether(from: Pair, p: Pair, a: Step, pc: Pc)
    requires Together(from, p) && !a.Drain? && !KernelMove?(a)
    requires Enabled(p.s, a) && Do(p.s, a) == p.s.(pc := pc)
    ensures Together(from, p.(s := p.s.(pc := pc)))
  {
    InStepMeans(from.s, from.t, p.s, p.t);
    InStepGo(from.s, from.t, p.s, p.t, a, NOTHING, p.s.(pc := pc), p.t);
  }

  lemma EnteredTogether(from: Pair, p: Pair, r: Round)
    requires Together(from, p) && p.s.pc == Head
    ensures Together(from, PairEntered(p, r))
    ensures PairEntered(p, r).s == Entered(p.s, r) && Entered(p.s, r).pc == Entering
    ensures Flushes(p.s, r) ==> Together(from, PairStart(p, r))
  {
    OnwardTogether(from, p, Enter, Entering);
    MovesTogether(from, p.(s := p.s.(pc := Entering)), r.moves);
    MovesPc(p.s.(pc := Entering), r.moves);
    if Flushes(p.s, r) { OnwardTogether(from, PairEntered(p, r), ReturnFlushed, BatchStart(p.s, r).pc); }
  }

  lemma PassTogether(from: Pair, p: Pair, r: Round, junk: Junk)
    requires Together(from, p) && p.s.pc == Head
    ensures Together(from, PairPass(p, r, junk))
    ensures PairPass(p, r, junk).s.pc == if Leaves(r) then Exited else Head
  {
    if r.stop {
      OnwardTogether(from, p, Stop, Exited);
    } else {
      EnteredTogether(from, p, r);
      if r.ret.Fatal? {
        OnwardTogether(from, PairEntered(p, r), ReturnFatal, Exited);
      } else if !Flushes(p.s, r) {
        OnwardTogether(from, PairEntered(p, r), ReturnRetry, Head);
      } else {
        var b := PairStart(p, r);
        BatchTogether(from, b, r.drains, junk, b.s.pc.left);
        OnwardTogether(from, PairBatch(b, r.drains, junk, b.s.pc.left), BatchEnd, Head);
      }
    }
  }

  /** Whatever the script, both go through the whole of it in step: the engine as it would
      alone, and the treatment server with it. */
  lemma {:induction false} RunTogether(from: Pair, p: Pair, rounds: seq<Round>, junk: Junk)
    requires Together(from, p) && p.s.pc == Head
    ensures var q := PairRun(p, rounds, junk);
            && Together(from, q) && q.s == RunTo(FixedAnswers, p.s, rounds)
            && q.s.pc == if SomeLeaves(rounds) then Exited else Head
  {
    if rounds != [] {
      var n := |rounds| - 1;
      RunTogether(from, p, rounds[..n], junk);
      SomeLeavesSnoc(rounds);
      var q := PairRun(p, rounds[..n], junk);
      if q.s.pc == Head { PassTogether(from, q, rounds[n], junk); }
    }
  }

  // ---- the start

  /** The treatment's warm-up, with the addresses the engine's malloc gives. */
  function TreatWarmed(w: E.Worker, t: T.Treat, blocks: seq<Option<(Addr, Record)>>, junk: Junk, n: nat): T.Treat {
    if n == 0 then t
    else
      var w1, t1 := Warmed(w, blocks, n - 1), TreatWarmed(w, t, blocks, junk, n - 1);
      var block := if n - 1 < |blocks| then FreshBlock(w1, blocks[n - 1]) else None;
      match block
      case None => t1
      case Some((r, _)) => T.Free(t1.(recs := t1.recs[r := junk(r)]), r)
  }

  /** The treatment server has done nothing. */
  function TreatBlank(direct: bool): T.Treat {
    T.Treat(direct, [], map[], [], [], 0)
  }

  /** Both at the first loop head. */
  function PairStarted(cfg: Config, scratch: Bytes, blocks: seq<Option<(Addr, Record)>>, junk: Junk): Pair {
    Pair(Started(cfg, scratch, blocks),
         T.ArmAccept(TreatWarmed(Blank(cfg, scratch), TreatBlank(cfg.direct), blocks, junk, FREELIST_WARM), 0))
  }

  ghost predicate AlikeWarm(w: E.Worker, t: T.Treat) {
    && t.direct == w.cfg.direct && t.free == w.free && t.recs.Keys == w.recs.Keys
    && t.sq == [] && t.acts == [] && t.starved == 0
  }

  lemma {:induction false} WarmAlike(cfg: Config, scratch: Bytes, blocks: seq<Option<(Addr, Record)>>, junk: Junk,
                                     n: nat)
    ensures AlikeWarm(Warmed(Blank(cfg, scratch), blocks, n),
                      TreatWarmed(Blank(cfg, scratch), TreatBlank(cfg.direct), blocks, junk, n))
  {
    if n > 0 {
      WarmAlike(cfg, scratch, blocks, junk, n - 1);
      WarmedIsWarm(cfg, scratch, blocks, n - 1);
    }
  }

  lemma StartTogether(cfg: Config, scratch: Bytes, blocks: seq<Option<(Addr, Record)>>, junk: Junk)
    requires |scratch| == cfg.replyCap && TwinConfig(cfg)
    ensures var p := PairStarted(cfg, scratch, blocks, junk); Together(p, p) && p.s.pc == Head
  {
    StartedMeans(cfg, scratch, blocks);
    WarmAlike(cfg, scratch, blocks, junk, FREELIST_WARM);
    WarmedIsWarm(cfg, scratch, blocks, FREELIST_WARM);
    var p := PairStarted(cfg, scratch, blocks, junk);
    InStepBegin(p.s, p.t);
  }
}
