/**
 The engine's worker and the treatment server's worker side by side, each with its own
 linked freelist, on the same completions and the same kernel moves.
 */
module TwinLoop {
  import opened Basics
  import opened Ring
  import opened System
  import opened Runs
  import opened Schedule
  import opened TwinRuns
  import opened TwinSchedule
  import opened WorkerClass
  import opened WorkerLoop
  import opened TreatClass
  import E = Engine
  import T = Treatment

  ghost predicate TrIs(tr: TreatWorker, t: T.Treat)
    reads tr, tr.mem.Values
  {
    tr.Valid() && tr.Abs() == t
  }

  /** The two objects and the kernel stand for the pair. */
  ghost predicate Both(fa: FaWorker, tr: TreatWorker, k: Kernel, p: Pair)
    reads fa, fa.mem.Values, fa.scratch, tr, tr.mem.Values
  {
    Is(fa, p.s.w) && TrIs(tr, p.t) && k == p.s.k
  }

  /** A kernel move, for the treatment server. */
  method TrMove(tr: TreatWorker, k: Kernel, pc: Pc, a: Step, ghost t: T.Treat)
    requires TrIs(tr, t)
    modifies tr`sq, tr.mem.Values`buf
    ensures TrIs(tr, Moved(k, pc, a, t)) && tr.mem == old(tr.mem)
  {
    match a
    case KIssue =>
      if pc.Entering? && tr.sq != [] {
        tr.Issue();
      }
    case KRecv(i, res, payload) =>
      if i < |k.pending| && |payload| == Max(res, 0) && |payload| <= k.pending[i].len {
        tr.Deliver(k.pending[i].rec, payload);
      }
    case _ =>
  }

  method BothMove(fa: FaWorker, tr: TreatWorker, k: Kernel, pc: Pc, a: Step, ghost p: Pair) returns (k1: Kernel)
    requires Both(fa, tr, k, p) && p.s.pc == pc
    modifies fa`sq, fa.mem.Values`buf, tr`sq, tr.mem.Values`buf
    ensures Both(fa, tr, k1, PairAfter(p, a)) && fa.mem == old(fa.mem) && tr.mem == old(tr.mem)
  {
    TrMove(tr, k, pc, a, p.t);
    assert Is(fa, p.s.w);
    k1 := Move(fa, k, pc, a, p.s.w);
  }

  /** The pairs a sequence of moves goes through. */
  ghost predicate MoveTrail(trail: seq<Pair>, p: Pair, moves: seq<Step>) {
    && |trail| == |moves| + 1 && trail[0] == p
    && forall i {:trigger moves[i]} :: 0 <= i < |moves| ==> trail[i + 1] == PairAfter(trail[i], moves[i])
  }

  lemma {:induction false} MakeTrail(p: Pair, moves: seq<Step>) returns (trail: seq<Pair>)
    ensures MoveTrail(trail, p, moves) && trail[|moves|] == PairMoves(p, moves)
    ensures forall i :: 0 <= i < |trail| ==> trail[i].s.pc == p.s.pc
  {
    if moves == [] {
      trail := [p];
    } else {
      var n := |moves| - 1;
      var front := MakeTrail(p, moves[..n]);
      trail := front + [PairMoves(p, moves)];
      forall i | 0 <= i < |moves| ensures trail[i + 1] == PairAfter(trail[i], moves[i]) {
        if i < n { assert moves[..n][i] == moves[i]; }
      }
    }
  }

  method TwinMoves(fa: FaWorker, tr: TreatWorker, k: Kernel, pc: Pc, moves: seq<Step>, ghost p: Pair)
    returns (k1: Kernel)
    requires Both(fa, tr, k, p) && p.s.pc == pc
    modifies fa`sq, fa.mem.Values`buf, tr`sq, tr.mem.Values`buf
    ensures Both(fa, tr, k1, PairMoves(p, moves)) && fa.mem == old(fa.mem) && tr.mem == old(tr.mem)
  {
    ghost var trail := MakeTrail(p, moves);
    k1 := k;
    for i := 0 to |moves|
      invariant Both(fa, tr, k1, trail[i]) && fa.mem == old(fa.mem) && tr.mem == old(tr.mem)
    {
      k1 := BothMove(fa, tr, k1, pc, moves[i], trail[i]);
    }
  }

  /** The answers of the outside, the handler's being the fixed reply. */
  function FixedOutside(fa: FaWorker, env: E.Env): E.Env
    reads fa, fa.scratch
  {
    if fa.scratch.Length < REPLY_LEN then Outside(fa, env)
    else E.Env(MallocAnswer(fa, env.block), REPLY_LEN, REPLY + fa.scratch[REPLY_LEN..], env.k1, env.k2)
  }

  lemma FixedOutsideIs(fa: FaWorker, w: E.Worker, env: E.Env)
    requires Is(fa, w)
    ensures FixedOutside(fa, env) == FixedAnswers(w, env)
  {
    OutsideIs(fa, w, env);
  }

  /** Draining the next completion leads from s to u. */
  ghost predicate Drains(s: State, env: E.Env, u: State) {
    forall s1 {:trigger Enabled(s1, Drain(env))} :: s1 == s ==>
      Enabled(s1, Drain(env)) && DispatchOk(s1) && u == DoDrain(s1, env)
  }

  /** And the treatment server from t to v. */
  ghost predicate TrDrains(t: T.Treat, e: Cqe, block: Option<(Addr, T.TRecord)>, env: E.Env, v: T.Treat) {
    forall t1 {:trigger T.Derefs(t1, e)} :: t1 == t ==>
      && T.Derefs(t1, e) && (e.data.Ref? ==> e.data.rec !in t1.free) && (block.Some? ==> block.value.0 !in t1.recs)
      && v == T.DrainOne(t1, e, block, env.k1, env.k2).(acts := [])
  }

  method FaDrain(fa: FaWorker, k: Kernel, env: E.Env, ghost s: State, ghost u: State) returns (k1: Kernel)
    requires Is(fa, s.w) && k == s.k && Drains(s, env, u)
    modifies fa, fa.mem.Values, fa.scratch
    ensures Is(fa, u.w) && k1 == u.k
    ensures fresh(fa.mem.Values - old(fa.mem.Values))
  {
    assert Enabled(s, Drain(env));
    k1 := DrainHead(fa, k, env, s);
  }

  method TrDrain(tr: TreatWorker, e: Cqe, block: Option<(Addr, T.TRecord)>, env: E.Env, ghost t: T.Treat,
                 ghost v: T.Treat)
    requires TrIs(tr, t) && TrDrains(t, e, block, env, v)
    modifies tr, tr.mem.Values
    ensures TrIs(tr, v)
    ensures fresh(tr.mem.Values - old(tr.mem.Values))
  {
    assert T.Derefs(t, e);
    if e.data.Ref? { tr.OnList(e.data.rec); }
    tr.Drain(e, block, env.k1, env.k2);
    tr.Effect();
  }

  method BothDrain(fa: FaWorker, tr: TreatWorker, k: Kernel, e: Cqe, env: E.Env, block: Option<(Addr, T.TRecord)>,
                   ghost p: Pair, ghost q: Pair)
    returns (k1: Kernel)
    requires Both(fa, tr, k, p) && Drains(p.s, env, q.s) && TrDrains(p.t, e, block, env, q.t)
    modifies fa, fa.mem.Values, fa.scratch, tr, tr.mem.Values
    ensures Both(fa, tr, k1, q)
    ensures fresh(fa.mem.Values - old(fa.mem.Values)) && fresh(tr.mem.Values - old(tr.mem.Values))
  {
    TrDrain(tr, e, block, env, p.t, q.t);
    k1 := FaDrain(fa, k, env, p.s, q.s);
  }

  /** Both drain the next completion. Their system calls are the same, handler calls apart,
      and take effect. */
  method TwinDrain(fa: FaWorker, tr: TreatWorker, k: Kernel, env0: E.Env, junk: Junk, ghost p: Pair, ghost from: Pair)
    returns (k1: Kernel)
    requires Both(fa, tr, k, p) && Together(from, p) && p.s.pc.Draining? && p.s.pc.left > 0
    modifies fa, fa.mem.Values, fa.scratch, tr, tr.mem.Values
    ensures Both(fa, tr, k1, PairDrained(p, env0, junk))
    ensures fresh(fa.mem.Values - old(fa.mem.Values)) && fresh(tr.mem.Values - old(tr.mem.Values))
  {
    DrainTogether(from, p, env0, junk);
    FixedOutsideIs(fa, p.s.w, env0);
    var env := FixedOutside(fa, env0);
    k1 := BothDrain(fa, tr, k, k.cq[0], env, TwinBlock(env.block, JunkOf(env.block, junk)), p,
                    PairDrained(p, env0, junk));
  }

  method TwinNext(fa: FaWorker, tr: TreatWorker, k: Kernel, left: nat, d: (seq<Step>, E.Env), junk: Junk,
                  ghost p: Pair, ghost from: Pair)
    returns (k1: Kernel)
    requires Both(fa, tr, k, p) && Together(from, p) && p.s.pc == Draining(left) && left > 0
    modifies fa, fa.mem.Values, fa.scratch, tr, tr.mem.Values
    ensures Both(fa, tr, k1, PairDrained(PairMoves(p, d.0), d.1, junk))
    ensures fresh(fa.mem.Values - old(fa.mem.Values)) && fresh(tr.mem.Values - old(tr.mem.Values))
  {
    MovesTogether(from, p, d.0);
    MovesPc(p.s, d.0);
    k1 := TwinMoves(fa, tr, k, Draining(left), d.0, p);
    k1 := TwinDrain(fa, tr, k1, d.1, junk, PairMoves(p, d.0), from);
  }

  /** The pairs a batch goes through. */
  ghost predicate BatchTrail(trail: seq<Pair>, p: Pair, drains: seq<(seq<Step>, E.Env)>, junk: Junk, n: nat, from: Pair)
  {
    && |trail| == n + 1 && p.s.pc == Draining(n) && Together(from, p)
    && forall i {:trigger PairBatch(p, drains, junk, i)} :: 0 <= i <= n ==> trail[i] == PairBatch(p, drains, junk, i)
  }

  method TwinAt(fa: FaWorker, tr: TreatWorker, k: Kernel, n: nat, i: nat, drains: seq<(seq<Step>, E.Env)>, junk: Junk,
                ghost trail: seq<Pair>, ghost p: Pair, ghost from: Pair)
    returns (k1: Kernel)
    requires BatchTrail(trail, p, drains, junk, n, from) && i < n && Both(fa, tr, k, trail[i])
    modifies fa, fa.mem.Values, fa.scratch, tr, tr.mem.Values
    ensures Both(fa, tr, k1, trail[i + 1])
    ensures fresh(fa.mem.Values - old(fa.mem.Values)) && fresh(tr.mem.Values - old(tr.mem.Values))
  {
    BatchTogether(from, p, drains, junk, i);
    assert trail[i] == PairBatch(p, drains, junk, i);
    k1 := TwinNext(fa, tr, k, n - i, Nth(drains, i), junk, trail[i], from);
    assert trail[i + 1] == PairBatch(p, drains, junk, i + 1);
  }

  method TwinAll(fa: FaWorker, tr: TreatWorker, k: Kernel, n: nat, drains: seq<(seq<Step>, E.Env)>, junk: Junk,
                 ghost trail: seq<Pair>, ghost p: Pair, ghost from: Pair)
    returns (k1: Kernel)
    requires BatchTrail(trail, p, drains, junk, n, from) && Both(fa, tr, k, trail[0])
    modifies fa, fa.mem.Values, fa.scratch, tr, tr.mem.Values
    ensures Both(fa, tr, k1, trail[n])
    ensures fresh(fa.mem.Values - old(fa.mem.Values)) && fresh(tr.mem.Values - old(tr.mem.Values))
  {
    k1 := k;
    for i := 0 to n
      invariant Both(fa, tr, k1, trail[i])
      invariant fresh(fa.mem.Values - old(fa.mem.Values)) && fresh(tr.mem.Values - old(tr.mem.Values))
    {
      k1 := TwinAt(fa, tr, k1, n, i, drains, junk, trail, p, from);
    }
  }

  method TwinBatch(fa: FaWorker, tr: TreatWorker, k: Kernel, n: nat, drains: seq<(seq<Step>, E.Env)>, junk: Junk,
                   ghost p: Pair, ghost from: Pair)
    returns (k1: Kernel)
    requires Both(fa, tr, k, p) && Together(from, p) && p.s.pc == Draining(n)
    modifies fa, fa.mem.Values, fa.scratch, tr, tr.mem.Values
    ensures Both(fa, tr, k1, PairBatch(p, drains, junk, n))
    ensures fresh(fa.mem.Values - old(fa.mem.Values)) && fresh(tr.mem.Values - old(tr.mem.Values))
  {
    ghost var trail := seq(n + 1, i requires 0 <= i <= n => PairBatch(p, drains, junk, i));
    assert trail[0] == p && trail[n] == PairBatch(p, drains, junk, n);
    k1 := TwinAll(fa, tr, k, n, drains, junk, trail, p, from);
  }

  method TwinEnter(fa: FaWorker, tr: TreatWorker, k: Kernel, r: Round, ghost p: Pair) returns (k1: Kernel)
    requires Both(fa, tr, k, p)
    modifies fa`sq, fa.mem.Values`buf, tr`sq, tr.mem.Values`buf
    ensures Both(fa, tr, k1, PairEntered(p, r)) && fa.mem == old(fa.mem) && tr.mem == old(tr.mem)
  {
    k1 := TwinMoves(fa, tr, k, Entering, r.moves, p.(s := p.s.(pc := Entering)));
  }

  /** What happens when the enter call is over. */
  method TwinReturn(fa: FaWorker, tr: TreatWorker, k: Kernel, r: Round, junk: Junk, ghost p: Pair, ghost from: Pair)
    returns (k1: Kernel)
    requires !r.stop && p.s.pc == Head && Together(from, p) && Both(fa, tr, k, PairEntered(p, r))
    modifies fa, fa.mem.Values, fa.scratch, tr, tr.mem.Values
    ensures Both(fa, tr, k1, PairPass(p, r, junk))
    ensures fresh(fa.mem.Values - old(fa.mem.Values)) && fresh(tr.mem.Values - old(tr.mem.Values))
  {
    EnteredTogether(from, p, r);
    k1 := k;
    if r.ret.Flushed? && fa.sq == [] {
      ghost var b := PairStart(p, r);
      BatchTogether(from, b, r.drains, junk, b.s.pc.left);
      k1 := TwinBatch(fa, tr, k, Min(|k.cq|, CQE_BATCH), r.drains, junk, b, from);
    }
  }

  /** One pass of both loops. Returns whether they go on. */
  method TwinPass(fa: FaWorker, tr: TreatWorker, k: Kernel, r: Round, junk: Junk, ghost p: Pair, ghost from: Pair)
    returns (k1: Kernel)
    requires Both(fa, tr, k, p) && Together(from, p) && p.s.pc == Head
    modifies fa, fa.mem.Values, fa.scratch, tr, tr.mem.Values
    ensures Both(fa, tr, k1, PairPass(p, r, junk))
    ensures fresh(fa.mem.Values - old(fa.mem.Values)) && fresh(tr.mem.Values - old(tr.mem.Values))
  {
    if r.stop {
      return k;
    }
    k1 := TwinEnter(fa, tr, k, r, p);
    k1 := TwinReturn(fa, tr, k1, r, junk, p, from);
  }

  ghost predicate TrNew(tr: TreatWorker)
    reads tr, tr.mem.Values
  {
    tr.Valid() && tr.mem == map[] && tr.freeList == [] && tr.sq == [] && tr.acts == [] && tr.starved == 0
  }

  method TrAdd(tr: TreatWorker, addr: Addr, content: T.TRecord, ghost t: T.Treat)
    requires TrIs(tr, t) && addr !in t.recs
    modifies tr`mem, tr`freeHead, tr`freeList
    ensures TrIs(tr, T.Free(t.(recs := t.recs[addr := content]), addr))
    ensures fresh(tr.mem.Values - old(tr.mem.Values))
  {
    var c := tr.Malloc(addr, content);
    assert tr.mem[c.addr] in tr.mem.Values;
    tr.ConnFree(c);
  }

  /** The states of the treatment's warm-up. */
  ghost predicate WarmTrail(ts: seq<T.Treat>, cfg: Config, blocks: seq<Option<(Addr, Record)>>, junk: Junk,
                            scratch: Bytes)
  {
    && |ts| == FREELIST_WARM + 1
    && forall i {:trigger TreatWarmed(Blank(cfg, scratch), TreatBlank(cfg.direct), blocks, junk, i)} ::
         0 <= i <= FREELIST_WARM ==>
           ts[i] == TreatWarmed(Blank(cfg, scratch), TreatBlank(cfg.direct), blocks, junk, i)
  }

  /** One allocation of the warm-up, at the address the engine's malloc gives. */
  method TrWarmAt(tr: TreatWorker, cfg: Config, blocks: seq<Option<(Addr, Record)>>, junk: Junk, i: nat,
                  ghost ts: seq<T.Treat>, ghost scratch: Bytes)
    requires WarmTrail(ts, cfg, blocks, junk, scratch) && i < FREELIST_WARM && TrIs(tr, ts[i])
    modifies tr`mem, tr`freeHead, tr`freeList
    ensures TrIs(tr, ts[i + 1])
    ensures fresh(tr.mem.Values - old(tr.mem.Values))
  {
    assert ts[i] == TreatWarmed(Blank(cfg, scratch), TreatBlank(cfg.direct), blocks, junk, i);
    assert ts[i + 1] == TreatWarmed(Blank(cfg, scratch), TreatBlank(cfg.direct), blocks, junk, i + 1);
    WarmAlike(cfg, scratch, blocks, junk, i);
    WarmedIsWarm(cfg, scratch, blocks, i);
    assert ts[i].recs.Keys == tr.mem.Keys;
    if && i < |blocks| && blocks[i].Some? && blocks[i].value.0 !in tr.mem
       && |blocks[i].value.1.buf| == cfg.recvBuf {
      TrAdd(tr, blocks[i].value.0, junk(blocks[i].value.0), ts[i]);
    }
  }

  method TrPrewarm(tr: TreatWorker, cfg: Config, blocks: seq<Option<(Addr, Record)>>, junk: Junk,
                   ghost ts: seq<T.Treat>, ghost scratch: Bytes)
    requires WarmTrail(ts, cfg, blocks, junk, scratch) && TrIs(tr, ts[0])
    modifies tr`mem, tr`freeHead, tr`freeList
    ensures TrIs(tr, ts[FREELIST_WARM])
    ensures fresh(tr.mem.Values - old(tr.mem.Values))
  {
    for i := 0 to FREELIST_WARM
      invariant TrIs(tr, ts[i])
      invariant fresh(tr.mem.Values - old(tr.mem.Values))
    {
      TrWarmAt(tr, cfg, blocks, junk, i, ts, scratch);
    }
  }

  method TrStart(tr: TreatWorker, cfg: Config, blocks: seq<Option<(Addr, Record)>>, junk: Junk, ghost scratch: Bytes)
    requires TrNew(tr) && tr.direct == cfg.direct
    modifies tr
    ensures TrIs(tr, PairStarted(cfg, scratch, blocks, junk).t)
    ensures fresh(tr.mem.Values)
  {
    ghost var ts := seq(FREELIST_WARM + 1, i requires 0 <= i <= FREELIST_WARM =>
      TreatWarmed(Blank(cfg, scratch), TreatBlank(cfg.direct), blocks, junk, i));
    assert tr.Abs() == TreatBlank(cfg.direct) == ts[0];
    TrPrewarm(tr, cfg, blocks, junk, ts, scratch);
    assert ts[FREELIST_WARM]
        == TreatWarmed(Blank(cfg, scratch), TreatBlank(cfg.direct), blocks, junk, FREELIST_WARM);
    tr.Arm(0);
  }

  method TwinStart(fa: FaWorker, tr: TreatWorker, blocks: seq<Option<(Addr, Record)>>, junk: Junk, ghost from: Pair)
    requires New(fa) && TrNew(tr) && tr.direct == fa.cfg.direct
    requires from == PairStarted(fa.cfg, fa.scratch[..], blocks, junk)
    modifies fa, tr
    ensures Both(fa, tr, QUIET, from)
    ensures fresh(fa.mem.Values) && fresh(tr.mem.Values)
  {
    TrStart(tr, fa.cfg, blocks, junk, fa.scratch[..]);
    assert New(fa);
    Start(fa, blocks);
  }

  /** Both workers from their construction on, for every script in which the handler always
      gives the fixed reply: both go through the whole script, the engine as it would alone,
      and end where one run led the engine and, state by state and with the same system
      calls, the treatment server. In particular they have the same requests queued and the
      same freelist. */
  method TwinWorkers(fa: FaWorker, tr: TreatWorker, blocks: seq<Option<(Addr, Record)>>, junk: Junk, rounds: seq<Round>)
    returns (k: Kernel, ghost from: Pair)
    requires New(fa) && TrNew(tr) && tr.direct == fa.cfg.direct && TwinConfig(fa.cfg)
    modifies fa, fa.scratch, tr
    ensures from == PairStarted(fa.cfg, old(fa.scratch[..]), blocks, junk)
    ensures Both(fa, tr, k, PairRun(from, rounds, junk)) && Together(from, PairRun(from, rounds, junk))
    ensures PairRun(from, rounds, junk).s == RunTo(FixedAnswers, Started(fa.cfg, old(fa.scratch[..]), blocks), rounds)
    ensures fa.sq == tr.sq && fa.Abs().free == tr.Abs().free
  {
    from := PairStarted(fa.cfg, fa.scratch[..], blocks, junk);
    StartTogether(fa.cfg, fa.scratch[..], blocks, junk);
    TwinStart(fa, tr, blocks, junk, from);
    k := TwinRounds(fa, tr, junk, rounds, from);
    RunAlike(from, rounds, junk);
  }

  lemma RunAlike(from: Pair, rounds: seq<Round>, junk: Junk)
    requires Together(from, from) && from.s.pc == Head
    ensures var q := PairRun(from, rounds, junk);
            && Together(from, q) && q.s == RunTo(FixedAnswers, from.s, rounds)
            && q.s.w.sq == q.t.sq && q.s.w.free == q.t.free
  {
    RunTogether(from, from, rounds, junk);
    var q := PairRun(from, rounds, junk);
    InStepMeans(from.s, from.t, q.s, q.t);
  }

  /** Where both are behind the first i rounds. */
  ghost predicate Reached(from: Pair, rounds: seq<Round>, junk: Junk, i: nat, p: Pair) {
    && i <= |rounds| && p == PairRun(from, rounds[..i], junk) && Together(from, p)
    && p.s.pc == if i > 0 && Leaves(rounds[i - 1]) then Exited else Head
  }

  lemma ReachedNext(from: Pair, rounds: seq<Round>, junk: Junk, i: nat, p: Pair)
    requires Reached(from, rounds, junk, i, p) && i < |rounds| && p.s.pc == Head
    ensures Reached(from, rounds, junk, i + 1, PairPass(p, rounds[i], junk))
  {
    PassTogether(from, p, rounds[i], junk);
    assert rounds[..i + 1][..i] == rounds[..i];
  }

  lemma ReachedEnd(from: Pair, rounds: seq<Round>, junk: Junk, i: nat, p: Pair)
    requires Reached(from, rounds, junk, i, p) && (i == |rounds| || p.s.pc == Exited)
    ensures p == PairRun(from, rounds, junk)
  {
    if i < |rounds| { PairLeft(from, rounds, junk, i); } else { assert rounds[..i] == rounds; }
  }

  method TwinRounds(fa: FaWorker, tr: TreatWorker, junk: Junk, rounds: seq<Round>, ghost from: Pair) returns (k: Kernel)
    requires Both(fa, tr, QUIET, from) && Together(from, from) && from.s.pc == Head
    modifies fa, fa.mem.Values, fa.scratch, tr, tr.mem.Values
    ensures Both(fa, tr, k, PairRun(from, rounds, junk))
  {
    k := QUIET;
    var i := 0;
    ghost var p := from;
    assert rounds[..0] == [];
    while i < |rounds| && (i == 0 || !Leaves(rounds[i - 1]))
      invariant Both(fa, tr, k, p) && Reached(from, rounds, junk, i, p)
      invariant fresh(fa.mem.Values - old(fa.mem.Values)) && fresh(tr.mem.Values - old(tr.mem.Values))
      decreases |rounds| - i
    {
      ReachedNext(from, rounds, junk, i, p);
      k := TwinPass(fa, tr, k, rounds[i], junk, p, from);
      p := PairPass(p, rounds[i], junk);
      i := i + 1;
    }
    ReachedEnd(from, rounds, junk, i, p);
  }

  /** Once the loops are left the rest of the script is not looked at. */
  lemma {:induction false} PairLeft(p: Pair, rounds: seq<Round>, junk: Junk, i: nat)
    requires i <= |rounds| && PairRun(p, rounds[..i], junk).s.pc.Exited?
    ensures PairRun(p, rounds, junk) == PairRun(p, rounds[..i], junk)
  {
    if i < |rounds| {
      var n := |rounds| - 1;
      assert rounds[..n][..i] == rounds[..i];
      PairLeft(p, rounds[..n], junk, i);
    } else {
      assert rounds[..i] == rounds;
    }
  }
}
