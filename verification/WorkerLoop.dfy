/**
 The worker's event loop, as the source writes it, against a kernel and an outside that do
 what a script says. Each part is tied to the function in Schedule that specifies it.
 */
module WorkerLoop {
  import opened Basics
  import opened Ring
  import opened System
  import opened Runs
  import opened Schedule
  import opened WorkerClass
  import Lifecycle
  import E = Engine

  /** The object stands for the value. */
  ghost predicate Is(w: FaWorker, v: E.Worker)
    reads w, w.mem.Values, w.scratch
  {
    w.Valid() && w.Abs() == v
  }

  /** The kernel completes a recv: the request bytes land in the record's buffer. */
  method Deliver(w: FaWorker, k: Kernel, ghost pc: Pc, i: nat, res: int, payload: Bytes) returns (k1: Kernel)
    requires w.Valid() && i < |k.pending|
    modifies w.mem.Values`buf
    ensures w.Valid() && State(w.Abs(), pc, k1) == DoRecv(State(old(w.Abs()), pc, k), i, res, payload)
  {
    var p := k.pending[i];
    ghost var was := w.Abs();
    if p.rec in w.mem {
      var c := w.mem[p.rec];
      assert c in w.mem.Values;
      c.buf := Fill(c.buf, payload);
      assert w.Records() == was.recs[p.rec := was.recs[p.rec].(buf := Fill(was.recs[p.rec].buf, payload))];
    }
    k1 := k.(pending := Without(k.pending, i),
             cq := k.cq + [Cqe(Ref(p.rec), res, false, p.conn, p.desc, payload)],
             log := k.log + [Received(p.conn, res, payload)]);
  }

  /** The kernel issues the first queued request. */
  method IssueFirst(w: FaWorker, k: Kernel) returns (k1: Kernel)
    requires w.Valid() && w.sq != []
    modifies w`sq
    ensures w.Valid() && w.Abs() == old(w.Abs()).(sq := old(w.sq)[1..])
    ensures k1 == IssueSqe(k, old(w.Abs()).scratch, old(w.sq)[0])
  {
    k1 := IssueSqe(k, w.scratch[..], w.sq[0]);
    w.sq := w.sq[1..];
  }

  method Move(w: FaWorker, k: Kernel, pc: Pc, a: Step, ghost v: E.Worker) returns (k1: Kernel)
    requires Is(w, v)
    modifies w`sq, w.mem.Values`buf
    ensures Is(w, After(State(v, pc, k), a).w) && k1 == After(State(v, pc, k), a).k && w.mem == old(w.mem)
  {
    k1 := k;
    match a
    case KIssue =>
      if pc.Entering? && w.sq != [] {
        k1 := IssueFirst(w, k);
      }
    case KAccept(i, res, more) =>
      if && i < |k.standing| && k.standing[i].Accept? && (more ==> k.standing[i].multishot)
         && (res >= 0 ==> Desc(k.standing[i].direct, res) !in k.open) {
        k1 := DoAccept(k, i, res, more);
      }
    case KRecv(i, res, payload) =>
      if i < |k.pending| && |payload| == Max(res, 0) && |payload| <= k.pending[i].len {
        k1 := Deliver(w, k, pc, i, res, payload);
      }
    case KFail(res) =>
      if res < 0 {
        k1 := k.(cq := k.cq + [Cqe(Null, res, false, 0, Desc(false, 0), [])]);
      }
    case _ =>
  }

  method Moves(w: FaWorker, k: Kernel, pc: Pc, moves: seq<Step>, ghost s: State) returns (k1: Kernel)
    requires Is(w, s.w) && s.k == k && s.pc == pc
    modifies w`sq, w.mem.Values`buf
    ensures Is(w, AfterAll(s, moves).w) && k1 == AfterAll(s, moves).k && w.mem == old(w.mem)
  {
    k1 := k;
    assert moves[..0] == [];
    for i := 0 to |moves|
      invariant Is(w, AfterAll(s, moves[..i]).w) && k1 == AfterAll(s, moves[..i]).k && w.mem == old(w.mem)
    {
      AfterSnoc(s, moves, i);
      k1 := Move(w, k1, pc, moves[i], AfterAll(s, moves[..i]).w);
    }
    assert moves[..|moves|] == moves;
  }

  /** The answers of the outside that are possible now. */
  function Outside(w: FaWorker, env: E.Env): E.Env
    reads w, w.scratch
  {
    var fits := |env.reply| == w.scratch.Length;
    E.Env(MallocAnswer(w, env.block),
          if fits then env.rlen else 0, if fits then env.reply else w.scratch[..], env.k1, env.k2)
  }

  /** malloc's answer, if the block is not in use and of the right size. */
  function MallocAnswer(w: FaWorker, block: Option<(Addr, Record)>): Option<(Addr, Record)>
    reads w
  {
    if block.Some? && block.value.0 !in w.mem && |block.value.1.buf| == w.cfg.recvBuf then block else None
  }

  lemma OutsideIs(w: FaWorker, v: E.Worker, env: E.Env)
    requires Is(w, v)
    ensures Outside(w, env) == Answers(v, env) && MallocAnswer(w, env.block) == FreshBlock(v, env.block)
  {
  }

  /** The system calls made while a completion was drained take effect. */
  method TakeEffect(w: FaWorker, k: Kernel) returns (k1: Kernel)
    requires w.Valid()
    modifies w`acts
    ensures w.Valid() && w.Abs() == old(w.Abs()).(acts := [])
    ensures k1 == ApplyAll(k, old(w.Abs()).scratch, old(w.Abs()).acts)
  {
    k1 := ApplyAll(k, w.scratch[..], w.acts);
    w.acts := [];
  }

  /** Drain the completion at the head of the queue, with these answers of the outside. */
  method DrainHead(w: FaWorker, k: Kernel, env: E.Env, ghost s: State) returns (k1: Kernel)
    requires Is(w, s.w) && s.k == k && Enabled(s, Drain(env)) && DispatchOk(s)
    modifies w, w.mem.Values, w.scratch
    ensures Is(w, DoDrain(s, env).w) && k1 == DoDrain(s, env).k
    ensures fresh(w.mem.Values - old(w.mem.Values))
  {
    var e := k.cq[0];
    if e.data.Ref? { w.OnList(e.data.rec); }
    w.DrainOne(e, env);
    k1 := TakeEffect(w, k.(cq := k.cq[1..]));
  }

  /** The kernel moves, and then the next completion is drained. */
  method DrainNext(w: FaWorker, k: Kernel, left: nat, d: (seq<Step>, E.Env), ghost s: State, ghost init: State)
    returns (k1: Kernel)
    requires Is(w, s.w) && s.k == k && s.pc == Draining(left) && left > 0 && Reaches(init, s)
    modifies w, w.mem.Values, w.scratch
    ensures var t := Drained(Answers, AfterAll(s, d.0), d.1); Is(w, t.w) && k1 == t.k
    ensures fresh(w.mem.Values - old(w.mem.Values))
  {
    ghost var t := AfterAll(s, d.0);
    MovesReach(init, s, d.0);
    k1 := Moves(w, k, Draining(left), d.0, s);
    OutsideIs(w, t.w, d.1);
    AnswersPossible();
    DrainReach(Answers, init, t, d.1);
    ReachDispatch(init, t);
    k1 := DrainHead(w, k1, Outside(w, d.1), t);
  }

  lemma BatchSnoc(init: State, s: State, drains: seq<(seq<Step>, E.Env)>, i: nat, b: State)
    requires Reaches(init, s) && s.pc.Draining? && i < s.pc.left && b == BatchTo(Answers, s, drains, i)
    ensures Reaches(init, b) && b.pc == Draining(s.pc.left - i)
    ensures BatchTo(Answers, s, drains, i + 1) == Drained(Answers, AfterAll(b, Nth(drains, i).0), Nth(drains, i).1)
  {
    AnswersPossible();
    BatchReach(Answers, init, s, drains, i);
  }

  /** The states a batch goes through. */
  ghost predicate Trail(trail: seq<State>, s: State, drains: seq<(seq<Step>, E.Env)>, n: nat, init: State) {
    && |trail| == n + 1 && s.pc == Draining(n) && Reaches(init, s)
    && forall i {:trigger BatchTo(Answers, s, drains, i)} :: 0 <= i <= n ==> trail[i] == BatchTo(Answers, s, drains, i)
  }

  /** Drain completion i of the batch of n. */
  method DrainAt(w: FaWorker, k: Kernel, n: nat, i: nat, drains: seq<(seq<Step>, E.Env)>,
                 ghost trail: seq<State>, ghost s: State, ghost init: State)
    returns (k1: Kernel)
    requires Trail(trail, s, drains, n, init) && i < n && Is(w, trail[i].w) && k == trail[i].k
    modifies w, w.mem.Values, w.scratch
    ensures Is(w, trail[i + 1].w) && k1 == trail[i + 1].k
    ensures fresh(w.mem.Values - old(w.mem.Values))
  {
    BatchSnoc(init, s, drains, i, BatchTo(Answers, s, drains, i));
    k1 := DrainNext(w, k, n - i, Nth(drains, i), trail[i], init);
    assert trail[i + 1] == BatchTo(Answers, s, drains, i + 1);
  }

  /** Drain the batch of n completions. */
  method DrainAll(w: FaWorker, k: Kernel, n: nat, drains: seq<(seq<Step>, E.Env)>,
                  ghost trail: seq<State>, ghost s: State, ghost init: State)
    returns (k1: Kernel)
    requires Trail(trail, s, drains, n, init) && Is(w, trail[0].w) && k == trail[0].k
    modifies w, w.mem.Values, w.scratch
    ensures Is(w, trail[n].w) && k1 == trail[n].k
    ensures fresh(w.mem.Values - old(w.mem.Values))
  {
    k1 := k;
    for i := 0 to n
      invariant Is(w, trail[i].w) && k1 == trail[i].k
      invariant fresh(w.mem.Values - old(w.mem.Values))
    {
      k1 := DrainAt(w, k1, n, i, drains, trail, s, init);
    }
  }

  method DrainBatch(w: FaWorker, k: Kernel, n: nat, drains: seq<(seq<Step>, E.Env)>, ghost s: State, ghost init: State)
    returns (k1: Kernel)
    requires Is(w, s.w) && s.k == k && s.pc == Draining(n) && Reaches(init, s)
    modifies w, w.mem.Values, w.scratch
    ensures Is(w, BatchTo(Answers, s, drains, n).w) && k1 == BatchTo(Answers, s, drains, n).k
    ensures fresh(w.mem.Values - old(w.mem.Values))
  {
    ghost var trail := seq(n + 1, i requires 0 <= i <= n => BatchTo(Answers, s, drains, i));
    assert trail[0] == s && trail[n] == BatchTo(Answers, s, drains, n);
    k1 := DrainAll(w, k, n, drains, trail, s, init);
  }

  /** One pass of the loop. Returns whether the loop goes on. */
  method Pass(w: FaWorker, k: Kernel, r: Round, ghost s: State, ghost init: State) returns (k1: Kernel, on: bool)
    requires Is(w, s.w) && s.k == k && s.pc == Head && Reaches(init, s)
    modifies w, w.mem.Values, w.scratch
    ensures Is(w, PassTo(Answers, s, r).w) && k1 == PassTo(Answers, s, r).k
    ensures PassTo(Answers, s, r).pc == if on then Head else Exited
    ensures fresh(w.mem.Values - old(w.mem.Values))
  {
    AnswersPossible();
    PassReach(Answers, init, s, r);
    if r.stop {
      return k, false;
    }
    EnteredReach(init, s, r);
    k1 := Moves(w, k, Entering, r.moves, s.(pc := Entering));
    if r.ret.Fatal? {
      return k1, false;
    }
    on := true;
    if r.ret.Retry? || w.sq != [] {
      return;
    }
    k1 := DrainBatch(w, k1, Min(|k1.cq|, CQE_BATCH), r.drains, BatchStart(s, r), init);
  }

  /** The worker right after its construction. */
  ghost predicate New(w: FaWorker)
    reads w, w.mem.Values
  {
    && w.Valid() && w.mem == map[] && w.freeList == [] && w.sq == [] && w.acts == [] && w.starved == 0
    && w.scratch.Length == w.cfg.replyCap
  }

  /** Put a block on the freelist. */
  method AddWarm(w: FaWorker, addr: Addr, content: Record, ghost v: E.Worker)
    requires Is(w, v) && addr !in v.recs
    modifies w`mem, w`freeHead, w`freeList
    ensures Is(w, E.Free(v.(recs := v.recs[addr := content]), addr))
    ensures fresh(w.mem.Values - old(w.mem.Values))
  {
    var c := w.Malloc(addr, content);
    assert w.mem[c.addr] in w.mem.Values;
    w.ConnFree(c);
  }

  /** Fill the freelist before the first accept. */
  method Prewarm(w: FaWorker, blocks: seq<Option<(Addr, Record)>>, ghost v: E.Worker)
    requires Is(w, v)
    modifies w`mem, w`freeHead, w`freeList
    ensures Is(w, Warmed(v, blocks, FREELIST_WARM))
    ensures fresh(w.mem.Values - old(w.mem.Values))
  {
    for i := 0 to FREELIST_WARM
      invariant Is(w, Warmed(v, blocks, i))
      invariant fresh(w.mem.Values - old(w.mem.Values))
    {
      if i < |blocks| {
        var block := MallocAnswer(w, blocks[i]);
        assert block == FreshBlock(Warmed(v, blocks, i), blocks[i]);
        if block.Some? {
          AddWarm(w, block.value.0, block.value.1, Warmed(v, blocks, i));
        }
      }
    }
  }

  /** Warm up and queue the first accept. */
  method Start(w: FaWorker, blocks: seq<Option<(Addr, Record)>>)
    requires New(w)
    modifies w
    ensures Is(w, Started(w.cfg, old(w.scratch[..]), blocks).w)
    ensures fresh(w.mem.Values)
  {
    assert w.Abs() == Blank(w.cfg, w.scratch[..]);
    Prewarm(w, blocks, Blank(w.cfg, w.scratch[..]));
    w.ArmAccept(0);
  }

  /** The worker's life, for every script: warm-up, first accept, and one pass for each round
      until a stop or a fatal return. It ends in a state of a run of worker and kernel, so
      everything proved of runs holds of it. */
  method Run(w: FaWorker, blocks: seq<Option<(Addr, Record)>>, rounds: seq<Round>)
    returns (k: Kernel, pc: Pc)
    requires New(w)
    modifies w, w.mem.Values, w.scratch
    ensures w.Valid()
    ensures State(w.Abs(), pc, k) == RunTo(Answers, Started(w.cfg, old(w.scratch[..]), blocks), rounds)
    ensures Reaches(Started(w.cfg, old(w.scratch[..]), blocks), State(w.Abs(), pc, k))
    ensures pc == (if SomeLeaves(rounds) then Exited else Head)
    ensures w.starved == 0 && |w.sq| <= 512
  {
    ghost var init := Started(w.cfg, w.scratch[..], blocks);
    StartedMeans(w.cfg, w.scratch[..], blocks);
    Begin(init);
    AnswersPossible();
    Start(w, blocks);
    k := Rounds(w, rounds, init);
    RunReach(Answers, init, init, rounds);
    pc := if exists i :: 0 <= i < |rounds| && Leaves(rounds[i]) then Exited else Head;
    ReachRoom(init, RunTo(Answers, init, rounds));
  }

  method Rounds(w: FaWorker, rounds: seq<Round>, ghost init: State) returns (k: Kernel)
    requires Is(w, init.w) && init.k == QUIET && init.pc == Head && Reaches(init, init)
    modifies w, w.mem.Values, w.scratch
    ensures Is(w, RunTo(Answers, init, rounds).w) && k == RunTo(Answers, init, rounds).k
  {
    k := QUIET;
    var i, on := 0, true;
    assert rounds[..0] == [];
    while on && i < |rounds|
      invariant i <= |rounds|
      invariant var s := RunTo(Answers, init, rounds[..i]);
                Is(w, s.w) && k == s.k && s.pc == (if on then Head else Exited) && Reaches(init, s)
      invariant fresh(w.mem.Values - old(w.mem.Values))
      decreases |rounds| - i
    {
      ghost var s := RunTo(Answers, init, rounds[..i]);
      RunSnoc(Answers, init, rounds, i);
      AnswersPossible();
      PassReach(Answers, init, s, rounds[i]);
      k, on := Pass(w, k, rounds[i], s, init);
      i := i + 1;
    }
    if on { assert rounds[..i] == rounds; } else { RunLeft(Answers, init, rounds, i); }
  }

  lemma ReachRoom(init: State, s: State)
    requires Reaches(init, s)
    ensures s.w.starved == 0 && |s.w.sq| <= 512
  {
    ReachInv(init, s);
  }

  /** Walk a list and free every record on it, reading a record's link before freeing it. */
  method Walk(head: Conn?, ghost list: seq<Conn>) returns (freed: seq<Conn>)
    requires Linked(head, list)
    ensures freed == list
  {
    freed := [];
    var c := head;
    ghost var rest := list;
    while c != null
      invariant freed + rest == list && Linked(c, rest)
      decreases |rest|
    {
      var next := c.next;
      freed := freed + [c];
      rest := rest[1..];
      c := next;
    }
  }

  /** Teardown: free the freelist. */
  method DrainFreelist(w: FaWorker) returns (freed: seq<Conn>)
    requires w.Valid()
    modifies w`freeHead, w`freeList
    ensures freed == old(w.freeList) && Distinct(freed)
    ensures w.Valid() && w.freeHead == null && w.freeList == [] && w.mem == old(w.mem)
    ensures old(w.Abs()) == w.Abs().(free := Addrs(freed))
  {
    freed := Walk(w.freeHead, w.freeList);
    w.freeHead := null;
    w.freeList := [];
  }

  lemma ReachTeardown(init: State, s: State, r: Addr)
    requires Reaches(init, s)
    ensures r in s.w.recs && r !in s.w.free <==> Lifecycle.RecvOwners(s, r) == 1
    ensures r in s.w.recs && r in s.w.free ==> Lifecycle.RecvOwners(s, r) == 0
  {
    var run, steps :| IsRun(run, steps) && run[0] == init && run[|run| - 1] == s;
    Lifecycle.TeardownLeaves(run, steps, |run| - 1, r);
  }

  /** Record a was freed by the teardown, or one recv still owns it and it was not. */
  ghost predicate FreedOrOwned(last: State, w: FaWorker, freed: seq<Conn>, a: Addr)
    reads w
    requires a in w.mem
  {
    if w.mem[a] in freed then Lifecycle.RecvOwners(last, a) == 0 else Lifecycle.RecvOwners(last, a) == 1
  }

  /** How a worker's loop was left: the kernel side, and the position in the loop. */
  datatype Exit = Exit(k: Kernel, pc: Pc)

  /** What the outside does while a worker's thread runs: whether the thread gets its ring,
      the blocks malloc gives for the warm-up, and the passes of the loop. */
  datatype Script = Script(ring: bool, blocks: seq<Option<(Addr, Record)>>, rounds: seq<Round>)

  /** A worker's task: its configuration, what its scratch held, and its script. */
  datatype Task = Task(cfg: Config, scratch: Bytes, script: Script)

  /** The state in which a worker leaves its loop. */
  function Final(t: Task): State {
    RunTo(Answers, Started(t.cfg, t.scratch, t.script.blocks), t.script.rounds)
  }

  lemma FinalReaches(t: Task)
    requires |t.scratch| == t.cfg.replyCap
    ensures Reaches(Started(t.cfg, t.scratch, t.script.blocks), Final(t))
  {
    var init := Started(t.cfg, t.scratch, t.script.blocks);
    StartedMeans(t.cfg, t.scratch, t.script.blocks);
    Begin(init);
    AnswersPossible();
    RunReach(Answers, init, init, t.script.rounds);
  }

  /** The worker is out of its loop, where its task leads. */
  ghost predicate Ended(w: FaWorker, t: Task, end: Exit)
    reads w, w.mem.Values, w.scratch
  {
    w.Valid() && State(w.Abs(), end.pc, end.k) == Final(t) && |t.scratch| == t.cfg.replyCap
  }

  /** The state in which the loop was left, the freed records back on the freelist. */
  ghost function Last(w: FaWorker, end: Exit, freed: seq<Conn>): State
    reads w, w.mem.Values, w.scratch
  {
    State(w.Abs().(free := Addrs(freed)), end.pc, end.k)
  }

  /** The worker was torn down: it had left its loop where its task leads, no record was
      freed twice, only records of the worker were freed, and those that stay allocated are
      exactly those that a recv owned in that state. */
  ghost predicate TornDown(w: FaWorker, t: Task, end: Exit, freed: seq<Conn>)
    reads w, w.mem.Values, w.scratch
  {
    && Last(w, end, freed) == Final(t) && w.freeHead == null && Distinct(freed)
    && (forall c :: c in freed ==> c.addr in w.mem && w.mem[c.addr] == c)
    && (forall a :: a in w.mem ==> FreedOrOwned(Final(t), w, freed, a))
  }

  /** The worker has left its loop, or never entered it. */
  ghost predicate Over(w: FaWorker, t: Task, end: Option<Exit>)
    reads w, w.mem.Values, w.scratch
  {
    if end.Some? then Ended(w, t, end.value) else New(w)
  }

  /** And was torn down; one that never entered its loop had nothing to free. */
  ghost predicate Gone(w: FaWorker, t: Task, end: Option<Exit>, freed: seq<Conn>)
    reads w, w.mem.Values, w.scratch
  {
    if end.Some? then TornDown(w, t, end.value, freed) else freed == [] && w.mem == map[]
  }

  /** Free the records on the freelist. */
  method Teardown(w: FaWorker, ghost t: Task, ghost end: Option<Exit>) returns (freed: seq<Conn>)
    requires Over(w, t, end)
    modifies w`freeHead, w`freeList
    ensures Gone(w, t, end, freed) && old(w.Abs()) == w.Abs().(free := Addrs(freed))
  {
    forall a | a in w.mem ensures a in w.Abs().free <==> w.mem[a] in w.freeList { w.OnList(a); }
    freed := DrainFreelist(w);
    if end.Some? {
      FinalReaches(t);
      ghost var init := Started(t.cfg, t.scratch, t.script.blocks);
      forall a | a in w.mem ensures FreedOrOwned(Final(t), w, freed, a) { ReachTeardown(init, Final(t), a); }
    }
  }

  /** A worker from its construction through any run to its teardown. */
  method Lifetime(w: FaWorker, script: Script) returns (freed: seq<Conn>, end: Exit)
    requires New(w)
    modifies w, w.mem.Values, w.scratch
    ensures TornDown(w, Task(w.cfg, old(w.scratch[..]), script), end, freed)
  {
    ghost var t := Task(w.cfg, w.scratch[..], script);
    var k, pc := Run(w, script.blocks, script.rounds);
    end := Exit(k, pc);
    freed := Teardown(w, t, Some(end));
  }
}
