/**
 The results about whole runs of a worker: every claim below is about every state of
 every run, for every handler, every malloc outcome and every schedule of the kernel.
 */
module Runs {
  import opened Basics
  import opened Ring
  import opened Engine
  import opened System
  import opened Tokens
  import opened Safety
  import opened DrainSafety

  lemma {:induction false} FreeToksOnce(free: seq<Addr>, r: Addr)
    requires Distinct(free)
    ensures Sum(FreeToks, free, RecTok(r)) == if r in free then 1 else 0
  {
    if free != [] {
      assert Distinct(free[1..]);
      FreeToksOnce(free[1..], r);
      assert r in free <==> r == free[0] || r in free[1..];
    }
  }

  lemma {:induction false} FreeToksOnly(free: seq<Addr>, x: Token)
    requires !x.RecTok?
    ensures Sum(FreeToks, free, x) == 0
  {
    if free != [] { FreeToksOnly(free[1..], x); }
  }

  lemma InitInv(s: State)
    requires Init(s)
    ensures Inv(s)
  {
    forall x: Token ensures Held(s, x) == Due(s, x) {
      SqPop(s.w.sq, x);
      assert s.w.sq[1..] == [] && SqToks(false, [], x) == 0;
      if x.RecTok? {
        FreeToksOnce(s.w.free, x.rec);
        assert x.rec in s.w.recs.Keys <==> x.rec in s.w.free;
      } else {
        FreeToksOnly(s.w.free, x);
      }
    }
  }

  lemma StepInv(s: State, a: Step)
    requires Inv(s) && Enabled(s, a)
    ensures Inv(Do(s, a))
  {
    match a
    case Drain(env) => StepDrain(s, env);
    case KIssue => StepIssue(s);
    case KAccept(i, res, more) => StepAccept(s, i, res, more);
    case KRecv(i, res, payload) => StepRecv(s, i, res, payload);
    case KFail(res) => StepFail(s, res);
    case _ => PcInv(s, Do(s, a));
  }

  /** Moving between loop positions changes neither the worker nor the kernel. */
  lemma PcInv(s: State, t: State)
    requires Inv(s) && t == s.(pc := t.pc) && t.pc != s.pc
    requires t.pc.Draining? ==> s.w.sq == [] && t.pc.left == Min(|s.k.cq|, CQE_BATCH)
    ensures Inv(t)
  {
    forall x: Token ensures Held(t, x) == Due(t, x) { assert Held(s, x) == Due(s, x); }
    EntriesFrame(s, t);
    TableFrame(s, t);
  }

  /** The invariant holds in every state of every run. */
  lemma {:induction false} RunInv(run: seq<State>, steps: seq<Step>, i: nat)
    requires IsRun(run, steps) && i < |run|
    ensures Inv(run[i])
  {
    if i == 0 {
      InitInv(run[0]);
    } else {
      RunInv(run, steps, i - 1);
      StepInv(run[i - 1], steps[i - 1]);
    }
  }

  /** Some run leads from init to s. */
  ghost predicate Reaches(init: State, s: State) {
    exists run, steps :: IsRun(run, steps) && run[0] == init && run[|run| - 1] == s
  }

  lemma Begin(init: State)
    requires Init(init)
    ensures Reaches(init, init)
  {
    var run: seq<State>, steps: seq<Step> := [init], [];
    assert IsRun(run, steps);
  }

  lemma Go(init: State, s: State, a: Step, t: State)
    requires Reaches(init, s) && Enabled(s, a) && t == Do(s, a)
    ensures Reaches(init, t)
  {
    var run, steps :| IsRun(run, steps) && run[0] == init && run[|run| - 1] == s;
    var run1, steps1 := run + [t], steps + [a];
    assert IsRun(run1, steps1);
  }

  lemma ReachInv(init: State, s: State)
    requires Reaches(init, s)
    ensures Inv(s)
  {
    var run, steps :| IsRun(run, steps) && run[0] == init && run[|run| - 1] == s;
    RunInv(run, steps, |run| - 1);
  }

  // ---- counting by place instead of by token

  lemma {:induction false} SumIsCount<T>(f: (T, Token) -> nat, x: Token, p: T -> bool, s: seq<T>)
    requires forall y :: y in s ==> f(y, x) == if p(y) then 1 else 0
    ensures Sum(f, s, x) == Count(p, s)
  {
    if s != [] { SumIsCount(f, x, p, s[1..]); }
  }

  /** In how many places record r is: on the freelist, with a queued recv, with a recv
      in flight, or with an undrained completion. */
  function Owners(s: State, r: Addr): nat {
    Count((y: Addr) => y == r, s.w.free)
    + Count((e: Sqe) => e.Recv? && e.rec == r, s.w.sq)
    + Count((p: Pending) => p.rec == r, s.k.pending)
    + Count((e: Cqe) => e.data == Ref(r), s.k.cq)
  }

  lemma {:induction false} SqRecs(p: bool, sq: seq<Sqe>, r: Addr)
    ensures SqToks(p, sq, RecTok(r)) == Count((e: Sqe) => e.Recv? && e.rec == r, sq)
    decreases |sq|
  {
    if sq != [] { SqRecs(sq[0].Send?, sq[1..], r); }
  }

  lemma OwnersHeld(s: State, r: Addr)
    requires EntriesOk(s)
    ensures Owners(s, r) == Held(s, RecTok(r))
  {
    var x := RecTok(r);
    SqRecs(false, s.w.sq, r);
    SumIsCount(FreeToks, x, (y: Addr) => y == r, s.w.free);
    SumIsCount(PendingToks, x, (p: Pending) => p.rec == r, s.k.pending);
    SumIsCount(CqeToks, x, (e: Cqe) => e.data == Ref(r), s.k.cq);
    SumIsCount(StandingToks, x, (e: Sqe) => false, s.k.standing);
    SumIsCount(LeakToks, x, (l: (Desc, ConnId)) => false, s.k.leaked);
    CountNone(s.k.standing);
    CountNone(s.k.leaked);
  }

  lemma {:induction false} CountNone<T>(s: seq<T>)
    ensures Count((y: T) => false, s) == 0
  {
    if s != [] { CountNone(s[1..]); }
  }

  /** Ownership: every record the worker ever allocated is in exactly one place, and no
      place holds anything else. */
  lemma OwnershipPartition(run: seq<State>, steps: seq<Step>, i: nat, r: Addr)
    requires IsRun(run, steps) && i < |run|
    ensures Owners(run[i], r) == if r in run[i].w.recs then 1 else 0
  {
    RunInv(run, steps, i);
    OwnersHeld(run[i], r);
    RecOnce(run[i], r);
  }

  lemma CountHas<T>(p: T -> bool, s: seq<T>, y: T)
    requires y in s && p(y)
    ensures Count(p, s) > 0
  {
    if s[0] != y { CountHas(p, s[1..], y); }
  }

  /** A record that went back to the freelist, or was reused for a new recv in the same
      batch, is named by no completion that is still to be drained. */
  lemma RecycledUnnamed(run: seq<State>, steps: seq<Step>, i: nat, r: Addr, e: Cqe)
    requires IsRun(run, steps) && i < |run| && e in run[i].k.cq
    requires r in run[i].w.free || exists q :: q in run[i].w.sq && q.Recv? && q.rec == r
    ensures e.data != Ref(r)
  {
    var s := run[i];
    OwnershipPartition(run, steps, i, r);
    if r in s.w.free {
      CountHas((y: Addr) => y == r, s.w.free, r);
    } else {
      var q :| q in s.w.sq && q.Recv? && q.rec == r;
      CountHas((y: Sqe) => y.Recv? && y.rec == r, s.w.sq, q);
    }
    if e.data == Ref(r) {
      CountHas((y: Cqe) => y.data == Ref(r), s.k.cq, e);
    }
  }

  ghost predicate DispatchOk(s: State) {
    && s.k.cq != [] && Derefs(s.w, s.k.cq[0])
    && (s.k.cq[0].data.Ref? <==> StateOf(s.w, s.k.cq[0].data) == StRecv)
    && (s.k.cq[0].data.Ref? ==> s.k.cq[0].data.rec !in s.w.free)
  }

  lemma InvDispatch(s: State)
    requires Inv(s) && s.pc.Draining? && s.pc.left > 0
    ensures DispatchOk(s)
  {
    var e := s.k.cq[0];
    assert e in s.k.cq && CqeOk(s.w, e);
    forall j | 0 <= j < |s.w.free| ensures s.w.free[j] in s.w.recs { FreeUnnamed(s, s.w.free[j]); }
    if e.data.Ref? && e.data.rec in s.w.free { FreeUnnamed(s, e.data.rec); }
  }

  /** The drain loop never gets stuck or confused: as long as the batch has completions
      left there is one to take, its user data can be dereferenced, the state test sends
      accepts to the accept branch and recvs to the recv branch, and the record it will
      free is not on the freelist yet. */
  lemma DispatchCorrect(run: seq<State>, steps: seq<Step>, i: nat)
    requires IsRun(run, steps) && i < |run| && run[i].pc.Draining? && run[i].pc.left > 0
    ensures DispatchOk(run[i])
  {
    RunInv(run, steps, i);
    InvDispatch(run[i]);
  }

  /** Submission capacity: at most 512 entries are queued in any state, no request for
      an entry was ever refused, and no fallback branch has run. */
  lemma NeverStarved(run: seq<State>, steps: seq<Step>, i: nat)
    requires IsRun(run, steps) && i < |run|
    ensures |run[i].w.sq| <= 512 < 4096 == QUEUE_DEPTH
    ensures run[i].pc.Draining? ==> |run[i].w.sq| <= 2 * (256 - run[i].pc.left)
    ensures run[i].w.starved == 0
  {
    RunInv(run, steps, i);
  }

  // ---- the accept request

  /** Accept requests of the worker: queued, standing, or ended by a completion without
      F_MORE that is still to be drained. */
  function AcceptRequests(s: State): nat {
    Count((e: Sqe) => e.Accept?, s.w.sq) + |s.k.standing|
    + Count((e: Cqe) => e.data == Marker && !e.more, s.k.cq)
  }

  lemma {:induction false} SqAccepts(p: bool, sq: seq<Sqe>)
    ensures SqToks(p, sq, AcceptTok) == Count((e: Sqe) => e.Accept?, sq)
    decreases |sq|
  {
    if sq != [] { SqAccepts(sq[0].Send?, sq[1..]); }
  }

  lemma {:induction false} StandingAll(s: seq<Sqe>)
    ensures Sum(StandingToks, s, AcceptTok) == |s|
  {
    if s != [] { StandingAll(s[1..]); }
  }

  /** There is always exactly one accept request, multishot or not. */
  lemma AcceptTokenUnique(run: seq<State>, steps: seq<Step>, i: nat)
    requires IsRun(run, steps) && i < |run|
    ensures AcceptRequests(run[i]) == 1
  {
    RunInv(run, steps, i);
    var s := run[i];
    SqAccepts(false, s.w.sq);
    StandingAll(s.k.standing);
    SumIsCount(CqeToks, AcceptTok, (e: Cqe) => e.data == Marker && !e.more, s.k.cq);
    SumIsCount(PendingToks, AcceptTok, (p: Pending) => false, s.k.pending);
    SumIsCount(LeakToks, AcceptTok, (l: (Desc, ConnId)) => false, s.k.leaked);
    CountNone(s.k.pending);
    CountNone(s.k.leaked);
    FreeToksOnly(s.w.free, AcceptTok);
    assert Held(s, AcceptTok) == Due(s, AcceptTok);
  }

  // ---- descriptors

  /** In how many places descriptor d of connection c is: an undrained accept, a recv
      (queued, in flight or undrained), a queued close, or leaked. */
  function Places(s: State, d: Desc, c: ConnId): nat {
    Count((e: Cqe) => !e.data.Null? && (e.data.Marker? ==> e.res >= 0) && e.desc == d && e.conn == c, s.k.cq)
    + Count((p: Pending) => p.desc == d && p.conn == c, s.k.pending)
    + Count((e: Sqe) => (e.Recv? || e.Close?) && e.desc == d && e.conn == c, s.w.sq)
    + Count((l: (Desc, ConnId)) => l == (d, c), s.k.leaked)
  }

  /** If every token for d and c in a list has stage st, counting tokens of that stage
      counts the entries that name d and c. */
  lemma {:induction false} SumIsCountAt<T>(f: (T, Token) -> nat, d: Desc, c: ConnId, st: Stage, p: T -> bool, s: seq<T>)
    requires forall y :: y in s && !p(y) ==> f(y, DescTok(d, c, st)) == 0
    requires forall y :: y in s && p(y) ==> exists st1 :: f(y, DescTok(d, c, st1)) == 1
    requires forall st1 :: st1 != st ==> Sum(f, s, DescTok(d, c, st1)) == 0
    ensures Sum(f, s, DescTok(d, c, st)) == Count(p, s)
  {
    if s != [] {
      assert s[0] in s;
      forall st1 | st1 != st ensures Sum(f, s[1..], DescTok(d, c, st1)) == 0 && f(s[0], DescTok(d, c, st1)) == 0 {
        assert Sum(f, s, DescTok(d, c, st1)) == 0;
      }
      SumIsCountAt(f, d, c, st, p, s[1..]);
    }
  }

  lemma {:induction false} SqDescs(p: bool, sq: seq<Sqe>, d: Desc, c: ConnId, st: Stage)
    requires Paired(sq)
    requires forall st1 :: st1 != st ==> SqToks(p, sq, DescTok(d, c, st1)) == 0
    ensures SqToks(p, sq, DescTok(d, c, st)) + (if p && sq != [] && sq[0] == Close(d, c) then 1 else 0)
         == Count((e: Sqe) => (e.Recv? || e.Close?) && e.desc == d && e.conn == c, sq)
    decreases |sq|
  {
    if sq != [] {
      PairedPop(sq);
      forall st1 | st1 != st
        ensures SqToks(sq[0].Send?, sq[1..], DescTok(d, c, st1)) == 0 && SqeToks(p, sq[0], DescTok(d, c, st1)) == 0
      {
        assert SqToks(p, sq, DescTok(d, c, st1)) == 0;
      }
      SqDescs(sq[0].Send?, sq[1..], d, c, st);
    }
  }
}
