/**
 The accounting behind every safety result about the worker. Three kinds of token are
 handed around: one accept token, one token per allocated record, and one token per
 open descriptor, stamped with its connection and with how far that connection got.
 Queue entries, requests in flight, the freelist and leaked slots hold tokens; the
 record map and the descriptor table say which tokens must exist. The invariant is
 that the two agree as multisets.
 */
module Tokens {
  import opened Basics
  import opened Ring
  import opened System

  /** How far a connection got, as an automaton over the history. `Broken` is entered
      by any event that the request-reply-close protocol does not allow. */
  datatype Stage =
    | Unborn
    | Fresh                    // accepted, no recv issued
    | Waiting                  // recv in flight
    | Got(payload: Bytes)      // request received, handler not called
    | Owing(len: nat)          // handler replied, reply not sent
    | Done                     // nothing left but the close
    | Shut
    | Broken

  function Advance(cap: nat, st: Stage, e: Event): Stage {
    match (st, e)
    case (Unborn, Accepted(_)) => Fresh
    case (Fresh, RecvIssued(c, i)) => if c == i then Waiting else Broken
    case (Fresh, Closed(c, i)) => if c == i then Shut else Broken
    case (Waiting, Received(_, res, payload)) =>
      if res <= 0 then Done else if |payload| == res then Got(payload) else Broken
    case (Got(p), Handled(_, req, rlen, _)) =>
      if req != p then Broken else if rlen <= 0 then Done else Owing(Min(rlen, cap))
    case (Owing(len), Sent(c, i, bytes)) => if c == i && |bytes| == len then Done else Broken
    case (Done, Closed(c, i)) => if c == i then Shut else Broken
    case _ => Broken
  }

  predicate About(e: Event, c: ConnId) {
    !e.Stray? && e.conn == c
  }

  function StageOf(cap: nat, log: seq<Event>, c: ConnId): Stage {
    if log == [] then Unborn
    else
      var n := |log| - 1;
      var st := StageOf(cap, log[..n], c);
      if About(log[n], c) then Advance(cap, st, log[n]) else st
  }

  lemma StageAppend(cap: nat, log: seq<Event>, e: Event, c: ConnId)
    ensures StageOf(cap, log + [e], c)
         == if About(e, c) then Advance(cap, StageOf(cap, log, c), e) else StageOf(cap, log, c)
  {
    assert (log + [e])[..|log|] == log;
  }

  datatype Token = AcceptTok | RecTok(rec: Addr) | DescTok(desc: Desc, conn: ConnId, stage: Stage)

  /** A count of tokens is given pointwise: how many times token x occurs. */
  function One(a: Token, x: Token): nat {
    if a == x then 1 else 0
  }

  function Sum<T>(f: (T, Token) -> nat, s: seq<T>, x: Token): nat {
    if s == [] then 0 else f(s[0], x) + Sum(f, s[1..], x)
  }

  lemma {:induction false} SumConcat<T>(f: (T, Token) -> nat, a: seq<T>, b: seq<T>, x: Token)
    ensures Sum(f, a + b, x) == Sum(f, a, x) + Sum(f, b, x)
  {
    if a == [] {
      assert a + b == b;
    } else {
      SumConcat(f, a[1..], b, x);
      assert (a + b)[0] == a[0] && (a + b)[1..] == a[1..] + b;
    }
  }

  lemma SumAppend<T>(f: (T, Token) -> nat, a: seq<T>, y: T, x: Token)
    ensures Sum(f, a + [y], x) == Sum(f, a, x) + f(y, x)
  {
    SumConcat(f, a, [y], x);
    assert [y][1..] == [];
    assert Sum(f, [y], x) == f(y, x);
  }

  lemma SumWithout<T>(f: (T, Token) -> nat, a: seq<T>, i: nat, x: Token)
    requires i < |a|
    ensures Sum(f, a, x) == f(a[i], x) + Sum(f, Without(a, i), x)
  {
    SumConcat(f, a[..i], a[i..], x);
    SumConcat(f, a[..i], a[i + 1..], x);
    assert a == a[..i] + a[i..];
    assert a[i..][0] == a[i] && a[i..][1..] == a[i + 1..];
  }

  lemma SumHas<T>(f: (T, Token) -> nat, a: seq<T>, y: T, x: Token)
    requires y in a
    ensures f(y, x) <= Sum(f, a, x)
  {
    var i :| 0 <= i < |a| && a[i] == y;
    SumWithout(f, a, i, x);
  }

  function FreeToks(r: Addr, x: Token): nat {
    One(RecTok(r), x)
  }

  function StandingToks(e: Sqe, x: Token): nat {
    One(AcceptTok, x)
  }

  function PendingToks(p: Pending, x: Token): nat {
    One(RecTok(p.rec), x) + One(DescTok(p.desc, p.conn, Waiting), x)
  }

  function LeakToks(l: (Desc, ConnId), x: Token): nat {
    One(DescTok(l.0, l.1, Fresh), x)
  }

  function CqeToks(e: Cqe, x: Token): nat {
    match e.data
    case Null => 0
    case Marker =>
      (if e.more then 0 else One(AcceptTok, x))
      + (if e.res >= 0 then One(DescTok(e.desc, e.conn, Fresh), x) else 0)
    case Ref(r) =>
      One(RecTok(r), x) + One(DescTok(e.desc, e.conn, if e.res <= 0 then Done else Got(e.payload)), x)
  }

  /** A close right behind a send leaves the descriptor's token with the send. */
  function SqeToks(afterSend: bool, e: Sqe, x: Token): nat {
    match e
    case Accept(_, _) => One(AcceptTok, x)
    case Recv(r, d, _, c) => One(RecTok(r), x) + One(DescTok(d, c, Fresh), x)
    case Send(d, len, c) => One(DescTok(d, c, Owing(len)), x)
    case Close(d, c) => if afterSend then 0 else One(DescTok(d, c, Done), x)
  }

  function SqToks(afterSend: bool, sq: seq<Sqe>, x: Token): nat
    decreases |sq|
  {
    if sq == [] then 0
    else SqeToks(afterSend, sq[0], x) + SqToks(sq[0].Send?, sq[1..], x)
  }

  predicate EndsInSend(afterSend: bool, sq: seq<Sqe>) {
    if sq == [] then afterSend else sq[|sq| - 1].Send?
  }

  lemma {:induction false} SqAppend(p: bool, sq: seq<Sqe>, e: Sqe, x: Token)
    ensures SqToks(p, sq + [e], x) == SqToks(p, sq, x) + SqeToks(EndsInSend(p, sq), e, x)
    decreases |sq|
  {
    if sq == [] {
      assert sq + [e] == [e] && [e][1..] == [];
      assert SqToks(e.Send?, [], x) == 0;
    } else {
      SqAppend(sq[0].Send?, sq[1..], e, x);
      assert (sq + [e])[0] == sq[0] && (sq + [e])[1..] == sq[1..] + [e];
    }
  }

  lemma SqPop(sq: seq<Sqe>, x: Token)
    requires sq != []
    ensures SqToks(false, sq, x) == SqeToks(false, sq[0], x) + SqToks(sq[0].Send?, sq[1..], x)
  {
  }

  lemma SqPopSend(sq: seq<Sqe>, x: Token)
    requires sq != [] && sq[0].Close?
    ensures SqToks(false, sq, x) == SqToks(true, sq, x) + One(DescTok(sq[0].desc, sq[0].conn, Done), x)
  {
  }

  lemma {:induction false} SqHas(p: bool, sq: seq<Sqe>, i: nat, x: Token)
    requires i < |sq|
    ensures SqeToks(if i == 0 then p else sq[i - 1].Send?, sq[i], x) <= SqToks(p, sq, x)
    decreases |sq|
  {
    if i > 0 {
      SqHas(sq[0].Send?, sq[1..], i - 1, x);
    }
  }

  /** How many times token x is in somebody's hands. */
  function Held(s: State, x: Token): nat {
    SqToks(false, s.w.sq, x) + Sum(CqeToks, s.k.cq, x) + Sum(PendingToks, s.k.pending, x)
    + Sum(StandingToks, s.k.standing, x) + Sum(LeakToks, s.k.leaked, x) + Sum(FreeToks, s.w.free, x)
  }

  /** How many times it must exist. */
  function Due(s: State, x: Token): nat {
    match x
    case AcceptTok => 1
    case RecTok(r) => if r in s.w.recs then 1 else 0
    case DescTok(d, c, st) =>
      if d in s.k.open && s.k.open[d] == c && StageOf(s.w.cfg.replyCap, s.k.log, c) == st then 1 else 0
  }

  predicate Injective(open: map<Desc, ConnId>) {
    forall d, e :: d in open && e in open && open[d] == open[e] ==> d == e
  }
}
