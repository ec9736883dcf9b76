/**
 The invariant of every run of a worker and the proof that each step keeps it.
 */
module Safety {
  import opened Basics
  import opened Ring
  import opened Engine
  import opened System
  import opened Tokens

  ghost predicate Balanced(s: State) {
    forall x: Token :: Held(s, x) == Due(s, x)
  }

  /** Record r belongs to a recv on descriptor d for connection c. */
  predicate Agrees(w: Worker, r: Addr, d: Desc, c: ConnId) {
    && r in w.recs
    && w.recs[r].state == StRecv
    && d == Desc(w.cfg.direct, w.recs[r].fd)
    && c == w.recs[r].conn
  }

  predicate SqeOk(w: Worker, e: Sqe) {
    match e
    case Accept(direct, multishot) => direct == w.cfg.direct && multishot == w.cfg.multishot
    case Recv(r, d, len, c) => Agrees(w, r, d, c) && len == w.cfg.recvBuf
    case Send(_, len, _) => len <= w.cfg.replyCap
    case Close(_, _) => true
  }

  /** A completion names a record that is set up for it, and the request bytes it
      announces are in that record's buffer. */
  predicate CqeOk(w: Worker, e: Cqe) {
    match e.data
    case Null => true
    case Marker => e.desc == Desc(w.cfg.direct, e.res)
    case Ref(r) =>
      && Agrees(w, r, e.desc, e.conn)
      && (e.res > 0 ==> |e.payload| == e.res && Prefix(w.recs[r].buf, e.res) == e.payload)
  }

  predicate PendingOk(w: Worker, p: Pending) {
    Agrees(w, p.rec, p.desc, p.conn) && p.len == w.cfg.recvBuf
  }

  ghost predicate EntriesOk(s: State) {
    && (forall e :: e in s.w.sq ==> SqeOk(s.w, e))
    && (forall e :: e in s.k.cq ==> CqeOk(s.w, e))
    && (forall e :: e in s.k.standing ==> e.Accept? && SqeOk(s.w, e))
    && (forall p :: p in s.k.pending ==> PendingOk(s.w, p))
  }

  /** Every queued send has its close right behind it. */
  predicate Paired(sq: seq<Sqe>) {
    forall i :: 0 <= i < |sq| && sq[i].Send? ==>
      i + 1 < |sq| && sq[i + 1] == Close(sq[i].desc, sq[i].conn)
  }

  /** Two entries per completion, and a drain starts on an empty queue. */
  predicate Room(s: State) {
    && s.w.starved == 0
    && s.w.acts == []
    && |s.w.sq| + (if s.pc.Draining? then 2 * s.pc.left else 0) <= 2 * CQE_BATCH
  }

  predicate Sizes(s: State) {
    && |s.w.scratch| == s.w.cfg.replyCap
    && (forall r :: r in s.w.recs ==> |s.w.recs[r].buf| == s.w.cfg.recvBuf)
    && (s.pc.Draining? ==> s.pc.left <= |s.k.cq|)
  }

  ghost predicate TableOk(s: State) {
    && Injective(s.k.open)
    && (forall d :: d in s.k.open ==> d.fixed == s.w.cfg.direct && s.k.open[d] < s.k.next)
    && (forall c: ConnId :: c >= s.k.next ==> StageOf(s.w.cfg.replyCap, s.k.log, c) == Unborn)
    && (forall c: ConnId :: c < s.k.next && c !in s.k.open.Values ==>
          StageOf(s.w.cfg.replyCap, s.k.log, c) == Shut)
    && (forall i :: 0 <= i < |s.k.log| ==> !s.k.log[i].Stray?)
  }

  ghost predicate Inv(s: State) {
    && Balanced(s)
    && EntriesOk(s)
    && Paired(s.w.sq)
    && Room(s)
    && Sizes(s)
    && TableOk(s)
  }

  // ---- what a token in somebody's hands means

  lemma DescMeans(s: State, d: Desc, c: ConnId, st: Stage)
    requires Balanced(s) && Held(s, DescTok(d, c, st)) > 0
    ensures d in s.k.open && s.k.open[d] == c
    ensures StageOf(s.w.cfg.replyCap, s.k.log, c) == st
  {
    assert Due(s, DescTok(d, c, st)) > 0;
  }

  lemma RecOnce(s: State, r: Addr)
    requires Balanced(s)
    ensures Held(s, RecTok(r)) == if r in s.w.recs then 1 else 0
  {
    assert Held(s, RecTok(r)) == Due(s, RecTok(r));
  }

  lemma ValuesWithout(m: map<Desc, ConnId>, d: Desc)
    requires d in m
    ensures m.Values <= (m - {d}).Values + {m[d]}
  {
    forall c | c in m.Values && c != m[d] ensures c in (m - {d}).Values {
      var x :| x in m && m[x] == c;
      assert (m - {d})[x] == c;
    }
  }

  lemma ValuesWith(m: map<Desc, ConnId>, d: Desc, c: ConnId)
    requires d !in m
    ensures m[d := c].Values == m.Values + {c}
  {
    var n := m[d := c];
    assert n[d] == c;
    forall v | v in m.Values ensures v in n.Values {
      var x :| x in m && m[x] == v;
      assert n[x] == v;
    }
  }

  // ---- the table when one connection's stage advances, or it opens or closes

  lemma TableAdvance(s: State, t: State, d: Desc, e: Event)
    requires TableOk(s) && d in s.k.open && About(e, s.k.open[d])
    requires t.w.cfg == s.w.cfg && t.k.open == s.k.open && t.k.next == s.k.next && t.k.log == s.k.log + [e]
    ensures TableOk(t)
  {
    var cap := s.w.cfg.replyCap;
    forall c: ConnId | c != s.k.open[d]
      ensures StageOf(cap, t.k.log, c) == StageOf(cap, s.k.log, c)
    {
      StageAppend(cap, s.k.log, e, c);
    }
    assert s.k.open[d] in s.k.open.Values;
  }

  lemma TableClose(s: State, t: State, d: Desc)
    requires TableOk(s) && d in s.k.open
    requires StageOf(s.w.cfg.replyCap, s.k.log, s.k.open[d]) in {Done, Fresh}
    requires t.w.cfg == s.w.cfg && t.k.open == s.k.open - {d} && t.k.next == s.k.next
    requires t.k.log == s.k.log + [Closed(s.k.open[d], s.k.open[d])]
    ensures TableOk(t)
  {
    var cap := s.w.cfg.replyCap;
    var e := Closed(s.k.open[d], s.k.open[d]);
    forall c: ConnId
      ensures StageOf(cap, t.k.log, c) == if c == s.k.open[d] then Shut else StageOf(cap, s.k.log, c)
    {
      StageAppend(cap, s.k.log, e, c);
    }
    forall c: ConnId | c < t.k.next && c !in t.k.open.Values
      ensures StageOf(cap, t.k.log, c) == Shut
    {
      ValuesWithout(s.k.open, d);
    }
  }

  lemma TableAccept(s: State, t: State, d: Desc)
    requires TableOk(s) && d !in s.k.open && d.fixed == s.w.cfg.direct
    requires t.w.cfg == s.w.cfg && t.k.open == s.k.open[d := s.k.next] && t.k.next == s.k.next + 1
    requires t.k.log == s.k.log + [Accepted(s.k.next)]
    ensures TableOk(t)
  {
    var cap := s.w.cfg.replyCap;
    forall c: ConnId | c != s.k.next
      ensures StageOf(cap, t.k.log, c) == StageOf(cap, s.k.log, c)
    {
      StageAppend(cap, s.k.log, Accepted(s.k.next), c);
    }
    assert t.k.open[d] == s.k.next;
    forall c: ConnId | c < t.k.next && c !in t.k.open.Values
      ensures c != s.k.next && c !in s.k.open.Values
    {
      ValuesWith(s.k.open, d, s.k.next);
    }
  }

  lemma TableFrame(s: State, t: State)
    requires TableOk(s)
    requires t.w.cfg == s.w.cfg && t.k.open == s.k.open && t.k.next == s.k.next && t.k.log == s.k.log
    ensures TableOk(t)
  {
  }

  // ---- the entries when a queue changes

  /** Entries that were there before stay good while the records do not change. */
  lemma EntriesFrame(s: State, t: State)
    requires EntriesOk(s) && t.w.cfg == s.w.cfg && t.w.recs == s.w.recs
    requires forall e :: e in t.w.sq ==> e in s.w.sq || SqeOk(s.w, e)
    requires forall e :: e in t.k.cq ==> e in s.k.cq || CqeOk(s.w, e)
    requires forall e :: e in t.k.standing ==> e in s.k.standing || (e.Accept? && SqeOk(s.w, e))
    requires forall p :: p in t.k.pending ==> p in s.k.pending || PendingOk(s.w, p)
    ensures EntriesOk(t)
  {
  }

  lemma PairedPop(sq: seq<Sqe>)
    requires Paired(sq) && sq != []
    ensures Paired(sq[1..])
  {
  }

  lemma PairedAppend(sq: seq<Sqe>, e: Sqe)
    requires Paired(sq) && !e.Send?
    ensures Paired(sq + [e]) && !EndsInSend(false, sq)
  {
  }

  lemma PairedReply(sq: seq<Sqe>, d: Desc, len: nat, c: ConnId)
    requires Paired(sq)
    ensures Paired(sq + [Send(d, len, c), Close(d, c)]) && !EndsInSend(false, sq)
  {
  }

  // ---- the kernel issues the first entry

  lemma IssueAccept(s: State, t: State)
    requires Inv(s) && s.w.sq != [] && s.w.sq[0].Accept?
    requires t == s.(w := s.w.(sq := s.w.sq[1..]), k := s.k.(standing := s.k.standing + [s.w.sq[0]]))
    ensures Inv(t)
  {
    forall x: Token ensures Held(t, x) == Due(t, x) {
      SumAppend(StandingToks, s.k.standing, s.w.sq[0], x);
      SqPop(s.w.sq, x);
      assert Held(s, x) == Due(s, x);
    }
    EntriesFrame(s, t);
    TableFrame(s, t);
    PairedPop(s.w.sq);
  }

  /** One connection moves from one stage to the next, in the hands of its holder and
      in the history alike. */
  lemma Settle(s: State, t: State, d: Desc, e: Event, st: Stage, st1: Stage)
    requires Balanced(s) && Injective(s.k.open) && d in s.k.open && About(e, s.k.open[d])
    requires t.w.cfg == s.w.cfg && t.w.recs.Keys == s.w.recs.Keys
    requires t.k.open == s.k.open && t.k.log == s.k.log + [e]
    requires StageOf(s.w.cfg.replyCap, s.k.log, s.k.open[d]) == st && Advance(s.w.cfg.replyCap, st, e) == st1
    requires forall x: Token :: Held(t, x) + One(DescTok(d, s.k.open[d], st), x)
                             == Held(s, x) + One(DescTok(d, s.k.open[d], st1), x)
    ensures Balanced(t)
  {
    forall x: Token ensures Held(t, x) == Due(t, x) {
      assert Held(s, x) == Due(s, x);
      if x.DescTok? { StageAppend(s.w.cfg.replyCap, s.k.log, e, x.conn); }
    }
  }

  /** A descriptor is released together with the only token that names it. */
  lemma Release(s: State, t: State, d: Desc, e: Event, st: Stage)
    requires Balanced(s) && Injective(s.k.open) && d in s.k.open && About(e, s.k.open[d])
    requires t.w.cfg == s.w.cfg && t.w.recs.Keys == s.w.recs.Keys
    requires t.k.open == s.k.open - {d} && t.k.log == s.k.log + [e]
    requires StageOf(s.w.cfg.replyCap, s.k.log, s.k.open[d]) == st
    requires forall x: Token :: Held(t, x) + One(DescTok(d, s.k.open[d], st), x) == Held(s, x)
    ensures Balanced(t)
  {
    forall x: Token ensures Held(t, x) == Due(t, x) {
      assert Held(s, x) == Due(s, x);
      if x.DescTok? { StageAppend(s.w.cfg.replyCap, s.k.log, e, x.conn); }
    }
  }

  lemma RecvBalance(s: State, t: State, r: Addr, d: Desc, len: nat, c: ConnId)
    requires Balanced(s) && Injective(s.k.open) && s.w.sq != [] && s.w.sq[0] == Recv(r, d, len, c)
    requires d in s.k.open && s.k.open[d] == c && StageOf(s.w.cfg.replyCap, s.k.log, c) == Fresh
    requires t == s.(w := s.w.(sq := s.w.sq[1..]),
                     k := s.k.(pending := s.k.pending + [Pending(r, d, len, c)],
                               log := s.k.log + [RecvIssued(c, c)]))
    ensures Balanced(t)
  {
    forall x: Token
      ensures Held(t, x) + One(DescTok(d, c, Fresh), x) == Held(s, x) + One(DescTok(d, c, Waiting), x)
    {
      SumAppend(PendingToks, s.k.pending, Pending(r, d, len, c), x);
      SqPop(s.w.sq, x);
    }
    Settle(s, t, d, RecvIssued(c, c), Fresh, Waiting);
  }

  lemma IssueRecv(s: State, t: State, r: Addr, d: Desc, len: nat, c: ConnId)
    requires Inv(s) && s.w.sq != [] && s.w.sq[0] == Recv(r, d, len, c)
    requires t == s.(w := s.w.(sq := s.w.sq[1..]), k := IssueSqe(s.k, s.w.scratch, s.w.sq[0]))
    ensures Inv(t)
  {
    assert Held(s, DescTok(d, c, Fresh)) > 0 by { SqHas(false, s.w.sq, 0, DescTok(d, c, Fresh)); }
    DescMeans(s, d, c, Fresh);
    RecvBalance(s, t, r, d, len, c);
    assert SqeOk(s.w, s.w.sq[0]);
    EntriesFrame(s, t);
    TableAdvance(s, t, d, RecvIssued(c, c));
    PairedPop(s.w.sq);
  }

  lemma SendBalance(s: State, t: State, d: Desc, len: nat, c: ConnId, e: Event)
    requires Balanced(s) && Injective(s.k.open) && |s.w.sq| > 1
    requires s.w.sq[0] == Send(d, len, c) && s.w.sq[1] == Close(d, c)
    requires d in s.k.open && s.k.open[d] == c && StageOf(s.w.cfg.replyCap, s.k.log, c) == Owing(len)
    requires e.Sent? && e.conn == e.intended == c && |e.bytes| == len
    requires t == s.(w := s.w.(sq := s.w.sq[1..]), k := s.k.(log := s.k.log + [e]))
    ensures Balanced(t)
  {
    forall x: Token
      ensures Held(t, x) + One(DescTok(d, c, Owing(len)), x) == Held(s, x) + One(DescTok(d, c, Done), x)
    {
      SqPop(s.w.sq, x);
      SqPopSend(s.w.sq[1..], x);
    }
    Settle(s, t, d, e, Owing(len), Done);
  }

  lemma IssueSend(s: State, t: State, d: Desc, len: nat, c: ConnId)
    requires Inv(s) && s.w.sq != [] && s.w.sq[0] == Send(d, len, c)
    requires t == s.(w := s.w.(sq := s.w.sq[1..]), k := IssueSqe(s.k, s.w.scratch, s.w.sq[0]))
    ensures Inv(t)
  {
    assert Held(s, DescTok(d, c, Owing(len))) > 0 by { SqHas(false, s.w.sq, 0, DescTok(d, c, Owing(len))); }
    DescMeans(s, d, c, Owing(len));
    assert SqeOk(s.w, s.w.sq[0]);
    var e := Sent(c, c, Prefix(s.w.scratch, len));
    SendBalance(s, t, d, len, c, e);
    EntriesFrame(s, t);
    TableAdvance(s, t, d, e);
    PairedPop(s.w.sq);
  }

  lemma CloseBalance(s: State, t: State, d: Desc, c: ConnId)
    requires Balanced(s) && Injective(s.k.open) && s.w.sq != [] && s.w.sq[0] == Close(d, c)
    requires d in s.k.open && s.k.open[d] == c && StageOf(s.w.cfg.replyCap, s.k.log, c) == Done
    requires t == s.(w := s.w.(sq := s.w.sq[1..]),
                     k := s.k.(open := s.k.open - {d}, log := s.k.log + [Closed(c, c)]))
    ensures Balanced(t)
  {
    forall x: Token ensures Held(t, x) + One(DescTok(d, c, Done), x) == Held(s, x) {
      SqPop(s.w.sq, x);
    }
    Release(s, t, d, Closed(c, c), Done);
  }

  lemma IssueClose(s: State, t: State, d: Desc, c: ConnId)
    requires Inv(s) && s.w.sq != [] && s.w.sq[0] == Close(d, c)
    requires t == s.(w := s.w.(sq := s.w.sq[1..]), k := IssueSqe(s.k, s.w.scratch, s.w.sq[0]))
    ensures Inv(t)
  {
    assert Held(s, DescTok(d, c, Done)) > 0 by { SqHas(false, s.w.sq, 0, DescTok(d, c, Done)); }
    DescMeans(s, d, c, Done);
    CloseBalance(s, t, d, c);
    EntriesFrame(s, t);
    TableClose(s, t, d);
    PairedPop(s.w.sq);
  }

  lemma StepIssue(s: State)
    requires Inv(s) && Enabled(s, KIssue)
    ensures Inv(Do(s, KIssue))
  {
    var t := Do(s, KIssue);
    match s.w.sq[0]
    case Accept(_, _) => IssueAccept(s, t);
    case Recv(r, d, len, c) => IssueRecv(s, t, r, d, len, c);
    case Send(d, len, c) => IssueSend(s, t, d, len, c);
    case Close(d, c) => IssueClose(s, t, d, c);
  }

  // ---- the kernel posts a completion

  lemma AcceptHeld(s: State, t: State, i: nat, res: int, more: bool)
    requires i < |s.k.standing| && s.k.standing[i].Accept?
    requires t == s.(k := DoAccept(s.k, i, res, more))
    ensures forall x :: Held(t, x) == Held(s, x)
              + if res >= 0 then One(DescTok(Desc(s.k.standing[i].direct, res), s.k.next, Fresh), x) else 0
  {
    var e := Cqe(Marker, res, more, s.k.next, Desc(s.k.standing[i].direct, res), []);
    forall x: Token
      ensures Held(t, x) == Held(s, x) + if res >= 0 then One(DescTok(e.desc, s.k.next, Fresh), x) else 0
    {
      SumAppend(CqeToks, s.k.cq, e, x);
      SumWithout(StandingToks, s.k.standing, i, x);
    }
  }

  lemma AcceptBalance(s: State, t: State, i: nat, res: int, more: bool)
    requires Balanced(s) && TableOk(s) && i < |s.k.standing| && s.k.standing[i].Accept?
    requires res >= 0 ==> Desc(s.k.standing[i].direct, res) !in s.k.open
    requires t == s.(k := DoAccept(s.k, i, res, more))
    ensures Balanced(t)
  {
    AcceptHeld(s, t, i, res, more);
    var d := Desc(s.k.standing[i].direct, res);
    forall x: Token ensures Held(t, x) == Due(t, x) {
      assert Held(s, x) == Due(s, x);
      if x.DescTok? { StageAppend(s.w.cfg.replyCap, s.k.log, Accepted(s.k.next), x.conn); }
    }
  }

  lemma StepAccept(s: State, i: nat, res: int, more: bool)
    requires Inv(s) && Enabled(s, KAccept(i, res, more))
    ensures Inv(Do(s, KAccept(i, res, more)))
  {
    var t := s.(k := DoAccept(s.k, i, res, more));
    AcceptBalance(s, t, i, res, more);
    assert s.k.standing[i] in s.k.standing;
    EntriesFrame(s, t);
    if res >= 0 {
      TableAccept(s, t, Desc(s.k.standing[i].direct, res));
    } else {
      TableFrame(s, t);
    }
  }

  lemma PostHeld(s: State, t: State, i: nat, e: Cqe, x: Token)
    requires i < |s.k.pending|
    requires t.w.sq == s.w.sq && t.w.free == s.w.free && t.k.standing == s.k.standing && t.k.leaked == s.k.leaked
    requires t.k.pending == Without(s.k.pending, i) && t.k.cq == s.k.cq + [e]
    ensures Held(t, x) + PendingToks(s.k.pending[i], x) == Held(s, x) + CqeToks(e, x)
  {
    SumAppend(CqeToks, s.k.cq, e, x);
    SumWithout(PendingToks, s.k.pending, i, x);
  }

  lemma PostBalance(s: State, t: State, i: nat, res: int, payload: Bytes)
    requires Balanced(s) && Injective(s.k.open) && i < |s.k.pending| && |payload| == Max(res, 0)
    requires var p := s.k.pending[i];
             p.desc in s.k.open && s.k.open[p.desc] == p.conn
             && StageOf(s.w.cfg.replyCap, s.k.log, p.conn) == Waiting
    requires t.w.cfg == s.w.cfg && t.w.recs.Keys == s.w.recs.Keys && t.w.sq == s.w.sq && t.w.free == s.w.free
    requires t.k == DoRecv(s, i, res, payload).k
    ensures Balanced(t)
  {
    var p := s.k.pending[i];
    var e := Cqe(Ref(p.rec), res, false, p.conn, p.desc, payload);
    forall x: Token
      ensures Held(t, x) + One(DescTok(p.desc, p.conn, Waiting), x)
           == Held(s, x) + One(DescTok(p.desc, p.conn, if res <= 0 then Done else Got(payload)), x)
    {
      PostHeld(s, t, i, e, x);
    }
    Settle(s, t, p.desc, Received(p.conn, res, payload), Waiting, if res <= 0 then Done else Got(payload));
  }

  /** No completion names the record of a recv that is still in flight. */
  lemma PendingAlone(s: State, i: nat, e: Cqe)
    requires Balanced(s) && i < |s.k.pending| && e in s.k.cq
    ensures e.data != Ref(s.k.pending[i].rec)
  {
    var r := s.k.pending[i].rec;
    RecOnce(s, r);
    SumHas(CqeToks, s.k.cq, e, RecTok(r));
    SumHas(PendingToks, s.k.pending, s.k.pending[i], RecTok(r));
  }

  lemma PostEntries(s: State, t: State, i: nat, res: int, payload: Bytes)
    requires Balanced(s) && EntriesOk(s) && Sizes(s) && i < |s.k.pending| && |payload| == Max(res, 0)
    requires |payload| <= s.k.pending[i].len
    requires t == DoRecv(s, i, res, payload)
    ensures EntriesOk(t)
  {
    var p := s.k.pending[i];
    assert PendingOk(s.w, p);
    forall e | e in s.k.cq ensures CqeOk(t.w, e) {
      assert CqeOk(s.w, e);
      PendingAlone(s, i, e);
    }
    forall e | e in s.w.sq ensures SqeOk(t.w, e) { assert SqeOk(s.w, e); }
    forall q | q in s.k.pending ensures PendingOk(t.w, q) { assert PendingOk(s.w, q); }
    forall q | q in t.k.pending ensures q in s.k.pending {}
  }

  lemma StepRecv(s: State, i: nat, res: int, payload: Bytes)
    requires Inv(s) && Enabled(s, KRecv(i, res, payload))
    ensures Inv(Do(s, KRecv(i, res, payload)))
  {
    var t := DoRecv(s, i, res, payload);
    var p := s.k.pending[i];
    assert PendingOk(s.w, p);
    assert Held(s, DescTok(p.desc, p.conn, Waiting)) > 0 by {
      SumHas(PendingToks, s.k.pending, p, DescTok(p.desc, p.conn, Waiting));
    }
    DescMeans(s, p.desc, p.conn, Waiting);
    PostBalance(s, t, i, res, payload);
    PostEntries(s, t, i, res, payload);
    TableAdvance(s, t, p.desc, Received(p.conn, res, payload));
  }

  lemma StepFail(s: State, res: int)
    requires Inv(s) && Enabled(s, KFail(res))
    ensures Inv(Do(s, KFail(res)))
  {
    var e := Cqe(Null, res, false, 0, Desc(false, 0), []);
    var t := s.(k := s.k.(cq := s.k.cq + [e]));
    forall x: Token ensures Held(t, x) == Due(t, x) {
      SumAppend(CqeToks, s.k.cq, e, x);
      assert Held(s, x) == Due(s, x);
    }
    EntriesFrame(s, t);
    TableFrame(s, t);
  }
}
