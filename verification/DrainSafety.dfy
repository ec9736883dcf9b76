/**
 Draining one completion keeps the invariant, for every completion the kernel can have
 posted, every handler result and every outcome of malloc.
 */
module DrainSafety {
  import opened Basics
  import opened Ring
  import opened Engine
  import opened System
  import opened Tokens
  import opened Safety

  /** No request or completion names record r. */
  ghost predicate Unnamed(s: State, r: Addr) {
    && (forall e :: e in s.w.sq ==> !(e.Recv? && e.rec == r))
    && (forall e :: e in s.k.cq ==> e.data != Ref(r))
    && (forall p :: p in s.k.pending ==> p.rec != r)
  }

  lemma FreeUnnamed(s: State, r: Addr)
    requires Balanced(s) && r in s.w.free
    ensures Unnamed(s, r) && r in s.w.recs
  {
    RecOnce(s, r);
    SumHas(FreeToks, s.w.free, r, RecTok(r));
    forall e | e in s.w.sq ensures !(e.Recv? && e.rec == r) {
      var i :| 0 <= i < |s.w.sq| && s.w.sq[i] == e;
      SqHas(false, s.w.sq, i, RecTok(r));
    }
    forall e | e in s.k.cq ensures e.data != Ref(r) {
      SumHas(CqeToks, s.k.cq, e, RecTok(r));
    }
    forall p | p in s.k.pending ensures p.rec != r {
      SumHas(PendingToks, s.k.pending, p, RecTok(r));
    }
  }

  lemma FreshUnnamed(s: State, r: Addr)
    requires EntriesOk(s) && r !in s.w.recs
    ensures Unnamed(s, r)
  {
    forall e | e in s.w.sq ensures !(e.Recv? && e.rec == r) { assert SqeOk(s.w, e); }
    forall e | e in s.k.cq ensures e.data != Ref(r) { assert CqeOk(s.w, e); }
    forall p | p in s.k.pending ensures p.rec != r { assert PendingOk(s.w, p); }
  }

  /** A record nobody names may be overwritten. */
  lemma EntriesSetup(s: State, t: State, r: Addr)
    requires EntriesOk(s) && Unnamed(s, r) && t.w.cfg == s.w.cfg
    requires r in t.w.recs && t.w.recs == s.w.recs[r := t.w.recs[r]]
    requires forall e :: e in t.w.sq ==> e in s.w.sq || SqeOk(t.w, e)
    requires forall e :: e in t.k.cq ==> e in s.k.cq
    requires t.k.standing == s.k.standing && t.k.pending == s.k.pending
    ensures EntriesOk(t)
  {
    forall e | e in t.w.sq ensures SqeOk(t.w, e) { assert e in s.w.sq ==> SqeOk(s.w, e); }
    forall e | e in t.k.cq ensures CqeOk(t.w, e) { assert CqeOk(s.w, e); }
    forall e | e in t.k.standing ensures e.Accept? && SqeOk(t.w, e) { assert SqeOk(s.w, e); }
    forall p | p in t.k.pending ensures PendingOk(t.w, p) { assert PendingOk(s.w, p); }
  }

  // ---- accept completions

  /** The queue after the re-arm. */
  function Armed(w: Worker, e: Cqe): seq<Sqe> {
    if e.more then w.sq else w.sq + [Accept(w.cfg.direct, w.cfg.multishot)]
  }

  lemma ArmedToks(w: Worker, e: Cqe, x: Token)
    ensures SqToks(false, Armed(w, e), x) == SqToks(false, w.sq, x) + if e.more then 0 else One(AcceptTok, x)
  {
    SqAppend(false, w.sq, Accept(w.cfg.direct, w.cfg.multishot), x);
  }

  ghost predicate AtAccept(s: State, env: Env, e: Cqe) {
    && Inv(s) && Enabled(s, Drain(env)) && e == s.k.cq[0] && e.data == Marker
  }

  lemma ArmedOk(s: State, env: Env, e: Cqe)
    requires AtAccept(s, env, e)
    ensures Paired(Armed(s.w, e)) && |Armed(s.w, e)| <= |s.w.sq| + 1
    ensures forall q :: q in Armed(s.w, e) ==> q in s.w.sq || SqeOk(s.w, q)
    ensures |s.w.sq| + 2 < QUEUE_DEPTH && CqeOk(s.w, e)
  {
    PairedAppend(s.w.sq, Accept(s.w.cfg.direct, s.w.cfg.multishot));
    assert e in s.k.cq;
  }

  lemma AcceptError(s: State, env: Env, e: Cqe)
    requires AtAccept(s, env, e) && e.res < 0
    ensures Inv(DoDrain(s, env))
  {
    ArmedOk(s, env, e);
    var t := s.(w := s.w.(sq := Armed(s.w, e)), pc := Draining(s.pc.left - 1), k := s.k.(cq := s.k.cq[1..]));
    assert DoDrain(s, env) == t;
    forall x: Token ensures Held(t, x) == Due(t, x) {
      ArmedToks(s.w, e, x);
      assert Held(s, x) == Due(s, x);
    }
    EntriesFrame(s, t);
    TableFrame(s, t);
  }

  /** malloc failed: a plain fd is closed on the spot, a registered slot leaks. */
  lemma AcceptDropped(s: State, env: Env, e: Cqe)
    requires AtAccept(s, env, e) && e.res >= 0 && s.w.free == [] && env.block.None?
    ensures Inv(DoDrain(s, env))
    ensures s.w.cfg.direct ==> DoDrain(s, env).k.leaked == s.k.leaked + [(e.desc, e.conn)]
    ensures !s.w.cfg.direct ==> DoDrain(s, env).k.leaked == s.k.leaked
  {
    ArmedOk(s, env, e);
    var d, c := e.desc, e.conn;
    assert Held(s, DescTok(d, c, Fresh)) > 0 by { SumHas(CqeToks, s.k.cq, e, DescTok(d, c, Fresh)); }
    DescMeans(s, d, c, Fresh);
    var t := s.(w := s.w.(sq := Armed(s.w, e)), pc := Draining(s.pc.left - 1),
                k := if s.w.cfg.direct
                     then s.k.(cq := s.k.cq[1..], leaked := s.k.leaked + [(d, c)])
                     else s.k.(cq := s.k.cq[1..], open := s.k.open - {d}, log := s.k.log + [Closed(c, c)]));
    DroppedShape(s, env, e, t);
    DroppedBalance(s, e, t);
    EntriesFrame(s, t);
    if s.w.cfg.direct { TableFrame(s, t); } else { TableClose(s, t, d); }
  }

  lemma DroppedShape(s: State, env: Env, e: Cqe, t: State)
    requires AtAccept(s, env, e) && e.res >= 0 && s.w.free == [] && env.block.None?
    requires |s.w.sq| + 2 < QUEUE_DEPTH && CqeOk(s.w, e)
    requires e.desc in s.k.open && s.k.open[e.desc] == e.conn
    requires t == s.(w := s.w.(sq := Armed(s.w, e)), pc := Draining(s.pc.left - 1),
                     k := if s.w.cfg.direct
                          then s.k.(cq := s.k.cq[1..], leaked := s.k.leaked + [(e.desc, e.conn)])
                          else s.k.(cq := s.k.cq[1..], open := s.k.open - {e.desc},
                                    log := s.k.log + [Closed(e.conn, e.conn)]))
    ensures DoDrain(s, env) == t
  {
    var act := if s.w.cfg.direct then Leak(e.desc, e.conn) else SyncClose(e.desc, e.conn);
    var w1 := DrainOne(s.w, e, env);
    assert w1.acts == [act];
    var k1 := s.k.(cq := s.k.cq[1..]);
    assert ApplyAll(k1, w1.scratch, [act]) == Apply(k1, w1.scratch, act);
  }

  lemma DroppedBalance(s: State, e: Cqe, t: State)
    requires Balanced(s) && Injective(s.k.open) && s.k.cq != [] && e == s.k.cq[0] && e.data == Marker && e.res >= 0
    requires e.desc in s.k.open && s.k.open[e.desc] == e.conn
    requires StageOf(s.w.cfg.replyCap, s.k.log, e.conn) == Fresh
    requires t.w == s.w.(sq := Armed(s.w, e))
    requires t.k == if s.w.cfg.direct
                    then s.k.(cq := s.k.cq[1..], leaked := s.k.leaked + [(e.desc, e.conn)])
                    else s.k.(cq := s.k.cq[1..], open := s.k.open - {e.desc},
                              log := s.k.log + [Closed(e.conn, e.conn)])
    ensures Balanced(t)
  {
    forall x: Token
      ensures Held(t, x) == Held(s, x) - if s.w.cfg.direct then 0 else One(DescTok(e.desc, e.conn, Fresh), x)
    {
      ArmedToks(s.w, e, x);
      SumAppend(LeakToks, s.k.leaked, (e.desc, e.conn), x);
    }
    if s.w.cfg.direct {
      forall x: Token ensures Held(t, x) == Due(t, x) { assert Held(s, x) == Due(s, x); }
    } else {
      Release(s, t, e.desc, Closed(e.conn, e.conn), Fresh);
    }
  }

  /** Record r, fresh or from the freelist, takes the connection over. */
  ghost predicate Adopts(s: State, e: Cqe, t: State, r: Addr) {
    && s.k.cq != [] && r in t.w.recs
    && t == s.(w := s.w.(sq := Armed(s.w, e) + [Recv(r, e.desc, s.w.cfg.recvBuf, e.conn)],
                         free := t.w.free, recs := s.w.recs[r := t.w.recs[r]]),
               pc := t.pc, k := s.k.(cq := s.k.cq[1..]))
    && t.w.recs[r].state == StRecv && t.w.recs[r].fd == e.res && t.w.recs[r].conn == e.conn
    && |t.w.recs[r].buf| == s.w.cfg.recvBuf
    && if s.w.free != [] then r == s.w.free[0] && t.w.free == s.w.free[1..]
       else r !in s.w.recs && t.w.free == []
  }

  lemma AdoptBalance(s: State, e: Cqe, t: State, r: Addr)
    requires Balanced(s) && s.k.cq != [] && e == s.k.cq[0] && e.data == Marker && e.res >= 0
    requires s.w.free != [] ==> s.w.free[0] in s.w.recs
    requires Adopts(s, e, t, r)
    ensures Balanced(t)
  {
    forall x: Token ensures Held(t, x) == Due(t, x) {
      ArmedToks(s.w, e, x);
      SqAppend(false, Armed(s.w, e), Recv(r, e.desc, s.w.cfg.recvBuf, e.conn), x);
      assert Held(s, x) == Due(s, x);
    }
  }

  lemma AdoptShape(s: State, env: Env, e: Cqe, r: Addr)
    requires AtAccept(s, env, e) && e.res >= 0 && |s.w.sq| + 2 < QUEUE_DEPTH && CqeOk(s.w, e)
    requires s.w.free != [] || env.block.Some?
    requires r == if s.w.free != [] then s.w.free[0] else env.block.value.0
    ensures Adopts(s, e, DoDrain(s, env), r) && DoDrain(s, env).pc == Draining(s.pc.left - 1)
  {
    var w1 := DrainOne(s.w, e, env);
    assert w1.acts == [];
  }

  lemma AcceptAdopted(s: State, env: Env, e: Cqe)
    requires AtAccept(s, env, e) && e.res >= 0 && (s.w.free != [] || env.block.Some?)
    ensures Inv(DoDrain(s, env))
  {
    ArmedOk(s, env, e);
    var r := if s.w.free != [] then s.w.free[0] else env.block.value.0;
    var t := DoDrain(s, env);
    AdoptShape(s, env, e, r);
    AdoptBalance(s, e, t, r);
    if s.w.free != [] { FreeUnnamed(s, r); } else { FreshUnnamed(s, r); }
    EntriesSetup(s, t, r);
    TableFrame(s, t);
    PairedAppend(Armed(s.w, e), Recv(r, e.desc, s.w.cfg.recvBuf, e.conn));
  }

  // ---- recv completions

  ghost predicate AtRecv(s: State, env: Env, e: Cqe) {
    && Inv(s) && Enabled(s, Drain(env)) && e == s.k.cq[0] && e.data.Ref?
  }

  /** The connection is on its way out: its record is back on the freelist and `tail`
      is queued. */
  function Retired(s: State, e: Cqe, tail: seq<Sqe>): State
    requires s.k.cq != [] && s.pc.Draining? && s.pc.left > 0 && e.data.Ref?
  {
    s.(w := s.w.(sq := s.w.sq + tail, free := [e.data.rec] + s.w.free),
       pc := Draining(s.pc.left - 1), k := s.k.(cq := s.k.cq[1..]))
  }

  lemma RecvShape(s: State, env: Env, e: Cqe)
    requires AtRecv(s, env, e)
    ensures CqeOk(s.w, e) && |s.w.sq| + 2 < QUEUE_DEPTH
    ensures DoDrain(s, env) ==
            if e.res <= 0 then Retired(s, e, [Close(e.desc, e.conn)])
            else
              var t := Retired(s, e, if env.rlen <= 0 then [Close(e.desc, e.conn)]
                                     else [Send(e.desc, Min(env.rlen, s.w.cfg.replyCap), e.conn),
                                           Close(e.desc, e.conn)]);
              t.(w := t.w.(scratch := env.reply),
                 k := t.k.(log := s.k.log + [Handled(e.conn, e.payload, env.rlen, env.reply)]))
  {
    assert e in s.k.cq;
    var w1 := DrainOne(s.w, e, env);
    var k1 := s.k.(cq := s.k.cq[1..]);
    if e.res > 0 {
      var act := Call(e.conn, e.payload, env.rlen, env.reply);
      assert w1.acts == [act];
      assert ApplyAll(k1, w1.scratch, [act]) == Apply(k1, w1.scratch, act);
      if env.rlen > 0 {
        var s1, c1 := Send(e.desc, Min(env.rlen, s.w.cfg.replyCap), e.conn), Close(e.desc, e.conn);
        assert (s.w.sq + [s1]) + [c1] == s.w.sq + [s1, c1];
      }
    }
  }

  lemma RetireCloseHeld(s: State, e: Cqe, t: State, x: Token)
    requires s.k.cq != [] && e == s.k.cq[0] && e.data.Ref? && Paired(s.w.sq)
    requires t.w.sq == s.w.sq + [Close(e.desc, e.conn)] && t.w.free == [e.data.rec] + s.w.free
    requires t.k.cq == s.k.cq[1..] && t.k.pending == s.k.pending && t.k.standing == s.k.standing
    requires t.k.leaked == s.k.leaked
    ensures Held(t, x) + One(DescTok(e.desc, e.conn, if e.res <= 0 then Done else Got(e.payload)), x)
         == Held(s, x) + One(DescTok(e.desc, e.conn, Done), x)
  {
    PairedAppend(s.w.sq, Close(e.desc, e.conn));
    SqAppend(false, s.w.sq, Close(e.desc, e.conn), x);
    assert t.w.free[1..] == s.w.free;
  }

  lemma RetireReplyHeld(s: State, e: Cqe, t: State, len: nat, x: Token)
    requires s.k.cq != [] && e == s.k.cq[0] && e.data.Ref? && e.res > 0
    requires t.w.sq == s.w.sq + [Send(e.desc, len, e.conn), Close(e.desc, e.conn)]
    requires t.w.free == [e.data.rec] + s.w.free
    requires t.k.cq == s.k.cq[1..] && t.k.pending == s.k.pending && t.k.standing == s.k.standing
    requires t.k.leaked == s.k.leaked
    ensures Held(t, x) + One(DescTok(e.desc, e.conn, Got(e.payload)), x)
         == Held(s, x) + One(DescTok(e.desc, e.conn, Owing(len)), x)
  {
    var q := s.w.sq + [Send(e.desc, len, e.conn)];
    SqAppend(false, s.w.sq, Send(e.desc, len, e.conn), x);
    SqAppend(false, q, Close(e.desc, e.conn), x);
    assert t.w.sq == q + [Close(e.desc, e.conn)];
    assert t.w.free[1..] == s.w.free;
  }

  lemma RecvFailed(s: State, env: Env, e: Cqe)
    requires AtRecv(s, env, e) && e.res <= 0
    ensures Inv(DoDrain(s, env))
  {
    RecvShape(s, env, e);
    var t := DoDrain(s, env);
    forall x: Token ensures Held(t, x) == Due(t, x) {
      RetireCloseHeld(s, e, t, x);
      assert Held(s, x) == Due(s, x);
    }
    EntriesFrame(s, t);
    TableFrame(s, t);
    PairedAppend(s.w.sq, Close(e.desc, e.conn));
  }

  lemma RecvDeclined(s: State, env: Env, e: Cqe)
    requires AtRecv(s, env, e) && e.res > 0 && env.rlen <= 0
    ensures Inv(DoDrain(s, env))
  {
    RecvShape(s, env, e);
    var t := DoDrain(s, env);
    var d, c, h := e.desc, e.conn, Handled(e.conn, e.payload, env.rlen, env.reply);
    assert Held(s, DescTok(d, c, Got(e.payload))) > 0 by {
      SumHas(CqeToks, s.k.cq, e, DescTok(d, c, Got(e.payload)));
    }
    DescMeans(s, d, c, Got(e.payload));
    forall x: Token
      ensures Held(t, x) + One(DescTok(d, c, Got(e.payload)), x) == Held(s, x) + One(DescTok(d, c, Done), x)
    {
      RetireCloseHeld(s, e, t, x);
    }
    Settle(s, t, d, h, Got(e.payload), Done);
    EntriesFrame(s, t);
    TableAdvance(s, t, d, h);
    PairedAppend(s.w.sq, Close(d, c));
  }

  lemma RecvReplied(s: State, env: Env, e: Cqe)
    requires AtRecv(s, env, e) && e.res > 0 && env.rlen > 0
    ensures Inv(DoDrain(s, env))
  {
    RecvShape(s, env, e);
    var t := DoDrain(s, env);
    var len := Min(env.rlen, s.w.cfg.replyCap);
    var d, c, h := e.desc, e.conn, Handled(e.conn, e.payload, env.rlen, env.reply);
    assert Held(s, DescTok(d, c, Got(e.payload))) > 0 by {
      SumHas(CqeToks, s.k.cq, e, DescTok(d, c, Got(e.payload)));
    }
    DescMeans(s, d, c, Got(e.payload));
    forall x: Token
      ensures Held(t, x) + One(DescTok(d, c, Got(e.payload)), x) == Held(s, x) + One(DescTok(d, c, Owing(len)), x)
    {
      RetireReplyHeld(s, e, t, len, x);
    }
    Settle(s, t, d, h, Got(e.payload), Owing(len));
    EntriesFrame(s, t);
    TableAdvance(s, t, d, h);
    PairedReply(s.w.sq, d, len, c);
  }

  lemma DrainNull(s: State, env: Env)
    requires Inv(s) && Enabled(s, Drain(env)) && s.k.cq[0].data.Null?
    ensures Inv(DoDrain(s, env))
  {
    var t := s.(pc := Draining(s.pc.left - 1), k := s.k.(cq := s.k.cq[1..]));
    assert DoDrain(s, env) == t;
    forall x: Token ensures Held(t, x) == Due(t, x) { assert Held(s, x) == Due(s, x); }
    EntriesFrame(s, t);
    TableFrame(s, t);
  }

  lemma StepDrain(s: State, env: Env)
    requires Inv(s) && Enabled(s, Drain(env))
    ensures Inv(DoDrain(s, env))
  {
    var e := s.k.cq[0];
    if e.data.Null? {
      DrainNull(s, env);
    } else if e.data.Marker? {
      if e.res < 0 {
        AcceptError(s, env, e);
      } else if s.w.free == [] && env.block.None? {
        AcceptDropped(s, env, e);
      } else {
        AcceptAdopted(s, env, e);
      }
    } else if e.res <= 0 {
      RecvFailed(s, env, e);
    } else if env.rlen <= 0 {
      RecvDeclined(s, env, e);
    } else {
      RecvReplied(s, env, e);
    }
  }
}
