/**
 The engine with multishot on, a 256-byte receive buffer and a handler that always
 answers the fixed 19 bytes does what the treatment server does: the same requests in
 the same order, and the same freelist, in either descriptor mode and also when the
 submission queue runs full.
 */
module Simulation {
  import opened Basics
  import opened Ring
  import E = Engine
  import T = Treatment

  /** The acts without the handler calls, which the treatment does not make. */
  function Erase(acts: seq<Act>): seq<Act> {
    if acts == [] then []
    else (if acts[0].Call? then [] else [acts[0]]) + Erase(acts[1..])
  }

  lemma {:induction false} EraseConcat(a: seq<Act>, b: seq<Act>)
    ensures Erase(a + b) == Erase(a) + Erase(b)
  {
    if a == [] {
      assert a + b == b;
    } else {
      EraseConcat(a[1..], b);
      assert (a + b)[0] == a[0] && (a + b)[1..] == a[1..] + b;
      var h := if a[0].Call? then [] else [a[0]];
      assert h + (Erase(a[1..]) + Erase(b)) == (h + Erase(a[1..])) + Erase(b);
    }
  }

  lemma {:induction false} EraseNone(a: seq<Act>)
    requires forall i :: 0 <= i < |a| ==> !a[i].Call?
    ensures Erase(a) == a
  {
    if a != [] {
      EraseNone(a[1..]);
      assert a == [a[0]] + a[1..];
    }
  }

  lemma EraseAppend(a: seq<Act>, b: seq<Act>)
    requires forall i :: 0 <= i < |b| ==> !b[i].Call?
    ensures Erase(a + b) == Erase(a) + b
  {
    EraseConcat(a, b);
    EraseNone(b);
  }

  /** Related workers; the record `but`, if any, is still being set up. */
  ghost predicate Near(w: E.Worker, t: T.Treat, but: Option<Addr>) {
    && w.cfg == Config(t.direct, true, T.READ_BUF_SZ, w.cfg.replyCap)
    && |w.scratch| == w.cfg.replyCap >= REPLY_LEN
    && w.free == t.free && w.sq == t.sq && w.starved == t.starved
    && Erase(w.acts) == t.acts
    && w.recs.Keys == t.recs.Keys
    && (forall r :: r in w.recs && (r !in w.free || but == Some(r)) ==>
          w.recs[r].fd == t.recs[r].fd && w.recs[r].conn == t.recs[r].conn)
    && (forall r :: r in w.recs && r !in w.free && but != Some(r) ==>
          w.recs[r].state == StRecv && t.recs[r].state == T.TRecv)
    && (forall e :: e in w.sq && e.Send? ==> e.len == REPLY_LEN && Prefix(w.scratch, REPLY_LEN) == REPLY)
  }

  /** Related workers: same queue, same freelist, same system calls, records in use that
      agree, and every queued send will take the treatment's reply from the scratch. */
  ghost predicate Sim(w: E.Worker, t: T.Treat) {
    Near(w, t, None)
  }

  lemma SimFlush(w: E.Worker, t: T.Treat, but: Option<Addr>, k: nat)
    requires Near(w, t, but)
    ensures Near(E.Flush(w, k), T.Flush(t, k), but)
  {
    EraseAppend(w.acts, E.Issues(w.sq[..Min(k, |w.sq|)]));
  }

  lemma SimGet(w: E.Worker, t: T.Treat, but: Option<Addr>, k: nat)
    requires Near(w, t, but)
    ensures Near(E.GetSqe(w, k).0, T.GetSqe(t, k).0, but) && E.GetSqe(w, k).1 == T.GetSqe(t, k).1
  {
    SimFlush(w, t, but, k);
  }

  lemma SimCloseNow(w: E.Worker, t: T.Treat, but: Option<Addr>, num: int, conn: ConnId)
    requires Near(w, t, but)
    ensures Near(E.CloseNow(w, Desc(w.cfg.direct, num), conn), T.CloseNow(t, num, conn), but)
  {
    EraseAppend(w.acts, [if t.direct then Leak(Desc(true, num), conn) else SyncClose(Desc(false, num), conn)]);
  }

  lemma SimDrop(w: E.Worker, t: T.Treat, r: Addr)
    requires Near(w, t, Some(r)) && r in w.recs
    ensures Sim(E.DropRecord(w, r), T.Drop(t, r))
  {
    SimCloseNow(w, t, Some(r), w.recs[r].fd, w.recs[r].conn);
  }

  lemma SimArm(w: E.Worker, t: T.Treat, k: nat)
    requires Sim(w, t)
    ensures Sim(E.ArmAccept(w, k), T.ArmAccept(t, k))
  {
    SimGet(w, t, None, k);
  }

  lemma SimRecv(w: E.Worker, t: T.Treat, r: Addr, k: nat)
    requires Near(w, t, Some(r)) && r in w.recs
    ensures Sim(E.QueueRecv(w, r, k), T.SubmitRecv(t, r, k))
  {
    SimGet(w, t, Some(r), k);
    var w1, t1 := E.GetSqe(w, k).0, T.GetSqe(t, k).0;
    if !E.GetSqe(w, k).1 { SimDrop(w1, t1, r); }
  }

  lemma SimClose(w: E.Worker, t: T.Treat, r: Addr, k: nat)
    requires Near(w, t, Some(r)) && r in w.recs
    ensures Sim(E.QueueClose(w, r, k), T.SubmitClose(t, r, k))
  {
    SimGet(w, t, Some(r), k);
    var w1, t1 := E.GetSqe(w, k).0, T.GetSqe(t, k).0;
    if !E.GetSqe(w, k).1 { SimDrop(w1, t1, r); }
  }

  lemma SimReply(w: E.Worker, t: T.Treat, r: Addr, k1: nat, k2: nat)
    requires Near(w, t, Some(r)) && r in w.recs && Prefix(w.scratch, REPLY_LEN) == REPLY
    ensures Sim(E.QueueReplyAndClose(w, r, REPLY_LEN, k1, k2), T.SubmitReplyAndClose(t, r, k1, k2))
  {
    SimGet(w, t, Some(r), k1);
    var w1, t1 := E.GetSqe(w, k1).0, T.GetSqe(t, k1).0;
    if !E.GetSqe(w, k1).1 {
      SimDrop(w1, t1, r);
    } else {
      var s := Send(E.DescOf(w1, r), REPLY_LEN, w1.recs[r].conn);
      SimClose(E.Push(w1, s), t1.(sq := t1.sq + [s]), r, k2);
    }
  }

  /** malloc answers alike on both sides; the content of fresh memory may differ. */
  predicate SameBlock(w: E.Worker, a: Option<(Addr, Record)>, b: Option<(Addr, T.TRecord)>) {
    match (a, b)
    case (None, None) => true
    case (Some((r, _)), Some((s, _))) => r == s && r !in w.recs
    case _ => false
  }

  lemma SimTake(w: E.Worker, t: T.Treat, res: int, conn: ConnId, env: E.Env, block: Option<(Addr, T.TRecord)>)
    requires Sim(w, t) && E.FreeListed(w) && SameBlock(w, env.block, block)
    ensures T.FreeListed(t)
    ensures Sim(E.TakeConn(w, res, conn, env), T.TakeConn(t, res, conn, block, env.k2))
  {
    if w.free == [] && env.block.None? {
      SimCloseNow(w, t, None, res, conn);
    } else {
      var (w1, nc) := E.Alloc(w, env.block);
      var r := nc.value;
      var w2 := w1.(recs := w1.recs[r := w1.recs[r].(fd := res, conn := conn)]);
      var t2 := T.Setup(T.Alloc(t, block).0, r, res, conn);
      assert Near(w2, t2, Some(r));
      SimRecv(w2, t2, r, env.k2);
    }
  }

  /** The handler writes the fixed reply and returns its length. */
  predicate FixedReply(w: E.Worker, env: E.Env) {
    env.rlen == REPLY_LEN && |env.reply| == |w.scratch| && Prefix(env.reply, REPLY_LEN) == REPLY
  }

  /** The completion can be drained: what it names is allocated and in use. */
  predicate Usable(w: E.Worker, e: Cqe) {
    E.Derefs(w, e) && (e.data.Ref? ==> e.data.rec !in w.free)
  }

  lemma SimStep(w: E.Worker, t: T.Treat, e: Cqe, env: E.Env, block: Option<(Addr, T.TRecord)>)
    requires Sim(w, t) && Usable(w, e) && FixedReply(w, env) && SameBlock(w, env.block, block)
    ensures T.Derefs(t, e)
    ensures Sim(E.DrainOne(w, e, env), T.DrainOne(t, e, block, env.k1, env.k2))
  {
    if e.data.Marker? {
      if !e.more { SimArm(w, t, env.k1); }
      var w1 := if e.more then w else E.ArmAccept(w, env.k1);
      var t1 := if e.more then t else T.ArmAccept(t, env.k1);
      if e.res >= 0 { SimTake(w1, t1, e.res, e.conn, env, block); }
    } else if e.data.Ref? {
      SimOnRecv(w, t, e, env);
    }
  }

  lemma SimOnRecv(w: E.Worker, t: T.Treat, e: Cqe, env: E.Env)
    requires Sim(w, t) && Usable(w, e) && FixedReply(w, env) && e.data.Ref?
    ensures Sim(E.OnRecv(w, e.data.rec, e.res, env),
                if e.res <= 0 then T.SubmitClose(t, e.data.rec, env.k1)
                else T.SubmitReplyAndClose(t, e.data.rec, env.k1, env.k2))
  {
    var r := e.data.rec;
    if e.res <= 0 {
      SimClose(w, t, r, env.k1);
    } else {
      var w1 := E.CallHandler(w, r, e.res, env);
      var call := Call(w.recs[r].conn, Prefix(w.recs[r].buf, e.res), env.rlen, env.reply);
      EraseConcat(w.acts, [call]);
      assert Erase([call]) == [];
      assert Near(w1, t, Some(r));
      SimReply(w1, t, r, env.k1, env.k2);
    }
  }

  /** What happens to a worker: a warm-up malloc, the first accept, an enter call in which
      the kernel takes up to n entries, or a completion. */
  datatype Input =
    | WarmUp(block: Option<(Addr, Record)>, tblock: Option<(Addr, T.TRecord)>)
    | Arm(k: nat)
    | EnterCall(n: nat)
    | Complete(e: Cqe, env: E.Env, tblock: Option<(Addr, T.TRecord)>)

  predicate InputOk(w: E.Worker, x: Input) {
    match x
    case WarmUp(block, tblock) => SameBlock(w, block, tblock)
    case Complete(e, env, tblock) => Usable(w, e) && FixedReply(w, env) && SameBlock(w, env.block, tblock)
    case _ => true
  }

  function Engine(w: E.Worker, x: Input): E.Worker
    requires InputOk(w, x)
  {
    match x
    case WarmUp(block, _) =>
      if block.None? then w
      else E.Free(w.(recs := w.recs[block.value.0 := block.value.1]), block.value.0)
    case Arm(k) => E.ArmAccept(w, k)
    case EnterCall(n) => E.Flush(w, n)
    case Complete(e, env, _) => E.DrainOne(w, e, env)
  }

  function Ancestor(t: T.Treat, x: Input): Option<T.Treat> {
    match x
    case WarmUp(_, block) =>
      if block.None? then Some(t)
      else Some(t.(recs := t.recs[block.value.0 := block.value.1], free := [block.value.0] + t.free))
    case Arm(k) => Some(T.ArmAccept(t, k))
    case EnterCall(n) => Some(T.Flush(t, n))
    case Complete(e, env, block) =>
      if T.Derefs(t, e) then Some(T.DrainOne(t, e, block, env.k1, env.k2)) else None
  }

  lemma SimInput(w: E.Worker, t: T.Treat, x: Input)
    requires Sim(w, t) && InputOk(w, x)
    ensures Ancestor(t, x).Some? && Sim(Engine(w, x), Ancestor(t, x).value)
  {
    match x
    case WarmUp(block, tblock) =>
    case Arm(k) => SimArm(w, t, k);
    case EnterCall(n) => SimFlush(w, t, None, n);
    case Complete(e, env, block) => SimStep(w, t, e, env, block);
  }

  predicate AllOk(w: E.Worker, xs: seq<Input>)
    decreases |xs|
  {
    xs != [] ==> InputOk(w, xs[0]) && AllOk(Engine(w, xs[0]), xs[1..])
  }

  function EngineAll(w: E.Worker, xs: seq<Input>): E.Worker
    requires AllOk(w, xs)
    decreases |xs|
  {
    if xs == [] then w else EngineAll(Engine(w, xs[0]), xs[1..])
  }

  function AncestorAll(t: T.Treat, xs: seq<Input>): Option<T.Treat>
    decreases |xs|
  {
    if xs == [] then Some(t)
    else
      var t1 := Ancestor(t, xs[0]);
      if t1.None? then None else AncestorAll(t1.value, xs[1..])
  }

  lemma {:induction false} SimAll(w: E.Worker, t: T.Treat, xs: seq<Input>)
    requires Sim(w, t) && AllOk(w, xs)
    ensures AncestorAll(t, xs).Some? && Sim(EngineAll(w, xs), AncestorAll(t, xs).value)
    decreases |xs|
  {
    if xs != [] {
      SimInput(w, t, xs[0]);
      SimAll(Engine(w, xs[0]), Ancestor(t, xs[0]).value, xs[1..]);
    }
  }

  /** From the blank workers on, whatever happens to both: the engine and its ancestor have
      the same requests queued, have made the same system calls and have the same
      freelist, and a queued send takes the ancestor's reply from the engine's scratch. */
  lemma EngineSimulation(direct: bool, scratch: Bytes, xs: seq<Input>)
    requires |scratch| >= REPLY_LEN
    requires AllOk(E.Worker(Config(direct, true, T.READ_BUF_SZ, |scratch|), [], map[], [], scratch, [], 0), xs)
    ensures var w0 := E.Worker(Config(direct, true, T.READ_BUF_SZ, |scratch|), [], map[], [], scratch, [], 0);
            var w, t := EngineAll(w0, xs), AncestorAll(T.Treat(direct, [], map[], [], [], 0), xs);
            && t.Some? && w.sq == t.value.sq && w.free == t.value.free && Erase(w.acts) == t.value.acts
            && (forall e :: e in w.sq && e.Send? ==> Prefix(w.scratch, e.len) == REPLY)
  {
    var w0 := E.Worker(Config(direct, true, T.READ_BUF_SZ, |scratch|), [], map[], [], scratch, [], 0);
    SimAll(w0, T.Treat(direct, [], map[], [], [], 0), xs);
  }
}
