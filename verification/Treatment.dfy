/**
 The research treatment server's worker: the ancestor of the engine, with four record
 states, a `sent` counter and a static reply instead of a handler.
 */
module Treatment {
  import opened Basics
  import opened Ring
  import opened System
  import E = Engine

  const READ_BUF_SZ: nat := 256

  datatype TState = TAccept | TRecv | TSend | TClose

  datatype TRecord = TRecord(state: TState, fd: int, sent: int, buf: Bytes, conn: ConnId)

  datatype Treat = Treat(
    direct: bool,
    free: seq<Addr>,
    recs: map<Addr, TRecord>,
    sq: seq<Sqe>,
    acts: seq<Act>,
    starved: nat)

  function Flush(t: Treat, k: nat): Treat {
    var n := Min(k, |t.sq|);
    t.(sq := t.sq[n..], acts := t.acts + E.Issues(t.sq[..n]))
  }

  function GetSqe(t: Treat, k: nat): (Treat, bool) {
    if |t.sq| < QUEUE_DEPTH then (t, true)
    else
      var t1 := Flush(t, k).(starved := t.starved + 1);
      (t1, |t1.sq| < QUEUE_DEPTH)
  }

  function CloseNow(t: Treat, num: int, conn: ConnId): Treat {
    t.(acts := t.acts + [if t.direct then Leak(Desc(true, num), conn) else SyncClose(Desc(false, num), conn)])
  }

  function Drop(t: Treat, r: Addr): Treat
    requires r in t.recs
  {
    var t1 := CloseNow(t, t.recs[r].fd, t.recs[r].conn);
    Free(t1, r)
  }

  function ArmAccept(t: Treat, k: nat): Treat {
    var (t1, ok) := GetSqe(t, k);
    if ok then t1.(sq := t1.sq + [Accept(t.direct, true)]) else t1
  }

  function SubmitRecv(t: Treat, r: Addr, k: nat): Treat
    requires r in t.recs
  {
    var (t1, ok) := GetSqe(t, k);
    var c := t1.recs[r];
    if !ok then Drop(t1, r)
    else t1.(recs := t1.recs[r := c.(state := TRecv)],
             sq := t1.sq + [Recv(r, Desc(t.direct, c.fd), READ_BUF_SZ, c.conn)])
  }

  function SubmitClose(t: Treat, r: Addr, k: nat): Treat
    requires r in t.recs
  {
    var (t1, ok) := GetSqe(t, k);
    var c := t1.recs[r];
    if !ok then Drop(t1, r)
    else Free(t1.(sq := t1.sq + [Close(Desc(t.direct, c.fd), c.conn)]), r)
  }

  function SubmitReplyAndClose(t: Treat, r: Addr, k1: nat, k2: nat): Treat
    requires r in t.recs
  {
    var (t1, ok) := GetSqe(t, k1);
    var c := t1.recs[r];
    if !ok then Drop(t1, r)
    else SubmitClose(t1.(sq := t1.sq + [Send(Desc(t.direct, c.fd), REPLY_LEN, c.conn)]), r, k2)
  }

  /** The kernel put a request into record r. */
  function Filled(t: Treat, r: Addr, payload: Bytes): Treat {
    if r in t.recs then t.(recs := t.recs[r := t.recs[r].(buf := Fill(t.recs[r].buf, payload))]) else t
  }

  predicate FreeListed(t: Treat) {
    forall i :: 0 <= i < |t.free| ==> t.free[i] in t.recs
  }

  predicate Derefs(t: Treat, e: Cqe) {
    FreeListed(t) && (e.data.Ref? ==> e.data.rec in t.recs)
  }

  /** Pop the freelist, else malloc. */
  function Alloc(t: Treat, block: Option<(Addr, TRecord)>): (Treat, Option<Addr>) {
    if t.free != [] then (t.(free := t.free[1..]), Some(t.free[0]))
    else
      match block
      case None => (t, None)
      case Some((a, garbage)) => (t.(recs := t.recs[a := garbage]), Some(a))
  }

  function Setup(t: Treat, r: Addr, fd: int, conn: ConnId): Treat
    requires r in t.recs
  {
    t.(recs := t.recs[r := t.recs[r].(fd := fd, conn := conn, sent := 0)])
  }

  function TakeConn(t: Treat, res: int, conn: ConnId, block: Option<(Addr, TRecord)>, k: nat): Treat
    requires FreeListed(t)
  {
    var (t1, nc) := Alloc(t, block);
    match nc
    case None => CloseNow(t1, res, conn)
    case Some(r) => SubmitRecv(Setup(t1, r, res, conn), r, k)
  }

  function OnAccept(t: Treat, e: Cqe, block: Option<(Addr, TRecord)>, k1: nat, k2: nat): Treat
    requires Derefs(t, e)
  {
    var t1 := if e.more then t else ArmAccept(t, k1);
    if e.res < 0 then t1 else TakeConn(t1, e.res, e.conn, block, k2)
  }

  function OnRecv(t: Treat, r: Addr, res: int, k1: nat, k2: nat): Treat
    requires r in t.recs
  {
    if res <= 0 then SubmitClose(t, r, k1) else SubmitReplyAndClose(t, r, k1, k2)
  }

  function Free(t: Treat, r: Addr): Treat {
    t.(free := [r] + t.free)
  }

  /** One iteration of the treatment's drain loop. */
  function DrainOne(t: Treat, e: Cqe, block: Option<(Addr, TRecord)>, k1: nat, k2: nat): Treat
    requires Derefs(t, e)
  {
    var state := if e.data.Ref? then t.recs[e.data.rec].state else TAccept;
    if e.data.Null? then t
    else if state == TAccept then OnAccept(t, e, block, k1, k2)
    else if state == TRecv then OnRecv(t, e.data.rec, e.res, k1, k2)
    else Free(t, e.data.rec)
  }
}
