/**
 The worker as a function: what each submit helper and one iteration of the drain loop
 do to the freelist, the records, the submission queue and the reply scratch. The
 branches taken when the submission queue is full are part of it.
 */
module Engine {
  import opened Basics
  import opened Ring

  /** `acts` collects what the worker did to the outside, in order; `starved` counts
      the times a submission queue entry was asked for and none was free. */
  datatype Worker = Worker(
    cfg: Config,
    free: seq<Addr>,
    recs: map<Addr, Record>,
    sq: seq<Sqe>,
    scratch: Bytes,
    acts: seq<Act>,
    starved: nat)

  /** What the outside answers while one completion is drained: the record malloc
      returns if asked (with whatever it contains), the handler's result and the
      scratch as the handler leaves it, and how many entries the kernel takes in an
      emergency submit. */
  datatype Env = Env(block: Option<(Addr, Record)>, rlen: int, reply: Bytes, k1: nat, k2: nat)

  predicate EnvOk(w: Worker, env: Env) {
    && |env.reply| == |w.scratch|
    && (env.block.Some? ==>
          env.block.value.0 !in w.recs && |env.block.value.1.buf| == w.cfg.recvBuf)
  }

  function Issues(q: seq<Sqe>): (r: seq<Act>)
    ensures |r| == |q|
    ensures forall i :: 0 <= i < |q| ==> r[i] == Issue(q[i])
  {
    if q == [] then [] else [Issue(q[0])] + Issues(q[1..])
  }

  /** io_uring_submit, of which the kernel takes at most k entries. */
  function Flush(w: Worker, k: nat): Worker {
    var n := Min(k, |w.sq|);
    w.(sq := w.sq[n..], acts := w.acts + Issues(w.sq[..n]))
  }

  /** Ask for an entry; if the queue is full, submit and ask again. */
  function GetSqe(w: Worker, k: nat): (Worker, bool) {
    if |w.sq| < QUEUE_DEPTH then (w, true)
    else
      var w1 := Flush(w, k).(starved := w.starved + 1);
      (w1, |w1.sq| < QUEUE_DEPTH)
  }

  function Push(w: Worker, e: Sqe): Worker {
    w.(sq := w.sq + [e])
  }

  function Free(w: Worker, r: Addr): Worker {
    w.(free := [r] + w.free)
  }

  function DescOf(w: Worker, r: Addr): Desc
    requires r in w.recs
  {
    Desc(w.cfg.direct, w.recs[r].fd)
  }

  /** The synchronous close of a plain fd; a registered slot cannot be closed so. */
  function CloseNow(w: Worker, d: Desc, conn: ConnId): Worker {
    if w.cfg.direct then w.(acts := w.acts + [Leak(d, conn)])
    else w.(acts := w.acts + [SyncClose(d, conn)])
  }

  function DropRecord(w: Worker, r: Addr): Worker
    requires r in w.recs
  {
    Free(CloseNow(w, DescOf(w, r), w.recs[r].conn), r)
  }

  function ArmAccept(w: Worker, k: nat): Worker {
    var (w1, ok) := GetSqe(w, k);
    if ok then Push(w1, Accept(w.cfg.direct, w.cfg.multishot)) else w1
  }

  function QueueRecv(w: Worker, r: Addr, k: nat): Worker
    requires r in w.recs
  {
    var (w1, ok) := GetSqe(w, k);
    if !ok then DropRecord(w1, r)
    else
      Push(w1.(recs := w1.recs[r := w1.recs[r].(state := StRecv)]),
           Recv(r, DescOf(w1, r), w.cfg.recvBuf, w1.recs[r].conn))
  }

  function QueueClose(w: Worker, r: Addr, k: nat): Worker
    requires r in w.recs
  {
    var (w1, ok) := GetSqe(w, k);
    if !ok then DropRecord(w1, r)
    else Free(Push(w1, Close(DescOf(w1, r), w1.recs[r].conn)), r)
  }

  function QueueReplyAndClose(w: Worker, r: Addr, len: nat, k1: nat, k2: nat): Worker
    requires r in w.recs
  {
    var (w1, ok) := GetSqe(w, k1);
    if !ok then DropRecord(w1, r)
    else QueueClose(Push(w1, Send(DescOf(w1, r), len, w1.recs[r].conn)), r, k2)
  }

  /** Pop the freelist, else malloc. */
  function Alloc(w: Worker, block: Option<(Addr, Record)>): (Worker, Option<Addr>) {
    if w.free != [] then (w.(free := w.free[1..]), Some(w.free[0]))
    else
      match block
      case None => (w, None)
      case Some((a, garbage)) => (w.(recs := w.recs[a := garbage]), Some(a))
  }

  predicate FreeListed(w: Worker) {
    forall i :: 0 <= i < |w.free| ==> w.free[i] in w.recs
  }

  /** The completion's user data can be dereferenced: it is null, the marker, or the
      address of a record the worker has allocated. */
  predicate Derefs(w: Worker, e: Cqe) {
    && FreeListed(w)
    && (e.data.Ref? ==> e.data.rec in w.recs)
  }

  /** The dispatch: the marker's state is StAccept from the zeroed allocation on and is
      never set to anything else. */
  function StateOf(w: Worker, data: UserData): ConnState
    requires data.Ref? ==> data.rec in w.recs
  {
    if data.Ref? then w.recs[data.rec].state else StAccept
  }

  /** A connection arrived on descriptor `res`: find it a record and queue its recv. */
  function TakeConn(w: Worker, res: int, conn: ConnId, env: Env): Worker
    requires FreeListed(w)
  {
    var (w1, nc) := Alloc(w, env.block);
    match nc
    case None => CloseNow(w1, Desc(w.cfg.direct, res), conn)
    case Some(r) =>
      QueueRecv(w1.(recs := w1.recs[r := w1.recs[r].(fd := res, conn := conn)]), r, env.k2)
  }

  function OnAccept(w: Worker, e: Cqe, env: Env): Worker
    requires Derefs(w, e)
  {
    var w1 := if e.more then w else ArmAccept(w, env.k1);
    if e.res < 0 then w1 else TakeConn(w1, e.res, e.conn, env)
  }

  /** Call the handler on the record's request bytes. */
  function CallHandler(w: Worker, r: Addr, res: int, env: Env): Worker
    requires r in w.recs
  {
    w.(scratch := env.reply,
       acts := w.acts + [Call(w.recs[r].conn, Prefix(w.recs[r].buf, res), env.rlen, env.reply)])
  }

  function OnRecv(w: Worker, r: Addr, res: int, env: Env): Worker
    requires r in w.recs
  {
    if res <= 0 then QueueClose(w, r, env.k1)
    else
      var w1 := CallHandler(w, r, res, env);
      if env.rlen > 0
      then QueueReplyAndClose(w1, r, Min(env.rlen, w.cfg.replyCap), env.k1, env.k2)
      else QueueClose(w1, r, env.k1)
  }

  /** One iteration of the drain loop. */
  function DrainOne(w: Worker, e: Cqe, env: Env): Worker
    requires Derefs(w, e)
  {
    if e.data.Null? then w
    else if StateOf(w, e.data) == StAccept then OnAccept(w, e, env)
    else OnRecv(w, e.data.rec, e.res, env)
  }
}
