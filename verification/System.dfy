/**
 A worker together with the kernel side of its ring, as a transition system. The
 kernel is constrained by these assumptions and by nothing else:

 - it consumes SQEs in FIFO order, only inside an enter or submit call, and resolves a
   descriptor when it issues the request;
 - submit_and_wait_timeout returns a non-negative value only when every queued entry
   was consumed;
 - an issued recv posts exactly one CQE, after writing at most `len` bytes to the
   record's buffer;
 - accept returns a descriptor that is not open; a close releases its descriptor;
 - a standing accept ends exactly when it posts a CQE without F_MORE;
 - a send or close posts a CQE only when it fails, with null user data, and a send
   takes its bytes from the scratch at the time of issue.

 The handler is arbitrary: any int, any content of the scratch.
 */
module System {
  import opened Basics
  import opened Ring
  import opened Engine

  datatype Pending = Pending(rec: Addr, desc: Desc, len: nat, conn: ConnId)

  /** `open` is the descriptor table, `standing` the accepts and `pending` the recvs
      in flight; `leaked` lists slots the worker gave up without closing. */
  datatype Kernel = Kernel(
    open: map<Desc, ConnId>,
    standing: seq<Sqe>,
    pending: seq<Pending>,
    cq: seq<Cqe>,
    leaked: seq<(Desc, ConnId)>,
    next: ConnId,
    log: seq<Event>)

  /** Head: about to test the stop flag. Entering: inside submit_and_wait_timeout.
      Draining(n): n completions of the batch are left. Exited: out of the loop. */
  datatype Pc = Head | Entering | Draining(left: nat) | Exited

  datatype State = State(w: Worker, pc: Pc, k: Kernel)

  function NoteClose(k: Kernel, d: Desc, conn: ConnId): Kernel {
    if d in k.open
    then k.(open := k.open - {d}, log := k.log + [Closed(k.open[d], conn)])
    else k.(log := k.log + [Stray(conn)])
  }

  /** The kernel issues one request; the scratch is the reply buffer as it is now. */
  function IssueSqe(k: Kernel, scratch: Bytes, e: Sqe): Kernel {
    match e
    case Accept(_, _) => k.(standing := k.standing + [e])
    case Recv(r, d, len, conn) =>
      if d in k.open
      then k.(pending := k.pending + [Pending(r, d, len, k.open[d])],
              log := k.log + [RecvIssued(k.open[d], conn)])
      else k.(cq := k.cq + [Cqe(Ref(r), -9, false, conn, d, [])], log := k.log + [Stray(conn)])
    case Send(d, len, conn) =>
      if d in k.open
      then k.(log := k.log + [Sent(k.open[d], conn, Prefix(scratch, len))])
      else k.(log := k.log + [Stray(conn)])
    case Close(d, conn) => NoteClose(k, d, conn)
  }

  function Apply(k: Kernel, scratch: Bytes, a: Act): Kernel {
    match a
    case Issue(e) => IssueSqe(k, scratch, e)
    case SyncClose(d, conn) =>
      // close(2) knows process descriptors only
      if d.fixed then k.(log := k.log + [Stray(conn)]) else NoteClose(k, d, conn)
    case Call(conn, req, rlen, after) => k.(log := k.log + [Handled(conn, req, rlen, after)])
    case Leak(d, conn) => k.(leaked := k.leaked + [(d, conn)])
  }

  function ApplyAll(k: Kernel, scratch: Bytes, acts: seq<Act>): Kernel
    decreases |acts|
  {
    if acts == [] then k else ApplyAll(Apply(k, scratch, acts[0]), scratch, acts[1..])
  }

  datatype Step =
    | Enter
    | Stop
    | ReturnFlushed
    | ReturnRetry
    | ReturnFatal
    | Drain(env: Env)
    | BatchEnd
    | KIssue
    | KAccept(i: nat, res: int, more: bool)
    | KRecv(i: nat, res: int, payload: Bytes)
    | KFail(res: int)

  predicate Enabled(s: State, a: Step) {
    match a
    case Enter => s.pc.Head?
    case Stop => s.pc.Head?
    case ReturnFlushed => s.pc.Entering? && s.w.sq == []
    case ReturnRetry => s.pc.Entering?
    case ReturnFatal => s.pc.Entering?
    case Drain(env) =>
      && s.pc.Draining? && s.pc.left > 0 && s.k.cq != []
      && Derefs(s.w, s.k.cq[0]) && EnvOk(s.w, env)
    case BatchEnd => s.pc == Draining(0)
    case KIssue => s.pc.Entering? && s.w.sq != []
    case KAccept(i, res, more) =>
      && i < |s.k.standing| && s.k.standing[i].Accept?
      && (more ==> s.k.standing[i].multishot)
      && (res >= 0 ==> Desc(s.k.standing[i].direct, res) !in s.k.open)
    case KRecv(i, res, payload) =>
      && i < |s.k.pending|
      && |payload| == Max(res, 0)
      && |payload| <= s.k.pending[i].len
    case KFail(res) => res < 0
  }

  function DoAccept(k: Kernel, i: nat, res: int, more: bool): Kernel
    requires i < |k.standing| && k.standing[i].Accept?
  {
    var d := Desc(k.standing[i].direct, res);
    var k1 := k.(cq := k.cq + [Cqe(Marker, res, more, k.next, d, [])],
                 standing := if more then k.standing else Without(k.standing, i));
    if res < 0 then k1
    else k1.(open := k.open[d := k.next], next := k.next + 1, log := k.log + [Accepted(k.next)])
  }

  function Fill(buf: Bytes, payload: Bytes): Bytes {
    if |payload| <= |buf| then payload + buf[|payload|..] else buf
  }

  function DoRecv(s: State, i: nat, res: int, payload: Bytes): State
    requires i < |s.k.pending|
  {
    var p := s.k.pending[i];
    State(
      if p.rec in s.w.recs
      then s.w.(recs := s.w.recs[p.rec := s.w.recs[p.rec].(buf := Fill(s.w.recs[p.rec].buf, payload))])
      else s.w,
      s.pc,
      s.k.(pending := Without(s.k.pending, i),
           cq := s.k.cq + [Cqe(Ref(p.rec), res, false, p.conn, p.desc, payload)],
           log := s.k.log + [Received(p.conn, res, payload)]))
  }

  function DoDrain(s: State, env: Env): State
    requires Enabled(s, Drain(env))
  {
    var w1 := DrainOne(s.w, s.k.cq[0], env);
    State(w1.(acts := []), Draining(s.pc.left - 1),
          ApplyAll(s.k.(cq := s.k.cq[1..]), w1.scratch, w1.acts))
  }

  function Do(s: State, a: Step): State
    requires Enabled(s, a)
  {
    match a
    case Enter => s.(pc := Entering)
    case Stop => s.(pc := Exited)
    case ReturnFlushed => s.(pc := Draining(Min(|s.k.cq|, CQE_BATCH)))
    case ReturnRetry => s.(pc := Head)
    case ReturnFatal => s.(pc := Exited)
    case Drain(env) => DoDrain(s, env)
    case BatchEnd => s.(pc := Head)
    case KIssue => s.(w := s.w.(sq := s.w.sq[1..]), k := IssueSqe(s.k, s.w.scratch, s.w.sq[0]))
    case KAccept(i, res, more) => s.(k := DoAccept(s.k, i, res, more))
    case KRecv(i, res, payload) => DoRecv(s, i, res, payload)
    case KFail(res) => s.(k := s.k.(cq := s.k.cq + [Cqe(Null, res, false, 0, Desc(false, 0), [])]))
  }

  /** A worker that has warmed its freelist and queued its first accept; its kernel
      has seen nothing. */
  ghost predicate Init(s: State) {
    && s.pc == Head
    && s.w.sq == [Accept(s.w.cfg.direct, s.w.cfg.multishot)]
    && s.w.acts == [] && s.w.starved == 0
    && Distinct(s.w.free) && |s.w.free| <= FREELIST_WARM
    && s.w.recs.Keys == (set r | r in s.w.free)
    && (forall r :: r in s.w.recs ==> |s.w.recs[r].buf| == s.w.cfg.recvBuf)
    && |s.w.scratch| == s.w.cfg.replyCap
    && s.k == Kernel(map[], [], [], [], [], 0, [])
  }

  /** A run: the states it passes through and the step taken from each but the last. */
  ghost predicate IsRun(run: seq<State>, steps: seq<Step>) {
    && |run| == |steps| + 1
    && Init(run[0])
    && forall i :: 0 <= i < |steps| ==> Enabled(run[i], steps[i]) && run[i + 1] == Do(run[i], steps[i])
  }
}
