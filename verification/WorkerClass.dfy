/**
 The worker as the source writes it: records linked through `next`, a submission queue
 that is appended to, and a scratch buffer the handler writes into. Every method is
 tied to the function in Engine that specifies it, fallback branches included.
 */
module WorkerClass {
  import opened Basics
  import opened Ring
  import E = Engine

  /** A connection record. `addr` is its address, the value user_data holds. */
  class Conn {
    const addr: Addr
    var next: Conn?
    var state: ConnState
    var fd: int
    var buf: Bytes
    var conn: ConnId

    constructor (addr: Addr, content: Record)
      ensures this.addr == addr && Content() == content && next == null
    {
      this.addr := addr;
      next, state, fd, buf, conn := null, content.state, content.fd, content.buf, content.conn;
    }

    function Content(): Record
      reads this
    {
      Record(state, fd, buf, conn)
    }
  }

  /** The list that starts at head runs through cs and ends. */
  ghost predicate Linked(head: Conn?, cs: seq<Conn>)
    reads cs`next
  {
    if cs == [] then head == null else head == cs[0] && Linked(cs[0].next, cs[1..])
  }

  ghost function Addrs(cs: seq<Conn>): (r: seq<Addr>)
    ensures |r| == |cs| && forall i :: 0 <= i < |cs| ==> r[i] == cs[i].addr
  {
    if cs == [] then [] else [cs[0].addr] + Addrs(cs[1..])
  }

  class FaWorker {
    const cfg: Config
    var freeHead: Conn?
    var marker: ConnState
    var mem: map<Addr, Conn>      // the records the worker has allocated, by address
    var sq: seq<Sqe>
    const scratch: array<Byte>
    var acts: seq<Act>            // what the worker did to the outside, in order
    ghost var freeList: seq<Conn>
    ghost var starved: nat

    ghost predicate Valid()
      reads this, mem.Values
    {
      && marker == StAccept
      && (forall a :: a in mem ==> mem[a].addr == a)
      && Listed()
    }

    /** The list from freeHead is freeList: acyclic, made of allocated records. */
    ghost predicate Listed()
      reads this, mem.Values
    {
      && (forall c :: c in freeList ==> c.addr in mem && mem[c.addr] == c && c in mem.Values)
      && Distinct(freeList)
      && Linked(freeHead, freeList)
    }

    ghost function Records(): map<Addr, Record>
      reads this, mem.Values
    {
      map a | a in mem :: mem[a].Content()
    }

    /** The worker as a value. */
    ghost function Abs(): E.Worker
      reads this, mem.Values, scratch
    {
      E.Worker(cfg, Addrs(freeList), Records(), sq, scratch[..], acts, starved)
    }

    lemma AllListed()
      requires Valid()
      ensures E.FreeListed(Abs())
    {
      forall i | 0 <= i < |freeList| ensures freeList[i].addr in mem { assert freeList[i] in freeList; }
    }

    lemma OnList(a: Addr)
      requires Valid() && a in mem
      ensures a in Abs().free <==> mem[a] in freeList
    {
      if mem[a] in freeList {
        var i :| 0 <= i < |freeList| && freeList[i] == mem[a];
        assert Abs().free[i] == a;
      }
      forall i | 0 <= i < |freeList| ensures mem[freeList[i].addr] == freeList[i] { assert freeList[i] in freeList; }
    }

    /** c is a record of this worker that is in use. */
    ghost predicate Owned(c: Conn)
      reads this
    {
      c.addr in mem && mem[c.addr] == c && c !in freeList
    }

    constructor (cfg: Config)
      ensures Valid() && this.cfg == cfg && mem == map[] && freeList == [] && sq == []
      ensures acts == [] && starved == 0 && scratch.Length == cfg.replyCap && fresh(scratch)
      ensures forall i :: 0 <= i < scratch.Length ==> scratch[i] == 0
    {
      this.cfg := cfg;
      freeHead := null;
      marker := StAccept;
      mem := map[];
      sq := [];
      scratch := new Byte[cfg.replyCap](_ => 0);
      acts := [];
      freeList, starved := [], 0;
    }

    method ConnAlloc(block: Option<(Addr, Record)>) returns (c: Conn?)
      requires Valid()
      requires block.Some? ==> block.value.0 !in mem
      modifies this`freeHead, this`freeList, this`mem
      ensures Valid() && old(mem.Values) <= mem.Values && fresh(mem.Values - old(mem.Values))
      ensures Abs() == E.Alloc(old(Abs()), block).0
      ensures E.Alloc(old(Abs()), block).1 == if c == null then None else Some(c.addr)
      ensures c != null ==> Owned(c)
    {
      if freeHead != null {
        c := PopFree();
      } else if block.None? {
        c := null;
      } else {
        c := Malloc(block.value.0, block.value.1);
      }
    }

    method PopFree() returns (c: Conn)
      requires Valid() && freeHead != null
      modifies this`freeHead, this`freeList
      ensures Valid() && Owned(c) && [c] + freeList == old(freeList)
    {
      c := freeHead;
      freeHead := c.next;
      freeList := freeList[1..];
    }

    method Malloc(addr: Addr, content: Record) returns (c: Conn)
      requires Valid() && addr !in mem
      modifies this`mem
      ensures Valid() && Owned(c) && c.addr == addr && fresh(c) && c.Content() == content
      ensures mem == old(mem)[addr := c] && mem.Values == old(mem.Values) + {c}
      ensures Records() == old(Records())[addr := content]
    {
      c := new Conn(addr, content);
      mem := mem[addr := c];
      assert mem.Values == old(mem.Values) + {c} by {
        assert mem[addr] == c;
        forall x | x in old(mem.Values) ensures x in mem.Values {
          var a :| a in old(mem) && old(mem)[a] == x;
          assert mem[a] == x;
        }
      }
    }

    method ConnFree(c: Conn)
      requires Valid() && Owned(c)
      modifies this`freeHead, this`freeList, c`next
      ensures Valid() && Abs() == E.Free(old(Abs()), c.addr)
      ensures mem == old(mem)
    {
      ghost var was := Abs();
      assert mem[c.addr] in mem.Values;
      c.next := freeHead;
      freeHead := c;
      freeList := [c] + freeList;
      assert freeList[1..] == old(freeList);
      assert Records() == was.recs;
    }

    /** io_uring_submit, of which the kernel takes at most k entries. */
    method Submit(k: nat)
      modifies this`sq, this`acts
      ensures var n := Min(k, |old(sq)|);
              sq == old(sq)[n..] && acts == old(acts) + E.Issues(old(sq)[..n])
    {
      var n := Min(k, |sq|);
      acts := acts + E.Issues(sq[..n]);
      sq := sq[n..];
    }

    /** io_uring_get_sqe and the retry behind a submit that every helper begins with. */
    method GetSqe(k: nat) returns (ok: bool)
      requires Valid()
      modifies this`sq, this`acts, this`starved
      ensures Valid() && Abs() == E.GetSqe(old(Abs()), k).0 && ok == E.GetSqe(old(Abs()), k).1
    {
      if |sq| < QUEUE_DEPTH {
        return true;
      }
      Submit(k);
      starved := starved + 1;
      ok := |sq| < QUEUE_DEPTH;
    }

    /** The synchronous close of a plain fd; nothing can be done for a registered slot. */
    method CloseNow(d: Desc, conn: ConnId)
      requires Valid()
      modifies this`acts
      ensures Valid() && Abs() == E.CloseNow(old(Abs()), d, conn)
    {
      if !cfg.direct {
        acts := acts + [SyncClose(d, conn)];
      } else {
        acts := acts + [Leak(d, conn)];
      }
    }

    /** What every helper does when there is no entry to be had. */
    method Drop(c: Conn)
      requires Valid() && Owned(c)
      modifies this`acts, this`freeHead, this`freeList, c`next
      ensures Valid() && c.addr in old(Abs()).recs && Abs() == E.DropRecord(old(Abs()), c.addr)
    {
      assert mem[c.addr] in mem.Values;
      CloseNow(Desc(cfg.direct, c.fd), c.conn);
      ConnFree(c);
    }

    method ArmAccept(k: nat)
      requires Valid()
      modifies this`sq, this`acts, this`starved, this`marker
      ensures Valid() && Abs() == E.ArmAccept(old(Abs()), k)
    {
      var ok := GetSqe(k);
      if !ok {
        return;
      }
      sq := sq + [Accept(cfg.direct, cfg.multishot)];
      marker := StAccept;
    }

    method SubmitRecv(c: Conn, k: nat)
      requires Valid() && Owned(c)
      modifies this`sq, this`acts, this`starved, this`freeHead, this`freeList, c`next, c`state
      ensures Valid() && Abs() == E.QueueRecv(old(Abs()), c.addr, k)
    {
      assert mem[c.addr] in mem.Values;
      var ok := GetSqe(k);
      if !ok {
        Drop(c);
        return;
      }
      ghost var was := Abs();
      c.state := StRecv;
      assert Records() == was.recs[c.addr := was.recs[c.addr].(state := StRecv)];
      sq := sq + [Recv(c.addr, Desc(cfg.direct, c.fd), cfg.recvBuf, c.conn)];
    }

    method SubmitClose(c: Conn, k: nat)
      requires Valid() && Owned(c)
      modifies this`sq, this`acts, this`starved, this`freeHead, this`freeList, c`next
      ensures Valid() && Abs() == E.QueueClose(old(Abs()), c.addr, k)
    {
      assert mem[c.addr] in mem.Values;
      var ok := GetSqe(k);
      if !ok {
        Drop(c);
        return;
      }
      sq := sq + [Close(Desc(cfg.direct, c.fd), c.conn)];
      ConnFree(c);
    }

    /** Behind the send come the same steps as in SubmitClose. */
    method SubmitReplyAndClose(c: Conn, len: nat, k1: nat, k2: nat)
      requires Valid() && Owned(c)
      modifies this`sq, this`acts, this`starved, this`freeHead, this`freeList, c`next
      ensures Valid() && Abs() == E.QueueReplyAndClose(old(Abs()), c.addr, len, k1, k2)
    {
      var ok := GetSqe(k1);
      if !ok {
        Drop(c);
        return;
      }
      PutSend(c, len);
      SubmitClose(c, k2);
    }

    method PutSend(c: Conn, len: nat)
      requires Valid() && Owned(c)
      modifies this`sq
      ensures Valid() && c.addr in old(Abs()).recs
      ensures var w := old(Abs());
              Abs() == w.(sq := w.sq + [Send(E.DescOf(w, c.addr), len, w.recs[c.addr].conn)])
    {
      assert mem[c.addr] in mem.Values;
      sq := sq + [Send(Desc(cfg.direct, c.fd), len, c.conn)];
    }

    /** The handler runs on the record's request and may write all of the scratch. */
    method CallHandler(c: Conn, res: int, env: E.Env)
      requires Valid() && Owned(c) && |env.reply| == scratch.Length
      modifies this`acts, scratch
      ensures Valid() && Abs() == E.CallHandler(old(Abs()), c.addr, res, env)
    {
      ghost var was := Abs();
      acts := acts + [Call(c.conn, Prefix(c.buf, res), env.rlen, env.reply)];
      forall i | 0 <= i < scratch.Length { scratch[i] := env.reply[i]; }
      assert scratch[..] == env.reply;
    }

    method OnAccept(e: Cqe, env: E.Env)
      requires Valid() && (e.data.Ref? ==> e.data.rec in mem) && E.EnvOk(Abs(), env)
      modifies this`sq, this`acts, this`starved, this`marker, this`freeHead, this`freeList, this`mem, mem.Values
      ensures Valid() && E.Derefs(old(Abs()), e) && Abs() == E.OnAccept(old(Abs()), e, env)
      ensures old(mem.Values) <= mem.Values && fresh(mem.Values - old(mem.Values))
    {
      if !e.more {
        ArmAccept(env.k1);
      }
      if e.res < 0 {
        return;
      }
      TakeConn(e.res, e.conn, env);
    }

    method TakeConn(res: int, conn: ConnId, env: E.Env)
      requires Valid() && (env.block.Some? ==> env.block.value.0 !in mem)
      modifies this`sq, this`acts, this`starved, this`freeHead, this`freeList, this`mem, mem.Values
      ensures Valid() && E.FreeListed(old(Abs()))
      ensures Abs() == E.TakeConn(old(Abs()), res, conn, env)
      ensures old(mem.Values) <= mem.Values && fresh(mem.Values - old(mem.Values))
    {
      AllListed();
      var nc := ConnAlloc(env.block);
      if nc == null {
        CloseNow(Desc(cfg.direct, res), conn);
        return;
      }
      assert mem[nc.addr] in mem.Values;
      Adopt(nc, res, conn);
      SubmitRecv(nc, env.k2);
    }

    method Adopt(c: Conn, fd: int, conn: ConnId)
      requires Valid() && Owned(c)
      modifies c`fd, c`conn
      ensures Valid() && c.addr in old(Abs()).recs
      ensures var w := old(Abs()); Abs() == w.(recs := w.recs[c.addr := w.recs[c.addr].(fd := fd, conn := conn)])
    {
      ghost var was := Abs();
      assert mem[c.addr] in mem.Values;
      c.fd := fd;
      c.conn := conn;
      assert Records() == was.recs[c.addr := was.recs[c.addr].(fd := fd, conn := conn)];
    }

    method OnRecv(c: Conn, res: int, env: E.Env)
      requires Valid() && Owned(c) && E.EnvOk(Abs(), env)
      modifies this`sq, this`acts, this`starved, this`freeHead, this`freeList, c`next, scratch
      ensures Valid() && Abs() == E.OnRecv(old(Abs()), c.addr, res, env)
    {
      if res <= 0 {
        SubmitClose(c, env.k1);
        return;
      }
      CallHandler(c, res, env);
      var rlen := env.rlen;
      if rlen > 0 {
        if rlen > cfg.replyCap {
          rlen := cfg.replyCap;
        }
        SubmitReplyAndClose(c, rlen, env.k1, env.k2);
      } else {
        SubmitClose(c, env.k1);
      }
    }

    /** The body of the drain loop. A completion that names a record must name one that is
        allocated and not on the freelist: the loop dereferences and then frees it. */
    method DrainOne(e: Cqe, env: E.Env)
      requires Valid() && E.EnvOk(Abs(), env)
      requires e.data.Ref? ==> e.data.rec in mem && mem[e.data.rec] !in freeList
      modifies this`sq, this`acts, this`starved, this`marker, this`freeHead, this`freeList, this`mem
      modifies mem.Values, scratch
      ensures Valid() && E.Derefs(old(Abs()), e) && Abs() == E.DrainOne(old(Abs()), e, env)
      ensures old(mem.Values) <= mem.Values && fresh(mem.Values - old(mem.Values))
    {
      if e.data.Null? {
        return;
      }
      var state := if e.data.Marker? then marker else mem[e.data.rec].state;
      if state == StAccept {
        OnAccept(e, env);
      } else {
        var c := mem[e.data.rec];
        assert c in mem.Values;
        OnRecv(c, e.res, env);
      }
    }
  }
}
