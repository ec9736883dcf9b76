/**
 The treatment server's worker as its source writes it: records linked through `next`,
 each with a state, a descriptor, a `sent` counter and a request buffer. Every method is
 tied to the function in Treatment that specifies it.
 */
module TreatClass {
  import opened Basics
  import opened Ring
  import opened Treatment
  import opened System
  import E = Engine

  class TConn {
    const addr: Addr
    var next: TConn?
    var state: TState
    var fd: int
    var sent: int
    var buf: Bytes
    var conn: ConnId

    constructor (addr: Addr, content: TRecord)
      ensures this.addr == addr && Content() == content && next == null
    {
      this.addr := addr;
      next, state, fd, sent, buf, conn := null, content.state, content.fd, content.sent, content.buf, content.conn;
    }

    function Content(): TRecord
      reads this
    {
      TRecord(state, fd, sent, buf, conn)
    }
  }

  /** The list that starts at head runs through cs and ends. */
  ghost predicate Linked(head: TConn?, cs: seq<TConn>)
    reads cs`next
  {
    if cs == [] then head == null else head == cs[0] && Linked(cs[0].next, cs[1..])
  }

  ghost function Addrs(cs: seq<TConn>): (r: seq<Addr>)
    ensures |r| == |cs| && forall i :: 0 <= i < |cs| ==> r[i] == cs[i].addr
  {
    if cs == [] then [] else [cs[0].addr] + Addrs(cs[1..])
  }

  class TreatWorker {
    const direct: bool
    var freeHead: TConn?
    var marker: TState
    var mem: map<Addr, TConn>     // the records the worker has allocated, by address
    var sq: seq<Sqe>
    var acts: seq<Act>            // what the worker did to the outside, in order
    ghost var freeList: seq<TConn>
    ghost var starved: nat

    ghost predicate Valid()
      reads this, mem.Values
    {
      && marker == TAccept
      && (forall a :: a in mem ==> mem[a].addr == a)
      && Listed()
    }

    /** The list from freeHead is freeList: acyclic, made of allocated records. */
    ghost predicate Listed()
      reads this, mem.Values
    {
      && (forall c :: c in freeList ==> c.addr in mem && mem[c.addr] == c && c in mem.Values)
      && Distinct(freeList)
      && Linked(freeHead, freeList)
    }

    ghost function Records(): map<Addr, TRecord>
      reads this, mem.Values
    {
      map a | a in mem :: mem[a].Content()
    }

    /** The worker as a value. */
    ghost function Abs(): Treat
      reads this, mem.Values
    {
      Treat(direct, Addrs(freeList), Records(), sq, acts, starved)
    }

    lemma AllListed()
      requires Valid()
      ensures FreeListed(Abs())
    {
      forall i | 0 <= i < |freeList| ensures freeList[i].addr in mem { assert freeList[i] in freeList; }
    }

    /** c is a record of this worker that is in use. */
    ghost predicate Owned(c: TConn)
      reads this
    {
      c.addr in mem && mem[c.addr] == c && c !in freeList
    }

    constructor (direct: bool)
      ensures Valid() && this.direct == direct && mem == map[] && freeList == [] && sq == []
      ensures acts == [] && starved == 0
    {
      this.direct := direct;
      freeHead := null;
      marker := TAccept;
      mem, sq, acts := map[], [], [];
      freeList, starved := [], 0;
    }

    method ConnAlloc(block: Option<(Addr, TRecord)>) returns (c: TConn?)
      requires Valid()
      requires block.Some? ==> block.value.0 !in mem
      modifies this`freeHead, this`freeList, this`mem
      ensures Valid() && old(mem.Values) <= mem.Values && fresh(mem.Values - old(mem.Values))
      ensures Abs() == Alloc(old(Abs()), block).0
      ensures Alloc(old(Abs()), block).1 == if c == null then None else Some(c.addr)
      ensures c != null ==> Owned(c)
    {
      if freeHead != null {
        c := PopFree();
      } else if block.None? {
        c := null;
      } else {
        c := Malloc(block.value.0, block.value.1);
      }
    }

    method PopFree() returns (c: TConn)
      requires Valid() && freeHead != null
      modifies this`freeHead, this`freeList
      ensures Valid() && Owned(c) && [c] + freeList == old(freeList)
    {
      c := freeHead;
      freeHead := c.next;
      freeList := freeList[1..];
    }

    method Malloc(addr: Addr, content: TRecord) returns (c: TConn)
      requires Valid() && addr !in mem
      modifies this`mem
      ensures Valid() && Owned(c) && c.addr == addr && fresh(c) && c.Content() == content
      ensures mem == old(mem)[addr := c] && mem.Values == old(mem.Values) + {c}
      ensures Records() == old(Records())[addr := content]
    {
      c := new TConn(addr, content);
      mem := mem[addr := c];
      assert mem.Values == old(mem.Values) + {c} by {
        assert mem[addr] == c;
        forall x | x in old(mem.Values) ensures x in mem.Values {
          var a :| a in old(mem) && old(mem)[a] == x;
          assert mem[a] == x;
        }
      }
    }

    method ConnFree(c: TConn)
      requires Valid() && Owned(c)
      modifies this`freeHead, this`freeList, c`next
      ensures Valid() && Abs() == Free(old(Abs()), c.addr)
      ensures mem == old(mem)
    {
      ghost var was := Abs();
      assert mem[c.addr] in mem.Values;
      c.next := freeHead;
      freeHead := c;
      freeList := [c] + freeList;
      assert freeList[1..] == old(freeList);
      assert Records() == was.recs;
    }

    /** io_uring_get_sqe and the retry behind a submit that every helper begins with. */
    method Get(k: nat) returns (ok: bool)
      requires Valid()
      modifies this`sq, this`acts, this`starved
      ensures Valid() && Abs() == GetSqe(old(Abs()), k).0 && ok == GetSqe(old(Abs()), k).1
    {
      if |sq| < QUEUE_DEPTH {
        return true;
      }
      var n := Min(k, |sq|);
      acts := acts + E.Issues(sq[..n]);
      sq := sq[n..];
      starved := starved + 1;
      ok := |sq| < QUEUE_DEPTH;
    }

    method Release(num: int, conn: ConnId)
      requires Valid()
      modifies this`acts
      ensures Valid() && Abs() == CloseNow(old(Abs()), num, conn)
    {
      if direct {
        acts := acts + [Leak(Desc(true, num), conn)];
      } else {
        acts := acts + [SyncClose(Desc(false, num), conn)];
      }
    }

    /** What every helper does when there is no entry to be had. */
    method GiveUp(c: TConn)
      requires Valid() && Owned(c)
      modifies this`acts, this`freeHead, this`freeList, c`next
      ensures Valid() && c.addr in old(Abs()).recs && Abs() == Drop(old(Abs()), c.addr)
    {
      assert mem[c.addr] in mem.Values;
      Release(c.fd, c.conn);
      ConnFree(c);
    }

    method Arm(k: nat)
      requires Valid()
      modifies this`sq, this`acts, this`starved, this`marker
      ensures Valid() && Abs() == ArmAccept(old(Abs()), k)
    {
      var ok := Get(k);
      if !ok {
        return;
      }
      sq := sq + [Accept(direct, true)];
      marker := TAccept;
    }

    method QueueRecv(c: TConn, k: nat)
      requires Valid() && Owned(c)
      modifies this`sq, this`acts, this`starved, this`freeHead, this`freeList, c`next, c`state
      ensures Valid() && Abs() == SubmitRecv(old(Abs()), c.addr, k)
    {
      assert mem[c.addr] in mem.Values;
      var ok := Get(k);
      if !ok {
        GiveUp(c);
        return;
      }
      ghost var was := Abs();
      c.state := TRecv;
      assert Records() == was.recs[c.addr := was.recs[c.addr].(state := TRecv)];
      sq := sq + [Recv(c.addr, Desc(direct, c.fd), READ_BUF_SZ, c.conn)];
    }

    method QueueClose(c: TConn, k: nat)
      requires Valid() && Owned(c)
      modifies this`sq, this`acts, this`starved, this`freeHead, this`freeList, c`next
      ensures Valid() && Abs() == SubmitClose(old(Abs()), c.addr, k)
    {
      assert mem[c.addr] in mem.Values;
      var ok := Get(k);
      if !ok {
        GiveUp(c);
        return;
      }
      sq := sq + [Close(Desc(direct, c.fd), c.conn)];
      ConnFree(c);
    }

    /** Behind the send come the same steps as in QueueClose. */
    method QueueReplyAndClose(c: TConn, k1: nat, k2: nat)
      requires Valid() && Owned(c)
      modifies this`sq, this`acts, this`starved, this`freeHead, this`freeList, c`next
      ensures Valid() && Abs() == SubmitReplyAndClose(old(Abs()), c.addr, k1, k2)
    {
      var ok := Get(k1);
      if !ok {
        GiveUp(c);
        return;
      }
      PutSend(c);
      QueueClose(c, k2);
    }

    method PutSend(c: TConn)
      requires Valid() && Owned(c)
      modifies this`sq
      ensures Valid() && c.addr in old(Abs()).recs
      ensures var t := old(Abs());
              Abs() == t.(sq := t.sq + [Send(Desc(t.direct, t.recs[c.addr].fd), REPLY_LEN, t.recs[c.addr].conn)])
    {
      assert mem[c.addr] in mem.Values;
      sq := sq + [Send(Desc(direct, c.fd), REPLY_LEN, c.conn)];
    }

    method Adopt(c: TConn, fd: int, conn: ConnId)
      requires Valid() && Owned(c)
      modifies c`fd, c`conn, c`sent
      ensures Valid() && c.addr in old(Abs()).recs && Abs() == Setup(old(Abs()), c.addr, fd, conn)
    {
      ghost var was := Abs();
      assert mem[c.addr] in mem.Values;
      c.fd := fd;
      c.conn := conn;
      c.sent := 0;
      assert Records() == was.recs[c.addr := was.recs[c.addr].(fd := fd, conn := conn, sent := 0)];
    }

    method Take(res: int, conn: ConnId, block: Option<(Addr, TRecord)>, k: nat)
      requires Valid() && (block.Some? ==> block.value.0 !in mem)
      modifies this`sq, this`acts, this`starved, this`freeHead, this`freeList, this`mem, mem.Values
      ensures Valid() && FreeListed(old(Abs()))
      ensures Abs() == TakeConn(old(Abs()), res, conn, block, k)
      ensures old(mem.Values) <= mem.Values && fresh(mem.Values - old(mem.Values))
    {
      AllListed();
      var nc := ConnAlloc(block);
      if nc == null {
        Release(res, conn);
        return;
      }
      assert mem[nc.addr] in mem.Values;
      Adopt(nc, res, conn);
      QueueRecv(nc, k);
    }

    method Accepted(e: Cqe, block: Option<(Addr, TRecord)>, k1: nat, k2: nat)
      requires Valid() && (e.data.Ref? ==> e.data.rec in mem) && (block.Some? ==> block.value.0 !in mem)
      modifies this`sq, this`acts, this`starved, this`marker, this`freeHead, this`freeList, this`mem, mem.Values
      ensures Valid() && Derefs(old(Abs()), e) && Abs() == OnAccept(old(Abs()), e, block, k1, k2)
      ensures old(mem.Values) <= mem.Values && fresh(mem.Values - old(mem.Values))
    {
      AllListed();
      if !e.more {
        Arm(k1);
      }
      if e.res < 0 {
        return;
      }
      Take(e.res, e.conn, block, k2);
    }

    /** The body of the drain loop. A completion that names a record must name one that is
        allocated and not on the freelist. */
    method Drain(e: Cqe, block: Option<(Addr, TRecord)>, k1: nat, k2: nat)
      requires Valid() && (block.Some? ==> block.value.0 !in mem)
      requires e.data.Ref? ==> e.data.rec in mem && mem[e.data.rec] !in freeList
      modifies this`sq, this`acts, this`starved, this`marker, this`freeHead, this`freeList, this`mem, mem.Values
      ensures Valid() && Derefs(old(Abs()), e) && Abs() == DrainOne(old(Abs()), e, block, k1, k2)
      ensures old(mem.Values) <= mem.Values && fresh(mem.Values - old(mem.Values))
    {
      AllListed();
      if e.data.Null? {
        return;
      }
      var state := if e.data.Marker? then marker else mem[e.data.rec].state;
      if state == TAccept {
        Accepted(e, block, k1, k2);
      } else {
        var c := mem[e.data.rec];
        assert c in mem.Values;
        if state != TRecv {
          ConnFree(c);
        } else if e.res <= 0 {
          QueueClose(c, k1);
        } else {
          QueueReplyAndClose(c, k1, k2);
        }
      }
    }

    /** The system calls made while a completion was drained have taken effect. */
    method Effect()
      requires Valid()
      modifies this`acts
      ensures Valid() && Abs() == old(Abs()).(acts := [])
    {
      acts := [];
    }

    lemma OnList(a: Addr)
      requires Valid() && a in mem
      ensures a in Abs().free <==> mem[a] in freeList
    {
      if mem[a] in freeList {
        var i :| 0 <= i < |freeList| && freeList[i] == mem[a];
        assert Abs().free[i] == a;
      }
      forall i | 0 <= i < |freeList| ensures mem[freeList[i].addr] == freeList[i] { assert freeList[i] in freeList; }
    }

    /** The kernel takes the first queued request. */
    method Issue()
      requires Valid() && sq != []
      modifies this`sq
      ensures Valid() && Abs() == old(Abs()).(sq := old(sq)[1..])
    {
      sq := sq[1..];
    }

    /** The kernel completes a recv: the request bytes land in the record's buffer. */
    method Deliver(r: Addr, payload: Bytes)
      requires Valid()
      modifies mem.Values`buf
      ensures Valid()
      ensures Abs() == Filled(old(Abs()), r, payload) && mem == old(mem)
    {
      ghost var was := Abs();
      if r in mem {
        var c := mem[r];
        assert c in mem.Values;
        c.buf := Fill(c.buf, payload);
        assert Records() == was.recs[r := was.recs[r].(buf := Fill(was.recs[r].buf, payload))];
      }
    }
  }
}
