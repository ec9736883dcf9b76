/**
 The submit helpers for every state of the submission queue, full or not, and whatever part of
 it the kernel takes in an emergency: no request is lost or reordered, and every connection
 that a helper gives up is released exactly once.
 */
module Fallbacks {
  import opened Basics
  import opened Ring
  import opened Engine

  /** What the kernel sees of a worker, in order: what it did, then what it has queued. */
  function Stream(w: Worker): seq<Act> {
    w.acts + Issues(w.sq)
  }

  lemma IssuesConcat(a: seq<Sqe>, b: seq<Sqe>)
    ensures Issues(a + b) == Issues(a) + Issues(b)
  {
    var x, y := Issues(a + b), Issues(a) + Issues(b);
    assert |x| == |y|;
    forall i | 0 <= i < |x| ensures x[i] == y[i] {}
  }

  lemma FlushKeeps(w: Worker, k: nat)
    ensures Stream(Flush(w, k)) == Stream(w)
  {
    var n := Min(k, |w.sq|);
    assert w.sq == w.sq[..n] + w.sq[n..];
    IssuesConcat(w.sq[..n], w.sq[n..]);
  }

  /** Asking for an entry: with room there is one at once. With 4096 queued it takes a submit,
      which changes nothing in the order of requests, and succeeds exactly when the kernel
      takes an entry. */
  lemma GetSqeMeans(w: Worker, k: nat)
    requires |w.sq| <= 4096
    ensures var (w1, ok) := GetSqe(w, k);
            && Stream(w1) == Stream(w) && w1 == w.(sq := w1.sq, acts := w1.acts, starved := w1.starved)
            && (|w.sq| < 4096 ==> ok && w1 == w)
            && (ok <==> |w1.sq| < 4096) && (ok <==> |w.sq| < 4096 || k > 0)
  {
    FlushKeeps(w, k);
  }

  /** An act that gives up descriptor d of connection c. */
  predicate Gives(d: Desc, c: ConnId, a: Act) {
    a == Issue(Close(d, c)) || a == SyncClose(d, c) || a == Leak(d, c)
  }

  /** How often d of c is given up, or about to be. */
  function Releases(w: Worker, d: Desc, c: ConnId): nat {
    Count(a => Gives(d, c, a), Stream(w))
  }

  lemma {:induction false} CountConcat<T>(p: T -> bool, a: seq<T>, b: seq<T>)
    ensures Count(p, a + b) == Count(p, a) + Count(p, b)
  {
    if a == [] {
      assert a + b == b;
    } else {
      CountConcat(p, a[1..], b);
      assert (a + b)[0] == a[0] && (a + b)[1..] == a[1..] + b;
    }
  }

  lemma PushCounts(w: Worker, e: Sqe, d: Desc, c: ConnId)
    ensures Releases(Push(w, e), d, c) == Releases(w, d, c) + if e == Close(d, c) then 1 else 0
  {
    IssuesConcat(w.sq, [e]);
    assert Issues([e]) == [Issue(e)];
    assert Stream(Push(w, e)) == Stream(w) + [Issue(e)];
    CountSnoc(a => Gives(d, c, a), Stream(w), Issue(e));
  }

  lemma DropCounts(w: Worker, r: Addr, d: Desc, c: ConnId)
    requires r in w.recs
    ensures Releases(DropRecord(w, r), d, c)
         == Releases(w, d, c) + if d == DescOf(w, r) && c == w.recs[r].conn then 1 else 0
  {
    var p := (a: Act) => Gives(d, c, a);
    var a := if w.cfg.direct then Leak(DescOf(w, r), w.recs[r].conn) else SyncClose(DescOf(w, r), w.recs[r].conn);
    assert DropRecord(w, r).acts == w.acts + [a];
    CountSnoc(p, w.acts, a);
    CountConcat(p, w.acts, Issues(w.sq));
    CountConcat(p, w.acts + [a], Issues(w.sq));
  }

  lemma GetCounts(w: Worker, k: nat, d: Desc, c: ConnId)
    requires |w.sq| <= 4096
    ensures Releases(GetSqe(w, k).0, d, c) == Releases(w, d, c)
  {
    GetSqeMeans(w, k);
  }

  /** Closing a connection releases its descriptor exactly once and no other, queue full or
      not, and its record goes to the head of the freelist. */
  lemma CloseReleases(w: Worker, r: Addr, k: nat, d: Desc, c: ConnId)
    requires r in w.recs && |w.sq| <= 4096
    ensures Releases(QueueClose(w, r, k), d, c)
         == Releases(w, d, c) + if d == DescOf(w, r) && c == w.recs[r].conn then 1 else 0
    ensures var w1 := QueueClose(w, r, k);
            w1.free == [r] + w.free && w1.recs == w.recs && |w1.sq| <= 4096
  {
    GetCounts(w, k, d, c);
    var (w1, ok) := GetSqe(w, k);
    if ok {
      PushCounts(w1, Close(DescOf(w1, r), w1.recs[r].conn), d, c);
    } else {
      DropCounts(w1, r, d, c);
    }
  }

  /** Replying and closing as well, whichever of its two entries is not to be had. */
  lemma ReplyReleases(w: Worker, r: Addr, len: nat, k1: nat, k2: nat, d: Desc, c: ConnId)
    requires r in w.recs && |w.sq| <= 4096
    ensures Releases(QueueReplyAndClose(w, r, len, k1, k2), d, c)
         == Releases(w, d, c) + if d == DescOf(w, r) && c == w.recs[r].conn then 1 else 0
    ensures var w1 := QueueReplyAndClose(w, r, len, k1, k2);
            w1.free == [r] + w.free && w1.recs == w.recs && |w1.sq| <= 4096
  {
    GetCounts(w, k1, d, c);
    var (w1, ok) := GetSqe(w, k1);
    if ok {
      var s := Send(DescOf(w1, r), len, w1.recs[r].conn);
      PushCounts(w1, s, d, c);
      CloseReleases(Push(w1, s), r, k2, d, c);
    } else {
      DropCounts(w1, r, d, c);
    }
  }

  /** Receiving either queues the recv behind everything else and releases nothing, or gives
      the connection up: its descriptor is released once and its record is free again. */
  lemma RecvQueuesOrReleases(w: Worker, r: Addr, k: nat, d: Desc, c: ConnId)
    requires r in w.recs && |w.sq| <= 4096
    ensures var w1 := QueueRecv(w, r, k);
            if |w.sq| < 4096 || k > 0
            then Stream(w1) == Stream(w) + [Issue(Recv(r, DescOf(w, r), w.cfg.recvBuf, w.recs[r].conn))]
                 && w1.recs == w.recs[r := w.recs[r].(state := StRecv)] && w1.free == w.free
            else w1.free == [r] + w.free && w1.recs == w.recs
                 && Releases(w1, d, c) == Releases(w, d, c) + if d == DescOf(w, r) && c == w.recs[r].conn then 1 else 0
  {
    GetSqeMeans(w, k);
    GetCounts(w, k, d, c);
    var (w1, ok) := GetSqe(w, k);
    if ok {
      var e := Recv(r, DescOf(w1, r), w.cfg.recvBuf, w1.recs[r].conn);
      IssuesConcat(w1.sq, [e]);
      assert Issues([e]) == [Issue(e)];
      assert w1.acts + (Issues(w1.sq) + [Issue(e)]) == (w1.acts + Issues(w1.sq)) + [Issue(e)];
    } else {
      DropCounts(w1, r, d, c);
    }
  }
}
