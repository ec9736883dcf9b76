/**
 A load generator thread: its counters, its connections, and the loop that starts,
 serves and finally gives up on them.
 */
module LoadWorker {
  import opened Basics
  import opened Percentiles
  import opened LoadGen

  class Conn {
    var fd: int
    var phase: Phase
    var sent: nat
    var rbuf: Bytes
    const sampled: bool

    constructor (fd: int, sampled: bool)
      ensures this.fd == fd && this.sampled == sampled && Value() == View(Connecting, 0, [])
    {
      this.fd, phase, sent, rbuf := fd, Connecting, 0, [];
      this.sampled := sampled;
    }

    function Value(): View
      reads this
    {
      View(phase, sent, rbuf)
    }

    /** The state machine's part of `handle`. */
    method Advance(io: Io) returns (verdict: Verdict)
      requires ViewOk(Value())
      modifies this`phase, this`sent, this`rbuf
      ensures Value() == LoadGen.Handle(old(Value()), sampled, io).0
      ensures var end := LoadGen.Handle(old(Value()), sampled, io).1;
              match verdict
              case Open => end == None && ViewOk(Value())
              case Lost(r) => end == Some(Failed(r)) && r < F_NREASONS && r != F_WRONGBYTES && ViewOk(Value())
              case Whole => |rbuf| == REPLY_LEN
                            && end == Some(if ReplyAccepted(sampled, rbuf) then Completed(io.us)
                                           else Failed(F_WRONGBYTES))
    {
      HandleOk(Value(), sampled, io);
      WriteReasons(sent, io.outs);
      ReadReasons(rbuf, io.ins);
      if io.hup {
        return Lost(if phase == Connecting then F_CONNECT
                    else if io.soReset then F_RESET
                    else if phase == Reading then F_TRUNC else F_OTHER);
      }
      if phase == Connecting {
        if io.soError {
          return Lost(F_CONNECT);
        }
        phase := Writing;
      }
      if phase == Writing {
        var end := WriteRequest(io.outs);
        if end.Blocked? {
          return Open;
        }
        if end.Broken? {
          return Lost(end.reason);
        }
        phase := Reading;
      }
      var end := ReadReply(io.ins);
      match end
      case Blocked => return Open;
      case Broken(reason) => return Lost(reason);
      case All => return Whole;
    }

    method WriteRequest(outs: seq<WriteResult>) returns (end: IoEnd)
      requires sent <= REQ_LEN
      modifies this`sent
      ensures (sent, end) == WriteAll(old(sent), outs)
    {
      var i := 0;
      while sent < REQ_LEN
        invariant 0 <= i <= |outs|
        invariant WriteAll(sent, outs[i..]) == WriteAll(old(sent), outs)
        decreases |outs| - i
      {
        if i == |outs| {
          return Blocked;
        }
        var r := outs[i];
        if r.n > 0 {
          sent := sent + Min(r.n, REQ_LEN - sent);
          i := i + 1;
          continue;
        }
        if r.n < 0 && r.errno == Again {
          return Blocked;
        }
        return Broken(ErrnoReason(r.errno));
      }
      end := All;
    }

    method ReadReply(ins: seq<ReadResult>) returns (end: IoEnd)
      requires |rbuf| <= REPLY_LEN
      modifies this`rbuf
      ensures (rbuf, end) == ReadAll(old(rbuf), ins)
    {
      var i := 0;
      while |rbuf| < REPLY_LEN
        invariant 0 <= i <= |ins| && |rbuf| <= REPLY_LEN
        invariant ReadAll(rbuf, ins[i..]) == ReadAll(old(rbuf), ins)
        decreases |ins| - i
      {
        if i == |ins| {
          return Blocked;
        }
        match ins[i]
        case Data(bytes) =>
          if bytes == [] {
            return Broken(F_TRUNC);
          }
          rbuf := rbuf + Prefix(bytes, REPLY_LEN - |rbuf|);
          i := i + 1;
        case Eof =>
          return Broken(F_TRUNC);
        case ReadError(e) =>
          if e == Again {
            return Blocked;
          }
          return Broken(ErrnoReason(e));
      }
      end := All;
    }
  }

  /** What an event makes of a connection: still open, lost, or the reply is whole. */
  datatype Verdict = Open | Lost(reason: nat) | Whole

  datatype StartResult = NoSocket | Refused | Started(fd: nat)

  /** A resolved connection failed with reason r. */
  predicate FailedWith(r: nat, o: Outcome) {
    o.end == Failed(r)
  }

  predicate Finished(o: Outcome) {
    o.end.Completed?
  }

  /** A thread's books: its counters, and the history they are about. `live` counts the
      connections in flight; failed starts and the final time-outs belong to no resolved
      connection. */
  datatype Books = Books(
    samplePct: int,
    offered: nat,
    completed: nat,
    failed: seq<nat>,
    hist: seq<nat>,
    sampledTotal: nat,
    sampledBad: nat,
    live: nat,
    resolved: seq<Outcome>,
    noSocket: nat,
    refused: nat,
    timedOut: nat,
    flags: seq<bool>)

  ghost predicate Completions(b: Books) {
    && b.completed == |Lats(b.resolved)| == Count(Finished, b.resolved)
    && Histogram(b.hist, Lats(b.resolved))
    && forall o :: o in b.resolved ==> OutcomeOk(o)
  }

  ghost predicate Samples(b: Books) {
    && b.sampledTotal == Count(Validated, b.resolved)
    && b.sampledBad == Count(ValidatedBad, b.resolved)
    && |b.flags| == b.offered
    && forall i :: 0 <= i < b.offered ==> b.flags[i] == SampledAt(b.samplePct, i)
  }

  function Unresolved(b: Books, r: nat): nat {
    if r == F_OTHER then b.noSocket else if r == F_CONNECT then b.refused
    else if r == F_TIMEOUT then b.timedOut else 0
  }

  /** Resolved failures, failed starts and time-outs add up, reason by reason. */
  ghost predicate Failures(b: Books) {
    && |b.failed| == F_NREASONS
    && forall r :: 0 <= r < F_NREASONS ==> b.failed[r] == Count(o => FailedWith(r, o), b.resolved) + Unresolved(b, r)
  }

  ghost predicate BooksOk(b: Books) {
    Completions(b) && Samples(b) && Failures(b) && b.offered == |b.resolved| + b.live
  }

  function Bump(s: seq<nat>, i: nat): seq<nat>
    requires i < |s|
  {
    s[i := s[i] + 1]
  }

  /** A new thread's books. */
  function NoBooks(pct: int): (b: Books)
    ensures BooksOk(b)
  {
    Books(pct, 0, 0, seq(F_NREASONS, _ => 0), seq(HBUCKETS + 1, _ => 0), 0, 0, 0, [], 0, 0, 0, [])
  }

  function StartFailed(b: Books, socket: bool): Books
    requires |b.failed| == F_NREASONS
  {
    if socket then b.(failed := Bump(b.failed, F_OTHER), noSocket := b.noSocket + 1)
    else b.(failed := Bump(b.failed, F_CONNECT), refused := b.refused + 1)
  }

  function Offered(b: Books): Books {
    b.(offered := b.offered + 1, live := b.live + 1, flags := b.flags + [SampledAt(b.samplePct, b.offered)])
  }

  function Resolve(b: Books, o: Outcome): Books
    requires b.live > 0 && OutcomeOk(o) && |b.failed| == F_NREASONS && |b.hist| == HBUCKETS + 1
  {
    var b1 := b.(live := b.live - 1, resolved := b.resolved + [o],
                 sampledTotal := b.sampledTotal + (if Validated(o) then 1 else 0),
                 sampledBad := b.sampledBad + (if ValidatedBad(o) then 1 else 0));
    match o.end
    case Completed(us) => b1.(completed := b.completed + 1, hist := Bump(b.hist, Bucket(us)))
    case Failed(r) => b1.(failed := Bump(b.failed, r))
  }

  lemma StartFailedOk(b: Books, socket: bool)
    requires BooksOk(b)
    ensures BooksOk(StartFailed(b, socket))
  {
  }

  lemma OfferedOk(b: Books)
    requires BooksOk(b)
    ensures BooksOk(Offered(b))
  {
  }

  lemma ResolveCompletions(b: Books, o: Outcome)
    requires BooksOk(b) && b.live > 0 && OutcomeOk(o)
    ensures Completions(Resolve(b, o))
  {
    var b1 := Resolve(b, o);
    LatsSnoc(b.resolved, o);
    assert Lats(b.resolved) + [] == Lats(b.resolved);
    CountSnoc(Finished, b.resolved, o);
    if o.end.Completed? {
      HistogramSnoc(b.hist, b1.hist, Lats(b.resolved), o.end.us);
    }
  }

  lemma ResolveSamples(b: Books, o: Outcome)
    requires BooksOk(b) && b.live > 0 && OutcomeOk(o)
    ensures Samples(Resolve(b, o))
  {
    CountSnoc(Validated, b.resolved, o);
    CountSnoc(ValidatedBad, b.resolved, o);
  }

  lemma ResolveFailures(b: Books, o: Outcome)
    requires BooksOk(b) && b.live > 0 && OutcomeOk(o)
    ensures Failures(Resolve(b, o))
  {
    var b1 := Resolve(b, o);
    forall r | 0 <= r < F_NREASONS
      ensures b1.failed[r] == Count(x => FailedWith(r, x), b1.resolved) + Unresolved(b1, r)
    {
      CountSnoc(x => FailedWith(r, x), b.resolved, o);
    }
  }

  lemma ResolveOk(b: Books, o: Outcome)
    requires BooksOk(b) && b.live > 0 && OutcomeOk(o)
    ensures BooksOk(Resolve(b, o))
  {
    ResolveCompletions(b, o);
    ResolveSamples(b, o);
    ResolveFailures(b, o);
  }

  lemma HistogramSnoc(h: seq<nat>, h1: seq<nat>, lats: seq<int>, us: int)
    requires Histogram(h, lats) && h1 == Bump(h, Bucket(us))
    ensures Histogram(h1, lats + [us])
  {
    forall b | 0 <= b <= HBUCKETS ensures h1[b] == CountAt(lats + [us], b) {
      CountAtSnoc(lats, us, b);
    }
  }

  // ---- what the books say

  lemma {:induction false} FlagsCount(pct: int, flags: seq<bool>)
    requires forall i :: 0 <= i < |flags| ==> flags[i] == SampledAt(pct, i)
    ensures Count((x: bool) => x, flags) == SampledAmong(pct, |flags|)
  {
    if flags != [] {
      var n := |flags| - 1;
      FlagsCount(pct, flags[..n]);
      CountSnoc((x: bool) => x, flags[..n], flags[n]);
      assert flags == flags[..n] + [flags[n]];
    }
  }

  /** Of the connections a thread offered, exactly so many are in the sample, and never
      fewer than the percentage asked for. */
  lemma SampledShare(b: Books)
    requires BooksOk(b)
    ensures var n, p := b.offered, Clamp(b.samplePct);
            && |b.flags| == n && Count((x: bool) => x, b.flags) == (n / 100) * p + Min(n % 100, p)
            && 100 * Count((x: bool) => x, b.flags) >= n * p
  {
    FlagsCount(b.samplePct, b.flags);
    SamplingRate(b.samplePct, b.offered);
  }

  lemma {:induction false} FailedOrFinished(s: seq<Outcome>)
    requires forall o :: o in s ==> OutcomeOk(o)
    ensures Count(Finished, s)
          + Count(o => FailedWith(0, o), s) + Count(o => FailedWith(1, o), s) + Count(o => FailedWith(2, o), s)
          + Count(o => FailedWith(3, o), s) + Count(o => FailedWith(4, o), s) + Count(o => FailedWith(5, o), s)
          == |s|
  {
    if s != [] {
      assert s[0] in s;
      FailedOrFinished(s[1..]);
    }
  }

  lemma TotalOfSix(f: seq<nat>)
    requires |f| == 6
    ensures Total(f) == f[0] + f[1] + f[2] + f[3] + f[4] + f[5]
  {
    assert f == [f[0], f[1], f[2], f[3], f[4]] + [f[5]];
    assert Total([f[0]]) == f[0] by { TotalSnoc([], f[0]); assert [] + [f[0]] == [f[0]]; }
    TotalSnoc([f[0]], f[1]);
    assert [f[0]] + [f[1]] == [f[0], f[1]];
    TotalSnoc([f[0], f[1]], f[2]);
    assert [f[0], f[1]] + [f[2]] == [f[0], f[1], f[2]];
    TotalSnoc([f[0], f[1], f[2]], f[3]);
    assert [f[0], f[1], f[2]] + [f[3]] == [f[0], f[1], f[2], f[3]];
    TotalSnoc([f[0], f[1], f[2], f[3]], f[4]);
    assert [f[0], f[1], f[2], f[3]] + [f[4]] == [f[0], f[1], f[2], f[3], f[4]];
    TotalSnoc([f[0], f[1], f[2], f[3], f[4]], f[5]);
  }

  /** Conservation: what was offered or failed to start is completed, failed or in flight. */
  lemma Conservation(b: Books)
    requires BooksOk(b)
    ensures b.completed + Total(b.failed) + b.live == b.offered + b.noSocket + b.refused + b.timedOut
  {
    FailedOrFinished(b.resolved);
    TotalOfSix(b.failed);
    assert forall r :: 0 <= r < F_NREASONS ==>
        b.failed[r] == Count(o => FailedWith(r, o), b.resolved) + Unresolved(b, r);
    assert b.failed[0] == Count(o => FailedWith(0, o), b.resolved) + b.refused;
    assert b.failed[1] == Count(o => FailedWith(1, o), b.resolved);
    assert b.failed[2] == Count(o => FailedWith(2, o), b.resolved) + b.timedOut;
    assert b.failed[3] == Count(o => FailedWith(3, o), b.resolved);
    assert b.failed[4] == Count(o => FailedWith(4, o), b.resolved);
    assert b.failed[5] == Count(o => FailedWith(5, o), b.resolved) + b.noSocket;
  }

  class Worker {
    const samplePct: int
    var offered: nat
    var completed: nat
    const failed: array<nat>       // by reason
    const hist: array<nat>
    var sampledTotal: nat
    var sampledBad: nat
    var live: seq<Conn>            // the connections registered with epoll
    ghost var resolved: seq<Outcome>
    ghost var noSocket: nat
    ghost var refused: nat
    ghost var timedOut: nat
    ghost var flags: seq<bool>
    ghost var trace: seq<nat>      // how many were in flight after each start and each event

    ghost function Abs(): Books
      reads this, failed, hist
    {
      Books(samplePct, offered, completed, failed[..], hist[..], sampledTotal, sampledBad, |live|,
            resolved, noSocket, refused, timedOut, flags)
    }

    ghost predicate Valid()
      reads this, failed, hist, live
    {
      && failed != hist && failed.Length == F_NREASONS && hist.Length == HBUCKETS + 1
      && BooksOk(Abs()) && Connections(null)
    }

    /** The connections are distinct and open, but for the one that is being judged. */
    ghost predicate Connections(judged: Conn?)
      reads this, live
    {
      && (forall i, j :: 0 <= i < j < |live| ==> live[i] != live[j])
      && (forall c :: c in live && c != judged ==> c.fd >= 0 && ViewOk(c.Value()))
    }

    constructor (samplePct: int)
      ensures Valid() && this.samplePct == samplePct && Abs() == NoBooks(samplePct) && live == [] && trace == []
      ensures fresh(failed) && fresh(hist)
    {
      this.samplePct := samplePct;
      offered, completed, sampledTotal, sampledBad := 0, 0, 0, 0;
      failed := new nat[F_NREASONS](_ => 0);
      hist := new nat[HBUCKETS + 1](_ => 0);
      live := [];
      resolved, flags, trace, noSocket, refused, timedOut := [], [], [], 0, 0, 0;
    }

    method CountFailure(reason: nat)
      requires reason < failed.Length
      modifies failed
      ensures failed[..] == Bump(old(failed[..]), reason)
    {
      failed[reason] := failed[reason] + 1;
    }

    ghost method Note()
      requires Valid()
      modifies this`trace
      ensures Valid() && Abs() == old(Abs()) && trace == old(trace) + [|live|]
    {
      trace := trace + [|live|];
    }

    /** A new connection behind the others, sampled by its position among the offered. */
    twostate predicate Added()
      reads this, live
    {
      && |live| == |old(live)| + 1 && live[..|old(live)|] == old(live) && fresh(live[|old(live)|])
      && live[|old(live)|].Value() == View(Connecting, 0, [])
      && live[|old(live)|].sampled == SampledAt(samplePct, old(offered))
    }

    /** Start one connection. A failed start is counted and uses up no sampling position. */
    method ConnStart(r: StartResult) returns (ok: bool)
      requires Valid()
      modifies this`offered, this`live, this`noSocket, this`refused, this`flags, this`trace, failed
      ensures Valid() && (ok <==> r.Started?) && trace == old(trace) + [|live|]
      ensures Abs() == if ok then Offered(old(Abs())) else StartFailed(old(Abs()), r.NoSocket?)
      ensures if ok then Added() else live == old(live)
    {
      match r {
        case NoSocket =>
          StartFailure(true);
          ok := false;
        case Refused =>
          StartFailure(false);
          ok := false;
        case Started(fd) =>
          Offer(fd);
          ok := true;
      }
      Note();
    }

    method StartFailure(socket: bool)
      requires Valid()
      modifies this`noSocket, this`refused, failed
      ensures Valid() && Abs() == StartFailed(old(Abs()), socket)
    {
      StartFailedOk(Abs(), socket);
      if socket {
        CountFailure(F_OTHER);
        noSocket := noSocket + 1;
      } else {
        CountFailure(F_CONNECT);
        refused := refused + 1;
      }
    }

    method Offer(fd: nat)
      requires Valid()
      modifies this`offered, this`live, this`flags
      ensures Valid() && Abs() == Offered(old(Abs()))
      ensures Added()
    {
      OfferedOk(Abs());
      var c := new Conn(fd, samplePct > 0 && offered % 100 < samplePct);
      live := live + [c];
      flags := flags + [c.sampled];
      offered := offered + 1;
    }

    method HistAdd(us: int)
      requires hist.Length == HBUCKETS + 1
      modifies hist
      ensures hist[..] == Bump(old(hist[..]), Bucket(us)) && Prints(50 * Bucket(us), us)
    {
      BucketPrints(us);
      var b := TruncDiv(us, HUS_PER);
      if b < 0 {
        b := 0;
      }
      if b > HBUCKETS {
        b := HBUCKETS;
      }
      hist[b] := hist[b] + 1;
    }

    /** Connection c, at place i, ends before its reply was whole. */
    method ConnFail(c: Conn, i: nat, reason: nat)
      requires Valid() && i < |live| && live[i] == c && reason < F_NREASONS && reason != F_WRONGBYTES
      requires |c.rbuf| < REPLY_LEN
      modifies this`live, this`resolved, c`fd, failed
      ensures Valid() && live == Without(old(live), i) && c.fd == -1
      ensures Abs() == Resolve(old(Abs()), Outcome(c.sampled, c.rbuf, Failed(reason)))
    {
      ghost var o := Outcome(c.sampled, c.rbuf, Failed(reason));
      c.fd := -1;
      CountFailure(reason);
      live := Without(live, i);
      resolved := resolved + [o];
      ResolveOk(old(Abs()), o);
      assert Abs() == Resolve(old(Abs()), o);
    }

    /** Check a whole reply; a connection in the sample is compared in full. */
    method Check(c: Conn) returns (bad: bool)
      requires |c.rbuf| == REPLY_LEN
      modifies this`sampledTotal, this`sampledBad
      ensures bad == !ReplyAccepted(c.sampled, c.rbuf)
      ensures sampledTotal == old(sampledTotal) + if c.sampled then 1 else 0
      ensures sampledBad == old(sampledBad) + if c.sampled && bad then 1 else 0
    {
      bad := false;
      if c.sampled {
        sampledTotal := sampledTotal + 1;
        if c.rbuf != REPLY {
          bad := true;
          sampledBad := sampledBad + 1;
        }
      } else if c.rbuf[0] != 72 || c.rbuf[REPLY_LEN - 1] != 10 {
        bad := true;
      }
    }

    /** Arrays and connections are in order, whatever the books say. */
    ghost predicate Sane(judged: Conn?)
      reads this, live
    {
      failed != hist && failed.Length == F_NREASONS && hist.Length == HBUCKETS + 1 && Connections(judged)
    }

    method WrongBytes(c: Conn, i: nat)
      requires Sane(c) && i < |live| && live[i] == c
      modifies this`live, this`resolved, c`fd, failed
      ensures Sane(null) && live == Without(old(live), i) && c.fd == -1
      ensures failed[..] == Bump(old(failed[..]), F_WRONGBYTES)
      ensures resolved == old(resolved) + [Outcome(c.sampled, c.rbuf, Failed(F_WRONGBYTES))]
    {
      CountFailure(F_WRONGBYTES);
      c.fd := -1;
      live := Without(live, i);
      resolved := resolved + [Outcome(c.sampled, c.rbuf, Failed(F_WRONGBYTES))];
    }

    method ConnDone(c: Conn, i: nat, us: int)
      requires Sane(c) && i < |live| && live[i] == c
      modifies this`live, this`resolved, this`completed, c`fd, hist
      ensures Sane(null) && live == Without(old(live), i) && c.fd == -1 && completed == old(completed) + 1
      ensures hist[..] == Bump(old(hist[..]), Bucket(us))
      ensures resolved == old(resolved) + [Outcome(c.sampled, c.rbuf, Completed(us))]
    {
      HistAdd(us);
      completed := completed + 1;
      c.fd := -1;
      live := Without(live, i);
      resolved := resolved + [Outcome(c.sampled, c.rbuf, Completed(us))];
    }

    /** Connection c, at place i, has read a whole reply: it completes or has wrong bytes. */
    method Judge(c: Conn, i: nat, us: int)
      requires Sane(c) && i < |live| && live[i] == c && |c.rbuf| == REPLY_LEN
      modifies this`live, this`resolved, this`sampledTotal, this`sampledBad, this`completed, c`fd, failed, hist
      ensures Sane(null) && live == Without(old(live), i) && c.fd == -1
      ensures Abs() == Resolve(old(Abs()), Outcome(c.sampled, c.rbuf,
                if ReplyAccepted(c.sampled, c.rbuf) then Completed(us) else Failed(F_WRONGBYTES)))
    {
      var bad := Check(c);
      if bad {
        WrongBytes(c, i);
      } else {
        ConnDone(c, i, us);
      }
    }

    /** Judging keeps the books. */
    method Finish(c: Conn, i: nat, us: int)
      requires Sane(c) && BooksOk(Abs()) && i < |live| && live[i] == c && |c.rbuf| == REPLY_LEN
      modifies this`live, this`resolved, this`sampledTotal, this`sampledBad, this`completed, c`fd, failed, hist
      ensures Valid() && live == Without(old(live), i) && c.fd == -1
      ensures Abs() == Resolve(old(Abs()), Outcome(c.sampled, c.rbuf,
                if ReplyAccepted(c.sampled, c.rbuf) then Completed(us) else Failed(F_WRONGBYTES)))
    {
      ResolveOk(Abs(), Outcome(c.sampled, c.rbuf,
        if ReplyAccepted(c.sampled, c.rbuf) then Completed(us) else Failed(F_WRONGBYTES)));
      Judge(c, i, us);
    }

    /** Handle an event of connection c, at place i. Returns 1 exactly when the connection
        was resolved, and then it is out of epoll and its descriptor closed. */
    method Handle(c: Conn, i: nat, io: Io) returns (done: int)
      requires Valid() && i < |live| && live[i] == c
      modifies this`live, this`resolved, this`sampledTotal, this`sampledBad, this`completed, this`trace, c, failed, hist
      ensures trace == old(trace) + [|live|]
      ensures Valid() && done == if LoadGen.Handle(old(c.Value()), c.sampled, io).1.Some? then 1 else 0
      ensures c.Value() == LoadGen.Handle(old(c.Value()), c.sampled, io).0
      ensures done == 0 ==> Abs() == old(Abs()) && live == old(live) && c.fd == old(c.fd)
      ensures done == 1 ==>
                && live == Without(old(live), i) && c.fd == -1
                && var o := Outcome(c.sampled, c.rbuf, LoadGen.Handle(old(c.Value()), c.sampled, io).1.value);
                   OutcomeOk(o) && Abs() == Resolve(old(Abs()), o)
    {
      assert c in live;
      HandleOk(c.Value(), c.sampled, io);
      var verdict := c.Advance(io);
      match verdict {
        case Open =>
          done := 0;
        case Lost(reason) =>
          ConnFail(c, i, reason);
          done := 1;
        case Whole =>
          Finish(c, i, io.us);
          done := 1;
      }
      Note();
    }
  }
}
