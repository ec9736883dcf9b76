/**
 The load generator's connections: the state machine of one connection, what an ended
 connection is, and which connections are sampled.
 */
module LoadGen {
  import opened Basics

  const REQ_LEN: nat := 18
  const MAX_INFLIGHT: nat := 60000

  // failure reasons, in the source's order
  const F_CONNECT: nat := 0
  const F_RESET: nat := 1
  const F_TIMEOUT: nat := 2
  const F_TRUNC: nat := 3
  const F_WRONGBYTES: nat := 4
  const F_OTHER: nat := 5
  const F_NREASONS: nat := 6

  datatype Errno = Again | ConnReset | Other

  /** What one read returns: some bytes, end of file, or an error. */
  datatype ReadResult = Data(bytes: Bytes) | Eof | ReadError(errno: Errno)

  /** What one write returns, and errno. */
  datatype WriteResult = WriteResult(n: int, errno: Errno)

  /** What the socket does while one event of a connection is handled: the error bits,
      SO_ERROR, the results of successive writes and reads (EAGAIN when they run out),
      and the latency if the connection completes. */
  datatype Io = Io(hup: bool, soError: bool, soReset: bool, outs: seq<WriteResult>, ins: seq<ReadResult>, us: int)

  datatype Phase = Connecting | Writing | Reading

  /** The part of a connection that `handle` works on. `rbuf` holds the reply bytes read
      so far, so its length is the source's `got`. */
  datatype View = View(phase: Phase, sent: nat, rbuf: Bytes)

  /** An open connection; its reply is not whole yet. */
  predicate ViewOk(v: View) {
    && v.sent <= REQ_LEN && |v.rbuf| < REPLY_LEN
    && (v.phase == Connecting ==> v.sent == 0)
    && (v.phase != Reading ==> v.rbuf == [])
    && (v.phase == Reading ==> v.sent == REQ_LEN)
  }

  /** How a run of writes or reads ended: everything moved, the socket would block, or the
      connection failed. */
  datatype IoEnd = All | Blocked | Broken(reason: nat)

  function ErrnoReason(e: Errno): nat {
    if e == ConnReset then F_RESET else F_OTHER
  }

  /** Write until the request is out; the kernel never takes more than it is given. */
  function WriteAll(sent: nat, outs: seq<WriteResult>): (nat, IoEnd)
    decreases |outs|
  {
    if sent >= REQ_LEN then (sent, All)
    else if outs == [] then (sent, Blocked)
    else if outs[0].n > 0 then WriteAll(sent + Min(outs[0].n, REQ_LEN - sent), outs[1..])
    else if outs[0].n < 0 && outs[0].errno == Again then (sent, Blocked)
    else (sent, Broken(ErrnoReason(outs[0].errno)))
  }

  /** Read until the reply is in, never more than what is missing. */
  function ReadAll(rbuf: Bytes, ins: seq<ReadResult>): (Bytes, IoEnd)
    requires |rbuf| <= REPLY_LEN
    decreases |ins|
  {
    if |rbuf| >= REPLY_LEN then (rbuf, All)
    else if ins == [] then (rbuf, Blocked)
    else
      match ins[0]
      case Data(bytes) =>
        if bytes == [] then (rbuf, Broken(F_TRUNC))
        else ReadAll(rbuf + Prefix(bytes, REPLY_LEN - |rbuf|), ins[1..])
      case Eof => (rbuf, Broken(F_TRUNC))
      case ReadError(e) => if e == Again then (rbuf, Blocked) else (rbuf, Broken(ErrnoReason(e)))
  }

  /** The bytes the socket delivers before it blocks, ends or fails. */
  function Stream(ins: seq<ReadResult>): Bytes {
    if ins == [] || !ins[0].Data? || ins[0].bytes == [] then [] else ins[0].bytes + Stream(ins[1..])
  }

  /** However the bytes are cut into reads, what is kept is the stream, up to the length of
      a reply; and the reply is complete exactly when the stream suffices. */
  lemma {:induction false} ReadsStream(rbuf: Bytes, ins: seq<ReadResult>)
    requires |rbuf| <= REPLY_LEN
    ensures ReadAll(rbuf, ins).0 == Prefix(rbuf + Stream(ins), REPLY_LEN)
    ensures ReadAll(rbuf, ins).1.All? <==> |rbuf| + |Stream(ins)| >= REPLY_LEN
    decreases |ins|
  {
    if |rbuf| < REPLY_LEN && ins != [] && ins[0].Data? && ins[0].bytes != [] {
      var bytes, rest := ins[0].bytes, ins[1..];
      var more := rbuf + Prefix(bytes, REPLY_LEN - |rbuf|);
      ReadsStream(more, rest);
      assert rbuf + (bytes + Stream(rest)) == (rbuf + bytes) + Stream(rest);
    }
  }

  lemma {:induction false} ReadReasons(rbuf: Bytes, ins: seq<ReadResult>)
    requires |rbuf| <= REPLY_LEN
    ensures |ReadAll(rbuf, ins).0| <= REPLY_LEN
    ensures ReadAll(rbuf, ins).1.All? <==> |ReadAll(rbuf, ins).0| == REPLY_LEN
    ensures ReadAll(rbuf, ins).1.Broken? ==> ReadAll(rbuf, ins).1.reason in {F_TRUNC, F_RESET, F_OTHER}
    decreases |ins|
  {
    if |rbuf| < REPLY_LEN && ins != [] && ins[0].Data? && ins[0].bytes != [] {
      ReadReasons(rbuf + Prefix(ins[0].bytes, REPLY_LEN - |rbuf|), ins[1..]);
    }
  }

  lemma {:induction false} WriteReasons(sent: nat, outs: seq<WriteResult>)
    requires sent <= REQ_LEN
    ensures sent <= WriteAll(sent, outs).0 <= REQ_LEN
    ensures WriteAll(sent, outs).1.All? <==> WriteAll(sent, outs).0 == REQ_LEN
    ensures WriteAll(sent, outs).1.Broken? ==> WriteAll(sent, outs).1.reason in {F_RESET, F_OTHER}
    decreases |outs|
  {
    if sent < REQ_LEN && outs != [] && outs[0].n > 0 {
      WriteReasons(sent + Min(outs[0].n, REQ_LEN - sent), outs[1..]);
    }
  }

  /** How many bytes the socket takes before it blocks or fails. */
  function Taken(outs: seq<WriteResult>): nat {
    if outs == [] || outs[0].n <= 0 then 0 else outs[0].n + Taken(outs[1..])
  }

  /** However the request is cut into writes, what is counted as sent is what the socket
      took, up to the length of the request; and the request is out exactly when the socket
      takes all of it. */
  lemma {:induction false} WritesStream(sent: nat, outs: seq<WriteResult>)
    requires sent <= 18
    ensures WriteAll(sent, outs).0 == Min(sent + Taken(outs), 18)
    ensures WriteAll(sent, outs).1.All? <==> sent + Taken(outs) >= 18
    decreases |outs|
  {
    if sent < 18 && outs != [] && outs[0].n > 0 {
      WritesStream(sent + Min(outs[0].n, REQ_LEN - sent), outs[1..]);
    }
  }

  /** The first write that moves nothing. */
  function StuckWrite(outs: seq<WriteResult>): Option<WriteResult> {
    if outs == [] then None else if outs[0].n <= 0 then Some(outs[0]) else StuckWrite(outs[1..])
  }

  /** The first read that brings nothing. */
  function StuckRead(ins: seq<ReadResult>): Option<ReadResult> {
    if ins == [] then None
    else if ins[0].Data? && ins[0].bytes != [] then StuckRead(ins[1..]) else Some(ins[0])
  }

  /** A request that is not out waits exactly when the socket would block; otherwise the
      connection failed, with a reset if that is what the socket reports. */
  lemma {:induction false} WriteEnds(sent: nat, outs: seq<WriteResult>)
    requires sent + Taken(outs) < 18
    ensures var end, x := WriteAll(sent, outs).1, StuckWrite(outs);
            && (end.Blocked? <==> x == None || (x.value.n < 0 && x.value.errno == Again))
            && (end == Broken(F_RESET) <==> x.Some? && x.value.errno == ConnReset)
            && (end == Broken(F_OTHER) <==>
                x.Some? && (x.value.errno == Other || (x.value.errno == Again && x.value.n == 0)))
    decreases |outs|
  {
    if outs != [] && outs[0].n > 0 {
      WriteEnds(sent + Min(outs[0].n, REQ_LEN - sent), outs[1..]);
    }
  }

  /** A reply that is not whole waits exactly when the socket would block; otherwise it was
      cut short by the end of the stream, reset, or failed in another way. */
  lemma {:induction false} ReadEnds(rbuf: Bytes, ins: seq<ReadResult>)
    requires |rbuf| + |Stream(ins)| < 19
    ensures var end, x := ReadAll(rbuf, ins).1, StuckRead(ins);
            && (end.Blocked? <==> x == None || x == Some(ReadError(Again)))
            && (end == Broken(F_TRUNC) <==> x.Some? && !x.value.ReadError?)
            && (end == Broken(F_RESET) <==> x == Some(ReadError(ConnReset)))
            && (end == Broken(F_OTHER) <==> x == Some(ReadError(Other)))
    decreases |ins|
  {
    if ins != [] && ins[0].Data? && ins[0].bytes != [] {
      ReadEnds(rbuf + Prefix(ins[0].bytes, REPLY_LEN - |rbuf|), ins[1..]);
    }
  }

  /** How a connection ended. */
  datatype End = Completed(us: int) | Failed(reason: nat)

  /** A resolved connection: was it sampled, what it had read, how it ended. */
  datatype Outcome = Outcome(sampled: bool, reply: Bytes, end: End)

  /** The check on a reply that is complete. */
  predicate ReplyAccepted(sampled: bool, reply: Bytes)
    requires |reply| == REPLY_LEN
  {
    if sampled then reply == REPLY else reply[0] == 72 && reply[REPLY_LEN - 1] == 10
  }

  /** What passes the check: in the sample the benchmark's reply and nothing else, otherwise
      what starts with an H and ends with a line end. So the sample is checked harder. */
  lemma AcceptedMeans(reply: Bytes)
    requires |reply| == 19
    ensures ReplyAccepted(true, reply) <==> reply == REPLY
    ensures ReplyAccepted(false, reply) <==> reply[0] as int == 'H' as int && reply[18] as int == '\n' as int
    ensures ReplyAccepted(true, reply) ==> ReplyAccepted(false, reply)
  {
    if reply == REPLY { assert reply[0] == 72 && reply[18] == 10; }
  }

  /** The reading phase: read on; a whole reply is checked. */
  function HandleRead(v: View, sampled: bool, io: Io): (View, Option<End>)
    requires ViewOk(v) && v.phase == Reading
  {
    ReadReasons(v.rbuf, io.ins);
    var (rbuf, end) := ReadAll(v.rbuf, io.ins);
    var v1 := v.(rbuf := rbuf);
    match end
    case Blocked => (v1, None)
    case Broken(reason) => (v1, Some(Failed(reason)))
    case All => (v1, Some(if ReplyAccepted(sampled, rbuf) then Completed(io.us) else Failed(F_WRONGBYTES)))
  }

  function HandleWrite(v: View, sampled: bool, io: Io): (View, Option<End>)
    requires ViewOk(v) && v.phase == Writing
  {
    WriteReasons(v.sent, io.outs);
    var (sent, end) := WriteAll(v.sent, io.outs);
    var v1 := v.(sent := sent);
    match end
    case Blocked => (v1, None)
    case Broken(reason) => (v1, Some(Failed(reason)))
    case All => HandleRead(v1.(phase := Reading), sampled, io)
  }

  /** What an event does to a connection, and how the connection ended if it did. */
  function Handle(v: View, sampled: bool, io: Io): (View, Option<End>)
    requires ViewOk(v)
  {
    if io.hup then
      (v, Some(Failed(if v.phase == Connecting then F_CONNECT
                      else if io.soReset then F_RESET
                      else if v.phase == Reading then F_TRUNC else F_OTHER)))
    else
      match v.phase
      case Connecting =>
        if io.soError then (v, Some(Failed(F_CONNECT))) else HandleWrite(v.(phase := Writing), sampled, io)
      case Writing => HandleWrite(v, sampled, io)
      case Reading => HandleRead(v, sampled, io)
  }

  /** An event that does not end the connection leaves it well-formed, and an ended
      connection is a good outcome. */
  lemma HandleOk(v: View, sampled: bool, io: Io)
    requires ViewOk(v)
    ensures |Handle(v, sampled, io).0.rbuf| < REPLY_LEN <==> ViewOk(Handle(v, sampled, io).0)
    ensures Handle(v, sampled, io).1.None? ==> ViewOk(Handle(v, sampled, io).0)
    ensures Handle(v, sampled, io).1.Some? ==>
              OutcomeOk(Outcome(sampled, Handle(v, sampled, io).0.rbuf, Handle(v, sampled, io).1.value))
  {
    WriteReasons(v.sent, io.outs);
    ReadReasons(v.rbuf, io.ins);
  }

  /** What the generator guarantees of each resolved connection: it completed exactly when
      it read a whole reply that passed the check, and it failed for wrong bytes exactly
      when it read a whole reply that did not. */
  predicate OutcomeOk(o: Outcome) {
    && (o.end.Completed? <==> |o.reply| == REPLY_LEN && ReplyAccepted(o.sampled, o.reply))
    && (o.end == Failed(F_WRONGBYTES) <==> |o.reply| == REPLY_LEN && !ReplyAccepted(o.sampled, o.reply))
    && (o.end.Failed? ==> o.end.reason < F_NREASONS)
    && |o.reply| <= REPLY_LEN
  }

  /** The socket reported that the connection could not be made. */
  predicate NoConnection(v: View, io: Io) {
    v.phase == Connecting && (io.hup || io.soError)
  }

  /** Request bytes sent once this event is handled. */
  function SentBy(v: View, io: Io): nat {
    if v.phase == Reading then 18 else Min(v.sent + Taken(io.outs), 18)
  }

  /** Reply bytes there once this event is handled. */
  function GotBy(v: View, io: Io): Bytes {
    if SentBy(v, io) == 18 then Prefix(v.rbuf + Stream(io.ins), 19) else v.rbuf
  }

  /** An event that does not report a hang-up or a failed connect moves the connection on as
      far as the socket lets it: out goes what the socket takes, and once the request is out
      the reply is read as far as it is there. The connection completes exactly when the
      reply is whole and passes the check, with the latency of that moment. */
  lemma EventMoves(v: View, sampled: bool, io: Io)
    requires ViewOk(v) && !io.hup && !NoConnection(v, io)
    ensures var (v1, end) := Handle(v, sampled, io);
            && v1.sent == SentBy(v, io) && v1.rbuf == GotBy(v, io)
            && v1.phase == (if v1.sent == 18 then Reading else Writing)
            && (end == Some(Completed(io.us)) <==> |v1.rbuf| == 19 && ReplyAccepted(sampled, v1.rbuf))
            && (end.Some? && end.value.Completed? ==> end.value.us == io.us)
  {
    WritesStream(v.sent, io.outs);
    ReadsStream(v.rbuf, io.ins);
    WriteReasons(v.sent, io.outs);
    ReadReasons(v.rbuf, io.ins);
  }

  /** Which socket call, if any, left the connection stuck with a reset. */
  predicate StuckReset(v: View, io: Io) {
    if SentBy(v, io) < 18 then StuckWrite(io.outs).Some? && StuckWrite(io.outs).value.errno == ConnReset
    else |GotBy(v, io)| < 19 && StuckRead(io.ins) == Some(ReadError(ConnReset))
  }

  /** The stream ended before the reply was whole. */
  predicate CutShort(v: View, io: Io) {
    SentBy(v, io) == 18 && |GotBy(v, io)| < 19 && StuckRead(io.ins).Some? && !StuckRead(io.ins).value.ReadError?
  }

  /** What each reason in the report means. */
  lemma ReasonMeans(v: View, sampled: bool, io: Io)
    requires ViewOk(v)
    ensures var end := Handle(v, sampled, io).1;
            && (end == Some(Failed(F_CONNECT)) <==> NoConnection(v, io))
            && (end == Some(Failed(F_RESET)) <==>
                !NoConnection(v, io) && if io.hup then io.soReset else StuckReset(v, io))
            && (end == Some(Failed(F_TRUNC)) <==>
                !NoConnection(v, io) && if io.hup then !io.soReset && v.phase == Reading else CutShort(v, io))
            && end != Some(Failed(F_TIMEOUT))
  {
    WritesStream(v.sent, io.outs);
    ReadsStream(v.rbuf, io.ins);
    WriteReasons(v.sent, io.outs);
    ReadReasons(v.rbuf, io.ins);
    if v.phase != Reading && SentBy(v, io) < 18 {
      WriteEnds(v.sent, io.outs);
    } else if |v.rbuf| + |Stream(io.ins)| < 19 {
      ReadEnds(v.rbuf, io.ins);
    }
  }

  function Lats(s: seq<Outcome>): seq<int> {
    if s == [] then []
    else Lats(s[..|s| - 1]) + if s[|s| - 1].end.Completed? then [s[|s| - 1].end.us] else []
  }

  lemma LatsSnoc(s: seq<Outcome>, o: Outcome)
    ensures Lats(s + [o]) == Lats(s) + if o.end.Completed? then [o.end.us] else []
  {
    assert (s + [o])[..|s|] == s;
  }

  /** A whole reply was read and the connection was in the sample. */
  predicate Validated(o: Outcome) {
    o.sampled && |o.reply| == REPLY_LEN && (o.end.Completed? || o.end == Failed(F_WRONGBYTES))
  }

  predicate ValidatedBad(o: Outcome) {
    Validated(o) && o.reply != REPLY
  }

  // ---- sampling

  predicate SampledAt(pct: int, position: nat) {
    pct > 0 && position % 100 < pct
  }

  function SampledAmong(pct: int, n: nat): nat {
    if n == 0 then 0 else SampledAmong(pct, n - 1) + if SampledAt(pct, n - 1) then 1 else 0
  }

  function Clamp(pct: int): nat {
    if pct < 0 then 0 else if pct > 100 then 100 else pct
  }

  /** Of the first n connections offered, the sampled ones are exactly so many; so the
      sample is never smaller than the percentage asked for. */
  lemma {:induction false} SamplingRate(pct: int, n: nat)
    ensures SampledAmong(pct, n) == (n / 100) * Clamp(pct) + Min(n % 100, Clamp(pct))
    ensures 100 * SampledAmong(pct, n) >= n * Clamp(pct)
  {
    if n > 0 {
      SamplingRate(pct, n - 1);
      var q, r := (n - 1) / 100, (n - 1) % 100;
      if r == 99 {
        assert n / 100 == q + 1 && n % 100 == 0;
        assert (q + 1) * Clamp(pct) == q * Clamp(pct) + Clamp(pct);
      } else {
        assert n / 100 == q && n % 100 == r + 1;
      }
    }
    AtLeast(n / 100, n % 100, Clamp(pct));
  }

  lemma AtLeast(q: nat, r: nat, p: nat)
    requires r < 100 && p <= 100
    ensures 100 * (q * p + Min(r, p)) >= (100 * q + r) * p
  {
    assert (100 * q + r) * p == 100 * (q * p) + r * p;
    if r <= p { assert r * p <= r * 100; } else { assert r * p <= 100 * p; }
  }
}
