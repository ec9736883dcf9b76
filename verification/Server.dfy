/**
 A server from start to teardown: a listening socket, a thread and a worker each.
 */
module Server {
  import opened Basics
  import opened Ring
  import opened WorkerClass
  import opened WorkerLoop

  /** How many leading elements satisfy the outcome. */
  function Leading(ok: seq<bool>): (n: nat)
    ensures n <= |ok| && (forall i :: 0 <= i < n ==> ok[i]) && (n < |ok| ==> !ok[n])
  {
    if ok == [] || !ok[0] then 0 else 1 + Leading(ok[1..])
  }

  /** How many sockets are made before one fails. */
  function Made(sockets: seq<int>): (n: nat)
    ensures n <= |sockets| && (forall i :: 0 <= i < n ==> sockets[i] >= 0) && (n < |sockets| ==> sockets[n] < 0)
  {
    if sockets == [] || sockets[0] < 0 then 0 else 1 + Made(sockets[1..])
  }

  /** The descriptors among fds, in order. */
  function OpenOnes(fds: seq<int>): seq<int> {
    if fds == [] then []
    else
      var n := |fds| - 1;
      OpenOnes(fds[..n]) + if fds[n] >= 0 then [fds[n]] else []
  }

  lemma {:induction false} AllOpen(fds: seq<int>)
    requires forall i :: 0 <= i < |fds| ==> fds[i] >= 0
    ensures OpenOnes(fds) == fds
  {
    if fds != [] {
      var n := |fds| - 1;
      AllOpen(fds[..n]);
      assert fds == fds[..n] + [fds[n]];
    }
  }

  ghost predicate NewOrOver(w: FaWorker, t: Task, end: Option<Exit>, over: bool)
    reads w, w.mem.Values, w.scratch
  {
    if over then Over(w, t, end) else end.None? && New(w) && w.scratch[..] == t.scratch
  }

  ghost predicate OverOrGone(w: FaWorker, t: Task, end: Option<Exit>, gone: bool, freed: seq<Conn>)
    reads w, w.mem.Values, w.scratch
  {
    if gone then Gone(w, t, end, freed) else Over(w, t, end)
  }

  /** Of the sockets fds the first i were closed, in order behind `before`, and forgotten. */
  ghost predicate SocketsClosed(fds: seq<int>, before: seq<int>, i: nat, now: seq<int>, closed: seq<int>) {
    && i <= |fds| == |now| && closed == before + OpenOnes(fds[..i])
    && forall j :: 0 <= j < |fds| ==> now[j] == if j < i then Forgotten(fds[j]) else fds[j]
  }

  lemma SocketStep(fds: seq<int>, before: seq<int>, i: nat, now: seq<int>, closed: seq<int>)
    requires SocketsClosed(fds, before, i, now, closed) && i < |fds|
    ensures SocketsClosed(fds, before, i + 1, now[i := Forgotten(now[i])],
                          closed + if now[i] >= 0 then [now[i]] else [])
  {
    assert fds[..i + 1][..i] == fds[..i];
  }

  /** What is remembered of a listening socket when it is closed. */
  function Forgotten(fd: int): int {
    if fd >= 0 then -1 else fd
  }

  class FaServer {
    const workers: seq<FaWorker>
    const listenFd: array<int>   // per worker; -1 when there is no socket
    var stop: bool
    var closed: seq<int>         // the descriptors closed, in order

    constructor (workers: seq<FaWorker>)
      ensures this.workers == workers && listenFd.Length == |workers|
      ensures forall i :: 0 <= i < |workers| ==> listenFd[i] == -1
      ensures closed == [] && !stop && fresh(listenFd)
    {
      this.workers := workers;
      listenFd := new int[|workers|](_ => -1);
      stop, closed := false, [];
    }

    /** The workers share nothing. */
    ghost predicate Separate() {
      forall i, j :: 0 <= i < |workers| && 0 <= j < |workers| && i != j ==>
        workers[i] != workers[j] && workers[i].scratch != workers[j].scratch
    }

    method CloseFirst(n: nat)
      requires n <= listenFd.Length
      modifies this`closed, listenFd
      ensures closed == old(closed) + old(listenFd[..n])
      ensures forall i :: 0 <= i < n ==> listenFd[i] == -1
      ensures forall i :: n <= i < listenFd.Length ==> listenFd[i] == old(listenFd[i])
    {
      for j := 0 to n
        invariant closed == old(closed) + old(listenFd[..j])
        invariant forall i :: 0 <= i < j ==> listenFd[i] == -1
        invariant forall i :: j <= i < listenFd.Length ==> listenFd[i] == old(listenFd[i])
      {
        closed := closed + [listenFd[j]];
        listenFd[j] := -1;
        assert old(listenFd[..j + 1]) == old(listenFd[..j]) + [old(listenFd[j])];
      }
    }

    /** Create the sockets; on a failure close those made so far. */
    method OpenSockets(sockets: seq<int>) returns (ok: bool)
      requires |sockets| == listenFd.Length
      modifies this`closed, listenFd
      ensures var n := Made(sockets);
              && ok == (n == |sockets|)
              && closed == old(closed) + (if ok then [] else sockets[..n])
              && (ok ==> listenFd[..] == sockets && forall i :: 0 <= i < |sockets| ==> sockets[i] >= 0)
              && (!ok ==> (forall i :: 0 <= i < n ==> listenFd[i] == -1)
                          && forall i :: n <= i < listenFd.Length ==> listenFd[i] == old(listenFd[i]))
    {
      for i := 0 to |sockets|
        invariant i <= Made(sockets)
        invariant closed == old(closed) && listenFd[..i] == sockets[..i] && forall j :: 0 <= j < i ==> sockets[j] >= 0
        invariant forall j :: i <= j < listenFd.Length ==> listenFd[j] == old(listenFd[j])
      {
        if sockets[i] < 0 {
          CloseFirst(i);
          return false;
        }
        listenFd[i] := sockets[i];
      }
      assert listenFd[..] == listenFd[..|sockets|];
      ok := true;
    }

    method CloseSocket(i: nat)
      requires i < listenFd.Length
      modifies this`closed, listenFd
      ensures closed == old(closed) + if old(listenFd[i]) >= 0 then [old(listenFd[i])] else []
      ensures listenFd[..] == old(listenFd[..])[i := Forgotten(old(listenFd[i]))]
    {
      if listenFd[i] >= 0 {
        closed := closed + [listenFd[i]];
        listenFd[i] := -1;
      }
    }

    /** What each worker is about to do. */
    ghost function Tasks(scripts: seq<Script>): seq<Task>
      requires |scripts| == |workers|
      reads set w | w in workers :: w.scratch
    {
      seq(|workers|, i requires 0 <= i < |workers| reads set w | w in workers :: w.scratch =>
        Task(workers[i].cfg, workers[i].scratch[..], scripts[i]))
    }

    /** A thread runs to its end; one that gets no ring never enters its loop. */
    method JoinOne(i: nat, script: Script, ghost t: Task) returns (end: Option<Exit>)
      requires i < |workers| && New(workers[i]) && t == Task(workers[i].cfg, workers[i].scratch[..], script)
      modifies workers[i], workers[i].scratch
      ensures Over(workers[i], t, end) && (end.Some? <==> script.ring)
    {
      if !script.ring {
        return None;
      }
      var k, pc := WorkerLoop.Run(workers[i], script.blocks, script.rounds);
      end := Some(Exit(k, pc));
    }

    /** Worker i's thread was started and got its ring. */
    predicate Entered(started: nat, scripts: seq<Script>, i: nat)
      requires i < |scripts|
    {
      i < started && scripts[i].ring
    }

    /** Join the threads that were started. Workers share nothing, so what each does is a run
        of its own; a thread that sees the stop flag leaves its loop like any other, and one
        that gets no ring never enters it. */
    method Join(started: nat, scripts: seq<Script>, ghost tasks: seq<Task>) returns (ends: seq<Option<Exit>>)
      requires started <= |workers| == |scripts| && Separate() && tasks == Tasks(scripts)
      requires forall i :: 0 <= i < |workers| ==> New(workers[i])
      modifies workers, set w | w in workers :: w.scratch
      ensures |ends| == |workers|
      ensures forall i :: 0 <= i < |workers| ==> (ends[i].Some? <==> Entered(started, scripts, i))
      ensures forall i :: 0 <= i < |workers| ==> Over(workers[i], tasks[i], ends[i])
    {
      ends := seq(|workers|, _ => None);
      for i := 0 to started
        invariant |ends| == |workers|
        invariant forall j :: 0 <= j < |workers| ==> (ends[j].Some? <==> Entered(i, scripts, j))
        invariant forall j :: 0 <= j < |workers| ==> NewOrOver(workers[j], tasks[j], ends[j], j < i)
      {
        assert workers[i] in workers && workers[i].scratch in set w | w in workers :: w.scratch;
        assert NewOrOver(workers[i], tasks[i], ends[i], false);
        var end := JoinOne(i, scripts[i], tasks[i]);
        ends := ends[i := end];
      }
    }

    method TeardownOne(i: nat, ghost t: Task, ghost end: Option<Exit>) returns (freed: seq<Conn>)
      requires i < |workers| == listenFd.Length && Over(workers[i], t, end)
      modifies this`closed, listenFd, workers[i]
      ensures closed == old(closed) + if old(listenFd[i]) >= 0 then [old(listenFd[i])] else []
      ensures listenFd[..] == old(listenFd[..])[i := Forgotten(old(listenFd[i]))]
      ensures Gone(workers[i], t, end, freed) && old(workers[i].Abs()) == workers[i].Abs().(free := Addrs(freed))
    {
      CloseSocket(i);
      assert (workers[i].scratch as object) != listenFd;
      freed := WorkerLoop.Teardown(workers[i], t, end);
    }

    /** Close the listening sockets and free the records on the freelists. */
    method Teardown(ghost tasks: seq<Task>, ghost ends: seq<Option<Exit>>) returns (freed: seq<seq<Conn>>)
      requires |tasks| == |ends| == |workers| == listenFd.Length && Separate()
      requires forall i :: 0 <= i < |workers| ==> Over(workers[i], tasks[i], ends[i])
      modifies this`closed, listenFd, workers
      ensures closed == old(closed) + OpenOnes(old(listenFd[..]))
      ensures forall i :: 0 <= i < |workers| ==> listenFd[i] == Forgotten(old(listenFd[i]))
      ensures |freed| == |workers|
      ensures forall i :: 0 <= i < |workers| ==> Gone(workers[i], tasks[i], ends[i], freed[i])
    {
      freed := seq(|workers|, _ => []);
      for i := 0 to |workers|
        invariant SocketsClosed(old(listenFd[..]), old(closed), i, listenFd[..], closed)
        invariant |freed| == |workers|
        invariant forall j :: 0 <= j < |workers| ==> OverOrGone(workers[j], tasks[j], ends[j], j < i, freed[j])
      {
        assert workers[i] in workers && forall w :: w in workers ==> (w.scratch as object) != listenFd;
        SocketStep(old(listenFd[..]), old(closed), i, listenFd[..], closed);
        var f := TeardownOne(i, tasks[i], ends[i]);
        freed := freed[i := f];
      }
      assert old(listenFd[..])[..|workers|] == old(listenFd[..]);
    }

    /** From the start of the threads to the end of the teardown. */
    method Serve(started: nat, scripts: seq<Script>, sockets: seq<int>)
      returns (freed: seq<seq<Conn>>, ends: seq<Option<Exit>>)
      requires started <= |workers| == |scripts| == listenFd.Length && Separate()
      requires listenFd[..] == sockets && forall i :: 0 <= i < |sockets| ==> sockets[i] >= 0
      requires forall i :: 0 <= i < |workers| ==> New(workers[i])
      modifies this`closed, listenFd, workers, set w | w in workers :: w.scratch
      ensures closed == old(closed) + sockets && forall i :: 0 <= i < |sockets| ==> listenFd[i] == -1
      ensures |ends| == |freed| == |workers|
      ensures forall i :: 0 <= i < |workers| ==> (ends[i].Some? <==> Entered(started, scripts, i))
      ensures forall i :: 0 <= i < |workers| ==> Gone(workers[i], old(Tasks(scripts))[i], ends[i], freed[i])
    {
      ghost var tasks := Tasks(scripts);
      ends := Join(started, scripts, tasks);
      assert forall w :: w in workers ==> (w.scratch as object) != listenFd;
      assert listenFd[..] == sockets;
      freed := Teardown(tasks, ends);
      AllOpen(sockets);
    }

    /** Run the server: `sockets` are the descriptors socket creation yields (negative on
        failure) and `threads` says which thread creations succeed. When all sockets were
        made and a thread ran, every socket is closed exactly once and forgotten, every
        worker whose thread got its ring went through its script and is torn down, and a
        record is left allocated exactly when a recv owned it as the loop was left. When no
        thread starts the sockets stay open. */
    method Run(sockets: seq<int>, threads: seq<bool>, scripts: seq<Script>)
      returns (rc: int, freed: seq<seq<Conn>>, ends: seq<Option<Exit>>)
      requires |sockets| == |threads| == |scripts| == |workers| == listenFd.Length && Separate()
      requires forall i :: 0 <= i < |workers| ==> New(workers[i])
      modifies this`closed, this`stop, listenFd, workers, set w | w in workers :: w.scratch
      ensures var n := Made(sockets);
              var started := Leading(threads);
              && rc == (if n < |sockets| || started == 0 then -1 else 0)
              && (rc == 0 ==> closed == old(closed) + sockets && forall i :: 0 <= i < |sockets| ==> listenFd[i] == -1)
              && (n < |sockets| ==> closed == old(closed) + sockets[..n]
                                    && (forall i :: 0 <= i < n ==> listenFd[i] == -1)
                                    && forall i :: n <= i < listenFd.Length ==> listenFd[i] == old(listenFd[i]))
              && (n == |sockets| && started == 0 ==> closed == old(closed) && listenFd[..] == sockets)
              && stop == (old(stop) || (n == |sockets| && started < |threads|))
      ensures rc == 0 ==>
                && |ends| == |freed| == |workers|
                && (forall i :: 0 <= i < |workers| ==> (ends[i].Some? <==> Entered(Leading(threads), scripts, i)))
                && forall i :: 0 <= i < |workers| ==> Gone(workers[i], old(Tasks(scripts))[i], ends[i], freed[i])
    {
      freed, ends := [], [];
      var ok := OpenSockets(sockets);
      if !ok {
        return -1, freed, ends;
      }
      var started := StartThreads(threads);
      if started == 0 {
        return -1, freed, ends;
      }
      freed, ends := Serve(started, scripts, sockets);
      rc := 0;
    }

    /** Launch the threads; the first failure raises the stop flag. */
    method StartThreads(threads: seq<bool>) returns (started: nat)
      modifies this`stop
      ensures started == Leading(threads) && stop == (old(stop) || started < |threads|)
    {
      started := 0;
      while started < |threads| && threads[started]
        invariant started <= Leading(threads)
      {
        started := started + 1;
      }
      if started < |threads| {
        stop := true;
      }
    }
  }

  ghost predicate Zeroed(w: FaWorker)
    reads w.scratch
  {
    forall i :: 0 <= i < w.scratch.Length ==> w.scratch[i] == 0
  }

  /** Make a server with a worker for each configuration; the workers share nothing and have
      done nothing. They differ in whether the descriptor table could be registered. */
  method NewServer(cfgs: seq<Config>) returns (s: FaServer)
    ensures |s.workers| == |cfgs| == s.listenFd.Length && s.Separate() && s.closed == [] && !s.stop
    ensures forall i :: 0 <= i < |cfgs| ==>
              New(s.workers[i]) && s.workers[i].cfg == cfgs[i] && Zeroed(s.workers[i]) && s.listenFd[i] == -1
    ensures fresh(s) && fresh(s.listenFd)
    ensures forall i :: 0 <= i < |cfgs| ==> fresh(s.workers[i]) && fresh(s.workers[i].scratch)
  {
    var ws := [];
    for i := 0 to |cfgs|
      invariant |ws| == i
      invariant forall j :: 0 <= j < i ==>
                  New(ws[j]) && ws[j].cfg == cfgs[j] && Zeroed(ws[j]) && fresh(ws[j]) && fresh(ws[j].scratch)
      invariant forall j, k :: 0 <= j < i && 0 <= k < i && j != k ==> ws[j] != ws[k] && ws[j].scratch != ws[k].scratch
    {
      var w := new FaWorker(cfgs[i]);
      ws := ws + [w];
    }
    s := new FaServer(ws);
  }

  /** Make a server and run it: `Run` can be called on what `NewServer` makes. */
  method Launch(cfgs: seq<Config>, sockets: seq<int>, threads: seq<bool>, scripts: seq<Script>)
    returns (s: FaServer, rc: int, freed: seq<seq<Conn>>, ends: seq<Option<Exit>>)
    requires |cfgs| == |sockets| == |threads| == |scripts|
    ensures |s.workers| == |sockets| && rc == (if Made(sockets) < |sockets| || Leading(threads) == 0 then -1 else 0)
    ensures rc == 0 ==> s.closed == sockets && |ends| == |freed| == |sockets|
    ensures rc == 0 ==> forall i :: 0 <= i < |sockets| ==>
              && (ends[i].Some? <==> i < Leading(threads) && scripts[i].ring)
              && Gone(s.workers[i], Task(cfgs[i], seq(cfgs[i].replyCap, _ => 0), scripts[i]), ends[i], freed[i])
  {
    s := NewServer(cfgs);
    ghost var tasks := s.Tasks(scripts);
    assert forall i :: 0 <= i < |cfgs| ==> tasks[i].scratch == seq(cfgs[i].replyCap, _ => 0);
    rc, freed, ends := s.Run(sockets, threads, scripts);
  }
}
