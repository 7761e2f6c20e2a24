/** The two ends of the transport as they update their fields in place. */
module RpcEndpoints {
  import opened Wrappers
  import opened R = RpcTransport

  class DaemonConnection {
    var nextRequestId: Id
    var pending: map<Id, bool>
    var alive: bool
    var chain: seq<Line>
    ghost var issued: map<Id, Request>
    var settled: map<Id, Outcome>

    constructor ()
      ensures Now() == Connected()
    {
      nextRequestId, pending, alive, chain := 1, map[], true, [];
      issued, settled := map[], map[];
    }

    ghost function Now(): Client
      reads this
    {
      Client(nextRequestId, pending, alive, chain, issued, settled)
    }

    method SettlePromise(id: Id, o: Outcome)
      modifies this`settled
      ensures Now() == Settle(old(Now()), id, o)
    {
      if id !in settled {
        settled := settled[id := o];
      }
    }

    method DaemonRpc(request: Request, timeoutMs: int) returns (id: Option<Id>)
      modifies this
      ensures Now() == Issue(old(Now()), request, timeoutMs)
      ensures id == if old(alive) then Some(old(nextRequestId)) else None
    {
      if !alive {
        return None;
      }
      id := Some(nextRequestId);
      nextRequestId := nextRequestId + 1;
      pending := pending[id.value := timeoutMs > 0];
      issued := issued[id.value := request];
      chain := chain + [Line(id.value, request)];
    }

    method DispatchWireMessage(message: Wire)
      modifies this
      ensures Now() == Dispatch(old(Now()), message)
    {
      match message
      case Notice(_) =>
      case Response(reply) =>
        if reply.id in pending {
          pending := pending - {reply.id};
          SettlePromise(reply.id, if reply.ok then Resolved(reply) else Rejected(DaemonError(reply)));
        }
    }

    method OnTimer(id: Id)
      modifies this
      ensures Now() == TimerFires(old(Now()), id)
    {
      if id in pending && pending[id] {
        pending := pending - {id};
        SettlePromise(id, Rejected(TimedOut));
      }
    }

    method OnWriteOver(failed: bool)
      requires chain != []
      modifies this
      ensures Now() == WriteOver(old(Now()), failed)
    {
      var id := chain[0].id;
      chain := chain[1..];
      if failed {
        pending := pending - {id};
        SettlePromise(id, Rejected(WriteFailed));
      }
    }

    /** The loop over `pending.values()`, in any order, and the `clear()` after it. */
    method RejectAll()
      modifies this
      ensures Now() == RejectAllPending(old(Now()))
    {
      var todo := pending.Keys;
      while todo != {}
        invariant todo <= pending.Keys
        invariant nextRequestId == old(nextRequestId) && pending == old(pending) && alive == old(alive)
        invariant chain == old(chain) && issued == old(issued)
        invariant settled.Keys == old(settled.Keys) + (old(pending.Keys) - todo)
        invariant forall id :: id in settled ==>
          settled[id] == if id in old(settled) then old(settled)[id] else Rejected(DaemonGone)
        decreases todo
      {
        var id :| id in todo;
        todo := todo - {id};
        SettlePromise(id, Rejected(DaemonGone));
      }
      pending := map[];
    }

    method MarkDead()
      modifies this
      ensures Now() == MarkDaemonDead(old(Now()))
    {
      if alive {
        alive := false;
        RejectAll();
      }
    }

    /** The end of `stopDaemon`. */
    method Stop()
      modifies this
      ensures Now() == Stopped(old(Now()))
    {
      RejectAll();
      alive := false;
    }
  }

  class Daemon {
    var stdin: seq<Line>
    var reading: bool
    var queue: seq<HeavyJob>
    var busy: Option<Line>
    var closed: bool
    var working: bool
    var stdoutFailed: bool
    var exited: bool
    ghost var killed: bool
    var out: seq<Wire>
    ghost var read: seq<Line>
    ghost var answered: seq<Reply>
    ghost var heavy: seq<Line>
    ghost var heavyDone: seq<Reply>

    constructor ()
      ensures Now() == Spawned()
    {
      stdin, reading, queue, busy, closed, working := [], true, [], None, false, true;
      stdoutFailed, exited, killed := false, false, false;
      out, read, answered, heavy, heavyDone := [], [], [], [], [];
    }

    ghost function Now(): Server
      reads this
    {
      Server(stdin, reading, queue, busy, closed, working, stdoutFailed, exited, killed,
             out, read, answered, heavy, heavyDone)
    }

    /** `write_out` on the locked stdout. */
    method Print(reply: Reply, goesThrough: bool)
      modifies this
      ensures Now() == if !goesThrough then old(Now()).(stdoutFailed := true)
                       else old(Now()).(out := old(out) + [Response(reply)], answered := old(answered) + [reply])
    {
      if goesThrough {
        out, answered := out + [Response(reply)], answered + [reply];
      } else {
        stdoutFailed := true;
      }
    }

    /** `write_out(…)?` in the stdin loop. */
    method PrintOrDie(reply: Reply, goesThrough: bool)
      modifies this
      ensures Now() == WriteOut(old(Now()), reply, goesThrough)
    {
      Print(reply, goesThrough);
      if !goesThrough {
        exited := true;
      }
    }

    method TakeLine() returns (line: Line)
      requires stdin != []
      modifies this`stdin, this`read
      ensures line == old(stdin[0])
      ensures stdin == old(stdin)[1..] && read == old(read) + [line]
    {
      line := stdin[0];
      stdin, read := stdin[1..], read + [line];
    }

    /** One iteration of the stdin loop. */
    method StdinTurn(h: Handling)
      requires stdin != []
      modifies this
      ensures Now() == ReadLine(old(Now()), h)
    {
      hide IsArgon2Bound;
      hide IsShutdown;
      hide ReplyTo;
      hide WriteOut;
      var line := TakeLine();
      if line.request.bytes > MAX_REQUEST_LINE_BYTES {
        PrintOrDie(Reply(line.id, false, "invalid_request", line.request), h.written);
      } else if IsArgon2Bound(line.request.name) && working {
        queue, heavy := queue + [Job(line)], heavy + [line];
      } else if IsArgon2Bound(line.request.name) {
        PrintOrDie(Reply(line.id, false, "internal_error", line.request), h.written);
        reading := false;
      } else {
        PrintOrDie(ReplyTo(line, h), h.written);
        if IsShutdown(line.request.name) && !h.panics {
          reading := false;
        }
      }
    }

    /** What ending the worker's thread does: its receiver goes, and the channel with it. */
    method EndWorker()
      modifies this
      ensures Now() == StopWorker(old(Now()))
    {
      working, busy, queue := false, None, [];
    }

    /** `recv` in the worker's loop. */
    method ReceiveJob()
      requires busy.None? && (queue != [] || closed)
      modifies this
      ensures Now() == Receive(old(Now()))
    {
      if queue == [] || queue[0].Shutdown? {
        EndWorker();
      } else {
        busy, queue := Some(queue[0].line), queue[1..];
      }
    }

    /** The rest of the worker's loop body, for a request. */
    method AnswerJob(h: Handling)
      requires busy.Some?
      modifies this
      ensures Now() == Answer(old(Now()), h)
    {
      hide ReplyTo;
      var reply := ReplyTo(busy.value, h);
      Print(reply, h.written);
      if h.written {
        busy, heavyDone := None, heavyDone + [reply];
      } else {
        EndWorker();
      }
    }

    /** The sentinel and `drop(heavy_tx)`. */
    method CloseChannel()
      modifies this
      ensures Now() == CloseQueue(old(Now()))
    {
      if working {
        queue := queue + [Shutdown];
      }
      closed := true;
    }

    /** The end of `run`: the sentinel, the dropped sender and the join, during which the worker goes
        on alone. `handlings` says how its requests come out, and a signal ends the process after
        `patience` steps of the worker if it is still at work then. */
    method Finish(handlings: nat -> Handling, patience: nat)
      requires Accounted(Now()) && !reading && !closed && !exited && !killed
      modifies this
      ensures exited && Accounted(Now())
      ensures read == old(read) && heavy == old(heavy) && old(heavyDone) <= heavyDone
      ensures !stdoutFailed ==> (AllAnswered(Now()) <==> Waiting(Now()) == [])
      ensures !stdoutFailed && !killed ==> AllAnswered(Now())
      ensures patience >= DrainLeft(CloseQueue(old(Now()))) ==> !killed
    {
      hide Accounted;
      hide DrainLeft;
      hide Receive;
      hide Answer;
      hide ServerTokens;
      hide AllAnswered;
      hide Waiting;
      ghost var left := DrainLeft(CloseQueue(Now()));
      ClosingAccounts(Now());
      CloseChannel();
      var n := 0;
      while working && n < patience
        invariant Accounted(Now()) && closed && !exited && !killed
        invariant read == old(read) && heavy == old(heavy) && old(heavyDone) <= heavyDone
        invariant n <= patience && DrainLeft(Now()) + n <= left
      {
        if busy.None? {
          ReceiveAccounts(Now());
          ReceiveFrame(Now());
          ReceiveJob();
        } else {
          AnswerAccounts(Now(), handlings(n));
          AnswerFrame(Now(), handlings(n));
          AnswerJob(handlings(n));
        }
        n := n + 1;
      }
      WorkIsLeft(Now());
      EndingAccounts(Now());
      exited, killed := true, working;
      if !stdoutFailed {
        AnsweredExactly(Now());
        if !killed {
          NothingWaits(Now());
        }
      }
    }
  }

  lemma WorkIsLeft(s: Server)
    requires !s.exited
    ensures DrainLeft(s) > 0
  {
  }

  ghost predicate Onwards(s: Server, t: Server) {
    && t.closed == s.closed && t.exited == s.exited && t.read == s.read && t.heavy == s.heavy
    && t.killed == s.killed && s.heavyDone <= t.heavyDone && DrainLeft(t) < DrainLeft(s)
  }

  lemma ReceiveFrame(s: Server)
    requires s.working && !s.exited && s.busy.None?
    ensures Onwards(s, Receive(s))
  {
  }

  lemma AnswerFrame(s: Server, h: Handling)
    requires s.working && !s.exited && s.busy.Some?
    ensures Onwards(s, Answer(s, h))
  {
  }

  lemma NothingWaits(s: Server)
    requires Accounted(s) && !s.working && !s.stdoutFailed
    ensures Waiting(s) == []
  {
  }
}
