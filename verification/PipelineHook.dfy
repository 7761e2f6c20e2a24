/** The hook's refs, updated in place, and the lists it derives from them. */
module PipelineHook {
  import opened Wrappers
  import opened P = PipelineRunner

  class Hook {
    var run: Option<RunState>
    var queue: seq<Job>
    var generation: nat
    var inFlight: bool
    ghost var unsettled: map<nat, Job>
    ghost var accepted: seq<Job>
    ghost var started: seq<Job>

    constructor ()
      ensures Now() == Initial()
    {
      run, queue, generation, inFlight := None, [], 0, false;
      unsettled, accepted, started := map[], [], [];
    }

    ghost function Now(): State
      reads this
    {
      P.State(run, queue, generation, inFlight, unsettled, accepted, started)
    }

    method ExecuteJob(job: Job)
      modifies this
      ensures Now() == Execute(old(Now()), job)
    {
      generation := generation + 1;
      inFlight := true;
      run := Some(RunState(job.vaultId, job.kind, 0, job.stepCount, job.foreground, None));
      unsettled, started := unsettled[generation := job], started + [job];
    }

    method IsBusy(vaultId: VaultId) returns (busy: bool)
      ensures busy == Tracked(Now(), vaultId)
    {
      busy := run.Some? && run.value.vaultId == vaultId;
      var k := 0;
      while k < |queue| && !busy
        invariant 0 <= k <= |queue|
        invariant busy == ((run.Some? && run.value.vaultId == vaultId) || Queued(queue[..k], vaultId))
      {
        assert forall i :: 0 <= i <= k ==> queue[..k + 1][i] == queue[i];
        assert forall i :: 0 <= i < k ==> queue[..k][i] == queue[i];
        busy := queue[k].vaultId == vaultId;
        k := k + 1;
      }
      assert k == |queue| ==> queue[..k] == queue;
      assert forall i :: 0 <= i < k ==> queue[..k][i] == queue[i];
    }

    method StartJob(options: Job) returns (ok: bool)
      modifies this
      ensures Now() == Start(old(Now()), options)
      ensures ok == !Tracked(old(Now()), options.vaultId)
    {
      var alreadyTracked := IsBusy(options.vaultId);
      if alreadyTracked {
        return false;
      }
      accepted := accepted + [options];
      if run.None? {
        ExecuteJob(options);
      } else {
        queue := queue + [options];
      }
      return true;
    }

    method ShiftQueue()
      modifies this
      ensures Now() == NextJob(old(Now()))
    {
      if |queue| > 0 {
        var next := queue[0];
        queue := queue[1..];
        ExecuteJob(next);
      }
    }

    method ToBackground()
      modifies this
      ensures Now() == MoveToBackground(old(Now()))
    {
      if run.Some? {
        run := Some(run.value.(foreground := false));
      }
    }

    method Dismiss()
      modifies this
      ensures Now() == DismissFailure(old(Now()))
    {
      if inFlight {
        ToBackground();
        return;
      }
      run := None;
      ShiftQueue();
    }

    /** A callback's own calls, made while the caller of the callback is suspended. */
    method CallBack(calls: seq<Call>)
      modifies this
      ensures Now() == DoAll(old(Now()), calls)
    {
      var k := 0;
      while k < |calls|
        invariant 0 <= k <= |calls|
        invariant DoAll(old(Now()), calls) == DoAll(Now(), calls[k..])
      {
        assert calls[k..][1..] == calls[k + 1..];
        match calls[k] {
          case CallStart(job) => var _ := StartJob(job);
          case CallDismiss => Dismiss();
          case CallBackground => ToBackground();
        }
        k := k + 1;
      }
    }

    /** The `catch` block, `finally`, and the code after them. */
    method Failed(g: nat, job: Job, key: string, onError: Script)
      modifies this
      ensures Now() == Fail(old(Now()), g, job, key, onError)
    {
      hide DoAll;
      if generation != g {
        return;
      }
      if run.None? || run.value.vaultId != job.vaultId {
        inFlight := false;
        return;
      }
      if job.mode == AdvanceQueue {
        run := None;
      } else {
        run := Some(run.value.(foreground := true, errorKey := Some(key)));
      }
      CallBack(onError.calls);
      if generation == g {
        inFlight := false;
      }
      if job.mode == AdvanceQueue && onError.throws.None? && generation == g {
        ShiftQueue();
      }
    }

    /** The pipeline of generation `g` has resolved (no error) or rejected. */
    method OnSettled(g: nat, job: Job, error: Option<string>, onComplete: Script, onError: Script)
      requires g in unsettled && unsettled[g] == job
      modifies this
      ensures Now() == Settle(old(Now()), g, error, onComplete, onError)
    {
      hide DoAll;
      hide Fail;
      unsettled := unsettled - {g};
      if error.Some? {
        Failed(g, job, error.value, onError);
        return;
      }
      if generation != g {
        return;
      }
      CallBack(onComplete.calls);
      if onComplete.throws.Some? {
        Failed(g, job, onComplete.throws.value, onError);
        return;
      }
      run := None;
      if generation == g {
        inFlight := false;
      }
      if generation == g {
        ShiftQueue();
      }
    }
  }

  // ----- Derived lists -----

  datatype ListKind = Opening | Closing | Creating | Waiting

  function ListStatusKind(kind: Kind): ListKind {
    match kind case Open => Opening case Create => Creating case Close => Closing
  }

  function IdsOf(queue: seq<Job>, kind: Kind): seq<VaultId> {
    if queue == [] then []
    else (if queue[0].kind == kind then [queue[0].vaultId] else []) + IdsOf(queue[1..], kind)
  }

  function RunIds(s: P.State, kind: Kind): seq<VaultId> {
    if s.run.Some? && s.run.value.kind == kind then [s.run.value.vaultId] else []
  }

  function OpeningVaultIds(s: P.State): seq<VaultId> {
    RunIds(s, Open)
  }

  function ClosingVaultIds(s: P.State): seq<VaultId> {
    RunIds(s, Close) + IdsOf(s.queue, Close)
  }

  function CreatingVaultIds(s: P.State): seq<VaultId> {
    RunIds(s, Create) + IdsOf(s.queue, Create)
  }

  function QueuedVaultIds(s: P.State): seq<VaultId> {
    IdsOf(s.queue, Open)
  }

  /** The first queued job of a vault, as `find` gives it. */
  function FindQueued(queue: seq<Job>, id: VaultId): Option<Job> {
    if queue == [] then None
    else if queue[0].vaultId == id then Some(queue[0])
    else FindQueued(queue[1..], id)
  }

  function ListStatus(s: P.State, id: VaultId): Option<ListKind> {
    if s.run.Some? && s.run.value.vaultId == id then Some(ListStatusKind(s.run.value.kind))
    else match FindQueued(s.queue, id)
      case None => None
      case Some(job) => Some(if job.kind == Open then Waiting else ListStatusKind(job.kind))
  }

  lemma {:induction false} FoundInQueue(queue: seq<Job>, id: VaultId)
    requires DistinctIds(queue)
    ensures FindQueued(queue, id).Some? <==> Queued(queue, id)
    ensures forall kind ::
              id in IdsOf(queue, kind) <==> FindQueued(queue, id).Some? && FindQueued(queue, id).value.kind == kind
  {
    if queue != [] {
      var rest := queue[1..];
      assert forall i :: 0 <= i < |rest| ==> rest[i] == queue[i + 1];
      FoundInQueue(rest, id);
      assert queue[0].vaultId == id ==> !Queued(rest, id);
      assert Queued(rest, id) ==> Queued(queue, id) by {
        if i :| 0 <= i < |rest| && rest[i].vaultId == id {
          assert queue[i + 1].vaultId == id;
        }
      }
    }
  }

  /** In every run a vault's row shows a status exactly when the runner tracks it, and the four id
      lists say the same as the rows. */
  lemma ListsAgree(events: seq<Event>, id: VaultId)
    ensures var s := Run(events); var status := ListStatus(s, id);
            && (status.Some? <==> Tracked(s, id))
            && (status == Some(Opening) <==> id in OpeningVaultIds(s))
            && (status == Some(Closing) <==> id in ClosingVaultIds(s))
            && (status == Some(Creating) <==> id in CreatingVaultIds(s))
            && (status == Some(Waiting) <==> id in QueuedVaultIds(s))
  {
    RunIsSound(events);
    var s := Run(events);
    hide Run;
    FoundInQueue(s.queue, id);
    hide FindQueued;
    hide IdsOf;
  }
}
