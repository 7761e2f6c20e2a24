/** The one-at-a-time open/close/create runner of `useVaultPipelineRun`, without React: its four
    refs, the jobs it was given, and the pipelines that have not settled. */
module PipelineRunner {
  import opened Wrappers

  type VaultId = string

  datatype Kind = Open | Close | Create

  datatype FailureMode = Overlay | AdvanceQueue

  datatype Job = Job(vaultId: VaultId, kind: Kind, stepCount: nat, foreground: bool, mode: FailureMode)

  datatype RunState = RunState(vaultId: VaultId, kind: Kind, activeStep: nat, stepCount: nat,
                               foreground: bool, errorKey: Option<string>)

  /** `unsettled` maps the generation of each `runPipeline` promise still pending to its job;
      `accepted` and `started` list the jobs in the order `start` accepted and the runner began them. */
  datatype State = State(run: Option<RunState>, queue: seq<Job>, generation: nat, inFlight: bool,
                         unsettled: map<nat, Job>, accepted: seq<Job>, started: seq<Job>)

  // ----- The operations -----

  function FreshRun(job: Job): RunState {
    RunState(job.vaultId, job.kind, 0, job.stepCount, job.foreground, None)
  }

  function Execute(s: State, job: Job): State {
    var generation := s.generation + 1;
    s.(generation := generation, inFlight := true, run := Some(FreshRun(job)),
       unsettled := s.unsettled[generation := job], started := s.started + [job])
  }

  predicate Queued(queue: seq<Job>, id: VaultId) {
    exists i :: 0 <= i < |queue| && queue[i].vaultId == id
  }

  /** `isVaultPipelineBusy`. */
  predicate Tracked(s: State, id: VaultId) {
    (s.run.Some? && s.run.value.vaultId == id) || Queued(s.queue, id)
  }

  function Start(s: State, job: Job): State {
    if Tracked(s, job.vaultId) then s
    else
      var accepted := s.(accepted := s.accepted + [job]);
      if s.run.None? then Execute(accepted, job) else accepted.(queue := s.queue + [job])
  }

  function NextJob(s: State): State {
    if s.queue == [] then s else Execute(s.(queue := s.queue[1..]), s.queue[0])
  }

  function MoveToBackground(s: State): State {
    if s.run.Some? then s.(run := Some(s.run.value.(foreground := false))) else s
  }

  function DismissFailure(s: State): State {
    if s.inFlight then MoveToBackground(s) else NextJob(s.(run := None))
  }

  // ----- Callbacks: what they call back into the runner, and whether they then throw -----

  datatype Call = CallStart(job: Job) | CallDismiss | CallBackground

  datatype Script = Script(calls: seq<Call>, throws: Option<string>)

  function Do(s: State, c: Call): State {
    match c
    case CallStart(job) => Start(s, job)
    case CallDismiss => DismissFailure(s)
    case CallBackground => MoveToBackground(s)
  }

  function DoAll(s: State, calls: seq<Call>): State
    decreases |calls|
  {
    if calls == [] then s else DoAll(Do(s, calls[0]), calls[1..])
  }

  function Finally(s: State, g: nat): State {
    if s.generation == g then s.(inFlight := false) else s
  }

  /** The `catch` block and what follows it. */
  function Fail(s: State, g: nat, job: Job, key: string, onError: Script): State {
    if s.generation != g then s
    else if s.run.None? || s.run.value.vaultId != job.vaultId then Finally(s, g)
    else if job.mode == AdvanceQueue then
      var told := Finally(DoAll(s.(run := None), onError.calls), g);
      if onError.throws.Some? || told.generation != g then told else NextJob(told)
    else
      Finally(DoAll(s.(run := Some(s.run.value.(foreground := true, errorKey := Some(key)))), onError.calls), g)
  }

  predicate Fails(error: Option<string>, onComplete: Script) {
    error.Some? || onComplete.throws.Some?
  }

  /** The state in which `runPipeline` has settled and, if it resolved, `onComplete` was called. */
  function Settled(s: State, g: nat, error: Option<string>, onComplete: Script): State {
    var settled := s.(unsettled := s.unsettled - {g});
    if error.Some? || s.generation != g then settled else DoAll(settled, onComplete.calls)
  }

  /** The pipeline of generation `g` settles: `error` is None when it resolved. */
  function Settle(s: State, g: nat, error: Option<string>, onComplete: Script, onError: Script): State
    requires g in s.unsettled
  {
    var settled := Settled(s, g, error, onComplete);
    if error.Some? then Fail(settled, g, s.unsettled[g], error.value, onError)
    else if s.generation != g then settled
    else if onComplete.throws.Some? then Fail(settled, g, s.unsettled[g], onComplete.throws.value, onError)
    else
      var ended := Finally(settled.(run := None), g);
      if ended.generation == g then NextJob(ended) else ended
  }

  /** The loading budget of generation `g` runs out before it settles. */
  function TimeOut(s: State, g: nat, onTimeout: Script): State
    requires g in s.unsettled
  {
    var job := s.unsettled[g];
    if s.generation != g || s.run.None? || s.run.value.vaultId != job.vaultId || s.run.value.errorKey.Some? then s
    else if job.mode == AdvanceQueue then DoAll(s, onTimeout.calls)
    else
      DoAll(s.(run := Some(s.run.value.(foreground := true, errorKey := Some("loading.timed_out")))), onTimeout.calls)
  }

  function OnStep(s: State, g: nat, vaultId: VaultId, step: nat): State {
    if s.generation != g || s.run.None? || s.run.value.vaultId != vaultId then s
    else s.(run := Some(s.run.value.(activeStep := step)))
  }

  datatype Event =
    | Ui(call: Call)
    | Settles(g: nat, error: Option<string>, onComplete: Script, onError: Script)
    | TimesOut(g: nat, onTimeout: Script)
    | Steps(g: nat, vaultId: VaultId, step: nat)

  function Apply(s: State, e: Event): State {
    match e
    case Ui(c) => Do(s, c)
    case Settles(g, error, onComplete, onError) =>
      if g in s.unsettled then Settle(s, g, error, onComplete, onError) else s
    case TimesOut(g, onTimeout) => if g in s.unsettled then TimeOut(s, g, onTimeout) else s
    case Steps(g, id, step) => OnStep(s, g, id, step)
  }

  function Initial(): State {
    State(None, [], 0, false, map[], [], [])
  }

  function Run(events: seq<Event>): State {
    if events == [] then Initial() else Apply(Run(events[..|events| - 1]), events[|events| - 1])
  }

  // ----- What every run keeps -----

  ghost predicate DistinctIds(queue: seq<Job>) {
    forall i, j :: 0 <= i < j < |queue| ==> queue[i].vaultId != queue[j].vaultId
  }

  ghost predicate Distinct(s: State) {
    DistinctIds(s.queue) && (s.run.Some? ==> !Queued(s.queue, s.run.value.vaultId))
  }

  /** Generations pending are at most the latest one, and its job is the one shown as running. */
  ghost predicate OneInFlight(s: State) {
    && (forall g :: g in s.unsettled ==> g == s.generation)
    && (s.inFlight <==> s.generation in s.unsettled)
    && (s.inFlight ==> s.run.Some? && s.run.value.vaultId == s.unsettled[s.generation].vaultId)
    && (!s.inFlight && s.run.Some? ==> s.run.value.errorKey.Some?)
  }

  ghost predicate Sound(s: State) {
    Distinct(s) && OneInFlight(s)
  }

  /** While the settled generation `g` runs its callbacks: nothing of it is pending, and either the
      refs still show it or a callback has begun a later one. */
  ghost predicate Winding(s: State, g: nat) {
    g <= s.generation && Distinct(s) && if s.generation == g then s.unsettled == map[] && s.inFlight else OneInFlight(s)
  }

  lemma ExecuteIsSound(s: State, job: Job)
    requires s.unsettled == map[] && DistinctIds(s.queue) && !Queued(s.queue, job.vaultId)
    ensures Sound(Execute(s, job))
  {
  }

  lemma NextIsSound(s: State)
    requires s.unsettled == map[] && !s.inFlight && s.run.None? && DistinctIds(s.queue)
    ensures Sound(NextJob(s))
  {
    if s.queue != [] {
      var rest := s.queue[1..];
      assert forall i :: 0 <= i < |rest| ==> rest[i] == s.queue[i + 1];
      ExecuteIsSound(s.(queue := rest), s.queue[0]);
    }
  }

  lemma QueueGrows(queue: seq<Job>, job: Job, id: VaultId)
    requires DistinctIds(queue) && !Queued(queue, job.vaultId)
    ensures DistinctIds(queue + [job])
    ensures Queued(queue + [job], id) ==> Queued(queue, id) || id == job.vaultId
  {
    var longer := queue + [job];
    assert forall i :: 0 <= i < |queue| ==> longer[i] == queue[i];
    if i :| 0 <= i < |longer| && longer[i].vaultId == id {
      assert i < |queue| ==> queue[i].vaultId == id;
    }
  }

  lemma StartIsSound(s: State, job: Job)
    requires Sound(s)
    ensures Sound(Start(s, job))
  {
    if !Tracked(s, job.vaultId) {
      if s.run.None? {
        ExecuteIsSound(s.(accepted := s.accepted + [job]), job);
      } else {
        QueueGrows(s.queue, job, s.run.value.vaultId);
      }
    }
  }

  lemma DoIsSound(s: State, c: Call)
    requires Sound(s)
    ensures Sound(Do(s, c))
  {
    match c
    case CallStart(job) => StartIsSound(s, job);
    case CallDismiss =>
      if !s.inFlight {
        assert s.unsettled == map[];
        NextIsSound(s.(run := None));
      }
    case CallBackground =>
  }

  lemma {:induction false} DoAllIsSound(s: State, calls: seq<Call>)
    requires Sound(s)
    ensures Sound(DoAll(s, calls))
    decreases |calls|
  {
    hide Do;
    hide Sound;
    if calls != [] {
      DoIsSound(s, calls[0]);
      DoAllIsSound(Do(s, calls[0]), calls[1..]);
    }
  }

  lemma DoWinds(s: State, g: nat, c: Call)
    requires Winding(s, g)
    ensures Winding(Do(s, c), g)
    ensures s.generation == g && s.run.Some? ==> Do(s, c).generation == g && Do(s, c).run.Some?
                                                 && Do(s, c).run.value.vaultId == s.run.value.vaultId
  {
    if s.generation != g {
      DoIsSound(s, c);
    } else if c.CallStart? && !Tracked(s, c.job.vaultId) {
      if s.run.None? {
        ExecuteIsSound(s.(accepted := s.accepted + [c.job]), c.job);
      } else {
        QueueGrows(s.queue, c.job, s.run.value.vaultId);
      }
    }
  }

  /** After any callbacks of generation `g` either it is still the latest, showing the same run, or
      (only if it showed none) one of them has begun a later one. */
  lemma {:induction false} DoAllWinds(s: State, g: nat, calls: seq<Call>)
    requires Winding(s, g)
    ensures Winding(DoAll(s, calls), g)
    ensures s.generation == g && s.run.Some? ==> DoAll(s, calls).generation == g && DoAll(s, calls).run.Some?
                                                 && DoAll(s, calls).run.value.vaultId == s.run.value.vaultId
    decreases |calls|
  {
    hide Do;
    hide Winding;
    if calls != [] {
      DoWinds(s, g, calls[0]);
      DoAllWinds(Do(s, calls[0]), g, calls[1..]);
    }
  }

  lemma FailIsSound(s: State, g: nat, job: Job, key: string, onError: Script)
    requires Winding(s, g) && s.generation == g && s.run.Some? && s.run.value.vaultId == job.vaultId
    ensures Sound(Fail(s, g, job, key, onError))
  {
    if job.mode == AdvanceQueue {
      var told := DoAll(s.(run := None), onError.calls);
      DoAllWinds(s.(run := None), g, onError.calls);
      if told.generation == g {
        NoRunLeft(s.(run := None), g, onError.calls);
        NextIsSound(told.(inFlight := false));
      }
    } else {
      var shown := s.(run := Some(s.run.value.(foreground := true, errorKey := Some(key))));
      DoAllWinds(shown, g, onError.calls);
      ErrorStays(shown, g, onError.calls);
    }
    hide DoAll;
  }

  /** Callbacks that begin nothing leave the run empty. */
  lemma {:induction false} NoRunLeft(s: State, g: nat, calls: seq<Call>)
    requires Winding(s, g) && s.generation == g && s.run.None? && DoAll(s, calls).generation == g
    ensures DoAll(s, calls).run.None?
    decreases |calls|
  {
    hide Winding;
    if calls != [] {
      var next := Do(s, calls[0]);
      DoWinds(s, g, calls[0]);
      DoAllWinds(next, g, calls[1..]);
      assert s.inFlight by {
        WindingIsInFlight(s, g);
      }
      if next.generation == g {
        NoRunLeft(next, g, calls[1..]);
      } else {
        LaterStays(next, g, calls[1..]);
      }
    }
  }

  lemma WindingIsInFlight(s: State, g: nat)
    requires Winding(s, g)
    ensures g <= s.generation && (s.generation == g ==> s.inFlight)
  {
  }

  lemma {:induction false} LaterStays(s: State, g: nat, calls: seq<Call>)
    requires g < s.generation
    ensures g < DoAll(s, calls).generation
    decreases |calls|
  {
    if calls != [] {
      assert s.generation <= Do(s, calls[0]).generation;
      hide Do;
      LaterStays(Do(s, calls[0]), g, calls[1..]);
    }
  }

  lemma {:induction false} ErrorStays(s: State, g: nat, calls: seq<Call>)
    requires Winding(s, g) && s.generation == g && s.run.Some? && s.run.value.errorKey.Some?
    ensures DoAll(s, calls).run.Some? && DoAll(s, calls).run.value.errorKey.Some?
    decreases |calls|
  {
    if calls != [] {
      DoWinds(s, g, calls[0]);
      assert Do(s, calls[0]).run.value.errorKey.Some?;
      hide Do;
      hide Winding;
      ErrorStays(Do(s, calls[0]), g, calls[1..]);
    }
  }

  /** When the catch block or the end is reached, the run is still that of the settled job. */
  lemma SettledWinds(s: State, g: nat, error: Option<string>, onComplete: Script)
    requires Sound(s) && g in s.unsettled
    ensures var settled := Settled(s, g, error, onComplete);
            && Winding(settled, g) && settled.generation == g
            && settled.run.Some? && settled.run.value.vaultId == s.unsettled[g].vaultId
  {
    var settled := s.(unsettled := s.unsettled - {g});
    assert settled.unsettled == map[] && Winding(settled, g);
    DoAllWinds(settled, g, onComplete.calls);
    hide DoAll;
  }

  lemma SettleIsSound(s: State, e: Event)
    requires Sound(s) && e.Settles? && e.g in s.unsettled
    ensures Sound(Settle(s, e.g, e.error, e.onComplete, e.onError))
  {
    var job := s.unsettled[e.g];
    SettledWinds(s, e.g, e.error, e.onComplete);
    var settled := Settled(s, e.g, e.error, e.onComplete);
    hide Settled;
    hide Fail;
    hide NextJob;
    if e.error.Some? {
      FailIsSound(settled, e.g, job, e.error.value, e.onError);
    } else if e.onComplete.throws.Some? {
      FailIsSound(settled, e.g, job, e.onComplete.throws.value, e.onError);
    } else {
      NextIsSound(Finally(settled.(run := None), e.g));
    }
  }

  lemma ApplyIsSound(s: State, e: Event)
    requires Sound(s)
    ensures Sound(Apply(s, e))
  {
    match e
    case Ui(c) => DoIsSound(s, c);
    case Settles(g, _, _, _) =>
      if g in s.unsettled {
        SettleIsSound(s, e);
      }
    case TimesOut(g, onTimeout) =>
      if g in s.unsettled {
        DoAllIsSound(s, onTimeout.calls);
        if s.run.Some? {
          DoAllIsSound(s.(run := Some(s.run.value.(foreground := true, errorKey := Some("loading.timed_out")))),
                       onTimeout.calls);
        }
      }
      hide DoAll;
    case Steps(_, _, _) =>
  }

  lemma {:induction false} RunIsSound(events: seq<Event>)
    ensures Sound(Run(events))
  {
    if events != [] {
      RunIsSound(events[..|events| - 1]);
      ApplyIsSound(Run(events[..|events| - 1]), events[|events| - 1]);
      hide Apply;
      hide Sound;
    }
  }

  /** Whatever the callbacks do, at most one pipeline is in flight, it is the one shown, and no
      vault is tracked twice. */
  lemma OneAtATime(events: seq<Event>)
    ensures var s := Run(events);
            && |s.unsettled| <= 1 && (s.inFlight <==> |s.unsettled| == 1)
            && Distinct(s)
            && (s.inFlight ==>
                  && s.run.Some? && s.generation in s.unsettled
                  && s.run.value.vaultId == s.unsettled[s.generation].vaultId)
  {
    RunIsSound(events);
    var s := Run(events);
    hide Run;
    assert s.unsettled.Keys <= {s.generation};
    if s.generation in s.unsettled {
      assert s.unsettled == map[s.generation := s.unsettled[s.generation]];
    } else {
      assert s.unsettled == map[];
    }
  }

  // ----- Acceptance order -----

  /** Jobs begin in the order they were accepted; the queue holds the rest. */
  ghost predicate Ordered(s: State) {
    s.accepted == s.started + s.queue
  }

  /** Nothing waits while nothing runs. */
  ghost predicate Rests(s: State) {
    s.run.None? ==> s.queue == []
  }

  lemma NextKeepsOrder(s: State)
    requires Ordered(s)
    ensures Ordered(NextJob(s)) && Rests(NextJob(s))
    ensures |NextJob(s).started| == |s.started| + (if s.queue == [] then 0 else 1)
  {
    if s.queue != [] {
      assert s.queue == [s.queue[0]] + s.queue[1..];
    }
  }

  lemma DoKeepsOrder(s: State, c: Call)
    requires Ordered(s) && Rests(s)
    ensures Ordered(Do(s, c)) && Rests(Do(s, c))
    ensures s.run.Some? && s.inFlight ==>
              Do(s, c).started == s.started && Do(s, c).run.Some? && Do(s, c).inFlight && s.queue <= Do(s, c).queue
    ensures s.started <= Do(s, c).started && s.accepted <= Do(s, c).accepted
  {
    if c.CallDismiss? && !s.inFlight {
      NextKeepsOrder(s.(run := None));
    }
  }

  lemma {:induction false} DoAllKeepsOrder(s: State, calls: seq<Call>)
    requires Ordered(s) && Rests(s)
    ensures var next := DoAll(s, calls);
            && Ordered(next) && Rests(next) && s.started <= next.started && s.accepted <= next.accepted
            && (s.run.Some? && s.inFlight ==> next.started == s.started && next.run.Some? && s.queue <= next.queue)
    decreases |calls|
  {
    if calls != [] {
      DoKeepsOrder(s, calls[0]);
      hide Do;
      hide Ordered;
      hide Rests;
      DoAllKeepsOrder(Do(s, calls[0]), calls[1..]);
    }
  }

  /** One of the calls starts a vault that is not waiting. */
  predicate Jumps(queue: seq<Job>, calls: seq<Call>) {
    exists i :: 0 <= i < |calls| && calls[i].CallStart? && !Queued(queue, calls[i].job.vaultId)
  }

  /** An `onError` called between two jobs keeps their order. */
  predicate KeepsTurn(queue: seq<Job>, onError: Script) {
    queue == [] || (onError.throws.None? && !Jumps(queue, onError.calls))
  }

  /** Between two jobs (nothing runs, the refs still in flight) calls that start nothing new do nothing. */
  lemma {:induction false} IdleCalls(s: State, calls: seq<Call>)
    requires s.run.None? && s.inFlight && !Jumps(s.queue, calls)
    ensures DoAll(s, calls) == s
    decreases |calls|
  {
    if calls != [] {
      assert calls[0].CallStart? ==> Queued(s.queue, calls[0].job.vaultId);
      assert Do(s, calls[0]) == s;
      assert forall i :: 0 <= i < |calls| - 1 ==> calls[1..][i] == calls[i + 1];
      IdleCalls(s, calls[1..]);
    }
  }

  /** Once a job runs, calls only add to the end of the queue. */
  lemma {:induction false} BusyCalls(s: State, calls: seq<Call>)
    requires s.run.Some? && s.inFlight
    ensures var next := DoAll(s, calls); next.started == s.started && s.accepted <= next.accepted && next.run.Some?
    decreases |calls|
  {
    if calls != [] {
      var next := Do(s, calls[0]);
      assert next.run.Some? && next.inFlight && next.started == s.started && s.accepted <= next.accepted;
      hide Do;
      BusyCalls(next, calls[1..]);
    }
  }

  /** Between two jobs the first call that starts a new vault runs it ahead of the queue. */
  lemma {:induction false} JumpingCalls(s: State, calls: seq<Call>)
    requires s.run.None? && s.inFlight && Jumps(s.queue, calls)
    ensures exists job: Job :: !Queued(s.queue, job.vaultId)
                          && DoAll(s, calls).started == s.started + [job]
                          && s.accepted + [job] <= DoAll(s, calls).accepted
    ensures DoAll(s, calls).run.Some?
    decreases |calls|
  {
    if calls[0].CallStart? && !Queued(s.queue, calls[0].job.vaultId) {
      BusyCalls(Do(s, calls[0]), calls[1..]);
    } else {
      assert Do(s, calls[0]) == s;
      var i :| 0 <= i < |calls| && calls[i].CallStart? && !Queued(s.queue, calls[i].job.vaultId);
      assert calls[1..][i - 1] == calls[i];
      JumpingCalls(s, calls[1..]);
    }
  }

  lemma JumpBreaksOrder(s: State, next: State, job: Job)
    requires Ordered(s) && s.queue != [] && !Queued(s.queue, job.vaultId)
    requires next.started == s.started + [job] && s.accepted + [job] <= next.accepted
    ensures !Ordered(next)
  {
    var k := |s.started|;
    assert (s.accepted + [job])[k] == s.queue[0];
    assert next.accepted[k] == s.queue[0];
    assert (next.started + next.queue)[k] == job;
    assert s.queue[0].vaultId != job.vaultId;
  }

  /** A failing job of the advancing kind: order and rest survive exactly when `onError` keeps the
      queue's turn. */
  lemma FailKeepsOrderExactly(s: State, g: nat, job: Job, key: string, onError: Script)
    requires Ordered(s) && Winding(s, g) && s.generation == g && s.run.Some? && s.run.value.vaultId == job.vaultId
    requires job.mode == AdvanceQueue
    ensures var next := Fail(s, g, job, key, onError);
            Ordered(next) && Rests(next) <==> KeepsTurn(s.queue, onError)
    ensures KeepsTurn(s.queue, onError) && s.queue != [] ==> |Fail(s, g, job, key, onError).started| == |s.started| + 1
    ensures KeepsTurn(s.queue, onError) ==> s.started <= Fail(s, g, job, key, onError).started
                                            && s.accepted <= Fail(s, g, job, key, onError).accepted
  {
    var free := s.(run := None);
    var told := DoAll(free, onError.calls);
    DoAllWinds(free, g, onError.calls);
    if s.queue == [] {
      DoAllKeepsOrder(free, onError.calls);
      hide DoAll;
      NextKeepsOrder(Finally(told, g));
    } else if Jumps(s.queue, onError.calls) {
      JumpingCalls(free, onError.calls);
      var jumper: Job :| && !Queued(s.queue, jumper.vaultId) && told.started == s.started + [jumper]
                         && s.accepted + [jumper] <= told.accepted;
      JumpBreaksOrder(free, told, jumper);
      hide DoAll;
      if told.generation == g {
        NoRunLeft(free, g, onError.calls);
      }
    } else {
      IdleCalls(free, onError.calls);
      hide DoAll;
      NextKeepsOrder(Finally(told, g));
    }
  }

  lemma OverlayKeepsOrder(s: State, g: nat, job: Job, key: string, onError: Script)
    requires Ordered(s) && Winding(s, g) && s.generation == g && s.run.Some? && s.run.value.vaultId == job.vaultId
    requires job.mode == Overlay
    ensures var next := Fail(s, g, job, key, onError);
            Ordered(next) && Rests(next) && s.started <= next.started && s.accepted <= next.accepted
  {
    var shown := s.(run := Some(s.run.value.(foreground := true, errorKey := Some(key))));
    DoAllKeepsOrder(shown, onError.calls);
    hide DoAll;
  }

  /** The event gives every waiting job its turn. */
  predicate Polite(s: State, e: Event) {
    e.Settles? && e.g in s.unsettled && s.unsettled[e.g].mode == AdvanceQueue && Fails(e.error, e.onComplete)
    ==> KeepsTurn(Settled(s, e.g, e.error, e.onComplete).queue, e.onError)
  }

  /** A pipeline ends and lets the next one begin, or a failed one is dismissed. */
  predicate Finishes(s: State, e: Event) {
    || (e.Settles? && e.g in s.unsettled && (s.unsettled[e.g].mode == AdvanceQueue || !Fails(e.error, e.onComplete)))
    || (e == Ui(CallDismiss) && !s.inFlight && s.run.Some?)
  }

  lemma SettledKeepsOrder(s: State, g: nat, error: Option<string>, onComplete: Script)
    requires Sound(s) && Ordered(s) && Rests(s) && g in s.unsettled
    ensures var settled := Settled(s, g, error, onComplete);
            && Ordered(settled) && settled.started == s.started && s.accepted <= settled.accepted
            && s.queue <= settled.queue
  {
    var settled := s.(unsettled := s.unsettled - {g});
    DoAllKeepsOrder(settled, onComplete.calls);
    hide DoAll;
  }

  ghost predicate InTurn(s: State) {
    Sound(s) && Ordered(s) && Rests(s)
  }

  lemma SettleKeepsOrderExactly(s: State, e: Event)
    requires InTurn(s) && e.Settles? && e.g in s.unsettled
    ensures InTurn(Apply(s, e)) <==> Polite(s, e)
    ensures Polite(s, e) ==> s.started <= Apply(s, e).started && s.accepted <= Apply(s, e).accepted
    ensures Polite(s, e) && Finishes(s, e) && s.queue != [] ==> |s.started| < |Apply(s, e).started|
  {
    var job := s.unsettled[e.g];
    SettleIsSound(s, e);
    SettledWinds(s, e.g, e.error, e.onComplete);
    SettledKeepsOrder(s, e.g, e.error, e.onComplete);
    var settled := Settled(s, e.g, e.error, e.onComplete);
    hide Settled;
    hide Sound;
    hide Winding;
    hide KeepsTurn;
    if Fails(e.error, e.onComplete) {
      var key := if e.error.Some? then e.error.value else e.onComplete.throws.value;
      if job.mode == AdvanceQueue {
        FailKeepsOrderExactly(settled, e.g, job, key, e.onError);
      } else {
        OverlayKeepsOrder(settled, e.g, job, key, e.onError);
      }
      hide Fail;
    } else {
      NextKeepsOrder(Finally(settled.(run := None), e.g));
    }
  }

  lemma TimeOutKeepsOrder(s: State, g: nat, onTimeout: Script)
    requires InTurn(s) && g in s.unsettled
    ensures var next := TimeOut(s, g, onTimeout);
            Ordered(next) && Rests(next) && s.started <= next.started && s.accepted <= next.accepted
  {
    hide Sound;
    DoAllKeepsOrder(s, onTimeout.calls);
    if s.run.Some? {
      DoAllKeepsOrder(s.(run := Some(s.run.value.(foreground := true, errorKey := Some("loading.timed_out")))),
                      onTimeout.calls);
    }
    hide DoAll;
  }

  /** Each event keeps acceptance order, and an empty queue at rest, exactly when it is polite: only
      the `onError` of an advancing job can break them, by throwing or by starting a new vault while
      others wait. */
  lemma OrderIsKeptExactly(s: State, e: Event)
    requires InTurn(s)
    ensures InTurn(Apply(s, e)) <==> Polite(s, e)
    ensures Polite(s, e) ==> s.started <= Apply(s, e).started && s.accepted <= Apply(s, e).accepted
    ensures Polite(s, e) && Finishes(s, e) && s.queue != [] ==> |s.started| < |Apply(s, e).started|
  {
    ApplyIsSound(s, e);
    hide Sound;
    match e
    case Ui(c) =>
      DoKeepsOrder(s, c);
      if c.CallDismiss? {
        NextKeepsOrder(s.(run := None));
      }
    case Settles(g, _, _, _) =>
      if g in s.unsettled {
        SettleKeepsOrderExactly(s, e);
        hide Apply;
        hide Polite;
        hide Finishes;
      }
    case TimesOut(g, onTimeout) =>
      if g in s.unsettled {
        TimeOutKeepsOrder(s, g, onTimeout);
        hide TimeOut;
      }
    case Steps(_, _, _) =>
  }

  // ----- Whole runs -----

  ghost predicate AllPolite(events: seq<Event>) {
    forall k :: 0 <= k < |events| ==> Polite(Run(events[..k]), events[k])
  }

  lemma PrefixPolite(events: seq<Event>)
    requires AllPolite(events) && events != []
    ensures AllPolite(events[..|events| - 1]) && Polite(Run(events[..|events| - 1]), events[|events| - 1])
  {
    hide Polite;
    hide Run;
    var front := events[..|events| - 1];
    forall k | 0 <= k < |front| ensures Polite(Run(front[..k]), front[k]) {
      assert front[..k] == events[..k];
      assert Polite(Run(events[..k]), events[k]);
    }
  }

  /** In a polite run jobs begin in acceptance order, each at most once, and nothing waits at rest. */
  lemma {:induction false} FirstComeFirstServed(events: seq<Event>)
    requires AllPolite(events)
    ensures InTurn(Run(events))
  {
    if events != [] {
      PrefixPolite(events);
      FirstComeFirstServed(events[..|events| - 1]);
      OrderIsKeptExactly(Run(events[..|events| - 1]), events[|events| - 1]);
    }
  }

  /** How many events of `events`, from the `from`-th on, finish a job. */
  function Finished(events: seq<Event>, from: nat): nat
    requires from <= |events|
    decreases |events|
  {
    if from == |events| then 0
    else
      var front := events[..|events| - 1];
      Finished(front, from) + if Finishes(Run(front), events[|events| - 1]) then 1 else 0
  }

  /** Every accepted job begins: the one accepted `i`-th has begun once as many jobs as stood before
      it, and itself, have been let go. */
  lemma {:induction false} EveryJobGetsItsTurn(events: seq<Event>, from: nat, i: nat)
    requires AllPolite(events) && from <= |events| && i < |Run(events[..from]).accepted|
    requires |Run(events[..from]).started| + Finished(events, from) > i
    ensures i < |Run(events).started| && Run(events).started[i] == Run(events[..from]).accepted[i]
  {
    BegunByThen(events, from, i);
    FirstComeFirstServed(events);
  }

  lemma {:induction false} BegunByThen(events: seq<Event>, from: nat, i: nat)
    requires AllPolite(events) && from <= |events| && i < |Run(events[..from]).accepted|
    ensures Run(events[..from]).accepted <= Run(events).accepted
    ensures |Run(events).started| > i || |Run(events).started| >= |Run(events[..from]).started| + Finished(events, from)
    decreases |events|
  {
    if from == |events| {
      assert events[..from] == events;
    } else {
      var front, e := events[..|events| - 1], events[|events| - 1];
      PrefixPolite(events);
      assert front[..from] == events[..from];
      BegunByThen(front, from, i);
      FirstComeFirstServed(front);
      OrderIsKeptExactly(Run(front), e);
      hide Apply;
      hide Finishes;
      hide Polite;
      hide Sound;
    }
  }

  /** And the chance always comes: while a job waits, the one before it is in flight or shows an
      error that can be dismissed. */
  lemma SomethingFinishes(events: seq<Event>)
    requires AllPolite(events) && Run(events).queue != []
    ensures var s := Run(events);
            if s.inFlight then s.generation in s.unsettled
            else s.run.Some? && s.run.value.errorKey.Some? && Finishes(s, Ui(CallDismiss))
  {
    FirstComeFirstServed(events);
  }
}
