/** File numbers and line numbers over whole runs: exactly when each keeps counting, and runs in
    which it does not. */
module LogNumbering {
  import opened Wrappers
  import opened LogFormat
  import opened LogDirectory
  import opened LogHistory
  import opened LogSteps
  import opened LogPruning
  import opened LogRuns
  import opened LogLosses
  import opened Sequences

  // ----- When the newest file is gone -----

  lemma CreatedLength(f: Files, a: Active, env: Env)
    requires ArchiveOf(a.name) !in f && Fresh(a.name.number + 1, env.stamp) !in f
    ensures CreateOrRollBack(f, a, env).ops != [] <==> CreateNext !in env.fails
    ensures CreateOrRollBack(f, a, env).ok <==> CreateNext !in env.fails
  {
  }

  /** A call that prunes the newest file ends there exactly when it cannot create the next. */
  lemma LengthWhenGone(cfg: LogConfig, p: Past, e: Entry, env: Env)
    requires Holds(p) && !NewestGone(p.made) && PrunesNewest(cfg, p.state, env)
    ensures |WriteStep(cfg, p.state, e, env).ops| >= PruneEnd(cfg, p.state, env)
    ensures |WriteStep(cfg, p.state, e, env).ops| == PruneEnd(cfg, p.state, env) <==> CreateNext in env.fails
  {
    var keep := cfg.keepLastEntries;
    var ready := ReadyStep(p.state, env);
    var t := ready.state;
    var a := t.active.value;
    ReadyFollows(p, env, keep);
    FollowsHolds(p, ready, keep);
    ReadyRemovesNothing(p.state, env);
    NoneRemovedSo(p, ready.ops);
    hide ReadyStep;
    hide Holds;
    var q0 := After(p, ready.ops);
    ArchiveOpsFollow(q0, keep);
    NoneRemovedSo(q0, ArchiveOps(t));
    var q := After(q0, ArchiveOps(t));
    assert q.state.files == ArchivedFiles(t);
    GoneIsMissing(q, a.name);
    PrunesNewestExactly(q.state.files, env.skipped, ArchiveOf(a.name), keep, env.removals);
    var more := CallOps(cfg, p.state, e, env);
    var rest := RotationOps(cfg, t, env);
    var pruned := Prune(cfg, q.state.files, env);
    assert pruned.ops == PruneOps(q.state.files, env.skipped, keep, env.removals);
    assert ArchiveOf(a.name) !in pruned.state.files;
    PruningFollows(cfg, q, a.name, env);
    NextIsNew(After(q, pruned.ops), a.name, Fresh(a.name.number + 1, env.stamp));
    hide Between;
    hide Lawful;
    CreatedLength(pruned.state.files, a, env);
    assert PrepareStep(cfg, p.state, env) == Both(ready, RotateStep(cfg, t, env));
    assert RotateStep(cfg, t, env).ok == CreateOrRollBack(pruned.state.files, a, env).ok by {
      RotatedOk(cfg, t, env);
    }
    hide PrepareStep;
    hide WriteStep;
    hide RotateStep;
    hide Prune;
    hide ArchiveOps;
    hide CreateOrRollBack;
  }

  lemma RotatedOk(cfg: LogConfig, s: LogState, env: Env)
    requires Live(s) && Out(env, BeforeRotation, s.active.value.buffer) == |s.active.value.buffer|
    requires RenameToArchive !in env.fails
    ensures RotateStep(cfg, s, env).ok
         == CreateOrRollBack(Prune(cfg, ArchivedFiles(s), env).state.files, s.active.value, env).ok
  {
    hide CreateOrRollBack;
    hide Prune;
  }

  /** An event of a run leaves the newest file removed exactly when a call prunes it and then cannot
      create the next one, or is cut short before it has. */
  lemma NewestGoneExactly(cfg: LogConfig, p: Past, ev: Event)
    requires Holds(p) && !NewestGone(p.made)
    ensures NewestGone(After(p, Performed(cfg, p, ev)).made) <==>
              && IsCall(ev) && PrunesNewest(cfg, p.state, ev.env)
              && (ev.Log? ==> CreateNext in ev.env.fails)
              && (ev.Crash? ==>
                    || ev.point == PruneEnd(cfg, p.state, ev.env)
                    || (ev.point > PruneEnd(cfg, p.state, ev.env) && CreateNext in ev.env.fails))
  {
    if IsCall(ev) {
      var ops := StepOf(cfg, p, ev).ops;
      var j := if ev.Crash? then Least(ev.point, |ops|) else |ops|;
      assert ops[..|ops|] == ops;
      NewestGoesExactly(cfg, p, ev.entry, ev.env, j);
      if PrunesNewest(cfg, p.state, ev.env) {
        LengthWhenGone(cfg, p, ev.entry, ev.env);
      }
      hide WriteStep;
      hide PrunesNewest;
      hide Holds;
      if ev.Crash? {
        var cut := CutOps(cfg, p, ev);
        hide CutOps;
        DropsKeepMade(After(p, cut));
        AfterBoth(p, cut, DropOps(After(p, cut).state));
      }
    } else {
      var ops := Performed(cfg, p, ev);
      assert NoRemovals(ops);
      hide Performed;
      NoneRemovedSo(p, ops);
    }
    hide After;
  }

  lemma DropsKeepMade(p: Past)
    ensures After(p, DropOps(p.state)).made == p.made
  {
    NothingIsLawful(p, 0);
    AfterOne(p, Drop);
  }

  // ----- File numbers -----

  lemma {:induction false} TakeNextBoth(p: Past, a: seq<Op>, b: seq<Op>)
    ensures AllTakeNext(p, a + b) <==> AllTakeNext(p, a) && AllTakeNext(After(p, a), b)
  {
    if b == [] {
      assert a + b == a;
    } else {
      assert (a + b)[..|a + b| - 1] == a + b[..|b| - 1];
      TakeNextBoth(p, a, b[..|b| - 1]);
      AfterBoth(p, a, b[..|b| - 1]);
    }
    hide TakesNext;
  }

  ghost predicate NoCreates(ops: seq<Op>) {
    forall i :: 0 <= i < |ops| ==> !ops[i].Create?
  }

  lemma {:induction false} NoCreatesTakeNext(p: Past, ops: seq<Op>)
    requires NoCreates(ops)
    ensures AllTakeNext(p, ops)
  {
    if ops != [] {
      NoCreatesTakeNext(p, ops[..|ops| - 1]);
    }
  }

  lemma OneTakesNext(p: Past, op: Op)
    ensures AllTakeNext(p, [op]) <==> TakesNext(p.made, op)
  {
    assert [op][..0] == [];
    assert After(p, [op][..0]) == p && AllTakeNext(p, [op][..0]);
  }

  /** The call creates a file in a directory whose newest file was removed. */
  ghost predicate StartsOver(p: Past, env: Env) {
    NewestGone(p.made) && EnsureDir(0) !in env.fails && CreateFirst(0) !in env.fails
  }

  lemma OpenTakesNext(p: Past, env: Env)
    requires Holds(p)
    ensures AllTakeNext(p, OpenStep(p.state.files, env, 0).ops) <==> !StartsOver(p, env)
  {
    var f := p.state.files;
    NewestNumber(f, p.made);
    if HasCurrent(f) {
      CurrentHasLastRecord(f, p.made, CurrentOf(f));
    }
    var ops := OpenStep(f, env, 0).ops;
    hide FilesHold;
    hide MaxNumber;
    if ops == [] {
      NoCreatesTakeNext(p, []);
    } else {
      OneTakesNext(p, ops[0]);
      assert ops == [ops[0]];
    }
    hide AllTakeNext;
  }

  lemma ReadyTakesNext(p: Past, env: Env)
    requires Holds(p)
    ensures AllTakeNext(p, ReadyStep(p.state, env).ops) <==> !StartsOver(p, env)
  {
    var s := p.state;
    if Live(s) {
      NoCreatesTakeNext(p, []);
      CurrentHasLastRecord(s.files, p.made, s.active.value.name);
    } else if s.active.Some? {
      AfterOne(p, Drop);
      OneTakesNext(p, Drop);
      OpenTakesNext(Then(p, Drop), env);
      TakeNextBoth(p, [Drop], OpenStep(s.files, env, 0).ops);
    } else {
      OpenTakesNext(p, env);
    }
    hide AllTakeNext;
    hide FilesHold;
    hide OpenStep;
    hide After;
  }

  lemma BothCreateNothing(a: seq<Op>, b: seq<Op>)
    requires NoCreates(a) && NoCreates(b)
    ensures NoCreates(a + b)
  {
  }

  lemma PruneCreatesNothing(cfg: LogConfig, f: Files, env: Env)
    ensures NoCreates(Prune(cfg, f, env).ops)
  {
    var ops := PruneOps(f, env.skipped, cfg.keepLastEntries, env.removals);
    PruneSkips(f, env.skipped, cfg.keepLastEntries, env.removals);
    RemovalsCreateNothing(ops);
    hide PruneOps;
  }

  lemma RemovalsCreateNothing(ops: seq<Op>)
    requires AllRemove(ops)
    ensures NoCreates(ops)
  {
  }

  lemma CreatedTakesNext(r: Past, a: Active, f: Files, env: Env)
    requires Between(r, a.name)
    ensures AllTakeNext(r, CreateOrRollBack(f, a, env).ops)
  {
    var ops := CreateOrRollBack(f, a, env).ops;
    if ops != [] && ops[0].Create? {
      OneTakesNext(r, ops[0]);
      assert ops == [ops[0]];
    } else {
      NoCreatesTakeNext(r, ops);
    }
    hide Holds;
    hide AllTakeNext;
  }

  lemma ArchivingCreatesNothing(s: LogState)
    requires Live(s)
    ensures NoCreates(ArchiveOps(s))
  {
  }

  lemma RotationTakesNext(cfg: LogConfig, p: Past, env: Env)
    requires Holds(p) && Live(p.state)
    ensures AllTakeNext(p, RotateStep(cfg, p.state, env).ops)
  {
    hide AllTakeNext;
    hide Holds;
    var s := p.state;
    var a := s.active.value;
    if Out(env, BeforeRotation, a.buffer) == |a.buffer| && RenameToArchive !in env.fails {
      var q := After(p, ArchiveOps(s));
      ArchiveOpsFollow(p, cfg.keepLastEntries);
      ArchivingCreatesNothing(s);
      var rest := RotationOps(cfg, s, env);
      hide RotateStep;
      hide ArchiveOps;
      hide Lawful;
      var pruned := Prune(cfg, q.state.files, env);
      PruningFollows(cfg, q, a.name, env);
      PruneCreatesNothing(cfg, q.state.files, env);
      hide Prune;
      BothCreateNothing(ArchiveOps(s), pruned.ops);
      NoCreatesTakeNext(p, ArchiveOps(s) + pruned.ops);
      AfterBoth(p, ArchiveOps(s), pruned.ops);
      hide After;
      CreatedTakesNext(After(q, pruned.ops), a, pruned.state.files, env);
      TakeNextBoth(p, ArchiveOps(s) + pruned.ops, rest);
    } else {
      assert NoCreates(RotateStep(cfg, s, env).ops);
      NoCreatesTakeNext(p, RotateStep(cfg, s, env).ops);
    }
  }

  lemma PrepareTakesNext(cfg: LogConfig, p: Past, env: Env)
    requires Holds(p)
    ensures AllTakeNext(p, PrepareStep(cfg, p.state, env).ops) <==> !StartsOver(p, env)
  {
    hide AllTakeNext;
    hide Holds;
    hide StartsOver;
    var ready := ReadyStep(p.state, env);
    ReadyTakesNext(p, env);
    if ready.ok && ready.state.active.value.lineIndex >= cfg.Limit() {
      ReadyFollows(p, env, cfg.keepLastEntries);
      FollowsHolds(p, ready, cfg.keepLastEntries);
      hide ReadyStep;
      RotationTakesNext(cfg, After(p, ready.ops), env);
      TakeNextBoth(p, ready.ops, RotateStep(cfg, ready.state, env).ops);
      hide RotateStep;
    }
  }

  lemma LineCreatesNothing(s: LogState, e: Entry, attempt: nat, env: Env)
    requires Live(s)
    ensures NoCreates(LineStep(s, e, attempt, env).ops)
  {
    hide FitsIn;
    hide IsLong;
  }

  /** The retry finds its current file: it creates none. */
  lemma QuitCreatesNothing(s: LogState, at: FlushAt, env: Env)
    requires Live(s)
    ensures NoCreates(QuitStep(s, at, env).ops)
  {
  }

  lemma LastCreatesNothing(s: LogState, e: Entry, env: Env)
    requires Live(s)
    ensures NoCreates(LastStep(s, e, env).ops)
  {
    hide LineStep;
    hide NoCreates;
    LineCreatesNothing(s, e, 1, env);
    MissCreatesNothing();
    BothCreateNothing(LineStep(s, e, 1, env).ops, [Miss]);
  }

  lemma MissCreatesNothing()
    ensures NoCreates([Miss])
  {
  }

  lemma RetryCreatesNothing(p: Past, e: Entry, env: Env, keep: nat)
    requires Holds(p) && Live(p.state)
    ensures NoCreates(RetryStep(p.state, e, env).ops)
  {
    hide QuitStep;
    hide Holds;
    hide After;
    hide LastStep;
    var quit := QuitStep(p.state, QuittingFile, env);
    QuitLeaves(p, env, keep);
    QuitCreatesNothing(p.state, QuittingFile, env);
    var again := OpenStep(quit.state.files, env, 1);
    assert NoCreates(again.ops);
    hide OpenStep;
    if again.ok {
      LastCreatesNothing(again.state, e, env);
    }
  }

  lemma RestCreatesNothing(p: Past, e: Entry, env: Env, keep: nat)
    requires Holds(p) && Live(p.state)
    ensures NoCreates(WriteOrRetry(p.state, e, env).ops)
  {
    hide LineStep;
    hide RetryStep;
    hide Holds;
    hide Lawful;
    hide After;
    var first := LineStep(p.state, e, 0, env);
    LineCreatesNothing(p.state, e, 0, env);
    if !first.ok {
      LineFollows(p, e, 0, env, keep);
      FollowsHolds(p, first, keep);
      RetryCreatesNothing(After(p, first.ops), e, env, keep);
    }
  }

  /** A call numbers its files on exactly unless it begins in a directory whose newest file was removed. */
  lemma CallTakesNext(cfg: LogConfig, p: Past, e: Entry, env: Env)
    requires Holds(p)
    ensures AllTakeNext(p, WriteStep(cfg, p.state, e, env).ops) <==> !StartsOver(p, env)
  {
    hide AllTakeNext;
    hide Holds;
    hide StartsOver;
    var prepared := PrepareStep(cfg, p.state, env);
    PrepareTakesNext(cfg, p, env);
    if prepared.ok {
      PrepareFollows(cfg, p, env);
      FollowsHolds(p, prepared, cfg.keepLastEntries);
      hide PrepareStep;
      var q := After(p, prepared.ops);
      RestCreatesNothing(q, e, env, cfg.keepLastEntries);
      NoCreatesTakeNext(q, WriteOrRetry(prepared.state, e, env).ops);
      TakeNextBoth(p, prepared.ops, WriteOrRetry(prepared.state, e, env).ops);
      hide WriteOrRetry;
    }
  }

  /** The event creates that file: a call does, and one that is cut short if it gets there. */
  ghost predicate StartsOverAt(p: Past, ev: Event) {
    IsCall(ev) && StartsOver(p, ev.env) && (ev.Crash? ==> ev.point > |DropOps(p.state)|)
  }

  /** A call that starts over does so with its first operation, after giving up a stale handle. */
  lemma StartingOverIsFirst(cfg: LogConfig, p: Past, e: Entry, env: Env)
    requires Holds(p) && StartsOver(p, env)
    ensures var k := |DropOps(p.state)|; var ops := WriteStep(cfg, p.state, e, env).ops;
            && k < |ops| && AllTakeNext(p, ops[..k]) && !AllTakeNext(p, ops[..k + 1])
  {
    hide Holds;
    hide AllTakeNext;
    hide WriteStep;
    var s := p.state;
    var k := |DropOps(s)|;
    var ready := ReadyStep(s, env);
    StartingOverShape(p, env);
    ReadyTakesNext(p, env);
    hide ReadyStep;
    hide StartsOver;
    assert PrepareStep(cfg, s, env) == ready;
    hide PrepareStep;
    var more := CallOps(cfg, s, e, env);
    var ops := WriteStep(cfg, s, e, env).ops;
    assert ops[..k + 1] == ready.ops;
    assert NoCreates(ops[..k]) by {
      assert k == 0 || ops[0] == ready.ops[0];
    }
    NoCreatesTakeNext(p, ops[..k]);
  }

  lemma StartingOverShape(p: Past, env: Env)
    requires Holds(p) && StartsOver(p, env)
    ensures var k := |DropOps(p.state)|; var ready := ReadyStep(p.state, env);
            && k <= 1 && |ready.ops| == k + 1 && (k == 1 ==> ready.ops[0] == Drop)
            && ready.ok && ready.state.active.value.lineIndex == 0
  {
    var s := p.state;
    NewestNumber(s.files, p.made);
    if Live(s) {
      CurrentHasLastRecord(s.files, p.made, s.active.value.name);
    }
    hide FilesHold;
  }

  lemma TakeNextPrefix(p: Past, ops: seq<Op>, i: nat, j: nat)
    requires i <= j <= |ops|
    ensures AllTakeNext(p, ops[..j]) ==> AllTakeNext(p, ops[..i])
  {
    assert ops[..j] == ops[..i] + ops[i..j];
    TakeNextBoth(p, ops[..i], ops[i..j]);
    hide AllTakeNext;
  }

  lemma CutTakesNext(cfg: LogConfig, p: Past, ev: Event)
    requires Holds(p) && ev.Crash?
    ensures AllTakeNext(p, CutOps(cfg, p, ev)) <==> !StartsOverAt(p, ev)
  {
    var ops := StepOf(cfg, p, ev).ops;
    var j := Least(ev.point, |ops|);
    CallTakesNext(cfg, p, ev.entry, ev.env);
    assert ops[..|ops|] == ops;
    TakeNextPrefix(p, ops, j, |ops|);
    if StartsOver(p, ev.env) {
      StartingOverIsFirst(cfg, p, ev.entry, ev.env);
      var k := |DropOps(p.state)|;
      if j <= k {
        TakeNextPrefix(p, ops, j, k);
      } else {
        TakeNextPrefix(p, ops, k + 1, j);
      }
    }
    hide AllTakeNext;
    hide WriteStep;
    hide Holds;
    hide StartsOver;
  }

  /** An event numbers its files on exactly unless it starts over. */
  lemma EventTakesNext(cfg: LogConfig, p: Past, ev: Event)
    requires Holds(p)
    ensures AllTakeNext(p, Performed(cfg, p, ev)) <==> !StartsOverAt(p, ev)
  {
    hide AllTakeNext;
    hide Holds;
    hide StartsOver;
    if ev.Log? {
      CallTakesNext(cfg, p, ev.entry, ev.env);
      hide WriteStep;
    } else if ev.Crash? {
      CutTakesNext(cfg, p, ev);
      var cut := CutOps(cfg, p, ev);
      hide CutOps;
      hide StartsOverAt;
      var drop := DropOps(After(p, cut).state);
      NoCreatesTakeNext(After(p, cut), drop);
      TakeNextBoth(p, cut, drop);
    } else {
      assert NoCreates(Performed(cfg, p, ev));
      NoCreatesTakeNext(p, Performed(cfg, p, ev));
    }
  }

  ghost predicate NeverStartsOver(cfg: LogConfig, events: seq<Event>) {
    events == [] || (NeverStartsOver(cfg, events[..|events| - 1])
                     && !StartsOverAt(Now(cfg, events[..|events| - 1]), events[|events| - 1]))
  }

  /** In a run every file gets a number larger than all files before it exactly when no call creates
      a file while the newest one is gone. */
  lemma {:induction false} NumbersGrowExactly(cfg: LogConfig, events: seq<Event>)
    ensures NumbersGrow(Now(cfg, events).made) <==> NeverStartsOver(cfg, events)
  {
    if events == [] {
    } else {
      hide Run;
      hide Performed;
      hide StartsOverAt;
      hide NumbersGrow;
      hide After;
      hide Holds;
      hide Lawful;
      hide AllTakeNext;
      var front, ev := events[..|events| - 1], events[|events| - 1];
      var p := Now(cfg, front);
      NumbersGrowExactly(cfg, front);
      RunSplits(cfg, events);
      RunsAreLawful(cfg, front);
      PerformedIsLawful(cfg, p, ev);
      GrowsExactly(p, Performed(cfg, p, ev), cfg.keepLastEntries);
      EventTakesNext(cfg, p, ev);
    }
  }

  // ----- Line numbers -----

  /** In a run the lines of every file count 1, 2, 3, ... exactly when no line is carried into a file
      that is ahead. */
  lemma LinesCountExactly(cfg: LogConfig, events: seq<Event>)
    ensures AllNumbered(Now(cfg, events).made) <==> NeverAhead(Beginning(), Run(cfg, events))
  {
    RunsAreLawful(cfg, events);
    BeginningHolds();
    NumberedExactly(Beginning(), Run(cfg, events), cfg.keepLastEntries);
    hide Run;
    hide NeverAhead;
  }

  // ----- Where a file that is ahead comes from -----

  lemma FlushAhead(s: LogState, k: nat)
    requires Live(s) && k <= |s.active.value.buffer|
    ensures Ahead(FlushStep(s, k).state) <==> Ahead(s)
  {
  }

  lemma TakeAhead(s: LogState, line: Line)
    requires Live(s)
    ensures Ahead(TakeStep(s, line).state) <==> Ahead(s)
  {
  }

  lemma LineAhead(s: LogState, e: Entry, attempt: nat, env: Env)
    requires Live(s)
    ensures Ahead(LineStep(s, e, attempt, env).state) <==> Ahead(s)
  {
    hide Ahead;
    hide FitsIn;
    hide IsLong;
    var a := s.active.value;
    var line := Line(a.lineIndex + 1, e);
    var k := Out(env, BeforeLine, a.buffer);
    var flushed := FlushStep(s, k);
    FlushAhead(s, k);
    TakeAhead(s, line);
    TakeAhead(flushed.state, line);
    var taken := TakeStep(flushed.state, line);
    FlushAhead(taken.state, |taken.state.active.value.buffer|);
    hide FlushStep;
    hide TakeStep;
    var put := PutStep(s, e, attempt, env);
    assert Ahead(put.state) <==> Ahead(s);
    hide PutStep;
    FlushAhead(put.state, Out(env, AfterLine(attempt), put.state.active.value.buffer));
  }

  /** Both writes of a call fail, although the file could be reopened in between. */
  ghost predicate FailsTwice(cfg: LogConfig, s: LogState, e: Entry, env: Env) {
    var prepared := PrepareStep(cfg, s, env);
    && prepared.ok
    && var first := LineStep(prepared.state, e, 0, env);
    && !first.ok
    && var again := OpenStep(QuitStep(first.state, QuittingFile, env).state.files, env, 1);
    again.ok && !LineStep(again.state, e, 1, env).ok
  }

  /** The call writes its line through a file that is ahead. */
  ghost predicate TakesAhead(cfg: LogConfig, s: LogState, e: Entry, env: Env) {
    var prepared := PrepareStep(cfg, s, env);
    prepared.ok && Ahead(prepared.state) && LineStep(prepared.state, e, 0, env).ok
  }

  lemma ReopenedIsNotAhead(f: Files, env: Env, attempt: nat)
    ensures var step := OpenStep(f, env, attempt);
            && !Ahead(step.state) && (!step.ok ==> step.state.active.None?)
            && (step.ok ==> step.state.active.value.buffer == []
                            && step.state.active.value.lineIndex == |step.state.files[step.state.active.value.name]|)
  {
  }

  lemma MissIsAhead(s: LogState)
    requires Live(s) && !Ahead(s)
    ensures Ahead(Do(s, Miss))
  {
  }

  lemma LastAhead(s: LogState, e: Entry, env: Env)
    requires Live(s) && !Ahead(s) && s.active.value.buffer == []
    ensures Ahead(LastStep(s, e, env).state) <==> !LineStep(s, e, 1, env).ok
  {
    hide LineStep;
    hide Ahead;
    hide Do;
    LineAhead(s, e, 1, env);
    if !LineStep(s, e, 1, env).ok {
      FailedLineIsEmpty(s, e, 1, env);
      MissIsAhead(s);
    }
  }

  /** A call leaves its file ahead exactly when both its writes fail, or it wrote through one already
      ahead. */
  lemma AheadExactly(cfg: LogConfig, s: LogState, e: Entry, env: Env)
    ensures Ahead(WriteStep(cfg, s, e, env).state) <==> FailsTwice(cfg, s, e, env) || TakesAhead(cfg, s, e, env)
  {
    PreparedFailsWithoutHandle(cfg, s, env);
    var prepared := PrepareStep(cfg, s, env);
    hide PrepareStep;
    if prepared.ok {
      LineAhead(prepared.state, e, 0, env);
      var first := LineStep(prepared.state, e, 0, env);
      var quit := QuitStep(first.state, QuittingFile, env);
      var again := OpenStep(quit.state.files, env, 1);
      ReopenedIsNotAhead(quit.state.files, env, 1);
      hide QuitStep;
      hide OpenStep;
      if !first.ok && again.ok {
        LastAhead(again.state, e, env);
      }
      hide LineStep;
      hide LastStep;
    }
  }

  lemma PreparedFailsWithoutHandle(cfg: LogConfig, s: LogState, env: Env)
    ensures !PrepareStep(cfg, s, env).ok ==> PrepareStep(cfg, s, env).state.active.None?
    ensures PrepareStep(cfg, s, env).ok && Ahead(PrepareStep(cfg, s, env).state) ==> Ahead(s)
  {
    var ready := ReadyStep(s, env);
    ReopenedIsNotAhead(s.files, env, 0);
    assert ready.ok && Ahead(ready.state) ==> Ahead(s);
    assert !ready.ok ==> ready.state.active.None?;
    hide ReadyStep;
    if ready.ok && ready.state.active.value.lineIndex >= cfg.Limit() {
      RotatedIsNotAhead(cfg, ready.state, env);
      hide RotateStep;
    }
  }

  lemma RotatedIsNotAhead(cfg: LogConfig, s: LogState, env: Env)
    requires Live(s)
    ensures !RotateStep(cfg, s, env).ok ==> RotateStep(cfg, s, env).state.active.None?
    ensures RotateStep(cfg, s, env).ok && Ahead(RotateStep(cfg, s, env).state) ==> Ahead(s)
  {
    var a := s.active.value;
    if Out(env, BeforeRotation, a.buffer) == |a.buffer| && RenameToArchive !in env.fails {
      var f := ArchivedFiles(s);
      RotatedOk(cfg, s, env);
      var pruned := Prune(cfg, f, env);
      PruneKeepsContents(cfg, f, env);
      assert f[ArchiveOf(a.name)] == s.files[a.name] + a.buffer;
      hide Prune;
      assert RotateStep(cfg, s, env).state == CreateOrRollBack(pruned.state.files, a, env).state;
      hide RotateStep;
    }
  }

  lemma PruneKeepsContents(cfg: LogConfig, f: Files, env: Env)
    ensures var g := Prune(cfg, f, env).state.files; forall n :: n in g ==> n in f && g[n] == f[n]
  {
    PrunedKeeps(f, env.skipped, cfg.keepLastEntries, env.removals);
    hide Pruned;
    hide PruneOps;
  }

  ghost predicate FailsTwiceAt(cfg: LogConfig, p: Past, ev: Event) {
    ev.Log? && FailsTwice(cfg, p.state, ev.entry, ev.env)
  }

  lemma AheadAfterEvent(cfg: LogConfig, p: Past, ev: Event)
    requires Holds(p)
    ensures Ahead(After(p, Performed(cfg, p, ev)).state) ==> Ahead(p.state) || FailsTwiceAt(cfg, p, ev)
  {
    match ev
    case Log(e, env) =>
      WriteFollows(cfg, p, e, env);
      AheadExactly(cfg, p.state, e, env);
      PreparedFailsWithoutHandle(cfg, p.state, env);
      hide WriteStep;
      hide PrepareStep;
      hide FailsTwice;
      hide Holds;
      hide Lawful;
    case Crash(_, _, _) =>
      var cut := CutOps(cfg, p, ev);
      hide CutOps;
      AfterBoth(p, cut, DropOps(After(p, cut).state));
      DropsEnd(After(p, cut));
    case Restart(out) => ClosedIsNotAhead(p, out);
    case Release(_, out) =>
      ClosedIsNotAhead(p, out);
      NothingIsLawful(p, 0);
    case FlushLog(out) => OutAhead(p, out);
  }

  lemma DropsEnd(p: Past)
    ensures After(p, DropOps(p.state)).state.active.None?
  {
    NothingIsLawful(p, 0);
    AfterOne(p, Drop);
  }

  lemma OutAhead(p: Past, out: nat)
    ensures Ahead(After(p, OutOps(p.state, out)).state) <==> Ahead(p.state)
    ensures After(p, OutOps(p.state, out)).state.active.Some? <==> p.state.active.Some?
  {
    if Live(p.state) {
      var k := Least(out, |p.state.active.value.buffer|);
      FlushFollows(p, k, 0);
      FlushAhead(p.state, k);
    } else {
      NothingIsLawful(p, 0);
    }
    hide Lawful;
  }

  lemma ClosedIsNotAhead(p: Past, out: nat)
    ensures !Ahead(After(p, OutOps(p.state, out) + DropOps(p.state)).state)
  {
    OutAhead(p, out);
    var q := After(p, OutOps(p.state, out));
    AfterBoth(p, OutOps(p.state, out), DropOps(p.state));
    DropsEnd(q);
    hide OutOps;
    hide After;
  }

  ghost predicate NeverFailsTwice(cfg: LogConfig, events: seq<Event>) {
    events == [] || (NeverFailsTwice(cfg, events[..|events| - 1])
                     && !FailsTwiceAt(cfg, Now(cfg, events[..|events| - 1]), events[|events| - 1]))
  }

  /** A file is ahead only after a call that failed twice. */
  lemma {:induction false} AheadMeansFailedTwice(cfg: LogConfig, events: seq<Event>)
    ensures Ahead(Now(cfg, events).state) ==> !NeverFailsTwice(cfg, events)
  {
    if events == [] {
    } else {
      hide Run;
      hide Performed;
      hide After;
      hide Holds;
      hide Ahead;
      hide FailsTwiceAt;
      var front, ev := events[..|events| - 1], events[|events| - 1];
      RunSplits(cfg, events);
      RunsAreLawful(cfg, front);
      AheadAfterEvent(cfg, Now(cfg, front), ev);
      AheadMeansFailedTwice(cfg, front);
    }
  }

  /** An acknowledged line is the last of the active file and its buffer, and its number is its place
      there exactly unless it was written through a file that is ahead. */
  lemma AcknowledgedNumberExactly(cfg: LogConfig, events: seq<Event>, e: Entry, env: Env)
    requires StepOf(cfg, Now(cfg, events), Log(e, env)).ok
    ensures var s := Now(cfg, events + [Log(e, env)]).state;
            && Live(s)
            && var lines := s.files[s.active.value.name] + s.active.value.buffer;
            && lines != [] && lines[|lines| - 1].entry == e
            && (lines[|lines| - 1].index == |lines| <==> !TakesAhead(cfg, Now(cfg, events).state, e, env))
  {
    hide Run;
    hide Now;
    hide WriteStep;
    hide TakesAhead;
    hide FailsTwice;
    var p := Now(cfg, events);
    StateAfterCall(cfg, events, e, env);
    CallLast(cfg, p.state, e, env);
    AheadExactly(cfg, p.state, e, env);
    SucceededOnce(cfg, p.state, e, env);
  }

  lemma SucceededOnce(cfg: LogConfig, s: LogState, e: Entry, env: Env)
    requires WriteStep(cfg, s, e, env).ok
    ensures !FailsTwice(cfg, s, e, env)
  {
    hide PrepareStep;
    hide OpenStep;
    hide QuitStep;
    hide LineStep;
  }

  // ----- Runs in which the numbers do not count on -----

  ghost predicate NoFailures(env: Env) {
    env.fails == {} && env.removals > 0 && env.skipped == {} && env.stuck == map[]
  }

  function Calm(stamp: string): Env {
    Env(stamp, {}, 1, 0, {}, map[])
  }

  /** A line through a file with an empty buffer, with nothing failing. */
  lemma CalmLine(n: LogName, lines: seq<Line>, count: nat, e: Entry, env: Env)
    requires NoFailures(env)
    ensures var line := Line(count + 1, e);
            LineStep(LogState(map[n := lines], Some(Active(n, count, []))), e, 0, env)
            == Step(LogState(map[n := lines + [line]], Some(Active(n, count + 1, []))), true,
                    [Accept(line), Append(n, line)])
  {
    var line := Line(count + 1, e);
    var s := LogState(map[n := lines], Some(Active(n, count, [])));
    var t := LogState(map[n := lines], Some(Active(n, count + 1, [line])));
    var u := LogState(map[n := lines + [line]], Some(Active(n, count + 1, [])));
    hide FitsIn;
    FlushNothing(s);
    FlushOneLine(n, lines, count + 1, line);
    FlushNothing(u);
    assert [] + [line] == [line];
    assert TakeStep(s, line) == Step(t, true, [Accept(line)]);
    EmptyFitsUnlessLong(line);
    hide IsLong;
    hide FlushStep;
    hide TakeStep;
    assert [Accept(line)] + [Append(n, line)] == [Accept(line), Append(n, line)];
    var two := Step(u, true, [Accept(line), Append(n, line)]);
    if FitsIn([], line) {
      assert PutStep(s, e, 0, env) == Step(t, true, [Accept(line)]);
    } else {
      assert [] + two.ops == two.ops;
      assert PutStep(s, e, 0, env) == two;
      assert two.ops + [] == two.ops;
    }
    hide PutStep;
  }

  lemma EmptyFitsUnlessLong(line: Line)
    ensures !FitsIn([], line) ==> IsLong(line)
  {
  }

  lemma FlushOneLine(n: LogName, lines: seq<Line>, count: nat, line: Line)
    ensures FlushStep(LogState(map[n := lines], Some(Active(n, count, [line]))), 1)
         == Step(LogState(map[n := lines + [line]], Some(Active(n, count, []))), true, [Append(n, line)])
  {
    assert [line][..1] == [line] && [line][1..] == [];
    AppendedToOne(n, lines, line);
  }

  lemma AppendedToOne(n: LogName, lines: seq<Line>, line: Line)
    ensures map[n := lines][n := lines + [line]] == map[n := lines + [line]]
  {
  }

  /** A call through a live handle below the threshold. */
  lemma LaterCall(cfg: LogConfig, n: LogName, lines: seq<Line>, count: nat, e: Entry, env: Env)
    requires NoFailures(env) && count < cfg.Limit()
    ensures var line := Line(count + 1, e);
            WriteStep(cfg, LogState(map[n := lines], Some(Active(n, count, []))), e, env)
            == Step(LogState(map[n := lines + [line]], Some(Active(n, count + 1, []))), true,
                    [Accept(line), Append(n, line)])
  {
    hide LineStep;
    hide WriteStep;
    hide RotateStep;
    var s, line := LogState(map[n := lines], Some(Active(n, count, []))), Line(count + 1, e);
    CalmLine(n, lines, count, e, env);
    assert PrepareStep(cfg, s, env) == Step(s, true, []);
    hide PrepareStep;
    CallIs(cfg, s, e, env, Step(s, true, []), LineStep(s, e, 0, env));
    assert [] + [Accept(line), Append(n, line)] == [Accept(line), Append(n, line)];
  }

  /** The first call on an empty directory. */
  lemma FirstCall(cfg: LogConfig, e: Entry, env: Env)
    requires NoFailures(env)
    ensures var n := Fresh(1, env.stamp); var line := Line(1, e);
            WriteStep(cfg, LogState(map[], None), e, env)
            == Step(LogState(map[n := [line]], Some(Active(n, 1, []))), true,
                    [Create(n), Accept(line), Append(n, line)])
  {
    hide LineStep;
    hide PrepareStep;
    hide WriteStep;
    var n, line := Fresh(1, env.stamp), Line(1, e);
    FirstPrepared(cfg, env);
    CalmLine(n, [], 0, e, env);
    var prepared := PrepareStep(cfg, LogState(map[], None), env);
    CallIs(cfg, LogState(map[], None), e, env, prepared, LineStep(prepared.state, e, 0, env));
    assert [] + [line] == [line];
    assert [Create(n)] + [Accept(line), Append(n, line)] == [Create(n), Accept(line), Append(n, line)];
  }

  /** After two calls with a threshold of 2: one file with two lines. */
  lemma AfterTwoCalls(cfg: LogConfig, a: Entry, b: Entry, env: Env)
    requires NoFailures(env) && cfg.Limit() == 2
    ensures var n := Fresh(1, env.stamp);
            Now(cfg, [Log(a, env), Log(b, env)]).state
            == LogState(map[n := [Line(1, a), Line(2, b)]], Some(Active(n, 2, [])))
  {
    hide WriteStep;
    hide Run;
    hide Now;
    var n, x, y := Fresh(1, env.stamp), Log(a, env), Log(b, env);
    RunsFromBeginning(cfg);
    FirstCall(cfg, a, env);
    StateAfterCall(cfg, [], a, env);
    Singleton(x);
    Pair(x, y);
    LaterCall(cfg, n, [Line(1, a)], 1, b, env);
    StateAfterCall(cfg, [x], b, env);
    Pair(Line(1, a), Line(2, b));
  }

  lemma FullFilePrunesNewest(s: LogState, n: LogName, a: Line, b: Line, env: Env)
    requires s == LogState(map[n := [a, b]], Some(Active(n, 2, []))) && n.current
    requires env.fails <= {CreateNext} && env.removals > 0 && env.skipped == {} && env.stuck == map[]
    ensures PrunesNewest(LogConfig(2, 1), s, env) && PruneEnd(LogConfig(2, 1), s, env) == 3
  {
    var m := ArchiveOf(n);
    var f := ArchivedFiles(s);
    FlushNothing(s);
    assert f == map[m := [a, b]];
    assert Counted(f, {}) == f;
    assert f.Keys == {m};
    assert |ArchiveOps(s)| == 2;
    hide FlushStep;
    hide ArchivedFiles;
    hide ArchiveOps;
  }

  /** Two lines fill a file, and one line is to be kept: the third call archives and removes it. */
  lemma ThirdCallGoes(a: Entry, b: Entry, stamp: string, ev: Event)
    requires (ev.Log? && CreateNext in ev.env.fails) || (ev.Crash? && ev.point == 3)
    requires ev.env.fails <= {CreateNext} && ev.env.removals > 0 && ev.env.skipped == {} && ev.env.stuck == map[]
    ensures NewestGone(Now(LogConfig(2, 1), [Log(a, Calm(stamp)), Log(b, Calm(stamp)), ev]).made)
  {
    var cfg, two := LogConfig(2, 1), [Log(a, Calm(stamp)), Log(b, Calm(stamp))];
    hide Run;
    hide Holds;
    hide PrunesNewest;
    hide Performed;
    AfterTwoCalls(cfg, a, b, Calm(stamp));
    RunsAreLawful(cfg, two);
    RunOneMore(cfg, two, ev);
    assert two + [ev] == [Log(a, Calm(stamp)), Log(b, Calm(stamp)), ev];
    var p, n := Now(cfg, two), Fresh(1, stamp);
    hide Now;
    NewestIsThere(p, n);
    FullFilePrunesNewest(p.state, n, Line(1, a), Line(2, b), ev.env);
    NewestGoneExactly(cfg, p, ev);
  }

  lemma NewestIsThere(p: Past, n: LogName)
    requires Holds(p) && n in p.state.files && n.current
    ensures !NewestGone(p.made)
  {
    CurrentHasLastRecord(p.state.files, p.made, n);
  }

  /** Such a run goes on with number 1: in the same process when the next file could not be created,
      and in the next one when the process ended before creating it. */
  lemma NumbersRestart(a: Entry, b: Entry, c: Entry, d: Entry, stamp: string, later: string)
    ensures var cfg, calm := LogConfig(2, 1), Calm(stamp); var refused := calm.(fails := {CreateNext});
            && !NumbersGrow(Now(cfg, [Log(a, calm), Log(b, calm), Log(c, refused), Log(d, Calm(later))]).made)
            && !NumbersGrow(Now(cfg, [Log(a, calm), Log(b, calm), Crash(c, calm, 3), Log(d, Calm(later))]).made)
  {
    RestartsAfter(a, b, stamp, Log(c, Calm(stamp).(fails := {CreateNext})), d, later);
    RestartsAfter(a, b, stamp, Crash(c, Calm(stamp), 3), d, later);
  }

  lemma RestartsAfter(a: Entry, b: Entry, stamp: string, ev: Event, d: Entry, later: string)
    requires (ev.Log? && CreateNext in ev.env.fails) || (ev.Crash? && ev.point == 3)
    requires ev.env.fails <= {CreateNext} && ev.env.removals > 0 && ev.env.skipped == {} && ev.env.stuck == map[]
    ensures var calm := Calm(stamp);
            !NumbersGrow(Now(LogConfig(2, 1), [Log(a, calm), Log(b, calm), ev, Log(d, Calm(later))]).made)
  {
    hide Run;
    hide Now;
    hide NumbersGrow;
    var cfg := LogConfig(2, 1);
    var events := [Log(a, Calm(stamp)), Log(b, Calm(stamp)), ev, Log(d, Calm(later))];
    ThirdCallGoes(a, b, stamp, ev);
    assert events[..3] == [Log(a, Calm(stamp)), Log(b, Calm(stamp)), ev];
    assert StartsOverAt(Now(cfg, events[..3]), events[3]);
    hide StartsOverAt;
    assert !NeverStartsOver(cfg, events);
    hide NeverStartsOver;
    NumbersGrowExactly(cfg, events);
  }

  lemma AfterFailedCall(cfg: LogConfig, e: Entry, env: Env)
    requires env.fails == {WriteLong(0), WriteLong(1)} && IsLong(Line(1, e))
    ensures var n := Fresh(1, env.stamp);
            Now(cfg, [Log(e, env)]).state == LogState(map[n := []], Some(Active(n, 1, [])))
  {
    hide WriteStep;
    hide Run;
    hide Now;
    hide IsLong;
    RunsFromBeginning(cfg);
    FailedFirstCall(cfg, e, env);
    StateAfterCall(cfg, [], e, env);
    Singleton(Log(e, env));
  }

  /** A line that is written past the buffer fails twice on an empty directory: that leaves an empty file
      which counts one line; the next call writes number 2 as its first line. */
  lemma NumberSkippedAfterTwoFailures(cfg: LogConfig, a: Entry, b: Entry, stamp: string)
    requires cfg.Limit() >= 2 && IsLong(Line(1, a))
    ensures var broken := Calm(stamp).(fails := {WriteLong(0), WriteLong(1)});
            Now(cfg, [Log(a, broken), Log(b, Calm(stamp))]).state.files == map[Fresh(1, stamp) := [Line(2, b)]]
  {
    hide WriteStep;
    hide Run;
    hide Now;
    hide IsLong;
    hide EffectiveEntriesPerFile;
    var first := Log(a, Calm(stamp).(fails := {WriteLong(0), WriteLong(1)}));
    AfterFailedCall(cfg, a, first.env);
    LaterCall(cfg, Fresh(1, stamp), [], 1, b, Calm(stamp));
    StateAfterCall(cfg, [first], b, Calm(stamp));
    Pair(first, Log(b, Calm(stamp)));
    Singleton(Line(2, b));
  }

  lemma FailedLongLine(s: LogState, e: Entry, attempt: nat, env: Env)
    requires Live(s) && s.active.value.buffer == [] && WriteLong(attempt) in env.fails
    requires IsLong(Line(s.active.value.lineIndex + 1, e))
    ensures LineStep(s, e, attempt, env) == Step(s, false, [])
  {
    FlushNothing(s);
    hide FlushStep;
  }

  lemma CallFailsTwice(cfg: LogConfig, s: LogState, e: Entry, env: Env, u: LogState, f: Files)
    requires PrepareStep(cfg, s, env).ok && PrepareStep(cfg, s, env).state == u && Live(u)
    requires LineStep(u, e, 0, env) == LineStep(u, e, 1, env) == Step(u, false, [])
    requires QuitStep(u, QuittingFile, env).state.files == f
    requires OpenStep(f, env, 1).ok && OpenStep(f, env, 1).state == u
    ensures WriteStep(cfg, s, e, env).state == Do(u, Miss) && !WriteStep(cfg, s, e, env).ok
  {
    hide PrepareStep;
    hide LineStep;
    hide QuitStep;
    hide OpenStep;
  }

  lemma QuitEmpty(s: LogState, env: Env)
    requires Live(s) && s.active.value.buffer == []
    ensures QuitStep(s, QuittingFile, env).state.files == s.files
  {
    FlushNothing(s);
    hide FlushStep;
  }

  lemma OnlyFileReopens(n: LogName, env: Env)
    requires n.current && EnsureDir(1) !in env.fails && Resume(1) !in env.fails
    ensures var f: Files := map[n := []]; var step := OpenStep(f, env, 1);
            step.ok && step.state == LogState(f, Some(Active(n, 0, [])))
  {
    var f: Files := map[n := []];
    assert n in f && HasCurrent(f) && CurrentOf(f) == n;
  }

  lemma FailedFirstCall(cfg: LogConfig, e: Entry, env: Env)
    requires env.fails == {WriteLong(0), WriteLong(1)} && IsLong(Line(1, e))
    ensures var n := Fresh(1, env.stamp);
            && WriteStep(cfg, LogState(map[], None), e, env).state == LogState(map[n := []], Some(Active(n, 1, [])))
            && !WriteStep(cfg, LogState(map[], None), e, env).ok
  {
    hide IsLong;
    hide LineStep;
    hide QuitStep;
    hide OpenStep;
    hide WriteStep;
    var n := Fresh(1, env.stamp);
    var s := LogState(map[n := []], Some(Active(n, 0, [])));
    FirstOpen(map[], env, 0);
    hide RotateStep;
    assert PrepareStep(cfg, LogState(map[], None), env) == Step(s, true, [Create(n)]);
    hide PrepareStep;
    FailedLongLine(s, e, 0, env);
    FailedLongLine(s, e, 1, env);
    QuitEmpty(s, env);
    OnlyFileReopens(n, env);
    CallFailsTwice(cfg, LogState(map[], None), e, env, s, s.files);
  }
}
