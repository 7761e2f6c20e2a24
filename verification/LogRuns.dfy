/** Whole runs of the logger: log calls, restarts, and crashes after any operation. */
module LogRuns {
  import opened Wrappers
  import opened LogFormat
  import opened LogDirectory
  import opened LogHistory
  import opened LogSteps
  import opened LogPruning
  import LineCounts
  import opened Sequences

  /** `Crash` ends the process during a call, after `point` of its operations. `Restart` gives up the
      open file, as does `Release` when it names it, and `FlushLog` keeps it; `out` buffered lines get
      out by that. */
  datatype Event =
    | Log(entry: Entry, env: Env)
    | Crash(entry: Entry, env: Env, point: nat)
    | Restart(out: nat)
    | Release(name: LogName, out: nat)
    | FlushLog(out: nat)

  predicate IsCall(ev: Event) {
    ev.Log? || ev.Crash?
  }

  /** The step of a call, whether it returns or is cut short. */
  ghost function StepOf(cfg: LogConfig, p: Past, ev: Event): Step
    requires IsCall(ev)
  {
    WriteStep(cfg, p.state, ev.entry, ev.env)
  }

  /** What a crashed call performs. */
  ghost function CutOps(cfg: LogConfig, p: Past, ev: Event): seq<Op>
    requires ev.Crash?
  {
    var ops := StepOf(cfg, p, ev).ops;
    ops[..Least(ev.point, |ops|)]
  }

  function DropOps(s: LogState): seq<Op> {
    if s.active.Some? then [Drop] else []
  }

  ghost function OutOps(s: LogState, out: nat): seq<Op> {
    if Live(s) then FlushOps(s.active.value, Least(out, |s.active.value.buffer|)) else []
  }

  /** The operations an event performs. */
  ghost function Performed(cfg: LogConfig, p: Past, ev: Event): seq<Op> {
    match ev
    case Log(_, _) => StepOf(cfg, p, ev).ops
    case Crash(_, _, _) => CutOps(cfg, p, ev) + DropOps(After(p, CutOps(cfg, p, ev)).state)
    case Restart(out) => OutOps(p.state, out) + DropOps(p.state)
    case Release(n, out) =>
      if p.state.active.Some? && p.state.active.value.name == n then OutOps(p.state, out) + DropOps(p.state) else []
    case FlushLog(out) => OutOps(p.state, out)
  }

  /** Every operation of a run, from an empty directory. */
  ghost function Run(cfg: LogConfig, events: seq<Event>): seq<Op> {
    if events == [] then []
    else
      var front := events[..|events| - 1];
      Run(cfg, front) + Performed(cfg, After(Beginning(), Run(cfg, front)), events[|events| - 1])
  }

  ghost function Now(cfg: LogConfig, events: seq<Event>): Past {
    After(Beginning(), Run(cfg, events))
  }

  lemma RunSplits(cfg: LogConfig, events: seq<Event>)
    requires events != []
    ensures var front, ev := events[..|events| - 1], events[|events| - 1];
            && Run(cfg, events) == Run(cfg, front) + Performed(cfg, Now(cfg, front), ev)
            && Now(cfg, events) == After(Now(cfg, front), Performed(cfg, Now(cfg, front), ev))
  {
    var front, ev := events[..|events| - 1], events[|events| - 1];
    AfterBoth(Beginning(), Run(cfg, front), Performed(cfg, Now(cfg, front), ev));
    hide Performed;
    hide After;
  }

  lemma RunOneMore(cfg: LogConfig, events: seq<Event>, ev: Event)
    ensures Run(cfg, events + [ev]) == Run(cfg, events) + Performed(cfg, Now(cfg, events), ev)
    ensures Now(cfg, events + [ev]) == After(Now(cfg, events), Performed(cfg, Now(cfg, events), ev))
  {
    assert (events + [ev])[..|events|] == events;
    RunSplits(cfg, events + [ev]);
  }

  lemma RunsFromBeginning(cfg: LogConfig)
    ensures Run(cfg, []) == [] && Now(cfg, []) == Beginning()
  {
  }

  // ----- Runs do only what is allowed -----

  lemma OutFollows(p: Past, out: nat, keep: nat)
    ensures Lawful(p, OutOps(p.state, out), keep)
    ensures After(p, OutOps(p.state, out)).state.active.Some? <==> p.state.active.Some?
    ensures After(p, OutOps(p.state, out)).made == p.made || Live(p.state)
  {
    if Live(p.state) {
      var k := Least(out, |p.state.active.value.buffer|);
      FlushFollows(p, k, keep);
    } else {
      NothingIsLawful(p, keep);
    }
    hide Lawful;
  }

  lemma DropIsLawful(p: Past, keep: nat)
    ensures Lawful(p, DropOps(p.state), keep)
  {
    if p.state.active.Some? {
      DropFollows(p, keep);
    } else {
      NothingIsLawful(p, keep);
    }
  }

  lemma CutIsLawful(cfg: LogConfig, p: Past, ev: Event)
    requires Holds(p) && ev.Crash?
    ensures Lawful(p, CutOps(cfg, p, ev), cfg.keepLastEntries)
  {
    WriteFollows(cfg, p, ev.entry, ev.env);
    var ops := StepOf(cfg, p, ev).ops;
    hide StepOf;
    LawfulPrefix(p, ops, cfg.keepLastEntries, Least(ev.point, |ops|));
  }

  lemma PerformedIsLawful(cfg: LogConfig, p: Past, ev: Event)
    requires Holds(p)
    ensures Lawful(p, Performed(cfg, p, ev), cfg.keepLastEntries)
  {
    var keep := cfg.keepLastEntries;
    hide Holds;
    hide Lawful;
    hide After;
    match ev
    case Log(e, env) => WriteFollows(cfg, p, e, env);
    case Crash(_, _, _) =>
      CutIsLawful(cfg, p, ev);
      hide CutOps;
      var cut := CutOps(cfg, p, ev);
      DropIsLawful(After(p, cut), keep);
      LawfulBoth(p, cut, DropOps(After(p, cut).state), keep);
    case Restart(out) => ClosingIsLawful(p, out, keep);
    case Release(_, out) =>
      ClosingIsLawful(p, out, keep);
      NothingIsLawful(p, keep);
    case FlushLog(out) => OutFollows(p, out, keep);
  }

  lemma ClosingIsLawful(p: Past, out: nat, keep: nat)
    ensures Lawful(p, OutOps(p.state, out) + DropOps(p.state), keep)
  {
    OutFollows(p, out, keep);
    var q := After(p, OutOps(p.state, out));
    DropIsLawful(q, keep);
    hide OutOps;
    LawfulBoth(p, OutOps(p.state, out), DropOps(q.state), keep);
    hide Lawful;
    hide After;
  }

  /** In every run each operation is one the logger is allowed, where it happens; so the directory always
      holds exactly the recorded files that were not removed. */
  lemma {:induction false} RunsAreLawful(cfg: LogConfig, events: seq<Event>)
    ensures Lawful(Beginning(), Run(cfg, events), cfg.keepLastEntries) && Holds(Now(cfg, events))
  {
    var keep := cfg.keepLastEntries;
    BeginningHolds();
    if events == [] {
      NothingIsLawful(Beginning(), keep);
    } else {
      var front, ev := events[..|events| - 1], events[|events| - 1];
      RunsAreLawful(cfg, front);
      RunSplits(cfg, events);
      hide Run;
      hide Performed;
      hide Holds;
      hide Lawful;
      var p := Now(cfg, front);
      PerformedIsLawful(cfg, p, ev);
      LawfulBoth(Beginning(), Run(cfg, front), Performed(cfg, p, ev), keep);
      LawfulHolds(Beginning(), Run(cfg, events), keep);
    }
  }

  // ----- What a reader sees at any moment of a run -----

  /** The logger after the first `j` operations of a run. */
  ghost function Moment(cfg: LogConfig, events: seq<Event>, j: nat): Past
    requires j <= |Run(cfg, events)|
  {
    After(Beginning(), Run(cfg, events)[..j])
  }

  lemma MomentHolds(cfg: LogConfig, events: seq<Event>, j: nat)
    requires j <= |Run(cfg, events)|
    ensures Holds(Moment(cfg, events, j)) && Lawful(Beginning(), Run(cfg, events)[..j], cfg.keepLastEntries)
    ensures j < |Run(cfg, events)| ==> Allowed(Moment(cfg, events, j), Run(cfg, events)[j], cfg.keepLastEntries)
  {
    RunsAreLawful(cfg, events);
    LawfulPrefix(Beginning(), Run(cfg, events), cfg.keepLastEntries, j);
    BeginningHolds();
    LawfulHolds(Beginning(), Run(cfg, events)[..j], cfg.keepLastEntries);
    hide Run;
    hide Holds;
    hide Lawful;
    hide Allowed;
  }

  function Removals(ops: seq<Op>): nat {
    if ops == [] then 0 else Removals(ops[..|ops| - 1]) + if ops[|ops| - 1].Remove? then 1 else 0
  }

  lemma {:induction false} RemovedAreRemovals(ops: seq<Op>, keep: nat)
    requires Lawful(Beginning(), ops, keep)
    ensures RemovedCount(After(Beginning(), ops).made) == Removals(ops)
    ensures keep == 0 ==> Removals(ops) == 0
  {
    hide Record;
    hide Do;
    if ops != [] {
      var front := ops[..|ops| - 1];
      RemovedAreRemovals(front, keep);
      BeginningHolds();
      LawfulHolds(Beginning(), front, keep);
      OpCounts(After(Beginning(), front), ops[|ops| - 1], keep);
    }
    hide Holds;
    hide CountedLines;
  }

  /** At every moment of every run the directory reads back, in order and once each, the lines ever
      written except those of whole files, one for each removal made so far; and nothing is missing
      when `keep_last_entries` is 0. */
  lemma RunsReadBack(cfg: LogConfig, events: seq<Event>, j: nat)
    requires j <= |Run(cfg, events)|
    ensures var p := Moment(cfg, events, j);
            && Blocks(p.state.files) == Survivors(p.made)
            && ReadBack(p.state.files) == Flatten(Survivors(p.made))
            && RemovedCount(p.made) == Removals(Run(cfg, events)[..j])
            && (cfg.keepLastEntries == 0 ==> ReadBack(p.state.files) == Written(p.made))
  {
    MomentHolds(cfg, events, j);
    var p := Moment(cfg, events, j);
    RemovedAreRemovals(Run(cfg, events)[..j], cfg.keepLastEntries);
    WindowReads(p.state.files, p.made);
    ReadBackIsNumberOrder(p.state.files, p.made);
    if cfg.keepLastEntries == 0 {
      NoneRemoved(p.made);
      SurvivorsOfPrefix(p.made, 0);
    }
    hide Run;
    hide FilesHold;
    hide Lawful;
    hide ReadBack;
    hide Blocks;
    hide Survivors;
  }

  /** Every removal of every run takes a counted file, older than all other counted ones, while these
      hold more lines than are to be kept; the older files it leaves could not be counted. */
  lemma RemovalsAreNeeded(cfg: LogConfig, events: seq<Event>, j: nat)
    requires j < |Run(cfg, events)| && Run(cfg, events)[j].Remove?
    ensures var f := Moment(cfg, events, j).state.files; var Remove(n, skipped) := Run(cfg, events)[j];
            && 0 < cfg.keepLastEntries < CountedLines(f, skipped) && n in f && !n.current && n !in skipped
            && forall m :: m in f && m.number < n.number ==> m in skipped
  {
    MomentHolds(cfg, events, j);
    hide Run;
    hide Holds;
    hide CountedLines;
    hide Lawful;
  }

  /** In a run only the oldest files are ever missing exactly when every removal took the oldest one. */
  lemma OnlyOldestGoneExactly(cfg: LogConfig, events: seq<Event>)
    ensures AlwaysOldestGone(Beginning(), Run(cfg, events)) <==> AllTakeOldest(Beginning(), Run(cfg, events))
  {
    RunsAreLawful(cfg, events);
    BeginningHolds();
    assert PrefixGone([], 0);
    PrefixExactly(Beginning(), Run(cfg, events), cfg.keepLastEntries);
    hide Run;
    hide AlwaysOldestGone;
    hide AllTakeOldest;
  }

  /** Then the directory holds all lines but those of the removed files, the oldest ones. */
  lemma ReadsBackTheRest(cfg: LogConfig, events: seq<Event>)
    requires OnlyOldestGone(Now(cfg, events).made)
    ensures var p := Now(cfg, events); var d := RemovedCount(p.made);
            && d <= |p.made| && Written(p.made) == Flatten(AllBlocks(p.made)[..d]) + ReadBack(p.state.files)
  {
    RunsAreLawful(cfg, events);
    var p := Now(cfg, events);
    var d :| PrefixGone(p.made, d);
    SurvivorsOfPrefix(p.made, d);
    PrefixReads(p.state.files, p.made, d);
    hide Now;
    hide FilesHold;
    hide Written;
    hide ReadBack;
  }

  ghost predicate AllRemove(ops: seq<Op>) {
    forall i :: 0 <= i < |ops| ==> ops[i].Remove?
  }

  ghost predicate SkipsOnly(ops: seq<Op>, skipped: set<LogName>) {
    forall i :: 0 <= i < |ops| && ops[i].Remove? ==> ops[i].skipped == skipped
  }

  lemma {:induction false} PruneSkips(f: Files, skipped: set<LogName>, keep: nat, removals: nat)
    ensures AllRemove(PruneOps(f, skipped, keep, removals)) && SkipsOnly(PruneOps(f, skipped, keep, removals), skipped)
    decreases removals
  {
    if CountedLines(f, skipped) > keep && removals > 0 {
      PruneUnfolds(f, skipped, keep, removals);
      PruneSkips(f - {OldestCounted(f, skipped)}, skipped, keep, removals - 1);
      hide PruneOps;
      hide CountedLines;
      var ops := PruneOps(f, skipped, keep, removals);
      assert ops == [ops[0]] + ops[1..];
    }
  }

  lemma BothSkipOnly(a: seq<Op>, b: seq<Op>, skipped: set<LogName>)
    requires SkipsOnly(a, skipped) && SkipsOnly(b, skipped)
    ensures SkipsOnly(a + b, skipped)
  {
  }

  lemma RemovesNothingSkipsNothing(ops: seq<Op>, skipped: set<LogName>)
    requires NoRemovals(ops)
    ensures SkipsOnly(ops, skipped)
  {
  }

  /** What a call skips is what it could not count. */
  lemma CallSkips(cfg: LogConfig, s: LogState, e: Entry, env: Env)
    ensures SkipsOnly(WriteStep(cfg, s, e, env).ops, env.skipped)
  {
    var more := CallOps(cfg, s, e, env);
    RemovesNothingSkipsNothing(more, env.skipped);
    PrepareSkips(cfg, s, env);
    BothSkipOnly(PrepareStep(cfg, s, env).ops, more, env.skipped);
    hide PrepareStep;
    hide WriteStep;
  }

  lemma PrepareSkips(cfg: LogConfig, s: LogState, env: Env)
    ensures SkipsOnly(PrepareStep(cfg, s, env).ops, env.skipped)
  {
    hide SkipsOnly;
    if GetsToPrune(cfg, s, env) {
      var ready := ReadyStep(s, env);
      ReadyRemovesNothing(s, env);
      RemovesNothingSkipsNothing(ready.ops, env.skipped);
      assert PrepareStep(cfg, s, env) == Both(ready, RotateStep(cfg, ready.state, env));
      hide PrepareStep;
      RotationSkips(cfg, ready.state, env);
      BothSkipOnly(ready.ops, RotateStep(cfg, ready.state, env).ops, env.skipped);
    } else {
      NotPruningRemovesNothing(cfg, s, env);
      hide PrepareStep;
      RemovesNothingSkipsNothing(PrepareStep(cfg, s, env).ops, env.skipped);
    }
  }

  lemma RotationSkips(cfg: LogConfig, s: LogState, env: Env)
    requires Live(s) && Out(env, BeforeRotation, s.active.value.buffer) == |s.active.value.buffer|
    requires RenameToArchive !in env.fails
    ensures SkipsOnly(RotateStep(cfg, s, env).ops, env.skipped)
  {
    hide SkipsOnly;
    var f := ArchivedFiles(s);
    var rest := RotationOps(cfg, s, env);
    var pruned := Prune(cfg, f, env).ops;
    ArchiveOpsRemoveNothing(s);
    PruneSkips(f, env.skipped, cfg.keepLastEntries, env.removals);
    assert SkipsOnly(pruned, env.skipped) by {
      RemovesNothingSkipsNothing([], env.skipped);
    }
    hide RotateStep;
    hide Prune;
    RemovesNothingSkipsNothing(ArchiveOps(s), env.skipped);
    RemovesNothingSkipsNothing(rest, env.skipped);
    BothSkipOnly(ArchiveOps(s), pruned, env.skipped);
    BothSkipOnly(ArchiveOps(s) + pruned, rest, env.skipped);
  }

  lemma ArchiveOpsRemoveNothing(s: LogState)
    requires Live(s)
    ensures NoRemovals(ArchiveOps(s))
  {
    FlushesRemoveNothing(s.active.value, |s.active.value.buffer|);
  }

  /** Every file of the directory could be counted in every call. */
  ghost predicate CountsAll(events: seq<Event>) {
    forall ev :: ev in events && IsCall(ev) ==> ev.env.skipped == {}
  }

  lemma EventSkips(cfg: LogConfig, p: Past, ev: Event)
    requires IsCall(ev) ==> ev.env.skipped == {}
    ensures SkipsOnly(Performed(cfg, p, ev), {})
  {
    hide After;
    hide SkipsOnly;
    if ev.Log? {
      hide WriteStep;
      CallSkips(cfg, p.state, ev.entry, ev.env);
    } else if ev.Crash? {
      var cut := CutOps(cfg, p, ev);
      CutSkips(cfg, p, ev);
      hide CutOps;
      var drop := DropOps(After(p, cut).state);
      RemovesNothingSkipsNothing(drop, {});
      BothSkipOnly(cut, drop, {});
    } else {
      RemovesNothingSkipsNothing(Performed(cfg, p, ev), {});
    }
  }

  lemma CutSkips(cfg: LogConfig, p: Past, ev: Event)
    requires ev.Crash?
    ensures SkipsOnly(CutOps(cfg, p, ev), ev.env.skipped)
  {
    hide WriteStep;
    CallSkips(cfg, p.state, ev.entry, ev.env);
  }

  lemma {:induction false} RunSkips(cfg: LogConfig, events: seq<Event>)
    requires CountsAll(events)
    ensures SkipsOnly(Run(cfg, events), {})
  {
    if events != [] {
      var front, ev := events[..|events| - 1], events[|events| - 1];
      assert CountsAll(front) && (IsCall(ev) ==> ev.env.skipped == {});
      RunSkips(cfg, front);
      RunSplits(cfg, events);
      EventSkips(cfg, Now(cfg, front), ev);
      hide Run;
      hide Performed;
      hide Now;
      BothSkipOnly(Run(cfg, front), Performed(cfg, Now(cfg, front), ev), {});
    }
  }

  lemma {:induction false} UnskippedTakeOldest(p: Past, ops: seq<Op>, keep: nat)
    requires Lawful(p, ops, keep) && SkipsOnly(ops, {})
    ensures AllTakeOldest(p, ops)
  {
    if ops != [] {
      UnskippedTakeOldest(p, ops[..|ops| - 1], keep);
      assert ops[|ops| - 1].Remove? ==> ops[|ops| - 1].skipped == {};
    }
    hide CountedLines;
    hide HasCurrent;
    hide MaxNumber;
    hide Then;
  }

  /** While every file can be counted only the oldest files are ever missing. */
  lemma CountingAllKeepsPrefix(cfg: LogConfig, events: seq<Event>)
    requires CountsAll(events)
    ensures AlwaysOldestGone(Beginning(), Run(cfg, events))
  {
    RunsAreLawful(cfg, events);
    RunSkips(cfg, events);
    UnskippedTakeOldest(Beginning(), Run(cfg, events), cfg.keepLastEntries);
    OnlyOldestGoneExactly(cfg, events);
    hide Run;
    hide AlwaysOldestGone;
    hide AllTakeOldest;
  }

  // ----- The line of a successful call -----

  lemma PutLast(s: LogState, e: Entry, attempt: nat, env: Env)
    requires Live(s) && PutStep(s, e, attempt, env).ok
    ensures var b := PutStep(s, e, attempt, env).state.active.value;
            && b.name == s.active.value.name && b.lineIndex == s.active.value.lineIndex + 1
            && EndsWith(PutStep(s, e, attempt, env).state, Line(b.lineIndex, e))
  {
    hide FitsIn;
    hide IsLong;
  }

  /** The lines in the open file and then those in its buffer end with `line`. */
  ghost predicate EndsWith(s: LogState, line: Line) {
    && Live(s)
    && var lines := s.files[s.active.value.name] + s.active.value.buffer;
    lines != [] && lines[|lines| - 1] == line
  }

  lemma FlushKeepsEnd(s: LogState, k: nat, line: Line)
    requires Live(s) && k <= |s.active.value.buffer| && EndsWith(s, line)
    ensures EndsWith(FlushStep(s, k).state, line)
  {
    var a := s.active.value;
    Reassociate(s.files[a.name], a.buffer[..k], a.buffer[k..]);
    assert a.buffer[..k] + a.buffer[k..] == a.buffer;
  }

  lemma LineLast(s: LogState, e: Entry, attempt: nat, env: Env)
    requires Live(s) && LineStep(s, e, attempt, env).ok
    ensures var t := LineStep(s, e, attempt, env).state;
            && Live(t) && EndsWith(t, Line(t.active.value.lineIndex, e))
            && t.active.value.name == s.active.value.name
            && t.active.value.lineIndex == s.active.value.lineIndex + 1
            && (AfterLine(attempt) !in env.stuck ==> t.active.value.buffer == [])
  {
    var put := PutStep(s, e, attempt, env);
    PutLast(s, e, attempt, env);
    hide PutStep;
    var b := put.state.active.value;
    var k := Out(env, AfterLine(attempt), b.buffer);
    FlushKeepsEnd(put.state, k, Line(b.lineIndex, e));
    FlushKeepsHandle(put.state, k);
    hide FlushStep;
    hide EndsWith;
  }

  lemma CallLast(cfg: LogConfig, s: LogState, e: Entry, env: Env)
    requires WriteStep(cfg, s, e, env).ok
    ensures var t := WriteStep(cfg, s, e, env).state;
            && Live(t) && EndsWith(t, Line(t.active.value.lineIndex, e))
            && (AfterLine(0) !in env.stuck && AfterLine(1) !in env.stuck ==> t.active.value.buffer == [])
  {
    var prepared := PrepareStep(cfg, s, env);
    hide PrepareStep;
    var first := LineStep(prepared.state, e, 0, env);
    if first.ok {
      LineLast(prepared.state, e, 0, env);
    } else {
      var quit := QuitStep(first.state, QuittingFile, env);
      var again := OpenStep(quit.state.files, env, 1);
      hide QuitStep;
      hide OpenStep;
      LineLast(again.state, e, 1, env);
    }
    hide LineStep;
    hide EndsWith;
  }

  lemma StateAfterCall(cfg: LogConfig, events: seq<Event>, e: Entry, env: Env)
    ensures Now(cfg, events + [Log(e, env)]).state == StepOf(cfg, Now(cfg, events), Log(e, env)).state
  {
    RunsAreLawful(cfg, events);
    RunOneMore(cfg, events, Log(e, env));
    WriteFollows(cfg, Now(cfg, events), e, env);
    hide Run;
    hide Now;
    hide Holds;
    hide Lawful;
    hide WriteStep;
  }

  /** After a successful call there is exactly one `current-*` file, its number is larger than every
      other number, and the entry is the last line of it and its buffer; and nothing stays in the
      buffer unless writing it out after the line got stuck. */
  lemma AcknowledgedLineIsLast(cfg: LogConfig, events: seq<Event>, e: Entry, env: Env)
    requires StepOf(cfg, Now(cfg, events), Log(e, env)).ok
    ensures var s := Now(cfg, events + [Log(e, env)]).state;
            && Live(s)
            && (forall n :: n in s.files && n != s.active.value.name ==>
                  !n.current && n.number < s.active.value.name.number)
            && s.active.value.name.current && EndsWith(s, Line(s.active.value.lineIndex, e))
            && (AfterLine(0) !in env.stuck && AfterLine(1) !in env.stuck ==> s.active.value.buffer == [])
  {
    hide FilesHold;
    hide WriteStep;
    hide Run;
    hide EndsWith;
    StateAfterCall(cfg, events, e, env);
    CallLast(cfg, Now(cfg, events).state, e, env);
    RunsAreLawful(cfg, events + [Log(e, env)]);
    var p := Now(cfg, events + [Log(e, env)]);
    hide Now;
    CurrentIsAlone(p.state.files, p.made, p.state.active.value.name);
  }

  // ----- Length of files -----

  ghost predicate AllBelow(p: Past, ops: seq<Op>, limit: nat) {
    ops == [] || (AllBelow(p, ops[..|ops| - 1], limit)
                  && StaysBelow(After(p, ops[..|ops| - 1]), ops[|ops| - 1], limit))
  }

  lemma {:induction false} AllBelowBoth(p: Past, a: seq<Op>, b: seq<Op>, limit: nat)
    ensures AllBelow(p, a + b, limit) <==> AllBelow(p, a, limit) && AllBelow(After(p, a), b, limit)
  {
    if b == [] {
      assert a + b == a;
    } else {
      assert (a + b)[..|a + b| - 1] == a + b[..|b| - 1];
      AllBelowBoth(p, a, b[..|b| - 1], limit);
      AfterBoth(p, a, b[..|b| - 1]);
    }
    hide StaysBelow;
  }

  lemma {:induction false} BelowIsBounded(p: Past, ops: seq<Op>, keep: nat, limit: nat)
    requires Holds(p) && Lawful(p, ops, keep) && Within(p, limit) && AllBelow(p, ops, limit)
    ensures Within(After(p, ops), limit)
  {
    hide Holds;
    hide Within;
    hide Allowed;
    hide StaysBelow;
    hide Then;
    if ops != [] {
      var front := ops[..|ops| - 1];
      BelowIsBounded(p, front, keep, limit);
      LawfulHolds(p, front, keep);
      OpBounded(After(p, front), ops[|ops| - 1], keep, limit);
    }
  }

  /** Operations that neither count a line nor open a file. */
  ghost predicate CountsNothing(ops: seq<Op>) {
    forall i :: 0 <= i < |ops| ==> !ops[i].Accept? && !ops[i].Miss? && !ops[i].Open?
  }

  lemma {:induction false} CountingNothingIsBelow(p: Past, ops: seq<Op>, limit: nat)
    requires CountsNothing(ops)
    ensures AllBelow(p, ops, limit)
  {
    if ops != [] {
      CountingNothingIsBelow(p, ops[..|ops| - 1], limit);
    }
  }

  lemma OneBelow(p: Past, op: Op, limit: nat)
    ensures AllBelow(p, [op], limit) <==> StaysBelow(p, op, limit)
  {
    assert [op][..0] == [];
    assert AllBelow(p, [op][..0], limit) && After(p, [op][..0]) == p;
  }

  lemma OpenIsBelow(p: Past, env: Env, attempt: nat, limit: nat)
    requires Holds(p) && Within(p, limit) && p.state.active.None?
    ensures var step := OpenStep(p.state.files, env, attempt);
            AllBelow(p, step.ops, limit) && (step.ok ==> step.state.active.value.lineIndex <= limit)
  {
    var f := p.state.files;
    var step := OpenStep(f, env, attempt);
    if HasCurrent(f) {
      CurrentHasLastRecord(f, p.made, CurrentOf(f));
    }
    hide FilesHold;
    if step.ops != [] {
      OneBelow(p, step.ops[0], limit);
      assert step.ops == [step.ops[0]];
    } else {
      CountingNothingIsBelow(p, step.ops, limit);
    }
    hide AllBelow;
  }

  lemma RemovalsCountNothing(ops: seq<Op>)
    requires AllRemove(ops)
    ensures CountsNothing(ops)
  {
  }

  lemma PruneCountsNothing(cfg: LogConfig, f: Files, env: Env)
    ensures CountsNothing(Prune(cfg, f, env).ops)
  {
    var ops := PruneOps(f, env.skipped, cfg.keepLastEntries, env.removals);
    PruneSkips(f, env.skipped, cfg.keepLastEntries, env.removals);
    RemovalsCountNothing(ops);
    hide PruneOps;
  }

  lemma NextIsNew(p: Past, n: LogName, next: LogName)
    requires Between(p, n) && next.number > n.number
    ensures next !in p.state.files
  {
    if next in p.state.files {
      FilesAreEarlier(p.state.files, p.made, next);
    }
  }

  lemma ArchivingCountsNothing(s: LogState)
    requires Live(s)
    ensures CountsNothing(ArchiveOps(s))
  {
  }

  lemma CreatedCountsNothing(f: Files, a: Active, env: Env)
    requires CreateNext !in env.fails && Fresh(a.name.number + 1, env.stamp) !in f
    ensures var step := CreateOrRollBack(f, a, env);
            CountsNothing(step.ops) && step.ok && step.state.active.value.lineIndex == 0
  {
  }

  lemma ArchivedIsBelow(cfg: LogConfig, p: Past, env: Env)
    requires Holds(p) && Live(p.state) && CreateNext !in env.fails && RenameToArchive !in env.fails
    requires Out(env, BeforeRotation, p.state.active.value.buffer) == |p.state.active.value.buffer|
    ensures var step := RotateStep(cfg, p.state, env);
            CountsNothing(step.ops) && (step.ok ==> step.state.active.value.lineIndex == 0)
  {
    var s, a := p.state, p.state.active.value;
    var q := After(p, ArchiveOps(s));
    ArchiveOpsFollow(p, cfg.keepLastEntries);
    ArchivingCountsNothing(s);
    var rest := RotationOps(cfg, s, env);
    hide ArchiveOps;
    hide Holds;
    hide Lawful;
    hide CountsNothing;
    var pruned := Prune(cfg, ArchivedFiles(s), env);
    PruningFollows(cfg, q, a.name, env);
    PruneCountsNothing(cfg, q.state.files, env);
    NextIsNew(After(q, pruned.ops), a.name, Fresh(a.name.number + 1, env.stamp));
    hide Between;
    hide After;
    hide Prune;
    CreatedCountsNothing(pruned.state.files, a, env);
    hide CreateOrRollBack;
    BothCountNothing(ArchiveOps(s), pruned.ops);
    BothCountNothing(ArchiveOps(s) + pruned.ops, rest);
  }

  lemma UnarchivedIsBelow(cfg: LogConfig, s: LogState, env: Env)
    requires Live(s)
    requires Out(env, BeforeRotation, s.active.value.buffer) < |s.active.value.buffer| || RenameToArchive in env.fails
    ensures CountsNothing(RotateStep(cfg, s, env).ops) && !RotateStep(cfg, s, env).ok
  {
  }

  /** While the next file can be created, a rotation counts nothing, and the new file is empty. */
  lemma RotationIsBelow(cfg: LogConfig, p: Past, env: Env, limit: nat)
    requires Holds(p) && Live(p.state) && CreateNext !in env.fails
    ensures var step := RotateStep(cfg, p.state, env);
            AllBelow(p, step.ops, limit) && (step.ok ==> step.state.active.value.lineIndex == 0)
  {
    hide AllBelow;
    hide Holds;
    hide RotateStep;
    var buffer := p.state.active.value.buffer;
    if Out(env, BeforeRotation, buffer) == |buffer| && RenameToArchive !in env.fails {
      ArchivedIsBelow(cfg, p, env);
    } else {
      UnarchivedIsBelow(cfg, p.state, env);
    }
    CountingNothingIsBelow(p, RotateStep(cfg, p.state, env).ops, limit);
  }

  lemma BothCountNothing(a: seq<Op>, b: seq<Op>)
    requires CountsNothing(a) && CountsNothing(b)
    ensures CountsNothing(a + b)
  {
  }

  lemma ReadyIsBelow(p: Past, env: Env, limit: nat)
    requires Holds(p) && Within(p, limit)
    ensures var step := ReadyStep(p.state, env);
            AllBelow(p, step.ops, limit) && (step.ok ==> step.state.active.value.lineIndex <= limit)
  {
    var s := p.state;
    if Live(s) {
      CountingNothingIsBelow(p, [], limit);
    } else if s.active.Some? {
      OneBelow(p, Drop, limit);
      AfterOne(p, Drop);
      OpenIsBelow(Then(p, Drop), env, 0, limit);
      AllBelowBoth(p, [Drop], OpenStep(s.files, env, 0).ops, limit);
    } else {
      OpenIsBelow(p, env, 0, limit);
    }
    hide AllBelow;
    hide FilesHold;
    hide OpenStep;
    hide After;
  }

  lemma PrepareIsBelow(cfg: LogConfig, p: Past, env: Env)
    requires Holds(p) && Within(p, cfg.Limit()) && CreateNext !in env.fails
    ensures var step := PrepareStep(cfg, p.state, env);
            AllBelow(p, step.ops, cfg.Limit()) && (step.ok ==> step.state.active.value.lineIndex < cfg.Limit())
  {
    hide Within;
    hide AllBelow;
    hide Holds;
    var limit := cfg.Limit();
    var ready := ReadyStep(p.state, env);
    ReadyIsBelow(p, env, limit);
    if ready.ok && ready.state.active.value.lineIndex >= limit {
      ReadyFollows(p, env, cfg.keepLastEntries);
      FollowsHolds(p, ready, cfg.keepLastEntries);
      hide ReadyStep;
      RotationIsBelow(cfg, After(p, ready.ops), env, limit);
      AllBelowBoth(p, ready.ops, RotateStep(cfg, ready.state, env).ops, limit);
      hide RotateStep;
    }
  }

  lemma FlushIsBelow(p: Past, a: Active, k: nat, limit: nat)
    requires k <= |a.buffer|
    ensures AllBelow(p, FlushOps(a, k), limit)
  {
    CountingNothingIsBelow(p, FlushOps(a, k), limit);
  }

  lemma TakeIsBelow(p: Past, line: Line, limit: nat)
    requires Live(p.state) && p.state.active.value.lineIndex < limit
    ensures AllBelow(p, TakeStep(p.state, line).ops, limit)
  {
    OneBelow(p, Accept(line), limit);
  }

  lemma LineIsBelow(p: Past, e: Entry, attempt: nat, env: Env, keep: nat, limit: nat)
    requires Live(p.state) && p.state.active.value.lineIndex < limit
    ensures AllBelow(p, LineStep(p.state, e, attempt, env).ops, limit)
  {
    var put := PutStep(p.state, e, attempt, env);
    PutIsBelow(p, e, attempt, env, keep, limit);
    if put.ok {
      var a := put.state.active.value;
      var k := Out(env, AfterLine(attempt), a.buffer);
      FlushIsBelow(After(p, put.ops), a, k, limit);
      AllBelowBoth(p, put.ops, FlushOps(a, k), limit);
    }
    hide PutStep;
    hide AllBelow;
    hide FlushOps;
  }

  lemma PutIsBelow(p: Past, e: Entry, attempt: nat, env: Env, keep: nat, limit: nat)
    requires Live(p.state) && p.state.active.value.lineIndex < limit
    ensures AllBelow(p, PutStep(p.state, e, attempt, env).ops, limit)
  {
    hide AllBelow;
    hide FitsIn;
    hide IsLong;
    hide Lawful;
    hide After;
    var s, a := p.state, p.state.active.value;
    var line := Line(a.lineIndex + 1, e);
    var k := Out(env, BeforeLine, a.buffer);
    var flushed := FlushStep(s, k);
    assert flushed.ops == FlushOps(a, k);
    FlushFollows(p, k, keep);
    FlushKeepsHandle(s, k);
    FlushIsBelow(p, a, k, limit);
    hide FlushOps;
    hide FlushStep;
    var q := After(p, flushed.ops);
    TakeIsBelow(p, line, limit);
    TakeIsBelow(q, line, limit);
    var taken := TakeStep(flushed.state, line);
    AllBelowBoth(p, flushed.ops, taken.ops, limit);
    var last := FlushStep(taken.state, |taken.state.active.value.buffer|);
    LastIsBelow(After(q, taken.ops), taken.state, limit);
    AllBelowBoth(q, taken.ops, last.ops, limit);
    AllBelowBoth(p, flushed.ops, taken.ops + last.ops, limit);
    hide TakeStep;
  }

  lemma LastIsBelow(p: Past, s: LogState, limit: nat)
    requires Live(s)
    ensures AllBelow(p, FlushStep(s, |s.active.value.buffer|).ops, limit)
  {
    FlushIsBelow(p, s.active.value, |s.active.value.buffer|, limit);
  }

  lemma QuitCountsNothing(s: LogState, at: FlushAt, env: Env)
    requires Live(s)
    ensures CountsNothing(QuitStep(s, at, env).ops)
  {
  }

  /** Giving the file up leaves it with no more lines than were counted. */
  lemma QuitLeaves(p: Past, env: Env, keep: nat)
    requires Holds(p) && Live(p.state)
    ensures var a := p.state.active.value; var quit := QuitStep(p.state, QuittingFile, env);
            var q := After(p, quit.ops); var f := q.state.files;
            && q.state == quit.state && q.state.active.None? && HasCurrent(f) && CurrentOf(f) == a.name
            && |f[a.name]| <= a.lineIndex
  {
    var a := p.state.active.value;
    var quit := QuitStep(p.state, QuittingFile, env);
    QuitFollows(p, QuittingFile, env, keep);
    FollowsHolds(p, quit, keep);
    var q := After(p, quit.ops);
    assert q.state == quit.state;
    assert a.name in q.state.files && a.name.current && |q.state.files[a.name]| <= a.lineIndex;
    hide QuitStep;
    hide FilesHold;
    CurrentIsAlone(q.state.files, q.made, a.name);
    hide Lawful;
    hide After;
  }

  lemma ReopenIsBelow(p: Past, env: Env, limit: nat, keep: nat)
    requires Holds(p) && Live(p.state) && p.state.active.value.lineIndex < limit
    ensures var quit := QuitStep(p.state, QuittingFile, env); var again := OpenStep(quit.state.files, env, 1);
            && AllBelow(p, quit.ops, limit) && AllBelow(After(p, quit.ops), again.ops, limit)
            && (again.ok ==> Live(again.state) && again.state.active.value.lineIndex < limit)
  {
    hide AllBelow;
    hide QuitStep;
    hide Holds;
    hide After;
    var quit := QuitStep(p.state, QuittingFile, env);
    QuitCountsNothing(p.state, QuittingFile, env);
    CountingNothingIsBelow(p, quit.ops, limit);
    QuitLeaves(p, env, keep);
    var q := After(p, quit.ops);
    var again := OpenStep(q.state.files, env, 1);
    if again.ops != [] {
      OneBelow(q, again.ops[0], limit);
      assert again.ops == [again.ops[0]];
    } else {
      CountingNothingIsBelow(q, again.ops, limit);
    }
  }

  lemma LastStepIsBelow(p: Past, e: Entry, env: Env, keep: nat, limit: nat)
    requires Live(p.state) && p.state.active.value.lineIndex < limit && p.state.active.value.buffer == []
    ensures AllBelow(p, LastStep(p.state, e, env).ops, limit)
  {
    var second := LineStep(p.state, e, 1, env);
    LineIsBelow(p, e, 1, env, keep, limit);
    if !second.ok {
      FailedLineIsEmpty(p.state, e, 1, env);
      NothingIsLawful(p, keep);
      OneBelow(p, Miss, limit);
      AllBelowBoth(p, second.ops, [Miss], limit);
    }
    hide LineStep;
    hide AllBelow;
  }

  lemma RetryIsBelow(p: Past, e: Entry, env: Env, keep: nat, limit: nat)
    requires Holds(p) && Live(p.state) && p.state.active.value.lineIndex < limit
    ensures AllBelow(p, RetryStep(p.state, e, env).ops, limit)
  {
    hide QuitStep;
    hide LastStep;
    hide AllBelow;
    hide Holds;
    hide Lawful;
    hide After;
    var quit := QuitStep(p.state, QuittingFile, env);
    var again := OpenStep(quit.state.files, env, 1);
    ReopenIsBelow(p, env, limit, keep);
    QuitLeaves(p, env, keep);
    QuitFollows(p, QuittingFile, env, keep);
    FollowsHolds(p, quit, keep);
    var q := After(p, quit.ops);
    OpenFollows(q, env, 1, keep);
    assert again.ok ==> again.state.active.value.buffer == [];
    hide OpenStep;
    AllBelowBoth(p, quit.ops, again.ops, limit);
    if again.ok {
      var last := LastStep(again.state, e, env);
      LastStepIsBelow(After(q, again.ops), e, env, keep, limit);
      AllBelowBoth(q, again.ops, last.ops, limit);
      AllBelowBoth(p, quit.ops, again.ops + last.ops, limit);
    }
  }

  lemma CallIsBelow(cfg: LogConfig, p: Past, e: Entry, env: Env)
    requires Holds(p) && Within(p, cfg.Limit()) && CreateNext !in env.fails
    ensures AllBelow(p, WriteStep(cfg, p.state, e, env).ops, cfg.Limit())
  {
    hide Within;
    hide Holds;
    hide AllBelow;
    hide Lawful;
    hide After;
    var keep, limit := cfg.keepLastEntries, cfg.Limit();
    var prepared := PrepareStep(cfg, p.state, env);
    PrepareIsBelow(cfg, p, env);
    if prepared.ok {
      PrepareFollows(cfg, p, env);
      FollowsHolds(p, prepared, keep);
      hide PrepareStep;
      var q := After(p, prepared.ops);
      var first := LineStep(prepared.state, e, 0, env);
      LineIsBelow(q, e, 0, env, keep, limit);
      if !first.ok {
        LineFollows(q, e, 0, env, keep);
        FollowsHolds(q, first, keep);
        FailedLineKeepsCount(prepared.state, e, 0, env);
        hide LineStep;
        RetryIsBelow(After(q, first.ops), e, env, keep, limit);
        AllBelowBoth(q, first.ops, RetryStep(first.state, e, env).ops, limit);
      }
      hide LineStep;
      hide RetryStep;
      AllBelowBoth(p, prepared.ops, WriteOrRetry(prepared.state, e, env).ops, limit);
    }
  }

  lemma FailedLineKeepsCount(s: LogState, e: Entry, attempt: nat, env: Env)
    requires Live(s) && !LineStep(s, e, attempt, env).ok
    ensures LineStep(s, e, attempt, env).state.active.value.lineIndex == s.active.value.lineIndex
  {
    FlushKeepsHandle(s, Out(env, BeforeLine, s.active.value.buffer));
    hide FitsIn;
    hide IsLong;
  }

  ghost predicate CreatesAlways(events: seq<Event>) {
    forall ev :: ev in events && IsCall(ev) ==> CreateNext !in ev.env.fails
  }

  /** No file ever outgrows the rotation threshold, at most 1000 lines, while creating the next file
      never fails, whatever else fails. */
  lemma {:induction false} RunsAreBounded(cfg: LogConfig, events: seq<Event>)
    requires CreatesAlways(events)
    ensures Within(Now(cfg, events), cfg.Limit())
  {
    if events != [] {
      var front, ev := events[..|events| - 1], events[|events| - 1];
      assert CreatesAlways(front) && (IsCall(ev) ==> CreateNext !in ev.env.fails);
      hide CreatesAlways;
      RunsAreBounded(cfg, front);
      RunsAreLawful(cfg, front);
      RunSplits(cfg, events);
      hide Run;
      hide Now;
      hide Performed;
      hide Holds;
      hide Within;
      EventIsBelow(cfg, Now(cfg, front), ev);
      PerformedIsLawful(cfg, Now(cfg, front), ev);
      BelowIsBounded(Now(cfg, front), Performed(cfg, Now(cfg, front), ev), cfg.keepLastEntries, cfg.Limit());
    }
  }

  lemma EventIsBelow(cfg: LogConfig, p: Past, ev: Event)
    requires Holds(p) && Within(p, cfg.Limit()) && (IsCall(ev) ==> CreateNext !in ev.env.fails)
    ensures AllBelow(p, Performed(cfg, p, ev), cfg.Limit())
  {
    hide AllBelow;
    hide Holds;
    hide Within;
    var limit := cfg.Limit();
    if IsCall(ev) {
      var ops := StepOf(cfg, p, ev).ops;
      CallIsBelow(cfg, p, ev.entry, ev.env);
      hide StepOf;
      if ev.Crash? {
        var cut := CutOps(cfg, p, ev);
        assert ops == cut + ops[|cut|..];
        AllBelowBoth(p, cut, ops[|cut|..], limit);
        hide CutOps;
        var drop := DropOps(After(p, cut).state);
        CountingNothingIsBelow(After(p, cut), drop, limit);
        AllBelowBoth(p, cut, drop, limit);
      }
    } else {
      assert CountsNothing(Performed(cfg, p, ev));
      CountingNothingIsBelow(p, Performed(cfg, p, ev), limit);
    }
  }

  // ----- Paths and cached counts -----

  /** Unless a run gives a name out twice, a path holds later what it held before, and more: the
      condition under which the cache of line counts answers with the count. */
  lemma PathsOnlyGrow(cfg: LogConfig, events: seq<Event>, i: nat, j: nat, n: LogName)
    requires i <= j <= |Run(cfg, events)| && NamesDiffer(Now(cfg, events).made)
    requires n in Moment(cfg, events, i).state.files && n in Moment(cfg, events, j).state.files
    ensures Moment(cfg, events, i).state.files[n] <= Moment(cfg, events, j).state.files[n]
    ensures LineCounts.FileText(Moment(cfg, events, i).state.files[n])
         <= LineCounts.FileText(Moment(cfg, events, j).state.files[n])
  {
    hide Run;
    hide After;
    hide Holds;
    hide Extends;
    var ops := Run(cfg, events);
    MomentHolds(cfg, events, i);
    MomentHolds(cfg, events, j);
    MomentExtends(ops, i, j);
    MomentExtends(ops, j, |ops|);
    assert ops[..|ops|] == ops;
    var p, q := Moment(cfg, events, i), Moment(cfg, events, j);
    EarlierNamesDiffer(q.made, Now(cfg, events).made);
    hide NamesDiffer;
    hide Moment;
    PathGrows(p, q, n);
    LineCounts.TextGrows(p.state.files[n], q.state.files[n]);
  }

  lemma EarlierNamesDiffer(g: History, h: History)
    requires Extends(g, h) && NamesDiffer(h)
    ensures NamesDiffer(g)
  {
  }

  lemma MomentExtends(ops: seq<Op>, i: nat, j: nat)
    requires i <= j <= |ops|
    ensures Extends(After(Beginning(), ops[..i]).made, After(Beginning(), ops[..j]).made)
  {
    assert ops[..j] == ops[..i] + ops[i..j];
    AfterBoth(Beginning(), ops[..i], ops[i..j]);
    AfterExtends(After(Beginning(), ops[..i]), ops[i..j]);
    hide After;
  }

  lemma GrowingNumbersDiffer(h: History)
    requires NumbersGrow(h)
    ensures NamesDiffer(h)
  {
    forall i, j | 0 <= i < j < |h| ensures h[i].name != h[j].name {
      assert h[i].name.number < h[j].name.number;
    }
  }
}
