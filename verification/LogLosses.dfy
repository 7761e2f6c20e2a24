/** The entries a run takes from its callers, and exactly which of them its buffer loses. */
module LogLosses {
  import opened Wrappers
  import opened LogFormat
  import opened LogDirectory
  import opened LogHistory
  import opened LogSteps
  import opened LogPruning
  import opened LogRuns
  import opened Sequences

  // ----- What is taken -----

  lemma {:induction false} AcceptedByBoth(a: seq<Op>, b: seq<Op>)
    ensures Accepted(a + b) == Accepted(a) + Accepted(b)
  {
    if b == [] {
      assert a + b == a;
    } else {
      assert (a + b)[..|a + b| - 1] == a + b[..|b| - 1];
      AcceptedByBoth(a, b[..|b| - 1]);
    }
  }

  ghost predicate NoneAccepted(ops: seq<Op>) {
    forall i :: 0 <= i < |ops| ==> !ops[i].Accept?
  }

  lemma {:induction false} NothingAccepted(ops: seq<Op>)
    requires NoneAccepted(ops)
    ensures Accepted(ops) == []
  {
    if ops != [] {
      NothingAccepted(ops[..|ops| - 1]);
    }
  }

  lemma {:induction false} PruneAcceptsNothing(f: Files, skipped: set<LogName>, keep: nat, removals: nat)
    ensures NoneAccepted(PruneOps(f, skipped, keep, removals))
    decreases removals
  {
    PruneSkips(f, skipped, keep, removals);
  }

  lemma PrepareAcceptsNothing(cfg: LogConfig, s: LogState, env: Env)
    ensures NoneAccepted(PrepareStep(cfg, s, env).ops)
  {
    var ready := ReadyStep(s, env);
    assert NoneAccepted(ready.ops);
    hide ReadyStep;
    if ready.ok && ready.state.active.value.lineIndex >= cfg.Limit() {
      RotationAcceptsNothing(cfg, ready.state, env);
      hide RotateStep;
    }
  }

  lemma RotationAcceptsNothing(cfg: LogConfig, s: LogState, env: Env)
    requires Live(s)
    ensures NoneAccepted(RotateStep(cfg, s, env).ops)
  {
    var a := s.active.value;
    var k := Out(env, BeforeRotation, a.buffer);
    var flushed := FlushStep(s, k);
    if k < |a.buffer| {
      assert NoneAccepted(QuitStep(flushed.state, QuittingRotation, env).ops);
      hide QuitStep;
    } else if RenameToArchive !in env.fails {
      var f := ArchivedFiles(s);
      PruneAcceptsNothing(f, env.skipped, cfg.keepLastEntries, env.removals);
      var rest := RotationOps(cfg, s, env);
      assert NoneAccepted(rest);
      assert NoneAccepted(ArchiveOps(s));
      hide PruneOps;
      hide RotateStep;
      hide ArchiveOps;
      hide CreateOrRollBack;
    }
  }

  /** A written line is taken exactly when the write succeeds. */
  lemma LineAccepts(s: LogState, e: Entry, attempt: nat, env: Env)
    requires Live(s)
    ensures var step := LineStep(s, e, attempt, env); Accepted(step.ops) == if step.ok then [e] else []
  {
    var put := PutStep(s, e, attempt, env);
    PutAccepts(s, e, attempt, env);
    hide PutStep;
    if put.ok {
      var a := put.state.active.value;
      var k := Out(env, AfterLine(attempt), a.buffer);
      NothingAccepted(FlushOps(a, k));
      AcceptedByBoth(put.ops, FlushOps(a, k));
    }
  }

  lemma LongAccepts(s: LogState, line: Line)
    requires Live(s)
    ensures var taken := TakeStep(s, line);
            Accepted(Both(taken, FlushStep(taken.state, |taken.state.active.value.buffer|)).ops) == [line.entry]
  {
    var b := TakeStep(s, line).state.active.value;
    NothingAccepted(FlushOps(b, |b.buffer|));
    AcceptedByBoth([Accept(line)], FlushOps(b, |b.buffer|));
    AcceptsOne(line);
    hide Accepted;
    hide FlushOps;
  }

  lemma PutAccepts(s: LogState, e: Entry, attempt: nat, env: Env)
    requires Live(s)
    ensures var step := PutStep(s, e, attempt, env); Accepted(step.ops) == if step.ok then [e] else []
  {
    hide Accepted;
    hide FitsIn;
    hide IsLong;
    var a := s.active.value;
    var line := Line(a.lineIndex + 1, e);
    var k := Out(env, BeforeLine, a.buffer);
    var flushed := FlushStep(s, k);
    var taken := TakeStep(flushed.state, line);
    var long := Both(taken, FlushStep(taken.state, |taken.state.active.value.buffer|));
    assert flushed.ops == FlushOps(a, k) && TakeStep(s, line).ops == taken.ops == [Accept(line)];
    NothingAccepted(FlushOps(a, k));
    hide FlushOps;
    AcceptsOne(line);
    LongAccepts(flushed.state, line);
    hide FlushStep;
    hide TakeStep;
    AcceptedByBoth(flushed.ops, taken.ops);
    AcceptedByBoth(flushed.ops, long.ops);
  }

  lemma AcceptsOne(line: Line)
    ensures Accepted([Accept(line)]) == [line.entry]
  {
    assert [Accept(line)][..0] == [];
    assert Accepted([Accept(line)][..0]) == [];
  }

  /** Nothing is taken before the line of a call, and the line is taken exactly when the call succeeds. */
  lemma CallAccepts(cfg: LogConfig, s: LogState, e: Entry, env: Env)
    ensures Accepted(PrepareStep(cfg, s, env).ops) == []
    ensures var step := WriteStep(cfg, s, e, env); Accepted(step.ops) == if step.ok then [e] else []
  {
    hide Accepted;
    hide PrepareStep;
    hide WriteOrRetry;
    var prepared := PrepareStep(cfg, s, env);
    PrepareAcceptsNothing(cfg, s, env);
    NothingAccepted(prepared.ops);
    if prepared.ok {
      var rest := WriteOrRetry(prepared.state, e, env);
      RestAccepts(prepared.state, e, env);
      AcceptedByBoth(prepared.ops, rest.ops);
    }
  }

  lemma RestAccepts(s: LogState, e: Entry, env: Env)
    requires Live(s)
    ensures var step := WriteOrRetry(s, e, env); Accepted(step.ops) == if step.ok then [e] else []
  {
    var first := LineStep(s, e, 0, env);
    LineAccepts(s, e, 0, env);
    hide LineStep;
    if !first.ok {
      var retry := RetryStep(first.state, e, env);
      RetryAccepts(first.state, e, env);
      AcceptedByBoth(first.ops, retry.ops);
      hide RetryStep;
    }
    hide Accepted;
  }

  lemma RetryAccepts(s: LogState, e: Entry, env: Env)
    requires Live(s)
    ensures var step := RetryStep(s, e, env); Accepted(step.ops) == if step.ok then [e] else []
  {
    var quit := QuitStep(s, QuittingFile, env);
    var again := OpenStep(quit.state.files, env, 1);
    assert NoneAccepted(quit.ops) && NoneAccepted(again.ops);
    NothingAccepted(quit.ops);
    NothingAccepted(again.ops);
    AcceptedByBoth(quit.ops, again.ops);
    hide QuitStep;
    if again.ok {
      LastAccepts(again.state, e, env);
      var last := LastStep(again.state, e, env);
      AcceptedByBoth(again.ops, last.ops);
      AcceptedByBoth(quit.ops, again.ops + last.ops);
    }
    hide LastStep;
    hide OpenStep;
    hide Accepted;
  }

  lemma LastAccepts(s: LogState, e: Entry, env: Env)
    requires Live(s)
    ensures var step := LastStep(s, e, env); Accepted(step.ops) == if step.ok then [e] else []
  {
    var second := LineStep(s, e, 1, env);
    LineAccepts(s, e, 1, env);
    NothingAccepted([Miss]);
    AcceptedByBoth(second.ops, [Miss]);
    hide LineStep;
    hide Accepted;
  }

  /** The entries an event takes: that of a successful call, or of a crashed call that had taken it. */
  ghost function TakenBy(cfg: LogConfig, p: Past, ev: Event): seq<Entry> {
    match ev
    case Log(e, _) => if StepOf(cfg, p, ev).ok then [e] else []
    case Crash(_, _, _) => Accepted(CutOps(cfg, p, ev))
    case _ => []
  }

  lemma ClosingAcceptsNothing(s: LogState, out: nat)
    ensures Accepted(OutOps(s, out)) == [] && Accepted(DropOps(s)) == []
    ensures Accepted(OutOps(s, out) + DropOps(s)) == []
  {
    NothingAccepted(OutOps(s, out));
    NothingAccepted(DropOps(s));
    NothingAccepted(OutOps(s, out) + DropOps(s));
  }

  lemma EventTakes(cfg: LogConfig, p: Past, ev: Event)
    ensures Accepted(Performed(cfg, p, ev)) == TakenBy(cfg, p, ev)
  {
    match ev
    case Log(e, env) =>
      CallAccepts(cfg, p.state, e, env);
      hide PrepareStep;
      hide WriteStep;
      hide Accepted;
    case Crash(_, _, _) =>
      var cut := CutOps(cfg, p, ev);
      hide CutOps;
      ClosingAcceptsNothing(After(p, cut).state, 0);
      AcceptedByBoth(cut, DropOps(After(p, cut).state));
    case Restart(out) => ClosingAcceptsNothing(p.state, out);
    case Release(_, out) => ClosingAcceptsNothing(p.state, out);
    case FlushLog(out) => ClosingAcceptsNothing(p.state, out);
  }

  /** Every entry ever taken, in order. */
  ghost function Taken(cfg: LogConfig, events: seq<Event>): seq<Entry> {
    if events == [] then []
    else
      var front := events[..|events| - 1];
      Taken(cfg, front) + TakenBy(cfg, Now(cfg, front), events[|events| - 1])
  }

  lemma {:induction false} TakenIsAccepted(cfg: LogConfig, events: seq<Event>)
    ensures Taken(cfg, events) == Accepted(Run(cfg, events))
  {
    if events != [] {
      var front, ev := events[..|events| - 1], events[|events| - 1];
      TakenIsAccepted(cfg, front);
      RunSplits(cfg, events);
      EventTakes(cfg, Now(cfg, front), ev);
      AcceptedByBoth(Run(cfg, front), Performed(cfg, Now(cfg, front), ev));
      hide Run;
      hide Performed;
      hide TakenBy;
      hide Accepted;
      hide Now;
    }
  }

  // ----- Exactly when an event loses lines -----

  lemma {:induction false} NothingLostBoth(p: Past, a: seq<Op>, b: seq<Op>)
    ensures NothingLost(p, a + b) <==> NothingLost(p, a) && NothingLost(After(p, a), b)
  {
    if b == [] {
      assert a + b == a;
    } else {
      assert (a + b)[..|a + b| - 1] == a + b[..|b| - 1];
      NothingLostBoth(p, a, b[..|b| - 1]);
      AfterBoth(p, a, b[..|b| - 1]);
    }
    hide Loses;
  }

  ghost predicate NoDrops(ops: seq<Op>) {
    forall i :: 0 <= i < |ops| ==> !ops[i].Drop?
  }

  lemma {:induction false} WithoutDrops(p: Past, ops: seq<Op>)
    requires NoDrops(ops)
    ensures NothingLost(p, ops)
  {
    if ops != [] {
      WithoutDrops(p, ops[..|ops| - 1]);
    }
  }

  lemma DropLoses(p: Past)
    ensures NothingLost(p, [Drop]) <==> Buffered(p.state) == []
  {
    assert [Drop][..0] == [];
    assert NothingLost(p, [Drop][..0]) && After(p, [Drop][..0]) == p;
  }

  /** Giving up the file loses lines exactly when not all of them get out. */
  lemma QuitLoses(p: Past, at: FlushAt, env: Env, keep: nat)
    requires Live(p.state)
    ensures var buffer := p.state.active.value.buffer;
            NothingLost(p, QuitStep(p.state, at, env).ops) <==> Out(env, at, buffer) == |buffer|
  {
    var a := p.state.active.value;
    var k := Out(env, at, a.buffer);
    FlushFollows(p, k, keep);
    FlushKeepsHandle(p.state, k);
    WithoutDrops(p, FlushOps(a, k));
    var q := After(p, FlushOps(a, k));
    NothingLostBoth(p, FlushOps(a, k), [Drop]);
    DropLoses(q);
    hide NothingLost;
    hide Lawful;
    hide After;
  }

  /** Where a call gives up its file with lines in the buffer: if the handle was stale; if the rotation
      cannot write them out, nor the giving up; if the line is refused, and giving up cannot either. */
  ghost predicate StaleLoses(s: LogState) {
    s.active.Some? && !Live(s) && s.active.value.buffer != []
  }

  ghost predicate RotationLoses(cfg: LogConfig, s: LogState, env: Env) {
    var ready := ReadyStep(s, env);
    && ready.ok && ready.state.active.value.lineIndex >= cfg.Limit()
    && var buffer := ready.state.active.value.buffer;
    var k := Out(env, BeforeRotation, buffer);
    k < |buffer| && Out(env, QuittingRotation, buffer[k..]) < |buffer| - k
  }

  ghost predicate RefusalLoses(cfg: LogConfig, s: LogState, e: Entry, env: Env) {
    var prepared := PrepareStep(cfg, s, env);
    && prepared.ok
    && var first := LineStep(prepared.state, e, 0, env);
    !first.ok && Out(env, QuittingFile, first.state.active.value.buffer) < |first.state.active.value.buffer|
  }

  lemma ReadyLoses(p: Past, env: Env)
    ensures NothingLost(p, ReadyStep(p.state, env).ops) <==> !StaleLoses(p.state)
  {
    var s := p.state;
    var open := OpenStep(s.files, env, 0);
    assert NoDrops(open.ops);
    hide OpenStep;
    WithoutDrops(p, []);
    WithoutDrops(p, open.ops);
    if s.active.Some? && !Live(s) {
      NothingLostBoth(p, [Drop], open.ops);
      DropLoses(p);
      WithoutDrops(After(p, [Drop]), open.ops);
    }
    hide NothingLost;
  }

  lemma {:induction false} PruneDropsNothing(f: Files, skipped: set<LogName>, keep: nat, removals: nat)
    ensures NoDrops(PruneOps(f, skipped, keep, removals))
    decreases removals
  {
    PruneSkips(f, skipped, keep, removals);
  }

  lemma ArchivingLosesNothing(p: Past, keep: nat)
    requires Holds(p) && Live(p.state)
    ensures NothingLost(p, ArchiveOps(p.state))
  {
    var a := p.state.active.value;
    var n := |a.buffer|;
    FlushFollows(p, n, keep);
    FlushKeepsHandle(p.state, n);
    WithoutDrops(p, FlushOps(a, n));
    var q := After(p, FlushOps(a, n));
    var rename := [Rename(a.name, ArchiveOf(a.name))];
    NothingLostBoth(p, FlushOps(a, n), [Drop]);
    DropLoses(q);
    NothingLostBoth(p, FlushOps(a, n) + [Drop], rename);
    WithoutDrops(After(p, FlushOps(a, n) + [Drop]), rename);
    hide NothingLost;
    hide Lawful;
    hide After;
  }

  lemma ArchivedLosesNothing(cfg: LogConfig, p: Past, env: Env)
    requires Holds(p) && Live(p.state) && RenameToArchive !in env.fails
    requires Out(env, BeforeRotation, p.state.active.value.buffer) == |p.state.active.value.buffer|
    ensures NothingLost(p, RotateStep(cfg, p.state, env).ops)
  {
    var s := p.state;
    ArchivingLosesNothing(p, cfg.keepLastEntries);
    hide NothingLost;
    hide Holds;
    hide After;
    var f := ArchivedFiles(s);
    var rest := RotationOps(cfg, s, env);
    var pruned := Prune(cfg, f, env).ops;
    PruneDropsNothing(f, env.skipped, cfg.keepLastEntries, env.removals);
    assert NoDrops(rest);
    assert NoDrops(pruned);
    hide Prune;
    hide RotateStep;
    hide ArchiveOps;
    hide CreateOrRollBack;
    BothDropNothing(pruned, rest);
    WithoutDrops(After(p, ArchiveOps(s)), pruned + rest);
    NothingLostBoth(p, ArchiveOps(s), pruned + rest);
    Reassociate(ArchiveOps(s), pruned, rest);
  }

  lemma BothDropNothing(a: seq<Op>, b: seq<Op>)
    requires NoDrops(a) && NoDrops(b)
    ensures NoDrops(a + b)
  {
  }

  lemma RotateLoses(cfg: LogConfig, p: Past, env: Env)
    requires Holds(p) && Live(p.state)
    ensures var buffer := p.state.active.value.buffer; var k := Out(env, BeforeRotation, buffer);
            NothingLost(p, RotateStep(cfg, p.state, env).ops)
            <==> !(k < |buffer| && Out(env, QuittingRotation, buffer[k..]) < |buffer| - k)
  {
    var s, keep := p.state, cfg.keepLastEntries;
    var a := s.active.value;
    var k := Out(env, BeforeRotation, a.buffer);
    if k == |a.buffer| && RenameToArchive !in env.fails {
      ArchivedLosesNothing(cfg, p, env);
    } else {
      hide NothingLost;
      hide Holds;
      hide Lawful;
      hide After;
      var flushed := FlushStep(s, k);
      FlushFollows(p, k, keep);
      FlushKeepsHandle(s, k);
      WithoutDrops(p, flushed.ops);
      var q := After(p, flushed.ops);
      if k < |a.buffer| {
        QuitLoses(q, QuittingRotation, env, keep);
        NothingLostBoth(p, flushed.ops, QuitStep(flushed.state, QuittingRotation, env).ops);
        hide QuitStep;
      } else {
        NothingLostBoth(p, flushed.ops, [Drop]);
        DropLoses(q);
      }
    }
  }

  lemma PrepareLoses(cfg: LogConfig, p: Past, env: Env)
    requires Holds(p)
    ensures NothingLost(p, PrepareStep(cfg, p.state, env).ops)
       <==> !StaleLoses(p.state) && !RotationLoses(cfg, p.state, env)
  {
    var ready := ReadyStep(p.state, env);
    ReadyLoses(p, env);
    hide StaleLoses;
    if ready.ok && ready.state.active.value.lineIndex >= cfg.Limit() {
      ReadyFollows(p, env, cfg.keepLastEntries);
      FollowsHolds(p, ready, cfg.keepLastEntries);
      hide ReadyStep;
      hide Holds;
      RotateLoses(cfg, After(p, ready.ops), env);
      NothingLostBoth(p, ready.ops, RotateStep(cfg, ready.state, env).ops);
      hide RotateStep;
    }
    hide NothingLost;
    hide Lawful;
    hide After;
  }

  lemma LinesDropNothing(s: LogState, e: Entry, attempt: nat, env: Env)
    requires Live(s)
    ensures NoDrops(LineStep(s, e, attempt, env).ops)
  {
    hide FitsIn;
    hide IsLong;
  }

  lemma OpeningDropsNothing(f: Files, env: Env, attempt: nat)
    ensures NoDrops(OpenStep(f, env, attempt).ops)
  {
  }

  lemma LastDropsNothing(s: LogState, e: Entry, env: Env)
    requires Live(s)
    ensures NoDrops(LastStep(s, e, env).ops)
  {
    hide LineStep;
    LinesDropNothing(s, e, 1, env);
    var second := LineStep(s, e, 1, env);
    assert NoDrops([Miss]);
    BothDropNothing(second.ops, [Miss]);
    hide NoDrops;
  }

  lemma RetryLoses(p: Past, e: Entry, env: Env, keep: nat)
    requires Holds(p) && Live(p.state)
    ensures var buffer := p.state.active.value.buffer;
            NothingLost(p, RetryStep(p.state, e, env).ops) <==> Out(env, QuittingFile, buffer) == |buffer|
  {
    hide NothingLost;
    hide NoDrops;
    hide Holds;
    hide QuitStep;
    hide OpenStep;
    hide LastStep;
    var quit := QuitStep(p.state, QuittingFile, env);
    QuitLoses(p, QuittingFile, env, keep);
    var again := OpenStep(quit.state.files, env, 1);
    OpeningDropsNothing(quit.state.files, env, 1);
    var q := After(p, quit.ops);
    if again.ok {
      var last := LastStep(again.state, e, env);
      LastDropsNothing(again.state, e, env);
      BothDropNothing(again.ops, last.ops);
      WithoutDrops(q, again.ops + last.ops);
      NothingLostBoth(p, quit.ops, again.ops + last.ops);
    } else {
      WithoutDrops(q, again.ops);
      NothingLostBoth(p, quit.ops, again.ops);
    }
  }

  /** A call loses lines exactly in these cases. */
  lemma CallLosesExactly(cfg: LogConfig, p: Past, e: Entry, env: Env)
    requires Holds(p)
    ensures NothingLost(p, WriteStep(cfg, p.state, e, env).ops)
       <==> !StaleLoses(p.state) && !RotationLoses(cfg, p.state, env) && !RefusalLoses(cfg, p.state, e, env)
  {
    var keep := cfg.keepLastEntries;
    var prepared := PrepareStep(cfg, p.state, env);
    PrepareLoses(cfg, p, env);
    hide StaleLoses;
    hide RotationLoses;
    if prepared.ok {
      PrepareFollows(cfg, p, env);
      FollowsHolds(p, prepared, keep);
      hide PrepareStep;
      var q := After(p, prepared.ops);
      var first := LineStep(prepared.state, e, 0, env);
      LinesDropNothing(prepared.state, e, 0, env);
      WithoutDrops(q, first.ops);
      NothingLostBoth(p, prepared.ops, WriteOrRetry(prepared.state, e, env).ops);
      if !first.ok {
        LineFollows(q, e, 0, env, keep);
        FollowsHolds(q, first, keep);
        hide LineStep;
        hide Holds;
        RetryLoses(After(q, first.ops), e, env, keep);
        NothingLostBoth(q, first.ops, RetryStep(first.state, e, env).ops);
      }
      hide RetryStep;
      hide LineStep;
    }
    hide NothingLost;
    hide Lawful;
    hide After;
  }

  // ----- Exactly when a run loses lines -----

  /** Lines are in the buffer of a file that is given up after `out` of them got out. */
  ghost predicate ClosingLoses(s: LogState, out: nat) {
    s.active.Some? && if Live(s) then out < |s.active.value.buffer| else s.active.value.buffer != []
  }

  /** The event loses lines: a call as above; a call that is cut short also if it ends the process with
      lines in the buffer; a restart or a release if not all of them get out. */
  ghost predicate LosesAt(cfg: LogConfig, p: Past, ev: Event) {
    match ev
    case Log(e, env) => StaleLoses(p.state) || RotationLoses(cfg, p.state, env) || RefusalLoses(cfg, p.state, e, env)
    case Crash(_, _, _) =>
      !NothingLost(p, CutOps(cfg, p, ev)) || Buffered(After(p, CutOps(cfg, p, ev)).state) != []
    case Restart(out) => ClosingLoses(p.state, out)
    case Release(n, out) => p.state.active.Some? && p.state.active.value.name == n && ClosingLoses(p.state, out)
    case FlushLog(_) => false
  }

  lemma DropsLose(p: Past)
    ensures NothingLost(p, DropOps(p.state)) <==> Buffered(p.state) == []
  {
    DropLoses(p);
    WithoutDrops(p, []);
    hide NothingLost;
  }

  lemma OutLosesNothing(p: Past, out: nat, keep: nat)
    ensures NothingLost(p, OutOps(p.state, out))
    ensures var q := After(p, OutOps(p.state, out));
            Buffered(q.state) == [] <==> !ClosingLoses(p.state, out)
  {
    WithoutDrops(p, OutOps(p.state, out));
    if Live(p.state) {
      var k := Least(out, |p.state.active.value.buffer|);
      FlushFollows(p, k, keep);
      FlushKeepsHandle(p.state, k);
    } else {
      NothingIsLawful(p, keep);
    }
    hide NothingLost;
    hide Lawful;
  }

  lemma ClosingLosesExactly(p: Past, out: nat, keep: nat)
    ensures NothingLost(p, OutOps(p.state, out) + DropOps(p.state)) <==> !ClosingLoses(p.state, out)
  {
    OutLosesNothing(p, out, keep);
    OutFollows(p, out, keep);
    var q := After(p, OutOps(p.state, out));
    DropsLose(q);
    NothingLostBoth(p, OutOps(p.state, out), DropOps(p.state));
    hide NothingLost;
    hide OutOps;
    hide ClosingLoses;
    hide Lawful;
    hide After;
  }

  lemma EventLosesExactly(cfg: LogConfig, p: Past, ev: Event)
    requires Holds(p)
    ensures NothingLost(p, Performed(cfg, p, ev)) <==> !LosesAt(cfg, p, ev)
  {
    hide NothingLost;
    hide Holds;
    hide ClosingLoses;
    match ev
    case Log(e, env) =>
      CallLosesExactly(cfg, p, e, env);
      hide WriteStep;
      hide StaleLoses;
      hide RotationLoses;
      hide RefusalLoses;
    case Crash(_, _, _) =>
      var cut := CutOps(cfg, p, ev);
      hide CutOps;
      hide After;
      DropsLose(After(p, cut));
      NothingLostBoth(p, cut, DropOps(After(p, cut).state));
    case Restart(out) => ClosingLosesExactly(p, out, 0);
    case Release(_, out) =>
      ClosingLosesExactly(p, out, 0);
      WithoutDrops(p, []);
    case FlushLog(out) => OutLosesNothing(p, out, 0);
  }

  ghost predicate NeverLoses(cfg: LogConfig, events: seq<Event>) {
    events == [] || (NeverLoses(cfg, events[..|events| - 1])
                     && !LosesAt(cfg, Now(cfg, events[..|events| - 1]), events[|events| - 1]))
  }

  lemma {:induction false} LossesAreEvents(cfg: LogConfig, events: seq<Event>)
    ensures NothingLost(Beginning(), Run(cfg, events)) <==> NeverLoses(cfg, events)
  {
    if events == [] {
    } else {
      hide Run;
      hide Performed;
      hide LosesAt;
      hide NothingLost;
      hide After;
      hide Holds;
      var front, ev := events[..|events| - 1], events[|events| - 1];
      LossesAreEvents(cfg, front);
      RunSplits(cfg, events);
      RunsAreLawful(cfg, front);
      EventLosesExactly(cfg, Now(cfg, front), ev);
      NothingLostBoth(Beginning(), Run(cfg, front), Performed(cfg, Now(cfg, front), ev));
    }
  }

  /** In a run the lines in files, also in those removed since, and then the lines in the buffer are the
      entries of its successful calls, in order, exactly when no event loses lines; otherwise they
      are fewer. */
  lemma RunsConserveExactly(cfg: LogConfig, events: seq<Event>)
    ensures Held(Now(cfg, events)) == Taken(cfg, events) <==> NeverLoses(cfg, events)
    ensures |Held(Now(cfg, events))| <= |Taken(cfg, events)|
  {
    hide Run;
    hide NothingLost;
    hide NeverLoses;
    hide Taken;
    hide Holds;
    hide Lawful;
    hide After;
    RunsAreLawful(cfg, events);
    BeginningHolds();
    ConservedExactly(Beginning(), Run(cfg, events), cfg.keepLastEntries);
    TakenIsAccepted(cfg, events);
    LossesAreEvents(cfg, events);
    assert Held(Beginning()) == [];
    hide Held;
    assert [] + Accepted(Run(cfg, events)) == Accepted(Run(cfg, events));
  }

  // ----- A run that loses an acknowledged line -----

  lemma FirstOpen(f: Files, env: Env, attempt: nat)
    requires f == map[] && EnsureDir(attempt) !in env.fails && CreateFirst(attempt) !in env.fails
    ensures var n := Fresh(1, env.stamp);
            OpenStep(f, env, attempt) == Step(LogState(map[n := []], Some(Active(n, 0, []))), true, [Create(n)])
  {
    assert !HasCurrent(f) && MaxNumber(f) == 0;
    assert f[Fresh(1, env.stamp) := []] == map[Fresh(1, env.stamp) := []];
  }

  lemma FirstPrepared(cfg: LogConfig, env: Env)
    requires env.fails == {}
    ensures var n := Fresh(1, env.stamp);
            PrepareStep(cfg, LogState(map[], None), env)
            == Step(LogState(map[n := []], Some(Active(n, 0, []))), true, [Create(n)])
  {
    FirstOpen(map[], env, 0);
    hide OpenStep;
  }

  lemma CallIs(cfg: LogConfig, s: LogState, e: Entry, env: Env, prepared: Step, line: Step)
    requires PrepareStep(cfg, s, env) == prepared && prepared.ok && Live(prepared.state)
    requires LineStep(prepared.state, e, 0, env) == line && line.ok
    ensures WriteStep(cfg, s, e, env) == Both(prepared, line)
  {
    hide PrepareStep;
    hide LineStep;
  }

  lemma StuckLine(n: LogName, e: Entry, env: Env)
    requires AfterLine(0) in env.stuck && env.stuck[AfterLine(0)] == 0 && FitsIn([], Line(1, e))
    ensures var line := Line(1, e);
            LineStep(LogState(map[n := []], Some(Active(n, 0, []))), e, 0, env)
            == Step(LogState(map[n := []], Some(Active(n, 1, [line]))), true, [Accept(line)])
  {
    hide FitsIn;
    hide IsLong;
    var line := Line(1, e);
    var s := LogState(map[n := []], Some(Active(n, 0, [])));
    var t := LogState(map[n := []], Some(Active(n, 1, [line])));
    assert [] + [line] == [line];
    assert PutStep(s, e, 0, env) == Step(t, true, [Accept(line)]);
    hide PutStep;
    FlushNothing(t);
    hide FlushStep;
    assert [Accept(line)] + [] == [Accept(line)];
  }

  /** On an empty directory, with the write after the line stuck: the call succeeds, and its line is
      in the buffer only. */
  lemma StuckCall(cfg: LogConfig, e: Entry, env: Env)
    requires env.fails == {} && env.stuck == map[AfterLine(0) := 0] && FitsIn([], Line(1, e))
    ensures var n := Fresh(1, env.stamp); var line := Line(1, e);
            WriteStep(cfg, LogState(map[], None), e, env)
            == Step(LogState(map[n := []], Some(Active(n, 1, [line]))), true, [Create(n), Accept(line)])
  {
    hide FitsIn;
    hide PrepareStep;
    hide LineStep;
    hide WriteStep;
    var n, line := Fresh(1, env.stamp), Line(1, e);
    FirstPrepared(cfg, env);
    StuckLine(n, e, env);
    var prepared := PrepareStep(cfg, LogState(map[], None), env);
    CallIs(cfg, LogState(map[], None), e, env, prepared, LineStep(prepared.state, e, 0, env));
    assert [Create(n)] + [Accept(line)] == [Create(n), Accept(line)];
  }

  /** A line shorter than the buffer is taken although the disk is full, and the call succeeds; if the
      process then ends with the disk still full, or is killed, the line is nowhere. */
  lemma AcknowledgedLineLost(cfg: LogConfig, e: Entry, env: Env, ev: Event)
    requires env.fails == {} && env.stuck == map[AfterLine(0) := 0] && FitsIn([], Line(1, e))
    requires ev == Restart(0) || (ev.Crash? && ev.point == 0)
    ensures StepOf(cfg, Beginning(), Log(e, env)).ok
    ensures Taken(cfg, [Log(e, env), ev]) == [e] && Held(Now(cfg, [Log(e, env), ev])) == []
  {
    hide WriteStep;
    hide FitsIn;
    hide Run;
    var n, line, call := Fresh(1, env.stamp), Line(1, e), Log(e, env);
    StuckCall(cfg, e, env);
    RunsFromBeginning(cfg);
    RunOneMore(cfg, [], call);
    Singleton(call);
    Pair(call, ev);
    RunOneMore(cfg, [call], ev);
    var p := Now(cfg, [call]);
    var s := LogState(map[n := []], Some(Active(n, 1, [line])));
    AfterStuckCall(n, line);
    assert p == Past(s, [FileRecord(n, [], false)]);
    TakenOfTwo(cfg, call, ev);
    StuckEnd(cfg, p, ev);
    hide Performed;
    hide Now;
  }

  lemma AfterStuckCall(n: LogName, line: Line)
    ensures After(Beginning(), [Create(n), Accept(line)])
         == Past(LogState(map[n := []], Some(Active(n, 1, [line]))), [FileRecord(n, [], false)])
  {
    var f: Files := map[];
    assert f[n := []] == map[n := []];
    AfterOne(Beginning(), Create(n));
    AfterOneMore(Beginning(), [Create(n)], Accept(line));
    assert [Create(n)] + [Accept(line)] == [Create(n), Accept(line)];
    hide After;
    assert [] + [line] == [line];
  }

  /** The process ends with a line in the buffer and an empty file. */
  lemma StuckEnd(cfg: LogConfig, p: Past, ev: Event)
    requires p.state.active.Some? && p.made == [FileRecord(p.state.active.value.name, [], false)]
    requires ev == Restart(0) || (ev.Crash? && ev.point == 0)
    ensures Held(After(p, Performed(cfg, p, ev))) == [] && Accepted(Performed(cfg, p, ev)) == []
  {
    NothingPerformed(cfg, p, ev);
    hide Performed;
    AfterOne(p, Drop);
    hide After;
    NothingAccepted([Drop]);
    NothingWritten(p.state.active.value.name);
    hide Written;
  }

  lemma NothingPerformed(cfg: LogConfig, p: Past, ev: Event)
    requires p.state.active.Some? && (ev == Restart(0) || (ev.Crash? && ev.point == 0))
    ensures Performed(cfg, p, ev) == [Drop]
  {
    NothingIsLawful(p, 0);
    hide After;
    if ev.Crash? {
      assert StepOf(cfg, p, ev).ops[..0] == [];
      hide StepOf;
    } else {
      assert OutOps(p.state, 0) == [];
    }
  }

  lemma NothingWritten(n: LogName)
    ensures Written([FileRecord(n, [], false)]) == []
  {
    WrittenOfCreate([], n);
    assert [] + [FileRecord(n, [], false)] == [FileRecord(n, [], false)];
    assert AllBlocks([]) == [];
  }

  lemma TakenOneMore(cfg: LogConfig, events: seq<Event>, ev: Event)
    ensures Taken(cfg, events + [ev]) == Taken(cfg, events) + TakenBy(cfg, Now(cfg, events), ev)
  {
    assert (events + [ev])[..|events|] == events;
    hide TakenBy;
    hide Now;
  }

  lemma TakenOfTwo(cfg: LogConfig, a: Event, b: Event)
    ensures Taken(cfg, [a, b]) == TakenBy(cfg, Beginning(), a) + TakenBy(cfg, Now(cfg, [a]), b)
  {
    hide TakenBy;
    hide Run;
    hide Now;
    RunsFromBeginning(cfg);
    TakenOfNone(cfg);
    hide Taken;
    TakenOneMore(cfg, [], a);
    TakenOneMore(cfg, [a], b);
    Singleton(a);
    Pair(a, b);
    assert Taken(cfg, [a]) == TakenBy(cfg, Beginning(), a);
  }

  lemma TakenOfNone(cfg: LogConfig)
    ensures Taken(cfg, []) == []
  {
  }
}
