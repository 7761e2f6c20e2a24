/** The log writer as functions from state to state, one per operation of `logging/writer.rs`,
    each with the operations it performs, in order. */
module LogSteps {
  import opened Wrappers
  import opened LogFormat
  import opened LogDirectory
  import opened LogHistory
  import opened Sequences

  datatype LogConfig = LogConfig(entriesPerFile: nat, keepLastEntries: nat) {
    function Limit(): nat {
      EffectiveEntriesPerFile(entriesPerFile)
    }
  }

  /** The file operations of one call that the system may refuse; `attempt` tells the first
      try from the retry after a failed write. */
  datatype Io =
    | EnsureDir(attempt: nat)
    | Resume(attempt: nat)
    | CreateFirst(attempt: nat)
    | WriteLong(attempt: nat)
    | RenameToArchive
    | CreateNext
    | RollBack
    | Reopen
    | Recount

  /** Where a call writes out its buffer: before it archives the file, before a line that does not fit,
      after its line, and when it gives up the file, in a rotation or after a failed write. */
  datatype FlushAt = BeforeRotation | BeforeLine | AfterLine(attempt: nat) | QuittingRotation | QuittingFile

  /** What the surroundings decide: the clock, the operations that fail, how many prune removals
      succeed before one fails, how many stale files are archived before that fails, which files'
      lines cannot be counted, and how many lines get out where writing out the buffer is `stuck`. */
  datatype Env = Env(stamp: string, fails: set<Io>, removals: nat, archivals: nat, skipped: set<LogName>,
                     stuck: map<FlushAt, nat>)

  /** Outcome of an operation, and what it did. */
  datatype Step = Step(state: LogState, ok: bool, ops: seq<Op>)

  ghost function Both(first: Step, second: Step): Step {
    second.(ops := first.ops + second.ops)
  }

  // ----- The buffer -----

  /** The capacity of a `BufWriter`. */
  const BUFFER_BYTES := 0x2000

  function TextBytes(line: Line): nat {
    |FormatLine(line.index, line.entry)|
  }

  function BufferedBytes(buffer: seq<Line>): nat {
    if buffer == [] then 0 else BufferedBytes(buffer[..|buffer| - 1]) + TextBytes(buffer[|buffer| - 1]) + 1
  }

  /** The line joins the buffer without any input or output. */
  predicate FitsIn(buffer: seq<Line>, line: Line) {
    BufferedBytes(buffer) + TextBytes(line) + 1 <= BUFFER_BYTES
  }

  /** The line is written past the buffer. */
  predicate IsLong(line: Line) {
    TextBytes(line) >= BUFFER_BYTES
  }

  function Least(a: nat, b: nat): (k: nat)
    ensures k <= a && k <= b
  {
    if a < b then a else b
  }

  function Out(env: Env, at: FlushAt, buffer: seq<Line>): (k: nat)
    ensures k <= |buffer|
  {
    if at in env.stuck then Least(env.stuck[at], |buffer|) else |buffer|
  }

  function FlushOps(a: Active, k: nat): seq<Op>
    requires k <= |a.buffer|
  {
    seq(k, i requires 0 <= i < k => Append(a.name, a.buffer[i]))
  }

  /** The first `k` buffered lines get into the file. */
  ghost function FlushStep(s: LogState, k: nat): (step: Step)
    requires Live(s) && k <= |s.active.value.buffer|
    ensures Live(step.state)
  {
    var a := s.active.value;
    Step(LogState(s.files[a.name := s.files[a.name] + a.buffer[..k]], Some(a.(buffer := a.buffer[k..]))), true,
         FlushOps(a, k))
  }

  /** Giving up the open file writes out its buffer once more and loses what does not get out. */
  ghost function QuitStep(s: LogState, at: FlushAt, env: Env): Step
    requires Live(s)
  {
    var flushed := FlushStep(s, Out(env, at, s.active.value.buffer));
    Both(flushed, Step(LogState(flushed.state.files, None), false, [Drop]))
  }

  // ----- open_or_create_active -----

  ghost function OpenStep(f: Files, env: Env, attempt: nat): (step: Step)
    ensures step.ok ==> Live(step.state)
  {
    var failed := Step(LogState(f, None), false, []);
    if EnsureDir(attempt) in env.fails then failed
    else if HasCurrent(f) then
      if Resume(attempt) in env.fails then failed
      else
        var c := CurrentOf(f);
        Step(LogState(f, Some(Active(c, |f[c]|, []))), true, [Open(c, |f[c]|)])
    else if CreateFirst(attempt) in env.fails then failed
    else
      var n := Fresh(MaxNumber(f) + 1, env.stamp);
      Step(LogState(f[n := []], Some(Active(n, 0, []))), true, [Create(n)])
  }

  // ----- prune_old_files -----

  /** Remove the oldest counted file while the counted ones hold more than `keep` lines. */
  ghost function PruneOps(f: Files, skipped: set<LogName>, keep: nat, removals: nat): seq<Op>
    decreases removals
  {
    if CountedLines(f, skipped) <= keep || removals == 0 then []
    else
      var o := OldestCounted(f, skipped);
      [Remove(o, skipped)] + PruneOps(f - {o}, skipped, keep, removals - 1)
  }

  ghost function Pruned(f: Files, skipped: set<LogName>, keep: nat, removals: nat): Files
    decreases removals
  {
    if CountedLines(f, skipped) <= keep || removals == 0 then f
    else Pruned(f - {OldestCounted(f, skipped)}, skipped, keep, removals - 1)
  }

  /** The whole of `prune_old_files`: nothing is removed when the budget is 0. */
  ghost function Prune(cfg: LogConfig, f: Files, env: Env): Step {
    if cfg.keepLastEntries == 0 then Step(LogState(f, None), true, [])
    else
      Step(LogState(Pruned(f, env.skipped, cfg.keepLastEntries, env.removals), None), true,
           PruneOps(f, env.skipped, cfg.keepLastEntries, env.removals))
  }

  // ----- rotate_active -----

  ghost function RotateStep(cfg: LogConfig, s: LogState, env: Env): (step: Step)
    requires Live(s)
    ensures step.ok ==> Live(step.state)
  {
    var a := s.active.value;
    var flushed := FlushStep(s, Out(env, BeforeRotation, a.buffer));
    if Out(env, BeforeRotation, a.buffer) < |a.buffer| then
      Both(flushed, QuitStep(flushed.state, QuittingRotation, env))
    else
      var closed := Both(flushed, Step(LogState(flushed.state.files, None), false, [Drop]));
      if RenameToArchive in env.fails then closed
      else Both(closed, ArchiveStep(cfg, closed.state.files, a, env))
  }

  /** Archive the closed file, prune, and go on with the next one. */
  ghost function ArchiveStep(cfg: LogConfig, f: Files, a: Active, env: Env): (step: Step)
    requires a.name in f
    ensures step.ok ==> Live(step.state)
  {
    var renamed := Step(LogState(Renamed(f, a.name, ArchiveOf(a.name)), None), true,
                        [Rename(a.name, ArchiveOf(a.name))]);
    var pruned := Prune(cfg, renamed.state.files, env);
    Both(renamed, Both(pruned, CreateOrRollBack(pruned.state.files, a, env)))
  }

  /** After a rollback the lines are counted again; if that fails the old count is kept. */
  ghost function CreateOrRollBack(f: Files, a: Active, env: Env): (step: Step)
    ensures step.ok ==> Live(step.state)
  {
    var next := Fresh(a.name.number + 1, env.stamp);
    if CreateNext !in env.fails && next !in f then
      Step(LogState(f[next := []], Some(Active(next, 0, []))), true, [Create(next)])
    else if RollBack in env.fails || ArchiveOf(a.name) !in f then Step(LogState(f, None), false, [])
    else
      var back := Rename(ArchiveOf(a.name), a.name);
      var g := Renamed(f, ArchiveOf(a.name), a.name);
      if Reopen in env.fails then Step(LogState(g, None), false, [back])
      else
        var count := if Recount in env.fails then a.lineIndex else |g[a.name]|;
        Step(LogState(g, Some(Active(a.name, count, []))), true, [back, Open(a.name, count)])
  }

  // ----- write_line_locked -----

  /** `writeln!` on the open file: into the buffer if the line fits; otherwise the buffer is written
      out first, and a long line goes straight to the file. */
  ghost function PutStep(s: LogState, e: Entry, attempt: nat, env: Env): (step: Step)
    requires Live(s)
    ensures Live(step.state)
  {
    var a := s.active.value;
    var line := Line(a.lineIndex + 1, e);
    var k := Out(env, BeforeLine, a.buffer);
    var flushed := FlushStep(s, k);
    if FitsIn(a.buffer, line) then TakeStep(s, line)
    else if k < |a.buffer| then flushed.(ok := false)
    else if !IsLong(line) then Both(flushed, TakeStep(flushed.state, line))
    else if WriteLong(attempt) in env.fails then flushed.(ok := false)
    else
      var taken := TakeStep(flushed.state, line);
      Both(flushed, Both(taken, FlushStep(taken.state, |taken.state.active.value.buffer|)))
  }

  ghost function TakeStep(s: LogState, line: Line): (step: Step)
    requires Live(s)
    ensures Live(step.state)
  {
    Step(Do(s, Accept(line)), true, [Accept(line)])
  }

  /** After the line the buffer is written out, and a failure of that is ignored. */
  ghost function LineStep(s: LogState, e: Entry, attempt: nat, env: Env): (step: Step)
    requires Live(s)
    ensures Live(step.state)
  {
    var put := PutStep(s, e, attempt, env);
    if !put.ok then put
    else Both(put, FlushStep(put.state, Out(env, AfterLine(attempt), put.state.active.value.buffer)))
  }

  /** A stale handle is given up; its buffer goes with it. */
  ghost function ReadyStep(s: LogState, env: Env): (step: Step)
    ensures step.ok ==> Live(step.state)
  {
    if Live(s) then Step(s, true, [])
    else if s.active.Some? then Both(Step(LogState(s.files, None), true, [Drop]), OpenStep(s.files, env, 0))
    else OpenStep(s.files, env, 0)
  }

  /** Steps of a call before the line is written: reopen, then rotate. */
  ghost function PrepareStep(cfg: LogConfig, s: LogState, env: Env): (step: Step)
    ensures step.ok ==> Live(step.state)
  {
    var ready := ReadyStep(s, env);
    if !ready.ok || ready.state.active.value.lineIndex < cfg.Limit() then ready
    else Both(ready, RotateStep(cfg, ready.state, env))
  }

  /** One call. After a failed write the file is given up, reopened and written once more; a second
      failure is the answer, and the open file stays, one line ahead. */
  ghost function WriteStep(cfg: LogConfig, s: LogState, e: Entry, env: Env): Step {
    var prepared := PrepareStep(cfg, s, env);
    if !prepared.ok then prepared
    else Both(prepared, WriteOrRetry(prepared.state, e, env))
  }

  ghost function WriteOrRetry(s: LogState, e: Entry, env: Env): Step
    requires Live(s)
  {
    var first := LineStep(s, e, 0, env);
    if first.ok then first else Both(first, RetryStep(first.state, e, env))
  }

  ghost function RetryStep(s: LogState, e: Entry, env: Env): Step
    requires Live(s)
  {
    var quit := QuitStep(s, QuittingFile, env);
    var again := OpenStep(quit.state.files, env, 1);
    if !again.ok then Both(quit, again) else Both(quit, Both(again, LastStep(again.state, e, env)))
  }

  ghost function LastStep(s: LogState, e: Entry, env: Env): Step
    requires Live(s)
  {
    var second := LineStep(s, e, 1, env);
    if second.ok then second else Both(second, Step(Do(second.state, Miss), false, [Miss]))
  }

  // ----- Every operation of a step is allowed where it happens -----

  /** `step` does only what is allowed, and ends where that leads. */
  ghost predicate Follows(p: Past, step: Step, keep: nat) {
    Lawful(p, step.ops, keep) && After(p, step.ops).state == step.state
  }

  lemma FollowsHolds(p: Past, step: Step, keep: nat)
    requires Holds(p) && Follows(p, step, keep)
    ensures Holds(After(p, step.ops))
  {
    LawfulHolds(p, step.ops, keep);
  }

  lemma NothingFollows(p: Past, step: Step, keep: nat)
    requires step.ops == [] && step.state == p.state
    ensures Follows(p, step, keep)
  {
  }

  lemma OneFollows(p: Past, op: Op, step: Step, keep: nat)
    requires Allowed(p, op, keep) && step.ops == [op] && step.state == Do(p.state, op)
    ensures Follows(p, step, keep)
  {
    LawfulOne(p, op, keep);
    hide Allowed;
    hide Do;
  }

  lemma BothFollow(p: Past, first: Step, second: Step, keep: nat)
    requires Follows(p, first, keep) && Follows(After(p, first.ops), second, keep)
    ensures Follows(p, Both(first, second), keep)
    ensures After(p, Both(first, second).ops) == After(After(p, first.ops), second.ops)
  {
    hide Lawful;
    hide After;
    LawfulBoth(p, first.ops, second.ops, keep);
  }

  lemma FlushOneMore(s: LogState, k: nat)
    requires Live(s) && k < |s.active.value.buffer|
    ensures var a := s.active.value; var t := FlushStep(s, k).state;
            && Live(t) && t.active.value.name == a.name && t.active.value.buffer != []
            && t.active.value.buffer[0] == a.buffer[k]
            && Do(t, Append(a.name, a.buffer[k])) == FlushStep(s, k + 1).state
            && FlushStep(s, k + 1)
               == Both(FlushStep(s, k), Step(FlushStep(s, k + 1).state, true, [Append(a.name, a.buffer[k])]))
  {
    var a := s.active.value;
    assert a.buffer[k..][1..] == a.buffer[k + 1..];
    assert a.buffer[..k + 1] == a.buffer[..k] + [a.buffer[k]];
    assert s.files[a.name] + a.buffer[..k + 1] == (s.files[a.name] + a.buffer[..k]) + [a.buffer[k]];
  }

  lemma FlushNothing(s: LogState)
    requires Live(s)
    ensures FlushStep(s, 0) == Step(s, true, [])
  {
    var a := s.active.value;
    assert a.buffer[0..] == a.buffer && a.buffer[..0] == [] && s.files[a.name] + [] == s.files[a.name];
    assert s.files[a.name := s.files[a.name]] == s.files;
  }

  lemma AppendFollows(q: Past, keep: nat)
    requires Live(q.state) && q.state.active.value.buffer != []
    ensures var op := Append(q.state.active.value.name, q.state.active.value.buffer[0]);
            Follows(q, Step(Do(q.state, op), true, [op]), keep)
  {
    var op := Append(q.state.active.value.name, q.state.active.value.buffer[0]);
    OneFollows(q, op, Step(Do(q.state, op), true, [op]), keep);
  }

  lemma FlushOneMoreFollows(p: Past, k: nat, keep: nat)
    requires Live(p.state) && k < |p.state.active.value.buffer| && Follows(p, FlushStep(p.state, k), keep)
    ensures Follows(p, FlushStep(p.state, k + 1), keep)
  {
    hide FlushStep;
    hide Do;
    hide Lawful;
    hide After;
    var front := FlushStep(p.state, k);
    var q := After(p, front.ops);
    FlushOneMore(p.state, k);
    AppendFollows(q, keep);
    var op := Append(p.state.active.value.name, p.state.active.value.buffer[k]);
    BothFollow(p, front, Step(Do(q.state, op), true, [op]), keep);
  }

  lemma FlushNothingFollows(p: Past, keep: nat)
    requires Live(p.state)
    ensures Follows(p, FlushStep(p.state, 0), keep)
  {
    FlushNothing(p.state);
    NothingFollows(p, FlushStep(p.state, 0), keep);
  }

  lemma {:induction false} FlushFollows(p: Past, k: nat, keep: nat)
    requires Live(p.state) && k <= |p.state.active.value.buffer|
    ensures Follows(p, FlushStep(p.state, k), keep)
  {
    hide FlushStep;
    hide Follows;
    if k == 0 {
      FlushNothingFollows(p, keep);
    } else {
      FlushFollows(p, k - 1, keep);
      FlushOneMoreFollows(p, k - 1, keep);
    }
  }

  lemma DropFollows(p: Past, keep: nat)
    requires p.state.active.Some?
    ensures Follows(p, Step(LogState(p.state.files, None), false, [Drop]), keep)
    ensures Follows(p, Step(LogState(p.state.files, None), true, [Drop]), keep)
  {
    OneFollows(p, Drop, Step(LogState(p.state.files, None), false, [Drop]), keep);
  }

  lemma QuitFollows(p: Past, at: FlushAt, env: Env, keep: nat)
    requires Live(p.state)
    ensures Follows(p, QuitStep(p.state, at, env), keep)
  {
    var k := Out(env, at, p.state.active.value.buffer);
    var flushed := FlushStep(p.state, k);
    FlushFollows(p, k, keep);
    var q := After(p, flushed.ops);
    assert q.state == flushed.state;
    DropFollows(q, keep);
    hide Follows;
    hide FlushStep;
    BothFollow(p, flushed, Step(LogState(flushed.state.files, None), false, [Drop]), keep);
  }

  lemma OpenFollows(p: Past, env: Env, attempt: nat, keep: nat)
    requires Holds(p) && p.state.active.None?
    ensures Follows(p, OpenStep(p.state.files, env, attempt), keep)
  {
    NewestNumber(p.state.files, p.made);
    var step := OpenStep(p.state.files, env, attempt);
    if step.ops == [] {
      NothingFollows(p, step, keep);
    } else {
      assert HasCurrent(p.state.files) ==> p.made != [] && !NewestGone(p.made);
      hide FilesHold;
      hide MaxNumber;
      OneFollows(p, step.ops[0], step, keep);
    }
    hide Follows;
  }

  /** The newest file is archived, and the next one not yet created. */
  ghost predicate Between(p: Past, n: LogName) {
    && Holds(p) && p.state.active.None? && !HasCurrent(p.state.files)
    && n.current && p.made != [] && p.made[|p.made| - 1].name == n
  }

  lemma ArchivingFollows(p: Past, a: LogName, keep: nat)
    requires Holds(p) && p.state.active.None? && a in p.state.files && a.current
    ensures var rename := Rename(a, ArchiveOf(a));
            var step := Step(LogState(Renamed(p.state.files, a, ArchiveOf(a)), None), true, [rename]);
            Follows(p, step, keep) && Between(After(p, [rename]), a)
    ensures ArchiveOf(a) !in p.state.files
  {
    hide Known;
    hide Present;
    hide Ascending;
    hide CurrentIsLast;
    hide Archived;
    var rename := Rename(a, ArchiveOf(a));
    var step := Step(LogState(Renamed(p.state.files, a, ArchiveOf(a)), None), true, [rename]);
    CurrentHasLastRecord(p.state.files, p.made, a);
    CurrentIsAlone(p.state.files, p.made, a);
    RenamePresent(p.state.files, p.made, a, ArchiveOf(a));
    assert Allowed(p, rename, keep) && p.made[|p.made| - 1].name == a;
    hide Holds;
    hide Allowed;
    OneFollows(p, rename, step, keep);
    OpHolds(p, rename, keep);
    AfterOne(p, rename);
    hide Follows;
    hide After;
  }

  lemma PruneFollows(p: Past, n: LogName, skipped: set<LogName>, keep: nat, removals: nat)
    requires Between(p, n) && keep > 0
    ensures var ops := PruneOps(p.state.files, skipped, keep, removals);
            && Lawful(p, ops, keep) && Between(After(p, ops), n)
            && After(p, ops).state.files == Pruned(p.state.files, skipped, keep, removals)
    decreases removals
  {
    hide Holds;
    var f := p.state.files;
    if CountedLines(f, skipped) > keep && removals > 0 {
      SomethingIsCounted(f, skipped, keep);
      var o := OldestCounted(f, skipped);
      var op := Remove(o, skipped);
      assert Allowed(p, op, keep);
      OpHolds(p, op, keep);
      LawfulOne(p, op, keep);
      hide CountedLines;
      hide Counted;
      var q := Then(p, op);
      assert q.state.files == f - {o};
      PruneFollows(q, n, skipped, keep, removals - 1);
      LawfulBoth(p, [op], PruneOps(q.state.files, skipped, keep, removals - 1), keep);
    }
  }

  lemma {:induction false} PrunedKeeps(f: Files, skipped: set<LogName>, keep: nat, removals: nat)
    ensures var g := Pruned(f, skipped, keep, removals); forall n :: n in g ==> n in f && g[n] == f[n]
    decreases removals
  {
    if CountedLines(f, skipped) > keep && removals > 0 {
      SomethingIsCounted(f, skipped, keep);
      PrunedKeeps(f - {OldestCounted(f, skipped)}, skipped, keep, removals - 1);
      hide CountedLines;
    }
  }

  lemma NewestArchiveIsThere(p: Past, n: LogName)
    requires Between(p, n) && ArchiveOf(n) in p.state.files
    ensures !NewestGone(p.made)
  {
    var i :| IsRecordOf(p.made, i, p.state.files, ArchiveOf(n));
  }

  lemma RollBackFollows(p: Past, a: Active, count: nat, keep: nat)
    requires Between(p, a.name) && ArchiveOf(a.name) in p.state.files
    requires |p.state.files[ArchiveOf(a.name)]| <= count
    ensures var back := Rename(ArchiveOf(a.name), a.name);
            var g := Renamed(p.state.files, ArchiveOf(a.name), a.name);
            && Follows(p, Step(LogState(g, None), false, [back]), keep)
            && Follows(p, Step(LogState(g, Some(Active(a.name, count, []))), true, [back, Open(a.name, count)]), keep)
  {
    var f := p.state.files;
    var archived := ArchiveOf(a.name);
    var back, reopen := Rename(archived, a.name), Open(a.name, count);
    var g := Renamed(f, archived, a.name);
    NewestArchiveIsThere(p, a.name);
    hide Holds;
    var renamed := Step(LogState(g, None), false, [back]);
    OneFollows(p, back, renamed, keep);
    var q := After(p, [back]);
    assert q.state == renamed.state && g[a.name] == f[archived];
    var reopened := Step(LogState(g, Some(Active(a.name, count, []))), true, [reopen]);
    OneFollows(q, reopen, reopened, keep);
    hide Follows;
    hide After;
    BothFollow(p, renamed, reopened, keep);
    assert [back] + [reopen] == [back, reopen];
  }

  lemma CreateFollows(p: Past, a: Active, env: Env, keep: nat)
    requires Between(p, a.name)
    requires ArchiveOf(a.name) in p.state.files ==> |p.state.files[ArchiveOf(a.name)]| <= a.lineIndex
    ensures Follows(p, CreateOrRollBack(p.state.files, a, env), keep)
  {
    var f := p.state.files;
    var step := CreateOrRollBack(f, a, env);
    var next := Fresh(a.name.number + 1, env.stamp);
    if step.ops == [] {
      NothingFollows(p, step, keep);
    } else if CreateNext !in env.fails && next !in f {
      hide Holds;
      OneFollows(p, Create(next), step, keep);
    } else {
      RollBackFollows(p, a, if step.ok then step.state.active.value.lineIndex else a.lineIndex, keep);
      hide Between;
    }
    hide Follows;
  }

  lemma ArchiveFollows(cfg: LogConfig, p: Past, a: Active, env: Env)
    requires Holds(p) && p.state.active.None? && a.name in p.state.files && a.name.current
    requires |p.state.files[a.name]| <= a.lineIndex
    ensures Follows(p, ArchiveStep(cfg, p.state.files, a, env), cfg.keepLastEntries)
  {
    var f, keep := p.state.files, cfg.keepLastEntries;
    var archived := ArchiveOf(a.name);
    var renamed := Step(LogState(Renamed(f, a.name, archived), None), true, [Rename(a.name, archived)]);
    ArchivingFollows(p, a.name, keep);
    var q := After(p, renamed.ops);
    assert q.state == renamed.state && q.state.files[archived] == f[a.name];
    var pruned := Prune(cfg, q.state.files, env);
    PruningFollows(cfg, q, a.name, env);
    hide Holds;
    var r := After(q, pruned.ops);
    var created := CreateOrRollBack(r.state.files, a, env);
    CreateFollows(r, a, env, keep);
    hide Between;
    hide Follows;
    hide CreateOrRollBack;
    hide Prune;
    hide After;
    BothFollow(q, pruned, created, keep);
    BothFollow(p, renamed, Both(pruned, created), keep);
  }

  lemma PruningFollows(cfg: LogConfig, q: Past, n: LogName, env: Env)
    requires Between(q, n)
    ensures var pruned := Prune(cfg, q.state.files, env);
            && Follows(q, pruned, cfg.keepLastEntries) && Between(After(q, pruned.ops), n)
            && After(q, pruned.ops).state == pruned.state
            && forall m :: m in pruned.state.files ==> m in q.state.files && pruned.state.files[m] == q.state.files[m]
  {
    var keep := cfg.keepLastEntries;
    if keep > 0 {
      PruneFollows(q, n, env.skipped, keep, env.removals);
      PrunedKeeps(q.state.files, env.skipped, keep, env.removals);
    } else {
      NothingIsLawful(q, keep);
    }
    hide Holds;
    hide Lawful;
    hide PruneOps;
    hide Pruned;
  }

  lemma RotateFollows(cfg: LogConfig, p: Past, env: Env)
    requires Holds(p) && Live(p.state)
    ensures Follows(p, RotateStep(cfg, p.state, env), cfg.keepLastEntries)
  {
    var s, keep := p.state, cfg.keepLastEntries;
    var a := s.active.value;
    var k := Out(env, BeforeRotation, a.buffer);
    var flushed := FlushStep(s, k);
    FlushFollows(p, k, keep);
    var q := After(p, flushed.ops);
    if k < |a.buffer| {
      QuitFollows(q, QuittingRotation, env, keep);
      hide Follows;
      hide QuitStep;
      BothFollow(p, flushed, QuitStep(flushed.state, QuittingRotation, env), keep);
    } else {
      FollowsHolds(p, flushed, keep);
      DropFollows(q, keep);
      var drop := Step(LogState(flushed.state.files, None), false, [Drop]);
      BothFollow(p, flushed, drop, keep);
      var closed := Both(flushed, drop);
      var r := After(p, closed.ops);
      FollowsHolds(p, closed, keep);
      if RenameToArchive !in env.fails {
        assert |r.state.files[a.name]| <= a.lineIndex;
        ArchiveFollows(cfg, r, a, env);
        hide ArchiveStep;
        BothFollow(p, closed, ArchiveStep(cfg, closed.state.files, a, env), keep);
      }
      hide FilesHold;
      hide Follows;
    }
  }

  lemma ReadyFollows(p: Past, env: Env, keep: nat)
    requires Holds(p)
    ensures Follows(p, ReadyStep(p.state, env), keep)
  {
    var s := p.state;
    if Live(s) {
      NothingFollows(p, ReadyStep(s, env), keep);
    } else if s.active.Some? {
      var drop := Step(LogState(s.files, None), true, [Drop]);
      DropFollows(p, keep);
      FollowsHolds(p, drop, keep);
      OpenFollows(After(p, drop.ops), env, 0, keep);
      hide OpenStep;
      BothFollow(p, drop, OpenStep(s.files, env, 0), keep);
    } else {
      OpenFollows(p, env, 0, keep);
    }
    hide Holds;
    hide Follows;
    hide OpenStep;
  }

  lemma PrepareFollows(cfg: LogConfig, p: Past, env: Env)
    requires Holds(p)
    ensures Follows(p, PrepareStep(cfg, p.state, env), cfg.keepLastEntries)
  {
    var keep := cfg.keepLastEntries;
    var ready := ReadyStep(p.state, env);
    ReadyFollows(p, env, keep);
    if ready.ok && ready.state.active.value.lineIndex >= cfg.Limit() {
      FollowsHolds(p, ready, keep);
      RotateFollows(cfg, After(p, ready.ops), env);
      hide RotateStep;
      BothFollow(p, ready, RotateStep(cfg, ready.state, env), keep);
    }
    hide ReadyStep;
    hide Holds;
  }

  lemma TakeFollows(p: Past, line: Line, keep: nat)
    requires Live(p.state) && line.index == p.state.active.value.lineIndex + 1
    ensures Follows(p, TakeStep(p.state, line), keep)
  {
    OneFollows(p, Accept(line), TakeStep(p.state, line), keep);
  }

  lemma LongFollows(p: Past, line: Line, keep: nat)
    requires Live(p.state) && line.index == p.state.active.value.lineIndex + 1
    ensures var taken := TakeStep(p.state, line);
            Follows(p, Both(taken, FlushStep(taken.state, |taken.state.active.value.buffer|)), keep)
  {
    var taken := TakeStep(p.state, line);
    TakeFollows(p, line, keep);
    var k := |taken.state.active.value.buffer|;
    FlushFollows(After(p, taken.ops), k, keep);
    hide FlushStep;
    hide TakeStep;
    BothFollow(p, taken, FlushStep(taken.state, k), keep);
  }

  lemma FlushKeepsHandle(s: LogState, k: nat)
    requires Live(s) && k <= |s.active.value.buffer|
    ensures var a, b := s.active.value, FlushStep(s, k).state.active.value;
            b.name == a.name && b.lineIndex == a.lineIndex && b.buffer == a.buffer[k..]
  {
  }

  lemma PutFollows(p: Past, e: Entry, attempt: nat, env: Env, keep: nat)
    requires Live(p.state)
    ensures Follows(p, PutStep(p.state, e, attempt, env), keep)
  {
    hide FlushStep;
    hide TakeStep;
    hide Lawful;
    hide After;
    hide FitsIn;
    hide IsLong;
    var s, a := p.state, p.state.active.value;
    var line := Line(a.lineIndex + 1, e);
    var k := Out(env, BeforeLine, a.buffer);
    var flushed := FlushStep(s, k);
    FlushKeepsHandle(s, k);
    FlushFollows(p, k, keep);
    var q := After(p, flushed.ops);
    if FitsIn(a.buffer, line) {
      TakeFollows(p, line, keep);
    } else if !IsLong(line) {
      TakeFollows(q, line, keep);
      BothFollow(p, flushed, TakeStep(flushed.state, line), keep);
    } else {
      LongFollows(q, line, keep);
      var taken := TakeStep(flushed.state, line);
      BothFollow(p, flushed, Both(taken, FlushStep(taken.state, |taken.state.active.value.buffer|)), keep);
    }
  }

  lemma LineFollows(p: Past, e: Entry, attempt: nat, env: Env, keep: nat)
    requires Live(p.state)
    ensures Follows(p, LineStep(p.state, e, attempt, env), keep)
  {
    var put := PutStep(p.state, e, attempt, env);
    PutFollows(p, e, attempt, env, keep);
    if put.ok {
      var k := Out(env, AfterLine(attempt), put.state.active.value.buffer);
      FlushFollows(After(p, put.ops), k, keep);
      hide FlushStep;
      BothFollow(p, put, FlushStep(put.state, k), keep);
    }
    hide PutStep;
    hide Follows;
  }

  lemma FailedLineIsEmpty(s: LogState, e: Entry, attempt: nat, env: Env)
    requires Live(s) && s.active.value.buffer == [] && !LineStep(s, e, attempt, env).ok
    ensures LineStep(s, e, attempt, env) == Step(s, false, []) && IsLong(Line(s.active.value.lineIndex + 1, e))
  {
    FlushNothing(s);
  }

  lemma LastFollows(p: Past, e: Entry, env: Env, keep: nat)
    requires Live(p.state) && p.state.active.value.buffer == []
    ensures Follows(p, LastStep(p.state, e, env), keep)
  {
    var second := LineStep(p.state, e, 1, env);
    LineFollows(p, e, 1, env, keep);
    if !second.ok {
      FailedLineIsEmpty(p.state, e, 1, env);
      var q := After(p, second.ops);
      assert q.state == p.state;
      var miss := Step(Do(q.state, Miss), false, [Miss]);
      OneFollows(q, Miss, miss, keep);
      BothFollow(p, second, miss, keep);
    }
    hide LineStep;
    hide Follows;
  }

  lemma RetryFollows(p: Past, e: Entry, env: Env, keep: nat)
    requires Holds(p) && Live(p.state)
    ensures Follows(p, RetryStep(p.state, e, env), keep)
  {
    var quit := QuitStep(p.state, QuittingFile, env);
    QuitFollows(p, QuittingFile, env, keep);
    FollowsHolds(p, quit, keep);
    var q := After(p, quit.ops);
    var again := OpenStep(q.state.files, env, 1);
    assert q.state == quit.state && q.state.active.None?;
    hide QuitStep;
    OpenFollows(q, env, 1, keep);
    assert again.ok ==> again.state.active.value.buffer == [];
    hide OpenStep;
    hide Holds;
    BothFollow(p, quit, again, keep);
    if again.ok {
      LastFollows(After(q, again.ops), e, env, keep);
      hide LastStep;
      hide Lawful;
      hide After;
      BothFollow(q, again, LastStep(again.state, e, env), keep);
      BothFollow(p, quit, Both(again, LastStep(again.state, e, env)), keep);
    }
  }

  lemma WriteOrRetryFollows(p: Past, e: Entry, env: Env, keep: nat)
    requires Holds(p) && Live(p.state)
    ensures Follows(p, WriteOrRetry(p.state, e, env), keep)
  {
    var first := LineStep(p.state, e, 0, env);
    LineFollows(p, e, 0, env, keep);
    if !first.ok {
      FollowsHolds(p, first, keep);
      RetryFollows(After(p, first.ops), e, env, keep);
      hide RetryStep;
      BothFollow(p, first, RetryStep(first.state, e, env), keep);
    }
    hide LineStep;
    hide Holds;
  }

  /** One call from any state the logger can be in, whatever fails: it does only what is allowed, and
      ends where that leads. */
  lemma WriteFollows(cfg: LogConfig, p: Past, e: Entry, env: Env)
    requires Holds(p)
    ensures Follows(p, WriteStep(cfg, p.state, e, env), cfg.keepLastEntries)
  {
    var keep := cfg.keepLastEntries;
    var prepared := PrepareStep(cfg, p.state, env);
    PrepareFollows(cfg, p, env);
    if prepared.ok {
      FollowsHolds(p, prepared, keep);
      WriteOrRetryFollows(After(p, prepared.ops), e, env, keep);
      hide WriteOrRetry;
      BothFollow(p, prepared, WriteOrRetry(prepared.state, e, env), keep);
    }
    hide PrepareStep;
    hide Holds;
  }
}
