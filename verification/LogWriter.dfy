/** The logger object of `logging/writer.rs`: its methods change the directory and the open file
    in place, and each does exactly what the step function of LogSteps says. */
module LogWriter {
  import opened Wrappers
  import opened LogFormat
  import opened LogDirectory
  import opened LogHistory
  import opened LogSteps
  import opened Sequences

  ghost predicate InNumberOrder(s: seq<LogName>) {
    forall i, j :: 0 <= i < j < |s| ==> s[i].number < s[j].number
  }

  ghost predicate Lists(s: seq<LogName>, f: Files) {
    InNumberOrder(s) && forall n :: n in f <==> n in s
  }

  /** `sort_by_key` on the file number, as an insertion sort. */
  function Insert(n: LogName, s: seq<LogName>): (r: seq<LogName>)
    ensures forall m :: m in r <==> m == n || m in s
    ensures InNumberOrder(s) && (forall m :: m in s ==> m.number != n.number) ==> InNumberOrder(r)
  {
    if s == [] then [n]
    else if n.number < s[0].number then [n] + s
    else
      var rest := Insert(n, s[1..]);
      assert s == [s[0]] + s[1..];
      assert InNumberOrder(s) ==> forall m :: m in s[1..] ==> s[0].number < m.number;
      [s[0]] + rest
  }

  function LineSum(s: seq<LogName>, f: Files): nat
    requires forall n :: n in s ==> n in f
  {
    if s == [] then 0 else |f[s[0]]| + LineSum(s[1..], f)
  }

  lemma OldestOfListing(s: seq<LogName>, f: Files, skipped: set<LogName>)
    requires s != [] && Lists(s, Counted(f, skipped))
    ensures Counted(f, skipped) != map[] && OldestCounted(f, skipped) == s[0]
    ensures Lists(s[1..], Counted(f - {s[0]}, skipped))
    ensures CountedLines(f, skipped) == |f[s[0]]| + CountedLines(f - {s[0]}, skipped)
  {
    var n := s[0];
    HeadIsCounted(s, f, skipped);
    OldestIsHead(s, Counted(f, skipped));
    assert Counted(f - {n}, skipped) == Counted(f, skipped) - {n};
    TotalWithoutOldest(Counted(f, skipped), n);
    RestOfListing(s, Counted(f, skipped));
    hide TotalLines;
    hide Lists;
    hide Counted;
  }

  lemma HeadIsCounted(s: seq<LogName>, f: Files, skipped: set<LogName>)
    requires s != [] && Lists(s, Counted(f, skipped))
    ensures s[0] in Counted(f, skipped) && s[0] in f && !s[0].current && f[s[0]] == Counted(f, skipped)[s[0]]
  {
    assert s[0] in s;
  }

  lemma TotalWithoutOldest(a: Files, n: LogName)
    requires n in a && Oldest(a) == n
    ensures TotalLines(a) == |a[n]| + TotalLines(a - {n})
  {
  }

  lemma RestOfListing(s: seq<LogName>, a: Files)
    requires s != [] && Lists(s, a)
    ensures Lists(s[1..], a - {s[0]})
  {
    assert s == [s[0]] + s[1..];
  }

  lemma OldestIsHead(s: seq<LogName>, a: Files)
    requires s != [] && Lists(s, a) && a != map[]
    ensures Oldest(a) == s[0]
  {
    var o := Oldest(a);
    assert o in s && s[0] in a;
    var i :| 0 <= i < |s| && s[i] == o;
  }

  lemma EmptyListing(f: Files, skipped: set<LogName>)
    requires Lists([], Counted(f, skipped))
    ensures CountedLines(f, skipped) == 0
  {
    assert Counted(f, skipped) == map[];
  }

  lemma {:induction false} SumOfListing(s: seq<LogName>, f: Files, skipped: set<LogName>)
    requires Lists(s, Counted(f, skipped))
    ensures (forall n :: n in s ==> n in f) && LineSum(s, f) == CountedLines(f, skipped)
  {
    if s == [] {
      EmptyListing(f, skipped);
    } else {
      OldestOfListing(s, f, skipped);
      SumOfListing(s[1..], f - {s[0]}, skipped);
      hide CountedLines;
      SumIgnoresOthers(s[1..], f, s[0]);
    }
  }

  lemma {:induction false} SumIgnoresOthers(s: seq<LogName>, f: Files, n: LogName)
    requires (forall m :: m in s ==> m in f) && n !in s
    ensures LineSum(s, f) == LineSum(s, f - {n})
  {
    if s != [] {
      SumIgnoresOthers(s[1..], f, n);
    }
  }

  lemma OnlyCandidate(f: Files, candidates: seq<LogName>)
    requires WellKept(f) && candidates != [] && InNumberOrder(candidates)
    requires forall n :: n in candidates <==> n in f && n.current
    ensures HasCurrent(f) && candidates == [CurrentOf(f)]
  {
    assert candidates[0] in f;
    var c := CurrentOf(f);
    assert c in candidates;
    forall i | 0 <= i < |candidates| ensures candidates[i] == c {
      assert candidates[i] in f;
    }
    assert |candidates| > 1 ==> candidates[0].number < candidates[1].number;
  }

  /** The current files are the candidates from the `k`-th on, and archiving that one leaves the others. */
  lemma NextStale(f: Files, candidates: seq<LogName>, k: nat)
    requires Distinct(f) && InNumberOrder(candidates) && k < |candidates|
    requires forall n :: n in f && n.current <==> n in candidates[k..]
    ensures candidates[k] in f
    ensures var g := Renamed(f, candidates[k], ArchiveOf(candidates[k]));
            && Distinct(g) && ByNumber(g) == ByNumber(f)
            && forall n :: n in g && n.current <==> n in candidates[k + 1..]
  {
    hide ByNumber;
    var n := candidates[k];
    assert candidates[k..] == [n] + candidates[k + 1..];
    assert n in candidates[k..];
    RenameKeepsNumbers(f, n, ArchiveOf(n));
    hide Distinct;
    assert n !in candidates[k + 1..];
  }

  lemma PruneContinues(s: seq<LogName>, f: Files, skipped: set<LogName>, keep: nat, removals: nat)
    requires s != [] && Lists(s, Counted(f, skipped)) && CountedLines(f, skipped) > keep && removals > 0
    ensures var g := f - {s[0]};
            && PruneOps(f, skipped, keep, removals)
               == [Remove(s[0], skipped)] + PruneOps(g, skipped, keep, removals - 1)
            && Pruned(f, skipped, keep, removals) == Pruned(g, skipped, keep, removals - 1)
  {
    OldestOfListing(s, f, skipped);
    hide CountedLines;
  }

  lemma PruneEnds(f: Files, skipped: set<LogName>, keep: nat, removals: nat)
    requires CountedLines(f, skipped) <= keep || removals == 0
    ensures PruneOps(f, skipped, keep, removals) == [] && Pruned(f, skipped, keep, removals) == f
  {
  }

  lemma MaxNumberIs(f: Files, max: nat)
    requires forall n :: n in f ==> n.number <= max
    requires max == 0 || exists n :: n in f && n.number == max
    ensures MaxNumber(f) == max
  {
  }

  lemma HeldIsWellKept(f: Files, h: History)
    requires FilesHold(f, h)
    ensures WellKept(f)
  {
    forall m, n | m in f && n in f && m.number == n.number ensures m == n {
      var i :| IsRecordOf(h, i, f, m);
      var j :| IsRecordOf(h, j, f, n);
      OneForm(f, h, m, n);
    }
    forall c, n | c in f && c.current && n in f ensures n.number <= c.number {
      FilesAreEarlier(f, h, n);
    }
    hide Present;
  }

  class Logger {
    const config: LogConfig
    var files: Files
    var active: Option<Active>
    /** Every file operation performed so far. */
    ghost var ops: seq<Op>

    constructor (config: LogConfig, files: Files)
      ensures this.config == config && this.files == files && active == None && ops == []
    {
      this.config := config;
      this.files := files;
      active := None;
      ops := [];
    }

    ghost function State(): LogState
      reads this
    {
      LogState(files, active)
    }

    ghost predicate Did(before: seq<Op>, step: Step, ok: bool)
      reads this
    {
      State() == step.state && ok == step.ok && ops == before + step.ops
    }

    /** `read_dir`: the names in whatever order the file system gives them. */
    method ReadDir() returns (names: seq<LogName>)
      ensures forall n :: n in names <==> n in files
    {
      names := [];
      var left := files.Keys;
      while left != {}
        invariant forall n :: n in files <==> n in names || n in left
        decreases |left|
      {
        var n :| n in left;
        names := names + [n];
        left := left - {n};
      }
    }

    /** The names that are current, or that are not, sorted by number, without those to be skipped. */
    method Sorted(names: seq<LogName>, current: bool, skipped: set<LogName>) returns (s: seq<LogName>)
      requires forall m, n :: m in names && n in names && m.number == n.number ==> m == n
      ensures InNumberOrder(s) && forall n :: n in s <==> n in names && n.current == current && n !in skipped
    {
      s := [];
      var k := 0;
      while k < |names|
        invariant 0 <= k <= |names|
        invariant InNumberOrder(s)
        invariant forall n :: n in s <==> n in names[..k] && n.current == current && n !in skipped
      {
        assert names[..k + 1] == names[..k] + [names[k]];
        if names[k].current == current && names[k] !in skipped && names[k] !in s {
          s := Insert(names[k], s);
        }
        k := k + 1;
      }
      assert names[..k] == names;
    }

    method NextSequenceNumber() returns (next: nat)
      ensures next == MaxNumber(files) + 1
    {
      var names := ReadDir();
      var max := 0;
      var k := 0;
      while k < |names|
        invariant 0 <= k <= |names|
        invariant forall n :: n in names[..k] ==> n.number <= max
        invariant max == 0 || exists n :: n in names[..k] && n.number == max
      {
        assert names[..k + 1] == names[..k] + [names[k]];
        if names[k].number > max {
          max := names[k].number;
        }
        k := k + 1;
      }
      assert names[..k] == names;
      MaxNumberIs(files, max);
      next := max + 1;
    }

    /** Resume the `current-*` file with the highest number and archive the others: whatever a
        crash left behind, and however far the archiving gets, nothing is lost, and after a success
        only the resumed file is current. */
    method TryResumeCurrent(env: Env, attempt: nat) returns (ok: bool, resumed: Option<Active>)
      requires Distinct(files)
      modifies this`files, this`ops
      ensures Distinct(files) && ByNumber(files) == ByNumber(old(files))
      ensures ok && resumed.None? <==> !HasCurrent(old(files))
      ensures resumed.None? && ok ==> files == old(files) && ops == old(ops)
      ensures ok && resumed.Some? ==>
        && resumed.value.name in files && resumed.value.name.current
        && resumed.value.lineIndex == |files[resumed.value.name]| && resumed.value.buffer == []
        && (forall n :: n in files && n.current ==> n == resumed.value.name)
        && (forall n :: n in old(files) && n.current ==> n.number <= resumed.value.name.number)
      ensures WellKept(old(files)) && HasCurrent(old(files)) ==>
        && files == old(files) && ops == old(ops) && ok == (Resume(attempt) !in env.fails)
        && (ok ==> resumed == Some(Active(CurrentOf(files), |files[CurrentOf(files)]|, [])))
    {
      var names := ReadDir();
      var candidates := Sorted(names, true, {});
      if candidates == [] {
        return true, None;
      }
      if WellKept(files) {
        OnlyCandidate(files, candidates);
      }
      hide ByNumber;
      hide WellKept;
      hide Distinct;
      assert candidates[0] in files;
      var top := candidates[|candidates| - 1];
      ok := ArchiveStale(candidates, env.archivals);
      if !ok || Resume(attempt) in env.fails {
        return false, None;
      }
      assert top in files;
      return true, Some(Active(top, |files[top]|, []));
    }

    /** Archive every current file but the last of the sorted candidates, at most `archivals` of
        them before a rename fails. */
    method ArchiveStale(candidates: seq<LogName>, archivals: nat) returns (ok: bool)
      requires Distinct(files) && candidates != [] && InNumberOrder(candidates)
      requires forall n :: n in candidates <==> n in files && n.current
      modifies this`files, this`ops
      ensures Distinct(files) && ByNumber(files) == ByNumber(old(files))
      ensures ok == (archivals >= |candidates| - 1)
      ensures var k := if ok then |candidates| - 1 else archivals;
              forall n :: n in files && n.current <==> n in candidates[k..]
      ensures ok ==> forall n :: n in files && n.current <==> n == candidates[|candidates| - 1]
      ensures |candidates| == 1 ==> files == old(files) && ops == old(ops)
    {
      hide ByNumber;
      hide Distinct;
      var k := 0;
      while k < |candidates| - 1 && k < archivals
        invariant 0 <= k <= |candidates| - 1 && k <= archivals
        invariant Distinct(files) && ByNumber(files) == ByNumber(old(files))
        invariant forall n :: n in files && n.current <==> n in candidates[k..]
        invariant k == 0 ==> files == old(files) && ops == old(ops)
      {
        var n := candidates[k];
        NextStale(files, candidates, k);
        files := Renamed(files, n, ArchiveOf(n));
        ops := ops + [Rename(n, ArchiveOf(n))];
        k := k + 1;
      }
      ok := k == |candidates| - 1;
      assert ok ==> candidates[k..] == [candidates[k]];
    }

    method CreateActiveFile(number: nat, stamp: string, refused: bool) returns (ok: bool)
      modifies this
      ensures var n := Fresh(number, stamp);
        if refused || n in old(files) then !ok && files == old(files) && active == old(active) && ops == old(ops)
        else ok && files == old(files)[n := []] && active == Some(Active(n, 0, [])) && ops == old(ops) + [Create(n)]
    {
      var n := Fresh(number, stamp);
      if refused || n in files {
        return false;
      }
      files := files[n := []];
      ops := ops + [Create(n)];
      active := Some(Active(n, 0, []));
      return true;
    }

    method OpenOrCreateActive(env: Env, attempt: nat) returns (ok: bool)
      requires WellKept(files) && active == None
      modifies this
      ensures Did(old(ops), OpenStep(old(files), env, attempt), ok)
    {
      if EnsureDir(attempt) in env.fails {
        return false;
      }
      var resumeOk, resumed := TryResumeCurrent(env, attempt);
      if !resumeOk {
        return false;
      }
      if resumed.Some? {
        active := resumed;
        ops := ops + [Open(active.value.name, active.value.lineIndex)];
        return true;
      }
      var next := NextSequenceNumber();
      assert Fresh(next, env.stamp) !in files;
      ok := CreateActiveFile(next, env.stamp, CreateFirst(attempt) in env.fails);
    }

    /** Remove the oldest archived files while the archive holds more lines than are kept, leaving out
        those whose lines cannot be counted; `env.removals` removals succeed, the next one ends the
        loop with an error. */
    method PruneOldFiles(env: Env)
      requires Distinct(files)
      modifies this`files, this`ops
      ensures files == Prune(config, old(files), env).state.files
      ensures ops == old(ops) + Prune(config, old(files), env).ops
    {
      var budget := config.keepLastEntries;
      if budget == 0 {
        return;
      }
      var names := ReadDir();
      var archived := Sorted(names, false, env.skipped);
      assert Lists(archived, Counted(files, env.skipped));
      SumOfListing(archived, files, env.skipped);
      RemoveOldest(archived, LineSum(archived, files), env.skipped, env.removals);
    }

    /** The removal loop, with its running total of counted lines. */
    method RemoveOldest(archived: seq<LogName>, lines: nat, skipped: set<LogName>, removals: nat)
      requires Lists(archived, Counted(files, skipped)) && lines == CountedLines(files, skipped)
      modifies this`files, this`ops
      ensures files == Pruned(old(files), skipped, config.keepLastEntries, removals)
      ensures ops == old(ops) + PruneOps(old(files), skipped, config.keepLastEntries, removals)
    {
      hide Counted;
      hide CountedLines;
      hide Lists;
      hide PruneOps;
      hide Pruned;
      var budget, total, k, left := config.keepLastEntries, lines, 0, removals;
      ghost var now := files;
      ghost var rest := PruneOps(now, skipped, budget, left);
      assert archived[0..] == archived;
      while k < |archived| && total > budget && left > 0
        invariant 0 <= k <= |archived| && now == files
        invariant Lists(archived[k..], Counted(now, skipped)) && total == CountedLines(now, skipped)
        invariant rest == PruneOps(now, skipped, budget, left)
        invariant ops + rest == old(ops + PruneOps(files, skipped, budget, removals))
        invariant Pruned(now, skipped, budget, left) == old(Pruned(files, skipped, budget, removals))
        decreases |archived| - k
      {
        var n := archived[k];
        OldestOfListing(archived[k..], now, skipped);
        PruneContinues(archived[k..], now, skipped, budget, left);
        assert archived[k..][0] == n && archived[k..][1..] == archived[k + 1..];
        total := total - |files[n]|;
        files := files - {n};
        now := now - {n};
        k, left := k + 1, left - 1;
        rest := PruneOps(now, skipped, budget, left);
        Reassociate(ops, [Remove(n, skipped)], rest);
        ops := ops + [Remove(n, skipped)];
      }
      if k == |archived| {
        assert archived[k..] == [];
        EmptyListing(files, skipped);
      }
      PruneEnds(files, skipped, budget, left);
    }

    // ----- The buffer -----

    /** `flush_buf`: the first `count` buffered lines get into the file. */
    method WriteOut(count: nat)
      requires Live(State()) && count <= |active.value.buffer|
      modifies this`files, this`active, this`ops
      ensures State() == FlushStep(old(State()), count).state
      ensures ops == old(ops) + FlushStep(old(State()), count).ops
    {
      hide FlushStep;
      hide Do;
      ghost var s := State();
      FlushNothing(s);
      var k := 0;
      while k < count
        invariant k <= count && State() == FlushStep(s, k).state && ops == old(ops) + FlushStep(s, k).ops
      {
        FlushOneMore(s, k);
        Reassociate(old(ops), FlushStep(s, k).ops, [Append(s.active.value.name, s.active.value.buffer[k])]);
        WriteHead();
        k := k + 1;
      }
    }

    /** One line of the buffer gets into the file. */
    method WriteHead()
      requires Live(State()) && active.value.buffer != []
      modifies this`files, this`active, this`ops
      ensures var op := Append(old(active).value.name, old(active).value.buffer[0]);
              State() == Do(old(State()), op) && ops == old(ops) + [op]
    {
      var Active(n, count, buffer) := active.value;
      files := files[n := files[n] + [buffer[0]]];
      active := Some(Active(n, count, buffer[1..]));
      ops := ops + [Append(n, buffer[0])];
    }

    /** Dropping the `BufWriter`: it tries to write out its buffer, and what does not get out is lost. */
    method Quit(at: FlushAt, env: Env)
      requires Live(State())
      modifies this
      ensures Did(old(ops), QuitStep(old(State()), at, env), false)
    {
      hide FlushStep;
      ghost var flushed := FlushStep(State(), Out(env, at, active.value.buffer));
      WriteOut(Out(env, at, active.value.buffer));
      Reassociate(old(ops), flushed.ops, [Drop]);
      active := None;
      ops := ops + [Drop];
    }

    /** A `writeln!` that takes the line without any output. */
    method Take(line: Line)
      requires Live(State())
      modifies this`active, this`ops
      ensures State() == TakeStep(old(State()), line).state && ops == old(ops) + [Accept(line)]
    {
      var Active(n, count, buffer) := active.value;
      active := Some(Active(n, count + 1, buffer + [line]));
      ops := ops + [Accept(line)];
    }

    /** `writeln!`. When it fails the count of the caller is not read again before the file is given up
        or counted as missed, so that it is left as it was here. */
    method PutLine(e: Entry, attempt: nat, env: Env) returns (ok: bool)
      requires Live(State())
      modifies this
      ensures Did(old(ops), PutStep(old(State()), e, attempt, env), ok)
    {
      hide FitsIn;
      hide IsLong;
      hide FlushStep;
      hide TakeStep;
      ghost var s := State();
      var line := Line(active.value.lineIndex + 1, e);
      if FitsIn(active.value.buffer, line) {
        Take(line);
        TakeOps(s, line);
        return true;
      }
      var k := Out(env, BeforeLine, active.value.buffer);
      ghost var flushed := FlushStep(s, k);
      FlushedIs(s, k);
      WriteOut(k);
      if active.value.buffer != [] {
        return false;
      }
      if !IsLong(line) {
        Take(line);
        TakeOps(flushed.state, line);
        Reassociate(old(ops), flushed.ops, [Accept(line)]);
        return true;
      }
      if WriteLong(attempt) in env.fails {
        return false;
      }
      ghost var taken := TakeStep(flushed.state, line);
      TakeOps(flushed.state, line);
      Take(line);
      ghost var last := FlushStep(taken.state, |taken.state.active.value.buffer|);
      FlushedIs(taken.state, |active.value.buffer|);
      WriteOut(|active.value.buffer|);
      Reassociate(old(ops), flushed.ops, [Accept(line)]);
      Reassociate(old(ops), flushed.ops + [Accept(line)], last.ops);
      Reassociate(flushed.ops, [Accept(line)], last.ops);
      return true;
    }

    /** `writeln!`, and after a success the `flush()` whose failure is ignored. */
    method WriteLine(e: Entry, attempt: nat, env: Env) returns (ok: bool)
      requires Live(State())
      modifies this
      ensures Did(old(ops), LineStep(old(State()), e, attempt, env), ok)
    {
      hide PutStep;
      hide FlushStep;
      ghost var put := PutStep(State(), e, attempt, env);
      ok := PutLine(e, attempt, env);
      if ok {
        var k := Out(env, AfterLine(attempt), active.value.buffer);
        FlushedIs(put.state, k);
        WriteOut(k);
        Reassociate(old(ops), put.ops, FlushStep(put.state, k).ops);
      }
    }

    // ----- Rotation -----

    method RotateActive(env: Env) returns (ok: bool)
      requires Live(State()) && active.value.name.current
      requires Distinct(files)
      modifies this
      ensures Did(old(ops), RotateStep(config, old(State()), env), ok)
    {
      hide FlushStep;
      hide Distinct;
      hide ArchiveStep;
      hide QuitStep;
      ghost var s := State();
      var current := active.value;
      var k := Out(env, BeforeRotation, current.buffer);
      ghost var flushed := FlushStep(s, k);
      FlushedIs(s, k);
      WriteOut(k);
      if active.value.buffer != [] {
        ghost var quit := QuitStep(flushed.state, QuittingRotation, env);
        Quit(QuittingRotation, env);
        Reassociate(old(ops), flushed.ops, quit.ops);
        return false;
      }
      active := None;
      ops := ops + [Drop];
      Reassociate(old(ops), flushed.ops, [Drop]);
      if RenameToArchive in env.fails {
        return false;
      }
      FlushKeepsNames(s, k);
      ghost var rest := ArchiveStep(config, files, current, env);
      ok := Archive(current, env);
      Reassociate(old(ops), flushed.ops + [Drop], rest.ops);
    }

    /** Archive the closed file, prune, and create the next one. */
    method Archive(current: Active, env: Env) returns (ok: bool)
      requires active == None && current.name in files && current.name.current && Distinct(files)
      modifies this
      ensures Did(old(ops), ArchiveStep(config, old(files), current, env), ok)
    {
      hide Prune;
      hide Distinct;
      var archived := ArchiveOf(current.name);
      RenameKeepsNumbers(files, current.name, archived);
      files := Renamed(files, current.name, archived);
      ops := ops + [Rename(current.name, archived)];
      ghost var renamed := files;
      PruneOldFiles(env);
      ok := CreateNextOrRollBack(current, env);
      ghost var pruned := Prune(config, renamed, env);
      ghost var created := CreateOrRollBack(pruned.state.files, current, env);
      hide CreateOrRollBack;
      Regrouped(old(ops), [Rename(current.name, archived)], pruned.ops, created.ops);
    }

    /** The last part of a rotation: the next file, or the archive renamed back. */
    method CreateNextOrRollBack(current: Active, env: Env) returns (ok: bool)
      requires active == None
      modifies this
      ensures Did(old(ops), CreateOrRollBack(old(files), current, env), ok)
    {
      ok := CreateActiveFile(current.name.number + 1, env.stamp, CreateNext in env.fails);
      if !ok {
        var archived := ArchiveOf(current.name);
        if RollBack in env.fails || archived !in files {
          ok := false;
        } else {
          files := Renamed(files, archived, current.name);
          ops := ops + [Rename(archived, current.name)];
          if Reopen !in env.fails {
            var count := if Recount in env.fails then current.lineIndex else |files[current.name]|;
            active := Some(Active(current.name, count, []));
            ops := ops + [Open(current.name, count)];
            ok := true;
          }
        }
      }
    }

    // ----- write_line_locked -----

    /** One call: drop a stale handle, open or resume, rotate, write, and retry once. */
    method Write(e: Entry, env: Env, ghost p: Past) returns (ok: bool)
      requires Holds(p) && p.state == State()
      modifies this
      ensures Did(old(ops), WriteStep(config, old(State()), e, env), ok)
    {
      hide PrepareStep;
      hide WriteOrRetry;
      hide Holds;
      hide Lawful;
      hide After;
      ghost var prepared := PrepareStep(config, State(), env);
      PrepareFollows(config, p, env);
      FollowsHolds(p, prepared, config.keepLastEntries);
      ok := Prepare(env, p);
      if ok {
        ghost var rest := WriteOrRetry(prepared.state, e, env);
        ok := WriteWithRetry(e, env, After(p, prepared.ops));
        Reassociate(old(ops), prepared.ops, rest.ops);
      }
    }

    method WriteWithRetry(e: Entry, env: Env, ghost p: Past) returns (ok: bool)
      requires Holds(p) && p.state == State() && Live(State())
      modifies this
      ensures Did(old(ops), WriteOrRetry(old(State()), e, env), ok)
    {
      hide LineStep;
      hide RetryStep;
      hide Holds;
      hide Lawful;
      hide After;
      ghost var first := LineStep(State(), e, 0, env);
      LineFollows(p, e, 0, env, config.keepLastEntries);
      FollowsHolds(p, first, config.keepLastEntries);
      ok := WriteLine(e, 0, env);
      if !ok {
        ghost var retry := RetryStep(first.state, e, env);
        ok := Retry(e, env, After(p, first.ops));
        Reassociate(old(ops), first.ops, retry.ops);
      }
    }

    /** Fail-soft recovery: drop the handle, and write once more through a new one; if that fails too
        the handle stays, with the line counted. */
    method Retry(e: Entry, env: Env, ghost p: Past) returns (ok: bool)
      requires Holds(p) && p.state == State() && Live(State())
      modifies this
      ensures Did(old(ops), RetryStep(old(State()), e, env), ok)
    {
      hide QuitStep;
      hide OpenStep;
      hide LineStep;
      hide Lawful;
      hide After;
      hide FilesHold;
      ghost var quit := QuitStep(State(), QuittingFile, env);
      QuitFollows(p, QuittingFile, env, config.keepLastEntries);
      FollowsHolds(p, quit, config.keepLastEntries);
      HeldIsWellKept(quit.state.files, After(p, quit.ops).made);
      hide WellKept;
      QuitHasNoHandle(State(), QuittingFile, env);
      Quit(QuittingFile, env);
      ghost var again := OpenStep(quit.state.files, env, 1);
      ok := OpenOrCreateActive(env, 1);
      Reassociate(old(ops), quit.ops, again.ops);
      if ok {
        ghost var second := LineStep(again.state, e, 1, env);
        ok := WriteLine(e, 1, env);
        Reassociate(old(ops), quit.ops + again.ops, second.ops);
        Reassociate(quit.ops, again.ops, second.ops);
        if !ok {
          active := Some(active.value.(lineIndex := active.value.lineIndex + 1));
          ops := ops + [Miss];
          Reassociate(old(ops), quit.ops + (again.ops + second.ops), [Miss]);
          Reassociate(quit.ops, again.ops + second.ops, [Miss]);
          Reassociate(again.ops, second.ops, [Miss]);
        }
      }
    }

    method Prepare(env: Env, ghost p: Past) returns (ok: bool)
      requires Holds(p) && p.state == State()
      modifies this
      ensures Did(old(ops), PrepareStep(config, old(State()), env), ok)
    {
      hide OpenStep;
      hide RotateStep;
      hide WellKept;
      hide FilesHold;
      HeldIsWellKept(p.state.files, p.made);
      ReadyIsKept(p, env);
      ghost var ready := ReadyStep(State(), env);
      if active.Some? && active.value.name !in files {
        active := None;
        ops := ops + [Drop];
      }
      ok := true;
      if active.None? {
        ghost var begun := ops;
        ok := OpenOrCreateActive(env, 0);
        if begun != old(ops) {
          Reassociate(old(ops), [Drop], OpenStep(old(files), env, 0).ops);
        }
      }
      if ok && active.value.lineIndex >= EffectiveEntriesPerFile(config.entriesPerFile) {
        ghost var rotated := RotateStep(config, ready.state, env);
        ok := RotateActive(env);
        Reassociate(old(ops), ready.ops, rotated.ops);
      }
    }

    /** `release_active_named`: write out and give up the open file when it is the named one; `out` of
        its buffered lines get out by that. */
    method ReleaseActiveNamed(name: LogName, out: nat)
      modifies this
      ensures old(active.None? || active.value.name != name) ==> State() == old(State()) && ops == old(ops)
      ensures old(active.Some? && active.value.name == name) ==> active == None
      ensures old(Live(State()) && active.value.name == name) ==>
                var k := Least(out, |old(active).value.buffer|);
                && files == FlushStep(old(State()), k).state.files
                && ops == old(ops) + FlushStep(old(State()), k).ops + [Drop]
      ensures name !in old(files) ==> files == old(files)
    {
      if active.Some? && active.value.name == name {
        if name in files {
          WriteOut(Least(out, |active.value.buffer|));
        }
        active := None;
        ops := ops + [Drop];
      }
    }

    /** `flush`: the buffer is written out, and a failure of that is ignored. */
    method FlushLog(out: nat)
      modifies this
      ensures if Live(old(State())) then
                var step := FlushStep(old(State()), Least(out, |old(active).value.buffer|));
                State() == step.state && ops == old(ops) + step.ops
              else State() == old(State()) && ops == old(ops)
    {
      if active.Some? && active.value.name in files {
        WriteOut(Least(out, |active.value.buffer|));
      }
    }
  }

  lemma TakeOps(s: LogState, line: Line)
    requires Live(s)
    ensures TakeStep(s, line).ops == [Accept(line)] && TakeStep(s, line).ok
  {
  }

  lemma FlushedIs(s: LogState, k: nat)
    requires Live(s) && k <= |s.active.value.buffer|
    ensures FlushStep(s, k).ok
    ensures FlushStep(s, k).state.active.value.buffer == [] <==> k == |s.active.value.buffer|
  {
  }

  lemma FlushKeepsNames(s: LogState, k: nat)
    requires Live(s) && k <= |s.active.value.buffer| && Distinct(s.files)
    ensures FlushStep(s, k).state.files.Keys == s.files.Keys && Distinct(FlushStep(s, k).state.files)
  {
    assert FlushStep(s, k).state.files.Keys == s.files.Keys;
  }

  lemma QuitHasNoHandle(s: LogState, at: FlushAt, env: Env)
    requires Live(s)
    ensures QuitStep(s, at, env).state.active.None?
  {
  }

  /** What reopening leaves is a directory the logger can rotate. */
  lemma ReadyIsKept(p: Past, env: Env)
    requires Holds(p)
    ensures var ready := ReadyStep(p.state, env); ready.ok ==>
              Distinct(ready.state.files) && Live(ready.state) && ready.state.active.value.name.current
  {
    var ready := ReadyStep(p.state, env);
    ReadyFollows(p, env, 0);
    FollowsHolds(p, ready, 0);
    hide ReadyStep;
    var q := After(p, ready.ops);
    HeldIsWellKept(q.state.files, q.made);
    hide FilesHold;
    hide Lawful;
    hide After;
  }

  lemma Regrouped<T>(a: seq<T>, b: seq<T>, c: seq<T>, d: seq<T>)
    ensures ((a + b) + c) + d == a + (b + (c + d))
  {
  }
}
