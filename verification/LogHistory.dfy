/** What the logger does to its directory and its open file, operation by operation, and the complete
    record of it: every file ever created, with every line ever written to it, and which of the files
    pruning has removed since. */
module LogHistory {
  import opened Wrappers
  import opened LogFormat
  import opened LogDirectory
  import opened Sequences

  /** The open file: the lines counted so far, and those that its `BufWriter` has taken and that are
      not in the file yet. */
  datatype Active = Active(name: LogName, lineIndex: nat, buffer: seq<Line>)

  datatype LogState = LogState(files: Files, active: Option<Active>)

  ghost predicate Live(s: LogState) {
    s.active.Some? && s.active.value.name in s.files
  }

  function Buffered(s: LogState): seq<Line> {
    if s.active.Some? then s.active.value.buffer else []
  }

  /** `Accept` is a `writeln!` that returns Ok, `Miss` one that counts its line and fails; `Append`
      carries the first buffered line into the file; `Drop` gives up the open file, and whatever is
      still in its buffer is lost. `skipped` are the files whose lines the prune could not count. */
  datatype Op =
    | Create(name: LogName)
    | Open(name: LogName, count: nat)
    | Accept(line: Line)
    | Miss
    | Append(name: LogName, line: Line)
    | Drop
    | Rename(from: LogName, to: LogName)
    | Remove(name: LogName, skipped: set<LogName>)

  /** A file ever created, under the name it was created with. */
  datatype FileRecord = FileRecord(name: LogName, lines: seq<Line>, removed: bool)

  type History = seq<FileRecord>

  /** The logger and the record of how it came about. */
  datatype Past = Past(state: LogState, made: History)

  function Beginning(): Past {
    Past(LogState(map[], None), [])
  }

  function Do(s: LogState, op: Op): LogState {
    match op
    case Create(n) => LogState(s.files[n := []], Some(Active(n, 0, [])))
    case Open(n, count) => s.(active := Some(Active(n, count, [])))
    case Accept(line) =>
      if s.active.None? then s
      else
        var Active(n, k, buffer) := s.active.value;
        s.(active := Some(Active(n, k + 1, buffer + [line])))
    case Miss =>
      if s.active.None? then s
      else s.(active := Some(s.active.value.(lineIndex := s.active.value.lineIndex + 1)))
    case Append(n, line) =>
      if Buffered(s) == [] || n !in s.files then s
      else LogState(s.files[n := s.files[n] + [line]], Some(s.active.value.(buffer := s.active.value.buffer[1..])))
    case Drop => s.(active := None)
    case Rename(a, b) => if a in s.files then s.(files := Renamed(s.files, a, b)) else s
    case Remove(n, _) => s.(files := s.files - {n})
  }

  function AsCurrent(n: LogName): LogName {
    n.(current := true)
  }

  function Marked(h: History, n: LogName): History {
    seq(|h|, i requires 0 <= i < |h| => if h[i].name == n then h[i].(removed := true) else h[i])
  }

  function Record(h: History, op: Op): History {
    match op
    case Create(n) => h + [FileRecord(n, [], false)]
    case Append(_, line) =>
      if h == [] then h else h[|h| - 1 := h[|h| - 1].(lines := h[|h| - 1].lines + [line])]
    case Remove(n, _) => Marked(h, AsCurrent(n))
    case _ => h
  }

  function Then(p: Past, op: Op): Past {
    Past(Do(p.state, op), Record(p.made, op))
  }

  function After(p: Past, ops: seq<Op>): Past {
    if ops == [] then p else Then(After(p, ops[..|ops| - 1]), ops[|ops| - 1])
  }

  lemma {:induction false} AfterBoth(p: Past, a: seq<Op>, b: seq<Op>)
    ensures After(p, a + b) == After(After(p, a), b)
  {
    if b == [] {
      assert a + b == a;
    } else {
      assert (a + b)[..|a + b| - 1] == a + b[..|b| - 1];
      AfterBoth(p, a, b[..|b| - 1]);
    }
  }

  lemma AfterOne(p: Past, op: Op)
    ensures After(p, [op]) == Then(p, op)
  {
    assert [op][..0] == [];
    assert After(p, [op][..0]) == p;
  }

  lemma AfterOneMore(p: Past, ops: seq<Op>, op: Op)
    ensures After(p, ops + [op]) == Then(After(p, ops), op)
  {
    assert (ops + [op])[..|ops|] == ops;
  }

  // ----- Which operations the logger performs -----

  /** The number after the largest ever used. */
  function NextNumber(h: History): nat {
    if h == [] then 1 else h[|h| - 1].name.number + 1
  }

  /** The newest file was removed. */
  predicate NewestGone(h: History) {
    h != [] && h[|h| - 1].removed
  }

  /** `keep` is `keep_last_entries`. A file is created only while none is current, with the number after
      the largest ever used, or, if the newest file was removed, after the largest that is left. Lines
      reach the open file from its buffer, in order. Files change names or go only while none is open:
      only the newest changes its form, and pruning removes an archived file when every older one was
      skipped and those it could count hold more than `keep` lines. */
  ghost predicate Allowed(p: Past, op: Op, keep: nat) {
    var f := p.state.files;
    match op
    case Create(n) =>
      && p.state.active.None? && n.current && !HasCurrent(f)
      && (n.number == NextNumber(p.made) || (NewestGone(p.made) && n.number == MaxNumber(f) + 1))
    case Open(n, count) => p.state.active.None? && n in f && n.current && |f[n]| <= count
    case Accept(line) => Live(p.state) && line.index == p.state.active.value.lineIndex + 1
    case Miss => Live(p.state) && p.state.active.value.buffer == []
    case Append(n, line) =>
      && Live(p.state) && n == p.state.active.value.name
      && p.state.active.value.buffer != [] && line == p.state.active.value.buffer[0]
    case Drop => p.state.active.Some?
    case Rename(a, b) =>
      && p.state.active.None? && a in f && p.made != [] && !NewestGone(p.made)
      && p.made[|p.made| - 1].name == AsCurrent(a) == AsCurrent(b) && a != b
    case Remove(n, skipped) =>
      && p.state.active.None? && keep > 0 && !HasCurrent(f) && CountedLines(f, skipped) > keep
      && n in f && n !in skipped && forall m :: m in f && m.number < n.number ==> m in skipped
  }

  ghost predicate Lawful(p: Past, ops: seq<Op>, keep: nat) {
    ops == [] || (Lawful(p, ops[..|ops| - 1], keep) && Allowed(After(p, ops[..|ops| - 1]), ops[|ops| - 1], keep))
  }

  lemma {:induction false} LawfulBoth(p: Past, a: seq<Op>, b: seq<Op>, keep: nat)
    requires Lawful(p, a, keep) && Lawful(After(p, a), b, keep)
    ensures Lawful(p, a + b, keep) && After(p, a + b) == After(After(p, a), b)
  {
    hide Allowed;
    hide Then;
    AfterBoth(p, a, b);
    if b == [] {
      assert a + b == a;
    } else {
      assert (a + b)[..|a + b| - 1] == a + b[..|b| - 1];
      LawfulBoth(p, a, b[..|b| - 1], keep);
    }
  }

  lemma LawfulOne(p: Past, op: Op, keep: nat)
    requires Allowed(p, op, keep)
    ensures Lawful(p, [op], keep) && After(p, [op]) == Then(p, op)
  {
    hide Allowed;
    hide Then;
    assert [op][..0] == [];
    assert After(p, [op][..0]) == p && Lawful(p, [op][..0], keep);
  }

  lemma NothingIsLawful(p: Past, keep: nat)
    ensures Lawful(p, [], keep) && After(p, []) == p
  {
  }

  lemma {:induction false} LawfulPrefix(p: Past, ops: seq<Op>, keep: nat, j: nat)
    requires Lawful(p, ops, keep) && j <= |ops|
    ensures Lawful(p, ops[..j], keep)
    ensures j < |ops| ==> Allowed(After(p, ops[..j]), ops[j], keep)
  {
    hide Allowed;
    if j < |ops| {
      var front := ops[..|ops| - 1];
      if j < |front| {
        LawfulPrefix(p, front, keep, j);
      }
      assert front[..j] == ops[..j];
      assert j == |front| ==> ops[..j] == front;
    } else {
      assert ops[..j] == ops;
    }
  }

  // ----- The directory holds the files of the record that were not removed -----

  ghost predicate IsRecordOf(h: History, i: int, f: Files, n: LogName) {
    && 0 <= i < |h| && !h[i].removed && h[i].name == AsCurrent(n) && n in f && f[n] == h[i].lines
  }

  ghost predicate Known(f: Files, h: History) {
    forall n :: n in f ==> exists i :: IsRecordOf(h, i, f, n)
  }

  /** Every file not removed is there, under one form of its name. */
  ghost predicate Present(f: Files, h: History) {
    forall i :: 0 <= i < |h| && !h[i].removed ==> ((h[i].name in f) != (ArchiveOf(h[i].name) in f))
  }

  /** Whatever was created after a file that is left has a larger number. */
  ghost predicate Ascending(h: History) {
    && (forall i :: 0 <= i < |h| ==> h[i].name.current && h[i].name.number > 0)
    && forall i, j :: 0 <= i < j < |h| && !h[i].removed ==> h[i].name.number < h[j].name.number
  }

  ghost predicate CurrentIsLast(f: Files, h: History) {
    forall n :: n in f && n.current ==> h != [] && !NewestGone(h) && h[|h| - 1].name == n
  }

  ghost predicate FilesHold(f: Files, h: History) {
    Known(f, h) && Present(f, h) && Ascending(h) && CurrentIsLast(f, h)
  }

  /** The open file is current, its count covers the lines in the file and in the buffer, and the
      buffered lines are the last ones counted. */
  ghost predicate HandleFits(s: LogState) {
    Live(s) ==>
      var Active(n, k, buffer) := s.active.value;
      && n.current && |s.files[n]| + |buffer| <= k
      && forall i :: 0 <= i < |buffer| ==> buffer[i].index == k - |buffer| + 1 + i
  }

  ghost predicate Holds(p: Past) {
    FilesHold(p.state.files, p.made) && HandleFits(p.state)
  }

  lemma BeginningHolds()
    ensures Holds(Beginning())
  {
  }

  /** A file is there under one form of its name only. */
  lemma OneForm(f: Files, h: History, n: LogName, m: LogName)
    requires Known(f, h) && Present(f, h) && n in f && m in f && AsCurrent(m) == AsCurrent(n)
    ensures m == n
  {
    var i :| IsRecordOf(h, i, f, n);
    assert (h[i].name in f) != (ArchiveOf(h[i].name) in f);
  }

  /** The form under which a file of the record is there. */
  ghost function FormOf(f: Files, h: History, i: nat): (n: LogName)
    requires FilesHold(f, h) && i < |h| && !h[i].removed
    ensures n in f && AsCurrent(n) == h[i].name && IsRecordOf(h, i, f, n)
  {
    assert (h[i].name in f) != (ArchiveOf(h[i].name) in f);
    var n := if h[i].name in f then h[i].name else ArchiveOf(h[i].name);
    assert exists j :: IsRecordOf(h, j, f, n);
    var j :| IsRecordOf(h, j, f, n);
    assert j == i;
    n
  }

  lemma NumbersAreThere(f: Files, h: History, i: nat)
    requires FilesHold(f, h) && i < |h| && !h[i].removed
    ensures f != map[] && h[i].name.number <= MaxNumber(f)
  {
    var n := FormOf(f, h, i);
    hide FilesHold;
  }

  lemma FilesAreEarlier(f: Files, h: History, n: LogName)
    requires FilesHold(f, h) && n in f && h != []
    ensures n.number <= h[|h| - 1].name.number
    ensures AsCurrent(n) != h[|h| - 1].name ==> n.number < h[|h| - 1].name.number
    ensures NewestGone(h) ==> n.number < h[|h| - 1].name.number
  {
    var i :| IsRecordOf(h, i, f, n);
  }

  /** The largest number of the directory is that of the newest file unless it was removed. */
  lemma NewestNumber(f: Files, h: History)
    requires FilesHold(f, h)
    ensures h != [] && !NewestGone(h) ==> f != map[] && MaxNumber(f) + 1 == NextNumber(h)
    ensures h == [] || NewestGone(h) ==> !HasCurrent(f) && MaxNumber(f) < NextNumber(h)
    ensures NewestGone(h) ==> MaxNumber(f) + 1 < NextNumber(h)
  {
    if h == [] {
      assert f == map[];
    } else {
      if f != map[] {
        FilesAreEarlier(f, h, Newest(f));
      }
      if !NewestGone(h) {
        NumbersAreThere(f, h, |h| - 1);
      }
    }
    hide Known;
    hide Present;
  }

  // ----- Each allowed operation keeps it so -----

  lemma NewNameIsNew(f: Files, h: History, n: LogName)
    requires FilesHold(f, h) && n.current
    requires n.number == NextNumber(h) || (NewestGone(h) && n.number == MaxNumber(f) + 1)
    ensures n.number > 0 && forall i :: 0 <= i < |h| && !h[i].removed ==> h[i].name.number < n.number
    ensures forall m :: m in f ==> AsCurrent(m) != n
  {
    forall i | 0 <= i < |h| && !h[i].removed ensures h[i].name.number < n.number {
      NumbersAreThere(f, h, i);
      NewestNumber(f, h);
    }
    forall m | m in f ensures AsCurrent(m) != n {
      var i :| IsRecordOf(h, i, f, m);
    }
    hide Present;
  }

  lemma CreateKnown(f: Files, h: History, n: LogName)
    requires Known(f, h) && n.current && forall m :: m in f ==> AsCurrent(m) != n
    ensures Known(f[n := []], h + [FileRecord(n, [], false)])
  {
    var g, h' := f[n := []], h + [FileRecord(n, [], false)];
    assert IsRecordOf(h', |h|, g, n);
    forall m | m in f && m != n ensures exists i :: IsRecordOf(h', i, g, m) {
      var i :| IsRecordOf(h, i, f, m);
      assert IsRecordOf(h', i, g, m);
    }
  }

  lemma CreatePresent(f: Files, h: History, n: LogName)
    requires Present(f, h) && n.current && n !in f && ArchiveOf(n) !in f
    requires forall i :: 0 <= i < |h| && !h[i].removed ==> h[i].name.number < n.number
    ensures Present(f[n := []], h + [FileRecord(n, [], false)])
  {
    var g, h' := f[n := []], h + [FileRecord(n, [], false)];
    forall i | 0 <= i < |h'| && !h'[i].removed ensures (h'[i].name in g) != (ArchiveOf(h'[i].name) in g) {
      if i < |h| {
        assert h[i].name.number < n.number;
        assert (h[i].name in f) != (ArchiveOf(h[i].name) in f);
      }
    }
  }

  lemma CreateHolds(f: Files, h: History, n: LogName)
    requires FilesHold(f, h) && n.current && !HasCurrent(f)
    requires n.number == NextNumber(h) || (NewestGone(h) && n.number == MaxNumber(f) + 1)
    ensures FilesHold(f[n := []], h + [FileRecord(n, [], false)])
  {
    hide Known;
    hide Present;
    hide MaxNumber;
    hide NextNumber;
    NewNameIsNew(f, h, n);
    CreateKnown(f, h, n);
    CreatePresent(f, h, n);
    assert forall i :: 0 <= i < |h| ==> (h + [FileRecord(n, [], false)])[i] == h[i];
  }

  lemma AppendKnown(f: Files, h: History, n: LogName, line: Line)
    requires Known(f, h) && Present(f, h) && n in f && h != [] && IsRecordOf(h, |h| - 1, f, n)
    ensures Known(f[n := f[n] + [line]], h[|h| - 1 := h[|h| - 1].(lines := h[|h| - 1].lines + [line])])
  {
    var k := |h| - 1;
    var g, h' := f[n := f[n] + [line]], h[k := h[k].(lines := h[k].lines + [line])];
    assert IsRecordOf(h', k, g, n);
    forall m | m in f && m != n ensures exists i :: IsRecordOf(h', i, g, m) {
      var i :| IsRecordOf(h, i, f, m);
      if i == k {
        OneForm(f, h, m, n);
      }
      assert IsRecordOf(h', i, g, m);
    }
  }

  lemma AppendPresent(f: Files, h: History, n: LogName, line: Line)
    requires Present(f, h) && n in f && h != []
    ensures Present(f[n := f[n] + [line]], h[|h| - 1 := h[|h| - 1].(lines := h[|h| - 1].lines + [line])])
  {
    var k := |h| - 1;
    var g, h' := f[n := f[n] + [line]], h[k := h[k].(lines := h[k].lines + [line])];
    assert forall i :: 0 <= i < |h| ==> h'[i].name == h[i].name && h'[i].removed == h[i].removed;
    assert g.Keys == f.Keys;
    forall i | 0 <= i < |h| && !h[i].removed ensures (h'[i].name in g) != (ArchiveOf(h'[i].name) in g) {
      assert (h[i].name in f) != (ArchiveOf(h[i].name) in f);
    }
  }

  lemma CurrentHasLastRecord(f: Files, h: History, n: LogName)
    requires FilesHold(f, h) && n in f && n.current
    ensures h != [] && !NewestGone(h) && h[|h| - 1].name == n && IsRecordOf(h, |h| - 1, f, n)
  {
    var m := FormOf(f, h, |h| - 1);
    OneForm(f, h, m, n);
  }

  lemma AppendHolds(f: Files, h: History, n: LogName, line: Line)
    requires FilesHold(f, h) && n in f && n.current
    ensures h != [] && FilesHold(f[n := f[n] + [line]], h[|h| - 1 := h[|h| - 1].(lines := h[|h| - 1].lines + [line])])
    ensures f[n] == h[|h| - 1].lines
  {
    CurrentHasLastRecord(f, h, n);
    AppendKnown(f, h, n, line);
    AppendPresent(f, h, n, line);
    hide Known;
    hide Present;
    assert f[n := f[n] + [line]].Keys == f.Keys;
  }

  lemma RenameKnown(f: Files, h: History, a: LogName, b: LogName)
    requires Known(f, h) && a in f && AsCurrent(a) == AsCurrent(b)
    ensures Known(Renamed(f, a, b), h)
  {
    var g := Renamed(f, a, b);
    forall m | m in g ensures exists i :: IsRecordOf(h, i, g, m) {
      var n := if m == b then a else m;
      var i :| IsRecordOf(h, i, f, n);
      assert IsRecordOf(h, i, g, m);
    }
  }

  lemma RenamePresent(f: Files, h: History, a: LogName, b: LogName)
    requires Present(f, h) && Ascending(h) && a in f && a != b && h != [] && !NewestGone(h)
    requires h[|h| - 1].name == AsCurrent(a) == AsCurrent(b)
    ensures Present(Renamed(f, a, b), h) && b !in f
  {
    var g, last := Renamed(f, a, b), h[|h| - 1];
    assert (last.name in f) != (ArchiveOf(last.name) in f);
    assert b !in f && a !in g && b in g;
    forall i | 0 <= i < |h| - 1 && !h[i].removed ensures (h[i].name in g) != (ArchiveOf(h[i].name) in g) {
      assert h[i].name.number < last.name.number;
      assert (h[i].name in f) != (ArchiveOf(h[i].name) in f);
    }
  }

  lemma RenameHolds(f: Files, h: History, a: LogName, b: LogName)
    requires FilesHold(f, h) && a in f && h != [] && !NewestGone(h)
    requires h[|h| - 1].name == AsCurrent(a) == AsCurrent(b) && a != b
    ensures FilesHold(Renamed(f, a, b), h) && b !in f
  {
    hide Known;
    hide Present;
    hide Ascending;
    RenameKnown(f, h, a, b);
    RenamePresent(f, h, a, b);
    forall n | n in Renamed(f, a, b) && n.current ensures h[|h| - 1].name == n {
      assert n == b || n in f;
    }
  }

  /** Only one record of a file that is there is not marked as removed. */
  lemma OnlyRecord(f: Files, h: History, n: LogName) returns (i: nat)
    requires FilesHold(f, h) && n in f
    ensures IsRecordOf(h, i, f, n)
    ensures Marked(h, AsCurrent(n)) == h[i := h[i].(removed := true)]
  {
    var k :| IsRecordOf(h, k, f, n);
    i := k;
    var h' := Marked(h, AsCurrent(n));
    forall j | 0 <= j < |h| ensures h'[j] == h[i := h[i].(removed := true)][j] {
      assert j != i && !h[j].removed ==> h[j].name.number < h[i].name.number || h[i].name.number < h[j].name.number;
    }
  }

  lemma RemoveHolds(f: Files, h: History, n: LogName)
    requires FilesHold(f, h) && n in f && !HasCurrent(f)
    ensures FilesHold(f - {n}, Marked(h, AsCurrent(n)))
  {
    var k := OnlyRecord(f, h, n);
    var g, h' := f - {n}, h[k := h[k].(removed := true)];
    assert Known(g, h') by {
      forall m | m in g ensures exists i :: IsRecordOf(h', i, g, m) {
        var i :| IsRecordOf(h, i, f, m);
        if i == k {
          OneForm(f, h, m, n);
        }
        assert IsRecordOf(h', i, g, m);
      }
    }
    assert Present(g, h') by {
      forall i | 0 <= i < |h'| && !h'[i].removed ensures (h'[i].name in g) != (ArchiveOf(h'[i].name) in g) {
        assert (h[i].name in f) != (ArchiveOf(h[i].name) in f);
        assert h[i].name.number != h[k].name.number;
      }
    }
    hide Known;
    hide Present;
    assert forall m :: m in g ==> !m.current;
  }

  lemma OpFits(p: Past, op: Op, keep: nat)
    requires HandleFits(p.state) && Allowed(p, op, keep)
    ensures HandleFits(Do(p.state, op))
  {
    hide CountedLines;
    hide MaxNumber;
  }

  /** Whatever the logger does where it may, its directory holds exactly the recorded files that were
      not removed, each with all its lines, and only the newest can be current. */
  lemma OpHolds(p: Past, op: Op, keep: nat)
    requires Holds(p) && Allowed(p, op, keep)
    ensures Holds(Then(p, op))
  {
    var f, h := p.state.files, p.made;
    OpFits(p, op, keep);
    hide FilesHold;
    match op
    case Create(n) => CreateHolds(f, h, n);
    case Append(n, line) => AppendHolds(f, h, n, line);
    case Rename(a, b) => RenameHolds(f, h, a, b);
    case Remove(n, _) => RemoveHolds(f, h, n);
    case _ =>
  }

  lemma {:induction false} LawfulHolds(p: Past, ops: seq<Op>, keep: nat)
    requires Holds(p) && Lawful(p, ops, keep)
    ensures Holds(After(p, ops))
  {
    hide Holds;
    hide Allowed;
    hide Then;
    if ops != [] {
      LawfulHolds(p, ops[..|ops| - 1], keep);
      OpHolds(After(p, ops[..|ops| - 1]), ops[|ops| - 1], keep);
    }
  }

  // ----- What a reader of the directory sees -----

  /** The lines of all files ever created, file by file. */
  function AllBlocks(h: History): seq<seq<Line>> {
    seq(|h|, i requires 0 <= i < |h| => h[i].lines)
  }

  /** Those of the files that were not removed. */
  function Survivors(h: History): seq<seq<Line>> {
    if h == [] then []
    else Survivors(h[..|h| - 1]) + if h[|h| - 1].removed then [] else [h[|h| - 1].lines]
  }

  function RemovedCount(h: History): nat {
    if h == [] then 0 else RemovedCount(h[..|h| - 1]) + if h[|h| - 1].removed then 1 else 0
  }

  /** Every line ever written to a file. */
  ghost function Written(h: History): seq<Entry> {
    Flatten(AllBlocks(h))
  }

  lemma FrontHolds(f: Files, h: History)
    requires FilesHold(f, h) && NewestGone(h)
    ensures FilesHold(f, h[..|h| - 1])
  {
    var front := h[..|h| - 1];
    assert Known(f, front) by {
      forall n | n in f ensures exists i :: IsRecordOf(front, i, f, n) {
        var i :| IsRecordOf(h, i, f, n);
        assert IsRecordOf(front, i, f, n);
      }
    }
    assert Present(f, front) by {
      forall i | 0 <= i < |front| && !front[i].removed
        ensures (front[i].name in f) != (ArchiveOf(front[i].name) in f)
      {
        assert front[i] == h[i];
      }
    }
    hide Known;
    hide Present;
  }

  lemma FrontHoldsWithout(f: Files, h: History, n: LogName)
    requires FilesHold(f, h) && h != [] && !NewestGone(h) && n in f && AsCurrent(n) == h[|h| - 1].name
    ensures FilesHold(f - {n}, h[..|h| - 1])
    ensures f[n] == h[|h| - 1].lines && forall m :: m in f && m != n ==> m.number < n.number
  {
    var g, front, k := f - {n}, h[..|h| - 1], |h| - 1;
    forall m | m in f && m != n ensures m.number < n.number {
      FilesAreEarlier(f, h, m);
      if AsCurrent(m) == h[k].name {
        OneForm(f, h, n, m);
      }
    }
    assert FormOf(f, h, k) == n by {
      OneForm(f, h, FormOf(f, h, k), n);
    }
    assert Known(g, front) by {
      forall m | m in g ensures exists i :: IsRecordOf(front, i, g, m) {
        var i :| IsRecordOf(h, i, f, m);
        assert i != k;
        assert IsRecordOf(front, i, g, m);
      }
    }
    assert Present(g, front) by {
      forall i | 0 <= i < |front| && !front[i].removed
        ensures (front[i].name in g) != (ArchiveOf(front[i].name) in g)
      {
        assert (h[i].name in f) != (ArchiveOf(h[i].name) in f);
        assert h[i].name.number < h[k].name.number;
      }
    }
    hide Known;
    hide Present;
    forall m | m in g ensures !m.current {
      assert m.number < n.number;
    }
  }

  /** The files of the directory by number are those of the record that were not removed. */
  lemma {:induction false} WindowReads(f: Files, h: History)
    requires FilesHold(f, h)
    ensures Blocks(f) == Survivors(h)
    decreases |h|
  {
    if h == [] {
      assert f == map[];
    } else if NewestGone(h) {
      FrontHolds(f, h);
      WindowReads(f, h[..|h| - 1]);
    } else {
      var n := FormOf(f, h, |h| - 1);
      FrontHoldsWithout(f, h, n);
      hide FilesHold;
      WindowReads(f - {n}, h[..|h| - 1]);
      BlocksOfNewest(f, n);
      hide Blocks;
    }
  }

  /** Archived files by number and then the current one is the order of the numbers. */
  lemma ReadBackIsNumberOrder(f: Files, h: History)
    requires FilesHold(f, h)
    ensures ReadBack(f) == Flatten(Survivors(h))
  {
    hide FilesHold;
    hide Survivors;
    hide Blocks;
    hide Flatten;
    WindowReads(f, h);
    if HasCurrent(f) {
      var c := CurrentOf(f);
      CurrentIsAlone(f, h, c);
      BlocksOfNewest(f, c);
      FlattenOneMore(Blocks(f - {c}), f[c]);
    } else {
      assert Archived(f) == f;
    }
  }

  lemma CurrentIsAlone(f: Files, h: History, c: LogName)
    requires FilesHold(f, h) && c in f && c.current
    ensures Archived(f) == f - {c} && forall m :: m in f && m != c ==> !m.current && m.number < c.number
  {
    FrontHoldsWithout(f, h, c);
    hide Known;
    hide Present;
    hide Ascending;
    assert forall m :: m in f && m.current ==> m == c;
  }

  lemma FlattenOneMore(blocks: seq<seq<Line>>, block: seq<Line>)
    ensures Flatten(blocks + [block]) == Flatten(blocks) + EntriesOf(block)
  {
    assert (blocks + [block])[..|blocks|] == blocks;
  }

  lemma {:induction false} FlattenSuffix(blocks: seq<seq<Line>>, k: nat)
    requires k <= |blocks|
    ensures Flatten(blocks) == Flatten(blocks[..k]) + Flatten(blocks[k..])
  {
    if k == |blocks| {
      assert blocks[..k] == blocks && blocks[k..] == [];
    } else {
      var front, last := blocks[..|blocks| - 1], blocks[|blocks| - 1];
      FlattenSuffix(front, k);
      assert front[..k] == blocks[..k];
      assert blocks[k..] == front[k..] + [last];
      assert blocks[k..][..|blocks[k..]| - 1] == front[k..];
      Reassociate(Flatten(blocks[..k]), Flatten(front[k..]), EntriesOf(last));
    }
  }

  // ----- When what is missing is a prefix -----

  /** Exactly the first `d` files are gone. */
  ghost predicate PrefixGone(h: History, d: nat) {
    d <= |h| && forall i :: 0 <= i < |h| ==> (h[i].removed <==> i < d)
  }

  lemma {:induction false} SurvivorsOfPrefix(h: History, d: nat)
    requires PrefixGone(h, d)
    ensures Survivors(h) == AllBlocks(h)[d..] && RemovedCount(h) == d
  {
    if h != [] {
      var front := h[..|h| - 1];
      var e := if d < |h| then d else d - 1;
      assert PrefixGone(front, e);
      SurvivorsOfPrefix(front, e);
      assert AllBlocks(h) == AllBlocks(front) + [h[|h| - 1].lines];
    }
  }

  /** Then the directory holds all lines ever written but those of the first `d` files. */
  lemma PrefixReads(f: Files, h: History, d: nat)
    requires FilesHold(f, h) && PrefixGone(h, d)
    ensures d <= |h| && Written(h) == Flatten(AllBlocks(h)[..d]) + ReadBack(f)
  {
    ReadBackIsNumberOrder(f, h);
    SurvivorsOfPrefix(h, d);
    FlattenSuffix(AllBlocks(h), d);
  }

  /** Some prefix is gone. */
  ghost predicate OnlyOldestGone(h: History) {
    exists d :: PrefixGone(h, d)
  }

  ghost predicate TakesOldest(f: Files, op: Op) {
    op.Remove? ==> forall m :: m in f ==> op.name.number <= m.number
  }

  lemma GapIsNoPrefix(h: History, i: nat, k: nat)
    requires i < k < |h| && !h[i].removed && h[k].removed
    ensures !OnlyOldestGone(h)
  {
  }

  lemma RemoveKeepsPrefix(f: Files, h: History, n: LogName, d: nat)
    requires FilesHold(f, h) && n in f && PrefixGone(h, d)
    ensures OnlyOldestGone(Marked(h, AsCurrent(n))) <==> forall m :: m in f ==> n.number <= m.number
  {
    var k := OnlyRecord(f, h, n);
    var h' := h[k := h[k].(removed := true)];
    if k == d {
      assert PrefixGone(h', d + 1);
      forall m | m in f ensures n.number <= m.number {
        var i :| IsRecordOf(h, i, f, m);
      }
    } else {
      assert d < k && !h[d].removed && h[d].name.number < n.number;
      assert FormOf(f, h, d) in f;
      GapIsNoPrefix(h', d, k);
    }
    hide Known;
    hide Present;
  }

  /** While only the oldest files are gone, an operation leaves it so exactly unless it removes a file
      that is not the oldest. */
  lemma OpKeepsPrefix(p: Past, op: Op, keep: nat)
    requires Holds(p) && Allowed(p, op, keep) && OnlyOldestGone(p.made)
    ensures OnlyOldestGone(Record(p.made, op)) <==> TakesOldest(p.state.files, op)
  {
    var d :| PrefixGone(p.made, d);
    hide FilesHold;
    match op
    case Create(_) => assert PrefixGone(Record(p.made, op), d);
    case Append(_, _) => assert PrefixGone(Record(p.made, op), d);
    case Remove(n, _) => RemoveKeepsPrefix(p.state.files, p.made, n, d);
    case _ =>
  }

  lemma {:induction false} CountUpdate(h: History, i: nat)
    requires i < |h| && !h[i].removed
    ensures RemovedCount(h[i := h[i].(removed := true)]) == RemovedCount(h) + 1
  {
    var h' := h[i := h[i].(removed := true)];
    if i == |h| - 1 {
      assert h'[..|h| - 1] == h[..|h| - 1];
    } else {
      assert h'[..|h| - 1] == h[..|h| - 1][i := h[i].(removed := true)];
      CountUpdate(h[..|h| - 1], i);
    }
  }

  lemma OpCounts(p: Past, op: Op, keep: nat)
    requires Holds(p) && Allowed(p, op, keep)
    ensures RemovedCount(Record(p.made, op)) == RemovedCount(p.made) + if op.Remove? then 1 else 0
  {
    match op
    case Create(n) => assert Record(p.made, op)[..|p.made|] == p.made;
    case Append(_, _) =>
      if p.made != [] {
        assert Record(p.made, op)[..|p.made| - 1] == p.made[..|p.made| - 1];
      }
    case Remove(n, _) =>
      var i := OnlyRecord(p.state.files, p.made, n);
      hide Holds;
      CountUpdate(p.made, i);
    case _ =>
  }

  lemma {:induction false} NoneRemoved(h: History)
    requires RemovedCount(h) == 0
    ensures PrefixGone(h, 0)
  {
    if h != [] {
      NoneRemoved(h[..|h| - 1]);
      assert forall i :: 0 <= i < |h| - 1 ==> h[i] == h[..|h| - 1][i];
    }
  }

  // ----- Lines are conserved -----

  ghost function Accepted(ops: seq<Op>): seq<Entry> {
    if ops == [] then []
    else Accepted(ops[..|ops| - 1]) + if ops[|ops| - 1].Accept? then [ops[|ops| - 1].line.entry] else []
  }

  /** All lines taken from callers that are not lost: those in files, also in removed ones, and those
      in the buffer of the open file. */
  ghost function Held(p: Past): seq<Entry> {
    Written(p.made) + EntriesOf(Buffered(p.state))
  }

  lemma WrittenOfCreate(h: History, n: LogName)
    ensures Written(h + [FileRecord(n, [], false)]) == Written(h)
  {
    assert AllBlocks(h + [FileRecord(n, [], false)]) == AllBlocks(h) + [[]];
    FlattenOneMore(AllBlocks(h), []);
  }

  lemma WrittenOfAppend(h: History, line: Line)
    requires h != []
    ensures Written(h[|h| - 1 := h[|h| - 1].(lines := h[|h| - 1].lines + [line])]) == Written(h) + [line.entry]
  {
    var k := |h| - 1;
    var h' := h[k := h[k].(lines := h[k].lines + [line])];
    assert AllBlocks(h) == AllBlocks(h[..k]) + [h[k].lines];
    assert AllBlocks(h') == AllBlocks(h[..k]) + [h[k].lines + [line]];
    FlattenOneMore(AllBlocks(h[..k]), h[k].lines);
    FlattenOneMore(AllBlocks(h[..k]), h[k].lines + [line]);
    assert EntriesOf(h[k].lines + [line]) == EntriesOf(h[k].lines) + [line.entry];
    Reassociate(Flatten(AllBlocks(h[..k])), EntriesOf(h[k].lines), [line.entry]);
  }

  lemma WrittenOfRemove(h: History, n: LogName)
    ensures Written(Marked(h, n)) == Written(h)
  {
    assert AllBlocks(Marked(h, n)) == AllBlocks(h);
  }

  lemma MoveHead(a: seq<Entry>, buffer: seq<Line>)
    requires buffer != []
    ensures (a + [buffer[0].entry]) + EntriesOf(buffer[1..]) == a + EntriesOf(buffer)
  {
  }

  lemma OneMoreEntry(a: seq<Entry>, buffer: seq<Line>, line: Line)
    ensures a + EntriesOf(buffer + [line]) == (a + EntriesOf(buffer)) + [line.entry]
  {
  }

  /** An operation keeps every line that is held, in order, and adds the one it takes, except that
      giving up a file with lines in its buffer loses these. */
  lemma OpConserves(p: Past, op: Op, keep: nat)
    requires Holds(p) && Allowed(p, op, keep)
    ensures var q := Then(p, op);
            if op.Drop? then Held(q) == Written(p.made)
            else Held(q) == Held(p) + if op.Accept? then [op.line.entry] else []
  {
    var h := p.made;
    hide Written;
    hide EntriesOf;
    match op
    case Create(n) => WrittenOfCreate(h, n);
    case Accept(line) => OneMoreEntry(Written(h), Buffered(p.state), line);
    case Append(n, line) =>
      AppendHolds(p.state.files, h, n, line);
      WrittenOfAppend(h, line);
      MoveHead(Written(h), Buffered(p.state));
    case Remove(n, _) => WrittenOfRemove(h, AsCurrent(n));
    case Drop => assert EntriesOf([]) == [];
    case _ =>
  }

  /** The operation gives up a file with lines in its buffer. */
  ghost predicate Loses(p: Past, op: Op) {
    op.Drop? && Buffered(p.state) != []
  }

  ghost predicate NothingLost(p: Past, ops: seq<Op>) {
    ops == [] || (NothingLost(p, ops[..|ops| - 1]) && !Loses(After(p, ops[..|ops| - 1]), ops[|ops| - 1]))
  }

  /** What is held afterwards is what was held before and what was taken exactly when nothing was lost;
      otherwise it is shorter. */
  lemma {:induction false} ConservedExactly(p: Past, ops: seq<Op>, keep: nat)
    requires Holds(p) && Lawful(p, ops, keep)
    ensures |Held(After(p, ops))| <= |Held(p)| + |Accepted(ops)|
    ensures Held(After(p, ops)) == Held(p) + Accepted(ops) <==> NothingLost(p, ops)
  {
    if ops == [] {
      assert Held(p) + [] == Held(p);
    } else {
      hide *;
      var front, op := ops[..|ops| - 1], ops[|ops| - 1];
      var q := After(p, front);
      LastOp(p, ops, keep);
      ConservedExactly(p, front, keep);
      LawfulHolds(p, front, keep);
      OpConserves(q, op, keep);
      if op.Drop? {
        DropShortens(q, op);
      }
      var one := if op.Accept? then [op.line.entry] else [];
      Reassociate(Held(p), Accepted(front), one);
      SameEnd(Held(q), Held(p) + Accepted(front), one);
      assert !op.Drop? ==> !Loses(q, op) by {
        OnlyDropLoses(q, op);
      }
    }
  }

  lemma LastOp(p: Past, ops: seq<Op>, keep: nat)
    requires Lawful(p, ops, keep) && ops != []
    ensures var front, op := ops[..|ops| - 1], ops[|ops| - 1];
            && Lawful(p, front, keep) && Allowed(After(p, front), op, keep)
            && After(p, ops) == Then(After(p, front), op)
            && Accepted(ops) == Accepted(front) + (if op.Accept? then [op.line.entry] else [])
            && (NothingLost(p, ops) <==> NothingLost(p, front) && !Loses(After(p, front), op))
  {
    hide Loses;
    hide Allowed;
    hide Then;
  }

  lemma OnlyDropLoses(p: Past, op: Op)
    ensures Loses(p, op) ==> op.Drop?
  {
  }

  lemma SameEnd<T>(a: seq<T>, b: seq<T>, c: seq<T>)
    ensures a + c == b + c <==> a == b
  {
    if a + c == b + c {
      assert |a| == |b|;
      assert a == (a + c)[..|a|] && b == (b + c)[..|b|];
    }
  }

  lemma DropShortens(p: Past, op: Op)
    requires op.Drop?
    ensures |Written(p.made)| <= |Held(p)|
    ensures Loses(p, op) <==> |Written(p.made)| < |Held(p)|
    ensures !Loses(p, op) ==> Held(p) == Written(p.made)
  {
  }

  // ----- Line numbers, file numbers, sizes -----

  ghost predicate Numbered(lines: seq<Line>) {
    forall i :: 0 <= i < |lines| ==> lines[i].index == i + 1
  }

  /** Lines of every file ever written count 1, 2, 3, ... */
  ghost predicate AllNumbered(h: History) {
    forall i :: 0 <= i < |h| ==> Numbered(h[i].lines)
  }

  /** The open file counts a line that is neither in it nor in its buffer. */
  ghost predicate Ahead(s: LogState) {
    Live(s) && s.active.value.lineIndex != |s.files[s.active.value.name]| + |s.active.value.buffer|
  }

  lemma AppendNumbers(lines: seq<Line>, line: Line)
    ensures Numbered(lines + [line]) <==> Numbered(lines) && line.index == |lines| + 1
  {
    var more := lines + [line];
    assert more[|lines|] == line;
    assert forall i :: 0 <= i < |lines| ==> more[i] == lines[i];
  }

  lemma LinesStay(h: History, op: Op)
    ensures !op.Create? ==> |Record(h, op)| == |h|
    ensures !op.Create? && !op.Append? ==> forall i :: 0 <= i < |h| ==> Record(h, op)[i].lines == h[i].lines
    ensures op.Create? ==> Record(h, op) == h + [FileRecord(op.name, [], false)]
    ensures op.Append? && h != [] ==>
              var k := |h| - 1; Record(h, op) == h[k := h[k].(lines := h[k].lines + [op.line])]
  {
  }

  lemma NamesStay(h: History, op: Op)
    requires !op.Create?
    ensures |Record(h, op)| == |h| && forall i :: 0 <= i < |h| ==> Record(h, op)[i].name == h[i].name
  {
  }

  lemma NumberedWithNew(h: History, n: LogName)
    ensures AllNumbered(h + [FileRecord(n, [], false)]) <==> AllNumbered(h)
  {
    var h' := h + [FileRecord(n, [], false)];
    assert forall i :: 0 <= i < |h| ==> h'[i] == h[i];
    assert Numbered([]);
    hide Numbered;
  }

  lemma NumberedWithLine(h: History, line: Line)
    requires h != []
    ensures var k := |h| - 1;
            AllNumbered(h[k := h[k].(lines := h[k].lines + [line])])
            <==> AllNumbered(h) && line.index == |h[k].lines| + 1
  {
    var k := |h| - 1;
    var h' := h[k := h[k].(lines := h[k].lines + [line])];
    assert forall i :: 0 <= i < k ==> h'[i] == h[i];
    AppendNumbers(h[k].lines, line);
    hide Numbered;
    assert h'[k].lines == h[k].lines + [line];
  }

  ghost predicate WritesAhead(s: LogState, op: Op) {
    op.Append? && Ahead(s)
  }

  /** Each operation keeps the lines counting exactly unless a line reaches a file that is ahead. */
  lemma OpNumbers(p: Past, op: Op, keep: nat)
    requires Holds(p) && Allowed(p, op, keep)
    ensures AllNumbered(Record(p.made, op)) <==> AllNumbered(p.made) && !WritesAhead(p.state, op)
  {
    hide FilesHold;
    hide AllNumbered;
    hide CountedLines;
    hide MaxNumber;
    hide HasCurrent;
    LinesStay(p.made, op);
    match op
    case Create(n) => NumberedWithNew(p.made, n);
    case Append(n, line) =>
      AppendHolds(p.state.files, p.made, n, line);
      NumberedWithLine(p.made, line);
      hide Record;
    case Remove(n, _) => NumberedSame(p.made, Record(p.made, op));
    case _ =>
  }

  lemma NumberedSame(h: History, g: History)
    requires |h| == |g| && forall i :: 0 <= i < |h| ==> g[i].lines == h[i].lines
    ensures AllNumbered(g) <==> AllNumbered(h)
  {
    hide Numbered;
  }

  /** No line reaches a file that is ahead. */
  ghost predicate NeverAhead(p: Past, ops: seq<Op>) {
    ops == [] || (NeverAhead(p, ops[..|ops| - 1]) && !WritesAhead(After(p, ops[..|ops| - 1]).state, ops[|ops| - 1]))
  }

  lemma {:induction false} NumberedExactly(p: Past, ops: seq<Op>, keep: nat)
    requires Holds(p) && Lawful(p, ops, keep)
    ensures AllNumbered(After(p, ops).made) <==> AllNumbered(p.made) && NeverAhead(p, ops)
  {
    hide Holds;
    hide Allowed;
    hide AllNumbered;
    hide WritesAhead;
    hide Do;
    if ops != [] {
      var front := ops[..|ops| - 1];
      NumberedExactly(p, front, keep);
      LawfulHolds(p, front, keep);
      OpNumbers(After(p, front), ops[|ops| - 1], keep);
    }
  }

  /** Every file got a number larger than all files before it. */
  ghost predicate NumbersGrow(h: History) {
    forall i, j :: 0 <= i < j < |h| ==> h[i].name.number < h[j].name.number
  }

  ghost predicate TakesNext(h: History, op: Op) {
    op.Create? ==> op.name.number == NextNumber(h)
  }

  /** Numbers keep growing exactly when each new file takes the one after the largest ever used. */
  lemma OpGrows(p: Past, op: Op, keep: nat)
    requires Holds(p) && Allowed(p, op, keep)
    ensures NumbersGrow(Record(p.made, op)) <==> NumbersGrow(p.made) && TakesNext(p.made, op)
  {
    hide FilesHold;
    hide MaxNumber;
    hide Record;
    if op.Create? {
      LinesStay(p.made, op);
      NewestNumber(p.state.files, p.made);
      GrowsWithNew(p.made, op.name);
      hide NumbersGrow;
    } else {
      NamesStay(p.made, op);
    }
  }

  lemma GrowsWithNew(h: History, n: LogName)
    ensures NumbersGrow(h + [FileRecord(n, [], false)])
       <==> NumbersGrow(h) && (h != [] ==> h[|h| - 1].name.number < n.number)
  {
    var h' := h + [FileRecord(n, [], false)];
    assert h'[|h|].name == n && forall i :: 0 <= i < |h| ==> h'[i] == h[i];
    if h != [] {
      assert h'[|h| - 1] == h[|h| - 1];
    }
  }

  ghost predicate AllTakeNext(p: Past, ops: seq<Op>) {
    ops == [] || (AllTakeNext(p, ops[..|ops| - 1]) && TakesNext(After(p, ops[..|ops| - 1]).made, ops[|ops| - 1]))
  }

  lemma {:induction false} GrowsExactly(p: Past, ops: seq<Op>, keep: nat)
    requires Holds(p) && Lawful(p, ops, keep)
    ensures NumbersGrow(After(p, ops).made) <==> NumbersGrow(p.made) && AllTakeNext(p, ops)
  {
    hide Allowed;
    hide NumbersGrow;
    hide TakesNext;
    hide Holds;
    if ops != [] {
      GrowsExactly(p, ops[..|ops| - 1], keep);
      LawfulHolds(p, ops[..|ops| - 1], keep);
      OpGrows(After(p, ops[..|ops| - 1]), ops[|ops| - 1], keep);
    }
  }

  /** No removal ever took a file that was not the oldest. */
  ghost predicate AllTakeOldest(p: Past, ops: seq<Op>) {
    ops == [] || (AllTakeOldest(p, ops[..|ops| - 1])
                  && TakesOldest(After(p, ops[..|ops| - 1]).state.files, ops[|ops| - 1]))
  }

  /** At every moment only the oldest files are gone. */
  ghost predicate AlwaysOldestGone(p: Past, ops: seq<Op>) {
    OnlyOldestGone(After(p, ops).made) && (ops != [] ==> AlwaysOldestGone(p, ops[..|ops| - 1]))
  }

  lemma {:induction false} PrefixExactly(p: Past, ops: seq<Op>, keep: nat)
    requires Holds(p) && Lawful(p, ops, keep) && OnlyOldestGone(p.made)
    ensures AlwaysOldestGone(p, ops) <==> AllTakeOldest(p, ops)
  {
    hide Holds;
    hide Allowed;
    hide OnlyOldestGone;
    hide TakesOldest;
    if ops != [] {
      var front := ops[..|ops| - 1];
      PrefixExactly(p, front, keep);
      LawfulHolds(p, front, keep);
      if OnlyOldestGone(After(p, front).made) {
        OpKeepsPrefix(After(p, front), ops[|ops| - 1], keep);
      }
    }
  }

  ghost predicate Bounded(h: History, limit: nat) {
    forall i :: 0 <= i < |h| ==> |h[i].lines| <= limit
  }

  /** Every file, and the count of the open one, stays within `limit`. */
  ghost predicate Within(p: Past, limit: nat) {
    Bounded(p.made, limit) && (Live(p.state) ==> p.state.active.value.lineIndex <= limit)
  }

  /** A line is counted, or a file opened, only below the limit. */
  ghost predicate StaysBelow(p: Past, op: Op, limit: nat) {
    && (op.Accept? || op.Miss? ==> Live(p.state) && p.state.active.value.lineIndex < limit)
    && (op.Open? ==> op.count <= limit)
  }

  lemma OpBounded(p: Past, op: Op, keep: nat, limit: nat)
    requires Holds(p) && Allowed(p, op, keep) && Within(p, limit) && StaysBelow(p, op, limit)
    ensures Within(Then(p, op), limit)
  {
    LinesStay(p.made, op);
    if op.Append? {
      AppendHolds(p.state.files, p.made, op.name, op.line);
    }
    hide FilesHold;
    hide Record;
    hide CountedLines;
    hide MaxNumber;
    hide HasCurrent;
  }

  // ----- Paths only grow -----

  /** Nothing recorded is ever changed: files keep their names and gain lines. */
  ghost predicate Extends(h: History, g: History) {
    |h| <= |g| && forall i :: 0 <= i < |h| ==> h[i].name == g[i].name && h[i].lines <= g[i].lines
  }

  lemma {:induction false} AfterExtends(p: Past, ops: seq<Op>)
    ensures Extends(p.made, After(p, ops).made)
  {
    if ops != [] {
      AfterExtends(p, ops[..|ops| - 1]);
    }
  }

  ghost predicate NamesDiffer(h: History) {
    forall i, j :: 0 <= i < j < |h| ==> h[i].name != h[j].name
  }

  /** Unless a name is given out twice, whatever lies under a path later begins with what lay
      under it before. */
  lemma PathGrows(p: Past, q: Past, n: LogName)
    requires Holds(p) && Holds(q) && Extends(p.made, q.made) && NamesDiffer(q.made)
    requires n in p.state.files && n in q.state.files
    ensures p.state.files[n] <= q.state.files[n]
  {
    var i :| IsRecordOf(p.made, i, p.state.files, n);
    var j :| IsRecordOf(q.made, j, q.state.files, n);
    assert q.made[i].name == q.made[j].name;
  }
}
