/** The log directory as a value: a map from recognised names to numbered lines, and what
    reading it back in number order yields. */
module LogDirectory {
  import opened Wrappers
  import opened LogFormat

  /** A canonical log file name (see LogNames for its printed form). */
  datatype LogName = LogName(current: bool, number: nat, stamp: string)

  datatype Line = Line(index: nat, entry: Entry)

  type Files = map<LogName, seq<Line>>

  function Fresh(number: nat, stamp: string): LogName {
    LogName(true, number, stamp)
  }

  function ArchiveOf(n: LogName): LogName {
    n.(current := false)
  }

  // ----- Number order -----

  ghost predicate IsNewest(f: Files, n: LogName) {
    n in f && forall m :: m in f ==> m.number <= n.number
  }

  ghost predicate IsOldest(f: Files, n: LogName) {
    n in f && forall m :: m in f ==> n.number <= m.number
  }

  lemma {:induction false} EndsExist(f: Files) returns (o: LogName, n: LogName)
    requires f != map[]
    ensures IsOldest(f, o) && IsNewest(f, n)
    decreases |f|
  {
    var k :| k in f;
    var rest := f - {k};
    assert forall j :: j in f ==> j == k || j in rest;
    o, n := k, k;
    if rest != map[] {
      var p, q := EndsExist(rest);
      o := if k.number < p.number then k else p;
      n := if k.number < q.number then q else k;
    }
  }

  ghost function Newest(f: Files): (n: LogName)
    requires f != map[]
    ensures IsNewest(f, n)
  {
    assert exists n :: IsNewest(f, n) by { var _, n := EndsExist(f); }
    var n :| IsNewest(f, n);
    n
  }

  ghost function Oldest(f: Files): (n: LogName)
    requires f != map[]
    ensures IsOldest(f, n)
  {
    assert exists n :: IsOldest(f, n) by { var n, _ := EndsExist(f); }
    var n :| IsOldest(f, n);
    n
  }

  ghost function MaxNumber(f: Files): nat {
    if f == map[] then 0 else Newest(f).number
  }

  ghost predicate HasCurrent(f: Files) {
    exists n :: n in f && n.current
  }

  ghost function CurrentOf(f: Files): (n: LogName)
    requires HasCurrent(f)
    ensures n in f && n.current
  {
    var n :| n in f && n.current;
    n
  }

  ghost function Archived(f: Files): Files {
    map n | n in f && !n.current :: f[n]
  }

  // ----- Reading back -----

  /** The contents of the files in increasing number. */
  ghost function Blocks(f: Files): (b: seq<seq<Line>>)
    ensures |b| == |f|
    decreases |f|
  {
    if f == map[] then [] else Blocks(f - {Newest(f)}) + [f[Newest(f)]]
  }

  lemma BlocksOfNewest(f: Files, n: LogName)
    requires n in f && forall m :: m in f && m != n ==> m.number < n.number
    ensures Blocks(f) == Blocks(f - {n}) + [f[n]]
  {
    assert Newest(f) == n;
  }

  ghost function EntriesOf(lines: seq<Line>): (s: seq<Entry>)
    ensures |s| == |lines|
  {
    seq(|lines|, i requires 0 <= i < |lines| => lines[i].entry)
  }

  ghost function Flatten(blocks: seq<seq<Line>>): seq<Entry> {
    if blocks == [] then []
    else Flatten(blocks[..|blocks| - 1]) + EntriesOf(blocks[|blocks| - 1])
  }

  /** The archived files in number order, then the `current-*` file. */
  ghost function ReadBack(f: Files): seq<Entry> {
    Flatten(Blocks(Archived(f))) + if HasCurrent(f) then EntriesOf(f[CurrentOf(f)]) else []
  }

  ghost function TotalLines(f: Files): nat
    decreases |f|
  {
    if f == map[] then 0 else TotalLines(f - {Oldest(f)}) + |f[Oldest(f)]|
  }

  // ----- What pruning counts -----

  /** The archived files whose lines could be counted: those not in `skipped`. */
  ghost function Counted(f: Files, skipped: set<LogName>): Files {
    map n | n in f && !n.current && n !in skipped :: f[n]
  }

  ghost function CountedLines(f: Files, skipped: set<LogName>): nat {
    TotalLines(Counted(f, skipped))
  }

  ghost function OldestCounted(f: Files, skipped: set<LogName>): (n: LogName)
    requires Counted(f, skipped) != map[]
    ensures n in f && !n.current && n !in skipped
    ensures forall m :: m in f && !m.current && m !in skipped ==> n.number <= m.number
  {
    var n := Oldest(Counted(f, skipped));
    assert forall m :: m in f && !m.current && m !in skipped ==> m in Counted(f, skipped);
    n
  }

  lemma SomethingIsCounted(f: Files, skipped: set<LogName>, keep: nat)
    requires CountedLines(f, skipped) > keep
    ensures Counted(f, skipped) != map[]
  {
  }

  // ----- The directory by number -----

  /** No two files carry the same number. */
  ghost predicate Distinct(f: Files) {
    forall m, n :: m in f && n in f && m.number == n.number ==> m == n
  }

  /** What the logger finds of its directory: numbers are distinct and a `current-*` file has the
      largest one. */
  ghost predicate WellKept(f: Files) {
    Distinct(f) && forall c, n :: c in f && c.current && n in f ==> n.number <= c.number
  }

  type FileTable = map<nat, seq<Line>>

  /** The directory seen by number only: prefixes and stamps do not matter. */
  ghost function ByNumber(f: Files): FileTable
    requires Distinct(f)
  {
    map k | k in Numbers(f) :: f[NameOf(f, k)]
  }

  ghost function Numbers(f: Files): set<nat> {
    set n | n in f :: n.number
  }

  ghost function NameOf(f: Files, k: nat): (n: LogName)
    requires k in Numbers(f)
    ensures n in f && n.number == k
  {
    var n :| n in f && n.number == k;
    n
  }

  /** Renaming one file; a file already under the new name is lost, as with `fs::rename`. */
  function Renamed(f: Files, from: LogName, to: LogName): Files
    requires from in f
  {
    (f - {from})[to := f[from]]
  }

  lemma NumberOfFile(f: Files, n: LogName)
    requires Distinct(f) && n in f
    ensures n.number in ByNumber(f) && ByNumber(f)[n.number] == f[n]
  {
  }

  lemma FileOfNumber(f: Files, k: nat) returns (n: LogName)
    requires Distinct(f) && k in ByNumber(f)
    ensures n in f && n.number == k
  {
    n := NameOf(f, k);
  }

  lemma SameTable(m: FileTable, g: FileTable)
    requires forall k :: k in m ==> k in g && g[k] == m[k]
    requires forall k :: k in g ==> k in m
    ensures m == g
  {
  }

  lemma RenameKeepsNumbers(f: Files, n: LogName, m: LogName)
    requires Distinct(f) && n in f && m.number == n.number
    ensures Distinct(Renamed(f, n, m)) && ByNumber(Renamed(f, n, m)) == ByNumber(f)
  {
    var g := Renamed(f, n, m);
    assert forall x :: x in g ==> x == m || (x in f && x != n);
    assert Distinct(g);
    hide ByNumber;
    forall k | k in ByNumber(f) ensures k in ByNumber(g) && ByNumber(g)[k] == ByNumber(f)[k] {
      var x := FileOfNumber(f, k);
      NumberOfFile(f, x);
      NumberOfFile(g, if x == n then m else x);
    }
    forall k | k in ByNumber(g) ensures k in ByNumber(f) {
      var y := FileOfNumber(g, k);
      NumberOfFile(f, if y == m then n else y);
    }
    SameTable(ByNumber(f), ByNumber(g));
  }
}
