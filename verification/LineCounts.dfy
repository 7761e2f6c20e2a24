/** Counting the lines of a log file as text, directly and through the cache of `logging/store.rs`. */
module LineCounts {
  import opened Wrappers
  import opened Text
  import opened LogFormat
  import opened LogDirectory

  /** Lines as `BufRead::lines` yields them: newline-terminated ones and a last unterminated one. */
  function LineCount(text: string): nat {
    if text == [] then 0
    else if text[|text| - 1] == '\n' then Newlines(text)
    else Newlines(text) + 1
  }

  function Newlines(text: string): nat {
    if text == [] then 0 else Newlines(text[..|text| - 1]) + if text[|text| - 1] == '\n' then 1 else 0
  }

  /** `count_lines`: one pass over the reader, saturating at the 32-bit maximum. */
  method CountLines(text: string) returns (count: nat)
    ensures count == if LineCount(text) < 0xFFFF_FFFF then LineCount(text) else 0xFFFF_FFFF
  {
    count := 0;
    var k := 0;
    var open := false;
    while k < |text|
      invariant 0 <= k <= |text|
      invariant open <==> k > 0 && text[k - 1] != '\n'
      invariant count == if Newlines(text[..k]) < 0xFFFF_FFFF then Newlines(text[..k]) else 0xFFFF_FFFF
    {
      assert text[..k + 1][..k] == text[..k];
      open := text[k] != '\n';
      if !open && count < 0xFFFF_FFFF {
        count := count + 1;
      }
      k := k + 1;
    }
    assert text[..k] == text;
    if open && count < 0xFFFF_FFFF {
      count := count + 1;
    }
  }

  /** The bytes of a log file: each formatted line and its newline. */
  function FileText(lines: seq<Line>): string {
    if lines == [] then []
    else
      var last := lines[|lines| - 1];
      FileText(lines[..|lines| - 1]) + FormatLine(last.index, last.entry) + "\n"
  }

  lemma {:induction false} NewlinesOfConcat(a: string, b: string)
    ensures Newlines(a + b) == Newlines(a) + Newlines(b)
  {
    if b == [] {
      assert a + b == a;
    } else {
      NewlinesOfConcat(a, b[..|b| - 1]);
      assert (a + b)[..|a + b| - 1] == a + b[..|b| - 1];
    }
  }

  lemma {:induction false} NoNewlines(s: string)
    requires '\n' !in s
    ensures Newlines(s) == 0
  {
    if s != [] {
      NoNewlines(s[..|s| - 1]);
    }
  }

  /** Counting the text of a file counts its entries, because no formatted line spans two. */
  lemma {:induction false} FileTextHasOneLinePerEntry(lines: seq<Line>)
    requires forall l :: l in lines ==> '\n' !in l.entry.timestamp
    ensures LineCount(FileText(lines)) == Newlines(FileText(lines)) == |lines|
  {
    if lines != [] {
      var front, last := lines[..|lines| - 1], lines[|lines| - 1];
      FileTextHasOneLinePerEntry(front);
      var body := FormatLine(last.index, last.entry);
      LinesHoldNoNewline(last.index, last.entry);
      NoNewlines(body);
      NewlinesOfConcat(FileText(front), body);
      NewlinesOfConcat(FileText(front) + body, "\n");
      assert Newlines("\n") == 1;
      hide FormatLine;
    }
  }

  lemma {:induction false} TextGrows(lines: seq<Line>, more: seq<Line>)
    requires lines <= more
    ensures FileText(lines) <= FileText(more)
    decreases |more|
  {
    if lines == more {
    } else {
      var front := more[..|more| - 1];
      assert lines <= front;
      TextGrows(lines, front);
    }
  }

  datatype CacheEntry = CacheEntry(mtime: int, size: nat, lineCount: nat)

  function Saturated(n: nat): nat {
    if n < 0xFFFF_FFFF then n else 0xFFFF_FFFF
  }

  class LineCountCache {
    var entries: map<string, CacheEntry>
    /** The text each cached count was taken from. */
    ghost var counted: map<string, string>

    constructor ()
      ensures Valid() && counted == map[]
    {
      entries := map[];
      counted := map[];
    }

    ghost predicate Valid()
      reads this
    {
      && entries.Keys == counted.Keys
      && forall p :: p in entries ==>
           entries[p].size == |counted[p]| && entries[p].lineCount == Saturated(LineCount(counted[p]))
    }

    /** While every path only grows by appends, a cached count is the count. */
    method CountLinesCached(path: string, mtime: int, text: string) returns (count: nat)
      requires Valid()
      requires path in counted ==> counted[path] <= text
      modifies this
      ensures Valid() && counted == old(counted)[path := text]
      ensures count == Saturated(LineCount(text))
    {
      if path in entries && entries[path].size == |text| && entries[path].mtime == mtime {
        assert counted[path] == text;
        counted := counted[path := text];
        return entries[path].lineCount;
      }
      count := CountLines(text);
      entries := entries[path := CacheEntry(mtime, |text|, count)];
      counted := counted[path := text];
    }
  }
}
