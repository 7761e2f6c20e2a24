/** Text as newline-terminated lines and a rest. */
module LineSplitting {
  import opened Sequences

  /** The first newline, or -1. */
  function IndexOfNewline(s: string): (i: int)
    ensures -1 <= i < |s|
    ensures 0 <= i ==> s[i] == '\n' && '\n' !in s[..i]
    ensures i < 0 ==> '\n' !in s
  {
    if s == "" then -1
    else if s[0] == '\n' then 0
    else
      var rest := IndexOfNewline(s[1..]);
      assert s == [s[0]] + s[1..];
      if rest < 0 then -1 else
      assert s[..1 + rest] == [s[0]] + s[1..][..rest];
      1 + rest
  }

  /** The newline-terminated lines of a stream, and what follows the last of them. */
  function Lines(s: string): seq<string>
    decreases |s|
  {
    var i := IndexOfNewline(s);
    if i < 0 then [] else [s[..i]] + Lines(s[i + 1..])
  }

  function Residual(s: string): (r: string)
    ensures '\n' !in r && |r| <= |s|
    decreases |s|
  {
    var i := IndexOfNewline(s);
    if i < 0 then s else Residual(s[i + 1..])
  }

  function Joined(lines: seq<string>): string {
    if lines == [] then "" else lines[0] + "\n" + Joined(lines[1..])
  }

  lemma {:induction false} FirstNewlineOf(line: string, rest: string)
    requires '\n' !in line
    ensures IndexOfNewline(line + "\n" + rest) == |line|
    ensures (line + "\n" + rest)[..|line|] == line && (line + "\n" + rest)[|line| + 1..] == rest
  {
    var s := line + "\n" + rest;
    if line == "" {
      assert s[0] == '\n';
    } else {
      assert s[1..] == line[1..] + "\n" + rest;
      FirstNewlineOf(line[1..], rest);
    }
  }

  lemma LinesOfFirst(line: string, rest: string)
    requires '\n' !in line
    ensures Lines(line + "\n" + rest) == [line] + Lines(rest) && Residual(line + "\n" + rest) == Residual(rest)
  {
    FirstNewlineOf(line, rest);
    hide IndexOfNewline;
  }

  /** `Lines` and `Residual` are the only way to write a stream as newline-free lines, each followed
      by a newline, and a newline-free rest. */
  lemma {:induction false} FramingIsUnique(lines: seq<string>, rest: string)
    requires '\n' !in rest && forall i :: 0 <= i < |lines| ==> '\n' !in lines[i]
    ensures Lines(Joined(lines) + rest) == lines && Residual(Joined(lines) + rest) == rest
  {
    var s := Joined(lines) + rest;
    if lines == [] {
      assert s == rest;
    } else {
      var tail := Joined(lines[1..]) + rest;
      Reassociate(lines[0] + "\n", Joined(lines[1..]), rest);
      assert s == lines[0] + "\n" + tail;
      hide Joined;
      LinesOfFirst(lines[0], tail);
      FramingIsUnique(lines[1..], rest);
      hide Lines;
      hide Residual;
      assert lines == [lines[0]] + lines[1..];
    }
  }

  lemma SplitAtNewline(s: string)
    requires 0 <= IndexOfNewline(s)
    ensures var i := IndexOfNewline(s); s == s[..i] + "\n" + s[i + 1..]
  {
  }

  lemma {:induction false} FramingRejoins(s: string)
    ensures Joined(Lines(s)) + Residual(s) == s
    ensures forall i :: 0 <= i < |Lines(s)| ==> '\n' !in Lines(s)[i]
    decreases |s|
  {
    hide IndexOfNewline;
    var i := IndexOfNewline(s);
    if 0 <= i {
      var rest := s[i + 1..];
      FramingRejoins(rest);
      SplitAtNewline(s);
      assert Lines(s)[1..] == Lines(rest);
      Reassociate(s[..i] + "\n", Joined(Lines(rest)), Residual(rest));
    }
  }

  lemma {:induction false} JoinedAppend(a: seq<string>, b: seq<string>)
    ensures Joined(a + b) == Joined(a) + Joined(b)
  {
    if a == [] {
      assert a + b == b;
    } else {
      assert (a + b)[1..] == a[1..] + b;
      JoinedAppend(a[1..], b);
      Reassociate(a[0] + "\n", Joined(a[1..]), Joined(b));
    }
  }

  /** Reading on after a residual gives the lines of the whole stream. */
  lemma {:induction false} LinesContinue(a: string, b: string)
    ensures Lines(a + b) == Lines(a) + Lines(Residual(a) + b)
    ensures Residual(a + b) == Residual(Residual(a) + b)
  {
    hide Lines;
    hide Residual;
    var lines, more := Lines(a), Residual(a) + b;
    FramingRejoins(a);
    FramingRejoins(more);
    JoinedAppend(lines, Lines(more));
    Reassociate(Joined(lines), Residual(a), b);
    Reassociate(Joined(lines), Joined(Lines(more)), Residual(more));
    hide Joined;
    FramingIsUnique(lines + Lines(more), Residual(more));
  }
}
