/** The newline framing of the daemon's stdout in `startDaemon`: pieces of any size in, lines out. */
module StdoutFraming {
  import opened LineSplitting
  import opened Sequences

  /** `MAX_STDOUT_BUFFER_CHARS`. */
  function Cap(): nat {
    8 * 1024 * 1024
  }

  // ----- The reader -----

  /** JavaScript's white space and line terminators (ECMAScript, sections 12.2 and 12.3). */
  predicate IsJsSpace(c: char) {
    || '\t' <= c <= '\r' || c == ' ' || c == '\U{A0}' || c == '\U{1680}' || '\U{2000}' <= c <= '\U{200A}'
    || c == '\U{2028}' || c == '\U{2029}' || c == '\U{202F}' || c == '\U{205F}' || c == '\U{3000}' || c == '\U{FEFF}'
  }

  function JsTrim(s: string): string
    decreases |s|
  {
    if s == "" then ""
    else if IsJsSpace(s[0]) then JsTrim(s[1..])
    else if IsJsSpace(s[|s| - 1]) then JsTrim(s[..|s| - 1])
    else s
  }

  function TrimAll(lines: seq<string>): (r: seq<string>)
    ensures |r| == |lines| && forall i :: 0 <= i < |r| ==> r[i] == JsTrim(lines[i])
  {
    seq(|lines|, i requires 0 <= i < |lines| => JsTrim(lines[i]))
  }

  /** What the reader keeps, and the lines it has cut so far (before they are trimmed). */
  datatype Reader = Reader(buffer: string, cut: seq<string>)

  function Read(r: Reader, piece: string): Reader {
    var buffer := r.buffer + piece;
    if |buffer| > Cap() then Reader("", r.cut) else Reader(Residual(buffer), r.cut + Lines(buffer))
  }

  class StdoutReader {
    var buffer: string

    constructor ()
      ensures buffer == ""
    {
      buffer := "";
    }

    /** The `data` handler, returning the lines it hands to `handleLine`. */
    method OnData(piece: string) returns (handed: seq<string>)
      modifies this
      ensures buffer == Read(Reader(old(buffer), []), piece).buffer
      ensures handed == TrimAll(Read(Reader(old(buffer), []), piece).cut)
    {
      buffer := buffer + piece;
      handed := [];
      if |buffer| > Cap() {
        buffer := "";
        return;
      }
      ghost var whole, cut := buffer, [];
      var newlineIndex := IndexOfNewline(buffer);
      while newlineIndex >= 0
        invariant newlineIndex == IndexOfNewline(buffer)
        invariant Lines(whole) == cut + Lines(buffer) && Residual(whole) == Residual(buffer)
        invariant handed == TrimAll(cut)
        decreases |buffer|
      {
        hide IndexOfNewline;
        hide JsTrim;
        var line := buffer[..newlineIndex];
        ghost var rest := buffer[newlineIndex + 1..];
        Extend(cut, line, Lines(rest));
        buffer := buffer[newlineIndex + 1..];
        newlineIndex := IndexOfNewline(buffer);
        handed := handed + [JsTrim(line)];
        cut := cut + [line];
      }
    }
  }

  lemma Extend(cut: seq<string>, line: string, more: seq<string>)
    ensures cut + ([line] + more) == (cut + [line]) + more
    ensures TrimAll(cut + [line]) == TrimAll(cut) + [JsTrim(line)]
  {
  }

  // ----- Any cutting of the stream -----

  function Concat(pieces: seq<string>): string {
    if pieces == [] then "" else Concat(pieces[..|pieces| - 1]) + pieces[|pieces| - 1]
  }

  function ReadAll(pieces: seq<string>): Reader {
    if pieces == [] then Reader("", []) else Read(ReadAll(pieces[..|pieces| - 1]), pieces[|pieces| - 1])
  }

  /** No piece ever takes the buffer over the cap. */
  predicate WithinCap(pieces: seq<string>) {
    pieces == [] ||
    (WithinCap(pieces[..|pieces| - 1])
     && |Residual(Concat(pieces[..|pieces| - 1]))| + |pieces[|pieces| - 1]| <= Cap())
  }

  /** However the stream is cut, the lines handed on are its newline-terminated lines, in order and
      once each, and what is kept is the rest. */
  lemma {:induction false} FramingIgnoresChunking(pieces: seq<string>)
    requires WithinCap(pieces)
    ensures ReadAll(pieces) == Reader(Residual(Concat(pieces)), Lines(Concat(pieces)))
  {
    if pieces != [] {
      var front, last := pieces[..|pieces| - 1], pieces[|pieces| - 1];
      FramingIgnoresChunking(front);
      LinesContinue(Concat(front), last);
    }
  }

  lemma TwoCuttingsAgree(a: seq<string>, b: seq<string>)
    requires WithinCap(a) && WithinCap(b) && Concat(a) == Concat(b)
    ensures ReadAll(a) == ReadAll(b)
  {
    FramingIgnoresChunking(a);
    FramingIgnoresChunking(b);
  }

  /** Exactly when no character is lost: the buffer with the next piece stays within the cap. */
  lemma {:induction false} NothingIsLostExactly(pieces: seq<string>)
    ensures var r := ReadAll(pieces); Joined(r.cut) + r.buffer == Concat(pieces) <==> WithinCap(pieces)
    ensures var r := ReadAll(pieces); !WithinCap(pieces) ==> |Joined(r.cut) + r.buffer| < |Concat(pieces)|
  {
    if pieces != [] {
      var front, last := pieces[..|pieces| - 1], pieces[|pieces| - 1];
      NothingIsLostExactly(front);
      var r := ReadAll(front);
      ReadLoses(r, last);
      if WithinCap(front) {
        FramingIgnoresChunking(front);
        Reassociate(Joined(r.cut), r.buffer, last);
      }
    }
  }

  /** One piece: nothing is lost exactly when the buffer with it stays within the cap. */
  lemma ReadLoses(r: Reader, piece: string)
    ensures var next := Read(r, piece); var before := Joined(r.cut) + (r.buffer + piece);
            && (|r.buffer + piece| <= Cap() ==> Joined(next.cut) + next.buffer == before)
            && (|r.buffer + piece| > Cap() ==> |Joined(next.cut) + next.buffer| < |before|)
  {
    var buffer := r.buffer + piece;
    FramingRejoins(buffer);
    JoinedAppend(r.cut, Lines(buffer));
    Reassociate(Joined(r.cut), Joined(Lines(buffer)), Residual(buffer));
    hide Joined;
    hide Lines;
    hide Residual;
  }

  function Newlines(n: nat): (s: string)
    ensures |s| == n && forall i :: 0 <= i < n ==> s[i] == '\n'
  {
    seq(n, _ => '\n')
  }

  /** The cap is on the buffer with a whole piece, not on an incomplete line: a large enough piece
      of complete, even empty, lines is thrown away. */
  lemma CompleteLinesCanBeDiscarded()
    ensures var piece := Newlines(Cap() + 1);
            Read(Reader("", []), piece) == Reader("", []) && Lines(piece) != [] && Lines(piece)[0] == ""
  {
    var piece := Newlines(Cap() + 1);
    assert "" + piece == piece;
    assert piece[0] == '\n';
  }
}
