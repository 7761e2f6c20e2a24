/** The `.upriv-root` alias file: its printer, its line reader, and the calls that rewrite it. */
module VaultRootAlias {
  import opened Wrappers
  import opened Text
  import opened LineSplitting

  datatype Alias = Alias(path: string, active: bool)

  datatype AliasError = AliasInvalid | NotAbsolute | HasLineBreak

  /** `Path::is_absolute` on Unix. */
  predicate IsAbsolute(path: string) {
    path != "" && path[0] == '/'
  }

  // ----- Printing -----

  function PathAsAliasLine(path: string): Result<string, AliasError> {
    if !IsAbsolute(path) then Err(NotAbsolute)
    else if '\n' in path || '\r' in path then Err(HasLineBreak)
    else Ok(path)
  }

  function StatusWord(active: bool): string {
    if active then "active" else "inactive"
  }

  function TitleNote(): string {
    "# Upriv vault-root alias " + "(not a vault \U{2014} path pointer only)."
  }

  function TargetNote(): string {
    "# Absolute path to the folder " + "that contains `.upriv/settings.toml`."
  }

  function OriginNote(): string {
    "# Created only when the user " + "chooses \"another folder\"."
  }

  function WarningNote(): string {
    "# Do not put passwords or " + "secrets in this file."
  }


  function StatusNote(active: bool): string {
    if active then
      "# status=active \U{2014} custom_root mode"
        + (" \U{2014} this path is the vault-root" + " (default_root `.upriv` is ignored).")
    else
      "# status=inactive \U{2014} not in use"
        + (" \U{2014} default-root mode is active;" + " path kept if you switch back.")
  }

  function Comments(active: bool): seq<string> {
    [TitleNote(), TargetNote(), OriginNote(), StatusNote(active), WarningNote(), "#"]
  }

  function AliasLines(path: string, active: bool): seq<string> {
    Comments(active) + ["status=" + StatusWord(active), path]
  }

  function AliasFileContents(path: string, active: bool): Result<string, AliasError> {
    match PathAsAliasLine(path)
    case Err(e) => Err(e)
    case Ok(line) => Ok(Joined(AliasLines(line, active)))
  }

  // ----- Reading -----

  /** `str::lines`: a line ends with `\n` or `\r\n`, and an unterminated rest counts when non-empty. */
  function RustLines(raw: string): seq<string> {
    var lines := Lines(raw);
    seq(|lines|, i requires 0 <= i < |lines| => StripCr(lines[i]))
    + (if Residual(raw) == "" then [] else [Residual(raw)])
  }

  function StripCr(line: string): string {
    if line != "" && line[|line| - 1] == '\r' then line[..|line| - 1] else line
  }

  datatype Scan = Scan(active: bool, sawStatus: bool, heal: bool, target: Option<string>)

  function Begin(): Scan {
    Scan(false, false, false, None)
  }

  function StatusOf(value: string): Option<bool> {
    var word := Trim(value);
    if EqualIgnoringCase(word, "active") then Some(true)
    else if EqualIgnoringCase(word, "inactive") then Some(false)
    else None
  }

  function ScanLine(s: Scan, line: string): Scan {
    var trimmed := Trim(line);
    if trimmed == "" || trimmed[0] == '#' then s
    else match StripPrefix(trimmed, "status=")
      case Some(value) =>
        var status := StatusOf(value);
        s.(sawStatus := true, active := status == Some(true), heal := s.heal || status.None?)
      case None => if s.target.None? then s.(target := Some(trimmed)) else s
  }

  function ScanLines(s: Scan, lines: seq<string>): Scan
    decreases |lines|
  {
    if lines == [] then s else ScanLines(ScanLine(s, lines[0]), lines[1..])
  }

  /** The answer, and the file as the read leaves it: an unknown status is rewritten as inactive. */
  datatype Reading = Reading(answer: Result<Option<Alias>, AliasError>, file: Option<string>)

  function Conclude(s: Scan, raw: string): Reading {
    if s.target.None? || !IsAbsolute(s.target.value) then Reading(Err(AliasInvalid), Some(raw))
    else
      var healed := AliasFileContents(s.target.value, false);
      Reading(Ok(Some(Alias(s.target.value, s.sawStatus && s.active))),
              Some(if s.heal && healed.Ok? then healed.value else raw))
  }

  function Read(file: Option<string>): Reading {
    match file
    case None => Reading(Ok(None), None)
    case Some(raw) => Conclude(ScanLines(Begin(), RustLines(raw)), raw)
  }

  class AliasFile {
    var contents: Option<string>

    constructor ()
      ensures contents == None
    {
      contents := None;
    }

    method ReadAlias() returns (answer: Result<Option<Alias>, AliasError>)
      modifies this
      ensures Reading(answer, contents) == Read(old(contents))
    {
      if contents.None? {
        return Ok(None);
      }
      var raw := contents.value;
      var lines := RustLines(raw);
      var active, sawStatus, heal := false, false, false;
      var target: Option<string> := None;
      var k := 0;
      while k < |lines|
        invariant 0 <= k <= |lines|
        invariant contents == Some(raw)
        invariant ScanLines(Begin(), lines) == ScanLines(Scan(active, sawStatus, heal, target), lines[k..])
      {
        assert lines[k..][1..] == lines[k + 1..];
        var trimmed := Trim(lines[k]);
        k := k + 1;
        if trimmed == "" || trimmed[0] == '#' {
          continue;
        }
        var value := StripPrefix(trimmed, "status=");
        if value.Some? {
          sawStatus := true;
          var status := StatusOf(value.value);
          active := status == Some(true);
          heal := heal || status.None?;
          continue;
        }
        if target.None? {
          target := Some(trimmed);
        }
      }
      if target.None? || !IsAbsolute(target.value) {
        return Err(AliasInvalid);
      }
      if heal {
        var healed := AliasFileContents(target.value, false);
        if healed.Ok? {
          contents := Some(healed.value);
        }
      }
      return Ok(Some(Alias(target.value, sawStatus && active)));
    }

    /** `write_vault_root_alias_for_root`. */
    method Activate(root: string) returns (r: Result<(), AliasError>)
      modifies this
      ensures contents == Activated(old(contents), root)
      ensures r.Ok? <==> PathAsAliasLine(root).Ok?
    {
      match AliasFileContents(root, true)
      case Err(e) => r := Err(e);
      case Ok(text) =>
        contents := Some(text);
        r := Ok(());
    }

    /** `deactivate_vault_root_alias`. */
    method Deactivate() returns (r: Result<(), AliasError>)
      modifies this
      ensures contents == Deactivated(old(contents))
    {
      hide ScanLines;
      hide RustLines;
      hide AliasLines;
      hide Joined;
      var read := ReadAlias();
      match read
      case Err(e) => r := Err(e);
      case Ok(None) => r := Ok(());
      case Ok(Some(found)) =>
        match AliasFileContents(found.path, false)
        case Err(e) => r := Err(e);
        case Ok(text) =>
          contents := Some(text);
          r := Ok(());
    }
  }

  function Activated(file: Option<string>, root: string): Option<string> {
    var text := AliasFileContents(root, true);
    if text.Ok? then Some(text.value) else file
  }

  function Deactivated(file: Option<string>): Option<string> {
    var reading := Read(file);
    if reading.answer.Ok? && reading.answer.value.Some? then
      var text := AliasFileContents(reading.answer.value.value.path, false);
      if text.Ok? then Some(text.value) else reading.file
    else reading.file
  }

  // ----- The reader undoes the printer -----

  predicate IsComment(line: string) {
    line != "" && line[0] == '#' && '\n' !in line && line[|line| - 1] != '\r'
  }

  predicate Plain(s: string) {
    s != "" && '\n' !in s && s[|s| - 1] != '\r'
  }

  lemma PlainAppend(a: string, b: string)
    requires Plain(a) && Plain(b)
    ensures Plain(a + b) && (a[0] == '#' ==> IsComment(a + b))
  {
  }

  lemma HashIsComment()
    ensures IsComment("#")
  {
  }

  lemma CommentsAreComments(active: bool)
    ensures forall i :: 0 <= i < |Comments(active)| ==> IsComment(Comments(active)[i])
  {
    hide IsComment;
    hide StatusNote;
    hide TitleNote;
    hide TargetNote;
    hide OriginNote;
    hide WarningNote;
    TitleNoteIsComment();
    TargetNoteIsComment();
    OriginNoteIsComment();
    WarningNoteIsComment();
    StatusNoteIsComment(active);
    HashIsComment();
  }

  lemma TitleNoteIsComment()
    ensures IsComment(TitleNote())
  {
    PlainAppend("# Upriv vault-root alias ", "(not a vault \U{2014} path pointer only).");
    hide IsComment;
    hide Plain;
  }

  lemma TargetNoteIsComment()
    ensures IsComment(TargetNote())
  {
    PlainAppend("# Absolute path to the folder ", "that contains `.upriv/settings.toml`.");
    hide IsComment;
    hide Plain;
  }

  lemma OriginNoteIsComment()
    ensures IsComment(OriginNote())
  {
    PlainAppend("# Created only when the user ", "chooses \"another folder\".");
    hide IsComment;
    hide Plain;
  }

  lemma WarningNoteIsComment()
    ensures IsComment(WarningNote())
  {
    PlainAppend("# Do not put passwords or ", "secrets in this file.");
    hide IsComment;
    hide Plain;
  }

  lemma StatusNoteIsComment(active: bool)
    ensures IsComment(StatusNote(active))
  {
    hide IsComment;
    if active {
      ActiveTailIsPlain();
      assert Plain("# status=active \U{2014} custom_root mode");
      PlainAppend("# status=active \U{2014} custom_root mode",
                  " \U{2014} this path is the vault-root" + " (default_root `.upriv` is ignored).");
    } else {
      InactiveTailIsPlain();
      assert Plain("# status=inactive \U{2014} not in use");
      PlainAppend("# status=inactive \U{2014} not in use",
                  " \U{2014} default-root mode is active;" + " path kept if you switch back.");
    }
  }

  lemma ActiveTailIsPlain()
    ensures Plain(" \U{2014} this path is the vault-root" + " (default_root `.upriv` is ignored).")
  {
    PlainAppend(" \U{2014} this path is the vault-root", " (default_root `.upriv` is ignored).");
  }

  lemma InactiveTailIsPlain()
    ensures Plain(" \U{2014} default-root mode is active;" + " path kept if you switch back.")
  {
    PlainAppend(" \U{2014} default-root mode is active;", " path kept if you switch back.");
  }

  lemma ScanComment(s: Scan, line: string)
    requires IsComment(line)
    ensures ScanLine(s, line) == s && StripCr(line) == line
  {
    TrimEndKeepsFirst(line);
  }

  lemma {:induction false} ScanSkipsComments(s: Scan, comments: seq<string>, rest: seq<string>)
    requires forall i :: 0 <= i < |comments| ==> IsComment(comments[i])
    ensures ScanLines(s, comments + rest) == ScanLines(s, rest)
  {
    hide ScanLine;
    hide IsComment;
    if comments == [] {
      assert comments + rest == rest;
    } else {
      ScanComment(s, comments[0]);
      assert (comments + rest)[1..] == comments[1..] + rest;
      ScanSkipsComments(s, comments[1..], rest);
    }
  }

  lemma ScanStatus(s: Scan, active: bool)
    ensures ScanLine(s, "status=" + StatusWord(active)) == s.(sawStatus := true, active := active)
  {
    var word := StatusWord(active);
    var line := "status=" + word;
    CleanEndsAreKept(word);
    CleanEndsAreKept(line);
    hide Trim;
    assert StripPrefix(line, "status=") == Some(word);
    assert !active ==> |word| != |"active"|;
  }

  lemma ScanPath(s: Scan, path: string)
    requires IsAbsolute(path) && s.target.None?
    ensures ScanLine(s, path) == s.(target := Some(Trim(path))) && IsAbsolute(Trim(path))
  {
    TrimEndKeepsFirst(path);
    var trimmed := Trim(path);
    assert trimmed[0] == '/';
    assert forall rest: string :: ("status=" + rest)[0] == 's';
    assert StripPrefix(trimmed, "status=") == None;
  }

  ghost predicate AreClean(lines: seq<string>) {
    forall i :: 0 <= i < |lines| ==> '\n' !in lines[i] && StripCr(lines[i]) == lines[i]
  }

  lemma AliasLinesAreClean(path: string, active: bool)
    requires PathAsAliasLine(path).Ok?
    ensures AreClean(AliasLines(path, active))
  {
    CommentsAreComments(active);
    hide Comments;
    var lines, n := AliasLines(path, active), |Comments(active)|;
    forall i | 0 <= i < |lines| ensures '\n' !in lines[i] && StripCr(lines[i]) == lines[i] {
      assert i < n ==> IsComment(lines[i]);
      assert i == n ==> lines[i] == "status=" + StatusWord(active);
      assert i == n + 1 ==> lines[i] == path;
    }
  }

  lemma PrintedLines(path: string, active: bool)
    requires PathAsAliasLine(path).Ok?
    ensures RustLines(Joined(AliasLines(path, active))) == AliasLines(path, active)
  {
    var lines := AliasLines(path, active);
    AliasLinesAreClean(path, active);
    hide AliasLines;
    FramingIsUnique(lines, "");
    assert Joined(lines) + "" == Joined(lines);
  }

  /** Reading what was printed gives back the status and the path up to white space at its end,
      and leaves the file alone. */
  lemma ReadUndoesPrint(path: string, active: bool)
    requires PathAsAliasLine(path).Ok?
    ensures var text := AliasFileContents(path, active).value;
            Read(Some(text)) == Reading(Ok(Some(Alias(Trim(path), active))), Some(text))
  {
    hide Comments;
    hide Trim;
    hide RustLines;
    hide Joined;
    hide ScanLines;
    PrintedLines(path, active);
    PrintedScan(path, active);
    ScanPath(Begin(), path);
    hide AliasLines;
  }

  lemma PrintedScan(path: string, active: bool)
    requires IsAbsolute(path)
    ensures ScanLines(Begin(), AliasLines(path, active)) == Scan(active, true, false, Some(Trim(path)))
  {
    hide Comments;
    hide Trim;
    hide ScanLine;
    hide StatusWord;
    CommentsAreComments(active);
    var tail := ["status=" + StatusWord(active), path];
    ScanSkipsComments(Begin(), Comments(active), tail);
    ScanStatus(Begin(), active);
    ScanPath(Scan(active, true, false, None), path);
    assert tail[1..] == [path] && [path][1..] == [];
    assert ScanLines(Begin(), tail) == ScanLines(ScanLine(Begin(), tail[0]), [path]);
    assert ScanLines(Scan(active, true, false, None), [path]) == Scan(active, true, false, Some(Trim(path)));
  }

  // ----- Histories of calls -----

  datatype Call = Activates(root: string) | Deactivates | Reads

  function After(calls: seq<Call>): Option<string> {
    if calls == [] then None
    else
      var file := After(calls[..|calls| - 1]);
      match calls[|calls| - 1]
      case Activates(root) => Activated(file, root)
      case Deactivates => Deactivated(file)
      case Reads => Read(file).file
  }

  /** What the calls say: the last root accepted, and whether it is still in use. */
  function Remembered(calls: seq<Call>): Option<Alias> {
    if calls == [] then None
    else
      var before := Remembered(calls[..|calls| - 1]);
      match calls[|calls| - 1]
      case Activates(root) => if PathAsAliasLine(root).Ok? then Some(Alias(Trim(root), true)) else before
      case Deactivates => if before.Some? then Some(before.value.(active := false)) else None
      case Reads => before
  }

  /** The file is missing, or one the printer wrote for the alias. */
  ghost predicate Prints(file: Option<string>, alias: Option<Alias>) {
    if alias.None? then file.None?
    else exists path :: PathAsAliasLine(path).Ok? && file == Some(AliasFileContents(path, alias.value.active).value)
                        && alias.value.path == Trim(path)
  }

  lemma PrintsReads(file: Option<string>, alias: Option<Alias>)
    requires Prints(file, alias)
    ensures Read(file) == Reading(Ok(alias), file)
    ensures alias.Some? ==> PathAsAliasLine(alias.value.path).Ok? && Trim(alias.value.path) == alias.value.path
  {
    hide AliasLines;
    hide Joined;
    if alias.Some? {
      var path :| PathAsAliasLine(path).Ok? && file == Some(AliasFileContents(path, alias.value.active).value)
                  && alias.value.path == Trim(path);
      ReadUndoesPrint(path, alias.value.active);
      TrimmedIsValid(path);
      hide Read;
    }
  }

  lemma TrimmedIsValid(path: string)
    requires PathAsAliasLine(path).Ok?
    ensures PathAsAliasLine(Trim(path)).Ok? && Trim(Trim(path)) == Trim(path)
  {
    TrimEndKeepsFirst(path);
    TrimIdempotent(path);
  }

  lemma PrintedPrints(path: string, active: bool)
    requires PathAsAliasLine(path).Ok?
    ensures Prints(Some(AliasFileContents(path, active).value), Some(Alias(Trim(path), active)))
  {
    hide AliasFileContents;
    var alias := Alias(Trim(path), active);
    assert alias.path == Trim(path) && alias.active == active;
  }

  lemma DeactivatePrints(file: Option<string>, alias: Option<Alias>)
    requires Prints(file, alias)
    ensures Prints(Deactivated(file), if alias.Some? then Some(alias.value.(active := false)) else None)
  {
    PrintsReads(file, alias);
    if alias.Some? {
      PrintedPrints(alias.value.path, false);
    }
    hide Read;
    hide Trim;
    hide Prints;
  }

  lemma {:induction false} HistoryPrints(calls: seq<Call>)
    ensures Prints(After(calls), Remembered(calls))
  {
    if calls != [] {
      var front := calls[..|calls| - 1];
      HistoryPrints(front);
      PrintsReads(After(front), Remembered(front));
      hide Prints;
      hide Trim;
      hide Read;
      hide Deactivated;
      match calls[|calls| - 1]
      case Activates(root) =>
        if PathAsAliasLine(root).Ok? {
          PrintedPrints(root, true);
        }
      case Deactivates => DeactivatePrints(After(front), Remembered(front));
      case Reads =>
    }
  }

  /** After any calls from a missing file, a read gives the last accepted root, trimmed, and whether
      it was deactivated since; a root comes back unchanged exactly when it is its own trim. */
  lemma HistoryIsRemembered(calls: seq<Call>)
    ensures Read(After(calls)) == Reading(Ok(Remembered(calls)), After(calls))
  {
    hide Read;
    hide Prints;
    HistoryPrints(calls);
    PrintsReads(After(calls), Remembered(calls));
  }

  lemma RootComesBackExactly(calls: seq<Call>, root: string)
    requires PathAsAliasLine(root).Ok?
    ensures Read(After(calls + [Activates(root)])).answer == Ok(Some(Alias(root, true))) <==> Trim(root) == root
  {
    var all := calls + [Activates(root)];
    HistoryIsRemembered(all);
    assert Remembered(all) == Some(Alias(Trim(root), true));
    hide Read;
    hide Trim;
  }

  // ----- Files the printer did not write -----

  ghost predicate ScanFits(s: Scan) {
    (s.target.Some? ==> Trim(s.target.value) == s.target.value) && (s.heal ==> s.sawStatus)
  }

  lemma ScanLineFits(s: Scan, line: string)
    requires ScanFits(s)
    ensures ScanFits(ScanLine(s, line))
  {
    TrimIdempotent(line);
    hide Trim;
    hide StatusOf;
  }

  lemma {:induction false} ScanLinesFit(s: Scan, lines: seq<string>)
    requires ScanFits(s)
    ensures ScanFits(ScanLines(s, lines))
    decreases |lines|
  {
    hide ScanFits;
    hide ScanLine;
    if lines != [] {
      ScanLineFits(s, lines[0]);
      ScanLinesFit(ScanLine(s, lines[0]), lines[1..]);
    }
  }

  /** The read rewrites the file: an unknown status was seen and the target can be printed. */
  predicate Heals(s: Scan) {
    s.heal && s.target.Some? && PathAsAliasLine(s.target.value).Ok?
  }

  /** Reading any file twice gives the same answer exactly unless the first read heals it although
      a later status line said active: it answers active and writes inactive. */
  lemma SecondReadAgreesExactly(raw: string)
    ensures var s := ScanLines(Begin(), RustLines(raw)); var first := Read(Some(raw));
            Read(first.file).answer == first.answer <==> !(Heals(s) && s.active)
  {
    var s := ScanLines(Begin(), RustLines(raw));
    ScanLinesFit(Begin(), RustLines(raw));
    ConcludedTwice(s, raw);
    hide ScanLines;
    hide RustLines;
    hide Conclude;
  }

  lemma ConcludedTwice(s: Scan, raw: string)
    requires ScanFits(s)
    ensures Heals(s) ==> Conclude(s, raw).answer == Ok(Some(Alias(s.target.value, s.active)))
                         && Read(Conclude(s, raw).file).answer == Ok(Some(Alias(s.target.value, false)))
    ensures !Heals(s) ==> Conclude(s, raw).file == Some(raw)
  {
    hide Joined;
    hide AliasLines;
    hide Trim;
    if Heals(s) {
      ReadUndoesPrint(s.target.value, false);
      hide Read;
    }
  }

  predicate UnknownWord(word: string) {
    Trim(word) == word && word != "" && '\n' !in word && StatusOf(word).None?
  }

  /** Every file that names an unknown status, then an active one, then a root. */
  lemma HealForgetsActive(word: string, root: string)
    requires UnknownWord(word) && PathAsAliasLine(root).Ok? && Trim(root) == root
    ensures var raw := Joined(["status=" + word, "status=" + StatusWord(true), root]);
            && Read(Some(raw)).answer == Ok(Some(Alias(root, true)))
            && Read(Read(Some(raw)).file).answer == Ok(Some(Alias(root, false)))
  {
    var lines := ["status=" + word, "status=" + StatusWord(true), root];
    var s := Scan(true, true, true, Some(root));
    ForgottenLines(word, root);
    ForgottenScan(word, root);
    assert Heals(s);
    hide Trim;
    hide RustLines;
    hide Joined;
    hide ScanLines;
    hide StatusWord;
    ConcludedTwice(s, Joined(lines));
    hide Conclude;
    hide UnknownWord;
  }

  lemma ForgottenLines(word: string, root: string)
    requires UnknownWord(word) && PathAsAliasLine(root).Ok?
    ensures var lines := ["status=" + word, "status=" + StatusWord(true), root]; RustLines(Joined(lines)) == lines
  {
    hide Joined;
    hide StatusOf;
    hide Trim;
    var first, second := "status=" + word, "status=" + StatusWord(true);
    StatusLineIsClean(word);
    StatusLineIsClean(StatusWord(true));
    assert StripCr(root) == root && '\n' !in root;
    hide StripCr;
    hide PathAsAliasLine;
    FramingIsUnique([first, second, root], "");
    assert Joined([first, second, root]) + "" == Joined([first, second, root]);
  }

  lemma StatusLineIsClean(word: string)
    requires word != "" && '\n' !in word && !IsWhitespace(word[|word| - 1])
    ensures var line := "status=" + word; '\n' !in line && StripCr(line) == line
  {
    assert '\n' !in "status=";
    assert ("status=" + word)[|"status=" + word| - 1] == word[|word| - 1];
  }

  lemma ForgottenScan(word: string, root: string)
    requires UnknownWord(word) && IsAbsolute(root) && Trim(root) == root
    ensures ScanLines(Begin(), ["status=" + word, "status=" + StatusWord(true), root])
            == Scan(true, true, true, Some(root))
  {
    var first, second := "status=" + word, "status=" + StatusWord(true);
    UnknownStatus(Begin(), word);
    ScanStatus(Scan(false, true, true, None), true);
    ScanPath(Scan(true, true, true, None), root);
    ScanThree(Begin(), first, second, root);
    hide ScanLine;
    hide Trim;
    hide StatusWord;
    hide UnknownWord;
    hide ScanLines;
  }

  lemma ScanThree(s: Scan, a: string, b: string, c: string)
    ensures ScanLines(s, [a, b, c]) == ScanLine(ScanLine(ScanLine(s, a), b), c)
  {
    hide ScanLine;
    assert [a, b, c][1..] == [b, c] && [b, c][1..] == [c] && [c][1..] == [];
    assert ScanLines(ScanLine(s, a), [b, c]) == ScanLines(ScanLine(ScanLine(s, a), b), [c]);
  }

  lemma UnknownStatus(s: Scan, word: string)
    requires UnknownWord(word)
    ensures ScanLine(s, "status=" + word) == s.(sawStatus := true, active := false, heal := true)
  {
    var line := "status=" + word;
    assert line[|line| - 1] == word[|word| - 1];
    CleanEndsAreKept(line);
    hide Trim;
    assert StripPrefix(line, "status=") == Some(word);
  }
}
