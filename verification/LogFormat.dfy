/** One log line as text (`logging/format.rs`) and the rotation threshold (`logging/config.rs`). */
module LogFormat {
  import opened Text

  datatype LogLevel = Debug | Info | Warn | Error {
    function Name(): string {
      match this
      case Debug => "DEBUG"
      case Info => "INFO"
      case Warn => "WARN"
      case Error => "ERROR"
    }
  }

  /** What one call to the logger wants written. */
  datatype Entry = Entry(timestamp: string, level: LogLevel, event: string, fields: seq<(string, string)>)

  function PadRight(s: string, w: nat): (r: string)
    ensures s <= r && |r| >= w
  {
    if |s| >= w then s else s + seq(w - |s|, i requires 0 <= i < w - |s| => ' ')
  }

  function MapChars(s: string, f: char -> char): (r: string)
    ensures |r| == |s| && forall i :: 0 <= i < |s| ==> r[i] == f(s[i])
  {
    seq(|s|, i requires 0 <= i < |s| => f(s[i]))
  }

  function Visible(c: char): (r: char)
    ensures !IsWhitespace(r)
  {
    if IsWhitespace(c) then '_' else c
  }

  function SingleLine(c: char): (r: char)
    ensures r != '\n' && r != '\r'
  {
    if c == '\n' || c == '\r' then ' ' else c
  }

  lemma UnderscoreIsVisible()
    ensures !IsWhitespace('_')
  {
  }

  function SanitizeToken(raw: string): (r: string)
    ensures r != [] && forall c :: c in r ==> !IsWhitespace(c)
  {
    hide Trim;
    var trimmed := Trim(raw);
    if trimmed == [] then
      UnderscoreIsVisible();
      "_"
    else
      hide IsWhitespace;
      MapChars(trimmed, Visible)
  }

  function SanitizeValue(raw: string): (r: string)
    ensures |r| == |raw| && '\n' !in r && '\r' !in r
  {
    MapChars(raw, SingleLine)
  }

  function FormatField(field: (string, string)): string {
    " " + SanitizeToken(field.0) + "=" + SanitizeValue(field.1)
  }

  function FormatFields(fields: seq<(string, string)>): string {
    if fields == [] then [] else FormatFields(fields[..|fields| - 1]) + FormatField(fields[|fields| - 1])
  }

  function FormatHead(index: nat, e: Entry): string {
    Padded(index, 4) + " " + e.timestamp + " " + PadRight(e.level.Name(), 5)
    + " " + PadRight(SanitizeToken(e.event), 18)
  }

  function FormatLine(index: nat, e: Entry): string {
    FormatHead(index, e) + FormatFields(e.fields)
  }

  /** `format_log_line`: the fields are pushed one after the other. */
  method FormatLogLine(index: nat, e: Entry) returns (line: string)
    ensures line == FormatLine(index, e)
    ensures '\n' !in e.timestamp ==> '\n' !in line
  {
    hide FormatHead;
    hide SanitizeToken;
    hide SanitizeValue;
    line := FormatHead(index, e);
    var k := 0;
    while k < |e.fields|
      invariant 0 <= k <= |e.fields|
      invariant line == FormatHead(index, e) + FormatFields(e.fields[..k])
    {
      assert e.fields[..k + 1][..k] == e.fields[..k];
      var (key, value) := e.fields[k];
      var field := " " + SanitizeToken(key) + "=" + SanitizeValue(value);
      assert FormatFields(e.fields[..k + 1]) == FormatFields(e.fields[..k]) + field;
      line := line + field;
      k := k + 1;
    }
    assert e.fields[..k] == e.fields;
    if '\n' !in e.timestamp {
      LinesHoldNoNewline(index, e);
    }
  }

  lemma {:induction false} FieldsHoldNoNewline(fields: seq<(string, string)>)
    ensures '\n' !in FormatFields(fields)
  {
    hide SanitizeToken;
    hide SanitizeValue;
    if fields != [] {
      FieldsHoldNoNewline(fields[..|fields| - 1]);
      var (key, value) := fields[|fields| - 1];
      assert '\n' !in SanitizeToken(key) && '\n' !in SanitizeValue(value);
    }
  }

  /** Whatever event, keys and values hold, the formatted line is one line. */
  lemma LinesHoldNoNewline(index: nat, e: Entry)
    requires '\n' !in e.timestamp
    ensures '\n' !in FormatLine(index, e)
  {
    FieldsHoldNoNewline(e.fields);
    hide SanitizeToken;
    hide Padded;
    hide FormatFields;
    var event := SanitizeToken(e.event);
    assert '\n' !in event && '\n' !in PadRight(event, 18);
    assert '\n' !in e.level.Name() && '\n' !in PadRight(e.level.Name(), 5);
    assert '\n' !in Padded(index, 4);
  }

  lemma {:induction false} DecimalOverflowsAtTenThousand(n: nat)
    ensures |Padded(n, 4)| == 4 <==> n < 10_000
  {
    PaddedWidth(n, 4);
    assert Power10(4) == 10_000;
  }

  /** `effective_entries_per_file`: between 1 and 1000 whatever was configured, so the index of
      a line always prints in four digits. */
  function EffectiveEntriesPerFile(configured: nat): (n: nat)
    ensures 1 <= n <= 1000
    ensures 1 <= configured <= 1000 ==> n == configured
  {
    if configured == 0 then 1000 else if configured < 1000 then configured else 1000
  }
}
