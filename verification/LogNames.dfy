/** Log file names and time stamps as text: what `logging/names.rs`, `time/mod.rs` and
    `logging/store.rs` print and parse. */
module LogNames {
  import opened Wrappers
  import opened Text
  import opened Calendar

  // ----- Printing -----

  /** `utc_filename_stamp` of a Unix second: YYYYMMDDHHmmss. */
  function StampOf(t: DateTime): (s: string)
    ensures AllDigits(s)
  {
    Padded(t.date.year, 4) + Padded(t.date.month, 2) + Padded(t.date.day, 2)
    + Padded(t.hour, 2) + Padded(t.minute, 2) + Padded(t.second, 2)
  }

  function FilenameStamp(seconds: nat): (s: string)
    ensures AllDigits(s)
  {
    StampOf(UtcYmdhms(seconds))
  }

  /** `utc_timestamp_iso_millis`, the date-time form of RFC 3339 section 5.6. */
  function IsoMillis(t: DateTime, millis: nat): string {
    Padded(t.date.year, 4) + "-" + Padded(t.date.month, 2) + "-" + Padded(t.date.day, 2) + "T"
    + Padded(t.hour, 2) + ":" + Padded(t.minute, 2) + ":" + Padded(t.second, 2) + "."
    + Padded(millis, 3) + "Z"
  }

  function CurrentName(seq_: nat, stamp: string): string {
    "current-" + ArchivedName(seq_, stamp)
  }

  function ArchivedName(seq_: nat, stamp: string): string {
    Padded(seq_, 6) + "-" + stamp + ".log"
  }

  /** `archive_current_path`: drop the `current-` prefix, or archive as is. */
  function ArchiveName(filename: string): string {
    match StripPrefix(filename, "current-")
    case Some(name) => name
    case None => filename
  }

  // ----- Parsing -----

  predicate IsStamp(s: string) {
    |s| == 14 && AllDigits(s)
  }

  function ParseCurrentLogName(filename: string): Option<(nat, string)> {
    match StripPrefix(filename, "current-")
    case None => None
    case Some(rest) =>
      match SplitOnce(rest, '-')
      case None => None
      case Some((seqPart, stampPart)) =>
        match StripSuffix(stampPart, ".log")
        case None => None
        case Some(stamp) =>
          if !IsStamp(stamp) then None
          else match ParseU32(seqPart)
            case None => None
            case Some(n) => Some((n, stamp))
  }

  function ParseArchivedLogName(filename: string): Option<(nat, string)> {
    if "current-" <= filename then None
    else match StripSuffix(filename, ".log")
      case None => None
      case Some(rest) =>
        match SplitOnce(rest, '-')
        case None => None
        case Some((seqPart, stamp)) =>
          if !IsStamp(stamp) then None
          else match ParseU32(seqPart)
            case None => None
            case Some(n) => Some((n, stamp))
  }

  function StampToIso(stamp: string): Option<string> {
    if |stamp| != 14 then None
    else Some(stamp[..4] + "-" + stamp[4..6] + "-" + stamp[6..8] + "T" + stamp[8..10] + ":"
              + stamp[10..12] + ":" + stamp[12..14] + ".000Z")
  }

  // ----- Round trips -----

  /** Both parsers recover exactly what the logger printed; stripping the prefix turns one name
      into the other. It works for every 32-bit number and exactly for 14-digit stamps. */
  lemma NamesRoundTrip(seq_: nat, stamp: string)
    requires AllDigits(stamp)
    ensures var parsed := if seq_ < 0x1_0000_0000 && |stamp| == 14 then Some((seq_, stamp)) else None;
            && ParseCurrentLogName(CurrentName(seq_, stamp)) == parsed
            && ParseArchivedLogName(ArchivedName(seq_, stamp)) == parsed
    ensures ArchiveName(CurrentName(seq_, stamp)) == ArchivedName(seq_, stamp)
    ensures ParseArchivedLogName(CurrentName(seq_, stamp)).None?
    ensures ParseCurrentLogName(ArchivedName(seq_, stamp)).None?
  {
    var n := Padded(seq_, 6);
    ParseU32OfPadded(seq_, 6);
    var tail := stamp + ".log";
    var archived := ArchivedName(seq_, stamp);
    assert CurrentName(seq_, stamp) == "current-" + archived;
    assert archived == n + ['-'] + tail;
    SplitOnceAt(n, '-', tail);
    assert StripSuffix(tail, ".log") == Some(stamp);
    assert archived == (n + ['-'] + stamp) + ".log";
    assert StripSuffix(archived, ".log") == Some(n + ['-'] + stamp);
    SplitOnceAt(n, '-', stamp);
    assert archived[0] == n[0];
  }

  lemma StampWidth(seconds: nat)
    ensures |FilenameStamp(seconds)| == 14 <==> UtcYmdhms(seconds).date.year <= 9999
  {
    var t := UtcYmdhms(seconds);
    FieldsAreNarrow(seconds);
    PaddedWidth(t.date.year, 4);
    assert Power10(4) == 10_000;
  }

  lemma FieldsAreNarrow(seconds: nat)
    ensures var t := UtcYmdhms(seconds);
            && |Padded(t.date.month, 2)| == |Padded(t.date.day, 2)| == 2
            && |Padded(t.hour, 2)| == |Padded(t.minute, 2)| == |Padded(t.second, 2)| == 2
  {
    UtcYmdhmsIsExact(seconds);
    DateOfDayIsGregorian(seconds / 86_400);
    DayNumberOfDate(seconds / 86_400);
    hide DateOfDay;
    var t := UtcYmdhms(seconds);
    assert Power10(2) == 100;
    PaddedWidth(t.date.month, 2);
    PaddedWidth(t.date.day, 2);
    PaddedWidth(t.hour, 2);
    PaddedWidth(t.minute, 2);
    PaddedWidth(t.second, 2);
  }

  /** A printed name is recognised again exactly until the end of year 9999. */
  lemma PrintedNamesAreRecognised(seq_: nat, seconds: nat)
    requires seq_ < 0x1_0000_0000
    ensures var stamp := FilenameStamp(seconds);
            ParseCurrentLogName(CurrentName(seq_, stamp)) == Some((seq_, stamp)) <==> |stamp| == 14
    ensures |FilenameStamp(seconds)| == 14 <==> UtcYmdhms(seconds).date.year <= 9999
  {
    NamesRoundTrip(seq_, FilenameStamp(seconds));
    StampWidth(seconds);
  }

  /** The listing shows the RFC 3339 form of the very second the stamp was printed in. */
  lemma StampToIsoIsExact(seconds: nat)
    requires UtcYmdhms(seconds).date.year <= 9999
    ensures StampToIso(FilenameStamp(seconds)) == Some(IsoMillis(UtcYmdhms(seconds), 0))
  {
    StampWidth(seconds);
    FieldsAreNarrow(seconds);
    hide UtcYmdhms;
    var t, s := UtcYmdhms(seconds), FilenameStamp(seconds);
    assert s[..4] == Padded(t.date.year, 4);
    assert s[4..6] == Padded(t.date.month, 2);
    assert s[6..8] == Padded(t.date.day, 2);
    assert s[8..10] == Padded(t.hour, 2);
    assert s[10..12] == Padded(t.minute, 2);
    assert s[12..14] == Padded(t.second, 2);
    assert Decimal(0) == ['0'] && Padded(0, 3) == "000";
    assert IsoMillis(t, 0) == Padded(t.date.year, 4) + "-" + Padded(t.date.month, 2) + "-" + Padded(t.date.day, 2) + "T"
      + Padded(t.hour, 2) + ":" + Padded(t.minute, 2) + ":" + Padded(t.second, 2) + ".000Z";
  }

  // ----- Order -----

  /** Order of file names: the first differing character decides. */
  predicate LexLess(a: string, b: string)
    requires |a| == |b|
  {
    a != [] && (a[0] < b[0] || (a[0] == b[0] && LexLess(a[1..], b[1..])))
  }

  lemma {:induction false} ValueBound(s: string)
    requires AllDigits(s)
    ensures Value(s) < Power10(|s|)
  {
    if s != [] {
      ValueBound(s[..|s| - 1]);
    }
  }

  lemma ValueOfDigit(s: string)
    requires |s| == 1 && AllDigits(s)
    ensures Value(s) == DigitValue(s[0])
  {
    assert s[..0] == [];
  }

  lemma LeadingDigit(s: string)
    requires s != [] && AllDigits(s)
    ensures Value(s) == DigitValue(s[0]) * Power10(|s| - 1) + Value(s[1..])
  {
    hide Power10;
    hide Value;
    assert s == s[..1] + s[1..];
    ValueOfConcat(s[..1], s[1..]);
    ValueOfDigit(s[..1]);
  }

  lemma PositionalOrder(x: nat, u: nat, y: nat, v: nat, p: nat)
    requires u < p && v < p
    ensures x * p + u < y * p + v <==> x < y || (x == y && u < v)
  {
    if x < y {
      ScaledGap(p, x, y);
    } else if y < x {
      ScaledGap(p, y, x);
    }
  }

  lemma {:induction false} LexIsNumeric(a: string, b: string)
    requires |a| == |b| && AllDigits(a) && AllDigits(b)
    ensures LexLess(a, b) <==> Value(a) < Value(b)
  {
    if a != [] {
      LeadingDigit(a);
      LeadingDigit(b);
      ValueBound(a[1..]);
      ValueBound(b[1..]);
      LexIsNumeric(a[1..], b[1..]);
      hide Value;
      PositionalOrder(DigitValue(a[0]), Value(a[1..]), DigitValue(b[0]), Value(b[1..]), Power10(|a| - 1));
    }
  }

  lemma ValueOfStamp(seconds: nat)
    ensures Value(FilenameStamp(seconds)) == Ordinal(UtcYmdhms(seconds))
  {
    FieldsAreNarrow(seconds);
    hide UtcYmdhms;
    var t := UtcYmdhms(seconds);
    assert Power10(2) == 100;
    var s1 := Padded(t.date.year, 4);
    var s2 := s1 + Padded(t.date.month, 2);
    var s3 := s2 + Padded(t.date.day, 2);
    var s4 := s3 + Padded(t.hour, 2);
    var s5 := s4 + Padded(t.minute, 2);
    ValueOfConcat(s1, Padded(t.date.month, 2));
    ValueOfConcat(s2, Padded(t.date.day, 2));
    ValueOfConcat(s3, Padded(t.hour, 2));
    ValueOfConcat(s4, Padded(t.minute, 2));
    ValueOfConcat(s5, Padded(t.second, 2));
    ValueOfPadded(t.date.year, 4);
    ValueOfPadded(t.date.month, 2);
    ValueOfPadded(t.date.day, 2);
    ValueOfPadded(t.hour, 2);
    ValueOfPadded(t.minute, 2);
    ValueOfPadded(t.second, 2);
  }

  /** Stamps sort in time order. */
  lemma StampOrderIsTimeOrder(a: nat, b: nat)
    requires DateAfter(a / 86_400).year <= 9999 && DateAfter(b / 86_400).year <= 9999
    ensures |FilenameStamp(a)| == |FilenameStamp(b)| == 14
    ensures LexLess(FilenameStamp(a), FilenameStamp(b)) <==> a < b
  {
    UtcYmdhmsIsExact(a);
    UtcYmdhmsIsExact(b);
    StampWidth(a);
    StampWidth(b);
    hide UtcYmdhms;
    ValueOfStamp(a);
    ValueOfStamp(b);
    LexIsNumeric(FilenameStamp(a), FilenameStamp(b));
    if a < b {
      OrdinalIsMonotone(a, b);
    } else if b < a {
      OrdinalIsMonotone(b, a);
    }
  }
}
