/** Compact JSON objects of strings and natural numbers, as `serde_json::to_vec` prints them
    (RFC 8259 section 4), and why no two of them look alike. */
module Json {
  import opened Text

  datatype JsonValue = Str(s: string) | Num(n: nat)

  datatype Field = Field(key: string, value: JsonValue)

  function HexDigit(d: nat): char
    requires d < 16
  {
    if d < 10 then ('0' as int + d) as char else ('a' as int + d - 10) as char
  }

  /** One character inside a JSON string. */
  function EscapeChar(c: char): (r: string)
    ensures r != [] && r[0] != '"'
  {
    if c == '"' then "\\\""
    else if c == '\\' then "\\\\"
    else if c as int == 0x08 then "\\b"
    else if c as int == 0x09 then "\\t"
    else if c as int == 0x0A then "\\n"
    else if c as int == 0x0C then "\\f"
    else if c as int == 0x0D then "\\r"
    else if c as int < 0x20 then "\\u00" + [HexDigit(c as int / 16), HexDigit(c as int % 16)]
    else [c]
  }

  function Escape(s: string): string {
    if s == [] then [] else EscapeChar(s[0]) + Escape(s[1..])
  }

  function EncodeString(s: string): string {
    "\"" + Escape(s) + "\""
  }

  function EncodeValue(v: JsonValue): string {
    match v
    case Str(s) => EncodeString(s)
    case Num(n) => Decimal(n)
  }

  function EncodeField(f: Field): string {
    EncodeString(f.key) + ":" + EncodeValue(f.value)
  }

  function EncodeTail(fields: seq<Field>): string {
    if fields == [] then "}"
    else if |fields| == 1 then EncodeField(fields[0]) + "}"
    else EncodeField(fields[0]) + "," + EncodeTail(fields[1..])
  }

  function EncodeObject(fields: seq<Field>): string {
    "{" + EncodeTail(fields)
  }

  // ----- Every piece ends where the reader can see it -----

  lemma SamePrefix<T>(p: seq<T>, x: seq<T>, y: seq<T>)
    requires p + x == p + y
    ensures x == y
  {
    assert (p + x)[|p|..] == x;
    assert (p + y)[|p|..] == y;
  }

  /** The printed forms of two characters differ at a place both of them have. */
  lemma EscapedFormsDiffer(c: char, d: char) returns (i: nat)
    requires c != d
    ensures i < |EscapeChar(c)| && i < |EscapeChar(d)| && EscapeChar(c)[i] != EscapeChar(d)[i]
  {
    var p, q := EscapeChar(c), EscapeChar(d);
    i := if p[0] != q[0] then 0 else if p[1] != q[1] then 1 else if p[4] != q[4] then 4 else 5;
  }

  lemma DifferentCharsDiffer(c: char, d: char, x: string, y: string)
    requires c != d
    ensures EscapeChar(c) + x != EscapeChar(d) + y
  {
    var i := EscapedFormsDiffer(c, d);
    hide EscapeChar;
    assert (EscapeChar(c) + x)[i] == EscapeChar(c)[i] && (EscapeChar(d) + y)[i] == EscapeChar(d)[i];
  }

  lemma EscapeCharIsPrefixFree(c: char, d: char, x: string, y: string)
    requires EscapeChar(c) + x == EscapeChar(d) + y
    ensures c == d && x == y
  {
    hide EscapeChar;
    if c != d {
      DifferentCharsDiffer(c, d, x, y);
    }
    SamePrefix(EscapeChar(c), x, y);
  }

  lemma EscapeSplits(a: string, x: string)
    ensures a == [] ==> Escape(a) + ("\"" + x) == "\"" + x
    ensures a != [] ==> Escape(a) + ("\"" + x) == EscapeChar(a[0]) + (Escape(a[1..]) + ("\"" + x))
    ensures (Escape(a) + ("\"" + x))[0] == '"' <==> a == []
  {
    hide EscapeChar;
  }

  lemma {:induction false} EscapeIsPrefixFree(a: string, b: string, x: string, y: string)
    requires Escape(a) + ("\"" + x) == Escape(b) + ("\"" + y)
    ensures a == b && x == y
  {
    EscapeSplits(a, x);
    EscapeSplits(b, y);
    hide EscapeChar;
    hide Escape;
    if a == [] {
      SamePrefix("\"", x, y);
    } else {
      EscapeCharIsPrefixFree(a[0], b[0], Escape(a[1..]) + ("\"" + x), Escape(b[1..]) + ("\"" + y));
      EscapeIsPrefixFree(a[1..], b[1..], x, y);
      assert a == [a[0]] + a[1..] && b == [b[0]] + b[1..];
    }
  }

  lemma StringIsPrefixFree(a: string, b: string, x: string, y: string)
    requires EncodeString(a) + x == EncodeString(b) + y
    ensures a == b && x == y
  {
    StringSplits(a, x);
    StringSplits(b, y);
    hide EncodeString;
    SamePrefix("\"", Escape(a) + ("\"" + x), Escape(b) + ("\"" + y));
    EscapeIsPrefixFree(a, b, x, y);
  }

  lemma StringSplits(a: string, x: string)
    ensures EncodeString(a) + x == "\"" + (Escape(a) + ("\"" + x))
  {}

  predicate EndsValue(s: string) {
    s != [] && !IsDigit(s[0])
  }

  function LeadingDigits(s: string): (n: nat)
    ensures n <= |s|
  {
    if s == [] || !IsDigit(s[0]) then 0 else 1 + LeadingDigits(s[1..])
  }

  lemma {:induction false} LeadingDigitsOf(p: string, x: string)
    requires AllDigits(p) && EndsValue(x)
    ensures LeadingDigits(p + x) == |p|
  {
    if p == [] {
      assert p + x == x;
    } else {
      assert (p + x)[1..] == p[1..] + x;
      LeadingDigitsOf(p[1..], x);
    }
  }

  lemma NumberIsPrefixFree(m: nat, n: nat, x: string, y: string)
    requires EndsValue(x) && EndsValue(y) && Decimal(m) + x == Decimal(n) + y
    ensures m == n && x == y
  {
    var p, q := Decimal(m), Decimal(n);
    LeadingDigitsOf(p, x);
    LeadingDigitsOf(q, y);
    assert p == (p + x)[..|p|] == (q + y)[..|q|] == q;
    SamePrefix(p, x, y);
    ValueOfDecimal(m);
    ValueOfDecimal(n);
  }

  lemma ValueStarts(v: JsonValue)
    ensures EncodeValue(v) != [] && (EncodeValue(v)[0] == '"' <==> v.Str?)
  {}

  lemma ValueIsPrefixFree(v: JsonValue, w: JsonValue, x: string, y: string)
    requires EndsValue(x) && EndsValue(y) && EncodeValue(v) + x == EncodeValue(w) + y
    ensures v == w && x == y
  {
    ValueStarts(v);
    ValueStarts(w);
    assert (EncodeValue(v) + x)[0] == EncodeValue(v)[0] && (EncodeValue(w) + y)[0] == EncodeValue(w)[0];
    if v.Str? {
      StringIsPrefixFree(v.s, w.s, x, y);
    } else {
      NumberIsPrefixFree(v.n, w.n, x, y);
    }
  }

  lemma FieldSplits(f: Field, x: string)
    ensures EncodeField(f) + x == EncodeString(f.key) + (":" + (EncodeValue(f.value) + x))
  {}

  lemma FieldIsPrefixFree(f: Field, g: Field, x: string, y: string)
    requires EndsValue(x) && EndsValue(y) && EncodeField(f) + x == EncodeField(g) + y
    ensures f == g && x == y
  {
    hide EncodeValue;
    hide EncodeString;
    FieldSplits(f, x);
    FieldSplits(g, y);
    var u, v := EncodeValue(f.value) + x, EncodeValue(g.value) + y;
    StringIsPrefixFree(f.key, g.key, ":" + u, ":" + v);
    SamePrefix(":", u, v);
    ValueIsPrefixFree(f.value, g.value, x, y);
  }

  lemma {:induction false} TailIsInjective(fs: seq<Field>, gs: seq<Field>)
    requires EncodeTail(fs) == EncodeTail(gs)
    ensures fs == gs
  {
    hide EncodeField;
    if fs == [] || gs == [] {
      FieldStarts(fs);
      FieldStarts(gs);
    } else {
      var x := if |fs| == 1 then "}" else "," + EncodeTail(fs[1..]);
      var y := if |gs| == 1 then "}" else "," + EncodeTail(gs[1..]);
      assert EncodeTail(fs) == EncodeField(fs[0]) + x;
      assert EncodeTail(gs) == EncodeField(gs[0]) + y;
      FieldIsPrefixFree(fs[0], gs[0], x, y);
      if |fs| > 1 && |gs| > 1 {
        assert x[1..] == EncodeTail(fs[1..]) && y[1..] == EncodeTail(gs[1..]);
        TailIsInjective(fs[1..], gs[1..]);
      } else {
        assert x[0] == y[0];
      }
      assert fs == [fs[0]] + fs[1..] && gs == [gs[0]] + gs[1..];
    }
  }

  lemma FieldStarts(fs: seq<Field>)
    ensures fs != [] ==> EncodeTail(fs)[0] == '"'
  {
    if fs != [] {
      assert EncodeField(fs[0])[0] == '"';
    }
  }

  /** Two objects print the same bytes only if they have the same fields in the same order. */
  lemma ObjectIsInjective(fs: seq<Field>, gs: seq<Field>)
    requires EncodeObject(fs) == EncodeObject(gs)
    ensures fs == gs
  {
    assert EncodeObject(fs)[1..] == EncodeTail(fs);
    assert EncodeObject(gs)[1..] == EncodeTail(gs);
    TailIsInjective(fs, gs);
  }
}
