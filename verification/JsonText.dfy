/**
 JSON text: json.dumps and json.loads (RFC 8259 sections 4-7) without floats.
 The parser reads one value from the front of a text and returns what is left.
 */
module JsonText {
  import opened Json
  import opened Wrappers

  /** dumps options: ", " and ": " or the compact "," and ":"; escape everything outside ASCII or not. */
  datatype Style = Style(spaced: bool, ascii: bool)

  const COMPACT := Style(false, false)
  const DEFAULT := Style(true, true)
  const READABLE := Style(true, false)

  // ---------------------------------------------------------------- numbers

  predicate IsDigit(c: char) { '0' <= c <= '9' }

  predicate StartsWithDigit(s: string) { s != [] && IsDigit(s[0]) }

  function Digit(d: int): char
    requires 0 <= d < 10
  {
    ('0' as int + d) as char
  }

  function PrintNat(n: nat): (r: string)
    ensures r != [] && forall i | 0 <= i < |r| :: IsDigit(r[i])
  {
    if n < 10 then [Digit(n)] else PrintNat(n / 10) + [Digit(n % 10)]
  }

  function PrintInt(n: int): string {
    if n < 0 then "-" + PrintNat(-n) else PrintNat(n)
  }

  /** Reads digits for as long as there are any, continuing the number read so far. */
  function ParseDigits(s: string, soFar: nat): (r: (nat, string))
    ensures |r.1| <= |s|
  {
    if StartsWithDigit(s) then ParseDigits(s[1..], soFar * 10 + (s[0] as int - '0' as int))
    else (soFar, s)
  }

  /** A number has no leading zeros: after a zero it is over. */
  function ParseNat(s: string): (r: (nat, string))
    requires StartsWithDigit(s)
    ensures |r.1| < |s|
  {
    if s[0] == '0' then (0, s[1..]) else ParseDigits(s[1..], s[0] as int - '0' as int)
  }

  lemma {:induction false} ParseDigitsPrintNat(n: nat, rest: string)
    ensures ParseDigits(PrintNat(n) + rest, 0) == ParseDigits(rest, n)
  {
    if n < 10 {
      assert (PrintNat(n) + rest)[1..] == rest;
    } else {
      var d := [Digit(n % 10)];
      assert PrintNat(n) + rest == PrintNat(n / 10) + (d + rest);
      ParseDigitsPrintNat(n / 10, d + rest);
      assert (d + rest)[1..] == rest;
    }
  }

  // ---------------------------------------------------------------- strings

  function HexDigit(d: int): char
    requires 0 <= d < 16
  {
    if d < 10 then Digit(d) else ('a' as int + (d - 10)) as char
  }

  function HexValue(c: char): Option<int> {
    if IsDigit(c) then Some(c as int - '0' as int)
    else if 'a' <= c <= 'f' then Some(c as int - 'a' as int + 10)
    else if 'A' <= c <= 'F' then Some(c as int - 'A' as int + 10)
    else None
  }

  /** A UTF-16 code unit written as a backslash, u and four digits. */
  function UnicodeEscape(n: int): (r: string)
    requires 0 <= n < 0x1_0000
    ensures |r| == 6
  {
    "\\u" + [HexDigit(n / 16 / 16 / 16), HexDigit(n / 16 / 16 % 16), HexDigit(n / 16 % 16), HexDigit(n % 16)]
  }

  function ParseUnicodeEscape(s: string): Option<int> {
    if |s| < 6 || s[0] != '\\' || s[1] != 'u' then None
    else
      var a :- HexValue(s[2]);
      var b :- HexValue(s[3]);
      var c :- HexValue(s[4]);
      var d :- HexValue(s[5]);
      Some(((a * 16 + b) * 16 + c) * 16 + d)
  }

  lemma ParseUnicodeEscapeOf(n: int, rest: string)
    requires 0 <= n < 0x1_0000
    ensures ParseUnicodeEscape(UnicodeEscape(n) + rest) == Some(n)
  {
    var s := UnicodeEscape(n) + rest;
    var p, q, r := n / 16, n / 16 / 16, n / 16 / 16 / 16;
    assert n == p * 16 + n % 16 && p == q * 16 + p % 16 && q == r * 16 + q % 16;
    assert s[2] == HexDigit(r) && s[3] == HexDigit(q % 16) && s[4] == HexDigit(p % 16) && s[5] == HexDigit(n % 16);
  }

  function EscapeChar(c: char, ascii: bool): string {
    if c == '\"' then "\\\""
    else if c == '\\' then "\\\\"
    else if c == '\n' then "\\n"
    else if c == '\r' then "\\r"
    else if c == '\t' then "\\t"
    else if c == '\U{08}' then "\\b"
    else if c == '\U{0C}' then "\\f"
    else if c < ' ' then UnicodeEscape(c as int)
    else if !ascii || c <= '~' then [c]
    else if c as int < 0x1_0000 then UnicodeEscape(c as int)
    else
      var n := c as int - 0x1_0000;
      UnicodeEscape(0xD800 + n / 1024) + UnicodeEscape(0xDC00 + n % 1024)
  }

  function Escape(s: string, ascii: bool): string {
    if s == [] then [] else EscapeChar(s[0], ascii) + Escape(s[1..], ascii)
  }

  function PrintString(s: string, ascii: bool): string { "\"" + Escape(s, ascii) + "\"" }

  /** One character of a string literal and how much text it takes. */
  function ParseChar(s: string): (r: Option<(char, nat)>)
    requires s != []
    ensures r.Some? ==> 1 <= r.value.1 <= |s|
  {
    if s[0] != '\\' then if s[0] < ' ' then None else Some((s[0], 1))
    else if |s| < 2 then None
    else if s[1] == '\"' || s[1] == '\\' || s[1] == '/' then Some((s[1], 2))
    else if s[1] == 'n' then Some(('\n', 2))
    else if s[1] == 'r' then Some(('\r', 2))
    else if s[1] == 't' then Some(('\t', 2))
    else if s[1] == 'b' then Some(('\U{08}', 2))
    else if s[1] == 'f' then Some(('\U{0C}', 2))
    else
      var n :- ParseUnicodeEscape(s);
      if 0 <= n < 0xD800 || 0xE000 <= n < 0x1_0000 then Some((n as char, 6))
      else if 0xD800 <= n < 0xDC00 then
        var low :- ParseUnicodeEscape(s[6..]);
        if 0xDC00 <= low < 0xE000 then
          Some(((0x1_0000 + (n - 0xD800) * 1024 + (low - 0xDC00)) as char, 12))
        else None
      else None
  }

  /** The rest of a string literal whose opening quote has been read. */
  function ParseChars(s: string): (r: Option<(string, string)>)
    ensures r.Some? ==> |r.value.1| < |s|
  {
    if s == [] then None
    else if s[0] == '\"' then Some(([], s[1..]))
    else
      var (c, k) :- ParseChar(s);
      var (cs, rest) :- ParseChars(s[k..]);
      Some(([c] + cs, rest))
  }

  lemma ParseCharUnicodeEscape(n: int, rest: string)
    requires 0 <= n < 0xD800 || 0xE000 <= n < 0x1_0000
    ensures ParseChar(UnicodeEscape(n) + rest) == Some((n as char, 6))
  {
    var s := UnicodeEscape(n) + rest;
    ParseUnicodeEscapeOf(n, rest);
    assert s[0] == '\\' && s[1] == 'u';
  }

  lemma ParseCharPair(s: string, hi: int, lo: int)
    requires 12 <= |s| && s[0] == '\\' && s[1] == 'u'
    requires ParseUnicodeEscape(s) == Some(hi) && 0xD800 <= hi < 0xDC00
    requires ParseUnicodeEscape(s[6..]) == Some(lo) && 0xDC00 <= lo < 0xE000
    ensures ParseChar(s) == Some(((0x1_0000 + (hi - 0xD800) * 1024 + (lo - 0xDC00)) as char, 12))
  {
    hide ParseUnicodeEscape;
  }

  lemma ParseCharSurrogates(n: int, rest: string)
    requires 0 <= n < 0x10_0000
    ensures ParseChar(UnicodeEscape(0xD800 + n / 1024) + UnicodeEscape(0xDC00 + n % 1024) + rest)
         == Some(((0x1_0000 + n) as char, 12))
  {
    var hi, lo := 0xD800 + n / 1024, 0xDC00 + n % 1024;
    var first, second := UnicodeEscape(hi), UnicodeEscape(lo);
    assert first[0] == '\\' && first[1] == 'u';
    hide *;
    var tail := second + rest;
    var s := first + second + rest;
    assert s == first + tail && s[6..] == tail;
    ParseUnicodeEscapeOf(hi, tail);
    ParseUnicodeEscapeOf(lo, rest);
    ParseCharPair(s, hi, lo);
  }

  predicate NeedsUnicodeEscape(c: char, ascii: bool) {
    (c < ' ' && c !in "\n\r\t\U{08}\U{0C}") || (ascii && '~' < c)
  }

  lemma ParseCharShort(c: char, ascii: bool, rest: string)
    requires !NeedsUnicodeEscape(c, ascii)
    ensures var e := EscapeChar(c, ascii);
            e != [] && e[0] != '\"' && ParseChar(e + rest) == Some((c, |e|))
  {
    var e := EscapeChar(c, ascii);
    assert e == [c] || (|e| == 2 && e[0] == '\\');
    assert (e + rest)[0] == e[0] && (|e| == 2 ==> (e + rest)[1] == e[1]);
  }

  lemma ParseCharLong(c: char, ascii: bool, rest: string)
    requires NeedsUnicodeEscape(c, ascii)
    ensures var e := EscapeChar(c, ascii);
            e != [] && e[0] != '\"' && ParseChar(e + rest) == Some((c, |e|))
  {
    hide ParseChar, ParseUnicodeEscape, HexDigit;
    if c as int < 0x1_0000 {
      ParseCharUnicodeEscape(c as int, rest);
    } else {
      ParseCharSurrogates(c as int - 0x1_0000, rest);
    }
  }

  lemma ParseCharEscape(c: char, ascii: bool, rest: string)
    ensures var e := EscapeChar(c, ascii);
            e != [] && e[0] != '\"' && ParseChar(e + rest) == Some((c, |e|))
  {
    hide *;
    if NeedsUnicodeEscape(c, ascii) { ParseCharLong(c, ascii, rest); } else { ParseCharShort(c, ascii, rest); }
  }

  lemma {:induction false} ParseCharsEscape(s: string, ascii: bool, rest: string)
    ensures ParseChars(Escape(s, ascii) + "\"" + rest) == Some((s, rest))
  {
    var t := Escape(s, ascii) + "\"" + rest;
    if s == [] {
      assert t == "\"" + rest;
    } else {
      var e, tail := EscapeChar(s[0], ascii), Escape(s[1..], ascii) + "\"" + rest;
      ParseCharsEscape(s[1..], ascii, rest);
      ParseCharEscape(s[0], ascii, tail);
      assert t == e + tail && t[|e|..] == tail;
      assert s == [s[0]] + s[1..];
    }
  }

  // ---------------------------------------------------------------- values

  function Comma(st: Style): string { if st.spaced then ", " else "," }

  function Colon(st: Style): string { if st.spaced then ": " else ":" }

  /** json.dumps */
  function Print(v: Json, st: Style): string
    decreases v, 1
  {
    match v
    case Null => "null"
    case Bool(b) => if b then "true" else "false"
    case Int(n) => PrintInt(n)
    case Str(s) => PrintString(s, st.ascii)
    case Arr(items) =>
      if items == [] then "[]" else "[" + Print(items[0], st) + PrintItemTail(items[1..], st)
    case Obj(fields) =>
      if fields == [] then "{}" else "{" + PrintField(fields[0], st) + PrintFieldTail(fields[1..], st)
  }

  function PrintItemTail(items: seq<Json>, st: Style): string
    decreases items, 0
  {
    if items == [] then "]" else Comma(st) + Print(items[0], st) + PrintItemTail(items[1..], st)
  }

  function PrintField(f: Field, st: Style): string
    decreases f, 0
  {
    PrintString(f.key, st.ascii) + Colon(st) + Print(f.value, st)
  }

  function PrintFieldTail(fields: seq<Field>, st: Style): string
    decreases fields, 0
  {
    if fields == [] then "}" else Comma(st) + PrintField(fields[0], st) + PrintFieldTail(fields[1..], st)
  }

  predicate IsSpace(c: char) { c == ' ' || c == '\n' || c == '\r' || c == '\t' }

  function SkipSpace(s: string): (r: string)
    ensures |r| <= |s|
    ensures r == [] || !IsSpace(r[0])
  {
    if s != [] && IsSpace(s[0]) then SkipSpace(s[1..]) else s
  }

  /** Reads one value from the front of the text. */
  function ParseValue(text: string): (r: Option<(Json, string)>)
    ensures r.Some? ==> |r.value.1| < |text|
    decreases |text|, 1
  {
    var s := SkipSpace(text);
    if s == [] then None
    else if s[0] == '[' then
      var t := SkipSpace(s[1..]);
      if t != [] && t[0] == ']' then Some((Arr([]), t[1..]))
      else
        var (v, r) :- ParseValue(t);
        var (vs, rest) :- ParseItemTail(r);
        Some((Arr([v] + vs), rest))
    else if s[0] == '{' then
      var t := SkipSpace(s[1..]);
      if t != [] && t[0] == '}' then Some((Obj([]), t[1..]))
      else
        var (f, r) :- ParseField(t);
        var (fs, rest) :- ParseFieldTail(r);
        Some((Obj([f] + fs), rest))
    else ParseScalar(s)
  }

  function ParseScalar(s: string): (r: Option<(Json, string)>)
    requires s != []
    ensures r.Some? ==> |r.value.1| < |s|
  {
    if s[0] == '\"' then
      var (cs, rest) :- ParseChars(s[1..]);
      Some((Str(cs), rest))
    else if s[0] == '-' && StartsWithDigit(s[1..]) then
      var (n, rest) := ParseNat(s[1..]);
      Some((Int(-(n as int)), rest))
    else if StartsWithDigit(s) then
      var (n, rest) := ParseNat(s);
      Some((Int(n), rest))
    else if "null" <= s then Some((Null, s[4..]))
    else if "true" <= s then Some((Bool(true), s[4..]))
    else if "false" <= s then Some((Bool(false), s[5..]))
    else None
  }

  function ParseItemTail(text: string): (r: Option<(seq<Json>, string)>)
    ensures r.Some? ==> |r.value.1| < |text|
    decreases |text|, 0
  {
    var s := SkipSpace(text);
    if s == [] then None
    else if s[0] == ']' then Some(([], s[1..]))
    else if s[0] == ',' then
      var (v, r) :- ParseValue(s[1..]);
      var (vs, rest) :- ParseItemTail(r);
      Some(([v] + vs, rest))
    else None
  }

  function ParseField(text: string): (r: Option<(Field, string)>)
    ensures r.Some? ==> |r.value.1| < |text|
    decreases |text|, 0
  {
    var s := SkipSpace(text);
    if s == [] || s[0] != '\"' then None
    else
      var (key, r) :- ParseChars(s[1..]);
      var t := SkipSpace(r);
      if t == [] || t[0] != ':' then None
      else
        var (v, rest) :- ParseValue(t[1..]);
        Some((Field(key, v), rest))
  }

  function ParseFieldTail(text: string): (r: Option<(seq<Field>, string)>)
    ensures r.Some? ==> |r.value.1| < |text|
    decreases |text|, 0
  {
    var s := SkipSpace(text);
    if s == [] then None
    else if s[0] == '}' then Some(([], s[1..]))
    else if s[0] == ',' then
      var (f, r) :- ParseField(s[1..]);
      var (fs, rest) :- ParseFieldTail(r);
      Some(([f] + fs, rest))
    else None
  }

  /** json.loads: one value and nothing after it. */
  function Loads(text: string): Option<Json> {
    var (v, rest) :- ParseValue(text);
    if SkipSpace(rest) == [] then Some(v) else None
  }

  function Dumps(v: Json, st: Style): string { Print(v, st) }

  // ---------------------------------------------------------------- round trip

  lemma {:induction false} NoLeadingZero(n: nat)
    ensures n > 0 ==> PrintNat(n)[0] != '0'
  {
    if n >= 10 { NoLeadingZero(n / 10); }
  }

  lemma ParseNatPrint(n: nat, rest: string)
    requires !StartsWithDigit(rest)
    ensures StartsWithDigit(PrintNat(n) + rest)
    ensures ParseNat(PrintNat(n) + rest) == (n, rest)
  {
    ParseDigitsPrintNat(n, rest);
    NoLeadingZero(n);
    var s := PrintNat(n) + rest;
    assert IsDigit(PrintNat(n)[0]) && s[0] == PrintNat(n)[0];
    if n == 0 {
      assert s[1..] == rest;
    } else {
      assert ParseDigits(s, 0) == ParseDigits(s[1..], s[0] as int - '0' as int);
      assert ParseDigits(rest, n) == (n, rest);
    }
  }

  lemma ParseIntPrint(n: int, rest: string)
    requires !StartsWithDigit(rest)
    ensures ParseScalar(PrintInt(n) + rest) == Some((Int(n), rest))
  {
    hide ParseChars, PrintNat;
    if n < 0 {
      ParseNatPrint(-n, rest);
      var s := "-" + PrintNat(-n) + rest;
      assert s[1..] == PrintNat(-n) + rest;
      hide ParseNat;
      assert ParseScalar(s) == Some((Int(n), rest));
    } else {
      var s := PrintNat(n) + rest;
      ParseNatPrint(n, rest);
      hide ParseNat;
      assert ParseScalar(s) == Some((Int(n), rest));
    }
  }

  lemma ParseStringPrint(cs: string, ascii: bool, rest: string)
    ensures ParseScalar(PrintString(cs, ascii) + rest) == Some((Str(cs), rest))
  {
    var s := PrintString(cs, ascii) + rest;
    var body := Escape(cs, ascii) + "\"" + rest;
    ParseCharsEscape(cs, ascii, rest);
    hide Escape, ParseChars, ParseNat;
    assert s[0] == '\"' && s[1..] == body;
  }

  lemma ParseWordPrint(v: Json, st: Style, rest: string)
    requires v.Null? || v.Bool?
    ensures ParseScalar(Print(v, st) + rest) == Some((v, rest))
  {
    hide ParseChars, ParseNat;
    var s := Print(v, st) + rest;
    if v.Bool? && !v.b { assert s[5..] == rest && s[0] == 'f'; } else { assert s[4..] == rest; }
  }

  lemma ParseScalarPrint(v: Json, st: Style, rest: string)
    requires !v.Arr? && !v.Obj?
    requires v.Int? ==> !StartsWithDigit(rest)
    ensures ParseScalar(Print(v, st) + rest) == Some((v, rest))
  {
    hide ParseScalar;
    match v
    case Str(cs) => ParseStringPrint(cs, st.ascii, rest);
    case Int(n) => ParseIntPrint(n, rest);
    case _ => ParseWordPrint(v, st, rest);
  }

  /** A text whose first character starts a value: no space, no closing bracket. */
  predicate StartsValue(s: string) { s != [] && !IsSpace(s[0]) && s[0] != ']' && s[0] != '}' }

  lemma PrintStartsValue(v: Json, st: Style, rest: string)
    ensures StartsValue(Print(v, st) + rest)
    ensures v.Arr? <==> (Print(v, st) + rest)[0] == '['
    ensures v.Obj? <==> (Print(v, st) + rest)[0] == '{'
  {
    match v
    case Int(n) => assert n >= 0 ==> IsDigit(PrintNat(n)[0]);
    case _ =>
  }

  // One step of the parser at a time.

  lemma ParseValueEmpty(rest: string)
    ensures ParseValue("[]" + rest) == Some((Arr([]), rest))
    ensures ParseValue("{}" + rest) == Some((Obj([]), rest))
  {
    assert ("[]" + rest)[1..] == "]" + rest && ("{}" + rest)[1..] == "}" + rest;
    assert ("]" + rest)[1..] == rest && ("}" + rest)[1..] == rest;
    assert SkipSpace("]" + rest) == "]" + rest && SkipSpace("}" + rest) == "}" + rest;
  }

  lemma ParseValueArr(t: string, v: Json, r: string, vs: seq<Json>, rest: string)
    requires StartsValue(t) && ParseValue(t) == Some((v, r)) && ParseItemTail(r) == Some((vs, rest))
    ensures ParseValue("[" + t) == Some((Arr([v] + vs), rest))
  {
    assert ("[" + t)[1..] == t;
  }

  lemma ParseValueObj(t: string, f: Field, r: string, fs: seq<Field>, rest: string)
    requires StartsValue(t) && ParseField(t) == Some((f, r)) && ParseFieldTail(r) == Some((fs, rest))
    ensures ParseValue("{" + t) == Some((Obj([f] + fs), rest))
  {
    assert ("{" + t)[1..] == t;
  }

  lemma SkipOneSpace(t: string)
    requires t != [] && !IsSpace(t[0])
    ensures SkipSpace(" " + t) == t && SkipSpace(t) == t
  {
    assert (" " + t)[1..] == t;
  }

  lemma ParseItemTailStep(st: Style, t: string, v: Json, r: string, vs: seq<Json>, rest: string)
    requires StartsValue(t) && ParseValue(t) == Some((v, r)) && ParseItemTail(r) == Some((vs, rest))
    ensures ParseItemTail(Comma(st) + t) == Some(([v] + vs, rest))
  {
    var s := Comma(st) + t;
    SkipOneSpace(t);
    assert s[1..] == if st.spaced then " " + t else t;
    assert ParseValue(s[1..]) == ParseValue(t);
  }

  lemma ParseFieldTailStep(st: Style, t: string, f: Field, r: string, fs: seq<Field>, rest: string)
    requires StartsValue(t) && ParseField(t) == Some((f, r)) && ParseFieldTail(r) == Some((fs, rest))
    ensures ParseFieldTail(Comma(st) + t) == Some(([f] + fs, rest))
  {
    var s := Comma(st) + t;
    SkipOneSpace(t);
    assert s[1..] == if st.spaced then " " + t else t;
    assert ParseField(s[1..]) == ParseField(t);
  }

  lemma ParseFieldParts(s: string, key: string, after: string, v: Json, rest: string)
    requires s != [] && s[0] == '\"' && ParseChars(s[1..]) == Some((key, after))
    requires after != [] && after[0] == ':' && ParseValue(after[1..]) == Some((v, rest))
    ensures ParseField(s) == Some((Field(key, v), rest))
  {
    hide ParseChars, ParseValue;
    assert SkipSpace(s) == s && SkipSpace(after) == after;
  }

  lemma ParseAfterColon(st: Style, t: string)
    requires StartsValue(t)
    ensures ParseValue((Colon(st) + t)[1..]) == ParseValue(t)
  {
    SkipOneSpace(t);
    assert (Colon(st) + t)[1..] == if st.spaced then " " + t else t;
  }

  lemma ParseFieldStep(st: Style, key: string, t: string, v: Json, rest: string)
    requires StartsValue(t) && ParseValue(t) == Some((v, rest))
    ensures ParseField(PrintString(key, st.ascii) + Colon(st) + t) == Some((Field(key, v), rest))
  {
    hide ParseChars, ParseField, ParseValue, Escape;
    var s := PrintString(key, st.ascii) + Colon(st) + t;
    var after := Colon(st) + t;
    ParseCharsEscape(key, st.ascii, after);
    assert s[0] == '\"' && s[1..] == Escape(key, st.ascii) + "\"" + after;
    ParseAfterColon(st, t);
    ParseFieldParts(s, key, after, v, rest);
  }

  /** A printed value followed by any text parses back to the value and that text. */
  lemma {:induction false} ParsePrint(v: Json, st: Style, rest: string)
    requires v.Int? ==> !StartsWithDigit(rest)
    ensures ParseValue(Print(v, st) + rest) == Some((v, rest))
    decreases v, 2
  {
    match v
    case Arr(items) =>
      ParseValueEmpty(rest);
      if items != [] { ParsePrintItems(items, st, rest); }
    case Obj(fields) =>
      ParseValueEmpty(rest);
      if fields != [] { ParsePrintFields(fields, st, rest); }
    case _ =>
      PrintStartsValue(v, st, rest);
      ParseScalarPrint(v, st, rest);
  }

  lemma {:induction false} ParsePrintItems(items: seq<Json>, st: Style, rest: string)
    requires items != []
    ensures ParseValue(Print(Arr(items), st) + rest) == Some((Arr(items), rest))
    decreases items, 1
  {
    hide *;
    var tail := PrintItemTail(items[1..], st) + rest;
    var t := Print(items[0], st) + tail;
    PrintStartsValue(items[0], st, tail);
    ParsePrint(items[0], st, tail) by { TailIsNotADigit(items[1..], [], st, rest); }
    ParseItemTailPrint(items[1..], st, rest);
    ParseValueArr(t, items[0], tail, items[1..], rest);
    PrintItemsText(items, st, rest);
    assert items == [items[0]] + items[1..];
  }

  lemma {:induction false} ParsePrintFields(fields: seq<Field>, st: Style, rest: string)
    requires fields != []
    ensures ParseValue(Print(Obj(fields), st) + rest) == Some((Obj(fields), rest))
    decreases fields, 1
  {
    hide *;
    var tail := PrintFieldTail(fields[1..], st) + rest;
    var t := PrintField(fields[0], st) + tail;
    ParseFieldPrint(fields[0], st, tail) by { TailIsNotADigit([], fields[1..], st, rest); }
    ParseFieldTailPrint(fields[1..], st, rest);
    ParseValueObj(t, fields[0], tail, fields[1..], rest);
    PrintFieldsText(fields, st, rest);
    assert fields == [fields[0]] + fields[1..];
  }

  /** What the printers write, split after the first item or field. */
  lemma PrintItemsText(items: seq<Json>, st: Style, rest: string)
    requires items != []
    ensures var t := Print(items[0], st) + (PrintItemTail(items[1..], st) + rest);
            Print(Arr(items), st) + rest == "[" + t && PrintItemTail(items, st) + rest == Comma(st) + t
  {
    var first, tail := Print(items[0], st), PrintItemTail(items[1..], st);
    assert Print(Arr(items), st) == "[" + first + tail;
    assert PrintItemTail(items, st) == Comma(st) + first + tail;
    hide *;
    Regroup("[", first, tail, rest);
    Regroup(Comma(st), first, tail, rest);
  }

  lemma PrintFieldsText(fields: seq<Field>, st: Style, rest: string)
    requires fields != []
    ensures var t := PrintField(fields[0], st) + (PrintFieldTail(fields[1..], st) + rest);
            Print(Obj(fields), st) + rest == "{" + t && PrintFieldTail(fields, st) + rest == Comma(st) + t
  {
    var first, tail := PrintField(fields[0], st), PrintFieldTail(fields[1..], st);
    assert Print(Obj(fields), st) == "{" + first + tail;
    assert PrintFieldTail(fields, st) == Comma(st) + first + tail;
    hide *;
    Regroup("{", first, tail, rest);
    Regroup(Comma(st), first, tail, rest);
  }

  lemma Regroup(a: string, b: string, c: string, d: string)
    ensures a + b + c + d == a + (b + (c + d))
  {
  }

  lemma TailIsNotADigit(items: seq<Json>, fields: seq<Field>, st: Style, rest: string)
    ensures !StartsWithDigit(PrintItemTail(items, st) + rest)
    ensures !StartsWithDigit(PrintFieldTail(fields, st) + rest)
  {
  }

  lemma ParseTailEmpty(st: Style, rest: string)
    ensures ParseItemTail(PrintItemTail([], st) + rest) == Some(([], rest))
    ensures ParseFieldTail(PrintFieldTail([], st) + rest) == Some(([], rest))
  {
    assert ("]" + rest)[1..] == rest && ("}" + rest)[1..] == rest;
  }

  lemma {:induction false} ParseItemTailPrint(items: seq<Json>, st: Style, rest: string)
    ensures ParseItemTail(PrintItemTail(items, st) + rest) == Some((items, rest))
    decreases items, 0
  {
    hide *;
    if items == [] {
      ParseTailEmpty(st, rest);
    } else {
      var tail := PrintItemTail(items[1..], st) + rest;
      var t := Print(items[0], st) + tail;
      PrintStartsValue(items[0], st, tail);
      ParsePrint(items[0], st, tail) by { TailIsNotADigit(items[1..], [], st, rest); }
      ParseItemTailPrint(items[1..], st, rest);
      ParseItemTailStep(st, t, items[0], tail, items[1..], rest);
      PrintItemsText(items, st, rest);
      assert items == [items[0]] + items[1..];
    }
  }

  lemma {:induction false} ParseFieldPrint(f: Field, st: Style, rest: string)
    requires f.value.Int? ==> !StartsWithDigit(rest)
    ensures ParseField(PrintField(f, st) + rest) == Some((f, rest))
    ensures StartsValue(PrintField(f, st) + rest)
    decreases f, 0
  {
    hide ParseField, ParseValue;
    var t := Print(f.value, st) + rest;
    PrintStartsValue(f.value, st, rest);
    ParsePrint(f.value, st, rest);
    ParseFieldStep(st, f.key, t, f.value, rest);
    assert PrintField(f, st) + rest == PrintString(f.key, st.ascii) + Colon(st) + t;
  }

  lemma {:induction false} ParseFieldTailPrint(fields: seq<Field>, st: Style, rest: string)
    ensures ParseFieldTail(PrintFieldTail(fields, st) + rest) == Some((fields, rest))
    decreases fields, 0
  {
    hide *;
    if fields == [] {
      ParseTailEmpty(st, rest);
    } else {
      var tail := PrintFieldTail(fields[1..], st) + rest;
      var t := PrintField(fields[0], st) + tail;
      ParseFieldPrint(fields[0], st, tail) by { TailIsNotADigit([], fields[1..], st, rest); }
      ParseFieldTailPrint(fields[1..], st, rest);
      ParseFieldTailStep(st, t, fields[0], tail, fields[1..], rest);
      PrintFieldsText(fields, st, rest);
      assert fields == [fields[0]] + fields[1..];
    }
  }

  /** json.loads undoes json.dumps, in every style. */
  lemma LoadsDumps(v: Json, st: Style)
    ensures Loads(Dumps(v, st)) == Some(v)
  {
    ParsePrint(v, st, []);
    assert Print(v, st) + [] == Print(v, st);
  }
}
