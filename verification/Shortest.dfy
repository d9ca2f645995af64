/** Canonical JSON is the shortest text of the sorted document: its bytes do not depend on what prints it. */
module Shortest {
  import opened Wrappers
  import opened Json
  import opened JsonText
  import opened Noise
  import opened Utf8

  /** The number of bytes a text takes. */
  function Size(s: string): nat { |Encode(s)| }

  lemma SizeConcat(s: string, t: string)
    ensures Size(s + t) == Size(s) + Size(t)
  {
    EncodeConcat(s, t);
  }

  lemma SizeFrom(s: string, k: nat)
    requires k <= |s|
    ensures Size(s) == Size(s[..k]) + Size(s[k..])
  {
    assert s[..k] + s[k..] == s;
    SizeConcat(s[..k], s[k..]);
  }

  lemma {:induction false} SizeIsAtLeastLength(s: string)
    ensures |s| <= Size(s)
  {
    if s != [] { SizeIsAtLeastLength(s[1..]); }
  }

  lemma SizeOfChar(c: char)
    ensures 1 <= Size([c]) <= 4
    ensures c as int < 0x80 ==> Size([c]) == 1
  {
    assert [c][1..] == [] && Encode([c]) == EncodeChar(c) + Encode([]);
  }

  lemma SizeOfTwo(c: char, d: char)
    requires c as int < 0x80 && d as int < 0x80
    ensures Size([c, d]) == 2
  {
    assert [c, d] == [c] + [d];
    SizeConcat([c], [d]);
    SizeOfChar(c);
    SizeOfChar(d);
  }

  lemma {:induction false} SizeOfAscii(s: string)
    requires forall i | 0 <= i < |s| :: s[i] as int < 0x80
    ensures Size(s) == |s|
  {
    if s != [] { SizeOfAscii(s[1..]); }
  }

  lemma {:induction false} SkipSpaceSize(s: string)
    ensures Size(SkipSpace(s)) <= Size(s)
  {
    if s != [] && IsSpace(s[0]) { SkipSpaceSize(s[1..]); }
  }

  // ---------------------------------------------------------------- numbers

  lemma NextDigitSize(n: nat, d: nat)
    requires d < 10
    ensures Size(PrintNat(n * 10 + d)) <= Size(PrintNat(n)) + 1
  {
    var m := n * 10 + d;
    SizeOfChar(Digit(d));
    if m >= 10 { SizeConcat(PrintNat(n), [Digit(d)]); }
  }

  lemma {:induction false} ParseDigitsSize(s: string, n: nat)
    ensures var (m, rest) := ParseDigits(s, n);
            Size(PrintNat(m)) + Size(rest) <= Size(PrintNat(n)) + Size(s)
  {
    if StartsWithDigit(s) {
      var d := s[0] as int - '0' as int;
      NextDigitSize(n, d);
      ParseDigitsSize(s[1..], n * 10 + d);
      hide PrintNat;
      assert Size(s) == 1 + Size(s[1..]);
    }
  }

  lemma ParseNatSize(s: string)
    requires StartsWithDigit(s)
    ensures var (n, rest) := ParseNat(s);
            Size(PrintNat(n)) + Size(rest) <= Size(s)
  {
    var d := s[0] as int - '0' as int;
    SizeOfChar(Digit(d));
    assert Size(PrintNat(d)) == 1;
    ParseDigitsSize(s[1..], d);
    hide PrintNat;
    assert Size(s) == 1 + Size(s[1..]);
  }

  // ---------------------------------------------------------------- strings

  lemma EscapeSize(c: char)
    ensures Size(EscapeChar(c, false)) <= 6
    ensures c >= ' ' && c != '\"' && c != '\\' ==> EscapeChar(c, false) == [c]
    ensures c in "\"\\\n\r\t\U{08}\U{0C}" ==> Size(EscapeChar(c, false)) == 2
  {
    SizeOfChar(c);
    if c in "\"\\\n\r\t\U{08}\U{0C}" {
      var e := EscapeChar(c, false);
      assert e == [e[0], e[1]];
      SizeOfTwo(e[0], e[1]);
    } else if c < ' ' {
      SizeOfAscii(UnicodeEscape(c as int));
    }
  }

  /** What a character of a literal was written as is no shorter than its shortest form. */
  lemma ParseCharSize(s: string)
    requires s != [] && s[0] != '\"' && ParseChar(s).Some?
    ensures var (c, k) := ParseChar(s).value;
            Size(EscapeChar(c, false)) + Size(s[k..]) <= Size(s)
  {
    var (c, k) := ParseChar(s).value;
    EscapeSize(c);
    SizeOfChar(c);
    SizeFrom(s, k);
    SizeIsAtLeastLength(s[..k]);
    hide Size, EscapeChar, ParseUnicodeEscape;
    if k == 1 { assert s[..1] == [s[0]]; }
  }

  lemma {:induction false} ParseCharsSize(s: string)
    requires ParseChars(s).Some?
    ensures var (cs, rest) := ParseChars(s).value;
            Size(Escape(cs, false)) + 1 + Size(rest) <= Size(s)
  {
    if s[0] == '\"' {
      assert Size(s) == 1 + Size(s[1..]);
    } else {
      var (c, k) := ParseChar(s).value;
      var (cs, rest) := ParseChars(s[k..]).value;
      ParseCharSize(s);
      ParseCharsSize(s[k..]);
      assert ([c] + cs)[1..] == cs;
      SizeConcat(EscapeChar(c, false), Escape(cs, false));
    }
  }

  lemma PrintStringSize(cs: string)
    ensures Size(PrintString(cs, false)) == Size(Escape(cs, false)) + 2
  {
    SizeOfChar('\"');
    SizeConcat("\"", Escape(cs, false));
    SizeConcat("\"" + Escape(cs, false), "\"");
  }

  // ---------------------------------------------------------------- values

  lemma WordSizes()
    ensures Size("null") == 4 && Size("true") == 4 && Size("false") == 5 && Size("[]") == 2 && Size("{}") == 2
  {
    SizeOfAscii("null");
    SizeOfAscii("true");
    SizeOfAscii("false");
    SizeOfAscii("[]");
    SizeOfAscii("{}");
  }

  lemma ParseWordSize(s: string, v: Json)
    requires v.Null? || v.Bool?
    requires |Print(v, COMPACT)| <= |s|
    ensures Size(Print(v, COMPACT)) + Size(s[|Print(v, COMPACT)|..]) <= Size(s)
  {
    WordSizes();
    var k := |Print(v, COMPACT)|;
    SizeFrom(s, k);
    SizeIsAtLeastLength(s[..k]);
    hide Size;
  }

  lemma ParseScalarSize(s: string)
    requires s != [] && ParseScalar(s).Some?
    ensures var (v, rest) := ParseScalar(s).value;
            Size(Print(v, COMPACT)) + Size(rest) <= Size(s)
  {
    var v := ParseScalar(s).value.0;
    if s[0] == '\"' {
      ParseCharsSize(s[1..]);
      PrintStringSize(v.s);
      assert Size(s) == 1 + Size(s[1..]);
    } else if s[0] == '-' && StartsWithDigit(s[1..]) {
      SignedSize(s);
    } else if StartsWithDigit(s) {
      ParseNatSize(s);
    } else {
      ParseWordSize(s, v);
    }
  }

  lemma SignedSize(s: string)
    requires s != [] && s[0] == '-' && StartsWithDigit(s[1..])
    ensures var (n, rest) := ParseNat(s[1..]);
            Size(PrintInt(-(n as int))) + Size(rest) <= Size(s)
  {
    var n := ParseNat(s[1..]).0;
    ParseNatSize(s[1..]);
    SizeConcat("-", PrintNat(n));
    SizeOfChar('-');
    assert Size(s) == 1 + Size(s[1..]);
  }

  lemma PrintArrSize(v: Json, vs: seq<Json>)
    ensures Size(Print(Arr([v] + vs), COMPACT)) == 1 + Size(Print(v, COMPACT)) + Size(PrintItemTail(vs, COMPACT))
    ensures Size(PrintItemTail([v] + vs, COMPACT)) == 1 + Size(Print(v, COMPACT)) + Size(PrintItemTail(vs, COMPACT))
  {
    var items := [v] + vs;
    assert items[1..] == vs;
    var first, tail := Print(v, COMPACT), PrintItemTail(vs, COMPACT);
    assert Print(Arr(items), COMPACT) == "[" + first + tail && PrintItemTail(items, COMPACT) == "," + first + tail;
    hide *;
    ThreeParts('[', first, tail);
    ThreeParts(',', first, tail);
  }

  lemma PrintObjSize(f: Field, fs: seq<Field>)
    ensures Size(Print(Obj([f] + fs), COMPACT)) == 1 + Size(PrintField(f, COMPACT)) + Size(PrintFieldTail(fs, COMPACT))
    ensures Size(PrintFieldTail([f] + fs, COMPACT))
         == 1 + Size(PrintField(f, COMPACT)) + Size(PrintFieldTail(fs, COMPACT))
  {
    var fields := [f] + fs;
    assert fields[1..] == fs;
    var first, tail := PrintField(f, COMPACT), PrintFieldTail(fs, COMPACT);
    assert Print(Obj(fields), COMPACT) == "{" + first + tail;
    assert PrintFieldTail(fields, COMPACT) == "," + first + tail;
    hide *;
    ThreeParts('{', first, tail);
    ThreeParts(',', first, tail);
  }

  lemma ThreeParts(c: char, s: string, t: string)
    requires c as int < 0x80
    ensures Size([c] + s + t) == 1 + Size(s) + Size(t)
  {
    SizeOfChar(c);
    SizeConcat([c], s);
    SizeConcat([c] + s, t);
  }

  lemma PrintFieldSize(key: string, v: Json)
    ensures Size(PrintField(Field(key, v), COMPACT)) == Size(Escape(key, false)) + 3 + Size(Print(v, COMPACT))
  {
    var name, value := PrintString(key, false), Print(v, COMPACT);
    assert PrintField(Field(key, v), COMPACT) == name + ":" + value;
    PrintStringSize(key);
    hide Print, PrintField, PrintString, Escape;
    SizeOfChar(':');
    SizeConcat(name, ":");
    SizeConcat(name + ":", value);
  }

  lemma AfterFirst(s: string)
    requires s != [] && s[0] as int < 0x80
    ensures Size(s) == 1 + Size(s[1..])
  {
  }

  /** The text a value is read from is no shorter than the value in the compact form. */
  lemma {:induction false} ParseValueSize(text: string)
    requires ParseValue(text).Some?
    ensures var (v, rest) := ParseValue(text).value;
            Size(Print(v, COMPACT)) + Size(rest) <= Size(text)
    decreases |text|, 1
  {
    var s := SkipSpace(text);
    SkipSpaceSize(text);
    if s[0] == '[' {
      ParseArrSize(s);
    } else if s[0] == '{' {
      ParseObjSize(s);
    } else {
      ParseScalarSize(s);
    }
  }

  lemma {:induction false} ParseArrSize(s: string)
    requires s != [] && s[0] == '[' && ParseValue(s).Some?
    ensures var (v, rest) := ParseValue(s).value;
            Size(Print(v, COMPACT)) + Size(rest) <= Size(s)
    decreases |s|, 0
  {
    hide Size, Print, PrintItemTail, ParseItemTail, ParseField, ParseFieldTail, ParseScalar;
    AfterFirst(s);
    assert SkipSpace(s) == s;
    var t := SkipSpace(s[1..]);
    SkipSpaceSize(s[1..]);
    if t != [] && t[0] == ']' {
      AfterFirst(t);
      EmptySizes();
    } else {
      var (v, r) := ParseValue(t).value;
      ParseValueSize(t);
      var (vs, rest) := ParseItemTail(r).value;
      ParseItemTailSize(r);
      PrintArrSize(v, vs);
    }
  }

  lemma {:induction false} ParseObjSize(s: string)
    requires s != [] && s[0] == '{' && ParseValue(s).Some?
    ensures var (v, rest) := ParseValue(s).value;
            Size(Print(v, COMPACT)) + Size(rest) <= Size(s)
    decreases |s|, 0
  {
    hide Size, Print, PrintField, PrintFieldTail, ParseItemTail, ParseField, ParseFieldTail, ParseScalar;
    AfterFirst(s);
    assert SkipSpace(s) == s;
    var t := SkipSpace(s[1..]);
    SkipSpaceSize(s[1..]);
    if t != [] && t[0] == '}' {
      AfterFirst(t);
      EmptySizes();
    } else {
      var (f, r) := ParseField(t).value;
      ParseFieldSize(t);
      var (fs, rest) := ParseFieldTail(r).value;
      ParseFieldTailSize(r);
      PrintObjSize(f, fs);
    }
  }

  lemma EmptySizes()
    ensures Size(Print(Arr([]), COMPACT)) == 2 && Size(Print(Obj([]), COMPACT)) == 2
    ensures Size(PrintItemTail([], COMPACT)) == 1 && Size(PrintFieldTail([], COMPACT)) == 1
  {
    WordSizes();
    SizeOfChar(']');
    SizeOfChar('}');
  }

  lemma {:induction false} ParseItemTailSize(text: string)
    requires ParseItemTail(text).Some?
    ensures var (vs, rest) := ParseItemTail(text).value;
            Size(PrintItemTail(vs, COMPACT)) + Size(rest) <= Size(text)
    decreases |text|, 0
  {
    hide Size, Print, PrintItemTail, ParseValue;
    var s := SkipSpace(text);
    SkipSpaceSize(text);
    AfterFirst(s);
    if s[0] == ']' {
      EmptySizes();
    } else {
      var (v, r) := ParseValue(s[1..]).value;
      ParseValueSize(s[1..]);
      var (vs, rest) := ParseItemTail(r).value;
      ParseItemTailSize(r);
      PrintArrSize(v, vs);
    }
  }

  lemma {:induction false} ParseFieldSize(text: string)
    requires ParseField(text).Some?
    ensures var (f, rest) := ParseField(text).value;
            Size(PrintField(f, COMPACT)) + Size(rest) <= Size(text)
    decreases |text|, 0
  {
    hide Size, Print, PrintField, ParseValue, ParseChars, Escape;
    var s := SkipSpace(text);
    SkipSpaceSize(text);
    AfterFirst(s);
    var (key, r) := ParseChars(s[1..]).value;
    ParseCharsSize(s[1..]);
    var t := SkipSpace(r);
    SkipSpaceSize(r);
    AfterFirst(t);
    var (v, rest) := ParseValue(t[1..]).value;
    ParseValueSize(t[1..]);
    PrintFieldSize(key, v);
  }

  lemma {:induction false} ParseFieldTailSize(text: string)
    requires ParseFieldTail(text).Some?
    ensures var (fs, rest) := ParseFieldTail(text).value;
            Size(PrintFieldTail(fs, COMPACT)) + Size(rest) <= Size(text)
    decreases |text|, 0
  {
    hide Size, Print, PrintField, PrintFieldTail, ParseField;
    var s := SkipSpace(text);
    SkipSpaceSize(text);
    AfterFirst(s);
    if s[0] == '}' {
      EmptySizes();
    } else {
      var (f, r) := ParseField(s[1..]).value;
      ParseFieldSize(s[1..]);
      var (fs, rest) := ParseFieldTail(r).value;
      ParseFieldTailSize(r);
      PrintObjSize(f, fs);
    }
  }

  // ---------------------------------------------------------------- canonical JSON

  /** No text of the sorted document takes fewer bytes than its canonical JSON. */
  lemma CanonicalIsShortest(payload: Json, text: string)
    requires Loads(text) == Some(SortKeys(payload))
    ensures |CanonicalJson(payload)| <= |Encode(text)|
  {
    ParseValueSize(text);
  }

  /** A control character without a short form is four hexadecimal digits, with letters in lower case. */
  lemma ControlCharacters(c: char)
    requires c < ' ' && c !in "\n\r\t\U{08}\U{0C}"
    ensures CanonicalJson(Str([c]))
         == Encode("\"\\u00" + ["01"[c as int / 16], "0123456789abcdef"[c as int % 16]] + "\"")
  {
    var n := c as int;
    assert [c][1..] == [] && Escape([c], false) == EscapeChar(c, false) + [];
    assert HexDigit(n / 16 % 16) == "01"[n / 16] && HexDigit(n % 16) == "0123456789abcdef"[n % 16];
    assert HexDigit(n / 16 / 16 / 16) == '0' && HexDigit(n / 16 / 16 % 16) == '0';
    assert EscapeChar(c, false) == "\\u00" + ["01"[n / 16], "0123456789abcdef"[n % 16]];
    assert PrintString([c], false) == "\"\\u00" + ["01"[n / 16], "0123456789abcdef"[n % 16]] + "\"";
  }

  /** The separators of the three styles. */
  lemma SeparatorsSpelledOut(v: Json, w: Json)
    ensures Dumps(Arr([v, w]), COMPACT) == "[" + Dumps(v, COMPACT) + "," + Dumps(w, COMPACT) + "]"
    ensures Dumps(Arr([v, w]), DEFAULT) == "[" + Dumps(v, DEFAULT) + ", " + Dumps(w, DEFAULT) + "]"
    ensures Dumps(Arr([v, w]), READABLE) == "[" + Dumps(v, READABLE) + ", " + Dumps(w, READABLE) + "]"
    ensures Dumps(Obj([Field("", v)]), COMPACT) == "{\"\"" + ":" + Dumps(v, COMPACT) + "}"
    ensures Dumps(Obj([Field("", v)]), DEFAULT) == "{\"\"" + ": " + Dumps(v, DEFAULT) + "}"
    ensures Dumps(Obj([Field("", v)]), READABLE) == "{\"\"" + ": " + Dumps(v, READABLE) + "}"
  {
    hide Print;
    PairSpelledOut(v, w, COMPACT);
    PairSpelledOut(v, w, DEFAULT);
    PairSpelledOut(v, w, READABLE);
    FieldSpelledOut(v, COMPACT);
    FieldSpelledOut(v, DEFAULT);
    FieldSpelledOut(v, READABLE);
  }

  /** One style escapes what is not ASCII. */
  lemma CharactersSpelledOut(c: char)
    requires c as int >= 0xA0
    ensures Dumps(Str([c]), COMPACT) == ['\"', c, '\"'] == Dumps(Str([c]), READABLE)
    ensures forall x | x in Dumps(Str([c]), DEFAULT) :: x <= '~'
  {
    OneEscape(c, true);
    OneEscape(c, false);
    EscapesToAscii(c);
    assert EscapeChar(c, false) == [c];
    hide EscapeChar, Escape;
  }

  lemma OneEscape(c: char, ascii: bool)
    ensures Escape([c], ascii) == EscapeChar(c, ascii)
  {
    hide EscapeChar;
    assert [c][1..] == [] && Escape([], ascii) == [];
    assert EscapeChar(c, ascii) + [] == EscapeChar(c, ascii);
  }

  lemma PairSpelledOut(v: Json, w: Json, st: Style)
    ensures Print(Arr([v, w]), st) == "[" + Print(v, st) + Comma(st) + Print(w, st) + "]"
  {
    assert [v, w][1..] == [w] && [w][1..] == [];
    assert PrintItemTail([w], st) == Comma(st) + Print(w, st) + "]";
  }

  lemma FieldSpelledOut(v: Json, st: Style)
    ensures Print(Obj([Field("", v)]), st) == "{\"\"" + Colon(st) + Print(v, st) + "}"
  {
    assert [Field("", v)][1..] == [] && PrintString("", st.ascii) == "\"\"";
  }

  lemma EscapesToAscii(c: char)
    requires c > '~'
    ensures forall x | x in EscapeChar(c, true) :: x <= '~'
  {
  }
}
