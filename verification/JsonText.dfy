/** Text as UTF-16 code units, the order of keys, and JSON string literals. */
module JsonText {
  import opened Common

  type Unit = u: nat | u < 0x1_0000
  type Text = seq<Unit>

  const QUOTE: Unit := 0x22
  const BACKSLASH: Unit := 0x5C
  const COMMA: Unit := 0x2C
  const COLON: Unit := 0x3A
  const LBRACKET: Unit := 0x5B
  const RBRACKET: Unit := 0x5D
  const LBRACE: Unit := 0x7B
  const RBRACE: Unit := 0x7D
  const NULL_TEXT: Text := [0x6E, 0x75, 0x6C, 0x6C]
  const TRUE_TEXT: Text := [0x74, 0x72, 0x75, 0x65]
  const FALSE_TEXT: Text := [0x66, 0x61, 0x6C, 0x73, 0x65]

  /** A text written as characters. */
  function Ascii(s: string): (t: Text)
    ensures |t| == |s|
    ensures forall i :: 0 <= i < |s| ==> t[i] == s[i] as int % 0x1_0000
  {
    seq(|s|, i requires 0 <= i < |s| => s[i] as int % 0x1_0000)
  }

  // ---- Code-unit order, as Array.prototype.sort compares strings ----

  predicate Less(a: Text, b: Text) {
    if b == [] then false
    else if a == [] then true
    else a[0] < b[0] || (a[0] == b[0] && Less(a[1..], b[1..]))
  }

  lemma {:induction false} LessTotal(a: Text, b: Text)
    ensures Less(a, b) || Less(b, a) || a == b
    ensures !(Less(a, b) && Less(b, a)) && !Less(a, a)
    decreases a
  {
    if a != [] && b != [] {
      LessTotal(a[1..], b[1..]);
      LessTotal(a[1..], a[1..]);
    } else if a != [] {
      LessTotal(a[1..], a[1..]);
    }
  }

  lemma {:induction false} LessTransitive(a: Text, b: Text, c: Text)
    requires Less(a, b) && Less(b, c)
    ensures Less(a, c)
    decreases a
  {
    if a != [] && a[0] == b[0] && b[0] == c[0] {
      LessTransitive(a[1..], b[1..], c[1..]);
    }
  }

  predicate Sorted(keys: seq<Text>) {
    forall i, j :: 0 <= i < j < |keys| ==> Less(keys[i], keys[j])
  }

  predicate Distinct(keys: seq<Text>) {
    forall i, j :: 0 <= i < j < |keys| ==> keys[i] != keys[j]
  }

  function Insert(k: Text, keys: seq<Text>): (r: seq<Text>)
    requires Sorted(keys) && k !in keys
    ensures Sorted(r) && |r| == |keys| + 1
    ensures forall x :: x in r <==> x == k || x in keys
  {
    if keys == [] then [k]
    else if Less(k, keys[0]) then
      assert forall j :: 0 <= j < |keys| ==> Less(k, keys[j]) by {
        forall j | 0 < j < |keys| ensures Less(k, keys[j]) { LessTransitive(k, keys[0], keys[j]); }
      }
      [k] + keys
    else
      LessTotal(k, keys[0]);
      var rest := Insert(k, keys[1..]);
      assert forall x :: x in rest ==> Less(keys[0], x) by {
        forall x | x in rest && x != k ensures Less(keys[0], x) {
          var j :| 0 <= j < |keys[1..]| && keys[1..][j] == x;
        }
      }
      assert forall x :: x in keys <==> x == keys[0] || x in keys[1..];
      [keys[0]] + rest
  }

  function SortKeys(keys: seq<Text>): (r: seq<Text>)
    requires Distinct(keys)
    ensures Sorted(r) && |r| == |keys|
    ensures forall x :: x in r <==> x in keys
  {
    if keys == [] then []
    else
      assert keys[0] !in keys[1..];
      assert forall x :: x in keys <==> x == keys[0] || x in keys[1..];
      Insert(keys[0], SortKeys(keys[1..]))
  }

  /** A sorted key list is determined by its elements. */
  lemma {:induction false} SortedIsCanonical(a: seq<Text>, b: seq<Text>)
    requires Sorted(a) && Sorted(b) && forall x :: x in a <==> x in b
    ensures a == b
    decreases |a|
  {
    assert b != [] ==> b[0] in b;
    if a != [] {
      assert a[0] in a && a[0] in b;
      assert b[0] in b && b[0] in a;
      var i :| 0 <= i < |b| && b[i] == a[0];
      var j :| 0 <= j < |a| && a[j] == b[0];
      LessTotal(a[0], b[0]);
      assert a[0] == b[0];
      forall x ensures x in a[1..] <==> x in b[1..] {
        TailMembers(a, x);
        TailMembers(b, x);
      }
      SortedIsCanonical(a[1..], b[1..]);
    }
  }

  lemma {:induction false} TailMembers(a: seq<Text>, x: Text)
    requires Sorted(a) && a != []
    ensures x in a[1..] <==> x in a && x != a[0]
  {
    LessTotal(a[0], a[0]);
    if x in a && x != a[0] {
      var i :| 0 <= i < |a| && a[i] == x;
      assert a[1..][i - 1] == x;
    }
  }

  // ---- String literals ----

  function HexDigit(n: nat): Unit
    requires n < 16
  {
    if n < 10 then 0x30 + n else 0x61 + (n - 10)
  }

  function HexValue(u: Unit): Option<nat> {
    if 0x30 <= u <= 0x39 then Some(u - 0x30)
    else if 0x61 <= u <= 0x66 then Some(u - 0x61 + 10)
    else None
  }

  function Unicode(u: Unit): Text {
    [BACKSLASH, 0x75, HexDigit(u / 0x1000), HexDigit(u / 0x100 % 16), HexDigit(u / 0x10 % 16), HexDigit(u % 16)]
  }

  predicate High(u: Unit) { 0xD800 <= u < 0xDC00 }
  predicate Low(u: Unit) { 0xDC00 <= u < 0xE000 }

  /** A surrogate without its other half. */
  predicate Lone(s: Text, i: nat)
    requires i < |s|
  {
    || (High(s[i]) && !(i + 1 < |s| && Low(s[i + 1])))
    || (Low(s[i]) && !(i > 0 && High(s[i - 1])))
  }

  /** The single-character escapes: quote, backslash, and the controls with a letter of their own. */
  function ShortEscape(u: Unit): Option<Unit> {
    if u == QUOTE then Some(QUOTE)
    else if u == BACKSLASH then Some(BACKSLASH)
    else if u == 0x08 then Some(0x62)
    else if u == 0x09 then Some(0x74)
    else if u == 0x0A then Some(0x6E)
    else if u == 0x0C then Some(0x66)
    else if u == 0x0D then Some(0x72)
    else None
  }

  function ShortValue(u: Unit): Option<Unit> {
    if u == QUOTE then Some(QUOTE)
    else if u == BACKSLASH then Some(BACKSLASH)
    else if u == 0x62 then Some(0x08)
    else if u == 0x74 then Some(0x09)
    else if u == 0x6E then Some(0x0A)
    else if u == 0x66 then Some(0x0C)
    else if u == 0x72 then Some(0x0D)
    else None
  }

  function EscapeAt(s: Text, i: nat): Text
    requires i < |s|
  {
    if ShortEscape(s[i]).Some? then [BACKSLASH, ShortEscape(s[i]).value]
    else if s[i] < 0x20 || Lone(s, i) then Unicode(s[i])
    else [s[i]]
  }

  function Body(s: Text, i: nat): Text
    requires i <= |s|
    decreases |s| - i
  {
    if i == |s| then [] else EscapeAt(s, i) + Body(s, i + 1)
  }

  /** JSON.stringify of a string. */
  function Quote(s: Text): Text {
    [QUOTE] + Body(s, 0) + [QUOTE]
  }

  function HexQuad(t: Text): Option<Unit> {
    if |t| < 4 then None
    else
      var a, b, c, d := HexValue(t[0]), HexValue(t[1]), HexValue(t[2]), HexValue(t[3]);
      if a.None? || b.None? || c.None? || d.None? then None
      else
        var n := a.value * 0x1000 + b.value * 0x100 + c.value * 0x10 + d.value;
        if n < 0x1_0000 then Some(n) else None
  }

  /** Reads the rest of a string literal, up to and including its closing quote. */
  function Unquote(t: Text): (r: Option<(Text, Text)>)
    ensures r.Some? ==> |r.value.1| < |t|
  {
    if t == [] then None
    else if t[0] == QUOTE then Some(([], t[1..]))
    else if t[0] != BACKSLASH then Prepend(t[0], Unquote(t[1..]))
    else if |t| < 2 then None
    else if ShortValue(t[1]).Some? then Prepend(ShortValue(t[1]).value, Unquote(t[2..]))
    else if t[1] == 0x75 && HexQuad(t[2..]).Some? then Prepend(HexQuad(t[2..]).value, Unquote(t[6..]))
    else None
  }

  function Prepend(u: Unit, r: Option<(Text, Text)>): Option<(Text, Text)> {
    if r.None? then None else Some(([u] + r.value.0, r.value.1))
  }

  lemma {:induction false} HexDigitRoundTrip(n: nat)
    requires n < 16
    ensures HexValue(HexDigit(n)) == Some(n)
  {
  }

  lemma {:induction false} HexDigitsSum(u: Unit) returns (a: nat, b: nat, c: nat, d: nat)
    ensures a == u / 0x1000 < 16 && b == u / 0x100 % 16 && c == u / 0x10 % 16 && d == u % 16
    ensures a * 0x1000 + b * 0x100 + c * 0x10 + d == u
  {
    a, b, c, d := u / 0x1000, u / 0x100 % 16, u / 0x10 % 16, u % 16;
    assert u / 0x100 == a * 16 + b;
    assert u / 0x10 == (u / 0x100) * 16 + c;
  }

  lemma {:induction false} HexRoundTrip(u: Unit, rest: Text)
    ensures HexQuad(Unicode(u)[2..] + rest) == Some(u)
  {
    var a, b, c, d := HexDigitsSum(u);
    HexDigitRoundTrip(a);
    HexDigitRoundTrip(b);
    HexDigitRoundTrip(c);
    HexDigitRoundTrip(d);
    var t := Unicode(u)[2..] + rest;
    assert t[0] == HexDigit(a) && t[1] == HexDigit(b) && t[2] == HexDigit(c) && t[3] == HexDigit(d);
  }

  lemma {:induction false} UnicodeRoundTrip(u: Unit, rest: Text)
    ensures Unquote(Unicode(u) + rest) == Prepend(u, Unquote(rest))
  {
    HexRoundTrip(u, rest);
    var t := Unicode(u) + rest;
    hide HexQuad, HexDigit;
    assert t[2..] == Unicode(u)[2..] + rest;
    assert t[6..] == rest;
    assert t[0] == BACKSLASH && t[1] == 0x75;
  }

  lemma {:induction false} EscapeRoundTrip(s: Text, i: nat, rest: Text)
    requires i < |s|
    ensures Unquote(EscapeAt(s, i) + rest) == Prepend(s[i], Unquote(rest))
  {
    hide HexQuad, Unicode;
    var t := EscapeAt(s, i) + rest;
    if ShortEscape(s[i]).Some? {
      assert t[2..] == rest;
    } else if s[i] < 0x20 || Lone(s, i) {
      UnicodeRoundTrip(s[i], rest);
    } else {
      assert t[1..] == rest;
    }
  }

  lemma {:induction false} BodyRoundTrip(s: Text, i: nat, rest: Text)
    requires i <= |s|
    ensures Unquote(Body(s, i) + [QUOTE] + rest) == Some((s[i..], rest))
    decreases |s| - i
  {
    if i == |s| {
      assert (Body(s, i) + [QUOTE] + rest)[1..] == rest;
    } else {
      var more := Body(s, i + 1) + [QUOTE] + rest;
      assert Body(s, i) + [QUOTE] + rest == EscapeAt(s, i) + more;
      EscapeRoundTrip(s, i, more);
      BodyRoundTrip(s, i + 1, rest);
      assert s[i..] == [s[i]] + s[i + 1..];
    }
  }

  /** A string literal is read back whatever follows it. */
  lemma {:induction false} QuoteRoundTrip(s: Text, rest: Text)
    ensures Quote(s) + rest != [] && (Quote(s) + rest)[0] == QUOTE
    ensures Unquote((Quote(s) + rest)[1..]) == Some((s, rest))
  {
    BodyRoundTrip(s, 0, rest);
    assert (Quote(s) + rest)[1..] == Body(s, 0) + [QUOTE] + rest;
  }

  // ---- The printed text of a string ----

  /** The characters of the grammar. */
  lemma {:induction false} Marks()
    ensures Ascii("[") == [LBRACKET] && Ascii("]") == [RBRACKET] && Ascii("{") == [LBRACE] && Ascii("}") == [RBRACE]
    ensures Ascii(",") == [COMMA] && Ascii(":") == [COLON] && Ascii("\"") == [QUOTE]
  {
  }

  /** Each code unit in turn between quotes, escaped on its own. */
  lemma {:induction false} QuotedUnits(s: Text)
    ensures Quote(s) == Ascii("\"") + Escaped(s, 0) + Ascii("\"")
  {
    BodyIsEscaped(s, 0);
    assert Ascii("\"") == [QUOTE];
  }

  function Escaped(s: Text, i: nat): Text
    requires i <= |s|
    decreases |s| - i
  {
    if i == |s| then [] else EscapedUnit(s, i) + Escaped(s, i + 1)
  }

  const HEX: string := "0123456789abcdef"

  /** A half of a surrogate pair whose other half is not beside it. */
  predicate Unpaired(s: Text, i: nat)
    requires i < |s|
  {
    || (0xD800 <= s[i] <= 0xDBFF && (i + 1 == |s| || !(0xDC00 <= s[i + 1] <= 0xDFFF)))
    || (0xDC00 <= s[i] <= 0xDFFF && (i == 0 || !(0xD800 <= s[i - 1] <= 0xDBFF)))
  }

  /** The escapes as they are written. */
  function EscapedUnit(s: Text, i: nat): Text
    requires i < |s|
  {
    var u := s[i];
    if u == 34 then Ascii("\\\"")
    else if u == 92 then Ascii("\\\\")
    else if u == 8 then Ascii("\\b")
    else if u == 9 then Ascii("\\t")
    else if u == 10 then Ascii("\\n")
    else if u == 12 then Ascii("\\f")
    else if u == 13 then Ascii("\\r")
    else if u < 32 || Unpaired(s, i) then
      Ascii("\\u") + Ascii([HEX[u / 4096], HEX[u / 256 % 16], HEX[u / 16 % 16], HEX[u % 16]])
    else [u]
  }

  lemma {:induction false} HexDigitsAre(n: nat)
    requires n < 16
    ensures HexDigit(n) == HEX[n] as int
  {
  }

  lemma {:induction false} HexText(a: nat, b: nat, c: nat, d: nat)
    requires a < 16 && b < 16 && c < 16 && d < 16
    ensures Ascii([HEX[a], HEX[b], HEX[c], HEX[d]]) == [HexDigit(a), HexDigit(b), HexDigit(c), HexDigit(d)]
  {
    HexDigitsAre(a);
    HexDigitsAre(b);
    HexDigitsAre(c);
    HexDigitsAre(d);
    hide HexDigit;
  }

  lemma {:induction false} UnicodeIs(u: Unit)
    ensures Unicode(u) == Ascii("\\u") + Ascii([HEX[u / 4096], HEX[u / 256 % 16], HEX[u / 16 % 16], HEX[u % 16]])
  {
    assert Ascii("\\u") == [BACKSLASH, 0x75];
    hide Ascii, HexDigit;
    HexText(u / 4096, u / 256 % 16, u / 16 % 16, u % 16);
  }

  lemma {:induction false} ShortEscapesAre()
    ensures Ascii("\\\"") == [BACKSLASH, QUOTE] && Ascii("\\\\") == [BACKSLASH, BACKSLASH]
    ensures Ascii("\\b") == [BACKSLASH, 0x62] && Ascii("\\t") == [BACKSLASH, 0x74] && Ascii("\\n") == [BACKSLASH, 0x6E]
    ensures Ascii("\\f") == [BACKSLASH, 0x66] && Ascii("\\r") == [BACKSLASH, 0x72]
  {
  }

  lemma {:induction false} UnitIsEscaped(s: Text, i: nat)
    requires i < |s|
    ensures EscapeAt(s, i) == EscapedUnit(s, i)
  {
    assert Lone(s, i) <==> Unpaired(s, i);
    ShortEscapesAre();
    hide Ascii, Unicode, Lone, Unpaired;
    UnicodeIs(s[i]);
  }

  lemma {:induction false} BodyIsEscaped(s: Text, i: nat)
    requires i <= |s|
    ensures Body(s, i) == Escaped(s, i)
    decreases |s| - i
  {
    if i < |s| {
      BodyIsEscaped(s, i + 1);
      UnitIsEscaped(s, i);
      hide EscapeAt, EscapedUnit;
    }
  }
}
