/**
 * The JavaScript string primitives the ingestion code relies on, with the
 * semantics ECMAScript gives them: `String.prototype.trim`, `parseInt` with
 * and without an explicit radix, `replace(/\D/g, "")`, `String(n)`,
 * `padStart`, `split` on one character, `toLowerCase` + `includes`, and the
 * code-point order in which SQLite compares TEXT values.
 */
module JsText {
  import opened Wrappers

  /** The value of a JavaScript number produced by `parseInt`: `None` is NaN. */
  type Token = Option<int>

  // ---------------------------------------------------------------- trim

  /** ECMAScript WhiteSpace and LineTerminator code points (what `trim` and `parseInt` skip). */
  predicate IsJsSpace(c: char) {
    || c == ' ' || c == '\t' || c == '\n' || c == '\r' || c == '\U{B}' || c == '\U{C}'
    || c == '\U{A0}' || c == '\U{1680}' || ('\U{2000}' <= c <= '\U{200A}')
    || c == '\U{2028}' || c == '\U{2029}' || c == '\U{202F}' || c == '\U{205F}'
    || c == '\U{3000}' || c == '\U{FEFF}'
  }

  /** `s.trimStart()`. */
  function TrimStart(s: string): string {
    if s == [] || !IsJsSpace(s[0]) then s else TrimStart(s[1..])
  }

  /** `s.trimEnd()`. */
  function TrimEnd(s: string): string {
    if s == [] || !IsJsSpace(s[|s| - 1]) then s else TrimEnd(s[..|s| - 1])
  }

  /** `s.trim()`. */
  function Trim(s: string): string {
    TrimEnd(TrimStart(s))
  }

  /** `trimStart` keeps the longest suffix that does not start with white space. */
  lemma {:induction false} TrimStartMeaning(s: string)
    ensures |TrimStart(s)| <= |s| && TrimStart(s) == s[|s| - |TrimStart(s)|..]
    ensures TrimStart(s) == [] || !IsJsSpace(TrimStart(s)[0])
    ensures forall i :: 0 <= i < |s| - |TrimStart(s)| ==> IsJsSpace(s[i])
    decreases |s|
  {
    if s != [] && IsJsSpace(s[0]) {
      TrimStartMeaning(s[1..]);
    }
  }

  /** `trimEnd` keeps the longest prefix that does not end with white space. */
  lemma {:induction false} TrimEndMeaning(s: string)
    ensures |TrimEnd(s)| <= |s| && TrimEnd(s) == s[..|TrimEnd(s)|]
    ensures TrimEnd(s) == [] || !IsJsSpace(TrimEnd(s)[|TrimEnd(s)| - 1])
    ensures forall i :: |TrimEnd(s)| <= i < |s| ==> IsJsSpace(s[i])
    decreases |s|
  {
    if s != [] && IsJsSpace(s[|s| - 1]) {
      TrimEndMeaning(s[..|s| - 1]);
    }
  }

  /** `trim` leaves no white space at either end, and is empty exactly when `s` is all white space. */
  lemma TrimMeaning(s: string)
    ensures Trim(s) == [] || (!IsJsSpace(Trim(s)[0]) && !IsJsSpace(Trim(s)[|Trim(s)| - 1]))
    ensures Trim(s) == [] <==> forall i :: 0 <= i < |s| ==> IsJsSpace(s[i])
  {
    var t := TrimStart(s);
    TrimStartMeaning(s);
    TrimEndMeaning(t);
    if t != [] {
      assert !IsJsSpace(t[0]);
    }
    if Trim(s) != [] {
      assert Trim(s)[0] == t[0];
    }
  }

  // ---------------------------------------------------------------- case

  /**
   * `toLowerCase` on one character, for the ASCII letters only: non-ASCII
   * capitals (such as `É`) are left as they are, where JavaScript would
   * lower them. Every needle the scrapers look for, and every header name
   * the import looks up, is lower-case ASCII.
   */
  function LowerChar(c: char): char {
    if 'A' <= c <= 'Z' then (c as int + 32) as char else c
  }

  function ToLower(s: string): (r: string)
    ensures |r| == |s|
  {
    if s == [] then [] else [LowerChar(s[0])] + ToLower(s[1..])
  }

  predicate IsPrefix(p: string, s: string) {
    |p| <= |s| && s[..|p|] == p
  }

  /** `s.includes(needle)`. */
  predicate Contains(s: string, needle: string)
    decreases |s|
  {
    IsPrefix(needle, s) || (s != [] && Contains(s[1..], needle))
  }

  /** `s.toLowerCase().includes(needle)` and `/needle/i.test(s)` for an all-lower-case ASCII needle. */
  predicate ContainsIgnoringCase(s: string, needle: string) {
    Contains(ToLower(s), needle)
  }

  // ---------------------------------------------------------------- digits

  predicate IsDigit(c: char) { '0' <= c <= '9' }

  predicate IsRadixDigit(c: char, hex: bool) {
    IsDigit(c) || (hex && (('a' <= c <= 'f') || ('A' <= c <= 'F')))
  }

  function DigitValue(c: char, hex: bool): (v: nat)
    requires IsRadixDigit(c, hex)
    ensures v < (if hex then 16 else 10)
  {
    if IsDigit(c) then c as int - '0' as int
    else if 'a' <= c <= 'f' then c as int - 'a' as int + 10
    else c as int - 'A' as int + 10
  }

  /** Length of the longest prefix of `s` made of digits of the radix. */
  function DigitRun(s: string, hex: bool): (n: nat)
    ensures n <= |s|
    ensures forall i :: 0 <= i < n ==> IsRadixDigit(s[i], hex)
    ensures n < |s| ==> !IsRadixDigit(s[n], hex)
  {
    if s == [] || !IsRadixDigit(s[0], hex) then 0 else 1 + DigitRun(s[1..], hex)
  }

  /** Positional value of a string of digits, most significant first. */
  function ValueOf(ds: string, hex: bool): nat
    requires forall i :: 0 <= i < |ds| ==> IsRadixDigit(ds[i], hex)
  {
    if ds == [] then 0
    else ValueOf(ds[..|ds| - 1], hex) * (if hex then 16 else 10) + DigitValue(ds[|ds| - 1], hex)
  }

  /**
   * ECMAScript's parseInt: skip leading white space, take an optional sign,
   * then (only when `detectHex`, i.e. no radix was passed) a `0x`/`0X`
   * prefix switching to radix 16; the number is the longest run of digits
   * that follows, and NaN when that run is empty.
   */
  function ParseIntWith(s: string, detectHex: bool): Token {
    ParseTrimmed(TrimStart(s), detectHex)
  }

  /** parseInt once leading white space is gone. */
  function ParseTrimmed(t: string, detectHex: bool): Token {
    var u := Unsigned(t);
    var hex := detectHex && HasHexPrefix(u);
    ApplySign(IsNegative(t), ReadDigits(if hex then u[2..] else u, hex))
  }

  function ApplySign(neg: bool, r: Option<nat>): Token {
    if r.None? then None else if neg then Some(-(r.value as int)) else Some(r.value as int)
  }

  predicate IsNegative(t: string) {
    |t| > 0 && t[0] == '-'
  }

  /** What follows an optional leading sign. */
  function Unsigned(t: string): string {
    if |t| > 0 && (t[0] == '-' || t[0] == '+') then t[1..] else t
  }

  predicate HasHexPrefix(u: string) {
    |u| >= 2 && u[0] == '0' && (u[1] == 'x' || u[1] == 'X')
  }

  /** The value of the longest leading run of digits, or `None` when there is none. */
  function ReadDigits(body: string, hex: bool): Option<nat> {
    var n := DigitRun(body, hex);
    if n == 0 then None else Some(ValueOf(body[..n], hex))
  }

  /** `parseInt(s, 10)`. */
  function ParseInt10(s: string): Token {
    ParseIntWith(s, false)
  }

  /** `parseInt(s)` with no radix. */
  function ParseInt(s: string): Token {
    ParseIntWith(s, true)
  }

  /** `s.replace(/\D/g, "")`. */
  function OnlyDigits(s: string): (r: string)
    ensures forall i :: 0 <= i < |r| ==> IsDigit(r[i])
    ensures |r| == 0 <==> forall i :: 0 <= i < |s| ==> !IsDigit(s[i])
  {
    if s == [] then []
    else (if IsDigit(s[0]) then [s[0]] else []) + OnlyDigits(s[1..])
  }

  /** `parseInt(s.replace(/\D/g, ""), 10)`. */
  function ParseDigits(s: string): Token {
    ParseInt10(OnlyDigits(s))
  }

  // ---------------------------------------------------------------- String(n)

  function DigitChar(d: nat): (c: char)
    requires d < 10
    ensures IsDigit(c) && DigitValue(c, false) == d
  {
    ('0' as int + d) as char
  }

  /** Decimal representation of a natural number, without leading zeros. */
  function NatToString(n: nat): (r: string)
    ensures |r| >= 1
    ensures forall i :: 0 <= i < |r| ==> IsDigit(r[i])
    decreases n
  {
    if n < 10 then [DigitChar(n)] else NatToString(n / 10) + [DigitChar(n % 10)]
  }

  /** `String(n)` for an integer `n`. */
  function IntToString(n: int): string {
    if n < 0 then "-" + NatToString(-n) else NatToString(n)
  }

  /** `s.padStart(width, [fill])` with a one-character fill string. */
  function PadStart(s: string, width: nat, fill: char): string {
    if |s| >= width then s else [fill] + PadStart(s, width - 1, fill)
  }

  /** `padStart` fills on the left up to `width` and keeps `s` as the suffix. */
  lemma {:induction false} PadStartMeaning(s: string, width: nat, fill: char)
    ensures |PadStart(s, width, fill)| == if |s| >= width then |s| else width
    ensures PadStart(s, width, fill)[|PadStart(s, width, fill)| - |s|..] == s
    ensures forall i :: 0 <= i < |PadStart(s, width, fill)| - |s| ==> PadStart(s, width, fill)[i] == fill
  {
    if |s| < width {
      PadStartMeaning(s, width - 1, fill);
      var r := PadStart(s, width - 1, fill);
      assert ([fill] + r)[|r| + 1 - |s|..] == r[|r| - |s|..];
    }
  }

  // ---------------------------------------------------------------- split

  /** `s.split(sep)` for a one-character separator string. */
  function Split(s: string, sep: char): (parts: seq<string>)
    ensures |parts| >= 1
    decreases |s|
  {
    if s == [] then [""]
    else if s[0] == sep then [""] + Split(s[1..], sep)
    else
      var rest := Split(s[1..], sep);
      [[s[0]] + rest[0]] + rest[1..]
  }

  /** `parts.join(sep)`. */
  function Join(parts: seq<string>, sep: char): string
    requires |parts| >= 1
  {
    if |parts| == 1 then parts[0] else parts[0] + [sep] + Join(parts[1..], sep)
  }

  // ---------------------------------------------------------------- order

  /** `findIndex(Boolean)`: the first true flag, or -1. */
  function FirstTrue(flags: seq<bool>): (r: int)
    ensures -1 <= r < |flags|
    ensures r >= 0 ==> flags[r]
    ensures forall j :: 0 <= j < |flags| && (r == -1 || j < r) ==> !flags[j]
  {
    if flags == [] then -1
    else if flags[0] then 0
    else
      var r := FirstTrue(flags[1..]);
      if r == -1 then -1 else r + 1
  }

  /** `a < b` in code-point order (how SQLite's BINARY collation orders UTF-8 text). */
  predicate StrLess(a: string, b: string)
    decreases |a|
  {
    if a == [] then b != []
    else if b == [] then false
    else if a[0] != b[0] then a[0] < b[0]
    else StrLess(a[1..], b[1..])
  }

  // ================================================================ lemmas

  lemma {:induction false} ValueOfNatToString(n: nat)
    ensures ValueOf(NatToString(n), false) == n
    decreases n
  {
    var r := NatToString(n);
    if n >= 10 {
      ValueOfNatToString(n / 10);
      assert r[..|r| - 1] == NatToString(n / 10);
    }
  }

  lemma {:induction false} DigitRunAll(s: string, hex: bool)
    requires forall i :: 0 <= i < |s| ==> IsRadixDigit(s[i], hex)
    ensures DigitRun(s, hex) == |s|
    decreases |s|
  {
    if s != [] { DigitRunAll(s[1..], hex); }
  }

  /** `parseInt(String(n), 10) === n`: decimal printing and parsing are inverse. */
  lemma ParseInt10RoundTrip(n: int)
    ensures ParseInt10(IntToString(n)) == Some(n)
  {
    var m: nat := if n < 0 then -n else n;
    var ds := NatToString(m);
    ValueOfNatToString(m);
    DigitsRead(ds);
    if n < 0 {
      NegatedDigits(ds, m);
    } else {
      DigitsParse(ds);
    }
  }

  /** `parseInt(String(n))` is `n` even without a radix, since a decimal numeral never starts with `0x`; `trim` leaves the numeral alone. */
  lemma ParseIntRoundTrip(n: int)
    ensures ParseInt(IntToString(n)) == Some(n)
    ensures Trim(IntToString(n)) == IntToString(n)
  {
    var t := IntToString(n);
    var m: nat := if n < 0 then -n else n;
    var ds := NatToString(m);
    ParseInt10RoundTrip(n);
    assert t == ds || t == "-" + ds;
    assert !IsJsSpace(t[0]);
    assert TrimStart(t) == t;
    assert t[|t| - 1] == ds[|ds| - 1];
    assert !IsJsSpace(t[|t| - 1]);
    assert Unsigned(t) == ds;
    assert !HasHexPrefix(ds) by {
      if |ds| >= 2 { assert IsDigit(ds[1]); }
    }
  }

  /** `parseInt(s.replace(/\D/g,""),10)` is NaN exactly when `s` has no digit, and never negative. */
  lemma ParseDigitsMeaning(s: string)
    ensures ParseDigits(s).None? <==> forall i :: 0 <= i < |s| ==> !IsDigit(s[i])
    ensures ParseDigits(s).Some? ==> ParseDigits(s).value >= 0
  {
    var d := OnlyDigits(s);
    if d != [] {
      assert TrimStart(d) == d;
      assert DigitRun(d, false) >= 1;
    }
  }

  /** Leading white space never changes what parseInt reads, so trimming first is harmless. */
  lemma ParseIntSkipsSpace(w: string, s: string, detectHex: bool)
    requires forall i :: 0 <= i < |w| ==> IsJsSpace(w[i])
    ensures ParseIntWith(w + s, detectHex) == ParseIntWith(s, detectHex)
  {
    TrimStartSkips(w, s);
  }

  lemma {:induction false} TrimStartSkips(w: string, s: string)
    requires forall i :: 0 <= i < |w| ==> IsJsSpace(w[i])
    ensures TrimStart(w + s) == TrimStart(s)
    decreases |w|
  {
    if w != [] {
      assert (w + s)[0] == w[0];
      assert (w + s)[1..] == w[1..] + s;
      TrimStartSkips(w[1..], s);
    } else {
      assert w + s == s;
    }
  }

  /** The parenthesised form in which the site prints a bonus is NaN for `parseInt(_, 10)`. */
  lemma ParenthesisedIsNaN()
    ensures ParseInt10("(12)") == None
  {
    var p := "(12)";
    assert !IsJsSpace(p[0]) && !IsDigit(p[0]);
    assert TrimStart(p) == p;
    assert Unsigned(p) == p;
    assert DigitRun(p, false) == 0;
    assert ReadDigits(p, false) == None;
    assert ParseTrimmed(p, false) == None;
  }

  /** Stripping the non-digits of the bonus text "(12)" leaves 12. */
  lemma ParenthesisedDigits()
    ensures ParseDigits("(12)") == Some(12)
  {
    var p := "(12)";
    var ds := "12";
    assert OnlyDigits(p) == ds by {
      assert p[1..] == "12)";
      assert OnlyDigits(p) == OnlyDigits("12)");
      assert "12)"[1..] == "2)";
      assert OnlyDigits("12)") == "1" + OnlyDigits("2)");
      assert "2)"[1..] == ")";
      assert OnlyDigits("2)") == "2" + OnlyDigits(")");
      assert ")"[1..] == [];
      assert OnlyDigits(")") == [];
    }
    assert ValueOf(ds, false) == 12 by {
      assert ds[..1] == "1" && "1"[..0] == [];
      assert ValueOf("1", false) == 1;
    }
    DigitsParse(ds);
  }

  /** A non-empty run of decimal digits parses (with radix 10) as its positional value, with or without a minus sign. */
  lemma DigitsParse(ds: string)
    requires ds != [] && forall i :: 0 <= i < |ds| ==> IsDigit(ds[i])
    ensures ParseInt10(ds) == Some(ValueOf(ds, false))
  {
    DigitsRead(ds);
    assert !IsJsSpace(ds[0]);
    assert TrimStart(ds) == ds && Unsigned(ds) == ds && !IsNegative(ds);
  }

  /** A minus sign in front of a numeral negates what parseInt reads from the numeral. */
  lemma NegatedDigits(ds: string, v: nat)
    requires ReadDigits(ds, false) == Some(v)
    ensures ParseInt10("-" + ds) == Some(-(v as int))
  {
    MinusShape(ds);
    SignedParse("-" + ds, ds, v);
  }

  lemma MinusShape(ds: string)
    ensures var m := "-" + ds; TrimStart(m) == m && Unsigned(m) == ds && IsNegative(m)
  {
    var m := "-" + ds;
    assert m[0] == '-' && !IsJsSpace(m[0]);
    assert m[1..] == ds;
  }

  lemma SignedParse(t: string, u: string, v: nat)
    requires TrimStart(t) == t && Unsigned(t) == u && IsNegative(t) && ReadDigits(u, false) == Some(v)
    ensures ParseInt10(t) == Some(-(v as int))
  {
  }

  lemma DigitsRead(ds: string)
    requires forall i :: 0 <= i < |ds| ==> IsDigit(ds[i])
    ensures ds != [] ==> ReadDigits(ds, false) == Some(ValueOf(ds, false))
  {
    DigitRunAll(ds, false);
    assert ds[..|ds|] == ds;
  }

  /** Without a radix parseInt reads a `0x` prefix as hexadecimal; with radix 10 it stops at the `x`. */
  lemma HexPrefix()
    ensures ParseInt("0x1A") == Some(26)
    ensures ParseInt10("0x1A") == Some(0)
  {
    var h := "0x1A";
    assert !IsJsSpace(h[0]);
    assert TrimStart(h) == h;
    assert Unsigned(h) == h && HasHexPrefix(h);
    assert h[2..] == "1A";
    var b := "1A";
    assert b[1..] == "A" && b[1..][1..] == "";
    assert DigitRun(b, true) == 2;
    assert b[..2] == b && b[..1] == "1";
    assert ValueOf(b, true) == 26;
    assert DigitRun(h, false) == 1;
    assert h[..1] == "0";
  }

  /** Splitting on a separator and joining the parts back gives the original string. */
  lemma {:induction false} SplitJoin(s: string, sep: char)
    ensures Join(Split(s, sep), sep) == s
    ensures forall k :: 0 <= k < |Split(s, sep)| ==> sep !in Split(s, sep)[k]
    decreases |s|
  {
    if s != [] {
      var rest := Split(s[1..], sep);
      SplitJoin(s[1..], sep);
      if s[0] == sep {
        assert Split(s, sep)[1..] == rest;
      } else {
        var parts := Split(s, sep);
        assert parts[1..] == rest[1..];
        if |rest| > 1 {
          assert rest[1..][1..] == rest[2..];
          assert Join(rest, sep) == rest[0] + [sep] + Join(rest[1..], sep);
        }
        assert [s[0]] + s[1..] == s;
      }
    }
  }

  lemma {:induction false} StrLessIrreflexive(a: string)
    ensures !StrLess(a, a)
    decreases |a|
  {
    if a != [] { StrLessIrreflexive(a[1..]); }
  }

  lemma {:induction false} StrLessTransitive(a: string, b: string, c: string)
    requires StrLess(a, b) && StrLess(b, c)
    ensures StrLess(a, c)
    decreases |a|
  {
    if a != [] && b != [] && c != [] && a[0] == b[0] && b[0] == c[0] {
      StrLessTransitive(a[1..], b[1..], c[1..]);
    }
  }

  lemma {:induction false} StrLessTotal(a: string, b: string)
    requires a != b
    ensures StrLess(a, b) || StrLess(b, a)
    decreases |a|
  {
    if a != [] && b != [] && a[0] == b[0] {
      assert a == [a[0]] + a[1..] && b == [b[0]] + b[1..];
      StrLessTotal(a[1..], b[1..]);
    }
  }

  /** Comparing two strings with a common prefix compares what follows it. */
  lemma {:induction false} StrLessCommonPrefix(p: string, a: string, b: string)
    ensures StrLess(p + a, p + b) <==> StrLess(a, b)
    decreases |p|
  {
    if p != [] {
      assert (p + a)[0] == p[0] && (p + b)[0] == p[0];
      assert (p + a)[1..] == p[1..] + a;
      assert (p + b)[1..] == p[1..] + b;
      StrLessCommonPrefix(p[1..], a, b);
    } else {
      assert p + a == a && p + b == b;
    }
  }
}
