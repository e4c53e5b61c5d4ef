/**
 * The JavaScript string operations the application relies on, as functions on
 * `seq<char>`: `trim`, ASCII `toLowerCase`/`toUpperCase`, `includes`,
 * `startsWith`, `split` on one character, and the decimal conversions that
 * `Number`, `parseInt` and template literals perform on plain digit strings.
 */
module JsString {
  import opened Wrappers

  /** A JavaScript string value is truthy when it is present and not empty. */
  predicate Truthy(s: Option<string>) {
    s.Some? && s.value != ""
  }

  /** The characters JavaScript's `\s` class and `String.prototype.trim` treat as blank. */
  predicate IsWhitespace(c: char) {
    c == ' ' || c == '\t' || c == '\n' || c == '\U{B}' || c == '\U{C}' || c == '\r'
    || c == '\U{A0}' || c == '\U{1680}' || ('\U{2000}' <= c <= '\U{200A}')
    || c == '\U{2028}' || c == '\U{2029}' || c == '\U{202F}' || c == '\U{205F}'
    || c == '\U{3000}' || c == '\U{FEFF}'
  }

  function TrimStart(s: string): (r: string)
    ensures |r| <= |s| && r == s[|s| - |r|..]
    ensures forall c :: c in r ==> c in s
    ensures r == [] || !IsWhitespace(r[0])
    ensures forall i :: 0 <= i < |s| - |r| ==> IsWhitespace(s[i])
  {
    if s != [] && IsWhitespace(s[0]) then
      var r := TrimStart(s[1..]);
      assert s[1..][|s| - 1 - |r|..] == s[|s| - |r|..];
      assert forall i :: 1 <= i < |s| - |r| ==> s[i] == s[1..][i - 1];
      r
    else s
  }

  function TrimEnd(s: string): (r: string)
    ensures |r| <= |s| && r == s[..|r|]
    ensures forall c :: c in r ==> c in s
    ensures r == [] || !IsWhitespace(r[|r| - 1])
    ensures forall i :: |r| <= i < |s| ==> IsWhitespace(s[i])
  {
    if s != [] && IsWhitespace(s[|s| - 1]) then
      var r := TrimEnd(s[..|s| - 1]);
      assert s[..|s| - 1][..|r|] == s[..|r|];
      assert forall i :: |r| <= i < |s| - 1 ==> s[i] == s[..|s| - 1][i];
      r
    else s
  }

  /** How many blanks `trim` drops from the front of `s`. */
  function LeadingBlanks(s: string): (n: nat)
    ensures n <= |s|
    ensures forall i :: 0 <= i < n ==> IsWhitespace(s[i])
    ensures n < |s| ==> !IsWhitespace(s[n])
  {
    |s| - |TrimStart(s)|
  }

  /** `s.trim()`: `s` without its leading and trailing blanks. */
  function Trim(s: string): (r: string)
    ensures |r| <= |s|
    ensures forall c :: c in r ==> c in s
    ensures r == [] <==> forall i :: 0 <= i < |s| ==> IsWhitespace(s[i])
    ensures r != [] ==> !IsWhitespace(r[0]) && !IsWhitespace(r[|r| - 1])
  {
    var t := TrimStart(s);
    TrimEnd(t)
  }

  /**
   * The trimmed text is the slice of `s` after its leading blanks, and
   * everything of `s` after that slice is blank.
   */
  lemma TrimIsSlice(s: string)
    ensures LeadingBlanks(s) + |Trim(s)| <= |s|
    ensures Trim(s) == s[LeadingBlanks(s)..LeadingBlanks(s) + |Trim(s)|]
    ensures forall i :: LeadingBlanks(s) + |Trim(s)| <= i < |s| ==> IsWhitespace(s[i])
  {
    TrimParts(s);
    BlankPaddedSlice(s, LeadingBlanks(s), TrimStart(s), Trim(s));
  }

  /** `trim` is `trimStart`, which drops the leading blanks, followed by `trimEnd`. */
  lemma TrimParts(s: string)
    ensures LeadingBlanks(s) <= |s| && TrimStart(s) == s[LeadingBlanks(s)..]
    ensures |Trim(s)| <= |TrimStart(s)| && Trim(s) == TrimStart(s)[..|Trim(s)|]
    ensures forall i :: |Trim(s)| <= i < |TrimStart(s)| ==> IsWhitespace(TrimStart(s)[i])
  {
    assert Trim(s) == TrimEnd(TrimStart(s));
  }

  /** A prefix `r` of the suffix `t == s[n..]`, followed in `t` by blanks only. */
  lemma BlankPaddedSlice(s: string, n: nat, t: string, r: string)
    requires n <= |s| && t == s[n..]
    requires |r| <= |t| && r == t[..|r|]
    requires forall i :: |r| <= i < |t| ==> IsWhitespace(t[i])
    ensures n + |r| <= |s| && r == s[n..n + |r|]
    ensures forall i :: n + |r| <= i < |s| ==> IsWhitespace(s[i])
  {
    forall i | n + |r| <= i < |s|
      ensures IsWhitespace(s[i])
    {
      assert s[i] == t[i - n];
    }
  }

  function LowerChar(c: char): char {
    if 'A' <= c <= 'Z' then (c as int + 32) as char else c
  }

  function UpperChar(c: char): char {
    if 'a' <= c <= 'z' then (c as int - 32) as char else c
  }

  /** `s.toLowerCase()` on the ASCII letters. */
  function ToLower(s: string): (r: string)
    ensures |r| == |s| && forall i :: 0 <= i < |s| ==> r[i] == LowerChar(s[i])
  {
    seq(|s|, i requires 0 <= i < |s| => LowerChar(s[i]))
  }

  /** `s.toUpperCase()` on the ASCII letters. */
  function ToUpper(s: string): (r: string)
    ensures |r| == |s| && forall i :: 0 <= i < |s| ==> r[i] == UpperChar(s[i])
  {
    seq(|s|, i requires 0 <= i < |s| => UpperChar(s[i]))
  }

  lemma ToLowerIdempotent(s: string)
    ensures ToLower(ToLower(s)) == ToLower(s)
  {
  }

  /** `s.includes(sub)`. */
  predicate Contains(s: string, sub: string) {
    exists i :: 0 <= i <= |s| - |sub| && OccursAt(s, sub, i)
  }

  /** `sub` appears in `s` starting at index `i`. */
  predicate OccursAt(s: string, sub: string, i: int) {
    0 <= i <= |s| - |sub| && s[i..i + |sub|] == sub
  }

  /** `s.startsWith(p)`. */
  predicate StartsWith(s: string, p: string) {
    |p| <= |s| && s[..|p|] == p
  }

  lemma ContainsPrefix(s: string, p: string, rest: string)
    ensures Contains(p + s + rest, s)
  {
    assert (p + s + rest)[|p|..|p| + |s|] == s;
    assert OccursAt(p + s + rest, s, |p|);
  }

  /** `s.split(sep)` for a one-character separator: never empty, and no piece holds `sep`. */
  function Split(s: string, sep: char): (r: seq<string>)
    ensures |r| == Occurrences(s, sep) + 1
    ensures forall k :: 0 <= k < |r| ==> sep !in r[k]
  {
    if s == [] then [""]
    else
      var rest := Split(s[1..], sep);
      if s[0] == sep then [""] + rest else [[s[0]] + rest[0]] + rest[1..]
  }

  /** How many times `c` occurs in `s`. */
  function Occurrences(s: string, c: char): nat {
    if s == [] then 0 else (if s[0] == c then 1 else 0) + Occurrences(s[1..], c)
  }

  /** `parts.join(sep)`. */
  function Join(parts: seq<string>, sep: char): string {
    if |parts| == 0 then ""
    else if |parts| == 1 then parts[0]
    else parts[0] + [sep] + Join(parts[1..], sep)
  }

  /** Splitting and joining on the same character gives the string back. */
  lemma {:induction false} JoinSplit(s: string, sep: char)
    ensures Join(Split(s, sep), sep) == s
  {
    if s != [] {
      var rest := Split(s[1..], sep);
      JoinSplit(s[1..], sep);
      if s[0] == sep {
        assert Split(s, sep) == [""] + rest;
        assert Join(Split(s, sep), sep) == "" + [sep] + Join(rest, sep);
      } else {
        var parts := [[s[0]] + rest[0]] + rest[1..];
        assert Split(s, sep) == parts;
        if |rest| == 1 {
          assert Join(parts, sep) == [s[0]] + rest[0];
        } else {
          assert parts[1..] == rest[1..];
          assert Join(rest, sep) == rest[0] + [sep] + Join(rest[1..], sep);
          assert Join(parts, sep) == [s[0]] + rest[0] + [sep] + Join(rest[1..], sep);
        }
      }
    }
  }

  /** A string without the separator splits into itself alone. */
  lemma {:induction false} SplitWithout(s: string, sep: char)
    requires sep !in s
    ensures Split(s, sep) == [s]
  {
    if s != [] {
      assert sep !in s[1..] by {
        forall c | c in s[1..] ensures c in s { }
      }
      SplitWithout(s[1..], sep);
      assert s[0] != sep && [s[0]] + s[1..] == s;
    }
  }

  /** Splitting at the first separator: the piece before it, then the split of the rest. */
  lemma {:induction false} SplitAround(a: string, b: string, sep: char)
    requires sep !in a
    ensures Split(a + [sep] + b, sep) == [a] + Split(b, sep)
  {
    var s := a + [sep] + b;
    if a == [] {
      assert s[1..] == b;
    } else {
      assert s[1..] == a[1..] + [sep] + b;
      assert sep !in a[1..] by {
        forall c | c in a[1..] ensures c in a { }
      }
      SplitAround(a[1..], b, sep);
      var rest := Split(s[1..], sep);
      assert rest[0] == a[1..] && rest[1..] == Split(b, sep);
      assert s[0] == a[0] && a[0] != sep;
      assert [s[0]] + rest[0] == a;
    }
  }

  /** Trimming leaves a string whose ends are not blank as it is. */
  lemma TrimUnchanged(s: string)
    requires s == [] || (!IsWhitespace(s[0]) && !IsWhitespace(s[|s| - 1]))
    ensures Trim(s) == s
  {
  }

  predicate IsDigit(c: char) {
    '0' <= c <= '9'
  }

  predicate AllDigits(s: string) {
    forall i :: 0 <= i < |s| ==> IsDigit(s[i])
  }

  function DigitChar(d: nat): char
    requires d < 10
  {
    ('0' as int + d) as char
  }

  /** The value of a string of decimal digits (the empty string reads as 0, as `Number("")` does). */
  function DigitsValue(s: string): nat
    requires AllDigits(s)
  {
    if s == [] then 0 else DigitsValue(s[..|s| - 1]) * 10 + (s[|s| - 1] as int - '0' as int)
  }

  /** The decimal text of `n`, as a template literal `${n}` writes it. */
  function NatToString(n: nat): (r: string)
    ensures |r| >= 1 && AllDigits(r)
    ensures n >= 10 ==> r[0] != '0'
  {
    if n < 10 then [DigitChar(n)] else NatToString(n / 10) + [DigitChar(n % 10)]
  }

  /** Reading back the decimal text of `n` gives `n`. */
  lemma {:induction false} DigitsRoundTrip(n: nat)
    ensures DigitsValue(NatToString(n)) == n
  {
    if n >= 10 {
      var s := NatToString(n);
      DigitsRoundTrip(n / 10);
      assert s[..|s| - 1] == NatToString(n / 10);
    }
  }

  /**
   * `Number(s) || 0` for the strings the model reads: surrounding blanks are
   * ignored and a string of decimal digits gives its value; anything else
   * (NaN) counts as 0.
   */
  function NumberOrZero(s: string): nat {
    var t := Trim(s);
    if AllDigits(t) then DigitsValue(t) else 0
  }

  /** The longest prefix of `s` made of decimal digits. */
  function DigitPrefix(s: string): (r: string)
    ensures |r| <= |s| && r == s[..|r|] && AllDigits(r)
    ensures |r| < |s| ==> !IsDigit(s[|r|])
  {
    if s != [] && IsDigit(s[0]) then [s[0]] + DigitPrefix(s[1..]) else ""
  }

  predicate IsHexDigit(c: char) {
    IsDigit(c) || 'a' <= c <= 'f' || 'A' <= c <= 'F'
  }

  predicate AllHexDigits(s: string) {
    forall i :: 0 <= i < |s| ==> IsHexDigit(s[i])
  }

  function HexDigitValue(c: char): (d: nat)
    requires IsHexDigit(c)
    ensures d < 16
  {
    if IsDigit(c) then c as int - '0' as int
    else if 'a' <= c <= 'f' then c as int - 'a' as int + 10
    else c as int - 'A' as int + 10
  }

  /** The value of a string of hexadecimal digits of either case. */
  function HexValue(s: string): nat
    requires AllHexDigits(s)
  {
    if s == [] then 0 else HexValue(s[..|s| - 1]) * 16 + HexDigitValue(s[|s| - 1])
  }

  /** The lower-case hexadecimal digit of `d`. */
  function HexChar(d: nat): (c: char)
    requires d < 16
    ensures IsHexDigit(c) && HexDigitValue(c) == d
  {
    if d < 10 then DigitChar(d) else ('a' as int + d - 10) as char
  }

  /** The hexadecimal text of `n`, as `n.toString(16)` writes it. */
  function HexText(n: nat): (r: string)
    ensures |r| >= 1 && AllHexDigits(r)
  {
    if n < 16 then [HexChar(n)] else HexText(n / 16) + [HexChar(n % 16)]
  }

  /** The longest prefix of `s` made of hexadecimal digits. */
  function HexPrefix(s: string): (r: string)
    ensures |r| <= |s| && r == s[..|r|] && AllHexDigits(r)
    ensures |r| < |s| ==> !IsHexDigit(s[|r|])
  {
    if s != [] && IsHexDigit(s[0]) then [s[0]] + HexPrefix(s[1..]) else ""
  }

  /** The text after the sign starts with `0x` or `0X`, so `parseInt` reads it in base 16. */
  predicate HasHexPrefix(body: string) {
    |body| >= 2 && body[0] == '0' && (body[1] == 'x' || body[1] == 'X')
  }

  /**
   * `parseInt(s)` without a radix: blanks, an optional sign, then either
   * `0x`/`0X` and at least one hexadecimal digit, or at least one decimal
   * digit; the longest such digit run is read and the rest ignored. `None`
   * is NaN.
   */
  function ParseInt(s: string): Option<int> {
    var t := TrimStart(s);
    var negative := |t| > 0 && t[0] == '-';
    var body := if |t| > 0 && (t[0] == '-' || t[0] == '+') then t[1..] else t;
    if HasHexPrefix(body) then
      var h := HexPrefix(body[2..]);
      if h == [] then None else Some(if negative then -(HexValue(h) as int) else HexValue(h))
    else
      var d := DigitPrefix(body);
      if d == [] then None else Some(if negative then -(DigitsValue(d) as int) else DigitsValue(d))
  }

  /** `parseInt` reads back the decimal text of every natural number. */
  lemma ParseIntOfNatToString(n: nat)
    ensures ParseInt(NatToString(n)) == Some(n)
  {
    var s := NatToString(n);
    assert IsDigit(s[0]);
    assert !IsWhitespace(s[0]);
    assert TrimStart(s) == s;
    assert s[0] != '-' && s[0] != '+';
    assert |s| >= 2 ==> IsDigit(s[1]);
    assert !HasHexPrefix(s);
    AllDigitsPrefix(s);
    assert DigitPrefix(s) == s;
    DigitsRoundTrip(n);
  }

  /** Reading back the hexadecimal text of `n` gives `n`. */
  lemma {:induction false} HexRoundTrip(n: nat)
    ensures HexValue(HexText(n)) == n
  {
    if n >= 16 {
      var s := HexText(n);
      HexRoundTrip(n / 16);
      assert s[..|s| - 1] == HexText(n / 16);
    }
  }

  lemma {:induction false} AllHexPrefix(s: string)
    requires AllHexDigits(s)
    ensures HexPrefix(s) == s
  {
    if s != [] {
      AllHexPrefix(s[1..]);
    }
  }

  /** `parseInt` reads `0x` followed by the hexadecimal text of `n` as `n`. */
  lemma ParseIntOfHexText(n: nat)
    ensures ParseInt("0x" + HexText(n)) == Some(n)
  {
    var s := "0x" + HexText(n);
    assert !IsWhitespace(s[0]);
    assert TrimStart(s) == s;
    assert HasHexPrefix(s);
    assert s[2..] == HexText(n);
    AllHexPrefix(HexText(n));
    HexRoundTrip(n);
  }

  lemma {:induction false} AllDigitsPrefix(s: string)
    requires AllDigits(s)
    ensures DigitPrefix(s) == s
  {
    if s != [] {
      AllDigitsPrefix(s[1..]);
    }
  }

  // ---------------------------------------------------------------- e-mail shape

  /** No character of `s[lo..hi]` is blank: the run is `\S*`. */
  predicate NonBlankRun(s: string, lo: int, hi: int)
    requires 0 <= lo <= hi <= |s|
  {
    forall k :: lo <= k < hi ==> !IsWhitespace(s[k])
  }

  /**
   * `/\S+@\S+\.\S+/` finds a match somewhere in `s`: an `@` at `i` and a `.`
   * at `j`, with a non-blank character before the `@`, a non-blank run
   * between them and a non-blank character after the dot.
   */
  predicate HasEmailShape(s: string) {
    exists i, j :: 1 <= i && i + 1 < j && j + 1 < |s| && s[i] == '@' && s[j] == '.' &&
      !IsWhitespace(s[i - 1]) && NonBlankRun(s, i + 1, j) && !IsWhitespace(s[j + 1])
  }

  /** `/^\S+@\S+\.\S+$/`: the whole string is non-blank and has that shape. */
  predicate IsEmailShape(s: string) {
    NonBlankRun(s, 0, |s|) && HasEmailShape(s)
  }

  /** The anchored pattern accepts exactly the blank-free strings the unanchored one accepts. */
  lemma EmailShapeAnchoring(s: string)
    ensures IsEmailShape(s) ==> HasEmailShape(s)
    ensures HasEmailShape(s) && NonBlankRun(s, 0, |s|) ==> IsEmailShape(s)
  {
  }

  /** A blank anywhere defeats the anchored pattern but not the unanchored one. */
  lemma BlankInsideEmail()
    ensures HasEmailShape("a b@c.d")
    ensures !IsEmailShape("a b@c.d")
  {
    var s := "a b@c.d";
    assert s[1] == ' ' && s[2] == 'b' && s[3] == '@' && s[4] == 'c' && s[5] == '.' && s[6] == 'd';
    assert !IsWhitespace('b') && !IsWhitespace('c') && !IsWhitespace('d') && IsWhitespace(' ');
    assert NonBlankRun(s, 4, 5);
    assert !NonBlankRun(s, 0, |s|);
  }
}
