/** The ECMAScript string and number primitives the core relies on:
    white space, `trim`, `toLowerCase`, `includes`, `parseInt`,
    `parseFloat` and `toString`. */
module JsText {
  import opened Wrappers

  /** The ECMAScript WhiteSpace and LineTerminator code points (the set shared
      by `String.prototype.trim`, the regular-expression class `\s` and the
      white space `parseInt` skips). */
  predicate IsWhitespace(c: char) {
    || c == ' ' || c == '\t' || c == '\n' || c == '\r'
    || c == '\U{B}' || c == '\U{C}' || c == '\U{A0}' || c == '\U{1680}'
    || ('\U{2000}' <= c <= '\U{200A}')
    || c == '\U{2028}' || c == '\U{2029}' || c == '\U{202F}' || c == '\U{205F}'
    || c == '\U{3000}' || c == '\U{FEFF}'
  }

  /** Length of the longest white-space prefix of `s`. */
  function LeadingSpace(s: string): (k: nat)
    ensures k <= |s|
    ensures forall i :: 0 <= i < k ==> IsWhitespace(s[i])
    ensures k < |s| ==> !IsWhitespace(s[k])
  {
    if s != [] && IsWhitespace(s[0]) then 1 + LeadingSpace(s[1..]) else 0
  }

  /** Start of the longest white-space suffix of `s`. */
  function TrailingStart(s: string): (k: nat)
    ensures k <= |s|
    ensures forall i :: k <= i < |s| ==> IsWhitespace(s[i])
    ensures 0 < k ==> !IsWhitespace(s[k - 1])
  {
    if s != [] && IsWhitespace(s[|s| - 1]) then TrailingStart(s[..|s| - 1]) else |s|
  }

  function TrimStart(s: string): string {
    s[LeadingSpace(s)..]
  }

  function TrimEnd(s: string): string {
    s[..TrailingStart(s)]
  }

  /** `String.prototype.trim`. */
  function Trim(s: string): string {
    TrimEnd(TrimStart(s))
  }

  /** A trimmed string is empty exactly when the original is all white space. */
  lemma TrimEmptyIffBlank(s: string)
    ensures Trim(s) == [] <==> forall i :: 0 <= i < |s| ==> IsWhitespace(s[i])
  {
    var k := LeadingSpace(s);
    var t := TrimStart(s);
    if k < |s| {
      assert t[0] == s[k];
      assert TrailingStart(t) > 0;
    }
  }

  /** The trimmed string neither starts nor ends with white space. */
  lemma TrimHasNoBorderSpace(s: string)
    ensures Trim(s) != [] ==> !IsWhitespace(Trim(s)[0]) && !IsWhitespace(Trim(s)[|Trim(s)| - 1])
  {
    var t := TrimStart(s);
    var k := TrailingStart(t);
    if k > 0 {
      assert Trim(s)[0] == t[0] == s[LeadingSpace(s)];
      assert Trim(s)[|Trim(s)| - 1] == t[k - 1];
    }
  }

  /** Trimming leaves a string without white space at its ends unchanged. */
  lemma TrimNoBorderSpace(s: string)
    requires s != [] ==> !IsWhitespace(s[0]) && !IsWhitespace(s[|s| - 1])
    ensures Trim(s) == s
  {
    assert LeadingSpace(s) == 0;
    assert TrimStart(s) == s;
  }

  /** `String.prototype.length`: the number of UTF-16 code units, two for a
      character above U+FFFF (a surrogate pair). */
  function Utf16Length(s: string): (n: nat)
    ensures |s| <= n <= 2 * |s|
    ensures n == 0 <==> s == []
  {
    if s == [] then 0 else (if s[0] > '\U{FFFF}' then 2 else 1) + Utf16Length(s[1..])
  }

  /** On text within the Basic Multilingual Plane, `length` counts characters. */
  lemma {:induction false} Utf16LengthInBmp(s: string)
    requires forall i :: 0 <= i < |s| ==> s[i] <= '\U{FFFF}'
    ensures Utf16Length(s) == |s|
  {
    if s != [] {
      Utf16LengthInBmp(s[1..]);
    }
  }

  /** `toLowerCase` on one character (ASCII letters only). */
  function LowerChar(c: char): char {
    if 'A' <= c <= 'Z' then (c as int + ('a' as int - 'A' as int)) as char else c
  }

  /** `String.prototype.toLowerCase`, restricted to ASCII letters. */
  function Lower(s: string): (r: string)
    ensures |r| == |s|
    ensures forall i :: 0 <= i < |s| ==> r[i] == LowerChar(s[i])
  {
    seq(|s|, i requires 0 <= i < |s| => LowerChar(s[i]))
  }

  lemma LowerIdempotent(s: string)
    ensures Lower(Lower(s)) == Lower(s)
  {
    forall i | 0 <= i < |s| ensures Lower(Lower(s))[i] == Lower(s)[i] {
      assert Lower(s)[i] == LowerChar(s[i]);
    }
  }

  /** `needle` occurs in `hay` starting at offset `i`. */
  predicate OccursAt(hay: string, needle: string, i: int) {
    0 <= i <= |hay| && needle <= hay[i..]
  }

  /** `hay.includes(needle)`. */
  function Includes(hay: string, needle: string): (r: bool)
    ensures r <==> exists i :: OccursAt(hay, needle, i)
    decreases |hay|
  {
    if needle <= hay then
      assert OccursAt(hay, needle, 0);
      true
    else if hay == [] then false
    else
      var r := Includes(hay[1..], needle);
      assert forall i :: OccursAt(hay[1..], needle, i) <==> OccursAt(hay, needle, i + 1) by {
        forall i ensures OccursAt(hay[1..], needle, i) <==> OccursAt(hay, needle, i + 1) {
          if 0 <= i <= |hay| - 1 {
            assert hay[1..][i..] == hay[i + 1..];
          }
        }
      }
      assert r <== exists i :: OccursAt(hay, needle, i) by {
        if i :| OccursAt(hay, needle, i) {
          assert i != 0;
          assert OccursAt(hay[1..], needle, i - 1);
        }
      }
      r
  }

  // ----- numbers -----

  predicate IsDigit(c: char) {
    '0' <= c <= '9'
  }

  predicate AllDigits(s: string) {
    forall i :: 0 <= i < |s| ==> IsDigit(s[i])
  }

  function DigitValue(c: char): (d: nat)
    requires IsDigit(c)
    ensures d < 10
  {
    c as int - '0' as int
  }

  function DigitChar(d: nat): (c: char)
    requires d < 10
    ensures IsDigit(c) && DigitValue(c) == d
  {
    ('0' as int + d) as char
  }

  /** Length of the longest digit prefix of `s`. */
  function DigitRun(s: string): (k: nat)
    ensures k <= |s|
    ensures AllDigits(s[..k])
    ensures k < |s| ==> !IsDigit(s[k])
  {
    if s != [] && IsDigit(s[0]) then
      var k := 1 + DigitRun(s[1..]);
      assert s[..k] == [s[0]] + s[1..][..k - 1];
      k
    else 0
  }

  /** The base-10 value of a digit string (most significant digit first). */
  function DigitsValue(s: string): nat
    requires AllDigits(s)
  {
    if s == [] then 0 else 10 * DigitsValue(s[..|s| - 1]) + DigitValue(s[|s| - 1])
  }

  function Pow10(n: nat): (p: nat)
    ensures p > 0
  {
    if n == 0 then 1 else 10 * Pow10(n - 1)
  }

  /** The sign and the unsigned remainder after `parseInt`/`parseFloat` skip white space. */
  function SignedBody(s: string): (bool, string) {
    var t := TrimStart(s);
    if |t| > 0 && (t[0] == '-' || t[0] == '+') then (t[0] == '-', t[1..]) else (false, t)
  }

  /** `parseInt(s, 10)`: skip white space, an optional sign, then the longest run of
      decimal digits; `None` when there is no digit (JavaScript's `NaN`). */
  function ParseInt(s: string): (r: Option<int>)
    ensures r.None? <==> DigitRun(SignedBody(s).1) == 0
  {
    var (negative, body) := SignedBody(s);
    var k := DigitRun(body);
    if k == 0 then None
    else
      var v: int := DigitsValue(body[..k]);
      Some(if negative then -v else v)
  }

  /** `parseFloat(s)` without exponents or `Infinity`: an optional sign,
      digits, and an optional fraction, with at least one digit in all. */
  function ParseFloat(s: string): Option<real> {
    var (negative, body) := SignedBody(s);
    var k := DigitRun(body);
    var rest := body[k..];
    var frac := if |rest| > 0 && rest[0] == '.' then rest[1..][..DigitRun(rest[1..])] else [];
    if k == 0 && frac == [] then None
    else
      var v := DigitsValue(body[..k]) as real + DigitsValue(frac) as real / Pow10(|frac|) as real;
      Some(if negative then -v else v)
  }

  /** JavaScript's `a % b`: the remainder of division truncated toward zero,
      so it takes the sign of `a` (Dafny's `%` is Euclidean). */
  function Rem(a: int, b: int): (r: int)
    requires b != 0
    ensures a >= 0 && b > 0 ==> r == a % b
    ensures a < 0 && b > 0 ==> r == -((-a) % b)
  {
    var m := if b < 0 then -b else b;
    if a >= 0 then a % m else -((-a) % m)
  }

  /** Decimal digits of a natural number, with no leading zero. */
  function NatToString(n: nat): (r: string)
    ensures |r| > 0 && AllDigits(r) && DigitsValue(r) == n
  {
    if n < 10 then [DigitChar(n)]
    else
      var r := NatToString(n / 10) + [DigitChar(n % 10)];
      assert r[..|r| - 1] == NatToString(n / 10);
      r
  }

  /** `Number.prototype.toString()` on an integer. */
  function IntToString(n: int): string {
    if n < 0 then "-" + NatToString(-n) else NatToString(n)
  }

  /** The values an id takes in the callers: a number or a string. */
  datatype JsValue = Num(n: int) | Str(s: string)

  /** `value.toString()` (and the conversion `parseInt` applies first). */
  function ToString(v: JsValue): string {
    match v
    case Num(n) => IntToString(n)
    case Str(s) => s
  }

  lemma DigitRunOfDigits(d: string, rest: string)
    requires AllDigits(d)
    requires rest != [] ==> !IsDigit(rest[0])
    ensures DigitRun(d + rest) == |d|
  {
    if d != [] {
      assert (d + rest)[1..] == d[1..] + rest;
      DigitRunOfDigits(d[1..], rest);
    }
  }

  /** `parseInt` reads back every integer's `toString`. */
  lemma {:induction false} ParseIntToString(n: int)
    ensures ParseInt(IntToString(n)) == Some(n)
  {
    var d := NatToString(if n < 0 then -n else n);
    var s := IntToString(n);
    assert !IsWhitespace(s[0]);
    assert LeadingSpace(s) == 0;
    assert TrimStart(s) == s;
    var body := SignedBody(s).1;
    if n < 0 {
      assert s[1..] == d;
    }
    assert body == d;
    DigitRunOfDigits(d, []);
    assert d + [] == d;
    assert body[..|d|] == d;
  }

  /** `parseInt` of a number's `toString`, or of its decimal text, gives that number back. */
  lemma ParseIntOfNumber(n: int)
    ensures ParseInt(ToString(Num(n))) == Some(n)
    ensures ParseInt(ToString(Str(IntToString(n)))) == Some(n)
  {
    ParseIntToString(n);
  }

  /** `parseFloat` reads back the decimal text of a whole number. */
  lemma ParseFloatWhole(n: nat)
    ensures ParseFloat(NatToString(n)) == Some(n as real)
  {
    var d := NatToString(n);
    assert LeadingSpace(d) == 0 by { assert IsDigit(d[0]); }
    assert SignedBody(d) == (false, d);
    DigitRunOfDigits(d, []);
    assert d + [] == d;
    assert d[|d|..] == [];
    assert d[..|d|] == d;
    assert DigitsValue([]) == 0 && Pow10(0) == 1;
  }

  /** `parseFloat` reads `n.5` as the half step above `n`. */
  lemma ParseFloatHalf(n: nat)
    ensures ParseFloat(NatToString(n) + ".5") == Some(n as real + 0.5)
  {
    var d := NatToString(n);
    var h := d + ".5";
    assert h[0] == d[0];
    assert LeadingSpace(h) == 0 by { assert IsDigit(h[0]); }
    assert SignedBody(h) == (false, h);
    DigitRunOfDigits(d, ".5");
    assert h[..|d|] == d;
    var rest := h[|d|..];
    assert rest == ".5";
    assert rest[1..] == "5";
    DigitRunOfDigits("5", []);
    assert "5" + [] == "5";
    assert "5"[..1] == "5";
    assert DigitsValue("5") == 5 by { assert "5"[..0] == []; }
    assert Pow10(1) == 10;
  }
}
