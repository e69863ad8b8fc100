/** Values and string operations of JavaScript that the storefront's logic relies on,
    stated once and shared by every other module. */
module Js {

  datatype Option<+T> = None | Some(value: T)

  /** A JavaScript value as a request body, a query string or a database row carries it.
      `NumberFrom(raw)` stands for the number `parseFloat(raw)` reads; it is never evaluated. */
  datatype Value = Undefined | Null | Str(s: string) | Int(n: int) | Bool(b: bool) | NumberFrom(raw: string)

  /** A query-string parameter is truthy when it is present and not the empty string. */
  predicate Truthy(p: Option<string>) {
    p.Some? && p.value != ""
  }

  // ---------------------------------------------------------------------------
  // Whitespace and trimming
  // ---------------------------------------------------------------------------

  /** The characters `String.prototype.trim` removes and the regular-expression class `\s`
      matches: ECMAScript WhiteSpace and LineTerminator. */
  predicate IsSpace(c: char) {
    || c == ' ' || c == '\t' || c == '\n' || c == '\r'
    || c == '\U{0B}' || c == '\U{0C}' || c == '\U{A0}' || c == '\U{FEFF}'
    || c == '\U{1680}' || ('\U{2000}' <= c <= '\U{200A}')
    || c == '\U{2028}' || c == '\U{2029}' || c == '\U{202F}' || c == '\U{205F}' || c == '\U{3000}'
  }

  function TrimStart(s: string): (r: string)
    ensures |r| <= |s| && r == s[|s| - |r|..]
    ensures r == [] || !IsSpace(r[0])
    ensures forall i :: 0 <= i < |s| - |r| ==> IsSpace(s[i])
    ensures forall c :: c in r ==> c in s
  {
    if s != [] && IsSpace(s[0]) then TrimStart(s[1..]) else s
  }

  function TrimEnd(s: string): (r: string)
    ensures |r| <= |s| && r == s[..|r|]
    ensures r == [] || !IsSpace(r[|r| - 1])
    ensures forall i :: |r| <= i < |s| ==> IsSpace(s[i])
    ensures forall c :: c in r ==> c in s
  {
    if s != [] && IsSpace(s[|s| - 1]) then TrimEnd(s[..|s| - 1]) else s
  }

  /** `s.trim()`: drops the whitespace at both ends of `s` and nothing else. */
  function Trim(s: string): (r: string)
    ensures |r| <= |s|
    ensures r == [] || (!IsSpace(r[0]) && !IsSpace(r[|r| - 1]))
    ensures forall c :: c in r ==> c in s
    ensures (s == [] || (!IsSpace(s[0]) && !IsSpace(s[|s| - 1]))) ==> r == s
  {
    TrimEnd(TrimStart(s))
  }

  /** Trimming leaves a string without whitespace at its ends untouched. */
  lemma TrimKeeps(s: string)
    requires s == [] || (!IsSpace(s[0]) && !IsSpace(s[|s| - 1]))
    ensures Trim(s) == s
  {
  }

  // ---------------------------------------------------------------------------
  // String length
  // ---------------------------------------------------------------------------

  /** The UTF-16 code units a character takes: two for a character outside the Basic
      Multilingual Plane (a surrogate pair), one otherwise. */
  function CodeUnits(c: char): nat {
    if c as int >= 0x1_0000 then 2 else 1
  }

  /** `s.length`: the number of UTF-16 code units of `s`, which is more than its number of
      characters exactly when it holds a character outside the Basic Multilingual Plane. */
  function JsLength(s: string): (n: nat)
    ensures |s| <= n <= 2 * |s|
    ensures n == |s| <==> forall i :: 0 <= i < |s| ==> s[i] as int < 0x1_0000
  {
    if s == [] then 0 else JsLength(s[..|s| - 1]) + CodeUnits(s[|s| - 1])
  }

  /** Lengths add up over concatenation. */
  lemma {:induction false} JsLengthConcat(a: string, b: string)
    ensures JsLength(a + b) == JsLength(a) + JsLength(b)
    decreases |b|
  {
    if b == [] {
      assert a + b == a;
    } else {
      var init := b[..|b| - 1];
      assert (a + b)[..|a + b| - 1] == a + init;
      JsLengthConcat(a, init);
    }
  }

  /** A string made only of characters outside the Basic Multilingual Plane is twice as
      long as its number of characters. */
  lemma {:induction false} AstralLength(s: string)
    requires forall i :: 0 <= i < |s| ==> s[i] as int >= 0x1_0000
    ensures JsLength(s) == 2 * |s|
  {
    if s != [] {
      AstralLength(s[..|s| - 1]);
    }
  }

  /** A single character outside the Basic Multilingual Plane has length 2. */
  lemma AstralCharLength(c: char)
    requires c as int >= 0x1_0000
    ensures JsLength([c]) == 2
  {
    assert [c][..0] == [];
  }

  // ---------------------------------------------------------------------------
  // ASCII case mapping
  // ---------------------------------------------------------------------------

  function LowerChar(c: char): char {
    if 'A' <= c <= 'Z' then (c as int + 32) as char else c
  }

  function UpperChar(c: char): char {
    if 'a' <= c <= 'z' then (c as int - 32) as char else c
  }

  /** `s.toLowerCase()` restricted to ASCII letters. */
  function Lower(s: string): (r: string)
    ensures |r| == |s|
  {
    seq(|s|, i requires 0 <= i < |s| => LowerChar(s[i]))
  }

  /** `s.toUpperCase()` restricted to ASCII letters. */
  function Upper(s: string): (r: string)
    ensures |r| == |s|
  {
    seq(|s|, i requires 0 <= i < |s| => UpperChar(s[i]))
  }

  /** `s` equals the lower-case word `w` up to ASCII case. */
  predicate SpelledAs(s: string, w: string) {
    |s| == |w| && forall i :: 0 <= i < |s| ==> LowerChar(s[i]) == w[i]
  }

  /** Case mapping only touches letters: a character that is not an upper-case ASCII letter
      is left as it is. */
  lemma SpelledAsAt(s: string, w: string, i: int)
    requires SpelledAs(s, w) && 0 <= i < |s|
    ensures !('A' <= w[i] <= 'Z') && !('a' <= w[i] <= 'z') ==> s[i] == w[i]
    ensures IsSpace(s[i]) <==> IsSpace(w[i])
  {
    assert LowerChar(s[i]) == w[i];
  }

  // ---------------------------------------------------------------------------
  // Searching and joining
  // ---------------------------------------------------------------------------

  predicate StartsWith(s: string, prefix: string) {
    |prefix| <= |s| && s[..|prefix|] == prefix
  }

  /** `s.includes(w)`, and equally a regular expression made of the literal `w` tested against `s`. */
  predicate Contains(s: string, w: string)
    decreases |s|
  {
    StartsWith(s, w) || (s != [] && Contains(s[1..], w))
  }

  /** `parts.join(sep)`. */
  function Join(parts: seq<string>, sep: string): string {
    if parts == [] then ""
    else if |parts| == 1 then parts[0]
    else parts[0] + sep + Join(parts[1..], sep)
  }

  function CountChar(s: string, c: char): nat {
    if s == [] then 0 else (if s[0] == c then 1 else 0) + CountChar(s[1..], c)
  }

  lemma {:induction false} CountCharConcat(a: string, b: string, c: char)
    ensures CountChar(a + b, c) == CountChar(a, c) + CountChar(b, c)
  {
    if a == [] {
      assert a + b == b;
    } else {
      assert (a + b)[1..] == a[1..] + b;
      CountCharConcat(a[1..], b, c);
    }
  }

  lemma {:induction false} CountCharAbsent(s: string, c: char)
    requires c !in s
    ensures CountChar(s, c) == 0
  {
    if s != [] {
      assert s[0] in s;
      assert forall d :: d in s[1..] ==> d in s;
      CountCharAbsent(s[1..], c);
    }
  }

  /** A joined list holds as many copies of `c` as its parts and separators together. */
  lemma {:induction false} CountCharJoin(parts: seq<string>, sep: string, c: char)
    requires CountChar(sep, c) == 0
    ensures CountChar(Join(parts, sep), c) == SumCounts(parts, c)
  {
    if |parts| > 1 {
      CountCharJoin(parts[1..], sep, c);
      CountCharConcat(parts[0], sep, c);
      CountCharConcat(parts[0] + sep, Join(parts[1..], sep), c);
    }
  }

  function SumCounts(parts: seq<string>, c: char): nat {
    if parts == [] then 0 else CountChar(parts[0], c) + SumCounts(parts[1..], c)
  }

  // ---------------------------------------------------------------------------
  // Decimal integers, as a template literal prints an integral Number
  // ---------------------------------------------------------------------------

  predicate IsDigit(c: char) {
    '0' <= c <= '9'
  }

  function DigitChar(d: nat): char
    requires d < 10
  {
    ('0' as int + d) as char
  }

  function NatToString(n: nat): (r: string)
    ensures r != [] && forall i :: 0 <= i < |r| ==> IsDigit(r[i])
  {
    if n < 10 then [DigitChar(n)] else NatToString(n / 10) + [DigitChar(n % 10)]
  }

  /** `${n}` for an integer `n`. */
  function IntToString(n: int): string {
    if n < 0 then "-" + NatToString(-n) else NatToString(n)
  }

  function DigitValue(c: char): nat
    requires IsDigit(c)
  {
    c as int - '0' as int
  }

  function ParseDigits(s: string): nat
    requires forall i :: 0 <= i < |s| ==> IsDigit(s[i])
  {
    if s == [] then 0 else 10 * ParseDigits(s[..|s| - 1]) + DigitValue(s[|s| - 1])
  }

  /** Reads back a decimal integer; `None` when `s` is not an optional minus sign followed by digits. */
  function ParseInt(s: string): Option<int> {
    if s != [] && s[0] == '-' && |s| > 1 && (forall i :: 1 <= i < |s| ==> IsDigit(s[i])) then
      var v: int := -(ParseDigits(s[1..]) as int);
      Some(v)
    else if s != [] && forall i :: 0 <= i < |s| ==> IsDigit(s[i]) then
      Some(ParseDigits(s))
    else
      None
  }

  lemma {:induction false} ParseNatToString(n: nat)
    ensures ParseDigits(NatToString(n)) == n
  {
    if n >= 10 {
      var s := NatToString(n);
      assert s[..|s| - 1] == NatToString(n / 10);
      ParseNatToString(n / 10);
    }
  }

  /** Printing an integer and reading it back gives the integer: the decimal form is faithful. */
  lemma IntToStringRoundTrip(n: int)
    ensures ParseInt(IntToString(n)) == Some(n)
  {
    var s := IntToString(n);
    if n < 0 {
      var t := NatToString(-n);
      assert s == "-" + t;
      assert s[1..] == t;
      forall i | 1 <= i < |s|
        ensures IsDigit(s[i])
      {
        assert s[i] == t[i - 1];
      }
      ParseNatToString(-n);
    } else {
      assert !IsDigit('-');
      assert s[0] != '-';
      ParseNatToString(n);
    }
  }

  lemma IntToStringInjective(a: int, b: int)
    requires IntToString(a) == IntToString(b)
    ensures a == b
  {
    IntToStringRoundTrip(a);
    IntToStringRoundTrip(b);
  }
}
