/**
 Micro-USD parsing and printing of packages/agent/src/money.ts. Text routed
 through JavaScript's Number() (an exponent in it) is outside the model.
 */
module Money {
  import opened Wrappers
  import opened DotSplit

  // ── Decimal digits ────────────────────────────────────────────────────────

  function Pow10(n: nat): (p: nat)
    ensures p > 0
  {
    if n == 0 then 1 else 10 * Pow10(n - 1)
  }

  predicate IsDigit(c: char) {
    '0' <= c <= '9'
  }

  predicate AllDigits(s: string) {
    forall i :: 0 <= i < |s| ==> IsDigit(s[i])
  }

  /** `BigInt` of a digit string. */
  function Num(s: string): nat
    requires AllDigits(s)
  {
    if s == "" then 0 else Num(s[..|s| - 1]) * 10 + (s[|s| - 1] - '0') as nat
  }

  /** `toString` of a non-negative bigint. */
  function Digits(n: nat): (s: string)
    ensures s != "" && AllDigits(s)
  {
    if n < 10 then ['0' + n as char] else Digits(n / 10) + ['0' + (n % 10) as char]
  }

  function Zeros(n: nat): (s: string)
    ensures |s| == n && AllDigits(s)
  {
    seq(n, _ => '0')
  }

  lemma {:induction false} PowSum(a: nat, b: nat)
    ensures Pow10(a + b) == Pow10(a) * Pow10(b)
  {
    if a > 0 {
      PowSum(a - 1, b);
    }
  }

  lemma {:induction false} NumBound(s: string)
    requires AllDigits(s)
    ensures Num(s) < Pow10(|s|)
  {
    if s != "" {
      NumBound(s[..|s| - 1]);
    }
  }

  lemma ShiftDigit(x: nat, p: nat, y: nat, digit: nat)
    ensures (x * p + y) * 10 + digit == x * (10 * p) + (y * 10 + digit)
  {
  }

  lemma {:induction false} NumConcat(a: string, b: string)
    requires AllDigits(a) && AllDigits(b)
    ensures AllDigits(a + b) && Num(a + b) == Num(a) * Pow10(|b|) + Num(b)
  {
    if b == "" {
      assert a + b == a;
    } else {
      var n := |b| - 1;
      NumConcat(a, b[..n]);
      assert (a + b)[..|a| + n] == a + b[..n];
      ShiftDigit(Num(a), Pow10(n), Num(b[..n]), (b[n] - '0') as nat);
    }
  }

  /** Digit strings are read in base ten: a digit is its value, and what is before n digits counts 10^n times. */
  lemma ReadsBaseTen(c: char, a: string, b: string)
    requires IsDigit(c) && AllDigits(a) && AllDigits(b)
    ensures Num([c]) == c as int - 48 && Num("") == 0
    ensures AllDigits(a + b) && Num(a + b) == Num(a) * Pow10(|b|) + Num(b)
    ensures Pow10(0) == 1 && Pow10(|b| + 1) == Pow10(|b|) * 10
  {
    assert [c][..0] == "";
    NumConcat(a, b);
  }

  lemma {:induction false} NumOfZeros(n: nat)
    ensures Num(Zeros(n)) == 0
  {
    if n > 0 {
      assert Zeros(n)[..n - 1] == Zeros(n - 1);
      NumOfZeros(n - 1);
    }
  }

  lemma {:induction false} NumOfDigits(n: nat)
    ensures Num(Digits(n)) == n
  {
    if n >= 10 {
      NumOfDigits(n / 10);
      assert Digits(n)[..|Digits(n)| - 1] == Digits(n / 10);
    } else {
      assert Digits(n)[..0] == "";
    }
  }

  lemma {:induction false} DigitsLength(n: nat, k: nat)
    requires 0 < k && n < Pow10(k)
    ensures |Digits(n)| <= k
  {
    if n >= 10 {
      DigitsLength(n / 10, k - 1);
    }
  }

  // ── Parsing ───────────────────────────────────────────────────────────────

  /** The first six places of a fraction, padded with zeros. */
  function Six(f: string): (r: string)
    requires AllDigits(f)
    ensures |r| == 6 && AllDigits(r)
  {
    (f + Zeros(6))[..6]
  }

  predicate IsSpace(c: char) {
    || 9 as char <= c <= 13 as char || c == ' ' || c == 0xA0 as char || c == 0x1680 as char
    || 0x2000 as char <= c <= 0x200A as char || c == 0x2028 as char || c == 0x2029 as char
    || c == 0x202F as char || c == 0x205F as char || c == 0x3000 as char || c == 0xFEFF as char
  }

  function TrimStart(s: string): string {
    if s != "" && IsSpace(s[0]) then TrimStart(s[1..]) else s
  }

  function TrimEnd(s: string): string {
    if s != "" && IsSpace(s[|s| - 1]) then TrimEnd(s[..|s| - 1]) else s
  }

  function Trim(s: string): string {
    TrimEnd(TrimStart(s))
  }

  /** The white space of ECMAScript's `trim`, by code unit. */
  lemma Spaces(c: char)
    ensures IsSpace(c) <==>
              var u := c as int;
              || 9 <= u <= 13 || u == 32 || u == 160 || u == 5760 || 8192 <= u <= 8202
              || u == 8232 || u == 8233 || u == 8239 || u == 8287 || u == 12288 || u == 65279
  {
  }

  predicate AllSpaces(s: string) {
    forall i :: 0 <= i < |s| ==> IsSpace(s[i])
  }

  lemma {:induction false} TrimStartCuts(s: string) returns (lead: string)
    ensures s == lead + TrimStart(s) && AllSpaces(lead)
    ensures TrimStart(s) != "" ==> !IsSpace(TrimStart(s)[0])
  {
    if s != "" && IsSpace(s[0]) {
      var rest := TrimStartCuts(s[1..]);
      lead := [s[0]] + rest;
    } else {
      lead := "";
    }
  }

  lemma {:induction false} TrimEndCuts(s: string) returns (trail: string)
    ensures s == TrimEnd(s) + trail && AllSpaces(trail)
    ensures TrimEnd(s) != "" ==> !IsSpace(TrimEnd(s)[|TrimEnd(s)| - 1])
    ensures TrimEnd(s) != "" ==> TrimEnd(s)[0] == s[0]
  {
    if s != "" && IsSpace(s[|s| - 1]) {
      var rest := TrimEndCuts(s[..|s| - 1]);
      trail := rest + [s[|s| - 1]];
    } else {
      trail := "";
    }
  }

  /** Trimming takes white space off both ends, and all of it. */
  lemma TrimCuts(v: string) returns (lead: string, trail: string)
    ensures v == lead + Trim(v) + trail && AllSpaces(lead) && AllSpaces(trail)
    ensures Trim(v) != "" ==> !IsSpace(Trim(v)[0]) && !IsSpace(Trim(v)[|Trim(v)| - 1])
  {
    lead := TrimStartCuts(v);
    trail := TrimEndCuts(TrimStart(v));
    assert lead + (Trim(v) + trail) == lead + Trim(v) + trail;
  }

  /** What `toMicro` makes of a string; a TypeError is Unparseable. */
  datatype Parsed = Micro(value: int) | Unparseable | ViaNumber

  predicate HasExponent(s: string) {
    'e' in s || 'E' in s
  }

  /** Dollars from the part before the first dot, micros from the part after it; further parts are ignored. */
  function OfParts(neg: bool, parts: seq<string>): Parsed
    requires |parts| > 0
  {
    var whole := if parts[0] == "" then "0" else parts[0];
    var frac := if |parts| > 1 then parts[1] else "";
    if !AllDigits(whole) || !AllDigits(frac) then Unparseable
    else
      var micro := Num(whole) * 1000000 + Num(Six(frac));
      Micro(if neg then -micro else micro)
  }

  function ToMicro(v: string): Parsed {
    var s := Trim(v);
    if s == "" || s == ['N', 'a', 'N'] then Micro(0)
    else if HasExponent(s) then ViaNumber
    else
      var neg := s[0] == '-';
      OfParts(neg, SplitDots(if neg || s[0] == '+' then s[1..] else s))
  }

  // ── What a decimal text means ─────────────────────────────────────────────

  datatype Sign = Unsigned | Plus | Minus

  /** A plain decimal: either digit string may be empty, the point may be missing. */
  datatype Decimal = Decimal(sign: Sign, whole: string, frac: Option<string>)

  predicate Plain(d: Decimal) {
    AllDigits(d.whole) && AllDigits(Frac(d))
  }

  function Frac(d: Decimal): string {
    if d.frac.Some? then d.frac.value else ""
  }

  /** The fraction of a decimal, with its point. */
  function Pointed(frac: Option<string>): string {
    if frac.Some? then ['.'] + frac.value else ""
  }

  function SignText(sign: Sign): string {
    match sign
    case Unsigned => ""
    case Plus => ['+']
    case Minus => ['-']
  }

  function Text(d: Decimal): string {
    SignText(d.sign) + (d.whole + Pointed(d.frac))
  }

  function Magnitude(d: Decimal): real
    requires Plain(d)
  {
    Num(d.whole) as real + Num(Frac(d)) as real / Pow10(|Frac(d)|) as real
  }

  /** The number of dollars a decimal stands for. */
  function Value(d: Decimal): real
    requires Plain(d)
  {
    if d.sign == Minus then -Magnitude(d) else Magnitude(d)
  }

  function Trunc(x: real): int {
    if x < 0.0 then -((-x).Floor) else x.Floor
  }

  lemma ScaledLess(x: real, y: real, p: real)
    requires p > 0.0
    ensures x < y <==> x * p < y * p
  {
    if x < y {
      assert (y - x) * p > 0.0;
    } else {
      assert (x - y) * p >= 0.0;
    }
  }

  lemma Between(x: real, p: real, q: real, n: real)
    requires p > 0.0 && x * p == n && q * p <= n < (q + 1.0) * p
    ensures q <= x < q + 1.0
  {
    ScaledLess(x, q, p);
    ScaledLess(x, q + 1.0, p);
  }

  lemma CastProduct(a: nat, b: nat)
    ensures (a * b) as real == a as real * b as real
  {
  }

  lemma QuotientFloor(q: nat, n: nat, p: nat)
    requires p > 0 && q * p <= n < q * p + p
    ensures (n as real / p as real).Floor == q
  {
    CastProduct(q, p);
    CastProduct(q + 1, p);
    var next := (q + 1) * p;
    assert next == q * p + p;
    var x := n as real / p as real;
    assert x * p as real == n as real;
    Between(x, p as real, q as real, n as real);
  }

  /** n over 10^6 c, in micros, is n over c. */
  lemma LongQuotient(n: nat, p: nat, c: nat)
    requires c > 0 && p == 1000000 * c
    ensures n as real / p as real * 1000000.0 == n as real / c as real
  {
    var x := n as real / p as real;
    assert x * p as real == n as real;
    assert p as real == 1000000.0 * c as real;
    assert x * 1000000.0 * c as real == n as real;
  }

  /** n over p, in micros, is n times what p lacks of 10^6. */
  lemma ShortQuotient(n: nat, p: nat, rest: nat)
    requires p > 0 && p * rest == 1000000
    ensures n as real / p as real * 1000000.0 == (n * rest) as real
  {
    var x := n as real / p as real;
    assert x * p as real == n as real;
    assert p as real * rest as real == 1000000.0;
    assert (n * rest) as real == n as real * rest as real;
    assert x * (p as real * rest as real) == (x * p as real) * rest as real;
  }

  lemma PowSix()
    ensures Pow10(6) == 1000000
  {
    assert Pow10(3) == 1000;
  }

  lemma LongMicro(n: nat, p: nat, six: nat, c: nat, r: nat)
    requires r < c && p == 1000000 * c && n == six * c + r
    ensures (n as real / p as real * 1000000.0).Floor == six
  {
    LongQuotient(n, p, c);
    QuotientFloor(six, n, c);
  }

  /** A long fraction is its first six places, and a rest that is less than one of the last of them. */
  lemma LongFraction(f: string) returns (c: nat, r: nat)
    requires AllDigits(f) && |f| >= 6
    ensures r < c && Pow10(|f|) == 1000000 * c && Num(f) == Num(Six(f)) * c + r
  {
    var cut := f[6..];
    c, r := Pow10(|cut|), Num(cut);
    assert f == Six(f) + cut;
    NumConcat(Six(f), cut);
    NumBound(cut);
    PowSum(6, |cut|);
    PowSix();
  }

  lemma SixOfLong(f: string)
    requires AllDigits(f) && |f| >= 6
    ensures (Num(f) as real / Pow10(|f|) as real * 1000000.0).Floor == Num(Six(f))
  {
    var c, r := LongFraction(f);
    LongMicro(Num(f), Pow10(|f|), Num(Six(f)), c, r);
  }

  lemma SixOfShort(f: string)
    requires AllDigits(f) && |f| <= 6
    ensures Num(f) as real / Pow10(|f|) as real * 1000000.0 == Num(Six(f)) as real
  {
    var pad := 6 - |f|;
    assert Six(f) == f + Zeros(pad);
    NumConcat(f, Zeros(pad));
    NumOfZeros(pad);
    PowSum(|f|, pad);
    PowSix();
    ShortQuotient(Num(f), Pow10(|f|), Pow10(pad));
  }

  /** Padding to six places and cutting there rounds the fraction down to micros. */
  lemma FracMicro(f: string)
    requires AllDigits(f)
    ensures (Num(f) as real / Pow10(|f|) as real * 1000000.0).Floor == Num(Six(f))
  {
    if |f| >= 6 {
      SixOfLong(f);
    } else {
      SixOfShort(f);
    }
  }

  lemma Reassociate(a: string, b: string, c: string)
    ensures a + (b + c) == a + b + c
  {
  }

  lemma NoDotIn(s: string)
    requires AllDigits(s)
    ensures '.' !in s && SplitDots(s) == [s]
  {
  }

  lemma FirstPart(digits: string, tail: string)
    requires AllDigits(digits) && (tail == "" || tail[0] == '.')
    ensures SplitDots(digits + tail)[0] == digits
    ensures |SplitDots(digits + tail)| > 1 <==> tail != ""
    ensures tail != "" ==> SplitDots(digits + tail)[1..] == SplitDots(tail[1..])
  {
    NoDotIn(digits);
    if tail == "" {
      assert digits + tail == digits;
    } else {
      assert digits + tail == digits + ['.'] + tail[1..];
      SplitFirst(digits, tail[1..]);
    }
  }

  function PartOr(parts: seq<string>, i: nat): string {
    if i < |parts| then parts[i] else ""
  }

  lemma TwoParts(whole: string, f: string, tail: string)
    requires AllDigits(whole) && AllDigits(f) && (tail == "" || tail[0] == '.')
    ensures var parts := SplitDots(whole + (['.'] + (f + tail))); PartOr(parts, 0) == whole && PartOr(parts, 1) == f
  {
    var rest := ['.'] + (f + tail);
    FirstPart(whole, rest);
    assert rest[1..] == f + tail;
    FirstPart(f, tail);
    var parts := SplitDots(whole + rest);
    assert parts[1] == parts[1..][0];
  }

  /** The parts `toMicro` splits a decimal text into are its digits. */
  lemma PartsOfText(whole: string, frac: Option<string>, tail: string)
    requires AllDigits(whole) && (frac.Some? ==> AllDigits(frac.value))
    requires tail == "" || (tail[0] == '.' && frac.Some?)
    ensures var parts := SplitDots(whole + (Pointed(frac) + tail));
            PartOr(parts, 0) == whole && PartOr(parts, 1) == if frac.Some? then frac.value else ""
  {
    if frac.Some? {
      TwoParts(whole, frac.value, tail);
      Reassociate(['.'], frac.value, tail);
    } else {
      assert Pointed(frac) + tail == "";
      FirstPart(whole, "");
    }
  }

  /** Digits as `toMicro` reads them, once split. */
  lemma MicroOfParts(neg: bool, parts: seq<string>, d: Decimal)
    requires Plain(d) && neg == (d.sign == Minus)
    requires |parts| > 0 && PartOr(parts, 0) == d.whole && PartOr(parts, 1) == Frac(d)
    ensures OfParts(neg, parts) == Micro(Trunc(Value(d) * 1000000.0))
  {
    assert Num("0") == 0;
    FracMicro(Frac(d));
    var whole, frac := Num(d.whole), Num(Frac(d)) as real / Pow10(|Frac(d)|) as real;
    assert Magnitude(d) * 1000000.0 == (whole * 1000000) as real + frac * 1000000.0;
  }

  lemma NoLetters(d: Decimal, c: char)
    requires Plain(d) && c in Text(d)
    ensures c != 'e' && c != 'E' && c != 'N'
  {
    assert c in SignText(d.sign) || c in d.whole || c in Pointed(d.frac);
  }

  lemma NoExponentInText(d: Decimal, tail: string)
    requires Plain(d) && !HasExponent(tail)
    requires tail == "" || tail[0] == '.'
    ensures !HasExponent(Text(d) + tail) && Text(d) + tail != ['N', 'a', 'N']
  {
    forall c | c in Text(d) + tail
      ensures c != 'e' && c != 'E'
    {
      if c in Text(d) {
        NoLetters(d, c);
      }
    }
    var s := Text(d) + tail;
    if s != "" && s[0] in Text(d) {
      NoLetters(d, s[0]);
    }
  }

  lemma BodyOfText(d: Decimal, tail: string)
    requires Plain(d) && Text(d) + tail != ""
    requires tail == "" || (tail[0] == '.' && d.frac.Some?)
    ensures var s := Text(d) + tail; var body := d.whole + (Pointed(d.frac) + tail);
            && (s[0] == '-' <==> d.sign == Minus)
            && body == if s[0] == '-' || s[0] == '+' then s[1..] else s
  {
    var s := Text(d) + tail;
    var body := d.whole + (Pointed(d.frac) + tail);
    assert s == SignText(d.sign) + body;
    if d.sign != Unsigned {
      assert s[1..] == body;
    }
  }

  /**
   A text that is a plain decimal, with or without further dot parts after its
   fraction, is its value in micro-USD truncated toward zero.
   */
  lemma TruncatesValue(v: string, d: Decimal, tail: string)
    requires Plain(d) && Trim(v) == Text(d) + tail
    requires tail == "" || (tail[0] == '.' && d.frac.Some? && !HasExponent(tail))
    ensures ToMicro(v) == Micro(Trunc(Value(d) * 1000000.0))
  {
    PartsOfText(d.whole, d.frac, tail);
    MicroOfParts(d.sign == Minus, SplitDots(d.whole + (Pointed(d.frac) + tail)), d);
    NoExponentInText(d, tail);
    if Trim(v) != "" {
      BodyOfText(d, tail);
    } else {
      assert d.whole + (Pointed(d.frac) + tail) == "";
    }
  }

  // ── Nothing else is accepted ──────────────────────────────────────────────

  /** The decimal at the front of a trimmed text, as `toMicro` finds it. */
  function Front(s: string): Decimal
    requires s != ""
  {
    var sign := if s[0] == '-' then Minus else if s[0] == '+' then Plus else Unsigned;
    var parts := SplitDots(if sign == Unsigned then s else s[1..]);
    Decimal(sign, parts[0], if |parts| > 1 then Some(parts[1]) else None)
  }

  function Head(parts: seq<string>): string
    requires |parts| > 0
  {
    parts[0] + (if |parts| > 1 then ['.'] + parts[1] else "")
  }

  /** What of a text follows its first part. */
  function AfterFirst(s: string): string {
    var i := IndexOfDot(s);
    if i == -1 then "" else s[i..]
  }

  lemma FirstPartIsPrefix(s: string)
    ensures var parts := SplitDots(s); var rest := AfterFirst(s);
            && s == parts[0] + rest
            && (rest == "" ==> |parts| == 1)
            && (rest != "" ==> rest[0] == '.' && |parts| > 1 && parts[1] == SplitDots(rest[1..])[0])
  {
    var i := IndexOfDot(s);
    if i != -1 {
      assert s[i..][1..] == s[i + 1..];
    }
  }

  /** The first two parts, with their dot, start the text they come from. */
  lemma HeadIsPrefix(s: string) returns (tail: string)
    ensures s == Head(SplitDots(s)) + tail
    ensures tail != "" ==> tail[0] == '.' && |SplitDots(s)| > 1
  {
    var parts := SplitDots(s);
    var rest := AfterFirst(s);
    FirstPartIsPrefix(s);
    tail := rest;
    if rest != "" {
      FirstPartIsPrefix(rest[1..]);
      tail := AfterFirst(rest[1..]);
      assert rest == ['.'] + rest[1..];
      Reassociate(['.'], parts[1], tail);
      Reassociate(parts[0], ['.'] + parts[1], tail);
    }
  }

  lemma FrontIsPrefix(s: string) returns (tail: string)
    requires s != ""
    ensures s == Text(Front(s)) + tail
    ensures tail != "" ==> tail[0] == '.' && Front(s).frac.Some?
  {
    var d := Front(s);
    var body := if d.sign == Unsigned then s else s[1..];
    tail := HeadIsPrefix(body);
    assert s == SignText(d.sign) + body;
    Reassociate(SignText(d.sign), Head(SplitDots(body)), tail);
  }

  /** A decimal text, then nothing or a dot after its fraction and anything. */
  predicate Extends(s: string, d: Decimal) {
    var n := |Text(d)|;
    n <= |s| && s[..n] == Text(d) && (n < |s| ==> s[n] == '.' && d.frac.Some?)
  }

  lemma AcceptedParts(v: string)
    requires ToMicro(v).Micro? && Trim(v) != "" && Trim(v) != "NaN"
    ensures var s := Trim(v); var d := Front(s);
            ToMicro(v) == OfParts(d.sign == Minus, SplitDots(if d.sign == Unsigned then s else s[1..]))
  {
  }

  lemma FrontOfParts(s: string)
    requires s != ""
    ensures var d := Front(s); var parts := SplitDots(if d.sign == Unsigned then s else s[1..]);
            && PartOr(parts, 0) == d.whole && PartOr(parts, 1) == Frac(d)
            && (OfParts(d.sign == Minus, parts).Micro? ==> Plain(d))
  {
  }

  /** Every accepted text is blank, "NaN", or a plain decimal followed by ignored dot parts. */
  lemma AcceptsOnlyDecimals(v: string)
    requires ToMicro(v).Micro? && Trim(v) != "" && Trim(v) != "NaN"
    ensures var d := Front(Trim(v)); Plain(d) && ToMicro(v).value == Trunc(Value(d) * 1000000.0)
    ensures Extends(Trim(v), Front(Trim(v)))
  {
    var s := Trim(v);
    var d := Front(s);
    var tail := FrontIsPrefix(s);
    assert s[|Text(d)|..] == tail;
    AcceptedParts(v);
    FrontOfParts(s);
    MicroOfParts(d.sign == Minus, SplitDots(if d.sign == Unsigned then s else s[1..]), d);
  }

  /** Blank text and "NaN" are zero; an 'e' of either case in any other text sends it through `Number`. */
  lemma OtherReadings(v: string)
    ensures Trim(v) == "" || Trim(v) == "NaN" ==> ToMicro(v) == Micro(0)
    ensures Trim(v) != "" && Trim(v) != "NaN" ==> (ToMicro(v).ViaNumber? <==> 'e' in Trim(v) || 'E' in Trim(v))
  {
  }

  // ── Order and sums ────────────────────────────────────────────────────────

  lemma TruncMonotone(x: real, y: real)
    requires x <= y
    ensures Trunc(x) <= Trunc(y)
  {
  }

  /** The micro value a plain decimal is read as. */
  function MicroOf(d: Decimal): int
    requires Plain(d)
  {
    Trunc(Value(d) * 1000000.0)
  }

  /** Reading keeps the order of the values. */
  lemma Monotone(v: string, w: string, a: Decimal, b: Decimal)
    requires Plain(a) && Plain(b) && Trim(v) == Text(a) && Trim(w) == Text(b)
    requires Value(a) <= Value(b)
    ensures ToMicro(v).Micro? && ToMicro(w).Micro? && ToMicro(v).value <= ToMicro(w).value
  {
    assert Text(a) == Text(a) + "" && Text(b) == Text(b) + "";
    TruncatesValue(v, a, "");
    TruncatesValue(w, b, "");
    TruncMonotone(Value(a) * 1000000.0, Value(b) * 1000000.0);
  }

  lemma MagnitudeInMicros(d: Decimal)
    requires Plain(d) && |Frac(d)| <= 6
    ensures Magnitude(d) * 1000000.0 == (Num(d.whole) * 1000000 + Num(Six(Frac(d)))) as real
  {
    SixOfShort(Frac(d));
    var frac := Num(Frac(d)) as real / Pow10(|Frac(d)|) as real;
    assert Magnitude(d) * 1000000.0 == Num(d.whole) as real * 1000000.0 + frac * 1000000.0;
  }

  lemma TruncOfInteger(k: int)
    ensures Trunc(k as real) == k
  {
  }

  lemma ExactMicro(d: Decimal)
    requires Plain(d) && |Frac(d)| <= 6
    ensures MicroOf(d) as real == Value(d) * 1000000.0
  {
    MagnitudeInMicros(d);
    var m: int := Num(d.whole) * 1000000 + Num(Six(Frac(d)));
    var k := if d.sign == Minus then -m else m;
    assert Value(d) * 1000000.0 == k as real;
    TruncOfInteger(k);
  }

  /** Up to six places nothing is lost. */
  lemma Exact(v: string, d: Decimal)
    requires Plain(d) && |Frac(d)| <= 6 && Trim(v) == Text(d)
    ensures ToMicro(v).Micro? && ToMicro(v).value as real == Value(d) * 1000000.0
  {
    assert Text(d) == Text(d) + "";
    TruncatesValue(v, d, "");
    assert ToMicro(v) == Micro(MicroOf(d));
    ExactMicro(d);
  }

  /** So adding and comparing micros is adding and comparing dollars. */
  lemma ExactSumsAndOrder(u: string, v: string, w: string, a: Decimal, b: Decimal, c: Decimal)
    requires Plain(a) && |Frac(a)| <= 6 && Trim(u) == Text(a)
    requires Plain(b) && |Frac(b)| <= 6 && Trim(v) == Text(b)
    requires Plain(c) && |Frac(c)| <= 6 && Trim(w) == Text(c)
    ensures ToMicro(u).Micro? && ToMicro(v).Micro? && ToMicro(w).Micro?
    ensures Value(a) + Value(b) == Value(c) <==> ToMicro(u).value + ToMicro(v).value == ToMicro(w).value
    ensures Value(a) < Value(b) <==> ToMicro(u).value < ToMicro(v).value
  {
    Exact(u, a);
    Exact(v, b);
    Exact(w, c);
    assert Value(a) + Value(b) == Value(c)
      <==> ToMicro(u).value as real + ToMicro(v).value as real == ToMicro(w).value as real;
  }

  // ── Printing ──────────────────────────────────────────────────────────────

  lemma DigitsLength6(n: nat)
    requires n < 1000000
    ensures |Digits(n)| <= 6
  {
    PowSix();
    DigitsLength(n, 6);
  }

  /** A number with its last places set to zero. */
  function Cleared(n: nat, places: nat): nat
    decreases places
  {
    if places == 0 then n else Cleared(n / 10, places - 1) * 10
  }

  /** Replacing the last digits by zeros clears those places. */
  lemma {:induction false} ZeroedIsCleared(kept: string, cut: string)
    requires AllDigits(kept) && AllDigits(cut)
    ensures Num(kept + Zeros(|cut|)) == Cleared(Num(kept + cut), |cut|)
    decreases |cut|
  {
    if cut == "" {
      assert kept + Zeros(0) == kept + cut;
    } else {
      var n := |cut| - 1;
      ZeroedIsCleared(kept, cut[..n]);
      assert (kept + cut)[..|kept| + n] == kept + cut[..n];
      assert (kept + Zeros(|cut|))[..|kept| + n] == kept + Zeros(n);
    }
  }

  function SixDigits(n: nat): (s: string)
    requires n < 1000000
    ensures |s| == 6 && AllDigits(s) && Num(s) == n
  {
    DigitsLength6(n);
    NumConcat(Zeros(6 - |Digits(n)|), Digits(n));
    NumOfZeros(6 - |Digits(n)|);
    NumOfDigits(n);
    Zeros(6 - |Digits(n)|) + Digits(n)
  }

  /** The fraction cut or padded to the places asked for. */
  function Shown(frac: nat, decimals: nat): (s: string)
    requires frac < 1000000
    ensures |s| == decimals && AllDigits(s)
  {
    if decimals <= 6 then SixDigits(frac)[..decimals] else SixDigits(frac) + Zeros(decimals - 6)
  }

  lemma SixOfCut(frac: nat, decimals: nat)
    requires frac < 1000000 && decimals <= 6
    ensures Num(Six(Shown(frac, decimals))) == Cleared(frac, 6 - decimals)
  {
    var kept, cut := SixDigits(frac)[..decimals], SixDigits(frac)[decimals..];
    assert SixDigits(frac) == kept + cut;
    assert Six(Shown(frac, decimals)) == kept + Zeros(6 - decimals);
    ZeroedIsCleared(kept, cut);
  }

  lemma SixOfShown(frac: nat, decimals: nat)
    requires frac < 1000000
    ensures Num(Six(Shown(frac, decimals))) == Cleared(frac, Lost(decimals))
  {
    if decimals <= 6 {
      SixOfCut(frac, decimals);
    } else {
      assert Six(Shown(frac, decimals)) == SixDigits(frac);
    }
  }

  /** The last places of a number are zero. */
  predicate Ends(n: nat, places: nat)
    decreases places
  {
    places > 0 ==> n % 10 == 0 && Ends(n / 10, places - 1)
  }

  lemma {:induction false} ClearedSplits(m: nat, rest: nat, places: nat)
    requires Ends(m, places)
    ensures Cleared(m + rest, places) == m + Cleared(rest, places)
    decreases places
  {
    if places > 0 {
      ClearedSplits(m / 10, rest / 10, places - 1);
    }
  }

  lemma EndsTimesTen(n: nat, places: nat)
    requires Ends(n, places)
    ensures Ends(n * 10, places + 1)
  {
  }

  lemma {:induction false} EndsFewer(n: nat, places: nat, fewer: nat)
    requires Ends(n, places) && fewer <= places
    ensures Ends(n, fewer)
    decreases fewer
  {
    if fewer > 0 {
      EndsFewer(n / 10, places - 1, fewer - 1);
    }
  }

  lemma MillionsEnd(dollars: nat, places: nat)
    requires places <= 6
    ensures Ends(dollars * 1000000, places)
  {
    EndsTimesTen(dollars, 0);
    EndsTimesTen(dollars * 10, 1);
    EndsTimesTen(dollars * 100, 2);
    EndsTimesTen(dollars * 1000, 3);
    EndsTimesTen(dollars * 10000, 4);
    EndsTimesTen(dollars * 100000, 5);
    EndsFewer(dollars * 1000000, 6, places);
  }

  /** How many of the six places an output of `decimals` places loses. */
  function Lost(decimals: nat): nat {
    if decimals <= 6 then 6 - decimals else 0
  }

  /** `fmtMicroUsd`, for a non-negative number of places. */
  function FmtMicroUsd(micro: int, decimals: nat): string {
    var abs: nat := if micro < 0 then -micro else micro;
    var frac := if decimals == 0 then None else Some(Shown(abs % 1000000, decimals));
    (if micro < 0 then ['-'] else "") + (Digits(abs / 1000000) + Pointed(frac))
  }

  lemma {:induction false} NoLeadingZero(n: nat)
    ensures Digits(n)[0] != '0' || Digits(n) == "0"
    ensures n > 0 ==> Digits(n)[0] != '0'
  {
    if n >= 10 {
      NoLeadingZero(n / 10);
    }
  }

  /**
   The text of an amount: a minus exactly for amounts below zero, dollars without
   leading zeros, and a point with exactly the places asked for, if any are.
   */
  lemma PrintedShape(micro: int, decimals: nat) returns (whole: string, frac: string)
    ensures FmtMicroUsd(micro, decimals) == (if micro < 0 then "-" else "") + (whole + (if decimals == 0 then "" else "." + frac))
    ensures whole != "" && AllDigits(whole) && (whole[0] == '0' ==> whole == "0")
    ensures |frac| == decimals && AllDigits(frac)
  {
    var abs: nat := if micro < 0 then -micro else micro;
    whole, frac := Digits(abs / 1000000), Shown(abs % 1000000, decimals);
    NoLeadingZero(abs / 1000000);
  }

  lemma FmtTrims(micro: int, decimals: nat)
    ensures Trim(FmtMicroUsd(micro, decimals)) == FmtMicroUsd(micro, decimals)
  {
    var abs: nat := if micro < 0 then -micro else micro;
    var s := FmtMicroUsd(micro, decimals);
    assert !IsSpace(s[0]);
    assert !IsSpace(s[|s| - 1]);
  }

  /** The decimal `fmtMicroUsd` writes. */
  function Printed(micro: int, decimals: nat): (d: Decimal)
    ensures Plain(d)
  {
    var abs: nat := if micro < 0 then -micro else micro;
    Decimal(if micro < 0 then Minus else Unsigned, Digits(abs / 1000000),
            if decimals == 0 then None else Some(Shown(abs % 1000000, decimals)))
  }

  lemma PrintedText(micro: int, decimals: nat)
    ensures FmtMicroUsd(micro, decimals) == Text(Printed(micro, decimals))
  {
  }

  /** A printed amount is read as its decimal's parts. */
  lemma ReadsPrinted(micro: int, decimals: nat)
    ensures var d := Printed(micro, decimals);
            ToMicro(FmtMicroUsd(micro, decimals)) == OfParts(micro < 0, SplitDots(d.whole + Pointed(d.frac)))
  {
    var d := Printed(micro, decimals);
    PrintedText(micro, decimals);
    FmtTrims(micro, decimals);
    var s := Text(d);
    assert s + "" == s;
    NoExponentInText(d, "");
    BodyOfText(d, "");
    assert Pointed(d.frac) + "" == Pointed(d.frac);
  }

  lemma PrintedParts(d: Decimal)
    requires Plain(d)
    ensures var parts := SplitDots(d.whole + Pointed(d.frac)); PartOr(parts, 0) == d.whole && PartOr(parts, 1) == Frac(d)
  {
    PartsOfText(d.whole, d.frac, "");
    assert Pointed(d.frac) + "" == Pointed(d.frac);
  }

  lemma SixOfPrinted(abs: nat, micro: int, decimals: nat)
    requires abs == if micro < 0 then -micro else micro
    ensures Num(Six(Frac(Printed(micro, decimals)))) == Cleared(abs % 1000000, Lost(decimals))
  {
    SixOfShown(abs % 1000000, decimals);
    if decimals == 0 {
      assert Shown(abs % 1000000, 0) == "";
    }
  }

  lemma AmountOfParts(neg: bool, parts: seq<string>, d: Decimal)
    requires Plain(d) && d.whole != "" && |parts| > 0 && PartOr(parts, 0) == d.whole && PartOr(parts, 1) == Frac(d)
    ensures var m: int := Num(d.whole) * 1000000 + Num(Six(Frac(d))); OfParts(neg, parts) == Micro(if neg then -m else m)
  {
  }

  lemma PrintedAmount(micro: int, decimals: nat)
    ensures var d := Printed(micro, decimals);
            Num(d.whole) * 1000000 + Num(Six(Frac(d))) == Cleared(if micro < 0 then -micro else micro, Lost(decimals))
  {
    var abs: nat := if micro < 0 then -micro else micro;
    var dollars, frac := abs / 1000000, abs % 1000000;
    assert Num(Printed(micro, decimals).whole) == dollars by {
      NumOfDigits(dollars);
    }
    SixOfPrinted(abs, micro, decimals);
    MillionsEnd(dollars, Lost(decimals));
    ClearedSplits(dollars * 1000000, frac, Lost(decimals));
    assert dollars * 1000000 + frac == abs;
  }

  /** Printed with six places or more, an amount is read back; with fewer, toward zero to those places. */
  lemma RoundTrip(micro: int, decimals: nat)
    ensures var kept: int := Cleared(if micro < 0 then -micro else micro, Lost(decimals));
            ToMicro(FmtMicroUsd(micro, decimals)) == Micro(if micro < 0 then -kept else kept)
    ensures decimals >= 6 ==> ToMicro(FmtMicroUsd(micro, decimals)) == Micro(micro)
  {
    var d := Printed(micro, decimals);
    ReadsPrinted(micro, decimals);
    PrintedParts(d);
    AmountOfParts(micro < 0, SplitDots(d.whole + Pointed(d.frac)), d);
    PrintedAmount(micro, decimals);
  }
}
