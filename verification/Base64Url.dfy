/**
 base64url as apps/api/src/crypto.ts builds it from Buffer's base64: replace
 two characters and drop the padding; to read, put both back (section 5 of
 RFC 4648). Reading is Buffer's lenient decoder: it stops at '=' and skips
 characters outside the alphabet.
 */
module Base64Url {

  type byte = x: int | 0 <= x < 256
  type sextet = x: int | 0 <= x < 64

  /** The standard alphabet, in order. */
  function StdChar(x: sextet): char {
    if x < 26 then 'A' + x as char
    else if x < 52 then 'a' + (x - 26) as char
    else if x < 62 then '0' + (x - 52) as char
    else if x == 62 then '+' else '/'
  }

  /** The sextet of a character, or 64 outside the alphabet. */
  function Value(c: char): (v: nat)
    ensures v <= 64
  {
    if 'A' <= c <= 'Z' then (c - 'A') as int
    else if 'a' <= c <= 'z' then 26 + (c - 'a') as int
    else if '0' <= c <= '9' then 52 + (c - '0') as int
    else if c == '+' || c == '-' then 62
    else if c == '/' || c == '_' then 63
    else 64
  }

  lemma ValueOfStdChar(x: sextet)
    ensures Value(StdChar(x)) == x && StdChar(x) != '='
  {
  }

  // ── Bytes and sextets ─────────────────────────────────────────────────────

  function SextetsOf(b: seq<byte>): seq<sextet> {
    if |b| == 0 then []
    else if |b| == 1 then [b[0] / 4, b[0] % 4 * 16]
    else if |b| == 2 then [b[0] / 4, b[0] % 4 * 16 + b[1] / 16, b[1] % 16 * 4]
    else [b[0] / 4, b[0] % 4 * 16 + b[1] / 16, b[1] % 16 * 4 + b[2] / 64, b[2] % 64] + SextetsOf(b[3..])
  }

  /** A byte from its high and low bits. */
  function Byte(high: nat, low: nat, width: nat): byte
    requires low < width && high < 256 / width
    requires width == 64 || width == 16 || width == 4
  {
    high * width + low
  }

  function BytesOf(x: seq<sextet>): seq<byte> {
    if |x| < 2 then []
    else if |x| == 2 then [Byte(x[0], x[1] / 16, 4)]
    else if |x| == 3 then [Byte(x[0], x[1] / 16, 4), Byte(x[1] % 16, x[2] / 4, 16)]
    else [Byte(x[0], x[1] / 16, 4), Byte(x[1] % 16, x[2] / 4, 16), Byte(x[2] % 4, x[3], 64)] + BytesOf(x[4..])
  }

  lemma GroupBytes(b0: byte, b1: byte, b2: byte)
    ensures Byte(b0 / 4, (b0 % 4 * 16 + b1 / 16) / 16, 4) == b0
    ensures Byte((b0 % 4 * 16 + b1 / 16) % 16, (b1 % 16 * 4 + b2 / 64) / 4, 16) == b1
    ensures Byte((b1 % 16 * 4 + b2 / 64) % 4, b2 % 64, 64) == b2
  {
  }

  lemma BytesOfFour(s0: sextet, s1: sextet, s2: sextet, s3: sextet, rest: seq<sextet>)
    ensures BytesOf([s0, s1, s2, s3] + rest)
      == [Byte(s0, s1 / 16, 4), Byte(s1 % 16, s2 / 4, 16), Byte(s2 % 4, s3, 64)] + BytesOf(rest)
  {
    assert ([s0, s1, s2, s3] + rest)[4..] == rest;
  }

  lemma {:induction false} BytesOfSextets(b: seq<byte>)
    ensures BytesOf(SextetsOf(b)) == b
  {
    if |b| >= 3 {
      BytesOfSextets(b[3..]);
      BytesOfFour(b[0] / 4, b[0] % 4 * 16 + b[1] / 16, b[1] % 16 * 4 + b[2] / 64, b[2] % 64, SextetsOf(b[3..]));
      GroupBytes(b[0], b[1], b[2]);
      assert b == [b[0], b[1], b[2]] + b[3..];
    } else if |b| == 2 {
      GroupBytes(b[0], b[1], 0);
    } else if |b| == 1 {
      GroupBytes(b[0], 0, 0);
    }
  }

  /** The number a big-endian digit string stands for, read on from `acc`. */
  function Number(acc: nat, digits: seq<nat>, base: nat): nat
    decreases |digits|
  {
    if digits == [] then acc else Number(acc * base + digits[0], digits[1..], base)
  }

  function ZeroBits(length: nat): nat {
    if length % 3 == 1 then 16 else if length % 3 == 2 then 4 else 1
  }

  lemma NumberStep(acc: nat, digit: nat, rest: seq<nat>, base: nat)
    ensures Number(acc, [digit] + rest, base) == Number(acc * base + digit, rest, base)
  {
    assert ([digit] + rest)[1..] == rest;
  }

  lemma NumberThree(acc: nat, a: nat, b: nat, c: nat, rest: seq<nat>, base: nat)
    ensures Number(acc, [a, b, c] + rest, base) == Number(((acc * base + a) * base + b) * base + c, rest, base)
  {
    NumberStep(acc, a, [b, c] + rest, base);
    NumberStep(acc * base + a, b, [c] + rest, base);
    NumberStep((acc * base + a) * base + b, c, rest, base);
    assert [a, b, c] + rest == [a] + ([b, c] + rest);
    assert [b, c] + rest == [b] + ([c] + rest);
  }

  lemma GroupBits(acc: nat, b0: byte, b1: byte, b2: byte)
    ensures (((acc * 64 + b0 / 4) * 64 + (b0 % 4 * 16 + b1 / 16)) * 64 + (b1 % 16 * 4 + b2 / 64)) * 64 + b2 % 64
            == ((acc * 256 + b0) * 256 + b1) * 256 + b2
  {
    assert b0 == b0 / 4 * 4 + b0 % 4;
    assert b1 == b1 / 16 * 16 + b1 % 16;
    assert b2 == b2 / 64 * 64 + b2 % 64;
  }

  lemma NumberTwo(acc: nat, a: nat, b: nat, base: nat)
    ensures Number(acc, [a, b], base) == (acc * base + a) * base + b
  {
    assert [a, b] == [a] + [b] && [b] == [b] + [];
    NumberStep(acc, a, [b], base);
    NumberStep(acc * base + a, b, [], base);
  }

  lemma LastTwo(acc: nat, b0: byte, b1: byte)
    ensures Number(acc, [b0 / 4, b0 % 4 * 16 + b1 / 16, b1 % 16 * 4], 64) == Number(acc, [b0, b1], 256) * 4
  {
    var s0, s1, s2 := b0 / 4, b0 % 4 * 16 + b1 / 16, b1 % 16 * 4;
    GroupBits(acc, b0, b1, 0);
    assert [s0, s1, s2] == [s0, s1, s2] + [];
    NumberThree(acc, s0, s1, s2, [], 64);
    NumberTwo(acc, b0, b1, 256);
  }

  lemma LastOne(acc: nat, b0: byte)
    ensures Number(acc, [b0 / 4, b0 % 4 * 16], 64) == Number(acc, [b0], 256) * 16
  {
    NumberTwo(acc, b0 / 4, b0 % 4 * 16, 64);
    assert [b0] == [b0] + [];
    NumberStep(acc, b0, [], 256);
  }

  lemma LastBits(acc: nat, b: seq<byte>)
    requires |b| < 3
    ensures Number(acc, SextetsOf(b), 64) == Number(acc, b, 256) * ZeroBits(|b|)
  {
    if |b| == 2 {
      assert b == [b[0], b[1]];
      LastTwo(acc, b[0], b[1]);
    } else if |b| == 1 {
      assert b == [b[0]];
      LastOne(acc, b[0]);
    }
  }

  lemma SextetGroup(acc: nat, b0: byte, b1: byte, b2: byte, rest: seq<nat>)
    ensures Number(acc, [b0 / 4, b0 % 4 * 16 + b1 / 16, b1 % 16 * 4 + b2 / 64, b2 % 64] + rest, 64)
            == Number(((acc * 256 + b0) * 256 + b1) * 256 + b2, rest, 64)
  {
    var s0, s1, s2, s3 := b0 / 4, b0 % 4 * 16 + b1 / 16, b1 % 16 * 4 + b2 / 64, b2 % 64;
    assert [s0, s1, s2, s3] + rest == [s0, s1, s2] + ([s3] + rest);
    NumberThree(acc, s0, s1, s2, [s3] + rest, 64);
    NumberStep(((acc * 64 + s0) * 64 + s1) * 64 + s2, s3, rest, 64);
    GroupBits(acc, b0, b1, b2);
  }

  /** The sextets are the bit string of the bytes, zero bits added at its end (section 4 of RFC 4648). */
  lemma {:induction false} SextetsKeepBits(acc: nat, b: seq<byte>)
    ensures Number(acc, SextetsOf(b), 64) == Number(acc, b, 256) * ZeroBits(|b|)
    decreases |b|
  {
    if |b| < 3 {
      LastBits(acc, b);
    } else {
      var next := ((acc * 256 + b[0]) * 256 + b[1]) * 256 + b[2];
      SextetGroup(acc, b[0], b[1], b[2], SextetsOf(b[3..]));
      assert Number(acc, b, 256) == Number(next, b[3..], 256) by {
        assert b == [b[0], b[1], b[2]] + b[3..];
        NumberThree(acc, b[0], b[1], b[2], b[3..], 256);
      }
      SextetsKeepBits(next, b[3..]);
    }
  }

  /** What a sextet string holds beyond whole bytes: no bits, a lone sextet, four bits, or two. */
  function SpareBits(length: nat): nat {
    if length % 4 == 0 then 1 else if length % 4 == 1 then 64 else if length % 4 == 2 then 16 else 4
  }

  lemma GroupBytesBits(acc: nat, s0: sextet, s1: sextet, s2: sextet, s3: sextet)
    ensures ((acc * 256 + Byte(s0, s1 / 16, 4)) * 256 + Byte(s1 % 16, s2 / 4, 16)) * 256 + Byte(s2 % 4, s3, 64)
         == (((acc * 64 + s0) * 64 + s1) * 64 + s2) * 64 + s3
  {
    assert s1 == s1 / 16 * 16 + s1 % 16;
    assert s2 == s2 / 4 * 4 + s2 % 4;
  }

  lemma NumberFour(acc: nat, a: nat, b: nat, c: nat, d: nat, rest: seq<nat>, base: nat)
    ensures Number(acc, [a, b, c, d] + rest, base) == Number((((acc * base + a) * base + b) * base + c) * base + d, rest, base)
  {
    assert [a, b, c, d] + rest == [a, b, c] + ([d] + rest);
    NumberThree(acc, a, b, c, [d] + rest, base);
    NumberStep(((acc * base + a) * base + b) * base + c, d, rest, base);
  }

  lemma ByteGroup(acc: nat, s0: sextet, s1: sextet, s2: sextet, s3: sextet, rest: seq<sextet>)
    ensures var b0, b1, b2 := Byte(s0, s1 / 16, 4), Byte(s1 % 16, s2 / 4, 16), Byte(s2 % 4, s3, 64);
            Number(acc, [s0, s1, s2, s3] + rest, 64) == Number(((acc * 256 + b0) * 256 + b1) * 256 + b2, rest, 64)
  {
    GroupBytesBits(acc, s0, s1, s2, s3);
    NumberFour(acc, s0, s1, s2, s3, rest, 64);
  }

  lemma LastBytes(acc: nat, x: seq<sextet>) returns (spare: nat)
    requires |x| < 4
    ensures spare < SpareBits(|x|) && Number(acc, x, 64) == Number(acc, BytesOf(x), 256) * SpareBits(|x|) + spare
  {
    if |x| == 0 {
      spare := 0;
    } else if |x| == 1 {
      assert x == [x[0]] + [];
      NumberStep(acc, x[0], [], 64);
      spare := x[0];
    } else if |x| == 2 {
      assert x == [x[0], x[1]];
      NumberTwo(acc, x[0], x[1], 64);
      assert BytesOf(x) == [Byte(x[0], x[1] / 16, 4)] + [];
      NumberStep(acc, Byte(x[0], x[1] / 16, 4), [], 256);
      spare := x[1] % 16;
    } else {
      assert x == [x[0], x[1], x[2]] + [];
      NumberThree(acc, x[0], x[1], x[2], [], 64);
      NumberTwo(acc, Byte(x[0], x[1] / 16, 4), Byte(x[1] % 16, x[2] / 4, 16), 256);
      spare := x[2] % 4;
    }
  }

  lemma FourSextets(acc: nat, x: seq<sextet>) returns (next: nat)
    requires |x| >= 4
    ensures Number(acc, x, 64) == Number(next, x[4..], 64) && Number(acc, BytesOf(x), 256) == Number(next, BytesOf(x[4..]), 256)
  {
    var b0, b1, b2 := Byte(x[0], x[1] / 16, 4), Byte(x[1] % 16, x[2] / 4, 16), Byte(x[2] % 4, x[3], 64);
    next := ((acc * 256 + b0) * 256 + b1) * 256 + b2;
    ByteGroup(acc, x[0], x[1], x[2], x[3], x[4..]);
    assert x == [x[0], x[1], x[2], x[3]] + x[4..];
    NumberThree(acc, b0, b1, b2, BytesOf(x[4..]), 256);
  }

  /** `bits` is `whole` with the spare bits of so many sextets after it. */
  predicate SpareAfter(bits: nat, whole: nat, length: nat, spare: nat) {
    spare < SpareBits(length) && bits == whole * SpareBits(length) + spare
  }

  lemma SpareOfFourMore(bits: nat, whole: nat, length: nat, spare: nat)
    requires SpareAfter(bits, whole, length, spare)
    ensures SpareAfter(bits, whole, length + 4, spare)
  {
    assert (length + 4) % 4 == length % 4;
  }

  /** The bytes read are the bit string of the sextets, cut to whole bytes. */
  lemma {:induction false} BytesKeepBits(acc: nat, x: seq<sextet>) returns (spare: nat)
    ensures SpareAfter(Number(acc, x, 64), Number(acc, BytesOf(x), 256), |x|, spare)
    decreases |x|
  {
    if |x| < 4 {
      spare := LastBytes(acc, x);
    } else {
      var next := FourSextets(acc, x);
      spare := BytesKeepBits(next, x[4..]);
      SpareOfFourMore(Number(acc, x, 64), Number(acc, BytesOf(x), 256), |x[4..]|, spare);
    }
  }

  /** Six bits a sextet, eight a byte, both ways. */
  lemma {:induction false} Lengths(b: seq<byte>)
    ensures |SextetsOf(b)| == (|b| * 8 + 5) / 6
  {
    if |b| >= 3 {
      Lengths(b[3..]);
    }
  }

  lemma {:induction false} ByteLengths(x: seq<sextet>)
    ensures |BytesOf(x)| == |x| * 6 / 8
  {
    if |x| >= 4 {
      ByteLengths(x[4..]);
    }
  }

  // ── Text ──────────────────────────────────────────────────────────────────

  function StdText(x: seq<sextet>): (s: string)
    ensures |s| == |x|
  {
    if x == [] then "" else [StdChar(x[0])] + StdText(x[1..])
  }

  /** `Buffer.toString('base64')`. */
  function Base64(b: seq<byte>): string {
    StdText(SextetsOf(b)) + (if |b| % 3 == 1 then "==" else if |b| % 3 == 2 then "=" else "")
  }

  function ToUrlChar(c: char): char {
    if c == '+' then '-' else if c == '/' then '_' else c
  }

  function FromUrlChar(c: char): char {
    if c == '-' then '+' else if c == '_' then '/' else c
  }

  function MapChars(s: string, f: char -> char): string {
    if s == "" then "" else [f(s[0])] + MapChars(s[1..], f)
  }

  function DropPadding(s: string): string {
    if s == "" then "" else (if s[0] == '=' then "" else [s[0]]) + DropPadding(s[1..])
  }

  function B64Url(b: seq<byte>): string {
    DropPadding(MapChars(Base64(b), ToUrlChar))
  }

  /** The characters the decoder keeps. */
  function Sextets(s: string): seq<sextet> {
    if s == "" || s[0] == '=' then []
    else if Value(s[0]) < 64 then [Value(s[0])] + Sextets(s[1..])
    else Sextets(s[1..])
  }

  /** `'=='.slice(0, (4 - length % 4) % 4)`: three asked for are two given. */
  function Padding(length: nat): string {
    var missing := (4 - length % 4) % 4;
    if missing == 0 then "" else if missing == 1 then "=" else "=="
  }

  function FromB64Url(s: string): seq<byte> {
    BytesOf(Sextets(MapChars(s, FromUrlChar) + Padding(|s|)))
  }

  // ── Round trip ────────────────────────────────────────────────────────────

  function UrlText(x: seq<sextet>): string {
    if x == [] then "" else [ToUrlChar(StdChar(x[0]))] + UrlText(x[1..])
  }

  lemma {:induction false} DropsPadding(x: seq<sextet>, tail: string)
    requires forall i :: 0 <= i < |tail| ==> tail[i] == '='
    ensures DropPadding(MapChars(StdText(x) + tail, ToUrlChar)) == UrlText(x)
  {
    if x != [] {
      ValueOfStdChar(x[0]);
      assert (StdText(x) + tail)[1..] == StdText(x[1..]) + tail;
      DropsPadding(x[1..], tail);
      var mapped := MapChars(StdText(x) + tail, ToUrlChar);
      assert mapped[1..] == MapChars(StdText(x[1..]) + tail, ToUrlChar);
    } else if tail != "" {
      assert StdText(x) + tail == tail;
      DropsPadding(x, tail[1..]);
      assert StdText(x) + tail[1..] == tail[1..];
      assert MapChars(tail, ToUrlChar)[1..] == MapChars(tail[1..], ToUrlChar);
    } else {
      assert StdText(x) + tail == "";
    }
  }

  lemma B64UrlText(b: seq<byte>)
    ensures B64Url(b) == UrlText(SextetsOf(b))
  {
    DropsPadding(SextetsOf(b), if |b| % 3 == 1 then "==" else if |b| % 3 == 2 then "=" else "");
  }

  lemma {:induction false} ReadsBack(x: seq<sextet>, tail: string)
    requires tail == "" || tail[0] == '='
    ensures Sextets(MapChars(UrlText(x), FromUrlChar) + tail) == x
  {
    if x != [] {
      ValueOfStdChar(x[0]);
      var s := MapChars(UrlText(x), FromUrlChar);
      assert UrlText(x)[1..] == UrlText(x[1..]);
      assert s[1..] == MapChars(UrlText(x[1..]), FromUrlChar);
      assert (s + tail)[1..] == s[1..] + tail;
      ReadsBack(x[1..], tail);
    } else {
      assert MapChars(UrlText(x), FromUrlChar) + tail == tail;
    }
  }

  /** Every byte string comes back. */
  lemma RoundTrip(b: seq<byte>)
    ensures FromB64Url(B64Url(b)) == b
  {
    B64UrlText(b);
    ReadsBack(SextetsOf(b), Padding(|B64Url(b)|));
    BytesOfSextets(b);
  }

  lemma {:induction false} UrlTextAt(x: seq<sextet>, i: nat)
    requires i < |x|
    ensures |UrlText(x)| == |x| && UrlText(x)[i] == ToUrlChar(StdChar(x[i]))
  {
    if |x| > 1 {
      UrlTextAt(x[1..], if i > 0 then i - 1 else 0);
    }
  }

  /** Each sextet is written as its character of the URL-safe alphabet (table 2 of RFC 4648), and nothing else is written. */
  lemma WritesAlphabet(b: seq<byte>, i: nat)
    requires i < |SextetsOf(b)|
    ensures |B64Url(b)| == |SextetsOf(b)|
    ensures var c := B64Url(b)[i];
            SextetsOf(b)[i] == (if 'A' <= c <= 'Z' then c as int - 65 else if 'a' <= c <= 'z' then c as int - 71
                                else if '0' <= c <= '9' then c as int + 4 else if c == '-' then 62 else 63)
            && ('A' <= c <= 'Z' || 'a' <= c <= 'z' || '0' <= c <= '9' || c == '-' || c == '_')
  {
    B64UrlText(b);
    UrlTextAt(SextetsOf(b), i);
  }

  // ── Lenient reading ───────────────────────────────────────────────────────

  lemma {:induction false} SextetsStop(s: string, tail: string)
    requires tail == "" || tail[0] == '='
    ensures Sextets(s + tail) == Sextets(s)
    decreases |s|
  {
    if s == "" {
      assert s + tail == tail;
    } else {
      assert (s + tail)[1..] == s[1..] + tail;
      SextetsStop(s[1..], tail);
    }
  }

  lemma {:induction false} MapConcat(a: string, b: string, f: char -> char)
    ensures MapChars(a + b, f) == MapChars(a, f) + MapChars(b, f)
  {
    if a == "" {
      assert a + b == b;
    } else {
      assert (a + b)[1..] == a[1..] + b;
      MapConcat(a[1..], b, f);
    }
  }

  lemma {:induction false} SextetsSkip(a: string, c: char, b: string)
    requires Value(c) == 64 && c != '='
    ensures Sextets(a + [c] + b) == Sextets(a + b)
    decreases |a|
  {
    if a == "" {
      assert a + [c] + b == [c] + b && a + b == b;
      assert ([c] + b)[1..] == b;
    } else {
      assert (a + [c] + b)[1..] == a[1..] + [c] + b && (a + b)[1..] == a[1..] + b;
      SextetsSkip(a[1..], c, b);
    }
  }

  lemma ReadsKept(s: string)
    ensures FromB64Url(s) == BytesOf(Sextets(MapChars(s, FromUrlChar)))
  {
    SextetsStop(MapChars(s, FromUrlChar), Padding(|s|));
  }

  /** A character of neither alphabet is skipped; at '=' reading stops. */
  lemma ReadsLeniently(a: string, c: char, b: string)
    ensures c == '=' ==> FromB64Url(a + [c] + b) == FromB64Url(a)
    ensures !('A' <= c <= 'Z' || 'a' <= c <= 'z' || '0' <= c <= '9' || c == '+' || c == '/' || c == '-' || c == '_' || c == '=') ==>
              FromB64Url(a + [c] + b) == FromB64Url(a + b)
  {
    MapConcat(a + [c], b, FromUrlChar);
    MapConcat(a, [c], FromUrlChar);
    MapConcat(a, b, FromUrlChar);
    assert MapChars([c][1..], FromUrlChar) == "";
    assert MapChars([c], FromUrlChar) == [FromUrlChar(c)];
    ReadsKept(a + [c] + b);
    if c == '=' {
      var m := MapChars(a, FromUrlChar);
      assert m + [c] + MapChars(b, FromUrlChar) == m + ([c] + MapChars(b, FromUrlChar));
      SextetsStop(m, [c] + MapChars(b, FromUrlChar));
      ReadsKept(a);
    } else if Value(c) == 64 {
      SextetsSkip(MapChars(a, FromUrlChar), c, MapChars(b, FromUrlChar));
      ReadsKept(a + b);
    }
  }

  /** Both alphabets are read: the standard one's two marks as the URL-safe ones. */
  lemma ReadsBothAlphabets(a: string, b: string)
    ensures FromB64Url(a + "+" + b) == FromB64Url(a + "-" + b)
    ensures FromB64Url(a + "/" + b) == FromB64Url(a + "_" + b)
  {
    SameMark(a, '+', '-', b);
    SameMark(a, '/', '_', b);
  }

  lemma SameMark(a: string, c: char, d: char, b: string)
    requires FromUrlChar(c) == FromUrlChar(d)
    ensures FromB64Url(a + [c] + b) == FromB64Url(a + [d] + b)
  {
    MapConcat(a + [c], b, FromUrlChar);
    MapConcat(a, [c], FromUrlChar);
    MapConcat(a + [d], b, FromUrlChar);
    MapConcat(a, [d], FromUrlChar);
    assert MapChars([c][1..], FromUrlChar) == "" && MapChars([d][1..], FromUrlChar) == "";
    ReadsKept(a + [c] + b);
    ReadsKept(a + [d] + b);
  }

  predicate IsUrlChar(c: char) {
    'A' <= c <= 'Z' || 'a' <= c <= 'z' || '0' <= c <= '9' || c == '-' || c == '_'
  }

  lemma {:induction false} UrlTextAlphabet(x: seq<sextet>)
    ensures forall i :: 0 <= i < |UrlText(x)| ==> IsUrlChar(UrlText(x)[i])
  {
    if x != [] {
      ValueOfStdChar(x[0]);
      UrlTextAlphabet(x[1..]);
    }
  }

  /** Encoded text uses the URL-safe alphabet only: no padding, no dot, no colon. */
  lemma B64UrlAlphabet(b: seq<byte>)
    ensures forall i :: 0 <= i < |B64Url(b)| ==> IsUrlChar(B64Url(b)[i])
  {
    B64UrlText(b);
    UrlTextAlphabet(SextetsOf(b));
  }
}
