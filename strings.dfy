// Text and byte helpers the vCard code takes from Rust's standard library:
// `str::to_lowercase` (as far as the reader compares its result), `split`,
// `split_once`, `join`, `trim_end_matches`, `u8::from_str`, `u8`'s decimal
// `Display`, the ordering of `String`, and UTF-8 decoding of a byte buffer.
module Strings {
  import opened Errors

  /** An unsigned 8-bit value: a byte of the input or a `u8` number. */
  type u8 = x: int | 0 <= x < 256
  type byte = u8

  const CR: byte := 13
  const LF: byte := 10
  const SP: byte := 32
  const TAB: byte := 9

  // ---------------------------------------------------------------------
  // Lower-casing

  /** `char::to_lowercase` as far as any comparison in the reader can tell:
      ASCII letters and the KELVIN SIGN (the only non-ASCII character whose
      lower-case form is ASCII) are mapped exactly; every other character is
      kept, and a non-ASCII character stays non-ASCII, just as its real
      lower-case form would. */
  function LowerChar(c: char): (r: char)
    ensures c < 128 as char ==> r < 128 as char
    ensures 'a' <= r <= 'z' ==> ('a' <= c <= 'z' || 'A' <= c <= 'Z' || (r == 'k' && c == '\U{212A}'))
  {
    if 'A' <= c <= 'Z' then (c as int + 32) as char
    else if c == '\U{212A}' then 'k'
    else c
  }

  function Lower(s: string): (r: string)
  {
    seq(|s|, i requires 0 <= i < |s| => LowerChar(s[i]))
  }

  /** Upper-case ASCII words (as the serializer writes them) lower-case
      letter by letter; used to match the names the decoder dispatches on. */
  predicate IsUpperWord(s: string)
  {
    forall i :: 0 <= i < |s| ==> 'A' <= s[i] <= 'Z' || s[i] == '-' || '0' <= s[i] <= '9'
  }

  lemma {:induction false} LowerAppend(a: string, b: string)
    ensures Lower(a + b) == Lower(a) + Lower(b)
  {
    assert |Lower(a + b)| == |Lower(a) + Lower(b)|;
    forall i | 0 <= i < |a + b|
      ensures Lower(a + b)[i] == (Lower(a) + Lower(b))[i]
    {
      if i < |a| {
        assert (a + b)[i] == a[i];
      } else {
        assert (a + b)[i] == b[i - |a|];
      }
    }
  }

  // ---------------------------------------------------------------------
  // Prefixes, joining and splitting

  predicate StartsWith(s: string, prefix: string)
  {
    |prefix| <= |s| && s[..|prefix|] == prefix
  }

  /** Concatenation regrouped, for proofs whose context is too large for
      the solver to find it by itself. */
  lemma ConcatAssoc<T>(a: seq<T>, b: seq<T>, c: seq<T>)
    ensures a + b + c == a + (b + c)
  {
  }

  /** `[String]::join(sep)`. */
  function Join(sep: string, parts: seq<string>): (r: string)
    ensures |parts| == 1 ==> r == parts[0]
    ensures parts == [] ==> r == []
  {
    if parts == [] then []
    else if |parts| == 1 then parts[0]
    else parts[0] + sep + Join(sep, parts[1..])
  }

  predicate Free(s: string, c: char)
  {
    forall i :: 0 <= i < |s| ==> s[i] != c
  }

  predicate AllFree(parts: seq<string>, c: char)
  {
    forall i :: 0 <= i < |parts| ==> Free(parts[i], c)
  }

  /** Index of the first occurrence of `c` in `s` at or after `from`. */
  function FindFrom(s: string, c: char, from: nat): (r: Option<nat>)
    requires from <= |s|
    ensures r.Some? ==> from <= r.value < |s| && s[r.value] == c
    ensures r.Some? ==> forall k :: from <= k < r.value ==> s[k] != c
    ensures r.None? ==> forall k :: from <= k < |s| ==> s[k] != c
    decreases |s| - from
  {
    if from == |s| then None
    else if s[from] == c then Some(from)
    else FindFrom(s, c, from + 1)
  }

  /** Joining texts free of `c` with a separator free of `c` gives a text
      free of `c`. */
  lemma {:induction false} JoinFree(sep: string, parts: seq<string>, c: char)
    requires Free(sep, c) && AllFree(parts, c)
    ensures Free(Join(sep, parts), c)
    decreases |parts|
  {
    if |parts| > 1 {
      JoinFree(sep, parts[1..], c);
    }
  }

  /** `str::split(c)`: the pieces between the occurrences of `c`, empty
      pieces included, so there is always one more piece than separator. */
  function Split(s: string, c: char): (r: seq<string>)
    ensures |r| >= 1
    ensures AllFree(r, c)
    decreases |s|
  {
    match FindFrom(s, c, 0)
    case None => [s]
    case Some(k) => [s[..k]] + Split(s[k + 1..], c)
  }

  /** A text without `c` splits into itself alone. */
  lemma SplitWhole(s: string, c: char)
    requires Free(s, c)
    ensures Split(s, c) == [s]
  {
    FindFromFree(s, c, 0);
  }

  /** A join starts with the first letter of its first part. */
  lemma JoinHead(sep: string, parts: seq<string>)
    requires |parts| >= 1 && parts[0] != []
    ensures Join(sep, parts) != [] && Join(sep, parts)[0] == parts[0][0]
  {
    if |parts| > 1 {
      assert Join(sep, parts) == parts[0] + (sep + Join(sep, parts[1..]));
    }
  }

  /** `str::split_once(c)`. */
  function SplitOnce(s: string, c: char): (r: Option<(string, string)>)
    ensures r.None? <==> Free(s, c)
    ensures r.Some? ==> s == r.value.0 + [c] + r.value.1 && Free(r.value.0, c)
  {
    match FindFrom(s, c, 0)
    case None => None
    case Some(k) =>
      assert s == s[..k] + [c] + s[k + 1..];
      Some((s[..k], s[k + 1..]))
  }

  lemma {:induction false} FindFromFree(s: string, c: char, from: nat)
    requires from <= |s|
    requires forall k :: from <= k < |s| ==> s[k] != c
    ensures FindFrom(s, c, from) == None
    decreases |s| - from
  {
    if from < |s| {
      FindFromFree(s, c, from + 1);
    }
  }

  lemma FindAfterFree(a: string, c: char, rest: string)
    requires Free(a, c)
    ensures FindFrom(a + [c] + rest, c, 0) == Some(|a|)
  {
    var s := a + [c] + rest;
    assert s[|a|] == c;
    assert forall k :: 0 <= k < |a| ==> s[k] == a[k];
  }

  /** Splitting a join gives the parts back when no part holds the separator. */
  lemma {:induction false} SplitJoin(parts: seq<string>, c: char)
    requires |parts| >= 1
    requires AllFree(parts, c)
    ensures Split(Join([c], parts), c) == parts
    decreases |parts|
  {
    if |parts| == 1 {
      FindFromFree(parts[0], c, 0);
    } else {
      var rest := Join([c], parts[1..]);
      assert Join([c], parts) == parts[0] + [c] + rest;
      FindAfterFree(parts[0], c, rest);
      var s := parts[0] + [c] + rest;
      assert s[..|parts[0]|] == parts[0];
      assert s[|parts[0]| + 1..] == rest;
      SplitJoin(parts[1..], c);
      assert parts == [parts[0]] + parts[1..];
    }
  }

  /** Joining the pieces of a split restores the text. */
  lemma {:induction false} JoinSplit(s: string, c: char)
    ensures Join([c], Split(s, c)) == s
    decreases |s|
  {
    match FindFrom(s, c, 0)
    case None =>
    case Some(k) =>
      var rest := Split(s[k + 1..], c);
      JoinSplit(s[k + 1..], c);
      assert Split(s, c) == [s[..k]] + rest;
      assert Join([c], [s[..k]] + rest) == s[..k] + [c] + Join([c], rest);
      assert s == s[..k] + [c] + s[k + 1..];
  }

  /** `trim_end_matches('.')`: every trailing dot is removed. */
  function TrimEndDots(s: string): (r: string)
    ensures |r| <= |s| && r == s[..|r|]
    ensures r == [] || r[|r| - 1] != '.'
    ensures forall k :: |r| <= k < |s| ==> s[k] == '.'
  {
    if s == [] || s[|s| - 1] != '.' then s else TrimEndDots(s[..|s| - 1])
  }

  /** `trim_matches(char::from(0))`: NUL characters removed at both ends. */
  function TrimNul(s: string): (r: string)
    ensures |r| <= |s|
    ensures r == [] || (r[0] != '\0' && r[|r| - 1] != '\0')
    ensures Free(s, '\0') ==> r == s
  {
    if s == [] then s
    else if s[0] == '\0' then TrimNul(s[1..])
    else if s[|s| - 1] == '\0' then TrimNul(s[..|s| - 1])
    else s
  }

  // ---------------------------------------------------------------------
  // Decimal numbers: `u8::from_str` and the decimal `Display` of integers

  predicate IsDigit(c: char)
  {
    '0' <= c <= '9'
  }

  predicate AllDigits(s: string)
  {
    forall i :: 0 <= i < |s| ==> IsDigit(s[i])
  }

  function DigitValue(c: char): nat
    requires IsDigit(c)
  {
    c as int - '0' as int
  }

  /** The value of the numeral `ds` read after the digits already worth `acc`. */
  function Horner(ds: string, acc: nat): nat
    requires AllDigits(ds)
  {
    if ds == [] then acc else Horner(ds[1..], acc * 10 + DigitValue(ds[0]))
  }

  /** The digit loop of `u8::from_str`: left to right, an invalid digit is
      reported before the overflow its position would cause. */
  function Accumulate(ds: string, acc: u8): Result<u8>
  {
    if ds == [] then Ok(acc)
    else if !IsDigit(ds[0]) then Err(ParseIntError(InvalidDigit))
    else if acc * 10 + DigitValue(ds[0]) > 255 then Err(ParseIntError(PosOverflow))
    else Accumulate(ds[1..], acc * 10 + DigitValue(ds[0]))
  }

  /** `u8::from_str`: an empty text, a lone sign, a minus sign or any
      non-digit is refused; one leading `+` is allowed; the value must not
      exceed 255 (leading zeros are fine). */
  function ParseU8(s: string): Result<u8>
  {
    if s == [] then Err(ParseIntError(Empty))
    else if (s[0] == '+' || s[0] == '-') && |s| == 1 then Err(ParseIntError(InvalidDigit))
    else Accumulate(if s[0] == '+' then s[1..] else s, 0)
  }

  /** The digits `u8::from_str` reads: the text without its one optional `+`. */
  function Unsigned(s: string): string
  {
    if s != [] && s[0] == '+' then s[1..] else s
  }

  lemma {:induction false} HornerGrows(ds: string, acc: nat)
    requires AllDigits(ds)
    ensures Horner(ds, acc) >= acc
    decreases |ds|
  {
    if ds != [] {
      HornerGrows(ds[1..], acc * 10 + DigitValue(ds[0]));
    }
  }

  lemma {:induction false} AccumulateSpec(ds: string, acc: u8)
    ensures Accumulate(ds, acc).Ok? <==> AllDigits(ds) && Horner(ds, acc) <= 255
    ensures Accumulate(ds, acc).Ok? ==> Accumulate(ds, acc).value == Horner(ds, acc)
    decreases |ds|
  {
    if ds != [] {
      if IsDigit(ds[0]) {
        var next := acc * 10 + DigitValue(ds[0]);
        if next > 255 {
          if AllDigits(ds) {
            HornerGrows(ds[1..], next);
          }
        } else {
          AccumulateSpec(ds[1..], next);
          if AllDigits(ds[1..]) {
            assert AllDigits(ds);
          }
        }
      }
    }
  }

  /** `u8::from_str` accepts exactly an optional `+` followed by at least
      one decimal digit whose value is at most 255, and returns that value. */
  lemma ParseU8Spec(s: string)
    ensures ParseU8(s).Ok? <==>
              |Unsigned(s)| > 0 && AllDigits(Unsigned(s)) && Horner(Unsigned(s), 0) <= 255
    ensures ParseU8(s).Ok? ==> ParseU8(s).value == Horner(Unsigned(s), 0)
    ensures s == [] ==> ParseU8(s) == Err(ParseIntError(Empty))
  {
    if s != [] {
      AccumulateSpec(Unsigned(s), 0);
      if s[0] == '-' {
        assert !IsDigit(s[0]);
      }
    }
  }

  function DigitChar(d: nat): (c: char)
    requires d < 10
    ensures IsDigit(c) && DigitValue(c) == d
  {
    ('0' as int + d) as char
  }

  /** The decimal `Display` of a non-negative integer. */
  function ShowNat(n: nat): (r: string)
    ensures |r| >= 1 && AllDigits(r)
  {
    if n < 10 then [DigitChar(n)] else ShowNat(n / 10) + [DigitChar(n % 10)]
  }

  lemma {:induction false} HornerAppend(a: string, b: string, acc: nat)
    requires AllDigits(a) && AllDigits(b)
    ensures AllDigits(a + b)
    ensures Horner(a + b, acc) == Horner(b, Horner(a, acc))
    decreases |a|
  {
    if a != [] {
      assert (a + b)[0] == a[0];
      assert (a + b)[1..] == a[1..] + b;
      var next := acc * 10 + DigitValue(a[0]);
      HornerAppend(a[1..], b, next);
      assert Horner(a + b, acc) == Horner(a[1..] + b, next);
      assert Horner(a, acc) == Horner(a[1..], next);
    } else {
      assert a + b == b;
    }
  }

  lemma {:induction false} HornerShowNat(n: nat)
    ensures Horner(ShowNat(n), 0) == n
    decreases n
  {
    if n >= 10 {
      HornerShowNat(n / 10);
      HornerAppend(ShowNat(n / 10), [DigitChar(n % 10)], 0);
    }
  }

  /** Writing a `u8` in decimal and reading it back gives the same number. */
  lemma ParseShowU8(n: u8)
    ensures ParseU8(ShowNat(n)) == Ok(n)
  {
    HornerShowNat(n);
    ParseU8Spec(ShowNat(n));
    assert ShowNat(n)[0] != '+';
  }

  // ---------------------------------------------------------------------
  // The ordering of `String`

  /** `String`'s `<`: lexicographic over UTF-8 bytes, which orders texts as
      the lexicographic order of their code points does. */
  predicate StrLess(a: string, b: string)
  {
    if a == [] then b != []
    else if b == [] then false
    else if a[0] != b[0] then a[0] < b[0]
    else StrLess(a[1..], b[1..])
  }

  lemma {:induction false} StrLessIrreflexive(a: string)
    ensures !StrLess(a, a)
    decreases |a|
  {
    if a != [] {
      StrLessIrreflexive(a[1..]);
    }
  }

  lemma {:induction false} StrLessTransitive(a: string, b: string, c: string)
    requires StrLess(a, b) && StrLess(b, c)
    ensures StrLess(a, c)
    decreases |a|
  {
    if a != [] && b != [] && c != [] && a[0] == b[0] && b[0] == c[0] {
      StrLessTransitive(a[1..], b[1..], c[1..]);
    }
  }

  lemma {:induction false} StrLessTotal(a: string, b: string)
    requires a != b
    ensures StrLess(a, b) || StrLess(b, a)
    decreases |a|
  {
    if a != [] && b != [] && a[0] == b[0] {
      assert a == [a[0]] + a[1..] && b == [b[0]] + b[1..];
      StrLessTotal(a[1..], b[1..]);
    }
  }

  lemma StrLessAsymmetric(a: string, b: string)
    requires StrLess(a, b)
    ensures !StrLess(b, a)
  {
    if StrLess(b, a) {
      StrLessTransitive(a, b, a);
      StrLessIrreflexive(a);
    }
  }

  // ---------------------------------------------------------------------
  // UTF-8

  predicate IsCont(b: byte)
  {
    0x80 <= b <= 0xBF
  }

  /** The number of bytes of the well-formed UTF-8 sequence `bs` starts
      with, after the table of well-formed byte sequences of the Unicode
      Standard (section 3.9), or 0 when it starts with none. */
  function SequenceLength(bs: seq<byte>): (n: nat)
    requires bs != []
    ensures n <= 4 && n <= |bs|
  {
    var b0 := bs[0];
    if b0 <= 0x7F then 1
    else if 0xC2 <= b0 <= 0xDF then
      (if |bs| >= 2 && IsCont(bs[1]) then 2 else 0)
    else if 0xE0 <= b0 <= 0xEF then
      (if |bs| >= 3 && IsCont(bs[2])
          && (if b0 == 0xE0 then 0xA0 <= bs[1] <= 0xBF
              else if b0 == 0xED then 0x80 <= bs[1] <= 0x9F
              else IsCont(bs[1]))
       then 3 else 0)
    else if 0xF0 <= b0 <= 0xF4 then
      (if |bs| >= 4 && IsCont(bs[2]) && IsCont(bs[3])
          && (if b0 == 0xF0 then 0x90 <= bs[1] <= 0xBF
              else if b0 == 0xF4 then 0x80 <= bs[1] <= 0x8F
              else IsCont(bs[1]))
       then 4 else 0)
    else 0
  }

  /** The code point of a well-formed sequence of `n` bytes. */
  function CodePoint(bs: seq<byte>, n: nat): (c: char)
    requires bs != [] && n == SequenceLength(bs) && n > 0
  {
    var b0: int := bs[0];
    if n == 1 then b0 as char
    else if n == 2 then ((b0 - 0xC0) * 64 + (bs[1] as int - 0x80)) as char
    else if n == 3 then ((b0 - 0xE0) * 4096 + (bs[1] as int - 0x80) * 64 + (bs[2] as int - 0x80)) as char
    else ((b0 - 0xF0) * 262144 + (bs[1] as int - 0x80) * 4096 + (bs[2] as int - 0x80) * 64
          + (bs[3] as int - 0x80)) as char
  }

  /** `String::from_utf8`: the text the bytes encode, or `None` when they
      are not well-formed UTF-8. */
  function Utf8Decode(bs: seq<byte>): Option<string>
    decreases |bs|
  {
    if bs == [] then Some([])
    else
      var n := SequenceLength(bs);
      if n == 0 then None
      else match Utf8Decode(bs[n..])
        case None => None
        case Some(rest) => Some([CodePoint(bs, n)] + rest)
  }

  /** The UTF-8 encoding of one character (what `String` stores). */
  function EncodeChar(c: char): (r: seq<byte>)
    ensures 1 <= |r| <= 4
    ensures c < 128 as char <==> |r| == 1
    ensures |r| == 1 ==> r[0] == c as int
    ensures |r| > 1 ==> forall i :: 0 <= i < |r| ==> r[i] >= 0x80
  {
    var n := c as int;
    if n < 0x80 then [n]
    else if n < 0x800 then [0xC0 + n / 64, 0x80 + n % 64]
    else if n < 0x10000 then [0xE0 + n / 4096, 0x80 + (n / 64) % 64, 0x80 + n % 64]
    else [0xF0 + n / 262144, 0x80 + (n / 4096) % 64, 0x80 + (n / 64) % 64, 0x80 + n % 64]
  }

  function Utf8Encode(s: string): (r: seq<byte>)
    ensures |r| >= |s|
  {
    if s == [] then [] else EncodeChar(s[0]) + Utf8Encode(s[1..])
  }

  lemma {:induction false} Utf8EncodeAppend(a: string, b: string)
    ensures Utf8Encode(a + b) == Utf8Encode(a) + Utf8Encode(b)
    decreases |a|
  {
    if a != [] {
      assert (a + b)[0] == a[0];
      assert (a + b)[1..] == a[1..] + b;
      Utf8EncodeAppend(a[1..], b);
      assert Utf8Encode(a + b) == EncodeChar(a[0]) + Utf8Encode(a[1..] + b);
    } else {
      assert a + b == b;
    }
  }

  lemma DecodeEncodeTwo(n: int, bs: seq<byte>)
    requires 0x80 <= n < 0x800
    requires |bs| >= 2 && bs[0] == 0xC0 + n / 64 && bs[1] == 0x80 + n % 64
    ensures SequenceLength(bs) == 2
    ensures (bs[0] as int - 0xC0) * 64 + (bs[1] as int - 0x80) == n
  {
  }

  lemma DecodeEncodeThree(n: int, bs: seq<byte>)
    requires 0x800 <= n < 0x10000 && !(0xD800 <= n <= 0xDFFF)
    requires |bs| >= 3 && bs[0] == 0xE0 + n / 4096 && bs[1] == 0x80 + (n / 64) % 64
    requires bs[2] == 0x80 + n % 64
    ensures SequenceLength(bs) == 3
    ensures (bs[0] as int - 0xE0) * 4096 + (bs[1] as int - 0x80) * 64 + (bs[2] as int - 0x80) == n
  {
    var hi, mid, lo := n / 4096, (n / 64) % 64, n % 64;
    assert n / 64 == hi * 64 + mid;
    assert n == (n / 64) * 64 + lo;
    assert hi == 0 ==> mid >= 32;
    assert hi == 13 ==> mid < 32;
  }

  lemma DecodeEncodeFour(n: int, bs: seq<byte>)
    requires 0x10000 <= n <= 0x10FFFF
    requires |bs| >= 4 && bs[0] == 0xF0 + n / 262144 && bs[1] == 0x80 + (n / 4096) % 64
    requires bs[2] == 0x80 + (n / 64) % 64 && bs[3] == 0x80 + n % 64
    ensures SequenceLength(bs) == 4
    ensures (bs[0] as int - 0xF0) * 262144 + (bs[1] as int - 0x80) * 4096
            + (bs[2] as int - 0x80) * 64 + (bs[3] as int - 0x80) == n
  {
    var top, hi, mid, lo := n / 262144, (n / 4096) % 64, (n / 64) % 64, n % 64;
    assert n / 4096 == top * 64 + hi;
    assert n / 64 == (n / 4096) * 64 + mid;
    assert n == (n / 64) * 64 + lo;
    assert top == 0 ==> hi >= 16;
    assert top == 4 ==> hi < 16;
  }

  lemma DecodeEncodeChar(c: char, rest: seq<byte>)
    ensures SequenceLength(EncodeChar(c) + rest) == |EncodeChar(c)|
    ensures CodePoint(EncodeChar(c) + rest, |EncodeChar(c)|) == c
  {
    var n := c as int;
    var bs := EncodeChar(c) + rest;
    if n < 0x80 {
    } else if n < 0x800 {
      DecodeEncodeTwo(n, bs);
    } else if n < 0x10000 {
      DecodeEncodeThree(n, bs);
    } else {
      DecodeEncodeFour(n, bs);
    }
  }

  /** Decoding the UTF-8 encoding of a text gives the text back. */
  lemma {:induction false} Utf8RoundTrip(s: string)
    ensures Utf8Decode(Utf8Encode(s)) == Some(s)
    decreases |s|
  {
    if s != [] {
      var e := EncodeChar(s[0]);
      DecodeEncodeChar(s[0], Utf8Encode(s[1..]));
      assert (e + Utf8Encode(s[1..]))[|e|..] == Utf8Encode(s[1..]);
      Utf8RoundTrip(s[1..]);
      assert s == [s[0]] + s[1..];
    }
  }

  /** A character encodes to the single byte CR, LF, space or tab exactly
      when it is that ASCII character; no byte of a multi-byte sequence is
      one of them. */
  lemma EncodeCharControl(c: char)
    ensures EncodeChar(c)[0] == CR as int <==> c == '\r'
    ensures EncodeChar(c)[0] == LF as int <==> c == '\n'
    ensures EncodeChar(c)[0] == SP as int <==> c == ' '
    ensures EncodeChar(c)[0] == TAB as int <==> c == '\t'
  {
  }

  /** Bytes below 0x80 decode one character each, of the same value. */
  lemma {:induction false} DecodeAscii(bs: seq<byte>)
    requires forall i :: 0 <= i < |bs| ==> bs[i] < 0x80
    ensures Utf8Decode(bs).Some? && |Utf8Decode(bs).value| == |bs|
    ensures forall i :: 0 <= i < |bs| ==> Utf8Decode(bs).value[i] == bs[i] as char
    decreases |bs|
  {
    if bs != [] {
      DecodeAscii(bs[1..]);
    }
  }
}
