/** The part of JavaScript's string API that the core uses, on `seq<char>`:
    `toLowerCase`, `includes`, `startsWith`, `trim`, `split`, `split(..).pop()`,
    `Number.prototype.toString`, `padStart(2, '0')` and `parseInt`. */
module Text {
  import opened Wrappers

  // ---------------------------------------------------------------------------
  // Case and whitespace

  predicate IsUpper(c: char) { 'A' <= c <= 'Z' }

  function LowerChar(c: char): char
  {
    if IsUpper(c) then (c as int + 32) as char else c
  }

  /** `s.toLowerCase()`, on the ASCII letters. */
  function Lower(s: string): (r: string)
    ensures |r| == |s|
    ensures forall i :: 0 <= i < |s| ==> r[i] == LowerChar(s[i])
  {
    seq(|s|, i requires 0 <= i < |s| => LowerChar(s[i]))
  }

  lemma LowerIdempotent(s: string)
    ensures Lower(Lower(s)) == Lower(s)
  {
  }

  /** The characters JavaScript's `trim` removes and `\s` matches
      (ECMAScript WhiteSpace and LineTerminator). */
  predicate IsSpace(c: char)
  {
    var n := c as int;
    n == 0x09 || n == 0x0A || n == 0x0B || n == 0x0C || n == 0x0D || n == 0x20
    || n == 0xA0 || n == 0x1680 || (0x2000 <= n <= 0x200A) || n == 0x2028
    || n == 0x2029 || n == 0x202F || n == 0x205F || n == 0x3000 || n == 0xFEFF
  }

  predicate AllSpace(s: string)
  {
    forall i :: 0 <= i < |s| ==> IsSpace(s[i])
  }

  /** How many whitespace characters `s` starts with. */
  function LeadingSpaces(s: string): (n: nat)
    ensures n <= |s|
    ensures forall i :: 0 <= i < n ==> IsSpace(s[i])
    ensures n < |s| ==> !IsSpace(s[n])
  {
    if |s| > 0 && IsSpace(s[0]) then LeadingSpaces(s[1..]) + 1 else 0
  }

  /** How many whitespace characters `s` ends with. */
  function TrailingSpaces(s: string): (n: nat)
    ensures n <= |s|
    ensures forall i :: |s| - n <= i < |s| ==> IsSpace(s[i])
    ensures n < |s| ==> !IsSpace(s[|s| - n - 1])
  {
    if |s| > 0 && IsSpace(s[|s| - 1]) then TrailingSpaces(s[..|s| - 1]) + 1 else 0
  }

  /** `s.trim()`: `s` without its leading and trailing whitespace. */
  function Trim(s: string): string
  {
    var t := s[LeadingSpaces(s)..];
    t[..|t| - TrailingSpaces(t)]
  }

  /** `s.trim()` is empty exactly when every character of `s` is whitespace. */
  lemma TrimEmptyIff(s: string)
    ensures Trim(s) == [] <==> AllSpace(s)
  {
    var k := LeadingSpaces(s);
    var t := s[k..];
    var j := TrailingSpaces(t);
    if k < |s| {
      assert t[0] == s[k];
      assert j < |t|;
    }
  }

  /** Trimming twice is trimming once. */
  lemma TrimIdempotent(s: string)
    ensures Trim(Trim(s)) == Trim(s)
  {
    var k := LeadingSpaces(s);
    var u := s[k..];
    var j := TrailingSpaces(u);
    var t := Trim(s);
    assert t == u[..|u| - j];
    if t != [] {
      assert t[0] == s[k];
      assert t[|t| - 1] == u[|u| - j - 1];
    }
    assert LeadingSpaces(t) == 0;
    assert TrailingSpaces(t) == 0;
    assert t[0..] == t;
  }

  /** `s.length`: JavaScript counts UTF-16 code units, so a character outside
      the Basic Multilingual Plane counts twice. */
  function Utf16Length(s: string): (n: nat)
    ensures |s| <= n <= 2 * |s|
  {
    if s == [] then 0 else (if s[0] as int >= 0x10000 then 2 else 1) + Utf16Length(s[1..])
  }

  // ---------------------------------------------------------------------------
  // Searching

  /** `s.startsWith(p)`. */
  predicate StartsWith(s: string, p: string) { p <= s }

  predicate OccursAt(s: string, t: string, i: int)
  {
    0 <= i && i + |t| <= |s| && s[i..i + |t|] == t
  }

  /** `s.includes(t)`: `t` occurs at some position of `s`. */
  predicate Contains(s: string, t: string)
  {
    exists i :: 0 <= i <= |s| - |t| && OccursAt(s, t, i)
  }

  /** A string that contains `t` contains its first character. */
  lemma ContainsFirst(s: string, t: string)
    requires t != [] && Contains(s, t)
    ensures t[0] in s
  {
    var i :| 0 <= i <= |s| - |t| && OccursAt(s, t, i);
    assert s[i] == s[i..i + |t|][0];
  }

  lemma ContainsEmpty(s: string)
    ensures Contains(s, [])
  {
    assert OccursAt(s, [], 0);
  }

  // ---------------------------------------------------------------------------
  // Splitting

  /** `s.split(sep)` for a one-character separator: never empty, and the parts
      contain no separator. */
  function Split(s: string, sep: char): (r: seq<string>)
    ensures |r| >= 1
    ensures forall i :: 0 <= i < |r| ==> sep !in r[i]
  {
    if s == [] then [[]]
    else
      var rest := Split(s[1..], sep);
      if s[0] == sep then [[]] + rest
      else [[s[0]] + rest[0]] + rest[1..]
  }

  /** `parts.join(sep)`. */
  function Join(parts: seq<string>, sep: char): string
  {
    if parts == [] then []
    else if |parts| == 1 then parts[0]
    else parts[0] + [sep] + Join(parts[1..], sep)
  }

  /** Every part of a split is made of characters of the string split. */
  lemma {:induction false} SplitPartChars(s: string, sep: char, i: nat, j: nat)
    requires i < |Split(s, sep)| && j < |Split(s, sep)[i]|
    ensures Split(s, sep)[i][j] in s
  {
    var r := Split(s, sep);
    if s != [] {
      var rest := Split(s[1..], sep);
      if s[0] == sep {
        assert i > 0 && r[i] == rest[i - 1];
        SplitPartChars(s[1..], sep, i - 1, j);
      } else if i == 0 {
        assert r[0] == [s[0]] + rest[0];
        if j > 0 {
          SplitPartChars(s[1..], sep, 0, j - 1);
        }
      } else {
        assert r[i] == rest[i];
        SplitPartChars(s[1..], sep, i, j);
      }
    }
  }

  /** Splitting and joining again gives back the original string. */
  lemma {:induction false} JoinSplit(s: string, sep: char)
    ensures Join(Split(s, sep), sep) == s
  {
    if s != [] {
      var rest := Split(s[1..], sep);
      JoinSplit(s[1..], sep);
      if s[0] == sep {
        assert Split(s, sep) == [[]] + rest;
        assert ([[]] + rest)[1..] == rest;
      } else {
        var r := [[s[0]] + rest[0]] + rest[1..];
        assert Split(s, sep) == r;
        if |rest| == 1 {
          assert Join(rest, sep) == rest[0];
        } else {
          assert Join(rest, sep) == rest[0] + [sep] + Join(rest[1..], sep);
          assert r[1..] == rest[1..];
        }
      }
    }
  }

  /** A string without the separator splits into itself alone. */
  lemma {:induction false} SplitWithoutSeparator(s: string, sep: char)
    requires sep !in s
    ensures Split(s, sep) == [s]
  {
    if s != [] {
      assert s == [s[0]] + s[1..];
      SplitWithoutSeparator(s[1..], sep);
    }
  }

  /** `s.split(sep).pop()`: the text after the last separator, or all of `s`. */
  function LastSegment(s: string, sep: char): string
  {
    var parts := Split(s, sep);
    parts[|parts| - 1]
  }

  lemma LastSegmentWithoutSeparator(s: string, sep: char)
    requires sep !in s
    ensures LastSegment(s, sep) == s
  {
    SplitWithoutSeparator(s, sep);
  }

  /** A string that holds the separator splits into at least two parts. */
  lemma {:induction false} SplitHasSeveralParts(s: string, sep: char)
    requires sep in s
    ensures |Split(s, sep)| >= 2
  {
    assert s == [s[0]] + s[1..];
    if s[0] != sep {
      SplitHasSeveralParts(s[1..], sep);
    }
  }

  /** The text after the last separator is the last segment. */
  lemma {:induction false} LastSegmentOfJoin(p: string, sep: char, e: string)
    requires sep !in e
    ensures LastSegment(p + [sep] + e, sep) == e
  {
    var s := p + [sep] + e;
    if p == [] {
      assert s == [sep] + e && s[1..] == e;
      SplitWithoutSeparator(e, sep);
    } else {
      assert s[1..] == p[1..] + [sep] + e;
      LastSegmentOfJoin(p[1..], sep, e);
      assert sep in s[1..] by { assert s[1..][|p| - 1] == sep; }
      SplitHasSeveralParts(s[1..], sep);
    }
  }

  // ---------------------------------------------------------------------------
  // Decimal numbers

  predicate IsDigit(c: char) { '0' <= c <= '9' }

  predicate AllDigits(s: string) { forall i :: 0 <= i < |s| ==> IsDigit(s[i]) }

  function DigitChar(d: nat): (c: char)
    requires d < 10
    ensures IsDigit(c)
  {
    ('0' as int + d) as char
  }

  function DigitValue(c: char): (d: nat)
    requires IsDigit(c)
    ensures d < 10
  {
    c as int - '0' as int
  }

  /** `n.toString()` for a natural number. */
  function NatToString(n: nat): (r: string)
    ensures 1 <= |r| && AllDigits(r)
    ensures |r| == 1 <==> n < 10
  {
    if n < 10 then [DigitChar(n)] else NatToString(n / 10) + [DigitChar(n % 10)]
  }

  /** `n.toString()` for any integer. */
  function IntToString(n: int): string
  {
    if n < 0 then "-" + NatToString(-n) else NatToString(n)
  }

  /** JavaScript's `a % b`, whose result takes the sign of `a`. */
  function JsRem(a: int, b: int): (r: int)
    requires b > 0
    ensures a >= 0 ==> 0 <= r < b && r == a % b
    ensures a < 0 ==> -b < r <= 0
  {
    if a >= 0 then a % b else -((-a) % b)
  }

  /** The number a string of decimal digits denotes. */
  function DigitsValue(s: string): nat
    requires AllDigits(s)
  {
    if s == [] then 0 else DigitsValue(s[..|s| - 1]) * 10 + DigitValue(s[|s| - 1])
  }

  lemma {:induction false} NatToStringValue(n: nat)
    ensures DigitsValue(NatToString(n)) == n
  {
    if n >= 10 {
      var r := NatToString(n);
      NatToStringValue(n / 10);
      assert r[..|r| - 1] == NatToString(n / 10);
    }
  }

  /** `n.toString().padStart(2, '0')`. */
  function Pad2(n: nat): (r: string)
    ensures n < 100 ==> |r| == 2 && AllDigits(r) && DigitsValue(r) == n
    ensures n >= 10 ==> r == NatToString(n)
  {
    var s := NatToString(n);
    NatToStringValue(n);
    if n < 10 then
      assert DigitsValue(['0'] + s) == n by {
        assert (['0'] + s)[..1] == ['0'];
      }
      ['0'] + s
    else
      assert n < 100 ==> |s| == 2 by {
        if n < 100 { assert NatToString(n / 10) == [DigitChar(n / 10)]; }
      }
      s
  }

  /** The longest prefix of `s` made of decimal digits. */
  function LeadingDigits(s: string): (r: string)
    ensures r <= s && AllDigits(r)
    ensures |r| < |s| ==> !IsDigit(s[|r|])
  {
    if s != [] && IsDigit(s[0]) then [s[0]] + LeadingDigits(s[1..]) else []
  }

  predicate IsHexDigit(c: char) { IsDigit(c) || 'a' <= c <= 'f' || 'A' <= c <= 'F' }

  predicate AllHexDigits(s: string) { forall i :: 0 <= i < |s| ==> IsHexDigit(s[i]) }

  function HexDigitValue(c: char): (d: nat)
    requires IsHexDigit(c)
    ensures d < 16
    ensures IsDigit(c) ==> d == DigitValue(c)
  {
    if IsDigit(c) then DigitValue(c)
    else if 'a' <= c <= 'f' then c as int - 'a' as int + 10
    else c as int - 'A' as int + 10
  }

  /** The number a string of hexadecimal digits denotes. */
  function HexValue(s: string): nat
    requires AllHexDigits(s)
  {
    if s == [] then 0 else HexValue(s[..|s| - 1]) * 16 + HexDigitValue(s[|s| - 1])
  }

  /** The longest prefix of `s` made of hexadecimal digits. */
  function LeadingHexDigits(s: string): (r: string)
    ensures r <= s && AllHexDigits(r)
    ensures |r| < |s| ==> !IsHexDigit(s[|r|])
  {
    if s != [] && IsHexDigit(s[0]) then [s[0]] + LeadingHexDigits(s[1..]) else []
  }

  /** `0x` or `0X` at the start of `u`. */
  predicate HexPrefixed(u: string)
  {
    |u| >= 2 && u[0] == '0' && (u[1] == 'x' || u[1] == 'X')
  }

  /** `parseInt(s)` without a radix: leading whitespace, an optional sign,
      then either `0x`/`0X` and the longest run of hexadecimal digits, or the
      longest run of decimal digits; `None` (NaN) when the run is empty. */
  function ParseInt(s: string): Option<int>
  {
    var t := s[LeadingSpaces(s)..];
    var signed := |t| > 0 && (t[0] == '-' || t[0] == '+');
    var u := if signed then t[1..] else t;
    var hex := HexPrefixed(u);
    var d := if hex then LeadingHexDigits(u[2..]) else LeadingDigits(u);
    if d == [] then None
    else
      var v := if hex then HexValue(d) else DigitsValue(d);
      if signed && t[0] == '-' then Some(-(v as int)) else Some(v)
  }

  /** With a `0x` prefix the digits are read in base 16, and a prefix with
      no hexadecimal digit after it is NaN. */
  lemma ParseIntHex(d: string, rest: string)
    requires AllHexDigits(d) && (rest == [] || !IsHexDigit(rest[0]))
    ensures d != [] ==> ParseInt("0x" + d + rest) == Some(HexValue(d))
    ensures d == [] ==> ParseInt("0x" + d + rest) == None
  {
    var s := "0x" + d + rest;
    DigitNotSpace(s[0]);
    assert s[LeadingSpaces(s)..] == s;
    assert s[2..] == d + rest;
    LeadingHexDigitsOf(d, rest);
  }

  lemma {:induction false} LeadingHexDigitsOf(d: string, rest: string)
    requires AllHexDigits(d) && (rest == [] || !IsHexDigit(rest[0]))
    ensures LeadingHexDigits(d + rest) == d
  {
    if d != [] {
      assert (d + rest)[1..] == d[1..] + rest;
      LeadingHexDigitsOf(d[1..], rest);
    }
  }

  /** `parseInt('0x10')` is 16. */
  lemma HexSixteen()
    ensures ParseInt("0x10") == Some(16)
  {
    assert AllHexDigits("10") by { assert IsHexDigit('1') && IsHexDigit('0'); }
    ParseIntHex("10", "");
    assert "0x" + "10" + "" == "0x10";
    HexTen();
  }

  lemma HexTen()
    ensures AllHexDigits("10") && HexValue("10") == 16
  {
    assert "10"[..1] == "1";
    assert "1"[..0] == "";
  }

  /** `parseInt('0xZ')` is NaN. */
  lemma HexWithoutDigits()
    ensures ParseInt("0xZ") == None
  {
    ParseIntHex("", "Z");
    assert "0x" + "" + "Z" == "0xZ";
  }

  lemma {:induction false} LeadingDigitsOfDigits(s: string)
    requires AllDigits(s)
    ensures LeadingDigits(s) == s
  {
    if s != [] {
      LeadingDigitsOfDigits(s[1..]);
    }
  }

  /** `parseInt` reads back what `toString` writes. */
  lemma ParseIntNatToString(n: nat)
    ensures ParseInt(NatToString(n)) == Some(n)
  {
    ParseIntOfDigits(NatToString(n));
    NatToStringValue(n);
  }

  /** `parseInt` of a non-empty run of digits is the number they denote. */
  lemma ParseIntOfDigits(s: string)
    requires s != [] && AllDigits(s)
    ensures ParseInt(s) == Some(DigitsValue(s))
  {
    DigitNotSpace(s[0]);
    assert LeadingSpaces(s) == 0;
    assert s[LeadingSpaces(s)..] == s;
    assert !HexPrefixed(s) by {
      if |s| >= 2 { assert IsDigit(s[1]); }
    }
    LeadingDigitsOfDigits(s);
  }

  lemma DigitNotSpace(c: char)
    requires IsDigit(c)
    ensures !IsSpace(c) && c != '-' && c != '+'
  {
  }
}
