/** The string operations the host software takes from Python's `str` and `int`.

    Only the ASCII behaviour is modelled: `upper()`/`lower()` change the 26
    letters, whitespace is the ASCII whitespace Python's `str.isspace` accepts,
    and `isnumeric()` accepts the ten ASCII digits. */
module Text {
  import opened Wrappers

  // ---------------------------------------------------------------------------
  // Case

  function UpperChar(c: char): char
  {
    if 'a' <= c <= 'z' then (c as int - 32) as char else c
  }

  function LowerChar(c: char): char
  {
    if 'A' <= c <= 'Z' then (c as int + 32) as char else c
  }

  /** `s.upper()` */
  function Upper(s: string): (r: string)
    ensures |r| == |s|
    ensures forall i :: 0 <= i < |s| ==> r[i] == UpperChar(s[i])
  {
    seq(|s|, i requires 0 <= i < |s| => UpperChar(s[i]))
  }

  /** `s.lower()` */
  function Lower(s: string): (r: string)
    ensures |r| == |s|
    ensures forall i :: 0 <= i < |s| ==> r[i] == LowerChar(s[i])
  {
    seq(|s|, i requires 0 <= i < |s| => LowerChar(s[i]))
  }

  /** Case-insensitive comparison: two strings that differ only in letter case
      lower to the same string. */
  lemma LowerOfUpper(s: string)
    ensures Lower(Upper(s)) == Lower(s)
  {
  }

  /** `mode.upper()[0] == 'A'`, the test every part of the host software uses
      for ASCII mode ("ascii", "a", "Asc", ...); an empty mode raises IndexError. */
  function IsAsciiMode(mode: string): (r: Result<bool>)
    ensures r.Ok? <==> mode != []
    ensures r.Ok? ==> (r.value <==> mode[0] == 'a' || mode[0] == 'A')
  {
    if mode == [] then Raise(IndexError) else Ok(Upper(mode)[0] == 'A')
  }

  // ---------------------------------------------------------------------------
  // Stripping and removing characters

  /** The whitespace characters `str.strip()` and `str.split()` use (ASCII part). */
  const Whitespace: set<char> := {' ', '\t', '\n', '\r', 11 as char, 12 as char,
                                  28 as char, 29 as char, 30 as char, 31 as char}

  /** Number of leading characters of `s` that are in `cs`. */
  function LeadIn(s: string, cs: set<char>): (k: nat)
    ensures k <= |s|
    ensures forall i :: 0 <= i < k ==> s[i] in cs
    ensures k < |s| ==> s[k] !in cs
  {
    if s == [] || s[0] !in cs then 0 else 1 + LeadIn(s[1..], cs)
  }

  /** Number of trailing characters of `s` that are in `cs`. */
  function TrailIn(s: string, cs: set<char>): (k: nat)
    ensures k <= |s|
    ensures forall i :: |s| - k <= i < |s| ==> s[i] in cs
    ensures k < |s| ==> s[|s| - 1 - k] !in cs
  {
    if s == [] || s[|s| - 1] !in cs then 0 else 1 + TrailIn(s[..|s| - 1], cs)
  }

  /** `s.strip(chars)`: drop every leading and trailing character found in `cs`. */
  function Strip(s: string, cs: set<char>): (r: string)
    ensures |r| <= |s|
    ensures r != [] ==> r[0] !in cs && r[|r| - 1] !in cs
    ensures (forall i :: 0 <= i < |s| ==> s[i] !in cs) ==> r == s
    ensures forall x :: x in r ==> x in s
  {
    var lead := LeadIn(s, cs);
    var rest := s[lead..];
    rest[..|rest| - TrailIn(rest, cs)]
  }

  /** `s.replace(c, '')` */
  function RemoveChar(s: string, c: char): (r: string)
    ensures c !in r
    ensures forall x :: x != c ==> multiset(r)[x] == multiset(s)[x]
  {
    if s == [] then []
    else
      assert s == [s[0]] + s[1..];
      (if s[0] == c then [] else [s[0]]) + RemoveChar(s[1..], c)
  }

  // ---------------------------------------------------------------------------
  // Splitting

  /** Position of the first `sep` in `s`, or |s| when there is none. */
  function FirstIndex(s: string, sep: char): (k: nat)
    ensures k <= |s|
    ensures forall i :: 0 <= i < k ==> s[i] != sep
    ensures k < |s| ==> s[k] == sep
  {
    if s == [] || s[0] == sep then 0 else 1 + FirstIndex(s[1..], sep)
  }

  /** `s.split(sep)` for a one-character separator: every occurrence of `sep`
      separates two fields, so "a  b" has an empty middle field. */
  function SplitOn(s: string, sep: char): (fields: seq<string>)
    ensures |fields| >= 1
    ensures forall f :: f in fields ==> sep !in f
    decreases |s|
  {
    var k := FirstIndex(s, sep);
    if k == |s| then [s] else [s[..k]] + SplitOn(s[k + 1..], sep)
  }

  /** Join fields with a separator (`sep.join(fields)`). */
  function Join(fields: seq<string>, sep: char): string
  {
    if |fields| <= 1 then (if fields == [] then [] else fields[0])
    else fields[0] + [sep] + Join(fields[1..], sep)
  }

  /** Splitting loses nothing: joining the fields again gives back the line. */
  lemma {:induction false} JoinSplitOn(s: string, sep: char)
    ensures Join(SplitOn(s, sep), sep) == s
    decreases |s|
  {
    var k := FirstIndex(s, sep);
    if k < |s| {
      JoinSplitOn(s[k + 1..], sep);
      assert s == s[..k] + [sep] + s[k + 1..];
    }
  }

  /** The other direction: fields without the separator are split apart again. */
  lemma {:induction false} SplitJoin(fields: seq<string>, sep: char)
    requires |fields| >= 1 && forall i :: 0 <= i < |fields| ==> sep !in fields[i]
    ensures SplitOn(Join(fields, sep), sep) == fields
  {
    var s := Join(fields, sep);
    var f := fields[0];
    var k := FirstIndex(s, sep);
    if |fields| == 1 {
      assert s == f;
    } else {
      var rest := Join(fields[1..], sep);
      assert s == f + [sep] + rest;
      assert k == |f| by {
        forall i | 0 <= i < |f| ensures s[i] != sep {
          assert s[i] == f[i] && f[i] in f;
        }
        assert s[|f|] == sep;
      }
      assert s[..k] == f;
      assert s[k + 1..] == rest;
      SplitJoin(fields[1..], sep);
    }
  }

  /** A string that ends with the separator splits into a last field that is empty. */
  lemma {:induction false} SplitLastEmpty(s: string, sep: char)
    requires s != [] && s[|s| - 1] == sep
    ensures SplitOn(s, sep)[|SplitOn(s, sep)| - 1] == []
    decreases |s|
  {
    var k := FirstIndex(s, sep);
    if k + 1 < |s| {
      SplitLastEmpty(s[k + 1..], sep);
    }
  }

  /** `s.split()`: the maximal runs of non-whitespace characters. */
  function Words(s: string): (words: seq<string>)
    ensures forall w :: w in words ==> w != [] && forall c :: c in w ==> c !in Whitespace
    decreases |s|
  {
    var lead := LeadIn(s, Whitespace);
    if lead == |s| then []
    else
      var rest := s[lead..];
      var n := LeadIn(rest, set c | c in rest && c !in Whitespace);
      RunOutside(rest, Whitespace, n);
      [rest[..n]] + Words(rest[n..])
  }

  /** The leading run of characters of `s` outside `cs`, when `s` starts outside it. */
  lemma RunOutside(s: string, cs: set<char>, n: nat)
    requires s != [] && s[0] !in cs && n == LeadIn(s, set c | c in s && c !in cs)
    ensures 1 <= n <= |s| && forall c :: c in s[..n] ==> c !in cs
  {
    var run := s[..n];
    forall c | c in run ensures c !in cs {
      var i :| 0 <= i < |run| && run[i] == c;
      assert s[i] in set c | c in s && c !in cs;
    }
  }

  // ---------------------------------------------------------------------------
  // Numbers in text

  /** Value of a hexadecimal digit (either letter case), or -1. */
  function DigitValue(c: char): int
  {
    if '0' <= c <= '9' then c as int - '0' as int
    else if 'a' <= c <= 'f' then c as int - 'a' as int + 10
    else if 'A' <= c <= 'F' then c as int - 'A' as int + 10
    else -1
  }

  predicate IsDigitIn(c: char, base: nat)
  {
    0 <= DigitValue(c) < base
  }

  /** Lower-case digit character of `d`. */
  function DigitChar(d: nat): (c: char)
    requires d < 16
    ensures DigitValue(c) == d
  {
    if d < 10 then ('0' as int + d) as char else ('a' as int + d - 10) as char
  }

  predicate AllDigitsIn(s: string, base: nat)
  {
    forall i :: 0 <= i < |s| ==> IsDigitIn(s[i], base)
  }

  /** Value of a run of digits, most significant first. */
  function DigitsValue(s: string, base: nat): nat
    requires AllDigitsIn(s, base)
  {
    if s == [] then 0 else base * DigitsValue(s[..|s| - 1], base) + DigitValue(s[|s| - 1])
  }

  /** The digits of `n` in `base`, without leading zeros ("0" for zero). */
  function NatDigits(n: nat, base: nat): (s: string)
    requires 2 <= base <= 16
    ensures s != [] && AllDigitsIn(s, base)
  {
    if n < base then [DigitChar(n)]
    else
      DivModFacts(n, base);
      NatDigits(n / base, base) + [DigitChar(n % base)]
  }

  /** Division by a base of at least 2 shrinks a number that is at least the base. */
  lemma DivModFacts(n: nat, b: nat)
    requires 2 <= b && n >= b
    ensures n == b * (n / b) + n % b
    ensures 1 <= n / b < n
  {
    var q := n / b;
    assert q >= 1;
    var c: nat := b - 2;
    assert c * q >= 0;
    assert b * q == c * q + 2 * q;
  }

  lemma {:induction false} NatDigitsValue(n: nat, base: nat)
    requires 2 <= base <= 16
    ensures DigitsValue(NatDigits(n, base), base) == n
  {
    var s := NatDigits(n, base);
    if n < base {
      assert s[..0] == [];
    } else {
      var q, r := n / base, n % base;
      DivModFacts(n, base);
      var init := NatDigits(q, base);
      NatDigitsValue(q, base);
      assert s[..|s| - 1] == init;
      assert DigitValue(s[|s| - 1]) == r;
    }
  }

  /** `str(i)` for an int. */
  function Decimal(i: int): string
  {
    if i < 0 then "-" + NatDigits(-i, 10) else NatDigits(i, 10)
  }

  /** `str(i)` is plain ASCII. */
  lemma DecimalAscii(i: int)
    ensures forall k :: 0 <= k < |Decimal(i)| ==> Decimal(i)[k] as int < 128
  {
    var n: nat := if i < 0 then -i else i;
    var ds := NatDigits(n, 10);
    assert forall k :: 0 <= k < |ds| ==> IsDigitIn(ds[k], 10);
  }

  /** `s.isnumeric()`, ASCII part: a non-empty run of decimal digits. */
  predicate IsNumeric(s: string)
  {
    s != [] && forall i :: 0 <= i < |s| ==> '0' <= s[i] <= '9'
  }

  /** `int(s)` for a string that `IsNumeric` accepts. */
  function NumericValue(s: string): (v: nat)
    requires IsNumeric(s)
  {
    assert AllDigitsIn(s, 10);
    DigitsValue(s, 10)
  }

  /** The decimal text of a natural number reads back as that number. */
  lemma DecimalRoundTrip(n: nat)
    ensures IsNumeric(Decimal(n)) && NumericValue(Decimal(n)) == n
  {
    var s := NatDigits(n, 10);
    NatDigitsValue(n, 10);
    assert forall i :: 0 <= i < |s| ==> IsDigitIn(s[i], 10);
    forall i | 0 <= i < |s| ensures '0' <= s[i] <= '9' {
      assert 0 <= DigitValue(s[i]) < 10;
    }
  }

  /** `str(i)` holds only digits and a leading minus sign, so no space and
      no line feed. */
  lemma DecimalNoSpace(i: int)
    ensures ' ' !in Decimal(i) && '\n' !in Decimal(i)
  {
    var n: nat := if i < 0 then -i else i;
    var ds := NatDigits(n, 10);
    assert forall k :: 0 <= k < |ds| ==> IsDigitIn(ds[k], 10);
    assert ' ' !in ds && '\n' !in ds;
  }

  /** A run of digits in which single underscores may separate two digits. */
  predicate UnderscoredDigits(d: string)
  {
    && d != []
    && DigitValue(d[0]) >= 0 && DigitValue(d[|d| - 1]) >= 0
    && (forall i :: 0 <= i < |d| ==> d[i] == '_' || IsDigitIn(d[i], 16))
    && (forall i :: 0 <= i < |d| - 1 ==> !(d[i] == '_' && d[i + 1] == '_'))
  }

  /** The sign and the digit part of an `int(s, 16)` literal, once stripped. */
  function HexBody(t: string): (string, bool)
  {
    if t != [] && (t[0] == '+' || t[0] == '-') then (t[1..], t[0] == '-') else (t, false)
  }

  /** `int(s, 16)`: surrounding whitespace, an optional sign, an optional
      0x/0X prefix (after which one underscore may follow), then hexadecimal
      digits separated by single underscores. Anything else raises ValueError. */
  function ParseHex(s: string): (r: Result<int>)
    ensures r.Raise? ==> r == Raise(ValueError)
  {
    var (u, negative) := HexBody(Strip(s, Whitespace));
    var hasPrefix := |u| >= 2 && u[0] == '0' && (u[1] == 'x' || u[1] == 'X');
    var d0 := if hasPrefix then u[2..] else u;
    var d := if hasPrefix && d0 != [] && d0[0] == '_' then d0[1..] else d0;
    if !UnderscoredDigits(d) then Raise(ValueError)
    else
      var digits := RemoveChar(d, '_');
      assert AllDigitsIn(digits, 16) by {
        forall i | 0 <= i < |digits| ensures IsDigitIn(digits[i], 16) {
          assert digits[i] in multiset(digits);
          assert digits[i] in multiset(d);
        }
      }
      var v: int := DigitsValue(digits, 16);
      Ok(if negative then -v else v)
  }

  /** `hex`-style rendering used as the reference for `ParseHex`: lower-case
      digits, a minus sign for negatives, no prefix. */
  function HexText(v: int): string
  {
    if v < 0 then "-" + NatDigits(-v, 16) else NatDigits(v, 16)
  }

  lemma RemoveCharAbsent(s: string, c: char)
    requires c !in s
    ensures RemoveChar(s, c) == s
  {
  }

  /** Every integer's hexadecimal text is read back by `int(s, 16)` as that integer. */
  lemma HexRoundTrip(v: int)
    ensures ParseHex(HexText(v)) == Ok(v)
  {
    var n: nat := if v < 0 then -v else v;
    var ds := NatDigits(n, 16);
    NatDigitsValue(n, 16);
    var t := HexText(v);
    HexTextShape(v);
    assert HexBody(t) == (ds, v < 0);
    assert !(|ds| >= 2 && ds[0] == '0' && (ds[1] == 'x' || ds[1] == 'X')) by {
      assert IsDigitIn(ds[|ds| - 1], 16);
      if |ds| >= 2 { assert IsDigitIn(ds[1], 16); }
    }
    assert UnderscoredDigits(ds) by {
      assert forall i :: 0 <= i < |ds| ==> IsDigitIn(ds[i], 16);
    }
    RemoveCharAbsent(ds, '_');
  }

  /** Hexadecimal text has no whitespace, so stripping leaves it alone. */
  lemma HexTextShape(v: int)
    ensures Strip(HexText(v), Whitespace) == HexText(v)
    ensures '_' !in NatDigits(if v < 0 then -v else v, 16)
  {
    var n: nat := if v < 0 then -v else v;
    var ds := NatDigits(n, 16);
    var t := HexText(v);
    forall i | 0 <= i < |ds| ensures ds[i] !in Whitespace && ds[i] != '_' {
      assert IsDigitIn(ds[i], 16);
    }
    forall i | 0 <= i < |t| ensures t[i] !in Whitespace {
      if v < 0 && i > 0 { assert t[i] == ds[i - 1]; }
    }
  }

  // ---------------------------------------------------------------------------
  // Float literals

  /** Decimal digits in which single underscores may separate two digits. */
  predicate DecimalDigitPart(d: string)
  {
    && d != []
    && '0' <= d[0] <= '9' && '0' <= d[|d| - 1] <= '9'
    && (forall i :: 0 <= i < |d| ==> d[i] == '_' || '0' <= d[i] <= '9')
    && (forall i :: 0 <= i < |d| - 1 ==> !(d[i] == '_' && d[i + 1] == '_'))
  }

  /** A mantissa: `digits`, `digits.`, `digits.digits` or `.digits`. */
  predicate Mantissa(m: string)
  {
    var k := FirstIndex(m, '.');
    if k == |m| then DecimalDigitPart(m)
    else
      var whole, frac := m[..k], m[k + 1..];
      (whole == [] || DecimalDigitPart(whole)) && (frac == [] || DecimalDigitPart(frac))
      && (whole != [] || frac != [])
  }

  /** An exponent after `e`/`E`: an optional sign, then digits. */
  predicate Exponent(e: string)
  {
    var d := if e != [] && (e[0] == '+' || e[0] == '-') then e[1..] else e;
    DecimalDigitPart(d)
  }

  function FirstExponentMark(s: string): (k: nat)
    ensures k <= |s|
    ensures k < |s| ==> s[k] == 'e' || s[k] == 'E'
  {
    if s == [] || s[0] == 'e' || s[0] == 'E' then 0 else 1 + FirstExponentMark(s[1..])
  }

  /** The strings `float(s)` accepts: surrounding whitespace, an optional sign,
      then `inf`, `infinity` or `nan` in any case, or a decimal literal with an
      optional exponent. Anything else raises ValueError. */
  predicate IsFloatLiteral(s: string)
  {
    var t := Strip(s, Whitespace);
    var u := if t != [] && (t[0] == '+' || t[0] == '-') then t[1..] else t;
    var k := FirstExponentMark(u);
    || Lower(u) in {"inf", "infinity", "nan"}
    || (Mantissa(u[..k]) && (k == |u| || Exponent(u[k + 1..])))
  }
}
