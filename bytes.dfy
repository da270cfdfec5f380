/** Bytes and fixed-width unsigned integers, as Python's `struct` lays them out.

    A wire byte is an integer in [0, 256). `LeValue`/`BeValue` read an unsigned
    integer from a run of bytes (little- and big-endian), `LeBytes`/`BeBytes`
    write one, and the lemmas below prove that the two directions are inverse. */
module Bytes {

  type byte = x: int | 0 <= x < 256

  /** 256 to the power n: the number of values n bytes can hold. */
  function Pow256(n: nat): (r: nat)
    ensures r >= 1
  {
    if n == 0 then 1 else 256 * Pow256(n - 1)
  }

  lemma Pow256Add(a: nat, b: nat)
    ensures Pow256(a + b) == Pow256(a) * Pow256(b)
  {
    if a > 0 {
      Pow256Add(a - 1, b);
    }
  }

  /** Unsigned little-endian value of `s` (s[0] is the least significant byte). */
  function LeValue(s: seq<byte>): nat
  {
    if s == [] then 0 else s[0] + 256 * LeValue(s[1..])
  }

  /** The `n` little-endian bytes of `v`. */
  function LeBytes(v: nat, n: nat): (r: seq<byte>)
    ensures |r| == n
  {
    if n == 0 then [] else [v % 256] + LeBytes(v / 256, n - 1)
  }

  /** Unsigned big-endian value of `s` (s[0] is the most significant byte). */
  function BeValue(s: seq<byte>): nat
  {
    if s == [] then 0 else 256 * BeValue(s[..|s| - 1]) + s[|s| - 1]
  }

  /** The `n` big-endian bytes of `v`. */
  function BeBytes(v: nat, n: nat): (r: seq<byte>)
    ensures |r| == n
  {
    if n == 0 then [] else BeBytes(v / 256, n - 1) + [v % 256]
  }

  lemma {:induction false} LeValueBound(s: seq<byte>)
    ensures LeValue(s) < Pow256(|s|)
  {
    if s != [] {
      LeValueBound(s[1..]);
    }
  }

  lemma {:induction false} BeValueBound(s: seq<byte>)
    ensures BeValue(s) < Pow256(|s|)
  {
    if s != [] {
      BeValueBound(s[..|s| - 1]);
    }
  }

  /** Writing a value that fits and reading it back gives the value. */
  lemma {:induction false} LeRoundTrip(v: nat, n: nat)
    requires v < Pow256(n)
    ensures LeValue(LeBytes(v, n)) == v
  {
    if n > 0 {
      LeRoundTrip(v / 256, n - 1);
      assert LeBytes(v, n)[1..] == LeBytes(v / 256, n - 1);
    }
  }

  /** Reading bytes and writing the value back at the same width gives the bytes. */
  lemma {:induction false} LeBytesOfValue(s: seq<byte>)
    ensures LeBytes(LeValue(s), |s|) == s
  {
    if s != [] {
      LeBytesOfValue(s[1..]);
      assert (s[0] + 256 * LeValue(s[1..])) / 256 == LeValue(s[1..]);
    }
  }

  lemma {:induction false} BeRoundTrip(v: nat, n: nat)
    requires v < Pow256(n)
    ensures BeValue(BeBytes(v, n)) == v
  {
    if n > 0 {
      BeRoundTrip(v / 256, n - 1);
      var r := BeBytes(v, n);
      assert r[..|r| - 1] == BeBytes(v / 256, n - 1);
    }
  }

  lemma {:induction false} BeBytesOfValue(s: seq<byte>)
    ensures BeBytes(BeValue(s), |s|) == s
  {
    if s != [] {
      var init := s[..|s| - 1];
      BeBytesOfValue(init);
      assert (256 * BeValue(init) + s[|s| - 1]) / 256 == BeValue(init);
      assert s == init + [s[|s| - 1]];
    }
  }

  /** A little-endian value splits at any byte boundary. */
  lemma {:induction false} LeValueAppend(a: seq<byte>, b: seq<byte>)
    ensures LeValue(a + b) == LeValue(a) + Pow256(|a|) * LeValue(b)
  {
    if a == [] {
      assert a + b == b;
    } else {
      assert (a + b)[1..] == a[1..] + b;
      var p, lb := Pow256(|a| - 1), LeValue(b);
      calc {
        LeValue(a + b);
        a[0] + 256 * LeValue(a[1..] + b);
        { LeValueAppend(a[1..], b); }
        a[0] + 256 * (LeValue(a[1..]) + p * lb);
        { ScaleSum(LeValue(a[1..]), p, lb); }
        a[0] + 256 * LeValue(a[1..]) + (256 * p) * lb;
        LeValue(a) + Pow256(|a|) * lb;
      }
    }
  }

  lemma ScaleSum(x: int, y: int, z: int)
    ensures 256 * (x + y * z) == 256 * x + (256 * y) * z
  {
  }

  /** Appending zero bytes at the high end leaves a little-endian value unchanged. */
  lemma {:induction false} LeValueZeroExtend(a: seq<byte>, k: nat)
    ensures LeValue(a + seq(k, _ => 0)) == LeValue(a)
  {
    LeValueAppend(a, seq(k, _ => 0));
    ZerosValue(k);
  }

  lemma {:induction false} ZerosValue(k: nat)
    ensures LeValue(seq(k, _ => 0)) == 0
  {
    if k > 0 {
      assert seq(k, _ => 0)[1..] == seq(k - 1, _ => 0);
      ZerosValue(k - 1);
    }
  }
}
