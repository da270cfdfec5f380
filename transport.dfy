/** The serial link as the host software sees it through pyserial.

    The device's output is a list of chunks: each chunk is what has arrived by
    the time of one read, and an empty chunk is a read that finds nothing (a
    read that times out, or a poll of an idle line). Reads take bytes from the
    head chunk only, so the chunking decides how the bytes are split between
    reads, but the bytes arrive in order and none is lost. Writes are logged. */
module Transport {
  import opened Wrappers
  import opened Bytes

  /** What the host wrote: bytes, or a `str` handed to `write` unencoded. */
  datatype Written = WroteBytes(data: seq<byte>) | WroteText(text: string)

  /** All bytes of a list of chunks, in order. */
  function Flatten(chunks: seq<seq<byte>>): seq<byte>
  {
    if chunks == [] then [] else chunks[0] + Flatten(chunks[1..])
  }

  /** Reads left before the source runs dry: one per chunk plus one per byte. */
  function Measure(chunks: seq<seq<byte>>): nat
  {
    if chunks == [] then 0 else |chunks[0]| + 1 + Measure(chunks[1..])
  }

  /** `bytes.decode()`: the model decodes ASCII only, so any byte of 128 or more
      raises UnicodeDecodeError, a ValueError. */
  function Decode(bs: seq<byte>): (r: Result<string>)
    ensures r.Ok? <==> forall i :: 0 <= i < |bs| ==> bs[i] < 128
    ensures r.Ok? ==> |r.value| == |bs| && forall i :: 0 <= i < |bs| ==> r.value[i] as int == bs[i]
    ensures !r.Ok? ==> r == Raise(ValueError)
  {
    if forall i :: 0 <= i < |bs| ==> bs[i] < 128 then
      Ok(seq(|bs|, i requires 0 <= i < |bs| => bs[i] as char))
    else Raise(ValueError)
  }

  predicate IsAscii(s: string)
  {
    forall i :: 0 <= i < |s| ==> s[i] as int < 128
  }

  /** `s.encode()` for ASCII text. */
  function Encode(s: string): (bs: seq<byte>)
    requires IsAscii(s)
    ensures |bs| == |s|
  {
    seq(|s|, i requires 0 <= i < |s| => s[i] as int as byte)
  }

  /** Decoding undoes encoding. */
  lemma DecodeEncode(s: string)
    requires IsAscii(s)
    ensures Decode(Encode(s)) == Ok(s)
  {
    var bs := Encode(s);
    assert forall i :: 0 <= i < |bs| ==> bs[i] < 128;
    var t := Decode(bs).value;
    forall i | 0 <= i < |s| ensures t[i] == s[i] {
      assert t[i] as int == bs[i] == s[i] as int;
    }
    assert t == s;
  }

  /** Decoding splits along a concatenation. */
  lemma DecodeAppend(a: seq<byte>, b: seq<byte>)
    requires Decode(a).Ok? && Decode(b).Ok?
    ensures Decode(a + b) == Ok(Decode(a).value + Decode(b).value)
  {
    var ab := a + b;
    assert forall i :: 0 <= i < |ab| ==> ab[i] < 128 by {
      forall i | 0 <= i < |ab| ensures ab[i] < 128 {
        if i < |a| { assert ab[i] == a[i]; } else { assert ab[i] == b[i - |a|]; }
      }
    }
    var t := Decode(ab).value;
    var u := Decode(a).value + Decode(b).value;
    assert |t| == |u|;
    forall i | 0 <= i < |t| ensures t[i] == u[i] {
      if i < |a| { assert ab[i] == a[i]; } else { assert ab[i] == b[i - |a|]; }
    }
    assert t == u;
  }

  /** Every byte is below 128. */
  predicate AsciiBytes(bs: seq<byte>)
  {
    forall i :: 0 <= i < |bs| ==> bs[i] < 128
  }

  /** Each byte as the character with its code. */
  function Chars(bs: seq<byte>): (s: string)
    ensures |s| == |bs|
  {
    seq(|bs|, i requires 0 <= i < |bs| => bs[i] as char)
  }

  lemma CharsDecode(bs: seq<byte>)
    ensures Decode(bs) == if AsciiBytes(bs) then Ok(Chars(bs)) else Raise(ValueError)
  {
  }

  lemma CharsAppend(a: seq<byte>, b: seq<byte>)
    ensures Chars(a + b) == Chars(a) + Chars(b)
    ensures AsciiBytes(a) && AsciiBytes(b) ==> AsciiBytes(a + b)
  {
    assert forall i :: 0 <= i < |a + b| ==> (a + b)[i] == if i < |a| then a[i] else b[i - |a|];
  }

  /** `text` is `bs` read as ASCII, one character per byte; the recursive
      form of a successful `Decode`. */
  predicate AsciiText(bs: seq<byte>, text: string)
  {
    && |bs| == |text|
    && (bs != [] ==> bs[0] < 128 && text[0] as int == bs[0] as int && AsciiText(bs[1..], text[1..]))
  }

  lemma {:induction false} AsciiTextChars(bs: seq<byte>, text: string)
    ensures AsciiText(bs, text) <==> AsciiBytes(bs) && text == Chars(bs)
  {
    if bs != [] && |bs| == |text| {
      AsciiTextChars(bs[1..], text[1..]);
      assert Chars(bs[1..]) == Chars(bs)[1..];
      assert AsciiBytes(bs) <==> bs[0] < 128 && AsciiBytes(bs[1..]) by {
        assert forall i :: 0 < i < |bs| ==> bs[i] == bs[1..][i - 1];
      }
      assert text == Chars(bs) <==> text[0] == Chars(bs)[0] && text[1..] == Chars(bs)[1..] by {
        if text[0] == Chars(bs)[0] && text[1..] == Chars(bs)[1..] {
          assert text == [text[0]] + text[1..] && Chars(bs) == [Chars(bs)[0]] + Chars(bs)[1..];
        }
      }
    }
  }

  lemma {:induction false} AsciiTextAppend(a: seq<byte>, ta: string, b: seq<byte>, tb: string)
    requires AsciiText(a, ta) && AsciiText(b, tb)
    ensures AsciiText(a + b, ta + tb)
  {
    if a != [] {
      AsciiTextAppend(a[1..], ta[1..], b, tb);
      assert (a + b)[1..] == a[1..] + b && (ta + tb)[1..] == ta[1..] + tb;
    } else {
      assert a + b == b && ta + tb == tb;
    }
  }

  /** The UTF-8 bytes of one character. */
  function CharUtf8(c: char): (bs: seq<byte>)
    ensures 1 <= |bs| <= 4
    ensures |bs| == 1 <==> c as int < 128
    ensures |bs| == 1 ==> bs[0] == c as int
    ensures |bs| > 1 ==> forall i :: 0 <= i < |bs| ==> bs[i] >= 128
  {
    var n := c as int;
    if n < 0x80 then [n]
    else if n < 0x800 then [0xC0 + n / 0x40, 0x80 + n % 0x40]
    else if n < 0x1_0000 then [0xE0 + n / 0x1000, 0x80 + n / 0x40 % 0x40, 0x80 + n % 0x40]
    else [0xF0 + n / 0x4_0000, 0x80 + n / 0x1000 % 0x40, 0x80 + n / 0x40 % 0x40, 0x80 + n % 0x40]
  }

  /** `s.encode()`: the UTF-8 bytes of the text, character by character. */
  function Utf8(s: string): (bs: seq<byte>)
    ensures |bs| >= |s|
  {
    if s == [] then [] else CharUtf8(s[0]) + Utf8(s[1..])
  }

  /** Encoding a concatenation concatenates the encodings. */
  lemma {:induction false} Utf8Append(a: string, b: string)
    ensures Utf8(a + b) == Utf8(a) + Utf8(b)
  {
    if a != [] {
      assert (a + b)[0] == a[0] && (a + b)[1..] == a[1..] + b;
      Utf8Append(a[1..], b);
    } else {
      assert a + b == b;
    }
  }

  /** ASCII text encodes one byte per character, as `Encode` has it. */
  lemma {:induction false} Utf8Ascii(s: string)
    requires IsAscii(s)
    ensures Utf8(s) == Encode(s)
  {
    if s != [] {
      assert IsAscii(s[1..]) by {
        forall i | 0 <= i < |s[1..]| ensures s[1..][i] as int < 128 {
          assert s[1..][i] == s[i + 1];
        }
      }
      Utf8Ascii(s[1..]);
      assert Encode(s) == [s[0] as int as byte] + Encode(s[1..]);
    }
  }

  /** A byte below 128 in the encoding comes from the same ASCII character of
      the text: a multi-byte character never yields one. */
  lemma {:induction false} Utf8AsciiByte(s: string, b: byte)
    requires b < 128 && b in Utf8(s)
    ensures b as char in s
  {
    var head := CharUtf8(s[0]);
    if b in head {
      assert |head| == 1;
    } else {
      assert b in Utf8(s[1..]);
      Utf8AsciiByte(s[1..], b);
    }
  }

  /** A pyserial port opened on the device. */
  class Port {
    /** The chunks the device will still deliver. */
    var pending: seq<seq<byte>>
    /** Everything written to the port so far. */
    var written: seq<Written>
    /** The port's `baudrate` attribute. */
    var rate: int

    constructor (chunks: seq<seq<byte>>, rate: int)
      ensures pending == chunks && written == [] && this.rate == rate
    {
      pending := chunks;
      written := [];
      this.rate := rate;
    }

    /** `in_waiting`: the bytes that have arrived and not yet been read. */
    function InWaiting(): nat
      reads this
    {
      if pending == [] then 0 else |pending[0]|
    }

    /** `read(size=n)`: up to `n` of the bytes that have arrived. A read that
        finds nothing returns no bytes and uses up that empty moment. */
    method Read(n: nat) returns (data: seq<byte>)
      modifies this`pending
      ensures data + Flatten(pending) == Flatten(old(pending))
      ensures |data| == Min(n, old(InWaiting()))
      ensures old(pending) != [] ==> data == old(pending)[0][..Min(n, |old(pending)[0]|)]
      ensures old(pending) != [] && n >= |old(pending)[0]| ==> pending == old(pending)[1..]
      ensures old(pending) != [] && n < |old(pending)[0]| ==>
        pending == [old(pending)[0][n..]] + old(pending)[1..]
      ensures Measure(pending) <= Measure(old(pending))
      ensures old(pending) != [] && (n > 0 || old(pending)[0] == []) ==> Measure(pending) < Measure(old(pending))
      ensures old(pending) == [] ==> pending == []
    {
      if pending == [] {
        return [];
      }
      var head := pending[0];
      assert Flatten(pending) == head + Flatten(pending[1..]);
      if head == [] {
        pending := pending[1..];
        return [];
      }
      var k := Min(n, |head|);
      data := head[..k];
      var rest := head[k..];
      if rest == [] {
        assert head == data;
        pending := pending[1..];
      } else {
        var tail := pending[1..];
        pending := [rest] + tail;
        assert pending[1..] == tail;
        assert head == data + rest;
      }
    }

    /** `read(size=in_waiting)`: everything that has arrived. */
    method ReadWaiting() returns (data: seq<byte>)
      modifies this`pending
      ensures old(pending) != [] ==> data == old(pending)[0] && pending == old(pending)[1..]
      ensures old(pending) == [] ==> data == [] && pending == []
    {
      if pending == [] {
        return [];
      }
      var head := pending[0];
      data := Read(|head|);
      assert head[..|head|] == head;
    }

    /** `read(size=in_waiting or 1)`: everything that has arrived, or one byte
        by blocking until the timeout. */
    method ReadWaitingOrOne() returns (data: seq<byte>)
      modifies this`pending
      ensures old(pending) != [] ==> data == old(pending)[0] && pending == old(pending)[1..]
      ensures old(pending) == [] ==> data == [] && pending == []
    {
      if pending == [] {
        return [];
      }
      var head := pending[0];
      data := Read(if |head| > 0 then |head| else 1);
      assert head[..|head|] == head;
    }

    /** `write(data)`: bytes are written and their count returned; a `str`
        is refused with TypeError before anything is written. */
    method Write(w: Written) returns (r: Result<nat>)
      modifies this`written
      ensures w.WroteBytes? ==> r == Ok(|w.data|) && written == old(written) + [w]
      ensures w.WroteText? ==> r == Raise(TypeError) && written == old(written)
    {
      if w.WroteText? {
        return Raise(TypeError);
      }
      written := written + [w];
      return Ok(|w.data|);
    }
  }

  function Min(a: nat, b: nat): nat
  {
    if a <= b then a else b
  }

  /** A data file opened by the caller (`datafile`). */
  class DataFile {
    var data: seq<byte>

    constructor ()
      ensures data == []
    {
      data := [];
    }

    method Write(bs: seq<byte>)
      modifies this
      ensures data == old(data) + bs
    {
      data := data + bs;
    }
  }
}
