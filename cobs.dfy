/** Consistent Overhead Byte Stuffing (Cheshire and Baker, IEEE/ACM Transactions
    on Networking, 1999), as the Python `cobs` package implements `cobs.encode`
    and `cobs.decode`.

    The encoding splits the input at its zero bytes into blocks. Each block is
    written as a code byte (the block length plus one) followed by the block's
    nonzero bytes. A run of 254 nonzero bytes is written with code 0xFF and no
    implied zero. The output therefore holds no zero byte, so a zero can mark the
    end of a frame on the wire. */
module Cobs {
  import opened Wrappers
  import opened Bytes

  /** Length of the leading run of nonzero bytes, capped at 254. */
  function Run(s: seq<byte>): (k: nat)
    ensures k <= |s| && k <= 254
    ensures forall i :: 0 <= i < k ==> s[i] != 0
    ensures k < |s| && k < 254 ==> s[k] == 0
  {
    RunFrom(s, 0)
  }

  function RunFrom(s: seq<byte>, i: nat): (k: nat)
    requires i <= |s| && i <= 254
    requires forall j :: 0 <= j < i ==> s[j] != 0
    ensures i <= k <= |s| && k <= 254
    ensures forall j :: 0 <= j < k ==> s[j] != 0
    ensures k < |s| && k < 254 ==> s[k] == 0
    decreases |s| - i
  {
    if i == |s| || i == 254 || s[i] == 0 then i else RunFrom(s, i + 1)
  }

  /** The encoder, block by block. `finalZero` says whether the input so far
      ended with a zero byte (or is the whole input), in which case an empty
      remainder still needs its own block. */
  function Enc(s: seq<byte>, finalZero: bool): seq<byte>
    decreases |s|
  {
    var r := Run(s);
    if r == 254 then [255] + s[..254] + Enc(s[254..], false)
    else if r < |s| then [r + 1] + s[..r] + Enc(s[r + 1..], true)
    else if |s| > 0 || finalZero then [|s| + 1] + s
    else []
  }

  /** `cobs.encode`. */
  function Encode(s: seq<byte>): seq<byte>
  {
    Enc(s, true)
  }

  /** `cobs.decode` on a nonempty input; `None` stands for `cobs.DecodeError`
      (a zero byte in the input, or a code that runs past its end). */
  function DecodeBlocks(s: seq<byte>): Option<seq<byte>>
    requires s != []
    decreases |s|
  {
    var code := s[0] as int;
    if code == 0 then None
    else if code > |s| then None
    else
      var data := s[1..code];
      if !NoZero(data) then None
      else if code == |s| then Some(data)
      else
        match DecodeBlocks(s[code..])
        case None => None
        case Some(rest) => Some(data + (if code < 255 then [0] else []) + rest)
  }

  predicate NoZero(s: seq<byte>)
  {
    forall i :: 0 <= i < |s| ==> s[i] != 0
  }

  /** `cobs.decode`: the empty input decodes to the empty output. */
  function Decode(s: seq<byte>): Option<seq<byte>>
  {
    if s == [] then Some([]) else DecodeBlocks(s)
  }

  // ---------------------------------------------------------------------------
  // Laws

  /** No encoded byte is zero. */
  lemma {:induction false} EncNoZero(s: seq<byte>, finalZero: bool)
    ensures forall i :: 0 <= i < |Enc(s, finalZero)| ==> Enc(s, finalZero)[i] != 0
    decreases |s|
  {
    var r := Run(s);
    if r == 254 {
      EncNoZero(s[254..], false);
    } else if r < |s| {
      EncNoZero(s[r + 1..], true);
    }
  }

  lemma EncodeNoZero(s: seq<byte>)
    ensures forall i :: 0 <= i < |Encode(s)| ==> Encode(s)[i] != 0
  {
    EncNoZero(s, true);
  }

  /** Encoding adds one byte, plus one per further 254-byte run. */
  lemma {:induction false} EncLength(s: seq<byte>, finalZero: bool)
    ensures |Enc(s, finalZero)| <= |s| + 1 + |s| / 254
    ensures finalZero || s != [] ==> |Enc(s, finalZero)| >= |s| + 1
    decreases |s|
  {
    var r := Run(s);
    if r == 254 {
      EncLength(s[254..], false);
    } else if r < |s| {
      EncLength(s[r + 1..], true);
    }
  }

  lemma EncodeLength(s: seq<byte>)
    ensures |s| + 1 <= |Encode(s)| <= |s| + 1 + |s| / 254
  {
    EncLength(s, true);
  }

  /** Decoding a final block gives its data. */
  lemma DecodeLastBlock(data: seq<byte>)
    requires |data| < 255 && forall i :: 0 <= i < |data| ==> data[i] != 0
    ensures DecodeBlocks([|data| + 1] + data) == Some(data)
  {
    LastBlock([|data| + 1] + data, data);
  }

  /** A block whose code byte spans the whole input. */
  lemma LastBlock(e: seq<byte>, data: seq<byte>)
    requires e != [] && e[0] as int == |e| && e[1..] == data && NoZero(data)
    ensures DecodeBlocks(e) == Some(data)
  {
    assert e[1..e[0]] == e[1..];
  }

  /** Decoding a block followed by more blocks. */
  lemma DecodeBlock(data: seq<byte>, tail: seq<byte>, rest: seq<byte>)
    requires |data| < 255 && forall i :: 0 <= i < |data| ==> data[i] != 0
    requires tail != [] && DecodeBlocks(tail) == Some(rest)
    ensures DecodeBlocks([|data| + 1] + data + tail) ==
      Some(data + (if |data| < 254 then [0] else []) + rest)
  {
    var code: byte := |data| + 1;
    var e: seq<byte> := [code] + data + tail;
    assert e[0] as int == |data| + 1 < |e|;
    assert e[1..|data| + 1] == data;
    assert e[|data| + 1..] == tail;
    assert NoZero(data);
  }

  /** Decoding an encoding gives back the input. */
  lemma {:induction false} DecodeEnc(s: seq<byte>, finalZero: bool)
    requires finalZero || s != []
    ensures Enc(s, finalZero) != [] && DecodeBlocks(Enc(s, finalZero)) == Some(s)
    decreases |s|
  {
    var r := Run(s);
    if r == 254 && s[254..] != [] {
      DecodeEnc(s[254..], false);
      FullRunStep(s, finalZero);
    } else if r < 254 && r < |s| {
      DecodeEnc(s[r + 1..], true);
      ZeroStep(s, finalZero);
    } else {
      LastStep(s, finalZero);
    }
  }

  /** A run of 254 nonzero bytes followed by more input. */
  lemma FullRunStep(s: seq<byte>, finalZero: bool)
    requires Run(s) == 254 && s[254..] != []
    requires Enc(s[254..], false) != [] && DecodeBlocks(Enc(s[254..], false)) == Some(s[254..])
    ensures Enc(s, finalZero) != [] && DecodeBlocks(Enc(s, finalZero)) == Some(s)
  {
    assert Enc(s, finalZero) == [255] + s[..254] + Enc(s[254..], false);
    DecodeBlock(s[..254], Enc(s[254..], false), s[254..]);
    assert |s[..254]| == 254;
    assert s == s[..254] + [] + s[254..];
  }

  /** A run ended by a zero byte. */
  lemma ZeroStep(s: seq<byte>, finalZero: bool)
    requires Run(s) < 254 && Run(s) < |s|
    requires Enc(s[Run(s) + 1..], true) != [] && DecodeBlocks(Enc(s[Run(s) + 1..], true)) == Some(s[Run(s) + 1..])
    ensures Enc(s, finalZero) != [] && DecodeBlocks(Enc(s, finalZero)) == Some(s)
  {
    var r := Run(s);
    var data, tail := s[..r], s[r + 1..];
    assert Enc(s, finalZero) == [r + 1] + data + Enc(tail, true);
    assert forall i :: 0 <= i < |data| ==> data[i] != 0;
    DecodeBlock(data, Enc(tail, true), tail);
    SplitAround(s, r);
  }

  /** A sequence is what comes before a position, the element there, and
      what follows. */
  lemma SplitAround(s: seq<byte>, k: nat)
    requires k < |s|
    ensures s == s[..k] + [s[k]] + s[k + 1..]
  {
  }

  /** The last block: the rest of the input, at most 254 nonzero bytes. */
  lemma LastStep(s: seq<byte>, finalZero: bool)
    requires finalZero || s != []
    requires Run(s) == |s| || (Run(s) == 254 && s[254..] == [])
    ensures Enc(s, finalZero) != [] && DecodeBlocks(Enc(s, finalZero)) == Some(s)
  {
    if Run(s) == 254 {
      assert s == s[..254];
      assert Enc(s, finalZero) == [255] + s[..254] + [];
      DecodeLastBlock(s[..254]);
    } else {
      assert Enc(s, finalZero) == [|s| + 1] + s;
      DecodeLastBlock(s);
    }
  }

  lemma DecodeEncode(s: seq<byte>)
    ensures Decode(Encode(s)) == Some(s)
  {
    DecodeEnc(s, true);
  }
}
