/** The hit-frame layout of the wuBase binary data stream (pywub/parser.py).

    A frame is an 18-byte little-endian header (number of samples, hit number,
    48-bit FPGA timestamp, 64-bit TDC word) followed by `nsamples` pairs of
    16-bit ADC samples, 4 bytes per sample. On the raw stream a frame is
    preceded by the start byte 0x21. */
module Parser {
  import opened Wrappers
  import opened Bytes

  const StartByte: byte := 0x21

  const StartByteWidth: nat := 1
  const NsamplesWidth: nat := 2
  const HitNumberWidth: nat := 2
  const FpgaTsWidth: nat := 6
  const FpgaTdcWidth: nat := 8

  const NsamplesOffset: nat := 0
  const HitNumberOffset: nat := NsamplesOffset + NsamplesWidth
  const FpgaTsOffset: nat := HitNumberOffset + HitNumberWidth
  const FpgaTdcOffset: nat := FpgaTsOffset + FpgaTsWidth
  const AdcDataOffset: nat := FpgaTdcOffset + FpgaTdcWidth

  const HeaderSize: nat := NsamplesWidth + HitNumberWidth + FpgaTsWidth + FpgaTdcWidth

  /** The header fields sit back to back, and the ADC data starts right after them. */
  lemma Layout()
    ensures HeaderSize == 18 && AdcDataOffset == HeaderSize
    ensures NsamplesOffset == 0 && HitNumberOffset == 2 && FpgaTsOffset == 4 && FpgaTdcOffset == 10
  {
  }

  /** The decoded header of one hit frame. */
  datatype Header = Header(nsamples: nat, frameId: nat, timestamp: nat, tdc: nat)

  /** Bytes of ADC data that follow a header announcing `nsamples` samples:
      two channels of 16-bit samples. */
  function CalcPayloadSize(nsamples: int): (r: int)
    ensures nsamples >= 0 ==> r >= 0
    ensures r % 4 == 0 && r / 4 == nsamples
  {
    2 * 2 * nsamples
  }

  /** Bytes of a whole frame. */
  function CalcFrameSize(nsamples: int): (r: int)
    ensures r == HeaderSize + CalcPayloadSize(nsamples)
    ensures nsamples >= 0 ==> r >= 18
  {
    NsamplesWidth + HitNumberWidth + FpgaTsWidth + FpgaTdcWidth + CalcPayloadSize(nsamples)
  }

  /** Every frame size determines its sample count, and the sizes grow by 4. */
  lemma FrameSizeLaws(n: int, m: int)
    ensures CalcFrameSize(n) == 18 + 4 * n
    ensures CalcFrameSize(n) == CalcFrameSize(m) <==> n == m
    ensures CalcFrameSize(n + 1) == CalcFrameSize(n) + 4
  {
  }

  /** The little-endian 16-bit value of a low and a high byte. */
  function U16(lo: byte, hi: byte): nat
  {
    lo as int + 256 * hi as int
  }

  lemma LeValue2(d: seq<byte>)
    requires |d| == 2
    ensures LeValue(d) == U16(d[0], d[1]) < 65536
  {
    var t := d[1..];
    assert t[0] == d[1] && t[1..] == [];
    assert LeValue(t) == d[1] as int;
    assert LeValue(d) == d[0] as int + 256 * LeValue(t);
  }

  /** `struct.unpack("<H", d)[0]`: only exactly two bytes decode. */
  function UnpackNsamples(d: seq<byte>): (r: Result<nat>)
    ensures r.Ok? <==> |d| == 2
    ensures r.Ok? ==> r.value < 65536 && r.value == U16(d[0], d[1])
  {
    if |d| != 2 then Raise(StructError)
    else
      LeValue2(d);
      Ok(LeValue(d))
  }

  /** The header with the two zero bytes that widen the 48-bit timestamp to
      64 bits inserted after byte 10 (Python's `bytearray.insert` appends when
      the index is past the end). */
  function Widen(h: seq<byte>): (w: seq<byte>)
    ensures |w| == |h| + 2
  {
    if |h| >= 10 then h[..10] + [0, 0] + h[10..] else h + [0, 0]
  }

  /** `unpack_header`: `struct.unpack("<HHQQ")` of the widened header, which
      succeeds only when the widened header has 20 bytes. */
  function UnpackHeader(h: seq<byte>): (r: Result<Header>)
    ensures r.Ok? <==> |h| == HeaderSize
    ensures !r.Ok? ==> r == Raise(StructError)
    ensures r.Ok? ==>
      && r.value.nsamples == LeValue(h[0..2])
      && r.value.frameId == LeValue(h[2..4])
      && r.value.timestamp == LeValue(h[4..10])
      && r.value.tdc == LeValue(h[10..18])
      && r.value.timestamp < Pow256(6)
  {
    var w := Widen(h);
    if |w| != 20 then Raise(StructError)
    else
      var hd := Header(LeValue(w[0..2]), LeValue(w[2..4]), LeValue(w[4..12]), LeValue(w[12..20]));
      TimestampWidening(h);
      Ok(hd)
  }

  /** The widened timestamp field reads the same value as the six bytes it came from. */
  lemma TimestampWidening(h: seq<byte>)
    requires |h| == 18
    ensures Widen(h)[0..2] == h[0..2] && Widen(h)[2..4] == h[2..4] && Widen(h)[12..20] == h[10..18]
    ensures LeValue(Widen(h)[4..12]) == LeValue(h[4..10]) < Pow256(6)
  {
    var w := Widen(h);
    assert w[4..12] == h[4..10] + seq(2, _ => 0);
    LeValueZeroExtend(h[4..10], 2);
    LeValueBound(h[4..10]);
  }

  /** A header whose fields fit their widths. */
  predicate FitsLayout(hd: Header)
  {
    hd.nsamples < Pow256(2) && hd.frameId < Pow256(2) && hd.timestamp < Pow256(6) && hd.tdc < Pow256(8)
  }

  /** The 18 bytes the firmware sends for a header. */
  function LayoutHeader(hd: Header): (h: seq<byte>)
    requires FitsLayout(hd)
    ensures |h| == HeaderSize
  {
    LeBytes(hd.nsamples, 2) + LeBytes(hd.frameId, 2) + LeBytes(hd.timestamp, 6) + LeBytes(hd.tdc, 8)
  }

  /** Laying a header out and unpacking it gives the header back. */
  lemma HeaderRoundTrip(hd: Header)
    requires FitsLayout(hd)
    ensures UnpackHeader(LayoutHeader(hd)) == Ok(hd)
  {
    var h := LayoutHeader(hd);
    assert h[0..2] == LeBytes(hd.nsamples, 2);
    assert h[2..4] == LeBytes(hd.frameId, 2);
    assert h[4..10] == LeBytes(hd.timestamp, 6);
    assert h[10..18] == LeBytes(hd.tdc, 8);
    LeRoundTrip(hd.nsamples, 2);
    LeRoundTrip(hd.frameId, 2);
    LeRoundTrip(hd.timestamp, 6);
    LeRoundTrip(hd.tdc, 8);
  }

  /** Every 18-byte header is the layout of the header it unpacks to. */
  lemma LayoutOfUnpacked(h: seq<byte>)
    requires |h| == HeaderSize
    ensures UnpackHeader(h).Ok? && FitsLayout(UnpackHeader(h).value)
    ensures LayoutHeader(UnpackHeader(h).value) == h
  {
    LeBytesOfValue(h[0..2]);
    LeBytesOfValue(h[2..4]);
    LeBytesOfValue(h[4..10]);
    LeBytesOfValue(h[10..18]);
    LeValueBound(h[0..2]);
    LeValueBound(h[2..4]);
    LeValueBound(h[10..18]);
    assert h == h[0..2] + h[2..4] + h[4..10] + h[10..18];
  }

  /** `unpack_nsamples` of a header's first two bytes agrees with `unpack_header`. */
  lemma NsamplesAgree(h: seq<byte>)
    requires |h| == HeaderSize
    ensures UnpackNsamples(h[..2]).Ok? && UnpackNsamples(h[..2]).value == UnpackHeader(h).value.nsamples
  {
    assert h[..2] == h[0..2];
    LeValue2(h[0..2]);
  }

  /** `unpack_payload`: `len(payload) // 2` little-endian u16 values; the format
      must cover the payload exactly, so an odd length raises. */
  function UnpackPayload(p: seq<byte>): (r: Result<seq<nat>>)
    ensures r.Ok? <==> |p| % 2 == 0
    ensures r.Ok? ==> |r.value| == |p| / 2
    ensures r.Ok? ==> forall i :: 0 <= i < |r.value| ==> r.value[i] == U16(p[2 * i], p[2 * i + 1])
  {
    if |p| % 2 != 0 then Raise(StructError)
    else Ok(seq(|p| / 2, i requires 0 <= i < |p| / 2 => U16(p[2 * i], p[2 * i + 1])))
  }

  /** What the firmware sends for a list of samples. */
  function LayoutPayload(samples: seq<nat>): (p: seq<byte>)
    requires forall i :: 0 <= i < |samples| ==> samples[i] < 65536
    ensures |p| == 2 * |samples|
  {
    if samples == [] then [] else LeBytes(samples[0], 2) + LayoutPayload(samples[1..])
  }

  lemma {:induction false} PayloadRoundTrip(samples: seq<nat>)
    requires forall i :: 0 <= i < |samples| ==> samples[i] < 65536
    ensures UnpackPayload(LayoutPayload(samples)) == Ok(samples)
  {
    var p := LayoutPayload(samples);
    var r := UnpackPayload(p).value;
    assert |r| == |samples|;
    forall i | 0 <= i < |samples|
      ensures r[i] == samples[i]
    {
      PayloadAt(samples, i);
    }
    assert r == samples;
  }

  lemma {:induction false} PayloadAt(samples: seq<nat>, i: nat)
    requires forall k :: 0 <= k < |samples| ==> samples[k] < 65536
    requires i < |samples|
    ensures U16(LayoutPayload(samples)[2 * i], LayoutPayload(samples)[2 * i + 1]) == samples[i]
  {
    var p := LayoutPayload(samples);
    var b := LeBytes(samples[0], 2);
    assert p == b + LayoutPayload(samples[1..]);
    if i == 0 {
      LeRoundTrip(samples[0], 2);
      LeValue2(b);
    } else {
      PayloadAt(samples[1..], i - 1);
    }
  }

  /** What `parse_single_raw_hit` reports: `False`, `0` or `True`. */
  datatype HitOutcome =
    | NoStartByte          // returns False
    | Truncated            // returns 0: fewer payload bytes than announced
    | Parsed(header: Header, samples: seq<nat>)   // returns True

  /** `parse_single_raw_hit`: start byte, 18-byte header, then 4·nsamples payload
      bytes; anything after the payload is ignored. An empty input makes
      `int('', 16)` raise, and a header cut short makes the unpack raise. */
  function ParseSingleRawHit(d: seq<byte>): (r: Result<HitOutcome>)
    ensures d == [] ==> r == Raise(ValueError)
    ensures d != [] && d[0] != StartByte ==> r == Ok(NoStartByte)
    ensures d != [] && d[0] == StartByte && |d| < 1 + HeaderSize ==> r == Raise(StructError)
    ensures r.Ok? && r.value.Parsed? ==>
      && |d| >= 1 + CalcFrameSize(r.value.header.nsamples)
      && UnpackHeader(d[1..19]) == Ok(r.value.header)
      && |r.value.samples| == 2 * r.value.header.nsamples
  {
    if d == [] then Raise(ValueError)
    else if d[0] != StartByte then Ok(NoStartByte)
    else
      var hdr := d[1..Min(|d|, 1 + HeaderSize)];
      var hd :- UnpackHeader(hdr);
      ParsePayload(hd, d[1 + |hdr|..])
  }

  /** The rest of `parse_single_raw_hit` once the header unpacked: the payload
      is cut from the bytes after the header, and fewer bytes than announced
      report a truncated frame. */
  function ParsePayload(hd: Header, rest: seq<byte>): (r: Result<HitOutcome>)
    ensures r == Ok(Truncated) <==> |rest| < CalcPayloadSize(hd.nsamples)
    ensures r.Ok? && r.value.Parsed? ==>
      && r.value.header == hd && |rest| >= CalcPayloadSize(hd.nsamples)
      && UnpackPayload(rest[..CalcPayloadSize(hd.nsamples)]) == Ok(r.value.samples)
  {
    var size := CalcPayloadSize(hd.nsamples);
    var payload := rest[..Min(|rest|, size)];
    if |payload| != size then Ok(Truncated)
    else
      var samples :- UnpackPayload(payload);
      Ok(Parsed(hd, samples))
  }

  function Min(a: nat, b: nat): nat { if a <= b then a else b }

  /** A start byte followed by a laid-out frame parses to that frame, whatever
      follows it. */
  lemma ParseLaidOutHit(hd: Header, samples: seq<nat>, trailing: seq<byte>)
    requires FitsLayout(hd) && |samples| == 2 * hd.nsamples
    requires forall i :: 0 <= i < |samples| ==> samples[i] < 65536
    ensures ParseSingleRawHit([StartByte] + LayoutHeader(hd) + LayoutPayload(samples) + trailing)
      == Ok(Parsed(hd, samples))
  {
    var h := LayoutHeader(hd);
    var p := LayoutPayload(samples);
    HeaderRoundTrip(hd);
    PayloadRoundTrip(samples);
    ParseParts(h, p, trailing, hd, samples);
  }

  /** A start byte, header bytes unpacking to `hd` and payload bytes of the
      announced size unpacking to `samples` parse to that frame. */
  lemma ParseParts(h: seq<byte>, p: seq<byte>, trailing: seq<byte>, hd: Header, samples: seq<nat>)
    requires |h| == HeaderSize && UnpackHeader(h) == Ok(hd)
    requires |p| == CalcPayloadSize(hd.nsamples) && UnpackPayload(p) == Ok(samples)
    ensures ParseSingleRawHit([StartByte] + h + p + trailing) == Ok(Parsed(hd, samples))
  {
    FrameSlices(StartByte, h, p, trailing);
    ParseFrame([StartByte] + h + p + trailing, hd, samples);
  }

  lemma FrameSlices(b: byte, h: seq<byte>, p: seq<byte>, trailing: seq<byte>)
    ensures var d := [b] + h + p + trailing;
      d[0] == b && d[1..1 + |h|] == h && d[1 + |h|..1 + |h| + |p|] == p
  {
    var d := [b] + h + p + trailing;
    assert d[1..] == h + p + trailing;
    assert (h + p + trailing)[..|h|] == h;
    assert (h + p + trailing)[|h|..|h| + |p|] == p;
  }

  /** A start byte, a header unpacking to `hd` and a payload of the announced
      size unpacking to `samples` parse to that frame. */
  lemma ParseFrame(d: seq<byte>, hd: Header, samples: seq<nat>)
    requires |d| >= 1 + HeaderSize && d[0] == StartByte && UnpackHeader(d[1..19]) == Ok(hd)
    requires |d| >= 19 + CalcPayloadSize(hd.nsamples)
    requires UnpackPayload(d[19..19 + CalcPayloadSize(hd.nsamples)]) == Ok(samples)
    ensures ParseSingleRawHit(d) == Ok(Parsed(hd, samples))
  {
    assert d[19..][..CalcPayloadSize(hd.nsamples)] == d[19..19 + CalcPayloadSize(hd.nsamples)];
  }

  /** A start byte and a whole header with fewer payload bytes than announced
      report a truncated frame. */
  lemma ParseShortHit(d: seq<byte>)
    requires |d| >= 1 + HeaderSize && d[0] == StartByte
    requires |d| < 1 + CalcFrameSize(UnpackHeader(d[1..19]).value.nsamples)
    ensures ParseSingleRawHit(d) == Ok(Truncated)
  {
  }
}
