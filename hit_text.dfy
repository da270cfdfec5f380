/** The line-driven reader of the V1 text hit format in the plotting scripts
    pywub/old/plot-spe-data.py and its copy
    pywub/.ipynb_checkpoints/plot-test-data-checkpoint.py.

    A hit in the text a data-taking script saved is a line "V1", a line with
    the number of samples, a line with the timestamp, a line with the TDC
    word, then the channel-1 samples and the channel-2 samples, all in
    hexadecimal and spread over as many lines as the device used. The reader
    is a state machine over the lines of each input file; it keeps the hits
    whose channel-1 waveform is not all zero, up to a display limit (100 in
    the first script, 1500 in the copy), and counts them all.

    Each counted hit then feeds a floating point analysis, which is not part
    of this model except where it raises. The analysis histograms channel 1
    in bins of width one from 300 to 400 and interpolates a pedestal around
    the fullest bin. The first script skips the analysis when the bins near
    the fullest one are all empty. The copy divides without that guard: when
    no channel-1 sample falls in 300..399 the pedestal is NaN, and filling a
    histogram with it raises ValueError. */
module HitText {
  import opened Wrappers
  import Text

  /** The largest sample count the reader accepts. */
  const MaxSamples: int := 256

  /** What tells the two scripts apart: how many hits they keep for display
      (`maxDisplayWaveforms`), and whether the pedestal is computed only when
      the bins around the fullest one are not all empty. */
  datatype Script = Script(maxKept: nat, pedestalGuarded: bool)

  /** pywub/old/plot-spe-data.py */
  const PlotSpe: Script := Script(100, true)
  /** pywub/.ipynb_checkpoints/plot-test-data-checkpoint.py */
  const PlotTestCheckpoint: Script := Script(1500, false)

  /** The range of the per-hit channel-1 histogram, `eventHist(300., 400., 100)`. */
  const PedestalLow: int := 300
  const PedestalHigh: int := 400

  /** Some channel-1 sample lands in the per-hit histogram, so its fullest
      bin is not empty. Samples are integers and the bins are one wide, so
      that is a sample in 300..399. */
  predicate PedestalBinned(ch1: seq<int>)
  {
    exists i :: 0 <= i < |ch1| && PedestalLow <= ch1[i] < PedestalHigh
  }

  /** `readstate`: which line the reader expects next. */
  datatype ReadState =
    | WaitForHit
    | NsamplesNext
    | TimestampNext
    | TdcwordNext
    | Ch1Next
    | Ch1InProgress
    | Ch2InProgress

  /** A saved hit: `(ch1, ch2, discraw, discsync)`. */
  datatype Hit = Hit(ch1: seq<int>, ch2: seq<int>, discraw: seq<int>, discsync: seq<int>)

  /** The reader's variables between two lines. */
  datatype Reader = Reader(
    readstate: ReadState,
    nsamples: int,
    timestamp: int,
    ch1: seq<int>,
    ch2: seq<int>,
    discraw: seq<int>,
    discsync: seq<int>,
    hitData: seq<Hit>,
    waveformCount: nat)

  /** The reader before the first file. */
  const Start: Reader := Reader(WaitForHit, 0, 0, [], [], [], [], [], 0)

  // ---------------------------------------------------------------------------
  // Sample words

  /** `raw & 0xfff`. Python's `&` treats a negative int as an endless two's
      complement, so for this mask it is the floor remainder, which is what
      `%` gives for a positive divisor. */
  function Low12(raw: int): (r: int)
    ensures 0 <= r < 4096
  {
    raw % 4096
  }

  /** `(raw >> 12) & 1`: `>>` divides rounding down, as `/` does here. */
  function Bit12(raw: int): (b: int)
    ensures b == 0 || b == 1
  {
    (raw / 4096) % 2
  }

  /** `(raw >> 13) & 1`. */
  function Bit13(raw: int): (b: int)
    ensures b == 0 || b == 1
  {
    (raw / 8192) % 2
  }

  /** The three fields taken from a channel-2 word are its low fourteen
      bits, and nothing else of it. */
  lemma Ch2Fields(raw: int)
    ensures raw % 16384 == Bit13(raw) * 8192 + Bit12(raw) * 4096 + Low12(raw)
  {
    var q := raw / 4096;
    var q2 := q / 2;
    var q4 := q2 / 2;
    assert raw == q * 4096 + Low12(raw);
    assert q == q2 * 2 + Bit12(raw);
    assert raw / 8192 == q2;
    assert q2 == q4 * 2 + Bit13(raw);
    assert raw == q4 * 16384 + (Bit13(raw) * 8192 + Bit12(raw) * 4096 + Low12(raw));
  }

  /** `max(xs)` of a non-empty list. */
  function Max(xs: seq<int>): (m: int)
    requires xs != []
    ensures m in xs && forall x :: x in xs ==> x <= m
  {
    if |xs| == 1 then xs[0]
    else
      var rest := Max(xs[1..]);
      assert forall x :: x in xs ==> x == xs[0] || x in xs[1..];
      if xs[0] >= rest then xs[0] else rest
  }

  // ---------------------------------------------------------------------------
  // The token loops

  /** Each token of a line read with `int(token, 16)`. */
  function Hex(tokens: seq<string>): (vals: seq<Result<int>>)
    ensures |vals| == |tokens|
  {
    seq(|tokens|, i requires 0 <= i < |tokens| => Text.ParseHex(tokens[i]))
  }

  /** Every value was read without error. */
  predicate AllOk(vals: seq<Result<int>>)
  {
    forall i :: 0 <= i < |vals| ==> vals[i].Ok?
  }

  /** The channel-1 token loop over the values read from the tokens: a value
      that could not be read raises (even one past the sample count), and
      while fewer than `nsamples` values are held a value's low twelve bits
      are appended. */
  function Ch1Tokens(ch1: seq<int>, vals: seq<Result<int>>, nsamples: int): Result<seq<int>>
    decreases |vals|
  {
    if vals == [] then Ok(ch1)
    else
      var raw :- vals[0];
      Ch1Tokens(if |ch1| >= nsamples then ch1 else ch1 + [Low12(raw)], vals[1..], nsamples)
  }

  /** The channel-2 token loop: as for channel 1, with the low twelve bits,
      bit 12 and bit 13 of each value appended to the three lists while
      channel 2 holds fewer than `nsamples`. */
  function Ch2Tokens(ch2: seq<int>, discraw: seq<int>, discsync: seq<int>, vals: seq<Result<int>>, nsamples: int)
    : Result<(seq<int>, seq<int>, seq<int>)>
    decreases |vals|
  {
    if vals == [] then Ok((ch2, discraw, discsync))
    else
      var raw :- vals[0];
      if |ch2| >= nsamples then Ch2Tokens(ch2, discraw, discsync, vals[1..], nsamples)
      else Ch2Tokens(ch2 + [Low12(raw)], discraw + [Bit12(raw)], discsync + [Bit13(raw)], vals[1..], nsamples)
  }

  /** The channel-1 loop from value `i` on: that value raises, or is taken
      (while there is room) before the loop goes on. */
  lemma Ch1Unroll(ch1: seq<int>, vals: seq<Result<int>>, i: nat, nsamples: int)
    requires i < |vals|
    ensures Ch1Tokens(ch1, vals[i..], nsamples)
         == match vals[i]
            case Raise(e) => Raise(e)
            case Ok(v) => Ch1Tokens(if |ch1| >= nsamples then ch1 else ch1 + [Low12(v)], vals[i + 1..], nsamples)
  {
    assert vals[i..][0] == vals[i] && vals[i..][1..] == vals[i + 1..];
  }

  /** The channel-2 loop from value `i` on. */
  lemma Ch2Unroll(ch2: seq<int>, discraw: seq<int>, discsync: seq<int>, vals: seq<Result<int>>, i: nat, nsamples: int)
    requires i < |vals|
    ensures Ch2Tokens(ch2, discraw, discsync, vals[i..], nsamples)
         == match vals[i]
            case Raise(e) => Raise(e)
            case Ok(v) =>
              if |ch2| >= nsamples then Ch2Tokens(ch2, discraw, discsync, vals[i + 1..], nsamples)
              else Ch2Tokens(ch2 + [Low12(v)], discraw + [Bit12(v)], discsync + [Bit13(v)], vals[i + 1..], nsamples)
  {
    assert vals[i..][0] == vals[i] && vals[i..][1..] == vals[i + 1..];
  }

  /** How many of `ntokens` values a list holding `held` of `nsamples` takes. */
  function Taken(held: nat, ntokens: nat, nsamples: int): (k: nat)
    ensures k <= ntokens
  {
    if held >= nsamples then 0
    else if held + ntokens <= nsamples then ntokens
    else nsamples - held
  }

  /** The first failure among `vals`. */
  function FirstFailure(vals: seq<Result<int>>): Exn
    requires !AllOk(vals)
  {
    if vals[0].Raise? then vals[0].exn
    else
      assert !AllOk(vals[1..]) by {
        var i :| 0 <= i < |vals| && vals[i].Raise?;
        assert vals[1..][i - 1] == vals[i];
      }
      FirstFailure(vals[1..])
  }

  /** The channel-1 loop raises exactly when a value could not be read,
      with that value's error; otherwise it appends the masked values of as
      many leading tokens as there is room for below `nsamples`, and drops
      the rest. */
  lemma {:induction false} Ch1TokensShape(ch1: seq<int>, vals: seq<Result<int>>, nsamples: int)
    ensures Ch1Tokens(ch1, vals, nsamples).Ok? <==> AllOk(vals)
    ensures !AllOk(vals) ==> Ch1Tokens(ch1, vals, nsamples) == Raise(FirstFailure(vals))
    ensures AllOk(vals) ==>
      var r := Ch1Tokens(ch1, vals, nsamples).value;
      var k := Taken(|ch1|, |vals|, nsamples);
      && |r| == |ch1| + k && r[..|ch1|] == ch1
      && forall i :: 0 <= i < k ==> r[|ch1| + i] == Low12(vals[i].value)
    decreases |vals|
  {
    if vals != [] {
      var rest := vals[1..];
      assert AllOk(vals) <==> vals[0].Ok? && AllOk(rest) by {
        assert forall i :: 0 < i < |vals| ==> vals[i] == rest[i - 1];
      }
      if vals[0].Ok? {
        var next := if |ch1| >= nsamples then ch1 else ch1 + [Low12(vals[0].value)];
        Ch1TokensShape(next, rest, nsamples);
        if AllOk(vals) && |ch1| < nsamples {
          var r := Ch1Tokens(ch1, vals, nsamples).value;
          var k := Taken(|ch1|, |vals|, nsamples);
          assert r == Ch1Tokens(next, rest, nsamples).value;
          assert r[..|next|] == next;
          assert r[..|ch1|] == r[..|next|][..|ch1|];
          forall i | 0 <= i < k
            ensures r[|ch1| + i] == Low12(vals[i].value)
          {
            if i == 0 {
              assert r[|ch1|] == r[..|next|][|ch1|];
            } else {
              assert vals[i] == rest[i - 1];
              assert r[|ch1| + i] == r[|next| + (i - 1)];
            }
          }
        }
      }
    }
  }

  /** The channel-2 loop raises exactly when a value could not be read;
      otherwise the three lists grow by the fields of as many leading values
      as channel 2 has room for below `nsamples`. */
  lemma {:induction false} Ch2TokensShape(ch2: seq<int>, discraw: seq<int>, discsync: seq<int>,
                                          vals: seq<Result<int>>, nsamples: int)
    ensures Ch2Tokens(ch2, discraw, discsync, vals, nsamples).Ok? <==> AllOk(vals)
    ensures !AllOk(vals) ==> Ch2Tokens(ch2, discraw, discsync, vals, nsamples) == Raise(FirstFailure(vals))
    ensures AllOk(vals) ==>
      var r := Ch2Tokens(ch2, discraw, discsync, vals, nsamples).value;
      var k := Taken(|ch2|, |vals|, nsamples);
      && |r.0| == |ch2| + k && |r.1| == |discraw| + k && |r.2| == |discsync| + k
      && r.0[..|ch2|] == ch2 && r.1[..|discraw|] == discraw && r.2[..|discsync|] == discsync
      && forall i :: 0 <= i < k ==>
           r.0[|ch2| + i] == Low12(vals[i].value) && r.1[|discraw| + i] == Bit12(vals[i].value)
           && r.2[|discsync| + i] == Bit13(vals[i].value)
    decreases |vals|
  {
    if vals != [] {
      var rest := vals[1..];
      assert AllOk(vals) <==> vals[0].Ok? && AllOk(rest) by {
        assert forall i :: 0 < i < |vals| ==> vals[i] == rest[i - 1];
      }
      if vals[0].Ok? {
        var v := vals[0].value;
        var room := |ch2| < nsamples;
        var c2 := if room then ch2 + [Low12(v)] else ch2;
        var dr := if room then discraw + [Bit12(v)] else discraw;
        var ds := if room then discsync + [Bit13(v)] else discsync;
        Ch2TokensShape(c2, dr, ds, rest, nsamples);
        if AllOk(vals) && room {
          Ch2ShapeTaken(ch2, discraw, discsync, vals, nsamples);
        }
      }
    }
  }

  /** The step of `Ch2TokensShape` where the first value is taken. */
  lemma Ch2ShapeTaken(ch2: seq<int>, discraw: seq<int>, discsync: seq<int>, vals: seq<Result<int>>, nsamples: int)
    requires vals != [] && AllOk(vals) && |ch2| < nsamples
    requires
      var v := vals[0].value;
      var r := Ch2Tokens(ch2 + [Low12(v)], discraw + [Bit12(v)], discsync + [Bit13(v)], vals[1..], nsamples);
      var k := Taken(|ch2| + 1, |vals| - 1, nsamples);
      && r.Ok?
      && |r.value.0| == |ch2| + 1 + k && |r.value.1| == |discraw| + 1 + k && |r.value.2| == |discsync| + 1 + k
      && r.value.0[..|ch2| + 1] == ch2 + [Low12(v)] && r.value.1[..|discraw| + 1] == discraw + [Bit12(v)]
      && r.value.2[..|discsync| + 1] == discsync + [Bit13(v)]
      && forall i :: 0 <= i < k ==>
           r.value.0[|ch2| + 1 + i] == Low12(vals[1..][i].value) && r.value.1[|discraw| + 1 + i] == Bit12(vals[1..][i].value)
           && r.value.2[|discsync| + 1 + i] == Bit13(vals[1..][i].value)
    ensures Ch2Tokens(ch2, discraw, discsync, vals, nsamples).Ok?
    ensures
      var r := Ch2Tokens(ch2, discraw, discsync, vals, nsamples).value;
      var k := Taken(|ch2|, |vals|, nsamples);
      && |r.0| == |ch2| + k && |r.1| == |discraw| + k && |r.2| == |discsync| + k
      && r.0[..|ch2|] == ch2 && r.1[..|discraw|] == discraw && r.2[..|discsync|] == discsync
      && forall i :: 0 <= i < k ==>
           r.0[|ch2| + i] == Low12(vals[i].value) && r.1[|discraw| + i] == Bit12(vals[i].value)
           && r.2[|discsync| + i] == Bit13(vals[i].value)
  {
    var v := vals[0].value;
    var rest := vals[1..];
    var c2, dr, ds := ch2 + [Low12(v)], discraw + [Bit12(v)], discsync + [Bit13(v)];
    var r := Ch2Tokens(ch2, discraw, discsync, vals, nsamples).value;
    var k := Taken(|ch2|, |vals|, nsamples);
    assert r == Ch2Tokens(c2, dr, ds, rest, nsamples).value;
    assert r.0[..|ch2|] == r.0[..|c2|][..|ch2|];
    assert r.1[..|discraw|] == r.1[..|dr|][..|discraw|];
    assert r.2[..|discsync|] == r.2[..|ds|][..|discsync|];
    forall i | 0 <= i < k
      ensures r.0[|ch2| + i] == Low12(vals[i].value) && r.1[|discraw| + i] == Bit12(vals[i].value)
              && r.2[|discsync| + i] == Bit13(vals[i].value)
    {
      if i == 0 {
        assert r.0[|ch2|] == r.0[..|c2|][|ch2|];
        assert r.1[|discraw|] == r.1[..|dr|][|discraw|];
        assert r.2[|discsync|] == r.2[..|ds|][|discsync|];
      } else {
        assert vals[i] == rest[i - 1];
      }
    }
  }

  // ---------------------------------------------------------------------------
  // One line

  /** What the reader does with one line in `script`; a raise ends the
      script. */
  function Next(s: Reader, line: string, script: Script): Result<Reader>
  {
    Step(s, Text.Words(line), script)
  }

  /** What the reader does with the whitespace-separated tokens of one line. */
  function Step(s: Reader, tokens: seq<string>, script: Script): Result<Reader>
  {
    match s.readstate
    case WaitForHit =>
      Ok(if tokens == ["V1"] then s.(readstate := NsamplesNext) else s)
    case NsamplesNext =>
      if |tokens| != 1 then Ok(s.(readstate := WaitForHit))
      else
        var n :- Text.ParseHex(tokens[0]);
        Ok(s.(nsamples := n, readstate := if n > MaxSamples then WaitForHit else TimestampNext))
    case TimestampNext =>
      if |tokens| != 1 then Ok(s.(readstate := WaitForHit))
      else
        var t :- Text.ParseHex(tokens[0]);
        Ok(s.(timestamp := t, readstate := TdcwordNext))
    case TdcwordNext =>
      Ok(s.(readstate := if |tokens| != 1 then WaitForHit else Ch1Next))
    case Ch1Next =>
      var c :- Ch1Tokens([], Hex(tokens), s.nsamples);
      Ok(s.(ch1 := c, ch2 := [], discraw := [], discsync := [],
            readstate := if |c| == s.nsamples then Ch2InProgress else Ch1InProgress))
    case Ch1InProgress =>
      var c :- Ch1Tokens(s.ch1, Hex(tokens), s.nsamples);
      Ok(s.(ch1 := c, readstate := if |c| == s.nsamples then Ch2InProgress else Ch1InProgress))
    case Ch2InProgress =>
      var lists :- Ch2Tokens(s.ch2, s.discraw, s.discsync, Hex(tokens), s.nsamples);
      Ch2Close(s, lists, script)
  }

  /** The channel-2 lists after a line: the hit is complete once channel 2
      holds `nsamples` values, and then `max` of channel 1 decides whether it
      is counted (`max` of an empty list raises ValueError). */
  function Ch2Close(s: Reader, lists: (seq<int>, seq<int>, seq<int>), script: Script): Result<Reader>
  {
    var t := s.(ch2 := lists.0, discraw := lists.1, discsync := lists.2);
    if |t.ch2| != s.nsamples then Ok(t)
    else if s.ch1 == [] then Raise(ValueError)
    else if Max(s.ch1) == 0 then Ok(t.(readstate := WaitForHit))
    else if !script.pedestalGuarded && !PedestalBinned(s.ch1) then Raise(ValueError)
    else Ok(Counted(t.(readstate := WaitForHit), script))
  }

  /** A completed hit with a non-zero channel-1 maximum: it is counted, and
      kept while fewer than the script's display limit are. */
  function Counted(s: Reader, script: Script): Reader
  {
    s.(waveformCount := s.waveformCount + 1,
       hitData := if |s.hitData| < script.maxKept then s.hitData + [Hit(s.ch1, s.ch2, s.discraw, s.discsync)]
                  else s.hitData)
  }

  /** The lines of one file, from state `s`. */
  function RunLines(s: Reader, lines: seq<string>, script: Script): Result<Reader>
    decreases |lines|
  {
    if lines == [] then Ok(s)
    else
      var t :- Next(s, lines[0], script);
      RunLines(t, lines[1..], script)
  }

  /** One input file: the state machine starts over, the other variables
      carry on. */
  function RunFile(s: Reader, lines: seq<string>, script: Script): Result<Reader>
  {
    RunLines(s.(readstate := WaitForHit), lines, script)
  }

  /** All input files in order. */
  function RunFiles(s: Reader, files: seq<seq<string>>, script: Script): Result<Reader>
    decreases |files|
  {
    if files == [] then Ok(s)
    else
      var t :- RunFile(s, files[0], script);
      RunFiles(t, files[1..], script)
  }

  // ---------------------------------------------------------------------------
  // Properties of one line

  /** Waiting for a hit, only a line whose one token is "V1" moves the
      reader on; any other line leaves everything as it was. */
  lemma OnlyV1Starts(s: Reader, tokens: seq<string>, script: Script)
    requires s.readstate == WaitForHit
    ensures Step(s, tokens, script).Ok?
    ensures Step(s, tokens, script).value.readstate == NsamplesNext <==> tokens == ["V1"]
    ensures tokens != ["V1"] ==> Step(s, tokens, script).value == s
  {
  }

  /** The sample-count, timestamp and TDC lines must hold exactly one token:
      any other line sends the reader back to waiting for a hit. A sample
      count above 256 does too. */
  lemma HeaderLines(s: Reader, tokens: seq<string>, script: Script)
    requires s.readstate == NsamplesNext || s.readstate == TimestampNext || s.readstate == TdcwordNext
    ensures |tokens| != 1 ==> Step(s, tokens, script) == Ok(s.(readstate := WaitForHit))
    ensures s.readstate == NsamplesNext && |tokens| == 1 ==>
      var n := Text.ParseHex(tokens[0]);
      (n.Raise? ==> Step(s, tokens, script) == Raise(ValueError))
      && (n.Ok? ==> Step(s, tokens, script).Ok?
                    && (Step(s, tokens, script).value.readstate == WaitForHit <==> n.value > MaxSamples))
  {
  }

  /** A line counts a hit exactly when it completes channel 2 of a hit whose
      channel-1 maximum is not zero; a counted hit is kept exactly when fewer
      than the display limit are kept already; nothing else changes the kept hits or
      the count. */
  lemma CountedIff(s: Reader, tokens: seq<string>, script: Script)
    requires Step(s, tokens, script).Ok?
    ensures var t := Step(s, tokens, script).value;
      var completes := s.readstate == Ch2InProgress && |t.ch2| == s.nsamples && s.ch1 != [];
      && (t.waveformCount == s.waveformCount + 1 <==> completes && Max(s.ch1) != 0)
      && (t.waveformCount == s.waveformCount || t.waveformCount == s.waveformCount + 1)
      && (t.hitData != s.hitData <==> completes && Max(s.ch1) != 0 && |s.hitData| < script.maxKept)
      && (t.hitData != s.hitData ==> t.hitData == s.hitData + [Hit(s.ch1, t.ch2, t.discraw, t.discsync)])
  {
    if s.readstate == Ch2InProgress {
      var lists := Ch2Tokens(s.ch2, s.discraw, s.discsync, Hex(tokens), s.nsamples).value;
      assert Step(s, tokens, script) == Ch2Close(s, lists, script);
      CloseCounts(s, lists, script);
    }
  }

  /** Counting at the end of a channel-2 line. */
  lemma CloseCounts(s: Reader, lists: (seq<int>, seq<int>, seq<int>), script: Script)
    requires Ch2Close(s, lists, script).Ok?
    ensures var t := Ch2Close(s, lists, script).value;
      var completes := |lists.0| == s.nsamples && s.ch1 != [];
      && t.ch2 == lists.0 && t.discraw == lists.1 && t.discsync == lists.2
      && (t.waveformCount == s.waveformCount + 1 <==> completes && Max(s.ch1) != 0)
      && (t.waveformCount == s.waveformCount || t.waveformCount == s.waveformCount + 1)
      && (t.hitData != s.hitData <==> completes && Max(s.ch1) != 0 && |s.hitData| < script.maxKept)
      && (t.hitData != s.hitData ==> t.hitData == s.hitData + [Hit(s.ch1, t.ch2, t.discraw, t.discsync)])
  {
    assert |[Hit(s.ch1, lists.0, lists.1, lists.2)]| == 1;
  }

  /** A completed hit with a non-zero channel-1 maximum is counted by the
      guarded script whatever its samples. Without the guard it raises
      ValueError exactly when no channel-1 sample lands in the per-hit
      histogram. */
  lemma PedestalRaise(s: Reader, lists: (seq<int>, seq<int>, seq<int>), script: Script)
    requires |lists.0| == s.nsamples && s.ch1 != [] && Max(s.ch1) != 0
    ensures Ch2Close(s, lists, script).Raise? <==> !script.pedestalGuarded && !PedestalBinned(s.ch1)
    ensures Ch2Close(s, lists, script).Raise? ==> Ch2Close(s, lists, script) == Raise(ValueError)
    ensures Ch2Close(s, lists, script).Ok? ==> Ch2Close(s, lists, script).value.waveformCount == s.waveformCount + 1
  {
  }

  /** A one-sample hit of value 1 is counted by pywub/old/plot-spe-data.py
      and stops the checkpoint copy with ValueError. */
  lemma PedestalRaiseWitness(s: Reader)
    requires s.nsamples == 1 && s.ch1 == [1]
    ensures Ch2Close(s, ([0], [0], [0]), PlotSpe).Ok?
    ensures Ch2Close(s, ([0], [0], [0]), PlotTestCheckpoint) == Raise(ValueError)
  {
    assert Max(s.ch1) == 1;
  }

  /** Every value that could not be read was a ValueError, so the first
      failure among a line's tokens is one. */
  lemma {:induction false} HexFailure(vals: seq<Result<int>>)
    requires forall i :: 0 <= i < |vals| ==> vals[i].Raise? ==> vals[i].exn == ValueError
    requires !AllOk(vals)
    ensures FirstFailure(vals) == ValueError
    decreases |vals|
  {
    if vals[0].Ok? {
      assert forall i :: 0 <= i < |vals[1..]| ==> vals[1..][i] == vals[i + 1];
      HexFailure(vals[1..]);
    }
  }

  /** A hit announcing zero samples raises ValueError: either a sample line
      holds a token that is not hexadecimal, or neither channel takes a
      sample and `max` of the empty channel-1 list raises. */
  lemma ZeroSamplesRaise(s: Reader, lines: seq<string>, script: Script)
    requires |lines| >= 6 && s.readstate == WaitForHit && Text.Words(lines[0]) == ["V1"]
    requires |Text.Words(lines[1])| == 1 && Text.ParseHex(Text.Words(lines[1])[0]) == Ok(0)
    requires |Text.Words(lines[2])| == 1
    requires |Text.Words(lines[3])| == 1
    ensures RunLines(s, lines, script) == Raise(ValueError)
  {
    var s2 := s.(nsamples := 0, readstate := TimestampNext);
    ZeroHeader(s, lines, script);
    assert lines[2..][0] == lines[2];
    StampLine(s2, lines[2..], script);
    var stampValue := Text.ParseHex(Text.Words(lines[2])[0]);
    if stampValue.Ok? {
      assert lines[2..][1..] == lines[3..] && lines[3..][0] == lines[3];
      SamplesRaise(s2.(timestamp := stampValue.value, readstate := TdcwordNext), lines[3..], script);
    }
  }

  /** The "V1" line and a sample count of zero. */
  lemma ZeroHeader(s: Reader, lines: seq<string>, script: Script)
    requires |lines| >= 2 && s.readstate == WaitForHit && Text.Words(lines[0]) == ["V1"]
    requires |Text.Words(lines[1])| == 1 && Text.ParseHex(Text.Words(lines[1])[0]) == Ok(0)
    ensures RunLines(s, lines, script) == RunLines(s.(nsamples := 0, readstate := TimestampNext), lines[2..], script)
  {
    var s1 := s.(readstate := NsamplesNext);
    assert Next(s, lines[0], script) == Ok(s1);
    assert Next(s1, lines[1], script) == Ok(s1.(nsamples := 0, readstate := TimestampNext));
    RunStep(s, lines, s1, script);
    assert lines[1..][0] == lines[1] && lines[1..][1..] == lines[2..];
    RunStep(s1, lines[1..], s1.(nsamples := 0, readstate := TimestampNext), script);
  }

  /** The timestamp line: a value that is not hexadecimal raises ValueError. */
  lemma StampLine(s: Reader, lines: seq<string>, script: Script)
    requires lines != [] && s.readstate == TimestampNext && |Text.Words(lines[0])| == 1
    ensures var v := Text.ParseHex(Text.Words(lines[0])[0]);
      RunLines(s, lines, script)
      == if v.Ok? then RunLines(s.(timestamp := v.value, readstate := TdcwordNext), lines[1..], script)
         else Raise(ValueError)
  {
    var v := Text.ParseHex(Text.Words(lines[0])[0]);
    if v.Ok? {
      RunStep(s, lines, s.(timestamp := v.value, readstate := TdcwordNext), script);
    }
  }

  /** The TDC line and the two sample lines of a hit announcing zero samples. */
  lemma SamplesRaise(s: Reader, lines: seq<string>, script: Script)
    requires |lines| >= 3 && s.readstate == TdcwordNext && s.nsamples == 0 && |Text.Words(lines[0])| == 1
    ensures RunLines(s, lines, script) == Raise(ValueError)
  {
    var s4 := s.(readstate := Ch1Next);
    assert Next(s, lines[0], script) == Ok(s4);
    RunStep(s, lines, s4, script);
    var rest := lines[1..];
    assert rest[0] == lines[1] && rest[1..] == lines[2..] && lines[2..][0] == lines[2];
    var s5 := s4.(ch1 := [], ch2 := [], discraw := [], discsync := [], readstate := Ch2InProgress);
    EmptyChannel1(s4, Text.Words(lines[1]), script);
    if Next(s4, lines[1], script).Ok? {
      RunStep(s4, rest, s5, script);
      EmptyChannel2(s5, Text.Words(lines[2]), script);
    }
  }

  /** With no samples announced, the first channel-1 line takes none and
      moves on to channel 2, unless one of its tokens is not hexadecimal. */
  lemma EmptyChannel1(s: Reader, tokens: seq<string>, script: Script)
    requires s.readstate == Ch1Next && s.nsamples == 0
    ensures Step(s, tokens, script)
         == if AllOk(Hex(tokens))
            then Ok(s.(ch1 := [], ch2 := [], discraw := [], discsync := [], readstate := Ch2InProgress))
            else Raise(ValueError)
  {
    Ch1TokensShape([], Hex(tokens), 0);
    if !AllOk(Hex(tokens)) {
      HexFailure(Hex(tokens));
    }
  }

  /** With no samples announced and none taken, the channel-2 line raises. */
  lemma EmptyChannel2(s: Reader, tokens: seq<string>, script: Script)
    requires s.readstate == Ch2InProgress && s.nsamples == 0 && s.ch1 == [] && s.ch2 == []
    ensures Step(s, tokens, script) == Raise(ValueError)
  {
    Ch2TokensShape([], s.discraw, s.discsync, Hex(tokens), 0);
    if !AllOk(Hex(tokens)) {
      HexFailure(Hex(tokens));
    }
  }

  /** Running lines is taking the first step, then running the rest. */
  lemma RunStep(s: Reader, lines: seq<string>, t: Reader, script: Script)
    requires lines != [] && Next(s, lines[0], script) == Ok(t)
    ensures RunLines(s, lines, script) == RunLines(t, lines[1..], script)
  {
  }

  // ---------------------------------------------------------------------------
  // What the reader keeps

  /** Every value fits in twelve bits. */
  predicate Words12(xs: seq<int>)
  {
    forall i :: 0 <= i < |xs| ==> 0 <= xs[i] < 4096
  }

  /** Every value is a single bit. */
  predicate Bits(xs: seq<int>)
  {
    forall i :: 0 <= i < |xs| ==> xs[i] == 0 || xs[i] == 1
  }

  /** A kept hit: between 1 and 256 samples on each channel, one
      discriminator bit of each kind per channel-2 sample, and a channel-1
      waveform that is not all zero. */
  predicate WellFormedHit(h: Hit)
  {
    && 1 <= |h.ch1| <= MaxSamples
    && |h.ch2| == |h.ch1| && |h.discraw| == |h.ch1| && |h.discsync| == |h.ch1|
    && Words12(h.ch1) && Words12(h.ch2) && Bits(h.discraw) && Bits(h.discsync)
    && Max(h.ch1) != 0
  }

  /** States in which a sample count was accepted. */
  predicate CountAccepted(r: ReadState)
  {
    r == TimestampNext || r == TdcwordNext || r == Ch1Next || r == Ch1InProgress || r == Ch2InProgress
  }

  function Min(a: nat, b: nat): nat
  {
    if a <= b then a else b
  }

  /** What holds between any two lines: the first counted hits, up to the display limit, are
      kept, each well formed; the samples collected so far are masked; a
      sample count in use is at most 256; channel 2 is read only once
      channel 1 holds exactly the announced count. */
  predicate Good(s: Reader, script: Script)
  {
    && |s.hitData| == Min(s.waveformCount, script.maxKept)
    && (forall i :: 0 <= i < |s.hitData| ==> WellFormedHit(s.hitData[i]))
    && Words12(s.ch1) && Words12(s.ch2) && Bits(s.discraw) && Bits(s.discsync)
    && |s.discraw| == |s.ch2| && |s.discsync| == |s.ch2|
    && (CountAccepted(s.readstate) ==> s.nsamples <= MaxSamples)
    && (s.readstate == Ch2InProgress ==> |s.ch1| == s.nsamples)
  }

  lemma StartGood(script: Script)
    ensures Good(Start, script)
  {
  }

  /** The channel-1 loop keeps channel 1 masked to twelve bits. */
  lemma Ch1Keeps(ch1: seq<int>, vals: seq<Result<int>>, nsamples: int)
    requires Words12(ch1) && AllOk(vals)
    ensures Ch1Tokens(ch1, vals, nsamples).Ok?
    ensures Words12(Ch1Tokens(ch1, vals, nsamples).value)
  {
    Ch1TokensShape(ch1, vals, nsamples);
    var r := Ch1Tokens(ch1, vals, nsamples).value;
    forall i | 0 <= i < |r| ensures 0 <= r[i] < 4096 {
      if i < |ch1| {
        assert r[i] == r[..|ch1|][i] == ch1[i];
      } else {
        var j := i - |ch1|;
        assert r[i] == r[|ch1| + j] == Low12(vals[j].value);
      }
    }
  }

  /** The channel-2 loop keeps channel 2 masked and the discriminator lists
      single bits, all three of one length. */
  lemma Ch2Keeps(ch2: seq<int>, discraw: seq<int>, discsync: seq<int>, vals: seq<Result<int>>, nsamples: int)
    requires Words12(ch2) && Bits(discraw) && Bits(discsync) && AllOk(vals)
    requires |discraw| == |ch2| && |discsync| == |ch2|
    ensures Ch2Tokens(ch2, discraw, discsync, vals, nsamples).Ok?
    ensures var r := Ch2Tokens(ch2, discraw, discsync, vals, nsamples).value;
      Words12(r.0) && Bits(r.1) && Bits(r.2) && |r.1| == |r.0| && |r.2| == |r.0|
  {
    Ch2TokensShape(ch2, discraw, discsync, vals, nsamples);
    var r := Ch2Tokens(ch2, discraw, discsync, vals, nsamples).value;
    forall i | 0 <= i < |r.0| ensures 0 <= r.0[i] < 4096 && (r.1[i] == 0 || r.1[i] == 1) && (r.2[i] == 0 || r.2[i] == 1) {
      if i < |ch2| {
        assert r.0[i] == r.0[..|ch2|][i] == ch2[i];
        assert r.1[i] == r.1[..|discraw|][i] == discraw[i];
        assert r.2[i] == r.2[..|discsync|][i] == discsync[i];
      } else {
        var j := i - |ch2|;
        var v := vals[j].value;
        assert r.0[i] == r.0[|ch2| + j] == Low12(v);
        assert r.1[i] == r.1[|discraw| + j] == Bit12(v);
        assert r.2[i] == r.2[|discsync| + j] == Bit13(v);
      }
    }
  }

  /** Each line keeps `Good`. */
  lemma StepKeeps(s: Reader, tokens: seq<string>, script: Script)
    requires Good(s, script) && Step(s, tokens, script).Ok?
    ensures Good(Step(s, tokens, script).value, script)
  {
    var t := Step(s, tokens, script).value;
    var vals := Hex(tokens);
    match s.readstate
    case Ch1Next =>
      Ch1TokensShape([], vals, s.nsamples);
      Ch1Keeps([], vals, s.nsamples);
    case Ch1InProgress =>
      Ch1TokensShape(s.ch1, vals, s.nsamples);
      Ch1Keeps(s.ch1, vals, s.nsamples);
    case Ch2InProgress =>
      Ch2LineKeeps(s, tokens, script);
    case _ =>
  }

  /** A channel-2 line keeps `Good`. */
  lemma Ch2LineKeeps(s: Reader, tokens: seq<string>, script: Script)
    requires Good(s, script) && s.readstate == Ch2InProgress && Step(s, tokens, script).Ok?
    ensures Good(Step(s, tokens, script).value, script)
  {
    var t := Step(s, tokens, script).value;
    var vals := Hex(tokens);
    Ch2TokensShape(s.ch2, s.discraw, s.discsync, vals, s.nsamples);
    Ch2Keeps(s.ch2, s.discraw, s.discsync, vals, s.nsamples);
    if |t.ch2| == s.nsamples && Max(s.ch1) != 0 {
      CompletedHitKeeps(s, t, vals, script);
    }
  }

  /** A completed hit with a non-zero maximum is well formed, and counting
      it keeps the first hits up to the display limit. */
  lemma CompletedHitKeeps(s: Reader, t: Reader, vals: seq<Result<int>>, script: Script)
    requires Good(s, script) && s.readstate == Ch2InProgress && s.ch1 != [] && Max(s.ch1) != 0
    requires Ch2Tokens(s.ch2, s.discraw, s.discsync, vals, s.nsamples).Ok?
    requires var r := Ch2Tokens(s.ch2, s.discraw, s.discsync, vals, s.nsamples).value;
      && Words12(r.0) && Bits(r.1) && Bits(r.2) && |r.1| == |r.0| && |r.2| == |r.0| && |r.0| == s.nsamples
      && t == Counted(s.(ch2 := r.0, discraw := r.1, discsync := r.2, readstate := WaitForHit), script)
    ensures Good(t, script)
  {
    var h := Hit(s.ch1, t.ch2, t.discraw, t.discsync);
    assert WellFormedHit(h);
    if |s.hitData| < script.maxKept {
      assert t.hitData == s.hitData + [h];
      forall i | 0 <= i < |t.hitData| ensures WellFormedHit(t.hitData[i]) {
        if i < |s.hitData| {
          assert t.hitData[i] == s.hitData[i];
        }
      }
    }
  }

  /** Every file, line by line, keeps `Good`. */
  lemma {:induction false} RunLinesKeeps(s: Reader, lines: seq<string>, script: Script)
    requires Good(s, script) && RunLines(s, lines, script).Ok?
    ensures Good(RunLines(s, lines, script).value, script)
    decreases |lines|
  {
    if lines != [] {
      var t := Next(s, lines[0], script).value;
      StepKeeps(s, Text.Words(lines[0]), script);
      RunLinesKeeps(t, lines[1..], script);
    }
  }

  /** After any sequence of files read from the start, the kept hits are
      the first of those counted, up to the display limit, and each is well formed. */
  lemma {:induction false} RunFilesKeeps(s: Reader, files: seq<seq<string>>, script: Script)
    requires Good(s, script) && RunFiles(s, files, script).Ok?
    ensures Good(RunFiles(s, files, script).value, script)
    decreases |files|
  {
    if files != [] {
      var t := RunFile(s, files[0], script).value;
      RunLinesKeeps(s.(readstate := WaitForHit), files[0], script);
      RunFilesKeeps(t, files[1..], script);
    }
  }

  // ---------------------------------------------------------------------------
  // Each file starts over

  /** Two readers that can be told apart only by variables the state
      machine overwrites before it reads them again. */
  predicate Agree(a: Reader, b: Reader)
  {
    && a.readstate == b.readstate && a.hitData == b.hitData && a.waveformCount == b.waveformCount
    && (CountAccepted(a.readstate) ==> a.nsamples == b.nsamples)
    && (a.readstate == Ch1InProgress || a.readstate == Ch2InProgress ==>
          a.ch1 == b.ch1 && a.ch2 == b.ch2 && a.discraw == b.discraw && a.discsync == b.discsync)
  }

  /** Agreeing readers raise alike on a line, or both go on and still agree. */
  lemma StepAgree(a: Reader, b: Reader, tokens: seq<string>, script: Script)
    requires Agree(a, b)
    ensures Step(a, tokens, script).Ok? <==> Step(b, tokens, script).Ok?
    ensures Step(a, tokens, script).Raise? ==> Step(b, tokens, script) == Step(a, tokens, script)
    ensures Step(a, tokens, script).Ok? ==> Agree(Step(a, tokens, script).value, Step(b, tokens, script).value)
  {
    match a.readstate
    case Ch1Next =>
      assert Ch1Tokens([], Hex(tokens), a.nsamples) == Ch1Tokens([], Hex(tokens), b.nsamples);
    case Ch1InProgress =>
      assert Ch1Tokens(a.ch1, Hex(tokens), a.nsamples) == Ch1Tokens(b.ch1, Hex(tokens), b.nsamples);
    case Ch2InProgress =>
      var r := Ch2Tokens(a.ch2, a.discraw, a.discsync, Hex(tokens), a.nsamples);
      assert r == Ch2Tokens(b.ch2, b.discraw, b.discsync, Hex(tokens), b.nsamples);
      if r.Ok? {
        assert Step(a, tokens, script) == Ch2Close(a, r.value, script);
        assert Step(b, tokens, script) == Ch2Close(b, r.value, script);
        CloseAgree(a, b, r.value, script);
      }
    case _ =>
  }

  /** Agreeing readers close a channel-2 line alike. */
  lemma CloseAgree(a: Reader, b: Reader, lists: (seq<int>, seq<int>, seq<int>), script: Script)
    requires Agree(a, b) && a.readstate == Ch2InProgress
    ensures Ch2Close(a, lists, script).Ok? <==> Ch2Close(b, lists, script).Ok?
    ensures Ch2Close(a, lists, script).Raise? ==> Ch2Close(b, lists, script) == Ch2Close(a, lists, script)
    ensures Ch2Close(a, lists, script).Ok? ==> Agree(Ch2Close(a, lists, script).value, Ch2Close(b, lists, script).value)
  {
  }

  /** Agreeing readers given the same lines end alike. */
  lemma {:induction false} RunLinesAgree(a: Reader, b: Reader, lines: seq<string>, script: Script)
    requires Agree(a, b)
    ensures RunLines(a, lines, script).Ok? <==> RunLines(b, lines, script).Ok?
    ensures RunLines(a, lines, script).Raise? ==> RunLines(b, lines, script) == RunLines(a, lines, script)
    ensures RunLines(a, lines, script).Ok? ==> Agree(RunLines(a, lines, script).value, RunLines(b, lines, script).value)
    decreases |lines|
  {
    if lines != [] {
      StepAgree(a, b, Text.Words(lines[0]), script);
      if Next(a, lines[0], script).Ok? {
        RunLinesAgree(Next(a, lines[0], script).value, Next(b, lines[0], script).value, lines[1..], script);
      }
    }
  }

  /** What a file does depends on the reader only through the hits kept and
      counted so far: whatever an earlier file left half read, the next one
      raises alike and keeps and counts the same hits. */
  lemma FileIndependent(a: Reader, b: Reader, lines: seq<string>, script: Script)
    requires a.hitData == b.hitData && a.waveformCount == b.waveformCount
    ensures RunFile(a, lines, script).Ok? <==> RunFile(b, lines, script).Ok?
    ensures RunFile(a, lines, script).Raise? ==> RunFile(b, lines, script) == RunFile(a, lines, script)
    ensures RunFile(a, lines, script).Ok? ==>
      && RunFile(a, lines, script).value.hitData == RunFile(b, lines, script).value.hitData
      && RunFile(a, lines, script).value.waveformCount == RunFile(b, lines, script).value.waveformCount
  {
    RunLinesAgree(a.(readstate := WaitForHit), b.(readstate := WaitForHit), lines, script);
  }

  // ---------------------------------------------------------------------------
  // The script's loop, step by step

  /** The script's variables, updated in place line by line and token by
      token, as the script does. */
  class HitReader {
    var readstate: ReadState
    var nsamples: int
    var timestamp: int
    var ch1: seq<int>
    var ch2: seq<int>
    var discraw: seq<int>
    var discsync: seq<int>
    var hitData: seq<Hit>
    var waveformCount: nat
    const script: Script

    /** The variables as a value of the line-by-line model. */
    function State(): Reader
      reads this
    {
      Reader(readstate, nsamples, timestamp, ch1, ch2, discraw, discsync, hitData, waveformCount)
    }

    constructor (script: Script)
      ensures State() == Start && this.script == script
    {
      readstate := WaitForHit;
      nsamples := 0;
      timestamp := 0;
      ch1 := [];
      ch2 := [];
      discraw := [];
      discsync := [];
      hitData := [];
      waveformCount := 0;
      this.script := script;
    }

    /** The channel-1 token loop: reads every token, appends its low twelve
        bits while channel 1 has room, and marks the hit abandoned when a
        token finds it full. */
    method TakeCh1(tokens: seq<string>) returns (err: Option<Exn>)
      modifies this`ch1, this`readstate
      ensures err.None? <==> Ch1Tokens(old(ch1), Hex(tokens), nsamples).Ok?
      ensures err.None? ==> ch1 == Ch1Tokens(old(ch1), Hex(tokens), nsamples).value
      ensures err.Some? ==> Ch1Tokens(old(ch1), Hex(tokens), nsamples) == Raise(err.value)
      ensures readstate == old(readstate) || readstate == WaitForHit
    {
      var vals := Hex(tokens);
      var c1 := ch1;
      var i := 0;
      err := None;
      while i < |tokens| && err.None?
        invariant 0 <= i <= |tokens|
        invariant err.None? ==> Ch1Tokens(c1, vals[i..], nsamples) == Ch1Tokens(old(ch1), vals, nsamples)
        invariant err.Some? ==> Ch1Tokens(old(ch1), vals, nsamples) == Raise(err.value)
        invariant readstate == old(readstate) || readstate == WaitForHit
        decreases |tokens| - i, err.None?
      {
        var raw := vals[i];
        Ch1Unroll(c1, vals, i, nsamples);
        if raw.Raise? {
          err := Some(raw.exn);
        } else {
          if |c1| >= nsamples {
            readstate := WaitForHit;
          } else {
            c1 := c1 + [Low12(raw.value)];
          }
          i := i + 1;
        }
      }
      if err.None? {
        ch1 := c1;
      }
    }

    /** The channel-2 token loop: as for channel 1, with the low twelve bits
        and the two discriminator bits of each value. */
    method TakeCh2(tokens: seq<string>) returns (err: Option<Exn>)
      modifies this`ch2, this`discraw, this`discsync, this`readstate
      ensures var r := Ch2Tokens(old(ch2), old(discraw), old(discsync), Hex(tokens), nsamples);
        && (err.None? <==> r.Ok?)
        && (err.None? ==> (ch2, discraw, discsync) == r.value)
        && (err.Some? ==> r == Raise(err.value))
      ensures readstate == old(readstate) || readstate == WaitForHit
    {
      var vals := Hex(tokens);
      var c2, dr, ds := ch2, discraw, discsync;
      var n := nsamples;
      ghost var goal := Ch2Tokens(c2, dr, ds, vals, n);
      var i := 0;
      err := None;
      while i < |tokens| && err.None?
        invariant 0 <= i <= |tokens| && n == nsamples
        invariant readstate == old(readstate) || readstate == WaitForHit
        invariant err.None? ==> Ch2Tokens(c2, dr, ds, vals[i..], n) == goal
        invariant err.Some? ==> goal == Raise(err.value)
        decreases |tokens| - i, err.None?
      {
        var raw := vals[i];
        Ch2Unroll(c2, dr, ds, vals, i, n);
        if raw.Raise? {
          err := Some(raw.exn);
        } else {
          if |c2| >= n {
            readstate := WaitForHit;
          } else {
            c2 := c2 + [Low12(raw.value)];
            ds := ds + [Bit13(raw.value)];
            dr := dr + [Bit12(raw.value)];
          }
          i := i + 1;
        }
      }
      if err.None? {
        ch2, discraw, discsync := c2, dr, ds;
      }
    }

    /** One line of an input file. */
    method ReadLine(line: string) returns (err: Option<Exn>)
      modifies this
      ensures err.None? <==> Next(old(State()), line, script).Ok?
      ensures err.None? ==> State() == Next(old(State()), line, script).value
      ensures err.Some? ==> Next(old(State()), line, script) == Raise(err.value)
    {
      var tokens := Text.Words(line);
      err := None;
      match readstate
      case WaitForHit =>
        if |tokens| == 1 && tokens[0] == "V1" {
          readstate := NsamplesNext;
        }
        assert tokens == ["V1"] <==> |tokens| == 1 && tokens[0] == "V1";
      case NsamplesNext =>
        if |tokens| != 1 {
          readstate := WaitForHit;
        } else {
          var n := Text.ParseHex(tokens[0]);
          if n.Raise? {
            return Some(n.exn);
          }
          nsamples := n.value;
          readstate := TimestampNext;
          if nsamples > MaxSamples {
            readstate := WaitForHit;
          }
        }
      case TimestampNext =>
        if |tokens| != 1 {
          readstate := WaitForHit;
        } else {
          var t := Text.ParseHex(tokens[0]);
          if t.Raise? {
            return Some(t.exn);
          }
          timestamp := t.value;
          readstate := TdcwordNext;
        }
      case TdcwordNext =>
        readstate := if |tokens| != 1 then WaitForHit else Ch1Next;
      case Ch1Next =>
        err := ReadChannel1(tokens);
      case Ch1InProgress =>
        err := ReadChannel1(tokens);
      case Ch2InProgress =>
        err := ReadChannel2(tokens);
    }

    /** A channel-1 line: the first one of a hit clears all four lists. */
    method ReadChannel1(tokens: seq<string>) returns (err: Option<Exn>)
      requires readstate == Ch1Next || readstate == Ch1InProgress
      modifies this
      ensures err.None? <==> Step(old(State()), tokens, script).Ok?
      ensures err.None? ==> State() == Step(old(State()), tokens, script).value
      ensures err.Some? ==> Step(old(State()), tokens, script) == Raise(err.value)
    {
      if readstate == Ch1Next {
        ch1 := [];
        ch2 := [];
        discraw := [];
        discsync := [];
      }
      err := TakeCh1(tokens);
      if err.None? {
        readstate := if |ch1| == nsamples then Ch2InProgress else Ch1InProgress;
      }
    }

    /** A channel-2 line: a hit it completes is counted when its channel-1
        maximum is not zero, and kept while fewer than the display limit
        are. Without the pedestal guard, the analysis of a counted hit then
        raises ValueError when no channel-1 sample lands in its histogram. */
    method ReadChannel2(tokens: seq<string>) returns (err: Option<Exn>)
      requires readstate == Ch2InProgress
      modifies this
      ensures err.None? <==> Step(old(State()), tokens, script).Ok?
      ensures err.None? ==> State() == Step(old(State()), tokens, script).value
      ensures err.Some? ==> Step(old(State()), tokens, script) == Raise(err.value)
    {
      ghost var s0 := State();
      err := TakeCh2(tokens);
      if err.None? {
        assert Step(s0, tokens, script) == Ch2Close(s0, (ch2, discraw, discsync), script);
        if |ch2| == nsamples {
          readstate := WaitForHit;
          if ch1 == [] {
            return Some(ValueError);
          }
          if Max(ch1) != 0 {
            waveformCount := waveformCount + 1;
            if |hitData| < script.maxKept {
              hitData := hitData + [Hit(ch1, ch2, discraw, discsync)];
            }
            if !script.pedestalGuarded && !PedestalBinned(ch1) {
              return Some(ValueError);
            }
          }
        } else {
          readstate := Ch2InProgress;
        }
      }
    }

    /** One input file: the state machine starts over, then reads every
        line until one raises. */
    method ReadFile(lines: seq<string>) returns (err: Option<Exn>)
      modifies this
      ensures err.None? <==> RunFile(old(State()), lines, script).Ok?
      ensures err.None? ==> State() == RunFile(old(State()), lines, script).value
      ensures err.Some? ==> RunFile(old(State()), lines, script) == Raise(err.value)
    {
      readstate := WaitForHit;
      var i := 0;
      while i < |lines|
        invariant 0 <= i <= |lines|
        invariant RunLines(State(), lines[i..], script) == RunFile(old(State()), lines, script)
      {
        assert lines[i..][0] == lines[i] && lines[i..][1..] == lines[i + 1..];
        err := ReadLine(lines[i]);
        if err.Some? {
          return;
        }
        i := i + 1;
      }
      assert lines[i..] == [];
      return None;
    }

    /** The script's main loop over the input files. */
    method ReadFiles(files: seq<seq<string>>) returns (err: Option<Exn>)
      modifies this
      ensures err.None? <==> RunFiles(old(State()), files, script).Ok?
      ensures err.None? ==> State() == RunFiles(old(State()), files, script).value
      ensures err.Some? ==> RunFiles(old(State()), files, script) == Raise(err.value)
    {
      var i := 0;
      err := None;
      while i < |files|
        invariant 0 <= i <= |files| && err.None?
        invariant RunFiles(State(), files[i..], script) == RunFiles(old(State()), files, script)
      {
        assert files[i..][0] == files[i] && files[i..][1..] == files[i + 1..];
        err := ReadFile(files[i]);
        if err.Some? {
          return;
        }
        i := i + 1;
      }
      assert files[i..] == [];
    }
  }
}
