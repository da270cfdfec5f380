/** The offline reader of a binary data file (scripts/parse_binary_test_file.py):
    it walks back-to-back frames (an 18-byte header, then 4 bytes per sample),
    counting the frames accepted and the bytes read, until it has read the
    frames asked for, the file runs out, or a frame has the wrong sample
    count or is cut short. The file is a byte sequence read from the start. */
module FrameFile {
  import opened Bytes
  import Parser
  import opened Transport

  /** Why the walk ended. */
  datatype Stop =
    | CountReached   // `frame_number >= ntoread` with ntoread not -1
    | ShortHeader    // fewer than 18 header bytes were left (none at the end of the file)
    | WrongSamples   // the header's sample count is not the one expected
    | ShortPayload   // fewer payload bytes were left than the header announces

  /** `frame_number`, `nbytes_read` and the reason the loop ended. */
  datatype Walked = Walked(frames: nat, nbytes: nat, stop: Stop)

  /** One pass of the loop: it ends the walk, or accepts a whole frame of
      `size` bytes. */
  datatype Pass = Ended(w: Walked) | Accepted(size: nat)

  /** One pass over the bytes `rest` not read yet, `frames` frames having
      been accepted before them: the count check, the header read (the
      sample count is the header's first field, its first two bytes
      little-endian), the payload read, and the two checks on the frame.
      A rejected frame's header and what arrived of its payload are
      counted; a short header is not. */
  function PassAt(rest: seq<byte>, ntoread: int, expected: int, frames: nat): (p: Pass)
    ensures p.Accepted? ==> Parser.HeaderSize <= p.size <= |rest|
  {
    if frames >= ntoread && ntoread != -1 then Ended(Walked(frames, 0, CountReached))
    else if |rest| < Parser.HeaderSize then Ended(Walked(frames, 0, ShortHeader))
    else
      var n := Parser.U16(rest[0], rest[1]);
      var size := Parser.CalcPayloadSize(n);
      if n != expected then Ended(Walked(frames, Parser.HeaderSize + Min(size, |rest| - Parser.HeaderSize), WrongSamples))
      else if |rest| < Parser.HeaderSize + size then Ended(Walked(frames, |rest|, ShortPayload))
      else Accepted(Parser.HeaderSize + size)
  }

  /** The walk: passes until one ends it, each accepted frame counted and
      its bytes added to `nbytes`. */
  function Walk(rest: seq<byte>, ntoread: int, expected: int, frames: nat): (w: Walked)
    decreases |rest|
  {
    match PassAt(rest, ntoread, expected, frames)
    case Ended(w) => w
    case Accepted(size) => Shifted(Walk(rest[size..], ntoread, expected, frames + 1), size)
  }

  /** A whole frame of `expected` samples, as the firmware lays it out. */
  predicate GoodFrame(f: seq<byte>, expected: int)
  {
    |f| >= Parser.HeaderSize && Parser.U16(f[0], f[1]) == expected && |f| == Parser.CalcFrameSize(expected)
  }

  /** A walk result with `k` more bytes read before it. */
  function Shifted(w: Walked, k: nat): Walked
  {
    Walked(w.frames, k + w.nbytes, w.stop)
  }

  /** The walk never goes back on the frames already accepted, and never
      counts more bytes than there are; it runs out of header only with
      fewer than 18 bytes left after what it counted. */
  lemma {:induction false} WalkBounds(rest: seq<byte>, ntoread: int, expected: int, frames: nat)
    ensures Walk(rest, ntoread, expected, frames).frames >= frames
    ensures Walk(rest, ntoread, expected, frames).nbytes <= |rest|
    ensures Walk(rest, ntoread, expected, frames).stop == ShortHeader ==>
            Walk(rest, ntoread, expected, frames).nbytes + Parser.HeaderSize > |rest|
    decreases |rest|
  {
    var p := PassAt(rest, ntoread, expected, frames);
    if p.Accepted? {
      WalkBounds(rest[p.size..], ntoread, expected, frames + 1);
    }
  }

  /** With a count to reach, the walk never accepts more frames than asked
      for, and it stops for the count exactly when it has reached it. */
  lemma {:induction false} CountBound(rest: seq<byte>, ntoread: int, expected: int, frames: nat)
    requires frames <= ntoread
    ensures Walk(rest, ntoread, expected, frames).frames <= ntoread
    ensures Walk(rest, ntoread, expected, frames).frames == ntoread <==>
            Walk(rest, ntoread, expected, frames).stop == CountReached
    decreases |rest|
  {
    var p := PassAt(rest, ntoread, expected, frames);
    if p.Accepted? {
      CountBound(rest[p.size..], ntoread, expected, frames + 1);
    }
  }

  /** Whole frames of the expected size are each accepted and counted in
      full, and the walk goes on with what follows them. */
  lemma {:induction false} GoodFramesWalk(gs: seq<seq<byte>>, rest: seq<byte>, expected: int, frames: nat)
    requires forall g :: g in gs ==> GoodFrame(g, expected)
    ensures Walk(Flatten(gs) + rest, -1, expected, frames) ==
            Shifted(Walk(rest, -1, expected, frames + |gs|), |Flatten(gs)|)
  {
    var w := Walk(rest, -1, expected, frames + |gs|);
    if gs == [] {
      assert Flatten(gs) + rest == rest;
    } else {
      var tail := Flatten(gs[1..]) + rest;
      assert gs[0] in gs;
      assert Flatten(gs) == gs[0] + Flatten(gs[1..]);
      assert Flatten(gs) + rest == gs[0] + tail;
      GoodFramesWalk(gs[1..], rest, expected, frames + 1);
      assert Walk(tail, -1, expected, frames + 1) == Shifted(w, |Flatten(gs[1..])|);
      GoodFrameFirst(gs[0], tail, -1, expected, frames);
    }
  }

  /** A whole frame of the expected size at the head of the bytes is
      accepted and read in full. */
  lemma GoodFrameFirst(g: seq<byte>, tail: seq<byte>, ntoread: int, expected: int, frames: nat)
    requires GoodFrame(g, expected) && !(frames >= ntoread && ntoread != -1)
    ensures Walk(g + tail, ntoread, expected, frames) == Shifted(Walk(tail, ntoread, expected, frames + 1), |g|)
  {
    var s := g + tail;
    assert s[0] == g[0] && s[1] == g[1];
    assert PassAt(s, ntoread, expected, frames) == Accepted(|g|);
    assert s[|g|..] == tail;
  }

  /** Frames laid end to end fill a byte count of their number times the
      frame size. */
  lemma {:induction false} FlattenSize(gs: seq<seq<byte>>, expected: nat)
    requires forall g :: g in gs ==> GoodFrame(g, expected)
    ensures |Flatten(gs)| == |gs| * Parser.CalcFrameSize(expected)
  {
    if gs != [] {
      assert gs[0] in gs;
      FlattenSize(gs[1..], expected);
      assert |gs| * Parser.CalcFrameSize(expected) == Parser.CalcFrameSize(expected) + |gs[1..]| * Parser.CalcFrameSize(expected);
    }
  }

  /** A file of k whole frames of the expected size, read with no count
      (-1), yields k frames and k times the frame size in bytes, ending at
      the end of the file. */
  lemma BackToBack(gs: seq<seq<byte>>, expected: nat)
    requires forall g :: g in gs ==> GoodFrame(g, expected)
    ensures Walk(Flatten(gs), -1, expected, 0) == Walked(|gs|, |gs| * Parser.CalcFrameSize(expected), ShortHeader)
  {
    GoodFramesWalk(gs, [], expected, 0);
    assert Flatten(gs) + [] == Flatten(gs);
    FlattenSize(gs, expected);
  }

  /** After whole frames, a header with another sample count ends the walk:
      that frame is not counted, but its header and whatever of its payload
      was read are. */
  lemma WrongFrameCounted(gs: seq<seq<byte>>, rest: seq<byte>, expected: int)
    requires forall g :: g in gs ==> GoodFrame(g, expected)
    requires |rest| >= Parser.HeaderSize && Parser.U16(rest[0], rest[1]) != expected
    ensures Walk(Flatten(gs) + rest, -1, expected, 0) ==
            Walked(|gs|, |Flatten(gs)| + Min(|rest|, Parser.CalcFrameSize(Parser.U16(rest[0], rest[1]))), WrongSamples)
  {
    GoodFramesWalk(gs, rest, expected, 0);
  }

  /** After whole frames, a frame of the right count cut short ends the walk
      uncounted, with all of its bytes counted as read. */
  lemma ShortFrameCounted(gs: seq<seq<byte>>, rest: seq<byte>, expected: int)
    requires forall g :: g in gs ==> GoodFrame(g, expected)
    requires Parser.HeaderSize <= |rest| < Parser.CalcFrameSize(expected) && Parser.U16(rest[0], rest[1]) == expected
    ensures Walk(Flatten(gs) + rest, -1, expected, 0) == Walked(|gs|, |Flatten(gs)| + |rest|, ShortPayload)
  {
    GoodFramesWalk(gs, rest, expected, 0);
  }

  /** The data file opened for reading in binary mode: its bytes and the
      position of the next read. */
  class BinaryFile {
    const contents: seq<byte>
    var pos: nat

    ghost predicate Valid()
      reads this
    {
      pos <= |contents|
    }

    constructor Open(contents: seq<byte>)
      ensures this.contents == contents && pos == 0 && Valid()
    {
      this.contents := contents;
      pos := 0;
    }

    /** `f.read(n)`: the next n bytes, or what is left of the file. */
    method Read(n: nat) returns (bs: seq<byte>)
      requires Valid()
      modifies this`pos
      ensures Valid()
      ensures bs == contents[old(pos)..old(pos) + Min(n, |contents| - old(pos))]
      ensures pos == old(pos) + |bs|
    {
      bs := contents[pos..pos + Min(n, |contents| - pos)];
      pos := pos + |bs|;
    }
  }

  /** One pass of `main`'s loop body, reading from the file: the count
      check, the header read, the payload read and the checks on the frame.
      It reads and counts what `PassAt` says. */
  method ReadPass(f: BinaryFile, ntoread: int, expected: int, frameNumber: nat) returns (p: Pass)
    requires f.Valid()
    modifies f`pos
    ensures f.Valid()
    ensures p == PassAt(f.contents[old(f.pos)..], ntoread, expected, frameNumber)
    ensures p.Accepted? ==> f.pos == old(f.pos) + p.size
  {
    ghost var rest := f.contents[f.pos..];
    if frameNumber >= ntoread && ntoread != -1 {
      return Ended(Walked(frameNumber, 0, CountReached));
    }
    var hdr := f.Read(Parser.HeaderSize);
    if |hdr| != Parser.HeaderSize {
      return Ended(Walked(frameNumber, 0, ShortHeader));
    }
    assert hdr == rest[..Parser.HeaderSize];
    Parser.LeValue2(hdr[0..2]);
    var nbytesRead := |hdr|;
    var header := Parser.UnpackHeader(hdr).value;
    var payloadSize := Parser.CalcPayloadSize(header.nsamples);
    var payload := f.Read(payloadSize);
    nbytesRead := nbytesRead + |payload|;
    if header.nsamples != expected {
      return Ended(Walked(frameNumber, nbytesRead, WrongSamples));
    }
    if |payload| != payloadSize {
      return Ended(Walked(frameNumber, nbytesRead, ShortPayload));
    }
    var adcData := Parser.UnpackPayload(payload);
    return Accepted(nbytesRead);
  }

  /** `main`'s loop over the file: its counters are those of `Walk` over the
      whole file. */
  method ParseFile(contents: seq<byte>, ntoread: int, expected: int) returns (frameNumber: nat, nbytesRead: nat, stop: Stop)
    ensures Walked(frameNumber, nbytesRead, stop) == Walk(contents, ntoread, expected, 0)
  {
    var f := new BinaryFile.Open(contents);
    frameNumber, nbytesRead := 0, 0;
    while true
      invariant f.Valid() && f.contents == contents && nbytesRead == f.pos
      invariant Walk(contents, ntoread, expected, 0) == Shifted(Walk(contents[f.pos..], ntoread, expected, frameNumber), f.pos)
      decreases |contents| - f.pos
    {
      ghost var rest := contents[f.pos..];
      var p := ReadPass(f, ntoread, expected, frameNumber);
      if p.Ended? {
        return p.w.frames, nbytesRead + p.w.nbytes, p.w.stop;
      }
      assert contents[f.pos..] == rest[p.size..];
      frameNumber := frameNumber + 1;
      nbytesRead := nbytesRead + p.size;
    }
  }
}
