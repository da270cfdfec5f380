/** The host-side session with one wuBase (class `wubCTL`, pywub/control.py):
    command exchanges in ASCII and binary mode, the flags some commands set,
    and the two batch-mode receivers.

    The serial port is a `Transport.Port`. Another thread may set
    `request_abort` or `request_stop` while a batch is being received; the
    model delivers those writes from `requests`, one before each pass of a
    receive loop. A loop that the source would never leave once the port has
    nothing more to deliver returns `Stalled` instead of running forever. */
module Control {
  import opened Wrappers
  import opened Bytes
  import Text
  import StructFmt
  import Parser
  import Catalog
  import Build
  import opened Transport

  /** How an operation ends: a value, a raised exception, or a loop that
      would wait forever for input that never comes. */
  datatype Outcome<+T> = Done(value: T) | Failed(exn: Exn) | Stalled

  /** The `response` of an exchange: the text received in ASCII mode, or the
      return code and return arguments decoded in binary mode. */
  datatype Reply = TextReply(text: string) | Readback(rc: byte, retargs: seq<StructFmt.Value>)

  /** A flag write made by another thread. */
  datatype Request = NoRequest | AbortRequest | StopRequest

  /** What a batch receive returns: the ASCII answer text, or the binary
      receiver's constant 0. */
  datatype BatchReturn = Answer(text: string) | Zero

  const BaudCommand: seq<byte> := [0x55]   // 'U'.encode()
  const OkTerminator: seq<byte> := [0x4F, 0x4B, 0x0A]   // b"OK\n"

  // ---------------------------------------------------------------------------
  // Readback decoding

  /** `unpack_readback(command, readback)`: the return code is the last byte;
      a nonempty return-argument format is unpacked big-endian from the bytes
      just before it. The size is taken with `calcsize` in native mode. */
  function UnpackReadback(retargs: string, readback: seq<byte>): (r: Result<Reply>)
    ensures r.Ok? ==> readback != [] && r.value.Readback? && r.value.rc == readback[|readback| - 1]
    ensures readback == [] && StructFmt.NativeCalcSize(retargs).Ok? ==> r == Raise(IndexError)
    ensures retargs == [] && readback != [] ==> r == Ok(Readback(readback[|readback| - 1], []))
  {
    var size :- StructFmt.NativeCalcSize(retargs);
    if readback == [] then Raise(IndexError)
    else
      var rc := readback[|readback| - 1];
      if |retargs| > 0 then
        var start := if size + 1 <= |readback| then |readback| - (size + 1) else 0;
        var values :- StructFmt.UnpackBig(retargs, readback[start..|readback| - 1]);
        Ok(Readback(rc, values))
      else Ok(Readback(rc, []))
  }

  /** A readback made of any preamble, the packed return arguments and the
      return code decodes to those arguments and that code, provided the
      format's native layout agrees with its standard one. */
  lemma ReadbackRoundTrip(retargs: string, items: seq<StructFmt.Item>, values: seq<StructFmt.Value>,
                          preamble: seq<byte>, rc: byte)
    requires retargs != [] && StructFmt.ParseItems(retargs, false) == Ok(items)
    requires StructFmt.NativeAgreesFrom(items, 0)
    requires StructFmt.CanonicalArgs(StructFmt.Fields(items), values)
    ensures StructFmt.ValidFields(StructFmt.Fields(items)) && StructFmt.Pack(StructFmt.Fields(items), values).Ok?
    ensures UnpackReadback(retargs, preamble + StructFmt.Pack(StructFmt.Fields(items), values).value + [rc]) ==
      Ok(Readback(rc, values))
  {
    var fs := StructFmt.Fields(items);
    PackedArgs(retargs, items, values);
    var packed := StructFmt.Pack(fs, values).value;
    var readback := preamble + packed + [rc];
    assert readback[|readback| - (|packed| + 1)..|readback| - 1] == packed;
    assert readback[|readback| - 1] == rc;
  }

  /** The packed arguments have the format's native size and unpack back. */
  lemma PackedArgs(retargs: string, items: seq<StructFmt.Item>, values: seq<StructFmt.Value>)
    requires StructFmt.ParseItems(retargs, false) == Ok(items)
    requires StructFmt.NativeAgreesFrom(items, 0)
    requires StructFmt.CanonicalArgs(StructFmt.Fields(items), values)
    ensures StructFmt.ValidFields(StructFmt.Fields(items)) && StructFmt.Pack(StructFmt.Fields(items), values).Ok?
    ensures StructFmt.NativeCalcSize(retargs) == Ok(|StructFmt.Pack(StructFmt.Fields(items), values).value|)
    ensures StructFmt.UnpackBig(retargs, StructFmt.Pack(StructFmt.Fields(items), values).value) == Ok(values)
  {
    var fs := StructFmt.Fields(items);
    StructFmt.FieldsValid(items);
    StructFmt.PackUnpack(fs, values);
    StructFmt.NativeCalcSizeStandard(retargs, items);
    assert StructFmt.UnpackBig(retargs, StructFmt.Pack(fs, values).value) == StructFmt.Unpack(fs, StructFmt.Pack(fs, values).value);
  }

  // ---------------------------------------------------------------------------
  // The 3-character window

  /** The last three characters, as a `deque(maxlen=3)` keeps them. */
  function Last3(s: string): (r: string)
    ensures |r| == if |s| < 3 then |s| else 3
  {
    if |s| <= 3 then s else [s[|s| - 3], s[|s| - 2], s[|s| - 1]]
  }

  /** The window is a suffix of what was fed. */
  lemma Last3Suffix(s: string)
    ensures Last3(s) == s[|s| - |Last3(s)|..]
  {
  }

  /** Feeding the window chunk by chunk keeps the last three characters of
      everything fed, however the text is split. */
  lemma Last3Append(a: string, b: string)
    ensures Last3(Last3(a) + b) == Last3(a + b)
  {
    var w := Last3(a);
    if |a| > 3 {
      var x, y := w + b, a + b;
      if |b| == 1 {
        assert x[|x| - 3] == w[1] == y[|y| - 3];
        assert x[|x| - 2] == w[2] == y[|y| - 2];
      } else if |b| == 2 {
        assert x[|x| - 3] == w[2] == y[|y| - 3];
      }
    }
  }

  /** Whether received bytes end with "OK\n". */
  predicate OkTail(bs: seq<byte>)
  {
    |bs| >= 3 && bs[|bs| - 3..] == OkTerminator
  }

  /** Decoded text ends with "OK\n" exactly when its bytes end with b"OK\n". */
  lemma TailChars(recv: seq<byte>, text: string)
    requires Decode(recv) == Ok(text) && |text| >= 3
    ensures text[|text| - 3..] == "OK\n" <==> recv[|recv| - 3..] == OkTerminator
  {
    var t, b := text[|text| - 3..], recv[|recv| - 3..];
    assert forall i :: 0 <= i < 3 ==> t[i] as int == b[i] by {
      forall i | 0 <= i < 3 ensures t[i] as int == b[i] {
        assert t[i] == text[|text| - 3 + i] && b[i] == recv[|recv| - 3 + i];
      }
    }
    if t == "OK\n" {
      assert b[0] == 0x4F && b[1] == 0x4B && b[2] == 0x0A;
    }
    if b == OkTerminator {
      assert t[0] as int == 0x4F && t[1] as int == 0x4B && t[2] as int == 0x0A;
    }
  }

  /** The window pre-filled with "000" reads "OK\n" exactly when the text
      received ends with "OK\n". */
  lemma PrefilledWindow(recv: seq<byte>, text: string)
    requires Decode(recv) == Ok(text)
    ensures Last3("000" + text) == "OK\n" <==> OkTail(recv)
  {
    var s := "000" + text;
    if |text| >= 3 {
      assert s[|s| - 3..] == text[|text| - 3..];
      TailChars(recv, text);
    } else {
      assert Last3(s)[0] == '0' by {
        assert Last3(s) == s[|s| - 3..] && s[|s| - 3] == s[|text|];
      }
    }
  }

  /** The window that starts empty reads "OK\n" exactly when the text
      received ends with "OK\n". */
  lemma EmptyWindow(recv: seq<byte>, text: string)
    requires Decode(recv) == Ok(text)
    ensures Last3(text) == "OK\n" <==> OkTail(recv)
  {
    if |text| >= 3 {
      TailChars(recv, text);
    }
  }

  /** `EmptyWindow` for text related to its bytes by `AsciiText`. */
  lemma CharsWindow(recv: seq<byte>)
    requires AsciiBytes(recv)
    ensures Last3(Chars(recv)) == "OK\n" <==> OkTail(recv)
  {
    CharsDecode(recv);
    EmptyWindow(recv, Chars(recv));
  }

  /** `EmptyWindow` for text related to its bytes by `AsciiText`. */
  lemma TextWindow(recv: seq<byte>, text: string)
    requires AsciiText(recv, text)
    ensures Last3(text) == "OK\n" <==> OkTail(recv)
  {
    AsciiTextChars(recv, text);
    CharsWindow(recv);
  }

  lemma FlattenAppend(cs: seq<seq<byte>>, c: seq<byte>)
    ensures Flatten(cs + [c]) == Flatten(cs) + c
  {
    if cs != [] {
      FlattenAppend(cs[1..], c);
      assert (cs + [c])[1..] == cs[1..] + [c];
    }
  }

  /** Regrouping a concatenation of three. */
  /** Bytes `w` taken before and `rest` now taken from what remained, `p`,
      leave `p'`: the stream still splits, and what was taken is a prefix. */
  lemma StreamTake(f: seq<byte>, w: seq<byte>, rest: seq<byte>, p: seq<byte>, p': seq<byte>, stream: seq<byte>)
    requires f + w + p == stream && rest + p' == p
    ensures f + (w + rest) + p' == stream
    ensures f + (w + rest) <= stream && f + [] <= stream && f + w + rest == f + (w + rest)
  {
    assert f + w + p == f + (w + rest) + p';
    assert f + [] == f;
  }

  lemma AppendAssoc(a: seq<byte>, b: seq<byte>, c: seq<byte>)
    ensures (a + b) + c == a + (b + c)
  {
  }

  /** One more chunk read and decoded: the bytes, the text and the window
      all grow by that chunk. */
  lemma ReceiveStep(chunks: seq<seq<byte>>, k: nat, recv: seq<byte>, text: string, t: string)
    requires k < |chunks| && recv == Flatten(chunks[..k]) && Decode(recv) == Ok(text)
    requires Decode(chunks[k]) == Ok(t)
    ensures recv + chunks[k] == Flatten(chunks[..k + 1])
    ensures Decode(recv + chunks[k]) == Ok(text + t)
    ensures Last3(Last3("000" + text) + t) == Last3("000" + (text + t))
  {
    assert chunks[..k + 1] == chunks[..k] + [chunks[k]];
    FlattenAppend(chunks[..k], chunks[k]);
    DecodeAppend(recv, chunks[k]);
    Last3Append("000" + text, t);
    assert "000" + text + t == "000" + (text + t);
  }

  /** One more chunk read in a batch: the bytes, the text and the window
      all grow by that chunk. */
  lemma BatchStep(chunks: seq<seq<byte>>, k: nat, recv: seq<byte>)
    requires k < |chunks| && recv == Flatten(chunks[..k])
    ensures recv + chunks[k] == Flatten(chunks[..k + 1])
    ensures Chars(recv + chunks[k]) == Chars(recv) + Chars(chunks[k])
    ensures AsciiBytes(recv) && AsciiBytes(chunks[k]) ==> AsciiBytes(recv + chunks[k])
    ensures chunks[k..][1..] == chunks[k + 1..]
  {
    assert chunks[..k + 1] == chunks[..k] + [chunks[k]];
    FlattenAppend(chunks[..k], chunks[k]);
    CharsAppend(recv, chunks[k]);
  }

  /** No read before the `k`-th left the bytes received ending with "OK\n". */
  ghost predicate NoOkBefore(chunks: seq<seq<byte>>, k: nat)
    requires k <= |chunks|
  {
    k == 0 || (NoOkBefore(chunks, k - 1) && !OkTail(Flatten(chunks[..k - 1])))
  }

  /** `NoOkBefore` says that no earlier chunk boundary ends the exchange. */
  lemma {:induction false} NoOkBeforeMeans(chunks: seq<seq<byte>>, k: nat)
    requires k <= |chunks|
    ensures NoOkBefore(chunks, k) <==> forall j :: 0 <= j < k ==> !OkTail(Flatten(chunks[..j]))
  {
    if k > 0 {
      NoOkBeforeMeans(chunks, k - 1);
    }
  }

  /** Reads left before the port runs dry never grow, and a read that finds a
      chunk uses one up. */
  lemma MeasureTail(p: seq<seq<byte>>)
    requires p != []
    ensures Measure(p[1..]) < Measure(p)
  {
  }

  // ---------------------------------------------------------------------------
  // The session

  /** The session's own fields, to say what an operation leaves alone. */
  datatype Fields = Fields(mode: string, autobaud: bool, baudrate: int, binaryVerbosity: int,
                           nbytesRecv: int, nframesBinary: int, batchModeRunning: bool,
                           requestAbort: bool, requestStop: bool, abortRequested: bool,
                           stopRequested: bool, requests: seq<Request>)

  /** What `send` writes: a 'U' first when autobaud is on, then the command
      when it is bytes; a `str` command is refused and not written. */
  function Sent(autobaud: bool, cmd: Written): (ws: seq<Written>)
    ensures |ws| == (if autobaud then 1 else 0) + (if cmd.WroteBytes? then 1 else 0)
    ensures cmd.WroteBytes? ==> ws[|ws| - 1] == cmd
    ensures autobaud ==> ws[0] == WroteBytes(BaudCommand)
  {
    (if autobaud then [WroteBytes(BaudCommand)] else []) + (if cmd.WroteBytes? then [cmd] else [])
  }

  /** The line the intended ASCII send writes for a built command: the
      encoded text, then its only line feed. When the command's name is
      ASCII, the line decodes back to the text, which splits at spaces into
      the upper-cased name and the decimal arguments. */
  lemma AsciiLineSplitsBack(e: Catalog.Entry, args: seq<int>)
    requires ' ' !in e.name && '\n' !in e.name && |args| >= |e.args|
    ensures Build.Build(e, "a", args).Ok?
    ensures var text := Build.Build(e, "a", args).value.text;
      && Utf8(text + "\n") == Utf8(text) + [10]
      && 10 !in Utf8(text)
      && (IsAscii(e.name) ==>
            && Decode(Utf8(text + "\n")) == Ok(text + "\n")
            && Text.SplitOn(text, ' ') == [Text.Upper(e.name)] + Build.Decimals(args[..|e.args|]))
  {
    Build.AsciiSplitsBack(e, args);
    BuiltTextPlain(e, args);
    var text := Build.Build(e, "a", args).value.text;
    Utf8Append(text, "\n");
    assert Utf8("\n") == [10];
    if 10 in Utf8(text) {
      Utf8AsciiByte(text, 10);
      assert false;
    }
    if IsAscii(e.name) {
      var line := text + "\n";
      assert IsAscii(line) by {
        forall k | 0 <= k < |line| ensures line[k] as int < 128 {
          if k < |text| {
            assert line[k] == text[k];
          }
        }
      }
      Utf8Ascii(line);
      DecodeEncode(line);
    }
  }

  /** The built ASCII text holds no line feed, and is ASCII when the name is. */
  lemma BuiltTextPlain(e: Catalog.Entry, args: seq<int>)
    requires '\n' !in e.name && |args| >= |e.args|
    ensures Build.Build(e, "a", args).Ok?
    ensures var text := Build.Build(e, "a", args).value.text;
      '\n' !in text && (IsAscii(e.name) ==> IsAscii(text))
  {
    var xs := args[..|e.args|];
    var name := Text.Upper(e.name);
    var text := Build.Build(e, "a", args).value.text;
    assert text == name + Build.ArgText(xs);
    Build.ArgTextPlain(xs);
    forall k | 0 <= k < |text|
      ensures text[k] != '\n' && (IsAscii(e.name) ==> text[k] as int < 128)
    {
      if k < |name| {
        assert text[k] == Text.UpperChar(e.name[k]) && e.name[k] in e.name;
      } else {
        assert text[k] == Build.ArgText(xs)[k - |name|];
      }
    }
  }

  /** `s[-n:]` for n >= 1: the last n bytes, or all of them. */
  function LastN(s: seq<byte>, n: nat): (r: seq<byte>)
    ensures |r| == Min(n, |s|) && r == s[|s| - |r|..]
  {
    s[|s| - Min(n, |s|)..]
  }

  /** `s[0:-n]` for n >= 1: all but the last n bytes. */
  function AllButLastN(s: seq<byte>, n: nat): (r: seq<byte>)
    ensures r + LastN(s, n) == s
  {
    s[..|s| - Min(n, |s|)]
  }

  /** The bytes the first two reads can find: those of the first two chunks. */
  function TwoChunkBytes(chunks: seq<seq<byte>>): nat
  {
    if chunks == [] then 0 else if |chunks| == 1 then |chunks[0]| else |chunks[0]| + |chunks[1]|
  }

  /** Which of the commands with side effects `send_recv` recognises. */
  datatype Special = AsciiMode | BinaryMode | VerboseCmd | BaudCmd | OtherCmd

  /** How a batch receive left its loop; `Unfinished` when it did not. */
  datatype Exit = Unfinished | AbortExit | StopExit | EndExit | ShortFrame | SplitPrefix | ShortHeader

  /** The batch request the ASCII receiver writes itself,
      `f"send_batch {ntosend} {modenostop}\n"`. */
  function BatchCommand(ntosend: int, modenostop: int): (s: string)
    ensures IsAscii(s) && |s| > 0 && s[|s| - 1] == '\n'
  {
    var a, b := Text.Decimal(ntosend), Text.Decimal(modenostop);
    Text.DecimalAscii(ntosend);
    Text.DecimalAscii(modenostop);
    BatchAscii(a, b);
    "send_batch " + a + " " + b + "\n"
  }

  lemma BatchAscii(a: string, b: string)
    requires IsAscii(a) && IsAscii(b)
    ensures IsAscii("send_batch " + a + " " + b + "\n")
  {
    var s := "send_batch " + a + " " + b + "\n";
    forall i | 0 <= i < |s| ensures s[i] as int < 128 {
      if 11 <= i < 11 + |a| {
        assert s[i] == a[i - 11];
      } else if 12 + |a| <= i < 12 + |a| + |b| {
        assert s[i] == b[i - 12 - |a|];
      }
    }
  }

  /** The size a hit frame announces: its first two bytes, little-endian,
      give the number of samples n, and it is `calc_frame_size(n)` = 18 + 4n
      bytes long. */
  function DeclaredSize(f: seq<byte>): int
    requires |f| >= 2
  {
    Parser.CalcFrameSize(Parser.U16(f[0], f[1]))
  }

  /** A whole hit frame: as long as it announces. */
  predicate WholeFrame(f: seq<byte>)
  {
    |f| >= 2 && |f| == DeclaredSize(f)
  }

  /** What the data file holds; nothing when there is none. */
  function DataOf(datafile: DataFile?): seq<byte>
    reads datafile
  {
    if datafile != null then datafile.data else []
  }

  /** Each command attribute is named by its command's lower-case name, as
      the catalog sets them. */
  ghost predicate KeyedByLowerName(attrs: map<string, Catalog.Entry>)
  {
    forall k :: k in attrs ==> Text.Lower(attrs[k].name) == k
  }

  class Session {
    const port: Port
    /** The catalog's command attributes (`wubCMD_catalog.<name>`), by lower-case name. */
    const attrs: map<string, Catalog.Entry>
    var mode: string
    var autobaud: bool
    var baudrate: int
    var binaryVerbosity: int
    var nbytesRecv: int
    var nframesBinary: int
    var batchModeRunning: bool
    var requestAbort: bool
    var requestStop: bool
    var abortRequested: bool
    var stopRequested: bool
    /** Flag writes still to come from another thread, one per loop pass. */
    var requests: seq<Request>

    /** The mode is never empty: `isascii` looks at its first character. */
    ghost predicate Valid()
      reads this`mode
    {
      mode != []
    }

    function State(): Fields
      reads this
    {
      Fields(mode, autobaud, baudrate, binaryVerbosity, nbytesRecv, nframesBinary, batchModeRunning,
             requestAbort, requestStop, abortRequested, stopRequested, requests)
    }

    /** `wubCTL(port, baud, mode, autobaud, timeout, verbosity)`: a mode other
        than "ascii" or "binary" (in any case) falls back to "ascii". */
    constructor (port: Port, attrs: map<string, Catalog.Entry>, baud: int, mode: string, autobaud: bool,
                 verbosity: int, requests: seq<Request>)
      modifies port
      ensures Valid()
      ensures this.port == port && this.attrs == attrs && port.rate == baud
      ensures State() == Fields(if Text.Lower(mode) == "ascii" || Text.Lower(mode) == "binary" then mode else "ascii",
                                autobaud, baud, verbosity, 0, 0, false, false, false, false, false, requests)
      ensures port.pending == old(port.pending) && port.written == old(port.written)
    {
      this.port := port;
      this.attrs := attrs;
      baudrate := baud;
      batchModeRunning := false;
      requestAbort := false;
      requestStop := false;
      abortRequested := false;
      stopRequested := false;
      this.autobaud := autobaud;
      binaryVerbosity := verbosity;
      nbytesRecv := 0;
      nframesBinary := 0;
      this.requests := requests;
      this.mode := if Text.Lower(mode) != "ascii" && Text.Lower(mode) != "binary" then "ascii" else mode;
      new;
      port.rate := baud;
    }

    /** `command == wubCMD_catalog.<name>`; AttributeError when the catalog has
        no such command. */
    function Is(e: Catalog.Entry, name: string): Result<bool>
    {
      if name in attrs then Ok(e == attrs[name]) else Raise(AttributeError)
    }

    /** The `isascii` property. */
    function IsAscii(): (r: Result<bool>)
      reads this
      ensures Valid() ==> r.Ok? && (r.value <==> mode[0] == 'a' || mode[0] == 'A')
    {
      Text.IsAsciiMode(mode)
    }

    /** `set_comms_mode`: "ASCII" for a mode starting with 'a' or 'A', else
        "BINARY"; an empty mode raises IndexError. */
    method SetCommsMode(m: string) returns (r: Result<()>)
      requires Valid()
      modifies this`mode
      ensures Valid()
      ensures r.Ok? <==> m != []
      ensures mode == if m == [] then old(mode) else if m[0] == 'a' || m[0] == 'A' then "ASCII" else "BINARY"
    {
      var ascii := Text.IsAsciiMode(m);
      if ascii.Raise? {
        return Raise(ascii.exn);
      }
      mode := if ascii.value then "ASCII" else "BINARY";
      return Ok(());
    }

    /** `send(cmd)`: a 'U' goes first when autobaud is on, so the board can
        measure the rate. The result is the count of command bytes written; a
        `str` command raises TypeError, after the 'U'. */
    method Send(cmd: Written) returns (r: Result<nat>)
      modifies port`written
      ensures port.written == old(port.written) + Sent(autobaud, cmd)
      ensures r == if cmd.WroteBytes? then Ok(|cmd.data|) else Raise(TypeError)
    {
      if autobaud {
        var u := port.Write(WroteBytes(BaudCommand));
      }
      r := port.Write(cmd);
    }

    /** The loop of `send_recv_ascii`: read whatever has arrived until the
        last three characters received are "OK\n", the window starting as
        "000". It stops at the first read after which the bytes so far end
        with "OK\n", however the device's output is split into reads, and the
        text returned keeps the terminator. The `k` chunks read are the ghost
        result. */
    method AwaitOk() returns (r: Outcome<string>, ghost k: nat)
      modifies port`pending
      ensures k <= |old(port.pending)| && port.pending == old(port.pending)[k..]
      ensures NoOkBefore(old(port.pending), k)
      ensures r.Done? ==> OkTail(Flatten(old(port.pending)[..k])) && Decode(Flatten(old(port.pending)[..k])) == Ok(r.value)
      ensures r.Stalled? ==> k == |old(port.pending)| && !OkTail(Flatten(old(port.pending)))
      ensures r.Failed? ==> r.exn == ValueError && 0 < k && Decode(old(port.pending)[k - 1]).Raise?
    {
      ghost var chunks := port.pending;
      var recv: seq<byte> := [];
      var text: string := [];
      var window: string := "000";
      k := 0;
      r := Done([]);
      while window != "OK\n"
        invariant AwaitProgress(chunks, k, recv, text, window, port.pending)
        decreases |port.pending|
      {
        PrefilledWindow(recv, text);
        if port.pending == [] {
          assert chunks[..k] == chunks;
          r := Stalled;
          break;
        }
        var ok;
        recv, text, window, ok := AwaitRead(chunks, k, recv, text, window);
        k := k + 1;
        if !ok {
          r := Failed(ValueError);
          break;
        }
      }
      if r.Done? {
        PrefilledWindow(recv, text);
        r := Done(text);
      }
    }

    /** `send` of a command's bytes, then the loop of `AwaitOk`. */
    method SendAwaitOk(line: seq<byte>) returns (r: Outcome<string>, ghost k: nat)
      modifies port`pending, port`written
      ensures port.written == old(port.written) + Sent(autobaud, WroteBytes(line))
      ensures k <= |old(port.pending)| && port.pending == old(port.pending)[k..]
      ensures NoOkBefore(old(port.pending), k)
      ensures r.Done? ==> OkTail(Flatten(old(port.pending)[..k])) && Decode(Flatten(old(port.pending)[..k])) == Ok(r.value)
      ensures r.Stalled? ==> k == |old(port.pending)| && !OkTail(Flatten(old(port.pending)))
      ensures r.Failed? ==> r.exn == ValueError && 0 < k && Decode(old(port.pending)[k - 1]).Raise?
    {
      var sent := Send(WroteBytes(line));
      r, k := AwaitOk();
    }

    /** The state of `AwaitOk` after `k` reads: the bytes read are the first
        `k` chunks, their text is `text`, the window holds its last three
        characters after the "000" fill, and no earlier read ended in "OK\n". */
    ghost predicate AwaitProgress(chunks: seq<seq<byte>>, k: nat, recv: seq<byte>, text: string, window: string,
                                  pending: seq<seq<byte>>)
    {
      && k <= |chunks| && pending == chunks[k..]
      && recv == Flatten(chunks[..k]) && Decode(recv) == Ok(text)
      && window == Last3("000" + text)
      && NoOkBefore(chunks, k)
    }

    /** One read of `AwaitOk`: the next chunk is taken; when it decodes, the
        received bytes, their text and the window move on. */
    method AwaitRead(ghost chunks: seq<seq<byte>>, ghost k: nat, recv: seq<byte>, text: string, window: string)
      returns (recv': seq<byte>, text': string, window': string, ok: bool)
      requires AwaitProgress(chunks, k, recv, text, window, port.pending) && port.pending != []
      requires !OkTail(recv)
      modifies port`pending
      ensures port.pending == chunks[k + 1..]
      ensures ok ==> AwaitProgress(chunks, k + 1, recv', text', window', port.pending)
      ensures !ok ==> Decode(chunks[k]).Raise? && NoOkBefore(chunks, k + 1)
    {
      var chunk := port.ReadWaiting();
      var t := Decode(chunk);
      recv', text', window', ok := recv, text, window, t.Ok?;
      if ok {
        ReceiveStep(chunks, k, recv, text, t.value);
        recv' := recv + chunk;
        text' := text + t.value;
        window' := Last3(window + t.value);
      }
    }

    /** `send_recv_ascii` as intended: send the command text encoded and
        terminated by a line feed, and await "OK\n" (see `AwaitOk`); a
        `binarymode` command then switches the session to binary mode. */
    method SendRecvAscii(e: Catalog.Entry, args: seq<int>) returns (r: Outcome<Reply>, ghost k: nat)
      requires Valid()
      modifies this`mode, port`pending, port`written
      ensures Valid() && (r.Done? ==> r.value.TextReply?)
      ensures var b := Build.Build(e, "a", args);
        b.Raise? ==> r == Failed(b.exn) && port.pending == old(port.pending) && port.written == old(port.written)
      ensures var b := Build.Build(e, "a", args);
        b.Ok? ==>
          && k <= |old(port.pending)| && port.pending == old(port.pending)[k..]
          && port.written == old(port.written) + Sent(autobaud, WroteBytes(Utf8(b.value.text + "\n")))
          && NoOkBefore(old(port.pending), k)
      ensures r.Done? ==>
        OkTail(Flatten(old(port.pending)[..k])) && Decode(Flatten(old(port.pending)[..k])) == Ok(r.value.text)
      ensures r.Stalled? ==>
        k == |old(port.pending)| && !OkTail(Flatten(old(port.pending)))
      ensures r.Failed? && Build.Build(e, "a", args).Ok? ==>
        || (r.exn == ValueError && 0 < k && Decode(old(port.pending)[k - 1]).Raise?)
        || (r.exn == AttributeError && "binarymode" !in attrs && OkTail(Flatten(old(port.pending)[..k])))
      ensures mode == if r.Done? && Is(e, "binarymode") == Ok(true) then "BINARY" else old(mode)
    {
      var b := Build.Build(e, "a", args);
      k := 0;
      if b.Raise? {
        r := Failed(b.exn);
      } else {
        var text;
        text, k := SendAwaitOk(Utf8(b.value.text + "\n"));
        if !text.Done? {
          r := if text.Stalled? then Stalled else Failed(text.exn);
        } else {
          r := AsciiReplied(e, text.value);
        }
      }
    }

    /** After "OK\n": a `binarymode` command switches the session to binary
        mode; without such a command in the catalog the comparison raises
        AttributeError. */
    method AsciiReplied(e: Catalog.Entry, text: string) returns (r: Outcome<Reply>)
      requires Valid()
      modifies this`mode
      ensures Valid()
      ensures r == if "binarymode" in attrs then Done(TextReply(text)) else Failed(AttributeError)
      ensures mode == if Is(e, "binarymode") == Ok(true) then "BINARY" else old(mode)
    {
      var isBinary := Is(e, "binarymode");
      if isBinary.Raise? {
        return Failed(AttributeError);
      }
      if isBinary.value {
        var stored := SetCommsMode("BINARY");
      }
      return Done(TextReply(text));
    }

    /** `send_recv_ascii` as written: `build` returns the command as a `str`
        and `send` hands it to the port unencoded, which refuses it with
        TypeError. Only the autobaud 'U' is written and nothing is read. */
    method SendRecvAsciiAsWritten(e: Catalog.Entry, args: seq<int>) returns (r: Outcome<Reply>)
      modifies port`written
      ensures var b := Build.Build(e, "a", args);
        && (b.Raise? ==> r == Failed(b.exn) && port.written == old(port.written))
        && (b.Ok? ==> r == Failed(TypeError)
                      && port.written == old(port.written) + (if autobaud then [WroteBytes(BaudCommand)] else []))
    {
      var b := Build.Build(e, "a", args);
      if b.Raise? {
        return Failed(b.exn);
      }
      var sent := Send(WroteText(b.value.text));
      return Failed(sent.exn);
    }

    /** The reads of `send_recv_binary`. Without verbosity: `n` bytes, and
        once more for the rest if they have not all arrived, so at most the
        bytes of two chunks. With verbosity: everything that has arrived. */
    method ReadReadback(n: nat) returns (data: seq<byte>)
      requires n > 0
      modifies port`pending
      ensures data + Flatten(port.pending) == Flatten(old(port.pending))
      ensures binaryVerbosity == 0 ==> |data| == Min(n, TwoChunkBytes(old(port.pending)))
      ensures binaryVerbosity != 0 ==> data == (if old(port.pending) == [] then [] else old(port.pending)[0])
    {
      ghost var chunks := port.pending;
      if binaryVerbosity != 0 {
        data := port.ReadWaiting();
        assert chunks != [] ==> Flatten(chunks) == chunks[0] + Flatten(chunks[1..]);
      } else {
        data := ReadTwice(n);
      }
    }

    /** The silent readback: `read(n)`, and once more for the missing bytes
        when it came back short. */
    method ReadTwice(n: nat) returns (data: seq<byte>)
      requires n > 0
      modifies port`pending
      ensures data + Flatten(port.pending) == Flatten(old(port.pending))
      ensures |data| == Min(n, TwoChunkBytes(old(port.pending)))
    {
      data := port.Read(n);
      if |data| != n {
        var more := port.Read(n - |data|);
        data := data + more;
      }
    }

    /** `send_recv_binary`: send the built bytes, then take the readback (see
        `ReadReadback`) for the expected `calcsize(retargs) + 1` bytes. With
        verbosity the text before the expected bytes must decode. The last
        expected bytes are then unpacked; an unknown return code is only
        logged. An `asciimode` command then switches the session to ASCII
        mode. */
    method SendRecvBinary(e: Catalog.Entry, args: seq<int>) returns (r: Outcome<Reply>, ghost readback: seq<byte>)
      requires Valid()
      modifies this`mode, port`pending, port`written
      ensures Valid() && !r.Stalled?
      ensures var b := Build.Build(e, "b", args);
        b.Raise? ==> r == Failed(b.exn) && port.pending == old(port.pending) && port.written == old(port.written)
      ensures var b := Build.Build(e, "b", args);
        b.Ok? ==>
          && port.written == old(port.written) + Sent(autobaud, WroteBytes(b.value.data))
          && readback + Flatten(port.pending) == Flatten(old(port.pending))
      ensures Build.Build(e, "b", args).Ok? && StructFmt.NativeCalcSize(e.retargs).Raise? ==>
        r == Failed(StructError) && readback == [] && port.pending == old(port.pending)
      ensures var size := StructFmt.NativeCalcSize(e.retargs);
        Build.Build(e, "b", args).Ok? && size.Ok? ==>
          && (binaryVerbosity == 0 ==> |readback| == Min(size.value + 1, TwoChunkBytes(old(port.pending))))
          && (binaryVerbosity != 0 ==> readback == (if old(port.pending) == [] then [] else old(port.pending)[0]))
      ensures r.Done? ==> var size := StructFmt.NativeCalcSize(e.retargs);
        size.Ok? && UnpackReadback(e.retargs, LastN(readback, size.value + 1)) == Ok(r.value)
      ensures r.Failed? && Build.Build(e, "b", args).Ok? && StructFmt.NativeCalcSize(e.retargs).Ok? ==>
        var size := StructFmt.NativeCalcSize(e.retargs).value;
        || (r.exn == ValueError && binaryVerbosity != 0 && Decode(AllButLastN(readback, size + 1)).Raise?)
        || UnpackReadback(e.retargs, LastN(readback, size + 1)) == Raise(r.exn)
        || (r.exn == AttributeError && "asciimode" !in attrs)
      ensures mode == if r.Done? && Is(e, "asciimode") == Ok(true) then "ASCII" else old(mode)
    {
      var b := Build.Build(e, "b", args);
      if b.Raise? {
        return Failed(b.exn), [];
      }
      var sent := Send(WroteBytes(b.value.data));
      var size := StructFmt.NativeCalcSize(e.retargs);
      if size.Raise? {
        return Failed(size.exn), [];
      }
      var data := ReadReadback(size.value + 1);
      readback := data;
      var preamble := AllButLastN(data, size.value + 1);
      if binaryVerbosity != 0 && |preamble| > 0 && Decode(preamble).Raise? {
        return Failed(ValueError), readback;
      }
      var reply := UnpackReadback(e.retargs, LastN(data, size.value + 1));
      if reply.Raise? {
        return Failed(reply.exn), readback;
      }
      var isAscii := Is(e, "asciimode");
      if isAscii.Raise? {
        return Failed(AttributeError), readback;
      }
      if isAscii.value {
        var stored := SetCommsMode("ASCII");
      }
      return Done(reply.value), readback;
    }

    /** `wubCMD_catalog.<name>`, which is also how `cmd_<name>` finds its
        command; AttributeError when the catalog has no such command. */
    function CommandAttr(name: string): (r: Result<Catalog.Entry>)
      ensures r.Ok? <==> name in attrs
      ensures r.Ok? ==> r.value == attrs[name]
    {
      if name in attrs then Ok(attrs[name]) else Raise(AttributeError)
    }

    /** The `elif` chain of `send_recv`, in its order; a command attribute
        missing from the catalog raises AttributeError once it is reached. */
    function Which(e: Catalog.Entry): (r: Result<Special>)
      ensures r == Ok(AsciiMode) <==> Is(e, "asciimode") == Ok(true)
      ensures r == Ok(BinaryMode) <==> Is(e, "asciimode") == Ok(false) && Is(e, "binarymode") == Ok(true)
      ensures r == Ok(OtherCmd) ==> Is(e, "asciimode") == Ok(false) && Is(e, "binarymode") == Ok(false)
    {
      var ascii :- Is(e, "asciimode");
      if ascii then Ok(AsciiMode) else
      var binary :- Is(e, "binarymode");
      if binary then Ok(BinaryMode) else
      var verbose :- Is(e, "verbose");
      if verbose then Ok(VerboseCmd) else
      var baud :- Is(e, "baud");
      if baud then Ok(BaudCmd) else Ok(OtherCmd)
    }

    /** The exchange of `send_recv`: in ASCII mode `send_recv_ascii`, else
        `send_recv_binary`, which a `send_batch` command precedes by marking a
        batch as running. */
    method Exchange(e: Catalog.Entry, args: seq<int>) returns (r: Outcome<Reply>)
      requires Valid()
      modifies this`mode, this`batchModeRunning, port`pending, port`written
      ensures Valid()
      ensures r.Done? ==> (r.value.TextReply? <==> old(IsAscii()) == Ok(true))
      ensures batchModeRunning ==
        (old(batchModeRunning) || (old(IsAscii()) == Ok(false) && Is(e, "send_batch") == Ok(true)))
      ensures mode != old(mode) ==>
        r.Done? && (Is(e, "asciimode") == Ok(true) || Is(e, "binarymode") == Ok(true))
    {
      var ascii := IsAscii();
      if ascii.value {
        ghost var k;
        r, k := SendRecvAscii(e, args);
      } else {
        var isBatch := Is(e, "send_batch");
        if isBatch.Raise? {
          return Failed(AttributeError);
        }
        if isBatch.value {
          batchModeRunning := true;
        }
        ghost var readback;
        r, readback := SendRecvBinary(e, args);
      }
    }

    /** The side effects `send_recv` applies after the exchange. */
    method ApplySpecial(e: Catalog.Entry, args: seq<int>) returns (r: Result<()>)
      requires Valid()
      modifies this`mode, this`binaryVerbosity, this`autobaud, this`baudrate, port`rate
      ensures Valid()
      ensures r.Ok? ==> Which(e).Ok?
      ensures Which(e).Raise? ==> r == Raise(Which(e).exn)
      ensures mode == if Which(e) == Ok(AsciiMode) then "ASCII"
                      else if Which(e) == Ok(BinaryMode) then "BINARY" else old(mode)
      ensures if r.Ok? && Which(e) == Ok(VerboseCmd) then args != [] && binaryVerbosity == args[0]
              else binaryVerbosity == old(binaryVerbosity)
      ensures if r.Ok? && Which(e) == Ok(BaudCmd) then
                args != [] &&
                if args[0] == -1 then autobaud && baudrate == old(baudrate) && port.rate == old(baudrate)
                else !autobaud && baudrate == args[0] && port.rate == args[0]
              else autobaud == old(autobaud) && baudrate == old(baudrate) && port.rate == old(port.rate)
    {
      var which := Which(e);
      if which.Raise? {
        return Raise(which.exn);
      }
      match which.value {
        case AsciiMode =>
          var stored := SetCommsMode("ASCII");
        case BinaryMode =>
          var stored := SetCommsMode("BINARY");
        case VerboseCmd =>
          if args == [] {
            return Raise(IndexError);
          }
          binaryVerbosity := args[0];
        case BaudCmd =>
          if args == [] {
            return Raise(IndexError);
          }
          if args[0] == -1 {
            autobaud := true;
            port.rate := baudrate;
          } else {
            autobaud := false;
            port.rate := args[0];
            baudrate := args[0];
          }
        case OtherCmd =>
      }
      return Ok(());
    }

    /** `send_recv(command, *args)`: the exchange in the session's mode, then
        the side effects of the special commands, whatever the reply says:
        `asciimode` and `binarymode` set the mode, `verbose` the verbosity,
        and `baud` the autobaud flag and the port's rate. A `send_batch`
        in binary mode marks a batch as running before the exchange. */
    method SendRecv(e: Catalog.Entry, args: seq<int>) returns (r: Outcome<Reply>)
      requires Valid()
      modifies this`mode, this`batchModeRunning, this`binaryVerbosity, this`autobaud, this`baudrate
      modifies port`pending, port`written, port`rate
      ensures Valid()
      ensures r.Done? ==> (r.value.TextReply? <==> old(IsAscii()) == Ok(true))
      ensures batchModeRunning ==
        (old(batchModeRunning) || (old(IsAscii()) == Ok(false) && Is(e, "send_batch") == Ok(true)))
      ensures r.Done? ==> Which(e).Ok?
      ensures r.Done? ==> mode == if Which(e) == Ok(AsciiMode) then "ASCII"
                                  else if Which(e) == Ok(BinaryMode) then "BINARY" else old(mode)
      ensures if r.Done? && Which(e) == Ok(VerboseCmd) then args != [] && binaryVerbosity == args[0]
              else binaryVerbosity == old(binaryVerbosity)
      ensures if r.Done? && Which(e) == Ok(BaudCmd) then
                args != [] &&
                if args[0] == -1 then autobaud && baudrate == old(baudrate) && port.rate == old(baudrate)
                else !autobaud && baudrate == args[0] && port.rate == args[0]
              else autobaud == old(autobaud) && baudrate == old(baudrate) && port.rate == old(port.rate)
    {
      r := Exchange(e, args);
      if !r.Done? {
        return;
      }
      var applied := ApplySpecial(e, args);
      if applied.Raise? {
        return Failed(applied.exn);
      }
    }

    /** `set_baud(baud)`: a rate below 1 asks the board for autobaud
        (`cmd_baud(-1)`) and turns autobaud on; any other rate is sent and
        turns it off. */
    method SetBaud(b: int) returns (r: Outcome<Reply>)
      requires Valid() && KeyedByLowerName(attrs)
      modifies this`mode, this`batchModeRunning, this`binaryVerbosity, this`autobaud, this`baudrate
      modifies port`pending, port`written, port`rate
      ensures Valid()
      ensures "baud" !in attrs ==> r == Failed(AttributeError) && unchanged(this, port)
      ensures r.Done? ==> autobaud == (b < 1)
      ensures r.Done? && b < 1 ==> baudrate == old(baudrate) && port.rate == old(baudrate)
      ensures r.Done? && b >= 1 ==> baudrate == b && port.rate == b
    {
      var cmd := CommandAttr("baud");
      if cmd.Raise? {
        return Failed(cmd.exn);
      }
      var e := cmd.value;
      BaudIsBaud(e);
      if b < 1 {
        r := SendRecv(e, [-1]);
        if r.Done? {
          autobaud := true;
        }
      } else {
        r := SendRecv(e, [b]);
        if r.Done? {
          autobaud := false;
        }
      }
    }

    /** The catalog's `baud` command is no other special command, since
        commands are found by their own lower-case names. */
    lemma BaudIsBaud(e: Catalog.Entry)
      requires KeyedByLowerName(attrs) && "baud" in attrs && e == attrs["baud"]
      ensures Which(e).Ok? ==> Which(e) == Ok(BaudCmd)
    {
      assert Text.Lower(e.name) == "baud";
      if "asciimode" in attrs {
        assert Text.Lower(attrs["asciimode"].name) == "asciimode";
      }
      if "binarymode" in attrs {
        assert Text.Lower(attrs["binarymode"].name) == "binarymode";
      }
      if "verbose" in attrs {
        assert Text.Lower(attrs["verbose"].name) == "verbose";
      }
    }

    /** `set_autobaud()`: `set_baud(-1)`. */
    method SetAutobaud() returns (r: Outcome<Reply>)
      requires Valid() && KeyedByLowerName(attrs)
      modifies this`mode, this`batchModeRunning, this`binaryVerbosity, this`autobaud, this`baudrate
      modifies port`pending, port`written, port`rate
      ensures Valid()
      ensures r.Done? ==> autobaud && baudrate == old(baudrate) && port.rate == old(baudrate)
    {
      r := SetBaud(-1);
    }

    /** Another thread's next flag write, if any, lands between two passes of
        a receive loop. */
    method Poll()
      requires Valid()
      modifies this`requests, this`requestAbort, this`requestStop
      ensures Valid()
      ensures requests == if old(requests) == [] then [] else old(requests)[1..]
      ensures requestAbort == (old(requestAbort) || (old(requests) != [] && old(requests)[0] == AbortRequest))
      ensures requestStop == (old(requestStop) || (old(requests) != [] && old(requests)[0] == StopRequest))
    {
      if requests != [] {
        match requests[0] {
          case AbortRequest => requestAbort := true;
          case StopRequest => requestStop := true;
          case NoRequest =>
        }
        requests := requests[1..];
      }
    }

    /** The top of a pass of a batch receive loop: another thread's next
        flag write lands, then a first abort request is acted on, else a
        first stop request; a request already acted on is ignored. */
    method TakeRequest() returns (exit: Exit)
      requires Valid()
      modifies this`requests, this`requestAbort, this`requestStop
      modifies this`abortRequested, this`stopRequested
      ensures Valid()
      ensures requests == if old(requests) == [] then [] else old(requests)[1..]
      ensures old(requests) != [] ==> |requests| < |old(requests)|
      ensures requestAbort == (old(requestAbort) || (old(requests) != [] && old(requests)[0] == AbortRequest))
      ensures requestStop == (old(requestStop) || (old(requests) != [] && old(requests)[0] == StopRequest))
      ensures exit == AbortExit <==> requestAbort && !old(abortRequested)
      ensures exit == StopExit <==> !(requestAbort && !old(abortRequested)) && requestStop && !old(stopRequested)
      ensures exit == Unfinished || exit == AbortExit || exit == StopExit
      ensures abortRequested == (old(abortRequested) || exit == AbortExit)
      ensures stopRequested == (old(stopRequested) || exit == StopExit)
    {
      Poll();
      exit := Unfinished;
      if requestAbort && !abortRequested {
        abortRequested := true;
        exit := AbortExit;
      } else if requestStop && !stopRequested {
        stopRequested := true;
        exit := StopExit;
      }
    }

    /** One read of the ASCII batch loop, decoded. `k` counts the chunks
        read before it and `recv` is what they held. */
    method AsciiRead(ghost chunks: seq<seq<byte>>, ghost k: nat, ghost recv: seq<byte>)
      returns (bs: seq<byte>, t: Result<string>, ghost k': nat)
      requires k <= |chunks| && port.pending == chunks[k..] && recv == Flatten(chunks[..k])
      modifies port`pending
      ensures t.Raise? ==> && t.exn == ValueError && k < |chunks| && port.pending == chunks[k + 1..]
                           && Decode(chunks[k]).Raise?
      ensures t.Ok? ==> && k' <= |chunks| && port.pending == chunks[k'..]
                        && recv + bs == Flatten(chunks[..k']) && AsciiText(bs, t.value)
      ensures old(port.pending) != [] ==> |port.pending| < |old(port.pending)|
      ensures old(port.pending) == [] ==> bs == [] && port.pending == []
    {
      ghost var consumed := port.pending != [];
      bs := port.ReadWaitingOrOne();
      t := Decode(bs);
      CharsDecode(bs);
      k' := k;
      if consumed {
        assert bs == chunks[k] && chunks[k..][1..] == chunks[k + 1..];
        BatchStep(chunks, k, recv);
        k' := k + 1;
      } else {
        assert recv + bs == recv;
      }
      if t.Ok? {
        AsciiTextChars(bs, t.value);
      }
    }

    /** One read of the ASCII batch loop: the bytes that arrived go to the
        data file or the answer and are counted, and the window of the last
        three characters received moves on. `failed` when they do not
        decode; `ended` when nothing arrived and the window reads "OK\n". */
    method AsciiStep(datafile: DataFile?, ghost chunks: seq<seq<byte>>, ghost k: nat, ghost recv: seq<byte>,
                     ghost text: string, window: string, answer: string, ghost n0: int, ghost data0: seq<byte>)
      returns (failed: bool, ended: bool, ghost k': nat, ghost recv': seq<byte>, ghost text': string,
               window': string, answer': string)
      requires k <= |chunks| && port.pending == chunks[k..] && recv == Flatten(chunks[..k])
      requires AsciiText(recv, text) && window == Last3(text) && nbytesRecv == n0 + |recv|
      requires datafile != null ==> datafile.data == data0 + recv && answer == []
      requires datafile == null ==> answer == text
      modifies this`nbytesRecv, port`pending, datafile
      ensures failed ==> && k < |chunks| && port.pending == chunks[k + 1..] && Decode(chunks[k]).Raise?
                         && k' == k && recv' == recv && text' == text && !ended && nbytesRecv == n0 + |recv|
                         && (datafile != null ==> datafile.data == data0 + recv)
      ensures !failed ==> && k' <= |chunks| && port.pending == chunks[k'..] && recv' == Flatten(chunks[..k'])
                          && AsciiText(recv', text') && window' == Last3(text') && nbytesRecv == n0 + |recv'|
                          && (datafile != null ==> datafile.data == data0 + recv' && answer' == [])
                          && (datafile == null ==> answer' == text')
      ensures ended ==> window' == "OK\n"
      ensures !failed && old(port.pending) == [] ==> port.pending == [] && window' == window && (ended <==> window == "OK\n")
      ensures !failed && old(port.pending) != [] ==> |port.pending| < |old(port.pending)|
    {
      var bs, t;
      ghost var next;
      bs, t, next := AsciiRead(chunks, k, recv);
      k', recv', text', window', answer' := k, recv, text, window, answer;
      failed, ended := false, false;
      if t.Raise? {
        failed := true;
        return;
      }
      AsciiTextAppend(recv, text, bs, t.value);
      Last3Append(text, t.value);
      window' := Last3(window + t.value);
      k' := next;
      if |t.value| > 0 {
        nbytesRecv := nbytesRecv + |t.value|;
        if datafile != null {
          AppendAssoc(data0, recv, bs);
          datafile.Write(bs);
        } else {
          answer' := answer + t.value;
        }
        recv', text' := recv + bs, text + t.value;
      } else {
        assert bs == [] && recv + bs == recv && text + t.value == text;
        ended := window' == "OK\n";
      }
    }

    /** What the ASCII loop keeps: `k` chunks read, holding `recv`, whose
        characters are `text` and whose last three are `window`; the bytes
        counted and written, and the answer kept when there is no data
        file. */
    ghost predicate AsciiProgress(chunks: seq<seq<byte>>, k: nat, recv: seq<byte>, text: string, window: string,
                                  answer: string, pending: seq<seq<byte>>, nbytes: int, hasFile: bool,
                                  data: seq<byte>, n0: int, data0: seq<byte>)
    {
      && k <= |chunks| && pending == chunks[k..] && recv == Flatten(chunks[..k])
      && AsciiText(recv, text) && window == Last3(text) && nbytes == n0 + |recv|
      && (hasFile ==> data == data0 + recv && answer == [])
      && (!hasFile ==> answer == text)
    }

    /** One pass of `AsciiBatchLoop`: the requests are polled; when none is
        acted on, nothing is left to read and the window is not "OK\n", the
        loop would spin forever (`stalled`); otherwise one read is taken. */
    method AsciiPass(datafile: DataFile?, ghost chunks: seq<seq<byte>>, ghost k: nat, ghost recv: seq<byte>,
                     ghost text: string, window: string, answer: string, ghost n0: int, ghost data0: seq<byte>)
      returns (exit: Exit, stalled: bool, failed: bool, ghost k': nat, ghost recv': seq<byte>, ghost text': string,
               window': string, answer': string)
      requires Valid()
      requires AsciiProgress(chunks, k, recv, text, window, answer, port.pending, nbytesRecv,
                             datafile != null, DataOf(datafile), n0, data0)
      modifies this`requests, this`requestAbort, this`requestStop, this`abortRequested, this`stopRequested
      modifies this`nbytesRecv, port`pending, datafile
      ensures Valid()
      ensures abortRequested == (old(abortRequested) || exit == AbortExit)
      ensures stopRequested == (old(stopRequested) || exit == StopExit)
      ensures exit == AbortExit ==> !old(abortRequested)
      ensures exit == StopExit ==> !old(stopRequested)
      ensures exit == Unfinished || exit == AbortExit || exit == StopExit || exit == EndExit
      ensures exit == EndExit ==> OkTail(recv')
      ensures stalled ==> && exit == Unfinished && !failed && port.pending == [] && requests == []
                          && !OkTail(recv')
      ensures failed ==> && exit == Unfinished && !stalled && k' < |chunks| && port.pending == chunks[k' + 1..]
                         && Decode(chunks[k']).Raise? && recv' == Flatten(chunks[..k']) && AsciiText(recv', text')
                         && nbytesRecv == n0 + |recv'| && (datafile != null ==> datafile.data == data0 + recv')
      ensures !failed ==> AsciiProgress(chunks, k', recv', text', window', answer', port.pending, nbytesRecv,
                                        datafile != null, DataOf(datafile), n0, data0)
      ensures exit == Unfinished && !stalled && !failed ==>
        |requests| < old(|requests|) || (|requests| == old(|requests|) && |port.pending| < old(|port.pending|))
    {
      var taken := TakeRequest();
      assert |requests| < old(|requests|) || requests == [] == old(requests);
      exit, stalled, failed, k', recv', text', window', answer' :=
        AsciiAfterRequest(taken, datafile, chunks, k, recv, text, window, answer, n0, data0);
    }

    /** The rest of a pass once the requests were polled with result
        `taken`: nothing more when one was acted on, else `AsciiTry`. */
    method AsciiAfterRequest(taken: Exit, datafile: DataFile?, ghost chunks: seq<seq<byte>>, ghost k: nat,
                             ghost recv: seq<byte>, ghost text: string, window: string, answer: string,
                             ghost n0: int, ghost data0: seq<byte>)
      returns (exit: Exit, stalled: bool, failed: bool, ghost k': nat, ghost recv': seq<byte>, ghost text': string,
               window': string, answer': string)
      requires taken == Unfinished || taken == AbortExit || taken == StopExit
      requires AsciiProgress(chunks, k, recv, text, window, answer, port.pending, nbytesRecv,
                             datafile != null, DataOf(datafile), n0, data0)
      modifies this`nbytesRecv, port`pending, datafile
      ensures taken != Unfinished ==> exit == taken && !stalled && !failed
      ensures taken == Unfinished ==> exit == Unfinished || exit == EndExit
      ensures exit == EndExit ==> OkTail(recv')
      ensures stalled ==> && exit == Unfinished && !failed && port.pending == [] && requests == []
                          && !OkTail(recv')
      ensures failed ==> && exit == Unfinished && !stalled && k' < |chunks| && port.pending == chunks[k' + 1..]
                         && Decode(chunks[k']).Raise? && recv' == Flatten(chunks[..k']) && AsciiText(recv', text')
                         && nbytesRecv == n0 + |recv'| && (datafile != null ==> datafile.data == data0 + recv')
      ensures !failed ==> AsciiProgress(chunks, k', recv', text', window', answer', port.pending, nbytesRecv,
                                        datafile != null, DataOf(datafile), n0, data0)
      ensures exit == Unfinished && !stalled && !failed ==> |port.pending| < old(|port.pending|) || requests != []
    {
      k', recv', text', window', answer' := k, recv, text, window, answer;
      stalled, failed := false, false;
      exit := taken;
      if taken == Unfinished {
        var ended;
        stalled, failed, ended, k', recv', text', window', answer' :=
          AsciiTry(datafile, chunks, k, recv, text, window, answer, n0, data0);
        if ended {
          exit := EndExit;
        }
      }
    }

    /** The part of a pass after the requests were polled: the stall check,
        then one read. */
    method AsciiTry(datafile: DataFile?, ghost chunks: seq<seq<byte>>, ghost k: nat, ghost recv: seq<byte>,
                    ghost text: string, window: string, answer: string, ghost n0: int, ghost data0: seq<byte>)
      returns (stalled: bool, failed: bool, ended: bool, ghost k': nat, ghost recv': seq<byte>,
               ghost text': string, window': string, answer': string)
      requires AsciiProgress(chunks, k, recv, text, window, answer, port.pending, nbytesRecv,
                             datafile != null, DataOf(datafile), n0, data0)
      modifies this`nbytesRecv, port`pending, datafile
      ensures ended ==> !stalled && !failed && OkTail(recv')
      ensures stalled ==> !failed && port.pending == [] && requests == [] && !OkTail(recv')
      ensures failed ==> && !stalled && k' < |chunks| && port.pending == chunks[k' + 1..]
                         && Decode(chunks[k']).Raise? && recv' == Flatten(chunks[..k']) && AsciiText(recv', text')
                         && nbytesRecv == n0 + |recv'| && (datafile != null ==> datafile.data == data0 + recv')
      ensures !failed ==> AsciiProgress(chunks, k', recv', text', window', answer', port.pending, nbytesRecv,
                                        datafile != null, DataOf(datafile), n0, data0)
      ensures !stalled && !failed && !ended ==> |port.pending| < old(|port.pending|) || requests != []
    {
      k', recv', text', window', answer' := k, recv, text, window, answer;
      stalled, failed, ended := false, false, false;
      if port.pending == [] && requests == [] && window != "OK\n" {
        TextWindow(recv, text);
        stalled := true;
      } else {
        failed, ended, k', recv', text', window', answer' :=
          AsciiStep(datafile, chunks, k, recv, text, window, answer, n0, data0);
        if !failed && ended {
          TextWindow(recv', text');
        }
      }
    }

    /** The loop of `ascii_batchmode_recv`. Before each read, a first abort
        request ends it at once and a first stop request ends it so that the
        caller can send `cmd_ok`; a request already acted on is ignored. Each
        read takes what has arrived (or waits for one byte), goes to the data
        file or the answer, and is counted. Only a read that finds nothing
        while the last three characters received in this loop are "OK\n"
        ends the loop otherwise; the timeout is only logged. `recv` is what
        the loop received, the first `k` chunks that arrived, and `text` is
        its ASCII decoding. */
    method AsciiBatchLoop(datafile: DataFile?)
      returns (r: Outcome<string>, ghost recv: seq<byte>, ghost text: string, ghost k: nat, exit: Exit)
      requires Valid()
      modifies this`requests, this`requestAbort, this`requestStop, this`abortRequested, this`stopRequested
      modifies this`nbytesRecv, port`pending, datafile
      ensures Valid()
      ensures k <= |old(port.pending)| && recv == Flatten(old(port.pending)[..k])
      ensures !r.Failed? ==> port.pending == old(port.pending)[k..]
      ensures r.Failed? ==> && r.exn == ValueError && exit == Unfinished && k < |old(port.pending)|
                            && port.pending == old(port.pending)[k + 1..] && Decode(old(port.pending)[k]).Raise?
      ensures AsciiText(recv, text) && nbytesRecv == old(nbytesRecv) + |recv|
      ensures datafile != null ==> datafile.data == old(datafile.data) + recv
      ensures r.Done? ==> r.value == (if datafile == null then text else [])
      ensures r.Done? <==> exit in {AbortExit, StopExit, EndExit}
      ensures exit == EndExit ==> OkTail(recv)
      ensures r.Stalled? ==> port.pending == [] && requests == [] && !OkTail(recv)
      ensures abortRequested == (old(abortRequested) || exit == AbortExit)
      ensures stopRequested == (old(stopRequested) || exit == StopExit)
      ensures exit == AbortExit ==> !old(abortRequested)
      ensures exit == StopExit ==> !old(stopRequested)
    {
      ghost var chunks := port.pending;
      ghost var data0 := DataOf(datafile);
      var window: string := [];
      var answer: string := [];
      var stalled, failed := false, false;
      recv, text := [], [];
      k := 0;
      exit := Unfinished;
      while true
        invariant Valid()
        invariant AsciiProgress(chunks, k, recv, text, window, answer, port.pending, nbytesRecv,
                                datafile != null, DataOf(datafile), old(nbytesRecv), data0)
        invariant exit == Unfinished && !stalled && !failed
        invariant abortRequested == old(abortRequested) && stopRequested == old(stopRequested)
        modifies this`requests, this`requestAbort, this`requestStop, this`abortRequested, this`stopRequested
        modifies this`nbytesRecv, port`pending, datafile
        decreases |requests|, |port.pending|
      {
        exit, stalled, failed, k, recv, text, window, answer :=
          AsciiPass(datafile, chunks, k, recv, text, window, answer, old(nbytesRecv), data0);
        if exit != Unfinished || stalled || failed {
          break;
        }
      }
      r := if failed then Failed(ValueError) else if stalled then Stalled else Done(answer);
    }

    /** The stop that `ascii_batchmode_recv` sends when a stop was
        requested: `cmd_ok()`. Its reply is indexed by position, which
        raises KeyError on the dictionary a binary-mode exchange returns. */
    method AsciiStopBatch() returns (r: Outcome<()>)
      requires Valid()
      modifies this`mode, this`batchModeRunning, this`binaryVerbosity, this`autobaud, this`baudrate
      modifies port`pending, port`written, port`rate
      ensures Valid()
      ensures old(batchModeRunning) ==> batchModeRunning
      ensures CommandAttr("ok").Raise? ==> r == Failed(CommandAttr("ok").exn)
      ensures r.Done? ==> old(IsAscii()) == Ok(true)
    {
      var ok := CommandAttr("ok");
      if ok.Raise? {
        return Failed(ok.exn);
      }
      var resp := SendRecv(ok.value, []);
      if resp.Stalled? {
        return Stalled;
      } else if resp.Failed? {
        return Failed(resp.exn);
      } else if resp.value.Readback? {
        // indexing the reply dictionary by position
        return Failed(KeyError);
      }
      return Done(());
    }

    /** `ascii_batchmode_recv(ntosend, modenostop, datafile)`: mark a batch
        as running, write the batch request itself, and receive (see
        `AsciiBatchLoop`). After a stop request it sends `cmd_ok` and takes
        its reply as text. The batch is marked as over only when the call
        returns normally. */
    method AsciiBatchmodeRecv(ntosend: int, modenostop: int, datafile: DataFile?)
      returns (r: Outcome<BatchReturn>, ghost recv: seq<byte>, ghost k: nat, exit: Exit)
      requires Valid()
      modifies this`requests, this`requestAbort, this`requestStop, this`abortRequested, this`stopRequested
      modifies this`nbytesRecv, this`batchModeRunning, datafile
      modifies this`mode, this`binaryVerbosity, this`autobaud, this`baudrate, port`pending, port`written, port`rate
      ensures Valid()
      ensures exit != StopExit ==>
        port.written == old(port.written) + Sent(old(autobaud), WroteBytes(Encode(BatchCommand(ntosend, modenostop))))
      ensures k <= |old(port.pending)| && recv == Flatten(old(port.pending)[..k]) && Decode(recv).Ok?
      ensures nbytesRecv == old(nbytesRecv) + |recv|
      ensures datafile != null ==> datafile.data == old(datafile.data) + recv
      ensures r.Done? ==> r.value == Answer(if datafile == null then Decode(recv).value else [])
      ensures r.Done? <==> !batchModeRunning
      ensures r.Done? ==> exit in {AbortExit, StopExit, EndExit}
      ensures exit == EndExit ==> OkTail(recv)
      ensures abortRequested == (old(abortRequested) || exit == AbortExit)
      ensures stopRequested == (old(stopRequested) || exit == StopExit)
      ensures exit == AbortExit ==> !old(abortRequested)
      ensures exit == StopExit ==> !old(stopRequested)
    {
      batchModeRunning := true;
      var request := BatchCommand(ntosend, modenostop);
      var sent := Send(WroteBytes(Encode(request)));
      var answer;
      ghost var text;
      answer, recv, text, k, exit := AsciiBatchLoop(datafile);
      AsciiTextChars(recv, text);
      CharsDecode(recv);
      r := AsciiFinish(answer, exit);
    }

    /** The end of `ascii_batchmode_recv` once its loop returned `answer`:
        after a stop request a batch that ended normally sends `cmd_ok`, and
        a batch that returns normally is marked as over. */
    method AsciiFinish(answer: Outcome<string>, exit: Exit) returns (r: Outcome<BatchReturn>)
      requires Valid() && batchModeRunning
      modifies this`mode, this`batchModeRunning, this`binaryVerbosity, this`autobaud, this`baudrate
      modifies port`pending, port`written, port`rate
      ensures Valid()
      ensures r.Done? <==> !batchModeRunning
      ensures r.Done? ==> answer.Done? && r.value == Answer(answer.value)
      ensures answer.Failed? ==> r == Failed(answer.exn)
      ensures exit != StopExit ==> port.written == old(port.written) && r.Done? == answer.Done?
    {
      r := match answer
        case Done(a) => Done(Answer(a))
        case Failed(x) => Failed(x)
        case Stalled => Stalled;
      if answer.Done? && exit == StopExit {
        var stop := AsciiStopBatch();
        r := match stop
          case Done(_) => r
          case Failed(x) => Failed(x)
          case Stalled => Stalled;
      }
      if r.Done? {
        batchModeRunning := false;
      }
    }

    /** `wubCMD_catalog.ok.build('b')`, the bytes that ask the board to stop
        a batch. */
    function StopCommand(): (r: Result<seq<byte>>)
    {
      var e :- CommandAttr("ok");
      var b :- Build.Build(e, "b", []);
      if b.BinaryCommand? then Ok(b.data) else Raise(TypeError)
    }

    /** `binary_stop_batch`: send the stop command, then take what has
        arrived (or wait for one byte); its last byte is the return code,
        whose name is logged. */
    method BinaryStopBatch() returns (r: Result<Catalog.Rc>, ghost resp: seq<byte>)
      modifies port`pending, port`written
      ensures StopCommand().Raise? ==> r == Raise(StopCommand().exn) && port.pending == old(port.pending)
      ensures StopCommand().Ok? ==>
        && port.written == old(port.written) + Sent(autobaud, WroteBytes(StopCommand().value))
        && resp == (if old(port.pending) == [] then [] else old(port.pending)[0])
        && port.pending == (if old(port.pending) == [] then [] else old(port.pending)[1..])
        && r == (if resp == [] then Raise(IndexError) else Catalog.RcOf(resp[|resp| - 1]))
    {
      var cmd := StopCommand();
      if cmd.Raise? {
        return Raise(cmd.exn), [];
      }
      r, resp := SendStop(cmd.value);
    }

    /** The exchange part of `binary_stop_batch`, for the stop command's
        bytes `cmd`. */
    method SendStop(cmd: seq<byte>) returns (r: Result<Catalog.Rc>, ghost resp: seq<byte>)
      modifies port`pending, port`written
      ensures port.written == old(port.written) + Sent(autobaud, WroteBytes(cmd))
      ensures resp == (if old(port.pending) == [] then [] else old(port.pending)[0])
      ensures port.pending == (if old(port.pending) == [] then [] else old(port.pending)[1..])
      ensures r == (if resp == [] then Raise(IndexError) else Catalog.RcOf(resp[|resp| - 1]))
    {
      var sent := Send(WroteBytes(cmd));
      var data := port.ReadWaitingOrOne();
      resp := data;
      if data == [] {
        return Raise(IndexError), resp;
      }
      r := Catalog.RcOf(data[|data| - 1]);
    }

    /** The rest of a frame whose two-byte sample count `startWord` has come
        in one read: the other 16 + 4n bytes are read at once. Fewer than 16
        of them make the header unpack raise (`ShortHeader`, nothing kept);
        a frame cut short otherwise is written (`ShortFrame`); a whole frame
        is written and its bytes counted. */
    method ReadFrame(startWord: seq<byte>, datafile: DataFile?) returns (exit: Exit, frame: seq<byte>, ghost rest: seq<byte>)
      requires |startWord| == 2
      modifies this`nbytesRecv, port`pending, datafile
      ensures exit == Unfinished || exit == ShortHeader || exit == ShortFrame
      ensures frame == startWord + rest && rest + Flatten(port.pending) == Flatten(old(port.pending))
      ensures Measure(port.pending) <= Measure(old(port.pending))
      ensures exit == Unfinished ==> WholeFrame(frame) && nbytesRecv == old(nbytesRecv) + |frame|
      ensures exit == ShortFrame ==> && 18 <= |frame| < DeclaredSize(frame)
                                     && nbytesRecv == old(nbytesRecv)
      ensures exit == ShortHeader ==> nbytesRecv == old(nbytesRecv) && |frame| < 18
      ensures datafile != null ==> datafile.data == old(datafile.data) + (if exit == ShortHeader then [] else frame)
    {
      var n := Parser.UnpackNsamples(startWord).value;
      var total := Parser.CalcFrameSize(n);
      var data := port.Read(total - 2);
      frame := startWord + data;
      rest := data;
      assert frame[..2] == startWord;
      var header := Parser.UnpackHeader(frame[..Min(Parser.HeaderSize, |frame|)]);
      if header.Raise? {
        return ShortHeader, frame, rest;
      }
      if datafile != null {
        datafile.Write(startWord);
        datafile.Write(data);
        AppendAssoc(old(datafile.data), startWord, data);
      }
      if |data| != total - 2 {
        return ShortFrame, frame, rest;
      }
      nbytesRecv := nbytesRecv + |data| + 2;
      return Unfinished, frame, rest;
    }

    /** A frame whose two-byte sample count `startWord` is in: counted as
        begun; rejected when its count came one byte at a time (a list);
        otherwise read (see `ReadFrame`) and, when whole, added to `frames`. */
    method TakeFrame(datafile: DataFile?, ghost stream: seq<byte>, ghost frames: seq<seq<byte>>,
                     startWord: seq<byte>, isList: bool, ghost f0: int, ghost n0: int, ghost d0: seq<byte>)
      returns (exit: Exit, ghost frames': seq<seq<byte>>, ghost partial: seq<byte>)
      requires Flatten(frames) + startWord + Flatten(port.pending) == stream && |startWord| == 2
      requires forall f :: f in frames ==> WholeFrame(f)
      requires nframesBinary == f0 + |frames| && nbytesRecv == n0 + |Flatten(frames)|
      requires datafile != null ==> datafile.data == d0 + Flatten(frames)
      modifies this`nbytesRecv, this`nframesBinary, port`pending, datafile
      ensures exit == Unfinished || exit == SplitPrefix || exit == ShortHeader || exit == ShortFrame
      ensures exit == SplitPrefix <==> isList
      ensures forall f :: f in frames' ==> WholeFrame(f)
      ensures nbytesRecv == n0 + |Flatten(frames')|
      ensures nframesBinary == f0 + |frames'| + (if exit == Unfinished then 0 else 1)
      ensures datafile != null ==> datafile.data == d0 + Flatten(frames') + partial
      ensures exit == Unfinished ==> && Flatten(frames') + Flatten(port.pending) == stream
                                     && Measure(port.pending) <= Measure(old(port.pending))
      ensures exit != Unfinished ==> frames' == frames && Flatten(frames') + partial <= stream
      ensures exit == ShortFrame ==> 18 <= |partial| < DeclaredSize(partial)
      ensures exit != ShortFrame ==> partial == []
    {
      frames', partial := frames, [];
      nframesBinary := nframesBinary + 1;
      if isList {
        return SplitPrefix, frames', partial;
      }
      ghost var before := Flatten(port.pending);
      var frame;
      ghost var rest;
      exit, frame, rest := ReadFrame(startWord, datafile);
      StreamTake(Flatten(frames), startWord, rest, before, Flatten(port.pending), stream);
      if exit == ShortHeader {
        return;
      }
      if exit == ShortFrame {
        partial := frame;
        return;
      }
      FlattenAppend(frames, frame);
      frames' := frames + [frame];
    }

    /** The state of the binary batch loop between passes: the frames taken
        so far, then the sample-count bytes already in, then what remains to
        be read (`pending`) make up the `stream` that had arrived; every frame
        taken is whole, and counted from `f0` frames and `n0` bytes, and, when
        there is a data file, written after its first `d0` bytes. */
    ghost predicate BinaryProgress(stream: seq<byte>, frames: seq<seq<byte>>, startWord: seq<byte>, remaining: nat,
                                   isList: bool, pending: seq<seq<byte>>, nframes: int, nbytes: int,
                                   hasFile: bool, data: seq<byte>, f0: int, n0: int, d0: seq<byte>)
    {
      && Flatten(frames) + startWord + Flatten(pending) == stream
      && |startWord| + remaining == 2 && isList == (|startWord| > 0)
      && (forall f :: f in frames ==> WholeFrame(f))
      && nframes == f0 + |frames| && nbytes == n0 + |Flatten(frames)|
      && (hasFile ==> data == d0 + Flatten(frames))
    }

    /** One pass of the binary batch loop after its requests: read the rest
        of the two-byte sample count, then, once both bytes are in, take the
        frame (see `TakeFrame`). `frames` are the whole frames so far;
        `startWord` holds the count bytes already in. */
    method BinaryStep(datafile: DataFile?, ghost stream: seq<byte>, ghost frames: seq<seq<byte>>,
                      startWord: seq<byte>, isList: bool, remaining: nat, ghost f0: int, ghost n0: int, ghost d0: seq<byte>)
      returns (exit: Exit, ghost frames': seq<seq<byte>>, startWord': seq<byte>, isList': bool, remaining': nat,
               ghost partial: seq<byte>)
      requires BinaryProgress(stream, frames, startWord, remaining, isList, port.pending, nframesBinary, nbytesRecv,
                               datafile != null, DataOf(datafile), f0, n0, d0)
      modifies this`nbytesRecv, this`nframesBinary, port`pending, datafile
      ensures exit == Unfinished || exit == SplitPrefix || exit == ShortHeader || exit == ShortFrame
      ensures remaining == 0 ==> exit == SplitPrefix
      ensures exit == Unfinished ==> && BinaryProgress(stream, frames', startWord', remaining', isList', port.pending, nframesBinary,
                                                       nbytesRecv, datafile != null, DataOf(datafile), f0, n0, d0)
                                     && (old(port.pending) != [] ==> Measure(port.pending) < Measure(old(port.pending)))
                                     && (old(port.pending) == [] ==> port.pending == [])
      ensures exit != Unfinished ==> && frames' == frames && Flatten(frames) + partial <= stream
                                     && nbytesRecv == n0 + |Flatten(frames)| && nframesBinary == f0 + |frames| + 1
                                     && (datafile != null ==> datafile.data == d0 + Flatten(frames) + partial)
      ensures exit == ShortFrame ==> 18 <= |partial| < DeclaredSize(partial)
      ensures exit != ShortFrame ==> partial == []
    {
      frames', partial := frames, [];
      exit := Unfinished;
      var whole;
      startWord', isList', remaining', whole := ReadCount(Flatten(frames), stream, startWord, isList, remaining);
      if whole {
        exit, frames', partial := TakeFrame(datafile, stream, frames, startWord', isList', f0, n0, d0);
        if exit == Unfinished {
          assert Flatten(frames') + [] + Flatten(port.pending) == stream;
          startWord', isList', remaining' := [], false, 2;
        }
      }
    }

    /** The read of the rest of the two-byte sample count: `whole` when both
        bytes are in and the frame can be taken (a read of one byte leaves
        the rest for the next pass). */
    method ReadCount(ghost prefix: seq<byte>, ghost stream: seq<byte>, startWord: seq<byte>, isList: bool, remaining: nat)
      returns (startWord': seq<byte>, isList': bool, remaining': nat, whole: bool)
      requires prefix + startWord + Flatten(port.pending) == stream
      requires |startWord| + remaining == 2 && isList == (|startWord| > 0)
      modifies port`pending
      ensures prefix + startWord' + Flatten(port.pending) == stream
      ensures whole ==> |startWord'| == 2 && isList' == isList && (remaining == 0 ==> isList)
      ensures !whole ==> |startWord'| + remaining' == 2 && isList' == (|startWord'| > 0) && remaining > 0
      ensures Measure(port.pending) <= Measure(old(port.pending))
      ensures old(port.pending) != [] && remaining > 0 ==> Measure(port.pending) < Measure(old(port.pending))
      ensures old(port.pending) == [] ==> port.pending == []
    {
      startWord', isList', remaining' := startWord, isList, remaining;
      ghost var before := Flatten(port.pending);
      var startBytes := port.Read(remaining);
      if |startBytes| == 2 {
        startWord' := startBytes;
      } else if |startBytes| == 1 {
        startWord' := startWord + startBytes;
        isList' := true;
        remaining' := remaining - 1;
      }
      StreamTake(prefix, startWord, startBytes, before, Flatten(port.pending), stream);
      whole := |startBytes| != 1 && |startWord'| == 2;
    }

    /** One pass of `BinaryBatchLoop`: the requests are polled; when none is
        acted on and nothing is left to read, the loop would spin forever
        (`stalled`); otherwise one read step is taken. */
    method BinaryPass(datafile: DataFile?, ghost stream: seq<byte>, ghost frames: seq<seq<byte>>,
                      startWord: seq<byte>, isList: bool, remaining: nat, ghost f0: int, ghost n0: int, ghost d0: seq<byte>)
      returns (exit: Exit, stalled: bool, ghost frames': seq<seq<byte>>, startWord': seq<byte>, isList': bool,
               remaining': nat, ghost partial: seq<byte>)
      requires Valid()
      requires BinaryProgress(stream, frames, startWord, remaining, isList, port.pending, nframesBinary, nbytesRecv,
                              datafile != null, DataOf(datafile), f0, n0, d0)
      modifies this`requests, this`requestAbort, this`requestStop, this`abortRequested, this`stopRequested
      modifies this`nbytesRecv, this`nframesBinary, port`pending, datafile
      ensures Valid()
      ensures abortRequested == (old(abortRequested) || exit == AbortExit)
      ensures stopRequested == (old(stopRequested) || exit == StopExit)
      ensures exit == AbortExit ==> !old(abortRequested)
      ensures exit == StopExit ==> !old(stopRequested)
      ensures exit == EndExit ==> false
      ensures stalled ==> exit == Unfinished && port.pending == [] && requests == []
      ensures exit == Unfinished ==> partial == []
      ensures exit == Unfinished && !stalled ==>
        && BinaryProgress(stream, frames', startWord', remaining', isList', port.pending, nframesBinary, nbytesRecv,
                          datafile != null, DataOf(datafile), f0, n0, d0)
        && (|requests| < old(|requests|) || (|requests| == old(|requests|) && Measure(port.pending) < old(Measure(port.pending))))
      ensures exit != Unfinished || stalled ==>
        BinaryEnd(stream, frames', partial, exit, nframesBinary, nbytesRecv, datafile != null, DataOf(datafile), f0, n0, d0)
    {
      frames', startWord', isList', remaining', partial := frames, startWord, isList, remaining, [];
      stalled := false;
      exit := TakeRequest();
      assert |requests| < old(|requests|) || requests == [] == old(requests);
      if exit != Unfinished {
        return;
      }
      if port.pending == [] && requests == [] && remaining > 0 {
        stalled := true;
        return;
      }
      exit, frames', startWord', isList', remaining', partial :=
        BinaryStep(datafile, stream, frames, startWord, isList, remaining, f0, n0, d0);
    }

    /** What the binary loop has done when it stops: whole frames, then the
        part of a frame cut short, taken in order from the stream, counted
        and written. */
    ghost predicate BinaryEnd(stream: seq<byte>, frames: seq<seq<byte>>, partial: seq<byte>, exit: Exit,
                              nframes: int, nbytes: int, hasFile: bool, data: seq<byte>, f0: int, n0: int, d0: seq<byte>)
    {
      && (forall f :: f in frames ==> WholeFrame(f))
      && Flatten(frames) + partial <= stream
      && nbytes == n0 + |Flatten(frames)|
      && nframes == f0 + |frames| + (if exit in {ShortFrame, SplitPrefix, ShortHeader} then 1 else 0)
      && (hasFile ==> data == d0 + Flatten(frames) + partial)
      && (exit == ShortFrame ==> 18 <= |partial| < DeclaredSize(partial))
      && (exit != ShortFrame ==> partial == [])
    }

    /** The loop of the binary `binary_batchmode_recv` (the second definition,
        which replaces the first). Requests are handled as in
        `AsciiBatchLoop`. Each frame starts with its two-byte sample count;
        when the two bytes come in one read they are kept as bytes, the count
        n is decoded, and the other 16 + 4n bytes of the frame are read at
        once. A whole frame is written to the data file and counted, 18 + 4n
        bytes. Fewer than 16 bytes make the header unpack raise; a frame cut
        short otherwise is written and ends the loop. When the two bytes come
        one read at a time they are kept in a list, which the unpack rejects
        with TypeError. Every frame begun is counted in `nframes_binary`. An
        empty read never ends the loop: the code that would end it compares
        a return code the receiver has just set to "waiting". */
    method BinaryBatchLoop(datafile: DataFile?)
      returns (r: Outcome<()>, ghost frames: seq<seq<byte>>, ghost partial: seq<byte>, exit: Exit)
      requires Valid()
      modifies this`requests, this`requestAbort, this`requestStop, this`abortRequested, this`stopRequested
      modifies this`nbytesRecv, this`nframesBinary, port`pending, datafile
      ensures Valid()
      ensures forall f :: f in frames ==> WholeFrame(f)
      ensures Flatten(frames) + partial <= Flatten(old(port.pending))
      ensures nbytesRecv == old(nbytesRecv) + |Flatten(frames)|
      ensures nframesBinary == old(nframesBinary) + |frames| + (if exit in {ShortFrame, SplitPrefix, ShortHeader} then 1 else 0)
      ensures datafile != null ==> datafile.data == old(datafile.data) + Flatten(frames) + partial
      ensures exit == ShortFrame ==> 18 <= |partial| < DeclaredSize(partial)
      ensures exit != ShortFrame ==> partial == []
      ensures r.Done? <==> exit in {AbortExit, StopExit, ShortFrame}
      ensures exit == SplitPrefix <==> r == Failed(TypeError)
      ensures exit == ShortHeader <==> r == Failed(StructError)
      ensures r.Stalled? ==> exit == Unfinished && port.pending == [] && requests == []
      ensures abortRequested == (old(abortRequested) || exit == AbortExit)
      ensures stopRequested == (old(stopRequested) || exit == StopExit)
      ensures exit == AbortExit ==> !old(abortRequested)
      ensures exit == StopExit ==> !old(stopRequested)
    {
      ghost var stream := Flatten(port.pending);
      ghost var data0 := DataOf(datafile);
      var startWord: seq<byte> := [];
      var isList := false;
      var remaining: nat := 2;
      var stalled := false;
      frames := [];
      partial := [];
      exit := Unfinished;
      while true
        invariant Valid()
        invariant BinaryProgress(stream, frames, startWord, remaining, isList, port.pending, nframesBinary, nbytesRecv,
                                 datafile != null, DataOf(datafile), old(nframesBinary), old(nbytesRecv), data0)
        invariant exit == Unfinished && partial == []
        invariant abortRequested == old(abortRequested) && stopRequested == old(stopRequested)
        modifies this`requests, this`requestAbort, this`requestStop, this`abortRequested, this`stopRequested
        modifies this`nbytesRecv, this`nframesBinary, port`pending, datafile
        decreases |requests|, Measure(port.pending)
      {
        ghost var next;
        exit, stalled, next, startWord, isList, remaining, partial :=
          BinaryPass(datafile, stream, frames, startWord, isList, remaining, old(nframesBinary), old(nbytesRecv), data0);
        if exit != Unfinished || stalled {
          frames := next;
          break;
        }
        frames := next;
      }
      r := if stalled then Stalled
           else if exit == SplitPrefix then Failed(TypeError)
           else if exit == ShortHeader then Failed(StructError)
           else Done(());
    }

    /** The binary `binary_batchmode_recv` (the second definition):
        `nframes_binary` is reset, the batch is asked for with
        `cmd_send_batch`, whose reply is indexed by 'CMD_RC' (a TypeError on
        the string an ASCII exchange returns); the frames are received by
        `BinaryBatchLoop`; a stop, an abort or a frame cut short sends the
        stop command; then the batch is over, whatever is waiting is read and
        discarded, and 0 is returned. */
    method BinaryBatchmodeRecv(ntosend: int, modenostop: int, datafile: DataFile?)
      returns (r: Outcome<BatchReturn>, ghost stream: seq<byte>, ghost frames: seq<seq<byte>>,
               ghost partial: seq<byte>, exit: Exit)
      requires Valid()
      modifies this`requests, this`requestAbort, this`requestStop, this`abortRequested, this`stopRequested
      modifies this`nbytesRecv, this`nframesBinary, this`batchModeRunning, datafile
      modifies this`mode, this`binaryVerbosity, this`autobaud, this`baudrate, port`pending, port`written, port`rate
      ensures Valid()
      ensures CommandAttr("send_batch").Raise? ==> r == Failed(CommandAttr("send_batch").exn)
      ensures BinaryDone(r, frames, partial, exit, stream, old(nbytesRecv), 0,
                         old(if datafile != null then datafile.data else []), old(abortRequested), old(stopRequested), datafile)
    {
      ghost var received, aborted, stopped := nbytesRecv, abortRequested, stopRequested;
      ghost var data := if datafile != null then datafile.data else [];
      batchModeRunning := true;
      nframesBinary := 0;
      stream, frames, partial, exit := [], [], [], Unfinished;
      var resp := AskForBatch(ntosend, modenostop);
      if resp.Stalled? {
        r := Stalled;
      } else if resp.Failed? {
        r := Failed(resp.exn);
      } else if resp.value.TextReply? {
        // indexing the response string by 'CMD_RC'
        r := Failed(TypeError);
      } else {
        assert nbytesRecv == received && abortRequested == aborted && stopRequested == stopped;
        assert (if datafile != null then datafile.data else []) == data;
        stream := Flatten(port.pending);
        r, frames, partial, exit := BinaryRun(datafile);
      }
    }

    /** What a binary batch that ended normally leaves behind, given the
        byte stream it read from and the counters, the data file's contents
        and the two request flags as they were before: the return value 0,
        whole frames read from the front of the stream and then a partial
        one, both written to the data file, the counters advanced by them,
        and a stop command as the last thing written. */
    ghost predicate BinaryDone(r: Outcome<BatchReturn>, frames: seq<seq<byte>>, partial: seq<byte>, exit: Exit,
                               stream: seq<byte>, received: int, framed: int, data: seq<byte>,
                               aborted: bool, stopped: bool, datafile: DataFile?)
      reads this, port, datafile
    {
      r.Done? ==>
        && r.value == Zero && !batchModeRunning && exit in {AbortExit, StopExit, ShortFrame}
        && (forall f :: f in frames ==> WholeFrame(f))
        && Flatten(frames) + partial <= stream
        && nframesBinary == framed + |frames| + (if exit == ShortFrame then 1 else 0)
        && nbytesRecv == received + |Flatten(frames)|
        && (datafile != null ==> datafile.data == data + Flatten(frames) + partial)
        && (exit == ShortFrame ==> 18 <= |partial| < DeclaredSize(partial))
        && StopCommand().Ok? && port.written != []
        && port.written[|port.written| - 1] == WroteBytes(StopCommand().value)
        && (exit == AbortExit ==> abortRequested && !aborted)
        && (exit == StopExit ==> stopRequested && !stopped)
    }

    /** `cmd_send_batch(ntosend, modenostop)`, as the binary receiver sends it. */
    method AskForBatch(ntosend: int, modenostop: int) returns (r: Outcome<Reply>)
      requires Valid()
      modifies this`mode, this`batchModeRunning, this`binaryVerbosity, this`autobaud, this`baudrate
      modifies port`pending, port`written, port`rate
      ensures Valid()
      ensures CommandAttr("send_batch").Raise? ==> r == Failed(CommandAttr("send_batch").exn)
    {
      var e := CommandAttr("send_batch");
      if e.Raise? {
        return Failed(e.exn);
      }
      r := SendRecv(e.value, [ntosend, modenostop]);
    }

    /** The part of `binary_batchmode_recv` after the batch was asked for. */
    method BinaryRun(datafile: DataFile?)
      returns (r: Outcome<BatchReturn>, ghost frames: seq<seq<byte>>, ghost partial: seq<byte>, exit: Exit)
      requires Valid()
      modifies this`requests, this`requestAbort, this`requestStop, this`abortRequested, this`stopRequested
      modifies this`nbytesRecv, this`nframesBinary, this`batchModeRunning, port`pending, port`written, datafile
      ensures Valid()
      ensures BinaryDone(r, frames, partial, exit, Flatten(old(port.pending)), old(nbytesRecv), old(nframesBinary),
                         old(if datafile != null then datafile.data else []), old(abortRequested), old(stopRequested), datafile)
    {
      var loop;
      loop, frames, partial, exit := BinaryBatchLoop(datafile);
      if loop.Done? {
        ghost var counts := (nbytesRecv, nframesBinary, abortRequested, stopRequested, DataOf(datafile));
        r := BinaryClose();
        assert counts == (nbytesRecv, nframesBinary, abortRequested, stopRequested, DataOf(datafile));
      } else {
        r := if loop.Stalled? then Stalled else Failed(loop.exn);
      }
    }

    /** The end of a binary batch whose loop ended normally: the stop
        command is sent and its return code read; unless that raises, the
        batch is marked as over, what is left waiting is read, and 0 is
        returned. */
    method BinaryClose() returns (r: Outcome<BatchReturn>)
      modifies this`batchModeRunning, port`pending, port`written
      ensures r.Done? || r.Failed?
      ensures r.Done? ==>
        && r.value == Zero && !batchModeRunning && StopCommand().Ok? && port.written != []
        && port.written[|port.written| - 1] == WroteBytes(StopCommand().value)
      ensures StopCommand().Raise? ==> r == Failed(StopCommand().exn)
    {
      var stop, _ := BinaryStopBatch();
      if stop.Raise? {
        return Failed(stop.exn);
      }
      batchModeRunning := false;
      var _ := port.ReadWaiting();
      r := Done(Zero);
    }

    /** `batchmode_recv`: `modenostop` is sent as 1 or 0, and the receiver
        of the current mode runs; an ASCII batch answers with its text (or
        nothing when a data file takes it), a binary one with 0. */
    method BatchmodeRecv(ntosend: int, modenostop: bool, datafile: DataFile?) returns (r: Outcome<BatchReturn>)
      requires Valid()
      modifies this`requests, this`requestAbort, this`requestStop, this`abortRequested, this`stopRequested
      modifies this`nbytesRecv, this`nframesBinary, this`batchModeRunning, datafile
      modifies this`mode, this`binaryVerbosity, this`autobaud, this`baudrate, port`pending, port`written, port`rate
      ensures Valid()
      ensures r.Done? ==> !batchModeRunning
      ensures r.Done? ==> (r.value.Answer? <==> old(IsAscii()) == Ok(true))
      ensures r.Done? && datafile != null ==> r.value == Answer([]) || r.value == Zero
    {
      var flag := if modenostop then 1 else 0;
      var ascii := IsAscii();
      if ascii.value {
        ghost var recv, k;
        var exit;
        r, recv, k, exit := AsciiBatchmodeRecv(ntosend, flag, datafile);
      } else {
        ghost var stream, frames, partial;
        var exit;
        r, stream, frames, partial, exit := BinaryBatchmodeRecv(ntosend, flag, datafile);
      }
    }
  }
}
