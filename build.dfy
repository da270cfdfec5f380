/** Building the bytes of a command (`wubCMD_entry.build`, pywub/catalog.py).

    In ASCII mode a command is its upper-cased name followed by one
    space-separated decimal argument per character of the entry's argument
    format. In binary mode it is the 4-byte header `00 00 idHi idLo`, then the
    arguments packed big-endian by the entry's argument format, the whole
    COBS-encoded so that it holds no zero byte.

    `Build` is the evidently intended behaviour, which the session uses.
    `BuildAsWritten` and `BuildCalledWithVarargs` model the code as it stands:
    the binary argument format lacks its f-string prefix, and the session calls
    `build(mode, *args)` although `build` takes the arguments as one list. */
module Build {
  import opened Wrappers
  import opened Bytes
  import Text
  import StructFmt
  import Cobs
  import Catalog

  /** A built command: text for ASCII mode, bytes for binary mode. */
  datatype Command = AsciiCommand(text: string) | BinaryCommand(data: seq<byte>)

  /** `" " + str(a)` for each argument, concatenated. */
  function ArgText(args: seq<int>): string
  {
    if args == [] then [] else " " + Text.Decimal(args[0]) + ArgText(args[1..])
  }

  /** The ASCII form: the name in upper case, then one argument per character
      of the argument format; too few arguments raise IndexError. */
  function BuildAscii(e: Catalog.Entry, args: seq<int>): (r: Result<string>)
    ensures r.Ok? <==> |args| >= |e.args|
  {
    if |args| < |e.args| then Raise(IndexError)
    else Ok(Text.Upper(e.name) + ArgText(args[..|e.args|]))
  }

  /** Integer arguments as the values `struct.pack` receives. */
  function IntValues(args: seq<int>): (vs: seq<StructFmt.Value>)
    ensures |vs| == |args| && forall i :: 0 <= i < |args| ==> vs[i] == StructFmt.Int(args[i])
  {
    seq(|args|, i requires 0 <= i < |args| => StructFmt.Int(args[i]))
  }

  /** The 4-byte binary header, `struct.pack("!HH", 0, cmd_id)`. */
  function Header(cmdId: nat): (r: Result<seq<byte>>)
    ensures r.Ok? <==> cmdId < 65536
    ensures r.Ok? ==> |r.value| == 4 && r.value[0] == 0 && r.value[1] == 0
  {
    if cmdId >= 65536 then Raise(StructError) else Ok([0, 0] + BeBytes(cmdId, 2))
  }

  /** The unencoded binary frame: header, then the arguments packed by
      `struct.pack("!" + args_format, *args)`. */
  function BinaryFrame(e: Catalog.Entry, args: seq<int>): (r: Result<seq<byte>>)
    ensures r.Ok? ==> |r.value| >= 4
  {
    var header :- Header(e.cmdId);
    var items :- StructFmt.ParseItems(e.args, false);
    var fields := StructFmt.Fields(items);
    assert StructFmt.ValidFields(fields) by { FieldsValid(items); }
    var packed :- StructFmt.Pack(fields, IntValues(args));
    Ok(header + packed)
  }

  lemma {:induction false} FieldsValid(items: seq<StructFmt.Item>)
    requires forall it :: it in items ==> it.code in StructFmt.StandardCodes
    ensures StructFmt.ValidFields(StructFmt.Fields(items))
  {
    if items != [] {
      FieldsValid(items[1..]);
    }
  }

  /** `build(mode, args)` with the argument format read as intended. */
  function Build(e: Catalog.Entry, mode: string, args: seq<int>): (r: Result<Command>)
    ensures Text.IsAsciiMode(mode).Raise? ==> r == Raise(IndexError)
    ensures Text.IsAsciiMode(mode) == Ok(true) ==>
      (r.Ok? <==> |args| >= |e.args|) && (r.Ok? ==> r.value.AsciiCommand?)
    ensures Text.IsAsciiMode(mode) == Ok(false) ==>
      (r.Ok? <==> BinaryFrame(e, args).Ok?) && (r.Ok? ==> r.value.BinaryCommand?)
  {
    var ascii :- Text.IsAsciiMode(mode);
    if ascii then
      var text :- BuildAscii(e, args);
      Ok(AsciiCommand(text))
    else
      var frame :- BinaryFrame(e, args);
      Ok(BinaryCommand(Cobs.Encode(frame)))
  }

  // ---------------------------------------------------------------------------
  // Properties of the intended build

  /** The ASCII text splits on spaces back into the upper-cased name and the
      decimal arguments, one per character of the argument format. */
  lemma AsciiSplitsBack(e: Catalog.Entry, args: seq<int>)
    requires ' ' !in e.name && |args| >= |e.args|
    ensures Build(e, "a", args).Ok?
    ensures Text.SplitOn(Build(e, "a", args).value.text, ' ') == [Text.Upper(e.name)] + Decimals(args[..|e.args|])
  {
    var xs := args[..|e.args|];
    var fields := [Text.Upper(e.name)] + Decimals(xs);
    ArgTextJoin(Text.Upper(e.name), xs);
    assert ' ' !in Text.Upper(e.name) by {
      forall i | 0 <= i < |e.name| ensures Text.Upper(e.name)[i] != ' ' {
        assert e.name[i] in e.name;
      }
    }
    forall i | 0 <= i < |fields| ensures ' ' !in fields[i] {
      if i > 0 { Text.DecimalNoSpace(xs[i - 1]); }
    }
    Text.SplitJoin(fields, ' ');
  }

  /** The argument text is ASCII and holds no line feed. */
  lemma {:induction false} ArgTextPlain(xs: seq<int>)
    ensures forall k :: 0 <= k < |ArgText(xs)| ==> ArgText(xs)[k] as int < 128 && ArgText(xs)[k] != '\n'
  {
    if xs != [] {
      ArgTextPlain(xs[1..]);
      var d := Text.Decimal(xs[0]);
      var rest := ArgText(xs[1..]);
      var t := ArgText(xs);
      Text.DecimalAscii(xs[0]);
      Text.DecimalNoSpace(xs[0]);
      assert t == " " + d + rest;
      forall k | 0 <= k < |t| ensures t[k] as int < 128 && t[k] != '\n' {
        if 0 < k <= |d| {
          assert t[k] == d[k - 1];
        } else if k > |d| {
          assert t[k] == rest[k - 1 - |d|];
        }
      }
    }
  }

  /** The decimal texts of the arguments. */
  function Decimals(xs: seq<int>): (ds: seq<string>)
    ensures |ds| == |xs| && forall i :: 0 <= i < |xs| ==> ds[i] == Text.Decimal(xs[i])
  {
    if xs == [] then [] else [Text.Decimal(xs[0])] + Decimals(xs[1..])
  }

  /** `head + ArgText(xs)` is the space-join of `head` and the decimal texts. */
  lemma {:induction false} ArgTextJoin(head: string, xs: seq<int>)
    ensures head + ArgText(xs) == Text.Join([head] + Decimals(xs), ' ')
    decreases |xs|
  {
    if xs == [] {
      assert [head] + Decimals(xs) == [head];
    } else {
      var d := Text.Decimal(xs[0]);
      var rest := Decimals(xs[1..]);
      calc {
        head + ArgText(xs);
        head + (" " + d + ArgText(xs[1..]));
        { assert head + (" " + d + ArgText(xs[1..])) == (head + " " + d) + ArgText(xs[1..]); }
        (head + " " + d) + ArgText(xs[1..]);
        { ArgTextJoin(head + " " + d, xs[1..]); }
        Text.Join([head + " " + d] + rest, ' ');
        { JoinShift(head, d, rest); }
        Text.Join([head] + [d] + rest, ' ');
        { assert Decimals(xs) == [d] + rest; assert [head] + [d] + rest == [head] + Decimals(xs); }
        Text.Join([head] + Decimals(xs), ' ');
      }
    }
  }

  /** Joining `[a, b] + rest` is joining `[a + " " + b] + rest`. */
  lemma JoinShift(a: string, b: string, rest: seq<string>)
    ensures Text.Join([a] + [b] + rest, ' ') == Text.Join([a + " " + b] + rest, ' ')
  {
    var l := [a] + [b] + rest;
    assert l[1..] == [b] + rest;
    if rest == [] {
      assert Text.Join([b] + rest, ' ') == b;
    } else {
      assert ([b] + rest)[1..] == rest;
      assert ([a + " " + b] + rest)[1..] == rest;
    }
  }

  /** A built binary command holds no zero byte, decodes to the 4-byte header
      carrying the command ID big-endian, and its packed arguments unpack back
      to the arguments when they are in their canonical form. */
  lemma BinaryDecodesBack(e: Catalog.Entry, args: seq<int>)
    requires Build(e, "b", args).Ok?
    ensures var data := Build(e, "b", args).value.data;
      && (forall i :: 0 <= i < |data| ==> data[i] != 0)
      && Cobs.Decode(data).Some?
      && var frame := Cobs.Decode(data).value;
        && frame == BinaryFrame(e, args).value
        && frame[0] == 0 && frame[1] == 0 && BeValue(frame[2..4]) == e.cmdId
    ensures var items := StructFmt.ParseItems(e.args, false).value;
      StructFmt.CanonicalArgs(StructFmt.Fields(items), IntValues(args)) ==>
        StructFmt.Unpack(StructFmt.Fields(items), BinaryFrame(e, args).value[4..]) == Ok(IntValues(args))
  {
    var frame := BinaryFrame(e, args).value;
    Cobs.EncodeNoZero(frame);
    Cobs.DecodeEncode(frame);
    assert frame[2..4] == BeBytes(e.cmdId, 2);
    BeRoundTrip(e.cmdId, 2);
    var items := StructFmt.ParseItems(e.args, false).value;
    var fields := StructFmt.Fields(items);
    FieldsValid(items);
    if StructFmt.CanonicalArgs(fields, IntValues(args)) {
      StructFmt.PackUnpack(fields, IntValues(args));
      assert frame[4..] == StructFmt.Pack(fields, IntValues(args)).value;
    }
  }

  // ---------------------------------------------------------------------------
  // The code as written

  /** `build` as written: the ASCII branch is `Build`'s, but the binary branch
      packs its arguments with the literal format "!{self.args}", whose '{' is
      not a format character, so it always raises struct.error. */
  function BuildAsWritten(e: Catalog.Entry, mode: string, args: seq<int>): (r: Result<Command>)
    ensures Text.IsAsciiMode(mode) == Ok(true) ==> r == Build(e, mode, args)
  {
    var ascii :- Text.IsAsciiMode(mode);
    if ascii then Build(e, mode, args)
    else
      var header :- Header(e.cmdId);
      var items :- StructFmt.ParseItems(WrittenArgsFormat, false);
      var fields := StructFmt.Fields(items);
      assert StructFmt.ValidFields(fields) by { FieldsValid(items); }
      var packed :- StructFmt.Pack(fields, IntValues(args));
      Ok(BinaryCommand(Cobs.Encode(header + packed)))
  }

  /** The argument format as written, after the '!' byte-order prefix. */
  const WrittenArgsFormat: string := "{self.args}"


  /** Binary building as written fails for every entry and every argument list. */
  lemma MissingFormatPrefix(e: Catalog.Entry, mode: string, args: seq<int>)
    requires Text.IsAsciiMode(mode) == Ok(false)
    ensures BuildAsWritten(e, mode, args) == Raise(StructError)
  {
    WrittenFormatRejected();
  }

  /** '{' is not a format character. */
  lemma WrittenFormatRejected()
    ensures StructFmt.ParseItems(WrittenArgsFormat, false) == Raise(StructError)
  {
    var f := WrittenArgsFormat;
    assert f[0] == '{';
    StructFmt.BadLeadRejected(f, false);
  }

  /** The intended build succeeds where the as-written one fails: a command with
      no arguments and an ID that fits 16 bits. */
  lemma MissingFormatPrefixWitness(e: Catalog.Entry)
    requires e.args == [] && e.cmdId < 65536
    ensures Build(e, "b", []).Ok? && BuildAsWritten(e, "b", []) == Raise(StructError)
  {
    MissingFormatPrefix(e, "b", []);
  }

  /** `command.build(mode, *args)` as the session calls it. With no arguments
      it is `build(mode)`. With one argument, the integer is bound to the list
      parameter, and indexing or unpacking it raises TypeError. With two or
      more, the call has too many positional arguments: TypeError. */
  function BuildCalledWithVarargs(e: Catalog.Entry, mode: string, args: seq<int>): (r: Result<Command>)
    ensures args == [] ==> r == BuildAsWritten(e, mode, [])
    ensures |args| >= 2 ==> r == Raise(TypeError)
  {
    if args == [] then BuildAsWritten(e, mode, [])
    else if |args| >= 2 then Raise(TypeError)
    else
      var ascii :- Text.IsAsciiMode(mode);
      if ascii then Raise(TypeError)
      else
        var header :- Header(e.cmdId);
        Raise(TypeError)
  }

  /** Every call with arguments fails, while the intended build succeeds for
      ASCII commands given as many arguments as their format has characters. */
  lemma VarargsCall(e: Catalog.Entry, args: seq<int>)
    requires |args| >= 1 && |args| >= |e.args|
    ensures BuildCalledWithVarargs(e, "a", args) == Raise(TypeError)
    ensures BuildCalledWithVarargs(e, "b", args).Raise?
    ensures Build(e, "a", args).Ok?
  {
  }
}
