/** Setup scripts: text files with one command per line, read by
    `parse_setup_config` (pywub/catalog.py) and by its older variant
    `parse_config` (pywub/control.py).

    A line is split at single spaces into tokens: an optional hexadecimal base
    mask (only `parse_setup_config` looks for one), the command name, a sleep
    time kept as text, then the arguments. Digit-only arguments become ints and
    every other argument must be a float literal. */
module Setup {
  import opened Wrappers
  import Text

  /** A converted argument. A float is kept as its literal text: the model does
      not compute binary floating point. */
  datatype Arg = IntArg(value: nat) | FloatArg(literal: string)

  /** One script line. `mask` is always None for the older reader, whose
      dictionaries have no mask entry. */
  datatype Setting = Setting(name: string, sleeptime: string, args: Option<seq<Arg>>, mask: Option<int>)

  /** `parse_setup_config` (with a mask column) or `parse_config` (without). */
  datatype Dialect = WithMask | Legacy

  /** `int(arg)` when `arg.isnumeric()`, else `float(arg)`. */
  function ArgValue(a: string): Result<Arg>
  {
    if Text.IsNumeric(a) then Ok(IntArg(Text.NumericValue(a)))
    else if Text.IsFloatLiteral(a) then Ok(FloatArg(a))
    else Raise(ValueError)
  }

  /** The argument list converted left to right; a bad argument raises ValueError. */
  function ConvertArgs(ws: seq<string>): (r: Result<seq<Arg>>)
    ensures r.Ok? <==> forall i :: 0 <= i < |ws| ==> ArgValue(ws[i]).Ok?
    ensures r.Ok? ==> |r.value| == |ws| && forall i :: 0 <= i < |ws| ==> r.value[i] == ArgValue(ws[i]).value
    ensures !r.Ok? ==> r == Raise(ValueError)
  {
    Collect(ArgValues(ws))
  }

  /** The conversion of each argument. */
  function ArgValues(ws: seq<string>): (vs: seq<Result<Arg>>)
    ensures |vs| == |ws| && forall i :: 0 <= i < |ws| ==> vs[i] == ArgValue(ws[i])
  {
    seq(|ws|, i requires 0 <= i < |ws| => ArgValue(ws[i]))
  }

  /** The converted values in order, or ValueError at the first failure. */
  function Collect(vs: seq<Result<Arg>>): (r: Result<seq<Arg>>)
    ensures r.Ok? <==> forall i :: 0 <= i < |vs| ==> vs[i].Ok?
    ensures r.Ok? ==> |r.value| == |vs| && forall i :: 0 <= i < |vs| ==> r.value[i] == vs[i].value
    ensures !r.Ok? ==> r == Raise(ValueError)
  {
    if vs == [] then Ok([])
    else
      var front := vs[..|vs| - 1];
      assert forall i :: 0 <= i < |front| ==> front[i] == vs[i];
      match Collect(front)
      case Raise(_) => Raise(ValueError)
      case Ok(init) =>
        match vs[|vs| - 1]
        case Raise(_) => Raise(ValueError)
        case Ok(x) =>
          assert forall i :: 0 <= i < |front| ==> (init + [x])[i] == init[i];
          Ok(init + [x])
  }

  /** Whether the dialect reads the first token as a mask: `int(spl[0], 16)`
      succeeds. */
  predicate HasMask(d: Dialect, spl: seq<string>)
    requires |spl| >= 1
  {
    d == WithMask && Text.ParseHex(spl[0]).Ok?
  }

  /** One line of a script; `Ok(None)` for a line that is skipped. The older
      reader indexes `setting[0]` before any length test, so an empty line
      raises IndexError there. */
  function ParseLine(d: Dialect, line: string): Result<Option<Setting>>
  {
    if line == [] then (if d == Legacy then Raise(IndexError) else Ok(None))
    else if line[0] == '#' then Ok(None)
    else ParseTokens(d, Text.SplitOn(line, ' '))
  }

  /** The tokens of a line that is neither empty nor a comment. */
  function ParseTokens(d: Dialect, spl: seq<string>): Result<Option<Setting>>
    requires |spl| >= 1
  {
    ParseFields(spl, MaskOf(d, spl))
  }

  /** The base mask a line carries, if the dialect reads one. */
  function MaskOf(d: Dialect, spl: seq<string>): (m: Option<int>)
    requires |spl| >= 1
    ensures m.Some? <==> HasMask(d, spl)
    ensures m.Some? ==> m.value == Text.ParseHex(spl[0]).value
  {
    if HasMask(d, spl) then Some(Text.ParseHex(spl[0]).value) else None
  }

  /** The fields after the mask, if any: name, sleep time, arguments. */
  function ParseFields(spl: seq<string>, mask: Option<int>): Result<Option<Setting>>
  {
    var offset := if mask.Some? then 1 else 0;
    if |spl| < 2 + offset then Raise(IndexError)
    else if |spl| <= 2 then Ok(Some(Setting(spl[offset], spl[1 + offset], None, mask)))
    else
      match ConvertArgs(spl[2 + offset..])
      case Raise(e) => Raise(e)
      case Ok(args) => Ok(Some(Setting(spl[offset], spl[1 + offset], Some(args), mask)))
  }

  /** What a parsed line holds: the mask shifts the name and the sleep time
      one token to the right, and the arguments are None exactly when the line
      has at most two tokens (the test counts the mask). */
  lemma ParseLineShape(d: Dialect, line: string)
    ensures ParseLine(d, line) == Ok(None) <==> (line != [] || d == WithMask) && (line == [] || line[0] == '#')
    ensures line == [] && d == Legacy ==> ParseLine(d, line) == Raise(IndexError)
    ensures ParseLine(d, line).Ok? && ParseLine(d, line).value.Some? ==>
      var st := ParseLine(d, line).value.value;
      var spl := Text.SplitOn(line, ' ');
      var offset := if HasMask(d, spl) then 1 else 0;
      && |spl| >= 2 + offset
      && st.name == spl[offset]
      && st.sleeptime == spl[1 + offset]
      && (st.mask.Some? <==> HasMask(d, spl))
      && (st.args.None? <==> |spl| <= 2)
  {
  }

  /** The settings of a list of lines, in order; the first failing line's
      exception is the result. */
  function ParseLines(d: Dialect, lines: seq<string>): (r: Result<seq<Setting>>)
    ensures r.Ok? <==> forall i :: 0 <= i < |lines| ==> ParseLine(d, lines[i]).Ok?
    ensures r.Ok? ==> |r.value| <= |lines|
    ensures r.Raise? ==> exists i :: FirstFailingLine(d, lines, i) && r == Raise(ParseLine(d, lines[i]).exn)
  {
    Gather(Parsed(d, lines))
  }

  /** Line `i` is the first line that does not parse. */
  predicate FirstFailingLine(d: Dialect, lines: seq<string>, i: int)
  {
    0 <= i < |lines| && ParseLine(d, lines[i]).Raise? && forall j :: 0 <= j < i ==> ParseLine(d, lines[j]).Ok?
  }

  /** The result of each line. */
  function Parsed(d: Dialect, lines: seq<string>): (rs: seq<Result<Option<Setting>>>)
    ensures |rs| == |lines| && forall i :: 0 <= i < |lines| ==> rs[i] == ParseLine(d, lines[i])
  {
    seq(|lines|, i requires 0 <= i < |lines| => ParseLine(d, lines[i]))
  }

  /** The settings kept from a run of line results, or the first failure. */
  function Gather(rs: seq<Result<Option<Setting>>>): (r: Result<seq<Setting>>)
    ensures r.Ok? <==> forall i :: 0 <= i < |rs| ==> rs[i].Ok?
    ensures r.Ok? ==> |r.value| <= |rs|
    ensures r.Raise? ==> exists i :: 0 <= i < |rs| && rs[i].Raise? && r == Raise(rs[i].exn) && forall j :: 0 <= j < i ==> rs[j].Ok?
  {
    if rs == [] then Ok([])
    else
      var front := rs[..|rs| - 1];
      assert forall i :: 0 <= i < |front| ==> front[i] == rs[i];
      match Gather(front)
      case Raise(e) => Raise(e)
      case Ok(init) =>
        match rs[|rs| - 1]
        case Raise(e) => Raise(e)
        case Ok(one) => Ok(init + (if one.Some? then [one.value] else []))
  }

  /** The whole script, split at newlines. */
  function ParseScript(d: Dialect, config: string): Result<seq<Setting>>
  {
    ParseLines(d, Text.SplitOn(config, '\n'))
  }

  // ---------------------------------------------------------------------------
  // The readers as loops

  /** One line, with the argument conversion loop. */
  method ReadSetting(d: Dialect, line: string) returns (r: Result<Option<Setting>>)
    ensures r == ParseLine(d, line)
  {
    if line == [] {
      if d == Legacy { return Raise(IndexError); }
      return Ok(None);
    }
    if line[0] == '#' {
      return Ok(None);
    }
    r := ReadTokens(d, Text.SplitOn(line, ' '));
  }

  /** The tokens of a line that is neither empty nor a comment. */
  method ReadTokens(d: Dialect, spl: seq<string>) returns (r: Result<Option<Setting>>)
    requires |spl| >= 1
    ensures r == ParseTokens(d, spl)
  {
    var mask: Option<int> := None;
    if d == WithMask {
      var hex := Text.ParseHex(spl[0]);
      if hex.Ok? {
        mask := Some(hex.value);
      }
    }
    assert mask == MaskOf(d, spl);
    r := ReadFields(spl, mask);
  }

  /** The fields after the mask, with the argument conversion loop. */
  method ReadFields(spl: seq<string>, mask: Option<int>) returns (r: Result<Option<Setting>>)
    ensures r == ParseFields(spl, mask)
  {
    var offset := if mask.Some? then 1 else 0;
    if |spl| < 2 + offset {
      r := Raise(IndexError);
    } else if |spl| <= 2 {
      r := Ok(Some(Setting(spl[offset], spl[1 + offset], None, mask)));
    } else {
      var args := ConvertArgList(spl[2 + offset..]);
      r := if args.Raise? then Raise(args.exn)
        else Ok(Some(Setting(spl[offset], spl[1 + offset], Some(args.value), mask)));
    }
  }

  /** The argument conversion loop. */
  method ConvertArgList(ws: seq<string>) returns (r: Result<seq<Arg>>)
    ensures r == ConvertArgs(ws)
  {
    ghost var vs := ArgValues(ws);
    var args: seq<Arg> := [];
    var j := 0;
    while j < |ws|
      invariant 0 <= j <= |ws|
      invariant Collect(vs[..j]) == Ok(args)
    {
      var a := ArgValue(ws[j]);
      assert a == vs[j];
      CollectStep(vs, j);
      if a.Raise? {
        CollectPrefix(vs, j + 1);
        return Raise(ValueError);
      }
      args := args + [a.value];
      j := j + 1;
    }
    assert vs[..j] == vs;
    return Ok(args);
  }

  /** One more value on a prefix that converted. */
  lemma CollectStep(vs: seq<Result<Arg>>, j: nat)
    requires j < |vs| && Collect(vs[..j]).Ok?
    ensures Collect(vs[..j + 1]) ==
      match vs[j]
      case Raise(_) => Raise(ValueError)
      case Ok(x) => Ok(Collect(vs[..j]).value + [x])
  {
    assert vs[..j + 1][..j] == vs[..j];
  }

  /** Once a prefix of the values fails, the whole conversion fails. */
  lemma {:induction false} CollectPrefix(vs: seq<Result<Arg>>, j: nat)
    requires j <= |vs| && Collect(vs[..j]).Raise?
    ensures Collect(vs) == Raise(ValueError)
    decreases |vs| - j
  {
    if j < |vs| {
      var init := vs[..|vs| - 1];
      assert init[..j] == vs[..j];
      CollectPrefix(init, j);
    } else {
      assert vs[..j] == vs;
    }
  }

  /** `parse_setup_config` (WithMask) and `parse_config` (Legacy) on the file's text. */
  method ReadScript(d: Dialect, config: string) returns (r: Result<seq<Setting>>)
    ensures r == ParseScript(d, config)
  {
    var lines := Text.SplitOn(config, '\n');
    ghost var rs := Parsed(d, lines);
    var settings: seq<Setting> := [];
    var i := 0;
    while i < |lines|
      invariant 0 <= i <= |lines|
      invariant Gather(rs[..i]) == Ok(settings)
    {
      var one := ReadSetting(d, lines[i]);
      assert one == rs[i];
      GatherStep(rs, i);
      if one.Raise? {
        GatherPrefix(rs, i + 1);
        return Raise(one.exn);
      }
      var parsed := one.value;
      settings := settings + (if parsed.Some? then [parsed.value] else []);
      assert Gather(rs[..i + 1]) == Ok(settings);
      i := i + 1;
    }
    assert rs[..i] == rs;
    return Ok(settings);
  }

  /** One more line result on a prefix that gathered. */
  lemma GatherStep(rs: seq<Result<Option<Setting>>>, i: nat)
    requires i < |rs| && Gather(rs[..i]).Ok?
    ensures Gather(rs[..i + 1]) ==
      match rs[i]
      case Raise(e) => Raise(e)
      case Ok(one) => Ok(Gather(rs[..i]).value + (if one.Some? then [one.value] else []))
  {
    assert rs[..i + 1][..i] == rs[..i];
  }

  /** Once a prefix of the results fails, the whole run fails the same way. */
  lemma {:induction false} GatherPrefix(rs: seq<Result<Option<Setting>>>, j: nat)
    requires j <= |rs| && Gather(rs[..j]).Raise?
    ensures Gather(rs) == Gather(rs[..j])
    decreases |rs| - j
  {
    if j < |rs| {
      var init := rs[..|rs| - 1];
      assert init[..j] == rs[..j];
      GatherPrefix(init, j);
    } else {
      assert rs[..j] == rs;
    }
  }

  // ---------------------------------------------------------------------------
  // Laws

  /** Text of a setting line as a script author writes it: an optional mask in
      hexadecimal, the name, the sleep time and decimal int arguments. */
  function SettingText(mask: Option<int>, name: string, sleeptime: string, ints: seq<nat>): string
  {
    Text.Join((if mask.Some? then [Text.HexText(mask.value)] else []) + [name, sleeptime] + NatDecimals(ints), ' ')
  }

  function NatDecimals(ns: seq<nat>): (ds: seq<string>)
    ensures |ds| == |ns| && forall i :: 0 <= i < |ns| ==> ds[i] == Text.Decimal(ns[i])
  {
    if ns == [] then [] else [Text.Decimal(ns[0])] + NatDecimals(ns[1..])
  }

  function IntArgs(ns: seq<nat>): (xs: seq<Arg>)
    ensures |xs| == |ns| && forall i :: 0 <= i < |ns| ==> xs[i] == IntArg(ns[i])
  {
    if ns == [] then [] else [IntArg(ns[0])] + IntArgs(ns[1..])
  }

  /** `parse_setup_config` reads a written line back. Without a mask the name
      must not itself read as hexadecimal (otherwise it becomes the mask); with
      a mask and no arguments the argument list is empty rather than None,
      because the three-token test counts the mask. */
  lemma SettingRoundTrip(mask: Option<int>, name: string, sleeptime: string, ints: seq<nat>)
    requires ' ' !in name && ' ' !in sleeptime
    requires mask.None? ==> name != [] && name[0] != '#' && !Text.ParseHex(name).Ok?
    ensures ParseLine(WithMask, SettingText(mask, name, sleeptime, ints)) ==
      Ok(Some(Setting(name, sleeptime, if ints == [] && mask.None? then None else Some(IntArgs(ints)), mask)))
  {
    var head := if mask.Some? then [Text.HexText(mask.value)] else [];
    var fields := head + [name, sleeptime] + NatDecimals(ints);
    var line := SettingText(mask, name, sleeptime, ints);
    SettingTokens(mask, name, sleeptime, ints);
    if mask.Some? {
      Text.HexRoundTrip(mask.value);
      HexTextLead(mask.value);
    }
    JoinHead(fields, ' ');
    assert line != [] && line[0] != '#';
    assert MaskOf(WithMask, fields) == mask;
    SettingFields(mask, name, sleeptime, ints);
  }

  /** The fields of a written line, after its mask, read back. */
  lemma SettingFields(mask: Option<int>, name: string, sleeptime: string, ints: seq<nat>)
    ensures
      var head := if mask.Some? then [Text.HexText(mask.value)] else [];
      ParseFields(head + [name, sleeptime] + NatDecimals(ints), mask) ==
        Ok(Some(Setting(name, sleeptime, if ints == [] && mask.None? then None else Some(IntArgs(ints)), mask)))
  {
    var head := if mask.Some? then [Text.HexText(mask.value)] else [];
    var fields := head + [name, sleeptime] + NatDecimals(ints);
    assert fields[2 + |head|..] == NatDecimals(ints);
    DecimalArgs(ints);
  }

  /** The tokens of a written line are its fields. */
  lemma SettingTokens(mask: Option<int>, name: string, sleeptime: string, ints: seq<nat>)
    requires ' ' !in name && ' ' !in sleeptime
    ensures
      var head := if mask.Some? then [Text.HexText(mask.value)] else [];
      Text.SplitOn(SettingText(mask, name, sleeptime, ints), ' ') == head + [name, sleeptime] + NatDecimals(ints)
  {
    var head := if mask.Some? then [Text.HexText(mask.value)] else [];
    if mask.Some? {
      HexTextNoSpace(mask.value);
    }
    DecimalsNoSpace(ints);
    FieldsNoSpace(head, name, sleeptime, NatDecimals(ints));
    Text.SplitJoin(head + [name, sleeptime] + NatDecimals(ints), ' ');
  }

  lemma DecimalsNoSpace(ints: seq<nat>)
    ensures forall i :: 0 <= i < |ints| ==> ' ' !in NatDecimals(ints)[i]
  {
    forall i | 0 <= i < |ints| ensures ' ' !in NatDecimals(ints)[i] {
      Text.DecimalNoSpace(ints[i]);
    }
  }

  /** The fields of a line hold no space when each part holds none. */
  lemma FieldsNoSpace(head: seq<string>, name: string, sleeptime: string, ds: seq<string>)
    requires forall i :: 0 <= i < |head| ==> ' ' !in head[i]
    requires ' ' !in name && ' ' !in sleeptime
    requires forall i :: 0 <= i < |ds| ==> ' ' !in ds[i]
    ensures forall i :: 0 <= i < |head + [name, sleeptime] + ds| ==> ' ' !in (head + [name, sleeptime] + ds)[i]
  {
    var fields := head + [name, sleeptime] + ds;
    forall i | 0 <= i < |fields| ensures ' ' !in fields[i] {
      if i >= |head| + 2 {
        assert fields[i] == ds[i - |head| - 2];
      }
    }
  }

  /** Decimal texts of naturals convert back to the same ints. */
  lemma DecimalArgs(ints: seq<nat>)
    ensures ConvertArgs(NatDecimals(ints)) == Ok(IntArgs(ints))
  {
    var ws := NatDecimals(ints);
    forall i | 0 <= i < |ws| ensures ArgValue(ws[i]) == Ok(IntArg(ints[i])) {
      Text.DecimalRoundTrip(ints[i]);
    }
    var r := ConvertArgs(ws);
    assert r.Ok?;
    assert r.value == IntArgs(ints);
  }

  /** The first character of a join is the first field's, when that is nonempty. */
  lemma JoinHead(fields: seq<string>, sep: char)
    requires |fields| >= 1 && fields[0] != []
    ensures Text.Join(fields, sep) != [] && Text.Join(fields, sep)[0] == fields[0][0]
  {
  }

  lemma HexTextNoSpace(v: int)
    ensures ' ' !in Text.HexText(v)
  {
    Text.HexTextShape(v);
  }

  /** Hexadecimal text is never empty and never starts with '#'. */
  lemma HexTextLead(v: int)
    ensures Text.HexText(v) != [] && Text.HexText(v)[0] != '#'
  {
    var n: nat := if v < 0 then -v else v;
    var ds := Text.NatDigits(n, 16);
    assert Text.IsDigitIn(ds[0], 16);
  }

  /** The line "dac 100 5" is read with base mask 0xDAC, command "100" and sleep
      time "5", because "dac" parses as hexadecimal. */
  lemma DacLineIsMasked()
    ensures ParseLine(WithMask, "dac 100 5") == Ok(Some(Setting("100", "5", Some([]), Some(0xDAC))))
  {
    var line := "dac 100 5";
    DacTokens();
    DacFields();
    assert line != [] && line[0] != '#';
  }

  /** The three tokens of that line, with "dac" read as the mask. */
  lemma DacFields()
    ensures ParseTokens(WithMask, ["dac", "100", "5"]) == Ok(Some(Setting("100", "5", Some([]), Some(0xDAC))))
  {
    var spl := ["dac", "100", "5"];
    DacHex();
    assert HasMask(WithMask, spl);
    assert spl[3..] == [];
  }

  lemma DacTokens()
    ensures Text.SplitOn("dac 100 5", ' ') == ["dac", "100", "5"]
  {
    Text.SplitJoin(["dac", "100", "5"], ' ');
    assert Text.Join(["dac", "100", "5"], ' ') == "dac 100 5";
  }

  lemma DacHex()
    ensures Text.ParseHex("dac") == Ok(0xDAC)
  {
    assert Text.HexText(0xDAC) == "dac" by {
      assert Text.NatDigits(0xD, 16) == "d";
      assert Text.NatDigits(0xDA, 16) == "da";
      assert Text.NatDigits(0xDAC, 16) == "dac";
    }
    Text.HexRoundTrip(0xDAC);
  }

  /** Without a mask column the older reader agrees with `parse_setup_config`
      on every nonempty line. */
  lemma LegacyAgrees(line: string)
    requires line != [] && !Text.ParseHex(Text.SplitOn(line, ' ')[0]).Ok?
    ensures ParseLine(Legacy, line) == ParseLine(WithMask, line)
  {
  }

  /** `parse_config` fails on every script that ends with a newline: the last
      field of the split is empty and `setting[0]` raises. */
  lemma LegacyTrailingNewline(config: string)
    requires config != [] && config[|config| - 1] == '\n'
    ensures ParseScript(Legacy, config).Raise?
  {
    var lines := Text.SplitOn(config, '\n');
    Text.SplitLastEmpty(config, '\n');
    assert !ParseLine(Legacy, lines[|lines| - 1]).Ok?;
  }
}
