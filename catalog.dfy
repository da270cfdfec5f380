/** The wuBase command catalog (pywub/catalog.py).

    Every firmware command is an entry read from one line of the command table:
    its name, the service it belongs to, its firmware-side name, and two
    `struct` format strings for its arguments and return values. Entries get
    consecutive 16-bit command IDs from 0x3030 in table order. The catalog
    indexes the entries by name and by ID and answers lookups by a
    case-insensitive attribute name. */
module Catalog {
  import opened Wrappers
  import Text

  // ---------------------------------------------------------------------------
  // Services and response codes

  /** `wubCMD_SERV` */
  datatype Service = SlowCtrl | Data

  function ServiceCode(s: Service): (c: nat)
    ensures c == 0x3030 || c == 0x3031
  {
    match s
    case SlowCtrl => 0x3030
    case Data => 0x3031
  }

  /** `wubCMD_SERV[name]`: lookup by member name, KeyError otherwise. */
  function ServiceNamed(name: string): (r: Result<Service>)
    ensures r.Ok? <==> name == "SERV_SLOW_CTRL" || name == "SERV_DATA"
    ensures r.Ok? ==> ServiceCode(r.value) == if name == "SERV_SLOW_CTRL" then 0x3030 else 0x3031
  {
    if name == "SERV_SLOW_CTRL" then Ok(SlowCtrl)
    else if name == "SERV_DATA" then Ok(Data)
    else Raise(KeyError)
  }

  /** `wubCMD_RC`: the one-byte return code the firmware appends to a binary reply. */
  datatype Rc =
    | RcOk | InvalidArgumentCount | InvalidCommand | InvalidNumber | OutOfRange
    | CommandFailed | Busy | Timeout | BadCrc | InvalidUnpack | Waiting
    | RespTimeout | Invalid

  /** The codes, in declaration order. */
  const AllRcs: seq<Rc> := [RcOk, InvalidArgumentCount, InvalidCommand, InvalidNumber, OutOfRange,
                            CommandFailed, Busy, Timeout, BadCrc, InvalidUnpack, Waiting,
                            RespTimeout, Invalid]

  /** `CMD_RC_OK` is `ord('a')` and each later member is one more (`auto()`). */
  function RcCode(rc: Rc): (c: nat)
    ensures 97 <= c <= 109
  {
    match rc
    case RcOk => 97
    case InvalidArgumentCount => 98
    case InvalidCommand => 99
    case InvalidNumber => 100
    case OutOfRange => 101
    case CommandFailed => 102
    case Busy => 103
    case Timeout => 104
    case BadCrc => 105
    case InvalidUnpack => 106
    case Waiting => 107
    case RespTimeout => 108
    case Invalid => 109
  }

  /** The member's `.name`. */
  function RcName(rc: Rc): string
  {
    match rc
    case RcOk => "CMD_RC_OK"
    case InvalidArgumentCount => "CMD_RC_INVALID_ARGUMENT_COUNT"
    case InvalidCommand => "CMD_RC_INVALID_COMMAND"
    case InvalidNumber => "CMD_RC_INVALID_NUMBER"
    case OutOfRange => "CMD_RC_OUT_OF_RANGE"
    case CommandFailed => "CMD_RC_COMMAND_FAILED"
    case Busy => "CMD_RC_BUSY"
    case Timeout => "CMD_RC_TIMEOUT"
    case BadCrc => "CMD_RC_BADCRC"
    case InvalidUnpack => "CMD_RC_INVALID_UNPACK"
    case Waiting => "CMD_RC_WAITING"
    case RespTimeout => "CMD_RC_RESP_TIMEOUT"
    case Invalid => "CMD_RC_INVALID"
  }

  /** `wubCMD_RC(code)`: ValueError for a value that is not a member. */
  function RcOf(code: int): (r: Result<Rc>)
    ensures r.Ok? <==> 97 <= code <= 109
    ensures r.Ok? ==> RcCode(r.value) == code
  {
    if 97 <= code <= 109 then Ok(AllRcs[code - 97]) else Raise(ValueError)
  }

  /** The codes run consecutively from 'a' in declaration order, and each code
      names exactly one member. */
  lemma RcBijection(rc: Rc)
    ensures RcOf(RcCode(rc)) == Ok(rc)
    ensures forall i :: 0 <= i < |AllRcs| ==> RcCode(AllRcs[i]) == 97 + i
    ensures rc in AllRcs
  {
  }

  // ---------------------------------------------------------------------------
  // Entries

  /** A `wubCMD_entry` once constructed. */
  datatype Entry = Entry(name: string, service: Service, cmdName: string, cmdId: nat,
                         args: string, retargs: string)

  const CmdBaseId: nat := 0x3030

  /** The format `wubCMD_entry` forces for the version command. */
  const VersionRetargs: string := "30sb30sb"

  /** The entry fields once cleaned; the ID is supplied by the caller. */
  function Clean(name: string, service: Service, cmdName: string, cmdId: nat,
                 args: string, retargs: string): (e: Entry)
    ensures '"' !in e.args && '"' !in e.retargs
    ensures e.name == [] || (e.name[0] != '"' && e.name[|e.name| - 1] != '"')
    ensures Text.Lower(e.cmdName) == "cmd_version" ==> e.retargs == VersionRetargs
    ensures e.cmdId == cmdId && e.service == service
  {
    var cleanName := Text.Strip(cmdName, {' '});
    var cleanArgs := Text.Strip(Text.RemoveChar(args, '"'), {' '});
    var cleanRet := Text.Strip(Text.RemoveChar(retargs, '"'), {' '});
    var version := Text.Lower(cleanName) == "cmd_version";
    assert '"' !in cleanArgs && '"' !in cleanRet && '"' !in VersionRetargs;
    Entry(Text.Strip(name, {'"'}), service, cleanName, cmdId, cleanArgs,
          if version then VersionRetargs else cleanRet)
  }

  /** The class-level state of `wubCMD_entry`: how many entries were created. */
  class EntryFactory {
    var numCmd: nat

    constructor ()
      ensures numCmd == 0
    {
      numCmd := 0;
    }

    /** `wubCMD_entry(name, service, cmd_name, args, retargs)`. An unknown
        service name raises KeyError before the counter moves; otherwise the
        entry gets ID 0x3030 + the number of entries made before it. */
    method NewEntry(name: string, service: string, cmdName: string, args: string, retargs: string)
      returns (r: Result<Entry>)
      modifies this
      ensures ServiceNamed(Text.Strip(service, {' '})).Raise? ==> r == Raise(KeyError) && numCmd == old(numCmd)
      ensures ServiceNamed(Text.Strip(service, {' '})).Ok? ==>
        && numCmd == old(numCmd) + 1
        && r == Ok(Clean(name, ServiceNamed(Text.Strip(service, {' '})).value, cmdName,
                         CmdBaseId + old(numCmd), args, retargs))
    {
      var svc := ServiceNamed(Text.Strip(service, {' '}));
      if svc.Raise? {
        return Raise(KeyError);
      }
      var id := CmdBaseId + numCmd;
      numCmd := numCmd + 1;
      r := Ok(Clean(name, svc.value, cmdName, id, args, retargs));
    }

    /** The module-level loader: each table line becomes an entry, and the
        first failure ends the load, with the counter advanced by the lines
        loaded before it. */
    method LoadLines(lines: seq<string>) returns (r: Result<seq<Entry>>)
      modifies this
      ensures r == LoadTable(lines, old(numCmd), LineEntry)
      ensures r.Ok? ==> numCmd == old(numCmd) + |lines|
      ensures r.Raise? ==>
        && old(numCmd) <= numCmd < old(numCmd) + |lines|
        && LoadTable(lines[..numCmd - old(numCmd)], old(numCmd), LineEntry).Ok?
        && LoadTable(lines[..numCmd - old(numCmd) + 1], old(numCmd), LineEntry) == r
    {
      var entries: seq<Entry> := [];
      var i := 0;
      while i < |lines|
        invariant 0 <= i <= |lines|
        invariant numCmd == old(numCmd) + i
        invariant LoadTable(lines[..i], old(numCmd), LineEntry) == Ok(entries)
      {
        ghost var id := numCmd;
        var e := LoadLine(lines[i]);
        LoadTableStep(lines, i, old(numCmd), LineEntry, id, e);
        if e.Raise? {
          r := Raise(e.exn);
          LoadTablePrefix(lines, i + 1, old(numCmd), LineEntry);
          assert numCmd - old(numCmd) == i;
          return;
        }
        entries := entries + [e.value];
        i := i + 1;
      }
      assert lines[..i] == lines;
      return Ok(entries);
    }

    /** One line of the command table: `line.rstrip()[1:-2].split(",")` gives the
        five constructor arguments. */
    method LoadLine(line: string) returns (r: Result<Entry>)
      modifies this
      ensures r == LineEntry(line, old(numCmd))
      ensures numCmd == if r.Ok? then old(numCmd) + 1 else old(numCmd)
    {
      var fields := TableFields(line);
      if |fields| != 5 {
        return Raise(TypeError);
      }
      r := NewEntry(fields[0], fields[1], fields[2], fields[3], fields[4]);
    }
  }

  /** The entry one table line yields while `count` entries exist: any field
      count other than five is a TypeError from the constructor call, an
      unknown service a KeyError, and otherwise the entry is the cleaned
      fields with ID 0x3030 + `count`. */
  function LineEntry(line: string, count: nat): (r: Result<Entry>)
    ensures |TableFields(line)| != 5 ==> r == Raise(TypeError)
    ensures r.Ok? ==> r.value.cmdId == CmdBaseId + count
  {
    var fields := TableFields(line);
    if |fields| != 5 then Raise(TypeError)
    else
      var svc :- ServiceNamed(Text.Strip(fields[1], {' '}));
      Ok(Clean(fields[0], svc, fields[2], CmdBaseId + count, fields[3], fields[4]))
  }

  /** The load of a whole table whose first line gets ID 0x3030 + `count`,
      each line turned into an entry by `entryOf`: the entries of all lines
      in order, or the first line's failure. */
  function LoadTable(lines: seq<string>, count: nat, entryOf: (string, nat) -> Result<Entry>)
    : (r: Result<seq<Entry>>)
    ensures r.Ok? ==> |r.value| == |lines|
    decreases |lines|
  {
    if lines == [] then Ok([])
    else
      var init :- LoadTable(lines[..|lines| - 1], count, entryOf);
      var e :- entryOf(lines[|lines| - 1], count + |lines| - 1);
      Ok(init + [e])
  }

  /** One more line extends the load by that line's entry, or fails with it. */
  lemma LoadTableStep(lines: seq<string>, i: nat, count: nat, entryOf: (string, nat) -> Result<Entry>,
                      id: nat, e: Result<Entry>)
    requires i < |lines| && LoadTable(lines[..i], count, entryOf).Ok?
    requires id == count + i && e == entryOf(lines[i], id)
    ensures LoadTable(lines[..i + 1], count, entryOf) ==
      if e.Raise? then Raise(e.exn) else Ok(LoadTable(lines[..i], count, entryOf).value + [e.value])
  {
    assert lines[..i + 1][..i] == lines[..i];
  }

  /** A failing prefix fails the whole table the same way. */
  lemma {:induction false} LoadTablePrefix(lines: seq<string>, k: nat, count: nat,
                                           entryOf: (string, nat) -> Result<Entry>)
    requires k <= |lines| && LoadTable(lines[..k], count, entryOf).Raise?
    ensures LoadTable(lines, count, entryOf) == LoadTable(lines[..k], count, entryOf)
    decreases |lines|
  {
    if k < |lines| {
      var init := lines[..|lines| - 1];
      assert init[..k] == lines[..k];
      LoadTablePrefix(init, k, count, entryOf);
    } else {
      assert lines[..k] == lines;
    }
  }

  /** The table loads exactly when every line does, line `i` with ID
      0x3030 + `count` + `i`, and then entry `i` is line `i`'s entry. */
  lemma {:induction false} LoadTableLines(lines: seq<string>, count: nat,
                                          entryOf: (string, nat) -> Result<Entry>)
    ensures LoadTable(lines, count, entryOf).Ok? <==>
      forall i :: 0 <= i < |lines| ==> entryOf(lines[i], count + i).Ok?
    ensures LoadTable(lines, count, entryOf).Ok? ==> forall i :: 0 <= i < |lines| ==>
      LoadTable(lines, count, entryOf).value[i] == entryOf(lines[i], count + i).value
    decreases |lines|
  {
    if lines != [] {
      var last := |lines| - 1;
      var init := lines[..last];
      LoadTableLines(init, count, entryOf);
      assert forall i :: 0 <= i < last ==> init[i] == lines[i];
    }
  }

  /** Loaded entries carry consecutive IDs from 0x3030 + `count`, so each
      is found by its ID in the catalog's ID index. */
  lemma LoadedIdsFind(lines: seq<string>, count: nat, i: nat)
    requires LoadTable(lines, count, LineEntry).Ok? && i < |lines|
    ensures var entries := LoadTable(lines, count, LineEntry).value;
      && entries[i].cmdId == CmdBaseId + count + i
      && entries[i].cmdId in IdIndex(entries) && IdIndex(entries)[entries[i].cmdId] == entries[i]
  {
    var entries := LoadTable(lines, count, LineEntry).value;
    LoadTableLines(lines, count, LineEntry);
    forall k | 0 <= k < |entries|
      ensures entries[k].cmdId == CmdBaseId + count + k
    {
      assert entries[k] == LineEntry(lines[k], count + k).value;
    }
    IdIndexFinds(entries, CmdBaseId + count, i);
  }

  /** A line written as the command table writes it, five comma-free fields
      in parentheses followed by a comma and a newline, loads to the cleaned
      entry of exactly those fields, or KeyError for an unknown service. */
  lemma TableLineLoads(fields: seq<string>, count: nat)
    requires |fields| == 5 && forall i :: 0 <= i < 5 ==> ',' !in fields[i]
    ensures var line := "(" + Text.Join(fields, ',') + ")," + "\n";
      var svc := ServiceNamed(Text.Strip(fields[1], {' '}));
      && TableFields(line) == fields
      && LineEntry(line, count) ==
           if svc.Raise? then Raise(KeyError)
           else Ok(Clean(fields[0], svc.value, fields[2], CmdBaseId + count, fields[3], fields[4]))
  {
    var body := Text.Join(fields, ',');
    var line := "(" + body + ")," + "\n";
    var right := "(" + body + "),";
    assert line == right + "\n";
    assert line[..|line| - 1] == right;
    assert Text.TrailIn(right, Text.Whitespace) == 0;
    assert Text.TrailIn(line, Text.Whitespace) == 1;
    assert DropEnds(right) == body;
    Text.SplitJoin(fields, ',');
  }

  /** Python's `s[1:-2]`: empty when `s` has at most three characters. */
  function DropEnds(s: string): (r: string)
    ensures |s| <= 3 ==> r == []
    ensures |s| > 3 ==> r == s[1..|s| - 2]
  {
    if |s| <= 3 then [] else s[1..|s| - 2]
  }

  /** The fields of a table line, e.g. `("ok", SERV_SLOW_CTRL, CMD_OK, "", ""),`. */
  function TableFields(line: string): (fields: seq<string>)
    ensures |fields| >= 1
    ensures forall f :: f in fields ==> ',' !in f
  {
    var right := line[..|line| - Text.TrailIn(line, Text.Whitespace)];
    Text.SplitOn(DropEnds(right), ',')
  }

  // ---------------------------------------------------------------------------
  // Base masks

  function Pow2(k: nat): (r: nat)
    ensures r >= 1
  {
    if k == 0 then 1 else 2 * Pow2(k - 1)
  }

  /** Bit `k` of `m`. */
  predicate BitSet(m: nat, k: nat)
  {
    (m / Pow2(k)) % 2 == 1
  }

  /** The indices of the set bits of `m`, counted from `i`. */
  function BitIndices(m: nat, i: nat): (r: seq<nat>)
    ensures forall j :: 0 <= j < |r| ==> r[j] >= i
    decreases m
  {
    if m == 0 then [] else (if m % 2 == 1 then [i] else []) + BitIndices(m / 2, i + 1)
  }

  /** `mask_to_base_numbers`: the bases whose bit is set in the mask, lowest
      first. The `{bitmask:018b}` rendering of a negative mask holds a '-',
      and `int('-')` raises ValueError. */
  function MaskToBaseNumbers(mask: int): (r: Result<seq<nat>>)
    ensures r.Ok? <==> mask >= 0
  {
    if mask < 0 then Raise(ValueError) else Ok(BitIndices(mask, 0))
  }

  lemma DivHalf(m: nat, p: nat)
    requires p >= 1
    ensures m / 2 / p == m / (2 * p)
  {
    var q, r := m / 2 / p, m / 2 % p;
    assert m / 2 == p * q + r;
    assert m == 2 * p * q + (2 * r + m % 2);
    assert 0 <= 2 * r + m % 2 < 2 * p;
    DivUnique(m, 2 * p, q, 2 * r + m % 2);
  }

  lemma DivUnique(m: nat, d: nat, q: nat, r: nat)
    requires d >= 1 && m == d * q + r && r < d
    ensures m / d == q
  {
    var q0, r0 := m / d, m % d;
    assert d * (q0 - q) == r - r0;
    MulAtLeast(d, q0 - q);
  }

  lemma MulAtLeast(d: nat, x: int)
    requires d >= 1
    ensures x >= 1 ==> d * x >= d
    ensures x <= -1 ==> d * x <= -(d as int)
  {
  }

  /** The list holds exactly the set bits. */
  lemma {:induction false} BitIndicesMembers(m: nat, i: nat, k: nat)
    ensures k in BitIndices(m, i) <==> k >= i && BitSet(m, k - i)
    decreases m
  {
    if m == 0 {
      if k >= i {
        assert 0 / Pow2(k - i) == 0;
      }
    } else {
      BitIndicesMembers(m / 2, i + 1, k);
      if k > i {
        DivHalf(m, Pow2(k - i - 1));
        assert Pow2(k - i) == 2 * Pow2(k - i - 1);
      }
    }
  }

  /** The list is strictly ascending. */
  lemma {:induction false} BitIndicesAscending(m: nat, i: nat)
    ensures forall a, b :: 0 <= a < b < |BitIndices(m, i)| ==> BitIndices(m, i)[a] < BitIndices(m, i)[b]
    decreases m
  {
    if m != 0 {
      BitIndicesAscending(m / 2, i + 1);
    }
  }

  /** For a non-negative mask the bases are the set bits, lowest first. */
  lemma MaskBases(mask: nat)
    ensures MaskToBaseNumbers(mask).Ok?
    ensures forall k: nat :: k in MaskToBaseNumbers(mask).value <==> BitSet(mask, k)
    ensures var r := MaskToBaseNumbers(mask).value;
      forall a, b :: 0 <= a < b < |r| ==> r[a] < r[b]
  {
    forall k: nat ensures k in BitIndices(mask, 0) <==> BitSet(mask, k) {
      BitIndicesMembers(mask, 0, k);
    }
    BitIndicesAscending(mask, 0);
  }

  // ---------------------------------------------------------------------------
  // Responses

  /** `wubCMD_resp` once `__post_init__` has run. */
  datatype Resp = Resp(base: int, cmd: Entry, rc: Option<int>, retargs: Option<seq<string>>, retstr: string)

  /** `repr` of a list of strings (without escaping). */
  function ReprList(xs: seq<string>): string
  {
    "[" + ReprItems(xs) + "]"
  }

  function ReprItems(xs: seq<string>): string
  {
    if xs == [] then []
    else "'" + xs[0] + "'" + (if |xs| == 1 then "" else ", " + ReprItems(xs[1..]))
  }

  /** `wubCMD_resp(...)`: with a return code, the summary names the code, and
      the return values follow when there are any; a code that is not a
      `wubCMD_RC` member raises ValueError. */
  function MakeResp(base: int, cmd: Entry, rc: Option<int>, retargs: Option<seq<string>>): (r: Result<Resp>)
    ensures rc.None? ==> r == Ok(Resp(base, cmd, rc, retargs, ""))
    ensures rc.Some? ==> (r.Ok? <==> 97 <= rc.value <= 109)
    ensures r.Ok? && rc.Some? ==>
      var prefix := "CMD_RC: " + RcName(RcOf(rc.value).value);
      && |prefix| <= |r.value.retstr| && r.value.retstr[..|prefix|] == prefix
      && (r.value.retstr == prefix <==> retargs.None? || retargs.value == [])
  {
    if rc.None? then Ok(Resp(base, cmd, rc, retargs, ""))
    else
      var code :- RcOf(rc.value);
      var head := "CMD_RC: " + RcName(code);
      var s := if retargs.Some? && |retargs.value| > 0 then head + " RETARGS: " + ReprList(retargs.value) else head;
      assert s[..|head|] == head;
      Ok(Resp(base, cmd, rc, retargs, s))
  }

  /** What `wubCMD_mask_resp` collects for each base: one return code per base
      and, while the command has return values, one entry of return values. */
  datatype MaskResp = MaskResp(mask: int, rc: seq<Option<int>>, retargs: Option<seq<Option<seq<string>>>>)

  /** The return values `wubCMD_mask_resp` lists for one response: its own
      when it has any, else None. */
  function RetargsItem(r: Resp): Option<seq<string>>
  {
    if r.retargs.Some? && |r.retargs.value| > 0 then r.retargs else None
  }

  /** The return values of the first `k` responses, one entry each. */
  function RetargsItems(resp: seq<Resp>, k: nat): (items: seq<Option<seq<string>>>)
    requires k <= |resp|
    ensures |items| == k && forall i :: 0 <= i < k ==> items[i] == RetargsItem(resp[i])
  {
    seq(k, i requires 0 <= i < k => RetargsItem(resp[i]))
  }

  /** One of the first `k` responses belongs to a command without return
      values, which sets the list of return values to None. */
  predicate ClearedBefore(resp: seq<Resp>, k: nat)
    requires k <= |resp|
  {
    exists j :: 0 <= j < k && resp[j].cmd.retargs == []
  }

  /** Among the first `k` responses, a command with return values follows one
      without: appending to None raises TypeError there. */
  predicate AppendAfterClear(resp: seq<Resp>, k: nat)
    requires k <= |resp|
  {
    exists i, j :: 0 <= j < i < k && resp[j].cmd.retargs == [] && resp[i].cmd.retargs != []
  }

  /** How many responses the walk over `n` bases can look at. */
  function Walked(n: nat, available: nat): nat
  {
    if n <= available then n else available
  }

  /** `wubCMD_mask_resp(mask, resp)`: walks the bases of the mask, taking the
      i-th response for the i-th base. A negative mask raises ValueError. A
      command with return values after one without raises TypeError, and a
      base without a response raises IndexError, whichever the walk meets
      first. Otherwise there is one return code per base, and the return
      values are None once a command without them was met, else one entry
      per base. */
  method NewMaskResp(mask: int, resp: seq<Resp>) returns (r: Result<MaskResp>)
    ensures MaskToBaseNumbers(mask).Raise? ==> r == Raise(ValueError)
    ensures MaskToBaseNumbers(mask).Ok? ==> var n := |MaskToBaseNumbers(mask).value|;
      (r == Raise(TypeError) <==> AppendAfterClear(resp, Walked(n, |resp|)))
    ensures MaskToBaseNumbers(mask).Ok? ==> var n := |MaskToBaseNumbers(mask).value|;
      (r == Raise(IndexError) <==> n > |resp| && !AppendAfterClear(resp, |resp|))
    ensures r.Ok? ==> var n := |MaskToBaseNumbers(mask).value|;
      && n <= |resp|
      && r.value.mask == mask
      && r.value.rc == seq(n, i requires 0 <= i < n => resp[i].rc)
      && r.value.retargs == if ClearedBefore(resp, n) then None
                            else Some(RetargsItems(resp, n))
  {
    var bases := MaskToBaseNumbers(mask);
    if bases.Raise? {
      return Raise(ValueError);
    }
    var n := |bases.value|;
    var cmdRc: seq<Option<int>> := [];
    var cmdRetargs: Option<seq<Option<seq<string>>>> := Some([]);
    var index := 0;
    while index < n
      invariant 0 <= index <= n && index <= |resp|
      invariant !AppendAfterClear(resp, index)
      invariant cmdRc == seq(index, i requires 0 <= i < index => resp[i].rc)
      invariant cmdRetargs == if ClearedBefore(resp, index) then None
                              else Some(RetargsItems(resp, index))
    {
      if index >= |resp| {
        return Raise(IndexError);
      }
      var baseResp := resp[index];
      cmdRc := cmdRc + [baseResp.rc];
      if |baseResp.cmd.retargs| > 0 {
        if cmdRetargs.None? {
          var j :| 0 <= j < index && resp[j].cmd.retargs == [];
          assert j < index < Walked(n, |resp|) && resp[index].cmd.retargs != [];
          return Raise(TypeError);
        }
        var items := cmdRetargs.value;
        cmdRetargs := Some(items + [RetargsItem(baseResp)]);
        assert !ClearedBefore(resp, index + 1);
        assert items + [RetargsItem(baseResp)] == RetargsItems(resp, index + 1);
      } else {
        cmdRetargs := None;
        assert ClearedBefore(resp, index + 1) by {
          assert resp[index].cmd.retargs == [];
        }
      }
      assert !AppendAfterClear(resp, index + 1);
      index := index + 1;
    }
    return Ok(MaskResp(mask, cmdRc, cmdRetargs));
  }

  // ---------------------------------------------------------------------------
  // The catalog

  /** Names the catalog object answers itself, so `setattr` with them would
      clobber its own state or methods. */
  predicate IsOwnAttribute(n: string)
  {
    n in {"name_dict", "id_dict", "_dict", "command_names", "reference", "_return_codes",
          "get_command", "set_reference", "keys"}
    || (|n| >= 2 && n[..2] == "__")
  }

  /** `name_dict` of a list of entries: a later entry with the same name wins. */
  function NameIndex(entries: seq<Entry>): map<string, Entry>
  {
    if entries == [] then map[]
    else NameIndex(entries[..|entries| - 1])[entries[|entries| - 1].name := entries[|entries| - 1]]
  }

  function IdIndex(entries: seq<Entry>): map<int, Entry>
  {
    if entries == [] then map[]
    else IdIndex(entries[..|entries| - 1])[entries[|entries| - 1].cmdId := entries[|entries| - 1]]
  }

  /** The attributes `setattr(self, cmd.name.lower(), cmd)` leaves behind. */
  function AttrIndex(entries: seq<Entry>): map<string, Entry>
  {
    if entries == [] then map[]
    else AttrIndex(entries[..|entries| - 1])[Text.Lower(entries[|entries| - 1].name) := entries[|entries| - 1]]
  }

  /** Every entry can be found by its name, and what is found is the last entry
      of that name. */
  lemma {:induction false} NameIndexFinds(entries: seq<Entry>, i: nat)
    requires i < |entries|
    ensures entries[i].name in NameIndex(entries)
    ensures exists j :: (i <= j < |entries| && NameIndex(entries)[entries[i].name] == entries[j]
                         && entries[j].name == entries[i].name)
    ensures (forall j :: i < j < |entries| ==> entries[j].name != entries[i].name) ==>
      NameIndex(entries)[entries[i].name] == entries[i]
    decreases |entries|
  {
    var last := |entries| - 1;
    if i < last {
      NameIndexFinds(entries[..last], i);
      if entries[last].name != entries[i].name {
        var j :| i <= j < last && NameIndex(entries[..last])[entries[i].name] == entries[..last][j]
          && entries[..last][j].name == entries[i].name;
        assert entries[..last][j] == entries[j];
      }
    }
  }

  /** The keys of the name index are exactly the entries' names. */
  lemma {:induction false} NameIndexKeys(entries: seq<Entry>)
    ensures NameIndex(entries).Keys == set e | e in entries :: e.name
    decreases |entries|
  {
    if entries != [] {
      var init := entries[..|entries| - 1];
      NameIndexKeys(init);
      assert entries == init + [entries[|entries| - 1]];
    }
  }

  /** The keys of the ID index are exactly the entries' IDs. */
  lemma {:induction false} IdIndexKeys(entries: seq<Entry>)
    ensures IdIndex(entries).Keys == set e | e in entries :: e.cmdId
    decreases |entries|
  {
    if entries != [] {
      var init := entries[..|entries| - 1];
      IdIndexKeys(init);
      assert entries == init + [entries[|entries| - 1]];
    }
  }

  /** With consecutive IDs every entry is found by its ID. */
  lemma {:induction false} IdIndexFinds(entries: seq<Entry>, first: nat, i: nat)
    requires forall k :: 0 <= k < |entries| ==> entries[k].cmdId == first + k
    requires i < |entries|
    ensures entries[i].cmdId in IdIndex(entries) && IdIndex(entries)[entries[i].cmdId] == entries[i]
    decreases |entries|
  {
    var last := |entries| - 1;
    if i < last {
      IdIndexFinds(entries[..last], first, i);
    }
  }

  /** Which lookups `keys()` and `[]` answer from. */
  datatype Reference = ByName | ById

  datatype Key = NameKey(name: string) | IdKey(id: int)

  /** What `getattr` on the catalog yields: a command, or one of the
      catalog's own attributes. */
  datatype Attr = Command(entry: Entry) | OwnAttribute

  /** `wubCMD_catalog` */
  class CatalogIndex {
    var commandNames: seq<string>
    var nameDict: map<string, Entry>
    var idDict: map<int, Entry>
    var attrs: map<string, Entry>
    var reference: Reference

    /** Fills the indexes in table order; afterwards lookups go by name. The
        table's names must not collide with the catalog's own attributes. */
    constructor (cmdList: seq<Entry>)
      requires forall e :: e in cmdList ==> !IsOwnAttribute(Text.Lower(e.name))
      ensures commandNames == seq(|cmdList|, i requires 0 <= i < |cmdList| => cmdList[i].name)
      ensures nameDict == NameIndex(cmdList) && idDict == IdIndex(cmdList)
      ensures attrs == AttrIndex(cmdList)
      ensures reference == ByName
    {
      commandNames := [];
      nameDict := map[];
      idDict := map[];
      attrs := map[];
      reference := ByName;
      new;
      var i := 0;
      while i < |cmdList|
        invariant 0 <= i <= |cmdList|
        invariant commandNames == seq(i, k requires 0 <= k < i => cmdList[k].name)
        invariant nameDict == NameIndex(cmdList[..i]) && idDict == IdIndex(cmdList[..i])
        invariant attrs == AttrIndex(cmdList[..i])
        invariant reference == ByName
      {
        var cmd := cmdList[i];
        assert cmdList[..i + 1][..i] == cmdList[..i];
        commandNames := commandNames + [cmd.name];
        nameDict := nameDict[cmd.name := cmd];
        idDict := idDict[cmd.cmdId := cmd];
        attrs := attrs[Text.Lower(cmd.name) := cmd];
        i := i + 1;
      }
      assert cmdList[..i] == cmdList;
    }

    /** `get_command(name)`: `getattr(self, name.lower())`. */
    function GetCommand(name: string): (r: Result<Attr>)
      reads this
      ensures Text.Lower(name) in attrs && !IsOwnAttribute(Text.Lower(name)) ==>
        r == Ok(Command(attrs[Text.Lower(name)]))
      ensures r.Raise? <==> Text.Lower(name) !in attrs && !IsOwnAttribute(Text.Lower(name))
      ensures r.Raise? ==> r.exn == AttributeError
    {
      var n := Text.Lower(name);
      if IsOwnAttribute(n) then Ok(OwnAttribute)
      else if n in attrs then Ok(Command(attrs[n]))
      else Raise(AttributeError)
    }

    /** `set_reference(ref)`: 'name' or 'id' in any case; anything else raises
        ValueError and changes nothing. */
    method SetReference(ref: string) returns (r: Result<()>)
      modifies this
      ensures Text.Lower(ref) == "name" ==> r.Ok? && reference == ByName
      ensures Text.Lower(ref) == "id" ==> r.Ok? && reference == ById
      ensures Text.Lower(ref) != "name" && Text.Lower(ref) != "id" ==>
        r == Raise(ValueError) && reference == old(reference)
      ensures nameDict == old(nameDict) && idDict == old(idDict) && attrs == old(attrs)
      ensures commandNames == old(commandNames)
    {
      var lref := Text.Lower(ref);
      if lref != "name" && lref != "id" {
        return Raise(ValueError);
      } else if lref == "name" {
        reference := ByName;
      } else {
        reference := ById;
      }
      return Ok(());
    }

    /** `keys()` of the index the reference selects. */
    function Keys(): (ks: set<Key>)
      reads this
      ensures reference == ByName ==> forall n :: NameKey(n) in ks <==> n in nameDict
      ensures reference == ById ==> forall i :: IdKey(i) in ks <==> i in idDict
      ensures forall k :: k in ks ==> (k.NameKey? <==> reference == ByName)
    {
      if reference == ByName then set n | n in nameDict :: NameKey(n)
      else set i | i in idDict :: IdKey(i)
    }

    /** `self[key]`: KeyError for a key the current index lacks. */
    function GetItem(key: Key): (r: Result<Entry>)
      reads this
      ensures r.Ok? <==> key in Keys()
      ensures r.Ok? && key.NameKey? ==> r.value == nameDict[key.name]
      ensures r.Ok? && key.IdKey? ==> r.value == idDict[key.id]
    {
      match key
      case NameKey(n) => if reference == ByName && n in nameDict then Ok(nameDict[n]) else Raise(KeyError)
      case IdKey(i) => if reference == ById && i in idDict then Ok(idDict[i]) else Raise(KeyError)
    }
  }
}
