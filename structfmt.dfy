/** The part of Python's `struct` module the command codec relies on.

    A format string is a sequence of items, each an optional decimal count and a
    one-letter code, with whitespace allowed between items. In standard mode
    ('!' or '>' prefix: big-endian, standard sizes, no alignment) the model packs
    and unpacks values; in native mode (no prefix) it only computes the size, as
    `struct.calcsize` does on a 64-bit Linux host (LP64 sizes, natural alignment).
    Floating-point fields are carried as their raw IEEE-754 bytes. */
module StructFmt {
  import opened Wrappers
  import opened Bytes
  import Text

  datatype Item = Item(count: nat, code: char)

  /** A Python value a field holds: an int, a bool, a bytes object, or a float
      given by its big-endian IEEE-754 bytes. */
  datatype Value = Int(i: int) | Bool(b: bool) | Bytes(data: seq<byte>) | Float(bits: seq<byte>)

  /** One field of a packed record, after counts are expanded. */
  datatype Field = Pad | Scalar(code: char) | Str(len: nat) | Pascal(len: nat)

  const IntCodes: set<char> := {'b', 'B', 'h', 'H', 'i', 'I', 'l', 'L', 'q', 'Q'}
  const FloatCodes: set<char> := {'e', 'f', 'd'}
  const StandardCodes: set<char> := IntCodes + FloatCodes + {'x', 'c', '?', 's', 'p'}
  const NativeOnlyCodes: set<char> := {'n', 'N', 'P'}

  /** The characters the format parser skips between items: C's `isspace` set,
      narrower than the whitespace of `str.split()`. */
  const FormatSpace: set<char> := {' ', '\t', '\n', '\r', 11 as char, 12 as char}

  // ---------------------------------------------------------------------------
  // Format strings

  /** Number of leading decimal digits of `s`. */
  function DigitRun(s: string): (k: nat)
    ensures k <= |s|
    ensures forall i :: 0 <= i < k ==> '0' <= s[i] <= '9'
    ensures k < |s| ==> !('0' <= s[k] <= '9')
  {
    if s == [] || !('0' <= s[0] <= '9') then 0 else 1 + DigitRun(s[1..])
  }

  /** The items of a format string without its byte-order prefix. Any code
      outside the mode's alphabet, and a count with no code after it, raise
      struct.error. */
  function ParseItems(s: string, native: bool): (r: Result<seq<Item>>)
    ensures r.Ok? ==> forall it :: it in r.value ==>
      it.code in StandardCodes || (native && it.code in NativeOnlyCodes)
    ensures !r.Ok? ==> r == Raise(StructError)
    decreases |s|
  {
    var lead := Text.LeadIn(s, FormatSpace);
    if lead == |s| then Ok([])
    else
      var t := s[lead..];
      var k := DigitRun(t);
      if k == |t| then Raise(StructError)
      else
        var code := t[k];
        if !(code in StandardCodes || (native && code in NativeOnlyCodes)) then Raise(StructError)
        else
          var count := if k == 0 then 1 else Text.NumericValue(t[..k]);
          var rest :- ParseItems(t[k + 1..], native);
          Ok([Item(count, code)] + rest)
  }

  /** A format the standard mode accepts reads the same in native mode. */
  lemma {:induction false} ParseItemsNative(s: string)
    requires ParseItems(s, false).Ok?
    ensures ParseItems(s, true) == ParseItems(s, false)
    decreases |s|
  {
    var lead := Text.LeadIn(s, FormatSpace);
    if lead < |s| {
      var t := s[lead..];
      var k := DigitRun(t);
      ParseItemsNative(t[k + 1..]);
    }
  }

  /** A format whose first character is neither whitespace, a digit nor a
      code of the mode raises struct.error. */
  lemma BadLeadRejected(s: string, native: bool)
    requires s != [] && s[0] !in FormatSpace && !('0' <= s[0] <= '9')
    requires s[0] !in StandardCodes && s[0] !in NativeOnlyCodes
    ensures ParseItems(s, native) == Raise(StructError)
  {
    assert Text.LeadIn(s, FormatSpace) == 0;
    assert s[0..] == s;
    assert DigitRun(s) == 0;
  }

  /** The information separators 0x1C-0x1F are whitespace to `str.split()` but
      not to the format parser: `"\x1cB"` raises struct.error. */
  lemma SeparatorRejected(native: bool)
    ensures ParseItems([28 as char, 'B'], native) == Raise(StructError)
  {
    BadLeadRejected([28 as char, 'B'], native);
  }

  /** Size in bytes of one field of `code` in standard mode. */
  function ScalarSize(code: char): nat
  {
    if code in {'h', 'H', 'e'} then 2
    else if code in {'i', 'I', 'l', 'L', 'f'} then 4
    else if code in {'q', 'Q', 'd'} then 8
    else 1
  }

  /** Expand counts: `3H` is three fields, `30s` one 30-byte string, `2x` two pads. */
  function Fields(items: seq<Item>): (fs: seq<Field>)
  {
    if items == [] then []
    else
      var it := items[0];
      var here :=
        if it.code == 's' then [Str(it.count)]
        else if it.code == 'p' then [Pascal(it.count)]
        else if it.code == 'x' then seq(it.count, _ => Pad)
        else seq(it.count, _ => Scalar(it.code));
      here + Fields(items[1..])
  }

  function FieldSize(f: Field): nat
  {
    match f
    case Pad => 1
    case Scalar(c) => ScalarSize(c)
    case Str(n) => n
    case Pascal(n) => n
  }

  /** `struct.calcsize` in standard mode. */
  function Size(fs: seq<Field>): nat
  {
    if fs == [] then 0 else FieldSize(fs[0]) + Size(fs[1..])
  }

  /** Number of values a record of these fields holds (pads hold none). */
  function Arity(fs: seq<Field>): nat
  {
    if fs == [] then 0 else (if fs[0].Pad? then 0 else 1) + Arity(fs[1..])
  }

  // ---------------------------------------------------------------------------
  // Native-mode size (what `struct.calcsize(fmt)` gives for a prefix-less format)

  /** Size and alignment of one item in native mode on an LP64 host. */
  function NativeSize(code: char): nat
  {
    if code in {'l', 'L', 'n', 'N', 'P'} then 8 else ScalarSize(code)
  }

  function NativeAlign(code: char): nat
  {
    if code in {'x', 'c', 'b', 'B', '?', 's', 'p'} then 1 else NativeSize(code)
  }

  function AlignUp(offset: nat, a: nat): nat
    requires a >= 1
  {
    if offset % a == 0 then offset else offset + (a - offset % a)
  }

  function ItemBytes(it: Item, size: nat): nat
  {
    if it.code in {'s', 'p'} then it.count else it.count * size
  }

  /** Native-mode size of the items, starting at byte `offset`. */
  function NativeSizeFrom(items: seq<Item>, offset: nat): nat
  {
    if items == [] then offset
    else
      var it := items[0];
      NativeSizeFrom(items[1..], AlignUp(offset, NativeAlign(it.code)) + ItemBytes(it, NativeSize(it.code)))
  }

  /** Standard-mode size of the items, starting at byte `offset`. */
  function StandardSizeFrom(items: seq<Item>, offset: nat): nat
  {
    if items == [] then offset
    else StandardSizeFrom(items[1..], offset + ItemBytes(items[0], ScalarSize(items[0].code)))
  }

  /** The formats for which native and standard layouts coincide: no code with a
      different native width, and every item already at its natural alignment. */
  predicate NativeAgreesFrom(items: seq<Item>, offset: nat)
  {
    items == [] ||
      (&& items[0].code !in {'l', 'L', 'n', 'N', 'P'}
       && offset % NativeAlign(items[0].code) == 0
       && NativeAgreesFrom(items[1..], offset + ItemBytes(items[0], ScalarSize(items[0].code))))
  }

  /** When the layouts agree, `calcsize` without a prefix equals the standard size. */
  lemma {:induction false} NativeSizeAgrees(items: seq<Item>, offset: nat)
    requires NativeAgreesFrom(items, offset)
    ensures NativeSizeFrom(items, offset) == StandardSizeFrom(items, offset)
  {
    if items != [] {
      NativeSizeAgrees(items[1..], offset + ItemBytes(items[0], ScalarSize(items[0].code)));
    }
  }

  lemma {:induction false} StandardSizeOfFields(items: seq<Item>, offset: nat)
    ensures StandardSizeFrom(items, offset) == offset + Size(Fields(items))
  {
    if items != [] {
      var it := items[0];
      StandardSizeOfFields(items[1..], offset + ItemBytes(it, ScalarSize(it.code)));
      var here :=
        if it.code == 's' then [Str(it.count)]
        else if it.code == 'p' then [Pascal(it.count)]
        else if it.code == 'x' then seq(it.count, _ => Pad)
        else seq(it.count, _ => Scalar(it.code));
      assert Fields(items) == here + Fields(items[1..]);
      SizeAppend(here, Fields(items[1..]));
      if it.code != 's' && it.code != 'p' {
        SizeRepeat(here, if it.code == 'x' then Pad else Scalar(it.code));
      }
    }
  }

  lemma {:induction false} SizeAppend(a: seq<Field>, b: seq<Field>)
    ensures Size(a + b) == Size(a) + Size(b)
  {
    if a == [] {
      assert a + b == b;
    } else {
      assert (a + b)[0] == a[0];
      assert (a + b)[1..] == a[1..] + b;
      SizeAppend(a[1..], b);
    }
  }

  lemma {:induction false} SizeRepeat(fs: seq<Field>, f: Field)
    requires forall i :: 0 <= i < |fs| ==> fs[i] == f
    ensures Size(fs) == |fs| * FieldSize(f)
  {
    if fs != [] {
      SizeRepeat(fs[1..], f);
    }
  }

  // ---------------------------------------------------------------------------
  // Integers in two's complement

  function Bits(nbytes: nat): nat { Pow256(nbytes) }

  predicate Signed(code: char) { code in {'b', 'h', 'i', 'l', 'q'} }

  /** The range of Python ints `struct.pack` accepts for an integer code. */
  predicate InRange(code: char, v: int)
    requires code in IntCodes
  {
    var m := Bits(ScalarSize(code));
    if Signed(code) then -(m / 2) <= v < m / 2 else 0 <= v < m
  }

  function Truthy(v: Value): bool
  {
    match v
    case Int(i) => i != 0
    case Bool(b) => b
    case Bytes(d) => d != []
    case Float(bits) => exists k :: 0 <= k < |bits| && (if k == 0 then bits[k] % 128 != 0 else bits[k] != 0)
  }

  // ---------------------------------------------------------------------------
  // Packing and unpacking (big-endian, standard sizes)

  /** The bytes one value takes in a field, or struct.error. */
  function PackField(f: Field, v: Value): (r: Result<seq<byte>>)
    requires !f.Pad?
    requires f.Scalar? ==> f.code in StandardCodes
    ensures r.Ok? ==> |r.value| == FieldSize(f)
  {
    match f
    case Scalar(c) => PackScalar(c, v)
    case Str(n) => PackStr(n, v)
    case Pascal(n) => PackPascal(n, v)
  }

  function PackScalar(c: char, v: Value): (r: Result<seq<byte>>)
    requires c in StandardCodes
    ensures r.Ok? ==> |r.value| == ScalarSize(c)
  {
    if c in IntCodes then
      var n := if v.Bool? then (if v.b then 1 else 0) else if v.Int? then v.i else 0;
      if !(v.Int? || v.Bool?) || !InRange(c, n) then Raise(StructError)
      else Ok(BeBytes(if n < 0 then n + Bits(ScalarSize(c)) else n, ScalarSize(c)))
    else if c in FloatCodes then
      if v.Float? && |v.bits| == ScalarSize(c) then Ok(v.bits) else Raise(StructError)
    else if c == '?' then Ok([if Truthy(v) then 1 else 0])
    else // 'c'
      if v.Bytes? && |v.data| == 1 then Ok(v.data) else Raise(StructError)
  }

  /** An `s` field: the bytes cut or zero-padded to the field's width. */
  function PackStr(n: nat, v: Value): (r: Result<seq<byte>>)
    ensures r.Ok? ==> |r.value| == n
  {
    if !v.Bytes? then Raise(StructError)
    else if |v.data| >= n then Ok(v.data[..n])
    else Ok(v.data + seq(n - |v.data|, _ => 0))
  }

  /** A `p` field: up to `n - 1` bytes after a length byte, zero-padded; only the
      length byte is capped at 255. */
  function PackPascal(n: nat, v: Value): (r: Result<seq<byte>>)
    ensures r.Ok? ==> |r.value| == n
  {
    if !v.Bytes? then Raise(StructError)
    else if n == 0 then Ok([])
    else
      var k := Min(|v.data|, n - 1);
      Ok([Min(k, 255)] + v.data[..k] + seq(n - 1 - k, _ => 0))
  }

  function Min(a: nat, b: nat): nat { if a <= b then a else b }

  predicate ValidFields(fs: seq<Field>)
  {
    forall i :: 0 <= i < |fs| ==> (fs[i].Scalar? ==> fs[i].code in StandardCodes)
  }

  /** `struct.pack('!' + fmt, *args)` once the format is expanded into fields. */
  function Pack(fs: seq<Field>, args: seq<Value>): (r: Result<seq<byte>>)
    requires ValidFields(fs)
    ensures r.Ok? ==> |r.value| == Size(fs) && |args| == Arity(fs)
  {
    if fs == [] then (if args == [] then Ok([]) else Raise(StructError))
    else if fs[0].Pad? then
      var rest :- Pack(fs[1..], args);
      Ok([0] + rest)
    else if args == [] then Raise(StructError)
    else
      var head :- PackField(fs[0], args[0]);
      var rest :- Pack(fs[1..], args[1..]);
      Ok(head + rest)
  }

  /** The value a field's bytes hold. */
  function UnpackField(f: Field, d: seq<byte>): Value
    requires !f.Pad? && |d| == FieldSize(f)
  {
    match f
    case Scalar(c) =>
      if c in IntCodes then
        var u := BeValue(d);
        var m := Bits(ScalarSize(c));
        Int(if Signed(c) && u >= m / 2 then u - m else u)
      else if c in FloatCodes then Float(d)
      else if c == '?' then Bool(d[0] != 0)
      else Bytes(d)
    case Str(n) => Bytes(d)
    case Pascal(n) =>
      if n == 0 then Bytes([])
      else
        var k := if d[0] >= n then n - 1 else d[0];
        Bytes(d[1..1 + k])
  }

  /** `struct.unpack('>' + fmt, data)` once the format is expanded into fields:
      the data must be exactly the record's size. */
  function Unpack(fs: seq<Field>, data: seq<byte>): (r: Result<seq<Value>>)
    ensures r.Ok? ==> |data| == Size(fs) && |r.value| == Arity(fs)
  {
    if |data| != Size(fs) then Raise(StructError) else Ok(UnpackFrom(fs, data))
  }

  function UnpackFrom(fs: seq<Field>, data: seq<byte>): (vs: seq<Value>)
    requires |data| == Size(fs)
    ensures |vs| == Arity(fs)
  {
    if fs == [] then []
    else
      var n := FieldSize(fs[0]);
      if fs[0].Pad? then UnpackFrom(fs[1..], data[n..])
      else [UnpackField(fs[0], data[..n])] + UnpackFrom(fs[1..], data[n..])
  }

  /** `struct.calcsize(fmt)` for a format without a byte-order prefix, which
      Python sizes in native mode. */
  function NativeCalcSize(fmt: string): (r: Result<nat>)
    ensures !r.Ok? ==> r == Raise(StructError)
  {
    var items :- ParseItems(fmt, true);
    Ok(NativeSizeFrom(items, 0))
  }

  /** When the layouts agree, `calcsize` of a standard format without a prefix
      is the size of its fields. */
  lemma NativeCalcSizeStandard(fmt: string, items: seq<Item>)
    requires ParseItems(fmt, false) == Ok(items) && NativeAgreesFrom(items, 0)
    ensures NativeCalcSize(fmt) == Ok(Size(Fields(items)))
  {
    ParseItemsNative(fmt);
    NativeSizeAgrees(items, 0);
    StandardSizeOfFields(items, 0);
  }

  /** The fields of items with standard codes are valid for packing. */
  lemma {:induction false} FieldsValid(items: seq<Item>)
    requires forall it :: it in items ==> it.code in StandardCodes
    ensures ValidFields(Fields(items))
  {
    if items != [] {
      FieldsValid(items[1..]);
      var fs := Fields(items);
      var it := items[0];
      assert it in items;
      var here :=
        if it.code == 's' then [Str(it.count)]
        else if it.code == 'p' then [Pascal(it.count)]
        else if it.code == 'x' then seq(it.count, _ => Pad)
        else seq(it.count, _ => Scalar(it.code));
      assert fs == here + Fields(items[1..]);
      forall i | 0 <= i < |fs| && fs[i].Scalar? ensures fs[i].code in StandardCodes {
        if i >= |here| {
          assert fs[i] == Fields(items[1..])[i - |here|];
        }
      }
    }
  }

  /** `struct.unpack('>' + fmt, data)`. */
  function UnpackBig(fmt: string, data: seq<byte>): Result<seq<Value>>
  {
    var items :- ParseItems(fmt, false);
    Unpack(Fields(items), data)
  }

  // ---------------------------------------------------------------------------
  // Round trip

  /** A value that the field packs without loss: the form `unpack` returns. */
  predicate Canonical(f: Field, v: Value)
  {
    match f
    case Pad => false
    case Scalar(c) =>
      if c in IntCodes then v.Int? && InRange(c, v.i)
      else if c in FloatCodes then v.Float? && |v.bits| == ScalarSize(c)
      else if c == '?' then v.Bool?
      else c == 'c' && v.Bytes? && |v.data| == 1
    case Str(n) => v.Bytes? && |v.data| == n
    case Pascal(n) => v.Bytes? && (if n == 0 then v.data == [] else |v.data| <= Min(n - 1, 255))
  }

  /** Arguments that match the fields one for one, each in canonical form. */
  predicate CanonicalArgs(fs: seq<Field>, args: seq<Value>)
    decreases |fs|
  {
    if fs == [] then args == []
    else if fs[0].Pad? then CanonicalArgs(fs[1..], args)
    else args != [] && Canonical(fs[0], args[0]) && CanonicalArgs(fs[1..], args[1..])
  }

  lemma FieldRoundTrip(f: Field, v: Value)
    requires !f.Pad? && (f.Scalar? ==> f.code in StandardCodes) && Canonical(f, v)
    ensures PackField(f, v).Ok? && UnpackField(f, PackField(f, v).value) == v
  {
    match f
    case Scalar(c) => ScalarRoundTrip(c, v);
    case Str(n) =>
    case Pascal(n) => PascalRoundTrip(n, v);
  }

  lemma ScalarRoundTrip(c: char, v: Value)
    requires c in StandardCodes && Canonical(Scalar(c), v)
    ensures PackScalar(c, v).Ok? && UnpackField(Scalar(c), PackScalar(c, v).value) == v
  {
    if c in IntCodes {
      IntRoundTrip(c, v.i);
    }
  }

  /** An integer in range packs to its two's-complement bytes and reads back. */
  lemma IntRoundTrip(c: char, i: int)
    requires c in IntCodes && InRange(c, i)
    ensures PackScalar(c, Int(i)).Ok? && UnpackField(Scalar(c), PackScalar(c, Int(i)).value) == Int(i)
  {
    var size := ScalarSize(c);
    var m := Bits(size);
    var u := if i < 0 then i + m else i;
    assert PackScalar(c, Int(i)) == Ok(BeBytes(u, size));
    BeRoundTrip(u, size);
  }

  lemma PascalRoundTrip(n: nat, v: Value)
    requires Canonical(Pascal(n), v)
    ensures PackPascal(n, v).Ok? && UnpackField(Pascal(n), PackPascal(n, v).value) == v
  {
    if n > 0 {
      var d := PackPascal(n, v).value;
      var k := |v.data|;
      assert d == [k] + v.data + seq(n - 1 - k, _ => 0);
      assert d[1..1 + k] == v.data;
    }
  }

  /** A `p` field holding more than 255 bytes stores all of them after a length
      byte of 255, and unpacking reads back only the first 255. */
  lemma LongPascal(data: seq<byte>)
    requires |data| > 255
    ensures PackPascal(|data| + 1, Bytes(data)) == Ok([255] + data)
    ensures UnpackField(Pascal(|data| + 1), [255] + data) == Bytes(data[..255])
  {
    var n := |data| + 1;
    var zeros: seq<byte> := seq(n - 1 - (n - 1), _ => 0);
    assert zeros == [];
    assert data[..n - 1] == data;
    assert PackPascal(n, Bytes(data)) == Ok([255] + data + zeros);
    assert [255] + data + zeros == [255] + data;
    var d := [255 as byte] + data;
    assert d[1..256] == data[..255];
  }

  /** Packing canonical values and unpacking the bytes gives the values back. */
  lemma {:induction false} PackUnpack(fs: seq<Field>, args: seq<Value>)
    requires ValidFields(fs) && CanonicalArgs(fs, args)
    ensures Pack(fs, args).Ok? && Unpack(fs, Pack(fs, args).value) == Ok(args)
  {
    PackUnpackFrom(fs, args);
  }

  lemma {:induction false} PackUnpackFrom(fs: seq<Field>, args: seq<Value>)
    requires ValidFields(fs) && CanonicalArgs(fs, args)
    ensures Pack(fs, args).Ok? && |Pack(fs, args).value| == Size(fs)
    ensures UnpackFrom(fs, Pack(fs, args).value) == args
    decreases |fs|
  {
    if fs != [] {
      assert ValidFields(fs[1..]);
      if fs[0].Pad? {
        PackUnpackFrom(fs[1..], args);
        PadStep(fs, args);
      } else {
        FieldRoundTrip(fs[0], args[0]);
        PackUnpackFrom(fs[1..], args[1..]);
        FieldStep(fs, args);
      }
    }
  }

  lemma PadStep(fs: seq<Field>, args: seq<Value>)
    requires fs != [] && fs[0].Pad? && ValidFields(fs)
    requires Pack(fs[1..], args).Ok? && |Pack(fs[1..], args).value| == Size(fs[1..])
    requires UnpackFrom(fs[1..], Pack(fs[1..], args).value) == args
    ensures Pack(fs, args).Ok? && |Pack(fs, args).value| == Size(fs)
    ensures UnpackFrom(fs, Pack(fs, args).value) == args
  {
    var rest := Pack(fs[1..], args).value;
    assert Pack(fs, args) == Ok([0] + rest);
    assert ([0] + rest)[1..] == rest;
  }

  lemma FieldStep(fs: seq<Field>, args: seq<Value>)
    requires fs != [] && !fs[0].Pad? && ValidFields(fs) && args != []
    requires PackField(fs[0], args[0]).Ok?
    requires UnpackField(fs[0], PackField(fs[0], args[0]).value) == args[0]
    requires Pack(fs[1..], args[1..]).Ok? && |Pack(fs[1..], args[1..]).value| == Size(fs[1..])
    requires UnpackFrom(fs[1..], Pack(fs[1..], args[1..]).value) == args[1..]
    ensures Pack(fs, args).Ok? && |Pack(fs, args).value| == Size(fs)
    ensures UnpackFrom(fs, Pack(fs, args).value) == args
  {
    var head := PackField(fs[0], args[0]).value;
    var rest := Pack(fs[1..], args[1..]).value;
    PackCons(fs, args);
    UnpackCons(fs, head, rest);
    HeadTail(args);
  }

  lemma HeadTail(args: seq<Value>)
    requires args != []
    ensures [args[0]] + args[1..] == args
  {
  }

  /** Packing a value field, then the rest, concatenates their bytes. */
  lemma PackCons(fs: seq<Field>, args: seq<Value>)
    requires fs != [] && !fs[0].Pad? && ValidFields(fs) && args != []
    requires PackField(fs[0], args[0]).Ok? && Pack(fs[1..], args[1..]).Ok?
    ensures Pack(fs, args) == Ok(PackField(fs[0], args[0]).value + Pack(fs[1..], args[1..]).value)
  {
    assert ValidFields(fs[1..]);
  }

  /** Unpacking a field's bytes followed by the rest reads the field, then the rest. */
  lemma UnpackCons(fs: seq<Field>, head: seq<byte>, rest: seq<byte>)
    requires fs != [] && !fs[0].Pad? && |head| == FieldSize(fs[0]) && |rest| == Size(fs[1..])
    ensures |head + rest| == Size(fs)
    ensures UnpackFrom(fs, head + rest) == [UnpackField(fs[0], head)] + UnpackFrom(fs[1..], rest)
  {
    var n := FieldSize(fs[0]);
    assert (head + rest)[..n] == head;
    assert (head + rest)[n..] == rest;
  }
}
