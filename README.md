# wuBase host protocol, modelled in Dafny

This project models the host side of the wuBase protocol, as the Python package
`pywub` and its scripts implement it. It also proves properties of that model.
The parts modelled are:

- **The hit-frame layout** (`parser.dfy`, module `Parser`). A frame is an 18-byte
  little-endian header followed by 4 bytes per sample.
- **The command catalog** (`catalog.dfy`, module `Catalog`). It covers:
  - services and return codes;
  - command entries with consecutive IDs from 0x3030;
  - lookup by name and by ID;
  - base masks;
  - responses.
- **Command building** (`build.dfy`, module `Build`):
  - an ASCII text form;
  - a binary form, which is a 4-byte header plus big-endian packed arguments, then
    COBS-encoded (`cobs.dfy`, module `Cobs`).
- **The parts of Python's `struct`, `str` and `int` the code relies on**
  (`structfmt.dfy`, `text.dfy`, `bytes.dfy`).
- **Setup scripts** (`setup.dfy`, module `Setup`): `parse_setup_config` and the older
  `parse_config`.
- **The control session** (`control.dfy`, module `Control`, class `Session`). It covers:
  - ASCII and binary command exchanges;
  - the side effects of the special commands;
  - the ASCII and binary batch receivers, with their stop and abort requests.

  The serial port is a `Transport.Port` (`transport.dfy`). It holds the chunks the
  device will still deliver and a log of what was written.
- **The board record** (`wubase.dfy`, module `WuBaseState`).
- **The offline frame-file walker** (`frame_file.dfy`, module `FrameFile`).
- **The twelve-byte tail buffer of the old data-taking script** (`tail_buffer.dfy`,
  module `TakeTestData`). The buffer is updated in place.
- **The line-driven V1 hit-text reader of the two plotting scripts** (`hit_text.dfy`,
  module `HitText`).

Where the code does something its authors evidently did not intend, the model
follows the code as written. Three such defects are logged under "## Findings" and
corrected for the rest of the model. A few more behaviours are stated as written
without a correction:

- `setbaud` with a negative rate raises AttributeError.
- `parse_config` fails on a script that ends with a newline.
- A setup line starting with "dac" is read as a base mask.

Exceptions are values of `Wrappers.Exn` carried in `Result` or `Outcome`. A receive
loop that would wait forever for input that never comes ends with `Stalled`.

## Model

| member | source | states |
|---|---|---|
| Parser.Layout | pywub/parser.py:10-22 | The header is 18 bytes. The fields sit at offsets 0, 2, 4 and 10, and the ADC data starts at 18. |
| Parser.CalcPayloadSize | pywub/parser.py:53-54 | The payload size is a multiple of 4 whose quarter is the sample count, and it is non-negative for a non-negative count. |
| Parser.CalcFrameSize | pywub/parser.py:56-57 | The frame size is the header size plus the payload size, so at least 18. |
| Parser.FrameSizeLaws | pywub/parser.py:53-57 | The frame size is 18 + 4n. It determines n, and it grows by 4 per sample. |
| Parser.UnpackNsamples | pywub/parser.py:24-29 | Decoding succeeds exactly on 2 bytes. The result is their little-endian value, below 65536. |
| Parser.LeValue2 | pywub/parser.py:24-29 | Two bytes read little-endian are `d[0] + 256*d[1]`, below 65536. |
| Parser.Widen | pywub/parser.py:33-36 | Inserting the two widening bytes lengthens the header by 2. |
| Parser.UnpackHeader | pywub/parser.py:31-47 | Unpacking succeeds exactly on 18 bytes, and any other length raises struct.error. The fields are the little-endian values of bytes 0-1, 2-3, 4-9 and 10-17, so the timestamp is below 2^48. |
| Parser.TimestampWidening | pywub/parser.py:33-47 | The widened 8-byte timestamp reads the same value as the 6 bytes it came from, and the other fields are unmoved. |
| Parser.HeaderRoundTrip | pywub/parser.py:31-47 | Laying out any header whose fields fit, then unpacking it, gives the header back. |
| Parser.LayoutOfUnpacked | pywub/parser.py:31-47 | Every 18-byte header is the layout of what it unpacks to, which is the other direction of the round trip. |
| Parser.NsamplesAgree | pywub/parser.py:24-47 | `unpack_nsamples` of a header's first two bytes equals `unpack_header`'s sample count. |
| Parser.UnpackPayload | pywub/parser.py:49-51 | An even length decodes to half as many little-endian 16-bit values, in order. An odd length raises. |
| Parser.PayloadRoundTrip | pywub/parser.py:49-51 | Laying out 16-bit samples and unpacking them gives them back. |
| Parser.PayloadAt | pywub/parser.py:49-51 | The i-th pair of laid-out bytes holds the i-th sample. |
| Parser.ParseSingleRawHit | pywub/parser.py:60-105 | The outcomes are as follows. Empty input raises ValueError. A wrong first byte gives False. A start byte with a short header raises struct.error. A parsed hit has its whole frame present, a header that unpacks from bytes 1-18, and 2n samples. |
| Parser.ParsePayload | pywub/parser.py:81-105 | Fewer bytes after the header than the payload size report a truncated frame, and exactly then. A parsed frame keeps the header it was given and unpacks its samples from the first payload-size bytes. |
| Parser.ParseLaidOutHit | pywub/parser.py:60-105 | A start byte followed by a laid-out header and payload parses to exactly that header and those samples, whatever bytes follow. |
| Parser.ParseShortHit | pywub/parser.py:75-97 | With a whole header but fewer payload bytes than announced, the result is 0 (truncated). |
| Catalog.ServiceCode | pywub/catalog.py:61-63 | The two services are 0x3030 and 0x3031. |
| Catalog.ServiceNamed | pywub/catalog.py:94 | Lookup by member name succeeds exactly for the two service names, with the matching code. Any other name raises KeyError. |
| Catalog.RcCode | pywub/catalog.py:65-79 | Every return code lies in 97..109. |
| Catalog.RcOf | pywub/catalog.py:65-79 | A byte is a return code exactly when it is in 97..109, and the code found has that value. |
| Catalog.RcBijection | pywub/catalog.py:65-79 | The codes run consecutively from 'a' in declaration order, and decoding a code's value gives the code back. |
| Catalog.Clean | pywub/catalog.py:91-109 | The cleaned entry has no '"' in its formats and no '"' at either end of its name. `cmd_version` gets the format "30sb30sb". The ID and the service are passed through. |
| Catalog.EntryFactory.constructor | pywub/catalog.py:88 | The class counter starts at zero. |
| Catalog.EntryFactory.NewEntry | pywub/catalog.py:91-109 | An unknown service raises KeyError and leaves the counter alone. Otherwise the entry gets ID 0x3030 + the previous count, and the counter goes up by one. |
| Catalog.EntryFactory.LoadLines | pywub/catalog.py:268-272 | The loop's result is the table transform `LoadTable` of the lines: on success the counter advances by the number of lines. On a raise, the counter stops at the line that raised, every earlier line loaded, and that line's exception is the result. |
| Catalog.EntryFactory.LoadLine | pywub/catalog.py:268-272 | One line gives exactly the entry `LineEntry` describes for the current count, and the counter goes up by one exactly when it succeeds. |
| Catalog.LineEntry | pywub/catalog.py:268-272 | A line whose `[1:-2]` slice does not split into five fields raises TypeError. A loaded entry has ID 0x3030 plus the count of entries made before it. |
| Catalog.LoadTable | pywub/catalog.py:268-272 | A loaded table has one entry per line. |
| Catalog.LoadTableStep | pywub/catalog.py:268-272 | Loading one more line either raises that line's exception or appends its entry. |
| Catalog.LoadTablePrefix | pywub/catalog.py:268-272 | A prefix that raises makes the whole table raise the same exception. |
| Catalog.LoadTableLines | pywub/catalog.py:268-272 | A table loads exactly when every line loads with the count of lines before it, and its i-th entry is that of the i-th line. |
| Catalog.LoadedIdsFind | pywub/catalog.py:268-272 | The entries of a loaded table have consecutive IDs in table order, and each is found by its own ID. |
| Catalog.TableLineLoads | pywub/catalog.py:268-272 | A line written as "(" + five comma-free fields joined by ',' + ")," + "\n" splits back into those fields. It loads as the cleaned entry of them, or raises KeyError for an unknown service. |
| Catalog.DropEnds | pywub/catalog.py:270 | This is Python's `s[1:-2]`: empty for at most three characters, else the inner slice. |
| Catalog.TableFields | pywub/catalog.py:270 | A table line gives at least one field, and no field holds a comma. |
| Catalog.MaskToBaseNumbers | pywub/catalog.py:10-16 | The call succeeds exactly for a non-negative mask. A negative one raises ValueError. |
| Catalog.BitIndicesMembers | pywub/catalog.py:10-16 | An index is listed exactly when its bit is set. |
| Catalog.BitIndicesAscending | pywub/catalog.py:10-16 | The listed indices are strictly ascending. |
| Catalog.MaskBases | pywub/catalog.py:10-16 | For every mask of at least zero, the bases are exactly the set bits, lowest first. |
| Catalog.MakeResp | pywub/catalog.py:151-169 | Without a return code the summary is empty. With one, the call succeeds exactly for a valid code. The summary then starts "CMD_RC: name" and has more text exactly when return values are present. |
| Catalog.NewMaskResp | pywub/catalog.py:187-208 | A negative mask raises ValueError. A command with return values after one without, among the responses walked, raises TypeError. Too few responses otherwise raise IndexError. A result holds the i-th response's return code for the i-th base. Its return values are None once a command without return values was met. Otherwise there is one entry per base: the response's values, or None when it has none. |
| Catalog.NameIndexFinds | pywub/catalog.py:225-228 | Every entry's name is in the index. It finds that entry or a later one of the same name, and the entry itself when no later entry shares its name. |
| Catalog.NameIndexKeys | pywub/catalog.py:225-228 | The name index's keys are exactly the entries' names. |
| Catalog.IdIndexKeys | pywub/catalog.py:225-228 | The ID index's keys are exactly the entries' IDs. |
| Catalog.IdIndexFinds | pywub/catalog.py:225-228 | With consecutive IDs, every entry is found by its own ID. |
| Catalog.CatalogIndex.constructor | pywub/catalog.py:217-235 | The constructor fills the name list, both indexes and the lower-case attributes in table order. Lookups then go by name. |
| Catalog.CatalogIndex.GetCommand | pywub/catalog.py:237-238 | Lookup goes by the lower-cased name, so it ignores case. A name the catalog lacks raises AttributeError. |
| Catalog.CatalogIndex.SetReference | pywub/catalog.py:240-252 | 'name' or 'id', in any case, selects the index. Anything else raises ValueError and changes nothing. The indexes are untouched. |
| Catalog.CatalogIndex.Keys | pywub/catalog.py:254-255 | The keys are exactly those of the index the reference selects. |
| Catalog.CatalogIndex.GetItem | pywub/catalog.py:257-258 | Indexing succeeds exactly for a key of the selected index and returns its entry. Otherwise it raises KeyError. |
| Build.BuildAscii | pywub/catalog.py:129-138 | The ASCII form succeeds exactly when there is one argument per character of the argument format. |
| Build.Header | pywub/catalog.py:142 | `pack("!HH", 0, id)` succeeds exactly for an ID below 65536 and gives 4 bytes starting 00 00. |
| Build.BinaryFrame | pywub/catalog.py:140-145 | An unencoded binary frame is at least the 4 header bytes. |
| Build.Build | pywub/catalog.py:115-149 | This is the intended `build`. An empty mode raises IndexError. ASCII mode succeeds exactly with enough arguments and gives text. Binary mode succeeds exactly when the frame packs, and gives bytes. |
| Build.AsciiSplitsBack | pywub/catalog.py:129-138 | The ASCII command splits at spaces back into the upper-cased name and the decimal texts of the arguments the format consumes. |
| Build.ArgTextJoin | pywub/catalog.py:133-136 | Appending " " and each argument's text is the same as joining the name and the texts with spaces. |
| Build.BinaryDecodesBack | pywub/catalog.py:140-149 | A binary command has no zero byte. COBS decoding gives the frame, whose header is 00 00 and the big-endian command ID. Its packed arguments unpack back to the arguments. |
| Build.BuildAsWritten | pywub/catalog.py:115-149 | `build` as written agrees with the intended one in ASCII mode. |
| Build.MissingFormatPrefix | pywub/catalog.py:143 | As written, binary building raises struct.error for every entry and every argument list. |
| Build.WrittenFormatRejected | pywub/catalog.py:143 | The literal format "{self.args}" is rejected by `struct`. |
| Build.MissingFormatPrefixWitness | pywub/catalog.py:143 | A command without arguments builds under the intended code but raises as written. |
| Build.BuildCalledWithVarargs | pywub/control.py:307 | This is `build(mode, *args)` as the session calls it. With no arguments it is the written `build`. With two or more it raises TypeError. |
| Build.VarargsCall | pywub/control.py:336 | Every call with arguments fails, in ASCII and in binary mode, while the intended build succeeds in ASCII mode. |
| Cobs.EncodeNoZero | pywub/catalog.py:147 | A COBS encoding holds no zero byte. |
| Cobs.EncodeLength | pywub/catalog.py:147 | Encoding adds at least one byte and at most one plus one per 254 input bytes. |
| Cobs.DecodeEncode | pywub/catalog.py:147 | Decoding an encoding gives back the input. |
| Cobs.Run | pywub/catalog.py:147 | A run is the longest zero-free prefix, at most 254 bytes. |
| Cobs.DecodeEnc | pywub/catalog.py:147 | Each block structure decodes back to the bytes it encodes, with or without the final zero. |
| StructFmt.ParseItems | pywub/catalog.py:143 | A format parses only into codes of its mode. Anything else raises struct.error. |
| StructFmt.ParseItemsNative | pywub/control.py:282 | A format that standard mode accepts reads the same in native mode. |
| StructFmt.BadLeadRejected | pywub/catalog.py:143 | A format starting with a character that is not a code, a digit or one of C's `isspace` characters (tab, line feed, vertical tab, form feed, carriage return, space) raises struct.error. |
| StructFmt.SeparatorRejected | pywub/catalog.py:143 | A format starting with the file separator 0x1C raises struct.error, although `str.split()` would treat that character as whitespace. |
| StructFmt.NativeCalcSizeStandard | pywub/control.py:282 | For a standard format whose native layout agrees, `calcsize` without a prefix is the size of its fields. |
| StructFmt.NativeSizeAgrees | pywub/control.py:282 | Where native and standard layouts coincide, `calcsize` without a prefix equals the standard size. |
| StructFmt.NativeCalcSize | pywub/control.py:282 | `calcsize` either succeeds or raises struct.error. |
| StructFmt.StandardSizeOfFields | pywub/catalog.py:143 | The standard size of a format is the sum of its field sizes. |
| StructFmt.SizeAppend | pywub/catalog.py:143 | The size of a concatenation is the sum of the sizes. |
| StructFmt.SizeRepeat | pywub/catalog.py:143 | A repeat count multiplies the field size. |
| StructFmt.PackField | pywub/catalog.py:143 | A packed field has the field's size. |
| StructFmt.LongPascal | pywub/catalog.py:143 | A `p` field holding more than 255 bytes packs to 255 followed by all the data, and unpacking reads back only the first 255 bytes. |
| StructFmt.Pack | pywub/catalog.py:143 | A packed record has the record's size and took one value per non-pad field. |
| StructFmt.Unpack | pywub/control.py:288 | Unpacking succeeds only on data of the record's size and yields one value per non-pad field. |
| StructFmt.FieldRoundTrip | pywub/control.py:288 | A canonical value packs and unpacks back to itself. |
| StructFmt.PackUnpack | pywub/control.py:288 | Packing canonical values and unpacking the bytes gives the values back. |
| Text.Upper | pywub/catalog.py:130 | Upper-casing maps each character and keeps the length. |
| Text.Lower | pywub/catalog.py:238 | Lower-casing maps each character and keeps the length. |
| Text.LowerOfUpper | pywub/catalog.py:238 | Strings that differ only in case lower to the same string. |
| Text.IsAsciiMode | pywub/catalog.py:129 | `mode.upper()[0] == 'A'`: an empty mode raises IndexError. Otherwise the test holds exactly when the mode starts with 'a' or 'A'. |
| Text.Strip | pywub/catalog.py:93 | A stripped string neither starts nor ends with a stripped character, and a string without any is unchanged. |
| Text.RemoveChar | pywub/catalog.py:104 | `replace(c, '')` removes every c and keeps every other character. |
| Text.SplitOn | pywub/catalog.py:27 | `split(sep)` gives at least one field, and no field holds the separator. |
| Text.JoinSplitOn | pywub/catalog.py:27 | Joining the fields of a split gives back the line. |
| Text.SplitJoin | pywub/catalog.py:27 | Splitting a join of separator-free fields gives back the fields. |
| Text.SplitLastEmpty | pywub/control.py:84 | A text ending in the separator splits into a last field that is empty. |
| Text.Words | pywub/old/plot-spe-data.py:66 | `split()` gives non-empty words with no whitespace. |
| Text.NatDigitsValue | pywub/catalog.py:134 | The digits of a natural number read back as that number. |
| Text.DecimalAscii | pywub/catalog.py:134 | `str(i)` is plain ASCII. |
| Text.DecimalRoundTrip | pywub/catalog.py:47 | The decimal text of a natural number is numeric, and `int` of it gives the number. |
| Text.DecimalNoSpace | pywub/catalog.py:134 | `str(i)` holds no space. |
| Text.ParseHex | pywub/catalog.py:34 | `int(s, 16)` either succeeds or raises ValueError. |
| Text.HexRoundTrip | pywub/catalog.py:34 | The hexadecimal text of every integer is read back by `int(s, 16)` as that integer. |
| Text.HexTextShape | pywub/catalog.py:34 | Hexadecimal text needs no stripping and holds no underscore. |
| Bytes.LeValueBound | pywub/parser.py:31-47 | An n-byte little-endian value is below 256^n. |
| Bytes.BeValueBound | pywub/catalog.py:142 | An n-byte big-endian value is below 256^n. |
| Bytes.LeRoundTrip | pywub/parser.py:31-47 | Writing a value that fits in n little-endian bytes and reading it back gives the value. |
| Bytes.LeBytesOfValue | pywub/parser.py:31-47 | Reading little-endian bytes and writing the value back at the same width gives the bytes. |
| Bytes.BeRoundTrip | pywub/catalog.py:142 | Writing a value that fits in n big-endian bytes and reading it back gives the value. |
| Bytes.BeBytesOfValue | pywub/catalog.py:142 | Reading big-endian bytes and writing the value back at the same width gives the bytes. |
| Bytes.LeValueAppend | pywub/parser.py:31-47 | A little-endian value splits at any byte boundary. |
| Bytes.LeValueZeroExtend | pywub/parser.py:33-36 | Zero bytes added at the high end leave a little-endian value unchanged. |
| Transport.Decode | pywub/control.py:316 | `bytes.decode()` succeeds exactly on bytes below 128, one character per byte, and raises ValueError otherwise. |
| Transport.DecodeEncode | pywub/control.py:309 | Decoding an encoded ASCII string gives it back. |
| Transport.DecodeAppend | pywub/control.py:314-316 | Decoding distributes over concatenation. |
| Transport.CharsDecode | pywub/control.py:316 | Decoding is the character-per-byte reading when every byte is ASCII, and ValueError otherwise. |
| Transport.AsciiTextChars | pywub/control.py:316 | Bytes read as text exactly when they are ASCII and the text is their character-per-byte reading. |
| Transport.Port.Read | pywub/control.py:261-267 | `read(n)` takes the first min(n, in_waiting) bytes from the head chunk. What is taken, followed by what remains, is the old stream. |
| Transport.Port.ReadWaiting | pywub/control.py:314 | `read(in_waiting)` takes the whole head chunk. |
| Transport.Port.ReadWaitingOrOne | pywub/control.py:459 | `read(in_waiting or 1)` takes the whole head chunk. |
| Transport.Port.Write | pywub/control.py:241-244 | Bytes are appended to the log and their count returned. A `str` raises TypeError and nothing is written. |
| Transport.CharUtf8 | pywub/control.py:427 | A character encodes to one to four bytes. It is one byte, its own code, exactly when it is ASCII. The bytes of a longer encoding are all 128 or more. |
| Transport.Utf8 | pywub/control.py:427 | `str.encode()` gives at least one byte per character. |
| Transport.Utf8Append | pywub/control.py:427 | Encoding distributes over concatenation. |
| Transport.Utf8Ascii | pywub/control.py:427 | ASCII text encodes one byte per character, each its character's code. |
| Transport.Utf8AsciiByte | pywub/control.py:427 | A byte below 128 in an encoding is an ASCII character of the text. |
| Transport.Port.constructor | pywub/control.py:147-151 | A new port has the given chunks still to deliver, the given rate, and nothing written. |
| Transport.DataFile.Write | pywub/control.py:475 | Writing appends the bytes to the file. |
| Control.UnpackReadback | pywub/control.py:269-291 | The return code is the last byte, and an empty return format gives no values. An empty readback raises IndexError. |
| Control.ReadbackRoundTrip | pywub/control.py:269-291 | Any preamble, then packed return values, then a code decode to exactly that code and those values, provided the format's native layout agrees with its standard one. |
| Control.PackedArgs | pywub/control.py:282-288 | The packed return values have the format's native `calcsize` and unpack back big-endian. |
| Control.Last3 | pywub/control.py:305 | A `deque(maxlen=3)` holds min(3, length) characters. |
| Control.Last3Suffix | pywub/control.py:305 | The window is the end of what was fed. |
| Control.Last3Append | pywub/control.py:305-317 | Feeding the window chunk by chunk keeps the last three characters of all that was fed, however the text is split. |
| Control.PrefilledWindow | pywub/control.py:305-317 | The window pre-filled with "000" reads "OK\n" exactly when the bytes received end with "OK\n". |
| Control.TailChars | pywub/control.py:313 | For decodable bytes, the text ends in "OK\n" exactly when the bytes end in 4F 4B 0A. |
| Control.ReceiveStep | pywub/control.py:313-317 | Taking the next chunk extends the received bytes by that chunk, its text by the chunk's text, and the window as if fed the whole text. |
| Control.EmptyWindow | pywub/control.py:430 | The window that starts empty reads "OK\n" exactly when the bytes received end with "OK\n". |
| Control.NoOkBeforeMeans | pywub/control.py:313 | No read before the k-th left the received bytes ending in "OK\n". |
| Control.Sent | pywub/control.py:241-244 | `send` writes a 'U' before the command exactly when autobaud is on. |
| Control.LastN | pywub/control.py:352 | `s[-n:]` is the last min(n, length) bytes. |
| Control.AllButLastN | pywub/control.py:368 | `s[0:-n]` followed by `s[-n:]` is s. |
| Control.BatchCommand | pywub/control.py:427 | The batch request is ASCII text ending in a newline. |
| Control.Session.constructor | pywub/control.py:110-146 | The session starts with the given rate, autobaud and verbosity, all counters and flags cleared, and the mode given, or "ascii" when it is neither ascii nor binary in any case. |
| Control.Session.IsAscii | pywub/control.py:196-200 | `isascii` holds exactly when the mode starts with 'a' or 'A'. |
| Control.Session.SetCommsMode | pywub/control.py:210-216 | The stored mode is "ASCII" for a mode starting with 'a'/'A' and "BINARY" otherwise. An empty mode raises IndexError and changes nothing. |
| Control.Session.Send | pywub/control.py:232-244 | The log grows by the optional 'U' and then the command when it is bytes, whose count is returned. A `str` command raises TypeError after the 'U'. |
| Control.Session.AwaitOk | pywub/control.py:305-317 | The loop stops at the first read after which the bytes end in "OK\n", however the output is split into reads. The text returned is their decoding, terminator included. Undecodable bytes raise ValueError. Running dry without "OK\n" stalls. |
| Control.Session.SendRecvAscii | pywub/control.py:294-324 | Build errors raise before anything is sent. Otherwise the command text is sent encoded and terminated by a line feed, and the reply awaited as in `AwaitOk`. A `binarymode` command then switches the session to binary. |
| Control.Session.SendAwaitOk | pywub/control.py:309-316 | The command bytes are sent after the optional 'U', then the reply is awaited: it ends at the first chunk that completes "OK\n", decoded; it stalls when no chunk does, and raises on a chunk that does not decode. |
| Control.Session.AsciiReplied | pywub/control.py:318-324 | A reply is returned as text, and a `binarymode` command switches the session to binary mode; without such an attribute in the catalog the comparison raises AttributeError. |
| Control.Session.SendRecvAsciiAsWritten | pywub/control.py:307-308 | As written, every ASCII command that builds raises TypeError at the write. Only the autobaud 'U' is written, and nothing is read. |
| Control.AsciiLineSplitsBack | pywub/control.py:307-308 | The intended line is the encoded text and then its only line feed. For an ASCII name it decodes back to the text, which splits at spaces into the upper-cased name and the decimal arguments. |
| Control.BuiltTextPlain | pywub/catalog.py:129-138 | A built ASCII command holds no line feed when the name has none, and is ASCII when the name is. |
| Control.Session.ReadReadback | pywub/control.py:345-366 | Without verbosity it reads the expected count and makes at most one residual read, so it gets at most two chunks' bytes. With verbosity it reads everything waiting. |
| Control.Session.ReadTwice | pywub/control.py:359-366 | The silent readback takes at most the expected count, from at most two chunks, and everything it takes is the front of the stream. |
| Control.Session.SendRecvBinary | pywub/control.py:326-387 | The built bytes are sent. A reply is the unpack of the last `calcsize + 1` bytes of the readback. With verbosity, text before them that does not decode raises ValueError. An `asciimode` command then switches to ASCII. It never stalls. |
| Control.Session.CommandAttr | pywub/control.py:319 | A catalog attribute is found exactly when the catalog has it. |
| Control.Session.Which | pywub/control.py:399-412 | The `elif` chain tests `asciimode` first, then `binarymode`. |
| Control.Session.Exchange | pywub/control.py:391-396 | The reply is text exactly in ASCII mode. A batch is marked running only for `send_batch` in binary mode. The mode changes only for a successful `asciimode`/`binarymode`. |
| Control.Session.ApplySpecial | pywub/control.py:398-412 | `asciimode`/`binarymode` set the mode and `verbose` sets the verbosity to the first argument. `baud -1` turns autobaud on and resets the port rate to the stored rate. Any other baud turns autobaud off and sets both rates. Nothing else changes. |
| Control.Session.SendRecv | pywub/control.py:389-414 | The exchange in the current mode is followed by the side effects of the special commands, whatever the reply. A batch is marked running only for `send_batch` in binary mode. |
| Control.Session.SetBaud | pywub/control.py:218-226 | A rate below 1 asks for autobaud and turns it on, with the port back at the stored rate. Any other rate turns autobaud off and sets both rates. Without a `baud` command it raises AttributeError and changes nothing. |
| Control.Session.BaudIsBaud | pywub/control.py:218-226 | The catalog's `baud` command is classified as the baud command. |
| Control.Session.SetAutobaud | pywub/control.py:228-229 | On success autobaud is on and the port rate is back at the stored rate. |
| Control.Session.Poll | pywub/control.py:440-441 | Another thread's next flag write lands, and flags only ever get set. |
| Control.Session.TakeRequest | pywub/control.py:443-455 | A first abort request is acted on before a first stop request. A request already acted on is ignored, so each acts at most once per session. |
| Control.Session.AsciiRead | pywub/control.py:459 | One read takes a chunk. It either decodes, extending the received bytes, or raises ValueError. |
| Control.Session.AsciiStep | pywub/control.py:459-485 | A read goes to the data file or the answer and is counted, and the window moves on. The loop ends only on an empty read with the window at "OK\n". |
| Control.Session.AsciiPass | pywub/control.py:439-490 | One pass acts on a request, ends on "OK\n", stalls, raises or reads, and every non-final pass makes progress. |
| Control.Session.AsciiTry | pywub/control.py:457-488 | After the requests, the pass stalls only with nothing to read and no "OK\n". Otherwise it takes one read. |
| Control.Session.AsciiAfterRequest | pywub/control.py:443-488 | A request acted on ends the pass at once with its exit. Otherwise the pass ends on "OK\n", stalls, raises or reads, keeps the loop's progress, and shrinks what is waiting unless requests remain. |
| Control.Session.AsciiBatchLoop | pywub/control.py:439-490 | What the loop received is a prefix of the chunks, counted and written to the file or returned as text. Without an abort or a stop, it ends normally only when the bytes end in "OK\n". Stop and abort each act at most once. |
| Control.Session.AsciiStopBatch | pywub/control.py:448-455 | The stop sends `cmd_ok`. Its reply is indexed by position, which succeeds only in ASCII mode. |
| Control.Session.AsciiBatchmodeRecv | pywub/control.py:418-495 | The batch request is written (unless stopped). Everything received decodes, is counted, and goes to the file or the answer. The batch is marked over exactly when the call returns normally. |
| Control.Session.AsciiFinish | pywub/control.py:448-495 | Only a stop request sends `cmd_ok`. The batch is marked over exactly when the call returns normally, with the loop's answer, and a raise in the loop is the call's raise. |
| Control.Session.BinaryStopBatch | pywub/control.py:497-504 | The stop command is sent and exactly one read is taken. Its last byte is decoded as a return code, and an empty read raises IndexError. |
| Control.Session.SendStop | pywub/control.py:497-504 | For given stop bytes, it makes one write and one read, and decodes the last byte. |
| Control.Session.ReadFrame | pywub/control.py:629-661 | The other 16 + 4n bytes are read at once. A whole frame is written and counted at 18 + 4n bytes. Under 16 of them raise in the header unpack, with nothing kept. A frame cut short otherwise is written but not counted. |
| Control.Session.TakeFrame | pywub/control.py:625-665 | Every frame begun counts in `nframes_binary`. A sample count that arrived split across reads is rejected. Whole frames are taken in stream order. |
| Control.Session.BinaryStep | pywub/control.py:614-665 | One pass reads the rest of the sample count or takes a frame, keeping frames whole and in stream order, and makes progress. |
| Control.Session.ReadCount | pywub/control.py:614-623 | The two count bytes arrive either in one read (kept as bytes) or one at a time (kept as a list). The stream is preserved. |
| Control.Session.BinaryPass | pywub/control.py:592-675 | One pass of the binary loop acts on requests, stalls, ends or progresses. It never ends on an empty read. |
| Control.Session.BinaryBatchLoop | pywub/control.py:589-675 | The frames written are whole and in stream order, then possibly one cut short. `nbytes_recv` grows by the whole frames only, while `nframes_binary` also counts the frame that ended the loop. A count split across reads raises TypeError, a short header raises struct.error, and the loop ends normally only on a stop, an abort or a frame cut short. |
| Control.Session.BinaryBatchmodeRecv | pywub/control.py:568-683 | The batch is asked for, and the frames are received as in `BinaryBatchLoop`. A stop, an abort or a short frame sends the stop command. The batch is then over and 0 is returned. |
| Control.Session.AskForBatch | pywub/control.py:579 | Without a `send_batch` command it raises AttributeError. |
| Control.Session.BinaryRun | pywub/control.py:585-683 | Everything after the request satisfies `BinaryDone`: whole frames, then a partial one, in stream order, counted and written, with a stop command last. |
| Control.Session.BinaryClose | pywub/control.py:654-683 | The stop command is sent. Unless that raises, the batch is marked over, 0 is returned, and the stop command is the last thing written. |
| Control.Session.BatchmodeRecv | pywub/control.py:686-703 | The receiver of the current mode runs. ASCII answers with text and binary with 0, and the batch is over on return. |
| Setup.ConvertArgs | pywub/catalog.py:43-50 | Conversion succeeds exactly when every argument converts, one value per argument in order. Otherwise it raises ValueError. |
| Setup.Collect | pywub/catalog.py:46-50 | The values are collected in order, or the first failure is raised as ValueError. |
| Setup.ArgValues | pywub/catalog.py:46-50 | Each argument word is converted on its own, in order. |
| Setup.CollectPrefix | pywub/catalog.py:46-50 | A failure among the first arguments fails the whole conversion. |
| Setup.MaskOf | pywub/catalog.py:32-37 | A mask is present exactly when the first token reads as hexadecimal, and it has that value. |
| Setup.ParseLineShape | pywub/catalog.py:26-52 | Empty and '#' lines are skipped, but `parse_config` raises IndexError on an empty line. A mask shifts the name and the sleep time one token right. The arguments are None exactly for at most two tokens, the mask included. |
| Setup.ParseLines | pywub/catalog.py:24-57 | All lines parse, with at most one setting per line, or the first failing line's exception is raised. |
| Setup.Gather | pywub/catalog.py:24-57 | Settings are gathered in order, or the first failure is raised. |
| Setup.Parsed | pywub/catalog.py:26-53 | Each line is parsed on its own, in order. |
| Setup.GatherStep | pywub/catalog.py:24-57 | One more line either raises its exception or adds its setting, if any. |
| Setup.ReadSetting | pywub/catalog.py:26-53 | The line loop computes the line's setting. |
| Setup.ReadTokens | pywub/catalog.py:32-53 | The token handling computes the setting of a line's tokens. |
| Setup.ReadFields | pywub/catalog.py:39-53 | The fields after the mask give the setting. |
| Setup.ConvertArgList | pywub/catalog.py:46-50 | The argument loop computes the conversion. |
| Setup.ReadScript | pywub/catalog.py:18-57 | The script loop computes the settings of all lines, for both readers. |
| Setup.GatherPrefix | pywub/catalog.py:24-57 | Once a prefix of lines fails, the whole script fails the same way. |
| Setup.SettingRoundTrip | pywub/catalog.py:26-52 | A written setting line is read back as the same setting. With a mask and no arguments, the arguments come back as an empty list, not None. |
| Setup.SettingTokens | pywub/catalog.py:27 | A written line splits into its fields. |
| Setup.DecimalArgs | pywub/catalog.py:46-50 | Decimal texts of naturals convert back to those ints. |
| Setup.DacLineIsMasked | pywub/catalog.py:33-40 | The line "dac 100 5" is read as mask 0xDAC, command "100" and sleep time "5". |
| Setup.DacTokens | pywub/catalog.py:27 | "dac 100 5" splits into three tokens. |
| Setup.DacHex | pywub/catalog.py:34 | "dac" reads as hexadecimal 0xDAC. |
| Setup.LegacyAgrees | pywub/control.py:84-100 | Without a mask column, `parse_config` and `parse_setup_config` agree on every nonempty line. |
| Setup.LegacyTrailingNewline | pywub/control.py:84-85 | `parse_config` raises on every script that ends with a newline. |
| WuBaseState.WuBase.constructor | pywub/wubase.py:38-48 | A new board is unpowered, autobauds and talks ASCII, and it has no `baud` yet. |
| WuBaseState.WuBase.SetPowered | pywub/wubase.py:58-59 | The call sets the power flag and nothing else. |
| WuBaseState.WuBase.SetAutobaud | pywub/wubase.py:67-68 | The call sets the autobaud flag and nothing else. |
| WuBaseState.WuBase.SetBaud | pywub/wubase.py:74-80 | A rate of at least zero is stored and turns autobaud off. A negative rate raises AttributeError and changes nothing. |
| WuBaseState.WuBase.Baud | pywub/wubase.py:70-72 | Reading `baud` succeeds exactly once a rate was stored. |
| WuBaseState.WuBase.IsAscii | pywub/wubase.py:87-92 | `isascii` holds exactly for the stored mode "ASCII". |
| WuBaseState.WuBase.SetCommsMode | pywub/wubase.py:94-100 | The stored mode is "ASCII" or "BINARY" by the first letter, agreeing with the mode test. An empty mode raises IndexError and changes nothing. |
| FrameFile.PassAt | scripts/parse_binary_test_file.py:17-62 | An accepted frame is at least a header and no longer than what is left. |
| FrameFile.WalkBounds | scripts/parse_binary_test_file.py:12-62 | The walk never loses frames and never counts more bytes than the file has. It runs out of header only with fewer than 18 bytes left. |
| FrameFile.CountBound | scripts/parse_binary_test_file.py:17-18 | With a count to reach, the walk accepts at most that many frames, and it stops for the count exactly when it reaches it. |
| FrameFile.GoodFramesWalk | scripts/parse_binary_test_file.py:29-62 | Whole frames of the expected size are each accepted and counted in full. |
| FrameFile.GoodFrameFirst | scripts/parse_binary_test_file.py:29-62 | A whole frame at the head is accepted and read in full. |
| FrameFile.FlattenSize | scripts/parse_binary_test_file.py:33-36 | k frames fill k times the frame size. |
| FrameFile.BackToBack | scripts/parse_binary_test_file.py:12-62 | k back-to-back whole frames, read with no count, yield k frames and k(18 + 4n) bytes, ending at the end of the file. |
| FrameFile.WrongFrameCounted | scripts/parse_binary_test_file.py:29-52 | A frame with another sample count ends the walk uncounted, but its header and payload bytes are counted. |
| FrameFile.ShortFrameCounted | scripts/parse_binary_test_file.py:29-56 | A frame cut short ends the walk uncounted, with all its bytes counted. |
| FrameFile.BinaryFile.Open | scripts/parse_binary_test_file.py:10 | An opened file reads from the start. |
| FrameFile.BinaryFile.Read | scripts/parse_binary_test_file.py:19 | `read(n)` gives the next n bytes, or what is left, and advances by that much. |
| FrameFile.ReadPass | scripts/parse_binary_test_file.py:17-62 | One pass over the file reads and counts what `PassAt` says. |
| FrameFile.ParseFile | scripts/parse_binary_test_file.py:8-65 | The loop's frame count, byte count and stop reason are those of the walk over the whole file. |
| TakeTestData.CommandLine | pywub/old/take-test-data.py:101-104 | A non-empty line is sent with a newline, and an empty one sends nothing. |
| TakeTestData.TailCheck | pywub/old/take-test-data.py:132-134 | Comparing the slice of the tail buffer with a terminator gives the same answer as looking at the end of everything received. |
| TakeTestData.TailAfter | pywub/old/take-test-data.py:119-130 | The buffer keeps its twelve bytes, and the fill stays within them. |
| TakeTestData.TailAfterHolds | pywub/old/take-test-data.py:114-130 | After every non-empty chunk, the front of the buffer is again the end of everything received, at least six bytes of it or all. A chunk over six bytes leaves its last six. |
| TakeTestData.Receiver.constructor | pywub/old/take-test-data.py:42-66 | The globals start cleared. |
| TakeTestData.Receiver.Time | pywub/old/take-test-data.py:136 | `time.time()` gives the next clock reading. |
| TakeTestData.Receiver.Poll | pywub/old/take-test-data.py:106-111 | Another thread's next flag write lands. |
| TakeTestData.Receiver.Splice | pywub/old/take-test-data.py:125-129 | A same-length slice assignment replaces exactly that slice. |
| TakeTestData.Receiver.UpdateTail | pywub/old/take-test-data.py:119-130 | The in-place update of the buffer computes `TailAfter`. |
| TakeTestData.Receiver.StopStep | pywub/old/take-test-data.py:107-109 | "OK\n" is written at most once, when a stop is first requested. |
| TakeTestData.Receiver.ChunkStep | pywub/old/take-test-data.py:114-130 | A chunk is counted, written and added to the tail. The '?' test changes nothing. |
| TakeTestData.Receiver.IdleStep | pywub/old/take-test-data.py:131-139 | An empty read ends the call exactly on "OK\n", or on "OK\nOK\n" once a stop was sent. Otherwise the idle timer restarts when the count grew, and the call times out only after the timeout with no growth. |
| TakeTestData.Receiver.Pass | pywub/old/take-test-data.py:106-139 | One pass handles stop and abort, then reads a chunk. A chunk never ends the loop. An empty read ends it only on the terminator or the timeout. |
| TakeTestData.Receiver.CollectedStep | pywub/old/take-test-data.py:106-139 | One pass keeps the bookkeeping: bytes taken in order, all written and counted, and at most one stop. |
| TakeTestData.Receiver.CollectPass | pywub/old/take-test-data.py:106-139 | A pass keeps the tail and the bookkeeping. |
| TakeTestData.Receiver.SendCommand | pywub/old/take-test-data.py:92-104 | Bytes already waiting are written and counted, then the line goes to the file and the device. |
| TakeTestData.Receiver.Collect | pywub/old/take-test-data.py:105-139 | Everything received is written and counted in order. The only write is the stop's "OK\n". A terminated call ends with the right terminator. |
| TakeTestData.Receiver.SendAndReceive | pywub/old/take-test-data.py:74-143 | The call returns the number of bytes received, including the chunk waiting before the send. With no clock reading it does nothing. Otherwise the file gets that chunk, the command line and everything received, in stream order. The device gets the line and at most the stop's "OK\n", and a terminated call ends with the right terminator. |
| TakeTestData.Receiver.SendCollect | pywub/old/take-test-data.py:91-139 | With a command, the chunk waiting before it goes to the file, then the command line, then everything the loop receives, in stream order. The device gets the line and at most one "OK\n". The call ends aborted exactly when an abort was requested. |
| TakeTestData.Receiver.ReadStep | pywub/old/take-test-data.py:112-139 | One read takes the next chunk. A chunk goes to the file and the count and never ends the loop. An empty read ends it exactly on the terminator. |
| TakeTestData.Receiver.AfterRead | pywub/old/take-test-data.py:113-139 | Bytes read go to the file, the count and the tail without touching the clock. With nothing read, the loop ends exactly on the terminator ("OK\nOK\n" after a stop), or on the timeout. |
| HitText.Low12 | pywub/old/plot-spe-data.py:100 | `raw & 0xfff` lies in 0..4095. |
| HitText.Bit12 | pywub/old/plot-spe-data.py:130 | `(raw >> 12) & 1` is a bit. |
| HitText.Bit13 | pywub/old/plot-spe-data.py:129 | `(raw >> 13) & 1` is a bit. |
| HitText.Ch2Fields | pywub/old/plot-spe-data.py:123-130 | The three channel-2 fields are exactly the low fourteen bits of the word. |
| HitText.Max | pywub/old/plot-spe-data.py:133 | `max` of a non-empty list is a member at least every member. |
| HitText.Hex | pywub/old/plot-spe-data.py:99-100 | Each token is read once. |
| HitText.Taken | pywub/old/plot-spe-data.py:99-109 | At most every token is taken. |
| HitText.Ch1Unroll | pywub/old/plot-spe-data.py:99-104 | One channel-1 token raises, or appends its low twelve bits while there is room and is skipped otherwise. |
| HitText.Ch2Unroll | pywub/old/plot-spe-data.py:123-130 | One channel-2 token raises, or appends its three fields while there is room and is skipped otherwise. |
| HitText.Ch1TokensShape | pywub/old/plot-spe-data.py:99-109 | The channel-1 loop raises exactly on a token that is not hexadecimal. Otherwise it appends the masked values of as many tokens as there is room for below nsamples, and drops the rest. |
| HitText.Ch2TokensShape | pywub/old/plot-spe-data.py:123-131 | The channel-2 loop appends the three fields of as many tokens as there is room for, and raises exactly on a bad token. |
| HitText.OnlyV1Starts | pywub/old/plot-spe-data.py:67-71 | Waiting for a hit, only a line with the single token "V1" moves on. Any other line changes nothing. |
| HitText.HeaderLines | pywub/old/plot-spe-data.py:72-93 | The count, timestamp and TDC lines must hold one token, or the reader goes back to waiting. A count above 256 goes back too, and a count that is not hexadecimal raises. |
| HitText.CountedIff | pywub/old/plot-spe-data.py:131-137 | A line counts a hit exactly when it completes channel 2 of a hit whose channel-1 maximum is not zero. The hit is kept exactly while fewer than the limit are kept. Nothing else touches the kept hits or the count. |
| HitText.CloseCounts | pywub/old/plot-spe-data.py:131-137 | The counting at the end of a channel-2 line follows the same rule. |
| HitText.PedestalRaise | pywub/.ipynb_checkpoints/plot-test-data-checkpoint.py:125-142 | A completed hit with a non-zero maximum is counted by the guarded script. Without the guard it raises ValueError exactly when no channel-1 sample is in 300..399. |
| HitText.PedestalRaiseWitness | pywub/.ipynb_checkpoints/plot-test-data-checkpoint.py:132-142 | A one-sample hit of value 1 is counted by the first script and stops the checkpoint copy with ValueError. |
| HitText.HexFailure | pywub/old/plot-spe-data.py:100 | A token that fails raises ValueError. |
| HitText.ZeroSamplesRaise | pywub/old/plot-spe-data.py:72-133 | A hit announcing zero samples raises ValueError: a bad token, or `max` of the empty channel 1. |
| HitText.ZeroHeader | pywub/old/plot-spe-data.py:67-80 | "V1" and a zero count lead on to the timestamp. |
| HitText.StampLine | pywub/old/plot-spe-data.py:81-87 | A timestamp that is not hexadecimal raises ValueError. |
| HitText.SamplesRaise | pywub/old/plot-spe-data.py:88-133 | After a zero count, the TDC line and two sample lines raise. |
| HitText.EmptyChannel1 | pywub/old/plot-spe-data.py:94-109 | With zero samples, the first channel-1 line takes none and moves on to channel 2, unless a token is bad. |
| HitText.EmptyChannel2 | pywub/old/plot-spe-data.py:122-133 | With zero samples, the channel-2 line raises. |
| HitText.RunStep | pywub/old/plot-spe-data.py:64-174 | Running lines is one step, then the rest. |
| HitText.StartGood | pywub/old/plot-spe-data.py:20-22 | The reader starts in a good state. |
| HitText.Ch1Keeps | pywub/old/plot-spe-data.py:99-104 | Channel 1 stays masked to twelve bits. |
| HitText.Ch2Keeps | pywub/old/plot-spe-data.py:123-130 | Channel 2 stays masked, and the discriminator lists stay single bits, all of one length. |
| HitText.StepKeeps | pywub/old/plot-spe-data.py:64-174 | Every line keeps the reader good. The number of kept hits is the smaller of the count and the limit, each kept hit is well formed, the channel lists stay masked, and an accepted sample count is at most 256. |
| HitText.CompletedHitKeeps | pywub/old/plot-spe-data.py:131-137 | A completed hit with a non-zero maximum is well formed, and counting it keeps the reader good. |
| HitText.RunLinesKeeps | pywub/old/plot-spe-data.py:64-174 | Every file keeps the reader good. |
| HitText.RunFilesKeeps | pywub/old/plot-spe-data.py:57-174 | After any files, the number of kept hits is the smaller of the count and the limit. Each kept hit has 1 to 256 twelve-bit samples per channel, single-bit discriminators and a non-zero channel-1 maximum. |
| HitText.StepAgree | pywub/old/plot-spe-data.py:64-174 | Readers that differ only in variables the reader overwrites before reading behave alike on a line. |
| HitText.CloseAgree | pywub/old/plot-spe-data.py:131-137 | Such readers close a channel-2 line alike. |
| HitText.RunLinesAgree | pywub/old/plot-spe-data.py:64-174 | Such readers end alike on the same lines. |
| HitText.FileIndependent | pywub/old/plot-spe-data.py:57-61 | Because each file restarts the reader, what a file adds depends only on the hits kept and counted before it. |
| HitText.HitReader.constructor | pywub/.ipynb_checkpoints/plot-test-data-checkpoint.py:21 | The reader starts waiting for a hit with nothing kept, for the given script: its display limit (100 or 1500) and whether the pedestal is guarded. |
| HitText.HitReader.TakeCh1 | pywub/.ipynb_checkpoints/plot-test-data-checkpoint.py:93-98 | The in-place channel-1 loop computes the channel-1 token function. |
| HitText.HitReader.TakeCh2 | pywub/.ipynb_checkpoints/plot-test-data-checkpoint.py:117-124 | The in-place channel-2 loop computes the channel-2 token function. |
| HitText.HitReader.ReadLine | pywub/.ipynb_checkpoints/plot-test-data-checkpoint.py:59-167 | One line updates the variables as the line-by-line model says, including the copy's pedestal raise. |
| HitText.HitReader.ReadChannel1 | pywub/.ipynb_checkpoints/plot-test-data-checkpoint.py:88-115 | A channel-1 line updates the variables as the model says. |
| HitText.HitReader.ReadChannel2 | pywub/.ipynb_checkpoints/plot-test-data-checkpoint.py:116-142 | A channel-2 line updates the variables as the model says. In the copy, a counted hit with no channel-1 sample in 300..399 raises ValueError. |
| HitText.HitReader.ReadFile | pywub/.ipynb_checkpoints/plot-test-data-checkpoint.py:51-55 | A file restarts the state machine, then reads every line. |
| HitText.HitReader.ReadFiles | pywub/.ipynb_checkpoints/plot-test-data-checkpoint.py:51-167 | The main loop over the files ends in the state of the line-by-line model over all files. |

## Left out

- Serial port open failure and `sys.exit`, `flushInput`, `__del__`: not modelled. The port is an abstract chunk source with a write log.
- Threads: another thread's writes to `request_abort`/`request_stop` are a schedule of requests, one landing at the top of each loop pass.
- Clock and sleeps: `time.sleep` in `binary_stop_batch` and the verbose reads are left out. `time.time()` in the old data-taking script is a schedule of clock readings. The timeouts in pywub/control.py only log, so no clock is needed there.
- Logging and printing: all `logger` calls, `CustomFormatter` and `print` output are left out.
- Control.Session.AwaitOk: a loop that would spin forever once the input dries up returns `Stalled` instead. The same holds for the two batch loops.
- Runtime method generation (`create_method`, pywub/control.py:158-169): modelled as a catalog-attribute lookup (`CommandAttr`) followed by `SendRecv`.
- The first `binary_batchmode_recv` (pywub/control.py:507-566): replaced by the second definition and never reachable.
- Cobs: the published COBS algorithm is written out. The external `cobs` package itself is not part of this model.
- Control.UnpackReadback: `calcsize` without a prefix uses native sizes and alignment. The round trip is proved only for formats whose native layout agrees with the standard one, stated as a precondition of `ReadbackRoundTrip`.
- Control.UnpackReadback: the return values are kept as typed values. Their `str()` rendering is not modelled.
- Catalog.CatalogIndex.constructor: requires that no command's lower-cased name is one of the catalog's own attributes or methods (`IsOwnAttribute`). Python's `setattr` would overwrite or shadow that attribute, which the model does not capture. The table file is not part of this model.
- StructFmt.PackScalar: an int or bool under the `e`, `f` or `d` codes raises struct.error in the model. Python's struct converts it to the nearest binary float, or raises OverflowError when it is too large. IEEE rounding is not modelled.
- StructFmt.PackField and StructFmt.Pack: inherit that gap from `PackScalar`. `Build.BinaryFrame` does too, for an entry whose argument format has a float code.
- Catalog loading: the reading of `wubase_commands.txt` at module level is not modelled, and that file is not part of this model. Only the per-line transform is (`LoadLine`, `LoadLines`).
- Setup.ConvertArgs: float arguments are classified and kept as their literal text. Binary floating point is not computed. Session arguments are ints.
- Floating-point analysis in both plotting scripts: the pedestal, charge and dt histograms and the plotting are left out. Only the raise is modelled: the checkpoint copy divides by the counts around the fullest bin without the first script's guard, so a counted hit with no channel-1 sample in 300..399 gives a NaN pedestal and `math.floor` raises ValueError (`HitText.Ch2Close`).
- HitText: the `lasttime`/`time` bookkeeping used only by the dt analysis is left out. The state after a raise is not modelled, because the script ends there.
- Text: only the ASCII behaviour of `upper`, `lower`, `strip`, `split` and `isnumeric` is modelled. There is no Unicode case mapping or whitespace.
- Transport.Decode: only ASCII decoding is modelled. Any byte of 128 or more raises, where UTF-8 would accept some multi-byte sequences.
- TakeTestData.Receiver.ChunkStep: the '?' test at pywub/old/take-test-data.py:115-116 can never fire and only sets a local variable, so it is modelled as doing nothing.
- HitText.HitReader.TakeCh1 and HitText.HitReader.TakeCh2: the token loops update the channel lists in place over values already read from the tokens. Python's list aliasing between `hitData` and the next hit is not modelled, since the script rebinds fresh lists for each hit.

## Findings

| source | as written | input that shows it | evidently intended | confidence | as-written member | corrected member |
|---|---|---|---|---|---|---|
| pywub/catalog.py:143 | `struct.pack("!{self.args}", *args)` lacks the `f` prefix, so the format is the literal text "{self.args}" | any entry, binary mode, e.g. an entry with no arguments and `build('b', [])` | pack the arguments with the entry's own format, `"!" + self.args` | not executed | Build.MissingFormatPrefixWitness | Build.BinaryDecodesBack |
| pywub/control.py:244 | `send` hands the `str` that `build` returns in ASCII mode (pywub/catalog.py:136-138) to pyserial's `write`, which takes bytes only; the text has no line feed either | any ASCII-mode command that builds, e.g. a command with no arguments | send `(text + "\n").encode()`, as `ascii_batchmode_recv` does at pywub/control.py:427 | not executed | Control.Session.SendRecvAsciiAsWritten | Control.AsciiLineSplitsBack |
| pywub/control.py:307 | `command.build(mode, *args)` passes each argument positionally, but `build` (pywub/catalog.py:115) takes one list | any command sent with one or more arguments: `build('a', 5)` indexes the int 5 | `command.build(mode, list(args))` | not executed | Build.VarargsCall | Build.AsciiSplitsBack |
