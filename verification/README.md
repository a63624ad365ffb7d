# Rust SGX SDK: verified cores

This project models six parts of the Rust SGX SDK in Dafny and proves what they promise.

* **JSON** (`Json*.dfy`). Concrete syntax trees, with the spaces and the spelling of every lexeme, are
  the reference. The event parser, with its key stack packed into one byte buffer, and the builder are
  proved to accept exactly the texts of those trees, with their meaning. Both encoders write texts of
  particular trees, so the round trips follow. The typed decoder, a stack machine, undoes the typed
  encoder.
* **Rust v0 symbols** (`V0*.dfy`, `Punycode*.dfy`). The mutually recursive parse-and-print machine
  with back references, a depth limit, sticky errors and a mode that skips printing, against trees of
  Rust RFC 2603 with a mangling and a reading of their own (`V0Symbols.dfy`); and the Punycode decoder
  against the encoder of RFC 3492.
* **Legacy symbols** (`Legacy*.dfy`). The validating scan, the printing scan and the unescape loop.
* **Aligned allocation** (`Align*.dfy`). Words are sequences of bits; the rotations, the recursive mask
  and the leading-zero count refine an arithmetic definition of the padding.
* **The barrier** (`Barrier.dfy`). Critical sections taken by any number of threads in any order.
* **Binary coding and random numbers** (`Leb128*.dfy`, `Opaque*.dfy`, `Shuffle.dfy`, `ChaCha*.dfy`).

Functions give the meaning of an operation; modules ending in `Machine`, `JsonEncoders`, `AlignCheck`,
`AlignHeap` and the classes in them hold the loops and the objects that are updated in place, each proved
equal to its function. `Common`, `Decimals`, `Utf8`, `Division` and `Powers` are shared. `KnownAnswers`
and `ChaChaVectors` hold examples of the standards.

Where the code does less than a reader might expect, the code is modelled as it is:

* An integer literal of 2^64 or more is reduced modulo 2^64 or refused (`JsonTheorems.IntegerExact`).
* Keys are addressed with 16-bit offsets, so that past 65535 bytes of nested keys other keys come back
  (`JsonKeyLimit.ReadExact`, `JsonKeyLimit.KeyLost`).
* After a comma, a closing brace pops the entry of the parent from the key stack. The builder then
  reports an error or panics; it never accepts the text (`JsonTheorems.TextSound`,
  `JsonRuns.TrailingCommaEvents`).
* `Some(())` and `Some(None)` decode as `None`, at any depth (`JsonDecoding.OptionExact`).
* A symbol can demangle and still be displayed with an error, because of a lifetime index or of what a
  back reference leads to (`V0Theorems.DisplayExact`, `V0Samples.BackrefShowsError`).
* An empty legacy element before another one is not read back (`Legacy.MangleRoundTrip`).
* A block can be less aligned than its layout asks (`AlignLayout.AlignmentExact`), and the word in front
  of it can lie outside the raw block (`AlignHeap.BackPointerInside`).
* A block inside a buffer near the top of memory can be placed below it (`AlignHeap.RoundingWraps`).

## Model

| member | source | states |
|---|---|---|
| JsonTheorems.ReaderExact | sgx_serialize/src/json.rs:2080-2204 | For every text, the reader returns `v` if and only if the text is some spelling, by the grammar, of a tree that means `v` once its keys are those the 16-bit key stack gives back; within the key limit those are the keys of the text, and `v` is what the text denotes |
| JsonTheorems.TextSound | sgx_serialize/src/json.rs:1857-2182 | Whatever is accepted is a text of the grammar, which has no trailing commas; the value is the meaning of its tree with the keys read off the stack |
| JsonComplete.TextRead | sgx_serialize/src/json.rs:2090-2182 | Every well-formed text, without any limit, is accepted with the meaning of its tree, each key as it comes back off the stack, or panics exactly when one of them does not come back as a string |
| JsonKeyLimit.ReadExact | sgx_serialize/src/json.rs:1406-1493 | A tree comes back off the stack with its own keys if and only if its key paths take at most 65535 bytes |
| JsonKeyLimit.KeyLost | sgx_serialize/src/json.rs:1456-1475 | Past that, keys change: every key of exactly 65536 bytes, in an object of one entry, is read as the empty key, and the text is accepted |
| JsonComplete.TextBuilt | sgx_serialize/src/json.rs:2090-2182 | Every well-formed text whose key paths take at most 65535 bytes is accepted with its meaning: duplicate keys keep the last value, escapes and surrogate pairs are joined, integers are read modulo 2^64 |
| JsonTheorems.ShortTextFits | sgx_serialize/src/json.rs:1385-1475 | Any text of at most 65535 bytes is within the key limit |
| JsonTheorems.IntegerExact | sgx_serialize/src/json.rs:1605-1694 | An integer literal is read as the number it denotes if and only if that is below 2^64 without a sign, or at least -2^63 with one |
| JsonRoundTrip.IntegerWraps | sgx_serialize/src/json.rs:1660-1694 | Overflow goes unnoticed: every literal strictly between 2^64 and 2^65 is read with 2^64 taken off |
| JsonRoundTrip.RoundTrip | sgx_serialize/src/json.rs:378-440 | Reading what either encoder writes, for any float-free value with integers in range and key paths within the limit, gives the value back with non-negative `I64` as `U64` |
| JsonRoundTrip.CompactRoundTrip | sgx_serialize/src/json.rs:694-758 | The same for the compact form |
| JsonRoundTrip.PrettyRoundTrip | sgx_serialize/src/json.rs:1007-1109 | The same for the pretty form at any indent width |
| JsonLayout.PrettyLaidOut | sgx_serialize/src/json.rs:791-1092 | The pretty text of every float-free value is the compact text laid out by a formatter of texts: a new line after each opening bracket and comma and before each closing bracket outside strings, indented by the indent times the brackets open there, a space after each colon, and empty arrays and objects kept together |
| JsonRuns.BuilderSound | sgx_serialize/src/json.rs:2090-2182 | Whenever a value is built, the whole event sequence of the parser is the balanced linearisation of a tree that merges to that value: the tree of the text with the keys as the stack gives them back, which within the key limit is the tree of the text |
| JsonRuns.TextEvents | sgx_serialize/src/json.rs:1526-1547 | On every well-formed text, however long its key paths, the parser alone, iterated to its end, emits exactly the events of the tree |
| JsonRuns.TrailingCommaEvents | sgx_serialize/src/json.rs:1963-2032 | On an object with a trailing comma in an array that is not closed, the parser emits an object end and stops without an error; the text is not accepted |
| JsonRuns.ReachableStack | sgx_serialize/src/json.rs:1388-1510 | In every reachable state the stack is as long as the path of keys and indices that the calls so far have pushed, popped and counted up; where its buffer takes at most 65535 bytes, whatever it took before, the buffer is the concatenation of the keys of that path, and every entry, the top included, reads back as the key or index of the path at its place |
| JsonRuns.NextKeepsStack | sgx_serialize/src/json.rs:1857-2032 | One call of the parser takes the representation of a path to that of the path with the key just parsed pushed, the index pushed or counted up, or the last entry popped, the extra pop after a trailing comma included, unless 65536 bytes of the buffer have been lost for good |
| JsonRuns.ReachableSizes | sgx_serialize/src/json.rs:1482-1493 | In every reachable state, without any limit, popping a key never truncates more of the buffer than there is |
| JsonStack.RepresentedElement | sgx_serialize/src/json.rs:1406-1468 | Each entry of a represented stack of at most 65535 key bytes slices exactly its key, and the top is the last |
| JsonStack.PopPushKey | sgx_serialize/src/json.rs:1470-1493 | Popping undoes pushing a key if and only if the key takes at most 65535 bytes; the list of entries is restored in any case |
| JsonStack.OperationsKeepSizes | sgx_serialize/src/json.rs:1470-1510 | Every stack operation keeps the sizes consistent with the buffer, and a pop removes exactly the size on top |
| JsonValue.InsertIsMapUpdate | sgx_serialize/src/json.rs:2147-2182 | Inserting into the ordered entry list is a map update |
| JsonValue.InsertSorted | sgx_serialize/src/json.rs:2147-2182 | Insertion keeps the keys of an object strictly increasing |
| JsonLexemes.NumberRead | sgx_serialize/src/json.rs:1605-1694 | Every number of the grammar is read to its end with its meaning |
| JsonLexemes.NumberSound | sgx_serialize/src/json.rs:1605-1694 | Whatever is read as a number is a number of the grammar with that meaning |
| JsonLexemes.StrRead | sgx_serialize/src/json.rs:1761-1855 | Every string body, with all escapes and surrogate pairs, is read to its closing quote with its meaning |
| JsonLexemes.StrSound | sgx_serialize/src/json.rs:1761-1855 | Whatever is read as a string is a string body of the grammar with that meaning |
| JsonStrings.PairText | sgx_serialize/src/json.rs:1813-1826 | Every character past the basic plane, written as its two UTF-16 units in hexadecimal digits of either case, is read as itself |
| JsonStrings.UnitText | sgx_serialize/src/json.rs:1828-1831 | Every other character, written as its number in four hexadecimal digits of either case, is read as itself |
| JsonStrings.LetterTexts | sgx_serialize/src/json.rs:1800-1807 | The eight escapes of one letter are read as the characters they stand for, the slash included |
| JsonDecoding.ValueDecoded | sgx_serialize/src/json.rs:2237-2489 | For every type, decoding the JSON of a value with no `Some` written as null, on top of any stack, gives the value and leaves exactly that stack |
| JsonDecoding.OptionExact | sgx_serialize/src/json.rs:2237-2489 | For every type and value, what is read back has `None` for every `Some` that was written as null, at any depth; so the value is read back as itself if and only if there is none |
| JsonMaps.MembersReinserted | sgx_serialize/src/collection.rs:89-107 | The members of a map, which the parser holds in the order of the key texts, inserted one by one from the last give the map back in the order of its keys, numbers by value |
| JsonMaps.MembersOrdered | sgx_serialize/src/collection.rs:73-87 | The members are the entries of the map, each once, in some order, since no two keys have the same text |
| JsonTypedText.TypedWritten | sgx_serialize/src/json.rs:499-758 | What the compact encoder writes for a typed value, maps in the order of their keys, is a text of the grammar that means the JSON of the value |
| JsonTypedText.EncodeParseDecode | sgx_serialize/src/json.rs:311-329 | Encoding, parsing and decoding a typed value whose key paths take at most 65535 bytes gives it back, with nothing left on the stack, if and only if no `Some` in it is written as null |
| JsonMachine.KeyStack.PushKey | sgx_serialize/src/json.rs:1470-1475 | Pushes a key into the shared byte buffer with its 16-bit position and size |
| JsonMachine.KeyStack.Pop | sgx_serialize/src/json.rs:1482-1493 | Removes the top entry and the bytes its stored size says |
| JsonMachine.Parser.ParseU64 | sgx_serialize/src/json.rs:1660-1694 | The digit loop accumulates modulo 2^64 and refuses a leading zero, as the specification says |
| JsonMachine.Parser.ParseNumber | sgx_serialize/src/json.rs:1605-1658 | Sign, integer, fraction and exponent are consumed exactly as specified |
| JsonMachine.Parser.ParseStr | sgx_serialize/src/json.rs:1788-1855 | The string loop consumes and yields what the specification does |
| JsonMachine.Parser.ParseArrayCommaOrEnd | sgx_serialize/src/json.rs:1939-1961 | A comma moves on to the next index without an event; a bracket pops the index and ends the array; anything else is the error of the specification |
| JsonMachine.Parser.ParseObject | sgx_serialize/src/json.rs:1963-2014 | The object step, with the pop after a trailing comma |
| JsonMachine.Parser.Parse | sgx_serialize/src/json.rs:1857-1896 | The state machine loop reaches the event and the state of the specification |
| JsonMachine.Parser.Next | sgx_serialize/src/json.rs:1526-1547 | One event is the next one of the specification |
| JsonBuilderMachine.Builder.BuildObject | sgx_serialize/src/json.rs:2147-2182 | Builds the object the specification gives, reading each key off the parser stack |
| JsonBuilderMachine.FromStr | sgx_serialize/src/json.rs:2201-2204 | Reads a text as the specification does, panics included |
| JsonEncoders.EscapeStr | sgx_serialize/src/json.rs:378-440 | Writes the quoted and escaped text, flushing unescaped runs |
| JsonEncoders.Encoder.Encode | sgx_serialize/src/json.rs:1096-1110 | Appends the compact text of the value |
| JsonEncoders.PrettyEncoder.Encode | sgx_serialize/src/json.rs:791-1092 | Appends the indented text of the value and ends with the indent it began with |
| JsonDecoderMachine.Decoder.DecodeValue | sgx_serialize/src/json.rs:2256-2489 | The stack machine does what the decoding function says: the value and the stack left, or the error |
| V0Parser.UintExact | sgx_demangle/src/v0.rs:284-296 | The test on sixteen nibbles refuses a constant exactly when it does not fit 64 bits |
| V0Displayed.SymbolRoundTrip | sgx_demangle/src/v0.rs:44-115 | For every tree of Rust RFC 2603 (crate roots, nested paths, both kinds of `impl`, trait members, generic arguments, every type, every constant, binders, back references) that is at most 500 levels deep, names no lifetime out of range and refers back to where the trees referred to stand: its symbol, with any of the three prefixes, an instantiating crate and a suffix, is accepted, and the pieces displayed are the reading of the tree, in either form |
| V0RoundTrip.PathRead | sgx_demangle/src/v0.rs:803-897 | At any place, printing or skipping: a run of the path printer on the mangling of a path stops at its end and has written its reading; a back reference shows what its target shows |
| V0RoundTrip.TypeRead | sgx_demangle/src/v0.rs:910-1038 | The same for types: basic types, named types, arrays, slices, tuples, references with lifetimes, pointers, function pointers and trait objects with binders, back references |
| V0RoundTrip.ConstRead | sgx_demangle/src/v0.rs:1090-1217 | The same for constants: integers of any size and sign, booleans, characters, strings, references, arrays, tuples and named types |
| V0RoundTrip.ItemsRead | sgx_demangle/src/v0.rs:788-801 | The same for lists, and the number of elements |
| V0RoundTrip.OpenRead | sgx_demangle/src/v0.rs:1045-1064 | The same for the path of a trait whose generic arguments stay open |
| V0Displayed.SampleShown | sgx_demangle/src/v0.rs:833-869 | `_RNvC1a1b` is accepted and displayed as `a[0]::b`, and as `a::b` in the alternate form |
| V0Displayed.BackShown | sgx_demangle/src/v0.rs:662-676 | `_RYNtC1a1bNtB2_1c` is accepted and displayed as `<a[0]::b as a[0]::c>`: the back reference to position 3 shows the crate that stands there |
| V0Parser.Backref | sgx_demangle/src/v0.rs:516-529 | A back reference leads strictly before its own tag and one level deeper, within the depth limit |
| V0Printer.PrintPath | sgx_demangle/src/v0.rs:803-897 | Terminates through back references by depth and remaining characters; errors stick, output only grows, bound lifetimes are restored, and without an error the depth is restored and the position strictly advanced |
| V0Printer.PrintType | sgx_demangle/src/v0.rs:910-1038 | The same for types |
| V0Printer.PrintConst | sgx_demangle/src/v0.rs:1090-1217 | The same for constants |
| V0Printer.PrintList | sgx_demangle/src/v0.rs:788-801 | The same for separated lists of any kind |
| V0Printer.PrintOpenPath | sgx_demangle/src/v0.rs:1045-1064 | The same for a path whose generics may stay open |
| V0Printer.LeaveBinder | sgx_demangle/src/v0.rs:754-783 | The wrapping subtraction restores the number of bound lifetimes there was before the binder |
| V0Skip.PathTied | sgx_demangle/src/v0.rs:803-897 | A printing run of a path fails if the text names a loose lifetime, one that no binder around it binds, outside back references; otherwise it ends exactly as the skipping run does |
| V0Skip.TypeTied | sgx_demangle/src/v0.rs:910-1038 | The same for types |
| V0Skip.ConstTied | sgx_demangle/src/v0.rs:1090-1217 | The same for constants |
| V0Theorems.SkippingAgrees | sgx_demangle/src/v0.rs:647-676 | From any place and with any lifetimes bound: the printing run fails where the text names a loose lifetime, and otherwise ends in the same state as the skipping run, position, depth and error |
| V0Theorems.DisplayExact | sgx_demangle/src/v0.rs:44-115 | The text displayed for a symbol that demangles shows an error if and only if a scan of the symbol that counts the lifetimes bound finds one that is out of range, or a back reference to something whose scan fails there or that is at fault there itself; the printing scan fails if and only if it finds the first kind outside back references, and otherwise reaches the end of the validated path |
| V0Shown.PathShown | sgx_demangle/src/v0.rs:803-897 | From any place: what a printing run of a path writes has no error message, no lifetime out of range and no question mark if and only if the skipping run does not fail and nothing on the way is at fault |
| V0Shown.TypeShown | sgx_demangle/src/v0.rs:910-1038 | The same for types |
| V0Shown.ConstShown | sgx_demangle/src/v0.rs:1090-1217 | The same for constants |
| V0Samples.DisplayCanFail | sgx_demangle/src/v0.rs:725-749 | A symbol that demangles and whose printing scan fails: a reference with lifetime index 1 outside any binder |
| V0Samples.BackrefShowsError | sgx_demangle/src/v0.rs:662-676 | A symbol that demangles and names no lifetime, whose printing scan succeeds, and whose text shows an error all the same, behind a back reference |
| V0Samples.OnlyQuestionMark | sgx_demangle/src/v0.rs:624-660 | One whose text has no error message, only the question mark left by a failure while printing was skipped |
| V0Theorems.ReferenceStops | sgx_demangle/src/v0.rs:918-934 | A reference type, shared or mutable, with such a lifetime fails when printed and is scanned on when skipped |
| V0Machine.Demangler.PrintPath | sgx_demangle/src/v0.rs:803-897 | The printer object does to parser, formatter and lifetime count what the specification says |
| V0Machine.Demangler.PrintType | sgx_demangle/src/v0.rs:910-1038 | The same for types |
| V0Machine.Demangler.PrintConst | sgx_demangle/src/v0.rs:1090-1217 | The same for constants |
| V0Machine.Demangler.PrintList | sgx_demangle/src/v0.rs:788-801 | The list loop prints and counts the elements of the specification |
| V0Machine.Demangler.EnterBinder | sgx_demangle/src/v0.rs:754-775 | The loop over bound lifetimes |
| V0Machine.ScanName | sgx_demangle/src/v0.rs:531-576 | The identifier scan, with the length loop and the search for the last underscore |
| V0Machine.DemangleSymbol | sgx_demangle/src/v0.rs:44-98 | Accepts and splits off the suffix as the specification does |
| PunycodeRoundTrip.DecodeEncode | sgx_demangle/src/v0.rs:159-244 | The decoder undoes the encoding procedure of RFC 3492 section 6.3, for a string that is not ASCII, if and only if it has at most 128 characters, and refuses it otherwise; the identifier is displayed as that string |
| KnownAnswers.PunycodeExample | sgx_demangle/src/v0.rs:159-244 | Sample (R) of RFC 3492 section 7.1 is decoded to its seven characters |
| PunycodeRoundTrip.DeltaRead | sgx_demangle/src/v0.rs:190-213 | A variable-length integer is read back, with no 64-bit overflow on the way |
| PunycodeRoundTrip.InsertDecoded | sgx_demangle/src/v0.rs:215-231 | One delta puts the decoder on the code point and the position the encoder is at |
| PunycodeMachine.InsertAt | sgx_demangle/src/v0.rs:131-147 | Shifting the array up is insertion into the sequence; a full buffer refuses and changes nothing |
| PunycodeMachine.TrySmallDecode | sgx_demangle/src/v0.rs:128-154 | The loops over the fixed array decode as the specification does |
| V0Names.IdentifierRoundTrip | sgx_demangle/src/v0.rs:531-576 | Every identifier, of at most 128 characters unless it is ASCII, mangled as Rust RFC 2603 says and standing anywhere in a symbol, is scanned back to its end and displayed as itself |
| Legacy.ScansAgree | sgx_demangle/src/legacy.rs:90-136 | An accepted symbol is split by the printing scan into exactly the elements that were counted, up to its closing letter, with every slice inside the string |
| Legacy.MangleRoundTrip | sgx_demangle/src/legacy.rs:90-116 | A list of elements survives mangling if and only if none starts with a digit and none but the last is empty |
| LegacyPrint.DisplayTotal | sgx_demangle/src/legacy.rs:124-205 | No accepted symbol makes the printing code panic |
| LegacyPrint.UnescapeEscape | sgx_demangle/src/legacy.rs:149-199 | Unescaping undoes escaping if and only if the text has no control character |
| LegacyPrint.EscapesShown | sgx_demangle/src/legacy.rs:164-173 | Each named escape, wherever it stands, is displayed as its character |
| LegacyPrint.DottedShown | sgx_demangle/src/legacy.rs:148-155 | Segments of a name joined by two dots are displayed joined by two colons, each segment unescaped, if and only if none has a control character |
| LegacyPrint.ElementExact | sgx_demangle/src/legacy.rs:146-200 | An element is displayed as the name it was made of if and only if no segment of the name has a control character and it has no underscore in front of an escape |
| LegacyPrint.HashExact | sgx_demangle/src/legacy.rs:120-138 | What the alternate form leaves out at the end is exactly a letter h followed by hexadecimal digits in either case |
| LegacyPrint.NamesExact | sgx_demangle/src/legacy.rs:68-200 | The symbol of a list of names is accepted with as many elements, each displayed as its name, if and only if no name starts with a digit, only the last is empty, none has a control character and none has an underscore in front of an escape |
| LegacyPrint.PathRoundTrip | sgx_demangle/src/legacy.rs:68-205 | A path of such names, escaped, mangled and prefixed, is accepted and displayed as that path; the alternate form leaves out a hash at the end |
| LegacyMachine.CountElements | sgx_demangle/src/legacy.rs:90-116 | The validating loop counts as specified |
| LegacyMachine.WriteElement | sgx_demangle/src/legacy.rs:146-200 | The unescape loop terminates and writes what is specified |
| LegacyMachine.Format | sgx_demangle/src/legacy.rs:124-205 | The display loop never slices outside the string and writes the joined elements |
| AlignWord.RolBit | sgx_alloc/src/alignalloc.rs:331-342 | Rotating left moves every bit up by the count, around the end of the word |
| AlignWord.CountLzbExact | sgx_alloc/src/alignalloc.rs:344-350 | The recursive count is the distance of the highest set bit from the top, and -1 exactly for zero |
| AlignWord.LowValue | sgx_alloc/src/alignalloc.rs:389 | The mask of a request is the word that is one less than a power of two |
| AlignAlloc.MakeBitmap | sgx_alloc/src/alignalloc.rs:383-393 | A bit is set exactly when some requested byte is at that offset modulo 64, long requests included |
| AlignAlloc.ForbiddenExact | sgx_alloc/src/alignalloc.rs:356-358 | The rotated and combined bitmaps mark exactly the paddings that put a requested byte on residue 0, 4, 5, 6 or 7 |
| AlignAlloc.MaskExact | sgx_alloc/src/alignalloc.rs:322-328 | The recursive mask marks exactly the multiples of the alignment |
| AlignAlloc.PaddingExact | sgx_alloc/src/alignalloc.rs:352-365 | The padding found is the least multiple of the alignment below 64 that keeps all requested bytes off those residues, and -1 exactly when there is none |
| AlignCheck.CheckAlignReq | sgx_alloc/src/alignalloc.rs:284-320 | A request list is accepted if and only if it is not empty, every request is inside the block and no byte is requested twice |
| AlignLayout.CalcAlignSmall | sgx_alloc/src/alignalloc.rs:367-381 | The alignment chosen is the smallest of 8, 16, 32 and 64 that the padded block fits in, or 64 |
| AlignLayout.MaskRounds | sgx_alloc/src/alignalloc.rs:268-270 | Clearing the bits of the alignment less one rounds down to a multiple of it |
| AlignLayout.SecretPlacement | sgx_alloc/src/alignalloc.rs:235-270 | For every accepted request list and every raw address, no requested byte is at an address that is 0, 4, 5, 6 or 7 modulo 64, whether the alignment is 8, 16, 32, 64 or more |
| AlignLayout.AlignmentExact | sgx_alloc/src/alignalloc.rs:262-270 | The block has the alignment of the layout, for every raw address, if and only if the alignment chosen is not smaller |
| AlignLayout.AlignmentCondition | sgx_alloc/src/alignalloc.rs:367-381 | That is the case exactly for alignments up to 8 or above 64, or when the padded block is longer than half the alignment; a size of at least the alignment is enough |
| AlignLayout.AlignmentLost | sgx_alloc/src/alignalloc.rs:367-381 | It does fail: eight bytes aligned to 16, 32 or 64 with bytes 1 and 2 secret get an alignment of 8; for 32 and 64 the block is misaligned at raw addresses that are 16 modulo 64 |
| AlignHeap.PadAlignTo | sgx_alloc/src/alignalloc.rs:235-244 | Answers with the least padding and its alignment exactly when the list is accepted, a padding fits and the padded layout is one |
| AlignHeap.AllocIn | sgx_alloc/src/alignalloc.rs:198-226 | The block is inside the raw one, the word before it holds the raw pointer, and nothing else is written but the zeros asked for |
| AlignHeap.AllocWithReq | sgx_alloc/src/alignalloc.rs:141-192 | A block that is handed out is inside the raw one, has no requested byte exposed, none at all for an empty list, and can be freed; it is zero where zeros are asked for, nothing but the block and the word before it is written, and a refusal writes nothing. It is refused only for an empty layout, for want of room, or when no padding can be had |
| AlignHeap.Dealloc | sgx_alloc/src/alignalloc.rs:229-233 | Frees what the word before the block says |
| AlignHeap.BlockWritesKeepRaw | sgx_alloc/src/alignalloc.rs:229-233 | Whatever is written into the block, freeing it finds the raw pointer |
| AlignHeap.BackPointerInside | sgx_alloc/src/alignalloc.rs:222-224 | That word is inside the raw block, for every raw address from 8 on, if and only if the padding is at least 8 |
| AlignHeap.BackPointerOutside | sgx_alloc/src/alignalloc.rs:198-226 | It does lie outside: for eight bytes aligned to 16 with bytes 1 and 2 secret, the block starts at the raw address whenever that is a multiple of 16, and the word is below it |
| AlignHeap.GetAlignedPtr | sgx_alloc/src/capi.rs:64-113 | The block found in a buffer is not null, keeps its requested bytes off the exposed residues and ends inside the buffer; it starts inside if and only if rounding up does not wrap around. Null means a refused argument, a refused list, a block that would end past the buffer, or one that rounding puts at address 0 |
| AlignHeap.RoundingWraps | sgx_alloc/src/capi.rs:64-113 | Rounding does wrap: a block of eight bytes in a buffer of eight, nine below the top of memory, is placed at address 1 |
| Barrier.StepInv | sgx_sync/src/barrier.rs:72-93 | Every critical section of any thread keeps the invariant: threads at most one generation apart, the count equal to the number gathered and short of all, the wrapping number that of the generation |
| Barrier.Safety | sgx_sync/src/barrier.rs:72-93 | In every interleaving, no thread has returned from its k-th wait before all have entered theirs |
| Barrier.OneLeader | sgx_sync/src/barrier.rs:63-93 | In every interleaving, the wait that returned true in a generation is that of its one leader |
| Barrier.CountExact | sgx_sync/src/barrier.rs:72-93 | The count is the number of threads waiting on the current generation and is below the number of threads |
| Barrier.NeverSticks | sgx_sync/src/barrier.rs:72-93 | When all threads are inside wait, the next poll of one of them returns |
| Barrier.Object.Arrive | sgx_sync/src/barrier.rs:72-92 | The first critical section of wait |
| Barrier.Object.Poll | sgx_sync/src/barrier.rs:80-84 | The test of the waiting loop |
| Leb128.UnsignedRoundTrip | sgx_serialize/src/leb128.rs:32-96 | For every width and unsigned value, reading the written bytes followed by anything gives the value and the written length, at most a seventh of the width rounded up |
| Leb128.SignedRoundTrip | sgx_serialize/src/leb128.rs:98-165 | The same for signed values, with the last byte cut off by the end of the word and the case without sign extension |
| KnownAnswers.Leb128Examples | sgx_serialize/src/leb128.rs:32-129 | The examples of the DWARF 5 standard, section 7.6 |
| Leb128Machine.WriteUnsigned | sgx_serialize/src/leb128.rs:32-60 | The writer stays inside a buffer of the longest length and leaves the encoding in it |
| Leb128Machine.WriteSigned | sgx_serialize/src/leb128.rs:98-129 | The same for signed values |
| Leb128Machine.ReadUnsignedLoop | sgx_serialize/src/leb128.rs:70-88 | The reading loop, with its panics |
| Leb128Machine.ReadSignedLoop | sgx_serialize/src/leb128.rs:139-165 | The same for signed values |
| Opaque.SelfDelimiting | sgx_serialize/src/serialize.rs:220-325 | Decoding at the start of an encoding, whatever follows, gives the value and its exact length, for arbitrarily nested sequences, arrays, options, results, tuples, enums and strings |
| Opaque.Discriminants | sgx_serialize/src/opaque.rs:149-151 | The byte of a boolean, and the bytes that an option and a result start with |
| Opaque.InsideBuffer | sgx_serialize/src/opaque.rs:221-345 | The same at any place inside a longer buffer |
| OpaqueMachine.Encoder.EncodeValue | sgx_serialize/src/serialize.rs:66-183 | The encoder appends the binary form to its buffer |
| OpaqueMachine.Encoder.EncodeSlice | sgx_serialize/src/serialize.rs:491-500 | The loop over the elements of a slice |
| OpaqueMachine.Decoder.DecodeValue | sgx_serialize/src/opaque.rs:221-345 | The decoder moves its position by the length of what it reads, and reports or panics as specified |
| OpaqueMachine.Decoder.DecodeElements | sgx_serialize/src/serialize.rs:509-519 | The loop that pushes decoded elements |
| Shuffle.ShuffleInPlace | sgx_rand/src/lib.rs:400-411 | The swapping loop computes the permutation that its choices determine |
| Shuffle.ShuffledPermutes | sgx_rand/src/lib.rs:400-411 | Every run yields a permutation |
| Shuffle.ChoicesBijective | sgx_rand/src/lib.rs:383-411 | On distinct elements, each permutation is reached by exactly one vector of choices in range |
| ChaCha.RoundsBijective | sgx_rand/src/chacha.rs:49-87 | The rounds, before the final addition, can be undone from either side |
| ChaCha.XorBit | sgx_rand/src/chacha.rs:49-64 | A bit of the exclusive or is set exactly where the operands differ |
| ChaCha.CounterCarries | sgx_rand/src/chacha.rs:185-202 | Carrying from word to word counts up by one |
| ChaCha.ScheduleExact | sgx_rand/src/chacha.rs:65-81 | The eight quarter rounds of a double round are the columns and the diagonals of the square of words, by arithmetic on their places |
| ChaChaVectors.BlockValue | sgx_rand/src/chacha.rs:82-92 | For every input, the block of numbers is the block of 32-bit machine words |
| ChaChaVectors.QuarterExample | sgx_rand/src/chacha.rs:49-64 | The quarter round of RFC 8439 section 2.1.1 |
| ChaChaVectors.BlockExample | sgx_rand/src/chacha.rs:82-92 | The block of RFC 8439 section 2.3.2 |
| ChaCha.Stream | sgx_rand/src/chacha.rs:140-215 | After the counter is set, the k-th word is word k mod 16 of the block at the counter plus k/16, modulo 2^128 |
| ChaChaMachine.QuarterRound | sgx_rand/src/chacha.rs:49-64 | The in-place quarter round on four words of the array |
| ChaChaMachine.Core | sgx_rand/src/chacha.rs:82-92 | The loops compute the block of the input |
| ChaChaMachine.ChaChaRng.Update | sgx_rand/src/chacha.rs:185-202 | Refills the buffer and counts up |
| ChaChaMachine.ChaChaRng.NextU32 | sgx_rand/src/chacha.rs:207-215 | Yields the next word of the stream |

## Left out

- JSON floating point: a literal keeps its sign, integer part, fraction digits and exponent digits; what
  `f64` value they give is not modelled, and values with floats are not printed.
- JSON line and column numbers, error texts, and the pure accessors of `Json`.
- `f32`, `f64`, `char` and raw bytes in the typed JSON coder; encoding into `PrettyEncoder` of anything
  but `Json` values.
- JsonTypedText.EncodeParseDecode: the typed text is a function of the value; the calls of the encoder
  that write it piece by piece are modelled for `Json` values only.
- JsonTyped.ToJson: maps are B-tree maps, in the order of their keys; the order of a hash map is not
  modelled.
- Arithmetic that overflows is modelled as it is without overflow checks where it wraps silently in
  release builds (`u32` lifetime counts, `i64` masks, addresses); a shift by the width or more in the
  LEB128 readers, and an index outside a slice, are panics.
- V0Printer.PrintPath: the output is a list of pieces; how a piece is rendered is modelled for
  identifiers only, not for quoted characters.
- Formatter errors: the sink of the demanglers never fails.
- Legacy symbols: the escaping procedure of the compiler is not part of the repository; the one used as
  a partner covers the escapes that the printing code knows.
- AlignHeap.AllocIn: `malloc` is an arbitrary address whose block does not wrap around; `free` and the
  release of the validation bitmap are not modelled.
- AlignLayout.IsLayout: a layout is taken to be at most `isize::MAX` when rounded up, as the core library
  guarantees.
- Barrier: mutual exclusion of the spin lock, and a scheduler that lets some thread go on, are assumed.
- Opaque.SelfDelimiting: floats are written as their bits and not modelled apart; maps and the other
  collections repeat the pattern of vectors.
- Shuffle.ShuffleInPlace: `gen_range` is an arbitrary value in its range; `sample`, `fill_bytes` and the
  float generators are not modelled.
- ChaCha.Block: seeding from another generator; the words are numbers below 2^32 and not machine words.
- `sgx_rsrvmm`, `sgx_backtrace`, `sgx_libc`, macros, `isaac`, `types.rs` and `collection.rs` would add
  declarations or easy members only.
