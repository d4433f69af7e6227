# Pixi in Dafny

This project models the core of Pixi, a tool that inserts custom sprites into Super Nintendo cartridge images and then writes the tables the game's sprite engine reads. It covers six parts of the C++ program:

- **Address translation** (`rom.dfy`, module `Rom`). The cartridge image and its copier header: header detection from `size & 0x7FFF`, mapper detection (LoRom, SA-1, full SA-1), and `pc_to_snes`/`snes_to_pc`. The functions work on `size_t` as `bv64`, so the `size_t` max sentinel and the header added to it come out exactly as the code computes them. The class `Rom.Rom` holds the image and its raw and translated reads and writes.
- **Sprite records** (`entities.dfy`, module `Entities`). The 3-byte relocatable `Pointer` whose default is `21 80 01`, the 16-byte table row, the 15-byte status-pointer block, the 8-byte `Map16`, and the readers of a sprite's description: the line-by-line CFG reader (`read_byte_count`, the six line handlers and their dispatch) and the clamping parts of the JSON reader.
- **Sprite tables** (`spritesdata.dfy`, `perlevel.dfy`, `serialize.dfy`, `sprites.dfy`). The lookup `from_table` and the list file reader `populate`. The duplicate search of `patch_sprites` and the per-level bump allocator behind it (class `PerLevel.PerLevelData` over four buffers). The serialiser, which returns each file as a named byte sequence instead of writing it. The class `Sprites.SpritesData` ties these together.
- **MeiMei** (`meimei.dfy`). The remapper that rebuilds every level's sprite data when the extra-byte counts change. The walk over one level is a method over a 0x800-byte `array`, proved equal to a function on sequences whose bounds are proved once.
- **Buffers** (`array.dfy`, `memoryfile.dfy`). `ByteArray` with its separate size and checked `at`, `ByteArrayView`, and the append-only `MemoryFile`, including the condition under which its destructor writes the file (`WritesOnDestruction`).
- **Strings and the command line** (`util.dfy`, `clib.dfy`, `config.dfy`). `trim`, the path helpers, `escapeDefines`, the subfile name, and the C library conversions they rely on. The command-line fold `transform_args`/`parse_cmd_line_args` on the class `Config.PixiConfig`, the clamped `Paths`/`Extensions` lookups, and the generated configuration text.

Shared definitions (bytes, `size_t`, the fatal outcomes of `pixi_error`, `at` and `print_help`) live in `types.dfy`.

How the model handles the program's edges:

- **Fatal errors.** Every call to `pixi_error` is a `Result` error carrying its message, and an `at` out of range is an `OutOfRange` outcome. Callers are never required to avoid these inputs.
- **Undefined behaviour.** Unchecked `operator[]` or `memcpy` past an allocation is a precondition where the caller controls the index. Where the caller does not control it, the model proves it cannot happen.
- **Code over documentation.** Where the two disagree, the model follows the code:
  - `get(ListType::Extended)` returns the cluster list and `get(ListType::Cluster)` the extended one, because `sprites_list` is ordered normal, cluster, extended, overworld (`SpritesData.Tables.Get`).
  - `Config.h` and `Config.cpp` declare different members of `PixiConfig`. The model takes the members `Config.cpp` uses, with `Debug` as a switch and the MeiMei flags as one record.
- **Defects.** The code contains several defects, listed under "## Findings". Each one is modelled twice: once as written, with a lemma that exhibits it, and once corrected, which is what the rest of the model uses.
  - `ByteArray::fill`, which `MeiMei.cpp` calls but `Array.h` does not define, sets every byte of the capacity.
  - `prev.data().at(addr)` at `MeiMei.cpp:53` is read as "copy starting at `addr`".

## Model

| member | source | states |
|---|---|---|
| Types.ExitOf | Pixi/Util.h:12-16 | a fatal error is exactly the outcome with exit status 1; an uncaught exception is exactly the one with no status at all (`exit(-1)` of `at` gives 255, help gives 0) |
| Types.PixiError | Pixi/Util.h:12-16 | `pixi_error` always ends the run with exit status 1 and keeps its message |
| Types.ToU8 | Pixi/Entities.cpp:3-9 | storing an `int` into a `uint8_t` keeps its value modulo 256 |
| Types.ToU8Small | Pixi/Entities.cpp:3-9 | a value that already fits a byte is stored unchanged |
| Types.ToInt32 | Pixi/MeiMei/MeiMei.cpp:113 | a `size_t` returned as `int` lands in INT_MIN..INT_MAX and differs from it by a multiple of 2^32 |
| Types.Clamp | Pixi/Config.cpp:176 | `std::clamp`: the result lies in lo..hi, equals `v` when `v` is inside, and is the bound `v` passes otherwise |
| Array.ByteArray.constructor | Pixi/Array.h:64-68 | a default-constructed array holds S zero bytes, has capacity S and size 0 |
| Array.ByteArray.FromList | Pixi/Array.h:70-74 | capacity and size are both the list length, and the list occupies the front of the buffer |
| Array.ByteArray.Elements | Pixi/Array.h:116-130 | the iterators visit exactly `size()` elements, the first `size()` of the buffer, in order |
| Array.ByteArray.At | Pixi/Array.h:100-114 | `at(i)` exits with -1 exactly when `i >= size()`, and otherwise returns element `i` |
| Array.ByteArray.Set | Pixi/Array.h:84-90 | assignment through `operator[]` changes element `index` and no other |
| Array.ByteArray.Reset | Pixi/Array.h:80-82 | the first `m_capacity` bytes become zero and the rest of the buffer is unchanged |
| Array.ByteArray.Fill | Pixi/MeiMei/MeiMei.cpp:49-50 | `fill(v)` (called, not defined in Array.h): every byte of the capacity becomes `v`, the rest is unchanged |
| Array.ByteArray.Write | Pixi/Array.h:164-166 | `write(src, n)` puts `src[0..n)` at offset 0 and leaves every other byte, and `size()`, as they were |
| Array.ByteArray.WriteAt | Pixi/Array.h:168-170 | `write_at(src, n, at)` puts `src[0..n)` at offset `at` and leaves every other byte, and `size()`, as they were |
| Array.ByteArray.Load | Pixi/Array.h:156-162 | `from_file`: `size()` becomes the byte count and the bytes fill the front of the buffer, the rest unchanged |
| Array.ByteArrayView.At | Pixi/Array.h:196-202 | a view's `at(i)` exits exactly when `i >= size`, and otherwise reads the source buffer at `offset + i` |
| Array.ViewOf | Pixi/Array.h:179-182 | the plain view starts at offset 0 with the array's size |
| Array.ViewFrom | Pixi/Array.h:183-186 | the offset view keeps the array's full size, not size minus offset |
| Array.OffsetViewCheckIgnoresOffset | Pixi/Array.h:183-202 | through an offset view, `at(i)` passes exactly when `i < arr.size()`, whatever the offset, and then reads `offset + i` |
| Rom.MapperIndex | Pixi/Rom.h:3-7 | `FromEnum(mapper)` is the declaration position 0, 1 or 2 and determines the mapper back |
| Rom.MapperToString | Pixi/Rom.h:9-13 | the name is the `StringMappers` entry at the enumerator's value |
| Rom.MapperToStringInjective | Pixi/Rom.h:9-13 | two mappers have the same name exactly when they are the same mapper |
| Rom.BankAtIsTable | Pixi/Rom.h:18 | the bank lookup used by `snes_to_pc` is the `sa1banks` table: 0, 1, 4, 5 map to 0x000000-0x300000, the other slots to the `size_t` maximum |
| Rom.SA1SlotSearch | Pixi/Rom.cpp:69-75 | the `for` loop over `sa1banks` returns the address built from the first slot whose base equals `address & 0x700000`, and the sentinel when none does |
| Rom.SA1WindowIndex | Pixi/Rom.cpp:99 | the index `(address & 0xE00000) >> 21` is below 8, so the table read is in bounds |
| Rom.SA1HighIndex | Pixi/Rom.cpp:102 | the index built from bits 20 and 21 is below 8 |
| Rom.SnesAddressStripsHeader | Pixi/Rom.cpp:62-64 | `pc_to_snes(p, true)` equals `pc_to_snes(p - header_offset, false)`, with `size_t` wrap-around |
| Rom.PcOffsetWithoutHeaderBelow8M | Pixi/Rom.cpp:90-126 | without the header, `snes_to_pc` gives either the sentinel or an offset below 8 MiB |
| Rom.PcOffsetAddsHeader | Pixi/Rom.cpp:125 | on every path that reaches the final return, `snes_to_pc(a, true)` is `snes_to_pc(a, false) + header_offset`; every early return gives the sentinel both ways; the SA-1 branch always reaches the final return |
| Rom.LoRomSnesAddressInBank | Pixi/Rom.cpp:66-67 | LoROM `pc_to_snes` always sets bit 15 and never returns the sentinel |
| Rom.LoRomPcOffsetRejects | Pixi/Rom.cpp:92-95 | LoROM `snes_to_pc` returns the sentinel exactly for banks 7E/7F, for addresses with bits 22 and 15 both clear, and for 70-7F:0000-7FFF |
| Rom.LoRomRoundTrip | Pixi/Rom.cpp:66-67 | with `header=false`, `snes_to_pc(pc_to_snes(p)) == p` for every `p < 0x3F0000` |
| Rom.LoRomRoundTripWithHeader | Pixi/Rom.cpp:62-67 | with the default header, the LoROM round trip returns `p` whenever `p - header_offset < 0x3F0000` |
| Rom.SA1SearchClosedForm | Pixi/Rom.cpp:69-75 | the SA-1 search succeeds exactly when `p & 0x700000` is one of the four valid bases, and then puts the slot number in bits 21-23 and sets bit 15 |
| Rom.SA1SnesAddressDefined | Pixi/Rom.cpp:68-74 | SA-1 `pc_to_snes` is not the sentinel exactly when `p & 0x700000` equals `sa1banks[i]` for i in {0, 1, 4, 5} |
| Rom.SA1PcShape | Pixi/Rom.cpp:97-106 | the bank index is in {0, 1, 4, 5} in both windows, so C0-FF always lands in a valid bank; the sentinel appears exactly outside both windows; otherwise the offset is below 4 MiB |
| Rom.SA1SentinelWrapsWithHeader | Pixi/Rom.cpp:105-125 | the SA-1 sentinel still gets the header added: the result is `header_offset - 1`, which is not the sentinel when there is a header |
| Rom.SA1RoundTrip | Pixi/Rom.cpp:68-74 | with `header=false`, the SA-1 round trip returns `p` for every `p < 0x400000` |
| Rom.FullSA1SnesAddressTotal | Pixi/Rom.cpp:76-86 | full SA-1 `pc_to_snes` never returns the sentinel below 16 MiB, and offsets with bit 22 set map to `p` with bits 22 and 23 set |
| Rom.FullSA1PcOffsetRejects | Pixi/Rom.cpp:108-119 | full SA-1 `snes_to_pc` returns the sentinel exactly for banks 40-7F and for 00-3F/80-BF with bit 15 clear; C0-FF comes back as its low 22 bits with bit 22 set |
| Rom.FullSA1RoundTrip | Pixi/Rom.cpp:76-86 | with `header=false`, the full SA-1 round trip returns `p` for every `p < 0x800000` |
| Rom.HeaderOf | Pixi/Rom.cpp:6 | the header offset `size & 0x7FFF` is below 0x8000 and leaves a whole number of 32 KiB banks |
| Rom.DetectMapperCases | Pixi/Rom.cpp:7-17 | header-relative byte 0x7FD5 == 0x23 selects SA-1, and then byte 0x7FD7 == 0x0D selects full SA-1; anything else is LoROM (each case as an if-and-only-if) |
| Rom.Long | Pixi/Rom.h:42-44 | a 24-bit value built from three bytes is below 2^24 and gives each byte back at its position |
| Rom.LoadedIsPadded | Pixi/Rom.cpp:5 | after loading a file into the zeroed 16 MiB buffer, byte `i` is the file's byte `i` or 0 beyond its end |
| Rom.MapperFromBuffer | Pixi/Rom.cpp:7-17 | the two bytes the constructor reads through the offset view decide the mapper as the detection rule says |
| Rom.Rom.constructor | Pixi/Rom.cpp:3-19 | the new image holds the file's bytes (zero beyond), its header offset is `size & 0x7FFF` and its mapper is the detected one |
| Rom.Rom.Size | Pixi/Rom.cpp:26-29 | `size()` plus the header offset is the image size, and `size()` is a whole number of 32 KiB banks |
| Rom.Rom.PcToSnes | Pixi/Rom.cpp:62-88 | the method, loop included, returns the `pc_to_snes` value for the image's mapper and header offset |
| Rom.Rom.Write | Pixi/Rom.cpp:36-42 | `write(offset, data)` puts the bytes at the raw offset, header included, and changes nothing else |
| Rom.Rom.WriteSnes | Pixi/Rom.cpp:44-50 | `write_snes` puts the bytes at `snes_to_pc(address)` with the default header and changes nothing else |
| Rom.Rom.At | Pixi/Rom.cpp:57-60 | `at(offset)` reads the raw buffer, header included |
| Rom.Rom.AtSnes | Pixi/Rom.cpp:52-55 | `at_snes(address)` is `at(snes_to_pc(address))` with the default header |
| Rom.Rom.ReadByte | Pixi/Rom.h:41-44 | `read_byte(offset)` reads `offset + header_offset`, which is what the offset view's `at(offset)` gives |
| Rom.Rom.ReadWord | Pixi/Rom.h:41-43 | `read_word` reads two bytes at the header-adjusted offset, as the comment says; combining them low byte first is assumed, because the source only declares the function |
| Rom.Rom.ReadLong | Pixi/Rom.h:41-42 | `read_long` reads three bytes at the header-adjusted offset, as the comment says; combining them low byte first into a 24-bit value is assumed, because the source only declares the function |
| Rom.Rom.View | Pixi/Rom.cpp:31-34 | `data()` is a view at the header offset that keeps the whole image size |
| Util.LeadingSpacesSpan | Pixi/Util.h:37-39 | the prefix `ltrim` erases is maximal: all of it is whitespace and the next character is not |
| Util.TrailingSpacesSpan | Pixi/Util.h:42-44 | the suffix `rtrim` erases is maximal: all of it is whitespace and the character before it is not |
| Util.LTrim | Pixi/Util.h:37-39 | in-place `ltrim` leaves the string without its maximal leading whitespace |
| Util.RTrim | Pixi/Util.h:42-44 | in-place `rtrim` leaves the string without its maximal trailing whitespace |
| Util.Trim | Pixi/Util.h:47-50 | `trim` is `ltrim` followed by `rtrim` |
| Util.TrimmedIsInnerSlice | Pixi/Util.h:47-50 | the trimmed string is a contiguous slice of the input with only whitespace before and after it |
| Util.TrimmedEnds | Pixi/Util.h:47-50 | a non-empty trimmed string starts and ends with a non-whitespace character |
| Util.TrimIdempotent | Pixi/Util.h:47-50 | trimming twice is trimming once |
| Util.AllSpaceTrimsToEmpty | Pixi/Util.h:47-50 | an all-whitespace string trims to the empty string |
| Util.LeadingSpacesAll | Pixi/Util.h:37-39 | `ltrim` erases the whole of an all-whitespace string |
| Util.AsmNameIsAsmSuffix | Pixi/Util.cpp:44-47 | `nameEndWithAsmExtension` holds exactly when the name ends with ".asm" (case-sensitive, so shorter names fail) and does not start with '.' |
| Util.AsmNameOfBase | Pixi/Util.cpp:44-47 | a base name plus ".asm" passes exactly when the base is non-empty and does not start with '.' |
| Util.CleanPathTrail | Pixi/Util.cpp:49-53 | exactly one trailing '/' or '\\' is removed; any other path comes back unchanged; an empty path is excluded |
| Util.CleanPathTrailUndoesSeparator | Pixi/Util.cpp:49-53 | appending one separator and cleaning gives the directory back |
| Util.LastSeparator | Pixi/Util.cpp:81-92 | the larger of `find_last_of('/')` and `find_last_of('\\')`: a separator with none after it, or none at all |
| Util.ForwardSlashes | Pixi/Util.cpp:96 | `std::replace` turns every '\\' into '/' and keeps every other character and the length |
| Util.DirectoryPart | Pixi/Util.cpp:94-95 | the kept prefix of `src` ends at its last separator, inclusive, and is empty when there is none |
| Util.AppendToDirHasNoBackslash | Pixi/Util.cpp:80-98 | no '\\' survives in the result of `append_to_dir` |
| Util.AppendToDirWithoutSeparator | Pixi/Util.cpp:80-98 | with no separator in `src`, the result is just `file` |
| Util.AppendToDirReplacesFileName | Pixi/Util.cpp:80-98 | for `src` = directory + file name, the result is the directory followed by `file` |
| Util.EscapeDefines | Pixi/Util.cpp:100-111 | the character loop produces exactly the escaped string: each '!' becomes `repl`, everything else is copied in order |
| Util.EscapedWithoutBang | Pixi/Util.cpp:100-111 | a path without '!' is unchanged |
| Util.EscapedConcat | Pixi/Util.cpp:100-111 | escaping works character by character: escaping a concatenation is concatenating the escapes |
| Util.EscapedHasNoBang | Pixi/Util.cpp:100-111 | with a replacement free of '!', no '!' is left |
| Util.EndsWith | Pixi/Util.cpp:127-138 | `ends_with` is false for a null input or a longer suffix, and otherwise true exactly when the last characters equal the suffix |
| Util.EndsWithConcat | Pixi/Util.cpp:127-138 | every string ends with itself appended to any prefix |
| Util.LastDot | Pixi/Util.cpp:115 | `find_last_of('.')`: a dot with no dot after it, or no dot at all |
| Util.SubfileName | Pixi/Util.cpp:115 | the subfile name is `name` up to and including its last '.', then `ext`; with no '.', just `ext` |
| Util.SubfileNameTwice | Pixi/Util.cpp:115 | replacing the extension twice is replacing it once with the second |
| Util.SubfileNameOfSameExtension | Pixi/Util.cpp:115 | a name that already has the extension is unchanged |
| Util.FileName | Pixi/Entities.cpp:210 | `path(cfg_file).filename()` is a suffix of the path |
| CLib.SkipSpaces | Pixi/Entities.cpp:12-13 | the white space a conversion skips is the maximal run of `isspace` characters from the position on |
| CLib.ScanHexNumeral | Pixi/Entities.cpp:31-32 | the `std::stoi` numeral in base 16, which takes "0x" only before a hex digit, ends after its last hex digit, with no hex digit right after it |
| CLib.ScanfHexNumeral | Pixi/Entities.cpp:12-13 | the `%x` numeral of glibc's `sscanf`: a "0x" after a '0' with no hex digit next is consumed whole and read as 0; any other text is read as `std::stoi` reads it |
| CLib.StoiHex | Pixi/Entities.cpp:4 | `std::stoi(s, nullptr, 16)` raises `invalid_argument` exactly when no hex digit can be read, and a parsed value fits an `int` |
| CLib.UnsignedValue | Pixi/Entities.cpp:12-13 | the value a `%hhx` conversion stores is below the width's modulus and is the numeral itself when it already fits |
| CLib.ScanHex | Pixi/Entities.cpp:12-13 | one `%hhx` conversion succeeds exactly when a `scanf` numeral can be read, and stores a value below the width; a bare "0x" stores 0 and ends after the 'x'; otherwise the value and the end are those of `strtoul`'s numeral |
| CLib.ScanHexBytes | Pixi/Entities.cpp:12-13 | `sscanf` with n `%hhx` directives stores at most n bytes and none when the first conversion fails |
| CLib.BareHexPrefixScans | Pixi/Entities.cpp:12-13 | on "0x 5", `strtoul`'s numeral is the '0' alone, while `sscanf` with two `%hhx` stores the two bytes 0 and 5 |
| CLib.Atoi | Pixi/Config.cpp:176 | `atoi` of a string without a decimal digit is 0 |
| CLib.DecimalString | Pixi/Entities.cpp:205 | `std::to_string` of a non-negative number is a non-empty run of decimal digits whose value is the number |
| CLib.HexDigitChar | Pixi/Config.cpp:304 | an uppercase hex digit whose value is the digit |
| CLib.HexStringValue | Pixi/Config.cpp:304 | the `{:X}` text of a number is a non-empty uppercase hex numeral whose value is the number |
| CLib.HexPaddedDigits | Pixi/Config.cpp:304 | `{:02X}` pads the hex text with leading zeros to at least the width and keeps the digits at the end |
| MemoryFile.MemoryFile.constructor | Pixi/MemoryFile.h:13-18 | a new file has the given path and keep flag and no contents |
| MemoryFile.MemoryFile.Moved | Pixi/MemoryFile.h:22-25 | move construction takes path and contents, leaves the source empty, and `meimeiKeep` is the default (true), not the source's |
| MemoryFile.MemoryFile.MoveAssign | Pixi/MemoryFile.h:27-31 | move assignment takes path and contents and keeps this file's own `meimeiKeep` |
| MemoryFile.MemoryFile.InsertByteData | Pixi/MemoryFile.h:43-46 | `insertByteData(d, n)` appends `d[0..n)` in order and leaves earlier contents, path and flag unchanged |
| MemoryFile.InsertByteChar | Pixi/MemoryFile.h:49-52 | `insertByteChar(d, n)` appends `(char)d[i]` for each i < n after the unchanged earlier contents |
| MemoryFile.WriteAll | Pixi/MemoryFile.h:63-66 | `write_all(data, file, size)` appends exactly the first `size` bytes of the buffer, whatever `data.size()` is |
| Entities.ListIndex | Pixi/Entities.h:11-17 | `FromEnum` of a list type is its declaration position, below `ListType::SIZE` (4) |
| Entities.ListIndexInjective | Pixi/Entities.h:11-17 | distinct list types have distinct indices, so the per-list tables never share a slot |
| Entities.Pointer.Addr | Pixi/Entities.h:36-38 | the address is below 0x1000000 and its low, middle and top bytes are exactly the pointer's low, high and bank bytes |
| Entities.IsEmptyIsDefault | Pixi/Entities.h:32-34 | `is_empty` holds exactly for the default pointer to the RTL at $01:8021 |
| Entities.PointerOf | Pixi/Entities.cpp:56-61 | the pointer built from an address joins back to that address's low 24 bits |
| Entities.PointerOfBits | Pixi/Entities.cpp:56-61 | the three masked shifts of the constructor, joined again, give the low 24 bits of the address |
| Entities.PointerOfAddr | Pixi/Entities.cpp:56-61 | splitting a pointer's address with the constructor gives the same pointer back |
| Entities.DefaultPointerOnLoRom | Pixi/Entities.h:40-42 | on a LoROM image the default RTL pointer's `offset` is file offset 0x8021 plus the header |
| Entities.Map16Of | Pixi/Entities.h:79-84 | a tile read from eight bytes has exactly four corners |
| Entities.Map16RoundTrip | Pixi/Entities.h:79-84 | encoding the tile read from eight bytes, property before tile for each corner, gives those eight bytes back |
| Entities.NewMap16 | Pixi/Entities.h:79-84 | the loop over the four corners builds the tile whose corner i has property byte 2i and tile byte 2i+1 |
| Entities.Map16s | Pixi/Entities.cpp:166-170 | the decoded Map16 string gives one tile per whole block of eight bytes, block k read from offset 8k; every byte is used when the length is a multiple of 8, and at most 7 trailing bytes are left over otherwise |
| Entities.StatusPointers.Bytes | Pixi/Entities.h:92-109 | the block is 15 bytes: carriable, kicked, carried, mouth and goal pointers in that order |
| Entities.SpriteTable.Bytes | Pixi/Entities.h:111-118 | the row is 16 bytes: type, actlike, six tweak bytes, init and main pointers, two extra bytes, in that order |
| Entities.TableBytesRoundTrip | Pixi/Entities.h:111-118 | the row layout is a bijection between rows and 16-byte strings, both ways |
| Entities.NewSprite | Pixi/Entities.h:128-148 | either constructor gives a sprite whose table and pointer block have their fixed sizes |
| Entities.FreshSprite | Pixi/Entities.h:128-148 | a fresh sprite has the requested `invalid` flag, line 0, level 0x200, no extra bytes, RTL init and main pointers, and its row serialises to zeros around two RTL pointers |
| Entities.StoiByte | Pixi/Entities.cpp:4 | the cast of `stoi(line, nullptr, 16)` succeeds exactly when the hexadecimal parse does, gives its low byte, and otherwise is an uncaught exception |
| Entities.CfgType | Pixi/Entities.cpp:3-5 | the type byte becomes the parsed line's low byte and nothing else changes; a line `stoi` rejects propagates its exception |
| Entities.CfgActlike | Pixi/Entities.cpp:7-9 | the same for the actlike byte |
| Entities.CfgTweak | Pixi/Entities.cpp:11-14 | the tweak bytes matched by `%hhx` are stored in order, the ones after the first failed conversion stay as they were, and nothing else changes |
| Entities.CfgProp | Pixi/Entities.cpp:16-18 | the same for the two extra property bytes |
| Entities.CfgAsm | Pixi/Entities.cpp:19-21 | the routine file becomes the line relative to the CFG file's directory, and nothing else changes |
| Entities.FirstColon | Pixi/Entities.cpp:24 | `find(':')`: the position found holds ':' and no ':' comes before it; none is found only when the line has no ':' |
| Entities.ReadByteCount | Pixi/Entities.cpp:23-43 | a line without ':' gives (0, 0); otherwise the counts are the hexadecimal numbers before and after the colon, each at most 12, and the line is rejected exactly when either does not parse or exceeds 12 |
| Entities.CfgExtra | Pixi/Entities.cpp:45-54 | a rejected count line is a fatal error with exit status 1; otherwise the two counts are stored and nothing else changes |
| Entities.HandlerKeepsPlace | Pixi/Entities.cpp:222 | each of the six handlers accepts any valid sprite and leaves it valid, with its line, level, number, type and `invalid` flag unchanged |
| Entities.Handle | Pixi/Entities.cpp:230 | calling handler n keeps the sprite valid and in place |
| Entities.CfgFold | Pixi/Entities.cpp:226-232 | the read loop keeps the sprite valid and in place |
| Entities.CfgLine | Pixi/Entities.cpp:227-231 | one pass of the read loop keeps the sprite valid and in place |
| Entities.NonBlank | Pixi/Entities.cpp:227-229 | every trimmed line passed on to a handler is non-empty |
| Entities.CfgFoldDispatches | Pixi/Entities.cpp:220-234 | `from_cfg` gives the first six non-empty trimmed lines to the handlers in order, the k-th to handler k, stopping at the first failure; blank lines use no handler and lines after the sixth are ignored |
| Entities.CfgBlankDispatches | Pixi/Entities.cpp:228-229 | a blank line is skipped without using a handler |
| Entities.CfgHandledDispatches | Pixi/Entities.cpp:230-231 | a non-blank line goes to the next handler and the remaining lines continue from the handler after it |
| Entities.NonBlankStep | Pixi/Entities.cpp:227-229 | the non-blank lines from line i on are line i, when it is not blank, followed by those after it |
| Entities.FromCfg | Pixi/Entities.cpp:220-234 | the loop computes the read-loop result, which the dispatch lemma characterises |
| Entities.FromCfgLine | Pixi/Entities.cpp:227-231 | one pass returns the next handler count and sprite, or the handler's error, as the read loop defines |
| Entities.JsonCountClampOverrunsProps | Pixi/Entities.cpp:155-205 | for a sprite with a non-zero type and a byte count above 12, the as-written clamp into 0..15 keeps a count above 12, and the property loop for a collection with the extra bit clear then stores into `prop[12]`, past the 12-byte array; with the clamp into 0..12 the count is 12 and every store is inside the array |
| Entities.DisplayOf | Pixi/Entities.cpp:174-196 | a display's position lies in 0..15 and equals the document's when in range; a text display has exactly one tile holding the text, any other one tile per JSON tile |
| Entities.CollectionProps | Pixi/Entities.cpp:203-214 | properties 1..count are the document's values when present and 0 when missing, and the bytes after the count stay 0 |
| Entities.CollectionPropsWarnings | Pixi/Entities.cpp:207-213 | there is exactly one warning per missing property among 1..count |
| Entities.JsonFields | Pixi/Entities.cpp:143-197 | type, actlike and the tweak bytes are set; the routine file, extra bytes and the counts clamped into 0..`countMax` (15 as written, 12 in the rest of the model) only when type is non-zero, those members untouched otherwise; the tiles and displays from the document are appended; the sprite stays valid and in place |
| Entities.CollectionOf | Pixi/Entities.cpp:199-216 | a collection keeps the document's name and extra bit and has 12 property bytes |
| Entities.JsonCollections | Pixi/Entities.cpp:198-216 | one collection per JSON collection, in order, collection m read with the byte count its extra bit selects |
| Entities.ReadCollection | Pixi/Entities.cpp:199-216 | the loop over properties 1..count computes the collection and its warnings |
| Entities.FromJson | Pixi/Entities.cpp:120-218 | `from_json` gives the fields of the document and appends its collections, returning the missing-property warnings in order |
| Entities.Extension | Pixi/Entities.cpp:108 | the extension is the suffix of the file name from its last '.', with no other '.' in it; a name without '.' throws `out_of_range` |
| Entities.ParseOf | Pixi/Entities.cpp:107-118 | a parsed sprite stays valid and in place |
| Entities.ParseOfCases | Pixi/Entities.cpp:107-118 | ".cfg" runs the line reader, ".json" fails exactly when the file is missing and otherwise gives the JSON fields with counts in 0..12, any other extension is fatal with status 1, and a name without '.' throws |
| Entities.Parse | Pixi/Entities.cpp:107-118 | `parse` computes the sprite and warnings of the reader its extension selects, as characterised by the cases lemma |
| Config.PathIndex | Pixi/Config.h:6-17 | `FromEnum` of a path type is its declaration position, below `PathType::SIZE` (8) |
| Config.PathTypeOf | Pixi/Config.h:6-17 | the cast `(PathType)i` of an index below 8 is the type whose position is i |
| Config.ExtIndex | Pixi/Config.h:19 | `FromEnum` of an extension type is its declaration position, below `ExtType::SIZE` (4) |
| Config.ExtTypeOf | Pixi/Config.h:19 | the cast `(ExtType)i` of an index below 4 is the type whose position is i |
| Config.Paths.AtIndex | Pixi/Config.h:44-49 | `operator[](int)` clamps the index into 0..7: an index in range selects the path of that position, a negative one the routines directory, a larger one the cluster directory |
| Config.Paths.With | Pixi/Config.h:58-62 | assigning through `operator[](PathType)` sets the selected path and leaves the other seven unchanged |
| Config.Extensions.AtIndex | Pixi/Config.h:79-83 | `operator[](int)` clamps the index into 0..3: in range selects that position, below it the ssc file, above it the s16 file |
| Config.Extensions.With | Pixi/Config.h:91-94 | assigning through `operator[](ExtType)` sets the selected file and leaves the other three unchanged |
| Config.DefaultPathsNonEmpty | Pixi/Config.h:35-42 | every default path is non-empty and every default other than the list file ends in '/' |
| Config.PrefixIndex | Pixi/Config.cpp:214-219 | the scan of a prefix table finds the first entry equal to the argument, or reports that no entry equals it |
| Config.PrefixIndexOfDistinct | Pixi/Config.h:34 | in a table without repeated entries the scan for entry k stops at k |
| Config.PathPrefixesDistinct | Pixi/Config.h:34 | the eight path prefixes are pairwise distinct |
| Config.ExtPrefixesDistinct | Pixi/Config.h:73 | the four extension prefixes are pairwise distinct |
| Config.PrefixSlot | Pixi/Config.cpp:382-406 | the option `print_help` documents for each path sits in `Paths::prefixes` at the slot of the documented order |
| Config.PathOptionAsWritten | Pixi/Config.cpp:213-220 | as written, the option found at slot i of `Paths::prefixes` selects the path whose `PathType` position is i |
| Config.PathPrefixesMisaligned | Pixi/Config.h:34 | as written, "-l" sets the routines directory and "-a" the sprites directory; of the eight documented options only "-sh" sets the path it documents |
| Config.SlotTypeMisaligned | Pixi/Config.h:6-17 | the `PathType` at a path's documented slot is that path only for the shooters |
| Config.PathOption | Pixi/Config.cpp:382-406 | the corrected lookup selects a path exactly for its documented option, and no path for any other argument |
| Config.PathOptionSelectsDocumentedPath | Pixi/Config.cpp:382-406 | every documented path option selects its own path |
| Config.PathLookup | Pixi/Config.cpp:213-220 | both mappings accept exactly the same path options; as written the selected path is the `PathType` at the option's slot, documented it is the path the option names |
| Config.PathOptionApplies | Pixi/Config.cpp:213-220 | a path option followed by a value parses to the settings with only that path changed, under either mapping |
| Config.PathOptionParses | Pixi/Config.cpp:213-220 | as written, the documented option of path t followed by x sets the path `(PathType)` of its slot to x and leaves t unchanged unless t is the shooters; under the documented mapping it sets t to x |
| Config.ListOptionSetsRoutinesAsWritten | Pixi/Config.cpp:213-220 | as written, "-l x" sets the routines directory to x and leaves the list file as it was |
| Config.ExtOption | Pixi/Config.cpp:221-226 | the option found at slot i of `Extensions::prefixes` selects `(ExtType)i`; an argument matching no slot selects nothing |
| Config.ExtPrefixesAligned | Pixi/Config.h:19 | every extension option selects its own file, because that table is in `ExtType` order |
| Config.RequireNext | Pixi/Config.cpp:119-122 | the value is the next argument when there is one; otherwise the error is fatal with the "Requiring next parameter" message |
| Config.FlagOption | Pixi/Config.cpp:167-204 | a flag changes only its own setting, never the routine limit or the names |
| Config.ValueOption | Pixi/Config.cpp:175-227 | "-nr" sets the routine limit to `atoi` of its value clamped into 100..310; a path option sets exactly the path the mapping selects (as written, `(PathType)i` of its slot); an extension option sets exactly its extension; the names are unchanged |
| Config.RoutinesOptionIsNotAFlag | Pixi/Config.cpp:175-177 | "-nr" is not one of the value-less flags, so testing the flags first keeps the order of the `if` chain |
| Config.ApplyOptionCases | Pixi/Config.cpp:165-229 | an option fails exactly when it asks for help, is unknown, or lacks its value; help ends with `Help`, the other failures exit with status 1; a step consumes one argument for a flag and two for an option with a value |
| Config.ApplyOptionPrefix | Pixi/Config.cpp:165-229 | one step reads no further than the arguments it consumes |
| Config.ParseArgsConcat | Pixi/Config.cpp:165-229 | parsing `a + b` is parsing `a` and then `b` from the settings `a` leaves, so options take effect strictly left to right |
| Config.PerLevelLastWins | Pixi/Config.cpp:178-183 | "-pl -npl" leaves per-level off |
| Config.PerLevelLastWinsOn | Pixi/Config.cpp:178-183 | "-npl -pl" leaves per-level on |
| Config.ParseArgsKeepsInvariants | Pixi/Config.cpp:162-231 | whatever the options, the routine limit stays within 100..310 and the executable, ROM and asm directory names are untouched |
| Config.RemoveFirstAbsent | Pixi/Config.cpp:152-158 | without a "-no-config" argument the option list is unchanged |
| Config.RemoveFirstSplits | Pixi/Config.cpp:152-158 | removing the first occurrence erases exactly that position |
| Config.EraseFirst | Pixi/Config.cpp:152-158 | the `find_if` and `erase` remove only the first occurrence and report whether there was one |
| Config.StripDotSlash | Pixi/Config.cpp:144-145 | a leading "./" is removed and any other name is kept |
| Config.PixiConfig.constructor | Pixi/Config.h:107-129 | a default configuration has the default paths, empty extensions, `ExtMod` on, the other switches off and 100 routines |
| Config.PixiConfig.Assign | Pixi/Config.h:116-129 | every member takes the given value |
| Config.PixiConfig.AssignOptions | Pixi/Config.h:117-121 | the paths, extensions and three file switches take the given values and no other member changes |
| Config.PixiConfig.AssignSwitches | Pixi/Config.h:122-125 | the remaining switches and the routine limit take the given values and no other member changes |
| Config.PixiConfig.AssignNames | Pixi/Config.h:126-129 | the four names and the MeiMei flags take the given values and no other member changes |
| Config.PixiConfig.TransformArgs | Pixi/Config.cpp:140-160 | the executable name loses a leading "./", the ROM name is the last argument, the options are those in between with only the first "-no-config" removed, and `overwrite` holds exactly when there was one |
| Config.PixiConfig.ParseConfigFile | Pixi/Config.cpp:112-117 | with `overwrite` nothing changes; otherwise the values read from the configuration file are applied |
| Config.PixiConfig.ParseCmdLineArgs | Pixi/Config.cpp:162-231 | the members end as the left-to-right parse of the options leaves them under the documented path mapping, or the first failing option's error is returned |
| Config.PixiConfig.AreConfigFlagsToggled | Pixi/Config.cpp:251-253 | the test is always true, whatever the two flags |
| Config.PixiConfig.CreateConfigFile | Pixi/Config.cpp:255-263 | config.asm in the asm directory always defines `!PerLevel` and `!Disable255SpritesPerLevel` from the two flags |
| Config.ApplyConfigFile | Pixi/Config.cpp:32-63 | reading the configuration file assigns the paths, extensions, switches and routine limit it holds and keeps the names |
| Config.ConfigAsm | Pixi/Config.cpp:259-260 | the text of config.asm is 44 characters long |
| Config.ConfigAsmDeterminesFlags | Pixi/Config.cpp:259-260 | the two flags are character 12 and character 43 of config.asm, so the text determines them |
| Config.AsmNames | Pixi/Config.cpp:299 | the names kept are ".asm" names, in order |
| Config.RoutinesAreAsmFiles | Pixi/Config.cpp:294-311 | routine k is the k-th ".asm" file without its extension at offset `3 * k`, non-".asm" names are skipped, and at most 101 routines are registered |
| Config.PrependNothing | Pixi/Config.cpp:289 | the registration starts with no routines |
| Config.PrependStops | Pixi/Config.cpp:296-298 | once more than 100 routines are counted, the next file name is a fatal error |
| Config.PrependStep | Pixi/Config.cpp:299-310 | one file name is registered when it is a ".asm" file and skipped otherwise |
| Config.RoutinesTextAppend | Pixi/Config.cpp:301-308 | registering one more routine appends its definitions to the text |
| Config.RegisterRoutines | Pixi/Config.cpp:265-318 | a missing folder is a fatal error; otherwise the routines are those of the registration loop and the text holds their definitions with the escaped folder |
| Config.NextRoutine | Pixi/Config.cpp:299-310 | one name of the loop gives the next routine exactly when it is a ".asm" file |
| Config.AppendRoutineText | Pixi/Config.cpp:301-308 | the text grows by the definitions of one routine |
| Config.RegisterNames | Pixi/Config.cpp:294-311 | the loop computes the routines of the registration and the text of their definitions |
| PerLevel.LE16 | Pixi/SpritesData.cpp:46 | a level pointer read as low byte plus high byte shifted by 8 is a 16-bit value |
| PerLevel.PutLE16Reads | Pixi/SpritesData.cpp:49-50 | a word stored as two `uint8_t` casts reads back unchanged, and no other byte changes |
| PerLevel.WordBytes | Pixi/SpritesData.cpp:49-50 | the low-byte cast and the cast of the word shifted by 8 are the two bytes of a 16-bit word |
| PerLevel.SpliceFacts | Pixi/SpritesData.cpp:62-63 | a `memcpy` into a buffer puts the copied bytes at the target offset and leaves the bytes before and after it unchanged |
| PerLevel.LevelWord | Pixi/SpritesData.cpp:46 | the stored pointer of a level is a 16-bit value |
| PerLevel.CountBelowFree | Pixi/SpritesData.h:6-7 | at most n of the first n levels have a chunk, fewer than n when one of them has none |
| PerLevel.CountOfZeros | Pixi/SpritesData.h:6 | in a zeroed level table no level has a chunk |
| PerLevel.CountFrame | Pixi/SpritesData.h:6 | the number of allocated levels depends only on the level table's own bytes |
| PerLevel.CountAfterPut | Pixi/SpritesData.cpp:47-52 | storing a non-zero pointer for a level that had none adds exactly one allocated level |
| PerLevel.InitialStateValid | Pixi/SpritesData.h:3-10 | the fresh data satisfies the allocator invariant, no level has a chunk, and 0x200 chunks of 0x20 bytes fill `sprite_ptrs` exactly |
| PerLevel.LevelChunkAllocatesOnce | Pixi/SpritesData.cpp:46-52 | a level's pointer is set at most once: an allocated level keeps its chunk and the state, a new level gets the chunk at the cursor plus one and the cursor moves by 0x20, no other level changes, the chunk lies inside `sprite_ptrs`, and the invariant is kept |
| PerLevel.PlaceEntryValid | Pixi/SpritesData.cpp:59-71 | filling an entry keeps the allocator invariant and touches no level pointer |
| PerLevel.NextEntryAligned | Pixi/SpritesData.cpp:64-71 | with `data_addr` a multiple of 0x10, index `data_addr + 0x0F` lies inside the entry and the next cursor is again a multiple of 0x10 |
| PerLevel.ValidOfSameLevels | Pixi/SpritesData.h:3-10 | the invariant depends only on the level table, the two cursors and the buffer sizes |
| PerLevel.AllocateFailsOnlyWhenFull | Pixi/SpritesData.cpp:56-57 | allocating a per-level sprite fails exactly when `data_addr` has reached 0x8000, with the "Too many Per-Level sprites" error |
| PerLevel.AllocateKeepsLevels | Pixi/SpritesData.cpp:45-71 | an allocation keeps the invariant, advances `data_addr` by 0x10 and the chunk cursor by 0x20 only for a new level, gives the level a chunk and changes no other level |
| PerLevel.AllocateWritesEntry | Pixi/SpritesData.cpp:53-69 | the slot for sprite number n in the level's chunk points at `data_addr + 1`; the entry at `data_addr` holds the 16-byte table row and the 15 pointer bytes followed by 0xFF; no other byte of the three buffers changes |
| PerLevel.PlaceEntryWrites | Pixi/SpritesData.cpp:59-69 | the slot points at the entry, the entry holds the row and the pointers with 0xFF after them, and nothing else changes |
| PerLevel.PerLevelData.constructor | Pixi/SpritesData.h:3-10 | a fresh `PerLevelData` has both cursors 0, four separate zeroed buffers, and satisfies the invariant |
| PerLevel.PerLevelData.LevelChunkOf | Pixi/SpritesData.cpp:46-52 | the buffers change as the chunk lookup defines and the level's chunk pointer is returned |
| PerLevel.PerLevelData.PlaceEntryAt | Pixi/SpritesData.cpp:59-71 | the buffers change as the entry placement defines |
| PerLevel.PerLevelData.Allocate | Pixi/SpritesData.cpp:45-71 | the error case returns the allocator's error; otherwise the invariant holds and the buffers change as the allocation defines |
| PerLevel.StoreWord | Pixi/SpritesData.cpp:49-50 | the two `uint8_t` stores write the word little-endian into the buffer |
| PerLevel.CopyIn | Pixi/SpritesData.cpp:62-63 | the `memcpy` splices the bytes into the buffer at the offset |
| MeiMei.ImageByte | Pixi/MeiMei/MeiMei.cpp:160 | a byte inside the image is the image's byte |
| MeiMei.Peek | Pixi/MeiMei/MeiMei.cpp:129 | the three-byte read exits with status 255 (`exit(-1)` in `ByteArrayView::at`) exactly when the start offset is not below the image size, and otherwise gives the next three bytes |
| MeiMei.EntityNumber | Pixi/MeiMei/MeiMei.cpp:154 | the entity number from bits 2-3 of the first header byte and the third header byte is below 0x400, an index into the extra-byte tables |
| MeiMei.TrailingBytes | Pixi/MeiMei/MeiMei.cpp:156-180 | a record gets new-count-minus-3 extra bytes, none when the new count is 3 or less |
| MeiMei.Record | Pixi/MeiMei/MeiMei.cpp:150-181 | a record never ends the level and never aborts the walk: it continues or fails the size check |
| MeiMei.Step | Pixi/MeiMei/MeiMei.cpp:129-182 | one turn only appends to the output; a turn that goes on writes at least the 3 header bytes and, with the repeated size check, stays inside the 0x800-byte buffer; a level that ends fits in the buffer |
| MeiMei.LevelWalk | Pixi/MeiMei/MeiMei.cpp:128-182 | the loop ends one way or another, and a stream that ends fits in the buffer and extends what was written before |
| MeiMei.RemapLevel | Pixi/MeiMei/MeiMei.cpp:122-182 | a level that ends starts with its format byte and fits in the buffer |
| MeiMei.OldBytes | Pixi/MeiMei/MeiMei.cpp:159-160 | a copy loop from `lo` to `hi` reads `hi - lo` bytes |
| MeiMei.OldBytesAt | Pixi/MeiMei/MeiMei.cpp:160 | byte k of a copy loop is `read_byte(sprAddrPC + prevOfs + lo + k)` |
| MeiMei.TrailingBytesCases | Pixi/MeiMei/MeiMei.cpp:156-180 | when the count grows the old extra bytes are copied and zeros pad up to the new count; when it shrinks or stays the first new-count-minus-3 old bytes are copied |
| MeiMei.RecordEffect | Pixi/MeiMei/MeiMei.cpp:150-181 | a record that fits copies its header, moves the source cursor by the old count, sets `changeData` exactly when the old and new counts differ, and grows the output by 3 plus the new extra bytes |
| MeiMei.EqualTablesLeaveWalkUnchanged | Pixi/MeiMei/MeiMei.cpp:156-180 | with identical tables the walk never sets `changeData` |
| MeiMei.EqualTablesLeaveLevelUnchanged | Pixi/MeiMei/MeiMei.cpp:126-185 | with identical tables a level that ends is never marked changed |
| MeiMei.ExtendedPrefixOverrunsBuffer | Pixi/MeiMei/MeiMei.cpp:130-152 | as written, an extended-format level with 0x7FC bytes written passes the size check, and the 0xFF prefix and the record header take the output to 0x801 bytes, past the end of `sprAllData`; the repeated check stops it with the size error |
| MeiMei.AppendOldBytes | Pixi/MeiMei/MeiMei.cpp:159-162 | the copy loop appends the old bytes to the buffer and reports failure exactly when the size check fires |
| MeiMei.AppendZeros | Pixi/MeiMei/MeiMei.cpp:163-166 | the padding loop appends zeros and reports failure exactly when the size check fires |
| MeiMei.AppendHeader | Pixi/MeiMei/MeiMei.cpp:150-152 | the three header bytes are appended |
| MeiMei.AppendGrown | Pixi/MeiMei/MeiMei.cpp:156-167 | the growth branch appends the record's trailing bytes, or reports that they do not fit |
| MeiMei.AppendKept | Pixi/MeiMei/MeiMei.cpp:168-180 | the shrink and equal branches append the record's trailing bytes, or report that they do not fit |
| MeiMei.AppendTrailing | Pixi/MeiMei/MeiMei.cpp:156-180 | the three-way branch appends the record's trailing bytes, or reports that they do not fit |
| MeiMei.WriteRecord | Pixi/MeiMei/MeiMei.cpp:150-181 | the buffer receives what the record model computes, zeros after it |
| MeiMei.WalkTurn | Pixi/MeiMei/MeiMei.cpp:129-182 | one turn on the buffer computes the corrected turn of the walk, the buffer holding the output and zeros after it |
| MeiMei.WalkLevel | Pixi/MeiMei/MeiMei.cpp:118-182 | the level loop computes the corrected walk of the level, and at its end the buffer holds the rebuilt stream followed by zeros |
| MeiMei.ExtraCountsChanged | Pixi/MeiMei/MeiMei.cpp:84-91 | the scan reports a change exactly when the two tables differ somewhere |
| MeiMei.PcAsInt | Pixi/MeiMei/MeiMei.cpp:113-116 | the narrowed translation is -1 exactly when `snes_to_pc` returns the sentinel, and otherwise is the offset itself, below 8 MiB |
| MeiMei.NarrowedSentinel | Pixi/MeiMei/MeiMei.cpp:113-114 | the `size_t` sentinel narrowed to `int` is -1 |
| MeiMei.NarrowingKeeps | Pixi/MeiMei/MeiMei.cpp:113 | a value within `int` range keeps its value when narrowed |
| MeiMei.TableCopy | Pixi/MeiMei/MeiMei.cpp:52-53 | the copy exits with status 255 (`exit(-1)` in `at`) exactly when the table's translated address is -1 or not below the image size; otherwise the first `count` entries become the image's bytes at that address and the rest are kept |
| MeiMei.RemapOne | Pixi/MeiMei/MeiMei.cpp:112-185 | a changed level yields the whole rebuilt 0x800-byte `sprAllData`, the data its patch is meant to include (the code as written writes none of it, see "## Findings"); a level that stops does so with the invalid-address or the size message |
| MeiMei.LevelEnds | Pixi/MeiMei/MeiMei.cpp:108-240 | each of the 0x200 levels is handled on its own |
| MeiMei.NowTable | Pixi/MeiMei/MeiMei.cpp:79-82 | when the previous image carries no table the new table is kept as it was; a reloaded table has 0x400 entries |
| MeiMei.InitialTable | Pixi/MeiMei/MeiMei.cpp:49-54 | the corrected snapshot clears the table and, when the image carries one, holds all 0x400 counts read from its translated address |
| MeiMei.GatherPatches | Pixi/MeiMei/MeiMei.cpp:108-240 | the level loop keeps the earlier patches and patches levels in increasing order, once each, each recorded with its full rebuilt buffer, which is the corrected hand-off of `MeiMei.LevelFiles` rather than the code's, which writes none of the data |
| MeiMei.WellFormedPatchesBelow | Pixi/MeiMei/MeiMei.cpp:108 | patches below one level stay well-formed for any later bound |
| MeiMei.AppendPatch | Pixi/MeiMei/MeiMei.cpp:185-238 | adding the patch of the current level keeps the order |
| MeiMei.GatherUnchanged | Pixi/MeiMei/MeiMei.cpp:185 | when no level changed the loop adds no patch |
| MeiMei.EqualTablesRemapNothing | Pixi/MeiMei/MeiMei.cpp:98-240 | with equal tables no level is patched, even when `always` forces the loop |
| MeiMei.RunOutcomes | Pixi/MeiMei/MeiMei.cpp:84-254 | `run` returns 0 or 1; 0 without touching a level when the tables agree and `always` is off; 1 exactly when a level stopped with an error while the loop ran; the levels patched come in increasing order, none when the tables agree |
| MeiMei.InitialTableAsWrittenIsZero | Pixi/MeiMei/MeiMei.cpp:53 | as written, `initialize` copies `prevEx.size()` bytes, which is 0, so its snapshot is all zeros whenever it gets past `at` |
| MeiMei.InitialTableAsWrittenDiffers | Pixi/MeiMei/MeiMei.cpp:53 | for an image whose table holds a non-zero count the as-written snapshot differs from the table |
| MeiMei.UnchangedImageAsWrittenRemaps | Pixi/MeiMei/MeiMei.cpp:46-91 | for an image whose table holds a non-zero count, the as-written snapshot is all zeros, and a run on the unchanged image goes through the level loop whatever `always` says |
| MeiMei.UnchangedImageAfterInitialTable | Pixi/MeiMei/MeiMei.cpp:46-91 | with the corrected snapshot, a run on the unchanged image reloads the same table and returns 0 without patching |
| MeiMei.RemapLevels | Pixi/MeiMei/MeiMei.cpp:99-240 | the level loop computes the outcome of the level model over all 0x200 levels |
| MeiMei.RemapStep | Pixi/MeiMei/MeiMei.cpp:108-239 | one pass either continues the loop with this level's patch added or not, or ends it with the loop's result |
| MeiMei.GatherStep | Pixi/MeiMei/MeiMei.cpp:108-239 | an unchanged level adds nothing, a changed one its patch, a stopped one ends the loop with the message, a dead one exits |
| MeiMei.RemapLevelAt | Pixi/MeiMei/MeiMei.cpp:112-185 | one level on the buffer ends as the level model says, and a changed level's rebuilt data is the buffer's contents |
| MeiMei.FileNamesDiffer | Pixi/MeiMei/MeiMei.cpp:187-195 | the binary's name `_tmp_bin_{:X}.bin` and the patch's name `_tmp_{:X}.asm` are different files |
| MeiMei.LevelFilesAsWritten | Pixi/MeiMei/MeiMei.cpp:187-196 | as written, the `fwrite` of `sprAllData.size()` bytes writes nothing, since the default-constructed buffer keeps size 0; the binary's file ends up holding the patch text, and the patch file `MeiMei::patch` is called with is left as it was (missing in a fresh folder); no other file changes |
| MeiMei.LevelFiles | Pixi/MeiMei/MeiMei.cpp:185-216 | as intended, the binary's file holds the rebuilt buffer and the patch file holds the patch text, with no other file changed |
| MeiMei.ClearTable | Pixi/MeiMei/MeiMei.cpp:49-50 | `fill(0x00)` zeroes the table |
| MeiMei.CopyTable | Pixi/MeiMei/MeiMei.cpp:80-81 | the copy of 0x400 counts fails exactly when `at` rejects the address, and otherwise the table becomes the copied counts |
| MeiMei.MeiMei.constructor | Pixi/MeiMei/MeiMei.h:5-12 | the static members start with two separate zeroed tables, empty strings, an empty default `Rom` and all switches off |
| MeiMei.MeiMei.SetCfg | Pixi/MeiMei/MeiMei.cpp:39-44 | the three switches take the configuration's values and nothing else changes |
| MeiMei.MeiMei.ConfigureSa1Def | Pixi/MeiMei/MeiMei.cpp:22-25 | the stored path is the given one with every '!' escaped, and nothing else changes |
| MeiMei.MeiMei.Initialize | Pixi/MeiMei/MeiMei.cpp:46-55 | the name and previous image are set, the new table is cleared, and the previous table is the corrected snapshot, or the process ends when `at` rejects its address |
| MeiMei.MeiMei.Run | Pixi/MeiMei/MeiMei.cpp:77-255 | the outcome is the run model on the new image with the stored tables, and the new table is the reloaded one |
| SpritesData.TableSize | Pixi/SpritesData.h:24-32 | the constructor gives the normal list 0x2100 entries with per-level tables and 0x100 without, the cluster and extended lists 0x80 each and the overworld list none |
| SpritesData.FromTable | Pixi/SpritesData.cpp:3-20 | the corrected lookup only hands out an index inside the list's table |
| SpritesData.PerLevelSlots | Pixi/SpritesData.cpp:13-19 | with per-level tables a normal entry gets a slot exactly for level 0x200 with a number below 0x100, at 0x2000 plus the number, or for B0-BF on levels 0-1FF, at level times 0x10 plus the number minus 0xB0 |
| SpritesData.FromTableInjective | Pixi/SpritesData.cpp:3-20 | two lookups that reach the same slot have the same number, and for per-level normal entries the same level |
| SpritesData.FromTableCorrectsAsWritten | Pixi/SpritesData.cpp:6-18 | the code as written and the corrected lookup differ exactly for a cluster or extended number of 0x80, a normal number of 0x100 or more without per-level tables, and per-level number B0 below level 0x200 |
| SpritesData.FromTableAsWrittenOverruns | Pixi/SpritesData.cpp:6-18 | as written, cluster number 0x80 and normal number 0x100 index one past their tables, level -1 with number B1 indexes below the table, and sprite B0 of level 105 is sent to the dummy |
| SpritesData.FirstOf | Pixi/SpritesData.cpp:93 | `find` gives the first position holding the character, or reports that none does |
| SpritesData.Uncommented | Pixi/SpritesData.cpp:93-94 | the kept text is the prefix of the line before its first ';' |
| SpritesData.ScanId | Pixi/SpritesData.cpp:100-103 | the scan of a plain entry succeeds exactly when the line starts with a `scanf` hex numeral, yields a 32-bit number, and the file name starts after it inside the line |
| SpritesData.ScanIdBarePrefix | Pixi/SpritesData.cpp:100-103 | on the line "0x.cfg" the number is 0 and `%n` is 2, so the file name is ".cfg" |
| SpritesData.ScanLevelAndId | Pixi/SpritesData.cpp:121-126 | the scan of a per-level entry yields two 32-bit numbers and a file name start inside the line |
| SpritesData.WithExtension | Pixi/SpritesData.cpp:129-132 | an entry is accepted exactly when its file name holds a '.', and its extension is the text after the last one |
| SpritesData.ParseListLine | Pixi/SpritesData.cpp:89-132 | an entry has 32-bit numbers, level 0x200 unless per-level tables are on, and the extension of its file name; a section header never selects the overworld list |
| SpritesData.BlankLines | Pixi/SpritesData.cpp:93-97 | a line is skipped exactly when nothing but white space is left once its comment is cut |
| SpritesData.SectionLines | Pixi/SpritesData.cpp:105-118 | a line selects a list exactly when it reads SPRITE:, CLUSTER: or EXTENDED: |
| SpritesData.InvalidEntryError | Pixi/SpritesData.cpp:135-147 | a line that reaches the dummy is fatal with the message of its cause: number too big, level too big, number not in B0-BF, or a cluster or extended number too big |
| SpritesData.InvalidEntryAbsorbedAsWritten | Pixi/SpritesData.cpp:139-142 | as written, a per-level line for number 50 on level 105 reaches the dummy, no test fires, and the line is taken; the corrected lookup also sends it to the dummy, where it is refused |
| SpritesData.Int32OfU32 | Pixi/SpritesData.cpp:134 | a `uint32_t` passed as `int` keeps its value up to INT_MAX and turns negative above |
| SpritesData.PerLevelDummyCauses | Pixi/SpritesData.cpp:134-142 | with per-level tables a normal line reaches the dummy exactly when its number is 0x100 or more, its level is above 0x200, or its number is outside B0-BF on a level other than 0x200 |
| SpritesData.PlainDummyCauses | Pixi/SpritesData.cpp:134-147 | without per-level tables, and for the other lists, a line reaches the dummy exactly when its number is past the table |
| SpritesData.Tables.Get | Pixi/SpritesData.h:21 | `get(t)` selects the normal list for SPRITE, the cluster vector for Extended, the extended vector for Cluster and the overworld list for the rest |
| SpritesData.Tables.At | Pixi/SpritesData.h:40-43 | `operator[](int)` gives the list of the list type with that index |
| SpritesData.Tables.With | Pixi/SpritesData.h:45-53 | assigning through `get(t)` changes that list and no other |
| SpritesData.TablesValidGet | Pixi/SpritesData.cpp:134 | every list a section selects has the size the lookup's bounds assume |
| SpritesData.InitialTables | Pixi/SpritesData.h:24-32 | the constructor's lists have their sizes and every entry is a default sprite |
| SpritesData.Directory | Pixi/SpritesData.cpp:156-166 | cluster and extended entries use their own list's directory; normal numbers below C0 use the sprites directory, C0-CF the shooters one, the rest the generators one |
| SpritesData.SmallAddress | Pixi/SpritesData.cpp:190-191 | a 24-bit address survives `Pointer(size_t)` unchanged |
| SpritesData.WithDefaultRoutines | Pixi/SpritesData.cpp:189-192 | a sprite of type 0 gets the game's init routine at 0x01817D plus twice its number and the main routine at 0x0185CC plus twice its number; any other sprite is unchanged, and nothing but these two pointers changes |
| SpritesData.JsonOf | Pixi/Entities.cpp:120-218 | a JSON file that is found has the six tweak bytes |
| SpritesData.FileReaderOk | Pixi/SpritesData.cpp:176 | the reader built from a file table keeps what `populate` needs of `parse` |
| SpritesData.Placed | Pixi/SpritesData.cpp:151-166 | setting line, level, number, type and directory keeps a sprite's well-formedness |
| SpritesData.ReadEntry | Pixi/SpritesData.cpp:167-177 | a cluster or extended entry is accepted exactly when its extension is asm or ASM and then names its routine in its directory; a read entry is well-formed and keeps its place |
| SpritesData.FillSlot | Pixi/SpritesData.cpp:151-192 | a filled slot records the line number, the level and the number narrowed to `int`, and the list's type |
| SpritesData.FillSlotRoutines | Pixi/SpritesData.cpp:167-192 | a cluster or extended entry has an asm routine in its list's directory and gives no warning; a type-0 sprite numbered n gets the routines at 0x01817D + 2n and 0x0185CC + 2n |
| SpritesData.WithKeepsUsedSlots | Pixi/SpritesData.cpp:149-151 | writing into a free slot keeps every used one |
| SpritesData.EntryStep | Pixi/SpritesData.cpp:134-192 | one entry keeps the tables well-formed and never overwrites a used slot |
| SpritesData.LevelOfPlacedSlot | Pixi/SpritesData.cpp:134-153 | a slot the lookup hands out holds a number below 0x100, and a per-level one a level that is not negative |
| SpritesData.EntryStepCases | Pixi/SpritesData.cpp:134-192 | an entry that reaches the dummy is fatal with the message for its cause; one whose slot another line filled is fatal as already used; otherwise only its slot changes, to the filled sprite, and the reader's warnings are passed on |
| SpritesData.ParsedLines | Pixi/SpritesData.cpp:88-132 | every line of the list file is parsed with its own line number, starting at 1 |
| SpritesData.EveryLineOk | Pixi/SpritesData.cpp:89-132 | every line that parses yields a well-formed entry |
| SpritesData.ParsedLineOk | Pixi/SpritesData.cpp:89-132 | a line that parses yields an entry that keeps the line invariants |
| SpritesData.LineStep | Pixi/SpritesData.cpp:89-192 | one line keeps the tables well-formed, keeps used slots, only adds warnings, and never selects the overworld list |
| SpritesData.PopulateFrom | Pixi/SpritesData.cpp:88-193 | the remaining lines keep the tables well-formed and only add warnings |
| SpritesData.Populated | Pixi/SpritesData.cpp:76-194 | `populate` on a list file's lines leaves well-formed tables |
| SpritesData.PopulateNeverOverwrites | Pixi/SpritesData.cpp:149-150 | a slot holding a line number is never written again, so each entry comes from one list line |
| SpritesData.WithRoutines | Pixi/SpritesData.cpp:35-38 | replacing the routines keeps the sprite well-formed and every other member |
| SpritesData.LastWith | Pixi/SpritesData.cpp:29-33 | the reverse search finds the nearest earlier entry with the same non-empty asm file, or reports that no earlier entry names it |
| SpritesData.LastWithReadsNames | Pixi/SpritesData.cpp:29-33 | the search depends only on the asm files of the entries before `i` |
| SpritesData.LastWithAfterUpdate | Pixi/SpritesData.cpp:29-38 | replacing an entry by one naming the same asm file changes no later search |
| SpritesData.FirstWith | Pixi/SpritesData.cpp:29-43 | the first entry naming the same asm file as entry `j`, no later than `j` |
| SpritesData.AllocateIfPerLevel | Pixi/SpritesData.cpp:45-71 | a per-level entry moves `data_addr` by 0x10 and fails with the per-level message exactly when `data_addr` is already at 0x8000; any other entry needs nothing |
| SpritesData.PatchedEntry | Pixi/SpritesData.cpp:29-43 | the patched entry keeps its place and asm file |
| SpritesData.PatchFrom | Pixi/SpritesData.cpp:24-73 | the corrected loop keeps the table's length and well-formedness, and fails only with the per-level message |
| SpritesData.PatchAt | Pixi/SpritesData.cpp:25-72 | the corrected pass at entry `i` and the rest of the loop keep the table's length and well-formedness, and fail only with the per-level message |
| SpritesData.PatchKeepsPlaces | Pixi/SpritesData.cpp:24-73 | patching changes only routines: every entry keeps its place and asm file |
| SpritesData.CopiedAsWritten | Pixi/SpritesData.cpp:35-38 | the as-written copy keeps the sprite well-formed, its place and its asm file |
| SpritesData.PatchFromAsWritten | Pixi/SpritesData.cpp:24-73 | the loop as written keeps the table's length and well-formedness |
| SpritesData.PatchAtAsWritten | Pixi/SpritesData.cpp:25-72 | one as-written pass and the rest of the loop keep the table's length and well-formedness |
| SpritesData.PerLevelCount | Pixi/SpritesData.cpp:45 | the number of per-level entries with an asm file is at most the table's length |
| SpritesData.Expected | Pixi/SpritesData.cpp:29-43 | the intended result for an entry keeps its place and asm file |
| SpritesData.PatchedUpTo | Pixi/SpritesData.cpp:24 | the table patched up to `i` has the table's length |
| SpritesData.PatchedUpToSearch | Pixi/SpritesData.cpp:29-33 | searches in the partly patched table find what they find in the list |
| SpritesData.PatchedUpToStep | Pixi/SpritesData.cpp:24-43 | step `i` of the intended loop replaces entry `i`, still unpatched, by its expected value |
| SpritesData.PatchedEntryExpected | Pixi/SpritesData.cpp:29-43 | the entry patched at step `i` is the expected one |
| SpritesData.PatchSharesRoutinesFrom | Pixi/SpritesData.cpp:24-73 | from step `i` on the intended loop yields the fully patched table |
| SpritesData.PatchSharesRoutines | Pixi/SpritesData.cpp:24-73 | every entry with an asm file ends up with the routines assembled for the first entry naming that file, and every other entry is unchanged |
| SpritesData.PatchAllocatesFrom | Pixi/SpritesData.cpp:45-71 | from entry `i` on, the loop succeeds exactly when the remaining per-level entries fit in `data`, and moves `data_addr` by 0x10 for each |
| SpritesData.PatchAllocatesAt | Pixi/SpritesData.cpp:45-71 | the same at a pass of the loop |
| SpritesData.PatchAllocates | Pixi/SpritesData.cpp:45-71 | over a whole table the loop succeeds exactly when its per-level entries fit in `data`, and moves `data_addr` by 0x10 for each |
| SpritesData.PatchAsWrittenWithoutSharing | Pixi/SpritesData.cpp:28-43 | without shared asm files the code as written and the corrected loop agree |
| SpritesData.PatchAsWrittenStep | Pixi/SpritesData.cpp:25-72 | before the first shared asm file a pass as written is the intended pass |
| SpritesData.PatchAsWrittenAtShared | Pixi/SpritesData.cpp:34-40 | at the first shared asm file the as-written pass makes the copy and `break` ends the loop without allocating |
| SpritesData.PatchAsWrittenStopsFrom | Pixi/SpritesData.cpp:24-73 | as written, the loop from `i` up to the first shared entry `d` ends with the table stopped at `d` |
| SpritesData.PatchAsWrittenStopsAfter | Pixi/SpritesData.cpp:24-73 | the same at a pass before `d` |
| SpritesData.PatchAsWrittenAllocatesFrom | Pixi/SpritesData.cpp:45-71 | as written, only per-level entries before the first shared entry are allocated |
| SpritesData.PatchAsWrittenAllocatesAfter | Pixi/SpritesData.cpp:45-71 | the same at a pass before `d` |
| SpritesData.PatchAsWrittenStops | Pixi/SpritesData.cpp:28-41 | as written, when entry `d` is the first one sharing its asm file with the nearest earlier entry `k`, entry `d` gets the main routine of `k` as its init routine and keeps its own main, every later entry is left as the list had it, and only per-level entries before `d` are allocated |
| SpritesOutput.JoinedLength | Pixi/SpritesData.cpp:388-391 | rows of width `w` copied one after the other fill `w` bytes per row |
| SpritesOutput.JoinedRow | Pixi/SpritesData.cpp:388-390 | row k of rows of width `w` sits at byte `w * k` |
| SpritesOutput.RowBounds | Pixi/SpritesData.cpp:222-224 | row k of n rows of width `w` lies within the `w * n` bytes, and the last row starts at `w * (n - 1)` |
| SpritesOutput.JoinedRows | Pixi/SpritesData.cpp:388-390 | the joined rows have `w` bytes per row and give row k back at byte `w * k` |
| SpritesOutput.CopyRows | Pixi/SpritesData.cpp:222-241 | the `memcpy` loops put the joined rows at the front of the buffer and leave the bytes after them as they were |
| SpritesOutput.GlobalStart | Pixi/SpritesData.cpp:216-219 | the global entries are the last 0x100 of the normal list: at 0x2000 with per-level tables, at 0 without |
| SpritesOutput.IsEmptyTable | Pixi/SpritesData.cpp:395-401 | `is_empty_table` is true exactly when none of the entries has a non-empty init or main routine |
| SpritesOutput.TableRows | Pixi/SpritesData.cpp:388-390 | the rows are the 16 table bytes of the 0x100 entries from `start`, in order |
| SpritesOutput.LongTableLayout | Pixi/SpritesData.cpp:380-393 | the long table is 16 bytes of 0xFF exactly when the table is empty, and otherwise 0x1000 bytes from which every entry's table is read back 16 bytes at a time |
| SpritesOutput.WriteLongTable | Pixi/SpritesData.cpp:380-393 | `write_long_table` writes the long table of the 0x100 entries from `start` to its file |
| SpritesOutput.StatusRows | Pixi/SpritesData.cpp:223-224 | the rows are the 15 status-pointer bytes of the 0x100 entries from `start`, in order |
| SpritesOutput.StatusBlobLayout | Pixi/SpritesData.cpp:222-226 | the status file holds 0x100 blocks of 15 bytes, block k being entry k's five pointers |
| SpritesOutput.MainPointers | Pixi/SpritesData.cpp:229-230 | the pointers written are the main routines of the 0x80 entries, in order |
| SpritesOutput.CapePointers | Pixi/SpritesData.cpp:238-239 | the pointers written are the extended cape routines of the 0x80 entries, in order |
| SpritesOutput.PointerRows | Pixi/SpritesData.cpp:228-241 | each pointer becomes a three-byte row |
| SpritesOutput.PointerBlobLayout | Pixi/SpritesData.cpp:228-241 | a pointer file has three bytes per pointer, and reading them back low, high, bank gives each pointer |
| SpritesOutput.WriteStatus | Pixi/SpritesData.cpp:222-226 | the status file is the status blob of the 0x100 entries from `start` |
| SpritesOutput.WritePointers | Pixi/SpritesData.cpp:228-241 | a pointer file written through the shared buffer is the pointer blob of its pointers |
| SpritesOutput.SubfileSlot | Pixi/SpritesData.cpp:306 | the subfile loop's lookup of number i on level 0x200 is global entry i, in the code as written and as corrected |
| SpritesOutput.SizeEntry | Pixi/SpritesData.cpp:308-368 | an invalid slot or, with per-level tables, a number in B0-BF gets sizes 7 and 7; an unused slot gets 3 and 3 |
| SpritesOutput.SizeEntryCounts | Pixi/SpritesData.cpp:312-368 | outside the reserved numbers the two size bytes are 3 plus the byte count and 3 plus the extra byte count |
| SpritesOutput.SizeTable | Pixi/SpritesData.cpp:305-370 | `extra_bytes` has 0x200 bytes: byte i is number i's size, byte 0x100 + i its extra-bit size |
| SpritesOutput.TilesGrow | Pixi/SpritesData.cpp:317-324 | the tiles added only grow as the loop goes on |
| SpritesOutput.MapAfterOk | Pixi/SpritesData.cpp:305-324 | the map check passes exactly when no entry adds tiles or all added tiles fit beside the loaded ones, and the map is then the loaded tiles followed by each adding entry's tiles in number order |
| SpritesOutput.MapAfterError | Pixi/SpritesData.cpp:317-320 | an overflow reports the number of tiles of an entry that adds tiles |
| SpritesOutput.Padded | Pixi/SpritesData.cpp:372 | the map is filled with empty tiles up to the reserved size, the tiles already there kept in front |
| SpritesOutput.Globals | Pixi/SpritesData.cpp:305-306 | the subfile loop sees the 0x100 global entries of the normal list, in order |
| SpritesOutput.SerializeSubfiles | Pixi/SpritesData.cpp:305-372 | the loop over the 0x100 global numbers either fails with the overflow message and the tile count the map check names, or gives the padded map and leaves the size table in `extra_bytes` |
| SpritesOutput.SizesAfter | Pixi/SpritesData.cpp:305-370 | the buffer keeps its 0x200 bytes as numbers are written in |
| SpritesOutput.SizesAfterReads | Pixi/SpritesData.cpp:309-367 | after the first n numbers their two size bytes sit at i and 0x100 + i |
| SpritesOutput.SizesAfterTable | Pixi/SpritesData.cpp:305-370 | after all 0x100 numbers the buffer is the size table, whatever it held before |
| SpritesOutput.WriteSubfiles | Pixi/SpritesData.cpp:245-246 | `serialize_subfiles` into a fresh 0x200-byte buffer gives the subfiles the model describes |
| SpritesOutput.SubfilesResult | Pixi/SpritesData.cpp:245-247 | the subfiles succeed exactly when the map check passes, and then hold the size table and the padded map |
| SpritesOutput.SubfileEntry | Pixi/SpritesData.cpp:308-369 | for number i: its size bytes, and the map with its tiles added, or the overflow when they do not fit |
| SpritesOutput.MapAfterStep | Pixi/SpritesData.cpp:313-324 | one more global number adds its tiles, or is fatal when they do not fit |
| SpritesOutput.MapAfterStops | Pixi/SpritesData.cpp:317-320 | an overflow ends the map check: no later number changes it |
| SpritesOutput.MapAfterErrStep | Pixi/SpritesData.cpp:317-320 | after an overflow one more number changes nothing |
| SpritesOutput.PerLevelFilesSize | Pixi/SpritesData.cpp:201-215 | the four per-level files start with the whole level pointer table and hold 0x400 + 3 bytes before any allocation and 0x400 + `sprite_ptrs_addr` + 2 * `data_addr` after |
| SpritesOutput.NamedAsAppend | Pixi/SpritesData.cpp:200-247 | files written one after the other keep their names in order |
| SpritesOutput.TableFilesNames | Pixi/SpritesData.cpp:200-220 | the version flag, the four per-level files when per-level tables are on, and the default table, in that order |
| SpritesOutput.TableFilesSizes | Pixi/SpritesData.cpp:200-220 | the version flag is written as given, and the default table has 16 or 0x1000 bytes as the table is empty or not |
| SpritesOutput.PointerFilesNames | Pixi/SpritesData.cpp:222-241 | the status, cluster, extended and cape pointer files, in that order |
| SpritesOutput.PointerOutputsNames | Pixi/SpritesData.cpp:226-241 | the four pointer outputs carry the four names in order |
| SpritesOutput.PointerFilesSizes | Pixi/SpritesData.cpp:222-241 | the status file has 0xF00 bytes and the three pointer files 0x180 each |
| SpritesOutput.NamedAsFour | Pixi/SpritesData.cpp:226-241 | four outputs with the four names in order are named in order |
| SpritesOutput.NamedAsAppend3 | Pixi/SpritesData.cpp:200-247 | three groups of named files written in turn keep their names in order |
| SpritesOutput.FinishedNames | Pixi/SpritesData.cpp:245-247 | the size table follows the other files exactly when the map check passed, and then holds the size bytes next to the map |
| SpritesOutput.SerializedNames | Pixi/SpritesData.cpp:196-248 | `serialize` writes the table files, the pointer files, and the size table last, which is missing exactly when the map check fails |
| SpritesOutput.SerializedSizeFile | Pixi/SpritesData.cpp:245-247 | the map for the s16 file is returned exactly when the subfiles fit, and then the last file is the size table |
| Sprites.PatchedAllSpec | Pixi/SpritesData.cpp:403-408 | patching the normal, cluster and extended lists in turn gives each entry its expected routines, leaves the overworld list alone, and fails exactly when the per-level entries of the three lists do not all fit, `data_addr` then having moved by 0x10 for each |
| Sprites.ReadList | Pixi/SpritesData.cpp:88-193 | the loop over the list file's lines computes `populate`'s model from the SPRITE: section on, stopping at the first fatal line |
| Sprites.ReadLine | Pixi/SpritesData.cpp:89-192 | one line either is fatal, with the fault the model gives for the rest of the lines, or moves the model one line on with well-formed tables and a list other than the overworld one |
| Sprites.SpritesData.constructor | Pixi/SpritesData.h:24-32 | the lists are the constructor's default-filled lists and the per-level data is zeroed, in fresh buffers |
| Sprites.SpritesData.Populate | Pixi/SpritesData.cpp:76-194 | `populate` yields the readers' warnings and the tables of the model, or the fault of the first fatal line |
| Sprites.SpritesData.PatchSprites | Pixi/SpritesData.cpp:22-73 | `patch_sprites` on `get(t)` changes only that list, to the corrected loop's result, and moves the per-level state as that loop does, or fails with its fault |
| Sprites.SpritesData.PatchEntry | Pixi/SpritesData.cpp:28-72 | one entry with an asm file is patched and, when it is a per-level entry, allocated, or fails when the allocation does |
| Sprites.SpritesData.SetList | Pixi/SpritesData.h:45-53 | assigning through `get(t)` changes that list and no other |
| Sprites.SpritesData.PatchSpritesWrap | Pixi/SpritesData.cpp:403-408 | the three calls give the tables and per-level state the model of all three lists gives, or its fault |
| Sprites.SpritesData.WritePerLevel | Pixi/SpritesData.cpp:201-215 | the four per-level files are the buffers cut at their cursors, or single 0xFF bytes before any allocation |
| Sprites.SpritesData.WriteTableFiles | Pixi/SpritesData.cpp:200-220 | the version flag, the per-level files when per-level tables are on, and the default table |
| Sprites.SpritesData.WritePointerFiles | Pixi/SpritesData.cpp:222-241 | the status pointers of the global entries, then the cluster, extended and cape pointers |
| Sprites.SpritesData.Serialize | Pixi/SpritesData.cpp:196-248 | the files `serialize` writes, in order, and the map for the s16 file, as the serialisation model gives them |

## Left out

- The assembler. `Rom::patch`, `clean`, `patch_main`, `patch_simple` and `asar_getprints` are not modelled, nor are the structures of `StructParams.h` that only feed it. `patch_sprites` takes `Rom::patch` as a parameter `assemble`, a function from a sprite to the routines it gets. An assembler failure is not modelled.
- `MeiMei::patch` (lines 27-37 of `MeiMei.cpp`), which always returns true. Instead the model records each changed level's rebuilt 0x800-byte buffer as a `Patch` (`MeiMei.GatherPatches`). That is what the corrected files of `MeiMei.LevelFiles` would hand to the assembler. As written, the code writes 0 bytes to the binary and never writes the patch file (see "## Findings").
- `MeiMei::run(PixiConfig&)` (lines 57-75 of `MeiMei.cpp`): the assembler set-up, `rom.close` and the revert to the backup image.
- All file and console I/O:
  - `ByteArray::from_file`, `Rom::close`, `fileopen`, `filesize` and the writing of files to disk. File contents are parameters (`Rom.Rom.constructor`, `MeiMei.MeiMei.Initialize`), and the serialiser returns `SpritesOutput.Output` values.
  - The disk behind MeiMei's temporary files (lines 186-236 of `MeiMei.cpp`). `MeiMei.LevelFiles` and `MeiMei.LevelFilesAsWritten` keep the files as a map from names to contents. The formatted patch text of lines 197-216 is their parameter `text`, and the removal of the files at lines 233-236 is not modelled.
  - The debug and warning prints.
- The text and binary streams of `serialize_subfiles`: the ssc, mwt and mw2 output and the writing of the s16 file (lines 251-304, 325-363 and 371-377 of `SpritesData.cpp`). The model keeps the size table and the Map16 space check.
  - The tiles read from the s16 file are the parameter `loaded`.
  - `MAP16_SIZE`, which is not part of this model, is the parameter `size`.
- `cfg.versionflag`, which is not part of this model, is a 4-byte parameter of `serialize`.
- `create_lm_restore`, `ask`, `print_help`'s text, `emit_warnings`, and `Sprite::print` (lines 63-105 of `Entities.cpp`). These are console output only.
- `parse_noargs_config_file`. It parses TOML through toml++ and writes a default file.
- `set_paths_relative_to`, `correct_paths` and `list_extra_asm` (`Config.cpp:233-249`, `Config.cpp:339-360`). They depend on `std::filesystem`, so the paths stay as given.
- The `std::filesystem` parts of `create_shared_patch` (`Config.cpp:290-315`). The `exists` test and the `directory_iterator` walk become the folder listing, which is the parameter `listing` of `Config.RegisterRoutines` (`None` for a missing folder). A `filesystem_error` during the walk is not modelled. Neither is the constant `include_once` macro text at the head of the patch. The registration loop itself is modelled (`Config.RegisterRoutines`, `Config.RegisterNames`).
- JSON decoding.
  - `JsonData.h`/`JsonData.cpp` copy C++ bitfields, whose layout is implementation-defined.
  - nlohmann::json lookups and `base64_decode` are foreign code.
  - `from_json` starts from an already-decoded `Entities.JsonSprite`, and the model keeps its assignments and clamps.
- `Sprite::parse` reading files. The list reader calls the parameter `read` of `SpritesData.Sources`. `SpritesData.FileReader` builds such a reader from tables of CFG lines and decoded JSON sprites.
- `Pixi.cpp` (the orchestrating `main`), the release script, and the WIN32 `-lm-handle` path with its window message.
- `fgets` with its 1024-byte buffer. The list file is given as its lines, so a line longer than 1023 characters is not split as `fgets` would split it.
- `std::vector::reserve` and capacities. Only sizes are modelled.
- The static `dummy` of `from_table`. The corrected lookup refuses every line that reaches it. The as-written lookup only reports that the line reached it (`SpritesData.InvalidEntryAbsorbedAsWritten`), without keeping the dummy's contents from one call to the next.
- The `remapped[]` flags and their skip at lines 103-110 of `MeiMei.cpp`. The level loop visits each level once, so the skip never applies and the flags are not kept.
- The out-of-bounds error at lines 64-70 of `SpritesData.cpp`. Once `data_addr < 0x8000` has been checked, `data_addr + 0x0F` is always inside, so the error cannot happen and is not modelled as an outcome.
- The state after a fatal error. `pixi_error` ends the process, so `Sprites.SpritesData.Populate` and `Sprites.SpritesData.PatchSprites` say nothing about the tables once they return an error.
- CLib.Atoi: the contract states only that a string without decimal digits gives 0. The value `atoi` computes from the digits is defined in the body but not stated, and its undefined behaviour on overflow is not modelled.
- Rom.Rom.ReadByte: `Rom.h:44` only declares `read_byte`, and `Rom.cpp` does not define it. The comment at `Rom.h:41` (header-relative offsets) alone fixes its meaning.
- Rom.Rom.ReadWord and Rom.Rom.ReadLong: `Rom.h` only declares `read_word` and `read_long`, and `Rom.cpp` defines neither. The model assumes the bytes are combined low byte first, and takes `read_long`'s `int` result to be a 24-bit value.
- Entities.Map16s: a decoded Map16 string whose length is not a multiple of 8 makes the source's loop step past the end of the data, which is undefined behaviour. The model drops the incomplete last group instead.
- Config.ValueOption and Config.PixiConfig.ParseCmdLineArgs: the method parses with the documented path mapping (`Config.PathOption`), not the code's `(PathType)i`. The functions take the mapping as a parameter, and `Config.PathOptionParses` states what the code as written does. See "## Findings".
- Entities.JsonFields: the rest of the model clamps JSON byte counts to 0..12, the bound the CFG reader enforces, rather than the 0..15 the code uses. The clamp bound is a parameter, and `Entities.JsonCountClampOverrunsProps` states what 0..15 does. See "## Findings".
- MeiMei.WalkTurn and the walk built on it: repeat the size check after the extended-format 0xFF prefix, before the record header is written, which the code does not do. See "## Findings".
- MeiMei.GatherPatches and the run built on it: each level's patch carries its rebuilt buffer, which the code as written never writes where the patch reads it. See "## Findings".
- MeiMei.MeiMei.Initialize: copies all 0x400 counts, rather than the `prevEx.size()` bytes (zero) the code copies. See "## Findings".
- SpritesData.FromTable: uses the corrected bounds. See "## Findings".
- Sprites.SpritesData.PatchSprites: copies both routines of a duplicate and goes on with the next entry, rather than setting `init` twice and stopping as the code does. See "## Findings".

## Findings

| source | as written | input that shows it | evidently intended | confidence | as-written member | corrected member |
|---|---|---|---|---|---|---|
| Pixi/MeiMei/MeiMei.cpp:130-152 | the size check `nowOfs >= 0x7FD` runs before an extended-format 0xFF, which writes two bytes and then a 3-byte record header with no further check | an extended-format level whose stream has already filled 0x7FC bytes when it reaches FF 00 and a record: the output reaches 0x801 bytes, one past `sprAllData` | check the bound again before the record header is written | not executed | MeiMei.ExtendedPrefixOverrunsBuffer | MeiMei.WalkTurn |
| Pixi/MeiMei/MeiMei.cpp:53 | the previous table copies `prevEx.size()` bytes, and that is 0 for a default-constructed `ByteArray`, so the snapshot stays all zeros | an image whose extra-byte table holds a non-zero count: the snapshot differs from the table, and a run on the unchanged image goes through the level loop instead of returning at once | copy all 0x400 counts, as line 81 does for the new table | not executed | MeiMei.UnchangedImageAsWrittenRemaps | MeiMei.UnchangedImageAfterInitialTable |
| Pixi/MeiMei/MeiMei.cpp:189-196 | `fwrite` writes `sprAllData.size()` bytes, which is 0 for the default-constructed `ByteArray`, and line 196 opens `binaryFileName` instead of `fileName` for the patch text | any level whose data changed: `_tmp_bin_{lv}.bin` ends up holding the patch text and none of the rebuilt data, and `_tmp_{lv}.asm`, the file line 225 patches with, is never written | write the 0x800-byte buffer to the binary and the patch text to `fileName` | not executed | MeiMei.LevelFilesAsWritten | MeiMei.LevelFiles |
| Pixi/SpritesData.cpp:17 | the per-level range test is `number > 0xB0` | the list line `105:B0 a.cfg` with per-level tables: sprite B0 of level 105 goes to the dummy | `number >= 0xB0` | not executed | SpritesData.FromTableAsWrittenOverruns | SpritesData.PerLevelSlots |
| Pixi/SpritesData.cpp:6-11 | cluster and extended numbers are refused only above 0x80, and normal numbers without per-level tables are not checked | the line `80 a.asm` in the CLUSTER: section indexes entry 0x80 of a 0x80-entry vector, and `100 a.cfg` entry 0x100 of a 0x100-entry one | refuse numbers from the table's size on | not executed | SpritesData.FromTableAsWrittenOverruns | SpritesData.FromTableCorrectsAsWritten |
| Pixi/SpritesData.cpp:13-18 | the level, read as `uint32_t`, becomes a negative `int` above 0x7FFFFFFF and passes `level > 0x200` | the line `FFFFFFFF:B1 a.cfg` with per-level tables indexes entry -0xF | refuse every level above 0x200, negative ones included | not executed | SpritesData.FromTableAsWrittenOverruns | SpritesData.PerLevelDummyCauses |
| Pixi/SpritesData.cpp:141-142 | the last check fires for numbers inside B0-BF, which may have a level, and not for those outside it | the line `105:50 a.cfg` with per-level tables reaches the dummy, no check fires, and the line is taken | fire for numbers outside B0-BF | not executed | SpritesData.InvalidEntryAbsorbedAsWritten | SpritesData.EntryStepCases |
| Pixi/SpritesData.cpp:35-36 | both copies of a duplicate's routines assign `table.init`, the second with the earlier entry's `main` | two entries naming the same asm file: the second gets the first's main routine as its init routine and keeps its own main routine | copy `init` from `init` and `main` from `main` | not executed | SpritesData.PatchAsWrittenStops | SpritesData.PatchSharesRoutines |
| Pixi/SpritesData.cpp:40 | `break` leaves the whole loop at the first duplicate | entries a.asm, a.asm, b.asm: b.asm is never assembled, and no later per-level entry is allocated | go on with the next entry | not executed | SpritesData.PatchAsWrittenStops | SpritesData.PatchAllocates |
| Pixi/Entities.cpp:155-156 | the JSON byte counts are clamped to 0..15, but a collection has only 12 property bytes | a JSON sprite with a non-zero type, a byte count of 13 and a collection whose extra bit is clear: property byte 13 is stored at `prop[12]`, past the end | clamp to 0..12, the range the CFG reader allows | not executed | Entities.JsonCountClampOverrunsProps | Entities.JsonFields |
| Pixi/Config.cpp:213-220 | the option at slot i of the path prefix table sets `m_Paths[(PathType)i]`, but the table lists the paths in a different order than `PathType` | `-l mylist.txt` sets the routines directory, and `-a` the sprites directory | set the path each prefix documents | not executed | Config.PathOptionParses | Config.PathOptionSelectsDocumentedPath |
