/**
 * Entities.h and Entities.cpp: the 3-byte relocatable pointer, the rows a
 * sprite contributes to the inserted tables, and the readers of a
 * sprite's CFG and JSON descriptions.
 */
module Entities {
  import opened Types
  import CLib
  import Util
  import Rom

  // ---------------------------------------------------------------- list types

  /** `ListType`, in declaration order. */
  datatype ListType = SpriteList | ExtendedList | ClusterList | OverworldList

  /** `ListType::SIZE`. */
  const LIST_TYPE_SIZE: nat := 4

  /** `FromEnum(t)`: the enumerator's underlying value. */
  function ListIndex(t: ListType): (i: nat)
    ensures i < LIST_TYPE_SIZE
  {
    match t
    case SpriteList => 0
    case ExtendedList => 1
    case ClusterList => 2
    case OverworldList => 3
  }

  lemma ListIndexInjective(a: ListType, b: ListType)
    ensures ListIndex(a) == ListIndex(b) ==> a == b
  {
  }

  // ---------------------------------------------------------------- Pointer

  const RTL_LOW: byte := 0x21
  const RTL_HIGH: byte := 0x80
  const RTL_BANK: byte := 0x01

  /** `Pointer`: a CPU address low byte first; the default is the RTL routine at $01:8021. */
  datatype Pointer = Pointer(low: byte, high: byte, bank: byte)
  {
    /** `is_empty()`: still the RTL default. */
    predicate IsEmpty() {
      low == RTL_LOW && high == RTL_HIGH && bank == RTL_BANK
    }

    /** `addr()`: `(bank << 16) + (high << 8) + low`; the three bytes occupy disjoint bits. */
    function Addr(): (a: SizeT)
      ensures a < 0x100_0000
      ensures a & 0xFF == low as SizeT && (a >> 8) & 0xFF == high as SizeT && a >> 16 == bank as SizeT
    {
      Rom.Long(low, high, bank)
    }

    /** The struct's three bytes as `memcpy` copies them. */
    function Bytes(): (b: seq<byte>)
      ensures |b| == 3
    {
      [low, high, bank]
    }
  }

  const DEFAULT_POINTER: Pointer := Pointer(RTL_LOW, RTL_HIGH, RTL_BANK)

  lemma IsEmptyIsDefault(p: Pointer)
    ensures p.IsEmpty() <==> p == DEFAULT_POINTER
  {
  }

  /** `Pointer(snes)`: the low three bytes of `snes`. */
  function PointerOf(snes: SizeT): (p: Pointer)
    ensures p.Addr() == snes & 0xFF_FFFF
  {
    var p := Pointer((snes & 0xFF) as byte, ((snes >> 8) & 0xFF) as byte, ((snes >> 16) & 0xFF) as byte);
    PointerOfBits(snes);
    p
  }

  lemma PointerOfBits(snes: SizeT)
    ensures Rom.Long((snes & 0xFF) as byte, ((snes >> 8) & 0xFF) as byte, ((snes >> 16) & 0xFF) as byte) == snes & 0xFF_FFFF
  {
    var lo, hi, bk := (snes & 0xFF) as byte, ((snes >> 8) & 0xFF) as byte, ((snes >> 16) & 0xFF) as byte;
    assert lo as SizeT == snes & 0xFF;
    assert hi as SizeT == (snes >> 8) & 0xFF;
    assert bk as SizeT == (snes >> 16) & 0xFF;
  }

  /** Splitting an address and joining it again gives the pointer back. */
  lemma PointerOfAddr(p: Pointer)
    ensures PointerOf(p.Addr()) == p
  {
    var a := p.Addr();
    var q := PointerOf(a);
    assert (a & 0xFF) as byte == p.low by {
      assert a & 0xFF == p.low as SizeT;
    }
    assert ((a >> 8) & 0xFF) as byte == p.high by {
      assert (a >> 8) & 0xFF == p.high as SizeT;
    }
    assert ((a >> 16) & 0xFF) as byte == p.bank by {
      assert (a >> 16) & 0xFF == (a >> 16);
      assert a >> 16 == p.bank as SizeT;
    }
  }

  /** `offset(rom)`: `snes_to_pc(addr())` with the header counted in. */
  function Offset(p: Pointer, rom: Rom.Rom): (o: SizeT)
    reads rom
  {
    rom.SnesToPc(p.Addr())
  }

  /** On a LoROM image the RTL default sits at file offset 0x8021 after the header. */
  lemma DefaultPointerOnLoRom(rom: Rom.Rom)
    requires rom.mapper == Rom.LoRom
    ensures Offset(DEFAULT_POINTER, rom) == 0x8021 + rom.headerOffset
  {
    var a := DEFAULT_POINTER.Addr();
    assert a == 0x01_8021;
    assert !Rom.LoRomRejects(a);
    assert Rom.LoRomPc(a) == 0x8021;
  }

  // ---------------------------------------------------------------- Map16

  datatype Map8x8 = Map8x8(tile: byte, prop: byte)

  /** `Map16`: four corners, top left, bottom left, top right, bottom right. */
  datatype Map16 = Map16(corners: seq<Map8x8>)
  {
    predicate Valid() { |corners| == 4 }
    function TopLeft(): Map8x8 requires Valid() { corners[0] }
    function BottomLeft(): Map8x8 requires Valid() { corners[1] }
    function TopRight(): Map8x8 requires Valid() { corners[2] }
    function BottomRight(): Map8x8 requires Valid() { corners[3] }
  }

  /** The tile built from the eight bytes at `at`: corner i takes its property from byte 2i and its tile from byte 2i + 1. */
  function Map16Of(bytes: seq<byte>, at: nat): (m: Map16)
    requires at + 8 <= |bytes|
    ensures m.Valid()
  {
    Map16(seq(4, i requires 0 <= i < 4 => Map8x8(bytes[at + 2 * i + 1], bytes[at + 2 * i])))
  }

  /** The eight bytes of a tile, property before tile, corner by corner. */
  function Map16Bytes(m: Map16): (b: seq<byte>)
    requires m.Valid()
    ensures |b| == 8
  {
    seq(8, k requires 0 <= k < 8 => if k % 2 == 0 then m.corners[k / 2].prop else m.corners[k / 2].tile)
  }

  /** Decoding a tile and encoding it again gives the eight bytes back. */
  lemma Map16RoundTrip(bytes: seq<byte>, at: nat)
    requires at + 8 <= |bytes|
    ensures Map16Bytes(Map16Of(bytes, at)) == bytes[at..at + 8]
  {
    var b := Map16Bytes(Map16Of(bytes, at));
    forall k | 0 <= k < 8
      ensures b[k] == bytes[at + k]
    {
      assert k == 2 * (k / 2) + k % 2;
    }
  }

  /** `Map16(iter)`: the loop over the four corners. */
  method NewMap16(bytes: seq<byte>, at: nat) returns (m: Map16)
    requires at + 8 <= |bytes|
    ensures m == Map16Of(bytes, at)
  {
    var corners := seq(4, _ => Map8x8(0, 0));
    for i := 0 to 4
      invariant |corners| == 4
      invariant forall k :: 0 <= k < i ==> corners[k] == Map8x8(bytes[at + 2 * k + 1], bytes[at + 2 * k])
    {
      corners := corners[i := corners[i].(prop := bytes[at + i * 2])];
      corners := corners[i := corners[i].(tile := bytes[at + i * 2 + 1])];
    }
    m := Map16(corners);
  }

  /**
   * The tiles of a decoded `Map16` string: one per whole group of eight
   * bytes, every byte used when the length is a multiple of 8. A shorter
   * last group is dropped.
   */
  function Map16s(decoded: seq<byte>): (ms: seq<Map16>)
    ensures |ms| == |decoded| / 8
    ensures 8 * |ms| <= |decoded| < 8 * |ms| + 8
    ensures |decoded| % 8 == 0 ==> 8 * |ms| == |decoded|
    ensures forall i :: 0 <= i < |ms| ==> ms[i] == Map16Of(decoded, 8 * i)
  {
    seq(|decoded| / 8, i requires 0 <= i < |decoded| / 8 => Map16Of(decoded, 8 * i))
  }

  // ---------------------------------------------------------------- StatusPointers, SpriteTable

  /** `StatusPointers`: five pointers. */
  datatype StatusPointers = StatusPointers(pointers: seq<Pointer>)
  {
    predicate Valid() { |pointers| == 5 }
    function Carriable(): Pointer requires Valid() { pointers[0] }
    function Kicked(): Pointer requires Valid() { pointers[1] }
    function Carried(): Pointer requires Valid() { pointers[2] }
    function Mouth(): Pointer requires Valid() { pointers[3] }
    function Goal(): Pointer requires Valid() { pointers[4] }

    /** The 15 bytes of the block in memory order. */
    function Bytes(): (b: seq<byte>)
      requires Valid()
      ensures |b| == 15
      ensures b[0..3] == Carriable().Bytes() && b[3..6] == Kicked().Bytes() && b[6..9] == Carried().Bytes()
      ensures b[9..12] == Mouth().Bytes() && b[12..15] == Goal().Bytes()
    {
      pointers[0].Bytes() + pointers[1].Bytes() + pointers[2].Bytes() + pointers[3].Bytes() + pointers[4].Bytes()
    }
  }

  const DEFAULT_STATUS: StatusPointers := StatusPointers([DEFAULT_POINTER, DEFAULT_POINTER, DEFAULT_POINTER, DEFAULT_POINTER, DEFAULT_POINTER])

  /** `SpriteTable`: the 16-byte row; `kind` is the `type` field. */
  datatype SpriteTable = SpriteTable(kind: byte, actlike: byte, tweak: seq<byte>, init: Pointer, main: Pointer, extra: seq<byte>)
  {
    predicate Valid() { |tweak| == 6 && |extra| == 2 }

    /** The row as `memcpy` copies it: type, actlike, six tweak bytes, init, main, two extra bytes. */
    function Bytes(): (b: seq<byte>)
      requires Valid()
      ensures |b| == 16
      ensures b[0] == kind && b[1] == actlike && b[2..8] == tweak
      ensures b[8..11] == init.Bytes() && b[11..14] == main.Bytes() && b[14..16] == extra
    {
      [kind, actlike] + tweak + init.Bytes() + main.Bytes() + extra
    }
  }

  /** A row read back from 16 bytes. */
  function TableOfBytes(b: seq<byte>): (t: SpriteTable)
    requires |b| == 16
    ensures t.Valid()
  {
    SpriteTable(b[0], b[1], b[2..8], Pointer(b[8], b[9], b[10]), Pointer(b[11], b[12], b[13]), b[14..16])
  }

  /** The row layout is a bijection with 16-byte strings. */
  lemma TableBytesRoundTrip(t: SpriteTable, b: seq<byte>)
    requires t.Valid() && |b| == 16
    ensures TableOfBytes(t.Bytes()) == t
    ensures TableOfBytes(b).Bytes() == b
  {
    var u := TableOfBytes(b);
    assert u.Bytes() == b;
  }

  const DEFAULT_TABLE: SpriteTable := SpriteTable(0, 0, Zeros(6), DEFAULT_POINTER, DEFAULT_POINTER, Zeros(2))

  // ---------------------------------------------------------------- Sprite

  datatype Tile = Tile(xOffset: int, yOffset: int, tileNumber: int, text: string)
  datatype Display = Display(description: string, tiles: seq<Tile>, extraBit: bool, x: int, y: int)
  /** `Collection`: `prop` holds 12 bytes. */
  datatype Collection = Collection(name: string, extraBit: bool, prop: seq<byte>)

  const COLLECTION_PROPS: nat := 12
  const MAX_SPRITE_COUNT: nat := 0x2100
  const SPRITE_COUNT: nat := 0x80
  const INIT_PTR: nat := 0x01817D
  const MAIN_PTR: nat := 0x0185CC
  const TEMP_SPR_FILE: string := "spr_temp.asm"

  datatype Sprite = Sprite(
    invalid: bool,
    line: int,
    number: int,
    level: int,
    table: SpriteTable,
    ptrs: StatusPointers,
    extendedCapePtr: Pointer,
    byteCount: int,
    extraByteCount: int,
    directory: string,
    asmFile: string,
    cfgFile: string,
    mapData: seq<Map16>,
    displays: seq<Display>,
    collections: seq<Collection>,
    spriteType: int)
  {
    predicate Valid() { table.Valid() && ptrs.Valid() }
  }

  /** The members `populate` sets before parsing, which the readers leave alone. */
  predicate SamePlace(a: Sprite, b: Sprite) {
    a.invalid == b.invalid && a.line == b.line && a.level == b.level && a.number == b.number && a.spriteType == b.spriteType
  }

  /** `Sprite()` and `Sprite(inv)`: every member at its default initialiser. */
  function NewSprite(invalid: bool := false): (s: Sprite)
    ensures s.Valid()
  {
    Sprite(invalid, 0, 0, 0x200, DEFAULT_TABLE, DEFAULT_STATUS, DEFAULT_POINTER, 0, 0, "", "", "", [], [], [], 0)
  }

  /**
   * A fresh sprite is valid unless asked otherwise, is not on any line
   * (line 0), belongs to no level (0x200), has no extra bytes, and its row
   * serialises to zeros around two RTL pointers.
   */
  lemma FreshSprite(invalid: bool)
    ensures var s := NewSprite(invalid);
      && s.invalid == invalid && s.line == 0 && s.level == 0x200
      && s.byteCount == 0 && s.extraByteCount == 0
      && s.table.init.IsEmpty() && s.table.main.IsEmpty()
      && s.table.Bytes() == [0, 0, 0, 0, 0, 0, 0, 0, 0x21, 0x80, 0x01, 0x21, 0x80, 0x01, 0, 0]
  {
  }

  // ---------------------------------------------------------------- CFG handlers

  /** `(uint8_t)std::stoi(line, nullptr, 16)`: the exceptions of `stoi` are not caught. */
  function StoiByte(line: string): (r: Result<byte>)
    ensures r.Ok? <==> CLib.StoiHex(line).Parsed?
    ensures r.Ok? ==> r.value == ToU8(CLib.StoiHex(line).value)
    ensures r.Err? ==> r.fault.Uncaught?
  {
    match CLib.StoiHex(line)
    case Parsed(v) => Ok(ToU8(v))
    case InvalidArgument => Err(Uncaught("std::invalid_argument"))
    case OutOfIntRange => Err(Uncaught("std::out_of_range"))
  }

  /** `cfg_type`. */
  function CfgType(line: string, spr: Sprite): (r: Result<Sprite>)
    ensures r.Ok? <==> CLib.StoiHex(line).Parsed?
    ensures r.Ok? ==> r.value.table.kind == ToU8(CLib.StoiHex(line).value)
    ensures r.Ok? ==> r.value.table.(kind := spr.table.kind) == spr.table && r.value.(table := spr.table) == spr
  {
    var b :- StoiByte(line);
    Ok(spr.(table := spr.table.(kind := b)))
  }

  /** `cfg_actlike`. */
  function CfgActlike(line: string, spr: Sprite): (r: Result<Sprite>)
    ensures r.Ok? <==> CLib.StoiHex(line).Parsed?
    ensures r.Ok? ==> r.value.table.actlike == ToU8(CLib.StoiHex(line).value)
    ensures r.Ok? ==> r.value.table.(actlike := spr.table.actlike) == spr.table && r.value.(table := spr.table) == spr
  {
    var b :- StoiByte(line);
    Ok(spr.(table := spr.table.(actlike := b)))
  }

  /** The first `|vals|` bytes of `base` replaced by `vals`: what a short `sscanf` leaves. */
  function Overlay(base: seq<byte>, vals: seq<byte>): (r: seq<byte>)
    requires |vals| <= |base|
    ensures |r| == |base|
    ensures forall k :: 0 <= k < |vals| ==> r[k] == vals[k]
    ensures forall k :: |vals| <= k < |base| ==> r[k] == base[k]
  {
    vals + base[|vals|..]
  }

  /** `cfg_tweak`: up to six `%hhx` conversions; the ones after the first failure leave their byte alone. */
  function CfgTweak(line: string, spr: Sprite): (r: Sprite)
    requires spr.Valid()
    ensures r.Valid() && r.(table := spr.table) == spr
    ensures r.table.(tweak := spr.table.tweak) == spr.table
    ensures r.table.tweak == Overlay(spr.table.tweak, CLib.ScanHexBytes(line, 0, 6))
  {
    spr.(table := spr.table.(tweak := Overlay(spr.table.tweak, CLib.ScanHexBytes(line, 0, 6))))
  }

  /** `cfg_prop`: the two extra property bytes, in the same way. */
  function CfgProp(line: string, spr: Sprite): (r: Sprite)
    requires spr.Valid()
    ensures r.Valid() && r.(table := spr.table) == spr
    ensures r.table.(extra := spr.table.extra) == spr.table
    ensures r.table.extra == Overlay(spr.table.extra, CLib.ScanHexBytes(line, 0, 2))
  {
    spr.(table := spr.table.(extra := Overlay(spr.table.extra, CLib.ScanHexBytes(line, 0, 2))))
  }

  /** `cfg_asm`: the routine file, relative to the CFG file's directory. */
  function CfgAsm(line: string, spr: Sprite): (r: Sprite)
    ensures r.asmFile == Util.AppendToDir(spr.cfgFile, line) && r.(asmFile := spr.asmFile) == spr
  {
    spr.(asmFile := Util.AppendToDir(spr.cfgFile, line))
  }

  const BAD_FORMAT: string := "Hex values for extra byte count in CFG file where wrongly formatted"
  const BAD_RANGE: string := "Hex value for extra byte count in CFG file out of range, valid range is 00-0C"

  /** What `read_byte_count` returns or throws. */
  datatype ByteCounts = Counts(first: int, second: int) | BadCounts(message: string)

  /** The position of the first ':' in `s`. */
  function FirstColon(s: string): (r: Option<nat>)
    ensures r.Some? ==> r.value < |s| && s[r.value] == ':' && forall k :: 0 <= k < r.value ==> s[k] != ':'
    ensures r.None? ==> forall k :: 0 <= k < |s| ==> s[k] != ':'
  {
    if |s| == 0 then None
    else if s[0] == ':' then Some(0)
    else match FirstColon(s[1..])
      case None => None
      case Some(k) => Some(k + 1)
  }

  /**
   * `read_byte_count(line)`: (0, 0) for a line without ':'; otherwise the
   * hexadecimal numbers at the start of the line and after the colon, each
   * at most 12 (there is no lower bound).
   */
  function ReadByteCount(line: string): (r: ByteCounts)
    ensures FirstColon(line).None? ==> r == Counts(0, 0)
    ensures FirstColon(line).Some? && r.Counts? ==>
      && CLib.StoiHex(line) == CLib.Parsed(r.first)
      && CLib.StoiHex(line[FirstColon(line).value + 1..]) == CLib.Parsed(r.second)
      && r.first <= 12 && r.second <= 12
    ensures r.BadCounts? <==> (FirstColon(line).Some? &&
      (!CLib.StoiHex(line).Parsed? || !CLib.StoiHex(line[FirstColon(line).value + 1..]).Parsed? ||
       CLib.StoiHex(line).value > 12 || CLib.StoiHex(line[FirstColon(line).value + 1..]).value > 12))
  {
    match FirstColon(line)
    case None => Counts(0, 0)
    case Some(pos) =>
      var first := CLib.StoiHex(line);
      var second := CLib.StoiHex(line[pos + 1..]);
      if !first.Parsed? || !second.Parsed? then BadCounts(BAD_FORMAT)
      else if first.value > 12 || second.value > 12 then BadCounts(BAD_RANGE)
      else Counts(first.value, second.value)
  }

  /** `cfg_extra`: a rejected count line becomes `pixi_error`. */
  function CfgExtra(line: string, spr: Sprite): (r: Result<Sprite>)
    ensures r.Err? <==> ReadByteCount(line).BadCounts?
    ensures r.Err? ==> ExitOf(r.fault) == Status(1)
    ensures r.Ok? ==> r.value.byteCount == ReadByteCount(line).first && r.value.extraByteCount == ReadByteCount(line).second
    ensures r.Ok? ==> r.value.(byteCount := spr.byteCount, extraByteCount := spr.extraByteCount) == spr
  {
    match ReadByteCount(line)
    case BadCounts(message) => Err(PixiError("While reading cfg file " + spr.cfgFile + ": " + message + "\n"))
    case Counts(first, second) => Ok(spr.(byteCount := first, extraByteCount := second))
  }

  // ---------------------------------------------------------------- from_cfg

  /** `linelimit`. */
  const LINE_LIMIT: nat := 6

  /** `handlers`: the readers of the six meaningful lines, in file order. */
  const HANDLERS: seq<(string, Sprite) --> Result<Sprite>> := [
    CfgType,
    CfgActlike,
    (line: string, spr: Sprite) requires spr.Valid() => Ok(CfgTweak(line, spr)),
    (line: string, spr: Sprite) requires spr.Valid() => Ok(CfgProp(line, spr)),
    (line: string, spr: Sprite) => Ok(CfgAsm(line, spr)),
    CfgExtra]

  /** Every handler accepts a valid sprite and keeps it valid and in place. */
  lemma HandlerKeepsPlace(n: nat, line: string, spr: Sprite)
    requires n < LINE_LIMIT && spr.Valid()
    ensures |HANDLERS| == LINE_LIMIT && HANDLERS[n].requires(line, spr)
    ensures var r := HANDLERS[n](line, spr); r.Ok? ==> r.value.Valid() && SamePlace(r.value, spr)
  {
    if n == 0 {
      assert HANDLERS[0](line, spr) == CfgType(line, spr);
    } else if n == 1 {
      assert HANDLERS[1](line, spr) == CfgActlike(line, spr);
    } else if n == 2 {
      assert HANDLERS[2](line, spr) == Ok(CfgTweak(line, spr));
    } else if n == 3 {
      assert HANDLERS[3](line, spr) == Ok(CfgProp(line, spr));
    } else if n == 4 {
      assert HANDLERS[4](line, spr) == Ok(CfgAsm(line, spr));
    } else {
      assert HANDLERS[5](line, spr) == CfgExtra(line, spr);
    }
  }

  /** `handlers[n](line, spr)`. */
  function Handle(n: nat, line: string, spr: Sprite): (r: Result<Sprite>)
    requires n < LINE_LIMIT && spr.Valid()
    ensures r.Ok? ==> r.value.Valid() && SamePlace(r.value, spr)
  {
    HandlerKeepsPlace(n, line, spr);
    HANDLERS[n](line, spr)
  }

  /** The loop of `from_cfg` from line `i` on, `nline` handlers used so far. */
  function CfgFold(lines: seq<string>, i: nat, nline: nat, spr: Sprite): (r: Result<Sprite>)
    requires i <= |lines| && nline <= LINE_LIMIT && spr.Valid()
    ensures r.Ok? ==> r.value.Valid() && SamePlace(r.value, spr)
    decreases |lines| - i, 1
  {
    if i == |lines| || nline == LINE_LIMIT then Ok(spr) else CfgLine(lines, i, nline, spr)
  }

  /** One pass of that loop: a blank line is skipped, any other goes to handler `nline`. */
  function CfgLine(lines: seq<string>, i: nat, nline: nat, spr: Sprite): (r: Result<Sprite>)
    requires i < |lines| && nline < LINE_LIMIT && spr.Valid()
    ensures r.Ok? ==> r.value.Valid() && SamePlace(r.value, spr)
    decreases |lines| - i, 0
  {
    var line := Util.Trimmed(lines[i]);
    if |line| == 0 then CfgFold(lines, i + 1, nline, spr)
    else
      var s :- Handle(nline, line, spr);
      CfgFold(lines, i + 1, nline + 1, s)
  }

  /** The trimmed lines that are not empty, in order. */
  function NonBlank(lines: seq<string>): (ts: seq<string>)
    ensures forall k :: 0 <= k < |ts| ==> |ts[k]| > 0
  {
    if |lines| == 0 then []
    else
      var t := Util.Trimmed(lines[0]);
      (if |t| == 0 then [] else [t]) + NonBlank(lines[1..])
  }

  /** Handlers `n`, `n + 1`, ... applied to `ts` in order, stopping at the first failure. */
  function Dispatch(ts: seq<string>, n: nat, spr: Sprite): (r: Result<Sprite>)
    requires n + |ts| <= LINE_LIMIT && spr.Valid()
    decreases |ts|, 1
  {
    if |ts| == 0 then Ok(spr) else DispatchFirst(ts, n, spr)
  }

  /** Handler `n` on the first line, then the rest from handler `n + 1` on. */
  function DispatchFirst(ts: seq<string>, n: nat, spr: Sprite): (r: Result<Sprite>)
    requires |ts| > 0 && n + |ts| <= LINE_LIMIT && spr.Valid()
    decreases |ts|, 0
  {
    var s :- Handle(n, ts[0], spr);
    Dispatch(ts[1..], n + 1, s)
  }

  function Min(a: nat, b: nat): nat { if a < b then a else b }

  /**
   * `from_cfg` reads the first six non-empty trimmed lines and hands the
   * k-th of them to handler k; empty lines use up no handler, and every
   * line after the sixth non-empty one is ignored.
   */
  lemma {:induction false} CfgFoldDispatches(lines: seq<string>, i: nat, nline: nat, spr: Sprite)
    requires i <= |lines| && nline <= LINE_LIMIT && spr.Valid()
    ensures CfgFold(lines, i, nline, spr) ==
      Dispatch(NonBlank(lines[i..])[..Min(LINE_LIMIT - nline, |NonBlank(lines[i..])|)], nline, spr)
    decreases |lines| - i, 1
  {
    var nb := NonBlank(lines[i..]);
    var take := Min(LINE_LIMIT - nline, |nb|);
    if i == |lines| {
      assert nb == [];
    } else if nline == LINE_LIMIT {
      assert nb[..take] == [];
    } else {
      NonBlankStep(lines, i);
      if |Util.Trimmed(lines[i])| == 0 {
        CfgBlankDispatches(lines, i, nline, spr);
      } else {
        CfgHandledDispatches(lines, i, nline, spr);
      }
    }
  }

  /** A blank line uses up no handler. */
  lemma {:induction false} CfgBlankDispatches(lines: seq<string>, i: nat, nline: nat, spr: Sprite)
    requires i < |lines| && nline < LINE_LIMIT && spr.Valid()
    requires |Util.Trimmed(lines[i])| == 0 && NonBlank(lines[i..]) == NonBlank(lines[i + 1..])
    ensures CfgFold(lines, i, nline, spr) ==
      Dispatch(NonBlank(lines[i..])[..Min(LINE_LIMIT - nline, |NonBlank(lines[i..])|)], nline, spr)
    decreases |lines| - i, 0
  {
    assert CfgFold(lines, i, nline, spr) == CfgLine(lines, i, nline, spr);
    CfgFoldDispatches(lines, i + 1, nline, spr);
  }

  /** A line that is not blank goes to handler `nline`, and the rest follows from handler `nline + 1` on. */
  lemma {:induction false} CfgHandledDispatches(lines: seq<string>, i: nat, nline: nat, spr: Sprite)
    requires i < |lines| && nline < LINE_LIMIT && spr.Valid()
    requires var t := Util.Trimmed(lines[i]); |t| > 0 && NonBlank(lines[i..]) == [t] + NonBlank(lines[i + 1..])
    ensures CfgFold(lines, i, nline, spr) ==
      Dispatch(NonBlank(lines[i..])[..Min(LINE_LIMIT - nline, |NonBlank(lines[i..])|)], nline, spr)
    decreases |lines| - i, 0
  {
    var t := Util.Trimmed(lines[i]);
    var nb := NonBlank(lines[i..]);
    var rest := NonBlank(lines[i + 1..]);
    var more := rest[..Min(LINE_LIMIT - (nline + 1), |rest|)];
    assert nb[..Min(LINE_LIMIT - nline, |nb|)] == [t] + more;
    assert ([t] + more)[1..] == more;
    assert CfgFold(lines, i, nline, spr) == CfgLine(lines, i, nline, spr);
    assert Dispatch([t] + more, nline, spr) == DispatchFirst([t] + more, nline, spr);
    match Handle(nline, t, spr)
    case Err(_) =>
    case Ok(s) =>
      CfgFoldDispatches(lines, i + 1, nline + 1, s);
  }

  /** The non-blank lines from `i` on: line `i` if it is not blank, then those after it. */
  lemma NonBlankStep(lines: seq<string>, i: nat)
    requires i < |lines|
    ensures var t := Util.Trimmed(lines[i]);
      NonBlank(lines[i..]) == (if |t| == 0 then [] else [t]) + NonBlank(lines[i + 1..])
  {
    assert lines[i..][0] == lines[i];
    assert lines[i..][1..] == lines[i + 1..];
  }

  /** `from_cfg()`, with the file's lines passed in. */
  method FromCfg(lines: seq<string>, spr: Sprite) returns (r: Result<Sprite>)
    requires spr.Valid()
    ensures r == CfgFold(lines, 0, 0, spr)
  {
    ghost var goal := CfgFold(lines, 0, 0, spr);
    var nline: nat := 0;
    var cur := spr;
    var i: nat := 0;
    while i < |lines| && nline < LINE_LIMIT
      invariant i <= |lines| && nline <= LINE_LIMIT && cur.Valid()
      invariant CfgFold(lines, i, nline, cur) == goal
    {
      var step := FromCfgLine(lines, i, nline, cur);
      if step.Err? {
        return Err(step.fault);
      }
      nline, cur := step.value.0, step.value.1;
      i := i + 1;
    }
    return Ok(cur);
  }

  /** One pass of the loop of `from_cfg()`: a blank line is skipped, any other goes to the next handler. */
  method FromCfgLine(lines: seq<string>, i: nat, nline: nat, spr: Sprite) returns (step: Result<(nat, Sprite)>)
    requires i < |lines| && nline < LINE_LIMIT && spr.Valid()
    ensures step.Err? ==> CfgLine(lines, i, nline, spr) == Err(step.fault)
    ensures step.Ok? ==> step.value.0 <= LINE_LIMIT && step.value.1.Valid()
    ensures step.Ok? ==> CfgLine(lines, i, nline, spr) == CfgFold(lines, i + 1, step.value.0, step.value.1)
  {
    var line := Util.Trim(lines[i]);
    if |line| == 0 {
      return Ok((nline, spr));
    }
    var next := Handle(nline, line, spr);
    if next.Err? {
      return Err(next.fault);
    }
    return Ok((nline + 1, next.value));
  }


  // ---------------------------------------------------------------- from_json

  /**
   * The values `from_json` takes from the JSON document, already decoded:
   * numbers as integers, the tweak bytes as the bit-field structs produce
   * them, and the Map16 string after base64 decoding.
   */
  datatype JsonTile = JsonTile(xOffset: int, yOffset: int, tile: int)
  datatype JsonDisplay = JsonDisplay(description: string, x: int, y: int, extraBit: bool,
                                     useText: bool, text: string, tiles: seq<JsonTile>)
  /** `props[i]` is "Extra Property Byte i" when the key is present. */
  datatype JsonCollection = JsonCollection(name: string, extraBit: bool, props: map<nat, int>)
  datatype JsonSprite = JsonSprite(
    actlike: int, kind: int, asmFile: string, extra1: int, extra2: int,
    byteCount: int, extraByteCount: int, tweak: seq<byte>, map16: seq<byte>,
    displays: seq<JsonDisplay>, collections: seq<JsonCollection>)

  /** The clamp `from_json` applies to the byte counts, as written. */
  const JSON_COUNT_MAX_AS_WRITTEN: int := 15
  /** The largest count whose property bytes fit in `Collection::prop`, as the CFG reader enforces. */
  const JSON_COUNT_MAX: int := 12

  /** A JSON number stored into a `uint8_t` member. */
  function JsonByte(v: int): byte { ToU8(v) }

  /** `from_json`: one display, its position clamped into 0..15. */
  function DisplayOf(d: JsonDisplay): (r: Display)
    ensures 0 <= r.x <= 15 && 0 <= r.y <= 15
    ensures 0 <= d.x <= 15 ==> r.x == d.x
    ensures 0 <= d.y <= 15 ==> r.y == d.y
    ensures d.useText ==> r.tiles == [Tile(0, 0, 0, d.text)]
    ensures !d.useText ==> |r.tiles| == |d.tiles|
  {
    var tiles := if d.useText then [Tile(0, 0, 0, d.text)]
                 else seq(|d.tiles|, k requires 0 <= k < |d.tiles| => Tile(d.tiles[k].xOffset, d.tiles[k].yOffset, d.tiles[k].tile, ""));
    Display(d.description, tiles, d.extraBit, Clamp(d.x, 0, 15), Clamp(d.y, 0, 15))
  }

  /** The warning for a missing collection property. */
  function MissingPropWarning(cfgFile: string, i: nat, name: string): string {
    "Your json file \"" + Util.FileName(cfgFile) + "\" is missing a definition for Extra Property Byte "
      + CLib.DecimalString(i) + " at collection \"" + name + "\""
  }

  /** The properties `1..count` of a collection: present ones converted, missing ones 0 with a warning. */
  function CollectionProps(c: JsonCollection, count: nat, cfgFile: string): (r: (seq<byte>, seq<string>))
    requires count <= COLLECTION_PROPS
    ensures |r.0| == COLLECTION_PROPS
    ensures forall k :: 0 <= k < count ==> r.0[k] == if k + 1 in c.props then JsonByte(c.props[k + 1]) else 0
    ensures forall k :: count <= k < COLLECTION_PROPS ==> r.0[k] == 0
    decreases count
  {
    if count == 0 then (Zeros(COLLECTION_PROPS), [])
    else
      var (prop, warnings) := CollectionProps(c, count - 1, cfgFile);
      if count in c.props then (prop[count - 1 := JsonByte(c.props[count])], warnings)
      else (prop[count - 1 := 0], warnings + [MissingPropWarning(cfgFile, count, c.name)])
  }

  /** Each missing property adds exactly one warning, in property order. */
  lemma {:induction false} CollectionPropsWarnings(c: JsonCollection, count: nat, cfgFile: string)
    requires count <= COLLECTION_PROPS
    ensures |CollectionProps(c, count, cfgFile).1| == |set i | 1 <= i <= count && i !in c.props|
    decreases count
  {
    if count > 0 {
      CollectionPropsWarnings(c, count - 1, cfgFile);
      var before := set i | 1 <= i <= count - 1 && i !in c.props;
      var now := set i | 1 <= i <= count && i !in c.props;
      if count in c.props {
        assert now == before;
      } else {
        assert now == before + {count};
        assert count !in before;
      }
    }
  }

  /**
   * `from_json`: the table fields, the routine file and byte
   * counts when `type` is not 0 (counts clamped into 0..countMax: 15 as
   * written, 12 as the rest of the model uses), the tweak bytes, the Map16
   * tiles and the displays.
   */
  function JsonFields(spr: Sprite, j: JsonSprite, countMax: int): (r: Sprite)
    requires spr.Valid() && |j.tweak| == 6 && 0 <= countMax
    ensures r.Valid() && SamePlace(r, spr)
    ensures r.table.kind == JsonByte(j.kind) && r.table.actlike == JsonByte(j.actlike) && r.table.tweak == j.tweak
    ensures r.table.kind != 0 ==>
      && r.asmFile == Util.AppendToDir(spr.cfgFile, j.asmFile)
      && r.table.extra == [JsonByte(j.extra1), JsonByte(j.extra2)]
      && r.byteCount == Clamp(j.byteCount, 0, countMax)
      && r.extraByteCount == Clamp(j.extraByteCount, 0, countMax)
    ensures r.table.kind == 0 ==>
      && r.asmFile == spr.asmFile && r.table.extra == spr.table.extra
      && r.byteCount == spr.byteCount && r.extraByteCount == spr.extraByteCount
    ensures r.mapData == spr.mapData + Map16s(j.map16) && |r.displays| == |spr.displays| + |j.displays|
  {
    var kind := JsonByte(j.kind);
    var t := spr.table.(actlike := JsonByte(j.actlike), kind := kind);
    var s := spr.(table := t);
    var s := if kind != 0 then
               s.(asmFile := Util.AppendToDir(spr.cfgFile, j.asmFile),
                  table := t.(extra := [JsonByte(j.extra1), JsonByte(j.extra2)]),
                  byteCount := Clamp(j.byteCount, 0, countMax),
                  extraByteCount := Clamp(j.extraByteCount, 0, countMax))
             else s;
    s.(table := s.table.(tweak := j.tweak),
       mapData := spr.mapData + Map16s(j.map16),
       displays := spr.displays + seq(|j.displays|, k requires 0 <= k < |j.displays| => DisplayOf(j.displays[k])))
  }

  /** `from_json`: one collection, the properties read up to the byte count its extra bit selects. */
  function CollectionOf(c: JsonCollection, byteCount: nat, extraByteCount: nat, cfgFile: string): (r: (Collection, seq<string>))
    requires byteCount <= COLLECTION_PROPS && extraByteCount <= COLLECTION_PROPS
    ensures r.0.name == c.name && r.0.extraBit == c.extraBit && |r.0.prop| == COLLECTION_PROPS
  {
    var count := if c.extraBit then extraByteCount else byteCount;
    var (prop, warnings) := CollectionProps(c, count, cfgFile);
    (Collection(c.name, c.extraBit, prop), warnings)
  }

  /**
   * Whether the property loop of `from_json` stores into `coll.prop[k]`: it does
   * for `k = i - 1` with `i` from 1 to the count the extra bit selects.
   */
  predicate PropIndexWritten(c: JsonCollection, byteCount: int, extraByteCount: int, k: int) {
    0 <= k < (if c.extraBit then extraByteCount else byteCount)
  }

  /**
   * As written, a sprite with a non-zero type and a byte count above 12
   * keeps a count above 12 after the clamp into 0..15, and for a collection
   * whose extra bit is clear the property loop then stores into `prop[12]`,
   * one past the end of the 12-byte array. With the clamp into 0..12 every
   * store is inside the array.
   */
  lemma JsonCountClampOverrunsProps(spr: Sprite, j: JsonSprite, c: JsonCollection)
    requires spr.Valid() && |j.tweak| == 6
    requires JsonByte(j.kind) != 0 && j.byteCount > COLLECTION_PROPS && !c.extraBit
    ensures var f := JsonFields(spr, j, JSON_COUNT_MAX_AS_WRITTEN);
      && f.byteCount == Clamp(j.byteCount, 0, JSON_COUNT_MAX_AS_WRITTEN) > COLLECTION_PROPS
      && PropIndexWritten(c, f.byteCount, f.extraByteCount, COLLECTION_PROPS)
    ensures var f := JsonFields(spr, j, JSON_COUNT_MAX);
      && f.byteCount == COLLECTION_PROPS
      && forall k :: PropIndexWritten(c, f.byteCount, f.extraByteCount, k) ==> k < COLLECTION_PROPS
  {
    var f := JsonFields(spr, j, JSON_COUNT_MAX_AS_WRITTEN);
    assert f.byteCount > COLLECTION_PROPS;
    assert PropIndexWritten(c, f.byteCount, f.extraByteCount, COLLECTION_PROPS);
  }

  /** The loop over the collections: one `Collection` each, in order, and the warnings in the same order. */
  function JsonCollections(cs: seq<JsonCollection>, byteCount: nat, extraByteCount: nat, cfgFile: string): (r: (seq<Collection>, seq<string>))
    requires byteCount <= COLLECTION_PROPS && extraByteCount <= COLLECTION_PROPS
    ensures |r.0| == |cs|
    ensures forall m :: 0 <= m < |cs| ==> r.0[m] == CollectionOf(cs[m], byteCount, extraByteCount, cfgFile).0
  {
    if |cs| == 0 then ([], [])
    else
      var (done, warnings) := JsonCollections(cs[..|cs| - 1], byteCount, extraByteCount, cfgFile);
      var (c, w) := CollectionOf(cs[|cs| - 1], byteCount, extraByteCount, cfgFile);
      (done + [c], warnings + w)
  }

  /** The property loop of `from_json` for one collection. */
  method ReadCollection(c: JsonCollection, byteCount: nat, extraByteCount: nat, cfgFile: string)
    returns (coll: Collection, warnings: seq<string>)
    requires byteCount <= COLLECTION_PROPS && extraByteCount <= COLLECTION_PROPS
    ensures (coll, warnings) == CollectionOf(c, byteCount, extraByteCount, cfgFile)
  {
    var count := if c.extraBit then extraByteCount else byteCount;
    var prop := Zeros(COLLECTION_PROPS);
    warnings := [];
    var i := 1;
    while i <= count
      invariant 1 <= i <= count + 1
      invariant (prop, warnings) == CollectionProps(c, i - 1, cfgFile)
    {
      if i in c.props {
        prop := prop[i - 1 := JsonByte(c.props[i])];
      } else {
        prop := prop[i - 1 := 0];
        warnings := warnings + [MissingPropWarning(cfgFile, i, c.name)];
      }
      i := i + 1;
    }
    coll := Collection(c.name, c.extraBit, prop);
  }

  /**
   * `from_json(cfg)` on the decoded document: the fields, then every
   * collection in order, the warnings of missing properties collected.
   */
  method FromJson(spr: Sprite, j: JsonSprite) returns (r: Sprite, warnings: seq<string>)
    requires spr.Valid() && |j.tweak| == 6
    requires 0 <= spr.byteCount <= COLLECTION_PROPS && 0 <= spr.extraByteCount <= COLLECTION_PROPS
    ensures var f := JsonFields(spr, j, JSON_COUNT_MAX);
      var cs := JsonCollections(j.collections, f.byteCount, f.extraByteCount, spr.cfgFile);
      r == f.(collections := spr.collections + cs.0) && warnings == cs.1
  {
    var fields := JsonFields(spr, j, JSON_COUNT_MAX);
    var bc: nat, ebc: nat := fields.byteCount, fields.extraByteCount;
    var colls := [];
    warnings := [];
    var k := 0;
    while k < |j.collections|
      invariant k <= |j.collections|
      invariant (colls, warnings) == JsonCollections(j.collections[..k], bc, ebc, spr.cfgFile)
    {
      var coll, w := ReadCollection(j.collections[k], bc, ebc, spr.cfgFile);
      assert j.collections[..k + 1][..k] == j.collections[..k];
      colls := colls + [coll];
      warnings := warnings + w;
      k := k + 1;
    }
    assert j.collections[..k] == j.collections;
    r := fields.(collections := spr.collections + colls);
  }

  // ---------------------------------------------------------------- parse

  /**
   * `cfg_file.substr(cfg_file.find_last_of("."))`: from the last '.' on; with
   * no '.' the position is `npos` and `substr` throws `out_of_range`.
   */
  function Extension(cfgFile: string): (r: Result<string>)
    ensures r.Err? <==> Util.LastDot(cfgFile).None?
    ensures r.Ok? ==> 1 <= |r.value| <= |cfgFile| && r.value == cfgFile[|cfgFile| - |r.value|..]
    ensures r.Ok? ==> r.value[0] == '.' && forall k :: 1 <= k < |r.value| ==> r.value[k] != '.'
  {
    match Util.LastDot(cfgFile)
    case None => Err(Uncaught("std::out_of_range"))
    case Some(d) => Ok(cfgFile[d..])
  }

  /** How `parse` reads a sprite: the CFG file's lines and the decoded JSON document are passed in. */
  datatype Parsed = ParsedSprite(spr: Sprite, warnings: seq<string>)

  /** `from_json`: the JSON file could not be opened. */
  function JsonNotFound(cfgFile: string): string {
    "\"" + cfgFile + "\" wasn't found, make sure to have the correct filenames in your list file\n"
  }

  const BAD_EXTENSION_PREFIX: string := "[ Sprite parsing error ] File extension of "

  /**
   * What `parse(cfg)` makes of a sprite: the CFG reader on the file's lines
   * (none when it cannot be opened), the JSON reader on the decoded document
   * (`None` when it cannot be opened), and a fatal error for any other
   * extension.
   */
  function ParseOf(spr: Sprite, cfgLines: seq<string>, json: Option<JsonSprite>): (r: Result<Parsed>)
    requires spr.Valid() && (json.Some? ==> |json.value.tweak| == 6)
    requires 0 <= spr.byteCount <= COLLECTION_PROPS && 0 <= spr.extraByteCount <= COLLECTION_PROPS
    ensures r.Ok? ==> r.value.spr.Valid() && SamePlace(r.value.spr, spr)
  {
    match Extension(spr.cfgFile)
    case Err(f) => Err(f)
    case Ok(ext) =>
      if ext == ".cfg" then
        var s :- CfgFold(cfgLines, 0, 0, spr);
        Ok(ParsedSprite(s, []))
      else if ext == ".json" then
        match json
        case None => Err(PixiError(JsonNotFound(spr.cfgFile)))
        case Some(j) =>
          var f := JsonFields(spr, j, JSON_COUNT_MAX);
          var cs := JsonCollections(j.collections, f.byteCount, f.extraByteCount, spr.cfgFile);
          Ok(ParsedSprite(f.(collections := spr.collections + cs.0), cs.1))
      else Err(PixiError(BAD_EXTENSION_PREFIX + spr.cfgFile + " not one of .cfg or .json, it was " + ext + "\n"))
  }

  /**
   * The reader `parse` selects: a CFG file goes line by line through the six
   * handlers, a JSON document keeps its byte counts within 0..12 and adds
   * its collections, a missing JSON file or a foreign extension is fatal.
   */
  lemma ParseOfCases(spr: Sprite, cfgLines: seq<string>, json: Option<JsonSprite>)
    requires spr.Valid() && (json.Some? ==> |json.value.tweak| == 6)
    requires 0 <= spr.byteCount <= COLLECTION_PROPS && 0 <= spr.extraByteCount <= COLLECTION_PROPS
    ensures var r := ParseOf(spr, cfgLines, json);
      && (Extension(spr.cfgFile).Err? ==> r == Err(Uncaught("std::out_of_range")))
      && (Extension(spr.cfgFile) == Ok(".cfg") ==>
            r == (match CfgFold(cfgLines, 0, 0, spr) case Ok(s) => Ok(ParsedSprite(s, [])) case Err(f) => Err(f)))
      && (Extension(spr.cfgFile) == Ok(".json") ==>
            (r.Ok? <==> json.Some?)
            && (r.Ok? ==> 0 <= r.value.spr.byteCount <= COLLECTION_PROPS && 0 <= r.value.spr.extraByteCount <= COLLECTION_PROPS
                          && r.value.spr.(collections := spr.collections) == JsonFields(spr, json.value, JSON_COUNT_MAX).(collections := spr.collections)))
      && (Extension(spr.cfgFile).Ok? && Extension(spr.cfgFile).value != ".cfg" && Extension(spr.cfgFile).value != ".json" ==>
            r.Err? && ExitOf(r.fault) == Status(1))
  {
    if Extension(spr.cfgFile) == Ok(".json") && json.Some? {
      var f := JsonFields(spr, json.value, JSON_COUNT_MAX);
      assert f.(collections := spr.collections) == JsonFields(spr, json.value, JSON_COUNT_MAX).(collections := spr.collections);
    }
  }

  /** `parse(cfg)`: ".cfg" and ".json" select their reader; any other extension is fatal. */
  method Parse(spr: Sprite, cfgLines: seq<string>, json: Option<JsonSprite>) returns (r: Result<Parsed>)
    requires spr.Valid() && (json.Some? ==> |json.value.tweak| == 6)
    requires 0 <= spr.byteCount <= COLLECTION_PROPS && 0 <= spr.extraByteCount <= COLLECTION_PROPS
    ensures r == ParseOf(spr, cfgLines, json)
  {
    var ext := Extension(spr.cfgFile);
    if ext.Err? {
      return Err(ext.fault);
    }
    if ext.value == ".cfg" {
      var s := FromCfg(cfgLines, spr);
      if s.Err? {
        return Err(s.fault);
      }
      return Ok(ParsedSprite(s.value, []));
    } else if ext.value == ".json" {
      if json.None? {
        return Err(PixiError(JsonNotFound(spr.cfgFile)));
      }
      var s, w := FromJson(spr, json.value);
      return Ok(ParsedSprite(s, w));
    }
    return Err(PixiError(BAD_EXTENSION_PREFIX + spr.cfgFile + " not one of .cfg or .json, it was " + ext.value + "\n"));
  }
}
