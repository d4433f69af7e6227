/**
 * SpritesData.h and SpritesData.cpp: the four sprite tables, how a list
 * file fills them, how their routines are patched in (with the per-level
 * allocator of the PerLevel module), and the binary tables written for
 * the assembler.
 */
module SpritesData {
  import opened Types
  import opened Entities
  import CLib
  import Util
  import Config
  import PerLevel
  import Array

  /** 2^32: `sscanf`'s `%x` stores into a `uint32_t`. */
  const U32: nat := 0x1_0000_0000

  // ---------------------------------------------------------------- from_table

  /** What `from_table` hands back: the static dummy, or a slot of the table. */
  datatype Slot = Dummy | Index(i: int)

  /** The number of entries the constructor gives each table (the `SpritesData` constructor). */
  function TableSize(t: ListType, perLevel: bool): (n: nat)
    ensures t == SpriteList ==> n == (if perLevel then MAX_SPRITE_COUNT else 0x100)
    ensures t == ExtendedList || t == ClusterList ==> n == SPRITE_COUNT
    ensures t == OverworldList ==> n == 0
  {
    match t
    case SpriteList => if perLevel then MAX_SPRITE_COUNT else 0x100
    case OverworldList => 0
    case _ => SPRITE_COUNT
  }

  /** `from_table` as written: the bounds, and where the per-level entries of a level start. */
  function FromTableAsWritten(t: ListType, level: int, number: int, perLevel: bool): Slot {
    if t != SpriteList then
      if number > SPRITE_COUNT then Dummy else Index(number)
    else if !perLevel then Index(number)
    else if level > 0x200 || number > 0xFF then Dummy
    else if level == 0x200 then Index(0x2000 + number)
    else if number > 0xB0 && number < 0xC0 then Index(level * 0x10 + (number - 0xB0))
    else Dummy
  }

  /**
   * `from_table` with the bounds the tables need: a cluster or extended number
   * must be below 0x80, a normal number below 0x100, and a per-level entry
   * is one of B0-BF on a level below 0x200 (level 0x200 is the global
   * table at 0x2000).
   */
  function FromTable(t: ListType, level: int, number: int, perLevel: bool): (r: Slot)
    ensures r.Index? ==> 0 <= r.i < TableSize(t, perLevel)
  {
    if t != SpriteList || !perLevel then
      if 0 <= number < TableSize(t, perLevel) then Index(number) else Dummy
    else if level < 0 || level > 0x200 || number < 0 || number > 0xFF then Dummy
    else if level == 0x200 then Index(0x2000 + number)
    else if 0xB0 <= number < 0xC0 then Index(level * 0x10 + (number - 0xB0))
    else Dummy
  }

  /**
   * The per-level lookup hands out a slot exactly for level 0x200 with any
   * number below 0x100, and for B0-BF on levels 0-1FF; the global numbers
   * sit at 0x2000 + n.
   */
  lemma PerLevelSlots(level: int, number: int)
    ensures FromTable(SpriteList, level, number, true).Index? <==>
      (level == 0x200 && 0 <= number < 0x100) || (0 <= level < 0x200 && 0xB0 <= number < 0xC0)
    ensures level == 0x200 && 0 <= number < 0x100 ==> FromTable(SpriteList, level, number, true) == Index(0x2000 + number)
    ensures 0 <= level < 0x200 && 0xB0 <= number < 0xC0 ==>
      FromTable(SpriteList, level, number, true) == Index(level * 0x10 + number - 0xB0)
  {
  }

  /** Different (level, number) pairs never share a slot, so no two list lines can fill the same entry. */
  lemma FromTableInjective(t: ListType, l1: int, n1: int, l2: int, n2: int, perLevel: bool)
    requires FromTable(t, l1, n1, perLevel).Index? && FromTable(t, l1, n1, perLevel) == FromTable(t, l2, n2, perLevel)
    ensures n1 == n2
    ensures t == SpriteList && perLevel ==> l1 == l2
  {
    if t == SpriteList && perLevel && l1 != 0x200 && l2 != 0x200 {
      var i := FromTable(t, l1, n1, perLevel).i;
      assert i == l1 * 0x10 + (n1 - 0xB0) == l2 * 0x10 + (n2 - 0xB0);
      assert (i / 0x10, i % 0x10) == (l1, n1 - 0xB0) == (l2, n2 - 0xB0);
    }
  }

  /**
   * Where the written bounds go wrong, for non-negative arguments: a
   * cluster or extended number of exactly 0x80, a normal number of 0x100 or
   * more without per-level tables, and per-level number B0 on a level
   * below 0x200. Everywhere else the two lookups agree.
   */
  lemma FromTableCorrectsAsWritten(t: ListType, level: nat, number: nat, perLevel: bool)
    requires t != OverworldList
    ensures FromTableAsWritten(t, level, number, perLevel) != FromTable(t, level, number, perLevel) <==>
      || (t != SpriteList && number == SPRITE_COUNT)
      || (t == SpriteList && !perLevel && number >= 0x100)
      || (t == SpriteList && perLevel && level < 0x200 && number == 0xB0)
  {
  }

  /**
   * As written, cluster/extended number 0x80 and normal number 0x100 index
   * one past the end of their tables, a negative level reaches below the
   * start of the per-level table, and per-level sprite B0 of a level is
   * turned down.
   */
  lemma FromTableAsWrittenOverruns()
    ensures FromTableAsWritten(ClusterList, 0x200, 0x80, true) == Index(TableSize(ClusterList, true))
    ensures FromTableAsWritten(SpriteList, 0x200, 0x100, false) == Index(TableSize(SpriteList, false))
    ensures FromTableAsWritten(SpriteList, -1, 0xB1, true) == Index(-0xF)
    ensures FromTableAsWritten(SpriteList, 0x105, 0xB0, true) == Dummy
    ensures FromTable(SpriteList, 0x105, 0xB0, true) == Index(0x1050)
  {
  }

  // ---------------------------------------------------------------- list lines

  /** What one line of the list file says. */
  datatype ListLine =
    | Blank
    | Section(list: ListType)
    | Entry(level: nat, id: nat, cfgName: string, ext: string)

  /** `s.find(c)`. */
  function FirstOf(s: string, c: char): (r: Option<nat>)
    ensures r.Some? ==> r.value < |s| && s[r.value] == c && forall k :: 0 <= k < r.value ==> s[k] != c
    ensures r.None? ==> forall k :: 0 <= k < |s| ==> s[k] != c
  {
    if |s| == 0 then None
    else if s[0] == c then Some(0)
    else match FirstOf(s[1..], c)
      case None => None
      case Some(k) => Some(k + 1)
  }

  /** `populate`: everything from the first ';' on is a comment. */
  function Uncommented(s: string): (r: string)
    ensures |r| <= |s| && r == s[..|r|]
    ensures forall k :: 0 <= k < |r| ==> r[k] != ';'
    ensures |r| < |s| ==> s[|r|] == ';'
  {
    match FirstOf(s, ';')
    case None => s
    case Some(k) => s[..k]
  }

  function LineText(lineno: nat): string { CLib.DecimalString(lineno) }

  function Malformed(lineno: nat, line: string): Fault {
    PixiError("Line " + LineText(lineno) + " was malformed: \"" + line + "\"\n")
  }

  /** `sscanf(line, "%x %n", &sprite_id, &read_until)`: the number and where the file name starts. */
  function ScanId(line: string): (r: Option<(nat, nat)>)
    ensures r.Some? ==> r.value.0 < U32 && 0 < r.value.1 <= |line|
    ensures r.Some? <==> CLib.ScanfHexNumeral(line, 0).Some?
  {
    match CLib.ScanHex(line, 0, U32)
    case None => None
    case Some((id, e)) => Some((id, CLib.SkipSpaces(line, e)))
  }

  /** On "0x.cfg" the `%x` consumes "0x" as 0, so the file name starts at ".cfg". */
  lemma ScanIdBarePrefix()
    ensures ScanId("0x.cfg") == Some((0, 2))
    ensures "0x.cfg"[2..] == ".cfg"
  {
    var line := "0x.cfg";
    assert CLib.SkipSpaces(line, 0) == 0 && CLib.MagnitudeStart(line, 0) == 0;
    assert CLib.BareHexPrefix(line, 0);
    assert CLib.ScanHex(line, 0, U32) == Some((0, 2));
    assert CLib.SkipSpaces(line, 2) == 2;
  }

  /** `sscanf(line, "%x:%x %n", &level, &sprite_id, &read_until)`. */
  function ScanLevelAndId(line: string): (r: Option<(nat, nat, nat)>)
    ensures r.Some? ==> r.value.0 < U32 && r.value.1 < U32 && 0 < r.value.2 <= |line|
  {
    match CLib.ScanHex(line, 0, U32)
    case None => None
    case Some((level, e)) =>
      if e < |line| && line[e] == ':' then
        match CLib.ScanHex(line, e + 1, U32)
        case None => None
        case Some((id, e2)) => Some((level, id, CLib.SkipSpaces(line, e2)))
      else None
  }

  /** `ext` is what follows the last '.' of `name`. */
  predicate ExtensionOf(name: string, ext: string) {
    && |ext| < |name| && name[|name| - |ext| - 1] == '.' && ext == name[|name| - |ext|..]
    && forall k :: 0 <= k < |ext| ==> ext[k] != '.'
  }

  /** `populate`: the file name needs a '.'; the extension is what follows the last one. */
  function WithExtension(level: nat, id: nat, cfgName: string, lineno: nat): (r: Result<ListLine>)
    ensures r.Ok? <==> exists k :: 0 <= k < |cfgName| && cfgName[k] == '.'
    ensures r.Ok? ==> r.value.Entry? && r.value.level == level && r.value.id == id && r.value.cfgName == cfgName
    ensures r.Ok? ==> ExtensionOf(r.value.cfgName, r.value.ext)
  {
    match Util.LastDot(cfgName)
    case None => Err(PixiError("Error on line " + LineText(lineno) + ": missing extension on filename " + cfgName + "\n"))
    case Some(d) => Ok(Entry(level, id, cfgName, cfgName[d + 1..]))
  }

  /**
   * `populate`: one line of the list file, numbered `lineno`. An entry has
   * 32-bit numbers, level 0x200 unless per-level tables are on, and an
   * extension that is the text after the last '.' of its file name.
   */
  function ParseListLine(raw: string, lineno: nat, perLevel: bool): (r: Result<ListLine>)
    ensures r.Ok? && r.value.Entry? ==>
      && r.value.level < U32 && r.value.id < U32
      && (!perLevel ==> r.value.level == 0x200)
      && ExtensionOf(r.value.cfgName, r.value.ext)
    ensures r.Ok? && r.value.Section? ==> r.value.list != OverworldList
  {
    var line := Util.Trimmed(Uncommented(raw));
    if |line| == 0 then Ok(Blank)
    else match FirstOf(line, ':')
      case None =>
        (match ScanId(line)
         case None => Err(Malformed(lineno, line))
         case Some((id, until)) => WithExtension(0x200, id, line[until..], lineno))
      case Some(c) =>
        if c == |line| - 1 then
          if line == "SPRITE:" then Ok(Section(SpriteList))
          else if line == "CLUSTER:" then Ok(Section(ClusterList))
          else if line == "EXTENDED:" then Ok(Section(ExtendedList))
          else Err(PixiError("Line " + LineText(lineno) + " tried to set a wrong sprite type: " + line + "\n"))
        else
          match ScanLevelAndId(line)
          case None => Err(Malformed(lineno, line))
          case Some((level, id, until)) =>
            if !perLevel then
              Err(PixiError("Trying to insert per level sprites without using the -pl flag, at line "
                            + LineText(lineno) + ": \"" + line + "\"\n"))
            else WithExtension(level, id, line[until..], lineno)
  }

  /** The three section headers. */
  predicate IsSectionName(line: string) {
    line == "SPRITE:" || line == "CLUSTER:" || line == "EXTENDED:"
  }

  /** A line is blank exactly when nothing but a comment and white space is on it. */
  lemma BlankLines(raw: string, lineno: nat, perLevel: bool)
    ensures ParseListLine(raw, lineno, perLevel) == Ok(Blank) <==> Util.Trimmed(Uncommented(raw)) == ""
  {
  }

  /** A line is a section header exactly when it reads one of the three names. */
  lemma SectionLines(raw: string, lineno: nat, perLevel: bool)
    ensures var r := ParseListLine(raw, lineno, perLevel);
      r.Ok? && r.value.Section? <==> IsSectionName(Util.Trimmed(Uncommented(raw)))
  {
    var line := Util.Trimmed(Uncommented(raw));
    if IsSectionName(line) {
      assert line[|line| - 1] == ':' && forall k :: 0 <= k < |line| - 1 ==> line[k] != ':';
      assert FirstOf(line, ':') == Some(|line| - 1);
    }
  }

  // ---------------------------------------------------------------- invalid entries

  function LineError(lineno: nat, what: string): string {
    "Error on line " + LineText(lineno) + ": " + what + "\n"
  }

  const NUMBER_TOO_BIG: string := "Sprite number must be less than 0x100"
  const LEVEL_TOO_BIG: string := "Level must range from 000-1FF"
  const ONLY_B0_BF: string := "Only sprite B0-BF must be assigned a level."
  /** `{:X}` of `Sprite::SPRITE_COUNT`. */
  const NON_SPRITE_TOO_BIG: string := "Sprite number must be less than 80"

  /**
   * `populate` as written: the message for a line whose lookup reached
   * the dummy, or `None` when no test fires and the line goes on to fill
   * the dummy.
   */
  function InvalidEntryErrorAsWritten(t: ListType, level: nat, id: nat, lineno: nat): Option<string> {
    if t == SpriteList then
      if id >= 0x100 then Some(LineError(lineno, NUMBER_TOO_BIG))
      else if level > 0x200 then Some(LineError(lineno, LEVEL_TOO_BIG))
      else if 0xB0 <= id < 0xC0 then Some(LineError(lineno, ONLY_B0_BF))
      else None
    else if id > SPRITE_COUNT then Some(LineError(lineno, NON_SPRITE_TOO_BIG))
    else None
  }

  /**
   * `populate` as intended: every line that reaches the dummy is fatal.
   * For the normal table the last message is the one left once the number
   * and the level are in range: a number outside B0-BF on a level below
   * 0x200.
   */
  function InvalidEntryError(t: ListType, level: nat, id: nat, lineno: nat): (m: string)
    ensures t == SpriteList && id >= 0x100 ==> m == LineError(lineno, NUMBER_TOO_BIG)
    ensures t == SpriteList && id < 0x100 && level > 0x200 ==> m == LineError(lineno, LEVEL_TOO_BIG)
    ensures t == SpriteList && id < 0x100 && level <= 0x200 ==> m == LineError(lineno, ONLY_B0_BF)
    ensures t != SpriteList ==> m == LineError(lineno, NON_SPRITE_TOO_BIG)
  {
    if t == SpriteList then
      if id >= 0x100 then LineError(lineno, NUMBER_TOO_BIG)
      else if level > 0x200 then LineError(lineno, LEVEL_TOO_BIG)
      else LineError(lineno, ONLY_B0_BF)
    else LineError(lineno, NON_SPRITE_TOO_BIG)
  }

  /**
   * As written, a per-level line for number 50 on level 105 reaches the
   * dummy and none of the three tests fires: the line is taken without
   * complaint and filled into the dummy.
   */
  lemma InvalidEntryAbsorbedAsWritten()
    ensures FromTableAsWritten(SpriteList, 0x105, 0x50, true) == Dummy
    ensures InvalidEntryErrorAsWritten(SpriteList, 0x105, 0x50, 1) == None
    ensures FromTable(SpriteList, 0x105, 0x50, true) == Dummy
  {
  }

  /** Two's complement reading of a `uint32_t` as `int`. */
  lemma Int32OfU32(x: nat)
    requires x < U32
    ensures x <= INT_MAX ==> ToInt32(x) == x
    ensures x > INT_MAX ==> ToInt32(x) < 0
  {
  }

  /**
   * The per-level lookup of a line's 32-bit level and number reaches the
   * dummy exactly when the number is 0x100 or more, the level is above
   * 0x200, or the number is outside B0-BF on a level other than 0x200:
   * the three causes the messages name.
   */
  lemma PerLevelDummyCauses(level: nat, id: nat)
    requires level < U32 && id < U32
    ensures FromTable(SpriteList, ToInt32(level), ToInt32(id), true) == Dummy <==>
      id >= 0x100 || level > 0x200 || (level != 0x200 && !(0xB0 <= id < 0xC0))
  {
    Int32OfU32(level);
    Int32OfU32(id);
  }

  /** Without per-level tables, and for the other lists, the dummy means the number is past the table. */
  lemma PlainDummyCauses(t: ListType, level: nat, id: nat, perLevel: bool)
    requires level < U32 && id < U32 && (t != SpriteList || !perLevel)
    ensures FromTable(t, ToInt32(level), ToInt32(id), perLevel) == Dummy <==> id >= TableSize(t, perLevel)
  {
    Int32OfU32(id);
  }

  // ---------------------------------------------------------------- the tables

  /** The four vectors, in the order of `sprites_list` (the member `sprites_list`). */
  datatype Tables = Tables(normal: seq<Sprite>, cluster: seq<Sprite>, extended: seq<Sprite>, ow: seq<Sprite>)
  {
    /**
     * `get(t)`: `sprites_list[FromEnum(t)]`. Because `ListType` lists
     * Extended before Cluster, an EXTENDED: section fills the cluster vector
     * and a CLUSTER: section the extended one.
     */
    function Get(t: ListType): (r: seq<Sprite>)
      ensures t == SpriteList ==> r == normal
      ensures t == ExtendedList ==> r == cluster
      ensures t == ClusterList ==> r == extended
      ensures t == OverworldList ==> r == ow
    {
      [normal, cluster, extended, ow][ListIndex(t)]
    }

    /** `operator[](int)`: callers keep the index below `ListType::SIZE`, as the assertion demands. */
    function At(index: int): (r: seq<Sprite>)
      requires 0 <= index < LIST_TYPE_SIZE
      ensures exists t :: ListIndex(t) == index && r == Get(t)
    {
      var t := [SpriteList, ExtendedList, ClusterList, OverworldList][index];
      assert ListIndex(t) == index;
      Get(t)
    }

    /** Assignment through `get(t)`. */
    function With(t: ListType, v: seq<Sprite>): (r: Tables)
      ensures r.Get(t) == v && forall u :: u != t ==> r.Get(u) == Get(u)
    {
      match t
      case SpriteList => this.(normal := v)
      case ExtendedList => this.(cluster := v)
      case ClusterList => this.(extended := v)
      case OverworldList => this.(ow := v)
    }
  }

  /**
   * What every slot keeps while the list is read: its row has its sizes,
   * an unused slot (line 0) has no extra bytes, and a normal number B0-BF
   * below level 0x200 has a level that is not negative.
   */
  predicate SlotOk(s: Sprite) {
    && s.Valid()
    && (s.line == 0 ==> s.byteCount == 0 && s.extraByteCount == 0)
    && (s.level < 0x200 && 0xB0 <= s.number < 0xC0 ==> 0 <= s.level)
  }

  predicate SlotsOk(ss: seq<Sprite>) {
    forall i :: 0 <= i < |ss| ==> SlotOk(ss[i])
  }

  /** The sizes the constructor gives, and every slot in order. */
  predicate TablesValid(tabs: Tables, perLevel: bool) {
    && |tabs.normal| == TableSize(SpriteList, perLevel)
    && |tabs.cluster| == SPRITE_COUNT && |tabs.extended| == SPRITE_COUNT && |tabs.ow| == 0
    && SlotsOk(tabs.normal) && SlotsOk(tabs.cluster) && SlotsOk(tabs.extended)
  }

  /** Every list a section can select has the size `from_table` bounds its numbers by. */
  lemma TablesValidGet(tabs: Tables, perLevel: bool, t: ListType)
    requires TablesValid(tabs, perLevel)
    ensures |tabs.Get(t)| == TableSize(t, perLevel) && SlotsOk(tabs.Get(t))
  {
  }

  /** The `SpritesData` constructor: `perLevel` ? 0x2100 : 0x100 normal sprites, 0x80 cluster and extended ones, no overworld ones. */
  function InitialTables(perLevel: bool): (tabs: Tables)
    ensures TablesValid(tabs, perLevel)
    ensures forall t, i :: 0 <= i < |tabs.Get(t)| ==> tabs.Get(t)[i] == NewSprite()
  {
    var n := TableSize(SpriteList, perLevel);
    Tables(seq(n, _ => NewSprite()), seq(SPRITE_COUNT, _ => NewSprite()), seq(SPRITE_COUNT, _ => NewSprite()), [])
  }

  // ---------------------------------------------------------------- one entry

  /**
   * `populate`: the directory of an entry. For cluster and extended
   * lists the index `FromEnum(PathType::Extended) - 1 + FromEnum(type)`
   * selects the list's own directory; normal numbers below C0 are sprites,
   * C0-CF shooters, the rest generators.
   */
  function Directory(paths: Config.Paths, t: ListType, id: nat): (d: string)
    ensures t == ExtendedList ==> d == paths.extended
    ensures t == ClusterList ==> d == paths.cluster
    ensures t == SpriteList ==> d == (if id < 0xC0 then paths.sprites else if id < 0xD0 then paths.shooters else paths.generators)
  {
    if t != SpriteList then paths.AtIndex(Config.PathIndex(Config.Extended) - 1 + ListIndex(t))
    else if id < 0xC0 then paths.At(Config.Sprites)
    else if id < 0xD0 then paths.At(Config.Shooters)
    else paths.At(Config.Generators)
  }

  /** The changed tables and the warnings the sprite's reader gave. */
  datatype Loaded = Loaded(tables: Tables, warnings: seq<string>)

  /** A 24-bit address survives `Pointer(size_t)` unchanged. */
  lemma SmallAddress(x: int)
    ensures 0 <= x < 0x100_0000 ==> PointerOf(ToSizeT(x)).Addr() == x as SizeT
  {
    if 0 <= x < 0x100_0000 {
      SmallSize(x);
      MaskLow24(x as SizeT);
    }
  }

  lemma SmallSize(x: int)
    requires 0 <= x < 0x100_0000
    ensures x as SizeT < 0x100_0000
  {
  }

  lemma MaskLow24(b: SizeT)
    requires b < 0x100_0000
    ensures b & 0xFF_FFFF == b
  {
  }

  /** `populate`: a sprite of type 0 runs the game's own routines for its number. */
  function WithDefaultRoutines(s: Sprite): (r: Sprite)
    ensures r.table.kind == 0 && 0 <= s.number < 0x100 ==>
      r.table.init.Addr() == (INIT_PTR + 2 * s.number) as SizeT && r.table.main.Addr() == (MAIN_PTR + 2 * s.number) as SizeT
    ensures r.table.kind != 0 ==> r == s
    ensures r.(table := s.table) == s && r.table.(init := s.table.init, main := s.table.main) == s.table
  {
    if s.table.kind == 0 then
      var init := PointerOf(ToSizeT(INIT_PTR + 2 * s.number));
      var main := PointerOf(ToSizeT(MAIN_PTR + 2 * s.number));
      SmallAddress(INIT_PTR + 2 * s.number);
      SmallAddress(MAIN_PTR + 2 * s.number);
      s.(table := s.table.(init := init, main := main))
    else s
  }

  /** The sprites `parse` is called on: a row of the right sizes and no extra bytes yet. */
  predicate ParseReady(s: Sprite) {
    s.Valid() && s.byteCount == 0 && s.extraByteCount == 0
  }

  /**
   * What `populate` needs of `Sprite::parse`: it accepts every sprite fresh
   * from the table, and what it returns keeps the row sizes and the members
   * `populate` set before calling it.
   */
  ghost predicate ReaderOk(read: Sprite --> Result<Parsed>) {
    forall s :: ParseReady(s) ==> read.requires(s) && (read(s).Ok? ==> read(s).value.spr.Valid() && SamePlace(read(s).value.spr, s))
  }

  /** The JSON documents have the six tweak bytes the bit-field structs produce. */
  predicate JsonValid(jsonFiles: map<string, JsonSprite>) {
    forall name :: name in jsonFiles ==> |jsonFiles[name].tweak| == 6
  }

  /** The lines of a CFG file; one that cannot be opened reads as no lines. */
  function CfgLines(cfgFiles: map<string, seq<string>>, name: string): seq<string> {
    if name in cfgFiles then cfgFiles[name] else []
  }

  function JsonOf(jsonFiles: map<string, JsonSprite>, name: string): (j: Option<JsonSprite>)
    requires JsonValid(jsonFiles)
    ensures j.Some? ==> |j.value.tweak| == 6
  {
    if name in jsonFiles then Some(jsonFiles[name]) else None
  }

  /** `spr.parse(cfg)` reading the sprite's CFG lines or its decoded JSON document by the file name. */
  function FileReader(cfgFiles: map<string, seq<string>>, jsonFiles: map<string, JsonSprite>): (read: Sprite --> Result<Parsed>)
    requires JsonValid(jsonFiles)
  {
    s requires ParseReady(s) => ParseOf(s, CfgLines(cfgFiles, s.cfgFile), JsonOf(jsonFiles, s.cfgFile))
  }

  /** The file reader meets what `populate` needs of `parse`. */
  lemma FileReaderOk(cfgFiles: map<string, seq<string>>, jsonFiles: map<string, JsonSprite>)
    requires JsonValid(jsonFiles)
    ensures ReaderOk(FileReader(cfgFiles, jsonFiles))
  {
    var read := FileReader(cfgFiles, jsonFiles);
    forall s | ParseReady(s)
      ensures read.requires(s) && (read(s).Ok? ==> read(s).value.spr.Valid() && SamePlace(read(s).value.spr, s))
    {
      assert read(s) == ParseOf(s, CfgLines(cfgFiles, s.cfgFile), JsonOf(jsonFiles, s.cfgFile));
    }
  }

  /** The inputs `populate` reads besides the list: the `-pl` option, the directories and the sprite reader. */
  datatype Sources = Sources(perLevel: bool, paths: Config.Paths, read: Sprite --> Result<Parsed>)
  {
    ghost predicate Valid() { ReaderOk(read) }
  }

  /** `populate`: the members `populate` sets before reading the sprite's files. */
  function Placed(s: Sprite, t: ListType, level: nat, id: nat, lineno: nat, paths: Config.Paths): (r: Sprite)
    ensures r.Valid() == s.Valid()
  {
    s.(line := lineno, level := ToInt32(level), number := ToInt32(id), spriteType := ListIndex(t),
       directory := Directory(paths, t, id))
  }

  function AlreadyUsed(lineno: nat, id: nat): string {
    LineError(lineno, "Sprite number " + CLib.HexString(id) + " already used")
  }

  const NOT_ASM: string := "not an asm file"

  /**
   * `populate`: a cluster or extended entry names its routine, which
   * must have extension asm or ASM; a normal entry names its CFG or JSON
   * file, which `parse` reads.
   */
  function ReadEntry(placed: Sprite, t: ListType, cfgName: string, ext: string, lineno: nat, src: Sources): (r: Result<Parsed>)
    requires ParseReady(placed) && src.Valid()
    ensures r.Ok? ==> r.value.spr.Valid() && SamePlace(r.value.spr, placed)
    ensures t != SpriteList ==>
      r == (if ext == "asm" || ext == "ASM" then Ok(ParsedSprite(placed.(asmFile := placed.directory + cfgName), []))
            else Err(PixiError(LineError(lineno, NOT_ASM))))
  {
    var full := placed.directory + cfgName;
    if t != SpriteList then
      if ext != "asm" && ext != "ASM" then Err(PixiError(LineError(lineno, NOT_ASM)))
      else Ok(ParsedSprite(placed.(asmFile := full), []))
    else
      src.read(placed.(cfgFile := full))
  }

  /**
   * `populate` on a free slot: record where the entry came from, read
   * its files and give a type-0 sprite its default routines.
   */
  function FillSlot(slot: Sprite, t: ListType, level: nat, id: nat, cfgName: string, ext: string,
                    lineno: nat, src: Sources): (r: Result<Parsed>)
    requires ParseReady(slot) && src.Valid()
    ensures r.Ok? ==> var s := r.value.spr;
      && s.Valid() && s.line == lineno && s.level == ToInt32(level) && s.number == ToInt32(id)
      && s.spriteType == ListIndex(t) && s.invalid == slot.invalid
  {
    var placed := Placed(slot, t, level, id, lineno, src.paths);
    var read :- ReadEntry(placed, t, cfgName, ext, lineno, src);
    Ok(ParsedSprite(WithDefaultRoutines(read.spr), read.warnings))
  }

  /**
   * `populate`: a cluster or extended entry has an asm routine in its
   * list's directory and gives no warning; a type-0 sprite numbered n gets
   * the routines at 0x01817D + 2n and 0x0185CC + 2n.
   */
  lemma FillSlotRoutines(slot: Sprite, t: ListType, level: nat, id: nat, cfgName: string, ext: string,
                         lineno: nat, src: Sources)
    requires ParseReady(slot) && src.Valid() && id < U32
    requires FillSlot(slot, t, level, id, cfgName, ext, lineno, src).Ok?
    ensures var r := FillSlot(slot, t, level, id, cfgName, ext, lineno, src).value; var s := r.spr;
      && (t != SpriteList ==>
            && (ext == "asm" || ext == "ASM") && s.asmFile == Directory(src.paths, t, id) + cfgName && r.warnings == [])
      && (s.table.kind == 0 && 0 <= s.number < 0x100 ==>
            && s.table.init.Addr() == (INIT_PTR + 2 * s.number) as SizeT
            && s.table.main.Addr() == (MAIN_PTR + 2 * s.number) as SizeT)
  {
    var placed := Placed(slot, t, level, id, lineno, src.paths);
    var read := ReadEntry(placed, t, cfgName, ext, lineno, src).value;
    assert FillSlot(slot, t, level, id, cfgName, ext, lineno, src).value.spr == WithDefaultRoutines(read.spr);
  }

  /** Writing into a free slot keeps every used one. */
  lemma WithKeepsUsedSlots(tabs: Tables, t: ListType, i: nat, s: Sprite)
    requires i < |tabs.Get(t)| && tabs.Get(t)[i].line == 0
    ensures KeepsUsedSlots(tabs, tabs.With(t, tabs.Get(t)[i := s]))
  {
  }

  /** Slots holding a line number are the same in `b` as in `a`. */
  predicate KeepsUsedSlots(a: Tables, b: Tables) {
    forall u, i :: 0 <= i < |a.Get(u)| && a.Get(u)[i].line != 0 ==> i < |b.Get(u)| && b.Get(u)[i] == a.Get(u)[i]
  }

  /**
   * `populate` for one entry: find its slot, refuse a slot another line
   * already filled, and fill the free one. Only that slot changes.
   */
  function EntryStep(tabs: Tables, t: ListType, level: nat, id: nat, cfgName: string, ext: string,
                     lineno: nat, src: Sources): (r: Result<Loaded>)
    requires TablesValid(tabs, src.perLevel) && t != OverworldList && src.Valid() && lineno >= 1
    requires level < U32 && id < U32 && (!src.perLevel ==> level == 0x200)
    ensures r.Ok? ==> TablesValid(r.value.tables, src.perLevel) && KeepsUsedSlots(tabs, r.value.tables)
  {
    TablesValidGet(tabs, src.perLevel, t);
    var sprites := tabs.Get(t);
    match FromTable(t, ToInt32(level), ToInt32(id), src.perLevel)
    case Dummy => Err(PixiError(InvalidEntryError(t, level, id, lineno)))
    case Index(i) =>
      if sprites[i].line != 0 then Err(PixiError(AlreadyUsed(lineno, id)))
      else
        var read :- FillSlot(sprites[i], t, level, id, cfgName, ext, lineno, src);
        LevelOfPlacedSlot(t, level, id, src.perLevel);
        WithKeepsUsedSlots(tabs, t, i, read.spr);
        var v := sprites[i := read.spr];
        assert SlotsOk(v);
        Ok(Loaded(tabs.With(t, v), read.warnings))
  }

  /** A slot `from_table` hands out holds a number below 0x100, and a level that is not negative where the allocator needs one. */
  lemma LevelOfPlacedSlot(t: ListType, level: nat, id: nat, perLevel: bool)
    requires level < U32 && id < U32 && (!perLevel ==> level == 0x200)
    requires FromTable(t, ToInt32(level), ToInt32(id), perLevel).Index?
    ensures ToInt32(level) < 0x200 && 0xB0 <= ToInt32(id) < 0xC0 ==> 0 <= ToInt32(level)
    ensures 0 <= ToInt32(id) < 0x100
  {
    Int32OfU32(level);
    Int32OfU32(id);
  }

  /**
   * `populate`: an entry whose lookup reaches the dummy is fatal with the
   * message for its cause, and one whose slot another line filled is fatal
   * as "already used". Otherwise the slot is filled and nothing else
   * changes.
   */
  lemma EntryStepCases(tabs: Tables, t: ListType, level: nat, id: nat, cfgName: string, ext: string,
                       lineno: nat, src: Sources)
    requires TablesValid(tabs, src.perLevel) && t != OverworldList && src.Valid() && lineno >= 1
    requires level < U32 && id < U32 && (!src.perLevel ==> level == 0x200)
    ensures var slot := FromTable(t, ToInt32(level), ToInt32(id), src.perLevel);
      var r := EntryStep(tabs, t, level, id, cfgName, ext, lineno, src);
      && (slot.Dummy? ==> r == Err(PixiError(InvalidEntryError(t, level, id, lineno))))
      && (slot.Index? && tabs.Get(t)[slot.i].line != 0 ==> r == Err(PixiError(AlreadyUsed(lineno, id))))
      && (slot.Index? && tabs.Get(t)[slot.i].line == 0 ==>
            var f := FillSlot(tabs.Get(t)[slot.i], t, level, id, cfgName, ext, lineno, src);
            && (r.Ok? <==> f.Ok?)
            && (r.Ok? ==> r.value == Loaded(tabs.With(t, tabs.Get(t)[slot.i := f.value.spr]), f.value.warnings)))
  {
    TablesValidGet(tabs, src.perLevel, t);
  }

  // ---------------------------------------------------------------- populate


  /** What a parsed line promises: 32-bit numbers, level 0x200 without `-pl`, and one of the three lists. */
  predicate LineOk(l: ListLine, perLevel: bool) {
    && (l.Section? ==> l.list != OverworldList)
    && (l.Entry? ==> l.level < U32 && l.id < U32 && (!perLevel ==> l.level == 0x200))
  }

  /** Each line of the list file, parsed with its line number. */
  function ParsedLines(lines: seq<string>, perLevel: bool): (ps: seq<Result<ListLine>>)
    ensures |ps| == |lines|
    ensures forall k :: 0 <= k < |ps| ==> ps[k] == ParseListLine(lines[k], k + 1, perLevel)
    ensures LinesOk(ps, perLevel)
  {
    EveryLineOk(lines, perLevel);
    seq(|lines|, k requires 0 <= k < |lines| => ParseListLine(lines[k], k + 1, perLevel))
  }

  /** Every line of the list that parses yields a well-formed entry. */
  lemma EveryLineOk(lines: seq<string>, perLevel: bool)
    ensures forall k :: 0 <= k < |lines| && ParseListLine(lines[k], k + 1, perLevel).Ok? ==> LineOk(ParseListLine(lines[k], k + 1, perLevel).value, perLevel)
  {
    forall k | 0 <= k < |lines| && ParseListLine(lines[k], k + 1, perLevel).Ok?
      ensures LineOk(ParseListLine(lines[k], k + 1, perLevel).value, perLevel)
    {
      ParsedLineOk(lines[k], k + 1, perLevel);
    }
  }

  /** A line that parses yields an entry that keeps the line invariants. */
  lemma ParsedLineOk(raw: string, lineno: nat, perLevel: bool)
    ensures var r := ParseListLine(raw, lineno, perLevel); r.Ok? ==> LineOk(r.value, perLevel)
  {
  }

  predicate LinesOk(ps: seq<Result<ListLine>>, perLevel: bool) {
    forall k :: 0 <= k < |ps| && ps[k].Ok? ==> LineOk(ps[k].value, perLevel)
  }

  /**
   * One turn of `populate`'s line loop, for the line numbered `lineno`, as parsed: a blank line
   * changes nothing, a section header selects the list later entries go
   * to, an entry fills its slot and adds its reader's warnings.
   */
  function LineStep(st: Loaded, t: ListType, line: Result<ListLine>, lineno: nat, src: Sources): (r: Result<(Loaded, ListType)>)
    requires TablesValid(st.tables, src.perLevel) && t != OverworldList && src.Valid() && lineno >= 1
    requires line.Ok? ==> LineOk(line.value, src.perLevel)
    ensures r.Ok? ==> TablesValid(r.value.0.tables, src.perLevel) && r.value.1 != OverworldList
    ensures r.Ok? ==> st.warnings <= r.value.0.warnings && KeepsUsedSlots(st.tables, r.value.0.tables)
  {
    var l :- line;
    match l
    case Blank => Ok((st, t))
    case Section(u) => Ok((st, u))
    case Entry(level, id, cfgName, ext) =>
      var e :- EntryStep(st.tables, t, level, id, cfgName, ext, lineno, src);
      TablesValidGet(st.tables, src.perLevel, t);
      Ok((Loaded(e.tables, st.warnings + e.warnings), t))
  }

  /**
   * The line loop of `populate` from line `k` on: the lines in order, the list selected by
   * the last section header, the readers' warnings gathered in order. The
   * first fatal line ends the run.
   */
  function PopulateFrom(st: Loaded, t: ListType, lines: seq<Result<ListLine>>, k: nat, src: Sources): (r: Result<Loaded>)
    requires k <= |lines| && LinesOk(lines, src.perLevel)
    requires TablesValid(st.tables, src.perLevel) && t != OverworldList && src.Valid()
    ensures r.Ok? ==> TablesValid(r.value.tables, src.perLevel) && st.warnings <= r.value.warnings
    decreases |lines| - k
  {
    if k == |lines| then Ok(st)
    else
      var (next, u) :- LineStep(st, t, lines[k], k + 1, src);
      PopulateFrom(next, u, lines, k + 1, src)
  }

  /** `populate(cfg)` on a list file's lines, starting from the constructor's tables in the SPRITE: section. */
  function Populated(lines: seq<string>, src: Sources): (r: Result<Loaded>)
    requires src.Valid()
    ensures r.Ok? ==> TablesValid(r.value.tables, src.perLevel)
  {
    PopulateFrom(Loaded(InitialTables(src.perLevel), []), SpriteList, ParsedLines(lines, src.perLevel), 0, src)
  }

  /** A slot holding a line number is never written again: each entry of the tables comes from one list line. */
  lemma {:induction false} PopulateNeverOverwrites(st: Loaded, t: ListType, lines: seq<Result<ListLine>>, k: nat, src: Sources)
    requires k <= |lines| && LinesOk(lines, src.perLevel)
    requires TablesValid(st.tables, src.perLevel) && t != OverworldList && src.Valid()
    requires PopulateFrom(st, t, lines, k, src).Ok?
    ensures KeepsUsedSlots(st.tables, PopulateFrom(st, t, lines, k, src).value.tables)
    decreases |lines| - k
  {
    if k < |lines| {
      var (next, u) := LineStep(st, t, lines[k], k + 1, src).value;
      PopulateNeverOverwrites(next, u, lines, k + 1, src);
    }
  }

  // ---------------------------------------------------------------- patch

  /**
   * What `Rom::patch` leaves in a sprite once the assembler has run: its
   * init and main routines, its cape routine and its five status routines.
   */
  datatype Routines = Routines(init: Pointer, main: Pointer, cape: Pointer,
                               carriable: Pointer, kicked: Pointer, carried: Pointer, mouth: Pointer, goal: Pointer)

  /** The routines a sprite holds. */
  function RoutinesOf(s: Sprite): Routines
    requires s.ptrs.Valid()
  {
    var p := s.ptrs.pointers;
    Routines(s.table.init, s.table.main, s.extendedCapePtr, p[0], p[1], p[2], p[3], p[4])
  }

  /** The sprite with its routines replaced and every other member kept. */
  function WithRoutines(s: Sprite, r: Routines): (t: Sprite)
    ensures s.Valid() ==> t.Valid() && RoutinesOf(t) == r
    ensures SamePlace(t, s) && t.asmFile == s.asmFile && t.byteCount == s.byteCount && t.extraByteCount == s.extraByteCount
  {
    s.(table := s.table.(init := r.init, main := r.main), extendedCapePtr := r.cape,
       ptrs := StatusPointers([r.carriable, r.kicked, r.carried, r.mouth, r.goal]))
  }

  /**
   * `patch_sprites`: the nearest entry before `i` whose asm file is not empty
   * and equals `name`; the search runs from `i - 1` down to 0.
   */
  function LastWith(sprites: seq<Sprite>, name: string, i: nat): (r: Option<nat>)
    requires i <= |sprites|
    ensures r.Some? ==> r.value < i && sprites[r.value].asmFile == name && name != []
    ensures r.Some? ==> forall k :: r.value < k < i ==> sprites[k].asmFile != name
    ensures r.None? ==> forall k :: 0 <= k < i && sprites[k].asmFile != [] ==> sprites[k].asmFile != name
    decreases i
  {
    if i == 0 then None
    else if sprites[i - 1].asmFile != [] && sprites[i - 1].asmFile == name then Some(i - 1)
    else LastWith(sprites, name, i - 1)
  }

  /** The search reads the asm files of the entries before `i` and nothing else. */
  lemma {:induction false} LastWithReadsNames(a: seq<Sprite>, b: seq<Sprite>, name: string, i: nat)
    requires i <= |a| && i <= |b|
    requires forall k :: 0 <= k < i ==> a[k].asmFile == b[k].asmFile
    ensures LastWith(a, name, i) == LastWith(b, name, i)
    decreases i
  {
    if i > 0 {
      LastWithReadsNames(a, b, name, i - 1);
    }
  }

  /** Replacing an entry by one naming the same asm file changes no search. */
  lemma LastWithAfterUpdate(s: seq<Sprite>, i: nat, t: Sprite, name: string, n: nat)
    requires i < |s| && n <= |s| && t.asmFile == s[i].asmFile
    ensures LastWith(s[i := t], name, n) == LastWith(s, name, n)
  {
    LastWithReadsNames(s[i := t], s, name, n);
  }

  /** The first entry naming the same asm file as entry `j`, when `j` names one. */
  function FirstWith(sprites: seq<Sprite>, j: nat): (f: nat)
    requires j < |sprites|
    ensures f <= j && sprites[f].asmFile == sprites[j].asmFile
    ensures sprites[j].asmFile != [] ==> forall k :: 0 <= k < f ==> sprites[k].asmFile != sprites[j].asmFile
    decreases j
  {
    match LastWith(sprites, sprites[j].asmFile, j)
    case None => j
    case Some(k) => FirstWith(sprites, k)
  }

  /** `patch_sprites`: entries below level 0x200 numbered B0-BF have a per-level entry. */
  predicate PerLevelEntry(s: Sprite) {
    s.level < 0x200 && 0xB0 <= s.number < 0xC0
  }

  /** `patch_sprites`: a per-level entry is allocated; any other one needs nothing. */
  function AllocateIfPerLevel(st: PerLevel.PlsState, s: Sprite): (r: Result<PerLevel.PlsState>)
    requires st.Valid() && SlotOk(s)
    ensures r.Ok? ==> r.value.Valid() && r.value.dataAddr == st.dataAddr + (if PerLevelEntry(s) then PerLevel.ENTRY_SIZE else 0)
    ensures r.Err? <==> PerLevelEntry(s) && st.dataAddr >= PerLevel.DATA_SIZE
    ensures r.Err? ==> r.fault == PixiError(PerLevel.TOO_MANY_PER_LEVEL)
  {
    if PerLevelEntry(s) then
      PerLevel.AllocateFailsOnlyWhenFull(st, s);
      if st.dataAddr >= PerLevel.DATA_SIZE then PerLevel.AllocateSpec(st, s)
      else
        PerLevel.AllocateKeepsLevels(st, s);
        PerLevel.AllocateSpec(st, s)
    else Ok(st)
  }

  /**
   * `patch_sprites` as intended: entry `i` with the routines of the nearest
   * earlier entry naming the same asm file, or with the ones `Rom::patch`
   * assembles for it when there is none.
   */
  function PatchedEntry(sprites: seq<Sprite>, i: nat, assemble: Sprite -> Routines): (r: Sprite)
    requires i < |sprites| && SlotsOk(sprites)
    ensures SlotOk(r) && SamePlace(r, sprites[i]) && r.asmFile == sprites[i].asmFile
  {
    var routines := match LastWith(sprites, sprites[i].asmFile, i)
      case Some(k) => RoutinesOf(sprites[k])
      case None => assemble(sprites[i]);
    WithRoutines(sprites[i], routines)
  }

  /**
   * `patch_sprites` as evidently intended: each entry with an asm file is
   * patched, then a per-level entry is allocated, and the loop goes on to
   * the end of the table.
   */
  function PatchFrom(sprites: seq<Sprite>, st: PerLevel.PlsState, i: nat, assemble: Sprite -> Routines): (r: Result<(seq<Sprite>, PerLevel.PlsState)>)
    requires i <= |sprites| && SlotsOk(sprites) && st.Valid()
    ensures r.Ok? ==> |r.value.0| == |sprites| && SlotsOk(r.value.0) && r.value.1.Valid()
    ensures r.Err? ==> r.fault == PixiError(PerLevel.TOO_MANY_PER_LEVEL)
    decreases |sprites| - i, 1
  {
    if i == |sprites| then Ok((sprites, st)) else PatchAt(sprites, st, i, assemble)
  }

  /** One pass of the intended loop, at entry `i`, and the rest of the loop after it. */
  function PatchAt(sprites: seq<Sprite>, st: PerLevel.PlsState, i: nat, assemble: Sprite -> Routines): (r: Result<(seq<Sprite>, PerLevel.PlsState)>)
    requires i < |sprites| && SlotsOk(sprites) && st.Valid()
    ensures r.Ok? ==> |r.value.0| == |sprites| && SlotsOk(r.value.0) && r.value.1.Valid()
    ensures r.Err? ==> r.fault == PixiError(PerLevel.TOO_MANY_PER_LEVEL)
    decreases |sprites| - i, 0
  {
    if sprites[i].asmFile == [] then PatchFrom(sprites, st, i + 1, assemble)
    else
      var done := PatchedEntry(sprites, i, assemble);
      var next :- AllocateIfPerLevel(st, done);
      PatchFrom(sprites[i := done], next, i + 1, assemble)
  }

  /** Patching changes only the routines of an entry: its place in the table and its asm file stay. */
  lemma {:induction false} PatchKeepsPlaces(sprites: seq<Sprite>, st: PerLevel.PlsState, i: nat, assemble: Sprite -> Routines)
    requires i <= |sprites| && SlotsOk(sprites) && st.Valid()
    ensures var r := PatchFrom(sprites, st, i, assemble);
      r.Ok? ==> forall j :: 0 <= j < |sprites| ==> SamePlace(r.value.0[j], sprites[j]) && r.value.0[j].asmFile == sprites[j].asmFile
    decreases |sprites| - i
  {
    if i < |sprites| {
      assert PatchFrom(sprites, st, i, assemble) == PatchAt(sprites, st, i, assemble);
      if sprites[i].asmFile == [] {
        PatchKeepsPlaces(sprites, st, i + 1, assemble);
      } else {
        var done := PatchedEntry(sprites, i, assemble);
        var next := AllocateIfPerLevel(st, done);
        if next.Ok? {
          PatchKeepsPlaces(sprites[i := done], next.value, i + 1, assemble);
        }
      }
    }
  }

  /** `patch_sprites` as written: `init` is set twice, the second time to the earlier entry's `main`. */
  function CopiedAsWritten(s: Sprite, earlier: Sprite): (t: Sprite)
    ensures s.Valid() && earlier.Valid() ==> t.Valid()
    ensures SamePlace(t, s) && t.asmFile == s.asmFile && t.byteCount == s.byteCount && t.extraByteCount == s.extraByteCount
  {
    s.(table := s.table.(init := earlier.table.main), extendedCapePtr := earlier.extendedCapePtr, ptrs := earlier.ptrs)
  }

  /**
   * `patch_sprites` as written: at the first entry whose asm file an earlier
   * entry shares, the routines are copied and `break` ends the whole
   * loop, so that entry is not allocated and no later entry is assembled.
   */
  function PatchFromAsWritten(sprites: seq<Sprite>, st: PerLevel.PlsState, i: nat, assemble: Sprite -> Routines): (r: Result<(seq<Sprite>, PerLevel.PlsState)>)
    requires i <= |sprites| && SlotsOk(sprites) && st.Valid()
    ensures r.Ok? ==> |r.value.0| == |sprites| && SlotsOk(r.value.0) && r.value.1.Valid()
    decreases |sprites| - i, 1
  {
    if i == |sprites| then Ok((sprites, st)) else PatchAtAsWritten(sprites, st, i, assemble)
  }

  /** One pass of the loop as written, at entry `i`, and the rest of the loop after it. */
  function PatchAtAsWritten(sprites: seq<Sprite>, st: PerLevel.PlsState, i: nat, assemble: Sprite -> Routines): (r: Result<(seq<Sprite>, PerLevel.PlsState)>)
    requires i < |sprites| && SlotsOk(sprites) && st.Valid()
    ensures r.Ok? ==> |r.value.0| == |sprites| && SlotsOk(r.value.0) && r.value.1.Valid()
    decreases |sprites| - i, 0
  {
    if sprites[i].asmFile == [] then PatchFromAsWritten(sprites, st, i + 1, assemble)
    else match LastWith(sprites, sprites[i].asmFile, i)
      case Some(k) => Ok((sprites[i := CopiedAsWritten(sprites[i], sprites[k])], st))
      case None =>
        var done := WithRoutines(sprites[i], assemble(sprites[i]));
        var next :- AllocateIfPerLevel(st, done);
        PatchFromAsWritten(sprites[i := done], next, i + 1, assemble)
  }

  /** Entries with an asm file, in the order `patch_sprites` meets them, that have a per-level entry. */
  function PerLevelCount(s: seq<Sprite>): (n: nat)
    ensures n <= |s|
  {
    if s == [] then 0
    else (if s[0].asmFile != [] && PerLevelEntry(s[0]) then 1 else 0) + PerLevelCount(s[1..])
  }

  /** What patching should leave in entry `j`: the routines built for the first entry naming its asm file, or nothing new. */
  function Expected(sprites: seq<Sprite>, j: nat, assemble: Sprite -> Routines): (r: Sprite)
    requires j < |sprites|
    ensures SlotOk(sprites[j]) ==> SlotOk(r)
    ensures SamePlace(r, sprites[j]) && r.asmFile == sprites[j].asmFile
  {
    if sprites[j].asmFile == [] then sprites[j]
    else WithRoutines(sprites[j], assemble(sprites[FirstWith(sprites, j)]))
  }

  /** The table once entries before `i` are patched as intended. */
  function PatchedUpTo(sprites: seq<Sprite>, i: nat, assemble: Sprite -> Routines): (r: seq<Sprite>)
    requires i <= |sprites|
    ensures |r| == |sprites|
  {
    seq(|sprites|, j requires 0 <= j < |sprites| => if j < i then Expected(sprites, j, assemble) else sprites[j])
  }

  lemma PatchedUpToOk(sprites: seq<Sprite>, i: nat, assemble: Sprite -> Routines)
    requires i <= |sprites| && SlotsOk(sprites)
    ensures SlotsOk(PatchedUpTo(sprites, i, assemble))
  {
    var r := PatchedUpTo(sprites, i, assemble);
    forall j | 0 <= j < |r|
      ensures SlotOk(r[j])
    {
      assert SlotOk(sprites[j]);
    }
  }

  /** Patching keeps every asm file, so searches in the patched table find what they find in the list. */
  lemma PatchedUpToSearch(sprites: seq<Sprite>, i: nat, assemble: Sprite -> Routines, name: string, n: nat)
    requires i <= |sprites| && n <= |sprites|
    ensures LastWith(PatchedUpTo(sprites, i, assemble), name, n) == LastWith(sprites, name, n)
  {
    var cur := PatchedUpTo(sprites, i, assemble);
    assert forall k :: 0 <= k < n ==> cur[k].asmFile == sprites[k].asmFile;
    LastWithReadsNames(cur, sprites, name, n);
  }

  /** Step `i` of the intended loop moves the patched prefix by one entry. */
  lemma PatchedUpToStep(sprites: seq<Sprite>, i: nat, assemble: Sprite -> Routines)
    requires i < |sprites| && SlotsOk(sprites)
    ensures SlotsOk(PatchedUpTo(sprites, i, assemble)) && SlotsOk(PatchedUpTo(sprites, i + 1, assemble))
    ensures var cur := PatchedUpTo(sprites, i, assemble);
      && cur[i] == sprites[i]
      && cur[i := Expected(sprites, i, assemble)] == PatchedUpTo(sprites, i + 1, assemble)
  {
    PatchedUpToOk(sprites, i, assemble);
    PatchedUpToOk(sprites, i + 1, assemble);
  }

  /** The entry patched at step `i` of the intended loop is the expected one. */
  lemma PatchedEntryExpected(sprites: seq<Sprite>, i: nat, assemble: Sprite -> Routines)
    requires i < |sprites| && SlotsOk(sprites) && sprites[i].asmFile != []
    requires SlotsOk(PatchedUpTo(sprites, i, assemble))
    ensures PatchedEntry(PatchedUpTo(sprites, i, assemble), i, assemble) == Expected(sprites, i, assemble)
  {
    var cur := PatchedUpTo(sprites, i, assemble);
    var name := sprites[i].asmFile;
    PatchedUpToSearch(sprites, i, assemble, name, i);
    match LastWith(sprites, name, i)
    case Some(k) =>
      assert cur[k] == WithRoutines(sprites[k], assemble(sprites[FirstWith(sprites, k)]));
    case None =>
  }

  lemma {:induction false} PatchSharesRoutinesFrom(sprites: seq<Sprite>, st: PerLevel.PlsState, i: nat, assemble: Sprite -> Routines)
    requires i <= |sprites| && SlotsOk(sprites) && st.Valid() && SlotsOk(PatchedUpTo(sprites, i, assemble))
    requires PatchFrom(PatchedUpTo(sprites, i, assemble), st, i, assemble).Ok?
    ensures PatchFrom(PatchedUpTo(sprites, i, assemble), st, i, assemble).value.0 == PatchedUpTo(sprites, |sprites|, assemble)
    decreases |sprites| - i
  {
    if i < |sprites| {
      PatchedUpToStep(sprites, i, assemble);
      var cur := PatchedUpTo(sprites, i, assemble);
      assert PatchFrom(cur, st, i, assemble) == PatchAt(cur, st, i, assemble);
      if sprites[i].asmFile == [] {
        assert PatchFrom(cur, st, i, assemble) == PatchFrom(cur, st, i + 1, assemble);
        assert cur == PatchedUpTo(sprites, i + 1, assemble);
        PatchSharesRoutinesFrom(sprites, st, i + 1, assemble);
      } else {
        PatchedEntryExpected(sprites, i, assemble);
        var next := AllocateIfPerLevel(st, Expected(sprites, i, assemble)).value;
        assert PatchFrom(cur, st, i, assemble) == PatchFrom(PatchedUpTo(sprites, i + 1, assemble), next, i + 1, assemble);
        PatchSharesRoutinesFrom(sprites, next, i + 1, assemble);
      }
    }
  }

  /**
   * `patch_sprites` as intended: every entry with an asm file ends up with the
   * routines assembled for the first entry naming that file, every other
   * entry is unchanged, and the assembler sees each first entry as the list
   * left it.
   */
  lemma PatchSharesRoutines(sprites: seq<Sprite>, st: PerLevel.PlsState, assemble: Sprite -> Routines)
    requires SlotsOk(sprites) && st.Valid()
    requires PatchFrom(sprites, st, 0, assemble).Ok?
    ensures forall j :: 0 <= j < |sprites| ==> PatchFrom(sprites, st, 0, assemble).value.0[j] == Expected(sprites, j, assemble)
  {
    assert PatchedUpTo(sprites, 0, assemble) == sprites;
    PatchSharesRoutinesFrom(sprites, st, 0, assemble);
  }

  lemma {:induction false} PatchAllocatesFrom(cur: seq<Sprite>, st: PerLevel.PlsState, i: nat, assemble: Sprite -> Routines)
    requires i <= |cur| && SlotsOk(cur) && st.Valid()
    ensures var r := PatchFrom(cur, st, i, assemble);
      && (r.Ok? <==> st.dataAddr + PerLevel.ENTRY_SIZE * PerLevelCount(cur[i..]) <= PerLevel.DATA_SIZE)
      && (r.Ok? ==> r.value.1.dataAddr == st.dataAddr + PerLevel.ENTRY_SIZE * PerLevelCount(cur[i..]))
    decreases |cur| - i, 1
  {
    if i < |cur| {
      PatchAllocatesAt(cur, st, i, assemble);
    }
  }

  /** The step of `PatchAllocatesFrom` at entry `i`. */
  lemma {:induction false} PatchAllocatesAt(cur: seq<Sprite>, st: PerLevel.PlsState, i: nat, assemble: Sprite -> Routines)
    requires i < |cur| && SlotsOk(cur) && st.Valid()
    ensures var r := PatchFrom(cur, st, i, assemble);
      && (r.Ok? <==> st.dataAddr + PerLevel.ENTRY_SIZE * PerLevelCount(cur[i..]) <= PerLevel.DATA_SIZE)
      && (r.Ok? ==> r.value.1.dataAddr == st.dataAddr + PerLevel.ENTRY_SIZE * PerLevelCount(cur[i..]))
    decreases |cur| - i, 0
  {
    assert cur[i..][1..] == cur[i + 1..];
    var n := PerLevelCount(cur[i + 1..]);
    assert PatchFrom(cur, st, i, assemble) == PatchAt(cur, st, i, assemble);
    if cur[i].asmFile == [] {
      assert PerLevelCount(cur[i..]) == n;
      PatchAllocatesFrom(cur, st, i + 1, assemble);
    } else {
      var done := PatchedEntry(cur, i, assemble);
      var a := AllocateIfPerLevel(st, done);
      var one := if PerLevelEntry(done) then 1 else 0;
      assert PerLevelEntry(done) == PerLevelEntry(cur[i]);
      assert PerLevelCount(cur[i..]) == one + n;
      if a.Ok? {
        var cur' := cur[i := done];
        assert cur'[i + 1..] == cur[i + 1..];
        assert a.value.dataAddr == st.dataAddr + PerLevel.ENTRY_SIZE * one;
        PatchAllocatesFrom(cur', a.value, i + 1, assemble);
        assert PatchFrom(cur, st, i, assemble) == PatchFrom(cur', a.value, i + 1, assemble);
      } else {
        assert PatchFrom(cur, st, i, assemble).Err?;
        assert st.dataAddr + PerLevel.ENTRY_SIZE * (one + n) > PerLevel.DATA_SIZE;
      }
    }
  }

  /**
   * The per-level allocation of `patch_sprites` over a whole table: patching succeeds exactly when the
   * per-level entries among the entries with an asm file fit in `data`,
   * and then moves `data_addr` by 0x10 for each of them.
   */
  lemma PatchAllocates(sprites: seq<Sprite>, st: PerLevel.PlsState, assemble: Sprite -> Routines)
    requires SlotsOk(sprites) && st.Valid()
    ensures var r := PatchFrom(sprites, st, 0, assemble);
      && (r.Ok? <==> st.dataAddr + PerLevel.ENTRY_SIZE * PerLevelCount(sprites) <= PerLevel.DATA_SIZE)
      && (r.Ok? ==> r.value.1.dataAddr == st.dataAddr + PerLevel.ENTRY_SIZE * PerLevelCount(sprites))
  {
    PatchAllocatesFrom(sprites, st, 0, assemble);
    assert sprites[0..] == sprites;
  }

  /** No entry from `i` up to `d` shares its asm file with an earlier entry. */
  predicate Unshared(s: seq<Sprite>, i: nat, d: nat)
    requires d <= |s|
  {
    forall j {:trigger LastWith(s, s[j].asmFile, j)} :: i <= j < d && s[j].asmFile != [] ==> LastWith(s, s[j].asmFile, j).None?
  }

  lemma PerLevelCountStep(s: seq<Sprite>, i: nat, d: nat)
    requires i < d <= |s|
    ensures PerLevelCount(s[i..d]) == (if s[i].asmFile != [] && PerLevelEntry(s[i]) then 1 else 0) + PerLevelCount(s[i + 1..d])
  {
    assert s[i..d][1..] == s[i + 1..d];
  }

  /** Without shared asm files, the code as written and as intended agree. */
  lemma {:induction false} PatchAsWrittenWithoutSharing(cur: seq<Sprite>, st: PerLevel.PlsState, i: nat, assemble: Sprite -> Routines)
    requires i <= |cur| && SlotsOk(cur) && st.Valid() && Unshared(cur, i, |cur|)
    ensures PatchFromAsWritten(cur, st, i, assemble) == PatchFrom(cur, st, i, assemble)
    decreases |cur| - i
  {
    if i < |cur| {
      assert PatchFromAsWritten(cur, st, i, assemble) == PatchAtAsWritten(cur, st, i, assemble);
      assert PatchFrom(cur, st, i, assemble) == PatchAt(cur, st, i, assemble);
    }
    if i < |cur| && cur[i].asmFile != [] {
      assert LastWith(cur, cur[i].asmFile, i).None?;
      var done := WithRoutines(cur[i], assemble(cur[i]));
      assert PatchedEntry(cur, i, assemble) == done;
      var a := AllocateIfPerLevel(st, done);
      if a.Ok? {
        var cur' := cur[i := done];
        forall j | i + 1 <= j < |cur| && cur'[j].asmFile != []
          ensures LastWith(cur', cur'[j].asmFile, j).None?
        {
          LastWithAfterUpdate(cur, i, done, cur'[j].asmFile, j);
        }
        PatchAsWrittenWithoutSharing(cur', a.value, i + 1, assemble);
      }
    } else if i < |cur| {
      PatchAsWrittenWithoutSharing(cur, st, i + 1, assemble);
    }
  }

  /** One step of the loop as written before the first shared asm file: the same step as intended. */
  lemma PatchAsWrittenStep(sprites: seq<Sprite>, st: PerLevel.PlsState, i: nat, d: nat, assemble: Sprite -> Routines)
    requires i < d <= |sprites| && SlotsOk(sprites) && st.Valid() && Unshared(sprites, 0, d)
    requires SlotsOk(PatchedUpTo(sprites, i, assemble))
    ensures SlotsOk(PatchedUpTo(sprites, i + 1, assemble)) && SlotOk(Expected(sprites, i, assemble))
    ensures var next := if sprites[i].asmFile == [] then Ok(st) else AllocateIfPerLevel(st, Expected(sprites, i, assemble));
      PatchFromAsWritten(PatchedUpTo(sprites, i, assemble), st, i, assemble) ==
        if next.Err? then Err(next.fault) else PatchFromAsWritten(PatchedUpTo(sprites, i + 1, assemble), next.value, i + 1, assemble)
  {
    var cur := PatchedUpTo(sprites, i, assemble);
    var name := sprites[i].asmFile;
    PatchedUpToStep(sprites, i, assemble);
    assert PatchFromAsWritten(cur, st, i, assemble) == PatchAtAsWritten(cur, st, i, assemble);
    if name == [] {
      assert cur == PatchedUpTo(sprites, i + 1, assemble);
    } else {
      PatchedUpToSearch(sprites, i, assemble, name, i);
      assert WithRoutines(sprites[i], assemble(sprites[i])) == Expected(sprites, i, assemble);
    }
  }

  /** The table the loop as written leaves when it breaks at entry `d`. */
  function StoppedAt(sprites: seq<Sprite>, d: nat, assemble: Sprite -> Routines): seq<Sprite>
    requires d < |sprites| && LastWith(sprites, sprites[d].asmFile, d).Some?
  {
    var k := LastWith(sprites, sprites[d].asmFile, d).value;
    PatchedUpTo(sprites, d, assemble)[d := CopiedAsWritten(sprites[d], Expected(sprites, k, assemble))]
  }

  /** The step as written at the first shared asm file. */
  lemma PatchAsWrittenAtShared(sprites: seq<Sprite>, st: PerLevel.PlsState, d: nat, assemble: Sprite -> Routines)
    requires d < |sprites| && SlotsOk(sprites) && st.Valid()
    requires sprites[d].asmFile != [] && LastWith(sprites, sprites[d].asmFile, d).Some?
    requires SlotsOk(PatchedUpTo(sprites, d, assemble))
    ensures PatchFromAsWritten(PatchedUpTo(sprites, d, assemble), st, d, assemble) == Ok((StoppedAt(sprites, d, assemble), st))
  {
    var cur := PatchedUpTo(sprites, d, assemble);
    var k := LastWith(sprites, sprites[d].asmFile, d).value;
    PatchedUpToSearch(sprites, d, assemble, sprites[d].asmFile, d);
    assert PatchFromAsWritten(cur, st, d, assemble) == PatchAtAsWritten(cur, st, d, assemble);
    assert cur[d] == sprites[d] && cur[k] == Expected(sprites, k, assemble);
    assert LastWith(cur, cur[d].asmFile, d) == Some(k);
  }

  lemma {:induction false} PatchAsWrittenStopsFrom(sprites: seq<Sprite>, st: PerLevel.PlsState, i: nat, d: nat, assemble: Sprite -> Routines)
    requires i <= d < |sprites| && SlotsOk(sprites) && st.Valid()
    requires sprites[d].asmFile != [] && LastWith(sprites, sprites[d].asmFile, d).Some?
    requires Unshared(sprites, 0, d)
    requires SlotsOk(PatchedUpTo(sprites, i, assemble))
    ensures var r := PatchFromAsWritten(PatchedUpTo(sprites, i, assemble), st, i, assemble);
      r.Ok? ==> r.value.0 == StoppedAt(sprites, d, assemble)
    decreases d - i, 1
  {
    if i == d {
      PatchAsWrittenAtShared(sprites, st, d, assemble);
    } else {
      PatchAsWrittenStopsAfter(sprites, st, i, d, assemble);
    }
  }

  /** The step of `PatchAsWrittenStopsFrom` before entry `d`. */
  lemma {:induction false} PatchAsWrittenStopsAfter(sprites: seq<Sprite>, st: PerLevel.PlsState, i: nat, d: nat, assemble: Sprite -> Routines)
    requires i < d < |sprites| && SlotsOk(sprites) && st.Valid()
    requires sprites[d].asmFile != [] && LastWith(sprites, sprites[d].asmFile, d).Some?
    requires Unshared(sprites, 0, d)
    requires SlotsOk(PatchedUpTo(sprites, i, assemble))
    ensures var r := PatchFromAsWritten(PatchedUpTo(sprites, i, assemble), st, i, assemble);
      r.Ok? ==> r.value.0 == StoppedAt(sprites, d, assemble)
    decreases d - i, 0
  {
    PatchAsWrittenStep(sprites, st, i, d, assemble);
    var next := if sprites[i].asmFile == [] then Ok(st) else AllocateIfPerLevel(st, Expected(sprites, i, assemble));
    if next.Ok? {
      PatchAsWrittenStopsFrom(sprites, next.value, i + 1, d, assemble);
    }
  }

  lemma {:induction false} PatchAsWrittenAllocatesFrom(sprites: seq<Sprite>, st: PerLevel.PlsState, i: nat, d: nat, assemble: Sprite -> Routines)
    requires i <= d < |sprites| && SlotsOk(sprites) && st.Valid()
    requires sprites[d].asmFile != [] && LastWith(sprites, sprites[d].asmFile, d).Some?
    requires Unshared(sprites, 0, d)
    requires SlotsOk(PatchedUpTo(sprites, i, assemble))
    ensures var r := PatchFromAsWritten(PatchedUpTo(sprites, i, assemble), st, i, assemble);
      var alloc := st.dataAddr + PerLevel.ENTRY_SIZE * PerLevelCount(sprites[i..d]);
      && (r.Ok? <==> alloc <= PerLevel.DATA_SIZE)
      && (r.Ok? ==> r.value.1.dataAddr == alloc)
    decreases d - i, 1
  {
    if i == d {
      assert sprites[d..d] == [];
      PatchAsWrittenAtShared(sprites, st, d, assemble);
    } else {
      PatchAsWrittenAllocatesAfter(sprites, st, i, d, assemble);
    }
  }

  /** The step of `PatchAsWrittenAllocatesFrom` before entry `d`. */
  lemma {:induction false} PatchAsWrittenAllocatesAfter(sprites: seq<Sprite>, st: PerLevel.PlsState, i: nat, d: nat, assemble: Sprite -> Routines)
    requires i < d < |sprites| && SlotsOk(sprites) && st.Valid()
    requires sprites[d].asmFile != [] && LastWith(sprites, sprites[d].asmFile, d).Some?
    requires Unshared(sprites, 0, d)
    requires SlotsOk(PatchedUpTo(sprites, i, assemble))
    ensures var r := PatchFromAsWritten(PatchedUpTo(sprites, i, assemble), st, i, assemble);
      var alloc := st.dataAddr + PerLevel.ENTRY_SIZE * PerLevelCount(sprites[i..d]);
      && (r.Ok? <==> alloc <= PerLevel.DATA_SIZE)
      && (r.Ok? ==> r.value.1.dataAddr == alloc)
    decreases d - i, 0
  {
    PerLevelCountStep(sprites, i, d);
    PatchAsWrittenStep(sprites, st, i, d, assemble);
    var next := if sprites[i].asmFile == [] then Ok(st) else AllocateIfPerLevel(st, Expected(sprites, i, assemble));
    if next.Ok? {
      PatchAsWrittenAllocatesFrom(sprites, next.value, i + 1, d, assemble);
    }
  }

  /**
   * `patch_sprites` as written: when entry `d` is the first one sharing its asm
   * file, with the nearest earlier entry `k`, the entries before `d` are
   * patched, entry `d` gets the main routine assembled for `k` as its init
   * routine and keeps its own main routine, every later entry is left as
   * the list made it, and only the per-level entries before `d` are
   * allocated.
   */
  lemma PatchAsWrittenStops(sprites: seq<Sprite>, st: PerLevel.PlsState, d: nat, assemble: Sprite -> Routines)
    requires d < |sprites| && SlotsOk(sprites) && st.Valid()
    requires sprites[d].asmFile != [] && LastWith(sprites, sprites[d].asmFile, d).Some?
    requires Unshared(sprites, 0, d)
    ensures var r := PatchFromAsWritten(sprites, st, 0, assemble);
      var k := LastWith(sprites, sprites[d].asmFile, d).value;
      && (r.Ok? <==> st.dataAddr + PerLevel.ENTRY_SIZE * PerLevelCount(sprites[..d]) <= PerLevel.DATA_SIZE)
      && (r.Ok? ==> && r.value.0[d].table.init == assemble(sprites[k]).main
                    && r.value.0[d].table.main == sprites[d].table.main
                    && (forall j :: d < j < |sprites| ==> r.value.0[j] == sprites[j]))
  {
    assert PatchedUpTo(sprites, 0, assemble) == sprites;
    assert sprites[0..d] == sprites[..d];
    PatchAsWrittenStopsFrom(sprites, st, 0, d, assemble);
    PatchAsWrittenAllocatesFrom(sprites, st, 0, d, assemble);
    var k := LastWith(sprites, sprites[d].asmFile, d).value;
    assert LastWith(sprites, sprites[k].asmFile, k).None?;
    assert Expected(sprites, k, assemble) == WithRoutines(sprites[k], assemble(sprites[k]));
  }
}
