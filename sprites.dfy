/**
 * SpritesData.h and SpritesData.cpp: the object that owns the four sprite
 * lists and the per-level data, and runs `populate`, `patch_sprites_wrap`
 * and `serialize` on them.
 */
module Sprites {
  import opened Types
  import opened Entities
  import opened D = SpritesData
  import opened SpritesOutput
  import PerLevel
  import Array

  /** `patch_sprites` as intended, for the three lists `patch_sprites_wrap` patches, in its order: normal, cluster, extended. */
  function PatchedAll(tabs: Tables, st: PerLevel.PlsState, assemble: Sprite -> Routines): (r: Result<(Tables, PerLevel.PlsState)>)
    requires SlotsOk(tabs.normal) && SlotsOk(tabs.cluster) && SlotsOk(tabs.extended) && st.Valid()
  {
    var (n, s1) :- PatchFrom(tabs.normal, st, 0, assemble);
    var (c, s2) :- PatchFrom(tabs.cluster, s1, 0, assemble);
    var (e, s3) :- PatchFrom(tabs.extended, s2, 0, assemble);
    Ok((tabs.(normal := n, cluster := c, extended := e), s3))
  }

  /**
   * `patch_sprites_wrap`: the three lists are patched as `patch_sprites`
   * promises each one, and the run fails exactly when their per-level
   * entries do not all fit; then `data_addr` has moved by 0x10 for each of
   * them. The overworld list is not touched.
   */
  lemma PatchedAllSpec(tabs: Tables, st: PerLevel.PlsState, assemble: Sprite -> Routines)
    requires SlotsOk(tabs.normal) && SlotsOk(tabs.cluster) && SlotsOk(tabs.extended) && st.Valid()
    ensures var r := PatchedAll(tabs, st, assemble);
      var count := PerLevelCount(tabs.normal) + PerLevelCount(tabs.cluster) + PerLevelCount(tabs.extended);
      && (r.Ok? <==> st.dataAddr + PerLevel.ENTRY_SIZE * count <= PerLevel.DATA_SIZE)
      && (r.Ok? ==> r.value.1.dataAddr == st.dataAddr + PerLevel.ENTRY_SIZE * count && r.value.0.ow == tabs.ow)
      && (r.Ok? ==> forall j :: 0 <= j < |tabs.normal| ==> r.value.0.normal[j] == Expected(tabs.normal, j, assemble))
      && (r.Ok? ==> forall j :: 0 <= j < |tabs.cluster| ==> r.value.0.cluster[j] == Expected(tabs.cluster, j, assemble))
      && (r.Ok? ==> forall j :: 0 <= j < |tabs.extended| ==> r.value.0.extended[j] == Expected(tabs.extended, j, assemble))
  {
    PatchAllocates(tabs.normal, st, assemble);
    var a := PatchFrom(tabs.normal, st, 0, assemble);
    if a.Ok? {
      PatchSharesRoutines(tabs.normal, st, assemble);
      var (n, s1) := a.value;
      PatchAllocates(tabs.cluster, s1, assemble);
      var b := PatchFrom(tabs.cluster, s1, 0, assemble);
      if b.Ok? {
        PatchSharesRoutines(tabs.cluster, s1, assemble);
        var (c, s2) := b.value;
        PatchAllocates(tabs.extended, s2, assemble);
        var e := PatchFrom(tabs.extended, s2, 0, assemble);
        if e.Ok? {
          PatchSharesRoutines(tabs.extended, s2, assemble);
        }
      }
    }
  }

  /** `populate`: the loop over the lines of the list file, section by section, stopping at the first fatal line. */
  method ReadList(tabs: Tables, lines: seq<string>, src: Sources) returns (r: Result<Loaded>)
    requires TablesValid(tabs, src.perLevel) && src.Valid()
    ensures r == PopulateFrom(Loaded(tabs, []), SpriteList, ParsedLines(lines, src.perLevel), 0, src)
  {
    ghost var parsed := ParsedLines(lines, src.perLevel);
    ghost var target := PopulateFrom(Loaded(tabs, []), SpriteList, parsed, 0, src);
    var cur := Loaded(tabs, []);
    var t := SpriteList;
    var k := 0;
    while k < |lines|
      invariant k <= |lines| && t != OverworldList && TablesValid(cur.tables, src.perLevel)
      invariant PopulateFrom(cur, t, parsed, k, src) == target
    {
      var step := ReadLine(cur, t, lines, k, src);
      if step.Err? {
        return Err(step.fault);
      }
      cur, t := step.value.0, step.value.1;
      k := k + 1;
    }
    return Ok(cur);
  }

  /** One turn of `populate`'s line loop, for line `k`: parses it and applies it to the tables, as one step of the list loop. */
  method ReadLine(cur: Loaded, t: ListType, lines: seq<string>, k: nat, src: Sources) returns (step: Result<(Loaded, ListType)>)
    requires k < |lines| && TablesValid(cur.tables, src.perLevel) && t != OverworldList && src.Valid()
    ensures step.Err? ==> PopulateFrom(cur, t, ParsedLines(lines, src.perLevel), k, src) == Err(step.fault)
    ensures step.Ok? ==> TablesValid(step.value.0.tables, src.perLevel) && step.value.1 != OverworldList
    ensures step.Ok? ==> PopulateFrom(cur, t, ParsedLines(lines, src.perLevel), k, src)
                           == PopulateFrom(step.value.0, step.value.1, ParsedLines(lines, src.perLevel), k + 1, src)
  {
    var line := ParseListLine(lines[k], k + 1, src.perLevel);
    ghost var parsed := ParsedLines(lines, src.perLevel);
    assert line == parsed[k];
    step := LineStep(cur, t, line, k + 1, src);
  }

  /** `SpritesData`: the normal, cluster, extended and overworld lists and `pls_data`. */
  class SpritesData {
    /** `cfg.PerLevel`, which fixes the size of the normal list. */
    const perLevel: bool
    /** `m_normal_sprites`. */
    var normal: seq<Sprite>
    /** `m_cluster_sprites`. */
    var cluster: seq<Sprite>
    /** `m_extended_sprites`. */
    var extended: seq<Sprite>
    /** `m_ow_sprites`. */
    var ow: seq<Sprite>
    /** `pls_data`. */
    const plsData: PerLevel.PerLevelData

    /** The four lists, as `sprites_list` points at them. */
    function Tabs(): (tabs: Tables)
      reads this
    {
      Tables(normal, cluster, extended, ow)
    }

    ghost predicate Valid()
      reads this, plsData, plsData.levelPtrs.buf, plsData.spritePtrs.buf, plsData.data.buf, plsData.plsPointers.buf
    {
      TablesValid(Tabs(), perLevel) && plsData.Valid()
    }

    /** The `SpritesData` constructor: empty sprites of each list's size, and zeroed per-level data. */
    constructor (perLevel: bool)
      ensures Valid() && this.perLevel == perLevel
      ensures Tabs() == InitialTables(perLevel) && plsData.State() == PerLevel.INITIAL_STATE
      ensures fresh(plsData) && fresh(plsData.levelPtrs.buf) && fresh(plsData.spritePtrs.buf) && fresh(plsData.data.buf) && fresh(plsData.plsPointers.buf)
    {
      this.perLevel := perLevel;
      var tabs := InitialTables(perLevel);
      normal := tabs.normal;
      cluster := tabs.cluster;
      extended := tabs.extended;
      ow := tabs.ow;
      plsData := new PerLevel.PerLevelData();
    }

    /**
     * `populate`: reads the list file line by line into the lists; the
     * result is the warnings the sprites' readers gave, or the fault of
     * the first line that is fatal.
     */
    method Populate(lines: seq<string>, src: Sources) returns (r: Result<seq<string>>)
      requires Valid() && src.Valid() && src.perLevel == perLevel
      modifies this
      ensures var p := PopulateFrom(Loaded(old(Tabs()), []), SpriteList, ParsedLines(lines, perLevel), 0, src);
        && (p.Err? ==> r == Err(p.fault))
        && (p.Ok? ==> r == Ok(p.value.warnings) && Tabs() == p.value.tables && Valid())
    {
      var p := ReadList(Tabs(), lines, src);
      if p.Err? {
        return Err(p.fault);
      }
      normal, cluster, extended, ow := p.value.tables.normal, p.value.tables.cluster, p.value.tables.extended, p.value.tables.ow;
      return Ok(p.value.warnings);
    }

    /** `patch_sprites`: the nearest entry before `i` naming the same asm file, searched from `i - 1` down. */
    static method FindEarlier(sprites: seq<Sprite>, i: nat) returns (r: Option<nat>)
      requires i < |sprites|
      ensures r == LastWith(sprites, sprites[i].asmFile, i)
    {
      var name := sprites[i].asmFile;
      var j := i;
      while j > 0
        invariant j <= i && LastWith(sprites, name, i) == LastWith(sprites, name, j)
      {
        if sprites[j - 1].asmFile != [] && sprites[j - 1].asmFile == name {
          return Some(j - 1);
        }
        j := j - 1;
      }
      return None;
    }

    /**
     * `patch_sprites` as intended, on the list `get(t)`: each entry with an asm
     * file takes the routines of the nearest earlier entry naming the same
     * file, or has them assembled, and a per-level entry is then allocated.
     */
    method PatchSprites(t: ListType, assemble: Sprite -> Routines) returns (r: Result<()>)
      requires Valid() && t != OverworldList
      modifies this, plsData, plsData.levelPtrs.buf, plsData.spritePtrs.buf, plsData.data.buf, plsData.plsPointers.buf
      ensures var p := PatchFrom(old(Tabs().Get(t)), old(plsData.State()), 0, assemble);
        && (p.Err? ==> r == Err(p.fault))
        && (p.Ok? ==> r.Ok? && Valid() && Tabs() == old(Tabs()).With(t, p.value.0) && plsData.State() == p.value.1)
    {
      TablesValidGet(Tabs(), perLevel, t);
      ghost var tabs := Tabs();
      ghost var goal := PatchFrom(Tabs().Get(t), plsData.State(), 0, assemble);
      var sprites := Tabs().Get(t);
      var i := 0;
      while i < |sprites|
        invariant i <= |sprites| == |tabs.Get(t)| && SlotsOk(sprites) && plsData.Valid()
        invariant Tabs() == tabs
        invariant PatchFrom(sprites, plsData.State(), i, assemble) == goal
      {
        assert PatchFrom(sprites, plsData.State(), i, assemble) == PatchAt(sprites, plsData.State(), i, assemble);
        if sprites[i].asmFile != [] {
          var done := PatchEntry(sprites, i, assemble);
          if done.Err? {
            return Err(done.fault);
          }
          sprites := sprites[i := done.value];
        }
        i := i + 1;
      }
      SetList(t, sprites);
      return Ok(());
    }

    /**
     * One turn of the loop of `patch_sprites`, for entry `i`, which has an asm file: the patched entry,
     * once its per-level entry, if it has one, is allocated.
     */
    method PatchEntry(sprites: seq<Sprite>, i: nat, assemble: Sprite -> Routines) returns (r: Result<Sprite>)
      requires i < |sprites| && SlotsOk(sprites) && plsData.Valid()
      modifies plsData, plsData.levelPtrs.buf, plsData.spritePtrs.buf, plsData.data.buf, plsData.plsPointers.buf
      ensures var done := PatchedEntry(sprites, i, assemble);
        var a := AllocateIfPerLevel(old(plsData.State()), done);
        && (a.Err? ==> r == Err(a.fault))
        && (a.Ok? ==> r == Ok(done) && plsData.Valid() && plsData.State() == a.value)
    {
      var found := FindEarlier(sprites, i);
      var routines := match found
        case Some(k) => RoutinesOf(sprites[k])
        case None => assemble(sprites[i]);
      var done := WithRoutines(sprites[i], routines);
      assert done == PatchedEntry(sprites, i, assemble);
      r := Ok(done);
      if done.level < 0x200 && 0xB0 <= done.number < 0xC0 {
        var a := plsData.Allocate(done);
        if a.Err? {
          r := Err(a.fault);
        }
      }
    }

    /** Assignment through `get(t)`. */
    method SetList(t: ListType, v: seq<Sprite>)
      modifies this
      ensures Tabs() == old(Tabs()).With(t, v)
    {
      match t
      case SpriteList => normal := v;
      case ExtendedList => cluster := v;
      case ClusterList => extended := v;
      case OverworldList => ow := v;
    }

    /**
     * `patch_sprites_wrap`: `patch_sprites` on `normal()`, `cluster()` and
     * `extended()` in that order; `assemble` stands for `Rom::patch`.
     */
    method PatchSpritesWrap(assemble: Sprite -> Routines) returns (r: Result<()>)
      requires Valid()
      modifies this, plsData, plsData.levelPtrs.buf, plsData.spritePtrs.buf, plsData.data.buf, plsData.plsPointers.buf
      ensures var p := PatchedAll(old(Tabs()), old(plsData.State()), assemble);
        && (p.Err? ==> r == Err(p.fault))
        && (p.Ok? ==> r.Ok? && Valid() && Tabs() == p.value.0 && plsData.State() == p.value.1)
    {
      r := PatchSprites(SpriteList, assemble);
      if r.Err? {
        return;
      }
      r := PatchSprites(ExtendedList, assemble);
      if r.Err? {
        return;
      }
      r := PatchSprites(ClusterList, assemble);
    }

    /** `serialize`: the four per-level buffers cut at their cursors. */
    method WritePerLevel() returns (files: seq<Output>)
      requires Valid()
      ensures files == PerLevelFiles(plsData.State())
    {
      PerLevel.CountBelowFree(plsData.State().levelPtrs, PerLevel.LEVEL_COUNT, 0);
      files := [Output(LevelPtrs, plsData.levelPtrs.buf[..0x400])];
      if plsData.dataAddr == 0 {
        files := files + [Output(SpritePtrs, [0xFF]), Output(LevelData, [0xFF]), Output(LevelPointers, [0xFF])];
      } else {
        files := files + [Output(SpritePtrs, plsData.spritePtrs.buf[..plsData.spritePtrsAddr]),
                          Output(LevelData, plsData.data.buf[..plsData.dataAddr]),
                          Output(LevelPointers, plsData.plsPointers.buf[..plsData.dataAddr])];
      }
    }

    /** `serialize`: the version flag, the per-level files when `perLevel`, and the default table. */
    method WriteTableFiles(versionflag: seq<byte>) returns (files: seq<Output>)
      requires Valid() && |versionflag| == 4
      ensures files == TableFiles(Tabs(), plsData.State(), perLevel, versionflag)
    {
      files := [Output(VersionFlag, versionflag)];
      if perLevel {
        var pl := WritePerLevel();
        files := files + pl;
      }
      var def := WriteLongTable(normal, if perLevel then 0x2000 else 0, DefaultTables);
      files := files + [def];
    }

    /** `serialize`: the status pointers of the global entries, then the cluster, extended and cape pointers through one buffer. */
    method WritePointerFiles() returns (files: seq<Output>)
      requires Valid()
      ensures files == PointerFiles(Tabs(), perLevel)
    {
      var status := WriteStatus(normal, if perLevel then 0x2000 else 0);
      var file := new Array.ByteArray(SPRITE_COUNT * 3);
      var c := WritePointers(file, MainPointers(cluster), Cluster);
      var e := WritePointers(file, MainPointers(extended), Extended);
      var k := WritePointers(file, CapePointers(extended), Cape);
      files := [status, c, e, k];
    }

    /**
     * `serialize`: the files `serialize` writes, in order, and the map
     * for the s16 file; the size table is written only when the map check
     * of `serialize_subfiles` passes.
     */
    method Serialize(versionflag: seq<byte>, loaded: seq<Map16>, size: nat) returns (w: Written)
      requires Valid() && |versionflag| == 4
      ensures w == Serialized(Tabs(), plsData.State(), perLevel, versionflag, loaded, size)
    {
      var t := WriteTableFiles(versionflag);
      var p := WritePointerFiles();
      var sub := WriteSubfiles(normal, perLevel, loaded, size);
      match sub
      case Ok(s) =>
        w := Written(t + p + [Output(Sizes, s.sizes)], Ok(s.map16));
      case Err(f) =>
        w := Written(t + p, Err(f));
    }
  }
}
