/**
 * `SpritesData::serialize` and its helpers: the binary tables `serialize` writes for
 * the assembler, and the size table and map16 tiles of
 * `serialize_subfiles`.
 */
module SpritesOutput {
  import opened Types
  import opened Entities
  import CLib
  import PerLevel
  import Array
  import opened SpritesData

  /** The files `serialize` writes under the asm directory. */
  datatype FileId =
    | VersionFlag | LevelPtrs | SpritePtrs | LevelData | LevelPointers
    | DefaultTables | StatusPtrs | Cluster | Extended | Cape | Sizes

  /** `serialize`: the name each file is written under. */
  function FileName(id: FileId): string {
    match id
    case VersionFlag => "_versionflag.bin"
    case LevelPtrs => "_PerLevelLvlPtrs.bin"
    case SpritePtrs => "_PerLevelSprPtrs.bin"
    case LevelData => "_PerLevelT.bin"
    case LevelPointers => "_PerLevelCustomPtrTable.bin"
    case DefaultTables => "_DefaultTables.bin"
    case StatusPtrs => "_CustomStatusPtr.bin"
    case Cluster => "_ClusterPtr.bin"
    case Extended => "_ExtendedPtr.bin"
    case Cape => "_ExtendedCapePtr.bin"
    case Sizes => "_CustomSize.bin"
  }

  /** One `write_all(buffer, dir, name, size)`: the file named `FileName(file)` gets the first `size` bytes of the buffer. */
  datatype Output = Output(file: FileId, bytes: seq<byte>)

  // ---------------------------------------------------------------- rows

  /** Rows of bytes laid one after the other in index order, as the `memcpy` loops lay them. */
  function Joined(rows: seq<seq<byte>>): seq<byte> {
    if rows == [] then [] else Joined(rows[..|rows| - 1]) + rows[|rows| - 1]
  }

  lemma MulMono(w: nat, a: nat, b: nat)
    requires a <= b
    ensures w * a <= w * b
  {
  }

  /** Rows of width `w` give `w` bytes each. */
  lemma {:induction false} JoinedLength(rows: seq<seq<byte>>, w: nat)
    requires forall k :: 0 <= k < |rows| ==> |rows[k]| == w
    ensures |Joined(rows)| == w * |rows|
  {
    if rows != [] {
      JoinedLength(rows[..|rows| - 1], w);
      assert w * |rows| == w * (|rows| - 1) + w;
    }
  }

  /** Row k of rows of width `w` sits at byte `w * k`. */
  lemma {:induction false} JoinedRow(rows: seq<seq<byte>>, w: nat, k: nat)
    requires forall k :: 0 <= k < |rows| ==> |rows[k]| == w
    requires k < |rows|
    ensures w * k + w <= |Joined(rows)| && Joined(rows)[w * k..w * k + w] == rows[k]
  {
    var n := |rows|;
    var init := rows[..n - 1];
    JoinedLength(init, w);
    var front := Joined(init);
    assert Joined(rows) == front + rows[n - 1];
    RowBounds(w, k, n);
    if k < n - 1 {
      JoinedRow(init, w, k);
      assert (front + rows[n - 1])[w * k..w * k + w] == front[w * k..w * k + w];
    } else {
      assert (front + rows[n - 1])[|front|..|front| + w] == rows[n - 1];
    }
  }

  /** Row `k` of `n` rows of width `w` ends within the `w * n` bytes, and the last row starts at `w * (n - 1)`. */
  lemma RowBounds(w: nat, k: nat, n: nat)
    requires k < n
    ensures 0 <= w * k && w * k + w <= w * n && w * n == w * (n - 1) + w
    ensures k < n - 1 ==> w * k + w <= w * (n - 1)
  {
    MulMono(w, k + 1, n);
    if k < n - 1 {
      MulMono(w, k + 1, n - 1);
    }
  }

  lemma JoinedRows(rows: seq<seq<byte>>, w: nat)
    requires forall k :: 0 <= k < |rows| ==> |rows[k]| == w
    ensures |Joined(rows)| == w * |rows|
    ensures forall k :: 0 <= k < |rows| ==> w * k + w <= |Joined(rows)| && Joined(rows)[w * k..w * k + w] == rows[k]
  {
    JoinedLength(rows, w);
    forall k | 0 <= k < |rows|
      ensures w * k + w <= |Joined(rows)| && Joined(rows)[w * k..w * k + w] == rows[k]
    {
      JoinedRow(rows, w, k);
    }
  }

  /**
   * The `memcpy` loops of `serialize` and `write_long_table`: row k goes to byte
   * `w * k` of `file`; the bytes after the last row keep what they held.
   */
  method CopyRows(file: Array.ByteArray, rows: seq<seq<byte>>, w: nat)
    requires forall k :: 0 <= k < |rows| ==> |rows[k]| == w
    requires w * |rows| <= file.buf.Length
    modifies file.buf
    ensures file.buf[..w * |rows|] == Joined(rows) && file.buf[w * |rows|..] == old(file.buf[w * |rows|..])
  {
    var i := 0;
    while i < |rows|
      invariant 0 <= i <= |rows| && w * i <= w * |rows|
      invariant file.buf[..w * i] == Joined(rows[..i])
      invariant file.buf[w * i..] == old(file.buf[w * i..])
    {
      MulMono(w, i + 1, |rows|);
      ghost var before := file.buf[..];
      PerLevel.CopyIn(file, rows[i], w * i);
      assert w * (i + 1) == w * i + w;
      PerLevel.SpliceFacts(before, w * i, rows[i]);
      assert file.buf[..w * (i + 1)] == before[..w * i] + rows[i];
      assert rows[..i + 1][..i] == rows[..i];
      assert file.buf[w * (i + 1)..] == before[w * i..][w..];
      i := i + 1;
    }
    assert rows[..|rows|] == rows;
  }

  // ---------------------------------------------------------------- long table

  /** `serialize`: the global entries of `normal` start after the per-level ones when `perLevel`. */
  function GlobalStart(perLevel: bool): (n: nat)
    ensures n + 0x100 == TableSize(SpriteList, perLevel)
  {
    if perLevel then 0x2000 else 0
  }

  /** `is_empty_table`: none of the `size` entries from `start` has an init or a main routine of its own. */
  predicate EmptyTable(sprites: seq<Sprite>, start: nat, size: nat)
    requires start + size <= |sprites|
  {
    forall k :: start <= k < start + size ==> sprites[k].table.init.IsEmpty() && sprites[k].table.main.IsEmpty()
  }

  /** `is_empty_table`: the scan stops at the first entry with a routine. */
  method IsEmptyTable(sprites: seq<Sprite>, start: nat, size: nat) returns (b: bool)
    requires start + size <= |sprites|
    ensures b <==> EmptyTable(sprites, start, size)
  {
    var i := 0;
    while i < size
      invariant 0 <= i <= size
      invariant forall k :: start <= k < start + i ==> sprites[k].table.init.IsEmpty() && sprites[k].table.main.IsEmpty()
    {
      if !sprites[start + i].table.init.IsEmpty() || !sprites[start + i].table.main.IsEmpty() {
        return false;
      }
      i := i + 1;
    }
    return true;
  }

  /** The 16 table bytes of each of the 0x100 entries from `start`. */
  function TableRows(sprites: seq<Sprite>, start: nat): (rows: seq<seq<byte>>)
    requires start + 0x100 <= |sprites| && SlotsOk(sprites)
    ensures |rows| == 0x100
    ensures forall k :: 0 <= k < 0x100 ==> rows[k] == sprites[start + k].table.Bytes() && |rows[k]| == 0x10
  {
    seq(0x100, k requires 0 <= k < 0x100 => sprites[start + k].table.Bytes())
  }

  /** `write_long_table`: 16 bytes of 0xFF for an empty table, else the 0x100 tables in index order. */
  function LongTable(sprites: seq<Sprite>, start: nat): (b: seq<byte>)
    requires start + 0x100 <= |sprites| && SlotsOk(sprites)
  {
    if EmptyTable(sprites, start, 0x100) then Repeat(0xFF, 0x10) else Joined(TableRows(sprites, start))
  }

  /**
   * The long table's two forms tell themselves apart by their size, and
   * the full one gives every entry's table back when read 16 bytes at a
   * time.
   */
  lemma LongTableLayout(sprites: seq<Sprite>, start: nat)
    requires start + 0x100 <= |sprites| && SlotsOk(sprites)
    ensures |LongTable(sprites, start)| == (if EmptyTable(sprites, start, 0x100) then 0x10 else 0x1000)
    ensures EmptyTable(sprites, start, 0x100) ==> forall k :: 0 <= k < 0x10 ==> LongTable(sprites, start)[k] == 0xFF
    ensures !EmptyTable(sprites, start, 0x100) ==>
      forall k :: 0 <= k < 0x100 ==> TableOfBytes(LongTable(sprites, start)[0x10 * k..0x10 * k + 0x10]) == sprites[start + k].table
  {
    if !EmptyTable(sprites, start, 0x100) {
      var rows := TableRows(sprites, start);
      JoinedRows(rows, 0x10);
      assert LongTable(sprites, start) == Joined(rows);
      forall k | 0 <= k < 0x100
        ensures TableOfBytes(LongTable(sprites, start)[0x10 * k..0x10 * k + 0x10]) == sprites[start + k].table
      {
        assert Joined(rows)[0x10 * k..0x10 * k + 0x10] == rows[k];
        TableBytesRoundTrip(sprites[start + k].table, rows[k]);
      }
    }
  }

  /** `write_long_table`: the static dummy, or a zeroed 0x1000-byte buffer filled row by row. */
  method WriteLongTable(sprites: seq<Sprite>, start: nat, id: FileId) returns (o: Output)
    requires start + 0x100 <= |sprites| && SlotsOk(sprites)
    ensures o == Output(id, LongTable(sprites, start))
  {
    var empty := IsEmptyTable(sprites, start, 0x100);
    if empty {
      o := Output(id, Repeat(0xFF, 0x10));
    } else {
      var file := new Array.ByteArray(0x100 * 0x10);
      CopyRows(file, TableRows(sprites, start), 0x10);
      o := Output(id, file.buf[..0x100 * 0x10]);
    }
  }

  // ---------------------------------------------------------------- pointer blobs

  /** The 15 status-pointer bytes of each of the 0x100 entries from `start`. */
  function StatusRows(sprites: seq<Sprite>, start: nat): (rows: seq<seq<byte>>)
    requires start + 0x100 <= |sprites| && SlotsOk(sprites)
    ensures |rows| == 0x100
    ensures forall k :: 0 <= k < 0x100 ==> rows[k] == sprites[start + k].ptrs.Bytes() && |rows[k]| == 15
  {
    seq(0x100, k requires 0 <= k < 0x100 => sprites[start + k].ptrs.Bytes())
  }

  /** `serialize`: entry `start + k`'s five status pointers at bytes 15k to 15k + 14. */
  function StatusBlob(sprites: seq<Sprite>, start: nat): (b: seq<byte>)
    requires start + 0x100 <= |sprites| && SlotsOk(sprites)
  {
    Joined(StatusRows(sprites, start))
  }

  /** The status blob holds 0x100 entries of 15 bytes, entry k's five pointers at 15k. */
  lemma StatusBlobLayout(sprites: seq<Sprite>, start: nat)
    requires start + 0x100 <= |sprites| && SlotsOk(sprites)
    ensures |StatusBlob(sprites, start)| == 0x100 * 15
    ensures forall k :: 0 <= k < 0x100 ==> StatusBlob(sprites, start)[15 * k..15 * k + 15] == sprites[start + k].ptrs.Bytes()
  {
    var rows := StatusRows(sprites, start);
    JoinedRows(rows, 15);
    assert StatusBlob(sprites, start) == Joined(rows);
    forall k | 0 <= k < 0x100
      ensures StatusBlob(sprites, start)[15 * k..15 * k + 15] == sprites[start + k].ptrs.Bytes()
    {
      assert Joined(rows)[15 * k..15 * k + 15] == rows[k];
    }
  }

  /** The main routine of each of the 0x80 entries. */
  function MainPointers(sprites: seq<Sprite>): (ps: seq<Pointer>)
    requires |sprites| == SPRITE_COUNT
    ensures |ps| == SPRITE_COUNT && forall k :: 0 <= k < SPRITE_COUNT ==> ps[k] == sprites[k].table.main
  {
    seq(SPRITE_COUNT, k requires 0 <= k < SPRITE_COUNT => sprites[k].table.main)
  }

  /** The extended cape routine of each of the 0x80 entries. */
  function CapePointers(sprites: seq<Sprite>): (ps: seq<Pointer>)
    requires |sprites| == SPRITE_COUNT
    ensures |ps| == SPRITE_COUNT && forall k :: 0 <= k < SPRITE_COUNT ==> ps[k] == sprites[k].extendedCapePtr
  {
    seq(SPRITE_COUNT, k requires 0 <= k < SPRITE_COUNT => sprites[k].extendedCapePtr)
  }

  function PointerRows(ps: seq<Pointer>): (rows: seq<seq<byte>>)
    ensures |rows| == |ps| && forall k :: 0 <= k < |ps| ==> |rows[k]| == 3
  {
    seq(|ps|, k requires 0 <= k < |ps| => ps[k].Bytes())
  }

  /** `serialize`: pointer k at bytes 3k to 3k + 2. */
  function PointerBlob(ps: seq<Pointer>): (b: seq<byte>) {
    Joined(PointerRows(ps))
  }

  /** A pointer blob is three bytes per pointer, and reading them back, low, high and bank, gives each pointer. */
  lemma PointerBlobLayout(ps: seq<Pointer>)
    ensures |PointerBlob(ps)| == 3 * |ps|
    ensures forall k :: 0 <= k < |ps| ==>
      var b := PointerBlob(ps);
      Pointer(b[3 * k], b[3 * k + 1], b[3 * k + 2]) == ps[k]
  {
    var rows := PointerRows(ps);
    JoinedRows(rows, 3);
    forall k | 0 <= k < |ps|
      ensures var b := PointerBlob(ps);
        Pointer(b[3 * k], b[3 * k + 1], b[3 * k + 2]) == ps[k]
    {
      var b := PointerBlob(ps);
      assert b[3 * k..3 * k + 3] == rows[k];
      assert b[3 * k] == rows[k][0] && b[3 * k + 1] == rows[k][1] && b[3 * k + 2] == rows[k][2];
    }
  }

  /** `serialize`: the status pointers of the 0x100 entries from `start`, 15 bytes each. */
  method WriteStatus(sprites: seq<Sprite>, start: nat) returns (o: Output)
    requires start + 0x100 <= |sprites| && SlotsOk(sprites)
    ensures o == Output(StatusPtrs, StatusBlob(sprites, start))
  {
    var file := new Array.ByteArray(0x100 * 15);
    CopyRows(file, StatusRows(sprites, start), 15);
    o := Output(StatusPtrs, file.buf[..0x100 * 15]);
  }

  /** The pointer loops of `serialize`: `file` is filled from the front with one pointer per row. */
  method WritePointers(file: Array.ByteArray, ps: seq<Pointer>, id: FileId) returns (o: Output)
    requires 3 * |ps| <= file.buf.Length
    modifies file.buf
    ensures o == Output(id, PointerBlob(ps))
  {
    CopyRows(file, PointerRows(ps), 3);
    o := Output(id, file.buf[..3 * |ps|]);
  }

  // ---------------------------------------------------------------- size table and map16

  /** `serialize_subfiles`: the subfile loop's `from_table(normal, 0x200, i, PerLevel, Sprite)` is global entry i, as written and as corrected. */
  lemma SubfileSlot(i: nat, perLevel: bool)
    requires i < 0x100
    ensures FromTable(SpriteList, 0x200, i, perLevel) == Index(GlobalStart(perLevel) + i)
    ensures FromTableAsWritten(SpriteList, 0x200, i, perLevel) == Index(GlobalStart(perLevel) + i)
  {
  }

  /** `serialize_subfiles`: the reserved per-level numbers and a sprite the list could not place take 7 bytes. */
  predicate Reserved(spr: Sprite, i: nat, perLevel: bool) {
    spr.invalid || (perLevel && 0xB0 <= i < 0xC0)
  }

  /** `serialize_subfiles`: an entry a list line filled adds its sizes and its map16 tiles. */
  predicate AddsTiles(spr: Sprite, i: nat, perLevel: bool) {
    !Reserved(spr, i, perLevel) && spr.line != 0
  }

  /** `serialize_subfiles`: the two size bytes of global number `i`. */
  function SizeEntry(spr: Sprite, i: nat, perLevel: bool): (b: (byte, byte))
    ensures Reserved(spr, i, perLevel) ==> b == (7, 7)
    ensures !Reserved(spr, i, perLevel) && spr.line == 0 ==> b == (3, 3)
  {
    if Reserved(spr, i, perLevel) then (7, 7)
    else if spr.line != 0 then (ToU8(3 + spr.byteCount), ToU8(3 + spr.extraByteCount))
    else (3, 3)
  }

  /**
   * Outside the reserved numbers each size byte is 3 more than the
   * entry's byte count, used or not: an unused slot has counts of 0.
   */
  lemma SizeEntryCounts(spr: Sprite, i: nat, perLevel: bool)
    requires SlotOk(spr) && !Reserved(spr, i, perLevel)
    requires 0 <= spr.byteCount <= 0xFC && 0 <= spr.extraByteCount <= 0xFC
    ensures SizeEntry(spr, i, perLevel).0 as int == 3 + spr.byteCount
    ensures SizeEntry(spr, i, perLevel).1 as int == 3 + spr.extraByteCount
  {
    if spr.line != 0 {
      ToU8Small(3 + spr.byteCount);
      ToU8Small(3 + spr.extraByteCount);
    }
  }

  /** The size bytes of global number `k`. */
  function SizeAt(globals: seq<Sprite>, perLevel: bool, k: nat): (byte, byte)
    requires k < |globals|
  {
    SizeEntry(globals[k], k, perLevel)
  }

  /** `extra_bytes`: byte i is number i's size, byte 0x100 + i its extra-bit size. */
  function SizeTable(globals: seq<Sprite>, perLevel: bool): (b: seq<byte>)
    requires |globals| == 0x100
    ensures |b| == 0x200
    ensures forall i :: 0 <= i < 0x100 ==> b[i] == SizeAt(globals, perLevel, i).0 && b[0x100 + i] == SizeAt(globals, perLevel, i).1
  {
    seq(0x200, j requires 0 <= j < 0x200 =>
      if j < 0x100 then SizeAt(globals, perLevel, j).0 else SizeAt(globals, perLevel, j - 0x100).1)
  }

  /** The error `serialize_subfiles` raises when the s16 map has no room left for an entry's tiles. */
  function MapOverflow(blocks: nat): string {
    "There wasn't enough space in your s16 file to fit everything, was trying to fit "
      + CLib.DecimalString(blocks) + " blocks, couldn't find space\n"
  }

  /** The map so far, or the number of tiles of the entry that did not fit. */
  datatype Mapped = Fits(tiles: seq<Map16>) | Overflow(blocks: nat)

  /**
   * The loop of `serialize_subfiles` on the map: after the first `n` global numbers, the
   * loaded tiles followed by those of each adding entry, or the fatal error
   * of the first entry whose tiles would take the map past `size` tiles.
   */
  function MapAfter(globals: seq<Sprite>, perLevel: bool, loaded: seq<Map16>, size: nat, n: nat): (r: Mapped)
    requires n <= |globals|
  {
    if n == 0 then Fits(loaded)
    else match MapAfter(globals, perLevel, loaded, size, n - 1)
      case Overflow(b) => Overflow(b)
      case Fits(m) =>
        var spr := globals[n - 1];
        if !AddsTiles(spr, n - 1, perLevel) then Fits(m)
        else if |m| + |spr.mapData| > size then Overflow(|spr.mapData|)
        else Fits(m + spr.mapData)
  }

  /** The tiles of the adding entries among the first `n` global numbers, in order. */
  function Tiles(globals: seq<Sprite>, perLevel: bool, n: nat): seq<Map16>
    requires n <= |globals|
  {
    if n == 0 then []
    else
      var spr := globals[n - 1];
      Tiles(globals, perLevel, n - 1) + (if AddsTiles(spr, n - 1, perLevel) then spr.mapData else [])
  }

  /** Whether global number `k` adds tiles. */
  predicate AddsAt(globals: seq<Sprite>, perLevel: bool, k: nat)
    requires k < |globals|
  {
    AddsTiles(globals[k], k, perLevel)
  }

  /** Whether any of the first `n` global numbers adds tiles. */
  predicate AnyAdds(globals: seq<Sprite>, perLevel: bool, n: nat)
    requires n <= |globals|
  {
    n > 0 && (AnyAdds(globals, perLevel, n - 1) || AddsAt(globals, perLevel, n - 1))
  }

  lemma {:induction false} TilesGrow(globals: seq<Sprite>, perLevel: bool, a: nat, b: nat)
    requires a <= b <= |globals|
    ensures |Tiles(globals, perLevel, a)| <= |Tiles(globals, perLevel, b)|
    decreases b
  {
    if a < b {
      TilesGrow(globals, perLevel, a, b - 1);
    }
  }

  /**
   * The map check passes exactly when no entry adds tiles or all the
   * added tiles fit beside the loaded ones, and then the map is the loaded
   * tiles followed by every adding entry's tiles in number order. Once an
   * entry adds tiles, a loaded file already longer than `size` is fatal.
   */
  lemma {:induction false} MapAfterOk(globals: seq<Sprite>, perLevel: bool, loaded: seq<Map16>, size: nat, n: nat)
    requires n <= |globals|
    ensures MapAfter(globals, perLevel, loaded, size, n).Fits? <==>
      !AnyAdds(globals, perLevel, n) || |loaded| + |Tiles(globals, perLevel, n)| <= size
    ensures MapAfter(globals, perLevel, loaded, size, n).Fits? ==>
      MapAfter(globals, perLevel, loaded, size, n).tiles == loaded + Tiles(globals, perLevel, n)
  {
    if n > 0 {
      MapAfterOk(globals, perLevel, loaded, size, n - 1);
      var prev := MapAfter(globals, perLevel, loaded, size, n - 1);
      if prev.Fits? {
        MapAfterStep(globals, perLevel, loaded, size, n - 1, prev.tiles);
        if AddsAt(globals, perLevel, n - 1) {
          TilesGrow(globals, perLevel, n - 1, n);
        } else {
          assert Tiles(globals, perLevel, n) == Tiles(globals, perLevel, n - 1) + [];
        }
      } else {
        MapAfterErrStep(globals, perLevel, loaded, size, n - 1);
        TilesGrow(globals, perLevel, n - 1, n);
      }
    }
  }

  /** The map overflow is reported with the number of tiles of the entry that did not fit. */
  lemma {:induction false} MapAfterError(globals: seq<Sprite>, perLevel: bool, loaded: seq<Map16>, size: nat, n: nat)
    requires n <= |globals|
    requires MapAfter(globals, perLevel, loaded, size, n).Overflow?
    ensures exists k :: (0 <= k < n && AddsAt(globals, perLevel, k) &&
      MapAfter(globals, perLevel, loaded, size, n).blocks == |globals[k].mapData|)
  {
    var prev := MapAfter(globals, perLevel, loaded, size, n - 1);
    if prev.Overflow? {
      MapAfterError(globals, perLevel, loaded, size, n - 1);
      MapAfterErrStep(globals, perLevel, loaded, size, n - 1);
      var k :| 0 <= k < n - 1 && AddsAt(globals, perLevel, k) &&
        prev.blocks == |globals[k].mapData|;
      assert 0 <= k < n && AddsAt(globals, perLevel, k);
    } else {
      MapAfterStep(globals, perLevel, loaded, size, n - 1, prev.tiles);
      assert AddsAt(globals, perLevel, n - 1);
    }
  }

  /** `Map16{}`: every corner 0. */
  const EMPTY_MAP16: Map16 := Map16([Map8x8(0, 0), Map8x8(0, 0), Map8x8(0, 0), Map8x8(0, 0)])

  /** `serialize_subfiles`: the map filled up to the `size` tiles reserved for it. */
  function Padded(m: seq<Map16>, size: nat): (r: seq<Map16>)
    ensures |m| <= size ==> |r| == size && r[..|m|] == m && forall k :: |m| <= k < size ==> r[k] == EMPTY_MAP16
    ensures |m| > size ==> r == m
  {
    if |m| <= size then m + seq(size - |m|, _ => EMPTY_MAP16) else m
  }

  /** What `serialize_subfiles` leaves: the size table and the map16 tiles for the s16 file. */
  datatype Subfiles = Subfiles(sizes: seq<byte>, map16: seq<Map16>)

  /** `serialize_subfiles`: `from_table(normal, 0x200, i, ...)`, the 0x100 global entries. */
  function Globals(normal: seq<Sprite>, perLevel: bool): (g: seq<Sprite>)
    requires |normal| == TableSize(SpriteList, perLevel)
    ensures |g| == 0x100 && forall i :: 0 <= i < 0x100 ==> g[i] == normal[GlobalStart(perLevel) + i]
  {
    normal[GlobalStart(perLevel)..]
  }

  function SubfilesOf(normal: seq<Sprite>, perLevel: bool, loaded: seq<Map16>, size: nat): (r: Result<Subfiles>)
    requires |normal| == TableSize(SpriteList, perLevel)
  {
    var globals := Globals(normal, perLevel);
    match MapAfter(globals, perLevel, loaded, size, |globals|)
    case Overflow(b) => Err(PixiError(MapOverflow(b)))
    case Fits(m) => Ok(Subfiles(SizeTable(globals, perLevel), Padded(m, size)))
  }

  /**
   * `serialize_subfiles`: the loop over the 0x100 global numbers fills
   * `extraBytes` and appends tiles to the map, stopping at the first
   * overflow; the map is then padded.
   */
  method SerializeSubfiles(normal: seq<Sprite>, perLevel: bool, loaded: seq<Map16>, size: nat, extraBytes: Array.ByteArray)
    returns (r: Result<seq<Map16>>)
    requires |normal| == TableSize(SpriteList, perLevel) && extraBytes.buf.Length == 0x200
    modifies extraBytes.buf
    ensures var g := Globals(normal, perLevel);
      match MapAfter(g, perLevel, loaded, size, |g|)
      case Overflow(b) => r == Err(PixiError(MapOverflow(b)))
      case Fits(m) => r == Ok(Padded(m, size)) && extraBytes.buf[..] == SizeTable(g, perLevel)
  {
    var start := GlobalStart(perLevel);
    ghost var globals := Globals(normal, perLevel);
    var m := loaded;
    var i := 0;
    while i < 0x100
      invariant 0 <= i <= 0x100
      invariant MapAfter(globals, perLevel, loaded, size, i) == Fits(m)
      invariant extraBytes.buf[..] == SizesAfter(globals, perLevel, i, old(extraBytes.buf[..]))
    {
      var spr := normal[start + i];
      assert spr == globals[i];
      MapAfterStep(globals, perLevel, loaded, size, i, m);
      var size0, size1, next := SubfileEntry(spr, i, perLevel, m, size);
      if next.Overflow? {
        MapAfterStops(globals, perLevel, loaded, size, i + 1);
        assert MapAfter(globals, perLevel, loaded, size, |globals|) == Overflow(next.blocks);
        return Err(PixiError(MapOverflow(next.blocks)));
      }
      extraBytes.buf[i] := size0;
      extraBytes.buf[i + 0x100] := size1;
      m := next.tiles;
      i := i + 1;
    }
    SizesAfterTable(globals, perLevel, old(extraBytes.buf[..]));
    r := Ok(Padded(m, size));
  }

  /** `init` with the size bytes of the first `n` global numbers written in. */
  function SizesAfter(globals: seq<Sprite>, perLevel: bool, n: nat, init: seq<byte>): (b: seq<byte>)
    requires n <= |globals| <= 0x100 && |init| == 0x200
    ensures |b| == 0x200
  {
    if n == 0 then init
    else
      var e := SizeAt(globals, perLevel, n - 1);
      SizesAfter(globals, perLevel, n - 1, init)[n - 1 := e.0][0x100 + n - 1 := e.1]
  }

  lemma {:induction false} SizesAfterReads(globals: seq<Sprite>, perLevel: bool, n: nat, init: seq<byte>)
    requires n <= |globals| <= 0x100 && |init| == 0x200
    ensures forall k :: 0 <= k < n ==>
      SizesAfter(globals, perLevel, n, init)[k] == SizeAt(globals, perLevel, k).0 &&
      SizesAfter(globals, perLevel, n, init)[0x100 + k] == SizeAt(globals, perLevel, k).1
  {
    if n > 0 {
      SizesAfterReads(globals, perLevel, n - 1, init);
    }
  }

  /** After all 0x100 numbers the buffer is the size table, whatever it held before. */
  lemma SizesAfterTable(globals: seq<Sprite>, perLevel: bool, init: seq<byte>)
    requires |globals| == 0x100 && |init| == 0x200
    ensures SizesAfter(globals, perLevel, |globals|, init) == SizeTable(globals, perLevel)
  {
    SizesAfterReads(globals, perLevel, |globals|, init);
    var a := SizesAfter(globals, perLevel, |globals|, init);
    var b := SizeTable(globals, perLevel);
    forall j | 0 <= j < 0x200
      ensures a[j] == b[j]
    {
      if j >= 0x100 {
        assert a[0x100 + (j - 0x100)] == b[0x100 + (j - 0x100)];
      }
    }
  }

  /** `serialize`: `serialize_subfiles` filling a fresh 0x200-byte `extra_bytes`. */
  method WriteSubfiles(normal: seq<Sprite>, perLevel: bool, loaded: seq<Map16>, size: nat) returns (sub: Result<Subfiles>)
    requires |normal| == TableSize(SpriteList, perLevel)
    ensures sub == SubfilesOf(normal, perLevel, loaded, size)
  {
    var extraBytes := new Array.ByteArray(0x200);
    var m := SerializeSubfiles(normal, perLevel, loaded, size, extraBytes);
    SubfilesResult(normal, perLevel, loaded, size, m, extraBytes.buf[..]);
    if m.Ok? {
      sub := Ok(Subfiles(extraBytes.buf[..], m.value));
    } else {
      sub := Err(m.fault);
    }
  }

  /** What `SerializeSubfiles` promises is `SubfilesOf`. */
  lemma SubfilesResult(normal: seq<Sprite>, perLevel: bool, loaded: seq<Map16>, size: nat, m: Result<seq<Map16>>, sizes: seq<byte>)
    requires |normal| == TableSize(SpriteList, perLevel)
    requires var g := Globals(normal, perLevel);
      match MapAfter(g, perLevel, loaded, size, |g|)
      case Overflow(b) => m == Err(PixiError(MapOverflow(b)))
      case Fits(tiles) => m == Ok(Padded(tiles, size)) && sizes == SizeTable(g, perLevel)
    ensures var sub := SubfilesOf(normal, perLevel, loaded, size);
      && (m.Ok? <==> sub.Ok?)
      && (sub.Ok? ==> sub.value == Subfiles(sizes, m.value))
      && (sub.Err? ==> m == Err(sub.fault))
  {
  }

  /** One turn of the loop of `serialize_subfiles`, for global number `i`: its size bytes, and the map with its tiles added. */
  method SubfileEntry(spr: Sprite, i: nat, perLevel: bool, m: seq<Map16>, size: nat) returns (size0: byte, size1: byte, next: Mapped)
    ensures (size0, size1) == SizeEntry(spr, i, perLevel)
    ensures next == if !AddsTiles(spr, i, perLevel) then Fits(m)
      else if |m| + |spr.mapData| > size then Overflow(|spr.mapData|) else Fits(m + spr.mapData)
  {
    next := Fits(m);
    if Reserved(spr, i, perLevel) {
      size0, size1 := 7, 7;
    } else if spr.line != 0 {
      size0, size1 := ToU8(3 + spr.byteCount), ToU8(3 + spr.extraByteCount);
      if |m| + |spr.mapData| > size {
        next := Overflow(|spr.mapData|);
      } else {
        next := Fits(m + spr.mapData);
      }
    } else {
      size0, size1 := 3, 3;
    }
  }

  /** One more global number: its tiles are added, or are fatal when they do not fit. */
  lemma MapAfterStep(globals: seq<Sprite>, perLevel: bool, loaded: seq<Map16>, size: nat, n: nat, m: seq<Map16>)
    requires n < |globals|
    requires MapAfter(globals, perLevel, loaded, size, n) == Fits(m)
    ensures var spr := globals[n];
      MapAfter(globals, perLevel, loaded, size, n + 1) ==
        if !AddsAt(globals, perLevel, n) then Fits(m)
        else if |m| + |spr.mapData| > size then Overflow(|spr.mapData|)
        else Fits(m + spr.mapData)
  {
  }

  /** An overflow ends the map: no later number can make it pass again. */
  lemma {:induction false} MapAfterStops(globals: seq<Sprite>, perLevel: bool, loaded: seq<Map16>, size: nat, n: nat)
    requires n <= |globals|
    requires MapAfter(globals, perLevel, loaded, size, n).Overflow?
    ensures MapAfter(globals, perLevel, loaded, size, |globals|) == MapAfter(globals, perLevel, loaded, size, n)
    decreases |globals| - n
  {
    if n < |globals| {
      MapAfterErrStep(globals, perLevel, loaded, size, n);
      MapAfterStops(globals, perLevel, loaded, size, n + 1);
    }
  }

  lemma MapAfterErrStep(globals: seq<Sprite>, perLevel: bool, loaded: seq<Map16>, size: nat, n: nat)
    requires n < |globals|
    requires MapAfter(globals, perLevel, loaded, size, n).Overflow?
    ensures MapAfter(globals, perLevel, loaded, size, n + 1) == MapAfter(globals, perLevel, loaded, size, n)
  {
  }


  // ---------------------------------------------------------------- serialize


  /** `serialize`: the per-level buffers, each cut at its cursor, or one 0xFF byte each while no entry was allocated. */
  function PerLevelFiles(st: PerLevel.PlsState): (files: seq<Output>)
    requires st.Valid()
  {
    PerLevel.CountBelowFree(st.levelPtrs, PerLevel.LEVEL_COUNT, 0);
    [Output(LevelPtrs, st.levelPtrs[..0x400])] +
    if st.dataAddr == 0 then
      [Output(SpritePtrs, [0xFF]), Output(LevelData, [0xFF]), Output(LevelPointers, [0xFF])]
    else
      [Output(SpritePtrs, st.spritePtrs[..st.spritePtrsAddr]), Output(LevelData, st.data[..st.dataAddr]),
       Output(LevelPointers, st.plsPointers[..st.dataAddr])]
  }

  /**
   * `serialize`: once an entry is allocated the four files hold
   * 0x400 + `sprite_ptrs_addr` + 2 * `data_addr` bytes; before that
   * 0x400 + 3. The level pointers are always written whole.
   */
  lemma PerLevelFilesSize(st: PerLevel.PlsState)
    requires st.Valid()
    ensures var f := PerLevelFiles(st);
      |f| == 4 && f[0].bytes == st.levelPtrs &&
      |f[0].bytes| + |f[1].bytes| + |f[2].bytes| + |f[3].bytes| ==
        if st.dataAddr == 0 then 0x400 + 3 else 0x400 + st.spritePtrsAddr + 2 * st.dataAddr
  {
    PerLevel.CountBelowFree(st.levelPtrs, PerLevel.LEVEL_COUNT, 0);
    assert st.levelPtrs[..0x400] == st.levelPtrs;
  }


  /** What `serialize` has written when it returns or fails, and the map for the s16 file when it returns. */
  datatype Written = Written(files: seq<Output>, map16: Result<seq<Map16>>)

  /** `serialize`: the version flag, the per-level files when `perLevel`, and the default table. */
  function TableFiles(tabs: Tables, st: PerLevel.PlsState, perLevel: bool, versionflag: seq<byte>): (files: seq<Output>)
    requires TablesValid(tabs, perLevel) && st.Valid() && |versionflag| == 4
  {
    [Output(VersionFlag, versionflag)] + (if perLevel then PerLevelFiles(st) else [])
      + [Output(DefaultTables, LongTable(tabs.normal, GlobalStart(perLevel)))]
  }

  /** `serialize`: the status pointers of the global entries, then the cluster, extended and cape pointers. */
  function PointerFiles(tabs: Tables, perLevel: bool): (files: seq<Output>)
    requires TablesValid(tabs, perLevel)
  {
    PointerOutputs(StatusBlob(tabs.normal, GlobalStart(perLevel)), PointerBlob(MainPointers(tabs.cluster)),
      PointerBlob(MainPointers(tabs.extended)), PointerBlob(CapePointers(tabs.extended)))
  }

  function PointerOutputs(status: seq<byte>, cluster: seq<byte>, extended: seq<byte>, cape: seq<byte>): (files: seq<Output>) {
    [Output(StatusPtrs, status), Output(Cluster, cluster), Output(Extended, extended), Output(Cape, cape)]
  }

  /**
   * `serialize`: the table files, the pointer files, then the size
   * table unless the map check of the subfiles failed.
   */
  function Serialized(tabs: Tables, st: PerLevel.PlsState, perLevel: bool, versionflag: seq<byte>, loaded: seq<Map16>, size: nat): (w: Written)
    requires TablesValid(tabs, perLevel) && st.Valid() && |versionflag| == 4
  {
    Finished(TableFiles(tabs, st, perLevel, versionflag) + PointerFiles(tabs, perLevel), SubfilesOf(tabs.normal, perLevel, loaded, size))
  }

  /** `serialize`: the size table is written after `files` only when the subfiles fit. */
  function Finished(files: seq<Output>, sub: Result<Subfiles>): (w: Written) {
    match sub
    case Err(f) => Written(files, Err(f))
    case Ok(sub) => Written(files + [Output(Sizes, sub.sizes)], Ok(sub.map16))
  }

  /** `files` are the files `ids`, in that order. */
  predicate NamedAs(files: seq<Output>, ids: seq<FileId>) {
    |files| == |ids| && forall k :: 0 <= k < |files| ==> files[k].file == ids[k]
  }

  lemma NamedAsAppend(a: seq<Output>, na: seq<FileId>, b: seq<Output>, nb: seq<FileId>)
    requires NamedAs(a, na) && NamedAs(b, nb)
    ensures NamedAs(a + b, na + nb)
  {
    forall k | 0 <= k < |a + b|
      ensures (a + b)[k].file == (na + nb)[k]
    {
      if k >= |a| {
        assert (a + b)[k] == b[k - |a|];
      }
    }
  }

  /** The version flag, the four per-level files when `perLevel`, and the default table. */
  function TableIds(perLevel: bool): seq<FileId> {
    [VersionFlag] + (if perLevel then [LevelPtrs, SpritePtrs, LevelData, LevelPointers] else []) + [DefaultTables]
  }

  /** The table files: the version flag, the four per-level files when `perLevel`, and the default table. */
  lemma TableFilesNames(tabs: Tables, st: PerLevel.PlsState, perLevel: bool, versionflag: seq<byte>)
    requires TablesValid(tabs, perLevel) && st.Valid() && |versionflag| == 4
    ensures NamedAs(TableFiles(tabs, st, perLevel, versionflag), TableIds(perLevel))
  {
    var pl := if perLevel then PerLevelFiles(st) else [];
    var npl := if perLevel then [LevelPtrs, SpritePtrs, LevelData, LevelPointers] else [];
    if perLevel {
      NamedAsFour(pl, npl);
    }
    NamedAsAppend3([Output(VersionFlag, versionflag)], [VersionFlag], pl, npl,
      [Output(DefaultTables, LongTable(tabs.normal, GlobalStart(perLevel)))], [DefaultTables]);
  }

  /** The version flag is written as given, and the default table has 16 or 0x1000 bytes. */
  lemma TableFilesSizes(tabs: Tables, st: PerLevel.PlsState, perLevel: bool, versionflag: seq<byte>)
    requires TablesValid(tabs, perLevel) && st.Valid() && |versionflag| == 4
    ensures var f := TableFiles(tabs, st, perLevel, versionflag);
      && f[0].bytes == versionflag
      && |f[|f| - 1].bytes| == (if EmptyTable(tabs.normal, GlobalStart(perLevel), 0x100) then 0x10 else 0x1000)
  {
    LongTableLayout(tabs.normal, GlobalStart(perLevel));
  }

  /** The pointer files: the status pointers, then the cluster, extended and cape pointers. */
  lemma PointerFilesNames(tabs: Tables, perLevel: bool)
    requires TablesValid(tabs, perLevel)
    ensures NamedAs(PointerFiles(tabs, perLevel), [StatusPtrs, Cluster, Extended, Cape])
  {
    PointerOutputsNames(StatusBlob(tabs.normal, GlobalStart(perLevel)), PointerBlob(MainPointers(tabs.cluster)),
      PointerBlob(MainPointers(tabs.extended)), PointerBlob(CapePointers(tabs.extended)));
  }

  lemma PointerOutputsNames(status: seq<byte>, cluster: seq<byte>, extended: seq<byte>, cape: seq<byte>)
    ensures NamedAs(PointerOutputs(status, cluster, extended, cape), [StatusPtrs, Cluster, Extended, Cape])
  {
    NamedAsFour(PointerOutputs(status, cluster, extended, cape), [StatusPtrs, Cluster, Extended, Cape]);
  }

  /** The pointer files: 0x100 status blocks of 15 bytes, then three blobs of 0x80 pointers. */
  lemma PointerFilesSizes(tabs: Tables, perLevel: bool)
    requires TablesValid(tabs, perLevel)
    ensures var f := PointerFiles(tabs, perLevel);
      |f| == 4 && |f[0].bytes| == 0xF00 && |f[1].bytes| == 0x180 && |f[2].bytes| == 0x180 && |f[3].bytes| == 0x180
  {
    StatusBlobLayout(tabs.normal, GlobalStart(perLevel));
    PointerBlobLayout(MainPointers(tabs.cluster));
    PointerBlobLayout(MainPointers(tabs.extended));
    PointerBlobLayout(CapePointers(tabs.extended));
  }

  lemma NamedAsFour(f: seq<Output>, ids: seq<FileId>)
    requires |f| == 4 && |ids| == 4
    requires f[0].file == ids[0] && f[1].file == ids[1] && f[2].file == ids[2] && f[3].file == ids[3]
    ensures NamedAs(f, ids)
  {
  }

  lemma NamedAsAppend3(t: seq<Output>, nt: seq<FileId>, p: seq<Output>, np: seq<FileId>, e: seq<Output>, ne: seq<FileId>)
    requires NamedAs(t, nt) && NamedAs(p, np) && NamedAs(e, ne)
    ensures NamedAs(t + p + e, nt + np + ne)
  {
    NamedAsAppend(t, nt, p, np);
    NamedAsAppend(t + p, nt + np, e, ne);
  }

  /** The files so far, then the size table exactly when the map check passed. */
  lemma FinishedNames(files: seq<Output>, ids: seq<FileId>, sub: Result<Subfiles>)
    requires NamedAs(files, ids)
    ensures var w := Finished(files, sub);
      && NamedAs(w.files, ids + (if sub.Ok? then [Sizes] else []))
      && (w.map16.Ok? <==> sub.Ok?)
      && (sub.Ok? ==> w.files[|files|].bytes == sub.value.sizes && w.map16.value == sub.value.map16)
  {
    if sub.Ok? {
      NamedAsAppend(files, ids, [Output(Sizes, sub.value.sizes)], [Sizes]);
    } else {
      assert ids + [] == ids;
    }
  }

  /**
   * The files `serialize` writes, in order: the table files, the pointer
   * files, and the size table, which is missing exactly when the map check
   * fails.
   */
  lemma SerializedNames(tabs: Tables, st: PerLevel.PlsState, perLevel: bool, versionflag: seq<byte>, loaded: seq<Map16>, size: nat)
    requires TablesValid(tabs, perLevel) && st.Valid() && |versionflag| == 4
    ensures var w := Serialized(tabs, st, perLevel, versionflag, loaded, size);
      NamedAs(w.files, TableIds(perLevel) + [StatusPtrs, Cluster, Extended, Cape] + (if w.map16.Ok? then [Sizes] else []))
  {
    var t := TableFiles(tabs, st, perLevel, versionflag);
    var p := PointerFiles(tabs, perLevel);
    TableFilesNames(tabs, st, perLevel, versionflag);
    PointerFilesNames(tabs, perLevel);
    NamedAsAppend(t, TableIds(perLevel), p, [StatusPtrs, Cluster, Extended, Cape]);
    FinishedNames(t + p, TableIds(perLevel) + [StatusPtrs, Cluster, Extended, Cape], SubfilesOf(tabs.normal, perLevel, loaded, size));
  }

  /** The map for the s16 file is returned exactly when the subfiles fit, and then the last file is the 0x200-byte size table. */
  lemma SerializedSizeFile(tabs: Tables, st: PerLevel.PlsState, perLevel: bool, versionflag: seq<byte>, loaded: seq<Map16>, size: nat)
    requires TablesValid(tabs, perLevel) && st.Valid() && |versionflag| == 4
    ensures var w := Serialized(tabs, st, perLevel, versionflag, loaded, size);
      && (w.map16.Ok? <==> SubfilesOf(tabs.normal, perLevel, loaded, size).Ok?)
      && (w.map16.Ok? ==> w.files[|w.files| - 1] == Output(Sizes, SubfilesOf(tabs.normal, perLevel, loaded, size).value.sizes))
  {
  }
}
