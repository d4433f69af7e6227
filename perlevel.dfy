/**
 * `PerLevelData` (SpritesData.h) and the per-level part of `patch_sprites`
 * (SpritesData.cpp): a bump allocator that gives each level, the first time
 * one of its B0-BF sprites is inserted, a 0x20-byte chunk of 16 two-byte
 * slots in `sprite_ptrs`, and gives every per-level sprite the next 0x10
 * bytes of `data` and of `pls_pointers`.
 */
module PerLevel {
  import opened Types
  import opened Entities
  import Array

  const LEVEL_COUNT: nat := 0x200
  const LEVEL_PTRS_SIZE: nat := 0x400
  const SPRITE_PTRS_SIZE: nat := 0x4000
  const DATA_SIZE: nat := 0x8000
  /** The bytes of `sprite_ptrs` one level takes: 16 slots of 2 bytes. */
  const CHUNK_SIZE: nat := 0x20
  /** The bytes of `data` (one table row) and of `pls_pointers` one sprite takes. */
  const ENTRY_SIZE: nat := 0x10

  const TOO_MANY_PER_LEVEL: string := "Too many Per-Level sprites. Please remove some.\n"

  /** The little-endian 16-bit word at `at`. */
  function LE16(s: seq<byte>, at: nat): (w: nat)
    requires at + 1 < |s|
    ensures w < 0x10000
  {
    s[at] as nat + s[at + 1] as nat * 0x100
  }

  /** `s` with `(u8)a` at `at` and `(u8)(a >> 8)` after it. */
  function PutLE16(s: seq<byte>, at: nat, a: nat): (r: seq<byte>)
    requires at + 1 < |s|
    ensures |r| == |s|
  {
    s[at := ToU8(a)][at + 1 := ToU8(a / 0x100)]
  }

  /** A stored word reads back, and no other byte changes. */
  lemma PutLE16Reads(s: seq<byte>, at: nat, a: nat)
    requires at + 1 < |s| && a < 0x10000
    ensures LE16(PutLE16(s, at, a), at) == a
    ensures forall k :: 0 <= k < |s| && k != at && k != at + 1 ==> PutLE16(s, at, a)[k] == s[k]
  {
    WordBytes(a);
    var r := PutLE16(s, at, a);
    assert r[at] == ToU8(a) && r[at + 1] == ToU8(a / 0x100);
  }

  /** The two `uint8_t` casts of a 16-bit word are its low and high byte. */
  lemma WordBytes(a: nat)
    requires a < 0x10000
    ensures ToU8(a) as nat + ToU8(a / 0x100) as nat * 0x100 == a
  {
    assert a % 256 + (a / 256) % 256 * 256 == a;
  }

  /** `s` with `b` copied in at `at` (a `memcpy`). */
  function Splice(s: seq<byte>, at: nat, b: seq<byte>): (r: seq<byte>)
    requires at + |b| <= |s|
    ensures |r| == |s|
  {
    s[..at] + b + s[at + |b|..]
  }

  lemma SpliceFacts(s: seq<byte>, at: nat, b: seq<byte>)
    requires at + |b| <= |s|
    ensures Splice(s, at, b)[at..at + |b|] == b
    ensures Splice(s, at, b)[..at] == s[..at] && Splice(s, at, b)[at + |b|..] == s[at + |b|..]
  {
    var r := Splice(s, at, b);
    assert r[..at] == s[..at];
    assert r[at..at + |b|] == b;
    assert r[at + |b|..] == s[at + |b|..];
  }

  /** The pointer stored for level `lv`: one more than its chunk's offset, 0 while it has none. */
  function LevelWord(levelPtrs: seq<byte>, lv: nat): (w: nat)
    requires 2 * lv + 1 < |levelPtrs|
    ensures w < 0x10000
  {
    LE16(levelPtrs, 2 * lv)
  }

  /** How many of the levels below `n` have a chunk. */
  function Count(levelPtrs: seq<byte>, n: nat): (c: nat)
    requires 2 * n <= |levelPtrs|
  {
    if n == 0 then 0 else Count(levelPtrs, n - 1) + (if LevelWord(levelPtrs, n - 1) != 0 then 1 else 0)
  }

  lemma {:induction false} CountBelowFree(levelPtrs: seq<byte>, n: nat, lv: nat)
    requires 2 * n <= |levelPtrs|
    ensures Count(levelPtrs, n) <= n
    ensures lv < n && LevelWord(levelPtrs, lv) == 0 ==> Count(levelPtrs, n) < n
  {
    if n > 0 {
      CountBelowFree(levelPtrs, n - 1, lv);
    }
  }

  lemma {:induction false} CountOfZeros(n: nat)
    ensures Count(Zeros(2 * n), n) == 0
  {
    if n > 0 {
      CountOfZeros(n - 1);
      CountFrame(Zeros(2 * n), Zeros(2 * (n - 1)), n - 1);
      assert LevelWord(Zeros(2 * n), n - 1) == 0;
    }
  }

  lemma {:induction false} CountFrame(a: seq<byte>, b: seq<byte>, n: nat)
    requires 2 * n <= |a| && 2 * n <= |b|
    requires forall k :: 0 <= k < 2 * n ==> a[k] == b[k]
    ensures Count(a, n) == Count(b, n)
  {
    if n > 0 {
      CountFrame(a, b, n - 1);
      assert a[2 * (n - 1)] == b[2 * (n - 1)] && a[2 * (n - 1) + 1] == b[2 * (n - 1) + 1];
    }
  }

  /** Storing a nonzero word for a level that had none counts it once more. */
  lemma {:induction false} CountAfterPut(levelPtrs: seq<byte>, n: nat, lv: nat, a: nat)
    requires 2 * n <= |levelPtrs| && 2 * lv + 1 < |levelPtrs| && 0 < a < 0x10000
    requires LevelWord(levelPtrs, lv) == 0
    ensures Count(PutLE16(levelPtrs, 2 * lv, a), n) == Count(levelPtrs, n) + (if lv < n then 1 else 0)
  {
    if n > 0 {
      CountAfterPut(levelPtrs, n - 1, lv, a);
      PutLE16Reads(levelPtrs, 2 * lv, a);
      var p := PutLE16(levelPtrs, 2 * lv, a);
      if n - 1 != lv {
        assert p[2 * (n - 1)] == levelPtrs[2 * (n - 1)] && p[2 * (n - 1) + 1] == levelPtrs[2 * (n - 1) + 1];
      }
    }
  }

  /** The members of a `PerLevelData`, as values. */
  datatype PlsState = PlsState(spritePtrsAddr: int, dataAddr: int, levelPtrs: seq<byte>, spritePtrs: seq<byte>,
                               data: seq<byte>, plsPointers: seq<byte>)
  {
    /**
     * The buffers have their sizes, the payload cursor is a whole number of
     * entries within `data`, the chunk cursor is one chunk per allocated
     * level, and every allocated level's chunk lies below the chunk cursor.
     */
    ghost predicate Valid() {
      && |levelPtrs| == LEVEL_PTRS_SIZE && |spritePtrs| == SPRITE_PTRS_SIZE
      && |data| == DATA_SIZE && |plsPointers| == DATA_SIZE
      && 0 <= dataAddr <= DATA_SIZE && dataAddr % ENTRY_SIZE == 0
      && spritePtrsAddr == CHUNK_SIZE * Count(levelPtrs, |levelPtrs| / 2)
      && forall lv: nat :: lv < LEVEL_COUNT && LevelWord(levelPtrs, lv) != 0 ==>
          LevelWord(levelPtrs, lv) - 1 + CHUNK_SIZE <= spritePtrsAddr
    }
  }

  /** `PerLevelData{}`: both counters 0 and every buffer zeroed. */
  const INITIAL_STATE: PlsState := PlsState(0, 0, Zeros(LEVEL_PTRS_SIZE), Zeros(SPRITE_PTRS_SIZE), Zeros(DATA_SIZE), Zeros(DATA_SIZE))

  /** The fresh state is consistent, and 0x200 chunks of 0x20 bytes fill `sprite_ptrs` exactly. */
  lemma InitialStateValid()
    ensures INITIAL_STATE.Valid()
    ensures forall lv: nat :: lv < LEVEL_COUNT ==> LevelWord(INITIAL_STATE.levelPtrs, lv) == 0
    ensures LEVEL_COUNT * CHUNK_SIZE == SPRITE_PTRS_SIZE
  {
    CountOfZeros(LEVEL_COUNT);
    forall lv: nat | lv < LEVEL_COUNT
      ensures LevelWord(INITIAL_STATE.levelPtrs, lv) == 0
    {
      assert INITIAL_STATE.levelPtrs[2 * lv] == 0 && INITIAL_STATE.levelPtrs[2 * lv + 1] == 0;
    }
  }

  /** `patch_sprites`: the level's chunk pointer, allocating the next chunk when it has none. */
  function LevelChunk(st: PlsState, lv: nat): (r: (nat, PlsState))
    requires st.Valid() && lv < LEVEL_COUNT
  {
    var w := LevelWord(st.levelPtrs, lv);
    if w == 0 then
      var a := st.spritePtrsAddr + 1;
      (a, st.(levelPtrs := PutLE16(st.levelPtrs, 2 * lv, a), spritePtrsAddr := st.spritePtrsAddr + CHUNK_SIZE))
    else (w, st)
  }

  /**
   * A level's pointer is set at most once: an allocated level keeps its
   * chunk, a new one gets the chunk at the cursor (stored plus one) and
   * moves the cursor by 0x20, no other level changes, and the chunk lies
   * inside `sprite_ptrs`.
   */
  lemma LevelChunkAllocatesOnce(st: PlsState, lv: nat)
    requires st.Valid() && lv < LEVEL_COUNT
    ensures var (chunk, s) := LevelChunk(st, lv);
      && s.Valid() && s.dataAddr == st.dataAddr
      && s.spritePtrs == st.spritePtrs && s.data == st.data && s.plsPointers == st.plsPointers
      && chunk == LevelWord(s.levelPtrs, lv) && 1 <= chunk && chunk - 1 + CHUNK_SIZE <= s.spritePtrsAddr <= SPRITE_PTRS_SIZE
      && (LevelWord(st.levelPtrs, lv) != 0 ==> s == st)
      && (LevelWord(st.levelPtrs, lv) == 0 ==> chunk == st.spritePtrsAddr + 1 && s.spritePtrsAddr == st.spritePtrsAddr + CHUNK_SIZE)
      && forall other: nat :: other < LEVEL_COUNT && other != lv ==> LevelWord(s.levelPtrs, other) == LevelWord(st.levelPtrs, other)
  {
    CountBelowFree(st.levelPtrs, |st.levelPtrs| / 2, lv);
    var (chunk, s) := LevelChunk(st, lv);
    if LevelWord(st.levelPtrs, lv) == 0 {
      var a := st.spritePtrsAddr + 1;
      PutLE16Reads(st.levelPtrs, 2 * lv, a);
      CountAfterPut(st.levelPtrs, |st.levelPtrs| / 2, lv, a);
      forall other: nat | other < LEVEL_COUNT && other != lv
        ensures LevelWord(s.levelPtrs, other) == LevelWord(st.levelPtrs, other)
      {
        assert s.levelPtrs[2 * other] == st.levelPtrs[2 * other];
        assert s.levelPtrs[2 * other + 1] == st.levelPtrs[2 * other + 1];
      }
    }
    CountBelowFree(s.levelPtrs, |s.levelPtrs| / 2, lv);
  }

  /** The slot of `sprite_ptrs` that points at a per-level sprite's entry. */
  function Slot(chunk: nat, number: int): int {
    chunk - 1 + (number - 0xB0) * 2
  }

  /** `patch_sprites`: the slot points at the entry at `data_addr`, which receives the row and the pointers. */
  function PlaceEntry(s: PlsState, slot: nat, spr: Sprite): (r: PlsState)
    requires |s.spritePtrs| == SPRITE_PTRS_SIZE && |s.data| == DATA_SIZE && |s.plsPointers| == DATA_SIZE
    requires slot + 1 < SPRITE_PTRS_SIZE && 0 <= s.dataAddr && s.dataAddr + ENTRY_SIZE <= DATA_SIZE && spr.Valid()
  {
    var d := s.dataAddr;
    s.(spritePtrs := PutLE16(s.spritePtrs, slot, d + 1),
       data := Splice(s.data, d, spr.table.Bytes()),
       plsPointers := Splice(s.plsPointers, d, spr.ptrs.Bytes())[d + 15 := 0xFF],
       dataAddr := d + ENTRY_SIZE)
  }

  /** The per-level allocation of `patch_sprites` for one sprite. */
  function AllocateSpec(st: PlsState, spr: Sprite): (r: Result<PlsState>)
    requires st.Valid() && spr.Valid() && 0 <= spr.level < LEVEL_COUNT && 0xB0 <= spr.number < 0xC0
  {
    LevelChunkAllocatesOnce(st, spr.level);
    var (chunk, s) := LevelChunk(st, spr.level);
    if s.dataAddr >= DATA_SIZE then Err(PixiError(TOO_MANY_PER_LEVEL))
    else Ok(PlaceEntry(s, Slot(chunk, spr.number), spr))
  }

  /** Placing an entry keeps a consistent state consistent: it touches no level pointer. */
  lemma PlaceEntryValid(s: PlsState, slot: nat, spr: Sprite)
    requires s.Valid() && slot + 1 < SPRITE_PTRS_SIZE && s.dataAddr < DATA_SIZE && spr.Valid()
    ensures PlaceEntry(s, slot, spr).Valid()
    ensures PlaceEntry(s, slot, spr).levelPtrs == s.levelPtrs && PlaceEntry(s, slot, spr).spritePtrsAddr == s.spritePtrsAddr
  {
    var d := s.dataAddr;
    assert d + ENTRY_SIZE <= DATA_SIZE;
    var r := PlaceEntry(s, slot, spr);
    assert r.dataAddr == d + ENTRY_SIZE;
    NextEntryAligned(d);
    assert |r.spritePtrs| == SPRITE_PTRS_SIZE;
    assert |r.data| == DATA_SIZE;
    assert |r.plsPointers| == DATA_SIZE;
    ValidOfSameLevels(s, r);
  }

  lemma NextEntryAligned(d: int)
    requires d % ENTRY_SIZE == 0
    ensures (d + ENTRY_SIZE) % ENTRY_SIZE == 0 && d + 0x0F < d + ENTRY_SIZE
  {
  }

  /** Consistency depends on the buffers' sizes, the payload cursor, the level pointers and the chunk cursor only. */
  lemma ValidOfSameLevels(a: PlsState, b: PlsState)
    requires a.Valid() && b.levelPtrs == a.levelPtrs && b.spritePtrsAddr == a.spritePtrsAddr
    requires |b.spritePtrs| == SPRITE_PTRS_SIZE && |b.data| == DATA_SIZE && |b.plsPointers| == DATA_SIZE
    requires 0 <= b.dataAddr <= DATA_SIZE && b.dataAddr % ENTRY_SIZE == 0
    ensures b.Valid()
  {
  }

  /** The allocation is fatal exactly when `data` already holds 0x800 entries. */
  lemma AllocateFailsOnlyWhenFull(st: PlsState, spr: Sprite)
    requires st.Valid() && spr.Valid() && 0 <= spr.level < LEVEL_COUNT && 0xB0 <= spr.number < 0xC0
    ensures AllocateSpec(st, spr).Err? <==> st.dataAddr >= DATA_SIZE
    ensures AllocateSpec(st, spr).Err? ==> AllocateSpec(st, spr).fault == PixiError(TOO_MANY_PER_LEVEL)
  {
    LevelChunkAllocatesOnce(st, spr.level);
  }

  /**
   * A successful allocation keeps the state consistent, moves the payload
   * cursor by exactly one entry and the chunk cursor by one chunk exactly
   * when the level had none, and leaves every level pointer but the
   * sprite's level, and that one too once set, as it was.
   */
  lemma AllocateKeepsLevels(st: PlsState, spr: Sprite)
    requires st.Valid() && spr.Valid() && 0 <= spr.level < LEVEL_COUNT && 0xB0 <= spr.number < 0xC0
    requires st.dataAddr < DATA_SIZE
    ensures AllocateSpec(st, spr).Ok?
    ensures var s := AllocateSpec(st, spr).value;
      && s.Valid()
      && s.dataAddr == st.dataAddr + ENTRY_SIZE
      && s.spritePtrsAddr == st.spritePtrsAddr + (if LevelWord(st.levelPtrs, spr.level) == 0 then CHUNK_SIZE else 0)
      && LevelWord(s.levelPtrs, spr.level) != 0
      && (LevelWord(st.levelPtrs, spr.level) != 0 ==> LevelWord(s.levelPtrs, spr.level) == LevelWord(st.levelPtrs, spr.level))
      && forall other: nat :: other < LEVEL_COUNT && other != spr.level ==>
          LevelWord(s.levelPtrs, other) == LevelWord(st.levelPtrs, other)
  {
    LevelChunkAllocatesOnce(st, spr.level);
    var (chunk, s1) := LevelChunk(st, spr.level);
    PlaceEntryValid(s1, Slot(chunk, spr.number), spr);
  }

  /**
   * A successful allocation stores `data_addr + 1` in the sprite's slot of
   * its level's chunk, below the chunk cursor, and changes no other byte of
   * `sprite_ptrs`; copies the table row to `data` and the status pointers,
   * ended by 0xFF, to `pls_pointers` at `data_addr`, and changes nothing
   * else in either.
   */
  lemma AllocateWritesEntry(st: PlsState, spr: Sprite)
    requires st.Valid() && spr.Valid() && 0 <= spr.level < LEVEL_COUNT && 0xB0 <= spr.number < 0xC0
    requires st.dataAddr < DATA_SIZE
    ensures AllocateSpec(st, spr).Ok?
    ensures var s := AllocateSpec(st, spr).value;
      var d := st.dataAddr;
      var slot := Slot(LevelWord(s.levelPtrs, spr.level), spr.number);
      && 0 <= slot && slot + 1 < s.spritePtrsAddr <= SPRITE_PTRS_SIZE
      && LE16(s.spritePtrs, slot) == d + 1
      && (forall k :: 0 <= k < SPRITE_PTRS_SIZE && k != slot && k != slot + 1 ==> s.spritePtrs[k] == st.spritePtrs[k])
      && s.data[d..d + ENTRY_SIZE] == spr.table.Bytes()
      && s.data[..d] == st.data[..d] && s.data[d + ENTRY_SIZE..] == st.data[d + ENTRY_SIZE..]
      && s.plsPointers[d..d + 15] == spr.ptrs.Bytes() && s.plsPointers[d + 15] == 0xFF
      && s.plsPointers[..d] == st.plsPointers[..d] && s.plsPointers[d + ENTRY_SIZE..] == st.plsPointers[d + ENTRY_SIZE..]
  {
    LevelChunkAllocatesOnce(st, spr.level);
    var (chunk, s1) := LevelChunk(st, spr.level);
    PlaceEntryWrites(s1, Slot(chunk, spr.number), spr);
  }

  lemma PlaceEntryWrites(s: PlsState, slot: nat, spr: Sprite)
    requires |s.spritePtrs| == SPRITE_PTRS_SIZE && |s.data| == DATA_SIZE && |s.plsPointers| == DATA_SIZE
    requires slot + 1 < SPRITE_PTRS_SIZE && 0 <= s.dataAddr && s.dataAddr + ENTRY_SIZE <= DATA_SIZE && spr.Valid()
    ensures var r := PlaceEntry(s, slot, spr);
      var d := s.dataAddr;
      && LE16(r.spritePtrs, slot) == d + 1
      && (forall k :: 0 <= k < SPRITE_PTRS_SIZE && k != slot && k != slot + 1 ==> r.spritePtrs[k] == s.spritePtrs[k])
      && r.data[d..d + ENTRY_SIZE] == spr.table.Bytes()
      && r.data[..d] == s.data[..d] && r.data[d + ENTRY_SIZE..] == s.data[d + ENTRY_SIZE..]
      && r.plsPointers[d..d + 15] == spr.ptrs.Bytes() && r.plsPointers[d + 15] == 0xFF
      && r.plsPointers[..d] == s.plsPointers[..d] && r.plsPointers[d + ENTRY_SIZE..] == s.plsPointers[d + ENTRY_SIZE..]
  {
    var d := s.dataAddr;
    PutLE16Reads(s.spritePtrs, slot, d + 1);
    SpliceFacts(s.data, d, spr.table.Bytes());
    var p := Splice(s.plsPointers, d, spr.ptrs.Bytes());
    SpliceFacts(s.plsPointers, d, spr.ptrs.Bytes());
    var q := p[d + 15 := 0xFF];
    assert q[d..d + 15] == p[d..d + 15];
    assert q[..d] == p[..d];
    assert q[d + ENTRY_SIZE..] == p[d + ENTRY_SIZE..];
  }

  /** `PerLevelData`: two cursors and four fixed-size buffers. */
  class PerLevelData {
    /** `sprite_ptrs_addr`: the next free chunk of `sprite_ptrs`. */
    var spritePtrsAddr: int
    /** `data_addr`: the next free entry of `data` and `pls_pointers`. */
    var dataAddr: int
    const levelPtrs: Array.ByteArray
    const spritePtrs: Array.ByteArray
    const data: Array.ByteArray
    const plsPointers: Array.ByteArray

    function State(): PlsState
      reads this, levelPtrs.buf, spritePtrs.buf, data.buf, plsPointers.buf
    {
      PlsState(spritePtrsAddr, dataAddr, levelPtrs.buf[..], spritePtrs.buf[..], data.buf[..], plsPointers.buf[..])
    }

    /** The four buffers are separate arrays. */
    ghost predicate Distinct() {
      && levelPtrs.buf != spritePtrs.buf && levelPtrs.buf != data.buf && levelPtrs.buf != plsPointers.buf
      && spritePtrs.buf != data.buf && spritePtrs.buf != plsPointers.buf && data.buf != plsPointers.buf
    }

    ghost predicate Valid()
      reads this, levelPtrs.buf, spritePtrs.buf, data.buf, plsPointers.buf
    {
      Distinct() && State().Valid()
    }

    /** `PerLevelData{}`. */
    constructor ()
      ensures Valid() && State() == INITIAL_STATE
      ensures fresh(levelPtrs.buf) && fresh(spritePtrs.buf) && fresh(data.buf) && fresh(plsPointers.buf)
    {
      spritePtrsAddr := 0;
      dataAddr := 0;
      levelPtrs := new Array.ByteArray(LEVEL_PTRS_SIZE);
      spritePtrs := new Array.ByteArray(SPRITE_PTRS_SIZE);
      data := new Array.ByteArray(DATA_SIZE);
      plsPointers := new Array.ByteArray(DATA_SIZE);
      new;
      InitialStateValid();
    }

    /** The level-chunk lookup of `patch_sprites` on the buffers: returns the level's chunk pointer. */
    method LevelChunkOf(lv: nat) returns (chunk: nat)
      requires Valid() && lv < LEVEL_COUNT
      modifies this, levelPtrs.buf
      ensures (chunk, State()) == LevelChunk(old(State()), lv)
    {
      ghost var st := State();
      chunk := levelPtrs.buf[lv * 2] as nat + levelPtrs.buf[lv * 2 + 1] as nat * 0x100;
      assert chunk == LevelWord(st.levelPtrs, lv);
      if chunk == 0 {
        chunk := spritePtrsAddr + 1;
        StoreWord(levelPtrs, lv * 2, chunk);
        spritePtrsAddr := spritePtrsAddr + CHUNK_SIZE;
        assert State() == LevelChunk(st, lv).1;
      }
    }

    /** The entry placement of `patch_sprites` on the buffers: fills the entry at `data_addr` and points `slot` at it. */
    method PlaceEntryAt(slot: nat, spr: Sprite)
      requires |spritePtrs.buf[..]| == SPRITE_PTRS_SIZE && |data.buf[..]| == DATA_SIZE && |plsPointers.buf[..]| == DATA_SIZE
      requires Distinct()
      requires slot + 1 < SPRITE_PTRS_SIZE && 0 <= dataAddr && dataAddr + ENTRY_SIZE <= DATA_SIZE && spr.Valid()
      modifies this, spritePtrs.buf, data.buf, plsPointers.buf
      ensures State() == PlaceEntry(old(State()), slot, spr)
    {
      StoreWord(spritePtrs, slot, dataAddr + 1);
      CopyIn(data, spr.table.Bytes(), dataAddr);
      CopyIn(plsPointers, spr.ptrs.Bytes(), dataAddr);
      var index := dataAddr + 0x0F;
      if index < DATA_SIZE {
        plsPointers.Set(index, 0xFF);
      } else {
        assert false;
      }
      dataAddr := dataAddr + ENTRY_SIZE;
    }

    /** `patch_sprites`: allocates and fills the per-level entry of `spr`. */
    method Allocate(spr: Sprite) returns (r: Result<()>)
      requires Valid() && spr.Valid() && 0 <= spr.level < LEVEL_COUNT && 0xB0 <= spr.number < 0xC0
      modifies this, levelPtrs.buf, spritePtrs.buf, data.buf, plsPointers.buf
      ensures AllocateSpec(old(State()), spr).Err? ==> r == Err(AllocateSpec(old(State()), spr).fault)
      ensures AllocateSpec(old(State()), spr).Ok? ==> r.Ok? && Valid() && State() == AllocateSpec(old(State()), spr).value
    {
      ghost var st := State();
      LevelChunkAllocatesOnce(st, spr.level);
      var addr: int := LevelChunkOf(spr.level);
      ghost var s1 := State();
      assert (addr, s1) == LevelChunk(st, spr.level);
      ghost var chunk := addr;
      addr := addr - 1;
      addr := addr + (spr.number - 0xB0) * 2;
      assert addr == Slot(chunk, spr.number) && 0 <= addr && addr + 1 < SPRITE_PTRS_SIZE;
      if dataAddr >= DATA_SIZE {
        assert AllocateSpec(st, spr) == Err(PixiError(TOO_MANY_PER_LEVEL));
        return Err(PixiError(TOO_MANY_PER_LEVEL));
      }
      assert AllocateSpec(st, spr) == Ok(PlaceEntry(s1, addr, spr));
      PlaceEntryAt(addr, spr);
      AllocateKeepsLevels(st, spr);
      return Ok(());
    }
  }

  /** Stores `a` little-endian at `at`, as two `uint8_t` casts. */
  method StoreWord(arr: Array.ByteArray, at: nat, a: nat)
    requires at + 1 < arr.buf.Length
    modifies arr.buf
    ensures arr.buf[..] == PutLE16(old(arr.buf[..]), at, a)
  {
    arr.Set(at, ToU8(a));
    arr.Set(at + 1, ToU8(a / 0x100));
  }

  /** `memcpy(&arr[at], bytes, sizeof)`. */
  method CopyIn(arr: Array.ByteArray, bytes: seq<byte>, at: nat)
    requires at + |bytes| <= arr.buf.Length
    modifies arr.buf
    ensures arr.buf[..] == Splice(old(arr.buf[..]), at, bytes)
  {
    arr.WriteAt(bytes, |bytes|, at);
    assert bytes[..|bytes|] == bytes;
  }
}
