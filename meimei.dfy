/**
 * MeiMei/MeiMei.cpp: the remapper that rebuilds every level's sprite data
 * when the per-sprite extra-byte counts change between the image before
 * and after an insertion. A level's sprite data is a stream: one format
 * byte, then 3-byte records followed by their extra bytes, ended by 0xFF
 * (or, in the extended format, 0xFF 0xFE). Each record's trailing bytes are
 * copied, cut or padded with zeros from the old count to the new count,
 * into a 0x800-byte buffer.
 */
module MeiMei {
  import opened Types
  import Rom
  import Array
  import Util
  import CLib

  /** `SPR_ADDR_LIMIT`: the capacity of `sprAllData`. */
  const SPR_ADDR_LIMIT: nat := 0x800
  /** The extra-byte tables hold one count per entity number. */
  const EXTRA_TABLE_SIZE: nat := 0x400
  const LEVEL_COUNT: nat := 0x200

  // ---------------------------------------------------------------- reading one level

  /**
   * What the walk of one level reads: the image buffer of `now`, its header
   * offset and `size()` (the bound of `now.data().at`), and the level's
   * un-headered start offset `sprAddrPC`.
   */
  datatype Source = Source(img: seq<byte>, hdr: nat, size: nat, start: nat)

  /** A byte of the 16 MiB buffer; a read past the allocation is undefined and reads as 0 here. */
  function ImageByte(img: seq<byte>, i: nat): (b: byte)
    ensures i < |img| ==> b == img[i]
  {
    if i < |img| then img[i] else 0
  }

  /** `now.read_byte(sprAddrPC + ofs)`: header-relative and unchecked. */
  function ReadByte(src: Source, ofs: nat): byte {
    ImageByte(src.img, src.hdr + src.start + ofs)
  }

  /**
   * `sprCommonData.write(now.data().at(sprAddrPC + ofs), 3)`: the view's
   * `at` exits when the index is not below the image size, then three bytes
   * from there are copied.
   */
  function Peek(src: Source, ofs: nat): (r: Result<seq<byte>>)
    ensures r.Err? <==> src.start + ofs >= src.size
    ensures r.Err? ==> r.fault == OutOfRange
    ensures r.Ok? ==> r.value == [ReadByte(src, ofs), ReadByte(src, ofs + 1), ReadByte(src, ofs + 2)]
  {
    if src.start + ofs >= src.size then Err(OutOfRange)
    else Ok([ReadByte(src, ofs), ReadByte(src, ofs + 1), ReadByte(src, ofs + 2)])
  }

  /**
   * `sprNum`: bits 2-3 of the first header byte, shifted above the third
   * header byte (the bytes are promoted to `int`, so 16 bits hold it).
   */
  function EntityNumber(b0: byte, b2: byte): (n: nat)
    ensures n < EXTRA_TABLE_SIZE
  {
    ((((b0 & 0x0C) as bv16) << 6) | b2 as bv16) as nat
  }

  /**
   * The extra bytes emitted after a record's header for old count
   * `prevCount` and new count `newCount` (both include the 3 header bytes,
   * as the copy loops start at 3): old byte `3 + k` while the old record
   * has one, zero after that.
   */
  function TrailingBytes(src: Source, ofs: nat, prevCount: nat, newCount: nat): (t: seq<byte>)
    ensures |t| == if newCount > 3 then newCount - 3 else 0
  {
    seq(if newCount > 3 then newCount - 3 else 0, k => if 0 <= k && 3 + k < prevCount then ReadByte(src, ofs + 3 + k) else 0)
  }

  // ---------------------------------------------------------------- the walk

  /** The walk's variables between records: `prevOfs`, the bytes written so far (`nowOfs` of them), `changeData`. */
  datatype Walk = Walk(prevOfs: nat, out: seq<byte>, changed: bool)

  /** One turn of the `while (true)` loop. */
  datatype Turn =
    | Next(w: Walk)        // the loop goes round again
    | Finished(w: Walk)    // `break`: the level's stream ended
    | TooLarge             // ERR("Sprite data is too large!"): `run` returns 1
    | Abort(fault: Fault)  // `at` ended the process

  /** The tables are the snapshots `prevEx` and `nowEx`. */
  predicate Tables(prevEx: seq<byte>, nowEx: seq<byte>) {
    |prevEx| == EXTRA_TABLE_SIZE && |nowEx| == EXTRA_TABLE_SIZE
  }

  /**
   * A 3-byte record at `w.prevOfs`: its header is copied, then its trailing
   * bytes with the size check after each one; the source cursor moves by
   * the old count, whatever the new count is.
   */
  function Record(src: Source, prevEx: seq<byte>, nowEx: seq<byte>, w: Walk, header: seq<byte>): (r: Turn)
    requires Tables(prevEx, nowEx) && |header| == 3
    ensures !r.Finished? && !r.Abort?
  {
    var out := w.out + header;
    var n := EntityNumber(header[0], header[2]);
    var p, q := prevEx[n] as nat, nowEx[n] as nat;
    var t := TrailingBytes(src, w.prevOfs, p, q);
    if |t| > 0 && |out| + |t| >= SPR_ADDR_LIMIT then TooLarge
    else Next(Walk(w.prevOfs + p, out + t, w.changed || p != q))
  }

  /**
   * One turn of the loop. `ext` is the level's extended-format bit. With
   * `guard` false this is the loop as written; with `guard` true the size
   * check is repeated after the extended-format 0xFF prefix, before the
   * record header is written.
   */
  function Step(src: Source, prevEx: seq<byte>, nowEx: seq<byte>, ext: bool, guard: bool, w: Walk): (r: Turn)
    requires Tables(prevEx, nowEx)
    ensures r.Next? || r.Finished? ==> w.out <= r.w.out
    ensures r.Next? ==> |w.out| + 3 <= |r.w.out| <= SPR_ADDR_LIMIT + 1
    ensures r.Finished? ==> |r.w.out| < SPR_ADDR_LIMIT
    ensures guard && r.Next? ==> |r.w.out| < SPR_ADDR_LIMIT
  {
    match Peek(src, w.prevOfs)
    case Err(f) => Abort(f)
    case Ok(c) =>
      if |w.out| >= SPR_ADDR_LIMIT - 3 then TooLarge
      else if c[0] != 0xFF then Record(src, prevEx, nowEx, w, c)
      else if !ext then Finished(w.(out := w.out + [0xFF]))
      else if c[1] == 0xFE then Finished(w.(out := w.out + [0xFF, c[1]]))
      else
        var w2 := Walk(w.prevOfs + 2, w.out + [0xFF, c[1]], w.changed);
        match Peek(src, w2.prevOfs)
        case Err(f) => Abort(f)
        case Ok(d) =>
          if guard && |w2.out| >= SPR_ADDR_LIMIT - 3 then TooLarge
          else Record(src, prevEx, nowEx, w2, d)
  }

  /** The loop from `w` on, until it ends one way or another. */
  function LevelWalk(src: Source, prevEx: seq<byte>, nowEx: seq<byte>, ext: bool, guard: bool, w: Walk): (r: Turn)
    requires Tables(prevEx, nowEx) && |w.out| <= SPR_ADDR_LIMIT + 1
    ensures !r.Next?
    ensures r.Finished? ==> w.out <= r.w.out && |r.w.out| < SPR_ADDR_LIMIT
    decreases SPR_ADDR_LIMIT + 2 - |w.out|
  {
    match Step(src, prevEx, nowEx, ext, guard, w)
    case Next(w') => LevelWalk(src, prevEx, nowEx, ext, guard, w')
    case r => r
  }

  /** A level: its format byte is copied (unchecked read), then the walk starts after it. */
  function RemapLevel(src: Source, prevEx: seq<byte>, nowEx: seq<byte>, guard: bool): (r: Turn)
    requires Tables(prevEx, nowEx)
    ensures !r.Next?
    ensures r.Finished? ==> |r.w.out| >= 1 && r.w.out[0] == ReadByte(src, 0) && |r.w.out| < SPR_ADDR_LIMIT
  {
    var first := ReadByte(src, 0);
    LevelWalk(src, prevEx, nowEx, first & 0x20 != 0, guard, Walk(1, [first], false))
  }

  // ---------------------------------------------------------------- properties of the walk

  /** `read_byte(sprAddrPC + ofs + i)` for `lo <= i < hi`: what one of the copy loops reads. */
  function OldBytes(src: Source, ofs: nat, lo: nat, hi: nat): (b: seq<byte>)
    ensures |b| == if hi > lo then hi - lo else 0
  {
    if hi <= lo then [] else OldBytes(src, ofs, lo, hi - 1) + [ReadByte(src, ofs + hi - 1)]
  }

  lemma {:induction false} OldBytesAt(src: Source, ofs: nat, lo: nat, hi: nat, k: nat)
    requires lo + k < hi
    ensures OldBytes(src, ofs, lo, hi)[k] == ReadByte(src, ofs + lo + k)
    decreases hi
  {
    if lo + k < hi - 1 {
      OldBytesAt(src, ofs, lo, hi - 1, k);
    }
  }

  /** How many zeros the growth branch's second loop writes: from `max(3, prevCount)` up to `newCount`. */
  function PadCount(prevCount: nat, newCount: nat): nat {
    var from3 := if prevCount > 3 then prevCount else 3;
    if newCount > from3 then newCount - from3 else 0
  }

  /**
   * The three branches of the reconciliation: when the count grows, the old
   * extra bytes are copied and then zeros pad up to the new count; when it
   * shrinks or stays, the first new-count-minus-3 old bytes are copied.
   */
  lemma TrailingBytesCases(src: Source, ofs: nat, prevCount: nat, newCount: nat)
    ensures newCount > prevCount ==>
      TrailingBytes(src, ofs, prevCount, newCount) ==
        OldBytes(src, ofs, 3, prevCount) + Zeros(PadCount(prevCount, newCount))
    ensures newCount <= prevCount ==>
      TrailingBytes(src, ofs, prevCount, newCount) == OldBytes(src, ofs, 3, newCount)
  {
    var t := TrailingBytes(src, ofs, prevCount, newCount);
    if newCount > prevCount {
      var e := OldBytes(src, ofs, 3, prevCount) + Zeros(PadCount(prevCount, newCount));
      assert |t| == |e|;
      forall k | 0 <= k < |t|
        ensures t[k] == e[k]
      {
        if 3 + k < prevCount {
          OldBytesAt(src, ofs, 3, prevCount, k);
        }
      }
    } else {
      var e := OldBytes(src, ofs, 3, newCount);
      forall k | 0 <= k < |t|
        ensures t[k] == e[k]
      {
        OldBytesAt(src, ofs, 3, newCount, k);
      }
    }
  }

  /**
   * A record is copied with its header, the cursor moves by the old count
   * and `changeData` is set exactly when the old and new counts differ.
   */
  lemma RecordEffect(src: Source, prevEx: seq<byte>, nowEx: seq<byte>, w: Walk, header: seq<byte>)
    requires Tables(prevEx, nowEx) && |header| == 3
    ensures var n := EntityNumber(header[0], header[2]);
      Record(src, prevEx, nowEx, w, header).Next? ==>
        && Record(src, prevEx, nowEx, w, header).w.out[..|w.out| + 3] == w.out + header
        && Record(src, prevEx, nowEx, w, header).w.prevOfs == w.prevOfs + prevEx[n] as nat
        && (Record(src, prevEx, nowEx, w, header).w.changed <==> w.changed || prevEx[n] as nat != nowEx[n] as nat)
        && |Record(src, prevEx, nowEx, w, header).w.out| == |w.out| + 3 + (if nowEx[n] > 3 then nowEx[n] as nat - 3 else 0)
  {
    var n := EntityNumber(header[0], header[2]);
    var t := TrailingBytes(src, w.prevOfs, prevEx[n] as nat, nowEx[n] as nat);
    assert (w.out + header + t)[..|w.out| + 3] == w.out + header;
  }

  /** With identical tables no record changes, so the level is never patched. */
  lemma {:induction false} EqualTablesLeaveWalkUnchanged(src: Source, tbl: seq<byte>, ext: bool, guard: bool, w: Walk)
    requires Tables(tbl, tbl) && |w.out| <= SPR_ADDR_LIMIT + 1
    ensures LevelWalk(src, tbl, tbl, ext, guard, w).Finished? ==> LevelWalk(src, tbl, tbl, ext, guard, w).w.changed == w.changed
    decreases SPR_ADDR_LIMIT + 2 - |w.out|
  {
    var s := Step(src, tbl, tbl, ext, guard, w);
    if s.Next? {
      assert s.w.changed == w.changed;
      EqualTablesLeaveWalkUnchanged(src, tbl, ext, guard, s.w);
    }
  }

  lemma EqualTablesLeaveLevelUnchanged(src: Source, tbl: seq<byte>, guard: bool)
    requires Tables(tbl, tbl)
    ensures RemapLevel(src, tbl, tbl, guard).Finished? ==> !RemapLevel(src, tbl, tbl, guard).w.changed
  {
    var first := ReadByte(src, 0);
    EqualTablesLeaveWalkUnchanged(src, tbl, first & 0x20 != 0, guard, Walk(1, [first], false));
  }

  /**
   * The loop as written: 0x7FC bytes are written, then an extended-format
   * level continues with 0xFF 0x00 and a record. The size check passes
   * (0x7FC < 0x7FD), the prefix takes the output to 0x7FE and the record
   * header is written at 0x7FE, 0x7FF and 0x800, one past the end of
   * `sprAllData`. With the repeated check the same turn stops with the
   * size error instead.
   */
  lemma ExtendedPrefixOverrunsBuffer()
    ensures var src := Source([0xFF, 0x00, 0x01, 0x02, 0x03], 0, 5, 0);
      var w := Walk(0, Zeros(0x7FC), false);
      && Step(src, Zeros(EXTRA_TABLE_SIZE), Zeros(EXTRA_TABLE_SIZE), true, false, w).Next?
      && |Step(src, Zeros(EXTRA_TABLE_SIZE), Zeros(EXTRA_TABLE_SIZE), true, false, w).w.out| == SPR_ADDR_LIMIT + 1
      && Step(src, Zeros(EXTRA_TABLE_SIZE), Zeros(EXTRA_TABLE_SIZE), true, true, w) == TooLarge
  {
    var src := Source([0xFF, 0x00, 0x01, 0x02, 0x03], 0, 5, 0);
    assert Peek(src, 0).value == [0xFF, 0x00, 0x01];
    assert Peek(src, 2).value == [0x01, 0x02, 0x03];
  }

  // ---------------------------------------------------------------- the walk over the image

  /**
   * One of the copy loops: `read_byte(sprAddrPC + prevOfs + i)` for
   * `lo <= i < hi` appended to `sprAllData` at `ofs`, each write followed
   * by the size check. `fits` is false when the check fired.
   */
  method AppendOldBytes(src: Source, prevOfs: nat, buf: array<byte>, ofs: nat, lo: nat, hi: nat)
    returns (end: nat, fits: bool)
    requires buf.Length == SPR_ADDR_LIMIT && ofs < SPR_ADDR_LIMIT
    requires forall j :: ofs <= j < SPR_ADDR_LIMIT ==> buf[j] == 0
    modifies buf
    ensures fits <==> ofs + |OldBytes(src, prevOfs, lo, hi)| < SPR_ADDR_LIMIT
    ensures fits ==> end == ofs + |OldBytes(src, prevOfs, lo, hi)| && buf[..end] == old(buf[..ofs]) + OldBytes(src, prevOfs, lo, hi)
    ensures fits ==> forall j :: end <= j < SPR_ADDR_LIMIT ==> buf[j] == 0
  {
    ghost var before := buf[..ofs];
    end := ofs;
    if hi <= lo {
      return end, true;
    }
    var i := lo;
    while i < hi
      invariant lo <= i <= hi
      invariant end == ofs + i - lo < SPR_ADDR_LIMIT
      invariant buf[..end] == before + OldBytes(src, prevOfs, lo, i)
      invariant forall j :: end <= j < SPR_ADDR_LIMIT ==> buf[j] == 0
    {
      var b := ReadByte(src, prevOfs + i);
      buf[end] := b;
      assert buf[..end + 1] == buf[..end] + [b];
      end := end + 1;
      if end >= SPR_ADDR_LIMIT {
        return end, false;
      }
      i := i + 1;
    }
    return end, true;
  }

  /** The zero-padding loop of the growth branch: `n` zeros, each write followed by the size check. */
  method AppendZeros(buf: array<byte>, ofs: nat, n: nat) returns (end: nat, fits: bool)
    requires buf.Length == SPR_ADDR_LIMIT && ofs < SPR_ADDR_LIMIT
    requires forall j :: ofs <= j < SPR_ADDR_LIMIT ==> buf[j] == 0
    modifies buf
    ensures fits <==> ofs + n < SPR_ADDR_LIMIT
    ensures fits ==> end == ofs + n && buf[..end] == old(buf[..ofs]) + Zeros(n)
    ensures fits ==> forall j :: end <= j < SPR_ADDR_LIMIT ==> buf[j] == 0
  {
    ghost var before := buf[..ofs];
    end := ofs;
    var k := 0;
    while k < n
      invariant k <= n
      invariant end == ofs + k < SPR_ADDR_LIMIT
      invariant buf[..end] == before + Zeros(k)
      invariant forall j :: end <= j < SPR_ADDR_LIMIT ==> buf[j] == 0
    {
      buf[end] := 0;
      assert buf[..end + 1] == buf[..end] + [0];
      assert Zeros(k + 1) == Zeros(k) + [0];
      end := end + 1;
      if end >= SPR_ADDR_LIMIT {
        return end, false;
      }
      k := k + 1;
    }
    return end, true;
  }

  /** `run(rom, cfg)`: the record's three header bytes. */
  method AppendHeader(buf: array<byte>, ofs: nat, header: seq<byte>) returns (end: nat)
    requires |header| == 3 && buf.Length == SPR_ADDR_LIMIT && ofs < SPR_ADDR_LIMIT - 3
    requires forall j :: ofs <= j < SPR_ADDR_LIMIT ==> buf[j] == 0
    modifies buf
    ensures end == ofs + 3 && buf[..end] == old(buf[..ofs]) + header
    ensures forall j :: end <= j < SPR_ADDR_LIMIT ==> buf[j] == 0
  {
    buf[ofs] := header[0];
    buf[ofs + 1] := header[1];
    buf[ofs + 2] := header[2];
    end := ofs + 3;
    assert buf[..end] == old(buf[..ofs]) + header;
  }

  /** The growth branch of `run(rom, cfg)`: the old extra bytes, then zeros up to the new count. */
  method AppendGrown(src: Source, prevOfs: nat, buf: array<byte>, ofs: nat, p: nat, q: nat) returns (end: nat, fits: bool)
    requires q > p
    requires buf.Length == SPR_ADDR_LIMIT && ofs < SPR_ADDR_LIMIT
    requires forall j :: ofs <= j < SPR_ADDR_LIMIT ==> buf[j] == 0
    modifies buf
    ensures fits <==> ofs + |TrailingBytes(src, prevOfs, p, q)| < SPR_ADDR_LIMIT
    ensures fits ==> end == ofs + |TrailingBytes(src, prevOfs, p, q)|
    ensures fits ==> buf[..end] == old(buf[..ofs]) + TrailingBytes(src, prevOfs, p, q)
    ensures fits ==> forall j :: end <= j < SPR_ADDR_LIMIT ==> buf[j] == 0
  {
    TrailingBytesCases(src, prevOfs, p, q);
    ghost var before := buf[..ofs];
    end, fits := AppendOldBytes(src, prevOfs, buf, ofs, 3, p);
    if fits {
      ghost var mid := buf[..end];
      end, fits := AppendZeros(buf, end, PadCount(p, q));
      if fits {
        assert buf[..end] == before + (OldBytes(src, prevOfs, 3, p) + Zeros(PadCount(p, q)));
      }
    }
  }

  /** The shrink and equal branches of `run(rom, cfg)`: the old extra bytes up to the new count. */
  method AppendKept(src: Source, prevOfs: nat, buf: array<byte>, ofs: nat, p: nat, q: nat) returns (end: nat, fits: bool)
    requires q <= p
    requires buf.Length == SPR_ADDR_LIMIT && ofs < SPR_ADDR_LIMIT
    requires forall j :: ofs <= j < SPR_ADDR_LIMIT ==> buf[j] == 0
    modifies buf
    ensures fits <==> ofs + |TrailingBytes(src, prevOfs, p, q)| < SPR_ADDR_LIMIT
    ensures fits ==> end == ofs + |TrailingBytes(src, prevOfs, p, q)|
    ensures fits ==> buf[..end] == old(buf[..ofs]) + TrailingBytes(src, prevOfs, p, q)
    ensures fits ==> forall j :: end <= j < SPR_ADDR_LIMIT ==> buf[j] == 0
  {
    TrailingBytesCases(src, prevOfs, p, q);
    end, fits := AppendOldBytes(src, prevOfs, buf, ofs, 3, q);
  }

  /** `run(rom, cfg)`: the branch on the old and new extra-byte counts. */
  method AppendTrailing(src: Source, prevOfs: nat, buf: array<byte>, ofs: nat, p: nat, q: nat) returns (end: nat, fits: bool)
    requires buf.Length == SPR_ADDR_LIMIT && ofs < SPR_ADDR_LIMIT
    requires forall j :: ofs <= j < SPR_ADDR_LIMIT ==> buf[j] == 0
    modifies buf
    ensures fits <==> ofs + |TrailingBytes(src, prevOfs, p, q)| < SPR_ADDR_LIMIT
    ensures fits ==> end == ofs + |TrailingBytes(src, prevOfs, p, q)|
    ensures fits ==> buf[..end] == old(buf[..ofs]) + TrailingBytes(src, prevOfs, p, q)
    ensures fits ==> forall j :: end <= j < SPR_ADDR_LIMIT ==> buf[j] == 0
  {
    if q > p {
      end, fits := AppendGrown(src, prevOfs, buf, ofs, p, q);
    } else {
      end, fits := AppendKept(src, prevOfs, buf, ofs, p, q);
    }
  }

  /**
   * `run(rom, cfg)`: a record's header and trailing bytes written into
   * `sprAllData` at `nowOfs`; `changeData` is set in the growth and shrink
   * branches, and the cursor moves by the old count.
   */
  method WriteRecord(src: Source, prevEx: seq<byte>, nowEx: seq<byte>, buf: array<byte>,
                     prevOfs: nat, nowOfs: nat, changed: bool, header: seq<byte>) returns (r: Turn)
    requires Tables(prevEx, nowEx) && |header| == 3
    requires buf.Length == SPR_ADDR_LIMIT && nowOfs < SPR_ADDR_LIMIT - 3
    requires forall i :: nowOfs <= i < SPR_ADDR_LIMIT ==> buf[i] == 0
    modifies buf
    ensures r == Record(src, prevEx, nowEx, Walk(prevOfs, old(buf[..nowOfs]), changed), header)
    ensures r.Next? ==> buf[..|r.w.out|] == r.w.out && forall i :: |r.w.out| <= i < SPR_ADDR_LIMIT ==> buf[i] == 0
  {
    var ofs := AppendHeader(buf, nowOfs, header);
    var n := EntityNumber(header[0], header[2]);
    var p, q := prevEx[n] as nat, nowEx[n] as nat;
    ghost var t := TrailingBytes(src, prevOfs, p, q);
    ghost var expected := Record(src, prevEx, nowEx, Walk(prevOfs, old(buf[..nowOfs]), changed), header);
    assert expected == if |t| > 0 && ofs + |t| >= SPR_ADDR_LIMIT then TooLarge
                       else Next(Walk(prevOfs + p, old(buf[..nowOfs]) + header + t, changed || p != q));
    var dirty := changed || p != q;
    var fits;
    ofs, fits := AppendTrailing(src, prevOfs, buf, ofs, p, q);
    if !fits {
      return TooLarge;
    }
    return Next(Walk(prevOfs + p, buf[..ofs], dirty));
  }

  /**
   * One turn of the loop of `run(rom, cfg)` with the size check repeated
   * after the extended-format prefix: the bytes of the turn are written
   * into `sprAllData` from `nowOfs` on.
   */
  method WalkTurn(src: Source, prevEx: seq<byte>, nowEx: seq<byte>, ext: bool, buf: array<byte>,
                  prevOfs: nat, nowOfs: nat, changed: bool) returns (r: Turn)
    requires Tables(prevEx, nowEx)
    requires buf.Length == SPR_ADDR_LIMIT && nowOfs < SPR_ADDR_LIMIT
    requires forall i :: nowOfs <= i < SPR_ADDR_LIMIT ==> buf[i] == 0
    modifies buf
    ensures r == Step(src, prevEx, nowEx, ext, true, Walk(prevOfs, old(buf[..nowOfs]), changed))
    ensures r.Next? || r.Finished? ==>
      buf[..|r.w.out|] == r.w.out && forall i :: |r.w.out| <= i < SPR_ADDR_LIMIT ==> buf[i] == 0
  {
    var peeked := Peek(src, prevOfs);
    if peeked.Err? {
      return Abort(peeked.fault);
    }
    if nowOfs >= SPR_ADDR_LIMIT - 3 {
      return TooLarge;
    }
    var c := peeked.value;
    if c[0] != 0xFF {
      r := WriteRecord(src, prevEx, nowEx, buf, prevOfs, nowOfs, changed, c);
      return;
    }
    buf[nowOfs] := 0xFF;
    if !ext {
      assert buf[..nowOfs + 1] == old(buf[..nowOfs]) + [0xFF];
      return Finished(Walk(prevOfs, buf[..nowOfs + 1], changed));
    }
    buf[nowOfs + 1] := c[1];
    assert buf[..nowOfs + 2] == old(buf[..nowOfs]) + [0xFF, c[1]];
    if c[1] == 0xFE {
      return Finished(Walk(prevOfs, buf[..nowOfs + 2], changed));
    }
    var next := Peek(src, prevOfs + 2);
    if next.Err? {
      return Abort(next.fault);
    }
    if nowOfs + 2 >= SPR_ADDR_LIMIT - 3 {
      return TooLarge;
    }
    r := WriteRecord(src, prevEx, nowEx, buf, prevOfs + 2, nowOfs + 2, changed, next.value);
  }

  /**
   * The body of `run`'s level loop for one level: `sprAllData` is cleared, the format byte
   * is copied, and turns run until the stream ends or the walk fails. On a
   * normal end the buffer holds the rebuilt stream followed by zeros.
   */
  method WalkLevel(src: Source, prevEx: seq<byte>, nowEx: seq<byte>, buf: array<byte>) returns (r: Turn)
    requires Tables(prevEx, nowEx) && buf.Length == SPR_ADDR_LIMIT
    modifies buf
    ensures r == RemapLevel(src, prevEx, nowEx, true)
    ensures r.Finished? ==> buf[..] == r.w.out + Zeros(SPR_ADDR_LIMIT - |r.w.out|)
  {
    for i := 0 to SPR_ADDR_LIMIT
      invariant forall j :: 0 <= j < i ==> buf[j] == 0
    {
      buf[i] := 0;
    }
    var first := ReadByte(src, 0);
    buf[0] := first;
    var ext := first & 0x20 != 0;
    var prevOfs, nowOfs, changed := 1, 1, false;
    assert buf[..nowOfs] == [first];
    while true
      invariant 1 <= nowOfs < SPR_ADDR_LIMIT
      invariant forall j :: nowOfs <= j < SPR_ADDR_LIMIT ==> buf[j] == 0
      invariant LevelWalk(src, prevEx, nowEx, ext, true, Walk(prevOfs, buf[..nowOfs], changed)) ==
                RemapLevel(src, prevEx, nowEx, true)
      decreases SPR_ADDR_LIMIT - nowOfs
    {
      var t := WalkTurn(src, prevEx, nowEx, ext, buf, prevOfs, nowOfs, changed);
      if !t.Next? {
        if t.Finished? {
          assert buf[..] == t.w.out + Zeros(SPR_ADDR_LIMIT - |t.w.out|);
        }
        return t;
      }
      prevOfs, nowOfs, changed := t.w.prevOfs, |t.w.out|, t.w.changed;
    }
  }

  // ---------------------------------------------------------------- change detection

  /** `run(rom, cfg)`: the first entity number whose counts differ stops the scan. */
  method ExtraCountsChanged(prevEx: array<byte>, nowEx: array<byte>) returns (changeEx: bool)
    requires prevEx.Length == EXTRA_TABLE_SIZE && nowEx.Length == EXTRA_TABLE_SIZE
    ensures changeEx <==> prevEx[..] != nowEx[..]
  {
    changeEx := false;
    var i := 0;
    while i < EXTRA_TABLE_SIZE
      invariant i <= EXTRA_TABLE_SIZE
      invariant prevEx[..i] == nowEx[..i]
    {
      if prevEx[i] != nowEx[i] {
        assert prevEx[..][i] != nowEx[..][i];
        changeEx := true;
        return;
      }
      assert prevEx[..i + 1] == prevEx[..i] + [prevEx[i]];
      assert nowEx[..i + 1] == nowEx[..i] + [nowEx[i]];
      i := i + 1;
    }
    assert prevEx[..] == prevEx[..i] && nowEx[..] == nowEx[..i];
  }

  // ---------------------------------------------------------------- the image and its pointers

  /** A `Rom` as `run` reads it: the file's bytes, the header offset and the mapper its constructor derived. */
  datatype Image = Image(bytes: seq<byte>, hdr: SizeT, mapper: Rom.MapperType)

  /** `Rom(name)` on a file with these contents. */
  function ImageOf(contents: seq<byte>): Image
    requires |contents| <= Rom.MAX_ROM_SIZE
  {
    Image(contents, Rom.HeaderOf(|contents|), Rom.DetectMapper(contents))
  }

  /** `read_byte(offset)`: header-relative; beyond the file the zeroed buffer reads 0. */
  function ImageRead(im: Image, offset: nat): byte {
    ImageByte(im.bytes, im.hdr as nat + offset)
  }

  /**
   * `int x = snes_to_pc(address, false)`: the `size_t` result is narrowed
   * to `int`, so the sentinel becomes -1; every other result is below
   * 8 MiB and keeps its value.
   */
  function PcAsInt(im: Image, address: SizeT): (v: int)
    ensures v == -1 <==> Rom.PcOffset(im.mapper, im.hdr, address, false) == SIZE_MAX
    ensures v != -1 ==> 0 <= v < 0x80_0000 && v == Rom.PcOffset(im.mapper, im.hdr, address, false) as int
    ensures v == ToInt32(Rom.PcOffset(im.mapper, im.hdr, address, false) as int)
  {
    var pc := Rom.PcOffset(im.mapper, im.hdr, address, false);
    Rom.PcOffsetWithoutHeaderBelow8M(im.mapper, im.hdr, address);
    if pc == SIZE_MAX then NarrowedSentinel(); -1
    else SmallBelow(pc); NarrowingKeeps(pc as int); pc as int
  }

  lemma NarrowedSentinel()
    ensures ToInt32(SIZE_MAX as int) == -1
  {
  }

  lemma NarrowingKeeps(x: int)
    requires 0 <= x <= INT_MAX
    ensures ToInt32(x) == x
  {
  }

  lemma SmallBelow(pc: SizeT)
    requires pc < 0x80_0000
    ensures pc as int < 0x80_0000
  {
    var narrow := pc as bv23;
    assert narrow as int < 0x80_0000;
  }

  /**
   * `run(rom, cfg)`: `(read_byte(0x077100 + lv) << 16) + read_word(0x02EC00 + 2 lv)`;
   * the bank byte and the little-endian word occupy disjoint bits, so the
   * sum is the 24-bit concatenation.
   */
  function LevelAddress(im: Image, lv: nat): SizeT {
    Rom.Long(ImageRead(im, 0x02EC00 + 2 * lv), ImageRead(im, 0x02EC00 + 2 * lv + 1), ImageRead(im, 0x077100 + lv))
  }

  /** `read_long(0x07730C)`: where the extra-byte table lives. */
  function TableAddress(im: Image): SizeT {
    Rom.Long(ImageRead(im, 0x07730C), ImageRead(im, 0x07730D), ImageRead(im, 0x07730E))
  }

  /** `read_byte(0x07730F) == 0x42`: the image carries an extra-byte table. */
  predicate HasExtraTable(im: Image) {
    ImageRead(im, 0x07730F) == 0x42
  }

  /**
   * `table.write(im.data().at(addr), count)`, `addr` the translated table
   * address: `at` exits unless `addr`, converted back to `size_t` (so -1 is
   * the largest index), is below the image size; then `count` bytes from
   * there overwrite the front of the table and the rest is kept.
   */
  function TableCopy(im: Image, table: seq<byte>, count: nat): (r: Result<seq<byte>>)
    requires |table| == EXTRA_TABLE_SIZE && count <= EXTRA_TABLE_SIZE
    ensures r.Err? <==> PcAsInt(im, TableAddress(im)) == -1 || PcAsInt(im, TableAddress(im)) >= |im.bytes|
    ensures r.Err? ==> r.fault == OutOfRange
    ensures r.Ok? ==> |r.value| == EXTRA_TABLE_SIZE && r.value[count..] == table[count..]
    ensures r.Ok? ==> forall k :: 0 <= k < count ==> r.value[k] == ImageRead(im, PcAsInt(im, TableAddress(im)) + k)
  {
    var addr := PcAsInt(im, TableAddress(im));
    if addr == -1 || addr >= |im.bytes| then Err(OutOfRange)
    else Ok(seq(count, k requires 0 <= k < count => ImageRead(im, addr + k)) + table[count..])
  }

  // ---------------------------------------------------------------- all levels

  const INVALID_ADDRESS: string := "Sprite Data has invalid address."
  const TOO_LARGE: string := "Sprite data is too large!"

  /**
   * A level whose data changed: its number and the rebuilt contents of
   * `sprAllData`, which its patch is meant to include (`LevelFiles`; the
   * code writes none of them, see `LevelFilesAsWritten`).
   */
  datatype Patch = Patch(level: nat, data: seq<byte>)

  /** How the handling of one level ends. */
  datatype LevelEnd =
    | Unchanged                // no record changed: no patch
    | Changed(data: seq<byte>) // rebuilt into this buffer
    | Stopped(message: string) // ERR: `goto end`
    | Died(fault: Fault)       // `at` ended the process

  /** The body of `run`'s level loop for level `lv`, with the repeated size check. */
  function RemapOne(im: Image, prevEx: seq<byte>, nowEx: seq<byte>, lv: nat): (r: LevelEnd)
    requires Tables(prevEx, nowEx)
    ensures r.Changed? ==> |r.data| == SPR_ADDR_LIMIT
    ensures r.Stopped? ==> r.message == INVALID_ADDRESS || r.message == TOO_LARGE
  {
    var pc := PcAsInt(im, LevelAddress(im, lv));
    if pc == -1 then Stopped(INVALID_ADDRESS)
    else
      var t := RemapLevel(Source(im.bytes, im.hdr as nat, |im.bytes|, pc), prevEx, nowEx, true);
      if t.Finished? then
        if t.w.changed then Changed(t.w.out + Zeros(SPR_ADDR_LIMIT - |t.w.out|)) else Unchanged
      else if t.TooLarge? then Stopped(TOO_LARGE)
      else Died(t.fault)
  }

  /** The outcome of the level loop. */
  datatype Remap =
    | Remapped(patches: seq<Patch>)
    | Failed(patches: seq<Patch>, message: string)
    | Exited(fault: Fault)

  /** The level loop from level `lv` on, after the patches `done`, given how each level ends. */
  function Gather(ends: seq<LevelEnd>, lv: nat, done: seq<Patch>): (r: Remap)
    requires lv <= |ends|
    decreases |ends| - lv, 1
  {
    if lv == |ends| then Remapped(done) else GatherAt(ends, lv, done)
  }

  /** Level `lv` of that loop and the levels after it. */
  function GatherAt(ends: seq<LevelEnd>, lv: nat, done: seq<Patch>): (r: Remap)
    requires lv < |ends|
    decreases |ends| - lv, 0
  {
    match ends[lv]
    case Unchanged => Gather(ends, lv + 1, done)
    case Changed(data) => Gather(ends, lv + 1, done + [Patch(lv, data)])
    case Stopped(message) => Failed(done, message)
    case Died(fault) => Exited(fault)
  }

  /** How each of the 0x200 levels ends on its own. */
  function LevelEnds(im: Image, prevEx: seq<byte>, nowEx: seq<byte>): (s: seq<LevelEnd>)
    requires Tables(prevEx, nowEx)
    ensures |s| == LEVEL_COUNT
    ensures forall lv :: 0 <= lv < LEVEL_COUNT ==> s[lv] == RemapOne(im, prevEx, nowEx, lv)
  {
    seq(LEVEL_COUNT, lv requires 0 <= lv => RemapOne(im, prevEx, nowEx, lv))
  }

  /** Levels 0 to 0x1FF in order; the first error ends the loop. */
  function RemapAll(im: Image, prevEx: seq<byte>, nowEx: seq<byte>): (r: Remap)
    requires Tables(prevEx, nowEx)
  {
    Gather(LevelEnds(im, prevEx, nowEx), 0, [])
  }

  /** What `run` ends with: its return value and the patches applied on the way, or the end of the process. */
  datatype Outcome =
    | Returned(code: int, patches: seq<Patch>)
    | Exits(fault: Fault)

  /** What `run` returns once the level loop has ended: `revert` is set unless the last level was handled. */
  function LoopOutcome(r: Remap): Outcome {
    match r
    case Remapped(ps) => Returned(0, ps)
    case Failed(ps, _) => Returned(1, ps)
    case Exited(f) => Exits(f)
  }

  /** `run(rom, cfg)` once both tables are known: the level loop runs unless the tables agree and `always` is off. */
  function RunOnTables(im: Image, prevEx: seq<byte>, nowEx: seq<byte>, always: bool): (r: Outcome)
    requires Tables(prevEx, nowEx)
  {
    if prevEx == nowEx && !always then Returned(0, [])
    else LoopOutcome(RemapAll(im, prevEx, nowEx))
  }

  /** `run(rom, cfg)`: `nowEx` is reloaded from the new image when the previous one carries a table. */
  function NowTable(prev: Image, now: Image, nowEx: seq<byte>): (r: Result<seq<byte>>)
    requires |nowEx| == EXTRA_TABLE_SIZE
    ensures r.Ok? ==> |r.value| == EXTRA_TABLE_SIZE
    ensures !HasExtraTable(prev) ==> r == Ok(nowEx)
  {
    if HasExtraTable(prev) then TableCopy(now, nowEx, EXTRA_TABLE_SIZE) else Ok(nowEx)
  }

  /** `run(rom, cfg)` on the image `now`. */
  function RunSpec(prev: Image, now: Image, prevEx: seq<byte>, nowEx: seq<byte>, always: bool): (r: Outcome)
    requires Tables(prevEx, nowEx)
  {
    match NowTable(prev, now, nowEx)
    case Err(f) => Exits(f)
    case Ok(t) => RunOnTables(now, prevEx, t, always)
  }

  /**
   * The snapshot `initialize` takes of the previous image's table, as
   * written: `prevEx.size()` bytes are copied, and a default-constructed
   * `ByteArray` has size 0.
   */
  function InitialTableAsWritten(prev: Image): (r: Result<seq<byte>>) {
    if HasExtraTable(prev) then TableCopy(prev, Zeros(EXTRA_TABLE_SIZE), 0) else Ok(Zeros(EXTRA_TABLE_SIZE))
  }

  /** The snapshot as `run` takes the new one: all 0x400 counts. */
  function InitialTable(prev: Image): (r: Result<seq<byte>>)
    ensures r.Ok? ==> |r.value| == EXTRA_TABLE_SIZE
    ensures r.Ok? && HasExtraTable(prev) ==>
      forall k :: 0 <= k < EXTRA_TABLE_SIZE ==> PcAsInt(prev, TableAddress(prev)) >= 0 && r.value[k] == ImageRead(prev, PcAsInt(prev, TableAddress(prev)) + k)
  {
    if HasExtraTable(prev) then TableCopy(prev, Zeros(EXTRA_TABLE_SIZE), EXTRA_TABLE_SIZE) else Ok(Zeros(EXTRA_TABLE_SIZE))
  }

  // ---------------------------------------------------------------- properties of a run

  /** Levels appear in increasing order, each below 0x200, each with a full buffer. */
  predicate WellFormedPatches(ps: seq<Patch>, below: nat) {
    && (forall i :: 0 <= i < |ps| ==> ps[i].level < below && |ps[i].data| == SPR_ADDR_LIMIT)
    && (forall i, j :: 0 <= i < j < |ps| ==> ps[i].level < ps[j].level)
  }

  /** A changed level's rebuilt buffer is all 0x800 bytes of `sprAllData`. */
  predicate FullBuffers(ends: seq<LevelEnd>) {
    forall i :: 0 <= i < |ends| && ends[i].Changed? ==> |ends[i].data| == SPR_ADDR_LIMIT
  }

  /**
   * The loop visits every level once, in order: the earlier patches are
   * kept, and no level is patched twice.
   */
  lemma {:induction false} GatherPatches(ends: seq<LevelEnd>, lv: nat, done: seq<Patch>)
    requires lv <= |ends| && FullBuffers(ends)
    requires WellFormedPatches(done, lv)
    ensures var r := Gather(ends, lv, done);
      (r.Remapped? || r.Failed?) ==> done <= r.patches && WellFormedPatches(r.patches, |ends|)
    decreases |ends| - lv
  {
    if lv < |ends| {
      assert Gather(ends, lv, done) == GatherAt(ends, lv, done);
      match ends[lv]
      case Unchanged =>
        WellFormedPatchesBelow(done, lv, lv + 1);
        GatherPatches(ends, lv + 1, done);
      case Changed(data) =>
        var more := done + [Patch(lv, data)];
        AppendPatch(done, lv, data);
        GatherPatches(ends, lv + 1, more);
        assert done <= more;
      case Stopped(_) =>
        WellFormedPatchesBelow(done, lv, |ends|);
      case Died(_) =>
    }
  }

  lemma WellFormedPatchesBelow(ps: seq<Patch>, lv: nat, n: nat)
    requires WellFormedPatches(ps, lv) && lv <= n
    ensures WellFormedPatches(ps, n)
  {
  }

  lemma AppendPatch(ps: seq<Patch>, lv: nat, data: seq<byte>)
    requires WellFormedPatches(ps, lv) && |data| == SPR_ADDR_LIMIT
    ensures WellFormedPatches(ps + [Patch(lv, data)], lv + 1)
  {
  }

  /** When no level changed, the loop adds no patch. */
  lemma {:induction false} GatherUnchanged(ends: seq<LevelEnd>, lv: nat, done: seq<Patch>)
    requires lv <= |ends|
    requires forall i :: lv <= i < |ends| ==> !ends[i].Changed?
    ensures var r := Gather(ends, lv, done);
      (r.Remapped? || r.Failed?) ==> r.patches == done
    decreases |ends| - lv
  {
    if lv < |ends| {
      assert Gather(ends, lv, done) == GatherAt(ends, lv, done);
      GatherUnchanged(ends, lv + 1, done);
    }
  }

  /** With equal tables no level is patched, whatever `always` says. */
  lemma EqualTablesRemapNothing(im: Image, tbl: seq<byte>)
    requires Tables(tbl, tbl)
    ensures var r := RemapAll(im, tbl, tbl);
      (r.Remapped? || r.Failed?) ==> r.patches == []
  {
    var ends := LevelEnds(im, tbl, tbl);
    forall lv | 0 <= lv < LEVEL_COUNT
      ensures !ends[lv].Changed?
    {
      var pc := PcAsInt(im, LevelAddress(im, lv));
      if pc != -1 {
        EqualTablesLeaveLevelUnchanged(Source(im.bytes, im.hdr as nat, |im.bytes|, pc), tbl, true);
      }
    }
    GatherUnchanged(ends, 0, []);
  }

  /**
   * `run` returns 0 or 1: 0 without touching a level when the tables agree
   * and `always` is off, 1 exactly when a level stopped with an error;
   * the levels patched come in increasing order, once each, and none at
   * all when the tables agree.
   */
  lemma RunOutcomes(im: Image, prevEx: seq<byte>, nowEx: seq<byte>, always: bool)
    requires Tables(prevEx, nowEx)
    ensures var r := RunOnTables(im, prevEx, nowEx, always);
      && (r.Returned? ==> (r.code == 0 || r.code == 1) && WellFormedPatches(r.patches, LEVEL_COUNT))
      && (prevEx == nowEx && !always ==> r == Returned(0, []))
      && (prevEx == nowEx && r.Returned? ==> r.patches == [])
      && (r.Returned? && r.code == 1 <==> RemapAll(im, prevEx, nowEx).Failed? && (prevEx != nowEx || always))
  {
    GatherPatches(LevelEnds(im, prevEx, nowEx), 0, []);
    if prevEx == nowEx {
      EqualTablesRemapNothing(im, prevEx);
    }
  }

  /**
   * The snapshot as written never reads the previous image's counts: it
   * is all zeros whenever `initialize` gets past `at`, so a table with any
   * non-zero count looks changed to `run` even when nothing changed.
   */
  lemma InitialTableAsWrittenIsZero(prev: Image)
    ensures InitialTableAsWritten(prev).Ok? ==> InitialTableAsWritten(prev).value == Zeros(EXTRA_TABLE_SIZE)
    ensures InitialTableAsWritten(prev).Ok? <==> InitialTable(prev).Ok?
  {
    if HasExtraTable(prev) {
      var r := TableCopy(prev, Zeros(EXTRA_TABLE_SIZE), 0);
      if r.Ok? {
        assert r.value == Zeros(EXTRA_TABLE_SIZE)[0..];
      }
    }
  }

  /** An image whose table holds a non-zero count: the two snapshots differ. */
  lemma InitialTableAsWrittenDiffers(prev: Image)
    requires HasExtraTable(prev) && InitialTable(prev).Ok?
    requires InitialTable(prev).value != Zeros(EXTRA_TABLE_SIZE)
    ensures InitialTableAsWritten(prev) != InitialTable(prev)
  {
    InitialTableAsWrittenIsZero(prev);
  }

  /**
   * The consequence for a run on an unchanged image: the new table is
   * read in full, so with the as-written snapshot the counts differ and
   * every level is processed; with the full snapshot nothing happens.
   */
  lemma UnchangedImageAfterInitialTable(prev: Image, always: bool)
    requires !always && HasExtraTable(prev) && InitialTable(prev).Ok?
    ensures NowTable(prev, prev, InitialTable(prev).value) == InitialTable(prev)
    ensures RunSpec(prev, prev, InitialTable(prev).value, InitialTable(prev).value, always) == Returned(0, [])
  {
    var t := InitialTable(prev).value;
    var r := NowTable(prev, prev, t);
    assert r.Ok?;
    assert r.value == t;
  }

  /**
   * The same run after the as-written snapshot: the counts reloaded from
   * the unchanged image differ from the zeros the snapshot holds, so `run`
   * goes through the level loop, whatever `always` says.
   */
  lemma UnchangedImageAsWrittenRemaps(prev: Image, always: bool)
    requires HasExtraTable(prev) && InitialTable(prev).Ok?
    requires InitialTable(prev).value != Zeros(EXTRA_TABLE_SIZE)
    ensures InitialTableAsWritten(prev) == Ok(Zeros(EXTRA_TABLE_SIZE))
    ensures var t := InitialTable(prev).value;
      RunSpec(prev, prev, Zeros(EXTRA_TABLE_SIZE), t, always) == LoopOutcome(RemapAll(prev, Zeros(EXTRA_TABLE_SIZE), t))
  {
    InitialTableAsWrittenIsZero(prev);
    var t := InitialTable(prev).value;
    var r := NowTable(prev, prev, t);
    assert r.Ok?;
    assert r.value == t;
  }

  // ---------------------------------------------------------------- the level loop

  /**
   * `run(rom, cfg)`: `sprAllData` and `remapped[]` are set up once, then each
   * level in turn is translated, walked and, when a record changed,
   * patched. `remapped[lv]` is only set once level `lv` has been handled,
   * so the skip over levels already remapped is never taken.
   */
  method RemapLevels(im: Image, prevEx: seq<byte>, nowEx: seq<byte>) returns (r: Remap)
    requires Tables(prevEx, nowEx)
    ensures r == RemapAll(im, prevEx, nowEx)
  {
    ghost var goal := RemapAll(im, prevEx, nowEx);
    var buf := new byte[SPR_ADDR_LIMIT](_ => 0);
    var remapped := new bool[LEVEL_COUNT](_ => false);
    var patches: seq<Patch> := [];
    var lv := 0;
    while lv < LEVEL_COUNT
      invariant lv <= LEVEL_COUNT
      invariant Gather(LevelEnds(im, prevEx, nowEx), lv, patches) == goal
      invariant forall k :: lv <= k < LEVEL_COUNT ==> !remapped[k]
    {
      if remapped[lv] {
        assert false;
      }
      var step := RemapStep(im, prevEx, nowEx, lv, buf, patches);
      if step.Stop? {
        return step.result;
      }
      if step.changed {
        remapped[lv] := true;
      }
      patches := step.patches;
      lv := lv + 1;
    }
    return Remapped(patches);
  }

  /** What one level of the loop leaves: the patches so far and whether this level added one, or the end of the loop. */
  datatype LevelStep = GoOn(patches: seq<Patch>, changed: bool) | Stop(result: Remap)

  /** One pass of the level loop: level `lv` either adds its patch, adds nothing, or ends `run`'s loop. */
  method RemapStep(im: Image, prevEx: seq<byte>, nowEx: seq<byte>, lv: nat, buf: array<byte>, patches: seq<Patch>)
    returns (step: LevelStep)
    requires Tables(prevEx, nowEx) && buf.Length == SPR_ADDR_LIMIT && lv < LEVEL_COUNT
    modifies buf
    ensures step.GoOn? ==> Gather(LevelEnds(im, prevEx, nowEx), lv, patches) == Gather(LevelEnds(im, prevEx, nowEx), lv + 1, step.patches)
    ensures step.Stop? ==> Gather(LevelEnds(im, prevEx, nowEx), lv, patches) == step.result
  {
    ghost var ends := LevelEnds(im, prevEx, nowEx);
    var e := RemapLevelAt(im, prevEx, nowEx, lv, buf);
    assert e == ends[lv];
    GatherStep(ends, lv, patches);
    match e
    case Unchanged => step := GoOn(patches, false);
    case Changed(data) => step := GoOn(patches + [Patch(lv, data)], true);
    case Stopped(message) => step := Stop(Failed(patches, message));
    case Died(fault) => step := Stop(Exited(fault));
  }

  /** One level of the loop: an unchanged level adds nothing, a changed one its patch, and an error ends the loop. */
  lemma GatherStep(ends: seq<LevelEnd>, lv: nat, done: seq<Patch>)
    requires lv < |ends|
    ensures ends[lv].Unchanged? ==> Gather(ends, lv, done) == Gather(ends, lv + 1, done)
    ensures ends[lv].Changed? ==> Gather(ends, lv, done) == Gather(ends, lv + 1, done + [Patch(lv, ends[lv].data)])
    ensures ends[lv].Stopped? ==> Gather(ends, lv, done) == Failed(done, ends[lv].message)
    ensures ends[lv].Died? ==> Gather(ends, lv, done) == Exited(ends[lv].fault)
  {
    assert Gather(ends, lv, done) == GatherAt(ends, lv, done);
  }

  /** The body of `run`'s level loop for level `lv`, in the buffer `sprAllData`; a changed level yields the whole rebuilt buffer. */
  method RemapLevelAt(im: Image, prevEx: seq<byte>, nowEx: seq<byte>, lv: nat, buf: array<byte>) returns (e: LevelEnd)
    requires Tables(prevEx, nowEx) && buf.Length == SPR_ADDR_LIMIT
    modifies buf
    ensures e == RemapOne(im, prevEx, nowEx, lv)
    ensures e.Changed? ==> e.data == buf[..]
  {
    var pc := PcAsInt(im, LevelAddress(im, lv));
    if pc == -1 {
      return Stopped(INVALID_ADDRESS);
    }
    var t := WalkLevel(Source(im.bytes, im.hdr as nat, |im.bytes|, pc), prevEx, nowEx, buf);
    if t.TooLarge? {
      return Stopped(TOO_LARGE);
    } else if t.Abort? {
      return Died(t.fault);
    }
    if t.w.changed {
      return Changed(buf[..]);
    }
    return Unchanged;
  }

  // ---------------------------------------------------------------- the temporary files of a changed level

  /** Temporary files by name, with their contents. */
  type Files = map<string, seq<byte>>

  /** `_tmp_bin_{:X}.bin`: the file the rebuilt data is meant for. */
  function BinaryFileName(lv: nat): string {
    "_tmp_bin_" + CLib.HexString(lv) + ".bin"
  }

  /** `_tmp_{:X}.asm`: the file `MeiMei::patch` is called with. */
  function PatchFileName(lv: nat): string {
    "_tmp_" + CLib.HexString(lv) + ".asm"
  }

  /** The two names differ: after "_tmp_" one goes on with 'b', the other with an uppercase hex digit. */
  lemma FileNamesDiffer(lv: nat)
    ensures BinaryFileName(lv) != PatchFileName(lv)
  {
    CLib.HexStringValue(lv);
    assert BinaryFileName(lv)[5] == 'b';
    assert PatchFileName(lv)[5] == CLib.HexString(lv)[0];
  }

  /**
   * The files a changed level leaves for `MeiMei::patch`, as written.
   * `sprAllData` is default-constructed, and neither `fill` nor the stores
   * of the walk (here one `write` of the rebuilt buffer) change its size,
   * so `fwrite` of `size()` bytes writes nothing. The patch text is then
   * written under the binary's name, opened "wb" a second time, and the
   * patch file is left as it was.
   */
  method LevelFilesAsWritten(files: Files, lv: nat, data: seq<byte>, text: seq<byte>) returns (written: seq<byte>, r: Files)
    requires |data| == SPR_ADDR_LIMIT
    ensures written == []
    ensures BinaryFileName(lv) in r && r[BinaryFileName(lv)] == text
    ensures PatchFileName(lv) in r <==> PatchFileName(lv) in files
    ensures PatchFileName(lv) in files ==> r[PatchFileName(lv)] == files[PatchFileName(lv)]
    ensures forall n :: n in files && n != BinaryFileName(lv) ==> n in r && r[n] == files[n]
  {
    var sprAllData := new Array.ByteArray(SPR_ADDR_LIMIT);
    sprAllData.Fill(0);
    sprAllData.Write(data, SPR_ADDR_LIMIT);
    written := sprAllData.Elements();
    r := files[BinaryFileName(lv) := written];
    r := r[BinaryFileName(lv) := text];
    FileNamesDiffer(lv);
  }

  /**
   * The files as intended: the rebuilt buffer under the binary's name and
   * the patch text, which includes that binary, under the patch's name.
   */
  function LevelFiles(files: Files, lv: nat, data: seq<byte>, text: seq<byte>): (r: Files)
    ensures BinaryFileName(lv) in r && r[BinaryFileName(lv)] == data
    ensures PatchFileName(lv) in r && r[PatchFileName(lv)] == text
    ensures forall n :: n in files && n != BinaryFileName(lv) && n != PatchFileName(lv) ==> n in r && r[n] == files[n]
  {
    FileNamesDiffer(lv);
    files[BinaryFileName(lv) := data][PatchFileName(lv) := text]
  }

  /** `table.fill(0x00)`. */
  method ClearTable(table: array<byte>)
    modifies table
    ensures table[..] == Zeros(table.Length)
  {
    forall i | 0 <= i < table.Length {
      table[i] := 0;
    }
  }

  /** `table.write(im.data().at(addr), 0x400)`: the process ends in `at`, or all 0x400 counts are copied. */
  method CopyTable(im: Image, table: array<byte>) returns (r: Result<()>)
    requires table.Length == EXTRA_TABLE_SIZE
    modifies table
    ensures r.Err? <==> TableCopy(im, old(table[..]), EXTRA_TABLE_SIZE).Err?
    ensures r.Err? ==> r.fault == OutOfRange
    ensures r.Ok? ==> table[..] == TableCopy(im, old(table[..]), EXTRA_TABLE_SIZE).value
  {
    var t := TableCopy(im, table[..], EXTRA_TABLE_SIZE);
    if t.Err? {
      return Err(t.fault);
    }
    forall i | 0 <= i < EXTRA_TABLE_SIZE {
      table[i] := t.value[i];
    }
    assert table[..] == t.value;
    return Ok(());
  }

  // ---------------------------------------------------------------- the remapper's static state

  /** `MeiMeiConfig`: the three switches `setCfg` copies. */
  datatype MeiMeiConfig = MeiMeiConfig(always: bool, debug: bool, keep: bool)

  /** The static members of `MeiMei`, held by one object. */
  class MeiMei {
    var name: string
    /** `prev`: the image as it was before the insertion. */
    var prev: Image
    const prevEx: array<byte>
    const nowEx: array<byte>
    var always: bool
    var debug: bool
    var keepTemp: bool
    var sa1DefPath: string

    ghost predicate Valid()
      reads this
    {
      prevEx.Length == EXTRA_TABLE_SIZE && nowEx.Length == EXTRA_TABLE_SIZE && prevEx != nowEx
    }

    /** Static initialisation: zeroed tables, empty strings, an empty default `Rom`, switches off. */
    constructor ()
      ensures Valid() && fresh(prevEx) && fresh(nowEx)
      ensures prevEx[..] == Zeros(EXTRA_TABLE_SIZE) && nowEx[..] == Zeros(EXTRA_TABLE_SIZE)
      ensures name == [] && sa1DefPath == [] && prev == Image([], 0, Rom.LoRom)
      ensures !always && !debug && !keepTemp
    {
      name := [];
      prev := Image([], 0, Rom.LoRom);
      prevEx := new byte[EXTRA_TABLE_SIZE](_ => 0);
      nowEx := new byte[EXTRA_TABLE_SIZE](_ => 0);
      always, debug, keepTemp := false, false, false;
      sa1DefPath := [];
      new;
      assert prevEx[..] == Zeros(EXTRA_TABLE_SIZE);
      assert nowEx[..] == Zeros(EXTRA_TABLE_SIZE);
    }

    /** `setCfg(cfg)`. */
    method SetCfg(cfg: MeiMeiConfig)
      modifies this
      ensures always == cfg.always && debug == cfg.debug && keepTemp == cfg.keep
      ensures name == old(name) && prev == old(prev) && sa1DefPath == old(sa1DefPath)
    {
      always := cfg.always;
      debug := cfg.debug;
      keepTemp := cfg.keep;
    }

    /** `configureSa1Def(path)`: the path with every '!' escaped by `repl`. */
    method ConfigureSa1Def(path: string, repl: string)
      modifies this
      ensures sa1DefPath == Util.Escaped(path, repl)
      ensures name == old(name) && prev == old(prev) && always == old(always)
      ensures debug == old(debug) && keepTemp == old(keepTemp)
    {
      sa1DefPath := Util.EscapeDefines(path, repl);
    }

    /**
     * `initialize(rom_name)`, given the file's contents: the previous image
     * is opened, both tables are cleared, and the extra-byte counts are
     * copied when the image carries a table (all 0x400 of them).
     */
    method Initialize(romName: string, contents: seq<byte>) returns (r: Result<()>)
      requires Valid() && |contents| <= Rom.MAX_ROM_SIZE
      modifies this, prevEx, nowEx
      ensures Valid() && name == romName && prev == ImageOf(contents)
      ensures always == old(always) && debug == old(debug) && keepTemp == old(keepTemp) && sa1DefPath == old(sa1DefPath)
      ensures nowEx[..] == Zeros(EXTRA_TABLE_SIZE)
      ensures r.Err? <==> InitialTable(prev).Err?
      ensures r.Err? ==> r.fault == InitialTable(prev).fault
      ensures r.Ok? ==> prevEx[..] == InitialTable(prev).value
    {
      name := romName;
      var rom := new Rom.Rom(romName, contents);
      prev := Image(contents, rom.headerOffset, rom.mapper);
      ClearTable(prevEx);
      ClearTable(nowEx);
      r := Ok(());
      if HasExtraTable(prev) {
        r := CopyTable(prev, prevEx);
      }
    }

    /**
     * `run(rom, cfg)`, given the contents of the file after the insertion:
     * `nowEx` is reloaded, the tables are compared, and the levels are
     * remapped when they differ or `always` is set.
     */
    method Run(contents: seq<byte>) returns (r: Outcome)
      requires Valid() && |contents| <= Rom.MAX_ROM_SIZE
      modifies nowEx
      ensures r == RunSpec(prev, ImageOf(contents), prevEx[..], old(nowEx[..]), always)
      ensures NowTable(prev, ImageOf(contents), old(nowEx[..])).Ok? ==>
        nowEx[..] == NowTable(prev, ImageOf(contents), old(nowEx[..])).value
    {
      var rom := new Rom.Rom(name, contents);
      var now := Image(contents, rom.headerOffset, rom.mapper);
      assert now == ImageOf(contents);
      if HasExtraTable(prev) {
        var loaded := CopyTable(now, nowEx);
        if loaded.Err? {
          return Exits(loaded.fault);
        }
      }
      var changeEx := ExtraCountsChanged(prevEx, nowEx);
      if !(changeEx || always) {
        return Returned(0, []);
      }
      var remap := RemapLevels(now, prevEx[..], nowEx[..]);
      match remap
      case Remapped(ps) =>
        return Returned(0, ps);
      case Failed(ps, _) =>
        return Returned(1, ps);
      case Exited(f) =>
        return Exits(f);
    }
  }
}
