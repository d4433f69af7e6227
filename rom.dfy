/**
 * Rom.h / Rom.cpp: a cartridge image held in a 16 MiB buffer, its copier
 * header (the image size modulo 0x8000), the memory mapper read from the
 * internal header, and the translation between file offsets ("PC"
 * addresses) and CPU ("SNES") addresses for the three mappers. Addresses
 * are `size_t`, so all of the arithmetic is modulo 2^64 and "no mapping" is
 * the all-ones value.
 */
module Rom {
  import opened Types
  import Array

  datatype MapperType = LoRom | SA1Rom | FullSA1Rom

  /** `FromEnum(mapper)`: the enumerators' underlying values in declaration order. */
  function MapperIndex(m: MapperType): (i: nat)
    ensures i < 3 && MapperOfIndex(i) == m
  {
    match m
    case LoRom => 0
    case SA1Rom => 1
    case FullSA1Rom => 2
  }

  function MapperOfIndex(i: nat): (m: MapperType)
    requires i < 3
  {
    if i == 0 then LoRom else if i == 1 then SA1Rom else FullSA1Rom
  }

  const StringMappers: seq<string> := ["LoRom", "SA1Rom", "FullSA1Rom"]

  function MapperToString(m: MapperType): (s: string)
    ensures s == StringMappers[MapperIndex(m)]
  {
    StringMappers[MapperIndex(m)]
  }

  /** Distinct mappers have distinct names. */
  lemma MapperToStringInjective(m1: MapperType, m2: MapperType)
    ensures MapperToString(m1) == MapperToString(m2) <==> m1 == m2
  {
    if m1 != m2 {
      assert MapperIndex(m1) != MapperIndex(m2);
      assert StringMappers[0][0] == 'L' && StringMappers[1][0] == 'S' && StringMappers[2][0] == 'F';
      assert StringMappers[MapperIndex(m1)][0] != StringMappers[MapperIndex(m2)][0];
    }
  }

  /** 16 MiB: the capacity of the image buffer. */
  const MAX_ROM_SIZE: nat := 0x100_0000

  /** `sa1banks`: the PC base of each 1 MiB SA-1 bank slot; slots 2, 3, 6 and 7 have none. */
  const SA1Banks: seq<SizeT> := [0x00_0000, 0x10_0000, SIZE_MAX, SIZE_MAX, 0x20_0000, 0x30_0000, SIZE_MAX, SIZE_MAX]

  /** A table slot number as a `size_t`. */
  function Slot(i: nat): (r: SizeT)
    requires i < 8
  {
    if i == 0 then 0 else if i == 1 then 1 else if i == 2 then 2 else if i == 3 then 3
    else if i == 4 then 4 else if i == 5 then 5 else if i == 6 then 6 else 7
  }

  /** `sa1banks[index]` for a 3-bit index computed in `size_t`. */
  function BankAt(index: SizeT): (b: SizeT)
    requires index < 8
  {
    if index == 0 then 0x00_0000 else if index == 1 then 0x10_0000
    else if index == 4 then 0x20_0000 else if index == 5 then 0x30_0000
    else SIZE_MAX
  }

  /** `BankAt` reads the `sa1banks` table. */
  lemma BankAtIsTable(i: nat)
    requires i < 8
    ensures BankAt(Slot(i)) == SA1Banks[i]
  {
    if i == 0 { assert Slot(0) == 0; }
    else if i == 1 { assert Slot(1) == 1; }
    else if i == 2 { assert Slot(2) == 2; }
    else if i == 3 { assert Slot(3) == 3; }
    else if i == 4 { assert Slot(4) == 4; }
    else if i == 5 { assert Slot(5) == 5; }
    else if i == 6 { assert Slot(6) == 6; }
    else { assert Slot(7) == 7; }
  }

  /** `(a & mask) == value`: every address test of the translators has this shape. */
  predicate Masked(a: SizeT, mask: SizeT, value: SizeT) {
    a & mask == value
  }

  // ---------------------------------------------------------------- pc_to_snes

  /** The offset `pc_to_snes` translates: the header is subtracted first when asked for. */
  function Stripped(h: SizeT, address: SizeT, header: bool): SizeT {
    if header then address - h else address
  }

  /** LoROM: 32 KiB of file per bank, placed in the upper half of the bank. */
  function LoRomSnes(p: SizeT): SizeT {
    ((p << 1) & 0x7F_0000) | (p & 0x7FFF) | 0x8000
  }

  /** The SA-1 answer once slot `i` is found for `p`. */
  function SA1SlotAddress(p: SizeT, i: nat): SizeT
    requires i < 8
  {
    0x00_8000 | (Slot(i) << 21) | ((p & 0x0F_8000) << 1) | (p & 0x7FFF)
  }

  /** SA-1: the first slot from `from` on whose base equals `p & 0x700000`. */
  function SA1Search(p: SizeT, from: nat): SizeT
    requires from <= 8
    decreases 8 - from
  {
    if from == 8 then SIZE_MAX
    else if SA1Banks[from] == p & 0x70_0000 then SA1SlotAddress(p, from)
    else SA1Search(p, from + 1)
  }

  /** The SA-1 branch of `pc_to_snes`: the loop over `sa1banks`, returning at the first matching slot. */
  method SA1SlotSearch(p: SizeT) returns (r: SizeT)
    ensures r == SA1Search(p, 0)
  {
    for i := 0 to 8
      invariant SA1Search(p, i) == SA1Search(p, 0)
    {
      if SA1Banks[i] == p & 0x70_0000 {
        return SA1SlotAddress(p, i);
      }
    }
    return SIZE_MAX;
  }

  /** Full SA-1, offsets without bit 22: the LoROM-like layout. */
  function FullSA1LowSnes(p: SizeT): SizeT {
    ((p << 1) & 0x3F_0000) | 0x8000 | (p & 0x7FFF)
  }

  function FullSA1Snes(p: SizeT): SizeT {
    if Masked(p, 0x40_0000, 0x40_0000) then p | 0xC0_0000
    else if Masked(p, 0x60_0000, 0x00_0000) then FullSA1LowSnes(p)
    else if Masked(p, 0x60_0000, 0x20_0000) then 0x80_0000 | FullSA1LowSnes(p)
    else SIZE_MAX
  }

  /** `pc_to_snes(address, header)` for a given mapper and header offset. */
  function SnesAddress(mapper: MapperType, h: SizeT, address: SizeT, header: bool := true): SizeT {
    var p := Stripped(h, address, header);
    match mapper
    case LoRom => LoRomSnes(p)
    case SA1Rom => SA1Search(p, 0)
    case FullSA1Rom => FullSA1Snes(p)
  }

  // ---------------------------------------------------------------- snes_to_pc

  /** The final return of `snes_to_pc`: the header is added when asked for. */
  function WithHeader(t: SizeT, h: SizeT, header: bool): SizeT {
    if header then t + h else t
  }

  /** The LoROM windows without a mapping: banks 7E/7F (work RAM), lower bank halves, 70-7F:0000-7FFF. */
  predicate LoRomRejects(a: SizeT) {
    Masked(a, 0xFE_0000, 0x7E_0000) || Masked(a, 0x40_8000, 0x00_0000) || Masked(a, 0x70_8000, 0x70_0000)
  }

  function LoRomPc(a: SizeT): SizeT {
    ((a & 0x7F_0000) >> 1) | (a & 0x7FFF)
  }

  /** SA-1, upper bank halves of 00-3F and 80-BF: the slot number is bits 21-23. */
  function SA1WindowIndex(a: SizeT): (i: SizeT)
    ensures i < 8
  {
    (a & 0xE0_0000) >> 21
  }

  function SA1WindowPc(a: SizeT): SizeT {
    BankAt(SA1WindowIndex(a)) | ((a & 0x1F_0000) >> 1) | (a & 0x00_7FFF)
  }

  /** SA-1, banks C0-FF: the slot number is bit 20 plus bit 21 moved to bit 2. */
  function SA1HighIndex(a: SizeT): (i: SizeT)
    ensures i < 8
  {
    ((a & 0x10_0000) >> 20) | ((a & 0x20_0000) >> 19)
  }

  function SA1HighPc(a: SizeT): SizeT {
    BankAt(SA1HighIndex(a)) | (a & 0x0F_FFFF)
  }

  /** The SA-1 value of `address` before the final return: it becomes the sentinel outside both windows. */
  function SA1Pc(a: SizeT): SizeT {
    if Masked(a, 0x40_8000, 0x00_8000) then SA1WindowPc(a)
    else if Masked(a, 0xC0_0000, 0xC0_0000) then SA1HighPc(a)
    else SIZE_MAX
  }

  function FullSA1HighPc(a: SizeT): SizeT {
    (a & 0x3F_FFFF) | 0x40_0000
  }

  function FullSA1LowPc(a: SizeT): SizeT {
    ((a & 0x80_0000) >> 2) | ((a & 0x3F_0000) >> 1) | (a & 0x7FFF)
  }

  /** Whether `snes_to_pc` gets to its final return, rather than returning the sentinel early. */
  predicate ReachesFinalReturn(mapper: MapperType, a: SizeT) {
    match mapper
    case LoRom => !LoRomRejects(a)
    case SA1Rom => true
    case FullSA1Rom =>
      Masked(a, 0xC0_0000, 0xC0_0000) ||
      ((Masked(a, 0xC0_0000, 0x00_0000) || Masked(a, 0xC0_0000, 0x80_0000)) && !Masked(a, 0x00_8000, 0x00_0000))
  }

  /** The value of `address` at the final return, before the header is added. */
  function FinalAddress(mapper: MapperType, a: SizeT): SizeT {
    match mapper
    case LoRom => LoRomPc(a)
    case SA1Rom => SA1Pc(a)
    case FullSA1Rom => if Masked(a, 0xC0_0000, 0xC0_0000) then FullSA1HighPc(a) else FullSA1LowPc(a)
  }

  /** `snes_to_pc(address, header)` for a given mapper and header offset. */
  function PcOffset(mapper: MapperType, h: SizeT, address: SizeT, header: bool := true): SizeT {
    if ReachesFinalReturn(mapper, address) then WithHeader(FinalAddress(mapper, address), h, header) else SIZE_MAX
  }

  // ---------------------------------------------------------------- headers

  /** `pc_to_snes(p, true)` is `pc_to_snes` of the header-stripped offset. */
  lemma SnesAddressStripsHeader(mapper: MapperType, h: SizeT, p: SizeT)
    ensures SnesAddress(mapper, h, p, true) == SnesAddress(mapper, h, p - h, false)
  {
  }

  /** Without the header, every translation is the sentinel or lies below 8 MiB. */
  lemma PcOffsetWithoutHeaderBelow8M(mapper: MapperType, h: SizeT, a: SizeT)
    ensures PcOffset(mapper, h, a, false) == SIZE_MAX || PcOffset(mapper, h, a, false) < 0x80_0000
  {
    match mapper
    case LoRom => LoRomPcBelow(a);
    case SA1Rom => SA1PcShape(a);
    case FullSA1Rom => FullSA1PcBelow(a);
  }

  /**
   * `snes_to_pc(a, true)` is `snes_to_pc(a, false)` plus the header on every
   * path that reaches the final return (every SA-1 path, the sentinel one
   * included); the early LoRom and full SA-1 sentinels are returned as they are.
   */
  lemma PcOffsetAddsHeader(mapper: MapperType, h: SizeT, a: SizeT)
    ensures ReachesFinalReturn(mapper, a) ==>
              PcOffset(mapper, h, a, true) == FinalAddress(mapper, a) + h &&
              PcOffset(mapper, h, a, false) == FinalAddress(mapper, a)
    ensures ReachesFinalReturn(mapper, a) ==>
              PcOffset(mapper, h, a, true) == WithHeader(PcOffset(mapper, h, a, false), h, true)
    ensures !ReachesFinalReturn(mapper, a) ==> PcOffset(mapper, h, a, true) == PcOffset(mapper, h, a, false) == SIZE_MAX
    ensures mapper == SA1Rom ==> ReachesFinalReturn(mapper, a)
  {
  }

  // ---------------------------------------------------------------- LoROM

  lemma LoRomPcBelow(a: SizeT)
    ensures LoRomPc(a) < 0x40_0000
  {
  }

  /** LoROM `pc_to_snes` never answers the sentinel: it always sets bit 15 and stays below 8 MiB. */
  lemma LoRomSnesAddressInBank(h: SizeT, p: SizeT, header: bool)
    ensures Masked(SnesAddress(LoRom, h, p, header), 0x8000, 0x8000)
    ensures SnesAddress(LoRom, h, p, header) < 0x80_0000
  {
    var q := Stripped(h, p, header);
    assert SnesAddress(LoRom, h, p, header) == LoRomSnes(q);
    LoRomSnesBits(q);
  }

  lemma LoRomSnesBits(q: SizeT)
    ensures Masked(LoRomSnes(q), 0x8000, 0x8000) && LoRomSnes(q) < 0x80_0000
  {
  }

  /**
   * LoROM `snes_to_pc` answers the sentinel exactly in the work-RAM banks
   * 7E/7F, the lower halves of banks 00-3F and 80-BF, and 70-7F:0000-7FFF,
   * given a header offset as the constructor computes it.
   */
  lemma LoRomPcOffsetRejects(h: SizeT, a: SizeT, header: bool)
    requires h < 0x8000
    ensures PcOffset(LoRom, h, a, header) == SIZE_MAX <==>
              (Masked(a, 0xFE_0000, 0x7E_0000) || Masked(a, 0x40_8000, 0x00_0000) || Masked(a, 0x70_8000, 0x70_0000))
  {
    LoRomPcBelow(a);
    WithHeaderBelow(LoRomPc(a), h, header);
  }

  lemma SmallSumBelowMax(x: SizeT, y: SizeT)
    requires x < 0x100_0000 && y < 0x100_0000
    ensures x + y < 0x200_0000
  {
  }

  lemma WithHeaderBelow(t: SizeT, h: SizeT, header: bool)
    requires t < 0x100_0000 && h < 0x8000
    ensures WithHeader(t, h, header) < 0x200_0000
  {
    if header {
      SmallSumBelowMax(t, h);
    }
  }

  lemma LoRomFacts(p: SizeT)
    requires p < 0x3F_0000
    ensures !LoRomRejects(LoRomSnes(p)) && LoRomPc(LoRomSnes(p)) == p
  {
  }

  /** Without the header, every LoROM offset below 0x3F0000 survives the round trip. */
  lemma LoRomRoundTrip(h: SizeT, p: SizeT)
    requires p < 0x3F_0000
    ensures PcOffset(LoRom, h, SnesAddress(LoRom, h, p, false), false) == p
  {
    LoRomFacts(p);
  }

  /** With the header, every offset less than 0x3F0000 bytes after the header survives the round trip. */
  lemma LoRomRoundTripWithHeader(h: SizeT, p: SizeT)
    requires h <= p && p - h < 0x3F_0000
    ensures PcOffset(LoRom, h, SnesAddress(LoRom, h, p), true) == p
  {
    LoRomFacts(p - h);
    assert SnesAddress(LoRom, h, p, true) == LoRomSnes(p - h);
    assert FinalAddress(LoRom, LoRomSnes(p - h)) == p - h;
    assert (p - h) + h == p;
  }

  // ---------------------------------------------------------------- SA-1

  /** The slot whose base is `p & 0x700000`, as bits 21 and 23 of the answer. */
  function SA1SlotBits(p: SizeT): SizeT {
    ((p & 0x10_0000) << 1) | ((p & 0x20_0000) << 2)
  }

  lemma SA1SlotShift(p: SizeT, i: nat)
    requires i < 8 && (i == 0 || i == 1 || i == 4 || i == 5)
    requires SA1Banks[i] == p & 0x70_0000
    ensures Slot(i) << 21 == SA1SlotBits(p)
  {
  }

  /** The SA-1 slot search in closed form: it succeeds iff `p & 0x700000` is a valid bank base. */
  lemma SA1SearchClosedForm(p: SizeT)
    ensures SA1Search(p, 0) ==
      if p & 0x70_0000 < 0x40_0000 then 0x00_8000 | SA1SlotBits(p) | ((p & 0x0F_8000) << 1) | (p & 0x7FFF)
      else SIZE_MAX
  {
    var b := p & 0x70_0000;
    assert b == 0x00_0000 || b == 0x10_0000 || b == 0x20_0000 || b == 0x30_0000 || b >= 0x40_0000;
    if b == 0x00_0000 {
      SA1SlotShift(p, 0);
    } else if b == 0x10_0000 {
      SA1SlotShift(p, 1);
      assert SA1Search(p, 0) == SA1Search(p, 1);
    } else if b == 0x20_0000 {
      SA1SlotShift(p, 4);
      assert SA1Search(p, 0) == SA1Search(p, 2) == SA1Search(p, 4);
    } else if b == 0x30_0000 {
      SA1SlotShift(p, 5);
      assert SA1Search(p, 0) == SA1Search(p, 2) == SA1Search(p, 4) == SA1Search(p, 5);
    } else {
      assert SA1Search(p, 0) == SA1Search(p, 2) == SA1Search(p, 4) == SA1Search(p, 6) == SA1Search(p, 8);
    }
  }

  /** SA-1 `pc_to_snes` succeeds iff `p & 0x700000` is the base of slot 0, 1, 4 or 5. */
  lemma SA1SnesAddressDefined(h: SizeT, p: SizeT)
    ensures SnesAddress(SA1Rom, h, p, false) != SIZE_MAX <==>
              (p & 0x70_0000 == SA1Banks[0] || p & 0x70_0000 == SA1Banks[1] ||
               p & 0x70_0000 == SA1Banks[4] || p & 0x70_0000 == SA1Banks[5])
  {
    SA1SearchClosedForm(p);
    SA1SnesBelow(p);
  }

  lemma SA1SnesBelow(p: SizeT)
    ensures 0x00_8000 | SA1SlotBits(p) | ((p & 0x0F_8000) << 1) | (p & 0x7FFF) < 0x100_0000
  {
  }

  /**
   * The two shapes of an SA-1 `snes_to_pc` result without the header: the
   * sentinel, or an offset below 4 MiB. In the bit-15 window the slot
   * index has bit 1 clear (it is bit 22 of the address, which the window
   * requires clear), so it is 0, 1, 4 or 5 and the all-ones slots are never
   * selected; in banks C0-FF the index built from bits 20 and 21 is too.
   */
  lemma SA1PcShape(a: SizeT)
    ensures Masked(a, 0x40_8000, 0x00_8000) ==> SA1WindowIndex(a) in {0, 1, 4, 5}
    ensures SA1HighIndex(a) in {0, 1, 4, 5}
    ensures SA1Pc(a) == SIZE_MAX <==> (!Masked(a, 0x40_8000, 0x00_8000) && !Masked(a, 0xC0_0000, 0xC0_0000))
    ensures SA1Pc(a) != SIZE_MAX ==> SA1Pc(a) < 0x40_0000
  {
    SA1IndexFacts(a);
    var i2 := SA1HighIndex(a);
    SA1BankBits(a, i2);
    assert SA1HighPc(a) < 0x40_0000;
    if Masked(a, 0x40_8000, 0x00_8000) {
      var i1 := SA1WindowIndex(a);
      SA1BankBits(a, i1);
      assert SA1WindowPc(a) < 0x40_0000;
    }
  }

  lemma SA1IndexFacts(a: SizeT)
    ensures Masked(a, 0x40_8000, 0x00_8000) ==> SA1WindowIndex(a) in {0, 1, 4, 5}
    ensures SA1HighIndex(a) in {0, 1, 4, 5}
  {
  }

  lemma SA1BankBits(a: SizeT, i: SizeT)
    requires i in {0, 1, 4, 5}
    ensures BankAt(i) & 0x30_0000 == BankAt(i) && BankAt(i) | ((a & 0x1F_0000) >> 1) | (a & 0x00_7FFF) < 0x40_0000
    ensures BankAt(i) | (a & 0x0F_FFFF) < 0x40_0000
  {
  }

  /** The SA-1 sentinel still gets the header added at the final return: it wraps around to `header - 1`. */
  lemma SA1SentinelWrapsWithHeader(h: SizeT, a: SizeT)
    requires !Masked(a, 0x40_8000, 0x00_8000) && !Masked(a, 0xC0_0000, 0xC0_0000)
    ensures PcOffset(SA1Rom, h, a, true) == h - 1
    ensures h != 0 ==> PcOffset(SA1Rom, h, a, true) != SIZE_MAX
  {
    assert SA1Pc(a) == SIZE_MAX;
  }

  lemma SA1Facts(p: SizeT)
    requires p < 0x40_0000
    ensures var s := 0x00_8000 | SA1SlotBits(p) | ((p & 0x0F_8000) << 1) | (p & 0x7FFF);
      Masked(s, 0x40_8000, 0x00_8000) && SA1WindowIndex(s) == ((p & 0x10_0000) >> 20) | ((p & 0x20_0000) >> 19)
      && ((s & 0x1F_0000) >> 1) | (s & 0x00_7FFF) == p & 0x0F_FFFF
  {
  }

  lemma SA1BankOfIndex(p: SizeT)
    ensures BankAt(((p & 0x10_0000) >> 20) | ((p & 0x20_0000) >> 19)) == p & 0x30_0000
  {
  }

  lemma SA1Recombine(p: SizeT)
    requires p < 0x40_0000
    ensures (p & 0x30_0000) | (p & 0x0F_FFFF) == p
  {
  }

  /** Without the header, every SA-1 offset below 4 MiB survives the round trip. */
  lemma SA1RoundTrip(h: SizeT, p: SizeT)
    requires p < 0x40_0000
    ensures PcOffset(SA1Rom, h, SnesAddress(SA1Rom, h, p, false), false) == p
  {
    SA1SearchClosedForm(p);
    SA1Facts(p);
    SA1BankOfIndex(p);
    SA1Recombine(p);
    var s := 0x00_8000 | SA1SlotBits(p) | ((p & 0x0F_8000) << 1) | (p & 0x7FFF);
    assert SnesAddress(SA1Rom, h, p, false) == s;
    assert SA1WindowPc(s) == (p & 0x30_0000) | (p & 0x0F_FFFF);
  }

  // ---------------------------------------------------------------- full SA-1

  lemma FullSA1PcBelow(a: SizeT)
    ensures FullSA1HighPc(a) < 0x80_0000 && FullSA1LowPc(a) < 0x40_0000
  {
  }

  lemma FullSA1Regions(p: SizeT)
    ensures Masked(p, 0x40_0000, 0x40_0000) || Masked(p, 0x60_0000, 0x00_0000) || Masked(p, 0x60_0000, 0x20_0000)
  {
  }

  /** Full SA-1 `pc_to_snes` never answers the sentinel for a 24-bit offset; offsets with bit 22 set map to `p | 0xC00000`. */
  lemma FullSA1SnesAddressTotal(h: SizeT, p: SizeT)
    requires p < 0x100_0000
    ensures SnesAddress(FullSA1Rom, h, p, false) != SIZE_MAX
    ensures Masked(p, 0x40_0000, 0x40_0000) ==> SnesAddress(FullSA1Rom, h, p, false) == p | 0xC0_0000
  {
    FullSA1Regions(p);
    assert SnesAddress(FullSA1Rom, h, p, false) == FullSA1Snes(p);
    if Masked(p, 0x40_0000, 0x40_0000) {
      FullSA1HighSnesBits(p);
    } else {
      FullSA1LowSnesBits(p);
    }
  }

  lemma FullSA1HighSnesBits(p: SizeT)
    requires p < 0x100_0000
    ensures p | 0xC0_0000 < 0x100_0000
  {
  }

  lemma FullSA1LowSnesBits(p: SizeT)
    ensures FullSA1LowSnes(p) < 0x40_0000 && 0x80_0000 | FullSA1LowSnes(p) < 0x100_0000
  {
  }

  /** Full SA-1 `snes_to_pc` answers the sentinel exactly in banks 40-7F and in the lower halves of banks 00-3F and 80-BF. */
  lemma FullSA1PcOffsetRejects(h: SizeT, a: SizeT, header: bool)
    requires h < 0x8000
    ensures PcOffset(FullSA1Rom, h, a, header) == SIZE_MAX <==>
              (Masked(a, 0xC0_0000, 0x40_0000) || (Masked(a, 0x40_0000, 0) && Masked(a, 0x8000, 0)))
    ensures Masked(a, 0xC0_0000, 0xC0_0000) ==> PcOffset(FullSA1Rom, h, a, false) == (a & 0x3F_FFFF) | 0x40_0000
  {
    FullSA1PcBelow(a);
    WithHeaderBelow(FullSA1HighPc(a), h, header);
    WithHeaderBelow(FullSA1LowPc(a), h, header);
    FullSA1Banks(a);
  }

  lemma FullSA1Banks(a: SizeT)
    ensures Masked(a, 0xC0_0000, 0xC0_0000) || Masked(a, 0xC0_0000, 0x40_0000) || Masked(a, 0xC0_0000, 0x00_0000) || Masked(a, 0xC0_0000, 0x80_0000)
    ensures Masked(a, 0x40_0000, 0) <==> (Masked(a, 0xC0_0000, 0x00_0000) || Masked(a, 0xC0_0000, 0x80_0000))
  {
  }

  lemma FullSA1HighFacts(p: SizeT)
    requires p < 0x80_0000 && Masked(p, 0x40_0000, 0x40_0000)
    ensures Masked(p | 0xC0_0000, 0xC0_0000, 0xC0_0000) && FullSA1HighPc(p | 0xC0_0000) == p
  {
  }

  lemma FullSA1LowFacts(p: SizeT)
    requires p < 0x80_0000 && Masked(p, 0x60_0000, 0x00_0000)
    ensures Masked(FullSA1LowSnes(p), 0xC0_0000, 0x00_0000) && !Masked(FullSA1LowSnes(p), 0x00_8000, 0)
    ensures FullSA1LowPc(FullSA1LowSnes(p)) == p
  {
  }

  lemma FullSA1MiddleFacts(p: SizeT)
    requires p < 0x80_0000 && Masked(p, 0x60_0000, 0x20_0000)
    ensures Masked(0x80_0000 | FullSA1LowSnes(p), 0xC0_0000, 0x80_0000) && !Masked(0x80_0000 | FullSA1LowSnes(p), 0x00_8000, 0)
    ensures FullSA1LowPc(0x80_0000 | FullSA1LowSnes(p)) == p
  {
  }

  /** Without the header, every full SA-1 offset below 8 MiB survives the round trip. */
  lemma FullSA1RoundTrip(h: SizeT, p: SizeT)
    requires p < 0x80_0000
    ensures PcOffset(FullSA1Rom, h, SnesAddress(FullSA1Rom, h, p, false), false) == p
  {
    FullSA1Regions(p);
    assert SnesAddress(FullSA1Rom, h, p, false) == FullSA1Snes(p);
    if Masked(p, 0x40_0000, 0x40_0000) {
      FullSA1HighFacts(p);
      assert FullSA1Snes(p) == p | 0xC0_0000;
    } else if Masked(p, 0x60_0000, 0x00_0000) {
      FullSA1LowFacts(p);
      assert FullSA1Snes(p) == FullSA1LowSnes(p);
    } else {
      FullSA1MiddleFacts(p);
      assert FullSA1Snes(p) == 0x80_0000 | FullSA1LowSnes(p);
    }
  }

  // ---------------------------------------------------------------- the image

  /** Byte `i` of the image buffer once `contents` is loaded into the zeroed 16 MiB buffer. */
  function Padded(contents: seq<byte>, i: nat): (b: byte)
    ensures i < |contents| ==> b == contents[i]
    ensures i >= |contents| ==> b == 0
  {
    if i < |contents| then contents[i] else 0
  }

  /** An image size as a `size_t`. */
  function SizeBits(n: nat): SizeT
    requires n <= MAX_ROM_SIZE
  {
    n as SizeT
  }

  /** `m_data.size() & 0x7FFF`: the copier header is what is left over after whole 32 KiB banks. */
  function HeaderOf(n: nat): (h: SizeT)
    requires n <= MAX_ROM_SIZE
    ensures h < 0x8000 && h as int < 0x8000
    ensures (SizeBits(n) - h) & 0x7FFF == 0 && h <= SizeBits(n)
  {
    SizeBits(n) & 0x7FFF
  }

  /** The mapper the constructor derives from the header-relative bytes 0x7FD5 and 0x7FD7. */
  function DetectMapper(contents: seq<byte>): (m: MapperType)
    requires |contents| <= MAX_ROM_SIZE
  {
    MapperAt(contents, HeaderOf(|contents|) as int)
  }

  /** The mapper read from the identification bytes of a header that starts at offset `h`. */
  function MapperAt(contents: seq<byte>, h: nat): MapperType
  {
    if Padded(contents, h + 0x7FD5) == 0x23 then
      if Padded(contents, h + 0x7FD7) == 0x0D then FullSA1Rom else SA1Rom
    else LoRom
  }

  /** Mapper detection, case by case: 0x23 selects SA-1, and then 0x0D selects the full variant. */
  lemma DetectMapperCases(contents: seq<byte>)
    requires |contents| <= MAX_ROM_SIZE
    ensures var h := HeaderOf(|contents|) as int;
      && (DetectMapper(contents) == LoRom <==> Padded(contents, h + 0x7FD5) != 0x23)
      && (DetectMapper(contents) == SA1Rom <==> Padded(contents, h + 0x7FD5) == 0x23 && Padded(contents, h + 0x7FD7) != 0x0D)
      && (DetectMapper(contents) == FullSA1Rom <==> Padded(contents, h + 0x7FD5) == 0x23 && Padded(contents, h + 0x7FD7) == 0x0D)
  {
    var h := HeaderOf(|contents|) as int;
    assert DetectMapper(contents) == MapperAt(contents, h);
  }

  /** A 24-bit value from its three bytes, low byte first, as a `size_t`. */
  function Long(lo: byte, hi: byte, bank: byte): (v: SizeT)
    ensures v < 0x100_0000
    ensures v & 0xFF == lo as SizeT && (v >> 8) & 0xFF == hi as SizeT && v >> 16 == bank as SizeT
  {
    ((bank as SizeT) << 16) | ((hi as SizeT) << 8) | (lo as SizeT)
  }

  /** The zeroed buffer with `contents` loaded at its front holds `Padded(contents, i)` at every `i`. */
  lemma LoadedIsPadded(buf: seq<byte>, contents: seq<byte>)
    requires |contents| <= MAX_ROM_SIZE && buf == contents + Zeros(MAX_ROM_SIZE)[|contents|..]
    ensures |buf| == MAX_ROM_SIZE && forall i :: 0 <= i < MAX_ROM_SIZE ==> buf[i] == Padded(contents, i)
  {
    forall i | 0 <= i < MAX_ROM_SIZE
      ensures buf[i] == Padded(contents, i)
    {
      if i >= |contents| {
        assert buf[i] == Zeros(MAX_ROM_SIZE)[i];
      }
    }
  }

  /** The two bytes mapper detection reads, at the header offset of a loaded buffer. */
  lemma MapperFromBuffer(buf: seq<byte>, contents: seq<byte>, at: nat)
    requires |contents| <= MAX_ROM_SIZE && |buf| == MAX_ROM_SIZE
    requires forall i :: 0 <= i < MAX_ROM_SIZE ==> buf[i] == Padded(contents, i)
    requires at < 0x8000
    ensures at + 0x7FD7 < MAX_ROM_SIZE
    ensures MapperAt(contents, at) == if buf[at + 0x7FD5] == 0x23 then (if buf[at + 0x7FD7] == 0x0D then FullSA1Rom else SA1Rom) else LoRom
  {
    assert buf[at + 0x7FD5] == Padded(contents, at + 0x7FD5);
    assert buf[at + 0x7FD7] == Padded(contents, at + 0x7FD7);
  }

  class Rom {
    const name: string
    /** `m_data`: the image, header included. */
    const data: Array.ByteArray
    const headerOffset: SizeT
    const mapper: MapperType

    ghost predicate Valid()
      reads this, data
    {
      && data.buf.Length == MAX_ROM_SIZE && data.capacity == MAX_ROM_SIZE && data.Valid()
      && data.size <= MAX_ROM_SIZE && headerOffset == HeaderOf(data.size)
    }

    /** `Rom(romname)`, with the file's bytes passed in: load, then derive header offset and mapper. */
    constructor (romName: string, contents: seq<byte>)
      requires |contents| <= MAX_ROM_SIZE
      ensures Valid() && fresh(data) && fresh(data.buf)
      ensures name == romName && data.size == |contents|
      ensures forall i :: 0 <= i < MAX_ROM_SIZE ==> data.buf[..][i] == Padded(contents, i)
      ensures headerOffset == HeaderOf(|contents|)
      ensures mapper == DetectMapper(contents)
    {
      var d := new Array.ByteArray(MAX_ROM_SIZE);
      d.Load(contents);
      LoadedIsPadded(d.buf[..], contents);
      var h := HeaderOf(d.size);
      var at := h as int;
      MapperFromBuffer(d.buf[..], contents, at);
      var id := d.buf[at + 0x7FD5];
      var kind := d.buf[at + 0x7FD7];
      name := romName;
      data := d;
      headerOffset := h;
      mapper := if id == 0x23 then (if kind == 0x0D then FullSA1Rom else SA1Rom) else LoRom;
    }

    /** `size()`: the image size without the header, always a whole number of 32 KiB banks. */
    function Size(): (n: SizeT)
      reads this, data
      requires Valid()
      ensures n + headerOffset == SizeBits(data.size)
      ensures n & 0x7FFF == 0
    {
      SizeBits(data.size) - headerOffset
    }

    function SnesToPc(address: SizeT, header: bool := true): SizeT
      reads this
    {
      PcOffset(mapper, headerOffset, address, header)
    }

    /** `pc_to_snes(address, header)`: `address` is reassigned, then translated for the mapper. */
    method PcToSnes(address: SizeT, header: bool := true) returns (r: SizeT)
      ensures r == SnesAddress(mapper, headerOffset, address, header)
    {
      var a := address;
      if header {
        a := a - headerOffset;
      }
      assert a == Stripped(headerOffset, address, header);
      match mapper
      case LoRom =>
        r := LoRomSnes(a);
      case SA1Rom =>
        r := SA1SlotSearch(a);
      case FullSA1Rom =>
        r := FullSA1Snes(a);
    }

    /** `write(offset, data)`: raw placement, header included, no translation. */
    method Write(offset: SizeT, src: seq<byte>)
      requires Valid() && offset as int + |src| <= MAX_ROM_SIZE
      modifies data.buf
      ensures data.buf[..] == old(data.buf[..])[..offset] + src + old(data.buf[..])[offset as int + |src|..]
    {
      data.WriteAt(src, |src|, offset as int);
    }

    /** `write_snes(address, data)`: placement at `snes_to_pc(address)` with the header counted in. */
    method WriteSnes(address: SizeT, src: seq<byte>)
      requires Valid() && SnesToPc(address) as int + |src| <= MAX_ROM_SIZE
      modifies data.buf
      ensures var pc := PcOffset(mapper, headerOffset, address, true);
        data.buf[..] == old(data.buf[..])[..pc] + src + old(data.buf[..])[pc as int + |src|..]
    {
      Write(SnesToPc(address), src);
    }

    /** `at(offset)`: the raw byte, header included, unchecked against `size()`. */
    function At(offset: SizeT): (b: byte)
      reads this, data, data.buf
      requires Valid() && offset as int < MAX_ROM_SIZE
      ensures offset as int < data.size ==> data.At(offset as int) == Ok(b)
    {
      data.buf[offset]
    }

    /** `at_snes(address)`: the byte at `snes_to_pc(address)`, header counted in. */
    function AtSnes(address: SizeT): (b: byte)
      reads this, data, data.buf
      requires Valid() && SnesToPc(address) as int < MAX_ROM_SIZE
      ensures b == At(PcOffset(mapper, headerOffset, address, true))
    {
      data.buf[SnesToPc(address)]
    }

    /** `read_byte(offset)`: the byte `offset` positions after the header. */
    function ReadByte(offset: nat): (b: byte)
      reads this, data, data.buf
      requires Valid() && offset + headerOffset as int < MAX_ROM_SIZE
      ensures b == data.buf[offset + headerOffset as int]
      ensures offset + headerOffset as int < data.size ==> View().At(offset) == Ok(b)
    {
      data.buf[offset + headerOffset as int]
    }

    /** `read_word(offset)`: two bytes after the header, low byte first. */
    function ReadWord(offset: nat): (w: SizeT)
      reads this, data, data.buf
      requires Valid() && offset + headerOffset as int + 1 < MAX_ROM_SIZE
      ensures w < 0x1_0000
      ensures w == Long(ReadByte(offset), ReadByte(offset + 1), 0)
    {
      Long(ReadByte(offset), ReadByte(offset + 1), 0)
    }

    /** `read_long(offset)`: three bytes after the header, low byte first. */
    function ReadLong(offset: nat): (l: SizeT)
      reads this, data, data.buf
      requires Valid() && offset + headerOffset as int + 2 < MAX_ROM_SIZE
      ensures l < 0x100_0000
      ensures l == Long(ReadByte(offset), ReadByte(offset + 1), ReadByte(offset + 2))
    {
      Long(ReadByte(offset), ReadByte(offset + 1), ReadByte(offset + 2))
    }

    /** `data()`: a view that starts after the header but keeps the whole image size. */
    function View(): (v: Array.ByteArrayView)
      reads this, data
      ensures v.source == data && v.offset == headerOffset as int && v.size == data.size
    {
      Array.ViewFrom(data, headerOffset as int)
    }
  }
}
