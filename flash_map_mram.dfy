/**
  The region registry of the Alif MRAM flash map: the fixed table of flash areas, lookup of an
  area by id, the image-slot to area-id mapping and the constant geometry queries (write block
  size, erased value, sectors). The write engine on top of it is in module MramDevice.
 */
module FlashMapMram {
  import opened Wrappers
  import opened FlashMapBackend
  import opened SysFlash

  const MRAM_SECTOR_SIZE: uint32 := 1024
  const MRAM_WRITE_SIZE: uint32 := 16
  const MRAM_ERASE_VALUE: uint8 := 0x0
  const MRAM_ADDR_ALIGN_MASK: bv32 := 0xFFFF_FFF0

  /** `addr & MRAM_ADDR_ALIGN_MASK` on a 32-bit word: the start of the 16-byte block holding `addr`. */
  function AlignDown(addr: nat): (r: nat)
    ensures r % 16 == 0 && r <= addr < r + 16
  {
    addr - addr % 16
  }

  /** The first block boundary at or above `addr`. */
  function AlignUp(addr: nat): (r: nat)
    ensures r % 16 == 0 && addr <= r < addr + 16
  {
    if addr % 16 == 0 then addr else AlignDown(addr) + 16
  }

  /**
    On 32-bit words the mask of the source is exactly rounding down to a block boundary, and its
    complement is the offset inside the block; the model therefore computes both in integers.
   */
  lemma MaskIsAlignDown(a: bv32)
    ensures a & MRAM_ADDR_ALIGN_MASK == a - a % 16
    ensures a & !MRAM_ADDR_ALIGN_MASK == a % 16
    ensures (a & MRAM_ADDR_ALIGN_MASK) + (a & !MRAM_ADDR_ALIGN_MASK) == a
  {
  }

  // ---------------------------------------------------------------- the area table

  /** The end of the last region the configuration lays out. */
  function LayoutEnd(mramBase: uint32, cfg: Config): int {
    mramBase + cfg.startAddress + cfg.bootloaderSize + cfg.primarySize + cfg.secondarySize
      + (if cfg.swapUsingScratch then cfg.scratchSize else 0)
  }

  /** Every region, hence every `fa_off`, lies below 4 GiB: the sums the table computes do not wrap. */
  predicate LayoutFits(mramBase: uint32, cfg: Config) {
    LayoutEnd(mramBase, cfg) < UINT32_LIMIT
  }

  /**
    `boot_area_descs`: bootloader, primary and secondary slot of image 0, and the scratch area
    when the build swaps using scratch. The NULL terminator of the C array is the sequence end.
   */
  function AreaDescs(mramBase: uint32, cfg: Config): (descs: seq<FlashArea>)
    requires LayoutFits(mramBase, cfg)
    ensures |descs| == if cfg.swapUsingScratch then 4 else 3
    ensures descs[0].faOff == mramBase + cfg.startAddress
    ensures descs[0].faSize == cfg.bootloaderSize && descs[1].faSize == cfg.primarySize
    ensures descs[2].faSize == cfg.secondarySize
    ensures cfg.swapUsingScratch ==> descs[3].faSize == cfg.scratchSize
    // each area starts where the previous one ends
    ensures forall i :: 0 < i < |descs| ==> descs[i].faOff == descs[i - 1].faOff + descs[i - 1].faSize
    ensures descs[|descs| - 1].faOff + descs[|descs| - 1].faSize == LayoutEnd(mramBase, cfg)
    // the id of the area at position i is i, and every area lies on the MRAM
    ensures forall i :: 0 <= i < |descs| ==> descs[i].faId == i && descs[i].faDeviceId == FLASH_DEVICE_MRAM
  {
    var bootOff := mramBase + cfg.startAddress;
    var primaryOff := bootOff + cfg.bootloaderSize;
    var secondaryOff := primaryOff + cfg.primarySize;
    var scratchOff := secondaryOff + cfg.secondarySize;
    var bootloader := FlashArea(FLASH_AREA_BOOTLOADER, FLASH_DEVICE_MRAM, bootOff, cfg.bootloaderSize);
    var primary1 := FlashArea(ImagePrimary(0), FLASH_DEVICE_MRAM, primaryOff, cfg.primarySize);
    var secondary1 := FlashArea(ImageSecondary(0), FLASH_DEVICE_MRAM, secondaryOff, cfg.secondarySize);
    if cfg.swapUsingScratch then
      var scratch := FlashArea(FLASH_AREA_IMAGE_SCRATCH, FLASH_DEVICE_MRAM, scratchOff, cfg.scratchSize);
      [bootloader, primary1, secondary1, scratch]
    else
      [bootloader, primary1, secondary1]
  }

  /** The areas of the table are pairwise disjoint and in ascending address order. */
  lemma AreasDisjointAndOrdered(mramBase: uint32, cfg: Config, i: nat, j: nat)
    requires LayoutFits(mramBase, cfg)
    requires i < j < |AreaDescs(mramBase, cfg)|
    ensures var descs := AreaDescs(mramBase, cfg);
      descs[i].faOff + descs[i].faSize <= descs[j].faOff
  {
    var descs := AreaDescs(mramBase, cfg);
    if j > i + 1 {
      AreasDisjointAndOrdered(mramBase, cfg, i, j - 1);
    }
  }

  /** With the default sizes and a 16-aligned MRAM base, every area starts on a block boundary. */
  lemma DefaultAreasBlockAligned(mramBase: uint32, swapUsingScratch: bool)
    requires mramBase % 16 == 0
    requires LayoutFits(mramBase, DefaultConfig(swapUsingScratch))
    ensures forall fa :: fa in AreaDescs(mramBase, DefaultConfig(swapUsingScratch)) ==>
      fa.faOff % 16 == 0 && fa.faSize % 16 == 0
  {
    DefaultSizesAligned(swapUsingScratch);
  }

  // ---------------------------------------------------------------- lookup

  /** The first area of `descs` whose id is `id`, if any: the specification of the table scan. */
  function Lookup(descs: seq<FlashArea>, id: uint8): (r: Option<FlashArea>)
    ensures r.None? <==> forall i :: 0 <= i < |descs| ==> descs[i].faId != id
    ensures r.Some? ==> r.value in descs && r.value.faId == id
    ensures forall i :: (0 <= i < |descs| && descs[i].faId == id &&
      forall j :: 0 <= j < i ==> descs[j].faId != id) ==> r == Some(descs[i])
    decreases |descs|
  {
    if descs == [] then None
    else if descs[0].faId == id then Some(descs[0])
    else
      var r := Lookup(descs[1..], id);
      assert forall i :: 1 <= i < |descs| ==> descs[i] == descs[1..][i - 1];
      r
  }

  /** `get_flash_area_from_id`: scans the table from the start and stops at the first match. */
  method GetFlashAreaFromId(descs: seq<FlashArea>, id: uint8) returns (area: Option<FlashArea>)
    ensures area == Lookup(descs, id)
  {
    area := None;
    var i := 0;
    while i < |descs|
      invariant 0 <= i <= |descs|
      invariant forall j :: 0 <= j < i ==> descs[j].faId != id
    {
      if descs[i].faId == id {
        area := Some(descs[i]);
        break;
      }
      i := i + 1;
    }
  }

  /** `flash_area_open`: 0 and the area with that id, or -1 and no area. */
  method Open(descs: seq<FlashArea>, id: uint8) returns (rc: int, area: Option<FlashArea>)
    ensures area == Lookup(descs, id)
    ensures rc == 0 <==> area.Some?
    ensures rc == -1 <==> area.None?
  {
    area := GetFlashAreaFromId(descs, id);
    rc := if area != None then 0 else -1;
  }

  /** Every id of the table resolves to its own entry; any other id, the sentinel 255 included, resolves to nothing. */
  lemma TableLookup(mramBase: uint32, cfg: Config, id: uint8)
    requires LayoutFits(mramBase, cfg)
    ensures var descs := AreaDescs(mramBase, cfg);
      if id < |descs| then Lookup(descs, id) == Some(descs[id]) else Lookup(descs, id) == None
    ensures Lookup(AreaDescs(mramBase, cfg), FLASH_SLOT_DOES_NOT_EXIST) == None
  {
    var descs := AreaDescs(mramBase, cfg);
    if id < |descs| {
      assert descs[id].faId == id;
    }
  }

  /** `flash_area_close`: areas are not leased, so closing one reads and changes nothing. */
  method Close(fa: FlashArea) {
  }

  // ---------------------------------------------------------------- geometry

  /** `flash_area_align`: the write block size. */
  function Align(area: FlashArea): uint32 {
    MRAM_WRITE_SIZE
  }

  /** `flash_area_erased_val`: the value an erased byte reads back as. */
  function ErasedVal(area: FlashArea): uint8 {
    MRAM_ERASE_VALUE
  }

  /** The write block size and erased value do not depend on the area: 16 and 0 for every one. */
  lemma GeometryIndependentOfArea(a: FlashArea, b: FlashArea)
    ensures Align(a) == Align(b) == 16
    ensures ErasedVal(a) == ErasedVal(b) == 0
  {
  }

  /** `flash_area_get_sector`: the nominal 1024-byte sector holding area offset `off`, and status 0. */
  function GetSector(area: FlashArea, off: uint32): (r: (int, FlashSector))
    ensures r.0 == 0
    ensures r.1.fsSize == MRAM_SECTOR_SIZE
    ensures r.1.fsOff % 1024 == 0 && r.1.fsOff <= off < r.1.fsOff + r.1.fsSize
  {
    (0, FlashSector((off / 1024) * 1024, MRAM_SECTOR_SIZE))
  }

  /** The number of iterations of `off = 0; off < size; off += 1024`: size divided by 1024, rounded up. */
  function SectorCount(size: nat): (n: nat)
    ensures n * 1024 >= size
    ensures n == 0 || (n - 1) * 1024 < size
  {
    (size + MRAM_SECTOR_SIZE - 1) / 1024
  }

  /**
    `flash_area_get_sectors`: fails with -1 for an unknown id or a non-MRAM area; otherwise fills
    `sectors` with the area-relative sectors (1024 k, 1024) and returns their number. `faId` is
    narrowed to 8 bits as the C cast does; on failure the count is left as the caller passed it.
   */
  method GetSectors(descs: seq<FlashArea>, faId: int, capacity: uint32, sectors: array<FlashSector>)
    returns (rc: int, count: uint32)
    requires var fa := Lookup(descs, faId % 256);
      fa.Some? && fa.value.faDeviceId == FLASH_DEVICE_MRAM ==>
        fa.value.faSize <= UINT32_LIMIT - MRAM_SECTOR_SIZE && SectorCount(fa.value.faSize) <= sectors.Length
    modifies sectors
    ensures var fa := Lookup(descs, faId % 256);
      if fa.None? || fa.value.faDeviceId != FLASH_DEVICE_MRAM then
        rc == -1 && count == capacity && sectors[..] == old(sectors[..])
      else
        rc == 0 && count == SectorCount(fa.value.faSize) &&
        (forall k :: 0 <= k < count ==> sectors[k] == FlashSector(k * 1024, MRAM_SECTOR_SIZE)) &&
        (forall k :: count <= k < sectors.Length ==> sectors[k] == old(sectors[k]))
  {
    var fa := GetFlashAreaFromId(descs, faId % 256);
    if fa == None || fa.value.faDeviceId != FLASH_DEVICE_MRAM {
      return -1, capacity;
    }
    var size := fa.value.faSize;
    var totalCount := 0;
    var off := 0;
    while off < size
      invariant off == totalCount * 1024
      invariant totalCount == 0 || (totalCount - 1) * 1024 < size
      invariant totalCount <= SectorCount(size)
      invariant forall k :: 0 <= k < totalCount ==> sectors[k] == FlashSector(k * 1024, MRAM_SECTOR_SIZE)
      invariant forall k :: totalCount <= k < sectors.Length ==> sectors[k] == old(sectors[k])
      decreases size - off
    {
      SectorCountStep(size, totalCount);
      sectors[totalCount] := FlashSector(off, MRAM_SECTOR_SIZE);
      totalCount := totalCount + 1;
      off := off + MRAM_SECTOR_SIZE;
    }
    SectorCountReached(size, totalCount);
    return 0, totalCount;
  }

  /** One more sector starts below the area end while the running offset is inside the area. */
  lemma SectorCountStep(size: nat, t: nat)
    requires t * 1024 < size
    ensures t < SectorCount(size)
  {
    assert t * 1024 + 1024 <= size + 1023;
  }

  /** Once the running offset reaches the area end, the number of sectors listed is the count. */
  lemma SectorCountReached(size: nat, t: nat)
    requires size <= t * 1024 && (t == 0 || (t - 1) * 1024 < size)
    ensures t == SectorCount(size)
  {
  }

  /** The sector `get_sector` reports for any offset inside an area is one of those `get_sectors` lists. */
  lemma SectorOfIsListed(area: FlashArea, off: uint32)
    requires off < area.faSize
    ensures var s := GetSector(area, off).1;
      s.fsOff / 1024 < SectorCount(area.faSize) &&
      s == FlashSector((s.fsOff / 1024) * 1024, MRAM_SECTOR_SIZE)
  {
  }

  /** The last sector is not clipped: when the size is not a multiple of 1024 it reaches past the area end. */
  lemma LastSectorNotClipped(area: FlashArea)
    requires area.faSize % 1024 != 0
    ensures var last := GetSector(area, area.faSize - 1).1;
      last.fsSize == MRAM_SECTOR_SIZE && last.fsOff + last.fsSize > area.faSize &&
      last.fsOff == (SectorCount(area.faSize) - 1) * 1024
  {
  }

  // ---------------------------------------------------------------- slots

  /**
    `flash_area_id_from_multi_image_slot`: slot 0 and 1 go through the primary and secondary
    macros (so a non-zero image yields 255, not -1), slot 2 is the scratch area for any image,
    and every other slot is -1.
   */
  function IdFromMultiImageSlot(imageIndex: int, slot: int): (r: int)
    ensures r == FLASH_AREA_IMAGE_0_PRIMARY as int <==> imageIndex == 0 && slot == 0
    ensures r == FLASH_AREA_IMAGE_0_SECONDARY as int <==> imageIndex == 0 && slot == 1
    ensures r == FLASH_AREA_IMAGE_SCRATCH as int <==> slot == 2
    ensures r == FLASH_SLOT_DOES_NOT_EXIST as int <==> imageIndex != 0 && (slot == 0 || slot == 1)
    ensures r == -1 <==> !(0 <= slot <= 2)
  {
    match slot
    case 0 => ImagePrimary(imageIndex)
    case 1 => ImageSecondary(imageIndex)
    case 2 => FLASH_AREA_IMAGE_SCRATCH
    case _ => -1
  }

  /** `flash_area_id_from_image_slot`: slot s of image 0 is area s + 1, and any other slot is -1. */
  function IdFromImageSlot(slot: int): (r: int)
    ensures 0 <= slot <= 2 ==> r == slot + 1
    ensures !(0 <= slot <= 2) ==> r == -1
  {
    IdFromMultiImageSlot(0, slot)
  }

  /**
    Opening what the slot mapping returns (narrowed to `uint8_t` as `flash_area_open` takes it)
    finds an area exactly for the slots of image 0 present in the table: primary and secondary
    always, scratch only when the build has it; 255 and -1 find nothing.
   */
  lemma SlotIdsResolve(mramBase: uint32, cfg: Config, imageIndex: int, slot: int)
    requires LayoutFits(mramBase, cfg)
    ensures var descs := AreaDescs(mramBase, cfg);
      var id := IdFromMultiImageSlot(imageIndex, slot) % 256;
      Lookup(descs, id).Some? <==>
        (imageIndex == 0 && (slot == 0 || slot == 1)) || (slot == 2 && cfg.swapUsingScratch)
  {
    var descs := AreaDescs(mramBase, cfg);
    var r := IdFromMultiImageSlot(imageIndex, slot);
    var id := r % 256;
    if !(0 <= slot <= 2) {
      assert r == -1 && id == 255;
    } else if slot == 2 {
      assert id == 3;
    } else if imageIndex != 0 {
      assert r == 255 && id == 255;
    } else {
      assert id == slot + 1;
    }
    TableLookup(mramBase, cfg, id);
  }
}
