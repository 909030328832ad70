# Alif MRAM flash map for MCUboot, in Dafny

This project models the storage backend that MCUboot uses on Alif devices. The backend keeps
the fixed table of flash areas: the bootloader, the primary and secondary slot of image 0, and
a scratch area when the build swaps using scratch. It finds an area by id, maps an image slot
to an area id, and reports the constant geometry: a 16-byte write block, an erased value of 0
and 1024-byte sectors. It also turns region-relative reads, writes and erases into aligned
16-byte block writes on the memory-mapped MRAM.

The project has four modules:

- `FlashMapBackend` (`backend.dfy`) holds the `flash_area` and `flash_sector` records and their
  getters. `uint8_t` and `uint32_t` are bounded integer subset types.
- `SysFlash` (`sysflash.dfy`) holds the device and area ids and the build-time sizes as a
  `Config` value, with their defaults. It also has the `FLASH_AREA_IMAGE_PRIMARY(x)` and
  `FLASH_AREA_IMAGE_SECONDARY(x)` macros.
- `FlashMapMram` (`flash_map_mram.dfy`) is the pure part of the backend:
  - the area table, as a function of the MRAM base address and the configuration;
  - the table scan behind `flash_area_open`, as a loop proved against the function `Lookup`;
  - `flash_area_align`, `flash_area_erased_val`, `flash_area_get_sector` and
    `flash_area_get_sectors`;
  - the slot-to-id functions.
- `MramDevice` (`mram.dfy`) is the stateful part. The class `Mram` holds the bytes of the
  address space as an array indexed by absolute address. A ghost log records every 16-byte
  block write. The only write primitive is `MramWrite128` (`mram_write_128bit`).
  - `Write` and `Erase` are methods proved against the function `Overwrite`, which puts bytes
    in place, and against the shape of the block-write log. `Read` returns the memory at
    `fa_off + off` onwards, byte by byte.
  - `Write` is the three steps of `flash_area_write`: a leading read-modify-write, the loop of
    whole blocks, and a trailing read-modify-write. Each step is a method of its own:
    `WriteLeading`, `WriteWholeBlocks`, and `WriteFromBoundary`, which calls the loop and then
    patches the last partial block.

Two behaviours of the code are kept as written:

- For an image index other than 0, slots 0 and 1 give 255 (`FLASH_SLOT_DOES_NOT_EXIST`), not
  -1. Slot 2 gives the scratch id for any image.
- `flash_area_erase` checks that the *absolute* address `fa_off + off` is a multiple of 16, not
  the area-relative offset. `EraseAlignmentRelative` shows the two agree when the area offset
  is 16-aligned.

A 20-byte write at block offset 3 issues two read-modify-writes and no whole-block write,
because the loop only runs while at least 16 bytes are left: 13 bytes go into the first block
and the other 7 into the second (`TwentyBytesAtOffsetThree`).

## Model

| member | source | states |
|---|---|---|
| FlashMapBackend.AreaGettersRoundTrip | boot/alif/include/flash_map_backend/flash_map_backend.h:35-71 | each area getter returns its field, and an area equals the area rebuilt from its getters |
| FlashMapBackend.SectorGettersRoundTrip | boot/alif/include/flash_map_backend/flash_map_backend.h:79-93 | the same for the offset and size getters of a sector |
| SysFlash.ImagePrimary | boot/alif/include/sysflash/sysflash.h:45-47 | the primary slot id is 1 exactly for image 0, and 255 for every other image |
| SysFlash.ImageSecondary | boot/alif/include/sysflash/sysflash.h:48-50 | the secondary slot id is 2 exactly for image 0, and 255 for every other image |
| SysFlash.AreaIdsDistinct | boot/alif/include/sysflash/sysflash.h:15-22 | the four area ids are pairwise distinct and none of them is the sentinel 255 |
| SysFlash.DefaultSizesAligned | boot/alif/include/sysflash/sysflash.h:24-42 | the default start address and region sizes are multiples of the 1024-byte sector, hence of the 16-byte block |
| FlashMapMram.AlignDown | boot/alif/flash/flash_map_mram.c:205-206 | the start of the block holding an address: a multiple of 16, at most the address, less than 16 below it |
| FlashMapMram.MaskIsAlignDown | boot/alif/flash/flash_map_mram.c:205-206 | on 32-bit words, masking with 0xFFFFFFF0 rounds down to a multiple of 16, and the complement mask gives the offset in the block |
| FlashMapMram.AreaDescs | boot/alif/flash/flash_map_mram.c:25-77 | 3 areas, or 4 with scratch; the first starts at base plus start address, each has its configured size, each starts where the previous ends, and the last ends at the layout end; the area at position i has id i and lies on the MRAM |
| FlashMapMram.AreasDisjointAndOrdered | boot/alif/flash/flash_map_mram.c:25-77 | any earlier area of the table ends at or before any later one starts |
| FlashMapMram.DefaultAreasBlockAligned | boot/alif/flash/flash_map_mram.c:25-77 | with the default sizes and a 16-aligned base, every area offset and size is a multiple of 16 |
| FlashMapMram.Lookup | boot/alif/flash/flash_map_mram.c:120-136 | no result exactly when no entry has the id; a result is an entry with that id, and it is the first such entry |
| FlashMapMram.GetFlashAreaFromId | boot/alif/flash/flash_map_mram.c:120-136 | the scan that stops at the first match returns what `Lookup` specifies |
| FlashMapMram.Open | boot/alif/flash/flash_map_mram.c:145-152 | returns the looked-up area; the status is 0 exactly when an area is found, and -1 exactly when none is |
| FlashMapMram.TableLookup | boot/alif/flash/flash_map_mram.c:120-136 | on the configured table, every id below the table length finds its own entry, and every other id, 255 included, finds nothing |
| FlashMapMram.GeometryIndependentOfArea | boot/alif/flash/flash_map_mram.c:295-313 | the write block size is 16 and the erased value is 0, for every area alike |
| FlashMapMram.GetSector | boot/alif/flash/flash_map_mram.c:361-370 | status 0; a 1024-byte sector whose offset is a multiple of 1024 and which contains the given offset |
| FlashMapMram.SectorCount | boot/alif/flash/flash_map_mram.c:339-344 | the number of 1024-byte steps from 0 to the size: the least count whose sectors cover the size |
| FlashMapMram.GetSectors | boot/alif/flash/flash_map_mram.c:326-349 | an unknown id or a non-MRAM area gives -1 with the count and buffer untouched; otherwise 0, the sector count, sector k at offset 1024 k of size 1024, and the rest of the buffer untouched; the id is narrowed to 8 bits |
| FlashMapMram.SectorOfIsListed | boot/alif/flash/flash_map_mram.c:326-370 | the sector that get_sector reports for an offset inside the area is one of those that get_sectors lists |
| FlashMapMram.LastSectorNotClipped | boot/alif/flash/flash_map_mram.c:361-370 | when the size is not a multiple of 1024, the sector of the last byte is the last listed one and keeps the full 1024 bytes, reaching past the area end |
| FlashMapMram.IdFromMultiImageSlot | boot/alif/flash/flash_map_mram.c:379-388 | the result is 1 or 2 exactly for slot 0 or 1 of image 0; 3 exactly for slot 2; 255 exactly for slot 0 or 1 of another image; -1 exactly for every other slot |
| FlashMapMram.IdFromImageSlot | boot/alif/flash/flash_map_mram.c:396-399 | slots 0, 1 and 2 map to ids 1, 2 and 3; any other slot maps to -1 |
| FlashMapMram.SlotIdsResolve | boot/alif/flash/flash_map_mram.c:379-399 | opening the id a slot maps to, narrowed to 8 bits, finds an area exactly for slot 0 or 1 of image 0, or for slot 2 when scratch is configured |
| MramDevice.OverwriteAt | boot/alif/flash/flash_map_mram.c:223 | byte by byte, an overwrite holds the new bytes inside the range and the old bytes outside it |
| MramDevice.Erased | boot/alif/flash/flash_map_mram.c:271-273 | n bytes, every one the erased value 0 |
| MramDevice.Addr | boot/alif/flash/flash_map_mram.c:199 | the absolute address `fa_off + off` as a 32-bit sum: the plain sum when it fits, and the sum minus 2^32 when it wraps |
| MramDevice.TwentyBytesAtOffsetThree | boot/alif/flash/flash_map_mram.c:202-254 | 20 bytes at block offset 3 touch exactly two blocks: a 13-byte leading patch that ends on a boundary, no whole-block write, and a 7-byte trailing patch |
| MramDevice.OverwriteReadBack | boot/alif/flash/flash_map_mram.c:176-256 | reading the written range after an overwrite gives exactly the written bytes |
| MramDevice.OverwriteAdjacent | boot/alif/flash/flash_map_mram.c:234-239 | two adjacent overwrites equal one overwrite of the concatenation |
| MramDevice.ReadModifyWrite | boot/alif/flash/flash_map_mram.c:209-226 | writing back a block after patching bytes into it changes memory exactly as putting those bytes in place does |
| MramDevice.OverwriteIdempotent | boot/alif/flash/flash_map_mram.c:267-287 | overwriting with the same bytes twice equals doing it once, so erasing twice equals erasing once |
| MramDevice.EraseAlignmentRelative | boot/alif/flash/flash_map_mram.c:276 | for a 16-aligned area offset with no wrap, the absolute address is aligned exactly when the relative offset is |
| MramDevice.WriteBlockCountBounds | boot/alif/flash/flash_map_mram.c:196-256 | an empty aligned write issues no block write; a non-empty or unaligned one issues at least one; never more than (len + 30) / 16; an aligned whole-block write issues len / 16 |
| MramDevice.LeadingFragment | boot/alif/flash/flash_map_mram.c:202-231 | the leading fragment min(16 - addr % 16, len) stays in the first block; after it, the address is aligned or nothing is left, and the next boundary is the end of the first block |
| MramDevice.BlockCountAfterLead | boot/alif/flash/flash_map_mram.c:202-254 | the block count of a write is the blocks written up to the first boundary, plus one per started 16 bytes of the rest |
| MramDevice.Mram.MramWrite128 | boot/alif/flash/flash_map_mram.c:86-112 | the 16 bytes land at the aligned destination, nothing else changes, and the write is appended to the log |
| MramDevice.Mram.PatchBlock | boot/alif/flash/flash_map_mram.c:209-226 | memory changes exactly by the chunk at `ptr + offset`; one block write of the old block with the chunk patched in is logged |
| MramDevice.Mram.Read | boot/alif/flash/flash_map_mram.c:176-184 | status 0, and `len` bytes equal to the memory at `fa_off + off` onwards, at any alignment |
| MramDevice.Mram.Write | boot/alif/flash/flash_map_mram.c:196-256 | status 0; memory holds `src` at `fa_off + off` and is unchanged elsewhere; the log gains one 16-byte write per block touched, in ascending block order from the block holding the start |
| MramDevice.Mram.WriteLeading | boot/alif/flash/flash_map_mram.c:202-231 | an unaligned start patches the first min(16 - addr % 16, len) bytes with one block write; an aligned start writes nothing; afterwards the address is aligned or nothing is left |
| MramDevice.Mram.WriteWholeBlocks | boot/alif/flash/flash_map_mram.c:233-239 | every whole block of `src` goes in place, fewer than 16 bytes are left, and one logged write per block is made at consecutive aligned addresses |
| MramDevice.Mram.WriteFromBoundary | boot/alif/flash/flash_map_mram.c:233-254 | from a block boundary, all of `src` goes in place with one logged write per started 16 bytes, and the last partial block is patched |
| MramDevice.Mram.Erase | boot/alif/flash/flash_map_mram.c:267-287 | a misaligned absolute address or length gives -1 and no write; otherwise 0, the range reads as zeros, the rest is unchanged, and len / 16 zero blocks are logged in ascending order |
| MramDevice.Mram.WriteThenRead | boot/alif/flash/flash_map_mram.c:176-256 | a write followed by a read of the same range returns the written bytes, and every byte outside the range keeps its value |

## Left out

- `MRAM_BASE` comes from `global_map.h`, which is not part of this model. It is the parameter
  `mramBase` of the area table. The memory array stands for the whole 32-bit address space
  view, so absolute addresses index it directly.
- The build options become data: `MCUBOOT_SWAP_USING_SCRATCH` is `Config.swapUsingScratch`,
  and the size macros are the other `Config` fields. `MCUBOOT_USE_FLASH_AREA_GET_SECTORS` is
  taken as defined, so `GetSectors` is always present.
- Pointers become values. An area handle is a `FlashArea` value, and the table is the sequence
  `descs` passed to the lookups. `Read` returns its bytes as a sequence instead of filling
  `dst`, and `Write` takes `src` as a sequence whose length is `len`. Because `src` is a value,
  a source buffer that overlaps the MRAM range being written (aliasing) is not modelled: the
  model always writes the bytes `src` held when the call began.
- `MramWrite128` does not model volatile 64-bit stores or the branch on whether the source is
  8-byte aligned. That branch only decides whether the copy goes through a local buffer, and
  the bytes written are the same.
- MramDevice.Mram.Write: requires the written range to lie inside the memory, because the code
  never checks offsets against `fa_size` or the device. The model then has no 32-bit wrap of
  `addr` inside the write loop, and writes past the device are not modelled. The `uint8_t`
  narrowing of `offset` and `unaligned_bytes` is not written out, since both are below 16.
- MramDevice.Mram.Read: requires the read range to lie inside the memory, for the same reason.
- MramDevice.Mram.Erase: requires an aligned range to lie inside the memory, for the same
  reason. A misaligned request is modelled in full, as the error path.
- FlashMapMram.GetSectors: requires the `sectors` array to hold every sector of the area. The
  code ignores the capacity passed in `*count`, so a short buffer would be overrun; the model
  does not capture that overrun.
- FlashMapMram.GetSectors: requires the area size to be at most 2^32 - 1024. Above that, the
  `uint32_t` offset wraps at `off += 1024` and the loop does not end.
- FlashMapMram.AreaDescs: requires the whole layout to end below 2^32, so the table offsets are
  assumed not to wrap. The C sums are `uint32_t` and would wrap silently. This also excludes a
  layout whose last area ends exactly at 4 GiB, where every `fa_off` would still fit.
- FlashMapMram.Close carries no contract: `flash_area_close` reads and changes nothing, so
  there is nothing to state about it.
- `flash_area_align` and `flash_area_erased_val` are constant functions. Their only stated property is
  `GeometryIndependentOfArea`.
- Logging, assertions, `main.c` and the bootloader logic above this interface are not part of
  this model. The code has no concurrency and no I/O beyond the memory accesses modelled here.
