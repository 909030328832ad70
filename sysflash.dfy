/**
  The system flash constants of the Alif MRAM port: the device id, the flash-area ids, the
  build-time region sizes and the image-slot macros that map an image index to an area id.
 */
module SysFlash {
  import opened FlashMapBackend

  /** The only storage device: the on-chip MRAM. */
  const FLASH_DEVICE_MRAM: uint8 := 0

  /** Returned by the slot macros for an image index that has no slot. */
  const FLASH_SLOT_DOES_NOT_EXIST: uint8 := 255

  const FLASH_AREA_BOOTLOADER: uint8 := 0
  const FLASH_AREA_IMAGE_0_PRIMARY: uint8 := 1
  const FLASH_AREA_IMAGE_0_SECONDARY: uint8 := 2
  const FLASH_AREA_IMAGE_SCRATCH: uint8 := 3

  /**
    The build-time configuration surface: where the bootloader starts inside the MRAM, the
    sizes of the four regions, and whether the scratch area exists (the
    `MCUBOOT_SWAP_USING_SCRATCH` option).
   */
  datatype Config = Config(
    startAddress: uint32,
    bootloaderSize: uint32,
    primarySize: uint32,
    secondarySize: uint32,
    scratchSize: uint32,
    swapUsingScratch: bool
  )

  /** The values the header falls back to when the build does not override them. */
  function DefaultConfig(swapUsingScratch: bool): Config {
    Config(0x0, 0x10000, 0x10000, 0x10000, 0x1000, swapUsingScratch)
  }

  /** `FLASH_AREA_IMAGE_PRIMARY(x)`: only image 0 has a primary slot. */
  function ImagePrimary(x: int): (r: uint8)
    ensures r == FLASH_AREA_IMAGE_0_PRIMARY <==> x == 0
    ensures r == FLASH_SLOT_DOES_NOT_EXIST <==> x != 0
  {
    if x == 0 then FLASH_AREA_IMAGE_0_PRIMARY else FLASH_SLOT_DOES_NOT_EXIST
  }

  /** `FLASH_AREA_IMAGE_SECONDARY(x)`: only image 0 has a secondary slot. */
  function ImageSecondary(x: int): (r: uint8)
    ensures r == FLASH_AREA_IMAGE_0_SECONDARY <==> x == 0
    ensures r == FLASH_SLOT_DOES_NOT_EXIST <==> x != 0
  {
    if x == 0 then FLASH_AREA_IMAGE_0_SECONDARY else FLASH_SLOT_DOES_NOT_EXIST
  }

  /** The four area ids are pairwise distinct, and the "no slot" sentinel is none of them. */
  lemma AreaIdsDistinct()
    ensures |{FLASH_AREA_BOOTLOADER, FLASH_AREA_IMAGE_0_PRIMARY,
              FLASH_AREA_IMAGE_0_SECONDARY, FLASH_AREA_IMAGE_SCRATCH}| == 4
    ensures FLASH_SLOT_DOES_NOT_EXIST !in {FLASH_AREA_BOOTLOADER, FLASH_AREA_IMAGE_0_PRIMARY,
                                          FLASH_AREA_IMAGE_0_SECONDARY, FLASH_AREA_IMAGE_SCRATCH}
  {
  }

  /** Every default size and the default start address are multiples of the sector size 1024, hence of the block size 16. */
  lemma DefaultSizesAligned(swapUsingScratch: bool)
    ensures var c := DefaultConfig(swapUsingScratch);
      c.startAddress % 1024 == 0 && c.bootloaderSize % 1024 == 0 && c.primarySize % 1024 == 0 &&
      c.secondarySize % 1024 == 0 && c.scratchSize % 1024 == 0
    ensures var c := DefaultConfig(swapUsingScratch);
      c.startAddress % 16 == 0 && c.bootloaderSize % 16 == 0 && c.primarySize % 16 == 0 &&
      c.secondarySize % 16 == 0 && c.scratchSize % 16 == 0
  {
  }
}
