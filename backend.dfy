/**
  The records of the MCUboot flash-map backend interface: a flash area (one region of the
  storage device) and a flash sector (a geometry unit inside an area), with the C field
  widths kept as bounded integer ranges, and their field getters.
 */
module FlashMapBackend {

  /** An unsigned 8-bit value (`uint8_t`). */
  type uint8 = x: int | 0 <= x < 0x100

  /** An unsigned 32-bit value (`uint32_t`). */
  type uint32 = x: int | 0 <= x < 0x1_0000_0000

  const UINT32_LIMIT: int := 0x1_0000_0000

  /** `struct flash_area`; the `pad16` padding field carries no information and is dropped. */
  datatype FlashArea = FlashArea(
    faId: uint8,        // flash area identifier
    faDeviceId: uint8,  // the device the area resides on
    faOff: uint32,      // offset of the area from the beginning of the device
    faSize: uint32      // size of the area in bytes
  )

  /** `struct flash_sector`; `fsOff` is relative to the start of its flash area, not the device. */
  datatype FlashSector = FlashSector(fsOff: uint32, fsSize: uint32)

  function GetId(fa: FlashArea): uint8 { fa.faId }

  function GetDeviceId(fa: FlashArea): uint8 { fa.faDeviceId }

  function GetOff(fa: FlashArea): uint32 { fa.faOff }

  function GetSize(fa: FlashArea): uint32 { fa.faSize }

  function SectorGetOff(fs: FlashSector): uint32 { fs.fsOff }

  function SectorGetSize(fs: FlashSector): uint32 { fs.fsSize }

  /** Building a flash area and reading it back through the getters returns every field unchanged. */
  lemma AreaGettersRoundTrip(id: uint8, device: uint8, off: uint32, size: uint32)
    ensures var fa := FlashArea(id, device, off, size);
      GetId(fa) == id && GetDeviceId(fa) == device && GetOff(fa) == off && GetSize(fa) == size
    ensures forall fa: FlashArea ::
      fa == FlashArea(GetId(fa), GetDeviceId(fa), GetOff(fa), GetSize(fa))
  {
  }

  /** The same for a flash sector. */
  lemma SectorGettersRoundTrip(off: uint32, size: uint32)
    ensures SectorGetOff(FlashSector(off, size)) == off && SectorGetSize(FlashSector(off, size)) == size
    ensures forall fs: FlashSector :: fs == FlashSector(SectorGetOff(fs), SectorGetSize(fs))
  {
  }
}
