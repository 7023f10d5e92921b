/** The UEFI definitions the loader relies on (include/efi.h): GUIDs and their
    comparison, the configuration table entry, the memory-type codes of
    EFI_MEMORY_TYPE (UEFI Specification, section 7.2, AllocatePages), page
    arithmetic and the memory descriptor together with the stride rule used to
    walk an array of them. */
module Efi {
  import opened Machine

  // ---------------------------------------------------------------------------
  // GUIDs

  const UUID_SIZE: nat := 16

  type Guid = s: seq<u8> | |s| == UUID_SIZE witness [0, 0, 0, 0, 0, 0, 0, 0, 0, 0, 0, 0, 0, 0, 0, 0]

  /** The EFI_GUID macro: a as four little-endian bytes, b and c as two each,
      then the eight bytes of d as given. */
  function EfiGuid(a: u32, b: u16, c: u16, d: seq<u8>): (g: Guid)
    requires |d| == 8
    ensures FromLE(g[..4]) == a && FromLE(g[4..6]) == b && FromLE(g[6..8]) == c
    ensures g[8..] == d
  {
    var g := LE(a, 4) + LE(b, 2) + LE(c, 2) + d;
    assert g[..4] == LE(a, 4) && g[4..6] == LE(b, 2) && g[6..8] == LE(c, 2);
    FromLEOfLE(a, 4);
    FromLEOfLE(b, 2);
    FromLEOfLE(c, 2);
    g
  }

  /** Every 16-byte GUID is the EFI_GUID of the fields it encodes. */
  lemma EfiGuidOfFields(g: Guid)
    ensures FromLE(g[..4]) < TWO_32 && FromLE(g[4..6]) < 0x1_0000 && FromLE(g[6..8]) < 0x1_0000
    ensures g == EfiGuid(FromLE(g[..4]), FromLE(g[4..6]), FromLE(g[6..8]), g[8..])
  {
    var a, b, c := FromLE(g[..4]), FromLE(g[4..6]), FromLE(g[6..8]);
    var h := EfiGuid(a, b, c, g[8..]);
    LEOfFromLE(g[..4]);
    LEOfFromLE(h[..4]);
    LEOfFromLE(g[4..6]);
    LEOfFromLE(h[4..6]);
    LEOfFromLE(g[6..8]);
    LEOfFromLE(h[6..8]);
    assert g == g[..4] + g[4..6] + g[6..8] + g[8..];
    assert h == h[..4] + h[4..6] + h[6..8] + h[8..];
  }

  const ACPI_20_TABLE_GUID: Guid :=
    EfiGuid(0x8868e871, 0xe4f1, 0x11d3, [0xbc, 0x22, 0x00, 0x80, 0xc7, 0x3c, 0x88, 0x81])
  const SMBIOS_TABLE_GUID: Guid :=
    EfiGuid(0xeb9d2d31, 0x2d88, 0x11d3, [0x9a, 0x16, 0x00, 0x90, 0x27, 0x3f, 0xc1, 0x4d])

  /** No configuration table entry can carry both identifiers. */
  lemma TableGuidsDistinct()
    ensures ACPI_20_TABLE_GUID != SMBIOS_TABLE_GUID
  {
    assert FromLE(ACPI_20_TABLE_GUID[..4]) == 0x8868e871;
    assert FromLE(SMBIOS_TABLE_GUID[..4]) == 0xeb9d2d31;
  }

  /** memcmp over equal-length byte strings: the sign of the first differing byte
      (compared as unsigned char), 0 when there is none. */
  function MemCmp(left: seq<u8>, right: seq<u8>): (c: int)
    requires |left| == |right|
    ensures c == 0 <==> left == right
    ensures -1 <= c <= 1
  {
    if left == [] then 0
    else if left[0] < right[0] then -1
    else if left[0] > right[0] then 1
    else
      assert left == [left[0]] + left[1..] && right == [right[0]] + right[1..];
      MemCmp(left[1..], right[1..])
  }

  /** The sign of memcmp is decided by the first byte where the strings differ,
      compared as unsigned char. */
  lemma {:induction false} MemCmpFirstDifference(left: seq<u8>, right: seq<u8>, k: nat)
    requires |left| == |right| && k < |left|
    requires left[..k] == right[..k] && left[k] != right[k]
    ensures MemCmp(left, right) == if left[k] < right[k] then -1 else 1
  {
    if k > 0 {
      assert left[0] == left[..k][0] && right[0] == right[..k][0];
      assert left[1..][..k - 1] == left[..k][1..] && right[1..][..k - 1] == right[..k][1..];
      MemCmpFirstDifference(left[1..], right[1..], k - 1);
    }
  }

  lemma {:induction false} MemCmpAntisymmetric(left: seq<u8>, right: seq<u8>)
    requires |left| == |right|
    ensures MemCmp(left, right) == -MemCmp(right, left)
  {
    if left != [] && left[0] == right[0] {
      MemCmpAntisymmetric(left[1..], right[1..]);
    }
  }

  /** efi_guidcmp: memcmp over the 16 bytes of two GUIDs. */
  function GuidCmp(left: Guid, right: Guid): (c: int)
    ensures c == 0 <==> left == right
  {
    MemCmp(left, right)
  }

  const SIZE_OF_SMBIOS_TABLE_HEADER: nat := 0x20

  /** One entry of the configuration table (efi_config_table_32_t): a GUID and a
      32-bit table pointer. */
  datatype ConfigTable = ConfigTable(guid: Guid, table: u32)

  const CONFIG_TABLE_GUID: Field := Field(0, UUID_SIZE)
  const CONFIG_TABLE_TABLE: Field := After(CONFIG_TABLE_GUID, 4)

  /** Each entry of the 32-bit configuration table takes 20 bytes. */
  lemma ConfigTable32Size()
    ensures CONFIG_TABLE_TABLE.offset == 16 && CONFIG_TABLE_TABLE.End() == 20
  {
  }

  // ---------------------------------------------------------------------------
  // Memory types

  const EFI_RESERVED_TYPE: u32 := 0
  const EFI_LOADER_CODE: u32 := 1
  const EFI_LOADER_DATA: u32 := 2
  const EFI_BOOT_SERVICES_CODE: u32 := 3
  const EFI_BOOT_SERVICES_DATA: u32 := 4
  const EFI_RUNTIME_SERVICES_CODE: u32 := 5
  const EFI_RUNTIME_SERVICES_DATA: u32 := 6
  const EFI_CONVENTIONAL_MEMORY: u32 := 7
  const EFI_UNUSABLE_MEMORY: u32 := 8
  const EFI_ACPI_RECLAIM_MEMORY: u32 := 9
  const EFI_ACPI_MEMORY_NVS: u32 := 10
  const EFI_MEMORY_MAPPED_IO: u32 := 11
  const EFI_MEMORY_MAPPED_IO_PORT_SPACE: u32 := 12
  const EFI_PAL_CODE: u32 := 13
  const EFI_PERSISTENT_MEMORY: u32 := 14
  const EFI_UNACCEPTED_MEMORY: u32 := 15
  const EFI_MAX_MEMORY_TYPE: u32 := 16

  /** The named memory types, in the order of their definitions. */
  const MemoryTypes: seq<u32> := [
    EFI_RESERVED_TYPE, EFI_LOADER_CODE, EFI_LOADER_DATA, EFI_BOOT_SERVICES_CODE,
    EFI_BOOT_SERVICES_DATA, EFI_RUNTIME_SERVICES_CODE, EFI_RUNTIME_SERVICES_DATA,
    EFI_CONVENTIONAL_MEMORY, EFI_UNUSABLE_MEMORY, EFI_ACPI_RECLAIM_MEMORY,
    EFI_ACPI_MEMORY_NVS, EFI_MEMORY_MAPPED_IO, EFI_MEMORY_MAPPED_IO_PORT_SPACE,
    EFI_PAL_CODE, EFI_PERSISTENT_MEMORY, EFI_UNACCEPTED_MEMORY]

  /** The named types are the codes 0 .. EFI_MAX_MEMORY_TYPE - 1, each once. */
  lemma MemoryTypesAreDistinct()
    ensures |MemoryTypes| == EFI_MAX_MEMORY_TYPE
    ensures forall i :: 0 <= i < |MemoryTypes| ==> MemoryTypes[i] == i
    ensures forall i, j :: 0 <= i < j < |MemoryTypes| ==> MemoryTypes[i] != MemoryTypes[j]
  {
  }

  // ---------------------------------------------------------------------------
  // Pages

  const EFI_PAGE_SHIFT: nat := 12
  const EFI_PAGE_SIZE: nat := 4096
  /** U64_MAX >> EFI_PAGE_SHIFT */
  const EFI_PAGES_MAX: nat := (TWO_64 - 1) / 4096

  lemma PageSizeIsShift()
    ensures EFI_PAGE_SIZE == Pow2(EFI_PAGE_SHIFT)
  {
  }

  /** C's << on a 64-bit unsigned word: bits shifted out at the top are lost. */
  function ShiftLeft64(x: u64, s: nat): u64
  {
    Wrap64(x * Pow2(s))
  }

  /** The byte size of numPages pages, num_pages << EFI_PAGE_SHIFT. */
  function PageBytes(numPages: u64): (r: u64)
  {
    ShiftLeft64(numPages, EFI_PAGE_SHIFT)
  }

  /** The shift is exact (no bit is lost) exactly when numPages <= EFI_PAGES_MAX. */
  lemma PageBytesExact(numPages: u64)
    ensures PageBytes(numPages) == numPages * EFI_PAGE_SIZE <==> numPages <= EFI_PAGES_MAX
  {
    PageSizeIsShift();
    if numPages > EFI_PAGES_MAX {
      assert numPages * EFI_PAGE_SIZE >= (EFI_PAGES_MAX + 1) * EFI_PAGE_SIZE == TWO_64;
    }
  }

  // ---------------------------------------------------------------------------
  // Memory descriptors

  // efi_memory_desc_t, member by member
  const DESC_TYPE: Field := Field(0, 4)
  const DESC_PAD: Field := After(DESC_TYPE, 4)
  const DESC_PHYS_ADDR: Field := After(DESC_PAD, 8)
  const DESC_VIRT_ADDR: Field := After(DESC_PHYS_ADDR, 8)
  const DESC_NUM_PAGES: Field := After(DESC_VIRT_ADDR, 8)
  const DESC_ATTRIBUTE: Field := After(DESC_NUM_PAGES, 8)
  /** sizeof(efi_memory_desc_t) */
  const EFI_MEMORY_DESC_SIZE: nat := 40
  /** The bytes of a descriptor the translator reads: type, phys_addr and num_pages. */
  const DESC_READ_EXTENT: nat := 32
  // Offsets of the members the translator reads
  const DESC_TYPE_OFFSET: nat := 0
  const DESC_PHYS_ADDR_OFFSET: nat := 8
  const DESC_NUM_PAGES_OFFSET: nat := 24

  /** type at 0, phys_addr at 8, virt_addr at 16, num_pages at 24, attribute at
      32: every member is naturally aligned, so the compiler adds no padding and
      the natural size is 40 bytes. */
  lemma EfiMemoryDescLayout()
    ensures DESC_TYPE.offset == DESC_TYPE_OFFSET && DESC_PHYS_ADDR.offset == DESC_PHYS_ADDR_OFFSET
    ensures DESC_VIRT_ADDR.offset == 16
    ensures DESC_NUM_PAGES.offset == DESC_NUM_PAGES_OFFSET && DESC_ATTRIBUTE.offset == 32
    ensures DESC_ATTRIBUTE.End() == EFI_MEMORY_DESC_SIZE && DESC_NUM_PAGES.End() == DESC_READ_EXTENT
    ensures NaturallyAligned(DESC_TYPE) && NaturallyAligned(DESC_PAD) && NaturallyAligned(DESC_PHYS_ADDR)
    ensures NaturallyAligned(DESC_VIRT_ADDR) && NaturallyAligned(DESC_NUM_PAGES) && NaturallyAligned(DESC_ATTRIBUTE)
  {
  }

  /** The descriptor fields the translator uses. */
  datatype MemoryDescriptor = MemoryDescriptor(memType: u32, physAddr: u64, numPages: u64)

  /** The descriptor whose first byte is at offset off of the firmware's map. */
  function DescriptorAt(efiMap: seq<u8>, off: nat): (d: MemoryDescriptor)
    requires off + DESC_READ_EXTENT <= |efiMap|
  {
    MemoryDescriptor(ReadLE(efiMap, off + DESC_TYPE_OFFSET, 4),
                     ReadLE(efiMap, off + DESC_PHYS_ADDR_OFFSET, 8),
                     ReadLE(efiMap, off + DESC_NUM_PAGES_OFFSET, 8))
  }

  /** next_memdesc: the next descriptor is desc_size bytes further on, whatever
      sizeof(efi_memory_desc_t) is. */
  function NextMemdesc(off: nat, descSize: u32): nat
  {
    off + descSize
  }

  /** Where the walk from the start of the map stands after i steps. */
  function DescriptorOffset(descSize: u32, i: nat): nat
  {
    if i == 0 then 0 else NextMemdesc(DescriptorOffset(descSize, i - 1), descSize)
  }

  /** The i-th descriptor starts at byte i * desc_size. */
  lemma {:induction false} DescriptorOffsetIsStride(descSize: u32, i: nat)
    ensures DescriptorOffset(descSize, i) == i * descSize
  {
    if i > 0 {
      DescriptorOffsetIsStride(descSize, i - 1);
    }
  }
}
