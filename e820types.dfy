/** The E820 region entry of the x86 boot protocol (include/e820.h): the packed
    boot_e820_entry and the address-range type codes of the ACPI Specification,
    section 15 (System Address Map Interfaces, "Address Range Types"). */
module E820Types {
  import opened Machine

  const E820_RAM: u32 := 1
  const E820_RESERVED: u32 := 2
  const E820_ACPI: u32 := 3
  const E820_NVS: u32 := 4
  const E820_UNUSABLE: u32 := 5
  const E820_PMEM: u32 := 7

  /** The five classifications the loader can produce. */
  predicate IsLoaderType(t: u32)
  {
    t == E820_RAM || t == E820_RESERVED || t == E820_ACPI || t == E820_NVS || t == E820_UNUSABLE
  }

  lemma TypeCodes()
    ensures [E820_RAM, E820_RESERVED, E820_ACPI, E820_NVS, E820_UNUSABLE] == [1, 2, 3, 4, 5]
    ensures forall t :: IsLoaderType(t) <==> 1 <= t <= 5
    ensures !IsLoaderType(E820_PMEM) && !IsLoaderType(6)
  {
  }

  /** struct boot_e820_entry */
  datatype E820Entry = E820Entry(addr: u64, size: u64, typ: u32)

  // boot_e820_entry, member by member (packed)
  const ENTRY_ADDR: Field := Field(0, 8)
  const ENTRY_SIZE: Field := After(ENTRY_ADDR, 8)
  const ENTRY_TYPE: Field := After(ENTRY_SIZE, 4)
  const BOOT_E820_ENTRY_SIZE: nat := 20

  /** addr at 0 (8 bytes), size at 8 (8 bytes), type at 16 (4 bytes): 20 bytes
      with no padding. */
  lemma BootE820EntryPacked()
    ensures ENTRY_ADDR.offset == 0 && ENTRY_SIZE.offset == 8 && ENTRY_TYPE.offset == 16
    ensures ENTRY_TYPE.End() == BOOT_E820_ENTRY_SIZE
  {
  }

  /** The 20 bytes of an entry as it sits in the zeropage. */
  function EncodeEntry(e: E820Entry): (b: seq<u8>)
    ensures |b| == BOOT_E820_ENTRY_SIZE
  {
    LE(e.addr, 8) + LE(e.size, 8) + LE(e.typ, 4)
  }

  /** The entry 20 bytes hold. */
  function DecodeEntry(b: seq<u8>): (e: E820Entry)
    requires |b| == BOOT_E820_ENTRY_SIZE
  {
    E820Entry(ReadLE(b, 0, 8), ReadLE(b, 8, 8), ReadLE(b, 16, 4))
  }

  lemma DecodeEncodeEntry(e: E820Entry)
    ensures DecodeEntry(EncodeEntry(e)) == e
  {
    var b := EncodeEntry(e);
    assert b[0..8] == LE(e.addr, 8) && b[8..16] == LE(e.size, 8) && b[16..20] == LE(e.typ, 4);
    FromLEOfLE(e.addr, 8);
    FromLEOfLE(e.size, 8);
    FromLEOfLE(e.typ, 4);
  }

  lemma EncodeDecodeEntry(b: seq<u8>)
    requires |b| == BOOT_E820_ENTRY_SIZE
    ensures EncodeEntry(DecodeEntry(b)) == b
  {
    LEOfFromLE(b[0..8]);
    LEOfFromLE(b[8..16]);
    LEOfFromLE(b[16..20]);
    assert b == b[0..8] + b[8..16] + b[16..20];
  }

  /** A run of table slots, one entry after the other. */
  function EncodeTable(entries: seq<E820Entry>): (b: seq<u8>)
    ensures |b| == BOOT_E820_ENTRY_SIZE * |entries|
  {
    if entries == [] then [] else EncodeTable(entries[..|entries| - 1]) + EncodeEntry(entries[|entries| - 1])
  }

  /** Slot k of the encoded table holds entry k. */
  lemma {:induction false} EncodeTableSlot(entries: seq<E820Entry>, k: nat)
    requires k < |entries|
    ensures var b := EncodeTable(entries);
      DecodeEntry(b[BOOT_E820_ENTRY_SIZE * k .. BOOT_E820_ENTRY_SIZE * (k + 1)]) == entries[k]
  {
    var n := |entries| - 1;
    var b := EncodeTable(entries);
    if k == n {
      assert b[BOOT_E820_ENTRY_SIZE * k .. BOOT_E820_ENTRY_SIZE * (k + 1)] == EncodeEntry(entries[n]);
      DecodeEncodeEntry(entries[n]);
    } else {
      EncodeTableSlot(entries[..n], k);
      assert b[BOOT_E820_ENTRY_SIZE * k .. BOOT_E820_ENTRY_SIZE * (k + 1)]
          == EncodeTable(entries[..n])[BOOT_E820_ENTRY_SIZE * k .. BOOT_E820_ENTRY_SIZE * (k + 1)];
    }
  }
}
