# atv-linux-loader: a Dafny model of the boot hand-off

atv-linux-loader is a first-generation Apple TV bootloader. It carries a Linux
kernel image and an optional initramfs and starts Linux. This project models
its core and proves properties of that model. The core has three parts.

- **The EFI to E820 memory-map translator** (`e820.c`).
  - It classifies each UEFI memory type as one of five E820 address-range types.
  - It walks the firmware's descriptor array with the caller's stride.
  - For each descriptor it appends a region to a fixed 128-slot table, or merges it into the last slot. A merge needs the region to start where the last slot ends (mod 2^64) and to have the same type.
- **The hand-off record builder** (`load_linux` and its helpers in `linux.c`).
  - It checks the image's `HdrS` signature.
  - It works out the real-mode size and places the kernel at the next 1 MiB boundary past what the firmware loaded plus the ramdisk.
  - It zeroes the 4 KiB zeropage (`struct boot_params`), copies the image's setup header into it and overrides three header members.
  - It requires `LOADED_HIGH`.
  - It fills in the ramdisk fields and `screen_info`, then the ACPI root pointer, which it takes from the last ACPI 2.0 entry of the EFI configuration table.
  - It copies the SMBIOS entry point to 0xF0000 and stores the translated region table and its count.
  - Finally it jumps to the kernel.
- **The byte layouts the two share** (`include/efi.h`, `include/e820.h`, `include/linux.h`):
  - `efi_memory_desc_t`;
  - the packed `boot_e820_entry`;
  - `screen_info`, `setup_header` and `boot_params`, with all their offsets;
  - the GUID encoding and the type and flag constants.

## Modules

| file | module | what it holds |
|---|---|---|
| `machine.dfy` | `Machine` | C integer conversions, written out as wrap-around. Little-endian encoding. Byte-buffer stores as functions (`Put`, `Splice`) and as methods on `array<u8>`. Bitwise `&` on naturals. Field layout arithmetic. |
| `failures.dfy` | `Failures` | The four conditions that end in `fail()`, plus `Result` and `Option`. |
| `efi.dfy` | `Efi` | GUIDs, `memcmp`/`efi_guidcmp`, configuration-table entries, memory-type and page constants, and the descriptor layout, decoded from the firmware's bytes at the caller's stride. |
| `e820types.dfy` | `E820Types` | The E820 type codes and the packed 20-byte entry with its encoder and decoder. |
| `zeropage.dfy` | `ZeroPage` | `screen_info`, `setup_header` and `boot_params` as chains of fields, with the offsets the loader writes to. |
| `e820map.dfy` | `E820Map` | The translator. It has a functional reference (`AddRegion`, `Coalesce`, `Translate`), two array-updating methods proved equal to it, and the loop invariants as lemmas about the reference. |
| `loader.dfy` | `Loader` | The builder. The function `Boot` describes the whole of `load_linux` as a value. The method `LoadLinux`, with one method per stage, builds the zeropage step by step in an `array<u8>` and is proved to produce `Boot`. Lemmas state what the finished zeropage and the recorded writes hold. |

The loader's inputs become parameters:
- `BootArgs`: the firmware's boot arguments (`gBA`) and the configuration table;
- `Framebuffer`: the firmware framebuffer description (`fb`);
- the kernel and initramfs images, as byte sequences.

How `load_linux` ends is an `Outcome`:
- `Fatal(reason, writes)`: `fail()`, with the copies made before it;
- `Jump(entry, zeropage, writes)`: the jump to the kernel.

Copies to physical addresses are recorded as `MemWrite` values:
- `WriteBytes` for bytes the loader carries;
- `CopyBytes` for firmware memory, whose contents are not modelled.

Behaviour of the code worth knowing:
- `boot_e820_entry` is packed: 20 bytes.
- The translator keeps the firmware's descriptor order. It neither sorts the table nor removes overlaps, so the model claims no ordering.
- The configuration-table scans run over the whole table and keep the last matching entry.
- A matching entry with a null pointer counts as none: `if (!rsdp)`, and `if (smbios_tbl)`.
- Without a ramdisk, `ramdisk_image` and `ramdisk_size` are not written. They keep whatever the setup-header copy put there, which is 0 only when the image's own bytes are 0 (`JumpRamdisk`).

## Model

| member | source | states |
|---|---|---|
| Machine.FromLEOfLE | include/e820.h:10-14 | Decoding the little-endian encoding of a value that fits in n bytes gives the value back |
| Machine.LEOfFromLE | include/e820.h:10-14 | Re-encoding the value of any byte string gives the same byte string (the encoding is onto) |
| Machine.SpliceAt | linux.c:104-106 | After a memcpy of b to offset off, byte i is b[i-off] inside the copied range and unchanged outside it |
| Machine.PutRead | linux.c:109-111 | An n-byte little-endian store reads back as the stored value |
| Machine.PutOutside | linux.c:109-111 | An n-byte store changes no byte outside its n bytes |
| Machine.PutFrame | linux.c:137-154 | A store leaves a disjoint field's value unchanged |
| Machine.ZeroFill | linux.c:101 | memset: afterwards every byte of the buffer is 0 |
| Machine.Store | linux.c:106 | memcpy into the buffer: the new contents are the old ones with b spliced in at off |
| Machine.StoreLE | linux.c:109-111 | A member assignment: the new contents are the old ones with the value stored little-endian at off |
| Machine.BitAndOne | linux.c:113 | x & 1 is bit 0 of x |
| Machine.BitNot32 | linux.c:29 | ~mask in 32 bits: the complement shares no set bit with mask (mask & ~mask == 0), and the two together fill all 32 bits |
| Machine.BitAndClearsLowBits | linux.c:29 | And-ing with a mask whose low k bits are clear and whose other bits are set rounds down to a multiple of 2^k |
| Efi.EfiGuid | include/efi.h:19-22 | EFI_GUID(a, b, c, d) holds a as 4 little-endian bytes, b and c as 2 little-endian bytes each, then the 8 bytes of d |
| Efi.EfiGuidOfFields | include/efi.h:10-22 | Every 16-byte GUID is EFI_GUID of its own fields, which fit their widths |
| Efi.TableGuidsDistinct | include/efi.h:25-26 | ACPI_20_TABLE_GUID and SMBIOS_TABLE_GUID differ, so no entry matches both scans |
| Efi.MemCmp | include/efi.h:101-105 | memcmp is 0 exactly when the two byte strings are equal. C promises only the sign of a non-zero result; the model picks -1 or 1, and efi_guidcmp's callers only test for 0 |
| Efi.MemCmpFirstDifference | include/efi.h:101-105 | A non-zero memcmp is negative exactly when, at the first byte where the strings differ, the left byte is the smaller, compared as unsigned char |
| Efi.MemCmpAntisymmetric | include/efi.h:101-105 | Swapping memcmp's arguments negates its result |
| Efi.GuidCmp | include/efi.h:101-105 | efi_guidcmp is 0 exactly when all 16 GUID bytes are equal |
| Efi.ConfigTable32Size | include/efi.h:41-44 | A 32-bit configuration-table entry has its pointer at 16 and takes 20 bytes |
| Efi.MemoryTypesAreDistinct | include/efi.h:67-83 | The memory-type codes are 0..15 in order, pairwise distinct, and there are EFI_MAX_MEMORY_TYPE = 16 of them |
| Efi.PageSizeIsShift | include/efi.h:85-86 | EFI_PAGE_SIZE is 1 << EFI_PAGE_SHIFT = 4096 |
| Efi.PageBytesExact | include/efi.h:85-87 | num_pages << 12 in 64 bits equals num_pages * 4096 exactly when num_pages <= EFI_PAGES_MAX |
| Efi.EfiMemoryDescLayout | include/efi.h:89-96 | type at 0, phys_addr at 8, virt_addr at 16, num_pages at 24, attribute at 32; 40 bytes; every member naturally aligned |
| Efi.DescriptorOffsetIsStride | include/efi.h:98-99 | After i next_memdesc steps the walk is at exactly i * desc_size bytes, whatever the descriptor's own size |
| E820Types.TypeCodes | include/e820.h:18-23 | E820_RAM..E820_UNUSABLE are 1..5; E820_PMEM (7) and 6 are not among the loader's types |
| E820Types.BootE820EntryPacked | include/e820.h:10-14 | addr at 0 (8 bytes), size at 8 (8 bytes), type at 16 (4 bytes), 20 bytes with no padding |
| E820Types.DecodeEncodeEntry | include/e820.h:10-14 | A packed entry decodes back to the entry that was encoded |
| E820Types.EncodeDecodeEntry | include/e820.h:10-14 | Any 20 bytes re-encode to themselves after decoding |
| E820Types.EncodeTableSlot | include/linux.h:367 | Slot k of a serialised table decodes to entry k |
| ZeroPage.ScreenInfoLayout | include/linux.h:15-53 | Every screen_info member sits at its commented offset, and the struct is 0x40 bytes |
| ZeroPage.ApmBiosInfoSize | include/linux.h:81-91 | apm_bios_info is 20 bytes with every member naturally aligned |
| ZeroPage.EddInfoSize | include/linux.h:108-220 | The EDD path unions are 8 and 16 bytes; edd_device_params is 74 bytes and edd_info is 82 |
| ZeroPage.BootParamsLayout | include/linux.h:324-371 | Every boot_params member sits at its commented offset: acpi_rsdp_addr is 8 bytes at 0x70, e820_entries is 1 byte at 0x1e8, sentinel is at 0x1ef, hdr occupies 0x1f1..0x26b, _pad7 is 0x24 bytes, e820_table runs 0x2d0..0xcd0, eddbuf ends at 0xeec, and the record is 0x1000 bytes |
| ZeroPage.SetupHeaderOffsets | include/linux.h:246-286 | setup_sects, vid_mode, jump, header, type_of_loader, loadflags, ramdisk_image, ramdisk_size and cmd_line_ptr sit at 0x1f1, 0x1fa, 0x200, 0x202, 0x210, 0x211, 0x218, 0x21c and 0x228, with their sizes |
| ZeroPage.ZeroPageOffsets | include/linux.h:324-367 | The offsets the loader stores to are those of the screen_info and boot_params members it names, with their sizes |
| ZeroPage.TransplantBounds | linux.c:104-106 | The sentinel lies below the copied header, and the longest copy (0x110 bytes) ends at 0x301, inside the record |
| ZeroPage.E820CountFitsByte | include/linux.h:316 | The 128-entry cap fits the uint8_t count without wrap-around |
| E820Map.ConvertType | e820.c:9-43 | Every code gets one of E820 types 1..5; exactly the codes from 14 up give one diagnostic, and exactly those give E820_UNUSABLE |
| E820Map.ConvertTypeClasses | e820.c:11-42 | 0, 5, 6, 8, 11, 12 and 13 give Reserved; 9 gives ACPI; 10 gives NVS; 1, 2, 3, 4 and 7 give RAM; 14 and above give Unusable; never 6 or PMEM; each both ways |
| E820Map.AddRegion | e820.c:45-69 | Fatal exactly when the table already holds 128, whether or not the region would merge. Merge: the count stays and only the last slot's size grows (mod 2^64). Append: the region goes after the old entries. Entries before the last are never touched. |
| E820Map.AddRegionKeepsNoMergeablePair | e820.c:56-67 | Adding a region keeps "no two neighbours mergeable" |
| E820Map.AddRegionTotal | e820.c:56-67 | Adding a region adds its size to the table's byte total (mod 2^64) |
| E820Map.Coalesce | e820.c:81-90 | Feeding a region list through e820_add_memory_region gives at most one entry per region and at most 128; the only failure is a full table |
| E820Map.CoalesceNoMergeablePair | e820.c:56-67 | The coalesced table has no two neighbours that satisfy the merge condition |
| E820Map.CoalesceTotal | e820.c:56-67 | The coalesced table's byte total equals the input regions' total (mod 2^64) |
| E820Map.CoalesceUnmergeable | e820.c:51-67 | A region list with no mergeable neighbours comes through unchanged when it has at most 128 entries, and fails otherwise |
| E820Map.CoalesceIdempotent | e820.c:56-67 | Coalescing a coalesced table changes nothing |
| E820Map.CoalesceSnoc | e820.c:81-90 | One more region means one more e820_add_memory_region on the table so far |
| E820Map.CoalesceFailSticks | e820.c:51-53 | Once the table has overflowed, further regions still end in the overflow failure |
| E820Map.RegionOfDescriptor | e820.c:83-87 | A descriptor's region starts at phys_addr, has a loader type, and is num_pages * 4096 bytes exactly when that does not overflow 64 bits |
| E820Map.DescriptorCountIsFloor | e820.c:78 | The number of descriptors visited is the floor of map size over descriptor size |
| E820Map.MapReadableAtStride | e820.c:78-89 | With a non-zero stride, the map is readable exactly when no descriptor is visited or the last one, at (count - 1) * desc_size, lies inside the buffer |
| E820Map.DescriptorsAtStride | e820.c:81-89 | The i-th descriptor is the one decoded at byte offset i * desc_size |
| E820Map.TranslateProperties | e820.c:73-92 | The translated map has at most one entry per descriptor and at most 128, no mergeable neighbours, and the descriptors' byte total (mod 2^64) |
| E820Map.ExampleAdjacentRamMerges | e820.c:56-60 | (0, 1 page, conventional) then (0x1000, 1 page, conventional) gives the single entry {0, 0x2000, RAM} |
| E820Map.ExampleDifferentTypesStayApart | e820.c:62-67 | (0, 1 page, conventional) then (0x1000, 1 page, NVS) gives two entries |
| E820Map.AddMemoryRegion | e820.c:45-69 | On the 128-slot array: the first count' slots hold AddRegion of the first count slots, and every later slot is unchanged; on failure the array is unchanged |
| E820Map.EfiToE820Map | e820.c:73-92 | The loop over the descriptors at the caller's stride fails exactly when Translate does; otherwise the first count slots hold Translate's table and the rest are unchanged |
| Loader.RoundUpRoundsDown | linux.c:26-30 | For a power-of-two multiple with no wrap-around, round_up is num + multiple - 1 rounded down to a multiple |
| Loader.RoundUpPowerOfTwo | linux.c:26-30 | For a power-of-two multiple with no wrap-around, round_up is a multiple of it, at least num and below num + multiple |
| Loader.LastMatchIsLast | linux.c:38-44 | The scan finds nothing exactly when no entry carries the GUID; otherwise it returns the pointer of an entry with the GUID after which no entry carries it |
| Loader.RsdpOfDirectory | linux.c:32-50 | The RSDP step fails (NoRsdp) exactly when there is no last ACPI 2.0 entry with a non-null pointer; otherwise it returns that entry's pointer |
| Loader.GetRsdpFromSystbl | linux.c:32-50 | The loop over the whole directory returns the RSDP step's result |
| Loader.CopySmbiosToLowmem | linux.c:52-71 | The loop records at most one copy, of 0x20 bytes to 0xF0000, as the SMBIOS step describes |
| Loader.SmbiosWritesDirectory | linux.c:52-71 | No SMBIOS entry means no copy; a copy reads from the non-null pointer of the last SMBIOS entry |
| Loader.SmbiosWritesCopy | linux.c:52-71 | When the last SMBIOS entry has a non-null pointer, the one write is the copy of its table's 0x20 header bytes to 0xF0000 |
| Loader.TransplantBytes | linux.c:100-106 | After the memset and the header copy, each byte is the image's inside [0x1f1, 0x202 + img[0x201]) and 0 elsewhere |
| Loader.HeaderRecordContents | linux.c:100-111 | After the overrides, cmd_line_ptr is the command line, vid_mode is 0xffff and type_of_loader is 0xff, and every other byte is as the header copy left it |
| Loader.HeaderRecordZeroBelow | linux.c:100-106 | Every byte below the setup header is 0 after the transplant |
| Loader.HeaderRecordRamdisk | linux.c:100-111 | The overrides leave ramdisk_image and ramdisk_size as the header copy left them |
| Loader.WithRamdiskContents | linux.c:119-132 | With a ramdisk, ramdisk_image and ramdisk_size get its address and length; without one nothing changes; no other byte changes |
| Loader.VideoModeContents | linux.c:137-138 | capabilities becomes VIDEO_CAPABILITY_SKIP_QUIRKS and flags becomes VIDEO_FLAGS_NOCURSOR; nothing else changes |
| Loader.LfbContents | linux.c:139-144 | The lfb members get the framebuffer's values, narrowed to 32 or 16 bits; nothing outside them changes |
| Loader.ColoursContents | linux.c:145-152 | The eight colour bytes get the framebuffer's sizes and shifts, narrowed to 8 bits; nothing outside them changes |
| Loader.WithVideoFrame | linux.c:134-154 | The video configuration changes nothing past screen_info |
| Loader.ScreenInfoFields | linux.c:134-154 | Any buffer that agrees with the video configuration on screen_info holds all 17 assigned members |
| Loader.WithRsdpContents | linux.c:157 | acpi_rsdp_addr holds the RSDP, and nothing else changes |
| Loader.WithE820Contents | linux.c:166-170 | e820_entries holds the count and slot k decodes to entry k; nothing else changes |
| Loader.AfterVideoKeepsWrites | linux.c:156-178 | The steps after the video configuration only append to the writes recorded so far |
| Loader.AfterVideoFailures | linux.c:156-170 | After the video: NoRsdp exactly when the RSDP step fails; TooManyDescriptors exactly when the RSDP is found and the translation overflows; no other failure |
| Loader.BadSignatureIsFatal | linux.c:79-84 | load_linux ends in the signature failure with no copy made exactly when the word at 0x202 is not "HdrS" |
| Loader.KernelWriteIsTail | linux.c:88-97 | The kernel copy takes the image from the end of the real-mode part to its end, and the real-mode size plus real_kernel_len is the image length |
| Loader.KernelCopy | linux.c:88-97 | With a valid signature, the first write is that kernel copy to kernel_loadaddr |
| Loader.Placement | linux.c:91-124 | With no wrap-around, kernel_loadaddr is 1 MiB aligned, at least base+size+initrd_len and below it + 1 MiB; the ramdisk goes to base+size and ends at or before kernel_loadaddr |
| Loader.LoadedHighRequired | linux.c:113-116 | After the kernel copy, load_linux fails exactly when bit 0 of the loadflags byte it copied is clear; an image whose header stops short of loadflags always fails |
| Loader.JumpStages | linux.c:73-178 | A jump means both checks passed, the RSDP was found and the translation did not overflow; the entry is kernel_loadaddr, the zeropage is the staged record and the writes are kernel, ramdisk and SMBIOS copies in that order |
| Loader.JumpHeader | linux.c:108-116 | The zeropage handed over has the three overrides and loadflags bit 0 set |
| Loader.JumpRamdisk | linux.c:119-132 | The zeropage handed over has the ramdisk's address and length, or without a ramdisk the header's own bytes |
| Loader.JumpReserved | linux.c:100-157 | The zeropage handed over has the RSDP at 0x70, a zero sentinel and zeros everywhere else between screen_info and the header (except e820_entries) |
| Loader.JumpScreenInfo | linux.c:134-154 | The zeropage handed over holds all the screen_info assignments |
| Loader.JumpE820 | linux.c:166-170 | The zeropage handed over holds the translated table's count in e820_entries and its entries in the first slots |
| Loader.TransplantSetupHeader | linux.c:100-111 | memset, header copy and overrides on the zeropage array produce the record the lemmas above describe |
| Loader.ConfigureInitramfs | linux.c:118-132 | Ramdisk stage on the array: the ramdisk fields and the ramdisk copy |
| Loader.ConfigureVideo | linux.c:134-154 | Video stage on the array: the 17 screen_info stores |
| Loader.SetupE820 | linux.c:166-170 | The region table stage fails exactly when the translation does; otherwise it stores the count and the table |
| Loader.HandOff | linux.c:118-175 | The stages after the checks, in source order, end as the reference describes |
| Loader.LoadLinux | linux.c:73-178 | load_linux, step by step on a zeroed array, ends exactly as the reference Boot describes |

## Left out

- The jump (`asm("jmp ...")`) becomes the `Jump` outcome. The unreachable `fail()` after it is not modelled.
- Copies to physical addresses (the kernel, the ramdisk and the SMBIOS header) are recorded as writes, not performed. Physical memory, firmware-reserved regions and aliasing with live memory are not modelled, and neither are the contents of the SMBIOS source.
- Console output (`trace`, `dprintf`, `err`) is not modelled. The unknown-memory-type message is kept only as a diagnostic count in `ConvertType`.
- `fail()` halts the machine. Here it is the `Fatal` outcome or a `Fail` result.
- `gBA`, `fb` and the kernel and initramfs blobs are parameters. `atvlib.h`, `kernel_bin.h` and `initramfs_bin.h` are not part of this model.
- The configuration table is a sequence of (GUID, pointer) entries rather than a pointer and a count in the system table. The other members of `efi_system_table_32_t` and `efi_table_hdr_t` are not used.
- The scan locals `rsdp` and `smbios_tbl` start uninitialised. The model treats them as "no match" until an entry matches, so stack contents are not modelled.
- The multi-character constant `'SrdH'` is fixed to 0x53726448, the value GCC gives it.
- The legacy sub-structures (APM, IST, EDID, EDD, OLPC, `efi_info`, `sys_desc_table`) are modelled only by their sizes. The `x86_hardware_subarch` enum and the `ram_size`/`loadflags`/`xloadflags` flags other than `LOADED_HIGH` are unused and left out.
- EfiToE820Map: when the table overflows, the contract does not say which slots were written before the failure. The caller only sees the failure.
- EfiToE820Map: requires a non-zero descriptor size and a map buffer that holds every descriptor the loop visits. The source divides by the size and reads the buffer without checking, and both are undefined behaviour otherwise.
- SetupE820: the table is built in an array of its own and then written into the zeropage at 0x2d0, instead of in place. The resulting zeropage is the same: the first count slots hold the entries and later slots keep what the header copy left.
- LoadLinux: requires an image long enough for every byte the loader reads: the signature, `setup_sects` and the jump byte. With a valid signature it also requires the real-mode part and the copied header to lie inside the image, and the image to be shorter than 4 GiB. The source reads past the image otherwise.
- LoadLinux: requires the initramfs to be shorter than 4 GiB, because its length is an `unsigned int`.
- LoadLinux: requires a readable memory map (a non-zero descriptor size, and a buffer that holds every descriptor the loop visits) on every path, including the signature, `LOADED_HIGH` and RSDP failures, where the source never reads the map. The firmware always supplies a non-zero descriptor size.
- The loop counters at e820.c:81, linux.c:38 and linux.c:58 are signed `int`, compared against unsigned counts. A count above `INT_MAX` would overflow them. The model counts in unbounded naturals, so it does not capture that overflow, which needs more than 2^31 descriptors or table entries.
