/** The boot-handoff builder of linux.c. The loader checks the kernel image it
    carries, copies the protected-mode kernel (and the ramdisk, when there is
    one) to fixed addresses, builds the zeropage (struct boot_params) from the
    image's own setup header, fills in the framebuffer, the ACPI root pointer
    and the region table, moves the SMBIOS entry point to low memory and jumps
    to the kernel.

    The copies to absolute addresses are recorded as MemWrite values instead of
    being performed, fail() becomes a Fatal outcome that carries the copies made
    before it, and the final jump becomes a Jump outcome holding the entry
    address and the finished zeropage. */
module Loader {
  import opened Machine
  import opened Failures
  import opened Efi
  import opened E820Types
  import opened ZeroPage
  import opened E820Map

  const LINUX_KERNEL_LOAD_INCREMENT: u32 := 0x100000
  const SMBIOS_TABLE_LOW: u32 := 0xF0000
  /** The multi-character constant 'SrdH' as GCC evaluates it: the bytes "HdrS"
      read as a little-endian word. */
  const HDRS_MAGIC: nat := 0x53726448

  // ---------------------------------------------------------------------------
  // round_up

  /** (num + mask) & ~mask with mask = multiple - 1, all in 32-bit unsigned
      arithmetic. */
  function RoundUp(num: u32, multiple: u32): u32
  {
    var mask := Wrap32(multiple - 1);
    Pow2Of32();
    BitAnd(Wrap32(num + mask), BitNot32(mask), 32)
  }

  /** For a power-of-two multiple, and when num + multiple - 1 does not wrap,
      round_up gives the least multiple of multiple that is at least num. */
  lemma RoundUpPowerOfTwo(num: u32, k: nat)
    requires k < 32 && num + Pow2(k) - 1 < TWO_32
    ensures Pow2(k) < TWO_32
    ensures RoundUp(num, Pow2(k)) % Pow2(k) == 0
    ensures num <= RoundUp(num, Pow2(k)) < num + Pow2(k)
  {
    var p := Pow2(k);
    var x := num + p - 1;
    RoundUpRoundsDown(num, k);
    var rem := x % p;
    assert 0 <= rem < p;
    assert RoundUp(num, p) == x - rem;
    RoundDownIsMultiple(x, p);
  }

  /** round_up of a power of two clears the low bits of num + multiple - 1. */
  lemma RoundUpRoundsDown(num: u32, k: nat)
    requires k < 32 && num + Pow2(k) - 1 < TWO_32
    ensures Pow2(k) < TWO_32
    ensures RoundUp(num, Pow2(k)) == (num + Pow2(k) - 1) - (num + Pow2(k) - 1) % Pow2(k)
  {
    var p := Pow2(k);
    PowMono(k, 31);
    Pow2Of32();
    var x := num + p - 1;
    MaskClearsLowBits(x, k);
    assert Wrap32(p - 1) == p - 1;
    assert Wrap32(num + (p - 1)) == x;
    assert BitNot32(p - 1) == TWO_32 - p;
    RoundUpMasks(num, p, p - 1, x);
  }

  /** round_up with the mask and the sum it forms already known. */
  lemma RoundUpMasks(num: u32, multiple: u32, mask: u32, sum: u32)
    requires Wrap32(multiple - 1) == mask && Wrap32(num + mask) == sum
    ensures RoundUp(num, multiple) == BitAnd(sum, BitNot32(mask), 32)
  {
  }

  /** And-ing a 32-bit value with the complement of 2^k - 1 rounds it down to
      a multiple of 2^k. */
  lemma MaskClearsLowBits(x: nat, k: nat)
    requires k < 32 && x < TWO_32
    ensures Pow2(k) < TWO_32
    ensures BitAnd(x, TWO_32 - Pow2(k), 32) == x - x % Pow2(k)
  {
    PowMono(k, 31);
    Pow2Of32();
    PowSplit(32);
    BitAndClearsLowBits(x, k, 32);
  }

  // ---------------------------------------------------------------------------
  // The configuration-table scans

  /** The table pointer of the last directory entry that carries guid: what the
      scan loops leave in their local, None when no entry matches. */
  function LastMatch(tables: seq<ConfigTable>, guid: Guid): Option<u32>
  {
    if tables == [] then None
    else if GuidCmp(tables[|tables| - 1].guid, guid) == 0 then Some(tables[|tables| - 1].table)
    else LastMatch(tables[..|tables| - 1], guid)
  }

  /** LastMatch finds nothing exactly when no entry carries guid, and otherwise
      the pointer of an entry with guid after which no entry carries guid. */
  lemma {:induction false} LastMatchIsLast(tables: seq<ConfigTable>, guid: Guid)
    ensures LastMatch(tables, guid).None? <==> forall i :: 0 <= i < |tables| ==> tables[i].guid != guid
    ensures LastMatch(tables, guid).Some? ==>
      exists i :: 0 <= i < |tables| && tables[i].guid == guid && tables[i].table == LastMatch(tables, guid).value
        && forall j :: i < j < |tables| ==> tables[j].guid != guid
  {
    if tables != [] {
      var n := |tables| - 1;
      var front := tables[..n];
      LastMatchIsLast(front, guid);
      if tables[n].guid == guid {
        assert LastMatch(tables, guid) == Some(tables[n].table);
      } else {
        assert LastMatch(tables, guid) == LastMatch(front, guid);
        assert forall i :: 0 <= i < n ==> tables[i] == front[i];
        if LastMatch(front, guid).Some? {
          var i :| 0 <= i < n && front[i].guid == guid && front[i].table == LastMatch(front, guid).value
            && forall j :: i < j < n ==> front[j].guid != guid;
          assert tables[i] == front[i];
        }
      }
    }
  }

  /** The RSDP: the last ACPI 2.0 entry's pointer; no such entry, or a null
      pointer in it, is fatal. */
  function RsdpOf(tables: seq<ConfigTable>): Result<u32>
  {
    match LastMatch(tables, ACPI_20_TABLE_GUID)
    case None => Fail(NoRsdp)
    case Some(p) => if p == 0 then Fail(NoRsdp) else Ok(p)
  }

  /** What RsdpOf means in terms of the directory. */
  lemma RsdpOfDirectory(tables: seq<ConfigTable>)
    ensures RsdpOf(tables).Fail? ==> RsdpOf(tables).failure == NoRsdp
    ensures RsdpOf(tables).Ok? <==>
      exists i :: 0 <= i < |tables| && tables[i].guid == ACPI_20_TABLE_GUID && tables[i].table != 0
        && forall j :: i < j < |tables| ==> tables[j].guid != ACPI_20_TABLE_GUID
    ensures RsdpOf(tables).Ok? ==>
      exists i :: 0 <= i < |tables| && tables[i].guid == ACPI_20_TABLE_GUID && tables[i].table == RsdpOf(tables).value
        && forall j :: i < j < |tables| ==> tables[j].guid != ACPI_20_TABLE_GUID
  {
    LastMatchIsLast(tables, ACPI_20_TABLE_GUID);
    if exists i :: 0 <= i < |tables| && tables[i].guid == ACPI_20_TABLE_GUID && tables[i].table != 0
        && forall j :: i < j < |tables| ==> tables[j].guid != ACPI_20_TABLE_GUID {
      var i :| 0 <= i < |tables| && tables[i].guid == ACPI_20_TABLE_GUID && tables[i].table != 0
        && forall j :: i < j < |tables| ==> tables[j].guid != ACPI_20_TABLE_GUID;
      var m := LastMatch(tables, ACPI_20_TABLE_GUID);
      var i' :| 0 <= i' < |tables| && tables[i'].guid == ACPI_20_TABLE_GUID && tables[i'].table == m.value
        && forall j :: i' < j < |tables| ==> tables[j].guid != ACPI_20_TABLE_GUID;
      assert i == i';
    }
  }

  /** get_rsdp_from_systbl: scans the whole directory, keeping the pointer of
      every ACPI 2.0 entry it meets. */
  method GetRsdpFromSystbl(tables: seq<ConfigTable>) returns (r: Result<u32>)
    ensures r == RsdpOf(tables)
  {
    var rsdp: Option<u32> := None;
    var i := 0;
    while i < |tables|
      invariant 0 <= i <= |tables|
      invariant rsdp == LastMatch(tables[..i], ACPI_20_TABLE_GUID)
    {
      assert tables[..i + 1][..i] == tables[..i];
      if GuidCmp(tables[i].guid, ACPI_20_TABLE_GUID) == 0 {
        rsdp := Some(tables[i].table);
      }
      i := i + 1;
    }
    assert tables[..i] == tables;
    if rsdp.None? || rsdp.value == 0 {
      return Fail(NoRsdp);
    }
    return Ok(rsdp.value);
  }

  /** A copy the loader makes to an absolute address. */
  datatype MemWrite =
    | WriteBytes(dest: u32, bytes: seq<u8>)     // from a blob the loader carries
    | CopyBytes(dest: u32, src: u32, len: nat)  // from firmware memory, whose contents are not modelled

  /** The SMBIOS copy: the header of the table the last SMBIOS entry points to,
      when there is one and its pointer is not null; otherwise nothing. */
  function SmbiosWrites(tables: seq<ConfigTable>): seq<MemWrite>
  {
    match LastMatch(tables, SMBIOS_TABLE_GUID)
    case None => []
    case Some(p) => if p == 0 then [] else [CopyBytes(SMBIOS_TABLE_LOW, p, SIZE_OF_SMBIOS_TABLE_HEADER)]
  }

  /** copy_smbios_to_lowmem: scans the whole directory for SMBIOS entries and
      copies the 0x20 header bytes of the last one's table to 0xF0000. */
  method CopySmbiosToLowmem(tables: seq<ConfigTable>) returns (writes: seq<MemWrite>)
    ensures writes == SmbiosWrites(tables)
    ensures |writes| <= 1
    ensures writes != [] ==> writes[0].CopyBytes? && writes[0].dest == 0xF0000 && writes[0].len == 0x20
  {
    var smbiosTbl: Option<u32> := None;
    var i := 0;
    while i < |tables|
      invariant 0 <= i <= |tables|
      invariant smbiosTbl == LastMatch(tables[..i], SMBIOS_TABLE_GUID)
    {
      assert tables[..i + 1][..i] == tables[..i];
      if GuidCmp(tables[i].guid, SMBIOS_TABLE_GUID) == 0 {
        smbiosTbl := Some(tables[i].table);
      }
      i := i + 1;
    }
    assert tables[..i] == tables;
    writes := [];
    if smbiosTbl.Some? && smbiosTbl.value != 0 {
      writes := [CopyBytes(SMBIOS_TABLE_LOW, smbiosTbl.value, SIZE_OF_SMBIOS_TABLE_HEADER)];
    }
  }

  /** No SMBIOS entry means no copy and no failure; otherwise the copy reads
      from the pointer of the last SMBIOS entry. */
  lemma SmbiosWritesDirectory(tables: seq<ConfigTable>)
    ensures (forall i :: 0 <= i < |tables| ==> tables[i].guid != SMBIOS_TABLE_GUID) ==> SmbiosWrites(tables) == []
    ensures SmbiosWrites(tables) != [] ==>
      SmbiosWrites(tables)[0].src != 0
      && (exists i :: 0 <= i < |tables| && tables[i].guid == SMBIOS_TABLE_GUID && tables[i].table == SmbiosWrites(tables)[0].src
            && forall j :: i < j < |tables| ==> tables[j].guid != SMBIOS_TABLE_GUID)
  {
    LastMatchIsLast(tables, SMBIOS_TABLE_GUID);
  }

  /** The other direction: when the last SMBIOS entry has a non-null pointer,
      its table's 0x20 header bytes are copied to 0xF0000. */
  lemma SmbiosWritesCopy(tables: seq<ConfigTable>, i: nat)
    requires i < |tables| && tables[i].guid == SMBIOS_TABLE_GUID && tables[i].table != 0
    requires forall j :: i < j < |tables| ==> tables[j].guid != SMBIOS_TABLE_GUID
    ensures SmbiosWrites(tables) == [CopyBytes(0xF0000, tables[i].table, 0x20)]
  {
    LastMatchIsLast(tables, SMBIOS_TABLE_GUID);
  }

  // ---------------------------------------------------------------------------
  // Inputs and outcome of load_linux

  /** The members of the boot-args block (gBA) the loader reads; the firmware
      system table is represented by its configuration-table directory. */
  datatype BootArgs = BootArgs(
    kernelBase: u32, kernelSize: u32, cmdline: u32,
    configTables: seq<ConfigTable>,
    efiMemMap: seq<u8>, efiMemMapSize: u32, efiMemDescSize: u32)

  /** The firmware framebuffer description (fb); each member is narrowed to the
      width of the screen_info member it is stored in. */
  datatype Framebuffer = Framebuffer(
    base: nat, size: nat, width: nat, height: nat, depth: nat, pitch: nat,
    redSize: nat, redShift: nat, greenSize: nat, greenShift: nat,
    blueSize: nat, blueShift: nat, reservedSize: nat, reservedShift: nat)

  /** How load_linux ends: halted in fail() after the copies made so far, or
      jumping to the kernel with the finished zeropage. */
  datatype Outcome =
    | Fatal(reason: Failure, writes: seq<MemWrite>)
    | Jump(entry: u32, bootParams: seq<u8>, writes: seq<MemWrite>)

  // ---------------------------------------------------------------------------
  // The kernel image

  /** The word at 0x202 is "HdrS". */
  predicate SignatureOk(kernel: seq<u8>)
    requires |kernel| >= HDR_HEADER + 4
  {
    ReadLE(kernel, HDR_HEADER, 4) == HDRS_MAGIC
  }

  /** The length of the real-mode part: setup_sects plus the boot sector, in
      512-byte sectors. */
  function SetupBytes(kernel: seq<u8>): nat
    requires |kernel| > HDR_SETUP_SECTS
  {
    (kernel[HDR_SETUP_SECTS] as nat + 1) * 512
  }

  /** Where the image's setup header ends: 0x202 plus the second byte of the
      jump at 0x200. */
  function SetupHeaderEnd(kernel: seq<u8>): nat
    requires |kernel| > HDR_JUMP_OFFSET_BYTE
  {
    kernel[HDR_JUMP_OFFSET_BYTE] as nat + 0x202
  }

  /** What load_linux reads of the image lies inside it: the signature always,
      and, once the signature matched, the setup header and the real-mode part.
      The length fits kernel_bin_len's 32 bits. */
  predicate ImageReadable(kernel: seq<u8>)
  {
    HDR_HEADER + 4 <= |kernel| < TWO_32
    && (SignatureOk(kernel) ==> SetupBytes(kernel) <= |kernel| && SetupHeaderEnd(kernel) <= |kernel|)
  }

  /** real_kernel_len, in 32-bit arithmetic. */
  function RealKernelLen(kernel: seq<u8>): u32
    requires |kernel| > HDR_SETUP_SECTS
  {
    Wrap32(|kernel| - SetupBytes(kernel))
  }

  /** kernel_loadaddr: the end of what the firmware loaded plus the ramdisk's
      length, rounded up to 1 MiB, all in 32-bit arithmetic. */
  function KernelLoadAddr(args: BootArgs, initrdLen: nat): u32
  {
    RoundUp(Wrap32(args.kernelBase + args.kernelSize + initrdLen), LINUX_KERNEL_LOAD_INCREMENT)
  }

  /** ramdisk_loadaddr: right after what the firmware loaded. */
  function RamdiskLoadAddr(args: BootArgs): u32
  {
    Wrap32(args.kernelBase + args.kernelSize)
  }

  /** The kernel copy: real_kernel_len bytes from the end of the real-mode part. */
  function KernelWrite(kernel: seq<u8>, loadAddr: u32): MemWrite
    requires ImageReadable(kernel) && SignatureOk(kernel)
  {
    WriteBytes(loadAddr, kernel[SetupBytes(kernel)..SetupBytes(kernel) + RealKernelLen(kernel)])
  }

  // ---------------------------------------------------------------------------
  // The zeropage, stage by stage

  /** The zeropage after the memset, the setup-header copy and the three
      overrides (cmd_line_ptr, vid_mode, type_of_loader). */
  function HeaderRecord(kernel: seq<u8>, cmdline: u32): seq<u8>
    requires ImageReadable(kernel) && SignatureOk(kernel)
  {
    var t := Splice(Zeros(BOOT_PARAMS_SIZE), HDR, kernel[HDR..SetupHeaderEnd(kernel)]);
    var c := Put(t, HDR_CMD_LINE_PTR, 4, cmdline);
    var v := Put(c, HDR_VID_MODE, 2, 0xffff);
    Put(v, HDR_TYPE_OF_LOADER, 1, 0xff)
  }

  /** A zeropage byte after the memset and the setup-header copy. */
  function TransplantedByte(kernel: seq<u8>, i: nat): u8
    requires |kernel| > HDR_JUMP_OFFSET_BYTE
  {
    if HDR <= i < SetupHeaderEnd(kernel) && i < |kernel| then kernel[i] else 0
  }

  /** The zeropage with the ramdisk fields set, when there is a ramdisk. */
  function WithRamdisk(rec: seq<u8>, args: BootArgs, initrdLen: nat): seq<u8>
    requires |rec| == BOOT_PARAMS_SIZE && initrdLen < TWO_32
  {
    if initrdLen == 0 then rec
    else Put(Put(rec, HDR_RAMDISK_IMAGE, 4, RamdiskLoadAddr(args)), HDR_RAMDISK_SIZE, 4, initrdLen)
  }

  /** The ramdisk copy, when there is a ramdisk. */
  function RamdiskWrites(args: BootArgs, initrd: seq<u8>): seq<MemWrite>
  {
    if |initrd| == 0 then [] else [WriteBytes(RamdiskLoadAddr(args), initrd)]
  }

  /** The zeropage with screen_info filled in from the framebuffer, member by
      member in the order load_linux stores them. */
  function WithVideo(rec: seq<u8>, fb: Framebuffer): seq<u8>
    requires |rec| == BOOT_PARAMS_SIZE
  {
    Put(WithColours(WithLfb(WithVideoMode(rec), fb), fb), ZP_ORIG_VIDEO_IS_VGA, 1, VIDEO_TYPE_EFI)
  }

  /** capabilities and flags, the first two stores of the video stage. */
  function WithVideoMode(rec: seq<u8>): seq<u8>
    requires |rec| == BOOT_PARAMS_SIZE
  {
    Put(Put(rec, ZP_CAPABILITIES, 4, VIDEO_CAPABILITY_SKIP_QUIRKS), ZP_FLAGS, 1, VIDEO_FLAGS_NOCURSOR)
  }

  /** The lfb members, in the order the video stage stores them. */
  function WithLfb(rec: seq<u8>, fb: Framebuffer): seq<u8>
    requires |rec| == BOOT_PARAMS_SIZE
  {
    var r := Put(rec, ZP_LFB_BASE, 4, Wrap32(fb.base));
    var r := Put(r, ZP_LFB_SIZE, 4, Wrap32(fb.size));
    var r := Put(r, ZP_LFB_WIDTH, 2, Wrap16(fb.width));
    var r := Put(r, ZP_LFB_HEIGHT, 2, Wrap16(fb.height));
    var r := Put(r, ZP_LFB_DEPTH, 2, Wrap16(fb.depth));
    Put(r, ZP_LFB_LINELENGTH, 2, Wrap16(fb.pitch))
  }

  /** The colour sizes and positions, in the order the video stage stores
      them. */
  function WithColours(rec: seq<u8>, fb: Framebuffer): seq<u8>
    requires |rec| == BOOT_PARAMS_SIZE
  {
    var r := Put(rec, ZP_RED_SIZE, 1, Wrap8(fb.redSize));
    var r := Put(r, ZP_RED_POS, 1, Wrap8(fb.redShift));
    var r := Put(r, ZP_GREEN_SIZE, 1, Wrap8(fb.greenSize));
    var r := Put(r, ZP_GREEN_POS, 1, Wrap8(fb.greenShift));
    var r := Put(r, ZP_BLUE_SIZE, 1, Wrap8(fb.blueSize));
    var r := Put(r, ZP_BLUE_POS, 1, Wrap8(fb.blueShift));
    var r := Put(r, ZP_RSVD_SIZE, 1, Wrap8(fb.reservedSize));
    Put(r, ZP_RSVD_POS, 1, Wrap8(fb.reservedShift))
  }

  /** The zeropage with acpi_rsdp_addr set. */
  function WithRsdp(rec: seq<u8>, rsdp: u32): seq<u8>
    requires |rec| == BOOT_PARAMS_SIZE
  {
    Put(rec, ZP_ACPI_RSDP_ADDR, 8, rsdp)
  }

  /** The zeropage with e820_entries set and the first |entries| slots of
      e820_table filled. */
  function WithE820(rec: seq<u8>, entries: seq<E820Entry>): seq<u8>
    requires |rec| == BOOT_PARAMS_SIZE && |entries| <= E820_MAX_ENTRIES_ZEROPAGE
  {
    Splice(Put(rec, ZP_E820_ENTRIES, 1, |entries|), ZP_E820_TABLE, EncodeTable(entries))
  }

  /** load_linux from start to finish. */
  function Boot(kernel: seq<u8>, initrd: seq<u8>, args: BootArgs, fb: Framebuffer): Outcome
    requires ImageReadable(kernel) && |initrd| < TWO_32
    requires MapReadable(args.efiMemMap, args.efiMemMapSize, args.efiMemDescSize)
  {
    if !SignatureOk(kernel) then Fatal(InvalidSignature, [])
    else
      var loadAddr := KernelLoadAddr(args, |initrd|);
      var w1 := [KernelWrite(kernel, loadAddr)];
      var rec := HeaderRecord(kernel, args.cmdline);
      if BitAnd(rec[HDR_LOADFLAGS], LOADED_HIGH, 8) == 0 then Fatal(NotLoadedHigh, w1)
      else
        AfterVideo(WithVideo(WithRamdisk(rec, args, |initrd|), fb), w1 + RamdiskWrites(args, initrd),
                   loadAddr, args)
  }

  /** The rest of load_linux once screen_info is filled in: the ACPI root
      pointer, the SMBIOS copy and the region table. */
  function AfterVideo(rec: seq<u8>, writes: seq<MemWrite>, loadAddr: u32, args: BootArgs): Outcome
    requires |rec| == BOOT_PARAMS_SIZE
    requires MapReadable(args.efiMemMap, args.efiMemMapSize, args.efiMemDescSize)
  {
    match RsdpOf(args.configTables)
    case Fail(f) => Fatal(f, writes)
    case Ok(rsdp) =>
      var w := writes + SmbiosWrites(args.configTables);
      match Translate(args.efiMemMap, args.efiMemMapSize, args.efiMemDescSize)
      case Fail(f) => Fatal(f, w)
      case Ok(entries) => Jump(loadAddr, WithE820(WithRsdp(rec, rsdp), entries), w)
  }

  /** Boot, once the image passed both checks. */
  lemma BootAfterHeader(kernel: seq<u8>, initrd: seq<u8>, args: BootArgs, fb: Framebuffer)
    requires ImageReadable(kernel) && |initrd| < TWO_32
    requires MapReadable(args.efiMemMap, args.efiMemMapSize, args.efiMemDescSize)
    requires SignatureOk(kernel)
    requires BitAnd(HeaderRecord(kernel, args.cmdline)[HDR_LOADFLAGS], LOADED_HIGH, 8) != 0
    ensures Boot(kernel, initrd, args, fb)
         == AfterVideo(WithVideo(WithRamdisk(HeaderRecord(kernel, args.cmdline), args, |initrd|), fb),
                       [KernelWrite(kernel, KernelLoadAddr(args, |initrd|))] + RamdiskWrites(args, initrd),
                       KernelLoadAddr(args, |initrd|), args)
  {
  }

  // ---------------------------------------------------------------------------
  // What each stage does to the zeropage

  /** After the transplant and the overrides the three overridden members hold
      their new values and every other byte is the image's (inside the copied
      header) or 0 (outside it). */
  lemma HeaderRecordContents(kernel: seq<u8>, cmdline: u32)
    requires ImageReadable(kernel) && SignatureOk(kernel)
    ensures |HeaderRecord(kernel, cmdline)| == BOOT_PARAMS_SIZE
    ensures ReadLE(HeaderRecord(kernel, cmdline), HDR_CMD_LINE_PTR, 4) == cmdline
    ensures ReadLE(HeaderRecord(kernel, cmdline), HDR_VID_MODE, 2) == 0xffff
    ensures HeaderRecord(kernel, cmdline)[HDR_TYPE_OF_LOADER] == 0xff
    ensures forall i :: 0 <= i < BOOT_PARAMS_SIZE && !(HDR_CMD_LINE_PTR <= i < HDR_CMD_LINE_PTR + 4)
                && !(HDR_VID_MODE <= i < HDR_VID_MODE + 2) && i != HDR_TYPE_OF_LOADER
                ==> HeaderRecord(kernel, cmdline)[i] == TransplantedByte(kernel, i)
  {
    var z := Zeros(BOOT_PARAMS_SIZE);
    var b := kernel[HDR..SetupHeaderEnd(kernel)];
    var t := Splice(z, HDR, b);
    var c := Put(t, HDR_CMD_LINE_PTR, 4, cmdline);
    var v := Put(c, HDR_VID_MODE, 2, 0xffff);
    var r := Put(v, HDR_TYPE_OF_LOADER, 1, 0xff);
    TransplantBytes(kernel);
    PutOutside(t, HDR_CMD_LINE_PTR, 4, cmdline);
    PutOutside(c, HDR_VID_MODE, 2, 0xffff);
    PutOutside(v, HDR_TYPE_OF_LOADER, 1, 0xff);
    PutRead(t, HDR_CMD_LINE_PTR, 4, cmdline);
    PutFrame(c, HDR_VID_MODE, 2, 0xffff, HDR_CMD_LINE_PTR, 4);
    PutFrame(v, HDR_TYPE_OF_LOADER, 1, 0xff, HDR_CMD_LINE_PTR, 4);
    PutRead(c, HDR_VID_MODE, 2, 0xffff);
    PutFrame(v, HDR_TYPE_OF_LOADER, 1, 0xff, HDR_VID_MODE, 2);
    PutRead(v, HDR_TYPE_OF_LOADER, 1, 0xff);
    assert r[HDR_TYPE_OF_LOADER..HDR_TYPE_OF_LOADER + 1] == [r[HDR_TYPE_OF_LOADER]];
  }

  /** After the memset and the setup-header copy every byte is the image's
      (inside the copied header) or 0 (outside it). */
  lemma TransplantBytes(kernel: seq<u8>)
    requires ImageReadable(kernel) && SignatureOk(kernel)
    ensures |Splice(Zeros(BOOT_PARAMS_SIZE), HDR, kernel[HDR..SetupHeaderEnd(kernel)])| == BOOT_PARAMS_SIZE
    ensures forall i :: 0 <= i < BOOT_PARAMS_SIZE
                ==> Splice(Zeros(BOOT_PARAMS_SIZE), HDR, kernel[HDR..SetupHeaderEnd(kernel)])[i] == TransplantedByte(kernel, i)
  {
    var z := Zeros(BOOT_PARAMS_SIZE);
    var b := kernel[HDR..SetupHeaderEnd(kernel)];
    ZerosAreZero(BOOT_PARAMS_SIZE);
    SpliceAt(z, HDR, b);
  }

  /** With a ramdisk, ramdisk_image and ramdisk_size hold its address and
      length; without one the zeropage is left as it was. Nothing outside the
      two members changes. */
  lemma WithRamdiskContents(rec: seq<u8>, args: BootArgs, initrdLen: nat)
    requires |rec| == BOOT_PARAMS_SIZE && initrdLen < TWO_32
    ensures |WithRamdisk(rec, args, initrdLen)| == BOOT_PARAMS_SIZE
    ensures initrdLen == 0 ==> WithRamdisk(rec, args, initrdLen) == rec
    ensures initrdLen != 0 ==> ReadLE(WithRamdisk(rec, args, initrdLen), HDR_RAMDISK_IMAGE, 4) == RamdiskLoadAddr(args)
    ensures initrdLen != 0 ==> ReadLE(WithRamdisk(rec, args, initrdLen), HDR_RAMDISK_SIZE, 4) == initrdLen
    ensures forall i :: 0 <= i < BOOT_PARAMS_SIZE && !(HDR_RAMDISK_IMAGE <= i < HDR_RAMDISK_SIZE + 4)
                ==> WithRamdisk(rec, args, initrdLen)[i] == rec[i]
  {
    if initrdLen != 0 {
      var a := Put(rec, HDR_RAMDISK_IMAGE, 4, RamdiskLoadAddr(args));
      PutOutside(rec, HDR_RAMDISK_IMAGE, 4, RamdiskLoadAddr(args));
      PutOutside(a, HDR_RAMDISK_SIZE, 4, initrdLen);
      PutRead(rec, HDR_RAMDISK_IMAGE, 4, RamdiskLoadAddr(args));
      PutFrame(a, HDR_RAMDISK_SIZE, 4, initrdLen, HDR_RAMDISK_IMAGE, 4);
      PutRead(a, HDR_RAMDISK_SIZE, 4, initrdLen);
    }
  }

  /** The video-mode stores set capabilities and flags and nothing else. */
  lemma VideoModeContents(rec: seq<u8>)
    requires |rec| == BOOT_PARAMS_SIZE
    ensures |WithVideoMode(rec)| == BOOT_PARAMS_SIZE
    ensures ReadLE(WithVideoMode(rec), ZP_CAPABILITIES, 4) == VIDEO_CAPABILITY_SKIP_QUIRKS
    ensures WithVideoMode(rec)[ZP_FLAGS] == VIDEO_FLAGS_NOCURSOR
    ensures forall i :: 0 <= i < BOOT_PARAMS_SIZE && i != ZP_FLAGS && !(ZP_CAPABILITIES <= i < ZP_CAPABILITIES + 4)
                ==> WithVideoMode(rec)[i] == rec[i]
  {
    var r0 := Put(rec, ZP_CAPABILITIES, 4, VIDEO_CAPABILITY_SKIP_QUIRKS);
    PutRead(rec, ZP_CAPABILITIES, 4, VIDEO_CAPABILITY_SKIP_QUIRKS);
    PutOutside(rec, ZP_CAPABILITIES, 4, VIDEO_CAPABILITY_SKIP_QUIRKS);
    PutFrame(r0, ZP_FLAGS, 1, VIDEO_FLAGS_NOCURSOR, ZP_CAPABILITIES, 4);
    PutOutside(r0, ZP_FLAGS, 1, VIDEO_FLAGS_NOCURSOR);
    PutRead(r0, ZP_FLAGS, 1, VIDEO_FLAGS_NOCURSOR);
    OneByteRead(WithVideoMode(rec), ZP_FLAGS);
  }

  /** The lfb stores set the six lfb members and nothing outside 0x12..0x26. */
  lemma LfbContents(rec: seq<u8>, fb: Framebuffer)
    requires |rec| == BOOT_PARAMS_SIZE
    ensures |WithLfb(rec, fb)| == BOOT_PARAMS_SIZE
    ensures ReadLE(WithLfb(rec, fb), ZP_LFB_BASE, 4) == Wrap32(fb.base)
    ensures ReadLE(WithLfb(rec, fb), ZP_LFB_SIZE, 4) == Wrap32(fb.size)
    ensures ReadLE(WithLfb(rec, fb), ZP_LFB_WIDTH, 2) == Wrap16(fb.width)
    ensures ReadLE(WithLfb(rec, fb), ZP_LFB_HEIGHT, 2) == Wrap16(fb.height)
    ensures ReadLE(WithLfb(rec, fb), ZP_LFB_DEPTH, 2) == Wrap16(fb.depth)
    ensures ReadLE(WithLfb(rec, fb), ZP_LFB_LINELENGTH, 2) == Wrap16(fb.pitch)
    ensures forall i :: 0 <= i < BOOT_PARAMS_SIZE && !(ZP_LFB_WIDTH <= i < ZP_RED_SIZE)
                ==> WithLfb(rec, fb)[i] == rec[i]
  {
    var r0 := Put(rec, ZP_LFB_BASE, 4, Wrap32(fb.base));
    var r1 := Put(r0, ZP_LFB_SIZE, 4, Wrap32(fb.size));
    var r2 := Put(r1, ZP_LFB_WIDTH, 2, Wrap16(fb.width));
    var r3 := Put(r2, ZP_LFB_HEIGHT, 2, Wrap16(fb.height));
    var r4 := Put(r3, ZP_LFB_DEPTH, 2, Wrap16(fb.depth));
    var r5 := Put(r4, ZP_LFB_LINELENGTH, 2, Wrap16(fb.pitch));
    PutOutside(rec, ZP_LFB_BASE, 4, Wrap32(fb.base));
    PutOutside(r0, ZP_LFB_SIZE, 4, Wrap32(fb.size));
    PutOutside(r1, ZP_LFB_WIDTH, 2, Wrap16(fb.width));
    PutOutside(r2, ZP_LFB_HEIGHT, 2, Wrap16(fb.height));
    PutOutside(r3, ZP_LFB_DEPTH, 2, Wrap16(fb.depth));
    PutOutside(r4, ZP_LFB_LINELENGTH, 2, Wrap16(fb.pitch));
    // Each member reads back from the stage that stored it, and no later
    // store of the group overlaps it.
    PutRead(rec, ZP_LFB_BASE, 4, Wrap32(fb.base));
    ReadLEFrame(r5, r0, ZP_LFB_BASE, 4);
    PutRead(r0, ZP_LFB_SIZE, 4, Wrap32(fb.size));
    ReadLEFrame(r5, r1, ZP_LFB_SIZE, 4);
    PutRead(r1, ZP_LFB_WIDTH, 2, Wrap16(fb.width));
    ReadLEFrame(r5, r2, ZP_LFB_WIDTH, 2);
    PutRead(r2, ZP_LFB_HEIGHT, 2, Wrap16(fb.height));
    ReadLEFrame(r5, r3, ZP_LFB_HEIGHT, 2);
    PutRead(r3, ZP_LFB_DEPTH, 2, Wrap16(fb.depth));
    ReadLEFrame(r5, r4, ZP_LFB_DEPTH, 2);
    PutRead(r4, ZP_LFB_LINELENGTH, 2, Wrap16(fb.pitch));
  }

  /** The colour stores set the eight colour bytes and nothing outside
      0x26..0x2e. */
  lemma ColoursContents(rec: seq<u8>, fb: Framebuffer)
    requires |rec| == BOOT_PARAMS_SIZE
    ensures |WithColours(rec, fb)| == BOOT_PARAMS_SIZE
    ensures WithColours(rec, fb)[ZP_RED_SIZE] == Wrap8(fb.redSize)
    ensures WithColours(rec, fb)[ZP_RED_POS] == Wrap8(fb.redShift)
    ensures WithColours(rec, fb)[ZP_GREEN_SIZE] == Wrap8(fb.greenSize)
    ensures WithColours(rec, fb)[ZP_GREEN_POS] == Wrap8(fb.greenShift)
    ensures WithColours(rec, fb)[ZP_BLUE_SIZE] == Wrap8(fb.blueSize)
    ensures WithColours(rec, fb)[ZP_BLUE_POS] == Wrap8(fb.blueShift)
    ensures WithColours(rec, fb)[ZP_RSVD_SIZE] == Wrap8(fb.reservedSize)
    ensures WithColours(rec, fb)[ZP_RSVD_POS] == Wrap8(fb.reservedShift)
    ensures forall i :: 0 <= i < BOOT_PARAMS_SIZE && !(ZP_RED_SIZE <= i <= ZP_RSVD_POS)
                ==> WithColours(rec, fb)[i] == rec[i]
  {
    var r0 := Put(rec, ZP_RED_SIZE, 1, Wrap8(fb.redSize));
    var r1 := Put(r0, ZP_RED_POS, 1, Wrap8(fb.redShift));
    var r2 := Put(r1, ZP_GREEN_SIZE, 1, Wrap8(fb.greenSize));
    var r3 := Put(r2, ZP_GREEN_POS, 1, Wrap8(fb.greenShift));
    var r4 := Put(r3, ZP_BLUE_SIZE, 1, Wrap8(fb.blueSize));
    var r5 := Put(r4, ZP_BLUE_POS, 1, Wrap8(fb.blueShift));
    var r6 := Put(r5, ZP_RSVD_SIZE, 1, Wrap8(fb.reservedSize));
    StoreByte(rec, ZP_RED_SIZE, Wrap8(fb.redSize));
    StoreByte(r0, ZP_RED_POS, Wrap8(fb.redShift));
    StoreByte(r1, ZP_GREEN_SIZE, Wrap8(fb.greenSize));
    StoreByte(r2, ZP_GREEN_POS, Wrap8(fb.greenShift));
    StoreByte(r3, ZP_BLUE_SIZE, Wrap8(fb.blueSize));
    StoreByte(r4, ZP_BLUE_POS, Wrap8(fb.blueShift));
    StoreByte(r5, ZP_RSVD_SIZE, Wrap8(fb.reservedSize));
    StoreByte(r6, ZP_RSVD_POS, Wrap8(fb.reservedShift));
  }

  /** A one-byte store sets that byte and no other. */
  lemma StoreByte(s: seq<u8>, off: nat, v: nat)
    requires off < |s| && v < 0x100
    ensures Put(s, off, 1, v)[off] == v
    ensures forall i :: 0 <= i < |s| && i != off ==> Put(s, off, 1, v)[i] == s[i]
  {
    PutRead(s, off, 1, v);
    OneByteRead(Put(s, off, 1, v), off);
    PutOutside(s, off, 1, v);
  }

  /** Filling in screen_info changes nothing past it. */
  lemma WithVideoFrame(rec: seq<u8>, fb: Framebuffer)
    requires |rec| == BOOT_PARAMS_SIZE
    ensures |WithVideo(rec, fb)| == BOOT_PARAMS_SIZE
    ensures forall i :: SCREEN_INFO_SIZE <= i < BOOT_PARAMS_SIZE ==> WithVideo(rec, fb)[i] == rec[i]
  {
    VideoModeContents(rec);
    LfbContents(WithVideoMode(rec), fb);
    ColoursContents(WithLfb(WithVideoMode(rec), fb), fb);
    StoreByte(WithColours(WithLfb(WithVideoMode(rec), fb), fb), ZP_ORIG_VIDEO_IS_VGA, VIDEO_TYPE_EFI);
  }

  /** Any zeropage whose screen_info bytes are those WithVideo produces
      describes the framebuffer: capabilities, flags and orig_video_isVGA hold
      the fixed values and the lfb and colour members hold fb's, narrowed to
      their widths. */
  lemma ScreenInfoFields(s: seq<u8>, rec: seq<u8>, fb: Framebuffer)
    requires |rec| == BOOT_PARAMS_SIZE == |s|
    requires forall i :: 0 <= i < SCREEN_INFO_SIZE ==> s[i] == WithVideo(rec, fb)[i]
    ensures ReadLE(s, ZP_CAPABILITIES, 4) == VIDEO_CAPABILITY_SKIP_QUIRKS
    ensures s[ZP_FLAGS] == VIDEO_FLAGS_NOCURSOR
    ensures ReadLE(s, ZP_LFB_BASE, 4) == Wrap32(fb.base) && ReadLE(s, ZP_LFB_SIZE, 4) == Wrap32(fb.size)
    ensures ReadLE(s, ZP_LFB_WIDTH, 2) == Wrap16(fb.width) && ReadLE(s, ZP_LFB_HEIGHT, 2) == Wrap16(fb.height)
    ensures ReadLE(s, ZP_LFB_DEPTH, 2) == Wrap16(fb.depth) && ReadLE(s, ZP_LFB_LINELENGTH, 2) == Wrap16(fb.pitch)
    ensures s[ZP_RED_SIZE] == Wrap8(fb.redSize) && s[ZP_RED_POS] == Wrap8(fb.redShift)
    ensures s[ZP_GREEN_SIZE] == Wrap8(fb.greenSize) && s[ZP_GREEN_POS] == Wrap8(fb.greenShift)
    ensures s[ZP_BLUE_SIZE] == Wrap8(fb.blueSize) && s[ZP_BLUE_POS] == Wrap8(fb.blueShift)
    ensures s[ZP_RSVD_SIZE] == Wrap8(fb.reservedSize) && s[ZP_RSVD_POS] == Wrap8(fb.reservedShift)
    ensures s[ZP_ORIG_VIDEO_IS_VGA] == VIDEO_TYPE_EFI
  {
    var g1 := WithVideoMode(rec);
    var g2 := WithLfb(g1, fb);
    var g3 := WithColours(g2, fb);
    VideoModeContents(rec);
    LfbContents(g1, fb);
    ColoursContents(g2, fb);
    StoreByte(g3, ZP_ORIG_VIDEO_IS_VGA, VIDEO_TYPE_EFI);
    VideoModeFields(s, g1);
    LfbFields(s, g1, fb);
  }

  /** Helper of ScreenInfoFields: capabilities reads the same from s as from a
      zeropage agreeing with it there. */
  lemma VideoModeFields(s: seq<u8>, g: seq<u8>)
    requires |g| == BOOT_PARAMS_SIZE == |s|
    requires forall i :: ZP_CAPABILITIES <= i < ZP_CAPABILITIES + 4 ==> s[i] == g[i]
    requires ReadLE(g, ZP_CAPABILITIES, 4) == VIDEO_CAPABILITY_SKIP_QUIRKS
    ensures ReadLE(s, ZP_CAPABILITIES, 4) == VIDEO_CAPABILITY_SKIP_QUIRKS
  {
    ReadLEFrame(s, g, ZP_CAPABILITIES, 4);
  }

  /** Helper of ScreenInfoFields: the lfb members read the same from s as from
      a zeropage agreeing with it on 0x12..0x26. */
  lemma LfbFields(s: seq<u8>, g: seq<u8>, fb: Framebuffer)
    requires |g| == BOOT_PARAMS_SIZE == |s|
    requires forall i :: ZP_LFB_WIDTH <= i < ZP_RED_SIZE ==> s[i] == WithLfb(g, fb)[i]
    ensures ReadLE(s, ZP_LFB_BASE, 4) == Wrap32(fb.base) && ReadLE(s, ZP_LFB_SIZE, 4) == Wrap32(fb.size)
    ensures ReadLE(s, ZP_LFB_WIDTH, 2) == Wrap16(fb.width) && ReadLE(s, ZP_LFB_HEIGHT, 2) == Wrap16(fb.height)
    ensures ReadLE(s, ZP_LFB_DEPTH, 2) == Wrap16(fb.depth) && ReadLE(s, ZP_LFB_LINELENGTH, 2) == Wrap16(fb.pitch)
  {
    var l := WithLfb(g, fb);
    LfbContents(g, fb);
    ReadLEFrame(s, l, ZP_LFB_BASE, 4);
    ReadLEFrame(s, l, ZP_LFB_SIZE, 4);
    ReadLEFrame(s, l, ZP_LFB_WIDTH, 2);
    ReadLEFrame(s, l, ZP_LFB_HEIGHT, 2);
    ReadLEFrame(s, l, ZP_LFB_DEPTH, 2);
    ReadLEFrame(s, l, ZP_LFB_LINELENGTH, 2);
  }

  /** A one-byte field is the byte itself. */
  lemma OneByteRead(s: seq<u8>, off: nat)
    requires off < |s|
    ensures ReadLE(s, off, 1) == s[off]
  {
    assert s[off..off + 1] == [s[off]];
  }

  /** acpi_rsdp_addr holds the pointer, and nothing else changes. */
  lemma WithRsdpContents(rec: seq<u8>, rsdp: u32)
    requires |rec| == BOOT_PARAMS_SIZE
    ensures |WithRsdp(rec, rsdp)| == BOOT_PARAMS_SIZE
    ensures ReadLE(WithRsdp(rec, rsdp), ZP_ACPI_RSDP_ADDR, 8) == rsdp
    ensures forall i :: 0 <= i < BOOT_PARAMS_SIZE && !(ZP_ACPI_RSDP_ADDR <= i < ZP_ACPI_RSDP_ADDR + 8)
                ==> WithRsdp(rec, rsdp)[i] == rec[i]
  {
    PutRead(rec, ZP_ACPI_RSDP_ADDR, 8, rsdp);
    PutOutside(rec, ZP_ACPI_RSDP_ADDR, 8, rsdp);
  }

  /** e820_entries holds the count, slot k of e820_table holds entry k, and
      nothing else changes: neither the rest of the zeropage nor the slots
      past the count. */
  lemma WithE820Contents(rec: seq<u8>, entries: seq<E820Entry>)
    requires |rec| == BOOT_PARAMS_SIZE && |entries| <= E820_MAX_ENTRIES_ZEROPAGE
    ensures |WithE820(rec, entries)| == BOOT_PARAMS_SIZE
    ensures WithE820(rec, entries)[ZP_E820_ENTRIES] == |entries|
    ensures forall k :: 0 <= k < |entries| ==>
      DecodeEntry(WithE820(rec, entries)[ZP_E820_TABLE + 20 * k .. ZP_E820_TABLE + 20 * (k + 1)]) == entries[k]
    ensures forall i :: 0 <= i < BOOT_PARAMS_SIZE && i != ZP_E820_ENTRIES
                && !(ZP_E820_TABLE <= i < ZP_E820_TABLE + 20 * |entries|)
                ==> WithE820(rec, entries)[i] == rec[i]
  {
    var c := Put(rec, ZP_E820_ENTRIES, 1, |entries|);
    var b := EncodeTable(entries);
    var r := Splice(c, ZP_E820_TABLE, b);
    PutRead(rec, ZP_E820_ENTRIES, 1, |entries|);
    OneByteRead(c, ZP_E820_ENTRIES);
    PutOutside(rec, ZP_E820_ENTRIES, 1, |entries|);
    SpliceAt(c, ZP_E820_TABLE, b);
    forall k | 0 <= k < |entries|
      ensures DecodeEntry(r[ZP_E820_TABLE + 20 * k .. ZP_E820_TABLE + 20 * (k + 1)]) == entries[k]
    {
      assert r[ZP_E820_TABLE + 20 * k .. ZP_E820_TABLE + 20 * (k + 1)] == b[20 * k .. 20 * (k + 1)];
      EncodeTableSlot(entries, k);
    }
  }

  // ---------------------------------------------------------------------------
  // Properties of the hand-off

  /** A Jump comes from an image that passed both checks, a directory with an
      RSDP and a map that translated; its zeropage is built by every stage in
      turn and it jumps to the kernel's load address. */
  lemma JumpStages(kernel: seq<u8>, initrd: seq<u8>, args: BootArgs, fb: Framebuffer)
    requires ImageReadable(kernel) && |initrd| < TWO_32
    requires MapReadable(args.efiMemMap, args.efiMemMapSize, args.efiMemDescSize)
    requires Boot(kernel, initrd, args, fb).Jump?
    ensures SignatureOk(kernel)
    ensures BitAnd(HeaderRecord(kernel, args.cmdline)[HDR_LOADFLAGS], LOADED_HIGH, 8) != 0
    ensures RsdpOf(args.configTables).Ok?
    ensures Translate(args.efiMemMap, args.efiMemMapSize, args.efiMemDescSize).Ok?
    ensures |Translate(args.efiMemMap, args.efiMemMapSize, args.efiMemDescSize).value| <= E820_MAX_ENTRIES_ZEROPAGE
    ensures Boot(kernel, initrd, args, fb).entry == KernelLoadAddr(args, |initrd|)
    ensures Boot(kernel, initrd, args, fb).bootParams
         == Staged(kernel, args, |initrd|, fb, RsdpOf(args.configTables).value,
                   Translate(args.efiMemMap, args.efiMemMapSize, args.efiMemDescSize).value)
    ensures Boot(kernel, initrd, args, fb).writes
         == [KernelWrite(kernel, KernelLoadAddr(args, |initrd|))] + RamdiskWrites(args, initrd)
            + SmbiosWrites(args.configTables)
  {
    if SignatureOk(kernel) && BitAnd(HeaderRecord(kernel, args.cmdline)[HDR_LOADFLAGS], LOADED_HIGH, 8) != 0 {
      BootAfterHeader(kernel, initrd, args, fb);
    }
  }

  /** The signature check: a wrong word at 0x202 halts before anything is
      copied, and a right one never fails for that reason. */
  lemma BadSignatureIsFatal(kernel: seq<u8>, initrd: seq<u8>, args: BootArgs, fb: Framebuffer)
    requires ImageReadable(kernel) && |initrd| < TWO_32
    requires MapReadable(args.efiMemMap, args.efiMemMapSize, args.efiMemDescSize)
    ensures !SignatureOk(kernel) <==> Boot(kernel, initrd, args, fb) == Fatal(InvalidSignature, [])
    ensures Boot(kernel, initrd, args, fb).Fatal? && Boot(kernel, initrd, args, fb).reason == InvalidSignature
            ==> !SignatureOk(kernel)
  {
    if SignatureOk(kernel) && BitAnd(HeaderRecord(kernel, args.cmdline)[HDR_LOADFLAGS], LOADED_HIGH, 8) != 0 {
      BootAfterHeader(kernel, initrd, args, fb);
      AfterVideoFailures(WithVideo(WithRamdisk(HeaderRecord(kernel, args.cmdline), args, |initrd|), fb),
                         [KernelWrite(kernel, KernelLoadAddr(args, |initrd|))] + RamdiskWrites(args, initrd),
                         KernelLoadAddr(args, |initrd|), args);
    }
  }

  /** The later stages fail only for want of an RSDP or of table room, each
      after the copies made so far, which include the SMBIOS copy for the
      second. */
  lemma AfterVideoFailures(rec: seq<u8>, writes: seq<MemWrite>, loadAddr: u32, args: BootArgs)
    requires |rec| == BOOT_PARAMS_SIZE
    requires MapReadable(args.efiMemMap, args.efiMemMapSize, args.efiMemDescSize)
    ensures AfterVideo(rec, writes, loadAddr, args) == Fatal(NoRsdp, writes) <==> RsdpOf(args.configTables).Fail?
    ensures AfterVideo(rec, writes, loadAddr, args).Fatal? ==>
      AfterVideo(rec, writes, loadAddr, args).reason in {NoRsdp, TooManyDescriptors}
    ensures AfterVideo(rec, writes, loadAddr, args).Fatal? && AfterVideo(rec, writes, loadAddr, args).reason == TooManyDescriptors
        <==> RsdpOf(args.configTables).Ok? && Translate(args.efiMemMap, args.efiMemMapSize, args.efiMemDescSize).Fail?
  {
    RsdpOfDirectory(args.configTables);
  }

  /** The kernel copy: it is the first write, goes to the load address and
      takes the image from the end of the real-mode part to its end, so the
      real-mode part and the copied length add up to the image length. */
  lemma KernelCopy(kernel: seq<u8>, initrd: seq<u8>, args: BootArgs, fb: Framebuffer)
    requires ImageReadable(kernel) && |initrd| < TWO_32
    requires MapReadable(args.efiMemMap, args.efiMemMapSize, args.efiMemDescSize)
    requires SignatureOk(kernel)
    ensures |Boot(kernel, initrd, args, fb).writes| >= 1
    ensures Boot(kernel, initrd, args, fb).writes[0] == WriteBytes(KernelLoadAddr(args, |initrd|), kernel[SetupBytes(kernel)..])
    ensures SetupBytes(kernel) + RealKernelLen(kernel) == |kernel|
  {
    var loadAddr := KernelLoadAddr(args, |initrd|);
    KernelWriteIsTail(kernel, loadAddr);
    if BitAnd(HeaderRecord(kernel, args.cmdline)[HDR_LOADFLAGS], LOADED_HIGH, 8) != 0 {
      BootAfterHeader(kernel, initrd, args, fb);
      var w := [KernelWrite(kernel, loadAddr)] + RamdiskWrites(args, initrd);
      var rec := WithVideo(WithRamdisk(HeaderRecord(kernel, args.cmdline), args, |initrd|), fb);
      AfterVideoKeepsWrites(rec, w, loadAddr, args);
      assert w[0] == KernelWrite(kernel, loadAddr);
    }
  }

  /** The kernel copy takes everything past the real-mode part. */
  lemma KernelWriteIsTail(kernel: seq<u8>, loadAddr: u32)
    requires ImageReadable(kernel) && SignatureOk(kernel)
    ensures SetupBytes(kernel) + RealKernelLen(kernel) == |kernel|
    ensures KernelWrite(kernel, loadAddr) == WriteBytes(loadAddr, kernel[SetupBytes(kernel)..])
  {
  }

  /** The stages after screen_info only append to the writes made so far. */
  lemma AfterVideoKeepsWrites(rec: seq<u8>, writes: seq<MemWrite>, loadAddr: u32, args: BootArgs)
    requires |rec| == BOOT_PARAMS_SIZE
    requires MapReadable(args.efiMemMap, args.efiMemMapSize, args.efiMemDescSize)
    ensures |AfterVideo(rec, writes, loadAddr, args).writes| >= |writes|
    ensures AfterVideo(rec, writes, loadAddr, args).writes[..|writes|] == writes
  {
    var o := AfterVideo(rec, writes, loadAddr, args);
    assert o.writes == writes || o.writes == writes + SmbiosWrites(args.configTables);
    if o.writes != writes {
      assert o.writes[..|writes|] == writes;
    }
  }

  /** Where things go: for a firmware load region that ends, with the ramdisk,
      at least 1 MiB below 4 GiB, the kernel goes to the first 1 MiB boundary
      at or past the end of that region with the ramdisk, and the ramdisk,
      placed right after the firmware load region, ends at or before it. */
  lemma Placement(args: BootArgs, initrdLen: nat)
    requires args.kernelBase + args.kernelSize + initrdLen + LINUX_KERNEL_LOAD_INCREMENT <= TWO_32
    ensures KernelLoadAddr(args, initrdLen) % LINUX_KERNEL_LOAD_INCREMENT == 0
    ensures args.kernelBase + args.kernelSize + initrdLen <= KernelLoadAddr(args, initrdLen)
    ensures KernelLoadAddr(args, initrdLen) < args.kernelBase + args.kernelSize + initrdLen + LINUX_KERNEL_LOAD_INCREMENT
    ensures RamdiskLoadAddr(args) == args.kernelBase + args.kernelSize
    ensures RamdiskLoadAddr(args) + initrdLen <= KernelLoadAddr(args, initrdLen)
  {
    assert Pow2(10) == 0x400;
    assert Pow2(20) == LINUX_KERNEL_LOAD_INCREMENT;
    RoundUpPowerOfTwo(args.kernelBase + args.kernelSize + initrdLen, 20);
  }

  /** The loaded-high check: it fails exactly when bit 0 of the loadflags byte
      the image supplies is clear (and 0 is what a header too short to reach
      loadflags supplies, so such an image is always refused). */
  lemma LoadedHighRequired(kernel: seq<u8>, initrd: seq<u8>, args: BootArgs, fb: Framebuffer)
    requires ImageReadable(kernel) && |initrd| < TWO_32
    requires MapReadable(args.efiMemMap, args.efiMemMapSize, args.efiMemDescSize)
    requires SignatureOk(kernel)
    ensures Boot(kernel, initrd, args, fb) == Fatal(NotLoadedHigh, [KernelWrite(kernel, KernelLoadAddr(args, |initrd|))])
        <==> TransplantedByte(kernel, HDR_LOADFLAGS) % 2 == 0
    ensures SetupHeaderEnd(kernel) <= HDR_LOADFLAGS ==>
      Boot(kernel, initrd, args, fb) == Fatal(NotLoadedHigh, [KernelWrite(kernel, KernelLoadAddr(args, |initrd|))])
  {
    HeaderRecordContents(kernel, args.cmdline);
    BitAndOne(HeaderRecord(kernel, args.cmdline)[HDR_LOADFLAGS], 8);
    if BitAnd(HeaderRecord(kernel, args.cmdline)[HDR_LOADFLAGS], LOADED_HIGH, 8) != 0 {
      BootAfterHeader(kernel, initrd, args, fb);
      AfterVideoFailures(WithVideo(WithRamdisk(HeaderRecord(kernel, args.cmdline), args, |initrd|), fb),
                         [KernelWrite(kernel, KernelLoadAddr(args, |initrd|))] + RamdiskWrites(args, initrd),
                         KernelLoadAddr(args, |initrd|), args);
    }
  }

  /** The setup header the kernel receives carries the command line pointer,
      vid_mode 0xffff ("normal"), type_of_loader 0xff ("undefined") and a set
      LOADED_HIGH bit. */
  lemma JumpHeader(kernel: seq<u8>, initrd: seq<u8>, args: BootArgs, fb: Framebuffer)
    requires ImageReadable(kernel) && |initrd| < TWO_32
    requires MapReadable(args.efiMemMap, args.efiMemMapSize, args.efiMemDescSize)
    requires Boot(kernel, initrd, args, fb).Jump?
    ensures var bp := Boot(kernel, initrd, args, fb).bootParams;
      |bp| == BOOT_PARAMS_SIZE
      && ReadLE(bp, HDR_CMD_LINE_PTR, 4) == args.cmdline
      && ReadLE(bp, HDR_VID_MODE, 2) == 0xffff
      && bp[HDR_TYPE_OF_LOADER] == 0xff
      && bp[HDR_LOADFLAGS] % 2 == 1
  {
    JumpStages(kernel, initrd, args, fb);
    HeaderRecordContents(kernel, args.cmdline);
    BitAndOne(HeaderRecord(kernel, args.cmdline)[HDR_LOADFLAGS], 8);
    StagedHeader(kernel, args, |initrd|, fb, RsdpOf(args.configTables).value,
                 Translate(args.efiMemMap, args.efiMemMapSize, args.efiMemDescSize).value);
  }

  /** The ramdisk members the kernel receives hold the ramdisk's place and
      length when there is a ramdisk, and the image's own bytes when there is
      none. */
  lemma JumpRamdisk(kernel: seq<u8>, initrd: seq<u8>, args: BootArgs, fb: Framebuffer)
    requires ImageReadable(kernel) && |initrd| < TWO_32
    requires MapReadable(args.efiMemMap, args.efiMemMapSize, args.efiMemDescSize)
    requires Boot(kernel, initrd, args, fb).Jump?
    ensures var bp := Boot(kernel, initrd, args, fb).bootParams;
      |bp| == BOOT_PARAMS_SIZE
      && (|initrd| != 0 ==> ReadLE(bp, HDR_RAMDISK_IMAGE, 4) == RamdiskLoadAddr(args)
                            && ReadLE(bp, HDR_RAMDISK_SIZE, 4) == |initrd|)
      && (|initrd| == 0 ==> forall i :: HDR_RAMDISK_IMAGE <= i < HDR_RAMDISK_SIZE + 4 ==> bp[i] == TransplantedByte(kernel, i))
  {
    JumpStages(kernel, initrd, args, fb);
    HeaderRecordRamdisk(kernel, args.cmdline);
    StagedHeader(kernel, args, |initrd|, fb, RsdpOf(args.configTables).value,
                 Translate(args.efiMemMap, args.efiMemMapSize, args.efiMemDescSize).value);
  }

  /** The header record's ramdisk members are the image's bytes. */
  lemma HeaderRecordRamdisk(kernel: seq<u8>, cmdline: u32)
    requires ImageReadable(kernel) && SignatureOk(kernel)
    ensures |HeaderRecord(kernel, cmdline)| == BOOT_PARAMS_SIZE
    ensures forall i :: HDR_RAMDISK_IMAGE <= i < HDR_RAMDISK_SIZE + 4 ==> HeaderRecord(kernel, cmdline)[i] == TransplantedByte(kernel, i)
  {
    HeaderRecordContents(kernel, cmdline);
  }

  /** Between screen_info and the setup header the kernel receives the ACPI
      root pointer, the region count, and 0 in every other byte, the sentinel
      among them. */
  lemma JumpReserved(kernel: seq<u8>, initrd: seq<u8>, args: BootArgs, fb: Framebuffer)
    requires ImageReadable(kernel) && |initrd| < TWO_32
    requires MapReadable(args.efiMemMap, args.efiMemMapSize, args.efiMemDescSize)
    requires Boot(kernel, initrd, args, fb).Jump?
    ensures RsdpOf(args.configTables).Ok?
    ensures var bp := Boot(kernel, initrd, args, fb).bootParams;
      |bp| == BOOT_PARAMS_SIZE
      && ReadLE(bp, ZP_ACPI_RSDP_ADDR, 8) == RsdpOf(args.configTables).value
      && bp[ZP_SENTINEL] == 0
      && forall i :: (SCREEN_INFO_SIZE <= i < HDR && !(ZP_ACPI_RSDP_ADDR <= i < ZP_ACPI_RSDP_ADDR + 8)
                      && i != ZP_E820_ENTRIES) ==> bp[i] == 0
  {
    JumpStages(kernel, initrd, args, fb);
    StagedReserved(kernel, args, |initrd|, fb, RsdpOf(args.configTables).value,
                   Translate(args.efiMemMap, args.efiMemMapSize, args.efiMemDescSize).value);
  }

  /** Below the setup header the header record is all 0. */
  lemma HeaderRecordZeroBelow(kernel: seq<u8>, cmdline: u32)
    requires ImageReadable(kernel) && SignatureOk(kernel)
    ensures |HeaderRecord(kernel, cmdline)| == BOOT_PARAMS_SIZE
    ensures forall i :: 0 <= i < HDR ==> HeaderRecord(kernel, cmdline)[i] == 0
  {
    HeaderRecordContents(kernel, cmdline);
  }

  /** The zeropage built by every stage in turn, from the header record to the
      region table. */
  function Staged(kernel: seq<u8>, args: BootArgs, initrdLen: nat, fb: Framebuffer, rsdp: u32, entries: seq<E820Entry>): seq<u8>
    requires ImageReadable(kernel) && SignatureOk(kernel)
    requires |entries| <= E820_MAX_ENTRIES_ZEROPAGE && initrdLen < TWO_32
  {
    WithE820(WithRsdp(WithVideo(WithRamdisk(HeaderRecord(kernel, args.cmdline), args, initrdLen), fb), rsdp), entries)
  }

  /** What the stages leave in the setup header. */
  lemma StagedHeader(kernel: seq<u8>, args: BootArgs, initrdLen: nat, fb: Framebuffer, rsdp: u32, entries: seq<E820Entry>)
    requires ImageReadable(kernel) && SignatureOk(kernel)
    requires |entries| <= E820_MAX_ENTRIES_ZEROPAGE && initrdLen < TWO_32
    ensures var bp := Staged(kernel, args, initrdLen, fb, rsdp, entries);
      var h := HeaderRecord(kernel, args.cmdline);
      |bp| == BOOT_PARAMS_SIZE
      && ReadLE(bp, HDR_CMD_LINE_PTR, 4) == ReadLE(h, HDR_CMD_LINE_PTR, 4)
      && ReadLE(bp, HDR_VID_MODE, 2) == ReadLE(h, HDR_VID_MODE, 2)
      && bp[HDR_TYPE_OF_LOADER] == h[HDR_TYPE_OF_LOADER]
      && bp[HDR_LOADFLAGS] == h[HDR_LOADFLAGS]
      && (initrdLen != 0 ==> ReadLE(bp, HDR_RAMDISK_IMAGE, 4) == RamdiskLoadAddr(args)
                             && ReadLE(bp, HDR_RAMDISK_SIZE, 4) == initrdLen)
      && (initrdLen == 0 ==> forall i :: HDR_RAMDISK_IMAGE <= i < HDR_RAMDISK_SIZE + 4 ==> bp[i] == h[i])
  {
    var h := HeaderRecord(kernel, args.cmdline);
    var r1 := WithRamdisk(h, args, initrdLen);
    var bp := Staged(kernel, args, initrdLen, fb, rsdp, entries);
    PastScreenInfo(kernel, args, initrdLen, fb, rsdp, entries);
    WithRamdiskContents(h, args, initrdLen);
    ReadLEFrame(bp, h, HDR_CMD_LINE_PTR, 4);
    ReadLEFrame(bp, h, HDR_VID_MODE, 2);
    if initrdLen != 0 {
      ReadLEFrame(bp, r1, HDR_RAMDISK_IMAGE, 4);
      ReadLEFrame(bp, r1, HDR_RAMDISK_SIZE, 4);
    }
  }

  /** Between screen_info and the region table the stages after the ramdisk
      stage change only acpi_rsdp_addr, which they set, and e820_entries. */
  lemma PastScreenInfo(kernel: seq<u8>, args: BootArgs, initrdLen: nat, fb: Framebuffer, rsdp: u32, entries: seq<E820Entry>)
    requires ImageReadable(kernel) && SignatureOk(kernel)
    requires |entries| <= E820_MAX_ENTRIES_ZEROPAGE && initrdLen < TWO_32
    ensures var bp := Staged(kernel, args, initrdLen, fb, rsdp, entries);
      var r1 := WithRamdisk(HeaderRecord(kernel, args.cmdline), args, initrdLen);
      |bp| == BOOT_PARAMS_SIZE == |r1|
      && ReadLE(bp, ZP_ACPI_RSDP_ADDR, 8) == rsdp
      && forall i :: (SCREEN_INFO_SIZE <= i < ZP_E820_TABLE && !(ZP_ACPI_RSDP_ADDR <= i < ZP_ACPI_RSDP_ADDR + 8)
                      && i != ZP_E820_ENTRIES) ==> bp[i] == r1[i]
  {
    var h := HeaderRecord(kernel, args.cmdline);
    HeaderRecordZeroBelow(kernel, args.cmdline);
    var r1 := WithRamdisk(h, args, initrdLen);
    WithRamdiskContents(h, args, initrdLen);
    var r2 := WithVideo(r1, fb);
    WithVideoFrame(r1, fb);
    var r3 := WithRsdp(r2, rsdp);
    WithRsdpContents(r2, rsdp);
    var bp := WithE820(r3, entries);
    WithE820Contents(r3, entries);
    ReadLEFrame(bp, r3, ZP_ACPI_RSDP_ADDR, 8);
  }

  /** Between screen_info and the setup header the stages leave only the ACPI
      root pointer and the region count; every other byte there is 0. */
  lemma StagedReserved(kernel: seq<u8>, args: BootArgs, initrdLen: nat, fb: Framebuffer, rsdp: u32, entries: seq<E820Entry>)
    requires ImageReadable(kernel) && SignatureOk(kernel)
    requires |entries| <= E820_MAX_ENTRIES_ZEROPAGE && initrdLen < TWO_32
    ensures var bp := Staged(kernel, args, initrdLen, fb, rsdp, entries);
      |bp| == BOOT_PARAMS_SIZE
      && ReadLE(bp, ZP_ACPI_RSDP_ADDR, 8) == rsdp
      && bp[ZP_SENTINEL] == 0
      && forall i :: (SCREEN_INFO_SIZE <= i < HDR && !(ZP_ACPI_RSDP_ADDR <= i < ZP_ACPI_RSDP_ADDR + 8)
                      && i != ZP_E820_ENTRIES) ==> bp[i] == 0
  {
    var h := HeaderRecord(kernel, args.cmdline);
    HeaderRecordZeroBelow(kernel, args.cmdline);
    WithRamdiskContents(h, args, initrdLen);
    PastScreenInfo(kernel, args, initrdLen, fb, rsdp, entries);
  }

  /** The zeropage the kernel receives describes the framebuffer in
      screen_info. */
  lemma JumpScreenInfo(kernel: seq<u8>, initrd: seq<u8>, args: BootArgs, fb: Framebuffer)
    requires ImageReadable(kernel) && |initrd| < TWO_32
    requires MapReadable(args.efiMemMap, args.efiMemMapSize, args.efiMemDescSize)
    requires Boot(kernel, initrd, args, fb).Jump?
    ensures var bp := Boot(kernel, initrd, args, fb).bootParams;
      |bp| == BOOT_PARAMS_SIZE
      && ReadLE(bp, ZP_CAPABILITIES, 4) == VIDEO_CAPABILITY_SKIP_QUIRKS
      && bp[ZP_FLAGS] == VIDEO_FLAGS_NOCURSOR
      && bp[ZP_ORIG_VIDEO_IS_VGA] == VIDEO_TYPE_EFI
      && ReadLE(bp, ZP_LFB_BASE, 4) == Wrap32(fb.base) && ReadLE(bp, ZP_LFB_SIZE, 4) == Wrap32(fb.size)
      && ReadLE(bp, ZP_LFB_WIDTH, 2) == Wrap16(fb.width) && ReadLE(bp, ZP_LFB_HEIGHT, 2) == Wrap16(fb.height)
      && ReadLE(bp, ZP_LFB_DEPTH, 2) == Wrap16(fb.depth) && ReadLE(bp, ZP_LFB_LINELENGTH, 2) == Wrap16(fb.pitch)
      && bp[ZP_RED_SIZE] == Wrap8(fb.redSize) && bp[ZP_RED_POS] == Wrap8(fb.redShift)
      && bp[ZP_GREEN_SIZE] == Wrap8(fb.greenSize) && bp[ZP_GREEN_POS] == Wrap8(fb.greenShift)
      && bp[ZP_BLUE_SIZE] == Wrap8(fb.blueSize) && bp[ZP_BLUE_POS] == Wrap8(fb.blueShift)
      && bp[ZP_RSVD_SIZE] == Wrap8(fb.reservedSize) && bp[ZP_RSVD_POS] == Wrap8(fb.reservedShift)
  {
    JumpStages(kernel, initrd, args, fb);
    StagedScreenInfo(kernel, args, |initrd|, fb, RsdpOf(args.configTables).value,
                     Translate(args.efiMemMap, args.efiMemMapSize, args.efiMemDescSize).value);
    ScreenInfoFields(Boot(kernel, initrd, args, fb).bootParams,
                     WithRamdisk(HeaderRecord(kernel, args.cmdline), args, |initrd|), fb);
  }

  /** The later stages leave screen_info as the video stage made it. */
  lemma StagedScreenInfo(kernel: seq<u8>, args: BootArgs, initrdLen: nat, fb: Framebuffer, rsdp: u32, entries: seq<E820Entry>)
    requires ImageReadable(kernel) && SignatureOk(kernel)
    requires |entries| <= E820_MAX_ENTRIES_ZEROPAGE && initrdLen < TWO_32
    ensures |Staged(kernel, args, initrdLen, fb, rsdp, entries)| == BOOT_PARAMS_SIZE
    ensures forall i :: 0 <= i < SCREEN_INFO_SIZE ==>
      Staged(kernel, args, initrdLen, fb, rsdp, entries)[i]
        == WithVideo(WithRamdisk(HeaderRecord(kernel, args.cmdline), args, initrdLen), fb)[i]
  {
    var h := HeaderRecord(kernel, args.cmdline);
    HeaderRecordContents(kernel, args.cmdline);
    var r1 := WithRamdisk(h, args, initrdLen);
    WithRamdiskContents(h, args, initrdLen);
    var r2 := WithVideo(r1, fb);
    WithVideoFrame(r1, fb);
    var r3 := WithRsdp(r2, rsdp);
    WithRsdpContents(r2, rsdp);
    WithE820Contents(r3, entries);
  }

  /** The zeropage the kernel receives holds the translated region table: its
      length in e820_entries and entry k, in the 20-byte layout, in slot k. */
  lemma JumpE820(kernel: seq<u8>, initrd: seq<u8>, args: BootArgs, fb: Framebuffer)
    requires ImageReadable(kernel) && |initrd| < TWO_32
    requires MapReadable(args.efiMemMap, args.efiMemMapSize, args.efiMemDescSize)
    requires Boot(kernel, initrd, args, fb).Jump?
    ensures Translate(args.efiMemMap, args.efiMemMapSize, args.efiMemDescSize).Ok?
    ensures var bp := Boot(kernel, initrd, args, fb).bootParams;
      var entries := Translate(args.efiMemMap, args.efiMemMapSize, args.efiMemDescSize).value;
      |bp| == BOOT_PARAMS_SIZE && |entries| <= E820_MAX_ENTRIES_ZEROPAGE
      && bp[ZP_E820_ENTRIES] == |entries|
      && forall k :: 0 <= k < |entries| ==>
           DecodeEntry(bp[ZP_E820_TABLE + 20 * k .. ZP_E820_TABLE + 20 * (k + 1)]) == entries[k]
  {
    JumpStages(kernel, initrd, args, fb);
    var h := HeaderRecord(kernel, args.cmdline);
    HeaderRecordContents(kernel, args.cmdline);
    var r1 := WithRamdisk(h, args, |initrd|);
    WithRamdiskContents(h, args, |initrd|);
    var r2 := WithVideo(r1, fb);
    WithVideoFrame(r1, fb);
    var r3 := WithRsdp(r2, RsdpOf(args.configTables).value);
    WithRsdpContents(r2, RsdpOf(args.configTables).value);
    WithE820Contents(r3, Translate(args.efiMemMap, args.efiMemMapSize, args.efiMemDescSize).value);
  }

  // ---------------------------------------------------------------------------
  // load_linux, section by section

  /** Zeroes the zeropage, copies the image's setup header into it and sets
      cmd_line_ptr, vid_mode ("normal") and type_of_loader ("unassigned"). */
  method TransplantSetupHeader(bp: array<u8>, kernel: seq<u8>, cmdline: u32)
    requires bp.Length == BOOT_PARAMS_SIZE
    requires ImageReadable(kernel) && SignatureOk(kernel)
    modifies bp
    ensures bp[..] == HeaderRecord(kernel, cmdline)
  {
    ZeroFill(bp);
    var setupHeaderEnd := kernel[HDR_JUMP_OFFSET_BYTE] as nat + 0x202;
    Store(bp, HDR, kernel[HDR..setupHeaderEnd]);
    StoreLE(bp, HDR_CMD_LINE_PTR, 4, cmdline);
    StoreLE(bp, HDR_VID_MODE, 2, 0xffff);
    StoreLE(bp, HDR_TYPE_OF_LOADER, 1, 0xff);
  }

  /** With a ramdisk, copies it right after what the firmware loaded and
      records its address and length in the setup header. */
  method ConfigureInitramfs(bp: array<u8>, args: BootArgs, initrd: seq<u8>) returns (writes: seq<MemWrite>)
    requires bp.Length == BOOT_PARAMS_SIZE && |initrd| < TWO_32
    modifies bp
    ensures bp[..] == WithRamdisk(old(bp[..]), args, |initrd|)
    ensures writes == RamdiskWrites(args, initrd)
  {
    writes := [];
    if |initrd| != 0 {
      var ramdiskLoadAddr := Wrap32(args.kernelBase + args.kernelSize);
      writes := [WriteBytes(ramdiskLoadAddr, initrd)];
      StoreLE(bp, HDR_RAMDISK_IMAGE, 4, ramdiskLoadAddr);
      StoreLE(bp, HDR_RAMDISK_SIZE, 4, |initrd|);
    }
  }

  /** Describes the firmware framebuffer in screen_info. */
  method ConfigureVideo(bp: array<u8>, fb: Framebuffer)
    requires bp.Length == BOOT_PARAMS_SIZE
    modifies bp
    ensures bp[..] == WithVideo(old(bp[..]), fb)
  {
    StoreLE(bp, ZP_CAPABILITIES, 4, VIDEO_CAPABILITY_SKIP_QUIRKS);
    StoreLE(bp, ZP_FLAGS, 1, VIDEO_FLAGS_NOCURSOR);
    StoreLE(bp, ZP_LFB_BASE, 4, Wrap32(fb.base));
    StoreLE(bp, ZP_LFB_SIZE, 4, Wrap32(fb.size));
    StoreLE(bp, ZP_LFB_WIDTH, 2, Wrap16(fb.width));
    StoreLE(bp, ZP_LFB_HEIGHT, 2, Wrap16(fb.height));
    StoreLE(bp, ZP_LFB_DEPTH, 2, Wrap16(fb.depth));
    StoreLE(bp, ZP_LFB_LINELENGTH, 2, Wrap16(fb.pitch));
    StoreLE(bp, ZP_RED_SIZE, 1, Wrap8(fb.redSize));
    StoreLE(bp, ZP_RED_POS, 1, Wrap8(fb.redShift));
    StoreLE(bp, ZP_GREEN_SIZE, 1, Wrap8(fb.greenSize));
    StoreLE(bp, ZP_GREEN_POS, 1, Wrap8(fb.greenShift));
    StoreLE(bp, ZP_BLUE_SIZE, 1, Wrap8(fb.blueSize));
    StoreLE(bp, ZP_BLUE_POS, 1, Wrap8(fb.blueShift));
    StoreLE(bp, ZP_RSVD_SIZE, 1, Wrap8(fb.reservedSize));
    StoreLE(bp, ZP_RSVD_POS, 1, Wrap8(fb.reservedShift));
    StoreLE(bp, ZP_ORIG_VIDEO_IS_VGA, 1, VIDEO_TYPE_EFI);
  }

  /** Translates the firmware memory map into e820_table and stores the count
      in e820_entries. */
  method SetupE820(bp: array<u8>, args: BootArgs) returns (r: Result<u8>)
    requires bp.Length == BOOT_PARAMS_SIZE
    requires MapReadable(args.efiMemMap, args.efiMemMapSize, args.efiMemDescSize)
    modifies bp
    ensures match Translate(args.efiMemMap, args.efiMemMapSize, args.efiMemDescSize)
            case Fail(f) => r == Fail(f)
            case Ok(entries) => r == Ok(|entries|) && bp[..] == WithE820(old(bp[..]), entries)
  {
    ghost var before := bp[..];
    var e820Table := new E820Entry[E820_MAX_ENTRIES_ZEROPAGE](_ => E820Entry(0, 0, 0));
    r := EfiToE820Map(args.efiMemMap, args.efiMemMapSize, args.efiMemDescSize, e820Table);
    assert bp[..] == before;
    if r.Ok? {
      var entries := e820Table[..r.value];
      assert Translate(args.efiMemMap, args.efiMemMapSize, args.efiMemDescSize) == Ok(entries);
      var table := EncodeTable(entries);
      assert ZP_E820_TABLE + |table| <= BOOT_PARAMS_SIZE by {
        assert |entries| <= E820_MAX_ENTRIES_ZEROPAGE;
      }
      StoreLE(bp, ZP_E820_ENTRIES, 1, |entries|);
      Store(bp, ZP_E820_TABLE, table);
    }
  }

  /** load_linux: every step in the order the source takes it, ending in fail()
      or in the jump to the kernel. */
  method LoadLinux(kernel: seq<u8>, initrd: seq<u8>, args: BootArgs, fb: Framebuffer) returns (o: Outcome)
    requires ImageReadable(kernel) && |initrd| < TWO_32
    requires MapReadable(args.efiMemMap, args.efiMemMapSize, args.efiMemDescSize)
    ensures o == Boot(kernel, initrd, args, fb)
  {
    if ReadLE(kernel, HDR_HEADER, 4) != HDRS_MAGIC {
      return Fatal(InvalidSignature, []);
    }
    var setupBytes := (kernel[HDR_SETUP_SECTS] as nat + 1) * 512;
    var realKernelLen := Wrap32(|kernel| - setupBytes);
    var kernelLoadAddr := RoundUp(Wrap32(args.kernelBase + args.kernelSize + |initrd|), LINUX_KERNEL_LOAD_INCREMENT);
    var writes := [WriteBytes(kernelLoadAddr, kernel[setupBytes..setupBytes + realKernelLen])];
    assert kernelLoadAddr == KernelLoadAddr(args, |initrd|);
    assert writes == [KernelWrite(kernel, kernelLoadAddr)];

    var bp := new u8[BOOT_PARAMS_SIZE];
    TransplantSetupHeader(bp, kernel, args.cmdline);
    if BitAnd(bp[HDR_LOADFLAGS], LOADED_HIGH, 8) == 0 {
      return Fatal(NotLoadedHigh, writes);
    }
    BootAfterHeader(kernel, initrd, args, fb);
    o := HandOff(bp, kernelLoadAddr, writes, initrd, args, fb);
  }

  /** The rest of load_linux once the header checks have passed: initramfs,
      video, ACPI, SMBIOS and the region table, then the jump. */
  method HandOff(bp: array<u8>, kernelLoadAddr: u32, writes: seq<MemWrite>, initrd: seq<u8>,
                 args: BootArgs, fb: Framebuffer) returns (o: Outcome)
    requires bp.Length == BOOT_PARAMS_SIZE && |initrd| < TWO_32
    requires MapReadable(args.efiMemMap, args.efiMemMapSize, args.efiMemDescSize)
    modifies bp
    ensures o == AfterVideo(WithVideo(WithRamdisk(old(bp[..]), args, |initrd|), fb),
                            writes + RamdiskWrites(args, initrd), kernelLoadAddr, args)
  {
    var ramdiskWrites := ConfigureInitramfs(bp, args, initrd);
    var writes := writes + ramdiskWrites;
    ConfigureVideo(bp, fb);

    var rsdp := GetRsdpFromSystbl(args.configTables);
    if rsdp.Fail? {
      return Fatal(rsdp.failure, writes);
    }
    StoreLE(bp, ZP_ACPI_RSDP_ADDR, 8, rsdp.value);

    var smbiosWrites := CopySmbiosToLowmem(args.configTables);
    writes := writes + smbiosWrites;

    var e820Entries := SetupE820(bp, args);
    if e820Entries.Fail? {
      return Fatal(e820Entries.failure, writes);
    }
    return Jump(kernelLoadAddr, bp[..], writes);
  }
}
