/** The "zeropage" of the x86 Linux boot protocol as include/linux.h declares it
    (struct boot_params and the structures inside it; see Linux's
    Documentation/arch/x86/zero-page.rst and the "Real-Mode Kernel Header" of
    Documentation/arch/x86/boot.rst). Every member is placed the way the
    compiler places it, right after the previous one, and the lemmas check the
    offsets written in the header's comments against those placements. */
module ZeroPage {
  import opened Machine
  import opened E820Types

  // ---------------------------------------------------------------------------
  // struct screen_info (packed)

  const SI_ORIG_X: Field := Field(0, 1)
  const SI_ORIG_Y: Field := After(SI_ORIG_X, 1)
  const SI_EXT_MEM_K: Field := After(SI_ORIG_Y, 2)
  const SI_ORIG_VIDEO_PAGE: Field := After(SI_EXT_MEM_K, 2)
  const SI_ORIG_VIDEO_MODE: Field := After(SI_ORIG_VIDEO_PAGE, 1)
  const SI_ORIG_VIDEO_COLS: Field := After(SI_ORIG_VIDEO_MODE, 1)
  const SI_FLAGS: Field := After(SI_ORIG_VIDEO_COLS, 1)
  const SI_UNUSED2: Field := After(SI_FLAGS, 1)
  const SI_ORIG_VIDEO_EGA_BX: Field := After(SI_UNUSED2, 2)
  const SI_UNUSED3: Field := After(SI_ORIG_VIDEO_EGA_BX, 2)
  const SI_ORIG_VIDEO_LINES: Field := After(SI_UNUSED3, 1)
  const SI_ORIG_VIDEO_IS_VGA: Field := After(SI_ORIG_VIDEO_LINES, 1)
  const SI_ORIG_VIDEO_POINTS: Field := After(SI_ORIG_VIDEO_IS_VGA, 2)
  const SI_LFB_WIDTH: Field := After(SI_ORIG_VIDEO_POINTS, 2)
  const SI_LFB_HEIGHT: Field := After(SI_LFB_WIDTH, 2)
  const SI_LFB_DEPTH: Field := After(SI_LFB_HEIGHT, 2)
  const SI_LFB_BASE: Field := After(SI_LFB_DEPTH, 4)
  const SI_LFB_SIZE: Field := After(SI_LFB_BASE, 4)
  const SI_CL_MAGIC: Field := After(SI_LFB_SIZE, 2)
  const SI_CL_OFFSET: Field := After(SI_CL_MAGIC, 2)
  const SI_LFB_LINELENGTH: Field := After(SI_CL_OFFSET, 2)
  const SI_RED_SIZE: Field := After(SI_LFB_LINELENGTH, 1)
  const SI_RED_POS: Field := After(SI_RED_SIZE, 1)
  const SI_GREEN_SIZE: Field := After(SI_RED_POS, 1)
  const SI_GREEN_POS: Field := After(SI_GREEN_SIZE, 1)
  const SI_BLUE_SIZE: Field := After(SI_GREEN_POS, 1)
  const SI_BLUE_POS: Field := After(SI_BLUE_SIZE, 1)
  const SI_RSVD_SIZE: Field := After(SI_BLUE_POS, 1)
  const SI_RSVD_POS: Field := After(SI_RSVD_SIZE, 1)
  const SI_VESAPM_SEG: Field := After(SI_RSVD_POS, 2)
  const SI_VESAPM_OFF: Field := After(SI_VESAPM_SEG, 2)
  const SI_PAGES: Field := After(SI_VESAPM_OFF, 2)
  const SI_VESA_ATTRIBUTES: Field := After(SI_PAGES, 2)
  const SI_CAPABILITIES: Field := After(SI_VESA_ATTRIBUTES, 4)
  const SI_EXT_LFB_BASE: Field := After(SI_CAPABILITIES, 4)
  const SI_RESERVED: Field := After(SI_EXT_LFB_BASE, 2)
  const SCREEN_INFO_SIZE: nat := 0x40

  /** The commented offsets of screen_info agree with its member sizes, and
      _reserved[2] at 0x3e makes the structure 0x40 bytes. */
  lemma ScreenInfoLayout()
    ensures SI_ORIG_Y.offset == 0x01 && SI_EXT_MEM_K.offset == 0x02
    ensures SI_ORIG_VIDEO_PAGE.offset == 0x04 && SI_ORIG_VIDEO_MODE.offset == 0x06
    ensures SI_ORIG_VIDEO_COLS.offset == 0x07 && SI_FLAGS.offset == 0x08
    ensures SI_UNUSED2.offset == 0x09 && SI_ORIG_VIDEO_EGA_BX.offset == 0x0a
    ensures SI_UNUSED3.offset == 0x0c && SI_ORIG_VIDEO_LINES.offset == 0x0e
    ensures SI_ORIG_VIDEO_IS_VGA.offset == 0x0f && SI_ORIG_VIDEO_POINTS.offset == 0x10
    ensures SI_LFB_WIDTH.offset == 0x12 && SI_LFB_HEIGHT.offset == 0x14
    ensures SI_LFB_DEPTH.offset == 0x16 && SI_LFB_BASE.offset == 0x18
    ensures SI_LFB_SIZE.offset == 0x1c && SI_CL_MAGIC.offset == 0x20
    ensures SI_LFB_LINELENGTH.offset == 0x24 && SI_RED_SIZE.offset == 0x26
    ensures SI_RED_POS.offset == 0x27 && SI_GREEN_SIZE.offset == 0x28
    ensures SI_GREEN_POS.offset == 0x29 && SI_BLUE_SIZE.offset == 0x2a
    ensures SI_BLUE_POS.offset == 0x2b && SI_RSVD_SIZE.offset == 0x2c
    ensures SI_RSVD_POS.offset == 0x2d && SI_VESAPM_SEG.offset == 0x2e
    ensures SI_VESAPM_OFF.offset == 0x30 && SI_PAGES.offset == 0x32
    ensures SI_VESA_ATTRIBUTES.offset == 0x34 && SI_CAPABILITIES.offset == 0x36
    ensures SI_EXT_LFB_BASE.offset == 0x3a && SI_RESERVED.offset == 0x3e
    ensures SI_RESERVED.End() == SCREEN_INFO_SIZE
  {
  }

  const VIDEO_TYPE_EFI: nat := 0x70
  /** 1 << 0 */
  const VIDEO_FLAGS_NOCURSOR: nat := 1
  /** 1 << 0 */
  const VIDEO_CAPABILITY_SKIP_QUIRKS: nat := 1

  // ---------------------------------------------------------------------------
  // Legacy structures: only their sizes matter here

  // struct apm_bios_info (not packed)
  const APM_VERSION: Field := Field(0, 2)
  const APM_CSEG: Field := After(APM_VERSION, 2)
  const APM_OFFSET: Field := After(APM_CSEG, 4)
  const APM_CSEG_16: Field := After(APM_OFFSET, 2)
  const APM_DSEG: Field := After(APM_CSEG_16, 2)
  const APM_FLAGS: Field := After(APM_DSEG, 2)
  const APM_CSEG_LEN: Field := After(APM_FLAGS, 2)
  const APM_CSEG_16_LEN: Field := After(APM_CSEG_LEN, 2)
  const APM_DSEG_LEN: Field := After(APM_CSEG_16_LEN, 2)
  const APM_BIOS_INFO_SIZE: nat := APM_DSEG_LEN.End()

  /** apm_bios_info is not packed, but every member is naturally aligned and the
      total is a multiple of its widest member (4), so there is no padding: 20 bytes. */
  lemma ApmBiosInfoSize()
    ensures NaturallyAligned(APM_VERSION) && NaturallyAligned(APM_CSEG) && NaturallyAligned(APM_OFFSET)
    ensures NaturallyAligned(APM_CSEG_16) && NaturallyAligned(APM_DSEG) && NaturallyAligned(APM_FLAGS)
    ensures NaturallyAligned(APM_CSEG_LEN) && NaturallyAligned(APM_CSEG_16_LEN) && NaturallyAligned(APM_DSEG_LEN)
    ensures APM_BIOS_INFO_SIZE == 20 && APM_BIOS_INFO_SIZE % 4 == 0
  {
  }

  function Max(a: nat, b: nat): nat
  {
    if a < b then b else a
  }

  /** edd_device_params.interface_path: the largest of its variants isa (2+2+4),
      pci (1+1+1+1+4), and ibnd, xprs, htpt, unknown (8 each). */
  const INTERFACE_PATH_SIZE: nat := Max(Max(2 + 2 + 4, 1 + 1 + 1 + 1 + 4), 8)
  /** edd_device_params.device_path: the largest of its variants ata, atapi,
      scsi, usb, i1394, fibre, i2o, raid, sata and unknown. */
  const DEVICE_PATH_SIZE: nat :=
    Max(Max(Max(1 + 1 + 2 + 4 + 8, 1 + 1 + 1 + 1 + 4 + 8), Max(2 + 8 + 2 + 4, 8 + 8)),
        Max(4 + 4 + 8, 1 + 1 + 2 + 4 + 8))

  // struct edd_device_params (packed)
  const EDP_LENGTH: Field := Field(0, 2)
  const EDP_INFO_FLAGS: Field := After(EDP_LENGTH, 2)
  const EDP_NUM_DEFAULT_CYLINDERS: Field := After(EDP_INFO_FLAGS, 4)
  const EDP_NUM_DEFAULT_HEADS: Field := After(EDP_NUM_DEFAULT_CYLINDERS, 4)
  const EDP_SECTORS_PER_TRACK: Field := After(EDP_NUM_DEFAULT_HEADS, 4)
  const EDP_NUMBER_OF_SECTORS: Field := After(EDP_SECTORS_PER_TRACK, 8)
  const EDP_BYTES_PER_SECTOR: Field := After(EDP_NUMBER_OF_SECTORS, 2)
  const EDP_DPTE_PTR: Field := After(EDP_BYTES_PER_SECTOR, 4)
  const EDP_KEY: Field := After(EDP_DPTE_PTR, 2)
  const EDP_DEVICE_PATH_INFO_LENGTH: Field := After(EDP_KEY, 1)
  const EDP_RESERVED2: Field := After(EDP_DEVICE_PATH_INFO_LENGTH, 1)
  const EDP_RESERVED3: Field := After(EDP_RESERVED2, 2)
  const EDP_HOST_BUS_TYPE: Field := After(EDP_RESERVED3, 4)
  const EDP_INTERFACE_TYPE: Field := After(EDP_HOST_BUS_TYPE, 8)
  const EDP_INTERFACE_PATH: Field := After(EDP_INTERFACE_TYPE, INTERFACE_PATH_SIZE)
  const EDP_DEVICE_PATH: Field := After(EDP_INTERFACE_PATH, DEVICE_PATH_SIZE)
  const EDP_RESERVED4: Field := After(EDP_DEVICE_PATH, 1)
  const EDP_CHECKSUM: Field := After(EDP_RESERVED4, 1)
  const EDD_DEVICE_PARAMS_SIZE: nat := EDP_CHECKSUM.End()

  // struct edd_info (packed)
  const EDD_DEVICE: Field := Field(0, 1)
  const EDD_VERSION: Field := After(EDD_DEVICE, 1)
  const EDD_INTERFACE_SUPPORT: Field := After(EDD_VERSION, 2)
  const EDD_LEGACY_MAX_CYLINDER: Field := After(EDD_INTERFACE_SUPPORT, 2)
  const EDD_LEGACY_MAX_HEAD: Field := After(EDD_LEGACY_MAX_CYLINDER, 1)
  const EDD_LEGACY_SECTORS_PER_TRACK: Field := After(EDD_LEGACY_MAX_HEAD, 1)
  const EDD_PARAMS: Field := After(EDD_LEGACY_SECTORS_PER_TRACK, EDD_DEVICE_PARAMS_SIZE)
  const EDD_INFO_SIZE: nat := EDD_PARAMS.End()

  /** The unions take 8 and 16 bytes, edd_device_params 74 and edd_info 82. */
  lemma EddInfoSize()
    ensures INTERFACE_PATH_SIZE == 8 && DEVICE_PATH_SIZE == 16
    ensures EDD_DEVICE_PARAMS_SIZE == 74 && EDD_INFO_SIZE == 82
  {
  }

  const IST_INFO_SIZE: nat := 4 * 4
  const SYS_DESC_TABLE_SIZE: nat := 2 + 14
  const OLPC_OFW_HEADER_SIZE: nat := 4 * 4
  const EDID_INFO_SIZE: nat := 128
  const EFI_INFO_SIZE: nat := 8 * 4
  const EDD_MBR_SIG_MAX: nat := 16
  const EDDMAXNR: nat := 6

  // ---------------------------------------------------------------------------
  // struct setup_header (packed), offsets relative to the structure

  const SH_SETUP_SECTS: Field := Field(0, 1)
  const SH_ROOT_FLAGS: Field := After(SH_SETUP_SECTS, 2)
  const SH_SYSSIZE: Field := After(SH_ROOT_FLAGS, 4)
  const SH_RAM_SIZE: Field := After(SH_SYSSIZE, 2)
  const SH_VID_MODE: Field := After(SH_RAM_SIZE, 2)
  const SH_ROOT_DEV: Field := After(SH_VID_MODE, 2)
  const SH_BOOT_FLAG: Field := After(SH_ROOT_DEV, 2)
  const SH_JUMP: Field := After(SH_BOOT_FLAG, 2)
  const SH_HEADER: Field := After(SH_JUMP, 4)
  const SH_VERSION: Field := After(SH_HEADER, 2)
  const SH_REALMODE_SWTCH: Field := After(SH_VERSION, 4)
  const SH_START_SYS_SEG: Field := After(SH_REALMODE_SWTCH, 2)
  const SH_KERNEL_VERSION: Field := After(SH_START_SYS_SEG, 2)
  const SH_TYPE_OF_LOADER: Field := After(SH_KERNEL_VERSION, 1)
  const SH_LOADFLAGS: Field := After(SH_TYPE_OF_LOADER, 1)
  const SH_SETUP_MOVE_SIZE: Field := After(SH_LOADFLAGS, 2)
  const SH_CODE32_START: Field := After(SH_SETUP_MOVE_SIZE, 4)
  const SH_RAMDISK_IMAGE: Field := After(SH_CODE32_START, 4)
  const SH_RAMDISK_SIZE: Field := After(SH_RAMDISK_IMAGE, 4)
  const SH_BOOTSECT_KLUDGE: Field := After(SH_RAMDISK_SIZE, 4)
  const SH_HEAP_END_PTR: Field := After(SH_BOOTSECT_KLUDGE, 2)
  const SH_EXT_LOADER_VER: Field := After(SH_HEAP_END_PTR, 1)
  const SH_EXT_LOADER_TYPE: Field := After(SH_EXT_LOADER_VER, 1)
  const SH_CMD_LINE_PTR: Field := After(SH_EXT_LOADER_TYPE, 4)
  const SH_INITRD_ADDR_MAX: Field := After(SH_CMD_LINE_PTR, 4)
  const SH_KERNEL_ALIGNMENT: Field := After(SH_INITRD_ADDR_MAX, 4)
  const SH_RELOCATABLE_KERNEL: Field := After(SH_KERNEL_ALIGNMENT, 1)
  const SH_MIN_ALIGNMENT: Field := After(SH_RELOCATABLE_KERNEL, 1)
  const SH_XLOADFLAGS: Field := After(SH_MIN_ALIGNMENT, 2)
  const SH_CMDLINE_SIZE: Field := After(SH_XLOADFLAGS, 4)
  const SH_HARDWARE_SUBARCH: Field := After(SH_CMDLINE_SIZE, 4)
  const SH_HARDWARE_SUBARCH_DATA: Field := After(SH_HARDWARE_SUBARCH, 8)
  const SH_PAYLOAD_OFFSET: Field := After(SH_HARDWARE_SUBARCH_DATA, 4)
  const SH_PAYLOAD_LENGTH: Field := After(SH_PAYLOAD_OFFSET, 4)
  const SH_SETUP_DATA: Field := After(SH_PAYLOAD_LENGTH, 8)
  const SH_PREF_ADDRESS: Field := After(SH_SETUP_DATA, 8)
  const SH_INIT_SIZE: Field := After(SH_PREF_ADDRESS, 4)
  const SH_HANDOVER_OFFSET: Field := After(SH_INIT_SIZE, 4)
  const SH_KERNEL_INFO_OFFSET: Field := After(SH_HANDOVER_OFFSET, 4)
  const SETUP_HEADER_SIZE: nat := SH_KERNEL_INFO_OFFSET.End()

  /** loadflags bit 0 */
  const LOADED_HIGH: nat := 1

  // ---------------------------------------------------------------------------
  // struct boot_params (packed)

  const E820_MAX_ENTRIES_ZEROPAGE: nat := 128

  const BP_SCREEN_INFO: Field := Field(0, SCREEN_INFO_SIZE)
  const BP_APM_BIOS_INFO: Field := After(BP_SCREEN_INFO, APM_BIOS_INFO_SIZE)
  const BP_PAD2: Field := After(BP_APM_BIOS_INFO, 4)
  const BP_TBOOT_ADDR: Field := After(BP_PAD2, 8)
  const BP_IST_INFO: Field := After(BP_TBOOT_ADDR, IST_INFO_SIZE)
  const BP_ACPI_RSDP_ADDR: Field := After(BP_IST_INFO, 8)
  const BP_PAD3: Field := After(BP_ACPI_RSDP_ADDR, 8)
  const BP_HD0_INFO: Field := After(BP_PAD3, 16)
  const BP_HD1_INFO: Field := After(BP_HD0_INFO, 16)
  const BP_SYS_DESC_TABLE: Field := After(BP_HD1_INFO, SYS_DESC_TABLE_SIZE)
  const BP_OLPC_OFW_HEADER: Field := After(BP_SYS_DESC_TABLE, OLPC_OFW_HEADER_SIZE)
  const BP_EXT_RAMDISK_IMAGE: Field := After(BP_OLPC_OFW_HEADER, 4)
  const BP_EXT_RAMDISK_SIZE: Field := After(BP_EXT_RAMDISK_IMAGE, 4)
  const BP_EXT_CMD_LINE_PTR: Field := After(BP_EXT_RAMDISK_SIZE, 4)
  const BP_PAD4: Field := After(BP_EXT_CMD_LINE_PTR, 112)
  const BP_CC_BLOB_ADDRESS: Field := After(BP_PAD4, 4)
  const BP_EDID_INFO: Field := After(BP_CC_BLOB_ADDRESS, EDID_INFO_SIZE)
  const BP_EFI_INFO: Field := After(BP_EDID_INFO, EFI_INFO_SIZE)
  const BP_ALT_MEM_K: Field := After(BP_EFI_INFO, 4)
  const BP_SCRATCH: Field := After(BP_ALT_MEM_K, 4)
  const BP_E820_ENTRIES: Field := After(BP_SCRATCH, 1)
  const BP_EDDBUF_ENTRIES: Field := After(BP_E820_ENTRIES, 1)
  const BP_EDD_MBR_SIG_BUF_ENTRIES: Field := After(BP_EDDBUF_ENTRIES, 1)
  const BP_KBD_STATUS: Field := After(BP_EDD_MBR_SIG_BUF_ENTRIES, 1)
  const BP_SECURE_BOOT: Field := After(BP_KBD_STATUS, 1)
  const BP_PAD5: Field := After(BP_SECURE_BOOT, 2)
  const BP_SENTINEL: Field := After(BP_PAD5, 1)
  const BP_PAD6: Field := After(BP_SENTINEL, 1)
  const BP_HDR: Field := After(BP_PAD6, SETUP_HEADER_SIZE)
  /** _pad7[0x290 - 0x1f1 - sizeof(struct setup_header)] */
  const BP_PAD7: Field := After(BP_HDR, 0x290 - 0x1f1 - SETUP_HEADER_SIZE)
  const BP_EDD_MBR_SIG_BUFFER: Field := After(BP_PAD7, 4 * EDD_MBR_SIG_MAX)
  const BP_E820_TABLE: Field := After(BP_EDD_MBR_SIG_BUFFER, BOOT_E820_ENTRY_SIZE * E820_MAX_ENTRIES_ZEROPAGE)
  const BP_PAD8: Field := After(BP_E820_TABLE, 48)
  const BP_EDDBUF: Field := After(BP_PAD8, EDD_INFO_SIZE * EDDMAXNR)
  const BP_PAD9: Field := After(BP_EDDBUF, 276)
  const BOOT_PARAMS_SIZE: nat := 0x1000

  /** The commented offsets of boot_params agree with the sizes of the members
      before them, and the record is exactly 0x1000 bytes. */
  lemma BootParamsLayout()
    ensures BP_APM_BIOS_INFO.offset == 0x040 && BP_PAD2.offset == 0x054
    ensures BP_TBOOT_ADDR.offset == 0x058 && BP_IST_INFO.offset == 0x060
    ensures BP_ACPI_RSDP_ADDR.offset == 0x070 && BP_ACPI_RSDP_ADDR.size == 8
    ensures BP_PAD3.offset == 0x078 && BP_HD0_INFO.offset == 0x080 && BP_HD1_INFO.offset == 0x090
    ensures BP_SYS_DESC_TABLE.offset == 0x0a0 && BP_OLPC_OFW_HEADER.offset == 0x0b0
    ensures BP_EXT_RAMDISK_IMAGE.offset == 0x0c0 && BP_EXT_RAMDISK_SIZE.offset == 0x0c4
    ensures BP_EXT_CMD_LINE_PTR.offset == 0x0c8 && BP_PAD4.offset == 0x0cc
    ensures BP_CC_BLOB_ADDRESS.offset == 0x13c && BP_EDID_INFO.offset == 0x140
    ensures BP_EFI_INFO.offset == 0x1c0 && BP_ALT_MEM_K.offset == 0x1e0 && BP_SCRATCH.offset == 0x1e4
    ensures BP_E820_ENTRIES.offset == 0x1e8 && BP_E820_ENTRIES.size == 1
    ensures BP_EDDBUF_ENTRIES.offset == 0x1e9 && BP_EDD_MBR_SIG_BUF_ENTRIES.offset == 0x1ea
    ensures BP_KBD_STATUS.offset == 0x1eb && BP_SECURE_BOOT.offset == 0x1ec && BP_PAD5.offset == 0x1ed
    ensures BP_SENTINEL.offset == 0x1ef && BP_PAD6.offset == 0x1f0 && BP_HDR.offset == 0x1f1
    ensures SETUP_HEADER_SIZE == 0x7b && BP_HDR.End() - 1 == 0x26b && BP_PAD7.size == 0x24
    ensures BP_EDD_MBR_SIG_BUFFER.offset == 0x290 && BP_E820_TABLE.offset == 0x2d0
    ensures BP_E820_TABLE.End() == 0xcd0 == BP_PAD8.offset
    ensures BP_EDDBUF.offset == 0xd00 && BP_EDDBUF.End() == 0xeec == BP_PAD9.offset
    ensures BP_PAD9.End() == BOOT_PARAMS_SIZE
  {
    EddInfoSize();
  }

  // Zeropage offsets of the members the loader reads or writes, as numbers;
  // LoaderOffsets ties each to the layout above.
  const HDR: nat := 0x1f1
  const HDR_SETUP_SECTS: nat := 0x1f1
  const HDR_VID_MODE: nat := 0x1fa
  /** The second byte of the jump instruction: the setup header ends at 0x202 plus its value. */
  const HDR_JUMP_OFFSET_BYTE: nat := 0x201
  const HDR_HEADER: nat := 0x202
  const HDR_TYPE_OF_LOADER: nat := 0x210
  const HDR_LOADFLAGS: nat := 0x211
  const HDR_RAMDISK_IMAGE: nat := 0x218
  const HDR_RAMDISK_SIZE: nat := 0x21c
  const HDR_CMD_LINE_PTR: nat := 0x228

  const ZP_FLAGS: nat := 0x08
  const ZP_ORIG_VIDEO_IS_VGA: nat := 0x0f
  const ZP_LFB_WIDTH: nat := 0x12
  const ZP_LFB_HEIGHT: nat := 0x14
  const ZP_LFB_DEPTH: nat := 0x16
  const ZP_LFB_BASE: nat := 0x18
  const ZP_LFB_SIZE: nat := 0x1c
  const ZP_LFB_LINELENGTH: nat := 0x24
  const ZP_RED_SIZE: nat := 0x26
  const ZP_RED_POS: nat := 0x27
  const ZP_GREEN_SIZE: nat := 0x28
  const ZP_GREEN_POS: nat := 0x29
  const ZP_BLUE_SIZE: nat := 0x2a
  const ZP_BLUE_POS: nat := 0x2b
  const ZP_RSVD_SIZE: nat := 0x2c
  const ZP_RSVD_POS: nat := 0x2d
  const ZP_CAPABILITIES: nat := 0x36
  const ZP_ACPI_RSDP_ADDR: nat := 0x70
  const ZP_E820_ENTRIES: nat := 0x1e8
  const ZP_SENTINEL: nat := 0x1ef
  const ZP_E820_TABLE: nat := 0x2d0

  /** The setup_header members sit at the zeropage offsets of the boot
      protocol's header table, with the widths the loader stores. */
  lemma SetupHeaderOffsets()
    ensures HDR == BP_HDR.offset && SETUP_HEADER_SIZE == BP_HDR.size
    ensures HDR_SETUP_SECTS == HDR + SH_SETUP_SECTS.offset && SH_SETUP_SECTS.size == 1
    ensures HDR_VID_MODE == HDR + SH_VID_MODE.offset && SH_VID_MODE.size == 2
    ensures HDR_JUMP_OFFSET_BYTE == HDR + SH_JUMP.offset + 1 && SH_JUMP.size == 2
    ensures HDR_HEADER == HDR + SH_HEADER.offset && SH_HEADER.size == 4
    ensures HDR_HEADER == HDR + SH_JUMP.End()
    ensures HDR_TYPE_OF_LOADER == HDR + SH_TYPE_OF_LOADER.offset && SH_TYPE_OF_LOADER.size == 1
    ensures HDR_LOADFLAGS == HDR + SH_LOADFLAGS.offset && SH_LOADFLAGS.size == 1
    ensures HDR_RAMDISK_IMAGE == HDR + SH_RAMDISK_IMAGE.offset && SH_RAMDISK_IMAGE.size == 4
    ensures HDR_RAMDISK_SIZE == HDR + SH_RAMDISK_SIZE.offset && SH_RAMDISK_SIZE.size == 4
    ensures HDR_CMD_LINE_PTR == HDR + SH_CMD_LINE_PTR.offset && SH_CMD_LINE_PTR.size == 4
  {
    BootParamsLayout();
  }

  /** The screen_info members and the other boot_params members the loader
      stores, at their layout offsets and with the widths it stores. */
  lemma ZeroPageOffsets()
    ensures BP_SCREEN_INFO.offset == 0
    ensures ZP_FLAGS == SI_FLAGS.offset && SI_FLAGS.size == 1
    ensures ZP_ORIG_VIDEO_IS_VGA == SI_ORIG_VIDEO_IS_VGA.offset && SI_ORIG_VIDEO_IS_VGA.size == 1
    ensures ZP_LFB_WIDTH == SI_LFB_WIDTH.offset && SI_LFB_WIDTH.size == 2
    ensures ZP_LFB_HEIGHT == SI_LFB_HEIGHT.offset && SI_LFB_HEIGHT.size == 2
    ensures ZP_LFB_DEPTH == SI_LFB_DEPTH.offset && SI_LFB_DEPTH.size == 2
    ensures ZP_LFB_BASE == SI_LFB_BASE.offset && SI_LFB_BASE.size == 4
    ensures ZP_LFB_SIZE == SI_LFB_SIZE.offset && SI_LFB_SIZE.size == 4
    ensures ZP_LFB_LINELENGTH == SI_LFB_LINELENGTH.offset && SI_LFB_LINELENGTH.size == 2
    ensures ZP_RED_SIZE == SI_RED_SIZE.offset && ZP_RED_POS == SI_RED_POS.offset
    ensures ZP_GREEN_SIZE == SI_GREEN_SIZE.offset && ZP_GREEN_POS == SI_GREEN_POS.offset
    ensures ZP_BLUE_SIZE == SI_BLUE_SIZE.offset && ZP_BLUE_POS == SI_BLUE_POS.offset
    ensures ZP_RSVD_SIZE == SI_RSVD_SIZE.offset && ZP_RSVD_POS == SI_RSVD_POS.offset
    ensures SI_RED_SIZE.size == SI_RED_POS.size == SI_GREEN_SIZE.size == SI_GREEN_POS.size == 1
    ensures SI_BLUE_SIZE.size == SI_BLUE_POS.size == SI_RSVD_SIZE.size == SI_RSVD_POS.size == 1
    ensures ZP_CAPABILITIES == SI_CAPABILITIES.offset && SI_CAPABILITIES.size == 4
    ensures ZP_ACPI_RSDP_ADDR == BP_ACPI_RSDP_ADDR.offset && BP_ACPI_RSDP_ADDR.size == 8
    ensures ZP_E820_ENTRIES == BP_E820_ENTRIES.offset && BP_E820_ENTRIES.size == 1
    ensures ZP_SENTINEL == BP_SENTINEL.offset && BP_SENTINEL.size == 1
    ensures ZP_E820_TABLE == BP_E820_TABLE.offset
    ensures BP_E820_TABLE.size == BOOT_E820_ENTRY_SIZE * E820_MAX_ENTRIES_ZEROPAGE
  {
    ScreenInfoLayout();
    BootParamsLayout();
  }

  /** The sentinel lies below the copied setup header (so zeroing leaves it 0),
      and the longest header a kernel can declare, 0x202 + 0xff, still ends
      inside the record. */
  lemma TransplantBounds()
    ensures BP_SENTINEL.End() <= HDR
    ensures HDR_HEADER + 0xff == 0x301 <= BOOT_PARAMS_SIZE
    ensures HDR_HEADER + 0xff - HDR == 0x110
  {
    BootParamsLayout();
  }

  /** The region count of the zeropage is one byte, and 128 fits in it. */
  lemma E820CountFitsByte()
    ensures E820_MAX_ENTRIES_ZEROPAGE < 0x100
  {
  }
}
