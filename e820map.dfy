/** The EFI-to-E820 memory-map translator of e820.c: a classification of UEFI
    memory types into E820 address-range types, an append-or-coalesce step on a
    fixed table of 128 slots, and the loop that feeds every firmware descriptor,
    read at a caller-supplied stride, through that step in firmware order. */
module E820Map {
  import opened Machine
  import opened Failures
  import opened Efi
  import opened E820Types
  import opened ZeroPage

  // ---------------------------------------------------------------------------
  // efi_convert_to_e820_type

  /** The E820 type for a UEFI memory type, and the number of console
      diagnostics the conversion prints (one for an unknown code). */
  datatype Classification = Classification(e820Type: u32, diagnostics: nat)

  /** The conversion is total: every code gets one of the five types the
      loader emits, and exactly the unknown codes (14 and above, including
      persistent and unaccepted memory) get a diagnostic and E820_UNUSABLE. */
  function ConvertType(efiType: u32): (c: Classification)
    ensures IsLoaderType(c.e820Type)
    ensures c.diagnostics <= 1
    ensures c.diagnostics == 1 <==> efiType >= EFI_PERSISTENT_MEMORY
    ensures c.diagnostics == 1 <==> c.e820Type == E820_UNUSABLE
  {
    if efiType == EFI_RESERVED_TYPE || efiType == EFI_UNUSABLE_MEMORY
       || efiType == EFI_MEMORY_MAPPED_IO || efiType == EFI_MEMORY_MAPPED_IO_PORT_SPACE
       || efiType == EFI_PAL_CODE || efiType == EFI_RUNTIME_SERVICES_CODE
       || efiType == EFI_RUNTIME_SERVICES_DATA
    then Classification(E820_RESERVED, 0)
    else if efiType == EFI_ACPI_RECLAIM_MEMORY then Classification(E820_ACPI, 0)
    else if efiType == EFI_ACPI_MEMORY_NVS then Classification(E820_NVS, 0)
    else if efiType == EFI_BOOT_SERVICES_CODE || efiType == EFI_BOOT_SERVICES_DATA
       || efiType == EFI_CONVENTIONAL_MEMORY || efiType == EFI_LOADER_CODE
       || efiType == EFI_LOADER_DATA
    then Classification(E820_RAM, 0)
    else Classification(E820_UNUSABLE, 1)
  }

  /** The preimage of every E820 type, written with the numeric codes of the
      UEFI EFI_MEMORY_TYPE enumeration and the ACPI address range types. The
      five classes partition all codes, so the result is never 6 or E820_PMEM. */
  lemma ConvertTypeClasses(t: u32)
    ensures ConvertType(t).e820Type == 2 <==> t in {0, 5, 6, 8, 11, 12, 13}
    ensures ConvertType(t).e820Type == 3 <==> t == 9
    ensures ConvertType(t).e820Type == 4 <==> t == 10
    ensures ConvertType(t).e820Type == 1 <==> t in {1, 2, 3, 4, 7}
    ensures ConvertType(t).e820Type == 5 <==> t >= 14
    ensures ConvertType(t).e820Type != 6 && ConvertType(t).e820Type != E820_PMEM
  {
  }

  // ---------------------------------------------------------------------------
  // e820_add_memory_region, on values

  /** The merge test of e820_add_memory_region: e starts where last ends
      (64-bit address arithmetic) and has the same type. */
  predicate Mergeable(last: E820Entry, e: E820Entry)
  {
    Wrap64(last.addr + last.size) == e.addr && last.typ == e.typ
  }

  /** No entry of the table could have been merged into the one before it. */
  predicate NoMergeablePair(t: seq<E820Entry>)
  {
    forall k :: 0 < k < |t| ==> !Mergeable(t[k - 1], t[k])
  }

  /** The sum of the entry sizes, as an unbounded integer. */
  function Total(t: seq<E820Entry>): (n: nat)
    ensures t == [] ==> n == 0
  {
    if t == [] then 0 else Total(t[..|t| - 1]) + t[|t| - 1].size
  }

  /** The table after adding region e to the used entries t: a full table is
      fatal whether or not e would merge; otherwise e extends the last entry
      when it continues it, and takes the next free slot when it does not. */
  function AddRegion(t: seq<E820Entry>, e: E820Entry): (r: Result<seq<E820Entry>>)
    requires |t| <= E820_MAX_ENTRIES_ZEROPAGE
    ensures r.Fail? <==> |t| == E820_MAX_ENTRIES_ZEROPAGE
    ensures r.Fail? ==> r.failure == TooManyDescriptors
    ensures r.Ok? ==> |r.value| <= E820_MAX_ENTRIES_ZEROPAGE && |t| <= |r.value| <= |t| + 1
    ensures r.Ok? && t != [] ==> r.value[..|t| - 1] == t[..|t| - 1]
    ensures r.Ok? && |r.value| == |t| ==>
      t != [] && Mergeable(t[|t| - 1], e)
      && r.value[|t| - 1] == t[|t| - 1].(size := Wrap64(t[|t| - 1].size + e.size))
    ensures r.Ok? && |r.value| == |t| + 1 ==>
      (t == [] || !Mergeable(t[|t| - 1], e)) && r.value == t + [e]
  {
    if |t| == E820_MAX_ENTRIES_ZEROPAGE then Fail(TooManyDescriptors)
    else if |t| > 0 && Mergeable(t[|t| - 1], e) then
      Ok(t[..|t| - 1] + [t[|t| - 1].(size := Wrap64(t[|t| - 1].size + e.size))])
    else Ok(t + [e])
  }

  /** Adding a region keeps a table free of mergeable neighbours. */
  lemma AddRegionKeepsNoMergeablePair(t: seq<E820Entry>, e: E820Entry)
    requires |t| <= E820_MAX_ENTRIES_ZEROPAGE && NoMergeablePair(t)
    ensures AddRegion(t, e).Ok? ==> NoMergeablePair(AddRegion(t, e).value)
  {
    var r := AddRegion(t, e);
    if r.Ok? {
      var u := r.value;
      forall k | 0 < k < |u|
        ensures !Mergeable(u[k - 1], u[k])
      {
        if k < |t| - 1 || (k == |t| - 1 && |u| == |t|) {
          assert u[k - 1] == t[k - 1];
          assert u[k].addr == t[k].addr && u[k].typ == t[k].typ;
        } else if k < |t| {
          assert u[k - 1] == t[k - 1] && u[k] == t[k];
        }
      }
    }
  }

  lemma {:induction false} TotalAppend(t: seq<E820Entry>, e: E820Entry)
    ensures Total(t + [e]) == Total(t) + e.size
  {
    assert (t + [e])[..|t|] == t;
  }

  /** Adding a region adds its size to the byte total, modulo 2^64. */
  lemma {:induction false} AddRegionTotal(t: seq<E820Entry>, e: E820Entry)
    requires |t| <= E820_MAX_ENTRIES_ZEROPAGE
    ensures AddRegion(t, e).Ok? ==> Wrap64(Total(AddRegion(t, e).value)) == Wrap64(Total(t) + e.size)
  {
    if |t| < E820_MAX_ENTRIES_ZEROPAGE {
      if |t| > 0 && Mergeable(t[|t| - 1], e) {
        MergedTotal(t, e);
      } else {
        assert AddRegion(t, e).value == t + [e];
        TotalAppend(t, e);
      }
    }
  }

  lemma {:induction false} MergedTotal(t: seq<E820Entry>, e: E820Entry)
    requires 0 < |t| < E820_MAX_ENTRIES_ZEROPAGE && Mergeable(t[|t| - 1], e)
    ensures Wrap64(Total(AddRegion(t, e).value)) == Wrap64(Total(t) + e.size)
  {
    var p := t[..|t| - 1];
    var last := t[|t| - 1];
    var merged := last.(size := Wrap64(last.size + e.size));
    assert t == p + [last];
    assert AddRegion(t, e).value == p + [merged];
    TotalMerge(p, last, e);
    assert Wrap64(Total(p + [merged])) == Wrap64(Total(p + [last]) + e.size);
  }

  lemma {:induction false} TotalMerge(p: seq<E820Entry>, last: E820Entry, e: E820Entry)
    ensures Wrap64(Total(p + [last.(size := Wrap64(last.size + e.size))])) == Wrap64(Total(p + [last]) + e.size)
  {
    TotalAppend(p, last);
    TotalAppend(p, last.(size := Wrap64(last.size + e.size)));
    WrapSum(Total(p), last.size + e.size);
  }

  lemma WrapCongruent(a: int, b: int, c: int)
    requires Wrap64(a) == Wrap64(b)
    ensures Wrap64(a + c) == Wrap64(b + c)
  {
    WrapSum(c, a);
    WrapSum(c, b);
  }

  lemma WrapSum(a: int, b: int)
    ensures Wrap64(a + Wrap64(b)) == Wrap64(a + b)
  {
    var w := Wrap64(b);
    WrapDifference(b);
    var q := (b - w) / TWO_64;
    assert a + b == (a + w) + TWO_64 * q;
  }

  // ---------------------------------------------------------------------------
  // The whole translation, on values

  /** The table that adding regions one by one, in order, produces, or the
      failure of the first add that finds the table full. */
  function Coalesce(regions: seq<E820Entry>): (r: Result<seq<E820Entry>>)
    ensures r.Ok? ==> |r.value| <= |regions| && |r.value| <= E820_MAX_ENTRIES_ZEROPAGE
    ensures r.Fail? ==> r.failure == TooManyDescriptors
  {
    if regions == [] then Ok([])
    else
      match Coalesce(regions[..|regions| - 1])
      case Fail(f) => Fail(f)
      case Ok(t) => AddRegion(t, regions[|regions| - 1])
  }

  /** No two consecutive entries of a translated table are mergeable. */
  lemma {:induction false} CoalesceNoMergeablePair(regions: seq<E820Entry>)
    ensures Coalesce(regions).Ok? ==> NoMergeablePair(Coalesce(regions).value)
  {
    if regions != [] {
      var p := regions[..|regions| - 1];
      CoalesceNoMergeablePair(p);
      if Coalesce(p).Ok? {
        AddRegionKeepsNoMergeablePair(Coalesce(p).value, regions[|regions| - 1]);
      }
    }
  }

  /** The translated table covers as many bytes as the regions, modulo 2^64. */
  lemma {:induction false} CoalesceTotal(regions: seq<E820Entry>)
    ensures Coalesce(regions).Ok? ==> Wrap64(Total(Coalesce(regions).value)) == Wrap64(Total(regions))
  {
    if regions != [] {
      var p := regions[..|regions| - 1];
      var e := regions[|regions| - 1];
      assert regions == p + [e];
      CoalesceTotal(p);
      CoalesceSnoc(p, e);
      TotalAppend(p, e);
      if Coalesce(p).Ok? {
        var t := Coalesce(p).value;
        AddRegionTotal(t, e);
        WrapCongruent(Total(t), Total(p), e.size);
      }
    }
  }

  /** Regions that are already pairwise unmergeable are copied as they are,
      as long as they fit into the table, and are refused otherwise: in
      particular translating a translated table gives it back unchanged. */
  lemma {:induction false} CoalesceUnmergeable(regions: seq<E820Entry>)
    requires NoMergeablePair(regions)
    ensures Coalesce(regions) ==
      if |regions| <= E820_MAX_ENTRIES_ZEROPAGE then Ok(regions) else Fail(TooManyDescriptors)
  {
    if regions != [] {
      var p := regions[..|regions| - 1];
      assert NoMergeablePair(p) by {
        forall k | 0 < k < |p| ensures !Mergeable(p[k - 1], p[k]) {
          assert p[k - 1] == regions[k - 1] && p[k] == regions[k];
        }
      }
      CoalesceUnmergeable(p);
      if |p| <= E820_MAX_ENTRIES_ZEROPAGE {
        assert p + [regions[|regions| - 1]] == regions;
        if |p| > 0 {
          assert !Mergeable(regions[|p| - 1], regions[|p|]);
        }
      }
    }
  }

  lemma CoalesceIdempotent(regions: seq<E820Entry>)
    ensures Coalesce(regions).Ok? ==> Coalesce(Coalesce(regions).value) == Coalesce(regions)
  {
    CoalesceNoMergeablePair(regions);
    if Coalesce(regions).Ok? {
      CoalesceUnmergeable(Coalesce(regions).value);
    }
  }

  /** Translating one more region is one more add. */
  lemma CoalesceSnoc(p: seq<E820Entry>, e: E820Entry)
    ensures Coalesce(p + [e])
         == match Coalesce(p)
            case Fail(f) => Fail(f)
            case Ok(t) => AddRegion(t, e)
  {
    assert (p + [e])[..|p|] == p;
  }

  /** Once the table has overflowed, no later region makes the translation succeed. */
  lemma {:induction false} CoalesceFailSticks(p: seq<E820Entry>, q: seq<E820Entry>)
    requires Coalesce(p).Fail?
    ensures Coalesce(p + q) == Fail(TooManyDescriptors)
    decreases |q|
  {
    if q == [] {
      assert p + q == p;
    } else {
      var q' := q[..|q| - 1];
      CoalesceFailSticks(p, q');
      assert p + q == (p + q') + [q[|q| - 1]];
      CoalesceSnoc(p + q', q[|q| - 1]);
    }
  }

  // ---------------------------------------------------------------------------
  // Descriptors read from the firmware's memory map

  /** The region that the loop adds for one descriptor. */
  function RegionOf(d: MemoryDescriptor): E820Entry
  {
    E820Entry(d.physAddr, PageBytes(d.numPages), ConvertType(d.memType).e820Type)
  }

  /** A descriptor's region starts at its physical address, has one of the
      loader's five types, and is num_pages * 4096 bytes long unless that
      overflows 64 bits. */
  lemma RegionOfDescriptor(d: MemoryDescriptor)
    ensures RegionOf(d).addr == d.physAddr && IsLoaderType(RegionOf(d).typ)
    ensures RegionOf(d).size == d.numPages * EFI_PAGE_SIZE <==> d.numPages <= EFI_PAGES_MAX
  {
    PageBytesExact(d.numPages);
  }

  /** The number of descriptors the loop visits: the map size divided by the
      stride, rounded down. */
  function DescriptorCount(efiMapSize: u32, efiDescSize: u32): nat
    requires efiDescSize > 0
  {
    efiMapSize / efiDescSize
  }

  /** The descriptors the loop visits fit in the map size, and one more would not. */
  lemma DescriptorCountIsFloor(efiMapSize: u32, efiDescSize: u32)
    requires efiDescSize > 0
    ensures var n := DescriptorCount(efiMapSize, efiDescSize);
      n * efiDescSize <= efiMapSize < (n + 1) * efiDescSize
  {
  }

  /** The first n descriptors of the walk lie inside the map: the last one
      read starts at the (n-1)-th step of next_memdesc. */
  predicate WithinMap(efiMap: seq<u8>, efiDescSize: u32, n: nat)
  {
    n == 0 || DescriptorOffset(efiDescSize, n - 1) + DESC_READ_EXTENT <= |efiMap|
  }

  /** Every descriptor the loop visits lies inside the map the firmware handed over. */
  predicate MapReadable(efiMap: seq<u8>, efiMapSize: u32, efiDescSize: u32)
  {
    efiDescSize > 0 && WithinMap(efiMap, efiDescSize, DescriptorCount(efiMapSize, efiDescSize))
  }

  /** The readable-map condition, in terms of the stride: the last descriptor
      visited starts at (count - 1) * efi_desc_size. */
  lemma MapReadableAtStride(efiMap: seq<u8>, efiMapSize: u32, efiDescSize: u32)
    requires efiDescSize > 0
    ensures var n := DescriptorCount(efiMapSize, efiDescSize);
      MapReadable(efiMap, efiMapSize, efiDescSize)
      <==> n == 0 || (n - 1) * efiDescSize + DESC_READ_EXTENT <= |efiMap|
  {
    var n := DescriptorCount(efiMapSize, efiDescSize);
    if n > 0 {
      DescriptorOffsetIsStride(efiDescSize, n - 1);
    }
  }

  /** A shorter walk stays inside the map too. */
  lemma {:induction false} WithinMapPrefix(efiMap: seq<u8>, efiDescSize: u32, m: nat, n: nat)
    requires m <= n && WithinMap(efiMap, efiDescSize, n)
    ensures WithinMap(efiMap, efiDescSize, m)
    decreases n - m
  {
    if m < n {
      WithinMapPrefix(efiMap, efiDescSize, m + 1, n);
    }
  }

  /** The first n descriptors in firmware order, each read where the walk of
      next_memdesc steps from the start of the map has reached. */
  function Descriptors(efiMap: seq<u8>, efiDescSize: u32, n: nat): (ds: seq<MemoryDescriptor>)
    requires WithinMap(efiMap, efiDescSize, n)
    ensures |ds| == n
  {
    if n == 0 then []
    else
      WithinMapPrefix(efiMap, efiDescSize, n - 1, n);
      Descriptors(efiMap, efiDescSize, n - 1) + [DescriptorAt(efiMap, DescriptorOffset(efiDescSize, n - 1))]
  }

  /** The i-th descriptor is the one the walk reaches after i steps. */
  lemma {:induction false} DescriptorsAt(efiMap: seq<u8>, efiDescSize: u32, n: nat, i: nat)
    requires WithinMap(efiMap, efiDescSize, n) && i < n
    ensures WithinMap(efiMap, efiDescSize, i + 1)
    ensures Descriptors(efiMap, efiDescSize, n)[i] == DescriptorAt(efiMap, DescriptorOffset(efiDescSize, i))
    decreases n
  {
    WithinMapPrefix(efiMap, efiDescSize, i + 1, n);
    WithinMapPrefix(efiMap, efiDescSize, n - 1, n);
    var front := Descriptors(efiMap, efiDescSize, n - 1);
    var last := DescriptorAt(efiMap, DescriptorOffset(efiDescSize, n - 1));
    assert Descriptors(efiMap, efiDescSize, n) == front + [last];
    if i < n - 1 {
      DescriptorsAt(efiMap, efiDescSize, n - 1, i);
      assert (front + [last])[i] == front[i];
    }
  }

  /** The i-th descriptor is the one at byte offset i * efi_desc_size. */
  lemma DescriptorsAtStride(efiMap: seq<u8>, efiDescSize: u32, n: nat, i: nat)
    requires WithinMap(efiMap, efiDescSize, n) && i < n
    ensures i * efiDescSize + DESC_READ_EXTENT <= |efiMap|
    ensures Descriptors(efiMap, efiDescSize, n)[i] == DescriptorAt(efiMap, i * efiDescSize)
  {
    DescriptorsAt(efiMap, efiDescSize, n, i);
    DescriptorOffsetIsStride(efiDescSize, i);
  }

  /** The region of every descriptor, in order. */
  function Regions(ds: seq<MemoryDescriptor>): (rs: seq<E820Entry>)
    ensures |rs| == |ds|
  {
    if ds == [] then [] else [RegionOf(ds[0])] + Regions(ds[1..])
  }

  lemma {:induction false} RegionsAt(ds: seq<MemoryDescriptor>, i: nat)
    requires i < |ds|
    ensures Regions(ds)[i] == RegionOf(ds[i])
  {
    if i > 0 {
      RegionsAt(ds[1..], i - 1);
    }
  }

  lemma {:induction false} RegionsSnoc(ds: seq<MemoryDescriptor>, d: MemoryDescriptor)
    ensures Regions(ds + [d]) == Regions(ds) + [RegionOf(d)]
  {
    if ds != [] {
      assert (ds + [d])[1..] == ds[1..] + [d];
      RegionsSnoc(ds[1..], d);
    } else {
      assert ([] + [d])[1..] == [];
    }
  }

  /** The regions the loop adds in its first n steps. */
  function MapRegions(efiMap: seq<u8>, efiDescSize: u32, n: nat): seq<E820Entry>
    requires WithinMap(efiMap, efiDescSize, n)
  {
    Regions(Descriptors(efiMap, efiDescSize, n))
  }

  /** One more step of the walk adds the region of the descriptor it reaches. */
  lemma MapRegionsStep(efiMap: seq<u8>, efiDescSize: u32, n: nat)
    requires WithinMap(efiMap, efiDescSize, n + 1)
    ensures WithinMap(efiMap, efiDescSize, n)
    ensures MapRegions(efiMap, efiDescSize, n + 1)
         == MapRegions(efiMap, efiDescSize, n) + [RegionOf(DescriptorAt(efiMap, DescriptorOffset(efiDescSize, n)))]
  {
    WithinMapPrefix(efiMap, efiDescSize, n, n + 1);
    RegionsSnoc(Descriptors(efiMap, efiDescSize, n), DescriptorAt(efiMap, DescriptorOffset(efiDescSize, n)));
  }

  /** An overflow after m descriptors is the outcome of the whole walk. */
  lemma {:induction false} MapRegionsFailSticks(efiMap: seq<u8>, efiDescSize: u32, m: nat, n: nat)
    requires m <= n && WithinMap(efiMap, efiDescSize, n)
    requires WithinMap(efiMap, efiDescSize, m) && Coalesce(MapRegions(efiMap, efiDescSize, m)).Fail?
    ensures Coalesce(MapRegions(efiMap, efiDescSize, n)) == Fail(TooManyDescriptors)
    decreases n - m
  {
    if m < n {
      WithinMapPrefix(efiMap, efiDescSize, m + 1, n);
      MapRegionsStep(efiMap, efiDescSize, m);
      var e := RegionOf(DescriptorAt(efiMap, DescriptorOffset(efiDescSize, m)));
      CoalesceSnoc(MapRegions(efiMap, efiDescSize, m), e);
      MapRegionsFailSticks(efiMap, efiDescSize, m + 1, n);
    }
  }

  /** One step of the loop on values: translating one more descriptor is
      adding its region to the table built so far. */
  lemma TranslateStep(efiMap: seq<u8>, efiDescSize: u32, i: nat, t: seq<E820Entry>)
    requires WithinMap(efiMap, efiDescSize, i + 1)
    requires WithinMap(efiMap, efiDescSize, i) && Coalesce(MapRegions(efiMap, efiDescSize, i)) == Ok(t)
    ensures |t| <= E820_MAX_ENTRIES_ZEROPAGE
    ensures Coalesce(MapRegions(efiMap, efiDescSize, i + 1))
         == AddRegion(t, RegionOf(DescriptorAt(efiMap, DescriptorOffset(efiDescSize, i))))
  {
    MapRegionsStep(efiMap, efiDescSize, i);
    CoalesceSnoc(MapRegions(efiMap, efiDescSize, i), RegionOf(DescriptorAt(efiMap, DescriptorOffset(efiDescSize, i))));
  }

  /** The table efi_to_e820_map builds from a firmware memory map. */
  function Translate(efiMap: seq<u8>, efiMapSize: u32, efiDescSize: u32): Result<seq<E820Entry>>
    requires MapReadable(efiMap, efiMapSize, efiDescSize)
  {
    Coalesce(MapRegions(efiMap, efiDescSize, DescriptorCount(efiMapSize, efiDescSize)))
  }

  /** The properties the loop keeps, stated for the translated map: it has
      at most 128 entries and at most one per descriptor, no two neighbours are
      mergeable, and its sizes add up to the descriptors' byte sizes modulo 2^64. */
  lemma TranslateProperties(efiMap: seq<u8>, efiMapSize: u32, efiDescSize: u32)
    requires MapReadable(efiMap, efiMapSize, efiDescSize)
    ensures var r := Translate(efiMap, efiMapSize, efiDescSize);
      r.Ok? ==>
        |r.value| <= DescriptorCount(efiMapSize, efiDescSize)
        && |r.value| <= E820_MAX_ENTRIES_ZEROPAGE
        && NoMergeablePair(r.value)
        && Wrap64(Total(r.value)) == Wrap64(Total(MapRegions(efiMap, efiDescSize, DescriptorCount(efiMapSize, efiDescSize))))
  {
    var rs := MapRegions(efiMap, efiDescSize, DescriptorCount(efiMapSize, efiDescSize));
    CoalesceNoMergeablePair(rs);
    CoalesceTotal(rs);
  }

  // ---------------------------------------------------------------------------
  // Worked examples

  lemma RegionsPair(d1: MemoryDescriptor, d2: MemoryDescriptor)
    ensures Regions([d1, d2]) == [RegionOf(d1), RegionOf(d2)]
  {
    assert [d1, d2][1..] == [d2];
    assert [d2][1..] == [];
  }

  lemma CoalescePair(a: E820Entry, b: E820Entry)
    ensures Coalesce([a, b]) == AddRegion([a], b)
  {
    var none: seq<E820Entry> := [];
    CoalesceSnoc(none, a);
    assert none + [a] == [a];
    CoalesceSnoc([a], b);
    assert [a] + [b] == [a, b];
  }

  /** One conventional page at 0 followed by one at 0x1000 becomes one RAM entry of two pages. */
  lemma ExampleAdjacentRamMerges()
    ensures Coalesce(Regions([MemoryDescriptor(7, 0, 1), MemoryDescriptor(7, 0x1000, 1)]))
         == Ok([E820Entry(0, 0x2000, 1)])
  {
    var a := E820Entry(0, 0x1000, 1);
    var b := E820Entry(0x1000, 0x1000, 1);
    PageSizeIsShift();
    assert PageBytes(1) == 0x1000;
    RegionsPair(MemoryDescriptor(7, 0, 1), MemoryDescriptor(7, 0x1000, 1));
    CoalescePair(a, b);
    var none: seq<E820Entry> := [];
    assert [a][..0] == none && none + [E820Entry(0, 0x2000, 1)] == [E820Entry(0, 0x2000, 1)];
  }

  /** The same two pages stay apart when the second is ACPI NVS memory. */
  lemma ExampleDifferentTypesStayApart()
    ensures Coalesce(Regions([MemoryDescriptor(7, 0, 1), MemoryDescriptor(10, 0x1000, 1)]))
         == Ok([E820Entry(0, 0x1000, 1), E820Entry(0x1000, 0x1000, 4)])
  {
    var a := E820Entry(0, 0x1000, 1);
    var b := E820Entry(0x1000, 0x1000, 4);
    PageSizeIsShift();
    assert PageBytes(1) == 0x1000;
    RegionsPair(MemoryDescriptor(7, 0, 1), MemoryDescriptor(10, 0x1000, 1));
    CoalescePair(a, b);
    assert !Mergeable(a, b) && [a] + [b] == [a, b];
  }

  // ---------------------------------------------------------------------------
  // The in-place code

  /** The slots of table a with the first |t| replaced by t. */
  function Install(a: seq<E820Entry>, t: seq<E820Entry>): (r: seq<E820Entry>)
    requires |t| <= |a|
    ensures |r| == |a| && r[..|t|] == t
  {
    t + a[|t|..]
  }

  /** Installing a longer table over a shorter one leaves the original slots
      past it. */
  lemma InstallAgain(a: seq<E820Entry>, t: seq<E820Entry>, u: seq<E820Entry>)
    requires |t| <= |u| <= |a|
    ensures Install(Install(a, t), u) == Install(a, u)
  {
    assert Install(a, t)[|u|..] == a[|u|..];
  }

  /** e820_add_memory_region on the 128-slot table memoryMap whose first
      numEntries slots are in use; it returns the new count. */
  method AddMemoryRegion(memoryMap: array<E820Entry>, numEntries: u8, addr: u64, size: u64, typ: u32)
    returns (r: Result<u8>)
    requires memoryMap.Length == E820_MAX_ENTRIES_ZEROPAGE && numEntries <= E820_MAX_ENTRIES_ZEROPAGE
    modifies memoryMap
    ensures r.Fail? ==> memoryMap[..] == old(memoryMap[..])
    ensures r.Ok? ==> r.value <= E820_MAX_ENTRIES_ZEROPAGE
    ensures AddRegion(old(memoryMap[..numEntries]), E820Entry(addr, size, typ))
         == if r.Ok? then Ok(memoryMap[..r.value]) else Fail(r.failure)
    ensures r.Ok? ==> memoryMap[..] == Install(old(memoryMap[..]), memoryMap[..r.value])
  {
    var x := numEntries;
    if x == E820_MAX_ENTRIES_ZEROPAGE {
      return Fail(TooManyDescriptors);
    }
    if x > 0 && Wrap64(memoryMap[x - 1].addr + memoryMap[x - 1].size) == addr && memoryMap[x - 1].typ == typ {
      memoryMap[x - 1] := memoryMap[x - 1].(size := Wrap64(memoryMap[x - 1].size + size));
      r := Ok(x);
      assert memoryMap[..x] == old(memoryMap[..x])[..x - 1] + [memoryMap[x - 1]];
    } else {
      memoryMap[x] := E820Entry(addr, size, typ);
      r := Ok(x + 1);
      assert memoryMap[..x + 1] == old(memoryMap[..x]) + [E820Entry(addr, size, typ)];
    }
  }

  /** efi_to_e820_map: walks the firmware map with the caller's stride, adds
      every descriptor's region to outputMap and returns the entry count; the
      slots past the count are left as they were. */
  method EfiToE820Map(efiMap: seq<u8>, efiMapSize: u32, efiDescSize: u32, outputMap: array<E820Entry>)
    returns (r: Result<u8>)
    requires outputMap.Length == E820_MAX_ENTRIES_ZEROPAGE
    requires MapReadable(efiMap, efiMapSize, efiDescSize)
    modifies outputMap
    ensures r.Ok? ==> r.value <= E820_MAX_ENTRIES_ZEROPAGE
    ensures Translate(efiMap, efiMapSize, efiDescSize)
         == if r.Ok? then Ok(outputMap[..r.value]) else Fail(r.failure)
    ensures r.Ok? ==> outputMap[..] == Install(old(outputMap[..]), outputMap[..r.value])
  {
    ghost var init := outputMap[..];
    var efiNumEntries := DescriptorCount(efiMapSize, efiDescSize);
    var biosNumEntries: u8 := 0;
    var desc: nat := 0;
    var i := 0;
    while i < efiNumEntries
      invariant 0 <= i <= efiNumEntries
      invariant desc == DescriptorOffset(efiDescSize, i)
      invariant WithinMap(efiMap, efiDescSize, i)
      invariant biosNumEntries <= E820_MAX_ENTRIES_ZEROPAGE
      invariant Coalesce(MapRegions(efiMap, efiDescSize, i)) == Ok(outputMap[..biosNumEntries])
      invariant outputMap[..] == Install(init, outputMap[..biosNumEntries])
    {
      WithinMapPrefix(efiMap, efiDescSize, i + 1, efiNumEntries);
      TranslateStep(efiMap, efiDescSize, i, outputMap[..biosNumEntries]);
      var d := DescriptorAt(efiMap, desc);
      assert E820Entry(d.physAddr, PageBytes(d.numPages), ConvertType(d.memType).e820Type) == RegionOf(d);
      ghost var before := outputMap[..];
      var res := AddMemoryRegion(outputMap, biosNumEntries, d.physAddr, PageBytes(d.numPages),
                                 ConvertType(d.memType).e820Type);
      if res.Fail? {
        MapRegionsFailSticks(efiMap, efiDescSize, i + 1, efiNumEntries);
        return Fail(res.failure);
      }
      InstallAgain(init, before[..biosNumEntries], outputMap[..res.value]);
      biosNumEntries := res.value;
      desc := NextMemdesc(desc, efiDescSize);
      i := i + 1;
    }
    return Ok(biosNumEntries);
  }
}
