/**
 * The shader binding table: the handle size rounded up to the handle
 * alignment, the size of the table, the three `sbtHandleSize`-byte slices
 * copied out of the handle array into the three SBT buffers, and the strided
 * regions passed to `vkCmdTraceRaysKHR` (the "Shader Binding Table" chapter of
 * the Vulkan specification, VK_KHR_ray_tracing_pipeline). All sizes and offsets
 * are `uint32_t` and wrap around as the C code does.
 */
module ShaderBindingTable {
  import opened VkTypes
  import opened Bits

  /** `sbtGroupCount`. */
  const SBT_GROUP_COUNT: u32 := 3

  /** Positions of the groups in `shaderGroups`: ray generation, then miss, then closest hit. */
  const RAYGEN_GROUP: nat := 0
  const MISS_GROUP: nat := 1
  const HIT_GROUP: nat := 2

  /** `(sbtHandleSize + sbtHandleAlignment - 1) & ~(sbtHandleAlignment - 1)` on `uint32_t`. */
  function AlignedHandleSize(handleSize: u32, handleAlignment: u32): u32
  {
    BitAnd(Wrap32(handleSize + handleAlignment - 1), BitNot32(Wrap32(handleAlignment - 1)))
  }

  /** The three sizes the program keeps in globals. */
  datatype SbtLayout = SbtLayout(handleSize: u32, handleSizeAligned: u32, size: u32)

  /** `sbtHandleSize`, `sbtHandleSizeAligned` and `sbtSize = sbtGroupCount * sbtHandleSizeAligned`. */
  function Layout(handleSize: u32, handleAlignment: u32): SbtLayout
  {
    var aligned := AlignedHandleSize(handleSize, handleAlignment);
    SbtLayout(handleSize, aligned, Wrap32(SBT_GROUP_COUNT * aligned))
  }

  /**
   * Where the copy for each buffer starts in `sbtResults`: at the start, at
   * `sbtHandleSizeAligned`, and at `sbtHandleSizeAligned * 2` (a `uint32_t` product).
   */
  function SliceOffset(layout: SbtLayout, slot: nat): u32
    requires slot < 3
  {
    if slot == 0 then 0
    else if slot == 1 then layout.handleSizeAligned
    else Wrap32(layout.handleSizeAligned * 2)
  }

  /** The `k`th power of two below 2^32: what Vulkan guarantees `shaderGroupHandleAlignment` to be. */
  predicate IsPowerOfTwo32(handleAlignment: u32, k: nat)
  {
    k < 32 && handleAlignment == Pow2(k)
  }

  /**
   * For a power-of-two alignment and no `uint32_t` overflow, the aligned size
   * is the least multiple of the alignment that is not below the handle size.
   */
  lemma AlignedHandleSizeRoundsUp(handleSize: u32, handleAlignment: u32, k: nat)
    requires IsPowerOfTwo32(handleAlignment, k)
    requires handleSize + handleAlignment - 1 < 0x1_0000_0000
    ensures AlignedHandleSize(handleSize, handleAlignment) >= handleSize
    ensures AlignedHandleSize(handleSize, handleAlignment) % handleAlignment == 0
    ensures AlignedHandleSize(handleSize, handleAlignment) < handleSize + handleAlignment
  {
    var sum := handleSize + handleAlignment - 1;
    var low := sum % handleAlignment;
    RoundingDown(sum, handleAlignment, k);
    RoundedDownIsMultiple(sum, handleAlignment);
    assert AlignedHandleSize(handleSize, handleAlignment) == sum - low;
    assert 0 <= low < handleAlignment;
  }

  /** The mask `~(sbtHandleAlignment - 1)` rounds `sum` down to a multiple of the alignment. */
  lemma RoundingDown(sum: u32, handleAlignment: u32, k: nat)
    requires IsPowerOfTwo32(handleAlignment, k)
    ensures BitAnd(sum, BitNot32(Wrap32(handleAlignment - 1))) == sum - sum % handleAlignment
  {
    Pow2Of32();
    Pow2Monotone(k, 32);
    assert BitNot32(Wrap32(handleAlignment - 1)) == Pow2(32) - Pow2(k);
    AndHighMask(sum, 32, k);
  }

  /** A handle size that is already a multiple of the alignment is left unchanged. */
  lemma AlignedHandleSizeKeepsAligned(handleSize: u32, handleAlignment: u32, k: nat)
    requires IsPowerOfTwo32(handleAlignment, k)
    requires handleSize + handleAlignment - 1 < 0x1_0000_0000
    requires handleSize % handleAlignment == 0
    ensures AlignedHandleSize(handleSize, handleAlignment) == handleSize
  {
    var sum := handleSize + handleAlignment - 1;
    RoundingDown(sum, handleAlignment, k);
    LastBeforeNextMultiple(handleSize, handleAlignment);
  }

  /** One less than the next multiple leaves the largest remainder. */
  lemma LastBeforeNextMultiple(n: nat, m: nat)
    requires m > 0 && n % m == 0
    ensures (n + m - 1) % m == m - 1
  {
    var q := n / m;
    assert n == m * q;
    DivModUnique(n + m - 1, m, q, m - 1);
  }

  /**
   * With a power-of-two alignment and a table size that fits in `uint32_t`:
   * the table is exactly three aligned handles, it has room for the three
   * handles the driver writes into it, and each slice copied into an SBT
   * buffer starts at `slot * sbtHandleSizeAligned`, lies inside the table and
   * ends before the next one starts.
   */
  lemma SlicesInBounds(handleSize: u32, handleAlignment: u32, k: nat)
    requires IsPowerOfTwo32(handleAlignment, k)
    requires handleSize + handleAlignment - 1 < 0x1_0000_0000
    requires 3 * AlignedHandleSize(handleSize, handleAlignment) < 0x1_0000_0000
    ensures Layout(handleSize, handleAlignment).size == 3 * Layout(handleSize, handleAlignment).handleSizeAligned
    ensures Layout(handleSize, handleAlignment).size >= SBT_GROUP_COUNT * handleSize
    ensures forall slot :: 0 <= slot < 3 ==>
      SliceOffset(Layout(handleSize, handleAlignment), slot) == slot * Layout(handleSize, handleAlignment).handleSizeAligned
    ensures forall slot :: 0 <= slot < 3 ==>
      SliceOffset(Layout(handleSize, handleAlignment), slot) + handleSize <= Layout(handleSize, handleAlignment).size
    ensures forall slot :: 0 <= slot < 2 ==>
      SliceOffset(Layout(handleSize, handleAlignment), slot) + handleSize <= SliceOffset(Layout(handleSize, handleAlignment), slot + 1)
  {
    AlignedHandleSizeRoundsUp(handleSize, handleAlignment, k);
  }

  /** `n` zero bytes: `std::vector<uint8_t>(n)` before anything is written into it. */
  function Zeros(n: nat): (z: seq<byte>)
    ensures |z| == n && forall i :: 0 <= i < n ==> z[i] == 0
  {
    seq(n, _ => 0)
  }

  /**
   * `sbtResults` after `vkGetRayTracingShaderGroupHandlesKHR`: the Vulkan
   * specification has the driver write the `groupCount` handles one after the
   * other, `shaderGroupHandleSize` bytes each; the rest of the zero-initialised
   * vector stays zero.
   */
  function ShaderGroupHandleData(handles: seq<seq<byte>>, handleSize: nat, tableSize: nat): (data: seq<byte>)
    requires |handles| == 3 && forall g :: 0 <= g < 3 ==> |handles[g]| == handleSize
    requires 3 * handleSize <= tableSize
    ensures |data| == tableSize
  {
    handles[0] + handles[1] + handles[2] + Zeros(tableSize - 3 * handleSize)
  }

  /** The `sbtHandleSize` bytes `CreateMappedBuffer` copies from `sbtResults.data() + SliceOffset(layout, slot)`. */
  function HandleSlice(results: seq<byte>, layout: SbtLayout, slot: nat): (s: seq<byte>)
    requires slot < 3
    requires SliceOffset(layout, slot) + layout.handleSize <= |results|
    ensures |s| == layout.handleSize
  {
    results[SliceOffset(layout, slot)..SliceOffset(layout, slot) + layout.handleSize]
  }

  /** Every slice the program copies lies inside `sbtResults`. */
  predicate SlicesFit(results: seq<byte>, layout: SbtLayout)
  {
    forall slot :: 0 <= slot < 3 ==> SliceOffset(layout, slot) + layout.handleSize <= |results|
  }

  /**
   * When the handle size is a multiple of the alignment (so the aligned stride
   * the program reads with equals the packed stride the driver writes with),
   * the slice at slot `g` is exactly the handle of group `g`.
   */
  lemma SlicesAreGroupHandles(handles: seq<seq<byte>>, handleSize: u32, handleAlignment: u32, k: nat)
    requires IsPowerOfTwo32(handleAlignment, k)
    requires handleSize + handleAlignment - 1 < 0x1_0000_0000
    requires 3 * handleSize < 0x1_0000_0000
    requires handleSize % handleAlignment == 0
    requires |handles| == 3 && forall g :: 0 <= g < 3 ==> |handles[g]| == handleSize
    ensures Layout(handleSize, handleAlignment).size == 3 * handleSize
    ensures SlicesFit(ShaderGroupHandleData(handles, handleSize, 3 * handleSize), Layout(handleSize, handleAlignment))
    ensures forall g :: 0 <= g < 3 ==>
      HandleSlice(ShaderGroupHandleData(handles, handleSize, 3 * handleSize), Layout(handleSize, handleAlignment), g)
        == handles[g]
  {
    AlignedHandleSizeKeepsAligned(handleSize, handleAlignment, k);
    var layout := Layout(handleSize, handleAlignment);
    var data := ShaderGroupHandleData(handles, handleSize, 3 * handleSize);
    assert data == handles[0] + handles[1] + handles[2];
    assert HandleSlice(data, layout, 0) == handles[0];
    assert HandleSlice(data, layout, 1) == handles[1];
    assert HandleSlice(data, layout, 2) == handles[2];
  }

  /** One of the SBT buffers: its device address (`GetBufferAddress`) and the bytes copied into it. */
  datatype SbtBuffer = SbtBuffer(memoryAddress: u64, contents: seq<byte>)

  /** The globals `sbtRayGenBuffer`, `sbtRayHitBuffer` and `sbtRayMissBuffer`. */
  datatype SbtBuffers = SbtBuffers(rayGen: SbtBuffer, rayHit: SbtBuffer, rayMiss: SbtBuffer)

  /** The device addresses the driver gives the three buffers, by buffer name. */
  datatype SbtAddresses = SbtAddresses(rayGen: u64, rayHit: u64, rayMiss: u64)

  /**
   * The SBT buffers as the program fills them: `sbtRayHitBuffer` receives the
   * slice at `sbtHandleSizeAligned` (group 1, the miss group) and
   * `sbtRayMissBuffer` the slice at `2 * sbtHandleSizeAligned` (group 2, the hit group).
   */
  function SbtBuffersAsWritten(results: seq<byte>, layout: SbtLayout, addresses: SbtAddresses): (b: SbtBuffers)
    requires SlicesFit(results, layout)
  {
    SbtBuffers(
      SbtBuffer(addresses.rayGen, HandleSlice(results, layout, 0)),
      SbtBuffer(addresses.rayHit, HandleSlice(results, layout, 1)),
      SbtBuffer(addresses.rayMiss, HandleSlice(results, layout, 2)))
  }

  /** The SBT buffers filled as their names say: each buffer receives its own group's slice. */
  function SbtBuffersByGroup(results: seq<byte>, layout: SbtLayout, addresses: SbtAddresses): (b: SbtBuffers)
    requires SlicesFit(results, layout)
  {
    SbtBuffers(
      SbtBuffer(addresses.rayGen, HandleSlice(results, layout, RAYGEN_GROUP)),
      SbtBuffer(addresses.rayHit, HandleSlice(results, layout, HIT_GROUP)),
      SbtBuffer(addresses.rayMiss, HandleSlice(results, layout, MISS_GROUP)))
  }

  /** `VkStridedDeviceAddressRegionKHR`. */
  datatype StridedRegion = StridedRegion(deviceAddress: u64, stride: u64, size: u64)

  /** A region left as `= {}`: no shader records. */
  const EMPTY_REGION := StridedRegion(0, 0, 0)

  /** The four regions passed to `vkCmdTraceRaysKHR`, in its argument order. */
  datatype TraceRegions = TraceRegions(rayGen: StridedRegion, miss: StridedRegion, hit: StridedRegion, callable: StridedRegion)

  /** A region of one record of `sbtHandleSizeAligned` bytes at `address`. */
  function OneRecord(address: u64, handleSizeAligned: u32): StridedRegion
  {
    StridedRegion(address, handleSizeAligned, handleSizeAligned)
  }

  /**
   * The regions as the program writes them: `rayMissSBT` is set from
   * `sbtRayMissBuffer`, then the three assignments that follow the
   * declaration of `rayHitSBT` overwrite `rayMissSBT` with `sbtRayHitBuffer`,
   * so `rayHitSBT` and `rayCallableSBT` stay zero.
   */
  function TraceRegionsAsWritten(buffers: SbtBuffers, handleSizeAligned: u32): (r: TraceRegions)
  {
    var rayGenSBT := OneRecord(buffers.rayGen.memoryAddress, handleSizeAligned);
    var rayMissSBT := OneRecord(buffers.rayMiss.memoryAddress, handleSizeAligned);
    var rayHitSBT := EMPTY_REGION;
    var rayMissSBTOverwritten := OneRecord(buffers.rayHit.memoryAddress, handleSizeAligned);
    TraceRegions(rayGenSBT, rayMissSBTOverwritten, rayHitSBT, EMPTY_REGION)
  }

  /** The regions as intended: each region addresses the buffer of its own name. */
  function TraceRegionsByGroup(buffers: SbtBuffers, handleSizeAligned: u32): (r: TraceRegions)
  {
    TraceRegions(
      OneRecord(buffers.rayGen.memoryAddress, handleSizeAligned),
      OneRecord(buffers.rayMiss.memoryAddress, handleSizeAligned),
      OneRecord(buffers.rayHit.memoryAddress, handleSizeAligned),
      EMPTY_REGION)
  }

  /** Buffer sizes and alignment under which the stride the program reads with is the driver's packed stride. */
  predicate PackedLayout(handles: seq<seq<byte>>, handleSize: u32, handleAlignment: u32, k: nat)
  {
    && IsPowerOfTwo32(handleAlignment, k)
    && handleSize + handleAlignment - 1 < 0x1_0000_0000
    && 3 * handleSize < 0x1_0000_0000
    && handleSize % handleAlignment == 0
    && |handles| == 3 && (forall g :: 0 <= g < 3 ==> |handles[g]| == handleSize)
  }

  /** The three buffer addresses are distinct and none is zero, as for any three live buffers. */
  predicate DistinctAddresses(addresses: SbtAddresses)
  {
    && addresses.rayGen != 0 && addresses.rayHit != 0 && addresses.rayMiss != 0
    && addresses.rayGen != addresses.rayHit && addresses.rayGen != addresses.rayMiss
    && addresses.rayHit != addresses.rayMiss
  }

  /**
   * The program as written: `sbtRayHitBuffer` holds the miss group's handle
   * and `sbtRayMissBuffer` the hit group's; the miss region ends up at the
   * buffer holding the miss handle only because it was overwritten; the hit
   * region is empty, and no region addresses the buffer that holds the
   * closest-hit group's handle.
   */
  lemma AsWrittenHitGroupUnreachable(handles: seq<seq<byte>>, handleSize: u32, handleAlignment: u32, k: nat,
                                     addresses: SbtAddresses)
    requires PackedLayout(handles, handleSize, handleAlignment, k)
    requires DistinctAddresses(addresses)
    ensures SlicesFit(ShaderGroupHandleData(handles, handleSize, 3 * handleSize), Layout(handleSize, handleAlignment))
    ensures
      var layout := Layout(handleSize, handleAlignment);
      var buffers := SbtBuffersAsWritten(ShaderGroupHandleData(handles, handleSize, 3 * handleSize), layout, addresses);
      var regions := TraceRegionsAsWritten(buffers, layout.handleSizeAligned);
      && buffers.rayHit.contents == handles[MISS_GROUP]
      && buffers.rayMiss.contents == handles[HIT_GROUP]
      && regions.miss.deviceAddress == buffers.rayHit.memoryAddress
      && regions.hit == EMPTY_REGION
      && buffers.rayMiss.memoryAddress !in {regions.rayGen.deviceAddress, regions.miss.deviceAddress,
                                           regions.hit.deviceAddress, regions.callable.deviceAddress}
  {
    SlicesAreGroupHandles(handles, handleSize, handleAlignment, k);
  }

  /**
   * The corrected table: each buffer holds the handle of the group it is
   * named after, and each region addresses that buffer with one record of
   * `sbtHandleSizeAligned` bytes.
   */
  lemma ByGroupRoutesEachGroup(handles: seq<seq<byte>>, handleSize: u32, handleAlignment: u32, k: nat,
                               addresses: SbtAddresses)
    requires PackedLayout(handles, handleSize, handleAlignment, k)
    ensures SlicesFit(ShaderGroupHandleData(handles, handleSize, 3 * handleSize), Layout(handleSize, handleAlignment))
    ensures
      var layout := Layout(handleSize, handleAlignment);
      var buffers := SbtBuffersByGroup(ShaderGroupHandleData(handles, handleSize, 3 * handleSize), layout, addresses);
      var regions := TraceRegionsByGroup(buffers, layout.handleSizeAligned);
      && buffers.rayGen.contents == handles[RAYGEN_GROUP]
      && buffers.rayMiss.contents == handles[MISS_GROUP]
      && buffers.rayHit.contents == handles[HIT_GROUP]
      && regions.rayGen == OneRecord(buffers.rayGen.memoryAddress, handleSize)
      && regions.miss == OneRecord(buffers.rayMiss.memoryAddress, handleSize)
      && regions.hit == OneRecord(buffers.rayHit.memoryAddress, handleSize)
      && regions.callable == EMPTY_REGION
  {
    SlicesAreGroupHandles(handles, handleSize, handleAlignment, k);
    AlignedHandleSizeKeepsAligned(handleSize, handleAlignment, k);
  }
}
