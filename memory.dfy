/**
 * Choosing a memory type for an allocation, and the size and type of the two
 * kinds of allocation the program makes. The selection rule is the one of the
 * "Device Memory" section (11.2) of the Vulkan 1.2 specification: bit `i` of a
 * resource's `memoryTypeBits` says whether memory type `i` may back it, and the
 * first acceptable type whose property flags include every requested flag wins.
 */
module Memory {
  import opened VkTypes

  /** Bit `i` of `typeFilter` is set: memory type `i` may back the resource. */
  predicate TypeAllowed(typeFilter: bv32, i: nat)
    requires i < 32
  {
    typeFilter & (1 << i) != 0
  }

  /** A memory type's `propertyFlags` include every flag in `properties`. */
  predicate HasProperties(propertyFlags: bv32, properties: bv32)
  {
    propertyFlags & properties == properties
  }

  /**
   * Memory type `i` of the device (whose `memoryTypes[..memoryTypeCount]`
   * property flags are `memoryTypes`) is acceptable for the request.
   */
  predicate Suitable(memoryTypes: seq<bv32>, typeFilter: bv32, properties: bv32, i: nat)
    requires |memoryTypes| <= MAX_MEMORY_TYPES
  {
    i < |memoryTypes| && TypeAllowed(typeFilter, i) && HasProperties(memoryTypes[i], properties)
  }

  /**
   * `FindMemoryType`: the first suitable memory type index, or the exception
   * "failed to find suitable memory type!" when there is none. The device's
   * memory properties, which the source queries from the driver, are the
   * parameter `memoryTypes` (one flag word per memory type).
   */
  method FindMemoryType(memoryTypes: seq<bv32>, typeFilter: bv32, properties: bv32) returns (r: Result<nat>)
    requires |memoryTypes| <= MAX_MEMORY_TYPES
    ensures r.Ok? ==> Suitable(memoryTypes, typeFilter, properties, r.value)
    ensures r.Ok? ==> forall j: nat :: j < r.value ==> !Suitable(memoryTypes, typeFilter, properties, j)
    ensures r.Err? <==> forall j: nat :: j < |memoryTypes| ==> !Suitable(memoryTypes, typeFilter, properties, j)
    ensures r.Err? ==> r.error == NoSuitableMemoryType
  {
    var ii: nat := 0;
    while ii < |memoryTypes|
      invariant ii <= |memoryTypes|
      invariant forall j: nat :: j < ii ==> !Suitable(memoryTypes, typeFilter, properties, j)
    {
      if typeFilter & (1 << ii) != 0 && memoryTypes[ii] & properties == properties {
        assert Suitable(memoryTypes, typeFilter, properties, ii);
        return Ok(ii);
      }
      ii := ii + 1;
    }
    return Err(NoSuitableMemoryType);
  }

  /**
   * With an empty filter or a device without memory types no index is
   * suitable, so `FindMemoryType` throws.
   */
  lemma NothingSuitableWithoutCandidates(memoryTypes: seq<bv32>, typeFilter: bv32, properties: bv32)
    requires |memoryTypes| <= MAX_MEMORY_TYPES
    requires typeFilter == 0 || |memoryTypes| == 0
    ensures forall j: nat :: !Suitable(memoryTypes, typeFilter, properties, j)
  {
  }

  /**
   * Asking for fewer property flags never rules a memory type out: a type
   * chosen for host-visible and host-coherent memory is also host-visible.
   */
  lemma SuitableForFewerProperties(memoryTypes: seq<bv32>, typeFilter: bv32, properties: bv32, fewer: bv32, i: nat)
    requires |memoryTypes| <= MAX_MEMORY_TYPES
    requires fewer & properties == fewer
    requires Suitable(memoryTypes, typeFilter, properties, i)
    ensures Suitable(memoryTypes, typeFilter, fewer, i)
  {
  }

  /** The flags `CreateMappedBuffer` asks for: memory the host can map without explicit flushes. */
  const HOST_VISIBLE_COHERENT: bv32 := MEMORY_PROPERTY_HOST_VISIBLE | MEMORY_PROPERTY_HOST_COHERENT

  /** What `vkGetBufferMemoryRequirements` reports for a buffer. */
  datatype MemoryRequirements = MemoryRequirements(size: u64, alignment: u64, memoryTypeBits: bv32)

  /** The two fields of `VkMemoryAllocateInfo` the program decides. */
  datatype MemoryAllocateInfo = MemoryAllocateInfo(allocationSize: u64, memoryTypeIndex: nat)

  /**
   * The allocation size of `CreateAccelerationBuffer`: buffer requirements can
   * differ from acceleration-structure requirements, so the larger of the two wins.
   */
  function AccelerationAllocationSize(bufferSize: u64, requiredSize: u64): (allocationSize: u64)
    ensures allocationSize >= bufferSize && allocationSize >= requiredSize
    ensures allocationSize == bufferSize || allocationSize == requiredSize
  {
    if bufferSize > requiredSize then bufferSize else requiredSize
  }

  /**
   * The allocation `CreateAccelerationBuffer` requests for a buffer of
   * `bufferSize` bytes: at least both sizes, in the first device-local memory
   * type the buffer accepts; it throws when there is none.
   */
  method AccelerationBufferAllocation(bufferSize: u64, requirements: MemoryRequirements, memoryTypes: seq<bv32>)
    returns (r: Result<MemoryAllocateInfo>)
    requires |memoryTypes| <= MAX_MEMORY_TYPES
    ensures r.Ok? ==> r.value.allocationSize == AccelerationAllocationSize(bufferSize, requirements.size)
    ensures r.Ok? ==> Suitable(memoryTypes, requirements.memoryTypeBits, MEMORY_PROPERTY_DEVICE_LOCAL, r.value.memoryTypeIndex)
    ensures r.Ok? ==> forall j: nat :: j < r.value.memoryTypeIndex ==>
      !Suitable(memoryTypes, requirements.memoryTypeBits, MEMORY_PROPERTY_DEVICE_LOCAL, j)
    ensures r.Err? <==> forall j: nat :: j < |memoryTypes| ==>
      !Suitable(memoryTypes, requirements.memoryTypeBits, MEMORY_PROPERTY_DEVICE_LOCAL, j)
  {
    var allocationSize := AccelerationAllocationSize(bufferSize, requirements.size);
    var memoryTypeIndex :- FindMemoryType(memoryTypes, requirements.memoryTypeBits, MEMORY_PROPERTY_DEVICE_LOCAL);
    return Ok(MemoryAllocateInfo(allocationSize, memoryTypeIndex));
  }

  /**
   * The allocation `CreateMappedBuffer` requests: exactly the reported
   * requirement size (not the larger of the two, unlike acceleration buffers),
   * in the first host-visible, host-coherent memory type the buffer accepts;
   * it throws when there is none.
   */
  method MappedBufferAllocation(requirements: MemoryRequirements, memoryTypes: seq<bv32>)
    returns (r: Result<MemoryAllocateInfo>)
    requires |memoryTypes| <= MAX_MEMORY_TYPES
    ensures r.Ok? ==> r.value.allocationSize == requirements.size
    ensures r.Ok? ==> Suitable(memoryTypes, requirements.memoryTypeBits,
      HOST_VISIBLE_COHERENT, r.value.memoryTypeIndex)
    ensures r.Ok? ==> HasProperties(memoryTypes[r.value.memoryTypeIndex], MEMORY_PROPERTY_HOST_VISIBLE)
    ensures r.Ok? ==> forall j: nat :: j < r.value.memoryTypeIndex ==>
      !Suitable(memoryTypes, requirements.memoryTypeBits, HOST_VISIBLE_COHERENT, j)
    ensures r.Err? <==> forall j: nat :: j < |memoryTypes| ==>
      !Suitable(memoryTypes, requirements.memoryTypeBits, HOST_VISIBLE_COHERENT, j)
  {
    var memoryTypeIndex :- FindMemoryType(memoryTypes, requirements.memoryTypeBits,
      HOST_VISIBLE_COHERENT);
    SuitableForFewerProperties(memoryTypes, requirements.memoryTypeBits,
      HOST_VISIBLE_COHERENT, MEMORY_PROPERTY_HOST_VISIBLE, memoryTypeIndex);
    return Ok(MemoryAllocateInfo(requirements.size, memoryTypeIndex));
  }

  /**
   * The allocation for the offscreen storage image: exactly the image's
   * requirement size, in the first device-local memory type the image
   * accepts; it throws when there is none.
   */
  method OffscreenImageAllocation(requirements: MemoryRequirements, memoryTypes: seq<bv32>)
    returns (r: Result<MemoryAllocateInfo>)
    requires |memoryTypes| <= MAX_MEMORY_TYPES
    ensures r.Ok? ==> r.value.allocationSize == requirements.size
    ensures r.Ok? ==> Suitable(memoryTypes, requirements.memoryTypeBits, MEMORY_PROPERTY_DEVICE_LOCAL, r.value.memoryTypeIndex)
    ensures r.Ok? ==> forall j: nat :: j < r.value.memoryTypeIndex ==>
      !Suitable(memoryTypes, requirements.memoryTypeBits, MEMORY_PROPERTY_DEVICE_LOCAL, j)
    ensures r.Err? <==> forall j: nat :: j < |memoryTypes| ==>
      !Suitable(memoryTypes, requirements.memoryTypeBits, MEMORY_PROPERTY_DEVICE_LOCAL, j)
  {
    var memoryTypeIndex :- FindMemoryType(memoryTypes, requirements.memoryTypeBits, MEMORY_PROPERTY_DEVICE_LOCAL);
    return Ok(MemoryAllocateInfo(requirements.size, memoryTypeIndex));
  }
}
