# VK_KHR_ray_tracing triangle sample: the decisions it makes, in Dafny

The sample renders one triangle with Vulkan ray tracing. Nearly all of it is
calls into the driver. This model covers the few places where the program
itself decides something. Whatever the driver would report comes in as a
parameter:

- **Memory-type selection** (`FindMemoryType`). It picks the first memory type
  that the resource's `memoryTypeBits` allows and whose property flags include
  every requested flag. If there is none, it throws. Its three callers are also
  modelled. `CreateAccelerationBuffer` allocates the larger of the buffer size
  and the reported requirement, in device-local memory. `CreateMappedBuffer`
  allocates exactly the requirement, in host-visible, host-coherent memory.
  The offscreen storage image gets exactly its requirement, in device-local
  memory.
- **Validation-layer filtering.** `IsValidationLayerAvailable` searches the
  installed layers by name. The loop in `main` keeps the requested layers that
  pass, in order, and reports the rest as ignored.
- **Physical-device selection.** `main` exits when no device is enumerated.
  Otherwise the global `physicalDevice` becomes the first device with the
  acceleration-structure feature. When there is no such device it stays
  `VK_NULL_HANDLE`, and the program only logs this.
- **Shader-binding-table layout.** The handle size is rounded up to the handle
  alignment in `uint32_t` arithmetic, and the table holds three aligned
  handles. Three `sbtHandleSize`-byte slices are copied into three buffers.
  Four strided regions are then handed to `vkCmdTraceRaysKHR`.
- **Present mode.** MAILBOX when the surface reports it, FIFO otherwise.

Modules, one per concern: `VkTypes` (C integer widths, the error, flag
constants), `Bits` (C's `&` and `~` on `uint32_t`, over integers), `Memory`,
`Layers`, `DeviceSelection`, `ShaderBindingTable`, `Presentation`.

Modelling notes:

- Memory property flags are `bv32`. `typeFilter & (1 << ii)` is read as a test
  of bit `ii`. For `ii = 31` the C++ code shifts a signed `1`, which in
  practice also yields bit 31.
- SBT sizes are integers bounded to `uint32_t`. Every `+`, `-` and `*` wraps
  explicitly (`Wrap32`). `&` and `~` are `Bits.BitAnd` and `Bits.BitNot32`.
  The lemmas about the aligned size therefore speak of ordinary remainders
  ("a multiple of the alignment") rather than of bit patterns.
- Layer names compared with `strcmp` are `string`s holding the characters
  before the terminating NUL.
- The global `physicalDevice` is the field of the class
  `DeviceSelection.Context`, and the selection loop is a method on it.
- The driver writes the group handles packed, `shaderGroupHandleSize` bytes
  apart. The program reads them `sbtHandleSizeAligned` bytes apart. The two
  agree when the handle size is a multiple of the alignment, and the lemmas
  that name group contents (`SlicesAreGroupHandles` and the two after it)
  assume exactly that. This holds on every conforming driver: the required
  limits of the Vulkan specification fix `shaderGroupHandleSize` at exactly 32
  and allow `shaderGroupHandleAlignment` to be at most 32, and the alignment
  is a power of two, so it divides 32.

## Model

| member | source | states |
|---|---|---|
| `Memory.FindMemoryType` | VK_KHR_ray_tracing/VK_KHR_ray_tracing.cpp:170-180 | On success the index is below `memoryTypeCount`, its bit is set in `typeFilter` and its flags include all of `properties`. No smaller index has both properties. It fails, with the memory-type error, exactly when no index qualifies. |
| `Memory.NothingSuitableWithoutCandidates` | VK_KHR_ray_tracing/VK_KHR_ray_tracing.cpp:173-179 | With `typeFilter == 0` or no memory types, no index qualifies, so `FindMemoryType` throws. |
| `Memory.SuitableForFewerProperties` | VK_KHR_ray_tracing/VK_KHR_ray_tracing.cpp:175-176 | A type that has all the requested flags also has every subset of them. |
| `Memory.AccelerationAllocationSize` | VK_KHR_ray_tracing/VK_KHR_ray_tracing.cpp:247-249 | The allocation size is at least the requested buffer size and at least the driver's requirement, and equals one of the two. |
| `Memory.AccelerationBufferAllocation` | VK_KHR_ray_tracing/VK_KHR_ray_tracing.cpp:244-260 | Allocates the larger of the two sizes, in the first device-local type the buffer's `memoryTypeBits` allow. Throws exactly when no such type exists. |
| `Memory.MappedBufferAllocation` | VK_KHR_ray_tracing/VK_KHR_ray_tracing.cpp:209-215 | Allocates exactly the requirement size, in the first host-visible, host-coherent type allowed. That type is host-visible. Throws exactly when no such type exists. |
| `Memory.OffscreenImageAllocation` | VK_KHR_ray_tracing/VK_KHR_ray_tracing.cpp:842-849 | Allocates exactly the image's requirement size, in the first device-local type the image's `memoryTypeBits` allow. Throws exactly when no such type exists. |
| `Layers.IsValidationLayerAvailable` | VK_KHR_ray_tracing/VK_KHR_ray_tracing.cpp:304-316 | Returns true exactly when the name equals one of the enumerated layer names. |
| `Layers.FilterValidationLayers` | VK_KHR_ray_tracing/VK_KHR_ray_tracing.cpp:392-400 | The loop builds exactly the filtered list `AvailableLayers`. Its ignored report is exactly `IgnoredLayers`. |
| `Layers.AvailableLayersMembership` | VK_KHR_ray_tracing/VK_KHR_ray_tracing.cpp:393-395 | A name is enabled if and only if it was requested and is installed. |
| `Layers.AvailableLayersAreKeptInOrder` | VK_KHR_ray_tracing/VK_KHR_ray_tracing.cpp:393-400 | The enabled list is the requested list at strictly increasing positions. A position is kept exactly when its layer is installed. |
| `Layers.LayersPartitioned` | VK_KHR_ray_tracing/VK_KHR_ray_tracing.cpp:394-399 | The enabled and ignored layers together are the requested layers, as a multiset. |
| `Layers.AllInstalledAllEnabled` | VK_KHR_ray_tracing/VK_KHR_ray_tracing.cpp:393-400 | When every requested layer is installed, the enabled list is the requested list. |
| `DeviceSelection.FirstRayTracingDevice` | VK_KHR_ray_tracing/VK_KHR_ray_tracing.cpp:430-446 | Gives the position of a device with `accelerationStructure` such that no earlier device has it, or none exactly when no device has it. |
| `DeviceSelection.LaterDevicesIgnored` | VK_KHR_ray_tracing/VK_KHR_ray_tracing.cpp:442-445 | Because of the `break`, devices enumerated after the first capable one never change the choice. |
| `DeviceSelection.Context.constructor` | VK_KHR_ray_tracing/VK_KHR_ray_tracing.cpp:70 | `physicalDevice` starts as `VK_NULL_HANDLE`. |
| `DeviceSelection.Context.SelectPhysicalDevice` | VK_KHR_ray_tracing/VK_KHR_ray_tracing.cpp:420-450 | No devices: exit failure, `physicalDevice` unchanged. Otherwise `physicalDevice` becomes the first capable device, or keeps its old value if there is none. The outcome is the logged "no ray tracing GPU" exactly when `physicalDevice` was still `VK_NULL_HANDLE`, as the constructor leaves it, after the loop. |
| `Presentation.ChoosePresentMode` | VK_KHR_ray_tracing/VK_KHR_ray_tracing.cpp:1087-1105 | The mode is MAILBOX if and only if the surface reports MAILBOX, and FIFO otherwise. |
| `Presentation.ChosenModeIsSupported` | VK_KHR_ray_tracing/VK_KHR_ray_tracing.cpp:1104-1105 | On a surface that supports FIFO, as Vulkan requires of every surface, the chosen mode is one the surface reported. |
| `ShaderBindingTable.AlignedHandleSize` | VK_KHR_ray_tracing/VK_KHR_ray_tracing.cpp:1054-1055 | No contract of its own: C's `(size + alignment - 1) & ~(alignment - 1)` on `uint32_t`. Its properties are stated by `AlignedHandleSizeRoundsUp`, `RoundingDown` and `AlignedHandleSizeKeepsAligned`. |
| `ShaderBindingTable.Layout` | VK_KHR_ray_tracing/VK_KHR_ray_tracing.cpp:1052-1056 | No contract of its own: the three globals, `sbtSize` as a wrapped `uint32_t` product. Its properties are stated by `SlicesInBounds`. |
| `ShaderBindingTable.SliceOffset` | VK_KHR_ray_tracing/VK_KHR_ray_tracing.cpp:1064-1072 | No contract of its own: the three copy offsets into `sbtResults`. Its properties are stated by `SlicesInBounds` and `SlicesAreGroupHandles`. |
| `ShaderBindingTable.SbtBuffersAsWritten` | VK_KHR_ray_tracing/VK_KHR_ray_tracing.cpp:1064-1074 | No contract of its own: the three buffers as the program fills them, hit from slot 1 and miss from slot 2. Its properties are stated by `AsWrittenHitGroupUnreachable`. |
| `ShaderBindingTable.TraceRegionsAsWritten` | VK_KHR_ray_tracing/VK_KHR_ray_tracing.cpp:1158-1173 | No contract of its own: the four regions as written, with the hit assignments landing on `rayMissSBT` (passed at :1206). Its properties are stated by `AsWrittenHitGroupUnreachable`. |
| `ShaderBindingTable.SbtBuffersByGroup` | VK_KHR_ray_tracing/VK_KHR_ray_tracing.cpp:1064-1074 | No contract of its own: the corrected fill, each buffer from its own group's slot. Its properties are stated by `ByGroupRoutesEachGroup`. |
| `ShaderBindingTable.TraceRegionsByGroup` | VK_KHR_ray_tracing/VK_KHR_ray_tracing.cpp:1158-1173 | No contract of its own: the corrected regions, each assigned to the region it is named after. Its properties are stated by `ByGroupRoutesEachGroup`. |
| `ShaderBindingTable.AlignedHandleSizeRoundsUp` | VK_KHR_ray_tracing/VK_KHR_ray_tracing.cpp:1054-1055 | For a power-of-two alignment and no 32-bit overflow, the aligned size is at least the handle size, is a multiple of the alignment, and is below handle size plus alignment. |
| `ShaderBindingTable.RoundingDown` | VK_KHR_ray_tracing/VK_KHR_ray_tracing.cpp:1055 | Masking with `~(sbtHandleAlignment - 1)` rounds a `uint32_t` down to a multiple of the power-of-two alignment. |
| `ShaderBindingTable.AlignedHandleSizeKeepsAligned` | VK_KHR_ray_tracing/VK_KHR_ray_tracing.cpp:1054-1055 | Rounding a size that is already a multiple of the alignment leaves it unchanged. |
| `ShaderBindingTable.SlicesInBounds` | VK_KHR_ray_tracing/VK_KHR_ray_tracing.cpp:1056-1074 | Assumes no overflow. Then `sbtSize` is `3 * sbtHandleSizeAligned` and has room for three packed handles. Slice k starts at `k * sbtHandleSizeAligned` and ends inside the table, before slice k+1 starts, so no copy reads out of bounds. |
| `ShaderBindingTable.SlicesAreGroupHandles` | VK_KHR_ray_tracing/VK_KHR_ray_tracing.cpp:1058-1074 | When the handle size is a multiple of the alignment, the slice at slot g of the handle array is exactly group g's handle. |
| `ShaderBindingTable.AsWrittenHitGroupUnreachable` | VK_KHR_ray_tracing/VK_KHR_ray_tracing.cpp:1163-1171 | As written: `sbtRayHitBuffer` holds the miss group's handle and `sbtRayMissBuffer` the hit group's. The miss region points at `sbtRayHitBuffer`. The hit region is zero, and no region points at the buffer holding the closest-hit handle. |
| `ShaderBindingTable.ByGroupRoutesEachGroup` | VK_KHR_ray_tracing/VK_KHR_ray_tracing.cpp:1032-1033 | Corrected: each buffer holds the handle of the group it is named after, in the pipeline's group order. The ray-generation, miss and hit regions each address that buffer with one record. |

## Left out

- Window creation, the message loop, `WndProc` and `GetExecutablePath`: operating-system plumbing.
- Every `vk*` call is a foreign driver call. The model takes what those calls report as parameters: memory types, buffer requirements and addresses, installed layers, enumerated devices and their features, group handles, present modes. Instance, device, buffer, image, descriptor, pipeline and swapchain creation, and map/copy/unmap, are not modelled.
- `IsValidationLayerAvailable` enumerates the layers again on every call. The model passes one enumeration to all calls, i.e. it assumes the installed layers do not change while the loop runs.
- Acceleration-structure builds, device-address queries and the trace dispatch are left out. The driver does that work.
- Command recording, queue submission, fences, semaphores and the present loop are left out: they are host/device synchronisation.
- `readFile`, the float vertex data, the 3×4 float instance transform and the packing of `VkAccelerationStructureInstanceKHR` are left out: file I/O, floating point, and compiler-defined bitfields.
- `ASSERT_VK_RESULT` and the `RESOLVE_VK_*_PFN` macros only log, so they are left out. The "Ignoring layer" message is kept as the `ignored` output of `FilterValidationLayers`. The "no ray tracing GPU" message is kept as a `SelectionOutcome`.
- The program goes on to query a `VK_NULL_HANDLE` physical device when none supports ray tracing. Everything after selection is driver work, so this is not modelled.
- The bytes `CreateMappedBuffer` copies are modelled only for the shader binding table. The vertex, index and instance buffers carry float or driver data that is not modelled.

## Findings

| source | as written | input that shows it | evidently intended | confidence | as-written member | corrected member |
|---|---|---|---|---|---|---|
| VK_KHR_ray_tracing/VK_KHR_ray_tracing.cpp:1163-1171 | After declaring `rayHitSBT`, the three assignments of the hit region's address, stride and size go to `rayMissSBT`. `rayHitSBT` stays zero, and `vkCmdTraceRaysKHR` gets an empty hit region. Separately, at :1067-1073, `sbtRayHitBuffer` is filled from group 1 (the miss group) and `sbtRayMissBuffer` from group 2 (the hit group). The overwrite therefore still leaves the miss region on the miss handle, but no region references the closest-hit handle. | Any run. For example: handle size 32, alignment 32, and three distinct non-zero buffer addresses. | Each of the ray-generation, miss and hit regions addresses a buffer holding its own group's handle: groups 0, 1 and 2 in `shaderGroups` order. | high — follows from the code text; not executed | `ShaderBindingTable.AsWrittenHitGroupUnreachable` | `ShaderBindingTable.ByGroupRoutesEachGroup` |
