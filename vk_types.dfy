/**
 * Value types shared by the model: the C integer widths the program uses,
 * the error the program throws, and the Vulkan constants it passes around.
 */
module VkTypes {

  /** `uint32_t`. */
  type u32 = x: int | 0 <= x < 0x1_0000_0000

  /** `uint64_t` (`VkDeviceSize`, device addresses). */
  type u64 = x: int | 0 <= x < 0x1_0000_0000_0000_0000

  /** A byte of a host-side buffer (`uint8_t`). */
  type byte = bv8

  /** Reduces an unbounded integer to the value a `uint32_t` holds after wrap-around. */
  function Wrap32(x: int): (r: u32)
    ensures 0 <= x < 0x1_0000_0000 ==> r == x
  {
    x % 0x1_0000_0000
  }

  /** The one exception the modelled code raises (`std::runtime_error`). */
  datatype Error = NoSuitableMemoryType

  /** A value, or the exception that ends the computation; `:-` propagates the exception like a `throw`. */
  datatype Result<T> = Ok(value: T) | Err(error: Error) {
    predicate IsFailure() {
      Err?
    }

    function PropagateFailure<U>(): Result<U>
      requires Err?
    {
      Err(error)
    }

    function Extract(): T
      requires Ok?
    {
      value
    }
  }

  datatype Option<T> = None | Some(value: T)

  /** `VK_MAX_MEMORY_TYPES`: the length of `VkPhysicalDeviceMemoryProperties::memoryTypes`. */
  const MAX_MEMORY_TYPES: nat := 32

  /** `VkMemoryPropertyFlagBits` used by the program. */
  const MEMORY_PROPERTY_DEVICE_LOCAL: bv32 := 0x1
  const MEMORY_PROPERTY_HOST_VISIBLE: bv32 := 0x2
  const MEMORY_PROPERTY_HOST_COHERENT: bv32 := 0x4
}
