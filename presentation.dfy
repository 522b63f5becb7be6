/** The swapchain's present mode: mailbox when the surface offers it, FIFO otherwise. */
module Presentation {

  /** `VkPresentModeKHR`, a C enum and so a 32-bit signed value. */
  type PresentMode = x: int | -0x8000_0000 <= x < 0x8000_0000

  const PRESENT_MODE_IMMEDIATE: PresentMode := 0
  const PRESENT_MODE_MAILBOX: PresentMode := 1
  const PRESENT_MODE_FIFO: PresentMode := 2
  const PRESENT_MODE_FIFO_RELAXED: PresentMode := 3

  /**
   * `swapchainInfo.presentMode`: `presentModes` is what
   * `vkGetPhysicalDeviceSurfacePresentModesKHR` reports for the surface.
   */
  function ChoosePresentMode(presentModes: seq<PresentMode>): (mode: PresentMode)
    ensures mode == PRESENT_MODE_MAILBOX <==> PRESENT_MODE_MAILBOX in presentModes
    ensures mode != PRESENT_MODE_MAILBOX ==> mode == PRESENT_MODE_FIFO
  {
    if PRESENT_MODE_MAILBOX in presentModes then PRESENT_MODE_MAILBOX else PRESENT_MODE_FIFO
  }

  /**
   * The Vulkan specification requires every surface to support FIFO; on such
   * a surface the chosen mode is always one the surface reported.
   */
  lemma ChosenModeIsSupported(presentModes: seq<PresentMode>)
    requires PRESENT_MODE_FIFO in presentModes
    ensures ChoosePresentMode(presentModes) in presentModes
  {
  }
}
