/**
 * Opaque handles and small value types shared by the frame pipeline.
 *
 * Every Vulkan object the core only passes around (devices, swapchains,
 * image views, render passes, ...) is an opaque id.  Semaphores are objects,
 * because the core compares and swaps them by identity.
 */
module VkTypes {

  datatype Option<+T> = None | Some(value: T)

  /** Devices are ordered like the pointers that key std::map<Device*, ...>; 0 stands for null. */
  type DeviceId = nat
  type WindowId = nat
  type SwapchainId = nat
  type ImageViewId = nat
  type RenderPassId = nat
  type PagerId = nat
  type HandlerId = nat
  type EventId = nat
  type PhysicalDeviceId = nat

  /** std::numeric_limits<uint32_t>::max() */
  const UINT32_MAX: nat := 0xFFFF_FFFF

  /** A VkResult is an integer code; the core distinguishes only these two. */
  datatype VkResult = VkResult(code: int)
  const VK_SUCCESS: VkResult := VkResult(0)
  const VK_ERROR_OUT_OF_DATE_KHR: VkResult := VkResult(-1000001004)

  /** VkSampleCountFlags / VkSampleCountFlagBits: bit masks, as their numeric value. */
  type SampleFlags = nat
  const VK_SAMPLE_COUNT_1_BIT: SampleFlags := 1

  datatype Extent2D = Extent2D(width: nat, height: nat)
  datatype Offset2D = Offset2D(x: int, y: int)
  datatype Rect2D = Rect2D(offset: Offset2D, extent: Extent2D)

  /** The queue that device->getQueue(family) hands out: determined by device and family. */
  datatype Queue = Queue(device: DeviceId, family: int)

  /** A FrameStamp: wall-clock time (an opaque tick count) and the frame counter. */
  datatype FrameStamp = FrameStamp(time: nat, frameCount: nat)

  /** A GPU semaphore; only its identity matters to the core. */
  class Semaphore {
    constructor ()
    {
    }
  }
}
