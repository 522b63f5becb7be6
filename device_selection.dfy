/**
 * Choosing the physical device: the first enumerated device that supports
 * acceleration structures. The program keeps its choice in the global
 * `physicalDevice`, modelled as a field of `Context`.
 */
module DeviceSelection {
  import opened VkTypes

  /**
   * An enumerated `VkPhysicalDevice`: an opaque identity and the
   * `accelerationStructure` feature that `vkGetPhysicalDeviceFeatures2` reports for it.
   */
  datatype PhysicalDevice = PhysicalDevice(id: nat, accelerationStructure: bool)

  /** A `VkPhysicalDevice` variable: `VK_NULL_HANDLE` or one enumerated device. */
  datatype PhysicalDeviceHandle = NullHandle | Handle(device: PhysicalDevice)

  /**
   * How device selection ends: `main` returns `EXIT_FAILURE` when no device is
   * enumerated; it only logs, and carries on, when none supports ray tracing.
   */
  datatype SelectionOutcome = NoPhysicalDevices | NoRayTracingDevice | Selected

  /** The position of the first device that supports acceleration structures, if any. */
  function FirstRayTracingDevice(devices: seq<PhysicalDevice>): (r: Option<nat>)
    ensures r.Some? ==> r.value < |devices| && devices[r.value].accelerationStructure
    ensures r.Some? ==> forall j :: 0 <= j < r.value ==> !devices[j].accelerationStructure
    ensures r.None? <==> forall j :: 0 <= j < |devices| ==> !devices[j].accelerationStructure
  {
    if devices == [] then None
    else if devices[0].accelerationStructure then Some(0)
    else
      match FirstRayTracingDevice(devices[1..])
      case None => None
      case Some(i) => Some(i + 1)
  }

  /** Devices enumerated after a ray-tracing-capable one never change the choice. */
  lemma {:induction false} LaterDevicesIgnored(devices: seq<PhysicalDevice>, more: seq<PhysicalDevice>)
    requires FirstRayTracingDevice(devices).Some?
    ensures FirstRayTracingDevice(devices + more) == FirstRayTracingDevice(devices)
  {
    var i := FirstRayTracingDevice(devices).value;
    var r := FirstRayTracingDevice(devices + more);
    assert (devices + more)[i] == devices[i];
  }

  class Context {
    /** The global `physicalDevice`. */
    var physicalDevice: PhysicalDeviceHandle

    /** The program starts with `physicalDevice = VK_NULL_HANDLE`. */
    constructor ()
      ensures physicalDevice == NullHandle
    {
      physicalDevice := NullHandle;
    }

    /**
     * The device-count check and the selection loop of `main`: an empty
     * enumeration ends the program; otherwise `physicalDevice` becomes the
     * first device with the acceleration-structure feature and the loop
     * breaks, and when there is none it keeps its old value and the problem
     * is only logged.
     */
    method SelectPhysicalDevice(devices: seq<PhysicalDevice>) returns (outcome: SelectionOutcome)
      modifies this
      ensures |devices| == 0 ==> outcome == NoPhysicalDevices && physicalDevice == old(physicalDevice)
      ensures FirstRayTracingDevice(devices).Some? ==>
        physicalDevice == Handle(devices[FirstRayTracingDevice(devices).value])
      ensures FirstRayTracingDevice(devices).None? ==> physicalDevice == old(physicalDevice)
      ensures |devices| > 0 ==> outcome == (if physicalDevice == NullHandle then NoRayTracingDevice else Selected)
    {
      if |devices| == 0 {
        return NoPhysicalDevices;
      }
      var ii := 0;
      while ii < |devices|
        invariant ii <= |devices|
        invariant forall j :: 0 <= j < ii ==> !devices[j].accelerationStructure
        invariant physicalDevice == old(physicalDevice)
      {
        if devices[ii].accelerationStructure {
          physicalDevice := Handle(devices[ii]);
          break;
        }
        ii := ii + 1;
      }
      outcome := if physicalDevice == NullHandle then NoRayTracingDevice else Selected;
    }
  }
}
