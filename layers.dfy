/**
 * Choosing which requested validation layers to enable. Layer names are
 * compared with `strcmp`, i.e. as the character strings before their
 * terminating NUL, so a name is a `string` here and `strcmp(a, b) == 0` is `a == b`.
 * The enumerated layers (`vkEnumerateInstanceLayerProperties`) are the parameter
 * `properties`: the names of the layers installed on the system, in the driver's order.
 */
module Layers {

  /** `IsValidationLayerAvailable`: a linear search for `layerName` among the installed layers. */
  method IsValidationLayerAvailable(layerName: string, properties: seq<string>) returns (available: bool)
    ensures available <==> layerName in properties
  {
    var ii := 0;
    while ii < |properties|
      invariant ii <= |properties|
      invariant layerName !in properties[..ii]
    {
      if layerName == properties[ii] {
        return true;
      }
      assert properties[..ii + 1] == properties[..ii] + [properties[ii]];
      ii := ii + 1;
    }
    assert properties[..ii] == properties;
    return false;
  }

  /** The requested layers that are installed, in the order they were requested. */
  function AvailableLayers(requested: seq<string>, properties: seq<string>): seq<string>
  {
    if requested == [] then []
    else
      var last := requested[|requested| - 1];
      AvailableLayers(requested[..|requested| - 1], properties) + (if last in properties then [last] else [])
  }

  /** The requested layers that are not installed: those reported as "Ignoring layer ... as it is unavailable". */
  function IgnoredLayers(requested: seq<string>, properties: seq<string>): seq<string>
  {
    if requested == [] then []
    else
      var last := requested[|requested| - 1];
      IgnoredLayers(requested[..|requested| - 1], properties) + (if last in properties then [] else [last])
  }

  /** The positions in `requested` of the layers that are kept. */
  function KeptIndices(requested: seq<string>, properties: seq<string>): seq<nat>
  {
    if requested == [] then []
    else
      var n := |requested| - 1;
      KeptIndices(requested[..n], properties) + (if requested[n] in properties then [n] else [])
  }

  /**
   * The layer-filter loop of `main`: walks `validationLayers` in order,
   * appending each available layer to `availableValidationLayers` and
   * reporting each unavailable one as ignored.
   */
  method FilterValidationLayers(validationLayers: seq<string>, properties: seq<string>)
    returns (availableValidationLayers: seq<string>, ignored: seq<string>)
    ensures availableValidationLayers == AvailableLayers(validationLayers, properties)
    ensures ignored == IgnoredLayers(validationLayers, properties)
  {
    availableValidationLayers, ignored := [], [];
    var ii := 0;
    while ii < |validationLayers|
      invariant ii <= |validationLayers|
      invariant availableValidationLayers == AvailableLayers(validationLayers[..ii], properties)
      invariant ignored == IgnoredLayers(validationLayers[..ii], properties)
    {
      var available := IsValidationLayerAvailable(validationLayers[ii], properties);
      if available {
        availableValidationLayers := availableValidationLayers + [validationLayers[ii]];
      } else {
        ignored := ignored + [validationLayers[ii]];
      }
      assert validationLayers[..ii + 1][..ii] == validationLayers[..ii];
      ii := ii + 1;
    }
    assert validationLayers[..ii] == validationLayers;
  }

  /** A layer is enabled exactly when it was requested and is installed. */
  lemma {:induction false} AvailableLayersMembership(requested: seq<string>, properties: seq<string>, name: string)
    ensures name in AvailableLayers(requested, properties) <==> name in requested && name in properties
  {
    if requested != [] {
      var n := |requested| - 1;
      AvailableLayersMembership(requested[..n], properties, name);
      assert requested == requested[..n] + [requested[n]];
    }
  }

  /**
   * The enabled layers are the order-preserving subsequence of the requested
   * ones picked out by `KeptIndices`: increasing positions, exactly the
   * positions whose layer is installed.
   */
  lemma {:induction false} AvailableLayersAreKeptInOrder(requested: seq<string>, properties: seq<string>)
    ensures |KeptIndices(requested, properties)| == |AvailableLayers(requested, properties)|
    ensures forall i :: 0 <= i < |KeptIndices(requested, properties)| ==>
      KeptIndices(requested, properties)[i] < |requested| &&
      AvailableLayers(requested, properties)[i] == requested[KeptIndices(requested, properties)[i]]
    ensures forall i, j :: 0 <= i < j < |KeptIndices(requested, properties)| ==>
      KeptIndices(requested, properties)[i] < KeptIndices(requested, properties)[j]
    ensures forall j :: 0 <= j < |requested| ==>
      (j in KeptIndices(requested, properties) <==> requested[j] in properties)
  {
    if requested != [] {
      var n := |requested| - 1;
      var prefix := requested[..n];
      AvailableLayersAreKeptInOrder(prefix, properties);
      var k := KeptIndices(prefix, properties);
      assert forall i :: 0 <= i < |k| ==> k[i] < n;
      forall j | 0 <= j < n
        ensures requested[j] == prefix[j]
      {
      }
    }
  }

  /** Every requested layer is either enabled or reported as ignored, and nothing else happens to it. */
  lemma {:induction false} LayersPartitioned(requested: seq<string>, properties: seq<string>)
    ensures multiset(AvailableLayers(requested, properties)) + multiset(IgnoredLayers(requested, properties))
      == multiset(requested)
  {
    if requested != [] {
      var n := |requested| - 1;
      LayersPartitioned(requested[..n], properties);
      assert requested == requested[..n] + [requested[n]];
    }
  }

  /** When every requested layer is installed, all of them are enabled, in order. */
  lemma {:induction false} AllInstalledAllEnabled(requested: seq<string>, properties: seq<string>)
    requires forall i :: 0 <= i < |requested| ==> requested[i] in properties
    ensures AvailableLayers(requested, properties) == requested
  {
    if requested != [] {
      var n := |requested| - 1;
      AllInstalledAllEnabled(requested[..n], properties);
      assert requested == requested[..n] + [requested[n]];
    }
  }
}
