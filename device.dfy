/** The searches Device runs over what the driver reports: queue-family
    discovery, required extensions and layers, the first suitable physical
    device, a supported format, a memory type, and the queue families a
    logical device is created with. Each query result (queue families with
    their present support, extension and layer names, format and memory
    properties) is an input value. */
module Device {
  import opened Wrappers
  import opened Vulkan
  import opened MemoryTypes

  /** VkQueueFamilyProperties of one family, together with the answer of
      getSurfaceSupportKHR for that family's index. */
  datatype QueueFamilyProperties = QueueFamilyProperties(queueFlags: Flags, queueCount: U32, presentSupport: bool)

  /** The engine's QueueFamilyIndices: a family index per role and a flag
      that says whether that index was ever set. */
  datatype QueueFamilyIndices = QueueFamilyIndices(
    graphicsFamily: nat,
    graphicsFamilyHasValue: bool,
    presentFamily: nat,
    presentFamilyHasValue: bool)
  {
    /** Both roles have been found. */
    predicate IsComplete()
    {
      graphicsFamilyHasValue && presentFamilyHasValue
    }
  }

  /** A freshly declared QueueFamilyIndices: no role found yet. */
  const NoQueueFamilies: QueueFamilyIndices := QueueFamilyIndices(0, false, 0, false)

  predicate SupportsGraphics(family: QueueFamilyProperties)
  {
    family.queueCount > 0 && family.queueFlags & QueueGraphicsBit != 0
  }

  predicate SupportsPresent(family: QueueFamilyProperties)
  {
    family.queueCount > 0 && family.presentSupport
  }

  /** The two tests in the body of findQueueFamilies' loop for family i:
      a later match overwrites an earlier one. */
  function VisitQueueFamily(indices: QueueFamilyIndices, i: nat, family: QueueFamilyProperties): (r: QueueFamilyIndices)
    ensures SupportsGraphics(family) ==> r.graphicsFamily == i && r.graphicsFamilyHasValue
    ensures !SupportsGraphics(family) ==>
              r.graphicsFamily == indices.graphicsFamily && r.graphicsFamilyHasValue == indices.graphicsFamilyHasValue
    ensures SupportsPresent(family) ==> r.presentFamily == i && r.presentFamilyHasValue
    ensures !SupportsPresent(family) ==>
              r.presentFamily == indices.presentFamily && r.presentFamilyHasValue == indices.presentFamilyHasValue
  {
    var afterGraphics :=
      if SupportsGraphics(family) then indices.(graphicsFamily := i, graphicsFamilyHasValue := true) else indices;
    if SupportsPresent(family) then afterGraphics.(presentFamily := i, presentFamilyHasValue := true)
    else afterGraphics
  }

  /** findQueueFamilies' loop from index i on: it stops right after the first
      family at which both roles are known. */
  function ScanQueueFamilies(families: seq<QueueFamilyProperties>, i: nat, indices: QueueFamilyIndices): (r: QueueFamilyIndices)
    requires i <= |families|
    ensures indices.graphicsFamilyHasValue ==> r.graphicsFamilyHasValue
    ensures indices.presentFamilyHasValue ==> r.presentFamilyHasValue
    ensures r.graphicsFamily == indices.graphicsFamily ||
            (i <= r.graphicsFamily < |families| && SupportsGraphics(families[r.graphicsFamily]))
    ensures r.presentFamily == indices.presentFamily ||
            (i <= r.presentFamily < |families| && SupportsPresent(families[r.presentFamily]))
    ensures r.graphicsFamilyHasValue && !indices.graphicsFamilyHasValue ==>
              i <= r.graphicsFamily < |families| && SupportsGraphics(families[r.graphicsFamily])
    ensures r.presentFamilyHasValue && !indices.presentFamilyHasValue ==>
              i <= r.presentFamily < |families| && SupportsPresent(families[r.presentFamily])
    decreases |families| - i
  {
    if i == |families| then indices
    else
      var next := VisitQueueFamily(indices, i, families[i]);
      if next.IsComplete() then next else ScanQueueFamilies(families, i + 1, next)
  }

  /** What findQueueFamilies returns for a device with these queue families. */
  function QueueFamiliesOf(families: seq<QueueFamilyProperties>): QueueFamilyIndices
  {
    ScanQueueFamilies(families, 0, NoQueueFamilies)
  }

  /** findQueueFamilies, as the loop with the early break it is. */
  method FindQueueFamilies(families: seq<QueueFamilyProperties>) returns (indices: QueueFamilyIndices)
    ensures indices == QueueFamiliesOf(families)
  {
    indices := NoQueueFamilies;
    var i := 0;
    while i < |families|
      invariant 0 <= i <= |families|
      invariant ScanQueueFamilies(families, i, indices) == QueueFamiliesOf(families)
    {
      ghost var before := indices;
      var queueFamily := families[i];
      if queueFamily.queueCount > 0 && queueFamily.queueFlags & QueueGraphicsBit != 0 {
        indices := indices.(graphicsFamily := i, graphicsFamilyHasValue := true);
      }
      var presentSupport := queueFamily.presentSupport;
      if queueFamily.queueCount > 0 && presentSupport {
        indices := indices.(presentFamily := i, presentFamilyHasValue := true);
      }
      assert indices == VisitQueueFamily(before, i, queueFamily);
      if indices.IsComplete() {
        break;
      }
      i := i + 1;
    }
  }

  /** Visiting families[..n] one after the other without ever stopping. */
  ghost function VisitAll(families: seq<QueueFamilyProperties>, n: nat): QueueFamilyIndices
    requires n <= |families|
  {
    if n == 0 then NoQueueFamilies
    else VisitQueueFamily(VisitAll(families, n - 1), n - 1, families[n - 1])
  }

  /** After visiting families[..n], a role is known iff some family among
      them has it, and its index is the last such family. */
  lemma {:induction false} VisitAllFacts(families: seq<QueueFamilyProperties>, n: nat)
    requires n <= |families|
    ensures VisitAll(families, n).graphicsFamilyHasValue <==> exists j :: 0 <= j < n && SupportsGraphics(families[j])
    ensures VisitAll(families, n).presentFamilyHasValue <==> exists j :: 0 <= j < n && SupportsPresent(families[j])
    ensures VisitAll(families, n).graphicsFamilyHasValue ==>
              var g := VisitAll(families, n).graphicsFamily;
              g < n && SupportsGraphics(families[g]) && forall j :: g < j < n ==> !SupportsGraphics(families[j])
    ensures VisitAll(families, n).presentFamilyHasValue ==>
              var p := VisitAll(families, n).presentFamily;
              p < n && SupportsPresent(families[p]) && forall j :: p < j < n ==> !SupportsPresent(families[j])
  {
    if n > 0 {
      VisitAllFacts(families, n - 1);
    }
  }

  /** Started after families[..i] left the indices incomplete, the scan ends
      at VisitAll(families, n): n is the first count at which the indices
      are complete, or the number of families. */
  lemma {:induction false} ScanIsVisitAll(families: seq<QueueFamilyProperties>, i: nat) returns (n: nat)
    requires i <= |families|
    requires !VisitAll(families, i).IsComplete()
    ensures i <= n <= |families|
    ensures ScanQueueFamilies(families, i, VisitAll(families, i)) == VisitAll(families, n)
    ensures n == |families| || VisitAll(families, n).IsComplete()
    ensures forall k :: i <= k < n ==> !VisitAll(families, k).IsComplete()
    decreases |families| - i
  {
    if i == |families| {
      n := i;
    } else if VisitAll(families, i + 1).IsComplete() {
      n := i + 1;
    } else {
      n := ScanIsVisitAll(families, i + 1);
    }
  }

  /** A role is found iff some family has it, and what is found has it:
      the indices are complete exactly when the device has a graphics
      family and a present family. */
  lemma QueueFamiliesFound(families: seq<QueueFamilyProperties>)
    ensures QueueFamiliesOf(families).graphicsFamilyHasValue <==>
              exists j :: 0 <= j < |families| && SupportsGraphics(families[j])
    ensures QueueFamiliesOf(families).presentFamilyHasValue <==>
              exists j :: 0 <= j < |families| && SupportsPresent(families[j])
    ensures QueueFamiliesOf(families).graphicsFamilyHasValue ==>
              QueueFamiliesOf(families).graphicsFamily < |families| &&
              SupportsGraphics(families[QueueFamiliesOf(families).graphicsFamily])
    ensures QueueFamiliesOf(families).presentFamilyHasValue ==>
              QueueFamiliesOf(families).presentFamily < |families| &&
              SupportsPresent(families[QueueFamiliesOf(families).presentFamily])
  {
    var n := ScanIsVisitAll(families, 0);
    VisitAllFacts(families, n);
    if n < |families| {
      assert VisitAll(families, n).IsComplete();
    }
  }

  /** The scan stops at the first index m by which both roles have been
      seen: before m one of the roles had no family yet, and each recorded
      index is the last family with that role up to m. */
  lemma QueueFamiliesStopEarly(families: seq<QueueFamilyProperties>)
    requires QueueFamiliesOf(families).IsComplete()
    ensures var r := QueueFamiliesOf(families);
            var m := if r.graphicsFamily < r.presentFamily then r.presentFamily else r.graphicsFamily;
            m < |families| &&
            (forall j :: r.graphicsFamily < j <= m ==> !SupportsGraphics(families[j])) &&
            (forall j :: r.presentFamily < j <= m ==> !SupportsPresent(families[j])) &&
            ((forall j :: 0 <= j < m ==> !SupportsGraphics(families[j])) ||
             (forall j :: 0 <= j < m ==> !SupportsPresent(families[j])))
  {
    var n := ScanIsVisitAll(families, 0);
    VisitAllFacts(families, n);
    assert n > 0;
    assert !VisitAll(families, n - 1).IsComplete();
    VisitAllFacts(families, n - 1);
  }

  /** checkDeviceExtensionSupport's result, as a property of the two lists. */
  predicate ExtensionsSupported(required: seq<string>, available: seq<string>)
  {
    forall e :: e in required ==> e in available
  }

  /** checkDeviceExtensionSupport: erase every available name from the set
      of required names; supported iff nothing is left. */
  method CheckDeviceExtensionSupport(deviceExtensions: seq<string>, availableExtensions: seq<string>) returns (supported: bool)
    ensures supported <==> ExtensionsSupported(deviceExtensions, availableExtensions)
  {
    var requiredExtensions := set e | e in deviceExtensions;
    var i := 0;
    while i < |availableExtensions|
      invariant 0 <= i <= |availableExtensions|
      invariant requiredExtensions == (set e | e in deviceExtensions) - (set e | e in availableExtensions[..i])
    {
      requiredExtensions := requiredExtensions - {availableExtensions[i]};
      assert availableExtensions[..i + 1] == availableExtensions[..i] + [availableExtensions[i]];
      i := i + 1;
    }
    assert availableExtensions[..i] == availableExtensions;
    supported := requiredExtensions == {};
    if supported {
      forall e | e in deviceExtensions
        ensures e in availableExtensions
      {
        assert e !in requiredExtensions;
      }
    } else {
      var e :| e in requiredExtensions;
      assert e in deviceExtensions && e !in availableExtensions;
    }
  }

  /** checkValidationLayerSupport: every requested layer name equals the
      name of some available layer; returns false at the first one that
      does not. */
  method CheckValidationLayerSupport(validationLayers: seq<string>, availableLayers: seq<string>) returns (supported: bool)
    ensures supported <==> forall l :: l in validationLayers ==> l in availableLayers
  {
    var i := 0;
    while i < |validationLayers|
      invariant 0 <= i <= |validationLayers|
      invariant forall k :: 0 <= k < i ==> validationLayers[k] in availableLayers
    {
      var layerName := validationLayers[i];
      var layerFound := false;
      var j := 0;
      while j < |availableLayers|
        invariant 0 <= j <= |availableLayers|
        invariant !layerFound
        invariant forall k :: 0 <= k < j ==> availableLayers[k] != layerName
      {
        if layerName == availableLayers[j] {
          layerFound := true;
          break;
        }
        j := j + 1;
      }
      if !layerFound {
        assert layerName !in availableLayers;
        return false;
      }
      i := i + 1;
    }
    return true;
  }

  /** What the engine learns about one physical device. */
  datatype PhysicalDevice = PhysicalDevice(
    queueFamilies: seq<QueueFamilyProperties>,
    extensions: seq<string>,
    swapChainSupport: SwapChainSupportDetails,
    samplerAnisotropy: bool)

  /** isDeviceSuitable: complete queue families, the required extensions,
      at least one surface format and one present mode (looked at only when
      the extensions are there), and sampler anisotropy. */
  predicate IsDeviceSuitable(device: PhysicalDevice, deviceExtensions: seq<string>)
    ensures IsDeviceSuitable(device, deviceExtensions) ==>
              var indices := QueueFamiliesOf(device.queueFamilies);
              indices.graphicsFamily < |device.queueFamilies| &&
              SupportsGraphics(device.queueFamilies[indices.graphicsFamily]) &&
              indices.presentFamily < |device.queueFamilies| &&
              SupportsPresent(device.queueFamilies[indices.presentFamily])
  {
    var indices := QueueFamiliesOf(device.queueFamilies);
    var extensionsSupported := ExtensionsSupported(deviceExtensions, device.extensions);
    var swapChainAdequate :=
      if extensionsSupported then |device.swapChainSupport.formats| > 0 && |device.swapChainSupport.presentModes| > 0
      else false;
    indices.IsComplete() && extensionsSupported && swapChainAdequate && device.samplerAnisotropy
  }

  /** Suitability in terms of the device alone: a graphics family, a
      present family, every required extension, a format, a present mode
      and anisotropic sampling. */
  lemma SuitableDeviceMeans(device: PhysicalDevice, deviceExtensions: seq<string>)
    ensures IsDeviceSuitable(device, deviceExtensions) <==>
              (exists j :: 0 <= j < |device.queueFamilies| && SupportsGraphics(device.queueFamilies[j])) &&
              (exists j :: 0 <= j < |device.queueFamilies| && SupportsPresent(device.queueFamilies[j])) &&
              ExtensionsSupported(deviceExtensions, device.extensions) &&
              |device.swapChainSupport.formats| > 0 &&
              |device.swapChainSupport.presentModes| > 0 &&
              device.samplerAnisotropy
  {
    QueueFamiliesFound(device.queueFamilies);
  }

  /** pickPhysicalDevice: the index, in enumeration order, of the first
      suitable device; it throws for an empty list and when none is suitable. */
  method PickPhysicalDevice(devices: seq<PhysicalDevice>, deviceExtensions: seq<string>) returns (r: Result<nat>)
    ensures |devices| == 0 ==> r == Err("failed to find GPUs with Vulkan support!")
    ensures r.Ok? <==> exists j :: 0 <= j < |devices| && IsDeviceSuitable(devices[j], deviceExtensions)
    ensures r.Ok? ==> r.value < |devices| && IsDeviceSuitable(devices[r.value], deviceExtensions)
    ensures r.Ok? ==> forall j :: 0 <= j < r.value ==> !IsDeviceSuitable(devices[j], deviceExtensions)
    ensures r.Err? && |devices| > 0 ==> r.msg == "failed to find a suitable GPU!"
  {
    if |devices| == 0 {
      return Err("failed to find GPUs with Vulkan support!");
    }
    var physicalDevice: Option<nat> := None;
    var i := 0;
    while i < |devices|
      invariant 0 <= i <= |devices|
      invariant physicalDevice == None
      invariant forall j :: 0 <= j < i ==> !IsDeviceSuitable(devices[j], deviceExtensions)
    {
      if IsDeviceSuitable(devices[i], deviceExtensions) {
        physicalDevice := Some(i);
        break;
      }
      i := i + 1;
    }
    if physicalDevice.None? {
      return Err("failed to find a suitable GPU!");
    }
    r := Ok(physicalDevice.value);
  }

  /** The VkDeviceQueueCreateInfo fields createLogicalDevice sets (the
      float priority 1.0 is left out). */
  datatype DeviceQueueCreateInfo = DeviceQueueCreateInfo(queueFamilyIndex: nat, queueCount: nat)

  /** std::set<uint32_t>{graphicsFamily, presentFamily} in its ascending
      iteration order. */
  function UniqueQueueFamilies(indices: QueueFamilyIndices): (r: seq<nat>)
    ensures forall i, j :: 0 <= i < j < |r| ==> r[i] < r[j]
    ensures forall f :: f in r <==> f == indices.graphicsFamily || f == indices.presentFamily
  {
    var g, p := indices.graphicsFamily, indices.presentFamily;
    if g == p then [g] else if g < p then [g, p] else [p, g]
  }

  /** The queue-create entries of createLogicalDevice: one entry with one
      queue per distinct family among graphics and present, so one entry
      when they coincide and two otherwise. */
  method QueueCreateInfos(indices: QueueFamilyIndices) returns (queueCreateInfos: seq<DeviceQueueCreateInfo>)
    ensures |queueCreateInfos| == if indices.graphicsFamily == indices.presentFamily then 1 else 2
    ensures forall k :: 0 <= k < |queueCreateInfos| ==> queueCreateInfos[k].queueCount == 1
    ensures forall k :: 0 <= k < |queueCreateInfos| ==>
              queueCreateInfos[k].queueFamilyIndex == indices.graphicsFamily ||
              queueCreateInfos[k].queueFamilyIndex == indices.presentFamily
    ensures exists k :: 0 <= k < |queueCreateInfos| && queueCreateInfos[k].queueFamilyIndex == indices.graphicsFamily
    ensures exists k :: 0 <= k < |queueCreateInfos| && queueCreateInfos[k].queueFamilyIndex == indices.presentFamily
    ensures forall k, m :: 0 <= k < m < |queueCreateInfos| ==>
              queueCreateInfos[k].queueFamilyIndex < queueCreateInfos[m].queueFamilyIndex
  {
    var uniqueQueueFamilies := UniqueQueueFamilies(indices);
    queueCreateInfos := [];
    for k := 0 to |uniqueQueueFamilies|
      invariant |queueCreateInfos| == k
      invariant forall m :: 0 <= m < k ==> queueCreateInfos[m] == DeviceQueueCreateInfo(uniqueQueueFamilies[m], 1)
    {
      queueCreateInfos := queueCreateInfos + [DeviceQueueCreateInfo(uniqueQueueFamilies[k], 1)];
    }
    assert indices.graphicsFamily in uniqueQueueFamilies && indices.presentFamily in uniqueQueueFamilies;
  }

  /** VkFormatProperties */
  datatype FormatProperties = FormatProperties(linearTilingFeatures: Flags, optimalTilingFeatures: Flags, bufferFeatures: Flags)

  /** The test of findSupportedFormat: the feature set of the requested
      tiling contains every requested feature; no other tiling ever passes. */
  predicate SupportsFeatures(props: FormatProperties, tiling: ImageTiling, features: Flags)
  {
    (tiling == ImageTilingLinear && Contains(props.linearTilingFeatures, features)) ||
    (tiling == ImageTilingOptimal && Contains(props.optimalTilingFeatures, features))
  }

  /** findSupportedFormat: the first candidate whose properties (what
      getFormatProperties reports for it, in the same order) support the
      features with the given tiling. */
  method FindSupportedFormat(candidates: seq<Format>, formatProperties: seq<FormatProperties>,
                             tiling: ImageTiling, features: Flags) returns (r: Result<Format>)
    requires |formatProperties| == |candidates|
    ensures r.Ok? <==> exists i :: 0 <= i < |candidates| && SupportsFeatures(formatProperties[i], tiling, features)
    ensures r.Ok? ==> exists i :: (0 <= i < |candidates| && r.value == candidates[i] &&
                                   SupportsFeatures(formatProperties[i], tiling, features) &&
                                   forall j :: 0 <= j < i ==> !SupportsFeatures(formatProperties[j], tiling, features))
    ensures r.Err? ==> r.msg == "failed to find supported format!"
    ensures tiling != ImageTilingLinear && tiling != ImageTilingOptimal ==> r.Err?
  {
    var i := 0;
    while i < |candidates|
      invariant 0 <= i <= |candidates|
      invariant forall j :: 0 <= j < i ==> !SupportsFeatures(formatProperties[j], tiling, features)
    {
      // the linear-tiling and the optimal-tiling test, one of which applies
      if SupportsFeatures(formatProperties[i], tiling, features) {
        return Ok(candidates[i]);
      }
      i := i + 1;
    }
    return Err("failed to find supported format!");
  }

  /** Device::findMemoryType over the propertyFlags of the device's
      memoryTypeCount memory types. */
  method FindMemoryType(typeFilter: Flags, properties: Flags, memoryTypes: seq<Flags>) returns (r: Result<nat>)
    requires |memoryTypes| <= MaxMemoryTypes
    ensures MemoryTypeIndex(typeFilter, properties, memoryTypes).Some? ==>
              r == Ok(MemoryTypeIndex(typeFilter, properties, memoryTypes).value)
    ensures MemoryTypeIndex(typeFilter, properties, memoryTypes).None? ==>
              r == Err("failed to find suitable memory type!")
  {
    var i := 0;
    while i < |memoryTypes|
      invariant 0 <= i <= |memoryTypes|
      invariant MemoryTypeIndex(typeFilter, properties, memoryTypes) == FirstMemoryTypeFrom(typeFilter, properties, memoryTypes, i)
    {
      if typeFilter & (1 << i) != 0 && memoryTypes[i] & properties == properties {
        return Ok(i);
      }
      i := i + 1;
    }
    return Err("failed to find suitable memory type!");
  }
}
