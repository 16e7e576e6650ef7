/** The memory-type search of the "Device Memory" section of the Vulkan
    specification, which Device::findMemoryType and
    BufferHelper::findMemoryType both implement: the least index i below
    memoryTypeCount whose bit is set in the resource's memoryTypeBits and
    whose propertyFlags include every requested property. */
module MemoryTypes {
  import opened Wrappers
  import opened Vulkan

  /** `(typeFilter & (1 << i)) && (propertyFlags[i] & properties) == properties` */
  predicate IsSuitableMemoryType(typeFilter: Flags, properties: Flags, propertyFlags: seq<Flags>, i: nat)
    requires i < |propertyFlags| <= MaxMemoryTypes
  {
    typeFilter & (1 << i) != 0 && Contains(propertyFlags[i], properties)
  }

  /** The first suitable index at or after `from`; `propertyFlags` lists the
      propertyFlags of memoryTypes[0 .. memoryTypeCount). */
  function FirstMemoryTypeFrom(typeFilter: Flags, properties: Flags, propertyFlags: seq<Flags>, from: nat): (r: Option<nat>)
    requires |propertyFlags| <= MaxMemoryTypes
    requires from <= |propertyFlags|
    ensures r.Some? ==> from <= r.value < |propertyFlags| && IsSuitableMemoryType(typeFilter, properties, propertyFlags, r.value)
    ensures r.Some? ==> forall j :: from <= j < r.value ==> !IsSuitableMemoryType(typeFilter, properties, propertyFlags, j)
    ensures r.None? ==> forall j :: from <= j < |propertyFlags| ==> !IsSuitableMemoryType(typeFilter, properties, propertyFlags, j)
    decreases |propertyFlags| - from
  {
    if from == |propertyFlags| then None
    else if IsSuitableMemoryType(typeFilter, properties, propertyFlags, from) then Some(from)
    else FirstMemoryTypeFrom(typeFilter, properties, propertyFlags, from + 1)
  }

  /** The index findMemoryType returns, or None where it throws. */
  function MemoryTypeIndex(typeFilter: Flags, properties: Flags, propertyFlags: seq<Flags>): Option<nat>
    requires |propertyFlags| <= MaxMemoryTypes
  {
    FirstMemoryTypeFrom(typeFilter, properties, propertyFlags, 0)
  }

  /** The answer is unique: an index that is suitable, with no suitable index
      below it, is the one the search returns. */
  lemma MemoryTypeIndexIsLeast(typeFilter: Flags, properties: Flags, propertyFlags: seq<Flags>, i: nat)
    requires |propertyFlags| <= MaxMemoryTypes
    requires i < |propertyFlags| && IsSuitableMemoryType(typeFilter, properties, propertyFlags, i)
    requires forall j :: 0 <= j < i ==> !IsSuitableMemoryType(typeFilter, properties, propertyFlags, j)
    ensures MemoryTypeIndex(typeFilter, properties, propertyFlags) == Some(i)
  {
  }
}
