/** BufferHelper: its own copy of the memory-type search, and the checks
    createBuffer makes between creating a buffer and binding its memory.
    The handles the driver hands back and the memory requirements it
    reports are inputs. */
module BufferHelper {
  import opened Wrappers
  import opened Vulkan
  import opened MemoryTypes

  /** BufferHelper::findMemoryType: a counting loop with an early return
      over the memoryTypeCount entries of the device's memory types. It
      computes the same index as Device::findMemoryType; only the text it
      throws differs. */
  method FindMemoryType(typeFilter: Flags, properties: Flags, memoryTypes: seq<Flags>) returns (r: Result<nat>)
    requires |memoryTypes| <= MaxMemoryTypes
    ensures r.Ok? ==> r.value < |memoryTypes| && IsSuitableMemoryType(typeFilter, properties, memoryTypes, r.value)
    ensures r.Ok? ==> forall j :: 0 <= j < r.value ==> !IsSuitableMemoryType(typeFilter, properties, memoryTypes, j)
    ensures r.Err? <==> forall j :: 0 <= j < |memoryTypes| ==> !IsSuitableMemoryType(typeFilter, properties, memoryTypes, j)
    ensures r.Err? ==> r.msg == "Failed to find suitable memory type"
    ensures r.Ok? ==> MemoryTypeIndex(typeFilter, properties, memoryTypes) == Some(r.value)
    ensures r.Err? ==> MemoryTypeIndex(typeFilter, properties, memoryTypes) == None
  {
    for i := 0 to |memoryTypes|
      invariant MemoryTypeIndex(typeFilter, properties, memoryTypes) == FirstMemoryTypeFrom(typeFilter, properties, memoryTypes, i)
    {
      if typeFilter & (1 << i) != 0 && memoryTypes[i] & properties == properties {
        return Ok(i);
      }
    }
    return Err("Failed to find suitable memory type");
  }

  /** VkBufferCreateInfo as createBuffer fills it. */
  datatype BufferCreateInfo = BufferCreateInfo(size: U64, usage: Flags, sharingMode: SharingMode)

  /** VkMemoryRequirements as getBufferMemoryRequirements reports them. */
  datatype MemoryRequirements = MemoryRequirements(size: U64, memoryTypeBits: Flags)

  /** VkMemoryAllocateInfo as createBuffer fills it. */
  datatype MemoryAllocateInfo = MemoryAllocateInfo(allocationSize: U64, memoryTypeIndex: nat)

  /** What createBuffer leaves in its two out-parameters, with the create
      and allocate infos it used and the offset it binds at. */
  datatype BufferAllocation = BufferAllocation(
    buffer: Handle,
    bufferInfo: BufferCreateInfo,
    bufferMemory: Handle,
    allocInfo: MemoryAllocateInfo,
    bindOffset: nat)

  /** createBuffer. `createdBuffer` is what createBuffer(bufferInfo)
      returned, `memRequirements` what the driver reports for it, and
      `allocatedMemory` what allocateMemory returned. The allocation check
      of the source tests the constant VK_NULL_HANDLE, so it never fires:
      only a null buffer and a missing memory type raise, and a null
      memory handle is bound as it is. */
  method CreateBuffer(size: U64, usage: Flags, properties: Flags,
                      createdBuffer: Handle, memRequirements: MemoryRequirements,
                      memoryTypes: seq<Flags>, allocatedMemory: Handle) returns (r: Result<BufferAllocation>)
    requires |memoryTypes| <= MaxMemoryTypes
    ensures createdBuffer == NullHandle ==> r == Err("failed to create vertex buffer!")
    ensures createdBuffer != NullHandle && MemoryTypeIndex(memRequirements.memoryTypeBits, properties, memoryTypes).None? ==>
              r == Err("Failed to find suitable memory type")
    ensures r.Ok? <==> createdBuffer != NullHandle &&
                       MemoryTypeIndex(memRequirements.memoryTypeBits, properties, memoryTypes).Some?
    ensures r.Ok? ==>
              r.value == BufferAllocation(
                createdBuffer,
                BufferCreateInfo(size, usage, SharingModeExclusive),
                allocatedMemory,
                MemoryAllocateInfo(memRequirements.size, MemoryTypeIndex(memRequirements.memoryTypeBits, properties, memoryTypes).value),
                0)
    ensures r.Err? ==> r.msg == "failed to create vertex buffer!" || r.msg == "Failed to find suitable memory type"
  {
    var bufferInfo := BufferCreateInfo(size, usage, SharingModeExclusive);
    var buffer := createdBuffer;
    if buffer == NullHandle {
      return Err("failed to create vertex buffer!");
    }
    var memoryTypeIndex := FindMemoryType(memRequirements.memoryTypeBits, properties, memoryTypes);
    if memoryTypeIndex.Err? {
      return Err(memoryTypeIndex.msg);
    }
    var allocInfo := MemoryAllocateInfo(memRequirements.size, memoryTypeIndex.value);
    var bufferMemory := allocatedMemory;
    // The allocation-failure test of the source is `if (VK_NULL_HANDLE)`,
    // a constant false condition; its throw is unreachable and not written.
    r := Ok(BufferAllocation(buffer, bufferInfo, bufferMemory, allocInfo, 0));
  }
}
