/**
 * computeIndexType: the VkIndexType a BindIndexBuffer uses for an index
 * array, chosen from the size in bytes of one index value.
 */
module BindIndexBuffer {
  import opened VkTypes

  /** The members of VkIndexType (with VK_EXT_index_type_uint8) that the function can return. */
  datatype IndexType = Uint16 | Uint32 | Uint8Ext | MaxEnum

  /** The enumerant values of the Vulkan headers. */
  function Code(t: IndexType): int
  {
    match t
    case Uint16 => 0
    case Uint32 => 1
    case Uint8Ext => 1000265000
    case MaxEnum => 0x7FFF_FFFF
  }

  /** Bytes per index for a usable index type; 0 for MAX_ENUM, which selects nothing. */
  function IndexSize(t: IndexType): nat
  {
    match t
    case Uint8Ext => 1
    case Uint16 => 2
    case Uint32 => 4
    case MaxEnum => 0
  }

  /** What computeIndexType reads of a vsg::Data: its valueSize(). */
  datatype DataInfo = DataInfo(valueSize: nat)

  /** computeIndexType(indices); None is a null Data pointer. */
  function ComputeIndexType(indices: Option<DataInfo>): (r: IndexType)
    ensures r != MaxEnum <==> indices.Some? && indices.value.valueSize in {1, 2, 4}
    ensures r != MaxEnum ==> IndexSize(r) == indices.value.valueSize
  {
    match indices
    case None => MaxEnum
    case Some(d) =>
      if d.valueSize == 1 then Uint8Ext
      else if d.valueSize == 2 then Uint16
      else if d.valueSize == 4 then Uint32
      else MaxEnum
  }

  /** Every usable index type is selected by its own index size. */
  lemma ComputeIndexTypeOfIndexSize(t: IndexType)
    requires t != MaxEnum
    ensures ComputeIndexType(Some(DataInfo(IndexSize(t)))) == t
  {
  }

  /** Distinct valid value sizes give distinct index types. */
  lemma ComputeIndexTypeInjective(a: DataInfo, b: DataInfo)
    requires ComputeIndexType(Some(a)) != MaxEnum
    requires a.valueSize != b.valueSize
    ensures ComputeIndexType(Some(a)) != ComputeIndexType(Some(b))
  {
  }
}
