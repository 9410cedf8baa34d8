/** Mask: the component on a spawned pickup, holding the MaskData it was given. */
module Masks {
  import opened Wrappers
  import opened GameTypes

  /** The part of a MaskData asset the engine uses: its kind. */
  datatype MaskData = MaskData(maskType: MaskType)

  class Mask {
    var data: Option<MaskData>

    /** A mask instantiated from a prefab carries the data serialized in that prefab. */
    constructor (prefabData: Option<MaskData>)
      ensures data == prefabData
    {
      data := prefabData;
    }

    method Initialize(maskData: Option<MaskData>)
      modifies this
      ensures data == maskData
      ensures GetMaskType() == if maskData.Some? then maskData.value.maskType else Red
    {
      data := maskData;
    }

    /** The kind of the mask: the data's kind, or Red when no data is attached. */
    function GetMaskType(): (kind: MaskType)
      reads this
      ensures data.Some? ==> kind == data.value.maskType
      ensures data.None? ==> kind == Red
    {
      if data.Some? then data.value.maskType else Red
    }
  }
}
