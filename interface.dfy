/** The standard interface descriptor (section 9.6.5 of USB 2.0, Table 9-12). */
module InterfaceDescriptor {
  import opened Wrappers
  import opened Wire
  import Desc

  /** An interface descriptor. */
  datatype Descriptor = Descriptor(
    bInterfaceNumber: bv8,
    bAlternativeSetting: bv8,
    bNumEndpoints: bv8,
    bInterfaceClass: bv8,
    bInterfaceSubClass: bv8,
    bInterfaceProtocol: bv8,
    iInterface: Option<NonZeroU8>)
  {
    /** The size of this descriptor in bytes. */
    static const SIZE: bv8 := 9

    /** `Descriptor::bytes`: the six byte fields in order, then the string index, 0 when absent. */
    function Bytes(): (r: seq<bv8>)
      ensures |r| == 9 && r[0] == SIZE && r[1] == Desc.Type.Interface.ToU8()
      ensures r[2..8] == [bInterfaceNumber, bAlternativeSetting, bNumEndpoints,
                          bInterfaceClass, bInterfaceSubClass, bInterfaceProtocol]
      ensures NonZero(r[8]) == iInterface
    {
      NonZeroOrZero(0, iInterface);
      [SIZE, Desc.Type.Interface.ToU8(), bInterfaceNumber, bAlternativeSetting, bNumEndpoints,
       bInterfaceClass, bInterfaceSubClass, bInterfaceProtocol, OrZero(iInterface)]
    }
  }

  /** Distinct descriptors give distinct byte strings. */
  lemma BytesInjective(a: Descriptor, b: Descriptor)
    ensures a.Bytes() == b.Bytes() ==> a == b
  {
  }
}
