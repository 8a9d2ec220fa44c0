/** The interface association descriptor (USB 2.0 Interface Association Descriptor ECN, Table 9-Z). */
module InterfaceAssociation {
  import opened Wrappers
  import opened Wire

  /** An interface association descriptor. */
  datatype Descriptor = Descriptor(
    bFirstInterface: bv8,
    bInterfaceCount: NonZeroU8,
    bFunctionClass: NonZeroU8,
    bFunctionSubClass: bv8,
    bFunctionProtocol: bv8,
    iFunction: Option<NonZeroU8>)
  {
    /** The size of this descriptor in bytes. */
    static const SIZE: bv8 := 8

    /**
     * `Descriptor::bytes`. `descriptorType` is the code of the Interface
     * Association descriptor type. The interface count and the function
     * class are never 0; the string index is 0 when absent.
     */
    function Bytes(descriptorType: bv8): (r: seq<bv8>)
      ensures |r| == 8 && r[0] == SIZE && r[1] == descriptorType
      ensures r[2] == bFirstInterface && r[3] == bInterfaceCount && r[4] == bFunctionClass
      ensures r[3] != 0 && r[4] != 0
      ensures r[5] == bFunctionSubClass && r[6] == bFunctionProtocol
      ensures NonZero(r[7]) == iFunction
    {
      NonZeroOrZero(0, iFunction);
      [SIZE, descriptorType, bFirstInterface, bInterfaceCount, bFunctionClass,
       bFunctionSubClass, bFunctionProtocol, OrZero(iFunction)]
    }
  }

  /** Distinct descriptors give distinct byte strings. */
  lemma BytesInjective(a: Descriptor, b: Descriptor, descriptorType: bv8)
    ensures a.Bytes(descriptorType) == b.Bytes(descriptorType) ==> a == b
  {
  }
}
