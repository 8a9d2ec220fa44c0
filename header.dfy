/** The CDC Header functional descriptor (section 5.2.3.1 of CDC 1.2). */
module CdcHeader {
  import opened Wire
  import Cdc

  datatype Descriptor = Descriptor(bcdCDC: bv16) {
    /** The size of this descriptor on the wire. */
    static const SIZE: bv8 := 5

    /**
     * `Descriptor::bytes`: size, CS_INTERFACE, the Header subtype, then
     * `bcdCDC` little-endian, which the last two bytes reassemble to.
     */
    function Bytes(): (r: seq<bv8>)
      ensures |r| == 5 && r[0] == SIZE
      ensures r[1] == Cdc.CS_INTERFACE && r[2] == Cdc.SUBTYPE_HEADER
      ensures Word(r[4], r[3]) == bcdCDC
    {
      WordOfBytes(bcdCDC);
      [SIZE, Cdc.CS_INTERFACE, Cdc.SUBTYPE_HEADER, Lo(bcdCDC), Hi(bcdCDC)]
    }
  }

  /** Distinct release numbers give distinct descriptors. */
  lemma BytesInjective(a: Descriptor, b: Descriptor)
    ensures a.Bytes() == b.Bytes() ==> a == b
  {
  }
}
