/** The standard device descriptor (section 9.6.1 of USB 2.0, Table 9-8). */
module DeviceDescriptor {
  import opened Wrappers
  import opened Wire
  import Desc

  /** Maximum packet size of endpoint zero. */
  datatype MaxPacketSize0 = B8 | B16 | B32 | B64 {
    function ToU8(): bv8 {
      match this
      case B8 => 8
      case B16 => 16
      case B32 => 32
      case B64 => 64
    }
  }

  /** The USB release this device complies with, 2.00 in binary-coded decimal. */
  const bcdUSB: bv16 := 0x0200

  /** A device descriptor. */
  datatype Descriptor = Descriptor(
    bDeviceClass: bv8,
    bDeviceSubClass: bv8,
    bDeviceProtocol: bv8,
    bMaxPacketSize0: MaxPacketSize0,
    idVendor: bv16,
    idProduct: bv16,
    bcdDevice: bv16,
    iManufacturer: Option<NonZeroU8>,
    iProduct: Option<NonZeroU8>,
    iSerialNumber: Option<NonZeroU8>,
    bNumConfigurations: NonZeroU8)
  {
    /** The size of this descriptor on the wire. */
    static const SIZE: bv8 := 18

    /**
     * `Descriptor::bytes`: every field in its place, the 16-bit fields
     * little-endian, and each string index 0 when absent.
     */
    function Bytes(): (r: seq<bv8>)
      ensures |r| == 18 && r[0] == SIZE && r[1] == Desc.Type.Device.ToU8() && Word(r[3], r[2]) == bcdUSB
      ensures r[4] == bDeviceClass && r[5] == bDeviceSubClass && r[6] == bDeviceProtocol
      ensures r[7] in {8, 16, 32, 64} && r[7] == bMaxPacketSize0.ToU8()
      ensures Word(r[9], r[8]) == idVendor && Word(r[11], r[10]) == idProduct && Word(r[13], r[12]) == bcdDevice
      ensures NonZero(r[14]) == iManufacturer && NonZero(r[15]) == iProduct && NonZero(r[16]) == iSerialNumber
      ensures r[17] != 0 && r[17] == bNumConfigurations
    {
      WordOfBytes(bcdUSB);
      WordOfBytes(idVendor);
      WordOfBytes(idProduct);
      WordOfBytes(bcdDevice);
      NonZeroOrZero(0, iManufacturer);
      NonZeroOrZero(0, iProduct);
      NonZeroOrZero(0, iSerialNumber);
      [SIZE, Desc.Type.Device.ToU8(), Lo(bcdUSB), Hi(bcdUSB),
       bDeviceClass, bDeviceSubClass, bDeviceProtocol, bMaxPacketSize0.ToU8(),
       Lo(idVendor), Hi(idVendor), Lo(idProduct), Hi(idProduct), Lo(bcdDevice), Hi(bcdDevice),
       OrZero(iManufacturer), OrZero(iProduct), OrZero(iSerialNumber), bNumConfigurations]
    }
  }

  /** Distinct descriptors give distinct byte strings. */
  lemma BytesInjective(a: Descriptor, b: Descriptor)
    ensures a.Bytes() == b.Bytes() ==> a == b
  {
  }
}
