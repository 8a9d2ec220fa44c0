/**
 * Human Interface Device class (HID 1.11): the class requests SET_IDLE
 * (section 7.2.4) and GET_DESCRIPTOR for a Report descriptor (section
 * 7.1.1), the interface class codes and the HID descriptor (section 6.2.1).
 */
module Hid {
  import opened Wrappers
  import opened Wire
  import RT = RequestType
  import Usb

  /** The descriptor a HID GET_DESCRIPTOR asks for. */
  datatype GetDescriptor = Report(index: bv8)

  /** The kind of a HID request. */
  datatype Kind =
    | SetIdle(duration: Option<NonZeroU8>, reportId: Option<NonZeroU8>)
    | GetDescriptor(length: bv16, descriptor: GetDescriptor)

  /** A HID request addressed to an interface. */
  datatype Request = Request(interface: bv8, kind: Kind)

  const DESC_TYPE_HID: bv8 := 0x21
  const DESC_TYPE_REPORT: bv8 := 0x22

  const SET_IDLE: bv8 := 10
  const GET_DESCRIPTOR: bv8 := 6

  /** The packets the HID grammar accepts; the request type is not part of them. */
  predicate Accepts(f: Usb.Fields) {
    && f.recipient == RT.Recipient.Interface && Hi(f.wIndex) == 0
    && (|| (f.bRequest == SET_IDLE && f.direction == RT.Direction.HostToDevice && f.wLength == 0)
        || (f.bRequest == GET_DESCRIPTOR && f.direction == RT.Direction.DeviceToHost && Hi(f.wValue) == DESC_TYPE_REPORT))
  }

  /** The packet a host sends for a HID request. */
  function Encode(req: Request): Usb.Fields {
    var i := req.interface as bv16;
    match req.kind
    case SetIdle(duration, reportId) =>
      Usb.Fields(RT.Direction.HostToDevice, RT.Recipient.Interface, SET_IDLE, Word(OrZero(duration), OrZero(reportId)), i, 0)
    case GetDescriptor(length, Report(index)) =>
      Usb.Fields(RT.Direction.DeviceToHost, RT.Recipient.Interface, GET_DESCRIPTOR, Word(DESC_TYPE_REPORT, index), i, length)
  }

  /**
   * `Request::parse2`. Only the direction and the recipient of
   * `bmRequestType` are read. It accepts exactly the packets of `Accepts`,
   * and what it decodes encodes back to the packet: a zero duration or
   * report id decodes as "none", and the interface is `wIndex`.
   */
  function Parse2(f: Usb.Fields): (r: Result<Request>)
    ensures r.Ok? <==> Accepts(f)
    ensures r.Ok? ==> Encode(r.value) == f && r.value.interface as bv16 == f.wIndex
  {
    WordOfBytes(f.wValue);
    if f.bRequest == SET_IDLE && f.recipient == RT.Recipient.Interface
       && f.direction == RT.Direction.HostToDevice && f.wLength == 0 then
      var duration := NonZero(Hi(f.wValue));
      var reportId := NonZero(Lo(f.wValue));
      NonZeroOrZero(Hi(f.wValue), duration);
      NonZeroOrZero(Lo(f.wValue), reportId);
      var interface :- Usb.Windex2Interface(f.wIndex);
      Ok(Request(interface, SetIdle(duration, reportId)))
    else if f.bRequest == GET_DESCRIPTOR && f.recipient == RT.Recipient.Interface
            && f.direction == RT.Direction.DeviceToHost then
      var descTy := Hi(f.wValue);
      var index := Lo(f.wValue);
      var interface :- Usb.Windex2Interface(f.wIndex);
      var length := f.wLength;
      if descTy == DESC_TYPE_REPORT then Ok(Request(interface, GetDescriptor(length, Report(index))))
      else Err
    else Err
  }

  /** The SET_IDLE half of `EncodeParse2`. */
  lemma EncodeParseSetIdle(i: bv8, duration: Option<NonZeroU8>, reportId: Option<NonZeroU8>)
    ensures Parse2(Encode(Request(i, SetIdle(duration, reportId)))) == Ok(Request(i, SetIdle(duration, reportId)))
  {
    assert Lo(i as bv16) == i;
    NonZeroOrZero(0, duration);
    NonZeroOrZero(0, reportId);
  }

  /** The GET_DESCRIPTOR half of `EncodeParse2`. */
  lemma EncodeParseGetDescriptor(i: bv8, length: bv16, index: bv8)
    ensures Parse2(Encode(Request(i, GetDescriptor(length, Report(index))))) == Ok(Request(i, GetDescriptor(length, Report(index))))
  {
    assert Lo(i as bv16) == i;
  }

  /** Every HID request is decoded from the packet that encodes it. */
  lemma EncodeParse2(req: Request)
    ensures Parse2(Encode(req)) == Ok(req)
  {
    match req.kind
    case SetIdle(duration, reportId) => EncodeParseSetIdle(req.interface, duration, reportId);
    case GetDescriptor(length, Report(index)) => EncodeParseGetDescriptor(req.interface, length, index);
  }

  /** Distinct requests are sent as distinct packets. */
  lemma EncodeInjective(a: Request, b: Request)
    ensures Encode(a) == Encode(b) ==> a == b
  {
    EncodeParse2(a);
    EncodeParse2(b);
  }

  /** The HID interface class. */
  datatype Class = Class {
    /** `Class::class`: HID is interface class 3. */
    function ClassCode(): (c: NonZeroU8)
      ensures c == 3
    {
      3
    }

    /** `Class::subclass`: no boot-interface subclass. */
    function SubclassCode(): (c: bv8)
      ensures c == 0
    {
      0
    }

    /** `Class::protocol`: no boot-interface protocol. */
    function ProtocolCode(): (c: bv8)
      ensures c == 0
    {
      0
    }
  }

  /** A country code; the named codes of HID 1.11 section 6.2.1 run from 0 to 35. */
  type Country = c: bv8 | c <= 35

  /** The HID specification release, 1.00 in binary-coded decimal. */
  const bcdHID: bv16 := 0x0100

  /** The HID descriptor of an interface with a single Report descriptor. */
  datatype Descriptor = Descriptor(bCountryCode: Country, wDescriptorLength: bv16) {
    /** The size of this descriptor on the wire. */
    static const SIZE: bv8 := 9

    /**
     * `Descriptor::bytes`: size, the HID type, `bcdHID` little-endian, the
     * country, one class descriptor, of Report type, whose length is
     * little-endian in the last two bytes.
     */
    function Bytes(): (r: seq<bv8>)
      ensures |r| == 9 && r[0] == SIZE && r[1] == DESC_TYPE_HID && Word(r[3], r[2]) == bcdHID
      ensures r[4] == bCountryCode && r[5] == 1 && r[6] == DESC_TYPE_REPORT
      ensures Word(r[8], r[7]) == wDescriptorLength
    {
      WordOfBytes(wDescriptorLength);
      WordOfBytes(bcdHID);
      [SIZE, DESC_TYPE_HID, Lo(bcdHID), Hi(bcdHID), bCountryCode, 1, DESC_TYPE_REPORT,
       Lo(wDescriptorLength), Hi(wDescriptorLength)]
    }
  }

  /** Distinct descriptors give distinct byte strings. */
  lemma BytesInjective(a: Descriptor, b: Descriptor)
    ensures a.Bytes() == b.Bytes() ==> a == b
  {
  }
}
