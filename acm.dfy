/**
 * CDC Abstract Control Management (CDC PSTN subclass 1.2): the class
 * requests SET_LINE_CODING, GET_LINE_CODING and SET_CONTROL_LINE_STATE
 * (sections 6.3.10 to 6.3.12), the SERIAL_STATE notification (section
 * 6.5.4), the line coding structure and the ACM functional descriptor
 * (section 5.3.2).
 */
module CdcAcm {
  import opened Wrappers
  import opened Wire
  import RT = RequestType
  import Usb
  import Cdc

  /** The kind of an ACM request. */
  datatype Kind =
    | GetLineCoding
    | SetLineCoding
    | SetControlLineState(dtr: bool, rts: bool)

  /** An ACM request addressed to an interface. */
  datatype Request = Request(interface: bv8, kind: Kind)

  const SET_LINE_CODING: bv8 := 0x20
  const GET_LINE_CODING: bv8 := 0x21
  const SET_CONTROL_LINE_STATE: bv8 := 0x22

  /** The packets the ACM grammar accepts; the request type is not part of them. */
  predicate Accepts(f: Usb.Fields) {
    var interfaceIndex := f.recipient == RT.Recipient.Interface && Hi(f.wIndex) == 0;
    match f.bRequest
    case 0x20 /* SET_LINE_CODING */ =>
      f.direction == RT.Direction.HostToDevice && interfaceIndex && f.wValue == 0 && f.wLength == 7
    case 0x21 /* GET_LINE_CODING */ =>
      f.direction == RT.Direction.DeviceToHost && interfaceIndex && f.wValue == 0 && f.wLength == 7
    case 0x22 /* SET_CONTROL_LINE_STATE */ =>
      f.direction == RT.Direction.HostToDevice && interfaceIndex && f.wLength == 0 && f.wValue <= 3
    case _ => false
  }

  /** The control-line bitmap of SET_CONTROL_LINE_STATE: DTR is bit 0, RTS bit 1. */
  function ControlLines(dtr: bool, rts: bool): (w: bv16)
    ensures w <= 3
    ensures (w & 1 != 0) == dtr && (w & 2 != 0) == rts
  {
    (if rts then 2 else 0) | (if dtr then 1 else 0)
  }

  /** A bitmap with no bit above bit 1 is the bitmap of its own two lines. */
  lemma ControlLinesOfBitmap(w: bv16)
    requires w & !3 == 0
    ensures w <= 3 && ControlLines(w & 1 != 0, w & 2 != 0) == w
  {
  }

  /** The packet a host sends for an ACM request. */
  function Encode(req: Request): Usb.Fields {
    var i := req.interface as bv16;
    match req.kind
    case SetLineCoding =>
      Usb.Fields(RT.Direction.HostToDevice, RT.Recipient.Interface, SET_LINE_CODING, 0, i, 7)
    case GetLineCoding =>
      Usb.Fields(RT.Direction.DeviceToHost, RT.Recipient.Interface, GET_LINE_CODING, 0, i, 7)
    case SetControlLineState(dtr, rts) =>
      Usb.Fields(RT.Direction.HostToDevice, RT.Recipient.Interface, SET_CONTROL_LINE_STATE, ControlLines(dtr, rts), i, 0)
  }

  /**
   * `Request::parse2`: the `match (brequest, direction)` of the ACM
   * grammar. It accepts exactly the packets of `Accepts`, and what it
   * decodes encodes back to the packet, so the interface is `wIndex`.
   */
  function Parse2(f: Usb.Fields): (r: Result<Request>)
    ensures r.Ok? <==> Accepts(f)
    ensures r.Ok? ==> Encode(r.value) == f && r.value.interface as bv16 == f.wIndex
  {
    if f.bRequest == SET_LINE_CODING && f.direction == RT.Direction.HostToDevice
       && f.recipient == RT.Recipient.Interface && f.wValue == 0 && f.wLength == 7 then
      var interface :- Usb.Windex2Interface(f.wIndex);
      Ok(Request(interface, SetLineCoding))
    else if f.bRequest == GET_LINE_CODING && f.direction == RT.Direction.DeviceToHost
            && f.recipient == RT.Recipient.Interface && f.wValue == 0 && f.wLength == 7 then
      var interface :- Usb.Windex2Interface(f.wIndex);
      Ok(Request(interface, GetLineCoding))
    else if f.bRequest == SET_CONTROL_LINE_STATE && f.direction == RT.Direction.HostToDevice
            && f.recipient == RT.Recipient.Interface && f.wLength == 0 then
      var interface :- Usb.Windex2Interface(f.wIndex);
      if f.wValue & !3 != 0 then Err
      else
        ControlLinesOfBitmap(f.wValue);
        var dtr := f.wValue & 1 != 0;
        var rts := f.wValue & 2 != 0;
        Ok(Request(interface, SetControlLineState(dtr, rts)))
    else Err
  }

  /** The SET_CONTROL_LINE_STATE case of `EncodeParse2`. */
  lemma EncodeParseControlLineState(i: bv8, dtr: bool, rts: bool)
    ensures Parse2(Encode(Request(i, SetControlLineState(dtr, rts)))) == Ok(Request(i, SetControlLineState(dtr, rts)))
  {
    assert Lo(i as bv16) == i;
    assert ControlLines(dtr, rts) & !3 == 0;
  }

  /** The SET_LINE_CODING case of `EncodeParse2`. */
  lemma EncodeParseSetLineCoding(i: bv8)
    ensures Parse2(Encode(Request(i, SetLineCoding))) == Ok(Request(i, SetLineCoding))
  {
    assert Lo(i as bv16) == i;
  }

  /** The GET_LINE_CODING case of `EncodeParse2`. */
  lemma EncodeParseGetLineCoding(i: bv8)
    ensures Parse2(Encode(Request(i, GetLineCoding))) == Ok(Request(i, GetLineCoding))
  {
    assert Lo(i as bv16) == i;
  }

  /** Every ACM request is decoded from the packet that encodes it. */
  lemma EncodeParse2(req: Request)
    ensures Parse2(Encode(req)) == Ok(req)
  {
    match req.kind
    case SetLineCoding => EncodeParseSetLineCoding(req.interface);
    case GetLineCoding => EncodeParseGetLineCoding(req.interface);
    case SetControlLineState(dtr, rts) => EncodeParseControlLineState(req.interface, dtr, rts);
  }

  /** Distinct requests are sent as distinct packets. */
  lemma EncodeInjective(a: Request, b: Request)
    ensures Encode(a) == Encode(b) ==> a == b
  {
    EncodeParse2(a);
    EncodeParse2(b);
  }

  /**
   * `Request::parse`: a `bmRequestType` that does not decode, or whose type
   * is not Class, is rejected before the grammar is consulted.
   */
  function Parse(bm: bv8, brequest: bv8, wvalue: bv16, windex: bv16, wlength: bv16) : (r: Result<Request>)
    ensures r.Ok? <==> && RT.Parse(bm).Ok? && RT.Parse(bm).value.ty == RT.Type.Class
                       && Accepts(Usb.Fields(RT.Parse(bm).value.direction, RT.Parse(bm).value.recipient,
                                             brequest, wvalue, windex, wlength))
    ensures r.Ok? ==> Usb.ToSetup(Encode(r.value), RT.Type.Class) == Usb.Setup(bm & 0xEF, brequest, wvalue, windex, wlength)
  {
    var rt :- RT.Parse(bm);
    if rt.ty != RT.Type.Class then Err
    else
      RT.ParseEncode(bm);
      Parse2(Usb.Fields(rt.direction, rt.recipient, brequest, wvalue, windex, wlength))
  }

  /** The same round trip on raw packets, with the Class request type. */
  lemma EncodeParse(req: Request)
    ensures var s := Usb.ToSetup(Encode(req), RT.Type.Class);
            Parse(s.bmRequestType, s.bRequest, s.wValue, s.wIndex, s.wLength) == Ok(req)
  {
    EncodeParse2(req);
  }

  /** The SERIAL_STATE notification a device sends on its interrupt endpoint. */
  datatype SerialState = SerialState(
    interface: bv8,
    bOverRun: bool, bParity: bool, bFraming: bool, bRingSignal: bool,
    bBreak: bool, bTxCarrier: bool, bRxCarrier: bool)
  {
    /** Size of this notification on the wire in bytes. */
    static const SIZE: bv8 := 10

    /**
     * `SerialState::bytes`: the notification header (class request type
     * 0xA1, SERIAL_STATE, wValue 0, wIndex the interface, wLength 2) and
     * the two-byte state bitmap, whose bits 6..0 are the seven flags and
     * whose other bits are 0.
     */
    method Bytes() returns (bytes: seq<bv8>)
      ensures |bytes| == 10 && bytes[..8] == [0xA1, 0x20, 0, 0, interface, 0, 2, 0] && bytes[9] == 0
      ensures bytes[8] & 0x80 == 0
      ensures (bytes[8] & 0x40 != 0) == bOverRun && (bytes[8] & 0x20 != 0) == bParity
      ensures (bytes[8] & 0x10 != 0) == bFraming && (bytes[8] & 0x08 != 0) == bRingSignal
      ensures (bytes[8] & 0x04 != 0) == bBreak && (bytes[8] & 0x02 != 0) == bTxCarrier
      ensures (bytes[8] & 0x01 != 0) == bRxCarrier
    {
      var SERIAL_STATE: bv8 := 0x20;
      var bitmap: bv8 := 0;
      if bOverRun {
        bitmap := bitmap | (1 << 6);
      }
      if bParity {
        bitmap := bitmap | (1 << 5);
      }
      if bFraming {
        bitmap := bitmap | (1 << 4);
      }
      if bRingSignal {
        bitmap := bitmap | (1 << 3);
      }
      if bBreak {
        bitmap := bitmap | (1 << 2);
      }
      if bTxCarrier {
        bitmap := bitmap | (1 << 1);
      }
      if bRxCarrier {
        bitmap := bitmap | (1 << 0);
      }
      bytes := [0xA1, SERIAL_STATE, 0, 0, interface, 0, 2, 0, bitmap, 0];
    }
  }

  /** Stop bits. */
  datatype CharFormat = Stop1 | Stop1_5 | Stop2 {
    function ToU8(): bv8 {
      match this
      case Stop1 => 0
      case Stop1_5 => 1
      case Stop2 => 2
    }
  }

  /** Parity. */
  datatype ParityType = None | Odd | Even | Mark | Space {
    function ToU8(): bv8 {
      match this
      case None => 0
      case Odd => 1
      case Even => 2
      case Mark => 3
      case Space => 4
    }
  }

  /** Data bits. */
  datatype DataBits = D5 | D6 | D7 | D8 | D16 {
    function ToU8(): bv8 {
      match this
      case D5 => 5
      case D6 => 6
      case D7 => 7
      case D8 => 8
      case D16 => 16
    }
  }

  /** The line coding structure of SET_LINE_CODING and GET_LINE_CODING (section 6.3.11). */
  datatype LineCoding = LineCoding(dwDTERate: bv32, bCharFormat: CharFormat, bParityType: ParityType, bDataBits: DataBits) {
    /** The size of this structure on the wire. */
    static const SIZE: bv8 := 7

    /**
     * `LineCoding::bytes`: the data rate little-endian, which the first
     * four bytes reassemble to, then the three discriminants.
     */
    function Bytes(): (r: seq<bv8>)
      ensures |r| == 7
      ensures Dword(r[3], r[2], r[1], r[0]) == dwDTERate
      ensures r[4] == bCharFormat.ToU8() && r[5] == bParityType.ToU8() && r[6] == bDataBits.ToU8()
    {
      DwordOfBytes(dwDTERate);
      [Byte0(dwDTERate), Byte1(dwDTERate), Byte2(dwDTERate), Byte3(dwDTERate),
       bCharFormat.ToU8(), bParityType.ToU8(), bDataBits.ToU8()]
    }
  }

  /** Distinct line codings give distinct byte strings. */
  lemma LineCodingBytesInjective(a: LineCoding, b: LineCoding)
    ensures a.Bytes() == b.Bytes() ==> a == b
  {
  }

  /** The capabilities an ACM function advertises. */
  datatype Capabilities = Capabilities(comm_features: bool, line_serial: bool, send_break: bool, network_connection: bool) {
    /** `Capabilities::byte`: bit i is the i-th flag and the upper nibble is 0. */
    method Byte() returns (byte: bv8)
      ensures byte & 0xF0 == 0
      ensures (byte & 0x01 != 0) == comm_features && (byte & 0x02 != 0) == line_serial
      ensures (byte & 0x04 != 0) == send_break && (byte & 0x08 != 0) == network_connection
    {
      byte := 0;
      if comm_features {
        byte := byte | (1 << 0);
      }
      if line_serial {
        byte := byte | (1 << 1);
      }
      if send_break {
        byte := byte | (1 << 2);
      }
      if network_connection {
        byte := byte | (1 << 3);
      }
    }
  }

  /** The ACM functional descriptor. */
  datatype Descriptor = Descriptor(bmCapabilities: Capabilities) {
    /** Size of this descriptor on the wire. */
    static const SIZE: bv8 := 4

    /** `Descriptor::bytes`: size, CS_INTERFACE, the ACM subtype and the capabilities byte. */
    method Bytes() returns (bytes: seq<bv8>)
      ensures |bytes| == 4 && bytes[..3] == [SIZE, Cdc.CS_INTERFACE, Cdc.SUBTYPE_ACM]
      ensures bytes[3] & 0xF0 == 0
      ensures (bytes[3] & 0x01 != 0) == bmCapabilities.comm_features
      ensures (bytes[3] & 0x02 != 0) == bmCapabilities.line_serial
      ensures (bytes[3] & 0x04 != 0) == bmCapabilities.send_break
      ensures (bytes[3] & 0x08 != 0) == bmCapabilities.network_connection
    {
      var capabilities := bmCapabilities.Byte();
      bytes := [SIZE, Cdc.CS_INTERFACE, Cdc.SUBTYPE_ACM, capabilities];
    }
  }
}
