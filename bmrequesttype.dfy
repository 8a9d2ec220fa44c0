/**
 * The `bmRequestType` byte of a SETUP packet (section 9.3 of USB 2.0,
 * Table 9-2): bit 7 is the direction, bits 6..5 the type, bit 4 is reserved
 * and bits 3..0 the recipient.
 */
module RequestType {
  import opened Wrappers
  import Repr

  /** Request direction. */
  datatype Direction = HostToDevice | DeviceToHost {
    function ToU8(): bv8 {
      match this
      case HostToDevice => 0
      case DeviceToHost => 1
    }
  }

  /** Request type. */
  datatype Type = Standard | Class | Vendor {
    function ToU8(): bv8 {
      match this
      case Standard => 0
      case Class => 1
      case Vendor => 2
    }
  }

  /** Request recipient. */
  datatype Recipient = Device | Interface | Endpoint | Other {
    function ToU8(): bv8 {
      match this
      case Device => 0
      case Interface => 1
      case Endpoint => 2
      case Other => 3
    }
  }

  /** The decoded `bmRequestType`. */
  datatype BmRequestType = BmRequestType(direction: Direction, ty: Type, recipient: Recipient)

  /** `Direction::_from`. */
  function DirectionFrom(v: bv8): (r: Option<Direction>)
    ensures r.Some? <==> v <= 1
    ensures r.Some? ==> r.value.ToU8() == v
  {
    match v
    case 0 => Some(HostToDevice)
    case 1 => Some(DeviceToHost)
    case _ => None
  }

  /** `Type::_from`. */
  function TypeFrom(v: bv8): (r: Option<Type>)
    ensures r.Some? <==> v <= 2
    ensures r.Some? ==> r.value.ToU8() == v
  {
    match v
    case 0 => Some(Standard)
    case 1 => Some(Class)
    case 2 => Some(Vendor)
    case _ => None
  }

  /** `Recipient::_from`. */
  function RecipientFrom(v: bv8): (r: Option<Recipient>)
    ensures r.Some? <==> v <= 3
    ensures r.Some? ==> r.value.ToU8() == v
  {
    match v
    case 0 => Some(Device)
    case 1 => Some(Interface)
    case 2 => Some(Endpoint)
    case 3 => Some(Other)
    case _ => None
  }

  /** Every variant's discriminant converts back to it. */
  lemma FromRoundTrip(d: Direction, t: Type, r: Recipient)
    ensures DirectionFrom(d.ToU8()) == Some(d)
    ensures TypeFrom(t.ToU8()) == Some(t)
    ensures RecipientFrom(r.ToU8()) == Some(r)
  {
  }

  /** The arms of the three `repr!` invocations, in declaration order. */
  const DIRECTION_ARMS: seq<(bv8, Direction)> := [(0, HostToDevice), (1, DeviceToHost)]
  const TYPE_ARMS: seq<(bv8, Type)> := [(0, Standard), (1, Class), (2, Vendor)]
  const RECIPIENT_ARMS: seq<(bv8, Recipient)> := [(0, Device), (1, Interface), (2, Endpoint), (3, Other)]

  lemma ArmsDistinct()
    ensures Repr.Distinct(DIRECTION_ARMS) && Repr.Distinct(TYPE_ARMS) && Repr.Distinct(RECIPIENT_ARMS)
  {
  }

  /** Each `_from` above is the macro's `match` over its invocation's arms. */
  lemma FromIsRepr(v: bv8)
    ensures DirectionFrom(v) == Repr.From(DIRECTION_ARMS, v)
    ensures TypeFrom(v) == Repr.From(TYPE_ARMS, v)
    ensures RecipientFrom(v) == Repr.From(RECIPIENT_ARMS, v)
  {
    ArmsDistinct();
    match v
    case 0 =>
      Repr.FromDeclared(DIRECTION_ARMS, 0);
      Repr.FromDeclared(TYPE_ARMS, 0);
      Repr.FromDeclared(RECIPIENT_ARMS, 0);
    case 1 =>
      Repr.FromDeclared(DIRECTION_ARMS, 1);
      Repr.FromDeclared(TYPE_ARMS, 1);
      Repr.FromDeclared(RECIPIENT_ARMS, 1);
    case 2 =>
      Repr.FromDeclared(TYPE_ARMS, 2);
      Repr.FromDeclared(RECIPIENT_ARMS, 2);
    case 3 =>
      Repr.FromDeclared(RECIPIENT_ARMS, 3);
    case _ =>
  }

  /**
   * `bmRequestType::parse`: fails exactly when the type bits are the
   * reserved 0b11 or the recipient is above 3; the direction never fails.
   */
  function Parse(b: bv8): (r: Result<BmRequestType>)
    ensures r.Ok? <==> (b >> 5) & 0x3 != 0x3 && b & 0xF <= 3
    ensures r.Ok? ==> (r.value.direction == HostToDevice <==> b & 0x80 == 0)
    ensures r.Ok? ==> r.value.ty.ToU8() == (b >> 5) & 0x3
    ensures r.Ok? ==> r.value.recipient.ToU8() == b & 0xF
  {
    // `b >> 7` is 0 or 1, so this `?` never fires
    var direction := DirectionFrom(b >> 7).Extract();
    var ty :- TypeFrom((b >> 5) & 0x3).OkOr();
    var recipient :- RecipientFrom(b & 0xF).OkOr();
    Ok(BmRequestType(direction, ty, recipient))
  }

  /** The byte a host sends for a decoded request type, with the reserved bit 4 clear. */
  function Encode(t: BmRequestType): (b: bv8)
    ensures b & 0x10 == 0
    ensures Parse(b) == Ok(t)
  {
    (t.direction.ToU8() << 7) | (t.ty.ToU8() << 5) | t.recipient.ToU8()
  }

  /** Re-encoding a decoded byte gives the byte back with bit 4 cleared. */
  lemma ParseEncode(b: bv8)
    ensures Parse(b).Ok? ==> Encode(Parse(b).value) == b & 0xEF
  {
  }

  /** Bit 4 is never examined. */
  lemma ParseIgnoresBit4(b: bv8)
    ensures Parse(b ^ 0x10) == Parse(b)
  {
  }
}
