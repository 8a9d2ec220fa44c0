/**
 * Descriptor type codes (USB 2.0 Table 9-5), declared through `repr!`.
 * Every `repr!` invocation expands to an enum whose variants carry the
 * listed discriminants (`ToU8`, Rust's `X as u8`) and to `_from`, one
 * `match` with an arm per listed discriminant and `_ => None`.
 */
module Desc {
  import opened Wrappers
  import Repr

  datatype Type =
    | Device
    | Configuration
    | String
    | Interface
    | Endpoint
    | DeviceQualifier
    | OtherSpeedConfiguration
    | InterfacePower
  {
    function ToU8(): bv8 {
      match this
      case Device => 1
      case Configuration => 2
      case String => 3
      case Interface => 4
      case Endpoint => 5
      case DeviceQualifier => 6
      case OtherSpeedConfiguration => 7
      case InterfacePower => 8
    }
  }

  /**
   * `Type::_from`: accepts exactly the codes 1..=8, each naming the variant
   * with that discriminant (so it is injective on what it accepts).
   */
  function TypeFrom(v: bv8): (r: Option<Type>)
    ensures r.Some? <==> 1 <= v <= 8
    ensures r.Some? ==> r.value.ToU8() == v
  {
    match v
    case 1 => Some(Device)
    case 2 => Some(Configuration)
    case 3 => Some(String)
    case 4 => Some(Interface)
    case 5 => Some(Endpoint)
    case 6 => Some(DeviceQualifier)
    case 7 => Some(OtherSpeedConfiguration)
    case 8 => Some(InterfacePower)
    case _ => None
  }

  /** Every descriptor type's code converts back to it. */
  lemma TypeFromRoundTrip(t: Type)
    ensures TypeFrom(t.ToU8()) == Some(t)
  {
  }

  /** The arms of the invocation, in declaration order. */
  const TYPE_ARMS: seq<(bv8, Type)> := [
    (1, Device), (2, Configuration), (3, String), (4, Interface),
    (5, Endpoint), (6, DeviceQualifier), (7, OtherSpeedConfiguration), (8, InterfacePower)]

  lemma ArmsDistinct()
    ensures Repr.Distinct(TYPE_ARMS)
  {
  }

  /** `TypeFrom` is the macro's `match` over the invocation's arms. */
  lemma TypeFromIsRepr(v: bv8)
    ensures TypeFrom(v) == Repr.From(TYPE_ARMS, v)
  {
    ArmsDistinct();
    match v
    case 1 => Repr.FromDeclared(TYPE_ARMS, 0);
    case 2 => Repr.FromDeclared(TYPE_ARMS, 1);
    case 3 => Repr.FromDeclared(TYPE_ARMS, 2);
    case 4 => Repr.FromDeclared(TYPE_ARMS, 3);
    case 5 => Repr.FromDeclared(TYPE_ARMS, 4);
    case 6 => Repr.FromDeclared(TYPE_ARMS, 5);
    case 7 => Repr.FromDeclared(TYPE_ARMS, 6);
    case 8 => Repr.FromDeclared(TYPE_ARMS, 7);
    case _ =>
  }
}
