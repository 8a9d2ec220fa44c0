/**
 * Communications Device Class: the interface class codes of a CDC function
 * and the class-specific descriptor constants (CDC 1.2, sections 4.2 to 4.4
 * and 5.2.3).
 */
module Cdc {
  import opened Wire

  /** Communications class subclass codes. */
  datatype SubClass = AbstractControlModel {
    function ToU8(): bv8 {
      0x02
    }
  }

  /** Communications class protocol codes. */
  datatype Protocol = ATCommands {
    function ToU8(): bv8 {
      1
    }
  }

  /** The two interfaces of a CDC function. */
  datatype Class =
    | Communications(subclass: SubClass, protocol: Protocol)
    | CdcData
  {
    /** `Class::class`: Communications is 2, Data is 10; never 0. */
    function ClassCode(): (c: NonZeroU8)
      ensures c == 2 <==> Communications?
      ensures c == 10 <==> CdcData?
    {
      match this
      case Communications(_, _) => 2
      case CdcData => 10
    }

    /** `Class::subclass`: Abstract Control Model for Communications, 0 for Data. */
    function SubclassCode(): (c: bv8)
      ensures Communications? ==> c == subclass.ToU8() == 0x02
      ensures CdcData? ==> c == 0
    {
      match this
      case Communications(subclass, _) => subclass.ToU8()
      case CdcData => 0
    }

    /** `Class::protocol`: AT commands for Communications, 0 for Data. */
    function ProtocolCode(): (c: bv8)
      ensures Communications? ==> c == protocol.ToU8() == 1
      ensures CdcData? ==> c == 0
    {
      match this
      case Communications(_, protocol) => protocol.ToU8()
      case CdcData => 0
    }
  }

  /** The class code alone tells the two interfaces apart, and the three codes describe the class. */
  lemma ClassCodesIdentify(a: Class, b: Class)
    ensures a.ClassCode() == b.ClassCode() <==> a == b
    ensures a.ClassCode() == b.ClassCode() ==> a.SubclassCode() == b.SubclassCode() && a.ProtocolCode() == b.ProtocolCode()
  {
  }

  /** Descriptor type of a class-specific interface descriptor. */
  const CS_INTERFACE: bv8 := 0x24

  /** Functional descriptor subtypes. */
  const SUBTYPE_HEADER: bv8 := 0x00
  const SUBTYPE_CALL: bv8 := 0x01
  const SUBTYPE_ACM: bv8 := 0x02
  const SUBTYPE_UNION: bv8 := 0x06

  /** The subtypes are pairwise distinct, so a descriptor's subtype byte names its kind. */
  lemma SubtypesDistinct()
    ensures |{SUBTYPE_HEADER, SUBTYPE_CALL, SUBTYPE_ACM, SUBTYPE_UNION}| == 4
  {
  }
}
