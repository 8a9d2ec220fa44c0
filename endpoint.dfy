/** Standard endpoint descriptors (section 9.6.6 of USB 2.0, Table 9-13). */
module EndpointDescriptor {
  import opened Wire
  import Usb
  import Desc

  /** Synchronization type of an isochronous endpoint. */
  datatype SynchronizationType = NoSynchronization | Asynchronous | Adaptive | Synchronous {
    function ToU8(): bv8 {
      match this
      case NoSynchronization => 0
      case Asynchronous => 1
      case Adaptive => 2
      case Synchronous => 3
    }
  }

  /** Usage type of an isochronous endpoint. */
  datatype UsageType = DataEndpoint | FeedbackEndpoint | ImplicitFeedbackDataEndpoint {
    function ToU8(): bv8 {
      match this
      case DataEndpoint => 0
      case FeedbackEndpoint => 1
      case ImplicitFeedbackDataEndpoint => 2
    }
  }

  /** Additional transactions per microframe of a high-speed periodic endpoint. */
  datatype Transactions = T1 | T2 | T3 {
    function ToU8(): bv8 {
      match this
      case T1 => 0
      case T2 => 1
      case T3 => 2
    }
  }

  /** Transfer type of an endpoint. */
  datatype Type =
    | Bulk
    | Control
    | Interrupt(transactions: Transactions)
    | Isochronous(synchronization: SynchronizationType, usage: UsageType, transactions: Transactions)
  {
    /**
     * `Type::bmAttributes`: bits 1..0 are the transfer type (Control 0,
     * Isochronous 1, Bulk 2, Interrupt 3); an isochronous endpoint adds its
     * synchronization type in bits 3..2 and its usage type in bits 5..4;
     * every other bit is 0.
     */
    function BmAttributes(): (a: bv8)
      ensures a & 3 == (match this case Control => 0 case Isochronous(_, _, _) => 1 case Bulk => 2 case Interrupt(_) => 3)
      ensures Isochronous? ==> (a >> 2) & 3 == synchronization.ToU8() && (a >> 4) & 3 == usage.ToU8() && a >> 6 == 0
      ensures !Isochronous? ==> a >> 2 == 0
    {
      match this
      case Bulk => 0x02
      case Control => 0x00
      case Interrupt(_) => 0x03
      case Isochronous(synchronization, usage, _) => 0x01 | (synchronization.ToU8() << 2) | (usage.ToU8() << 4)
    }
  }

  /**
   * The packet-size word: bits 10..0 are the maximum packet size modulo
   * 2048 and bits 15..11 are `extra`.
   */
  lemma PacketSizeWord(maxPacketSize: bv16, extra: bv16)
    requires extra <= 2
    ensures var word := (maxPacketSize & 0x7FF) | (extra << 11);
            word & 0x7FF == maxPacketSize & 0x7FF && word >> 11 == extra && word >> 13 == 0
  {
  }

  /** An endpoint descriptor. */
  datatype Descriptor = Descriptor(bEndpointAddress: Usb.Endpoint, ty: Type, maxPacketSize: bv16, bInterval: bv8) {
    /** The size of this descriptor on the wire. */
    static const SIZE: bv8 := 7

    /**
     * `Descriptor::bytes`. `address` is the byte `Endpoint::byte` gives for
     * `bEndpointAddress`. The packet-size word, little-endian in bytes 4
     * and 5, holds the maximum packet size modulo 2048 in bits 10..0 (a
     * larger size is truncated), the transactions code of a periodic
     * endpoint in bits 12..11, and 0 in bits 15..13.
     */
    method Bytes(address: bv8) returns (bytes: seq<bv8>)
      ensures |bytes| == 7 && bytes[0] == SIZE && bytes[1] == Desc.Type.Endpoint.ToU8()
      ensures bytes[2] == address && bytes[3] == ty.BmAttributes() && bytes[6] == bInterval
      ensures Word(bytes[5], bytes[4]) & 0x7FF == maxPacketSize & 0x7FF
      ensures Word(bytes[5], bytes[4]) >> 11
              == (if ty.Interrupt? || ty.Isochronous? then ty.transactions.ToU8() as bv16 else 0)
      ensures Word(bytes[5], bytes[4]) >> 13 == 0
    {
      var word := maxPacketSize & 0x7FF; // the low 11 bits
      match ty {
        case Interrupt(transactions) =>
          word := word | ((transactions.ToU8() as bv16) << 11);
        case Isochronous(_, _, transactions) =>
          word := word | ((transactions.ToU8() as bv16) << 11);
        case _ =>
      }
      PacketSizeWord(maxPacketSize, if ty.Interrupt? || ty.Isochronous? then ty.transactions.ToU8() as bv16 else 0);
      WordOfBytes(word);
      bytes := [SIZE, Desc.Type.Endpoint.ToU8(), address, ty.BmAttributes(), Lo(word), Hi(word), bInterval];
    }
  }
}
