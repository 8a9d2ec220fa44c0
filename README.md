# usb2 in Dafny

A model of the `usb2` crate, a `no_std` codec for USB 2.0 control traffic.
The crate has two halves, and the model has both.

**SETUP-packet decoders.** These are total functions from the five fields of a SETUP packet to a `Result`:
- `bmRequestType::parse` (section 9.3 of USB 2.0);
- the guarded table of the eleven standard requests, `StandardRequest::parse` (section 9.4 of USB 2.0);
- the `wIndex` decoders `windex2endpoint` and `windex2interface`;
- the CDC Abstract Control Management class grammar: SET_LINE_CODING, GET_LINE_CODING and SET_CONTROL_LINE_STATE;
- the HID class grammar: SET_IDLE and GET_DESCRIPTOR for a Report descriptor;
- the `repr!`-generated `_from` conversions from an integer to an enum that all of these use.

Each decoder has a declarative partner:
- an `Accepts` predicate listing its rows, which the decoder is proved to accept exactly;
- an `Encode` function giving the packet a host sends for a request.

Two round trips are proved. Decoding then encoding gives the packet back, with the reserved bit 4 of `bmRequestType` cleared. Encoding then decoding gives the request back.

**Fixed-layout serialisers.** The device, interface, endpoint and interface-association descriptors, the HID descriptor, the CDC Header and ACM functional descriptors, the SERIAL_STATE notification and the line coding structure. For each, the contract states:
- the byte layout;
- that little-endian fields reassemble to their values;
- the bitmap bit positions, with the reserved bits zero;
- that an absent string index is the byte 0.

The device, interface, interface-association, HID and CDC Header descriptors and the line coding structure also carry an injectivity lemma. The endpoint descriptor cannot have one: it keeps the maximum packet size only modulo 2048, and its address byte is a parameter.

Module layout, one Dafny file per crate file:

| file | module | crate file |
|---|---|---|
| bmrequesttype.dfy | `RequestType` | src/bmrequesttype.rs |
| macros.dfy | `Repr` | src/macros.rs |
| desc.dfy | `Desc` | src/desc.rs |
| lib.dfy | `Usb` | src/lib.rs |
| cdc.dfy | `Cdc` | src/cdc.rs |
| header.dfy | `CdcHeader` | src/cdc/header.rs |
| acm.dfy | `CdcAcm` | src/cdc/acm.rs |
| hid.dfy | `Hid` | src/hid.rs |
| endpoint.dfy | `EndpointDescriptor` | src/endpoint.rs |
| device.dfy | `DeviceDescriptor` | src/device.rs |
| interface.dfy | `InterfaceDescriptor` | src/interface.rs |
| ia.dfy | `InterfaceAssociation` | src/ia.rs |
| wire.dfy | `Wire` | Rust's `u8`/`u16`/`u32` casts and `NonZeroU8` |
| wrappers.dfy | `Wrappers` | `Option` and `Result<_, ()>` |
| dispatch.dfy | `Requests` | a labelled composition of the three grammars (see below) |

Integers on the wire are bit-vectors (`bv8`, `bv16`, `bv32`). Rust's truncating `as u8` is written out as `Lo`, `Hi` and `Byte0`..`Byte3`. `NonZeroU8` is the subset type `NonZeroU8`, and `Option<NonZeroU8>` is `Option<NonZeroU8>`.

The `repr!` macro is modelled generically in `Repr`. An invocation is its list of arms, each a discriminant and a variant in declaration order. `Repr.From` is the first-match `match` over that list, with `_ => None`.

Each invocation is also written out as what it expands to:
- a datatype whose `ToU8` gives the declared discriminant;
- a `From` function that is one `match` with an arm per discriminant.

A lemma proves that this expansion equals `Repr.From` over the invocation's arms.

`SerialState::bytes`, `Capabilities::byte` and the endpoint `Descriptor::bytes` build their result by updating a local step by step, so they are methods. The ACM `Descriptor::bytes` is a method too, because it calls `Capabilities::byte`. Everything else is a function.

## Model

| member | source | states |
|---|---|---|
| Repr.From | src/macros.rs:10-14 | the generated `match`: None iff no arm lists the value; otherwise the variant of an arm that lists it |
| Repr.FromDeclared | src/macros.rs:10-14 | with pairwise distinct discriminants, every variant converts back from its own discriminant |
| RequestType.FromIsRepr | src/bmrequesttype.rs:23-54 | the `Direction`, `Type` and `Recipient` conversions are the macro's `match` over their declared arms |
| RequestType.DirectionFrom | src/bmrequesttype.rs:23-30 | `Direction::_from` accepts exactly 0 and 1, each to the variant with that discriminant |
| RequestType.TypeFrom | src/bmrequesttype.rs:32-41 | `Type::_from` accepts exactly 0..=2 (Standard, Class, Vendor), each to the variant with that discriminant |
| RequestType.RecipientFrom | src/bmrequesttype.rs:43-54 | `Recipient::_from` accepts exactly 0..=3, each to the variant with that discriminant |
| RequestType.FromRoundTrip | src/macros.rs:10-14 | every direction, type and recipient converts back from its own discriminant |
| RequestType.Parse | src/bmrequesttype.rs:10-20 | succeeds iff bits 6..5 are not 0b11 and bits 3..0 are at most 3; HostToDevice iff bit 7 is clear; the type is bits 6..5 and the recipient bits 3..0 |
| RequestType.Encode | src/bmrequesttype.rs:10-20 | the byte `dir<<7 \| ty<<5 \| recipient` has bit 4 clear and parses back to the decoded value it was built from |
| RequestType.ParseEncode | src/bmrequesttype.rs:10-20 | re-encoding a successful parse gives the input byte with bit 4 cleared |
| RequestType.ParseIgnoresBit4 | src/bmrequesttype.rs:13 | bit 4 is never examined: `parse(b ^ 0x10) == parse(b)` |
| Desc.TypeFrom | src/desc.rs:1-20 | `Type::_from` accepts exactly 1..=8 (USB 2.0 Table 9-5), each to the variant with that discriminant; 0 and every value from 9 up give None |
| Desc.TypeFromIsRepr | src/desc.rs:1-20 | the descriptor-type conversion is the macro's `match` over its eight declared arms |
| Desc.TypeFromRoundTrip | src/macros.rs:10-14 | `_from(t as u8) == Some(t)` for all eight descriptor types |
| Usb.TestFrom | src/lib.rs:139-152 | `Test::_from` accepts exactly 1..=5, each to the test selector with that code |
| Usb.TestFromIsRepr | src/lib.rs:139-152 | the test-selector conversion is the macro's `match` over its five declared arms |
| Usb.TestFromRoundTrip | src/macros.rs:10-14 | every test selector converts back from its code |
| Usb.Windex2Endpoint | src/lib.rs:357-376 | accepts iff the high byte is 0 and bits 7..4 are 0b0000 (Out) or 0b1000 (In); the number is `wIndex & 0xF`; the endpoint re-encodes to `wIndex` |
| Usb.EndpointRoundTrip | src/lib.rs:357-376 | every endpoint with a 4-bit number decodes from its own `wIndex` |
| Usb.Windex2Interface | src/lib.rs:378-384 | accepts iff the high byte is 0, and the interface then equals `wIndex` |
| Usb.Windex2EndpointExamples | src/lib.rs:393-412 | 0x0080 is In/0, 0x0000 is Out/0, and 0x0010 and 0x0090 are refused |
| Usb.ClearFeatureArm | src/lib.rs:177-194 | CLEAR_FEATURE accepts exactly HostToDevice with wLength 0 and either DEVICE_REMOTE_WAKEUP to the device with wIndex 0 or ENDPOINT_HALT to an endpoint with a valid endpoint `wIndex`; recipient Other is refused; the request re-encodes to the packet |
| Usb.GetConfigurationArm | src/lib.rs:197-201 | GET_CONFIGURATION accepts exactly DeviceToHost to the device with wValue 0, wIndex 0 and wLength 1 |
| Usb.GetDescriptorOf | src/lib.rs:212-229 | Device and DeviceQualifier need index 0 and wIndex 0; Configuration and OtherSpeedConfiguration need wIndex 0 and keep the index; String keeps the index and takes the language id from wIndex; Interface, Endpoint and InterfacePower are refused |
| Usb.GetDescriptorArm | src/lib.rs:204-235 | GET_DESCRIPTOR accepts exactly DeviceToHost to the device with a descriptor row of `GetDescriptorOf`; unknown type codes are refused; the length is wLength, unconstrained |
| Usb.GetInterfaceArm | src/lib.rs:238-244 | GET_INTERFACE accepts exactly DeviceToHost to an interface with wValue 0, wLength 1 and a one-byte wIndex |
| Usb.GetStatusOf | src/lib.rs:248-253 | the status of the device needs wIndex 0, of an endpoint a valid endpoint `wIndex`, of an interface a one-byte wIndex; recipient Other is refused |
| Usb.GetStatusArm | src/lib.rs:247-256 | GET_STATUS accepts exactly DeviceToHost with wValue 0, wLength 2 and a row of `GetStatusOf` |
| Usb.SetAddressArm | src/lib.rs:259-267 | SET_ADDRESS accepts exactly HostToDevice to the device with wIndex 0, wLength 0 and wValue at most 127 (MAX_ADDRESS, src/lib.rs:111); the address is None iff wValue is 0 |
| Usb.SetConfigurationArm | src/lib.rs:270-279 | SET_CONFIGURATION accepts exactly HostToDevice to the device with wIndex 0, wLength 0 and a zero high byte of wValue; the value is None iff the low byte is 0 |
| Usb.SetDescriptorOf | src/lib.rs:289-300 | as `GetDescriptorOf`, with only Device, Configuration and String accepted |
| Usb.SetDescriptorArm | src/lib.rs:281-306 | SET_DESCRIPTOR accepts exactly HostToDevice to the device with a descriptor row of `SetDescriptorOf` |
| Usb.SetFeatureArm | src/lib.rs:308-330 | SET_FEATURE accepts exactly HostToDevice with wLength 0 and one of three rows: DEVICE_REMOTE_WAKEUP to the device with wIndex 0; TEST_MODE to the device with a zero low byte of wIndex and a high byte in 1..=5; ENDPOINT_HALT to an endpoint with a valid endpoint `wIndex` |
| Usb.SetInterfaceArm | src/lib.rs:332-342 | SET_INTERFACE accepts exactly HostToDevice to an interface with wLength 0 and both wIndex and wValue fitting in a byte |
| Usb.SynchFrameArm | src/lib.rs:344-350 | SYNCH_FRAME accepts exactly DeviceToHost to an endpoint with wValue 0, wLength 2 and a valid endpoint `wIndex` |
| Usb.StandardTable | src/lib.rs:174-353 | the table accepts exactly the rows of `Accepts` (USB 2.0 Table 9-3), so every other (bRequest, direction) pair is refused; every decoded request passes its range checks and re-encodes to the packet it came from |
| Usb.ParseStandardRequest | src/lib.rs:156-172 | accepts iff `bmRequestType` parses, its type is Standard and the table accepts; a request type that fails to parse, or is Class or Vendor, is refused before the table is consulted; a decoded request re-encodes to the raw packet with bit 4 of `bmRequestType` cleared |
| Usb.GetDescriptorOfRoundTrip | src/lib.rs:212-229 | every GET_DESCRIPTOR descriptor is decoded from its own type, index and language id |
| Usb.SetDescriptorOfRoundTrip | src/lib.rs:289-300 | every SET_DESCRIPTOR descriptor is decoded from its own type, index and language id |
| Usb.EncodeFeatureRequests | src/lib.rs:177-194 | CLEAR_FEATURE and SET_FEATURE requests are decoded from the packets that encode them |
| Usb.EncodeDescriptorRequests | src/lib.rs:204-235 | GET_DESCRIPTOR and SET_DESCRIPTOR requests are decoded from the packets that encode them |
| Usb.EncodeStatusRequests | src/lib.rs:247-256 | GET_STATUS and SYNCH_FRAME requests are decoded from the packets that encode them |
| Usb.EncodeConfigurationRequests | src/lib.rs:259-279 | GET_CONFIGURATION, SET_CONFIGURATION and SET_ADDRESS requests are decoded from the packets that encode them |
| Usb.EncodeInterfaceRequests | src/lib.rs:238-244 | GET_INTERFACE and SET_INTERFACE requests are decoded from the packets that encode them |
| Usb.EncodeStandardTable | src/lib.rs:174-353 | every standard request in range is decoded by the table from the packet that encodes it |
| Usb.EncodeParseStandardRequest | src/lib.rs:156-353 | the same round trip through the raw `bmRequestType` byte |
| Usb.ParseStandardRequestExamples | src/lib.rs:414-477 | GET_DESCRIPTOR Device and Configuration 0, SET_ADDRESS 16 and SET_CONFIGURATION 1 decode as expected; a wrong index, a language id or a data stage where none belongs is refused |
| Cdc.Class.ClassCode | src/cdc.rs:27-34 | 2 for Communications and 10 for CDC Data, never 0 |
| Cdc.Class.SubclassCode | src/cdc.rs:37-42 | Abstract Control Model (0x02) for Communications, 0 for CDC Data |
| Cdc.Class.ProtocolCode | src/cdc.rs:45-50 | AT commands (1) for Communications, 0 for CDC Data |
| Cdc.ClassCodesIdentify | src/cdc.rs:27-50 | the class code alone tells the two classes apart and determines the subclass and protocol codes |
| Cdc.SubtypesDistinct | src/cdc.rs:69-72 | the Header, Call, ACM and Union subtypes are pairwise distinct |
| CdcHeader.Descriptor.Bytes | src/cdc/header.rs:16-24 | five bytes: SIZE, CS_INTERFACE (0x24), the Header subtype, then `bcdCDC` little-endian, which bytes 3 and 4 reassemble to |
| CdcHeader.BytesInjective | src/cdc/header.rs:16-24 | the encoding is injective in `bcdCDC` |
| CdcAcm.ControlLines | src/cdc/acm.rs:236-237 | the SET_CONTROL_LINE_STATE bitmap has DTR in bit 0, RTS in bit 1 and nothing above |
| CdcAcm.ControlLinesOfBitmap | src/cdc/acm.rs:232-237 | a wValue with no bit above bit 1 is the bitmap of the two lines read from it |
| CdcAcm.Parse2 | src/cdc/acm.rs:193-247 | accepts exactly SET_LINE_CODING (HostToDevice) and GET_LINE_CODING (DeviceToHost) to an interface with wValue 0 and wLength 7, and SET_CONTROL_LINE_STATE (HostToDevice) to an interface with wLength 0 and no wValue bit above bit 1; a non-zero high byte of wIndex is refused; the interface equals wIndex and the request re-encodes to the packet |
| CdcAcm.EncodeParseSetLineCoding | src/cdc/acm.rs:206-215 | SET_LINE_CODING is decoded from the packet that encodes it |
| CdcAcm.EncodeParseGetLineCoding | src/cdc/acm.rs:217-226 | GET_LINE_CODING is decoded from the packet that encodes it |
| CdcAcm.EncodeParseControlLineState | src/cdc/acm.rs:228-243 | SET_CONTROL_LINE_STATE is decoded, with both lines, from the packet that encodes it |
| CdcAcm.EncodeParse2 | src/cdc/acm.rs:193-247 | every ACM request is decoded from the packet that encodes it |
| CdcAcm.EncodeInjective | src/cdc/acm.rs:193-247 | distinct ACM requests are sent as distinct packets |
| CdcAcm.Parse | src/cdc/acm.rs:177-191 | accepts iff `bmRequestType` parses, its type is Class and the grammar accepts; a decoded request re-encodes to the raw packet with bit 4 of `bmRequestType` cleared |
| CdcAcm.EncodeParse | src/cdc/acm.rs:177-247 | the round trip through the raw `bmRequestType` byte with the Class type |
| CdcAcm.SerialState.Bytes | src/cdc/acm.rs:56-100 | ten bytes: `[0xA1, 0x20, 0, 0, interface, 0, 2, 0, bitmap, 0]`; bit 7 of the bitmap is 0 and bits 6..0 are set iff bOverRun, bParity, bFraming, bRingSignal, bBreak, bTxCarrier and bRxCarrier respectively |
| CdcAcm.LineCoding.Bytes | src/cdc/acm.rs:116-131 | seven bytes: dwDTERate little-endian, which bytes 0..3 reassemble to, then the stop-bit, parity and data-bit discriminants (src/cdc/acm.rs:134-173) |
| CdcAcm.LineCodingBytesInjective | src/cdc/acm.rs:121-131 | distinct line codings give distinct byte strings |
| CdcAcm.Capabilities.Byte | src/cdc/acm.rs:274-290 | the upper nibble is 0 and bit i is set iff the i-th capability flag is set |
| CdcAcm.Descriptor.Bytes | src/cdc/acm.rs:293-305 | `[4, 0x24, 0x02, capabilities byte]`, with the bit positions of `Capabilities.Byte` |
| Hid.Parse2 | src/hid.rs:51-106 | reads only the direction and recipient; accepts exactly SET_IDLE (HostToDevice, wLength 0, any wValue) and GET_DESCRIPTOR (DeviceToHost, high byte of wValue 0x22) addressed to an interface with a one-byte wIndex; the interface equals wIndex; a zero duration or report id decodes as None; the request re-encodes to the packet, so the index is the low byte of wValue and the length is wLength |
| Hid.EncodeParseSetIdle | src/hid.rs:67-82 | SET_IDLE is decoded, with both optional bytes, from the packet that encodes it |
| Hid.EncodeParseGetDescriptor | src/hid.rs:83-102 | GET_DESCRIPTOR for a Report descriptor is decoded from the packet that encodes it |
| Hid.EncodeParse2 | src/hid.rs:51-106 | every HID request is decoded from the packet that encodes it |
| Hid.EncodeInjective | src/hid.rs:51-106 | distinct HID requests are sent as distinct packets |
| Hid.Class.ClassCode | src/hid.rs:114-116 | the HID class byte is 3 |
| Hid.Class.SubclassCode | src/hid.rs:119-121 | the subclass byte is 0 |
| Hid.Class.ProtocolCode | src/hid.rs:124-126 | the protocol byte is 0 |
| Hid.Descriptor.Bytes | src/hid.rs:216-235 | nine bytes: 9, 0x21, `bcdHID` 1.00 little-endian, the country, 1, 0x22, and wDescriptorLength little-endian, which the last two bytes reassemble to |
| Hid.BytesInjective | src/hid.rs:223-235 | distinct HID descriptors give distinct byte strings |
| Requests.GrammarsDisjoint | src/hid.rs:51-106 | no packet is accepted by two of the standard, ACM and HID grammars |
| Requests.Parse | src/hid.rs:55 | the labelled composition: a request the standard or ACM parser decodes is that request; a non-Vendor packet the HID grammar accepts decodes to `Hid` of the HID decode, and every `Hid` result is one; nothing else is accepted |
| Requests.HidGetDescriptorExample | src/hid.rs:243-253 | `(129, 6, 0x2200, 2, 64)` is a Standard, device-to-host request to interface 2, which the standard table refuses, and decodes as HID GET_DESCRIPTOR Report 0 of length 64 on interface 2 |
| EndpointDescriptor.Type.BmAttributes | src/endpoint.rs:45-57 | bits 1..0 are Control 0, Isochronous 1, Bulk 2, Interrupt 3; an isochronous endpoint has the synchronization type in bits 3..2, the usage type in bits 5..4 and 0 above; every other type has 0 in bits 7..2 |
| EndpointDescriptor.PacketSizeWord | src/endpoint.rs:101-113 | the packed word keeps the maximum packet size modulo 2048 in bits 10..0, the transactions code in bits 12..11 and 0 in bits 15..13 |
| EndpointDescriptor.Descriptor.Bytes | src/endpoint.rs:95-124 | seven bytes: 7, 5, the address byte, bmAttributes, the packet-size word little-endian, bInterval; bits 10..0 of the word are the maximum packet size modulo 2048, so a larger size is truncated, not refused; bits 12..11 are the transactions code of an Interrupt or Isochronous endpoint and 0 otherwise; bits 15..13 are 0 |
| DeviceDescriptor.Descriptor.Bytes | src/device.rs:51-78 | eighteen bytes: 18, 1, `bcdUSB` 2.00 little-endian, the class, subclass and protocol, a packet size in {8, 16, 32, 64}, idVendor, idProduct and bcdDevice little-endian, the three string indices (0 iff absent), and a non-zero configuration count |
| DeviceDescriptor.BytesInjective | src/device.rs:56-77 | distinct device descriptors give distinct byte strings |
| InterfaceDescriptor.Descriptor.Bytes | src/interface.rs:29-46 | nine bytes: 9, 4, the six byte fields in order and unchanged, then the string index (0 iff absent) |
| InterfaceDescriptor.BytesInjective | src/interface.rs:34-46 | distinct interface descriptors give distinct byte strings |
| InterfaceAssociation.Descriptor.Bytes | src/ia.rs:27-41 | eight bytes: 8, the Interface Association type code, the first interface, a non-zero interface count, a non-zero function class, the subclass and protocol unchanged, then the string index (0 iff absent) |
| InterfaceAssociation.BytesInjective | src/ia.rs:30-41 | distinct association descriptors give distinct byte strings |
| Wire.NonZero | src/lib.rs:265 | `NonZeroU8::new(v)` is None iff v is 0, and otherwise v |
| Wire.OrZero | src/device.rs:72-74 | `map(get).unwrap_or(0)` is 0 iff the index is absent, and otherwise the index |
| Wire.NonZeroOrZero | src/device.rs:72-74 | `NonZeroU8::new` and `unwrap_or(0)` are inverse, so the zero sentinel loses nothing |
| Wire.Word | src/device.rs:66-71 | the word built from a high and a low byte gives each back under the `as u8` and `(w >> 8) as u8` casts the serialisers use |
| Wire.Dword | src/cdc/acm.rs:123-126 | the 32-bit word built from four bytes gives each back under the `(d >> 8k) as u8` casts |

## Left out

- The top-level `Request` enum and its `parse` are compiled out (`#[cfg(TODO)]`, src/lib.rs:52-56). `Requests.Parse` is a separate composition that follows only the grammars' own statements of which request types they take: Standard for the standard table, Class for ACM, Standard or Class for HID. It is pinned by the HID test. Because the grammars are proved disjoint, no trying order is assumed.
- `State`, `Address` and `StringIndex` (src/lib.rs:24-34) are plain data with no operation in the crate.
- The `brequest`, `feature` and `configuration` modules (src/lib.rs:18-22) are not part of this model. The request codes and feature selectors are the constants of USB 2.0 Tables 9-4 and 9-6, declared in `Usb`.
- `cdc::call` and `cdc::union` (src/cdc.rs:6-8) are not part of this model; only their subtype constants are.
- `Endpoint::byte()` (src/endpoint.rs:118) is not part of this model. `EndpointDescriptor.Descriptor.Bytes` takes the address byte as a parameter and states only where it is placed.
- The Interface Association descriptor type code (src/ia.rs:33) names `desc::Type::InterfaceAssociation`, which src/desc.rs does not declare. `InterfaceAssociation.Descriptor.Bytes` takes the code as a parameter.
- The 36 named variants of the HID `Country` enum (src/hid.rs:140-213) are modelled as the byte range 0..=35; the names carry no logic.
- `unsafe { NonZeroU8::new_unchecked(..) }` (src/cdc.rs:28-33, src/hid.rs:115) is modelled as the constant non-zero value it builds.
- The derives and doc-attribute plumbing of `repr!` (src/macros.rs:2-7), and the crate's other derives, carry no logic and are not modelled. Discriminants are modelled as `u8`, the only width the crate instantiates.
- `SIZE` constants typed `u8` are `bv8` constants; the `[u8; SIZE as usize]` array type is a `seq<bv8>` whose length the contracts fix.
