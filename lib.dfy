/**
 * Standard device requests (section 9.4 of USB 2.0): the request values,
 * the `wIndex` decoders and the guarded table that classifies a SETUP
 * packet as one of the eleven standard requests.
 */
module Usb {
  import opened Wrappers
  import opened Wire
  import RT = RequestType
  import Desc
  import Repr

  /** Direction from the point of view of the host. */
  datatype Direction = In | Out

  /** Endpoint address. */
  datatype Endpoint = Endpoint(direction: Direction, number: bv8)

  // bRequest codes (USB 2.0 Table 9-4)
  const GET_STATUS: bv8 := 0
  const CLEAR_FEATURE: bv8 := 1
  const SET_FEATURE: bv8 := 3
  const SET_ADDRESS: bv8 := 5
  const GET_DESCRIPTOR: bv8 := 6
  const SET_DESCRIPTOR: bv8 := 7
  const GET_CONFIGURATION: bv8 := 8
  const SET_CONFIGURATION: bv8 := 9
  const GET_INTERFACE: bv8 := 10
  const SET_INTERFACE: bv8 := 11
  const SYNCH_FRAME: bv8 := 12

  // feature selectors (USB 2.0 Table 9-6)
  const ENDPOINT_HALT: bv16 := 0
  const DEVICE_REMOTE_WAKEUP: bv16 := 1
  const TEST_MODE: bv16 := 2

  const MAX_ADDRESS: bv16 := 127

  /** Test selectors of SET_FEATURE(TEST_MODE), declared through `repr!`. */
  datatype Test = J | K | Se0Nak | Packet | ForceEnable {
    function ToU8(): bv8 {
      match this
      case J => 0x01
      case K => 0x02
      case Se0Nak => 0x03
      case Packet => 0x04
      case ForceEnable => 0x05
    }
  }

  /** `Test::_from`: accepts exactly 1..=5. */
  function TestFrom(v: bv8): (r: Option<Test>)
    ensures r.Some? <==> 1 <= v <= 5
    ensures r.Some? ==> r.value.ToU8() == v
  {
    match v
    case 1 => Some(J)
    case 2 => Some(K)
    case 3 => Some(Se0Nak)
    case 4 => Some(Packet)
    case 5 => Some(ForceEnable)
    case _ => None
  }

  /** Every test selector's code converts back to it. */
  lemma TestFromRoundTrip(t: Test)
    ensures TestFrom(t.ToU8()) == Some(t)
  {
  }

  /** The arms of the `Test` invocation, in declaration order. */
  const TEST_ARMS: seq<(bv8, Test)> := [(1, J), (2, K), (3, Se0Nak), (4, Packet), (5, ForceEnable)]

  lemma TestArmsDistinct()
    ensures Repr.Distinct(TEST_ARMS)
  {
  }

  /** `TestFrom` is the macro's `match` over the invocation's arms. */
  lemma TestFromIsRepr(v: bv8)
    ensures TestFrom(v) == Repr.From(TEST_ARMS, v)
  {
    TestArmsDistinct();
    match v
    case 1 => Repr.FromDeclared(TEST_ARMS, 0);
    case 2 => Repr.FromDeclared(TEST_ARMS, 1);
    case 3 => Repr.FromDeclared(TEST_ARMS, 2);
    case 4 => Repr.FromDeclared(TEST_ARMS, 3);
    case 5 => Repr.FromDeclared(TEST_ARMS, 4);
    case _ =>
  }

  /** GET_DESCRIPTOR descriptor. */
  datatype GetDescriptor =
    | Configuration(index: bv8)
    | Device
    | DeviceQualifier
    | OtherSpeedConfiguration(index: bv8)
    | String(index: bv8, langId: bv16)

  /** SET_DESCRIPTOR descriptor. */
  datatype SetDescriptor =
    | Configuration(index: bv8)
    | Device
    | String(index: bv8, langId: bv16)

  /** CLEAR_FEATURE feature selector. */
  datatype ClearFeature = DeviceRemoteWakeup | EndpointHalt(endpoint: Endpoint)

  /** GET_STATUS recipient. */
  datatype GetStatus = Device | Endpoint(endpoint: Endpoint) | Interface(interface: bv8)

  /** SET_FEATURE feature selector. */
  datatype SetFeature = DeviceRemoteWakeup | EndpointHalt(endpoint: Endpoint) | TestMode(test: Test)

  /** Standard device requests. */
  datatype StandardRequest =
    | ClearFeature(clear: ClearFeature)
    | GetConfiguration
    | GetDescriptor(getDescriptor: GetDescriptor, length: bv16)
    | GetInterface(interface: bv8)
    | GetStatus(status: GetStatus)
    | SetAddress(address: Option<NonZeroU8>)
    | SetConfiguration(value: Option<NonZeroU8>)
    | SetDescriptor(setDescriptor: SetDescriptor, length: bv16)
    | SetFeature(feature: SetFeature)
    | SetInterface(interface: bv8, alternate: bv8)
    | SynchFrame(endpoint: Endpoint)

  /** The five fields of a SETUP packet. */
  datatype Setup = Setup(bmRequestType: bv8, bRequest: bv8, wValue: bv16, wIndex: bv16, wLength: bv16)

  /** A SETUP packet whose `bmRequestType` has been decoded, less the request type the caller checked. */
  datatype Fields = Fields(
    direction: RT.Direction, recipient: RT.Recipient,
    bRequest: bv8, wValue: bv16, wIndex: bv16, wLength: bv16)

  /* ---------------- wIndex decoders ---------------- */

  /** A `wIndex` that addresses an endpoint: high byte zero, direction nibble 0b0000 or 0b1000. */
  predicate IsEndpointIndex(windex: bv16) {
    Hi(windex) == 0 && (Lo(windex) >> 4 == 0 || Lo(windex) >> 4 == 0x8)
  }

  /** The `wIndex` that addresses an endpoint: direction in bit 7, number in bits 3..0. */
  function EndpointIndex(ep: Endpoint): bv16 {
    (if ep.direction == In then 0x80 else 0) | (ep.number as bv16)
  }

  /** `windex2endpoint`: reserved bits must be zero; the number is the low nibble. */
  function Windex2Endpoint(windex: bv16): (r: Result<Endpoint>)
    ensures r.Ok? <==> IsEndpointIndex(windex)
    ensures r.Ok? ==> (r.value.direction == In <==> windex & 0x80 != 0)
    ensures r.Ok? ==> r.value.number <= 15 && r.value.number as bv16 == windex & 0xF
    ensures r.Ok? ==> EndpointIndex(r.value) == windex
  {
    if windex >> 8 != 0 then Err
    else
      var windex := Lo(windex);
      var direction := windex >> 4;
      if direction == 0 then Ok(Endpoint.Endpoint(Out, windex & 0xF))
      else if direction == 0x8 then Ok(Endpoint.Endpoint(In, windex & 0xF))
      else Err
  }

  /** Every endpoint address decodes from its own `wIndex`. */
  lemma EndpointRoundTrip(ep: Endpoint)
    requires ep.number <= 15
    ensures Windex2Endpoint(EndpointIndex(ep)) == Ok(ep)
  {
  }

  /** `windex2interface`: the high byte must be zero; the interface is the low byte, equal to `wIndex`. */
  function Windex2Interface(windex: bv16): (r: Result<bv8>)
    ensures r.Ok? <==> Hi(windex) == 0
    ensures r.Ok? ==> r.value as bv16 == windex
  {
    if windex >> 8 != 0 then Err else Ok(Lo(windex))
  }

  /** The cases pinned by the crate's own tests of `windex2endpoint`. */
  lemma Windex2EndpointExamples()
    ensures Windex2Endpoint(0x0080) == Ok(Endpoint.Endpoint(In, 0))
    ensures Windex2Endpoint(0x0000) == Ok(Endpoint.Endpoint(Out, 0))
    ensures Windex2Endpoint(0x0010).Err?
    ensures Windex2Endpoint(0x0090).Err?
  {
  }

  /* ---------------- the standard request table ---------------- */

  /** The GET_DESCRIPTOR rows: descriptor type, descriptor index and `wIndex`. */
  predicate GetDescriptorRow(ty: bv8, index: bv8, windex: bv16) {
    || (ty == Desc.Type.Device.ToU8() && index == 0 && windex == 0)
    || (ty == Desc.Type.DeviceQualifier.ToU8() && index == 0 && windex == 0)
    || (ty == Desc.Type.Configuration.ToU8() && windex == 0)
    || (ty == Desc.Type.OtherSpeedConfiguration.ToU8() && windex == 0)
    || ty == Desc.Type.String.ToU8()
  }

  /** The SET_DESCRIPTOR rows. */
  predicate SetDescriptorRow(ty: bv8, index: bv8, windex: bv16) {
    || (ty == Desc.Type.Device.ToU8() && index == 0 && windex == 0)
    || (ty == Desc.Type.Configuration.ToU8() && windex == 0)
    || ty == Desc.Type.String.ToU8()
  }

  /** Every packet the standard table accepts, row by row (USB 2.0 Table 9-3). */
  predicate Accepts(f: Fields) {
    var h2d, d2h := f.direction == RT.Direction.HostToDevice, f.direction == RT.Direction.DeviceToHost;
    var device, interface, endpoint :=
      f.recipient == RT.Recipient.Device, f.recipient == RT.Recipient.Interface, f.recipient == RT.Recipient.Endpoint;
    var wvalue, windex, wlength := f.wValue, f.wIndex, f.wLength;
    match f.bRequest
    case 1 /* CLEAR_FEATURE */ =>
      && h2d && wlength == 0
      && (|| (wvalue == DEVICE_REMOTE_WAKEUP && device && windex == 0)
          || (wvalue == ENDPOINT_HALT && endpoint && IsEndpointIndex(windex)))
    case 8 /* GET_CONFIGURATION */ =>
      d2h && device && wvalue == 0 && windex == 0 && wlength == 1
    case 6 /* GET_DESCRIPTOR */ =>
      d2h && device && GetDescriptorRow(Hi(wvalue), Lo(wvalue), windex)
    case 10 /* GET_INTERFACE */ =>
      d2h && interface && wvalue == 0 && wlength == 1 && Hi(windex) == 0
    case 0 /* GET_STATUS */ =>
      && d2h && wvalue == 0 && wlength == 2
      && (|| (device && windex == 0)
          || (endpoint && IsEndpointIndex(windex))
          || (interface && Hi(windex) == 0))
    case 5 /* SET_ADDRESS */ =>
      h2d && device && windex == 0 && wlength == 0 && wvalue <= MAX_ADDRESS
    case 9 /* SET_CONFIGURATION */ =>
      h2d && device && windex == 0 && wlength == 0 && Hi(wvalue) == 0
    case 7 /* SET_DESCRIPTOR */ =>
      h2d && device && SetDescriptorRow(Hi(wvalue), Lo(wvalue), windex)
    case 3 /* SET_FEATURE */ =>
      && h2d && wlength == 0
      && (|| (wvalue == DEVICE_REMOTE_WAKEUP && device && windex == 0)
          || (wvalue == TEST_MODE && device && Lo(windex) == 0 && 1 <= Hi(windex) <= 5)
          || (wvalue == ENDPOINT_HALT && endpoint && IsEndpointIndex(windex)))
    case 11 /* SET_INTERFACE */ =>
      h2d && interface && wlength == 0 && Hi(windex) == 0 && Hi(wvalue) == 0
    case 12 /* SYNCH_FRAME */ =>
      d2h && endpoint && wvalue == 0 && wlength == 2 && IsEndpointIndex(windex)
    case _ => false
  }

  /** The range checks a decoded request has passed: endpoint numbers fit a nibble, addresses are 1..=127. */
  predicate Valid(req: StandardRequest) {
    match req
    case ClearFeature(EndpointHalt(ep)) => ep.number <= 15
    case GetStatus(Endpoint(ep)) => ep.number <= 15
    case SetAddress(Some(a)) => a <= 127
    case SetFeature(EndpointHalt(ep)) => ep.number <= 15
    case SynchFrame(ep) => ep.number <= 15
    case _ => true
  }

  function GetDescriptorType(d: GetDescriptor): Desc.Type {
    match d
    case Configuration(_) => Desc.Type.Configuration
    case Device => Desc.Type.Device
    case DeviceQualifier => Desc.Type.DeviceQualifier
    case OtherSpeedConfiguration(_) => Desc.Type.OtherSpeedConfiguration
    case String(_, _) => Desc.Type.String
  }

  function SetDescriptorType(d: SetDescriptor): Desc.Type {
    match d
    case Configuration(_) => Desc.Type.Configuration
    case Device => Desc.Type.Device
    case String(_, _) => Desc.Type.String
  }

  /** The descriptor index; Device and DeviceQualifier have index 0. */
  function GetDescriptorIndex(d: GetDescriptor): bv8 {
    if d.Device? || d.DeviceQualifier? then 0 else d.index
  }

  function SetDescriptorIndex(d: SetDescriptor): bv8 {
    if d.Device? then 0 else d.index
  }

  /** The language id carried in `wIndex`; only String descriptors have one. */
  function GetDescriptorLangId(d: GetDescriptor): bv16 {
    if d.String? then d.langId else 0
  }

  function SetDescriptorLangId(d: SetDescriptor): bv16 {
    if d.String? then d.langId else 0
  }

  /** The packet a host sends for a standard request (USB 2.0 sections 9.4.1 to 9.4.11). */
  function Encode(req: StandardRequest): Fields {
    var h2d, d2h := RT.Direction.HostToDevice, RT.Direction.DeviceToHost;
    var device, interface, endpoint := RT.Recipient.Device, RT.Recipient.Interface, RT.Recipient.Endpoint;
    match req
    case ClearFeature(DeviceRemoteWakeup) =>
      Fields(h2d, device, CLEAR_FEATURE, DEVICE_REMOTE_WAKEUP, 0, 0)
    case ClearFeature(EndpointHalt(ep)) =>
      Fields(h2d, endpoint, CLEAR_FEATURE, ENDPOINT_HALT, EndpointIndex(ep), 0)
    case GetConfiguration =>
      Fields(d2h, device, GET_CONFIGURATION, 0, 0, 1)
    case GetDescriptor(d, length) =>
      Fields(d2h, device, GET_DESCRIPTOR,
             Word(GetDescriptorType(d).ToU8(), GetDescriptorIndex(d)), GetDescriptorLangId(d), length)
    case GetInterface(i) =>
      Fields(d2h, interface, GET_INTERFACE, 0, i as bv16, 1)
    case GetStatus(Device) =>
      Fields(d2h, device, GET_STATUS, 0, 0, 2)
    case GetStatus(Endpoint(ep)) =>
      Fields(d2h, endpoint, GET_STATUS, 0, EndpointIndex(ep), 2)
    case GetStatus(Interface(i)) =>
      Fields(d2h, interface, GET_STATUS, 0, i as bv16, 2)
    case SetAddress(a) =>
      Fields(h2d, device, SET_ADDRESS, OrZero(a) as bv16, 0, 0)
    case SetConfiguration(v) =>
      Fields(h2d, device, SET_CONFIGURATION, OrZero(v) as bv16, 0, 0)
    case SetDescriptor(d, length) =>
      Fields(h2d, device, SET_DESCRIPTOR,
             Word(SetDescriptorType(d).ToU8(), SetDescriptorIndex(d)), SetDescriptorLangId(d), length)
    case SetFeature(DeviceRemoteWakeup) =>
      Fields(h2d, device, SET_FEATURE, DEVICE_REMOTE_WAKEUP, 0, 0)
    case SetFeature(EndpointHalt(ep)) =>
      Fields(h2d, endpoint, SET_FEATURE, ENDPOINT_HALT, EndpointIndex(ep), 0)
    case SetFeature(TestMode(t)) =>
      Fields(h2d, device, SET_FEATURE, TEST_MODE, Word(t.ToU8(), 0), 0)
    case SetInterface(i, alt) =>
      Fields(h2d, interface, SET_INTERFACE, alt as bv16, i as bv16, 0)
    case SynchFrame(ep) =>
      Fields(d2h, endpoint, SYNCH_FRAME, 0, EndpointIndex(ep), 2)
  }

  /** The raw SETUP packet of decoded fields with the given request type; bit 4 of `bmRequestType` is clear. */
  function ToSetup(f: Fields, ty: RT.Type): Setup {
    Setup(RT.Encode(RT.BmRequestType(f.direction, ty, f.recipient)), f.bRequest, f.wValue, f.wIndex, f.wLength)
  }

  /*
   * The `match (brequest, direction)` of `StandardRequest::parse`, one
   * function per arm. No two arms share a `bRequest`, so an arm whose
   * direction or guard does not hold falls through to `_ => Err(())`, and
   * each function below returns `Err` in that case. Every arm is proved to
   * accept exactly its rows of `Accepts` and to decode a packet into a
   * request that encodes back to that packet.
   */

  /** CLEAR_FEATURE (USB 2.0 section 9.4.1). */
  function ClearFeatureArm(f: Fields): (r: Result<StandardRequest>)
    requires f.bRequest == CLEAR_FEATURE
    ensures r.Ok? <==> Accepts(f)
    ensures r.Ok? ==> Valid(r.value) && Encode(r.value) == f
  {
    if f.direction == RT.Direction.HostToDevice && f.recipient != RT.Recipient.Other && f.wLength == 0 then
      if f.wValue == DEVICE_REMOTE_WAKEUP && f.recipient == RT.Recipient.Device && f.wIndex == 0 then
        Ok(ClearFeature(ClearFeature.DeviceRemoteWakeup))
      else if f.wValue == ENDPOINT_HALT && f.recipient == RT.Recipient.Endpoint then
        var endpoint :- Windex2Endpoint(f.wIndex);
        Ok(ClearFeature(ClearFeature.EndpointHalt(endpoint)))
      else Err
    else Err
  }

  /** GET_CONFIGURATION (USB 2.0 section 9.4.2). */
  function GetConfigurationArm(f: Fields): (r: Result<StandardRequest>)
    requires f.bRequest == GET_CONFIGURATION
    ensures r.Ok? <==> Accepts(f)
    ensures r.Ok? ==> Valid(r.value) && Encode(r.value) == f
  {
    if f.direction == RT.Direction.DeviceToHost && f.recipient == RT.Recipient.Device
       && f.wValue == 0 && f.wIndex == 0 && f.wLength == 1 then
      Ok(GetConfiguration)
    else Err
  }

  /** The descriptor of a GET_DESCRIPTOR request, from its type, its index and `wIndex`: which descriptors a host may ask for, and with what index and `wIndex`. */
  function GetDescriptorOf(ty: Desc.Type, index: bv8, windex: bv16): (r: Result<GetDescriptor>)
    ensures r.Ok? <==> GetDescriptorRow(ty.ToU8(), index, windex)
    ensures r.Ok? ==> && GetDescriptorType(r.value) == ty && GetDescriptorIndex(r.value) == index
                      && GetDescriptorLangId(r.value) == windex
  {
    match ty
    case Device => if index == 0 && windex == 0 then Ok(GetDescriptor.Device) else Err
    case DeviceQualifier => if index == 0 && windex == 0 then Ok(GetDescriptor.DeviceQualifier) else Err
    case Configuration => if windex == 0 then Ok(GetDescriptor.Configuration(index)) else Err
    case OtherSpeedConfiguration => if windex == 0 then Ok(GetDescriptor.OtherSpeedConfiguration(index)) else Err
    case String => Ok(GetDescriptor.String(index, windex))
    // other types cannot appear in a GET_DESCRIPTOR request
    case _ => Err
  }

  /** Every GET_DESCRIPTOR descriptor is decoded from its own type, index and language id. */
  lemma GetDescriptorOfRoundTrip(d: GetDescriptor)
    ensures GetDescriptorOf(GetDescriptorType(d), GetDescriptorIndex(d), GetDescriptorLangId(d)) == Ok(d)
  {
  }

  /** GET_DESCRIPTOR (USB 2.0 section 9.4.3). */
  function GetDescriptorArm(f: Fields): (r: Result<StandardRequest>)
    requires f.bRequest == GET_DESCRIPTOR
    ensures r.Ok? <==> Accepts(f)
    ensures r.Ok? ==> Valid(r.value) && Encode(r.value) == f
  {
    WordOfBytes(f.wValue);
    if f.direction == RT.Direction.DeviceToHost && f.recipient == RT.Recipient.Device then
      var ty :- Desc.TypeFrom(Hi(f.wValue)).OkOr();
      var desc :- GetDescriptorOf(ty, Lo(f.wValue), f.wIndex);
      Ok(GetDescriptor(desc, f.wLength))
    else Err
  }

  /** GET_INTERFACE (USB 2.0 section 9.4.4). */
  function GetInterfaceArm(f: Fields): (r: Result<StandardRequest>)
    requires f.bRequest == GET_INTERFACE
    ensures r.Ok? <==> Accepts(f)
    ensures r.Ok? ==> Valid(r.value) && Encode(r.value) == f
  {
    if f.direction == RT.Direction.DeviceToHost && f.recipient == RT.Recipient.Interface
       && f.wValue == 0 && f.wLength == 1 then
      var interface :- Windex2Interface(f.wIndex);
      Ok(GetInterface(interface))
    else Err
  }

  /** The `match recipient` of GET_STATUS: whose status is asked for, named by `wIndex`. */
  function GetStatusOf(recipient: RT.Recipient, windex: bv16): (r: Result<GetStatus>)
    ensures r.Ok? <==> || (recipient == RT.Recipient.Device && windex == 0)
                       || (recipient == RT.Recipient.Endpoint && IsEndpointIndex(windex))
                       || (recipient == RT.Recipient.Interface && Hi(windex) == 0)
    ensures r.Ok? ==> match r.value
                      case Device => recipient == RT.Recipient.Device && windex == 0
                      case Endpoint(ep) =>
                        recipient == RT.Recipient.Endpoint && ep.number <= 15 && EndpointIndex(ep) == windex
                      case Interface(i) => recipient == RT.Recipient.Interface && i as bv16 == windex
  {
    match recipient
    case Device => if windex == 0 then Ok(GetStatus.Device) else Err
    case Endpoint =>
      var endpoint :- Windex2Endpoint(windex);
      Ok(GetStatus.Endpoint(endpoint))
    case Interface =>
      var interface :- Windex2Interface(windex);
      Ok(GetStatus.Interface(interface))
    case Other => Err
  }

  /** GET_STATUS (USB 2.0 section 9.4.5). */
  function GetStatusArm(f: Fields): (r: Result<StandardRequest>)
    requires f.bRequest == GET_STATUS
    ensures r.Ok? <==> Accepts(f)
    ensures r.Ok? ==> Valid(r.value) && Encode(r.value) == f
  {
    if f.direction == RT.Direction.DeviceToHost && f.wValue == 0 && f.wLength == 2 then
      var status :- GetStatusOf(f.recipient, f.wIndex);
      Ok(GetStatus(status))
    else Err
  }

  /** SET_ADDRESS (USB 2.0 section 9.4.6); address 0 decodes as "no address". */
  function SetAddressArm(f: Fields): (r: Result<StandardRequest>)
    requires f.bRequest == SET_ADDRESS
    ensures r.Ok? <==> Accepts(f)
    ensures r.Ok? ==> Valid(r.value) && Encode(r.value) == f
  {
    if f.direction == RT.Direction.HostToDevice && f.recipient == RT.Recipient.Device
       && f.wIndex == 0 && f.wLength == 0 && f.wValue <= MAX_ADDRESS then
      Ok(SetAddress(NonZero(Lo(f.wValue))))
    else Err
  }

  /** SET_CONFIGURATION (USB 2.0 section 9.4.7); value 0 decodes as "unconfigured". */
  function SetConfigurationArm(f: Fields): (r: Result<StandardRequest>)
    requires f.bRequest == SET_CONFIGURATION
    ensures r.Ok? <==> Accepts(f)
    ensures r.Ok? ==> Valid(r.value) && Encode(r.value) == f
  {
    if f.direction == RT.Direction.HostToDevice && f.recipient == RT.Recipient.Device
       && f.wIndex == 0 && f.wLength == 0 && f.wValue >> 8 == 0 then
      Ok(SetConfiguration(NonZero(Lo(f.wValue))))
    else Err
  }

  /** The descriptor of a SET_DESCRIPTOR request, from its type, its index and `wIndex`. */
  function SetDescriptorOf(ty: Desc.Type, index: bv8, windex: bv16): (r: Result<SetDescriptor>)
    ensures r.Ok? <==> SetDescriptorRow(ty.ToU8(), index, windex)
    ensures r.Ok? ==> && SetDescriptorType(r.value) == ty && SetDescriptorIndex(r.value) == index
                      && SetDescriptorLangId(r.value) == windex
  {
    match ty
    case Device => if index == 0 && windex == 0 then Ok(SetDescriptor.Device) else Err
    case Configuration => if windex == 0 then Ok(SetDescriptor.Configuration(index)) else Err
    case String => Ok(SetDescriptor.String(index, windex))
    // other types cannot appear in a SET_DESCRIPTOR request
    case _ => Err
  }

  /** Every SET_DESCRIPTOR descriptor is decoded from its own type, index and language id. */
  lemma SetDescriptorOfRoundTrip(d: SetDescriptor)
    ensures SetDescriptorOf(SetDescriptorType(d), SetDescriptorIndex(d), SetDescriptorLangId(d)) == Ok(d)
  {
  }

  /** SET_DESCRIPTOR (USB 2.0 section 9.4.8). */
  function SetDescriptorArm(f: Fields): (r: Result<StandardRequest>)
    requires f.bRequest == SET_DESCRIPTOR
    ensures r.Ok? <==> Accepts(f)
    ensures r.Ok? ==> Valid(r.value) && Encode(r.value) == f
  {
    WordOfBytes(f.wValue);
    if f.direction == RT.Direction.HostToDevice && f.recipient == RT.Recipient.Device then
      var ty :- Desc.TypeFrom(Hi(f.wValue)).OkOr();
      var desc :- SetDescriptorOf(ty, Lo(f.wValue), f.wIndex);
      Ok(SetDescriptor(desc, f.wLength))
    else Err
  }

  /** SET_FEATURE (USB 2.0 section 9.4.9). */
  function SetFeatureArm(f: Fields): (r: Result<StandardRequest>)
    requires f.bRequest == SET_FEATURE
    ensures r.Ok? <==> Accepts(f)
    ensures r.Ok? ==> Valid(r.value) && Encode(r.value) == f
  {
    if f.direction == RT.Direction.HostToDevice && f.wLength == 0 then
      var feature :-
        if f.wValue == DEVICE_REMOTE_WAKEUP && f.recipient == RT.Recipient.Device && f.wIndex == 0 then
          Ok(SetFeature.DeviceRemoteWakeup)
        else if f.wValue == TEST_MODE && f.recipient == RT.Recipient.Device && Lo(f.wIndex) == 0 then
          var test :- TestFrom(Hi(f.wIndex)).OkOr();
          Ok(SetFeature.TestMode(test))
        else if f.wValue == ENDPOINT_HALT && f.recipient == RT.Recipient.Endpoint then
          var endpoint :- Windex2Endpoint(f.wIndex);
          Ok(SetFeature.EndpointHalt(endpoint))
        else Err;
      Ok(SetFeature(feature))
    else Err
  }

  /** SET_INTERFACE (USB 2.0 section 9.4.10). */
  function SetInterfaceArm(f: Fields): (r: Result<StandardRequest>)
    requires f.bRequest == SET_INTERFACE
    ensures r.Ok? <==> Accepts(f)
    ensures r.Ok? ==> Valid(r.value) && Encode(r.value) == f
  {
    if f.direction == RT.Direction.HostToDevice && f.recipient == RT.Recipient.Interface && f.wLength == 0 then
      var interface :- Windex2Interface(f.wIndex);
      var alternate :- Windex2Interface(f.wValue);
      Ok(SetInterface(interface, alternate))
    else Err
  }

  /** SYNCH_FRAME (USB 2.0 section 9.4.11). */
  function SynchFrameArm(f: Fields): (r: Result<StandardRequest>)
    requires f.bRequest == SYNCH_FRAME
    ensures r.Ok? <==> Accepts(f)
    ensures r.Ok? ==> Valid(r.value) && Encode(r.value) == f
  {
    if f.direction == RT.Direction.DeviceToHost && f.recipient == RT.Recipient.Endpoint
       && f.wValue == 0 && f.wLength == 2 then
      var endpoint :- Windex2Endpoint(f.wIndex);
      Ok(SynchFrame(endpoint))
    else Err
  }

  /**
   * The standard request table (USB 2.0 Table 9-3): accepts exactly the
   * rows of `Accepts`, and every request it decodes has passed its range
   * checks and encodes back to the packet it came from.
   */
  function StandardTable(f: Fields): (r: Result<StandardRequest>)
    ensures r.Ok? <==> Accepts(f)
    ensures r.Ok? ==> Valid(r.value) && Encode(r.value) == f
  {
    match f.bRequest
    case 1 /* CLEAR_FEATURE */ => ClearFeatureArm(f)
    case 8 /* GET_CONFIGURATION */ => GetConfigurationArm(f)
    case 6 /* GET_DESCRIPTOR */ => GetDescriptorArm(f)
    case 10 /* GET_INTERFACE */ => GetInterfaceArm(f)
    case 0 /* GET_STATUS */ => GetStatusArm(f)
    case 5 /* SET_ADDRESS */ => SetAddressArm(f)
    case 9 /* SET_CONFIGURATION */ => SetConfigurationArm(f)
    case 7 /* SET_DESCRIPTOR */ => SetDescriptorArm(f)
    case 3 /* SET_FEATURE */ => SetFeatureArm(f)
    case 11 /* SET_INTERFACE */ => SetInterfaceArm(f)
    case 12 /* SYNCH_FRAME */ => SynchFrameArm(f)
    case _ => Err
  }

  /**
   * `StandardRequest::parse`. A `bmRequestType` that does not decode, or
   * whose type is Class or Vendor, is rejected before the table is
   * consulted; otherwise the table decides.
   */
  function ParseStandardRequest(bm: bv8, brequest: bv8, wvalue: bv16, windex: bv16, wlength: bv16)
    : (r: Result<StandardRequest>)
    ensures r.Ok? <==> && RT.Parse(bm).Ok? && RT.Parse(bm).value.ty == RT.Type.Standard
                       && Accepts(Fields(RT.Parse(bm).value.direction, RT.Parse(bm).value.recipient,
                                         brequest, wvalue, windex, wlength))
    ensures r.Ok? ==> && Valid(r.value)
                      && ToSetup(Encode(r.value), RT.Type.Standard) == Setup(bm & 0xEF, brequest, wvalue, windex, wlength)
  {
    var rt :- RT.Parse(bm);
    if rt.ty != RT.Type.Standard then Err
    else
      var r := StandardTable(Fields(rt.direction, rt.recipient, brequest, wvalue, windex, wlength));
      RT.ParseEncode(bm);
      r
  }

  /** The round trip of `EncodeStandardTable` for the feature requests. */
  lemma EncodeFeatureRequests(req: StandardRequest)
    requires Valid(req) && (req.ClearFeature? || req.SetFeature?)
    ensures StandardTable(Encode(req)) == Ok(req)
  {
  }

  /** The round trip of `EncodeStandardTable` for the descriptor requests. */
  lemma EncodeDescriptorRequests(req: StandardRequest)
    requires Valid(req) && (req.GetDescriptor? || req.SetDescriptor?)
    ensures StandardTable(Encode(req)) == Ok(req)
  {
  }

  /** The round trip of `EncodeStandardTable` for the status and frame requests. */
  lemma EncodeStatusRequests(req: StandardRequest)
    requires Valid(req) && (req.GetStatus? || req.SynchFrame?)
    ensures StandardTable(Encode(req)) == Ok(req)
  {
  }

  /** The round trip of `EncodeStandardTable` for the address and configuration requests. */
  lemma EncodeConfigurationRequests(req: StandardRequest)
    requires Valid(req) && (req.GetConfiguration? || req.SetConfiguration? || req.SetAddress?)
    ensures StandardTable(Encode(req)) == Ok(req)
  {
  }

  /** The round trip of `EncodeStandardTable` for the interface requests. */
  lemma EncodeInterfaceRequests(req: StandardRequest)
    requires Valid(req) && (req.GetInterface? || req.SetInterface?)
    ensures StandardTable(Encode(req)) == Ok(req)
  {
  }

  /** Every valid standard request is decoded from the packet that encodes it. */
  lemma {:induction false} EncodeStandardTable(req: StandardRequest)
    requires Valid(req)
    ensures StandardTable(Encode(req)) == Ok(req)
  {
    match req
    case ClearFeature(_) => EncodeFeatureRequests(req);
    case SetFeature(_) => EncodeFeatureRequests(req);
    case GetDescriptor(_, _) => EncodeDescriptorRequests(req);
    case SetDescriptor(_, _) => EncodeDescriptorRequests(req);
    case GetStatus(_) => EncodeStatusRequests(req);
    case SynchFrame(_) => EncodeStatusRequests(req);
    case GetConfiguration => EncodeConfigurationRequests(req);
    case SetConfiguration(_) => EncodeConfigurationRequests(req);
    case SetAddress(_) => EncodeConfigurationRequests(req);
    case GetInterface(_) => EncodeInterfaceRequests(req);
    case SetInterface(_, _) => EncodeInterfaceRequests(req);
  }

  /** The same round trip on raw packets, through `bmRequestType`. */
  lemma EncodeParseStandardRequest(req: StandardRequest)
    requires Valid(req)
    ensures var s := ToSetup(Encode(req), RT.Type.Standard);
            ParseStandardRequest(s.bmRequestType, s.bRequest, s.wValue, s.wIndex, s.wLength) == Ok(req)
  {
    EncodeStandardTable(req);
  }

  /** The decoding examples that accompany `StandardRequest::parse`. */
  lemma ParseStandardRequestExamples()
    // GET_DESCRIPTOR Device; a non-zero index or a language id is refused
    ensures ParseStandardRequest(0x80, 0x06, 0x0100, 0, 18) == Ok(GetDescriptor(GetDescriptor.Device, 18))
    ensures ParseStandardRequest(0x80, 0x06, 0x0101, 0, 18).Err?
    ensures ParseStandardRequest(0x80, 0x06, 0x0100, 1033, 18).Err?
    // GET_DESCRIPTOR Configuration 0; a language id is refused
    ensures ParseStandardRequest(0x80, 0x06, 0x0200, 0, 9) == Ok(GetDescriptor(GetDescriptor.Configuration(0), 9))
    ensures ParseStandardRequest(0x80, 0x06, 0x0200, 1033, 9).Err?
    // SET_ADDRESS 16; a language id or a data stage is refused
    ensures ParseStandardRequest(0x00, 0x05, 0x0010, 0, 0) == Ok(SetAddress(Some(16)))
    ensures ParseStandardRequest(0x00, 0x05, 0x0010, 1033, 0).Err?
    ensures ParseStandardRequest(0x00, 0x05, 0x0010, 0, 1).Err?
    // SET_CONFIGURATION 1; a language id or a data stage is refused
    ensures ParseStandardRequest(0x00, 0x09, 0x0001, 0, 0) == Ok(SetConfiguration(Some(1)))
    ensures ParseStandardRequest(0x00, 0x09, 0x0001, 1033, 0).Err?
    ensures ParseStandardRequest(0x00, 0x09, 0x0001, 0, 1).Err?
  {
  }
}
