/**
 * A labelled composition of the three request grammars. The crate's own
 * top-level `Request::parse` is compiled out (src/lib.rs:52-56) and is not
 * part of this model; this composition follows only what the grammars
 * state about themselves: the standard table takes Standard requests, the
 * ACM grammar takes Class requests, and the HID grammar takes Standard or
 * Class requests. The grammars accept pairwise disjoint packets, so the
 * order in which they are tried does not change the result.
 */
module Requests {
  import opened Wrappers
  import RT = RequestType
  import Usb
  import CdcAcm
  import Hid

  /** A decoded control request. */
  datatype Request =
    | Standard(standard: Usb.StandardRequest)
    | Acm(acm: CdcAcm.Request)
    | Hid(hid: Hid.Request)

  /** No packet is accepted by two grammars. */
  lemma GrammarsDisjoint(f: Usb.Fields)
    ensures !(Usb.Accepts(f) && Hid.Accepts(f))
    ensures !(Usb.Accepts(f) && CdcAcm.Accepts(f))
    ensures !(CdcAcm.Accepts(f) && Hid.Accepts(f))
  {
  }

  /**
   * Standard requests go to the standard table, then to HID; Class requests
   * go to ACM, then to HID; Vendor requests are refused. A request is the
   * one its grammar decodes, whichever order the grammars are tried in.
   */
  function Parse(bm: bv8, brequest: bv8, wvalue: bv16, windex: bv16, wlength: bv16): (r: Result<Request>)
    ensures Usb.ParseStandardRequest(bm, brequest, wvalue, windex, wlength).Ok?
            ==> r == Ok(Standard(Usb.ParseStandardRequest(bm, brequest, wvalue, windex, wlength).value))
    ensures CdcAcm.Parse(bm, brequest, wvalue, windex, wlength).Ok?
            ==> r == Ok(Acm(CdcAcm.Parse(bm, brequest, wvalue, windex, wlength).value))
    ensures r.Ok? ==> RT.Parse(bm).Ok? && RT.Parse(bm).value.ty != RT.Type.Vendor
    ensures r.Ok? && r.value.Hid? ==>
              var rt := RT.Parse(bm).value;
              Hid.Parse2(Usb.Fields(rt.direction, rt.recipient, brequest, wvalue, windex, wlength)) == Ok(r.value.hid)
    ensures && RT.Parse(bm).Ok? && RT.Parse(bm).value.ty != RT.Type.Vendor
            && Hid.Accepts(Usb.Fields(RT.Parse(bm).value.direction, RT.Parse(bm).value.recipient,
                                      brequest, wvalue, windex, wlength))
            ==> && r.Ok? && r.value.Hid?
                && Hid.Parse2(Usb.Fields(RT.Parse(bm).value.direction, RT.Parse(bm).value.recipient,
                                         brequest, wvalue, windex, wlength)) == Ok(r.value.hid)
    ensures r.Ok? <==> || Usb.ParseStandardRequest(bm, brequest, wvalue, windex, wlength).Ok?
                       || CdcAcm.Parse(bm, brequest, wvalue, windex, wlength).Ok?
                       || (&& RT.Parse(bm).Ok? && RT.Parse(bm).value.ty != RT.Type.Vendor
                           && Hid.Accepts(Usb.Fields(RT.Parse(bm).value.direction, RT.Parse(bm).value.recipient,
                                                     brequest, wvalue, windex, wlength)))
  {
    var rt :- RT.Parse(bm);
    var f := Usb.Fields(rt.direction, rt.recipient, brequest, wvalue, windex, wlength);
    GrammarsDisjoint(f);
    match rt.ty
    case Standard =>
      (match Usb.StandardTable(f)
       case Ok(standard) => Ok(Standard(standard))
       case Err =>
         var hid :- Hid.Parse2(f);
         Ok(Hid(hid)))
    case Class =>
      (match CdcAcm.Parse2(f)
       case Ok(acm) => Ok(Acm(acm))
       case Err =>
         var hid :- Hid.Parse2(f);
         Ok(Hid(hid)))
    case Vendor => Err
  }

  /**
   * The HID example: a Standard, device-to-host GET_DESCRIPTOR addressed to
   * interface 2 for Report descriptor 0 is refused by the standard table,
   * which wants recipient Device, and decoded by the HID grammar.
   */
  lemma HidGetDescriptorExample()
    ensures RT.Parse(129) == Ok(RT.BmRequestType(RT.Direction.DeviceToHost, RT.Type.Standard, RT.Recipient.Interface))
    ensures Usb.ParseStandardRequest(129, 6, 0x2200, 2, 64).Err?
    ensures Parse(129, 6, 0x2200, 2, 64) == Ok(Hid(Hid.Request(2, Hid.GetDescriptor(64, Hid.Report(0)))))
  {
  }
}
