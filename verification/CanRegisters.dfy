/** How the two CAN controllers lay identifiers out in their registers, and what their acceptance
    filters let through: `lib/CANDriver/src/MCP2515.cpp`, `lib/CANDriver/src/ESP32SJA1000.cpp`, and the
    id fields of `lib/canHandler/src/canHandlerBase.hpp`. */
module CanRegisters {
  const ID11: bv32 := 0x7FF
  const ID29: bv32 := 0x1FFF_FFFF

  function Byte0(x: bv32): bv8 { (x & 0xFF) as bv8 }
  function Wide(b: bv8): bv32 { b as bv32 }

  /** Four id registers. */
  datatype Regs = Regs(r0: bv8, r1: bv8, r2: bv8, r3: bv8)

  datatype Packet = Packet(id: bv32, extended: bool, data: seq<bv8>)

  predicate Is29(id: bv32) { id & !ID29 == 0 }
  predicate ValidId(id: bv32, extended: bool) { if extended then Is29(id) else id & !ID11 == 0 }

  // ---------------------------------------------------------------- MCP2515

  function Sidh(id: bv32): bv8 { Byte0(id >> 21) }
  function Sidl(id: bv32): bv8 { Byte0((((id >> 18) & 0x07) << 5) | 0x08 | ((id >> 16) & 0x03)) }
  function Eid8(id: bv32): bv8 { Byte0(id >> 8) }
  function Eid0(id: bv32): bv8 { Byte0(id) }

  /** SIDH, SIDL, EID8, EID0 as `endPacket` fills them. */
  function McpId(id: bv32, extended: bool): Regs {
    if extended then
      Regs(Sidh(id), Sidl(id), Eid8(id), Eid0(id))
    else
      Regs(Byte0(id >> 3), Byte0(id << 5), 0, 0)
  }

  predicate McpExtended(r: Regs) { r.r1 & 0x08 != 0 }

  /** The id `parsePacket` reads out of the same registers. */
  function McpReadId(r: Regs): bv32 {
    var idA := ((Wide(r.r0) << 3) & 0x07F8) | ((Wide(r.r1) >> 5) & 0x07);
    if McpExtended(r) then (idA << 18) | ((Wide(r.r1 & 0x03) << 16) | (Wide(r.r2) << 8) | Wide(r.r3)) else idA
  }

  /** The whole register image of a data frame: id, DLC, data. */
  datatype McpImage = McpImage(id: Regs, dlc: bv8, data: seq<bv8>)

  function McpWrite(p: Packet): McpImage
    requires |p.data| <= 8
  {
    McpImage(McpId(p.id, p.extended), |p.data| as bv8, p.data)
  }

  /** `parsePacket` on a data frame: a DLC above eight still means eight bytes. */
  function McpRead(m: McpImage): (p: Packet)
    requires |m.data| == 8
    ensures |p.data| <= 8
  {
    var dlc := (m.dlc & 0x0F) as int;
    Packet(McpReadId(m.id), McpExtended(m.id), m.data[..if dlc > 8 then 8 else dlc])
  }

  lemma McpIdExtended(id: bv32)
    requires Is29(id)
    ensures McpExtended(McpId(id, true)) && McpReadId(McpId(id, true)) == id
  {
  }

  lemma McpIdStandard(id: bv32)
    requires id & !ID11 == 0
    ensures !McpExtended(McpId(id, false)) && McpReadId(McpId(id, false)) == id
  {
  }

  lemma DlcReads(n: nat)
    requires n <= 8
    ensures ((n as bv8) & 0x0F) as int == n
  {
    assert n == 0 || n == 1 || n == 2 || n == 3 || n == 4 || n == 5 || n == 6 || n == 7 || n == 8;
  }

  /** A data frame with any 11- or 29-bit id and up to eight bytes is read back unchanged, whatever
      the data registers behind its payload held before. */
  lemma McpRoundTrip(p: Packet, behind: seq<bv8>)
    requires ValidId(p.id, p.extended) && |p.data| <= 8 && |p.data + behind| == 8
    ensures McpRead(McpWrite(p).(data := p.data + behind)) == p
  {
    hide McpId, McpReadId, McpExtended;
    if p.extended { McpIdExtended(p.id); } else { McpIdStandard(p.id); }
    DlcReads(|p.data|);
    assert (p.data + behind)[..|p.data|] == p.data;
  }

  // ---------------------------------------------------------------- MCP2515 filter

  /** RXFnSIDL and RXMnSIDL as `filterExtended` fills them: two of the three bits 20..18 are kept. */
  function FilterSidl(x: bv32): bv8 { Byte0((((x >> 18) & 0x03) << 5) | 0x08 | ((x >> 16) & 0x03)) }

  function FilterEid8(x: bv32): bv8 { Byte0((x >> 8) & 0xFF) }
  function FilterEid0(x: bv32): bv8 { Byte0(x & 0xFF) }

  function McpFilterRegs(x: bv32): Regs {
    Regs(Sidh(x), FilterSidl(x), FilterEid8(x), FilterEid0(x))
  }

  /** The bits of one register the mask selects agree. */
  predicate Agree(a: bv8, b: bv8, mask: bv8) { (a ^ b) & mask == 0 }

  /** The controller compares the bits the mask selects; in SIDL the five id bits take part. */
  predicate McpAccepts(filter: Regs, mask: Regs, frame: Regs) {
    && Agree(filter.r0, frame.r0, mask.r0) && Agree(filter.r1, frame.r1, mask.r1 & 0xE3)
    && Agree(filter.r2, frame.r2, mask.r2) && Agree(filter.r3, frame.r3, mask.r3)
  }

  function Cut29(x: bv32): bv32 { x & ID29 }

  predicate McpFilter(id: bv32, mask: bv32, frame: bv32) {
    McpAccepts(McpFilterRegs(Cut29(id)), McpFilterRegs(Cut29(mask)), McpId(frame, true))
  }

  /** The selected bits in which two ids differ, and that none of them lies in `part`. */
  function Differs(a: bv32, b: bv32, mask: bv32): bv32 { (a ^ b) & mask }
  predicate Clear(x: bv32, part: bv32) { x & part == 0 }

  const BIT20: bv32 := 0x10_0000
  const ALL_BUT_BIT20: bv32 := 0x1FEF_FFFF

  /** What the filter really compares: everything the mask selects except bit 20. */
  lemma McpFilterIs(id: bv32, mask: bv32, frame: bv32)
    requires Is29(frame)
    ensures McpFilter(id, mask, frame) <==> Clear(Differs(id, frame, mask), ALL_BUT_BIT20)
  {
    hide Sidh, Sidl, FilterSidl, Eid8, Eid0, FilterEid8, FilterEid0, Agree, Cut29, Is29, Differs, Clear;
    var i := Cut29(id);
    var m := Cut29(mask);
    SidhCompares(i, m, frame);
    SidlCompares(i, m, frame);
    Eid8Compares(i, m, frame);
    Eid0Compares(i, m, frame);
    McpParts(Differs(i, frame, m));
    CutDiffers(id, mask, frame);
    CutClears(Differs(id, frame, mask));
  }

  lemma CutDiffers(id: bv32, mask: bv32, f: bv32)
    requires Is29(f)
    ensures Differs(Cut29(id), f, Cut29(mask)) == Cut29(Differs(id, f, mask))
  {}

  lemma CutClears(x: bv32)
    ensures Clear(Cut29(x), ALL_BUT_BIT20) <==> Clear(x, ALL_BUT_BIT20)
    ensures Clear(Cut29(x), ID29) <==> Clear(x, ID29)
  {}

  lemma McpParts(x: bv32)
    ensures Clear(x, 0x1FE0_0000) && Clear(x, 0x000F_0000) && Clear(x, 0xFF00) && Clear(x, 0xFF)
            <==> Clear(x, ALL_BUT_BIT20)
  {}

  lemma SidhCompares(i: bv32, m: bv32, f: bv32)
    ensures Agree(Sidh(i), Sidh(f), Sidh(m)) <==> Clear(Differs(i, f, m), 0x1FE0_0000)
  {}

  lemma SidlCompares(i: bv32, m: bv32, f: bv32)
    ensures Agree(FilterSidl(i), Sidl(f), FilterSidl(m) & 0xE3) <==> Clear(Differs(i, f, m), 0x000F_0000)
  {}

  lemma Eid8Compares(i: bv32, m: bv32, f: bv32)
    ensures Agree(FilterEid8(i), Eid8(f), FilterEid8(m)) <==> Clear(Differs(i, f, m), 0xFF00)
  {}

  lemma Eid0Compares(i: bv32, m: bv32, f: bv32)
    ensures Agree(FilterEid0(i), Eid0(f), FilterEid0(m)) <==> Clear(Differs(i, f, m), 0xFF)
  {}

  /** `filterExtended` accepts exactly the extended frames that agree with `id` on the mask if and
      only if the mask leaves bit 20 out. */
  lemma McpFilterExactIff(id: bv32, mask: bv32)
    requires Is29(id) && Is29(mask)
    ensures (forall f: bv32 :: Is29(f) ==> (McpFilter(id, mask, f) <==> Clear(Differs(id, f, mask), ID29)))
       <==> Clear(mask, BIT20)
  {
    hide McpFilter, Is29, Differs, Clear;
    if Clear(mask, BIT20) {
      forall f: bv32 | Is29(f) ensures McpFilter(id, mask, f) <==> Clear(Differs(id, f, mask), ID29) {
        McpFilterIs(id, mask, f);
        MaskWithoutBit20(id, mask, f);
      }
    } else {
      var f := Flip20(id);
      FlippedBit20(id, mask);
      McpFilterIs(id, mask, f);
    }
  }

  lemma MaskWithoutBit20(id: bv32, mask: bv32, f: bv32)
    requires Clear(mask, BIT20)
    ensures Clear(Differs(id, f, mask), ALL_BUT_BIT20) <==> Clear(Differs(id, f, mask), ID29)
  {}

  function Flip20(id: bv32): bv32 { id ^ BIT20 }

  lemma FlippedBit20(id: bv32, mask: bv32)
    requires Is29(id) && !Clear(mask, BIT20)
    ensures Is29(Flip20(id)) && !Clear(Differs(id, Flip20(id), mask), ID29)
            && Clear(Differs(id, Flip20(id), mask), ALL_BUT_BIT20)
  {}

  // ---------------------------------------------------------------- SJA1000

  function Sja1(id: bv32): bv8 { Byte0(id >> 13) }
  function Sja2(id: bv32): bv8 { Byte0(id >> 5) }
  function Sja3(id: bv32): bv8 { Byte0(id << 3) }

  /** The id registers `endPacket` fills; a standard id uses the first two. */
  function SjaId(id: bv32, extended: bool): Regs {
    if extended then Regs(Sidh(id), Sja1(id), Sja2(id), Sja3(id))
    else Regs(Byte0(id >> 3), Byte0(id << 5), 0, 0)
  }

  function SjaReadId(r: Regs, extended: bool): bv32 {
    if extended then (Wide(r.r0) << 21) | (Wide(r.r1) << 13) | (Wide(r.r2) << 5) | (Wide(r.r3) >> 3)
    else (Wide(r.r0) << 3) | ((Wide(r.r1) >> 5) & 0x07)
  }

  /** `sff`: the frame format byte. */
  function SjaInfo(extended: bool, dlc: bv8): bv8 { (if extended then 0x80 else 0x00) | (0x0F & dlc) }

  datatype SjaImage = SjaImage(info: bv8, id: Regs, data: seq<bv8>)

  function SjaWrite(p: Packet): SjaImage
    requires |p.data| <= 8
  {
    SjaImage(SjaInfo(p.extended, |p.data| as bv8), SjaId(p.id, p.extended), p.data)
  }

  function SjaRead(m: SjaImage): (p: Packet)
    requires |m.data| == 8
    ensures |p.data| <= 8
  {
    var dlc := (m.info & 0x0F) as int;
    Packet(SjaReadId(m.id, m.info & 0x80 != 0), m.info & 0x80 != 0, m.data[..if dlc > 8 then 8 else dlc])
  }

  lemma SjaIdExtended(id: bv32)
    requires Is29(id)
    ensures SjaReadId(SjaId(id, true), true) == id
  {
  }

  lemma SjaIdStandard(id: bv32)
    requires id & !ID11 == 0
    ensures SjaReadId(SjaId(id, false), false) == id
  {
  }

  lemma SjaInfoReads(extended: bool, dlc: bv8)
    ensures (SjaInfo(extended, dlc) & 0x80 != 0) == extended && SjaInfo(extended, dlc) & 0x0F == dlc & 0x0F
  {
  }

  lemma SjaRoundTrip(p: Packet, behind: seq<bv8>)
    requires ValidId(p.id, p.extended) && |p.data| <= 8 && |p.data + behind| == 8
    ensures SjaRead(SjaWrite(p).(data := p.data + behind)) == p
  {
    hide SjaId, SjaReadId, SjaInfo;
    if p.extended { SjaIdExtended(p.id); } else { SjaIdStandard(p.id); }
    SjaInfoReads(p.extended, |p.data| as bv8);
    DlcReads(|p.data|);
    assert (p.data + behind)[..|p.data|] == p.data;
  }

  /** Acceptance code and mask registers of `filterExtended`; a one in the mask is "don't care". */
  function SjaMask(mask: bv32): Regs {
    var amr := Complement(Cut29(mask));
    Regs(Sidh(amr), Sja1(amr), Sja2(amr), SjaMask3(amr))
  }

  function Complement(x: bv32): bv32 { !x }
  function SjaMask3(amr: bv32): bv8 { Sja3(amr) | 0x07 }

  /** Where the mask register does not say "don't care". */
  predicate SjaAgree(code: bv8, frame: bv8, amr: bv8) { (code ^ frame) & !amr == 0 }

  predicate SjaFilter(id: bv32, mask: bv32, frame: bv32) {
    var c := SjaId(Cut29(id), true);
    var m := SjaMask(mask);
    var f := SjaId(frame, true);
    && SjaAgree(c.r0, f.r0, m.r0) && SjaAgree(c.r1, f.r1, m.r1) && SjaAgree(c.r2, f.r2, m.r2)
    && SjaAgree(c.r3, f.r3, m.r3)
  }

  /** Exact for every mask. */
  lemma SjaFilterExact(id: bv32, mask: bv32, frame: bv32)
    requires Is29(frame)
    ensures SjaFilter(id, mask, frame) <==> Clear(Differs(id, frame, mask), ID29)
  {
    hide Sidh, Sja1, Sja2, Sja3, SjaMask3, Complement, SjaAgree, Cut29, Is29, Differs, Clear;
    var i := Cut29(id);
    var m := Cut29(mask);
    Sja0Compares(i, m, frame);
    Sja1Compares(i, m, frame);
    Sja2Compares(i, m, frame);
    Sja3Compares(i, m, frame);
    SjaParts(Differs(i, frame, m));
    CutDiffers(id, mask, frame);
    CutClears(Differs(id, frame, mask));
  }

  lemma SjaParts(x: bv32)
    ensures Clear(x, 0x1FE0_0000) && Clear(x, 0x001F_E000) && Clear(x, 0x1FE0) && Clear(x, 0x1F) <==> Clear(x, ID29)
  {}

  lemma Sja0Compares(i: bv32, m: bv32, f: bv32)
    ensures SjaAgree(Sidh(i), Sidh(f), Sidh(Complement(m))) <==> Clear(Differs(i, f, m), 0x1FE0_0000)
  {}

  lemma Sja1Compares(i: bv32, m: bv32, f: bv32)
    ensures SjaAgree(Sja1(i), Sja1(f), Sja1(Complement(m))) <==> Clear(Differs(i, f, m), 0x001F_E000)
  {}

  lemma Sja2Compares(i: bv32, m: bv32, f: bv32)
    ensures SjaAgree(Sja2(i), Sja2(f), Sja2(Complement(m))) <==> Clear(Differs(i, f, m), 0x1FE0)
  {}

  lemma Sja3Compares(i: bv32, m: bv32, f: bv32)
    ensures SjaAgree(Sja3(i), Sja3(f), SjaMask3(Complement(m))) <==> Clear(Differs(i, f, m), 0x1F)
  {}

  // ---------------------------------------------------------------- addressing

  /** `CanFrame`: 10 bits to, 9 bits command, 10 bits from. */
  function ExtId(to: bv32, cmd: bv32, from: bv32): bv32 {
    (to & 0x3FF) | ((cmd & 0x1FF) << 10) | ((from & 0x3FF) << 19)
  }

  function ToOf(extId: bv32): bv32 { extId & 0x3FF }
  function CmdOf(extId: bv32): bv32 { (extId >> 10) & 0x1FF }
  function FromOf(extId: bv32): bv32 { (extId >> 19) & 0x3FF }

  lemma ExtIdFields(to: bv32, cmd: bv32, from: bv32)
    ensures var x := ExtId(to, cmd, from);
            Is29(x) && ToOf(x) == to & 0x3FF && CmdOf(x) == cmd & 0x1FF && FromOf(x) == from & 0x3FF
  {
  }

  /** Both controllers armed with `filterExtended(local & 0x3FF, 0x3FF)` let through exactly the
      extended frames addressed to `local`. */
  lemma FilterAcceptsOwnAddress(local: bv32, frame: bv32)
    requires Is29(frame)
    ensures McpFilter(ToOf(local), 0x3FF, frame) <==> ToOf(frame) == ToOf(local)
    ensures SjaFilter(ToOf(local), 0x3FF, frame) <==> ToOf(frame) == ToOf(local)
  {
    hide McpFilter, SjaFilter, Is29, ToOf, Clear, Differs;
    McpFilterIs(ToOf(local), 0x3FF, frame);
    SjaFilterExact(ToOf(local), 0x3FF, frame);
    SameAddress(local, frame);
  }

  lemma SameAddress(local: bv32, frame: bv32)
    ensures Clear(Differs(ToOf(local), frame, 0x3FF), ALL_BUT_BIT20) <==> ToOf(frame) == ToOf(local)
    ensures Clear(Differs(ToOf(local), frame, 0x3FF), ID29) <==> ToOf(frame) == ToOf(local)
  {}
}
