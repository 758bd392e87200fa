/** Gateway and device of a CAN firmware transfer with the bus between them: any interleaving of the
    two, any loss of frames in either direction, any failure of file, flash or bus. The answers are
    those of `lib/canHandler/src/canHandlerAtmega328P.cpp` and `lib/canHandler/src/otaCanResponse.hpp`. */
module CanOtaSystem {
  import opened Common
  import opened Crc16
  import G = CanOta
  import D = OtaDevice

  /** `number` says which piece it is; only the frame goes over the bus. */
  datatype Message = StartMessage(start: G.NumberStart) | PieceMessage(number: nat, frame: G.SendFrame)
  datatype Reply = Reply(cmd: G.Command, ack: bool)

  /** `last` is the device state the handler saw on its last pass. The three history fields record
      whether the device took OTA_START and acknowledged it, and how many pieces it has accepted. */
  datatype System = System(g: G.Gateway, d: D.Device, last: D.OtaState, toDevice: seq<Message>, toGateway: seq<Reply>,
                           begun: bool, startAcked: bool, accepted: nat)

  datatype Step = GatewayPass(env: G.Env) | GatewayGets | DeviceGets(io: D.Io) | DeviceRuns(io: D.Io) | DeviceRestarts
                | LoseMessage(i: nat) | LoseReply(i: nat)

  /** The frames one pass of the gateway has put on the bus. */
  function NewMessages(g: G.Gateway, h: G.Gateway): seq<Message> {
    (if g.start.None? && h.start.Some? then [StartMessage(h.start.value)] else [])
    + (if |h.sent| == |g.sent| + 1 then [PieceMessage(|g.sent|, h.sent[|g.sent|])] else [])
  }

  /** `OtaCanResponse::decide`. */
  function Answer(last: D.OtaState, state: D.OtaState): seq<Reply> {
    if last == D.Start && state == D.Store then [Reply(G.OtaStart, true)]
    else if state == D.Valid then [Reply(G.OtaEnd, true)]
    else if state == D.Invalid then [Reply(G.OtaEnd, false)]
    else []
  }

  function OnStart(s: System, start: G.NumberStart, io: D.Io): (t: System)
    requires D.Placed(s.d)
    ensures D.Placed(t.d)
  {
    var ok := D.StartAccepted(s.d, start.storageNumber, start.fwSize, io);
    s.(d := D.AfterStart(s.d, start.storageNumber, start.fwSize, start.fwCrc, io), begun := s.begun || ok,
       toGateway := if ok then s.toGateway else s.toGateway + [Reply(G.OtaStart, false)])
  }

  function OnPiece(s: System, frame: G.SendFrame, io: D.Io): (t: System)
    requires D.Placed(s.d)
    ensures D.Placed(t.d)
  {
    var ok := D.StoreAccepted(s.d, frame.sequence, io);
    s.(d := D.Next(s.d, D.Piece(frame.sequence, frame.data, io)), toGateway := s.toGateway + [Reply(G.OtaSend, ok)],
       accepted := if ok then s.accepted + 1 else s.accepted)
  }

  function OnRun(s: System, io: D.Io): (t: System)
    requires D.Placed(s.d)
    ensures D.Placed(t.d)
  {
    var d := D.Next(s.d, D.Pass(io));
    var a := Answer(s.last, d.state);
    s.(d := d, last := d.state, toGateway := s.toGateway + a,
        startAcked := s.startAcked || a == [Reply(G.OtaStart, true)])
  }

  function Next(s: System, step: Step): (t: System)
    requires D.Placed(s.d)
    ensures D.Placed(t.d)
  {
    match step
    case GatewayPass(env) =>
      var h := G.OtaPass(s.g, env);
      s.(g := h, toDevice := s.toDevice + NewMessages(s.g, h))
    case GatewayGets =>
      if s.toGateway == [] then s
      else s.(g := G.HandleFrame(s.g, s.toGateway[0].cmd, s.toGateway[0].ack), toGateway := s.toGateway[1..])
    case DeviceGets(io) =>
      if s.toDevice == [] then s
      else
        var t := s.(toDevice := s.toDevice[1..]);
        (match s.toDevice[0]
         case StartMessage(start) => OnStart(t, start, io)
         case PieceMessage(_, frame) => OnPiece(t, frame, io))
    case DeviceRuns(io) => OnRun(s, io)
    case DeviceRestarts => s.(d := D.PowerUp(s.d), last := D.Idle)
    case LoseMessage(i) => if i < |s.toDevice| then s.(toDevice := Without(s.toDevice, i)) else s
    case LoseReply(i) => if i < |s.toGateway| then s.(toGateway := Without(s.toGateway, i)) else s
  }

  function Run(s: System, steps: seq<Step>): (t: System)
    requires D.Placed(s.d)
    ensures D.Placed(t.d)
    decreases |steps|
  {
    if steps == [] then s else Run(Next(s, steps[0]), steps[1..])
  }

  // ---------------------------------------------------------------- the invariant

  /** What the gateway has sent is the file and says so. */
  ghost predicate Sending(g: G.Gateway, file: seq<bv8>, block: nat) {
    && G.StreamInv(g, file)
    && (g.state == G.Begin ==> g.storageNumber == block)
    && (g.start.Some? ==> g.start.value.storageNumber == block && g.start.value.fwSize == |file|)
    && (g.start.None? ==> g.sent == [])
  }

  /** OTA_START comes first; after it pieces, in order, none that the device has gone past. */
  ghost predicate OnTheBus(s: System, file: seq<bv8>) {
    && s.accepted <= |s.g.sent| && (s.g.start.None? ==> s.toDevice == [] && !s.begun && s.accepted == 0)
    && (forall i :: 0 <= i < |s.toDevice| ==>
          match s.toDevice[i]
          case StartMessage(start) => i == 0 && !s.begun && s.accepted == 0 && s.g.start == Some(start)
          case PieceMessage(number, frame) => s.accepted <= number < |s.g.sent| && frame == G.PieceFrame(file, number))
    && (forall i, j :: 0 <= i < j < |s.toDevice| && s.toDevice[i].PieceMessage?
            ==> s.toDevice[j].PieceMessage? && s.toDevice[i].number < s.toDevice[j].number)
  }

  /** The acknowledgments that let the gateway send another piece. */
  ghost function Permits(replies: seq<Reply>): nat {
    if replies == [] then 0
    else Permits(replies[..|replies| - 1]) + (if replies[|replies| - 1].ack
        && replies[|replies| - 1].cmd in {G.OtaStart, G.OtaSend} then 1 else 0)
  }

  /** Every piece sent was permitted by an acknowledgment, of this transfer or one of the `stale` ones
      that were on the bus when it began. */
  ghost predicate Budget(s: System, stale: nat) {
    Permits(s.toGateway) + |s.g.sent| + (if s.g.state == G.Store then 1 else 0)
        <= s.accepted + (if s.startAcked then 1 else 0) + stale
  }

  ghost predicate Delivered(d: D.Device, file: seq<bv8>, block: nat) {
    && d.state in {D.Valid, D.Idle} && block * D.BLOCK + |file| <= |d.mem|
    && d.mem[block * D.BLOCK..block * D.BLOCK + |file|] == file
  }

  /** A device that is in the middle of nothing. */
  predicate AtRest(d: D.Device) { d.state in {D.Idle, D.Valid, D.Invalid} }

  /** A device that waits for a piece of an earlier transfer. */
  predicate Dormant(d: D.Device) { d.state == D.Store && d.pointer < d.fwSize }

  ghost predicate Receiving(s: System, file: seq<bv8>, block: nat, stale: nat) {
    && (!s.begun ==> !s.startAcked && (AtRest(s.d) || (Dormant(s.d) && s.accepted == 0 && stale == 0)))
    && (s.begun && s.d.state in {D.Start, D.Store} ==> Filling(s.d, file, s.accepted))
    && (s.begun && s.d.state in {D.Start, D.Store, D.Check} ==> s.d.base == block * D.BLOCK)
    && (s.d.state == D.Start ==> !s.startAcked)
    && (s.d.state == D.Store ==> s.last == D.Store)
    && (s.d.state == D.Check ==> D.Holding(s.d, file, |file|) && 7 * s.accepted >= |file|)
    && (s.begun && s.d.state == D.Valid ==> Delivered(s.d, file, block))
  }

  ghost predicate Filling(d: D.Device, file: seq<bv8>, accepted: nat) {
    D.Holding(d, file, d.pointer) && d.pointer == Min(7 * accepted, |file|)
  }

  /** Whoever has been told of success has been told the truth. */
  ghost predicate Truthful(s: System, file: seq<bv8>, block: nat) {
    s.g.state == G.Valid || true in s.g.reports || Reply(G.OtaEnd, true) in s.toGateway ==>
        s.begun && Delivered(s.d, file, block)
  }

  ghost predicate Inv(s: System, file: seq<bv8>, block: nat, stale: nat) {
    && 0 < |file| < TWO_32 && stale < 256 && D.Placed(s.d) && Sending(s.g, file, block)
    && OnTheBus(s, file) && Budget(s, stale) && Receiving(s, file, block, stale) && Truthful(s, file, block)
  }

  // ---------------------------------------------------------------- the gateway's steps

  lemma StreamFile(g: G.Gateway, file: seq<bv8>)
    requires G.StreamInv(g, file)
    ensures g.state != G.Idle ==> g.file == file
    ensures g.state in {G.Store, G.WaitForAck, G.Valid} ==> g.start.Some?
    ensures g.state == G.Begin ==> g.start.None?
    ensures forall k :: 0 <= k < |g.sent| ==> g.sent[k] == G.PieceFrame(file, k) && 7 * k < |file|
  {}

  lemma StartPassSends(g: G.Gateway, env: G.Env)
    requires g.start.None?
    ensures var h := G.StartPass(g, env);
            && h.sent == g.sent && h.reports == g.reports && h.storageNumber == g.storageNumber
            && h.state in {g.state, G.WaitForAck, G.Invalid}
    ensures var h := G.StartPass(g, env);
            h.start.Some? ==>
              h.start.value.storageNumber == g.storageNumber
              && h.start.value.fwSize == |g.file| % TWO_32
  {
    hide G.NextSum, G.SumEnd, G.Shared;
    assert forall k: G.Gateway :: G.FrameOfStart(k).storageNumber == k.storageNumber
               && G.FrameOfStart(k).fwSize == |k.file| % TWO_32;
    hide G.FrameOfStart;
  }

  lemma PiecePassSends(g: G.Gateway, env: G.Env)
    ensures var h := G.PiecePass(g, env);
            && h.start == g.start && h.reports == g.reports && h.state in {G.WaitForAck, G.Invalid}
            && (h.sent == g.sent || (g.pos < |g.file| && h.sent == g.sent + [G.NextFrame(g)]))
  {
    hide G.NextFrame, G.NextEnd;
  }

  /** What a pass changes: at most one frame goes out, OTA_START first, a piece only in the Store
      state. */
  lemma PassSends(g: G.Gateway, env: G.Env)
    requires g.state == G.Begin ==> g.start.None?
    ensures var h := G.OtaPass(g, env);
            && h.state !in {G.Store, G.Valid}
            && (h.sent == g.sent
                || (g.state == G.Store && h.start == g.start && |h.sent| == |g.sent| + 1
                   && h.sent[..|g.sent|] == g.sent))
            && (h.start == g.start || (g.start.None? && h.sent == g.sent))
            && (true in h.reports ==> true in g.reports || g.state == G.Valid)
  {
    hide HasElapsed, G.StartPass, G.PiecePass;
    if g.state == G.Begin { StartPassSends(g, env); }
    PiecePassSends(g.(timer := env.now), env);
    assert forall f :: (g.sent + [f])[..|g.sent|] == g.sent;
  }

  lemma PassKeepsSending(g: G.Gateway, env: G.Env, file: seq<bv8>, block: nat)
    requires Sending(g, file, block) && |file| < TWO_32
    ensures Sending(G.OtaPass(g, env), file, block)
  {
    hide G.StreamInv, HasElapsed, G.StartPass, G.PiecePass;
    G.NextKeepsStream(g, file, G.Pass(env));
    StreamFile(g, file);
    if g.state == G.Begin { StartPassSends(g, env); }
    PiecePassSends(g.(timer := env.now), env);
  }

  lemma PassKeepsBus(s: System, h: G.Gateway, file: seq<bv8>)
    requires OnTheBus(s, file)
    requires h.sent == s.g.sent || (h.start == s.g.start && s.g.start.Some? && |h.sent| == |s.g.sent| + 1
             && h.sent[|s.g.sent|] == G.PieceFrame(file, |s.g.sent|))
    requires h.start == s.g.start || (s.g.start.None? && h.sent == s.g.sent)
    ensures OnTheBus(s.(g := h, toDevice := s.toDevice + NewMessages(s.g, h)), file)
  {
    hide G.PieceFrame;
    var m := NewMessages(s.g, h);
    if h.start != s.g.start {
      assert s.toDevice == [] && s.toDevice + m == m;
    } else if h.sent == s.g.sent {
      assert m == [] && s.toDevice + m == s.toDevice;
    } else {
      assert m == [PieceMessage(|s.g.sent|, G.PieceFrame(file, |s.g.sent|))];
    }
  }

  lemma PassKeepsInv(s: System, env: G.Env, file: seq<bv8>, block: nat, stale: nat)
    requires Inv(s, file, block, stale)
    ensures Inv(Next(s, GatewayPass(env)), file, block, stale)
  {
    hide G.StreamInv, G.OtaPass, G.PieceFrame, D.Placed, Filling, D.Holding, Delivered, Permits, OnTheBus;
    var (g, h) := (s.g, G.OtaPass(s.g, env));
    PassKeepsSending(g, env, file, block);
    StreamFile(g, file);
    PassSends(g, env);
    StreamFile(h, file);
    PassKeepsBus(s, h, file);
  }

  lemma GetKeepsSending(g: G.Gateway, cmd: G.Command, ack: bool, file: seq<bv8>, block: nat)
    requires Sending(g, file, block)
    ensures Sending(G.HandleFrame(g, cmd, ack), file, block)
  {
    hide G.StreamInv;
    G.NextKeepsStream(g, file, G.Frame(cmd, ack));
  }

  lemma {:induction false} PermitsSplit(a: seq<Reply>, b: seq<Reply>)
    ensures Permits(a + b) == Permits(a) + Permits(b)
    decreases |b|
  {
    if b == [] {
      assert a + b == a;
    } else {
      var n := |b| - 1;
      PermitsSplit(a, b[..n]);
      assert (a + b)[..|a| + n] == a + b[..n];
    }
  }

  lemma PermitsHead(replies: seq<Reply>)
    requires replies != []
    ensures Permits(replies) == Permits(replies[1..]) + (if replies[0].ack
            && replies[0].cmd in {G.OtaStart, G.OtaSend} then 1 else 0)
  {
    PermitsSplit(replies[..1], replies[1..]);
    assert replies[..1] + replies[1..] == replies;
    assert replies[..1][..0] == [];
  }

  lemma GetKeepsInv(s: System, file: seq<bv8>, block: nat, stale: nat)
    requires Inv(s, file, block, stale)
    ensures Inv(Next(s, GatewayGets), file, block, stale)
  {
    hide G.StreamInv, G.PieceFrame, D.Placed, Filling, D.Holding, Delivered, Permits;
    if s.toGateway != [] {
      GetKeepsSending(s.g, s.toGateway[0].cmd, s.toGateway[0].ack, file, block);
      PermitsHead(s.toGateway);
    }
  }

  lemma LossKeepsInv(s: System, i: nat, file: seq<bv8>, block: nat, stale: nat)
    requires Inv(s, file, block, stale)
    ensures Inv(Next(s, LoseMessage(i)), file, block, stale)
  {
    hide Sending, G.PieceFrame, D.Placed, D.Holding, Filling, Delivered, Permits;
  }

  lemma ReplyLossKeepsInv(s: System, i: nat, file: seq<bv8>, block: nat, stale: nat)
    requires Inv(s, file, block, stale)
    ensures Inv(Next(s, LoseReply(i)), file, block, stale)
  {
    hide Sending, G.PieceFrame, D.Placed, D.Holding, Filling, Delivered, Permits;
    if i < |s.toGateway| {
      var r := s.toGateway;
      PermitsSplit(r[..i], r[i..]);
      assert r[..i] + r[i..] == r;
      PermitsHead(r[i..]);
      assert r[i..][1..] == r[i + 1..];
      PermitsSplit(r[..i], r[i + 1..]);
    }
  }

  // ---------------------------------------------------------------- the device's steps

  /** A reply that promises no success costs nothing but its permit. */
  lemma ReplyAdds(replies: seq<Reply>, r: Reply)
    ensures Permits(replies + [r]) == Permits(replies) + (if r.ack && r.cmd in {G.OtaStart, G.OtaSend} then 1 else 0)
  {
    assert (replies + [r])[..|replies|] == replies;
  }

  lemma StartKeepsInv(s: System, io: D.Io, file: seq<bv8>, block: nat, stale: nat)
    requires Inv(s, file, block, stale) && s.toDevice != [] && s.toDevice[0].StartMessage?
    ensures Inv(Next(s, DeviceGets(io)), file, block, stale)
  {
    hide G.StreamInv, G.PieceFrame, D.Placed, D.Holding, Permits, D.AfterStart, D.StartAccepted, Delivered;
    var start := s.toDevice[0].start;
    ReplyAdds(s.toGateway, Reply(G.OtaStart, false));
    StartFills(s.d, start, io, file);
  }

  lemma StartFills(d: D.Device, start: G.NumberStart, io: D.Io, file: seq<bv8>)
    requires D.Placed(d) && start.fwSize == |file| > 0
    ensures var e := D.AfterStart(d, start.storageNumber, start.fwSize, start.fwCrc, io);
            if D.StartAccepted(d, start.storageNumber, start.fwSize, io)
            then e.state == D.Start && D.Holding(e, file, 0) && e.pointer == 0
                && e.base == start.storageNumber * D.BLOCK
            else e == d
  {
    hide D.Holding;
    if D.StartAccepted(d, start.storageNumber, start.fwSize, io) {
      D.StartHolds(d, file, start.storageNumber, start.fwCrc, io);
    }
  }

  lemma FrameIsPiece(file: seq<bv8>, k: nat)
    requires 7 * k < |file|
    ensures D.IsPiece(G.PieceFrame(file, k).data, file, 7 * k)
  {}

  lemma PieceFills(d: D.Device, k: nat, io: D.Io, file: seq<bv8>)
    requires Filling(d, file, k) && 7 * k < |file|
    requires D.StoreAccepted(d, G.PieceFrame(file, k).sequence, io)
    ensures var e := D.Next(d, D.Piece(G.PieceFrame(file, k).sequence, G.PieceFrame(file, k).data, io));
            Filling(e, file, k + 1) && e.state == d.state && e.base == d.base
  {
    hide D.Holding, G.PieceFrame, D.StoreAccepted, D.AfterStore;
    var frame := G.PieceFrame(file, k);
    FrameIsPiece(file, k);
    assert D.Placed(d) by { HoldingPlaced(d, file, d.pointer); }
    D.StoreExtends(d, file, frame.sequence, frame.data, io);
    D.StoreKeepsPlaced(d, frame.sequence, frame.data, io);
  }

  lemma HoldingPlaced(d: D.Device, file: seq<bv8>, n: nat)
    requires D.Holding(d, file, n)
    ensures D.Placed(d) && d.fwSize == |file|
  {}

  /** A piece the device does not accept leaves it alone or ends the transfer. */
  lemma PieceRefused(d: D.Device, sequence: nat, data: seq<bv8>, io: D.Io)
    requires D.Placed(d) && |data| == 7
    ensures var e := D.Next(d, D.Piece(sequence, data, io));
            && (!D.StoreAccepted(d, sequence, io) ==> e == d || e.state == D.Invalid)
            && (d.state in {D.Idle, D.Valid} ==> !D.StoreAccepted(d, sequence, io) && e == d)
            && (d.state == D.Invalid ==> e.state == D.Invalid)
  {
    hide D.Held, D.Flashed;
    D.StoreKeepsPlaced(d, sequence, data, io);
  }

  /** What is known of a piece at the front of the bus: the device has not gone past it, and its number is
      close enough for the low byte of its offset to tell it from the next one. */
  lemma FrontPiece(s: System, file: seq<bv8>, block: nat, stale: nat)
    requires Inv(s, file, block, stale) && s.toDevice != [] && s.toDevice[0].PieceMessage?
    ensures s.accepted <= s.toDevice[0].number <= s.accepted + stale && 7 * s.toDevice[0].number < |file|
            && s.d.state != D.Check
    ensures s.toDevice[0].frame == G.PieceFrame(file, s.toDevice[0].number) && (s.begun || AtRest(s.d))
  {
    hide G.StreamInv, G.PieceFrame, D.Placed, D.Holding, Filling, Delivered, Permits;
    StreamFile(s.g, file);
    assert s.toDevice[0].number < |s.g.sent|;
  }

  /** In a session the only piece the device takes is the next one. */
  lemma FittingPieceIsNext(s: System, file: seq<bv8>, block: nat, stale: nat)
    requires Inv(s, file, block, stale) && s.toDevice != [] && s.toDevice[0].PieceMessage?
    requires s.begun && s.d.state in {D.Start, D.Store} && D.InSequence(s.d, s.toDevice[0].frame.sequence)
    ensures s.toDevice[0].number == s.accepted
  {
    hide Sending, G.PieceFrame, D.Placed, D.InSequence, D.Holding, Permits, Delivered, OnTheBus;
    FrontPiece(s, file, block, stale);
    FitsIffCongruent(s.d, s.accepted, s.toDevice[0].number, file);
  }

  lemma PieceKeepsBus(s: System, file: seq<bv8>, t: System)
    requires OnTheBus(s, file) && s.toDevice != [] && s.toDevice[0].PieceMessage?
    requires t.toDevice == s.toDevice[1..] && t.g == s.g && t.begun == s.begun
             && s.accepted <= t.accepted <= s.accepted + 1
    ensures OnTheBus(t, file)
  {
    hide G.PieceFrame;
    assert s.toDevice[0].number < |s.g.sent|;
  }

  lemma PieceKeepsInv(s: System, io: D.Io, file: seq<bv8>, block: nat, stale: nat)
    requires Inv(s, file, block, stale) && s.toDevice != [] && s.toDevice[0].PieceMessage?
    ensures Inv(Next(s, DeviceGets(io)), file, block, stale)
  {
    hide Sending, G.PieceFrame, D.Placed, D.Holding, Permits, Filling, Delivered, OnTheBus, D.Next, D.StoreAccepted;
    FrontPiece(s, file, block, stale);
    var (k, frame) := (s.toDevice[0].number, s.toDevice[0].frame);
    PieceLength(file, k);
    var t := Next(s, DeviceGets(io));
    var ok := D.StoreAccepted(s.d, frame.sequence, io);
    ReplyAdds(s.toGateway, Reply(G.OtaSend, ok));
    PieceRefused(s.d, frame.sequence, frame.data, io);
    if ok && s.d.state in {D.Start, D.Store} {
      assert D.InSequence(s.d, frame.sequence) by { AcceptedFits(s.d, frame.sequence, io); }
      FittingPieceIsNext(s, file, block, stale);
      PieceFills(s.d, s.accepted, io, file);
    }
    PieceKeepsBus(s, file, t);
    if Delivered(s.d, file, block) { DeliveredRests(s.d, file, block); }
  }

  lemma AcceptedFits(d: D.Device, sequence: nat, io: D.Io)
    requires D.StoreAccepted(d, sequence, io)
    ensures D.InSequence(d, sequence)
  {}

  lemma DeliveredRests(d: D.Device, file: seq<bv8>, block: nat)
    requires Delivered(d, file, block)
    ensures d.state in {D.Valid, D.Idle}
  {}

  lemma PieceLength(file: seq<bv8>, k: nat) ensures |G.PieceFrame(file, k).data| == 7 {}

  lemma RunFills(d: D.Device, k: nat, io: D.Io, file: seq<bv8>)
    requires Filling(d, file, k) && d.state in {D.Start, D.Store}
    ensures var e := D.Next(d, D.Pass(io));
            && e.base == d.base && e.state in {d.state, D.Store, D.Check, D.Invalid}
            && (e.state in {D.Start, D.Store} ==> Filling(e, file, k))
            && (e.state == D.Check ==> D.Holding(e, file, |file|) && 7 * k >= |file|)
  {
    hide D.Stored, HasElapsed;
  }

  lemma RunChecks(d: D.Device, io: D.Io, file: seq<bv8>, block: nat)
    requires D.Holding(d, file, |file|) && d.state == D.Check && d.base == block * D.BLOCK
    ensures var e := D.Next(d, D.Pass(io));
            && e.base == d.base && e.state in {D.Check, D.Valid, D.Invalid}
            && (e.state == D.Check ==> D.Holding(e, file, |file|))
            && (e.state == D.Valid ==> Delivered(e, file, block))
  {
    hide D.Stored, D.AfterCheck, D.AfterChunk;
    var c := d;
    if d.pointer < d.fwSize {
      D.ChunkKeepsHolding(d, file, io);
      c := D.AfterChunk(d, io);
      ChunkKeepsPlace(d, io);
    }
    if c.pointer == c.fwSize { D.CheckCompletes(c, file, io); }
  }

  lemma ChunkKeepsPlace(d: D.Device, io: D.Io)
    requires D.Placed(d) && d.pointer < d.fwSize
    ensures D.AfterChunk(d, io).base == d.base && D.AfterChunk(d, io).state == d.state
  {
    hide Crc, D.ChunkBytes;
  }

  /** A device that waits for an old piece goes on waiting, or gives up. */
  lemma RunWaits(d: D.Device, io: D.Io)
    requires D.Placed(d) && Dormant(d)
    ensures var e := D.Next(d, D.Pass(io)); e == d || e.state == D.Invalid
  {
    hide HasElapsed;
  }

  lemma RestartKeepsInv(s: System, file: seq<bv8>, block: nat, stale: nat)
    requires Inv(s, file, block, stale)
    ensures Inv(Next(s, DeviceRestarts), file, block, stale)
  {
    hide Sending, G.PieceFrame, D.Placed, D.Holding, Permits, Filling;
  }

  lemma RunRests(d: D.Device, io: D.Io, file: seq<bv8>, block: nat)
    requires D.Placed(d) && d.state in {D.Idle, D.Valid, D.Invalid}
    ensures D.Next(d, D.Pass(io)).state == D.Idle
    ensures Delivered(d, file, block) ==> Delivered(D.Next(d, D.Pass(io)), file, block)
  {}

  lemma RunKeepsInv(s: System, io: D.Io, file: seq<bv8>, block: nat, stale: nat)
    requires Inv(s, file, block, stale)
    ensures Inv(Next(s, DeviceRuns(io)), file, block, stale)
  {
    hide Sending, G.PieceFrame, D.Placed, D.Holding, Permits, Filling, Delivered, D.Next;
    var d := D.Next(s.d, D.Pass(io));
    if s.begun && s.d.state in {D.Start, D.Store} {
      RunFills(s.d, s.accepted, io, file);
    } else if s.d.state == D.Store {
      RunWaits(s.d, io);
    } else if s.d.state == D.Check {
      RunChecks(s.d, io, file, block);
    } else {
      RunRests(s.d, io, file, block);
    }
    if Delivered(s.d, file, block) { DeliveredRests(s.d, file, block); }
    var a := Answer(s.last, d.state);
    if a == [] {
      assert s.toGateway + a == s.toGateway;
    } else {
      assert a == [a[0]];
      ReplyAdds(s.toGateway, a[0]);
    }
  }

  // ---------------------------------------------------------------- every run

  lemma StepKeepsInv(s: System, step: Step, file: seq<bv8>, block: nat, stale: nat)
    requires Inv(s, file, block, stale)
    ensures Inv(Next(s, step), file, block, stale)
  {
    hide Sending, OnTheBus, Budget, Receiving, Truthful, OnStart, OnPiece, OnRun, D.Placed;
    match step
    case GatewayPass(env) => PassKeepsInv(s, env, file, block, stale);
    case GatewayGets => GetKeepsInv(s, file, block, stale);
    case DeviceGets(io) =>
      if s.toDevice != [] {
        if s.toDevice[0].StartMessage? {
          StartKeepsInv(s, io, file, block, stale);
        } else {
          PieceKeepsInv(s, io, file, block, stale);
        }
      }
    case DeviceRuns(io) => RunKeepsInv(s, io, file, block, stale);
    case DeviceRestarts => RestartKeepsInv(s, file, block, stale);
    case LoseMessage(i) => LossKeepsInv(s, i, file, block, stale);
    case LoseReply(i) => ReplyLossKeepsInv(s, i, file, block, stale);
  }

  lemma {:induction false} RunsKeepInv(s: System, steps: seq<Step>, file: seq<bv8>, block: nat, stale: nat)
    requires D.Placed(s.d) && Inv(s, file, block, stale)
    ensures Inv(Run(s, steps), file, block, stale)
    decreases |steps|
  {
    hide Inv, Next, D.Placed;
    if steps != [] {
      StepKeepsInv(s, steps[0], file, block, stale);
      RunsKeepInv(Next(s, steps[0]), steps[1..], file, block, stale);
    }
  }

  /** A transfer just accepted by an idle gateway, with `replies` still on their way to it and nothing
      on the way to the device. */
  ghost function Initial(file: seq<bv8>, block: nat, image: G.ImageInfo, now: int, d: D.Device,
                         replies: seq<Reply>): System {
    System(G.Started(file, block, image, now), d, d.state, [], replies, false, false, 0)
  }

  /** A device that the new transfer cannot be mistaken on: one in the middle of nothing, or, if no
      acknowledgment is left over, one that waits for a piece of an earlier transfer. */
  predicate CanBegin(d: D.Device, stale: nat) { AtRest(d) || (Dormant(d) && stale == 0) }

  lemma InitialInv(file: seq<bv8>, block: nat, image: G.ImageInfo, now: int, d: D.Device, replies: seq<Reply>)
    requires 0 < |file| < TWO_32 && G.SharedRight(image, file) && D.Placed(d) && CanBegin(d, Permits(replies))
    requires Permits(replies) < 256 && Reply(G.OtaEnd, true) !in replies
    ensures Inv(Initial(file, block, image, now, d, replies), file, block, Permits(replies))
  {
    hide D.Placed, D.Holding, Permits;
    G.StartedStreams(file, block, image, now);
  }

  /** A reported success is one of this transfer. */
  ghost predicate Trusted(s: System, file: seq<bv8>, block: nat) {
    true in s.g.reports ==> s.begun && Delivered(s.d, file, block)
  }

  /** Over every interleaving, with every loss and every failure, and with any refusals and up to 255
      acknowledgments of pieces left over from earlier transfers: the gateway reports success only when
      the device took this transfer's start and its flash holds exactly the file at the block it was
      sent to, and in the meantime no more is stored than an exact prefix of it. */
  lemma SuccessMeansStored(file: seq<bv8>, block: nat, image: G.ImageInfo, now: int, d: D.Device, replies: seq<Reply>,
                           steps: seq<Step>)
    requires 0 < |file| < TWO_32 && G.SharedRight(image, file) && D.Placed(d) && CanBegin(d, Permits(replies))
    requires Permits(replies) < 256 && Reply(G.OtaEnd, true) !in replies
    ensures var s := Run(Initial(file, block, image, now, d, replies), steps);
            && Trusted(s, file, block)
            && (true in s.g.reports ==>
                 block * D.BLOCK + |file| <= |s.d.mem|
                 && s.d.mem[block * D.BLOCK..block * D.BLOCK + |file|] == file)
            && (s.begun && s.d.state in {D.Start, D.Store} ==> D.Holding(s.d, file, Min(7 * s.accepted, |file|)))
  {
    hide Run, D.Placed, D.Holding, Permits;
    var s0 := Initial(file, block, image, now, d, replies);
    InitialInv(file, block, image, now, d, replies);
    RunsKeepInv(s0, steps, file, block, Permits(replies));
  }

  lemma EmptyPermits() ensures Permits([]) == 0 {}

  /** Which pieces a device that has stored `k` of them takes for the next one: exactly those whose
      number is `k` up to a multiple of 256. */
  lemma FitsIffCongruent(d: D.Device, k: nat, j: nat, file: seq<bv8>)
    requires Filling(d, file, k) && 7 * k < |file|
    ensures D.InSequence(d, G.PieceFrame(file, j).sequence) <==> (k - j) % 256 == 0
  {
    hide D.Stored, G.Padded, G.Piece;
    G.SequencesRepeat(k, j);
  }
}
