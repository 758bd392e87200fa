/** The two clocks of a CAN firmware transfer. However long the file is, answers that keep coming in time keep
    the transfer alive on both sides; silence and failures end it, on the gateway with a report and on the
    device with the image erased. */
module CanOtaPace {
  import opened Common
  import opened Crc16
  import opened SpiFlash
  import G = CanOta
  import D = OtaDevice
  import S = CanOtaSystem

  // ---------------------------------------------------------------- the targets of one upload

  /** What a target's run leaves in the record it shares with the next. */
  ghost predicate Leaves(g: G.Gateway, file: seq<bv8>) {
    && g.shared.Image?
    && (g.start.Some? || g.imageCrcKnown ==>
          g.shared == G.Image(|file|, Crc(DEFAULT_INIT, file, DEFAULT_POLYNOMIAL), true))
  }

  lemma NextLeaves(g: G.Gateway, file: seq<bv8>, e: G.Event)
    requires G.StreamInv(g, file) && Leaves(g, file)
    ensures Leaves(G.Next(g, e), file)
  {
    hide Crc, HasElapsed, G.StartPass, G.PiecePass, G.Streams;
    if e.Pass? {
      if g.state == G.Begin { StartLeaves(g, file, e.env); }
      PieceLeaves(g.(timer := e.env.now), e.env);
    }
  }

  lemma StartLeaves(g: G.Gateway, file: seq<bv8>, env: G.Env)
    requires g.state == G.Begin && G.StreamInv(g, file) && Leaves(g, file)
    ensures Leaves(G.StartPass(g, env), file)
  {
    hide Crc, G.NextSum, G.Streams;
    assert file[..|file|] == file;
  }

  lemma PieceLeaves(g: G.Gateway, env: G.Env)
    ensures var h := G.PiecePass(g, env);
            h.shared == g.shared && h.start == g.start && h.imageCrcKnown == g.imageCrcKnown
  {
    hide G.NextFrame;
    if g.pos >= |g.file| || !env.readOk {
    } else if env.sendOk {
      assert G.PiecePass(g, env).state == G.WaitForAck;
    } else {
      assert G.PiecePass(g, env).state == G.Invalid;
    }
  }

  lemma {:induction false} RunLeaves(g: G.Gateway, file: seq<bv8>, events: seq<G.Event>)
    requires G.StreamInv(g, file) && Leaves(g, file)
    ensures Leaves(G.Run(g, events), file)
    decreases |events|
  {
    hide G.StreamInv, G.Next, Leaves;
    if events != [] {
      NextLeaves(g, file, events[0]);
      G.NextKeepsStream(g, file, events[0]);
      RunLeaves(G.Next(g, events[0]), file, events[1..]);
    }
  }

  /** One target sums the file up for all: whatever happens to it, once it has announced the file the record holds
      the file's checksum, and the next target announces the file on its first pass. */
  lemma ChecksumIsShared(file: seq<bv8>, block: nat, image: G.ImageInfo, now: int, events: seq<G.Event>, next: nat,
                         later: int)
    requires image.Image? && G.SharedRight(image, file)
    ensures var g := G.Run(G.Started(file, block, image, now), events);
            var start := G.OtaPass(G.Started(file, next, g.shared, later), Fine(later)).start;
            g.start.Some? ==>
              && start.Some? && start.value.storageNumber == next && start.value.fwSize == |file| % TWO_32
              && start.value.fwCrc == Crc(DEFAULT_INIT, file, DEFAULT_POLYNOMIAL)
  {
    hide G.Run, Crc, G.NextSum;
    var s := G.Started(file, block, image, now);
    G.StartedStreams(file, block, image, now);
    RunLeaves(s, file, events);
  }

  // ---------------------------------------------------------------- the gateway

  function Fine(now: int): G.Env { G.Env(now, true, true) }

  function Waiting(times: seq<int>): (events: seq<G.Event>)
    ensures |events| == |times|
  {
    seq(|times|, i requires 0 <= i < |times| => G.Pass(Fine(times[i])))
  }

  /** A piece goes out at `at`; the gateway's passes while it waits come at the `idle` times; then the
      acknowledgment arrives. */
  datatype Round = Round(at: int, idle: seq<int>)

  function RoundEvents(r: Round): seq<G.Event> {
    [G.Pass(Fine(r.at))] + (Waiting(r.idle) + [G.Frame(G.OtaSend, true)])
  }

  function Events(rounds: seq<Round>): seq<G.Event> {
    if rounds == [] then [] else RoundEvents(rounds[0]) + Events(rounds[1..])
  }

  /** From piece to piece no more than five minutes. */
  ghost predicate Steady(last: int, rounds: seq<Round>)
    decreases |rounds|
  {
    rounds == [] ||
    var r := rounds[0];
    && 0 <= r.at - last <= 300_000 && (forall i :: 0 <= i < |r.idle| ==> 0 <= r.idle[i] - r.at <= 300_000)
    && Steady(r.at, rounds[1..])
  }

  lemma {:induction false} GatewayRunsOn(g: G.Gateway, xs: seq<G.Event>, ys: seq<G.Event>)
    ensures G.Run(g, xs + ys) == G.Run(G.Run(g, xs), ys)
    decreases |xs|
  {
    hide G.Next;
    if xs == [] {
      assert xs + ys == ys;
    } else {
      GatewayRunsOn(G.Next(g, xs[0]), xs[1..], ys);
      assert (xs + ys)[1..] == xs[1..] + ys;
    }
  }

  lemma GatewayRunsOne(g: G.Gateway, e: G.Event)
    ensures G.Run(g, [e]) == G.Next(g, e)
  {
    hide G.Next;
    assert [e][1..] == [] && G.Run(G.Next(g, e), []) == G.Next(g, e);
  }

  lemma {:induction false} WaitingChangesNothing(g: G.Gateway, times: seq<int>)
    requires g.state == G.WaitForAck && forall i :: 0 <= i < |times| ==> 0 <= times[i] - g.timer <= 300_000
    ensures G.Run(g, Waiting(times)) == g
    decreases |times|
  {
    if times != [] {
      assert Waiting(times)[1..] == Waiting(times[1..]);
      WaitingChangesNothing(g, times[1..]);
    }
  }

  /** A pass that sends a piece in time restarts the clock. */
  lemma PieceGoesOut(g: G.Gateway, at: int)
    requires g.state == G.Store && 0 <= at - g.timer <= 300_000 && g.pos < |g.file|
    ensures var h := G.Next(g, G.Pass(Fine(at)));
            && h.state == G.WaitForAck && h.timer == at && |h.sent| == |g.sent| + 1 && h.reports == g.reports
  {
    hide G.NextFrame;
  }

  lemma RoundIsDone(g: G.Gateway, file: seq<bv8>, r: Round)
    requires G.StreamInv(g, file) && g.state == G.Store && 7 * |g.sent| < |file|
    requires 0 <= r.at - g.timer <= 300_000 && forall i :: 0 <= i < |r.idle| ==> 0 <= r.idle[i] - r.at <= 300_000
    ensures var h := G.Run(g, RoundEvents(r));
            && G.StreamInv(h, file) && h.state == G.Store && h.timer == r.at && |h.sent| == |g.sent| + 1
            && h.reports == g.reports
  {
    hide G.StreamInv, G.Run, G.OtaPass;
    var a := G.Pass(Fine(r.at));
    assert g.pos < |g.file| by { StoreMeans(g, file); }
    PieceGoesOut(g, r.at);
    GatewayRunsOne(g, a);
    G.NextKeepsStream(g, file, a);
    var h := G.Next(g, a);
    WaitingChangesNothing(h, r.idle);
    var b := G.Frame(G.OtaSend, true);
    G.NextKeepsStream(h, file, b);
    GatewayRunsOne(h, b);
    GatewayRunsOn(h, Waiting(r.idle), [b]);
    GatewayRunsOn(g, [a], Waiting(r.idle) + [b]);
  }

  lemma StoreMeans(g: G.Gateway, file: seq<bv8>)
    requires G.StreamInv(g, file) && g.state == G.Store && 7 * |g.sent| < |file|
    ensures g.pos < |g.file|
  {}

  /** However many pieces a file has: acknowledged no more than five minutes apart they all go out, and the
      transfer neither times out nor reports anything. */
  lemma {:induction false} GatewayKeepsPace(g: G.Gateway, file: seq<bv8>, rounds: seq<Round>)
    requires G.StreamInv(g, file) && g.state == G.Store && Steady(g.timer, rounds)
    requires 7 * (|g.sent| + |rounds|) < |file| + 7
    ensures var h := G.Run(g, Events(rounds));
            && G.StreamInv(h, file) && h.state == G.Store && |h.sent| == |g.sent| + |rounds|
            && h.reports == g.reports
    decreases |rounds|
  {
    hide G.StreamInv, RoundEvents;
    if rounds != [] {
      RoundIsDone(g, file, rounds[0]);
      var h := G.Run(g, RoundEvents(rounds[0]));
      GatewayKeepsPace(h, file, rounds[1..]);
      GatewayRunsOn(g, RoundEvents(rounds[0]), Events(rounds[1..]));
    }
  }

  /** A refusal the gateway waits for is reported as a failure by the next pass, which closes the file. */
  lemma RefusalIsReported(g: G.Gateway, cmd: G.Command, env: G.Env)
    requires g.state == G.WaitForAck && cmd != G.Other
    ensures var h := G.OtaPass(G.HandleFrame(g, cmd, false), env);
            h.state == G.Idle && h.reports == g.reports + [false] && h.file == []
  {
    hide HasElapsed;
  }

  /** So is a piece that could not be read or sent. */
  lemma FailedPieceIsReported(g: G.Gateway, env: G.Env, later: G.Env)
    requires g.state == G.Store && 0 <= env.now - g.timer <= 300_000 && g.pos < |g.file|
    requires !env.readOk || !env.sendOk
    ensures var h := G.OtaPass(G.OtaPass(g, env), later);
            h.state == G.Idle && h.reports == g.reports + [false] && h.sent == g.sent
  {
    hide G.PiecePass, HasElapsed;
    assert !HasElapsed(env.now, g.timer, 300_000) by { NotYet(env.now, g.timer); }
    PieceFails(g.(timer := env.now), env);
  }

  lemma NotYet(now: int, timer: int)
    requires 0 <= now - timer <= 300_000
    ensures !HasElapsed(now, timer, 300_000)
  {}

  lemma PieceFails(g: G.Gateway, env: G.Env)
    requires g.pos < |g.file| && (!env.readOk || !env.sendOk)
    ensures var h := G.PiecePass(g, env); h.state == G.Invalid && h.reports == g.reports && h.sent == g.sent
  {
    hide G.NextFrame;
  }

  /** And an image the device gives up: the device says so on the pass that gives it up, whatever the reason. */
  lemma InvalidIsReported(s: S.System, io: D.Io, env: G.Env)
    requires D.Placed(s.d) && s.g.state == G.WaitForAck && s.toGateway == []
    requires D.AfterRun(s.d, io).state == D.Invalid
    ensures var t := S.Next(S.Next(S.Next(s, S.DeviceRuns(io)), S.GatewayGets), S.GatewayPass(env));
            t.g.state == G.Idle && t.g.reports == s.g.reports + [false]
  {
    hide D.Placed, D.AfterRun, HasElapsed;
    var t := S.Next(s, S.DeviceRuns(io));
    assert t.toGateway == [S.Reply(G.OtaEnd, false)] && t.g == s.g;
    RefusalIsReported(s.g, G.OtaEnd, env);
  }

  // ---------------------------------------------------------------- the device

  function Answering(now: int): D.Io { D.Io(now, true, true, false, true, 0, true) }

  /** A piece is stored at `at`; the device's passes until the next one come at the `idle` times. */
  datatype Filling = Filling(data: seq<bv8>, at: int, idle: seq<int>)

  function Passing(times: seq<int>): (events: seq<D.Event>)
    ensures |events| == |times|
  {
    seq(|times|, i requires 0 <= i < |times| => D.Pass(Answering(times[i])))
  }

  function FillingEvents(f: Filling, pointer: nat): seq<D.Event> {
    [D.Piece(pointer % 256, f.data, Answering(f.at))] + Passing(f.idle)
  }

  function DeviceEvents(fillings: seq<Filling>, pointer: nat): seq<D.Event>
    decreases |fillings|
  {
    if fillings == [] then [] else FillingEvents(fillings[0], pointer) + DeviceEvents(fillings[1..], pointer + 7)
  }

  /** Each piece is the next of the image, and no pass comes more than three minutes after the last one. */
  ghost predicate Paced(fillings: seq<Filling>, image: seq<bv8>, pointer: nat)
    decreases |fillings|
  {
    fillings == [] ||
    var f := fillings[0];
    && D.IsPiece(f.data, image, pointer) && (forall i :: 0 <= i < |f.idle| ==> 0 <= f.idle[i] - f.at <= 180_000)
    && Paced(fillings[1..], image, pointer + 7)
  }

  lemma {:induction false} DeviceRunsOn(d: D.Device, xs: seq<D.Event>, ys: seq<D.Event>)
    requires D.Placed(d)
    ensures D.Run(d, xs + ys) == D.Run(D.Run(d, xs), ys)
    decreases |xs|
  {
    hide D.Next, D.Placed;
    if xs == [] {
      assert xs + ys == ys;
    } else {
      DeviceRunsOn(D.Next(d, xs[0]), xs[1..], ys);
      assert (xs + ys)[1..] == xs[1..] + ys;
    }
  }

  lemma DeviceRunsOne(d: D.Device, e: D.Event)
    requires D.Placed(d)
    ensures D.Run(d, [e]) == D.Next(d, e)
  {
    hide D.Next, D.Placed;
    assert [e][1..] == [] && D.Run(D.Next(d, e), []) == D.Next(d, e);
  }

  /** A pass in the middle of the storing changes nothing for three minutes; the first one after that gives
      the image up. */
  lemma StallsIff(d: D.Device, io: D.Io)
    requires D.Placed(d) && d.state == D.Store && d.pointer < d.fwSize && 0 <= io.now - d.stall < TWO_32
    ensures D.AfterRun(d, io) == if io.now - d.stall <= 180_000 then d else d.(state := D.Invalid)
  {}

  /** The same limit while the chip is being erased. */
  lemma EraseStallsIff(d: D.Device, io: D.Io)
    requires D.Placed(d) && d.state == D.Start && 0 <= io.now - d.stall < TWO_32
    ensures D.AfterRun(d, io) == if io.now - d.stall > 180_000 then d.(state := D.Invalid)
                                 else if io.busy then d else d.(state := D.Store)
  {}

  lemma {:induction false} PassingChangesNothing(d: D.Device, times: seq<int>)
    requires D.Placed(d) && d.state == D.Store && d.pointer < d.fwSize
    requires forall i :: 0 <= i < |times| ==> 0 <= times[i] - d.stall <= 180_000
    ensures D.Run(d, Passing(times)) == d
    decreases |times|
  {
    hide D.Placed, D.AfterRun;
    if times != [] {
      assert Passing(times)[1..] == Passing(times[1..]);
      StallsIff(d, Answering(times[0]));
      PassingChangesNothing(d, times[1..]);
    }
  }

  lemma StoreStampsClock(d: D.Device, sequence: nat, data: seq<bv8>, io: D.Io)
    requires D.Placed(d) && |data| == 7 && D.InSequence(d, sequence) && io.writeOk
    ensures D.AfterStore(d, sequence, data, io).stall == io.now && D.AfterStore(d, sequence, data, io).state == d.state
  {
    hide D.Held, D.Flashed;
  }

  lemma FillingIsDone(d: D.Device, image: seq<bv8>, f: Filling)
    requires D.Holding(d, image, d.pointer) && d.state == D.Store && d.pointer + 7 < |image|
    requires D.IsPiece(f.data, image, d.pointer) && forall i :: 0 <= i < |f.idle| ==> 0 <= f.idle[i] - f.at <= 180_000
    ensures var e := D.Run(d, FillingEvents(f, d.pointer));
            && D.Holding(e, image, e.pointer) && e.state == D.Store && e.pointer == d.pointer + 7 && e.stall == f.at
  {
    hide D.Stored, D.AfterStore, D.AfterRun, D.Kept, D.Placed, D.Run;
    var p := D.Piece(d.pointer % 256, f.data, Answering(f.at));
    D.StoreExtends(d, image, d.pointer % 256, f.data, Answering(f.at));
    StoreStampsClock(d, d.pointer % 256, f.data, Answering(f.at));
    DeviceRunsOne(d, p);
    PassingChangesNothing(D.Next(d, p), f.idle);
    DeviceRunsOn(d, [p], Passing(f.idle));
  }

  /** However long the image is: pieces that come no more than three minutes apart are all stored, in their
      places, and the device goes on waiting for the next. */
  lemma {:induction false} DeviceKeepsPace(d: D.Device, image: seq<bv8>, fillings: seq<Filling>)
    requires D.Holding(d, image, d.pointer) && d.state == D.Store && Paced(fillings, image, d.pointer)
    requires d.pointer + 7 * |fillings| < |image|
    ensures var e := D.Run(d, DeviceEvents(fillings, d.pointer));
            D.Holding(e, image, e.pointer) && e.state == D.Store && e.pointer == d.pointer + 7 * |fillings|
    decreases |fillings|
  {
    hide D.Stored, D.Placed, FillingEvents, D.IsPiece;
    if fillings != [] {
      FillingIsDone(d, image, fillings[0]);
      var e := D.Run(d, FillingEvents(fillings[0], d.pointer));
      DeviceKeepsPace(e, image, fillings[1..]);
      DeviceRunsOn(d, FillingEvents(fillings[0], d.pointer), DeviceEvents(fillings[1..], d.pointer + 7));
    }
  }

  /** An image that was given up, for whatever reason, is erased by the next pass the chip answers, and the
      device takes no piece before the next start. */
  lemma FailedImageIsErased(d: D.Device, io: D.Io, sequence: nat, later: D.Io)
    requires D.Placed(d) && d.state == D.Invalid && io.eraseOk
    ensures var e := D.AfterRun(d, io);
            && e.state == D.Idle && e.fwSize == 0 && |e.mem| == |d.mem| && Erased(e.mem, 0, |e.mem|)
            && !D.StoreAccepted(e, sequence, later)
  {
    hide HasElapsed;
  }
}
