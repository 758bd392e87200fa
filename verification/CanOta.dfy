/** The gateway's side of a CAN firmware transfer: `CanOta` in `lib/canMqttGateway/src/canMqttGateway.cpp`
    with the frame layout of `lib/canHandler/src/otaCanFrame.hpp`. */
module CanOta {
  import opened Common
  import opened Crc16

  const OTA_TIMEOUT_MS: nat := 300_000
  const READ_BUFFER_SIZE: nat := 64
  const DATA_PIECE_SIZE: nat := 7

  // ---------------------------------------------------------------- frames

  /** The fields as machine words on the wire, and as numbers elsewhere. */
  datatype StartFrame<S, F> = StartFrame(storageNumber: S, fwSize: F, fwCrc: bv16)
  type WireStart = StartFrame<bv16, bv32>
  type NumberStart = StartFrame<nat, nat>

  datatype SendFrame = SendFrame(data: seq<bv8>, sequence: nat)

  function PackStart(f: WireStart): (d: seq<bv8>)
    ensures |d| == 8
  {
    [(f.storageNumber & 0xFF) as bv8, ((f.storageNumber >> 8) & 0xFF) as bv8,
     (f.fwSize & 0xFF) as bv8, ((f.fwSize >> 8) & 0xFF) as bv8, ((f.fwSize >> 16) & 0xFF) as bv8,
         ((f.fwSize >> 24) & 0xFF) as bv8,
     (f.fwCrc & 0xFF) as bv8, ((f.fwCrc >> 8) & 0xFF) as bv8]
  }

  function Join16(low: bv8, high: bv8): bv16 { (low as bv16) | ((high as bv16) << 8) }
  function Join32(a: bv8, b: bv8, c: bv8, d: bv8): bv32 {
    (a as bv32) | ((b as bv32) << 8) | ((c as bv32) << 16) | ((d as bv32) << 24)
  }

  function UnpackStart(d: seq<bv8>): WireStart
    requires |d| == 8
  {
    StartFrame(Join16(d[0], d[1]), Join32(d[2], d[3], d[4], d[5]), Join16(d[6], d[7]))
  }

  lemma Join16Splits(x: bv16) ensures Join16((x & 0xFF) as bv8, ((x >> 8) & 0xFF) as bv8) == x {}
  lemma Join32Splits(x: bv32)
    ensures Join32((x & 0xFF) as bv8, ((x >> 8) & 0xFF) as bv8, ((x >> 16) & 0xFF) as bv8, ((x >> 24) & 0xFF) as bv8)
            == x
  {}

  lemma StartRoundTrip(f: WireStart)
    ensures UnpackStart(PackStart(f)) == f
  {
    hide Join16, Join32;
    Join16Splits(f.storageNumber);
    Join32Splits(f.fwSize);
    Join16Splits(f.fwCrc);
  }

  // ---------------------------------------------------------------- state

  datatype State = Idle | WaitForAck | Begin | Store | Valid | Invalid

  /** `file` is the open firmware file, empty when none is open; `pos` is its read position. `sent` and
      `reports` are the frames and the status messages that have gone out since the transfer was
      accepted. */
  datatype Gateway = Gateway(
    state: State, file: seq<bv8>, pos: nat, frameNumber: nat, storageNumber: nat, timer: int,
    crc: bv16, imageCrc: bv16, imageCrcKnown: bool, shared: ImageInfo,
    start: Option<NumberStart>, sent: seq<SendFrame>, reports: seq<bool>)

  /** Where the targets of one upload leave the checksum for each other. */
  datatype ImageInfo = NoImage | Image(size: nat, crc: bv16, valid: bool)

  /** `startOta` accepted: the file is open and not empty. */
  function Started(file: seq<bv8>, storageNumber: nat, image: ImageInfo, now: int): Gateway {
    var known := image.Image? && image.valid && image.size == |file|;
    Gateway(Begin, file, 0, 0, storageNumber, now, DEFAULT_INIT, if known then image.crc else 0, known, image,
            None, [], [])
  }

  datatype Env = Env(now: int, readOk: bool, sendOk: bool)

  /** The shared record after this target has worked the checksum out. */
  function Shared(image: ImageInfo, size: nat, crc: bv16): ImageInfo {
    if image.Image? then Image(size, crc, true) else NoImage
  }

  /** `checksumOrSendStart`. */
  function StartPass(g: Gateway, env: Env): Gateway {
    if !g.imageCrcKnown && g.pos < |g.file| then
      if !env.readOk then g.(state := Invalid)
      else g.(crc := NextSum(g), pos := SumEnd(g))
    else
      var k := if g.imageCrcKnown then g
          else g.(imageCrc := g.crc, imageCrcKnown := true, shared := Shared(g.shared, |g.file|, g.crc));
      if env.sendOk then k.(pos := 0, start := Some(FrameOfStart(k)), state := WaitForAck)
          else k.(pos := 0, state := Invalid)
  }

  /** A piece as it goes out: short at the end of the file, filled up with zeros. */
  function Padded(bytes: seq<bv8>): (d: seq<bv8>)
    requires |bytes| <= DATA_PIECE_SIZE
    ensures |d| == DATA_PIECE_SIZE && d[..|bytes|] == bytes
  {
    bytes + seq(DATA_PIECE_SIZE - |bytes|, _ => 0)
  }

  /** The frame that carries the next bytes, and where the file then stands. */
  function NextEnd(g: Gateway): nat { Min(g.pos + DATA_PIECE_SIZE, |g.file|) }
  function NextFrame(g: Gateway): SendFrame
    requires g.pos < |g.file|
  {
    SendFrame(Padded(g.file[g.pos..NextEnd(g)]), g.frameNumber % 256)
  }

  /** The start frame, once the checksum is known. */
  function FrameOfStart(g: Gateway): NumberStart { StartFrame(g.storageNumber, |g.file| % TWO_32, g.imageCrc) }

  /** The checksum over the next 64 bytes of the file. */
  function SumEnd(g: Gateway): nat { Min(g.pos + READ_BUFFER_SIZE, |g.file|) }
  function NextSum(g: Gateway): bv16
    requires g.pos < |g.file|
  {
    Crc(g.crc, g.file[g.pos..SumEnd(g)], DEFAULT_POLYNOMIAL)
  }

  /** `sendNextPiece`. */
  function PiecePass(g: Gateway, env: Env): Gateway {
    if g.pos >= |g.file| then g.(state := WaitForAck)
    else
      if !env.readOk then g.(state := Invalid)
      else
        var h := g.(pos := NextEnd(g), frameNumber := g.frameNumber + (NextEnd(g) - g.pos));
        if env.sendOk then h.(sent := g.sent + [NextFrame(g)], state := WaitForAck) else h.(state := Invalid)
  }

  predicate InProgress(s: State) { s in {Begin, Store, WaitForAck} }

  /** `runOta`: the timeout first, then the state. */
  function OtaPass(g: Gateway, env: Env): Gateway {
    var t := if HasElapsed(env.now, g.timer, OTA_TIMEOUT_MS) && InProgress(g.state) then g.(state := Invalid) else g;
    match t.state
    case Idle => t.(timer := env.now)
    case WaitForAck => t
    case Begin => StartPass(t, env)
    case Store => PiecePass(t.(timer := env.now), env)
    case _ => t.(state := Idle, reports := t.reports + [t.state == Valid], file := [], pos := 0, frameNumber := 0,
        storageNumber := 0, crc := DEFAULT_INIT)
  }

  datatype Command = OtaStart | OtaSend | OtaEnd | Other

  /** `handleOtaCanFrames`. */
  function HandleFrame(g: Gateway, cmd: Command, ack: bool): Gateway {
    if g.state != WaitForAck then g
    else match cmd
      case OtaStart => g.(state := if ack then Store else Invalid)
      case OtaSend => g.(state := if ack then Store else Invalid)
      case OtaEnd => g.(state := if ack then Valid else Invalid)
      case Other => g
  }

  // ---------------------------------------------------------------- runs

  datatype Event = Pass(env: Env) | Frame(cmd: Command, ack: bool)

  function Next(g: Gateway, e: Event): Gateway {
    match e
    case Pass(env) => OtaPass(g, env)
    case Frame(cmd, ack) => HandleFrame(g, cmd, ack)
  }

  function Run(g: Gateway, events: seq<Event>): Gateway
    decreases |events|
  {
    if events == [] then g else Run(Next(g, events[0]), events[1..])
  }

  // ---------------------------------------------------------------- what is streamed

  /** Piece `k` of a file and the frame that carries it. */
  ghost function Piece(file: seq<bv8>, k: nat): (p: seq<bv8>)
    ensures |p| <= DATA_PIECE_SIZE
  {
    file[Min(7 * k, |file|)..Min(7 * k + 7, |file|)]
  }

  ghost function PieceFrame(file: seq<bv8>, k: nat): SendFrame {
    SendFrame(Padded(Piece(file, k)), 7 * k % 256)
  }

  ghost predicate Streams(file: seq<bv8>, sent: seq<SendFrame>) {
    forall k :: 0 <= k < |sent| ==> sent[k] == PieceFrame(file, k) && 7 * k < |file|
  }

  /** The pieces sent so far, the read position and the running checksum all agree. */
  ghost predicate StreamInv(g: Gateway, file: seq<bv8>) {
    && (g.state != Idle ==> g.file == file && g.pos <= |file|)
    && Streams(file, g.sent) && SharedRight(g.shared, file)
    && (g.state == Begin ==> Summing(g, file))
    && (g.state in {Store, WaitForAck, Valid} ==> g.start.Some? && g.pos == g.frameNumber == Min(7 * |g.sent|, |file|))
    && (g.start.Some? ==> g.start.value.fwCrc == Crc(DEFAULT_INIT, file, DEFAULT_POLYNOMIAL))
  }

  ghost predicate Summing(g: Gateway, file: seq<bv8>) {
    && g.start.None? && g.sent == [] && g.frameNumber == 0 && g.pos <= |file|
    && if g.imageCrcKnown then g.imageCrc == Crc(DEFAULT_INIT, file, DEFAULT_POLYNOMIAL)
       else g.crc == Crc(DEFAULT_INIT, file[..g.pos], DEFAULT_POLYNOMIAL)
  }

  /** A shared checksum, where one is used, is that of this file. */
  ghost predicate SharedRight(image: ImageInfo, file: seq<bv8>) {
    image.Image? && image.valid && image.size == |file| ==> image.crc == Crc(DEFAULT_INIT, file, DEFAULT_POLYNOMIAL)
  }

  lemma StartedStreams(file: seq<bv8>, storageNumber: nat, image: ImageInfo, now: int)
    requires SharedRight(image, file)
    ensures StreamInv(Started(file, storageNumber, image, now), file)
  {
    assert file[..0] == [];
  }

  /** The checksum grows by 64 bytes a pass and ends as that of the whole file. */
  lemma ChecksumKeepsStream(g: Gateway, file: seq<bv8>, env: Env)
    requires g.state == Begin && StreamInv(g, file)
    ensures StreamInv(StartPass(g, env), file)
  {
    hide Crc;
    if !g.imageCrcKnown && g.pos < |file| {
      var end := Min(g.pos + READ_BUFFER_SIZE, |file|);
      assert file[..end] == file[..g.pos] + file[g.pos..end];
      CrcAppend(DEFAULT_INIT, file[..g.pos], file[g.pos..end], DEFAULT_POLYNOMIAL);
    } else {
      assert file[..|file|] == file;
    }
  }

  lemma PieceKeepsStream(g: Gateway, file: seq<bv8>, env: Env)
    requires g.state == Store && StreamInv(g, file)
    ensures StreamInv(PiecePass(g, env), file)
  {
    hide Crc, NextFrame, PieceFrame;
    if g.pos < |file| && env.readOk {
      NextFrameIs(g, file);
      var k := |g.sent|;
      assert g.pos == 7 * k && NextEnd(g) == Min(7 * (k + 1), |file|);
    }
  }

  lemma NextFrameIs(g: Gateway, file: seq<bv8>)
    requires g.file == file && g.pos == g.frameNumber == 7 * |g.sent| < |file|
    ensures NextFrame(g) == PieceFrame(file, |g.sent|)
  {
    assert file[g.pos..NextEnd(g)] == Piece(file, |g.sent|);
  }

  lemma NextKeepsStream(g: Gateway, file: seq<bv8>, e: Event)
    requires StreamInv(g, file)
    ensures StreamInv(Next(g, e), file)
  {
    hide Crc, HasElapsed, StartPass, PiecePass, PieceFrame;
    if e.Pass? {
      var expired := HasElapsed(e.env.now, g.timer, OTA_TIMEOUT_MS) && InProgress(g.state);
      if !expired && g.state == Begin {
        ChecksumKeepsStream(g, file, e.env);
      } else if !expired && g.state == Store {
        PieceKeepsStream(g.(timer := e.env.now), file, e.env);
      }
    }
  }

  lemma {:induction false} RunKeepsStream(g: Gateway, file: seq<bv8>, events: seq<Event>)
    requires StreamInv(g, file)
    ensures StreamInv(Run(g, events), file)
    decreases |events|
  {
    hide StreamInv, Next;
    if events != [] {
      NextKeepsStream(g, file, events[0]);
      RunKeepsStream(Next(g, events[0]), file, events[1..]);
    }
  }

  ghost function Joined(sent: seq<SendFrame>): seq<bv8> {
    if sent == [] then [] else Joined(sent[..|sent| - 1]) + sent[|sent| - 1].data
  }

  lemma {:induction false} JoinedIsFile(file: seq<bv8>, sent: seq<SendFrame>)
    requires Streams(file, sent)
    ensures |Joined(sent)| == 7 * |sent|
    ensures Joined(sent)[..Min(7 * |sent|, |file|)] == file[..Min(7 * |sent|, |file|)]
  {
    if sent != [] {
      var n := |sent| - 1;
      var (before, p) := (sent[..n], Piece(file, n));
      JoinedIsFile(file, before);
      assert sent[n] == PieceFrame(file, n);
      var (a, b) := (Min(7 * n, |file|), Min(7 * n + 7, |file|));
      var j := Joined(before) + Padded(p);
      assert j[..b] == Joined(before)[..a] + p;
      assert file[..b] == file[..a] + p;
    }
  }

  /** In every run of an accepted transfer: OTA_START carries the checksum of the whole file, the
      k-th OTA_SEND carries piece k and the sequence 7k mod 256, and once every piece was sent the
      payloads joined and cut to the file's size are the file. The checksum left for the upload's
      next target is again that of the file. */
  lemma StreamCarriesFile(file: seq<bv8>, storageNumber: nat, image: ImageInfo, now: int, events: seq<Event>)
    requires SharedRight(image, file)
    ensures var g := Run(Started(file, storageNumber, image, now), events);
            && (g.start.Some? ==> g.start.value.fwCrc == Crc(DEFAULT_INIT, file, DEFAULT_POLYNOMIAL))
            && (forall k :: 0 <= k < |g.sent|
                    ==> g.sent[k] == PieceFrame(file, k) && g.sent[k].sequence == 7 * k % 256 && 7 * k < |file|)
            && SharedRight(g.shared, file)
            && (7 * |g.sent| >= |file| ==> |Joined(g.sent)| >= |file| && Joined(g.sent)[..|file|] == file)
  {
    hide Run, Crc;
    StartedStreams(file, storageNumber, image, now);
    RunKeepsStream(Started(file, storageNumber, image, now), file, events);
    var g := Run(Started(file, storageNumber, image, now), events);
    JoinedIsFile(file, g.sent);
    assert 7 * |g.sent| >= |file| ==> Min(7 * |g.sent|, |file|) == |file| && file[..|file|] == file;
  }

  /** Two pieces share a sequence number exactly when 256 divides their distance. */
  lemma SequencesRepeat(j: nat, k: nat)
    ensures 7 * j % 256 == 7 * k % 256 <==> (j - k) % 256 == 0
  {
    var d := j - k;
    if 7 * j % 256 == 7 * k % 256 {
      var m := 7 * j / 256 - 7 * k / 256;
      assert 7 * d == 256 * m;
      assert d == 256 * (183 * m - 5 * d);
      DivisibleBy256(183 * m - 5 * d);
    }
    if d % 256 == 0 {
      var m := d / 256;
      assert 7 * j == 7 * k + 256 * (7 * m);
      ShiftedBy256(7 * k, 7 * m);
    }
  }

  lemma DivisibleBy256(x: int) ensures 256 * x % 256 == 0 {}
  lemma ShiftedBy256(a: int, x: int) ensures (a + 256 * x) % 256 == a % 256 {}

  // ---------------------------------------------------------------- one report

  /** Nothing is reported while the transfer runs, and one thing when it is over. */
  ghost predicate ReportsOnce(g: Gateway) {
    if g.state == Idle then |g.reports| == 1 else g.reports == []
  }

  /** An OTA_END acknowledgment arrives while the gateway waits for one. */
  ghost predicate EndAcknowledged(g: Gateway, events: seq<Event>)
    decreases |events|
  {
    events != [] && ((events[0] == Frame(OtaEnd, true) && g.state == WaitForAck)
        || EndAcknowledged(Next(g, events[0]), events[1..]))
  }

  lemma {:induction false} RunReportsOnce(g: Gateway, events: seq<Event>)
    requires ReportsOnce(g) && g.state != Valid && g.reports != [true]
    ensures var h := Run(g, events);
            ReportsOnce(h) && (h.state == Valid || h.reports == [true] ==> EndAcknowledged(g, events))
    decreases |events|
  {
    hide HasElapsed, StartPass, PiecePass;
    if events != [] {
      PassesReport(g, events[0]);
      var h := Next(g, events[0]);
      if h.state == Valid || h.reports == [true] {
        AlwaysOnce(h, events[1..]);
      } else {
        RunReportsOnce(h, events[1..]);
      }
    }
  }

  lemma PassesReport(g: Gateway, e: Event)
    requires ReportsOnce(g)
    ensures ReportsOnce(Next(g, e))
    ensures g.state != Valid && g.reports != [true] && (Next(g, e).state == Valid || Next(g, e).reports == [true])
        ==> e == Frame(OtaEnd, true) && g.state == WaitForAck
  {
    hide HasElapsed, StartPass, PiecePass;
    assert (g.reports + [false])[|g.reports|] == false;
    if e.Pass? { StepsStayInTransfer(g, e.env); }
  }

  /** Neither step of a transfer reports, ends it, or touches the timer. */
  lemma StepsStayInTransfer(g: Gateway, env: Env)
    ensures forall h :: h in {StartPass(g, env), PiecePass(g.(timer := env.now), env)} ==>
              h.reports == g.reports && h.state in {Begin, WaitForAck, Invalid, g.state}
    ensures StartPass(g, env).timer == g.timer && PiecePass(g.(timer := env.now), env).timer == env.now
    ensures PiecePass(g.(timer := env.now), env).state in {WaitForAck, Invalid}
  {
    hide NextSum, NextFrame, FrameOfStart;
  }

  lemma {:induction false} AlwaysOnce(g: Gateway, events: seq<Event>)
    requires ReportsOnce(g)
    ensures ReportsOnce(Run(g, events))
    decreases |events|
  {
    hide Next;
    if events != [] {
      PassesReport(g, events[0]);
      AlwaysOnce(Next(g, events[0]), events[1..]);
    }
  }

  // ---------------------------------------------------------------- silence ends it

  ghost function Passes(g: Gateway, envs: seq<Env>): Gateway
    decreases |envs|
  {
    if envs == [] then g else Passes(OtaPass(g, envs[0]), envs[1..])
  }

  ghost predicate Increasing(clock: int, envs: seq<Env>)
    decreases |envs|
  {
    envs == [] || (clock <= envs[0].now && Increasing(envs[0].now, envs[1..]))
  }

  /** Without frames the gateway only waits on its timer, which then stands still. */
  ghost predicate Silent(g: Gateway, deadline: int) {
    ReportsOnce(g) && (g.state == Idle || (g.state != Store && g.timer <= deadline))
  }

  lemma PassStaysSilent(g: Gateway, env: Env, deadline: int)
    requires Silent(g, deadline)
    ensures Silent(OtaPass(g, env), deadline)
    ensures env.now - g.timer < TWO_32 && env.now > deadline + OTA_TIMEOUT_MS ==> OtaPass(g, env).state == Idle
    ensures OtaPass(g, env).timer == g.timer || OtaPass(g, env).state == Idle
  {
    hide StartPass, PiecePass;
    StepsStayInTransfer(g, env);
  }

  lemma {:induction false} SilenceEnds(g: Gateway, envs: seq<Env>, deadline: int)
    requires Silent(g, deadline) && envs != []
    requires forall i :: 0 <= i < |envs| ==> envs[i].now - g.timer < TWO_32
    requires envs[|envs| - 1].now > deadline + OTA_TIMEOUT_MS
    ensures Passes(g, envs).state == Idle && |Passes(g, envs).reports| == 1
    decreases |envs|
  {
    hide OtaPass;
    PassStaysSilent(g, envs[0], deadline);
    var h := OtaPass(g, envs[0]);
    if |envs| > 1 {
      if h.state == Idle {
        IdleStaysIdle(h, envs[1..]);
      } else {
        SilenceEnds(h, envs[1..], deadline);
      }
    } else {
      assert envs[1..] == [] && Passes(h, []) == h;
    }
  }

  lemma {:induction false} IdleStaysIdle(g: Gateway, envs: seq<Env>)
    requires g.state == Idle
    ensures Passes(g, envs).state == Idle && Passes(g, envs).reports == g.reports
    decreases |envs|
  {
    if envs != [] { IdleStaysIdle(OtaPass(g, envs[0]), envs[1..]); }
  }

  /** Every accepted transfer, in whatever state: if no frame arrives any more, passes over more
      than five minutes (and less than a clock wrap) end it with exactly one report. */
  lemma SilenceEndsTransfer(g: Gateway, first: Env, envs: seq<Env>)
    requires ReportsOnce(g) && g.timer <= first.now && Increasing(first.now, envs) && envs != []
    requires envs[|envs| - 1].now > first.now + OTA_TIMEOUT_MS && envs[|envs| - 1].now - g.timer < TWO_32
    ensures var h := Passes(OtaPass(g, first), envs); h.state == Idle && |h.reports| == 1
  {
    hide StartPass, PiecePass, Passes, HasElapsed;
    PassesReport(g, Pass(first));
    StepsStayInTransfer(g, first);
    var h := OtaPass(g, first);
    assert Silent(h, first.now) && h.timer >= g.timer;
    IncreasingBound(first.now, envs);
    SilenceEnds(h, envs, first.now);
  }

  lemma {:induction false} IncreasingBound(clock: int, envs: seq<Env>)
    requires Increasing(clock, envs)
    ensures forall i :: 0 <= i < |envs| ==> clock <= envs[i].now <= envs[|envs| - 1].now
    decreases |envs|
  {
    if envs != [] {
      IncreasingBound(envs[0].now, envs[1..]);
      forall i | 0 < i < |envs| ensures envs[0].now <= envs[i].now <= envs[|envs| - 1].now {
        assert envs[i] == envs[1..][i - 1];
      }
    }
  }

  // ---------------------------------------------------------------- the object

  datatype OtaStartError = NONE | FILE_NAME_NULLPTR | FILE_LOCATION_INVALID | FILE_OPEN_FAILED | FILE_EMPTY
                         | ALREADY_IN_PROGRESS

  datatype OpenFile = OpenFile(data: seq<bv8>, pos: nat)
  datatype Log = Log(start: Option<NumberStart>, sent: seq<SendFrame>, reports: seq<bool>)

  class CanOta {
    var receivedFile: OpenFile           // no data when closed
    var frameNumber: nat
    var storageNumber: nat
    var transferState: State
    const crc16: Checksum
    var otaTimeoutTimer: int
    var imageCrc: bv16
    var imageCrcKnown: bool
    var sharedImage: ImageInfo
    var log: Log                         // what has gone out since the last accepted start

    function View(): Gateway reads this, crc16 {
      Gateway(transferState, receivedFile.data, receivedFile.pos, frameNumber, storageNumber, otaTimeoutTimer,
              crc16.crc, imageCrc, imageCrcKnown, sharedImage, log.start, log.sent, log.reports)
    }

    ghost predicate Valid() reads this {
      crc16.initValue == DEFAULT_INIT && crc16.polynomial == DEFAULT_POLYNOMIAL
    }

    constructor ()
      ensures Valid() && fresh(crc16)
      ensures transferState == Idle && log == Log(None, [], [])
    {
      receivedFile, frameNumber, storageNumber, transferState := OpenFile([], 0), 0, 0, Idle;
      crc16 := new Checksum(DEFAULT_INIT, DEFAULT_POLYNOMIAL);
      otaTimeoutTimer, imageCrc, imageCrcKnown, sharedImage := 0, 0, false, NoImage;
      log := Log(None, [], []);
    }

    /** `startOta`; `found` is what opening the name yields. A start that is refused while a transfer
        runs, or for its name, changes nothing; one that finds no usable file ends in a report. */
    method StartOta(fileName: Option<string>, storage: nat, image: ImageInfo, found: Option<seq<bv8>>, now: int)
                    returns (e: OtaStartError)
      requires Valid()
      modifies this, crc16
      ensures Valid()
      ensures e == NONE <==>
                old(transferState) == Idle && fileName.Some? && |fileName.value| > 0
                && fileName.value[0] == '/' && found.Some? && found.value != []
      ensures e == NONE ==> View() == Started(found.value, storage, image, now)
      ensures e in {ALREADY_IN_PROGRESS, FILE_NAME_NULLPTR, FILE_LOCATION_INVALID} ==> View() == old(View())
      ensures e in {FILE_OPEN_FAILED, FILE_EMPTY}
              ==> View() == old(View()).(state := Invalid, file := [], pos := 0, reports := [])
      ensures e == ALREADY_IN_PROGRESS <==> old(transferState) != Idle
      ensures e == FILE_NAME_NULLPTR <==> old(transferState) == Idle && fileName.None?
      ensures e == FILE_LOCATION_INVALID <==>
                old(transferState) == Idle && fileName.Some? && (fileName.value == "" || fileName.value[0] != '/')
      ensures e == FILE_EMPTY ==> found == Some([])
    {
      if transferState != Idle { return ALREADY_IN_PROGRESS; }
      if fileName.None? { return FILE_NAME_NULLPTR; }
      if |fileName.value| == 0 || fileName.value[0] != '/' { return FILE_LOCATION_INVALID; }
      receivedFile := OpenFile([], 0);
      if found.None? || found.value == [] {
        transferState := Invalid;
        log := log.(reports := []);
        return if found.None? then FILE_OPEN_FAILED else FILE_EMPTY;
      }
      receivedFile := OpenFile(found.value, 0);
      frameNumber, storageNumber, transferState := 0, storage, Begin;
      crc16.Reset();
      sharedImage := image;
      imageCrcKnown := image.Image? && image.valid && image.size == |receivedFile.data|;
      imageCrc := if imageCrcKnown then image.crc else 0;
      otaTimeoutTimer := now;
      log := Log(None, [], []);
      return NONE;
    }

    method HandleOtaCanFrames(cmd: Command, ack: bool)
      modifies this
      ensures View() == HandleFrame(old(View()), cmd, ack)
    {
      if transferState != WaitForAck { return; }
      if cmd == OtaStart || cmd == OtaSend {
        transferState := if ack then Store else Invalid;
        return;
      }
      if cmd == OtaEnd {
        transferState := if ack then State.Valid else Invalid;
      }
    }

    /** `readFilePiece`: the bytes, or the end of the transfer when the file gives fewer. */
    method ReadFilePiece(length: nat, readOk: bool) returns (ok: bool, bytes: seq<bv8>)
      requires receivedFile.pos + length <= |receivedFile.data|
      modifies this
      ensures ok == readOk
      ensures ok ==> View() == old(View()).(pos := old(receivedFile.pos) + length)
      ensures ok ==> bytes == old(receivedFile).data[old(receivedFile).pos..receivedFile.pos]
      ensures !ok ==> View() == old(View()).(state := Invalid)
    {
      if !readOk {
        transferState := Invalid;
        return false, [];
      }
      bytes := receivedFile.data[receivedFile.pos..receivedFile.pos + length];
      receivedFile := receivedFile.(pos := receivedFile.pos + length);
      return true, bytes;
    }

    method ChecksumOrSendStart(env: Env)
      requires Valid()
      modifies this, crc16
      ensures Valid() && View() == StartPass(old(View()), env)
    {
      hide Crc;
      if !imageCrcKnown {
        if receivedFile.pos < |receivedFile.data| {
          var remaining := |receivedFile.data| - receivedFile.pos;
          var length := if remaining >= READ_BUFFER_SIZE then READ_BUFFER_SIZE else remaining;
          var ok, bytes := ReadFilePiece(length, env.readOk);
          if !ok { return; }
          crc16.NextAll(bytes);
          return;
        }
        imageCrc := crc16.crc;
        imageCrcKnown := true;
        sharedImage := Shared(sharedImage, |receivedFile.data|, imageCrc);
      }
      receivedFile := receivedFile.(pos := 0);
      if env.sendOk {
        log := log.(start := Some(StartFrame(storageNumber, |receivedFile.data| % TWO_32, imageCrc)));
      }
      transferState := if env.sendOk then WaitForAck else Invalid;
    }

    method SendNextPiece(env: Env)
      requires Valid()
      modifies this
      ensures Valid() && View() == PiecePass(old(View()), env)
    {
      hide Padded;
      var remaining := |receivedFile.data| - receivedFile.pos;
      if remaining <= 0 {
        transferState := WaitForAck;
        return;
      }
      var length := if remaining >= DATA_PIECE_SIZE then DATA_PIECE_SIZE else remaining;
      var ok, bytes := ReadFilePiece(length, env.readOk);
      if !ok { return; }
      var frame := SendFrame(Padded(bytes), frameNumber % 256);
      frameNumber := frameNumber + length;
      if env.sendOk {
        log := log.(sent := log.sent + [frame]);
      }
      transferState := if env.sendOk then WaitForAck else Invalid;
    }

    method RunOta(env: Env)
      requires Valid()
      modifies this, crc16
      ensures Valid() && View() == OtaPass(old(View()), env)
    {
      hide StartPass, PiecePass, HasElapsed;
      if HasElapsed(env.now, otaTimeoutTimer, OTA_TIMEOUT_MS) && transferState in {Begin, Store, WaitForAck} {
        transferState := Invalid;
      }
      match transferState
      case Idle => otaTimeoutTimer := env.now;
      case WaitForAck =>
      case Begin => ChecksumOrSendStart(env);
      case Store =>
        otaTimeoutTimer := env.now;
        SendNextPiece(env);
      case _ =>
        log := log.(reports := log.reports + [transferState == State.Valid]);
        receivedFile := OpenFile([], 0);
        frameNumber, storageNumber := 0, 0;
        transferState := Idle;
        crc16.Reset();
    }
  }
}
