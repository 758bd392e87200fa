/** The receiving end of a CAN firmware transfer: `lib/ota/src/ota.cpp` storing the image in a NOR flash.
    The first two bytes stay in memory until the checksum of everything stored has matched. */
module OtaDevice {
  import opened Common
  import opened Crc16
  import opened SpiFlash

  const BLOCK: nat := 32 * 1024
  const PIECE: nat := 7
  const CHUNK: nat := 32
  const STALL_TIMEOUT_MS: nat := 180_000

  datatype OtaState = Idle | Start | Store | Check | Valid | Invalid

  /** `first` are the two bytes held back, `pointer` counts the bytes stored (or, while checking, the
      bytes checked), `mem` is the flash chip and `programSize` the device's program memory. */
  datatype Device = Device(
    state: OtaState, first: seq<bv8>, fwSize: nat, fwCrc: bv16, pointer: nat, base: nat, stall: int, crc: bv16,
    mem: seq<bv8>, programSize: nat)

  /** What the clock and the chip answer in one call. A write the chip gives up on has still
      programmed `written` bytes. */
  datatype Io = Io(now: int, present: bool, eraseOk: bool, busy: bool, writeOk: bool, written: nat, readOk: bool)

  /** The image lies inside the chip. */
  ghost predicate Placed(d: Device) {
    && |d.first| == 2 && |d.mem| % PAGE == 0 && d.base % PAGE == 0
    && d.pointer <= d.fwSize && d.base + d.fwSize <= |d.mem|
    && (d.fwSize > 0 ==> d.base + 2 <= |d.mem|)
    && (d.state in {Start, Store, Check} ==> d.fwSize > 0)
    && (d.state in {Idle, Valid} ==> d.pointer == d.fwSize)
  }

  function Blank(n: nat): (m: seq<bv8>)
    ensures |m| == n && Erased(m, 0, n)
  {
    seq(n, _ => ERASED)
  }

  /** What `writeBytes` leaves in the chip. */
  function Flashed(mem: seq<bv8>, addr: nat, bytes: seq<bv8>, io: Io): (m: seq<bv8>)
    requires addr + |bytes| <= |mem|
    ensures |m| == |mem|
  {
    Programmed(mem, addr, if io.writeOk then bytes else bytes[..Min(io.written, |bytes|)])
  }

  /** After a restart only the chip's contents are left. */
  function PowerUp(d: Device): (r: Device)
    requires Placed(d)
    ensures Placed(r)
  {
    Device(Idle, [0, 0], 0, 0, 0, 0, 0, DEFAULT_INIT, d.mem, d.programSize)
  }

  // ---------------------------------------------------------------- the operations

  predicate StartAccepted(d: Device, block: nat, size: nat, io: Io) {
    && 0 < size <= d.programSize
    && block * BLOCK + size <= (if io.present then |d.mem| else 0)
    && io.eraseOk
  }

  function AfterStart(d: Device, block: nat, size: nat, crc: bv16, io: Io): (r: Device)
    requires Placed(d)
    ensures Placed(r)
  {
    if StartAccepted(d, block, size, io) then
      BlocksOnPages(block, |d.mem|);
      d.(fwSize := size, fwCrc := crc, base := block * BLOCK, pointer := 0, stall := io.now, state := Start,
          mem := Blank(|d.mem|))
    else d
  }

  /** The two tests `storeNextData` makes of a piece. */
  predicate InSequence(d: Device, sequence: nat) {
    d.pointer < d.fwSize && d.pointer % 256 == sequence
  }

  /** How many bytes of the next piece count, and how many of those stay in memory. */
  function Expected(d: Device): nat
    requires d.pointer < d.fwSize
  {
    Min(PIECE, d.fwSize - d.pointer)
  }
  function Kept(d: Device): (k: nat)
    requires d.pointer < d.fwSize
    ensures k <= Expected(d) && d.pointer + k <= (if d.pointer < 2 then 2 else d.pointer)
  {
    if d.pointer < 2 then Min(2 - d.pointer, Expected(d)) else 0
  }

  function Held(d: Device, data: seq<bv8>): (f: seq<bv8>)
    requires d.pointer < d.fwSize && |data| == PIECE && |d.first| == 2
    ensures |f| == 2
  {
    if d.pointer < 2 then d.first[..d.pointer] + data[..Kept(d)] + d.first[d.pointer + Kept(d)..] else d.first
  }

  predicate StoreAccepted(d: Device, sequence: nat, io: Io) {
    InSequence(d, sequence) && (io.writeOk || Kept(d) == Expected(d))
  }

  /** `storeNextData`. */
  function AfterStore(d: Device, sequence: nat, data: seq<bv8>, io: Io): Device
    requires Placed(d) && |data| == PIECE
  {
    if !InSequence(d, sequence) then d
    else
      var (kept, n) := (Kept(d), Expected(d));
      var h := d.(first := Held(d, data), pointer := d.pointer + kept);
      if kept == n then h.(stall := io.now)
      else
        var w := h.(mem := Flashed(d.mem, d.base + h.pointer, data[kept..n], io));
        if io.writeOk then w.(pointer := d.pointer + n, stall := io.now) else w.(state := Invalid)
  }

  /** The bytes of the next check chunk: from memory one at a time, then from the chip, which gives
      zeros for a read it refuses. */
  function ChunkBytes(d: Device, io: Io): (bytes: seq<bv8>)
    requires Placed(d) && d.pointer < d.fwSize
    ensures 0 < |bytes| && d.pointer + |bytes| <= d.fwSize
  {
    if d.pointer < 2 then [d.first[d.pointer]]
    else
      var n := Min(CHUNK, d.fwSize - d.pointer);
      if io.readOk then d.mem[d.base + d.pointer..d.base + d.pointer + n] else seq(n, _ => 0)
  }

  function AfterChunk(d: Device, io: Io): Device
    requires Placed(d) && d.pointer < d.fwSize
  {
    d.(crc := Crc(d.crc, ChunkBytes(d, io), DEFAULT_POLYNOMIAL), pointer := d.pointer + |ChunkBytes(d, io)|)
  }

  /** `finishCheck`: only now do the first two bytes reach the chip. */
  function AfterCheck(d: Device, io: Io): Device
    requires Placed(d) && d.fwSize > 0
  {
    if d.fwCrc != d.crc then d.(state := Invalid)
    else
      var m := Flashed(d.mem, d.base, d.first, io);
      d.(mem := m, state := if io.writeOk && io.readOk && m[d.base..d.base + 2] == d.first then Valid else Invalid)
  }

  /** `run`. */
  function AfterRun(d: Device, io: Io): Device
    requires Placed(d)
  {
    if d.state in {Start, Store} && HasElapsed(io.now, d.stall, STALL_TIMEOUT_MS) then d.(state := Invalid)
    else match d.state
      case Idle => d
      case Start => if io.busy then d else d.(state := Store)
      case Store => if d.pointer == d.fwSize then d.(pointer := 0, crc := DEFAULT_INIT, state := Check) else d
      case Check =>
        var c := if d.pointer < d.fwSize then AfterChunk(d, io) else d;
        if c.pointer == c.fwSize then AfterCheck(c, io) else c
      case Valid => d.(state := Idle)
      case Invalid =>
        d.(mem := if io.eraseOk then Blank(|d.mem|) else d.mem, fwSize := 0, fwCrc := 0, pointer := 0, base := 0,
            state := Idle)
  }

  lemma BlocksOnPages(block: nat, size: nat)
    requires size % PAGE == 0 && block * BLOCK < size
    ensures block * BLOCK % PAGE == 0 && block * BLOCK + 2 <= size
  {
    var n := block * 128;
    assert block * BLOCK == n * PAGE;
    assert n * PAGE % PAGE == 0;
  }

  lemma StoreKeepsPlaced(d: Device, sequence: nat, data: seq<bv8>, io: Io)
    requires Placed(d) && |data| == PIECE
    ensures Placed(AfterStore(d, sequence, data, io))
    ensures AfterStore(d, sequence, data, io).base == d.base && AfterStore(d, sequence, data, io).fwSize == d.fwSize
    ensures AfterStore(d, sequence, data, io).state in {d.state, Invalid}
    ensures StoreAccepted(d, sequence, io) ==> AfterStore(d, sequence, data, io).pointer == d.pointer + Expected(d)
    ensures StoreAccepted(d, sequence, io) ==> AfterStore(d, sequence, data, io).state == d.state
  {
    hide Held, Flashed;
  }

  lemma CheckKeepsPlaced(d: Device, io: Io)
    requires Placed(d) && d.state == Check
    ensures d.pointer < d.fwSize ==> Placed(AfterChunk(d, io)) && AfterChunk(d, io).state == Check
    ensures d.pointer == d.fwSize ==> Placed(AfterCheck(d, io))
  {
    hide Crc, ChunkBytes, Flashed;
  }

  lemma RunKeepsPlaced(d: Device, io: Io)
    requires Placed(d)
    ensures Placed(AfterRun(d, io))
  {
    hide HasElapsed, AfterChunk, AfterCheck, Blank;
    if d.state == Check {
      CheckKeepsPlaced(d, io);
      if d.pointer < d.fwSize { CheckKeepsPlaced(AfterChunk(d, io), io); }
    }
  }

  // ---------------------------------------------------------------- in order, each once

  /** The first `n` bytes of `image` are stored, all but the first two of them in the chip, and the
      rest of the image's place is erased. */
  ghost predicate Stored(first: seq<bv8>, mem: seq<bv8>, base: nat, image: seq<bv8>, n: nat) {
    && |first| == 2 && base + 2 <= |mem| && base + |image| <= |mem| && n <= |image|
    && (forall i :: 0 <= i < Min(2, n) ==> first[i] == image[i])
    && (forall a :: base + 2 <= a < base + n ==> mem[a] == image[a - base])
    && (forall a :: base + Max(2, n) <= a < base + |image| ==> mem[a] == ERASED)
    && mem[base] == mem[base + 1] == ERASED
  }

  ghost predicate Holding(d: Device, image: seq<bv8>, n: nat) {
    Placed(d) && 0 < |image| == d.fwSize && Stored(d.first, d.mem, d.base, image, n)
  }

  /** A piece of the image, as far as it reaches, padded to seven bytes. */
  ghost predicate IsPiece(data: seq<bv8>, image: seq<bv8>, at: nat) {
    && |data| == PIECE && at <= |image|
    && forall i :: 0 <= i < PIECE && at + i < |image| ==> data[i] == image[at + i]
  }

  lemma HeldRight(d: Device, image: seq<bv8>, data: seq<bv8>)
    requires Holding(d, image, d.pointer) && IsPiece(data, image, d.pointer) && d.pointer < d.fwSize
    ensures Stored(Held(d, data), d.mem, d.base, image, d.pointer + Kept(d))
    ensures Kept(d) < Expected(d) ==> d.pointer + Kept(d) >= 2
  {}

  lemma FlashedRight(first: seq<bv8>, mem: seq<bv8>, base: nat, image: seq<bv8>, bytes: seq<bv8>, at: nat, io: Io)
    requires Stored(first, mem, base, image, at) && 2 <= at && at + |bytes| <= |image| && io.writeOk
    requires forall i :: 0 <= i < |bytes| ==> bytes[i] == image[at + i]
    ensures Stored(first, Flashed(mem, base + at, bytes, io), base, image, at + |bytes|)
  {
    hide And8;
    ErasedRangeHoldsBuffer(mem, base + at, bytes);
  }

  /** An accepted piece of the image extends what is stored by exactly its bytes. */
  lemma StoreExtends(d: Device, image: seq<bv8>, sequence: nat, data: seq<bv8>, io: Io)
    requires Holding(d, image, d.pointer) && IsPiece(data, image, d.pointer)
    requires StoreAccepted(d, sequence, io)
    ensures Holding(AfterStore(d, sequence, data, io), image, Min(d.pointer + PIECE, |image|))
    ensures AfterStore(d, sequence, data, io).pointer == Min(d.pointer + PIECE, |image|)
  {
    hide Flashed, Kept, Held, Stored;
    HeldRight(d, image, data);
    StoreKeepsPlaced(d, sequence, data, io);
    var (kept, n) := (Kept(d), Expected(d));
    if kept < n {
      FlashedRight(Held(d, data), d.mem, d.base, image, data[kept..n], d.pointer + kept, io);
    }
  }

  // ---------------------------------------------------------------- the closing check

  /** The check leaves what is stored alone. */
  lemma ChunkKeepsHolding(d: Device, image: seq<bv8>, io: Io)
    requires Holding(d, image, |image|) && d.state == Check && d.pointer < d.fwSize
    ensures Holding(AfterChunk(d, io), image, |image|) && AfterChunk(d, io).pointer > d.pointer
  {
    hide Stored, Crc, ChunkBytes;
  }

  /** Each pass reads the next bytes of the image, from memory or from the chip. */
  lemma ChunkIsImage(d: Device, image: seq<bv8>, io: Io)
    requires Holding(d, image, |image|) && d.pointer < d.fwSize && io.readOk
    ensures ChunkBytes(d, io) == image[d.pointer..d.pointer + |ChunkBytes(d, io)|]
  {}

  lemma ChunkSums(d: Device, image: seq<bv8>, io: Io)
    requires Holding(d, image, |image|) && d.state == Check && d.pointer < d.fwSize && io.readOk
    requires d.crc == Crc(DEFAULT_INIT, image[..d.pointer], DEFAULT_POLYNOMIAL)
    ensures var c := AfterChunk(d, io);
            c.pointer <= |image| && c.crc == Crc(DEFAULT_INIT, image[..c.pointer], DEFAULT_POLYNOMIAL)
  {
    hide Crc, Stored, ChunkBytes;
    ChunkIsImage(d, image, io);
    var bytes := ChunkBytes(d, io);
    assert image[..d.pointer] + bytes == image[..d.pointer + |bytes|];
    CrcAppend(DEFAULT_INIT, image[..d.pointer], bytes, DEFAULT_POLYNOMIAL);
  }

  /** Writing the two bytes back completes the image. */
  lemma FirstBytesComplete(first: seq<bv8>, mem: seq<bv8>, base: nat, image: seq<bv8>, io: Io)
    requires Stored(first, mem, base, image, |image|) && io.writeOk
    ensures var m := Flashed(mem, base, first, io); m[base..base + |image|] == image && m[base..base + 2] == first
  {
    hide And8;
    ErasedRangeHoldsBuffer(mem, base, first);
  }

  /** A check that ends VALID leaves exactly the image in its place; it does so whenever the checksum
      matches and the chip answers. */
  lemma CheckCompletes(d: Device, image: seq<bv8>, io: Io)
    requires Holding(d, image, |image|) && d.state == Check && d.pointer == d.fwSize
    ensures var c := AfterCheck(d, io);
            && Placed(c) && c.base == d.base && c.fwSize == d.fwSize && c.pointer == d.pointer && |c.mem| == |d.mem|
            && c.fwCrc == d.fwCrc
            && c.state in {Valid, Invalid} && (c.state == Valid
               ==> d.fwCrc == d.crc && c.mem[d.base..d.base + |image|] == image)
            && (d.fwCrc == d.crc && io.writeOk && io.readOk ==> c.state == Valid)
  {
    hide Flashed, Stored;
    if io.writeOk { FirstBytesComplete(d.first, d.mem, d.base, image, io); }
  }

  // ---------------------------------------------------------------- only what the checksum covers

  datatype Event = Piece(sequence: nat, data: seq<bv8>, io: Io) | Pass(io: Io)

  function Next(d: Device, e: Event): (n: Device)
    requires Placed(d)
    ensures Placed(n)
  {
    match e
    case Pass(io) => RunKeepsPlaced(d, io); AfterRun(d, io)
    case Piece(sequence, data, io) =>
      if |data| != PIECE then d else StoreKeepsPlaced(d, sequence, data, io); AfterStore(d, sequence, data, io)
  }

  function Run(d: Device, events: seq<Event>): (n: Device)
    requires Placed(d)
    ensures Placed(n)
    decreases |events|
  {
    if events == [] then d else Run(Next(d, events[0]), events[1..])
  }

  /** While the check runs no piece fits the pointer and the chip refuses no read. */
  ghost predicate Undisturbed(d: Device, e: Event)
  {
    d.state == Check ==> if e.Piece? then !InSequence(d, e.sequence) else e.io.readOk
  }
  ghost predicate NeverDisturbed(d: Device, events: seq<Event>)
    requires Placed(d)
    decreases |events|
  {
    events == [] || (Undisturbed(d, events[0]) && NeverDisturbed(Next(d, events[0]), events[1..]))
  }

  /** The image as the device holds it. */
  ghost function ImageOf(d: Device): (image: seq<bv8>)
    requires Placed(d)
    ensures |image| == d.fwSize
  {
    d.first[..Min(2, d.fwSize)] + if d.fwSize > 2 then d.mem[d.base + 2..d.base + d.fwSize] else []
  }

  ghost predicate TwoErased(d: Device)
    requires Placed(d) && d.fwSize > 0
  {
    d.mem[d.base] == d.mem[d.base + 1] == ERASED
  }

  lemma HoldsItsImage(d: Device)
    requires Placed(d) && d.fwSize > 0 && TwoErased(d)
    ensures Holding(d, ImageOf(d), d.fwSize)
  {}

  /** What a start asked for. */
  datatype Job = Job(size: nat, base: nat, crc: bv16)

  ghost predicate Checked(d: Device, job: Job) {
    && Placed(d)
    && (d.state != Idle ==> Job(d.fwSize, d.base, d.fwCrc) == job)
    && (d.state in {Start, Store} ==> TwoErased(d))
    && (d.state == Check ==> Summed(d))
    && (d.state == Valid ==> Crc(DEFAULT_INIT, d.mem[d.base..d.base + d.fwSize], DEFAULT_POLYNOMIAL) == d.fwCrc)
  }

  ghost predicate Summed(d: Device)
    requires Placed(d) && d.state == Check
  {
    TwoErased(d) && d.crc == Crc(DEFAULT_INIT, ImageOf(d)[..d.pointer], DEFAULT_POLYNOMIAL)
  }

  lemma StoreKeepsErased(d: Device, sequence: nat, data: seq<bv8>, io: Io)
    requires Placed(d) && |data| == PIECE && d.fwSize > 0 && TwoErased(d)
    ensures Placed(AfterStore(d, sequence, data, io)) && AfterStore(d, sequence, data, io).fwSize == d.fwSize
            && TwoErased(AfterStore(d, sequence, data, io))
  {
    hide And8, Held;
    StoreKeepsPlaced(d, sequence, data, io);
  }

  lemma CheckPassKeepsChecked(d: Device, job: Job, io: Io)
    requires Checked(d, job) && d.state == Check && io.readOk
    ensures Checked(AfterRun(d, io), job)
  {
    hide Crc, Stored, ChunkBytes, Flashed, ImageOf, AfterCheck;
    HoldsItsImage(d);
    var image := ImageOf(d);
    var c := d;
    if d.pointer < d.fwSize {
      ChunkKeepsHolding(d, image, io);
      ChunkSums(d, image, io);
      c := AfterChunk(d, io);
      SameImage(d, c);
    }
    assert c.crc == Crc(DEFAULT_INIT, image[..c.pointer], DEFAULT_POLYNOMIAL);
    if c.pointer == c.fwSize {
      assert image[..|image|] == image;
      CheckCompletes(c, image, io);
    }
  }

  lemma SameImage(d: Device, e: Device)
    requires Placed(d) && Placed(e) && (d.first, d.mem, d.base, d.fwSize) == (e.first, e.mem, e.base, e.fwSize)
    ensures ImageOf(d) == ImageOf(e)
  {}

  lemma PieceKeepsChecked(d: Device, job: Job, sequence: nat, data: seq<bv8>, io: Io)
    requires Checked(d, job) && |data| == PIECE && (d.state == Check ==> !InSequence(d, sequence))
    ensures Checked(AfterStore(d, sequence, data, io), job)
  {
    hide Crc, ImageOf, Flashed, Held, Kept;
    StoreKeepsPlaced(d, sequence, data, io);
    if d.state in {Start, Store} { StoreKeepsErased(d, sequence, data, io); }
  }

  lemma FullPassKeepsChecked(d: Device, job: Job)
    requires Checked(d, job) && d.state == Store && d.pointer == d.fwSize
    ensures Checked(d.(pointer := 0, crc := DEFAULT_INIT, state := Check), job)
  {
    hide Crc, ImageOf;
    EmptySum(d.(pointer := 0, crc := DEFAULT_INIT, state := Check));
  }

  lemma OtherPassKeepsChecked(d: Device, job: Job, io: Io)
    requires Checked(d, job) && d.state != Check
    ensures Checked(AfterRun(d, io), job)
  {
    hide Crc, ImageOf, HasElapsed, AfterCheck, AfterChunk, Summed, Placed, Blank;
    RunKeepsPlaced(d, io);
    if d.state == Store && d.pointer == d.fwSize { FullPassKeepsChecked(d, job); }
  }

  lemma NextKeepsChecked(d: Device, job: Job, e: Event)
    requires Placed(d) && Checked(d, job) && Undisturbed(d, e)
    ensures Checked(Next(d, e), job)
  {
    hide Checked, AfterStore, AfterRun, InSequence;
    if e.Piece? {
      if |e.data| == PIECE { PieceKeepsChecked(d, job, e.sequence, e.data, e.io); }
    } else if d.state == Check {
      CheckPassKeepsChecked(d, job, e.io);
    } else {
      OtherPassKeepsChecked(d, job, e.io);
    }
  }

  lemma EmptySum(d: Device)
    requires Placed(d) && d.state == Check && d.pointer == 0 && d.crc == DEFAULT_INIT && TwoErased(d)
    ensures Summed(d)
  {
    assert ImageOf(d)[..0] == [];
  }

  lemma {:induction false} RunKeepsChecked(d: Device, job: Job, events: seq<Event>)
    requires Placed(d) && Checked(d, job) && NeverDisturbed(d, events)
    ensures Checked(Run(d, events), job)
    decreases |events|
  {
    hide Checked, Next, Undisturbed;
    if events != [] {
      NextKeepsChecked(d, job, events[0]);
      RunKeepsChecked(Next(d, events[0]), job, events[1..]);
    }
  }

  /** After an accepted start, whatever pieces arrive: if the check is not disturbed, VALID means that
      the flash holds an image of the announced size and checksum. */
  lemma ValidMeansChecksum(d: Device, block: nat, size: nat, crc: bv16, io: Io, events: seq<Event>)
    requires Placed(d) && StartAccepted(d, block, size, io)
    requires NeverDisturbed(AfterStart(d, block, size, crc, io), events)
    ensures var r := Run(AfterStart(d, block, size, crc, io), events);
            r.state == Valid ==>
              (r.fwSize, r.base) == (size, block * BLOCK)
              && Crc(DEFAULT_INIT, r.mem[r.base..r.base + r.fwSize], DEFAULT_POLYNOMIAL) == crc
  {
    hide Run, Crc;
    RunKeepsChecked(AfterStart(d, block, size, crc, io), Job(size, block * BLOCK, crc), events);
  }

  // ---------------------------------------------------------------- steps of an undisturbed check

  ghost predicate Good(io: Io) { io.present && io.eraseOk && !io.busy && io.writeOk && io.readOk }

  lemma PassWaits(d: Device, io: Io)
    requires Placed(d) && d.stall == io.now && d.state in {Start, Store} && !io.busy
    ensures AfterRun(d, io) == if d.state == Start then d.(state := Store)
                               else if d.pointer == d.fwSize then d.(pointer := 0, crc := DEFAULT_INIT, state := Check)
                               else d
  {}

  lemma StartHolds(d: Device, image: seq<bv8>, block: nat, crc: bv16, io: Io)
    requires Placed(d) && StartAccepted(d, block, |image|, io)
    ensures Holding(AfterStart(d, block, |image|, crc, io), image, 0)
  {
    BlocksOnPages(block, |d.mem|);
  }

  /** In mid-check and with the checksum right so far. */
  ghost predicate Checking(d: Device, image: seq<bv8>) {
    d.state == Check && Holding(d, image, |image|) && d.crc == Crc(DEFAULT_INIT, image[..d.pointer], DEFAULT_POLYNOMIAL)
  }

  lemma PassChecksOn(d: Device, image: seq<bv8>, io: Io)
    requires Checking(d, image) && d.pointer < d.fwSize && io.readOk
    ensures var c := AfterChunk(d, io);
            Checking(c, image) && c.fwCrc == d.fwCrc
            && AfterRun(d, io) == if c.pointer == c.fwSize then AfterCheck(c, io) else c
  {
    hide Crc, Stored, ChunkBytes, AfterCheck;
    ChunkKeepsHolding(d, image, io);
    ChunkSums(d, image, io);
  }

  lemma FullPassChecks(d: Device, image: seq<bv8>, io: Io)
    requires Holding(d, image, |image|) && d.state == Store && d.pointer == d.fwSize && d.stall == io.now && !io.busy
    ensures Checking(AfterRun(d, io), image) && AfterRun(d, io).pointer == 0 && AfterRun(d, io).fwCrc == d.fwCrc
            && AfterRun(d, io).stall == d.stall
  {
    hide Stored, AfterRun;
    PassWaits(d, io);
    assert image[..0] == [];
  }

  lemma SelfAnd(b: bv8) ensures And8(b, b) == b {}

  lemma FirstChunksAreOne(d: Device, io: Io)
    requires Placed(d) && d.pointer < d.fwSize && d.pointer < 2
    ensures AfterChunk(d, io).pointer == d.pointer + 1
  {}

  lemma CheckingMeans(d: Device, image: seq<bv8>)
    requires Checking(d, image)
    ensures Holding(d, image, |image|) && d.state == Check && Placed(d) && d.fwSize == |image|
  {}

  // ---------------------------------------------------------------- the object

  class Ota {
    var otaState: OtaState
    var firstFwBytes: seq<bv8>
    var fwSize: nat
    var fwCrc: bv16
    var flashPointer: nat
    var flashBlockBeginAddress: nat
    var stallTimer: int
    var crc16: bv16
    var flash: seq<bv8>
    const programMemorySize: nat

    function View(): Device reads this {
      Device(otaState, firstFwBytes, fwSize, fwCrc, flashPointer, flashBlockBeginAddress, stallTimer, crc16, flash,
          programMemorySize)
    }

    constructor (flash: seq<bv8>, programMemorySize: nat)
      requires |flash| % PAGE == 0
      ensures Placed(View()) && otaState == Idle && this.flash == flash && this.programMemorySize == programMemorySize
    {
      otaState, firstFwBytes, fwSize, fwCrc := Idle, [0, 0], 0, 0;
      flashPointer, flashBlockBeginAddress, stallTimer, crc16 := 0, 0, 0, DEFAULT_INIT;
      this.flash, this.programMemorySize := flash, programMemorySize;
    }

    method Start(flashBlockNumber: nat, size: nat, crc: bv16, io: Io) returns (ok: bool)
      requires Placed(View())
      modifies this
      ensures View() == AfterStart(old(View()), flashBlockNumber, size, crc, io)
      ensures ok == StartAccepted(old(View()), flashBlockNumber, size, io)
    {
      hide Placed;
      if size == 0 { return false; }
      if size > programMemorySize { return false; }
      var capacity := if io.present then |flash| else 0;
      if flashBlockNumber * BLOCK + size > capacity { return false; }
      if !io.eraseOk { return false; }
      flash := Blank(|flash|);
      fwSize, fwCrc := size, crc;
      flashBlockBeginAddress := flashBlockNumber * BLOCK;
      flashPointer := 0;
      stallTimer := io.now;
      otaState := OtaState.Start;
      return true;
    }

    /** The loop of `storeNextData` that holds the first two bytes back. */
    method KeepFirst(fwData: seq<bv8>, expected: nat) returns (kept: nat)
      requires Placed(View()) && |fwData| == PIECE && flashPointer < fwSize && expected == Expected(View())
      modifies this`firstFwBytes, this`flashPointer
      ensures kept == Kept(old(View()))
      ensures View() == old(View()).(first := Held(old(View()), fwData), pointer := old(flashPointer) + kept)
    {
      ghost var d := View();
      kept := 0;
      while flashPointer < |firstFwBytes| && kept < expected
        invariant kept <= Kept(d) && flashPointer == d.pointer + kept
        invariant |firstFwBytes| == 2
        invariant forall i :: 0 <= i < 2
                      ==> firstFwBytes[i] == if d.pointer <= i < d.pointer + kept then fwData[i - d.pointer]
                                              else d.first[i]
      {
        firstFwBytes := firstFwBytes[flashPointer := fwData[kept]];
        flashPointer, kept := flashPointer + 1, kept + 1;
      }
      assert firstFwBytes == Held(d, fwData);
    }

    method StoreNextData(sequence: nat, fwData: seq<bv8>, io: Io) returns (ok: bool)
      requires Placed(View()) && |fwData| == PIECE
      modifies this
      ensures View() == AfterStore(old(View()), sequence, fwData, io)
      ensures ok == StoreAccepted(old(View()), sequence, io)
    {
      hide Flashed, Held, Kept;
      if flashPointer >= fwSize { return false; }
      if flashPointer % 256 != sequence { return false; }
      var remaining := fwSize - flashPointer;
      var expected := if remaining < PIECE then remaining else PIECE;
      var kept := KeepFirst(fwData, expected);
      if expected - kept > 0 {
        flash := Flashed(flash, flashBlockBeginAddress + flashPointer, fwData[kept..expected], io);
        if !io.writeOk {
          otaState := Invalid;
          return false;
        }
        flashPointer := flashPointer + (expected - kept);
      }
      stallTimer := io.now;
      return true;
    }

    method ReadNextCheckChunk(io: Io)
      requires Placed(View()) && flashPointer < fwSize
      modifies this
      ensures View() == AfterChunk(old(View()), io)
    {
      hide Crc;
      var remaining := fwSize - flashPointer;
      var chunkSize := if remaining < CHUNK then remaining else CHUNK;
      var readBuffer: seq<bv8>;
      if flashPointer < |firstFwBytes| {
        chunkSize := 1;
        readBuffer := [firstFwBytes[flashPointer]];
      } else {
        var at := flashBlockBeginAddress + flashPointer;
        readBuffer := if io.readOk then flash[at..at + chunkSize] else seq(chunkSize, _ => 0);
      }
      crc16 := Calculate(readBuffer, crc16, DEFAULT_POLYNOMIAL);
      flashPointer := flashPointer + chunkSize;
    }

    method FinishCheck(io: Io)
      requires Placed(View()) && fwSize > 0
      modifies this
      ensures View() == AfterCheck(old(View()), io)
    {
      hide Flashed;
      if fwCrc != crc16 {
        otaState := Invalid;
        return;
      }
      flash := Flashed(flash, flashBlockBeginAddress, firstFwBytes, io);
      var readBack := if io.readOk then flash[flashBlockBeginAddress..flashBlockBeginAddress + 2] else [];
      if io.writeOk && io.readOk && readBack == firstFwBytes {
        otaState := Valid;
      } else {
        otaState := Invalid;
      }
    }

    method Run(io: Io) returns (state: OtaState)
      requires Placed(View())
      modifies this
      ensures View() == AfterRun(old(View()), io)
      ensures state == otaState
    {
      hide Crc, AfterChunk, AfterCheck, HasElapsed, Blank;
      ghost var d := View();
      if otaState in {OtaState.Start, Store} && HasElapsed(io.now, stallTimer, STALL_TIMEOUT_MS) {
        otaState := Invalid;
        return otaState;
      }
      match otaState {
        case Idle =>
        case Start => if !io.busy { otaState := Store; }
        case Store =>
          if flashPointer == fwSize {
            flashPointer := 0;
            crc16 := DEFAULT_INIT;
            otaState := Check;
          }
        case Check =>
          if flashPointer < fwSize {
            ChunkKeepsSize(View(), io);
            ReadNextCheckChunk(io);
          }
          if flashPointer == fwSize { FinishCheck(io); }
        case Valid => otaState := Idle;
        case Invalid =>
          if io.eraseOk { flash := Blank(|flash|); }
          fwSize, fwCrc, flashPointer, flashBlockBeginAddress := 0, 0, 0, 0;
          otaState := Idle;
      }
      return otaState;
    }
  }

  lemma ChunkKeepsSize(d: Device, io: Io)
    requires Placed(d) && d.state == Check && d.pointer < d.fwSize
    ensures Placed(AfterChunk(d, io)) && AfterChunk(d, io).fwSize == d.fwSize
  {
    hide Crc, ChunkBytes;
  }
}
