/** How much the closing check of `lib/ota/src/ota.cpp` is worth when pieces keep arriving while it runs:
    a piece that fits the pointer is taken, and the bytes it moves past are never summed. */
module OtaCheck {
  import opened Common
  import opened Crc16
  import opened Crc16Bursts
  import opened SpiFlash
  import opened OtaDevice

  // ---------------------------------------------------------------- runs

  ghost predicate Leads(d: Device, e: Device) { Placed(d) && exists events :: OtaDevice.Run(d, events) == e }

  lemma LeadsHere(d: Device)
    requires Placed(d)
    ensures Leads(d, d)
  {
    assert OtaDevice.Run(d, []) == d;
  }

  lemma LeadsStep(d: Device, e: Event)
    requires Placed(d)
    ensures Leads(d, Next(d, e))
  {
    hide Next, Placed;
    assert [e][1..] == [] && OtaDevice.Run(Next(d, e), []) == Next(d, e);
    assert OtaDevice.Run(d, [e]) == Next(d, e);
  }

  lemma {:induction false} RunAppend(d: Device, xs: seq<Event>, ys: seq<Event>)
    requires Placed(d)
    ensures OtaDevice.Run(d, xs + ys) == OtaDevice.Run(OtaDevice.Run(d, xs), ys)
    decreases |xs|
  {
    hide Next, Placed;
    if xs == [] {
      assert xs + ys == ys;
    } else {
      RunAppend(Next(d, xs[0]), xs[1..], ys);
      assert (xs + ys)[1..] == xs[1..] + ys;
    }
  }

  lemma LeadsOn(d: Device, e: Device, f: Device)
    requires Leads(d, e) && Leads(e, f)
    ensures Leads(d, f)
  {
    hide Placed, OtaDevice.Run;
    var xs :| OtaDevice.Run(d, xs) == e;
    var ys :| OtaDevice.Run(e, ys) == f;
    RunAppend(d, xs, ys);
  }

  // ---------------------------------------------------------------- storing and skipping an image

  /** The piece of an image at some offset. */
  function PieceAt(image: seq<bv8>, at: nat): (p: seq<bv8>)
    requires at <= |image|
    ensures IsPiece(p, image, at)
  {
    seq(PIECE, i requires 0 <= i < PIECE => if at + i < |image| then image[at + i] else 0)
  }

  /** All of an image is stored. */
  lemma {:induction false} StoresImage(d: Device, image: seq<bv8>, io: Io) returns (e: Device)
    requires Good(io) && Holding(d, image, d.pointer) && d.state == Store && d.stall == io.now
    ensures Leads(d, e) && Holding(e, image, |image|) && e.state == Store && e.pointer == e.fwSize && e.stall == io.now
    ensures e.fwCrc == d.fwCrc
    decreases |image| - d.pointer
  {
    hide Stored, AfterStore, OtaDevice.Run, Kept, Held;
    if d.pointer == |image| {
      LeadsHere(d);
      e := d;
    } else {
      var data := PieceAt(image, d.pointer);
      var event := Piece(d.pointer % 256, data, io);
      StoreExtends(d, image, d.pointer % 256, data, io);
      StoreKeepsPlaced(d, d.pointer % 256, data, io);
      StoreStamps(d, d.pointer % 256, data, io);
      LeadsStep(d, event);
      var f := Next(d, event);
      e := StoresImage(f, image, io);
      LeadsOn(d, f, e);
    }
  }

  lemma StoreStamps(d: Device, sequence: nat, data: seq<bv8>, io: Io)
    requires Placed(d) && |data| == PIECE && InSequence(d, sequence) && io.writeOk
    ensures var e := AfterStore(d, sequence, data, io); e.stall == io.now && e.fwCrc == d.fwCrc && e.crc == d.crc
  {
    hide Held, Flashed;
  }

  /** Writing what is there already changes nothing. */
  lemma SameAgain(mem: seq<bv8>, addr: nat, bytes: seq<bv8>)
    requires addr + |bytes| <= |mem| && mem[addr..addr + |bytes|] == bytes
    ensures Programmed(mem, addr, bytes) == mem
  {
    hide And8;
    var r := Programmed(mem, addr, bytes);
    forall i | 0 <= i < |mem| ensures r[i] == mem[i] {
      if addr <= i < addr + |bytes| {
        assert mem[i] == mem[addr..addr + |bytes|][i - addr];
        SelfAnd(mem[i]);
      }
    }
  }

  lemma HeldAgain(d: Device, image: seq<bv8>)
    requires Holding(d, image, |image|) && d.pointer < d.fwSize
    ensures Held(d, PieceAt(image, d.pointer)) == d.first
  {}

  lemma FlashedAgain(d: Device, image: seq<bv8>, kept: nat, n: nat)
    requires Holding(d, image, |image|) && d.pointer < d.fwSize && kept < n <= PIECE && 2 <= d.pointer + kept
             && d.pointer + n <= |image|
    ensures var at := d.base + d.pointer + kept; d.mem[at..at + (n - kept)] == PieceAt(image, d.pointer)[kept..n]
  {
    var at := d.base + d.pointer + kept;
    var (x, y) := (d.mem[at..at + (n - kept)], PieceAt(image, d.pointer)[kept..n]);
    forall i | 0 <= i < n - kept ensures x[i] == y[i] {
      assert x[i] == d.mem[at + i] == image[at + i - d.base];
    }
  }

  /** A repeated piece that fits the pointer of a running check moves it and does nothing else. */
  lemma RepeatSkips(d: Device, image: seq<bv8>, io: Io)
    requires Good(io) && Holding(d, image, |image|) && d.state == Check && d.pointer < d.fwSize
    ensures AfterStore(d, d.pointer % 256, PieceAt(image, d.pointer), io)
         == d.(pointer := Min(d.pointer + PIECE, |image|), stall := io.now)
  {
    hide Stored, Held, Programmed, PieceAt;
    HeldAgain(d, image);
    var (kept, n) := (Kept(d), Expected(d));
    if kept < n {
      FlashedAgain(d, image, kept, n);
      SameAgain(d.mem, d.base + d.pointer + kept, PieceAt(image, d.pointer)[kept..n]);
    }
  }

  lemma {:induction false} SkipsRest(d: Device, image: seq<bv8>, io: Io) returns (e: Device)
    requires Good(io) && Holding(d, image, |image|) && d.state == Check && d.pointer <= d.fwSize
    ensures Leads(d, e) && Holding(e, image, |image|) && e.state == Check && e.pointer == e.fwSize
    ensures e.fwCrc == d.fwCrc && e.crc == d.crc
    decreases |image| - d.pointer
  {
    hide Stored, AfterStore, OtaDevice.Run;
    if d.pointer == |image| {
      LeadsHere(d);
      e := d;
    } else {
      var event := Piece(d.pointer % 256, PieceAt(image, d.pointer), io);
      RepeatSkips(d, image, io);
      LeadsStep(d, event);
      var f := Next(d, event);
      e := SkipsRest(f, image, io);
      LeadsOn(d, f, e);
    }
  }

  /** The check reads the first bytes one a pass. */
  lemma {:induction false} ChecksFirst(d: Device, image: seq<bv8>, n: nat, io: Io) returns (e: Device)
    requires Good(io) && Checking(d, image) && d.pointer <= n <= 2 && n < |image|
    ensures Leads(d, e) && Checking(e, image) && e.pointer == n && e.fwCrc == d.fwCrc
    decreases n - d.pointer
  {
    hide Stored, AfterRun, AfterChunk, AfterCheck, OtaDevice.Run, Crc;
    CheckingMeans(d, image);
    if d.pointer == n {
      LeadsHere(d);
      e := d;
    } else {
      FirstChunksAreOne(d, io);
      PassChecksOn(d, image, io);
      LeadsStep(d, Pass(io));
      var f := AfterChunk(d, io);
      assert Next(d, Pass(io)) == f;
      e := ChecksFirst(f, image, n, io);
      LeadsOn(d, f, e);
    }
  }

  // ---------------------------------------------------------------- which announcements can be met falsely

  /** Fewer bytes than announced have the announced checksum. */
  ghost predicate Forgeable(size: nat, crc: bv16) {
    exists p: seq<bv8> :: |p| < size && Crc(DEFAULT_INIT, p, DEFAULT_POLYNOMIAL) == crc
  }

  /** From three bytes on that is so for every checksum. */
  lemma LargeIsForgeable(size: nat, crc: bv16)
    requires size >= 3
    ensures Forgeable(size, crc)
  {
    hide Crc;
    DefaultPolynomialIsOdd();
    var a, b := TwoBytesReach(crc, DEFAULT_POLYNOMIAL);
    assert |[a, b]| < size;
  }

  /** An image that begins with given bytes and does not have the checksum. */
  lemma OtherImage(p: seq<bv8>, size: nat, crc: bv16) returns (image: seq<bv8>)
    requires |p| < size
    ensures |image| == size && p <= image && Crc(DEFAULT_INIT, image, DEFAULT_POLYNOMIAL) != crc
  {
    hide Crc;
    var z: seq<bv8> := seq(size - |p| - 1, _ => 0);
    DefaultPolynomialIsOdd();
    TwoBytesAlterCrc(DEFAULT_INIT, p, [0], [1], z, DEFAULT_POLYNOMIAL);
    image := if Crc(DEFAULT_INIT, p + [0] + z, DEFAULT_POLYNOMIAL) == crc then p + [1] + z else p + [0] + z;
  }

  /** The run: store another image, let the check read the forged beginning, skip the rest. */
  lemma Forges(d: Device, block: nat, size: nat, crc: bv16, p: seq<bv8>, io: Io) returns (e: Device)
    requires Placed(d) && Good(io) && StartAccepted(d, block, size, io)
    requires |p| <= 2 && |p| < size && Crc(DEFAULT_INIT, p, DEFAULT_POLYNOMIAL) == crc
    ensures Leads(AfterStart(d, block, size, crc, io), e) && Placed(e) && e.state == Valid
    ensures Crc(DEFAULT_INIT, e.mem[e.base..e.base + e.fwSize], DEFAULT_POLYNOMIAL) != crc
  {
    hide Stored, AfterRun, AfterStore, AfterCheck, OtaDevice.Run, Crc, StartAccepted;
    var image := OtherImage(p, size, crc);
    var s0 := AfterStart(d, block, size, crc, io);
    StartHolds(d, image, block, crc, io);
    StartedState(d, block, size, crc, io);
    PassWaits(s0, io);
    LeadsStep(s0, Pass(io));
    var s1 := s0.(state := Store);
    var s2 := StoresImage(s1, image, io);
    FullPassChecks(s2, image, io);
    LeadsStep(s2, Pass(io));
    var s3 := AfterRun(s2, io);
    var s4 := ChecksFirst(s3, image, |p|, io);
    CheckingMeans(s4, image);
    assert image[..|p|] == p && s4.crc == crc by { CheckedSum(s4, image); }
    var s5 := SkipsRest(s4, image, io);
    LastPass(s5, image, io);
    LeadsStep(s5, Pass(io));
    e := AfterRun(s5, io);
    hide Leads;
    LeadsOn(s0, s1, s2);
    LeadsOn(s0, s2, s3);
    LeadsOn(s0, s3, s4);
    LeadsOn(s0, s4, s5);
    LeadsOn(s0, s5, e);
  }

  lemma StartedState(d: Device, block: nat, size: nat, crc: bv16, io: Io)
    requires Placed(d) && StartAccepted(d, block, size, io)
    ensures var s := AfterStart(d, block, size, crc, io);
            s.state == Start && s.stall == io.now && s.fwCrc == crc && s.pointer == 0 && s.fwSize == size
  {}

  lemma CheckedSum(d: Device, image: seq<bv8>)
    requires Checking(d, image)
    ensures d.pointer <= |image| && d.crc == Crc(DEFAULT_INIT, image[..d.pointer], DEFAULT_POLYNOMIAL)
  {}

  lemma LastPass(d: Device, image: seq<bv8>, io: Io)
    requires Good(io) && Holding(d, image, |image|) && d.state == Check && d.pointer == d.fwSize && d.fwCrc == d.crc
    ensures var e := AfterRun(d, io);
            Placed(e) && e.state == Valid && e.fwSize == |image| && e.mem[e.base..e.base + e.fwSize] == image
  {
    hide AfterCheck, Stored;
    CheckCompletes(d, image, io);
  }

  // ---------------------------------------------------------------- and only those

  /** What the check has summed: no more bytes than it moved past, and if as many, then the ones held. */
  ghost predicate SeenBy(d: Device, seen: seq<bv8>) {
    && Placed(d) && d.fwSize <= 2 && |seen| <= d.pointer
    && d.crc == Crc(DEFAULT_INIT, seen, DEFAULT_POLYNOMIAL)
    && (|seen| == d.pointer ==> seen == d.first[..d.pointer])
  }

  ghost predicate Honest(d: Device, size: nat, crc: bv16) {
    && Placed(d)
    && (d.state != Idle ==> d.fwSize == size && d.fwCrc == crc)
    && (d.state == Check ==> exists seen :: SeenBy(d, seen))
    && (d.state == Valid ==> Crc(DEFAULT_INIT, d.mem[d.base..d.base + d.fwSize], DEFAULT_POLYNOMIAL) == crc)
  }

  lemma PieceKeepsHonest(d: Device, size: nat, crc: bv16, sequence: nat, data: seq<bv8>, io: Io)
    requires Honest(d, size, crc) && |data| == PIECE
    ensures Honest(AfterStore(d, sequence, data, io), size, crc)
  {
    hide Crc, Flashed;
    StoreKeepsPlaced(d, sequence, data, io);
    var e := AfterStore(d, sequence, data, io);
    if d.state == Check && InSequence(d, sequence) && e.state == Check {
      var seen :| SeenBy(d, seen);
      assert SeenBy(e, seen);
    }
  }

  lemma ChunkKeepsSeen(d: Device, seen: seq<bv8>, io: Io)
    requires SeenBy(d, seen) && d.state == Check && d.pointer < d.fwSize
    ensures SeenBy(AfterChunk(d, io), seen + [d.first[d.pointer]]) && AfterChunk(d, io).state == Check
  {
    hide Crc;
    CrcAppend(DEFAULT_INIT, seen, [d.first[d.pointer]], DEFAULT_POLYNOMIAL);
    if |seen| == d.pointer { assert d.first[..d.pointer] + [d.first[d.pointer]] == d.first[..d.pointer + 1]; }
  }

  lemma FinishIsHonest(d: Device, seen: seq<bv8>, size: nat, crc: bv16, io: Io)
    requires SeenBy(d, seen) && d.state == Check && d.pointer == d.fwSize == size && d.fwCrc == crc
             && !Forgeable(size, crc)
    ensures Honest(AfterCheck(d, io), size, crc)
  {
    hide Crc, Flashed;
    var e := AfterCheck(d, io);
    if e.state == Valid {
      assert |seen| == size;
      assert e.mem[d.base..d.base + size] == e.mem[d.base..d.base + 2][..size];
    }
  }

  lemma CheckPassIsHonest(d: Device, size: nat, crc: bv16, io: Io)
    requires Honest(d, size, crc) && d.state == Check && !Forgeable(size, crc)
    ensures Honest(AfterRun(d, io), size, crc)
  {
    hide Crc, AfterChunk, AfterCheck;
    var seen :| SeenBy(d, seen);
    var c := d;
    if d.pointer < d.fwSize {
      ChunkKeepsSeen(d, seen, io);
      ChunkKeepsJob(d, io);
      seen := seen + [d.first[d.pointer]];
      c := AfterChunk(d, io);
    }
    if c.pointer == c.fwSize { FinishIsHonest(c, seen, size, crc, io); }
  }

  lemma ChunkKeepsJob(d: Device, io: Io)
    requires Placed(d) && d.pointer < d.fwSize
    ensures AfterChunk(d, io).fwSize == d.fwSize && AfterChunk(d, io).fwCrc == d.fwCrc
  {
    hide Crc, ChunkBytes;
  }

  lemma OtherPassIsHonest(d: Device, size: nat, crc: bv16, io: Io)
    requires Honest(d, size, crc) && d.state != Check && size <= 2
    ensures Honest(AfterRun(d, io), size, crc)
  {
    hide HasElapsed, AfterCheck, AfterChunk, Blank;
    RunKeepsPlaced(d, io);
    var e := AfterRun(d, io);
    if e.state == Check { assert SeenBy(e, []); }
  }

  lemma {:induction false} RunIsHonest(d: Device, size: nat, crc: bv16, events: seq<Event>)
    requires Placed(d) && Honest(d, size, crc) && !Forgeable(size, crc) && size <= 2
    ensures Honest(OtaDevice.Run(d, events), size, crc)
    decreases |events|
  {
    hide Honest, AfterStore, AfterRun, Forgeable;
    if events != [] {
      var e := events[0];
      if e.Piece? {
        if |e.data| == PIECE { PieceKeepsHonest(d, size, crc, e.sequence, e.data, e.io); }
      } else if d.state == Check {
        CheckPassIsHonest(d, size, crc, e.io);
      } else {
        OtherPassIsHonest(d, size, crc, e.io);
      }
      RunIsHonest(Next(d, e), size, crc, events[1..]);
    }
  }

  /** A device in VALID holds an image with the announced checksum. */
  ghost predicate Vouches(d: Device, crc: bv16)
    requires Placed(d)
  {
    d.state == Valid ==> Crc(DEFAULT_INIT, d.mem[d.base..d.base + d.fwSize], DEFAULT_POLYNOMIAL) == crc
  }

  /** After an accepted start VALID vouches for the checksum of what is stored, on every run whatever
      arrives and whenever, exactly if no fewer bytes than announced have that checksum. That is never
      so from three bytes on; there it takes a check that no piece disturbs. */
  lemma ValidVouchesIff(d: Device, block: nat, size: nat, crc: bv16, io: Io)
    requires Placed(d) && Good(io) && StartAccepted(d, block, size, io)
    ensures (forall events :: Vouches(OtaDevice.Run(AfterStart(d, block, size, crc, io), events), crc))
            <==> !Forgeable(size, crc)
    ensures size >= 3 ==> Forgeable(size, crc)
  {
    hide OtaDevice.Run, Crc, AfterStart, StartAccepted;
    if size >= 3 { LargeIsForgeable(size, crc); }
    var s0 := AfterStart(d, block, size, crc, io);
    if Forgeable(size, crc) {
      var p := ShortForgery(size, crc);
      var e := Forges(d, block, size, crc, p, io);
      var events :| OtaDevice.Run(s0, events) == e;
      assert !Vouches(OtaDevice.Run(AfterStart(d, block, size, crc, io), events), crc);
    } else {
      StartedState(d, block, size, crc, io);
      forall events ensures Vouches(OtaDevice.Run(s0, events), crc) { RunIsHonest(s0, size, crc, events); }
    }
  }

  lemma ShortForgery(size: nat, crc: bv16) returns (p: seq<bv8>)
    requires Forgeable(size, crc)
    ensures |p| <= 2 && |p| < size && Crc(DEFAULT_INIT, p, DEFAULT_POLYNOMIAL) == crc
  {
    hide Crc;
    if size >= 3 {
      DefaultPolynomialIsOdd();
      var a, b := TwoBytesReach(crc, DEFAULT_POLYNOMIAL);
      p := [a, b];
    } else {
      p :| |p| < size && Crc(DEFAULT_INIT, p, DEFAULT_POLYNOMIAL) == crc;
    }
  }
}
