/** `lib/SPIFlash/src/SPIFlash.cpp` writing to a NOR flash chip: programming can only clear bits, needs the
    write-enable latch, and wraps inside its 256-byte page. */
module SpiFlash {
  const PAGE: nat := 256
  const ADDRESS_SPACE: nat := 0x100_0000      // three address bytes

  function And8(a: bv8, b: bv8): bv8 { a & b }

  // ---------------------------------------------------------------- the chip

  /** Where the chip puts byte `i` of a page program that starts at `addr`. */
  function PageTarget(addr: nat, i: nat): nat { addr / PAGE * PAGE + (addr % PAGE + i) % PAGE }

  /** The memory after a page program. */
  function ProgramPage(mem: seq<bv8>, addr: nat, bytes: seq<bv8>): (r: seq<bv8>)
    requires addr < |mem| && |mem| % PAGE == 0
    ensures |r| == |mem|
  {
    if bytes == [] then mem
    else
      var i := |bytes| - 1;
      var m := ProgramPage(mem, addr, bytes[..i]);
      TargetInside(addr, i, |mem|);
      m[PageTarget(addr, i) := And8(m[PageTarget(addr, i)], bytes[i])]
  }

  lemma TargetInside(addr: nat, i: nat, size: nat)
    requires addr < size && size % PAGE == 0
    ensures PageTarget(addr, i) < size
  {
    assert addr / PAGE < size / PAGE;
  }

  // ---------------------------------------------------------------- what writing means

  /** The bytes over a range, bits cleared only. */
  function Programmed(mem: seq<bv8>, addr: nat, buf: seq<bv8>): (r: seq<bv8>)
    requires addr + |buf| <= |mem|
    ensures |r| == |mem|
    ensures forall i :: 0 <= i < |mem|
                ==> r[i] == (if addr <= i < addr + |buf| then And8(mem[i], buf[i - addr]) else mem[i])
  {
    seq(|mem|, i requires 0 <= i < |mem| => if addr <= i < addr + |buf| then And8(mem[i], buf[i - addr]) else mem[i])
  }

  /** A program that stays inside its page does not wrap. */
  lemma {:induction false} PageProgramIs(mem: seq<bv8>, addr: nat, bytes: seq<bv8>)
    requires addr + |bytes| <= |mem| && addr < |mem| && |mem| % PAGE == 0 && addr % PAGE + |bytes| <= PAGE
    ensures ProgramPage(mem, addr, bytes) == Programmed(mem, addr, bytes)
    decreases |bytes|
  {
    hide And8;
    if bytes == [] {
      assert Programmed(mem, addr, bytes) == mem;
    } else {
      var i := |bytes| - 1;
      PageProgramIs(mem, addr, bytes[..i]);
      assert PageTarget(addr, i) == addr + i;
      var m := Programmed(mem, addr, bytes[..i]);
      assert m[addr + i := And8(m[addr + i], bytes[i])] == Programmed(mem, addr, bytes);
    }
  }

  lemma ProgrammedAppend(mem: seq<bv8>, addr: nat, a: seq<bv8>, b: seq<bv8>)
    requires addr + |a| + |b| <= |mem|
    ensures Programmed(Programmed(mem, addr, a), addr + |a|, b) == Programmed(mem, addr, a + b)
  {
    hide And8;
  }

  lemma NothingProgrammed(mem: seq<bv8>, addr: nat)
    requires addr <= |mem|
    ensures Programmed(mem, addr, []) == mem
  {}

  /** A page program that continues where the last one ended. */
  lemma NextPieceProgrammed(mem: seq<bv8>, addr: nat, buf: seq<bv8>, done: nat, n: nat)
    requires addr + |buf| <= |mem| && |mem| % PAGE == 0 && 0 < n && done + n <= |buf|
             && (addr + done) % PAGE + n <= PAGE
    ensures ProgramPage(Programmed(mem, addr, buf[..done]), addr + done, buf[done..done + n])
            == Programmed(mem, addr, buf[..done + n])
  {
    hide And8, Programmed;
    var m := Programmed(mem, addr, buf[..done]);
    PageProgramIs(m, addr + done, buf[done..done + n]);
    ProgrammedAppend(mem, addr, buf[..done], buf[done..done + n]);
    assert buf[..done] + buf[done..done + n] == buf[..done + n];
  }

  const ERASED: bv8 := 0xFF

  ghost predicate Erased(mem: seq<bv8>, addr: nat, n: nat) {
    addr + n <= |mem| && forall i :: addr <= i < addr + n ==> mem[i] == ERASED
  }

  lemma AndErased(b: bv8) ensures And8(ERASED, b) == b {}

  /** Over an erased range the memory afterwards is exactly the written bytes, and nothing else
      changed. */
  lemma ErasedRangeHoldsBuffer(mem: seq<bv8>, addr: nat, buf: seq<bv8>)
    requires Erased(mem, addr, |buf|)
    ensures Programmed(mem, addr, buf) == mem[..addr] + buf + mem[addr + |buf|..]
  {
    hide And8;
    forall i | 0 <= i < |buf| ensures And8(mem[addr + i], buf[i]) == buf[i] { AndErased(buf[i]); }
  }

  // ---------------------------------------------------------------- the driver

  /** The chip behind the SPI bus and the driver's calls on it. */
  class Flash {
    const mem: array<bv8>
    var writeEnabled: bool               // the chip's write-enable latch

    ghost predicate Valid() reads this {
      mem.Length % PAGE == 0 && mem.Length <= ADDRESS_SPACE
    }

    constructor (mem: array<bv8>)
      requires mem.Length % PAGE == 0 && mem.Length <= ADDRESS_SPACE
      ensures Valid() && this.mem == mem && !writeEnabled
    {
      this.mem := mem;
      writeEnabled := false;
    }

    /** The chip's side of a page program; without the latch the command is ignored. */
    method PageProgram(addr: nat, bytes: seq<bv8>)
      requires Valid() && addr < mem.Length
      modifies mem, this
      ensures old(writeEnabled) ==> mem[..] == ProgramPage(old(mem[..]), addr, bytes)
      ensures !old(writeEnabled) ==> mem[..] == old(mem[..])
      ensures !writeEnabled
    {
      hide And8;
      if writeEnabled {
        for i := 0 to |bytes|
          invariant mem[..] == ProgramPage(old(mem[..]), addr, bytes[..i])
        {
          TargetInside(addr, i, mem.Length);
          var t := PageTarget(addr, i);
          ghost var before := mem[..];
          mem[t] := And8(mem[t], bytes[i]);
          assert mem[..] == before[t := And8(before[t], bytes[i])];
          assert bytes[..i + 1][..i] == bytes[..i];
        }
        assert bytes[..|bytes|] == bytes;
      }
      writeEnabled := false;
    }

    /** `waitUntilReady`: `statuses` are the status bytes the chip answers until the timeout. */
    static method WaitUntilReady(statuses: seq<bv8>) returns (ready: bool)
      ensures ready <==> ComesReady(statuses)
    {
      for i := 0 to |statuses|
        invariant forall j :: 0 <= j < i ==> Busy(statuses[j])
      {
        if statuses[i] == 0xFF { return false; }
        if statuses[i] & 1 == 0 { return true; }
      }
      return false;
    }

    /** `command(CMD_BYTE_PROGRAM, true)`: enables writing, having waited before and after. */
    method CommandProgram(first: seq<bv8>, second: seq<bv8>) returns (ok: bool)
      modifies this
      ensures ok <==> ComesReady(first) && ComesReady(second)
      ensures ok ==> writeEnabled
    {
      ok := WaitUntilReady(first);
      if !ok { return; }
      writeEnabled := true;
      ok := WaitUntilReady(second);
    }

    /** `writeBytes`. `answers` gives the status bytes the chip answers around each command: one command a page
        the buffer touches, and all of them have to succeed. */
    method WriteBytes(addr: nat, buf: seq<bv8>, answers: nat -> (seq<bv8>, seq<bv8>)) returns (ok: bool)
      requires Valid() && addr + |buf| <= mem.Length && |buf| < 0x1_0000
      modifies mem, this
      ensures ok <==> forall r :: 0 <= r < Pages(addr, |buf|)
                          ==> ComesReady(answers(r).0) && ComesReady(answers(r).1)
      ensures ok ==> mem[..] == Programmed(old(mem[..]), addr, buf)
      ensures !ok ==> exists k :: 0 <= k < |buf| && mem[..] == Programmed(old(mem[..]), addr, buf[..k])
    {
      hide Programmed, ProgramPage;
      var maxBytes := PAGE - addr % PAGE;
      var at, done, round := addr, 0, 0;
      NothingProgrammed(mem[..], addr);
      while done < |buf|
        invariant 0 <= done <= |buf| && at == addr + done
        invariant mem[..] == Programmed(old(mem[..]), addr, buf[..done])
        invariant done < |buf| ==> 0 < maxBytes && at % PAGE + maxBytes == PAGE && round == at / PAGE - addr / PAGE
        invariant done == |buf| ==> round == Pages(addr, |buf|)
        invariant forall r :: 0 <= r < round ==> ComesReady(answers(r).0) && ComesReady(answers(r).1)
      {
        var n := if |buf| - done <= maxBytes then |buf| - done else maxBytes;
        var answer := answers(round);
        var enabled := CommandProgram(answer.0, answer.1);
        if !enabled {
          PagesLeft(addr, done, |buf|);
          return false;
        }
        PageProgram(at, buf[done..done + n]);
        NextPieceProgrammed(old(mem[..]), addr, buf, done, n);
        NextPage(at, n, maxBytes);
        RoundsArePages(addr, done, n, |buf|, maxBytes);
        at, done, round := at + n, done + n, round + 1;
        maxBytes := PAGE;
      }
      assert buf[..done] == buf;
      return true;
    }
  }

  /** An idle status comes before an all-ones one and before the timeout. */
  ghost predicate ComesReady(statuses: seq<bv8>) {
    exists k :: 0 <= k < |statuses| && Idle(statuses[k]) && forall j :: 0 <= j < k ==> Busy(statuses[j])
  }

  /** The pages a buffer touches. */
  function Pages(addr: nat, n: nat): int { if n == 0 then 0 else (addr + n - 1) / PAGE - addr / PAGE + 1 }

  lemma PagesLeft(addr: nat, done: nat, n: nat)
    requires done < n
    ensures (addr + done) / PAGE - addr / PAGE < Pages(addr, n)
  {}

  lemma RoundsArePages(addr: nat, done: nat, n: nat, size: nat, maxBytes: nat)
    requires 0 < n <= maxBytes && (addr + done) % PAGE + maxBytes == PAGE && done + n <= size
    ensures n == maxBytes ==> (addr + done + n) / PAGE == (addr + done) / PAGE + 1
    ensures done + n == size ==> (addr + done) / PAGE - addr / PAGE + 1 == Pages(addr, size)
  {}

  predicate Busy(status: bv8) { status != 0xFF && status & 1 != 0 }
  predicate Idle(status: bv8) { status != 0xFF && status & 1 == 0 }

  /** A piece that fills its page ends on a page boundary. */
  lemma NextPage(at: nat, n: nat, maxBytes: nat)
    requires 0 < n <= maxBytes && at % PAGE + maxBytes <= PAGE
    ensures n == maxBytes && at % PAGE + maxBytes == PAGE ==> (at + n) % PAGE == 0
  {
  }
}
