/** `lib/eepromHandler/src/eepromHandler.hpp`: records guarded by a checksum over themselves. */
module Eeprom {
  import opened Common
  import opened Crc16
  import opened Crc16Bursts

  /** The packed record: the checksum's two bytes, low byte first, then the data. */
  function Record(crc: bv16, data: seq<bv8>): (r: seq<bv8>)
    ensures |r| == 2 + |data|
  {
    [LowHalf(crc), HighHalf(crc)] + data
  }

  function LowHalf(crc: bv16): bv8 { (crc & 0xFF) as bv8 }
  function HighHalf(crc: bv16): bv8 { (crc >> 8) as bv8 }
  function CrcOf(low: bv8, high: bv8): bv16 { High(high) | (low as bv16) }

  lemma HalvesJoin(crc: bv16)
    ensures CrcOf(LowHalf(crc), HighHalf(crc)) == crc
  {}

  lemma CrcOfInjective(a: bv8, b: bv8, c: bv8, d: bv8)
    requires CrcOf(a, b) == CrcOf(c, d)
    ensures a == c && b == d
  {}

  /** `checksumOf`: over the whole record with its own checksum field zeroed. */
  function ChecksumOf(data: seq<bv8>): bv16 {
    Crc(DEFAULT_INIT, [0, 0] + data, DEFAULT_POLYNOMIAL)
  }

  /** What `save` stores. */
  function Saved(data: seq<bv8>): seq<bv8> { Record(ChecksumOf(data), data) }

  /** What `load` makes of a stored record. */
  function Loaded(record: seq<bv8>): Option<seq<bv8>>
    requires |record| >= 2
  {
    if CrcOf(record[0], record[1]) == ChecksumOf(record[2..]) then Some(record[2..]) else None
  }

  // ---------------------------------------------------------------- the handler

  class Handler {
    const eeprom: array<bv8>
    const address: nat
    const size: nat                  // sizeof(T)

    ghost predicate Valid() reads this {
      address + 2 + size <= eeprom.Length
    }

    constructor (eeprom: array<bv8>, address: nat, size: nat)
      requires address + 2 + size <= eeprom.Length
      ensures Valid() && this.eeprom == eeprom && this.address == address && this.size == size
    {
      this.eeprom, this.address, this.size := eeprom, address, size;
    }

    ghost function Stored(): (r: seq<bv8>)
      requires Valid()
      reads this, eeprom
      ensures |r| == 2 + size
    {
      eeprom[address..address + 2 + size]
    }

    /** `save`. `takes` says per cell whether the store accepted the write, `commits` whether the
        commit of the platforms that have one succeeded. */
    method Save(data: seq<bv8>, takes: seq<bool>, commits: bool) returns (ok: bool)
      requires Valid() && |data| == size && |takes| == 2 + size
      modifies eeprom
      ensures ok <==> commits && Stored() == Saved(data)
      ensures (forall i :: 0 <= i < 2 + size ==> takes[i]) ==> Stored() == Saved(data)
      ensures eeprom[..address] == old(eeprom[..address])
      ensures eeprom[address + 2 + size..] == old(eeprom[address + 2 + size..])
    {
      hide ChecksumOf, Record;
      var crc := Calculate([0, 0] + data, DEFAULT_INIT, DEFAULT_POLYNOMIAL);
      assert crc == ChecksumOf(data) by { ChecksumUnfolds(data); }
      var record := Record(crc, data);
      for i := 0 to |record|
        invariant eeprom[..address] == old(eeprom[..address])
        invariant eeprom[address + 2 + size..] == old(eeprom[address + 2 + size..])
        invariant forall j :: 0 <= j < i && takes[j] ==> eeprom[address + j] == record[j]
      {
        if takes[i] { eeprom[address + i] := record[i]; }
      }
      if forall i :: 0 <= i < 2 + size ==> takes[i] {
        assert forall j :: 0 <= j < |record| ==> Stored()[j] == record[j];
      }
      if !commits { return false; }
      ok := eeprom[address..address + 2 + size] == record;
    }

    method Load() returns (data: Option<seq<bv8>>)
      requires Valid()
      ensures data == Loaded(Stored())
    {
      hide ChecksumOf;
      var record := eeprom[address..address + 2 + size];
      var crc := Calculate([0, 0] + record[2..], DEFAULT_INIT, DEFAULT_POLYNOMIAL);
      assert crc == ChecksumOf(record[2..]) by { ChecksumUnfolds(record[2..]); }
      if CrcOf(record[0], record[1]) == crc {
        return Some(record[2..]);
      }
      return None;
    }
  }

  lemma ChecksumUnfolds(data: seq<bv8>)
    ensures ChecksumOf(data) == Crc(DEFAULT_INIT, [0, 0] + data, DEFAULT_POLYNOMIAL)
  {
    hide Crc;
  }

  // ---------------------------------------------------------------- what load makes of save

  /** `load` returns what `save` stored. */
  lemma LoadReturnsSaved(data: seq<bv8>)
    ensures Loaded(Saved(data)) == Some(data)
  {
    hide ChecksumOf, CrcOf, LowHalf, HighHalf;
    HalvesJoin(ChecksumOf(data));
    assert Saved(data)[2..] == data;
  }

  /** A record whose data was changed only within two adjacent bytes is rejected. */
  lemma LoadRejectsDataChange(pre: seq<bv8>, x: seq<bv8>, y: seq<bv8>, post: seq<bv8>)
    requires |x| == |y| <= 2 && x != y
    ensures Loaded(Record(ChecksumOf(pre + x + post), pre + y + post)) == None
  {
    hide Crc, CrcOf, LowHalf, HighHalf, Low;
    var (a, b) := (pre + x + post, pre + y + post);
    var r := Record(ChecksumOf(a), b);
    HalvesJoin(ChecksumOf(a));
    assert r[2..] == b;
    assert [0, 0] + a == ([0, 0] + pre) + x + post && [0, 0] + b == ([0, 0] + pre) + y + post;
    DefaultPolynomialIsOdd();
    TwoBytesAlterCrc(DEFAULT_INIT, [0, 0] + pre, x, y, post, DEFAULT_POLYNOMIAL);
  }

  /** A record changed only in its checksum field is rejected. */
  lemma LoadRejectsChecksumChange(data: seq<bv8>, low: bv8, high: bv8)
    requires [low, high] != Saved(data)[..2]
    ensures Loaded([low, high] + data) == None
  {
    hide ChecksumOf, CrcOf, LowHalf, HighHalf;
    var c := ChecksumOf(data);
    HalvesJoin(c);
    assert ([low, high] + data)[2..] == data;
    if CrcOf(low, high) == c { CrcOfInjective(low, high, LowHalf(c), HighHalf(c)); }
  }

  /** `load` accepts exactly the records `save` would have written. */
  lemma LoadedExactly(record: seq<bv8>)
    requires |record| >= 2
    ensures Loaded(record).Some? <==> record == Saved(record[2..])
  {
    hide ChecksumOf, CrcOf, LowHalf, HighHalf;
    var c := ChecksumOf(record[2..]);
    HalvesJoin(c);
    if CrcOf(record[0], record[1]) == c {
      CrcOfInjective(record[0], record[1], LowHalf(c), HighHalf(c));
      assert record == [record[0], record[1]] + record[2..];
    }
  }
}
