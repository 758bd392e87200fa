/** Base64 as `lib/base64/src/base64.cpp` computes it, against section 4 of RFC 4648.

    Text and data are sequences of 8-bit values. The masks and shifts of the source are written
    as the division and remainder they are on an 8-bit value, for instance
    `(x & 0xfc) >> 2` as `x / 4`. */
module Base64 {
  import opened Common

  const UPPER := "ABCDEFGHIJKLMNOPQRSTUVWXYZ"
  const LOWER := "abcdefghijklmnopqrstuvwxyz"
  const DIGITS := "0123456789+/"
  const ALPHABET := UPPER + LOWER + DIGITS
  const PAD: Byte := 61           // '='
  const INVALID: Byte := 255      // lookupTable()'s answer for a character outside the alphabet

  // ---------------------------------------------------------------- reference (RFC 4648)

  /** The character section 4 of RFC 4648 assigns to a 6-bit value (its table 1). */
  function Symbol(v: int): (r: Byte)
    requires 0 <= v < 64
    ensures r != PAD && r != 0
  {
    if v < 26 then 65 + v
    else if v < 52 then 97 + (v - 26)
    else if v < 62 then 48 + (v - 52)
    else if v == 62 then 43 else 47
  }

  /** Three bytes as one 24-bit group, and four 6-bit values as one. */
  function Group(a: int, b: int, c: int): int { a * 65536 + b * 256 + c }
  function Digits(d0: int, d1: int, d2: int, d3: int): int { d0 * 262144 + d1 * 4096 + d2 * 64 + d3 }

  /** The k-th 6-bit digit, most significant first, of the 24-bit group made of three bytes. */
  function Digit(a: Byte, b: Byte, c: Byte, k: nat): (d: int)
    requires k < 4
    ensures 0 <= d < 64
  {
    var group := Group(a, b, c);
    if k == 0 then group / 262144
    else if k == 1 then group / 4096 % 64
    else if k == 2 then group / 64 % 64
    else group % 64
  }

  /** The four characters of one 24-bit group. */
  function GroupText(a3: seq<Byte>): (r: seq<Byte>)
    requires |a3| == 3
    ensures |r| == 4 && PAD !in r && 0 !in r
  {
    [Symbol(Digit(a3[0], a3[1], a3[2], 0)), Symbol(Digit(a3[0], a3[1], a3[2], 1)),
     Symbol(Digit(a3[0], a3[1], a3[2], 2)), Symbol(Digit(a3[0], a3[1], a3[2], 3))]
  }

  /** One or two bytes filled up with zeros to a whole group. */
  function Filled(tail: seq<Byte>): (a3: seq<Byte>)
    requires 0 < |tail| < 3
    ensures |a3| == 3 && a3[..|tail|] == tail
  {
    if |tail| == 1 then [tail[0], 0, 0] else [tail[0], tail[1], 0]
  }

  function Pads(n: nat): (r: seq<Byte>)
    ensures |r| == n && forall k :: 0 <= k < n ==> r[k] == PAD
  {
    seq(n, _ => PAD)
  }

  /** The standard encoding: 24-bit groups, the last one padded. */
  function Encode(data: seq<Byte>): (text: seq<Byte>)
    ensures |text| == (|data| + 2) / 3 * 4
  {
    hide *;
    if |data| == 0 then []
    else if |data| < 3 then
      assert (|data| + 2) / 3 == 1;
      GroupText(Filled(data))[..|data| + 1] + Pads(3 - |data|)
    else
      assert (|data| + 2) / 3 == (|data| - 3 + 2) / 3 + 1;
      GroupText(data[..3]) + Encode(data[3..])
  }

  // ---------------------------------------------------------------- block helpers

  function FromA3ToA4(a3: seq<Byte>): (a4: seq<Byte>)
    requires |a3| == 3
    ensures |a4| == 4 && forall k :: 0 <= k < 4 ==> a4[k] < 64
    ensures Group(a3[0], a3[1], a3[2]) == Digits(a4[0], a4[1], a4[2], a4[3])
  {
    [a3[0] / 4,
     a3[0] % 4 * 16 + a3[1] / 16,
     a3[1] % 16 * 4 + a3[2] / 64,
     a3[2] % 64]
  }

  /** The four values `fromA3ToA4` computes are the base-64 digits of the 24-bit group. */
  lemma FromA3ToA4IsDigits(a3: seq<Byte>, k: nat)
    requires |a3| == 3 && k < 4
    ensures FromA3ToA4(a3)[k] == Digit(a3[0], a3[1], a3[2], k)
  {
    var a4 := FromA3ToA4(a3);
    DigitsUnique(a4[0], a4[1], a4[2], a4[3]);
  }

  lemma DigitsUnique(d0: int, d1: int, d2: int, d3: int)
    requires 0 <= d0 < 64 && 0 <= d1 < 64 && 0 <= d2 < 64 && 0 <= d3 < 64
    ensures var g := Digits(d0, d1, d2, d3);
            g / 262144 == d0 && g / 4096 % 64 == d1 && g / 64 % 64 == d2 && g % 64 == d3
  {
    var g := Digits(d0, d1, d2, d3);
    assert g / 4096 == d0 * 64 + d1;
    assert g / 64 == (d0 * 64 + d1) * 64 + d2;
  }

  /** Sums are taken modulo 256, as the assignment to `uint8_t` does. */
  function FromA4ToA3(a4: seq<Byte>): (a3: seq<Byte>)
    requires |a4| == 4
    ensures |a3| == 3
  {
    var (v0: int, v1: int, v2: int, v3: int) := (a4[0], a4[1], a4[2], a4[3]);
    [(v0 * 4 + v1 % 64 / 16) % 256,
     (v1 % 16 * 16 + v2 % 64 / 4) % 256,
     (v2 % 4 * 64 + v3) % 256]
  }

  function LookupTable(c: Byte): (v: Byte)
    ensures v == INVALID || v < 64
    ensures v == INVALID <==> forall k :: 0 <= k < 64 ==> Symbol(k) != c
    ensures v != INVALID ==> Symbol(v) == c
  {
    var v: Byte :=
      if 65 <= c <= 90 then c - 65
      else if 97 <= c <= 122 then c - 97 + 26
      else if 48 <= c <= 57 then c - 48 + 52
      else if c == 43 then 62
      else if c == 47 then 63
      else INVALID;
    assert v != INVALID ==> Symbol(v) == c;
    v
  }

  lemma LookupOfSymbol(v: int)
    requires 0 <= v < 64
    ensures LookupTable(Symbol(v)) == v
  {
  }

  lemma LetterCodes(v: int)
    requires 0 <= v < 26
    ensures UPPER[v] as int == 65 + v && LOWER[v] as int == 97 + v
  {
    assert v == 0 || v == 1 || v == 2 || v == 3 || v == 4 || v == 5 || v == 6 || v == 7 || v == 8 || v == 9 || v == 10
        || v == 11 || v == 12 || v == 13 || v == 14 || v == 15 || v == 16 || v == 17 || v == 18 || v == 19 || v == 20
           || v == 21
        || v == 22 || v == 23 || v == 24 || v == 25;
  }

  lemma DigitCodes(v: int)
    requires 0 <= v < 12
    ensures DIGITS[v] as int == (if v < 10 then 48 + v else if v == 10 then 43 else 47)
  {
    assert v == 0 || v == 1 || v == 2 || v == 3 || v == 4 || v == 5 || v == 6 || v == 7 || v == 8 || v == 9 || v == 10
        || v == 11;
  }

  /** The alphabet literals of the source are the RFC's table. */
  lemma AlphabetIsSymbol(v: int)
    requires 0 <= v < 64
    ensures ALPHABET[v] as int == Symbol(v)
  {
    if v < 26 {
      LetterCodes(v);
    } else if v < 52 {
      LetterCodes(v - 26);
    } else {
      DigitCodes(v - 52);
    }
  }

  lemma BlockInverts(a3: seq<Byte>)
    requires |a3| == 3
    ensures FromA4ToA3(FromA3ToA4(a3)) == a3
  {
    hide Group, Digits;
    SplitDigit(a3[0] % 4, a3[1] / 16, 16);
    SplitDigit(a3[1] % 16, a3[2] / 64, 4);
  }

  lemma SplitDigit(high: int, low: int, k: int)
    requires (k == 16 && 0 <= high < 4) || (k == 4 && 0 <= high < 16)
    requires 0 <= low < k
    ensures (high * k + low) % k == low && (high * k + low) % 64 / k == high
  {
  }

  // ---------------------------------------------------------------- lengths

  /** `encodedLength`: 32-bit arithmetic written out. */
  function EncodedLength(plainLength: nat): (r: nat)
    ensures plainLength + 2 < TWO_32 && (plainLength + 2) / 3 * 4 < TWO_32 ==> r == (plainLength + 2) / 3 * 4
  {
    var p := (plainLength + 2) % TWO_32;
    WholeGroups(p);
    (p - p % 3) / 3 * 4 % TWO_32
  }

  lemma WholeGroups(p: nat) ensures (p - p % 3) / 3 == p / 3 {}

  function TrailingPads(text: seq<Byte>): (n: nat)
    ensures n <= |text|
    ensures forall k :: |text| - n <= k < |text| ==> text[k] == PAD
    ensures n < |text| ==> text[|text| - n - 1] != PAD
  {
    if |text| == 0 || text[|text| - 1] != PAD then 0 else 1 + TrailingPads(text[..|text| - 1])
  }

  /** `decodedLength`: 32-bit arithmetic written out, so more padding than data wraps. */
  function DecodedLength(text: seq<Byte>): (r: nat)
  {
    (6 * |text| % TWO_32 / 8 - TrailingPads(text)) % TWO_32
  }

  // ---------------------------------------------------------------- decoding, as a function

  function UpToPad(text: seq<Byte>): (t: seq<Byte>)
    ensures |t| <= |text| && t == text[..|t|] && PAD !in t
    ensures |t| < |text| ==> text[|t|] == PAD
  {
    if |text| == 0 || text[0] == PAD then [] else [text[0]] + UpToPad(text[1..])
  }

  /** What `processFullBlock` appends: nothing at all when a character is outside the alphabet. */
  function FullBlock(a4: seq<Byte>): (r: Option<seq<Byte>>)
    requires |a4| == 4
    ensures r.Some? ==> |r.value| == 3
  {
    var v := [LookupTable(a4[0]), LookupTable(a4[1]), LookupTable(a4[2]), LookupTable(a4[3])];
    if INVALID in v then None else Some(FromA4ToA3(v))
  }

  /** `processPartialBlock` leaves a zero value alone instead of looking it up. */
  function PartialLookup(c: Byte): (v: Byte) {
    if c != 0 then LookupTable(c) else 0
  }

  function PartialBlock(tail: seq<Byte>): (r: Option<seq<Byte>>)
    requires 0 < |tail| < 4
    ensures r.Some? ==> |r.value| == |tail| - 1
  {
    var a4 := tail + [0, 0, 0][..4 - |tail|];
    var v := [PartialLookup(a4[0]), PartialLookup(a4[1]), PartialLookup(a4[2]), PartialLookup(a4[3])];
    if INVALID in v then None else Some(FromA4ToA3(v)[..|tail| - 1])
  }

  function Prepend(head: seq<Byte>, tail: Option<seq<Byte>>): Option<seq<Byte>> {
    match tail case None => None case Some(t) => Some(head + t)
  }

  /** The bytes the characters in front of the padding stand for. */
  function DecodeChars(t: seq<Byte>): (r: Option<seq<Byte>>)
    ensures r.Some? ==> |r.value| == |t| / 4 * 3 + (if |t| % 4 == 0 then 0 else |t| % 4 - 1)
  {
    if |t| == 0 then Some([])
    else if |t| < 4 then PartialBlock(t)
    else match FullBlock(t[..4])
      case None => None
      case Some(bytes) => Prepend(bytes, DecodeChars(t[4..]))
  }

  /** What `decodeBase64` leaves in a buffer of `outputLength` bytes; an error is the empty result. */
  function Decode(text: seq<Byte>, outputLength: nat): (r: seq<Byte>)
    ensures |r| < outputLength || r == []
  {
    if outputLength < DecodedLength(text) then []
    else match DecodeChars(UpToPad(text))
      case None => []
      case Some(bytes) => if |bytes| >= outputLength then [] else bytes
  }

  // ---------------------------------------------------------------- what is no Base64

  /** A letter, a digit, `+` or `/`. */
  predicate InAlphabet(c: Byte) { 65 <= c <= 90 || 97 <= c <= 122 || 48 <= c <= 57 || c == 43 || c == 47 }

  /** The exception: a NUL counts as an `A` behind the last full block. */
  predicate Passes(t: seq<Byte>, i: nat)
    requires i < |t|
  {
    InAlphabet(t[i]) || (t[i] == 0 && i >= |t| / 4 * 4)
  }

  lemma LookupFails(c: Byte)
    ensures LookupTable(c) == INVALID <==> !InAlphabet(c)
    ensures PartialLookup(c) == INVALID <==> !InAlphabet(c) && c != 0
  {}

  lemma FullBlockIff(a4: seq<Byte>)
    requires |a4| == 4
    ensures FullBlock(a4).Some? <==> InAlphabet(a4[0]) && InAlphabet(a4[1]) && InAlphabet(a4[2]) && InAlphabet(a4[3])
  {
    hide LookupTable, FromA4ToA3, InAlphabet;
    LookupFails(a4[0]);
    LookupFails(a4[1]);
    LookupFails(a4[2]);
    LookupFails(a4[3]);
  }

  lemma PartialBlockIff(t: seq<Byte>)
    requires 0 < |t| < 4
    ensures PartialBlock(t).Some? <==> forall i :: 0 <= i < |t| ==> Passes(t, i)
  {
    hide PartialLookup, FromA4ToA3, InAlphabet;
    var a4 := t + [0, 0, 0][..4 - |t|];
    LookupFails(a4[0]);
    LookupFails(a4[1]);
    LookupFails(a4[2]);
    LookupFails(a4[3]);
    assert forall i :: 0 <= i < |t| ==> a4[i] == t[i] && (Passes(t, i) <==> InAlphabet(a4[i]) || a4[i] == 0);
  }

  lemma PassesBehind(t: seq<Byte>, i: nat)
    requires 4 <= i < |t|
    ensures Passes(t, i) <==> Passes(t[4..], i - 4)
  {
    hide InAlphabet;
    assert |t| / 4 * 4 == (|t| - 4) / 4 * 4 + 4;
  }

  /** Characters are decoded exactly if every one of them is of the alphabet, or a NUL behind the last full
      block. */
  lemma {:induction false} DecodesIff(t: seq<Byte>)
    ensures DecodeChars(t).Some? <==> forall i :: 0 <= i < |t| ==> Passes(t, i)
    decreases |t|
  {
    hide InAlphabet, FullBlock, PartialBlock, Passes;
    if 0 < |t| < 4 {
      PartialBlockIff(t);
    } else if |t| >= 4 {
      FullBlockIff(t[..4]);
      DecodesIff(t[4..]);
      forall i | 0 <= i < 4 ensures Passes(t, i) <==> InAlphabet(t[i]) { PassesInFront(t, i); }
      forall i | 4 <= i < |t| ensures Passes(t, i) <==> Passes(t[4..], i - 4) { PassesBehind(t, i); }
      assert forall j :: 0 <= j < |t[4..]| ==> (Passes(t[4..], j) <==> Passes(t, j + 4));
    }
  }

  lemma PassesInFront(t: seq<Byte>, i: nat)
    requires i < 4 <= |t|
    ensures Passes(t, i) <==> InAlphabet(t[i])
  {
    hide InAlphabet;
  }

  // ---------------------------------------------------------------- the loops

  /** The inner loops of `encodeBase64` that store the first `count` characters of a block. */
  method StoreSymbols(a4: seq<Byte>, count: nat, output: array<Byte>, start: nat) returns (len: nat)
    requires |a4| == 4 && count <= 4 && start + count <= output.Length
    requires forall k :: 0 <= k < 4 ==> a4[k] < 64
    modifies output
    ensures len == start + count
    ensures forall j :: 0 <= j < count ==> output[start + j] == Symbol(a4[j])
    ensures output[..start] == old(output[..start])
  {
    len := start;
    var i := 0;
    while i < count
      invariant 0 <= i <= count && len == start + i
      invariant output[..start] == old(output[..start])
      invariant forall j :: 0 <= j < i ==> output[start + j] == Symbol(a4[j])
    {
      AlphabetIsSymbol(a4[i]);
      output[len] := ALPHABET[a4[i]] as int;
      i, len := i + 1, len + 1;
    }
  }

  /** The closing block of `encodeBase64`, for the one or two bytes that are left. */
  method StoreLastBlock(tail: seq<Byte>, output: array<Byte>, start: nat) returns (len: nat)
    requires 0 < |tail| < 3 && start + 4 <= output.Length
    modifies output
    ensures len == start + 4
    ensures output[..len] == old(output[..start]) + Encode(tail)
  {
    hide *;
    var a3 := Filled(tail);
    var a4 := FromA3ToA4(a3);
    SymbolsAreGroupText(a3);
    ghost var before, text := output[..start], GroupText(a3);
    len := StoreSymbols(a4, |tail| + 1, output, start);
    assert output[..len] == before + text[..|tail| + 1] + Pads(0);
    var i := |tail|;
    while i < 3
      invariant |tail| <= i <= 3 && len == start + 1 + i
      invariant output[..len] == before + text[..|tail| + 1] + Pads(i - |tail|)
    {
      assert Pads(i + 1 - |tail|) == Pads(i - |tail|) + [PAD];
      output[len] := PAD;
      i, len := i + 1, len + 1;
    }
    EncodeShort(tail);
    Associative(before, text[..|tail| + 1], Pads(3 - |tail|));
  }

  lemma EncodeShort(tail: seq<Byte>)
    requires 0 < |tail| < 3
    ensures Encode(tail) == GroupText(Filled(tail))[..|tail| + 1] + Pads(3 - |tail|)
  {
  }

  function Symbols(a4: seq<Byte>): (r: seq<Byte>)
    requires |a4| == 4 && forall k :: 0 <= k < 4 ==> a4[k] < 64
    ensures |r| == 4 && forall k :: 0 <= k < 4 ==> r[k] == Symbol(a4[k])
  {
    [Symbol(a4[0]), Symbol(a4[1]), Symbol(a4[2]), Symbol(a4[3])]
  }

  /** The block helper and the table give the RFC's four characters. */
  lemma SymbolsAreGroupText(a3: seq<Byte>)
    requires |a3| == 3
    ensures Symbols(FromA3ToA4(a3)) == GroupText(a3)
  {
    hide Digit, Symbol, FromA3ToA4;
    FromA3ToA4IsDigits(a3, 0);
    FromA3ToA4IsDigits(a3, 1);
    FromA3ToA4IsDigits(a3, 2);
    FromA3ToA4IsDigits(a3, 3);
  }

  lemma EncodeStep(input: seq<Byte>, k: nat, done: seq<Byte>)
    requires k + 3 <= |input|
    requires done + Encode(input[k..]) == Encode(input)
    ensures (done + GroupText(input[k..k + 3])) + Encode(input[k + 3..]) == Encode(input)
  {
    hide GroupText;
    var rest := input[k..];
    assert rest[..3] == input[k..k + 3] && rest[3..] == input[k + 3..];
    Associative(done, GroupText(rest[..3]), Encode(rest[3..]));
  }

  /** A full group of three bytes becomes four characters. */
  method StoreGroup(a3: seq<Byte>, output: array<Byte>, start: nat) returns (len: nat)
    requires |a3| == 3 && start + 4 <= output.Length
    modifies output
    ensures len == start + 4 && output[..len] == old(output[..start]) + GroupText(a3)
  {
    hide *;
    var a4 := FromA3ToA4(a3);
    SymbolsAreGroupText(a3);
    len := StoreSymbols(a4, 4, output, start);
    assert output[..len] == old(output[..start]) + Symbols(a4);
  }

  /** The loop of `encodeBase64` and its closing block. */
  method EncodeLoop(input: seq<Byte>, output: array<Byte>) returns (len: nat)
    requires output.Length >= |Encode(input)|
    modifies output
    ensures len == |Encode(input)| && output[..len] == Encode(input)
  {
    hide *;
    var i, k := 0, 0;
    len := 0;
    var a3: seq<Byte> := [0, 0, 0];
    assert input[0..] == input && output[..0] + Encode(input) == Encode(input);
    while k < |input|
      invariant 0 <= i < 3 && i <= k <= |input| && |a3| == 3
      invariant a3[..i] == input[k - i..k]
      invariant len <= output.Length && output[..len] + Encode(input[k - i..]) == Encode(input)
    {
      PushByte(a3, i, input, k);
      a3 := a3[i := input[k]];
      i, k := i + 1, k + 1;
      if i == 3 {
        assert a3 == input[k - 3..k];
        EncodeStep(input, k - 3, output[..len]);
        len := StoreGroup(a3, output, len);
        i := 0;
      }
    }
    assert input[k - i..] == a3[..i];
    if i > 0 {
      len := StoreLastBlock(a3[..i], output, len);
    }
  }

  /** `encodeBase64`. The result is the standard encoding followed by a terminator, and 0 exactly
      when the buffer has no room for both (or there is nothing to encode). A length whose 32-bit
      announcement wrapped past the first test must still fit. */
  method EncodeBase64(input: seq<Byte>, output: array<Byte>) returns (n: nat)
    requires EncodedLength(|input|) <= output.Length ==> |Encode(input)| <= output.Length
    modifies output
    ensures n == if EncodedLength(|input|) <= output.Length && |Encode(input)| < output.Length
                 then |Encode(input)| else 0
    ensures EncodedLength(|input|) <= output.Length && |Encode(input)| < output.Length
            ==> output[..n] == Encode(input) && output[n] == 0
    ensures output.Length < EncodedLength(|input|) ==> output[..] == old(output[..])
  {
    hide *;
    if output.Length < EncodedLength(|input|) { return 0; }
    var len := EncodeLoop(input, output);
    if len >= output.Length { return 0; }
    output[len] := 0;
    assert output[..len] == Encode(input);
    n := len;
  }

  lemma PushByte(block: seq<Byte>, i: nat, input: seq<Byte>, k: nat)
    requires i < |block| && i <= k < |input| && block[..i] == input[k - i..k]
    ensures block[i := input[k]][..i + 1] == input[k - i..k + 1]
  {
    assert block[i := input[k]][..i + 1] == block[..i] + [input[k]];
  }

  lemma DecodeStep(t: seq<Byte>, k: nat, done: seq<Byte>)
    requires k + 4 <= |t|
    requires DecodeChars(t) == Prepend(done, DecodeChars(t[k..]))
    ensures FullBlock(t[k..k + 4]).None? ==> DecodeChars(t).None?
    ensures FullBlock(t[k..k + 4]).Some? ==>
              DecodeChars(t) == Prepend(done + FullBlock(t[k..k + 4]).value, DecodeChars(t[k + 4..]))
  {
    hide FullBlock;
    var rest := t[k..];
    assert rest[..4] == t[k..k + 4] && rest[4..] == t[k + 4..];
    if FullBlock(t[k..k + 4]).Some? && DecodeChars(t[k + 4..]).Some? {
      Associative(done, FullBlock(t[k..k + 4]).value, DecodeChars(t[k + 4..]).value);
    }
  }

  /** How many bytes the blocks of a text of this length can stand for. */
  function BlockBytes(n: nat): nat { n / 4 * 3 + (if n % 4 == 0 then 0 else n % 4 - 1) }

  /** The loop of `decodeBase64` and its closing partial block; -1 stands for `return 0` on a
      character outside the alphabet. */
  method DecodeLoop(input: seq<Byte>, output: array<Byte>) returns (len: int)
    requires BlockBytes(|input|) <= output.Length
    modifies output
    ensures len < 0 ==> DecodeChars(UpToPad(input)).None?
    ensures len >= 0 ==> len <= output.Length && DecodeChars(UpToPad(input)) == Some(output[..len])
  {
    hide *;
    ghost var t := UpToPad(input);
    ghost var blocks := 0;
    var i, k := 0, 0;
    len := 0;
    var a4: seq<Byte> := [0, 0, 0, 0];
    assert t[0..] == t && DecodeChars(t) == Prepend(output[..0], DecodeChars(t)) by { PrependNothing(DecodeChars(t)); }
    while k < |input|
      invariant 0 <= i < 4 && 0 <= blocks && k == 4 * blocks + i <= |t| && len == 3 * blocks <= output.Length
                && |a4| == 4
      invariant a4[..i] == t[k - i..k]
      invariant DecodeChars(t) == Prepend(output[..len], DecodeChars(t[k - i..]))
    {
      if input[k] == PAD { break; }
      PushByte(a4, i, t, k);
      a4 := a4[i := input[k]];
      i, k := i + 1, k + 1;
      if i == 4 {
        assert a4 == t[k - 4..k];
        DecodeStep(t, k - 4, output[..len]);
        BlocksFit(|input|, blocks + 1, 0);
        var block := FullBlock(a4);
        if block.None? { return -1; }
        len := StoreTail(block.value, output, len);
        i, blocks := 0, blocks + 1;
      }
    }
    assert t[k - i..] == a4[..i];
    BlocksFit(|input|, blocks, i);
    len := DecodeLast(a4[..i], output, len);
  }

  lemma BlocksFit(n: nat, blocks: nat, i: nat)
    requires 4 * blocks + i <= n && i < 4
    ensures 3 * blocks + (if i == 0 then 0 else i - 1) <= BlockBytes(n)
  {}

  /** The closing partial block of `decodeBase64`. */
  method DecodeLast(tail: seq<Byte>, output: array<Byte>, start: nat) returns (len: int)
    requires |tail| < 4 && start + (if |tail| == 0 then 0 else |tail| - 1) <= output.Length
    modifies output
    ensures len < 0 ==> Prepend(old(output[..start]), DecodeChars(tail)).None?
    ensures len >= 0 ==> len <= output.Length && Prepend(old(output[..start]), DecodeChars(tail)) == Some(output[..len])
  {
    hide *;
    DecodeTail(output[..start], tail);
    if |tail| == 0 { return start; }
    var block := PartialBlock(tail);
    if block.None? { return -1; }
    len := StoreTail(block.value, output, start);
  }

  lemma PrependNothing(r: Option<seq<Byte>>)
    ensures Prepend([], r) == r
  {
    if r.Some? { assert [] + r.value == r.value; }
  }

  lemma DecodeTail(done: seq<Byte>, tail: seq<Byte>)
    requires |tail| < 4
    ensures |tail| == 0 ==> Prepend(done, DecodeChars(tail)) == Some(done)
    ensures |tail| > 0 && PartialBlock(tail).None? ==> Prepend(done, DecodeChars(tail)) == None
    ensures |tail| > 0 && PartialBlock(tail).Some? ==>
              Prepend(done, DecodeChars(tail)) == Some(done + PartialBlock(tail).value)
  {
    assert done + [] == done;
  }

  method StoreTail(bytes: seq<Byte>, output: array<Byte>, start: nat) returns (len: nat)
    requires start + |bytes| <= output.Length
    modifies output
    ensures len == start + |bytes|
    ensures output[..len] == old(output[..start]) + bytes
  {
    len := start;
    var j := 0;
    while j < |bytes|
      invariant 0 <= j <= |bytes| && len == start + j
      invariant output[..len] == old(output[..start]) + bytes[..j]
    {
      output[len] := bytes[j];
      j, len := j + 1, len + 1;
    }
  }

  /** `decodeBase64`. `outputLength` is the length the caller claims; the array itself must hold
      what all the characters stand for, because the loop stores each block before the closing length
      check. */
  method DecodeBase64(input: seq<Byte>, output: array<Byte>, outputLength: nat) returns (n: nat)
    requires outputLength <= output.Length && BlockBytes(|input|) <= output.Length
    modifies output
    ensures n == |Decode(input, outputLength)|
    ensures output[..n] == Decode(input, outputLength)
    ensures n > 0 ==> output[n] == 0
  {
    if outputLength < DecodedLength(input) { return 0; }
    var len := DecodeLoop(input, output);
    if len < 0 || len >= outputLength { return 0; }
    output[len] := 0;
    assert DecodeChars(UpToPad(input)) == Some(output[..len]);
    n := len;
  }

  // ---------------------------------------------------------------- round trip

  lemma GroupTextDecodes(a3: seq<Byte>)
    requires |a3| == 3
    ensures FullBlock(GroupText(a3)) == Some(a3)
  {
    hide FromA3ToA4, FromA4ToA3, Symbol, LookupTable, GroupText;
    var a4 := FromA3ToA4(a3);
    var text := Symbols(a4);
    SymbolsAreGroupText(a3);
    forall k | 0 <= k < 4 ensures LookupTable(text[k]) == a4[k] {
      LookupOfSymbol(a4[k]);
    }
    assert [LookupTable(text[0]), LookupTable(text[1]), LookupTable(text[2]), LookupTable(text[3])] == a4;
    BlockInverts(a3);
  }

  /** One or two bytes: the characters in front of the padding decode to just them. */
  lemma PartialDecodes(tail: seq<Byte>)
    requires 0 < |tail| < 3
    ensures PartialBlock(GroupText(Filled(tail))[..|tail| + 1]) == Some(tail)
  {
    hide FromA3ToA4, FromA4ToA3, Symbol, LookupTable, GroupText;
    var a3 := Filled(tail);
    var a4 := FromA3ToA4(a3);
    var text := Symbols(a4);
    SymbolsAreGroupText(a3);
    ZeroTail(a3);
    LookupOfSymbol(a4[0]);
    LookupOfSymbol(a4[1]);
    LookupOfSymbol(a4[2]);
    var t := text[..|tail| + 1];
    var c := t + [0, 0, 0][..4 - |t|];
    assert [PartialLookup(c[0]), PartialLookup(c[1]), PartialLookup(c[2]), PartialLookup(c[3])] == a4;
    BlockInverts(a3);
  }

  lemma ZeroTail(a3: seq<Byte>)
    requires |a3| == 3 && a3[2] == 0
    ensures FromA3ToA4(a3)[3] == 0 && (a3[1] == 0 ==> FromA3ToA4(a3)[2] == 0)
  {
  }

  lemma {:induction false} PadsOf(head: seq<Byte>, n: nat)
    requires PAD !in head
    ensures TrailingPads(head + Pads(n)) == n
  {
    var text := head + Pads(n);
    if n > 0 {
      PadsOf(head, n - 1);
      assert text[..|text| - 1] == head + Pads(n - 1);
    }
  }

  /** The characters in front of the padding decode back to the data, whatever its length. */
  lemma {:induction false} DecodeCharsOfEncode(data: seq<Byte>)
    ensures DecodeChars(UpToPad(Encode(data))) == Some(data)
    ensures TrailingPads(Encode(data)) == (3 - |data| % 3) % 3
  {
    hide *;
    if |data| == 0 {
      EmptyRoundTrip();
    } else if |data| < 3 {
      ShortRoundTrip(data);
    } else {
      assert |data[3..]| % 3 == |data| % 3;
      DecodeCharsOfEncode(data[3..]);
      GroupRoundTrip(data);
    }
  }

  lemma EmptyRoundTrip()
    ensures DecodeChars(UpToPad(Encode([]))) == Some([])
    ensures TrailingPads(Encode([])) == 0
  {
  }

  lemma ShortRoundTrip(data: seq<Byte>)
    requires 0 < |data| < 3
    ensures DecodeChars(UpToPad(Encode(data))) == Some(data)
    ensures TrailingPads(Encode(data)) == 3 - |data|
  {
    hide GroupText, Filled, UpToPad, TrailingPads, PartialBlock;
    var t := GroupText(Filled(data))[..|data| + 1];
    UpToPadOf(t, Pads(3 - |data|));
    PadsOf(t, 3 - |data|);
    PartialDecodes(data);
  }

  lemma GroupRoundTrip(data: seq<Byte>)
    requires |data| >= 3
    requires DecodeChars(UpToPad(Encode(data[3..]))) == Some(data[3..])
    ensures DecodeChars(UpToPad(Encode(data))) == Some(data)
    ensures TrailingPads(Encode(data)) == TrailingPads(Encode(data[3..]))
  {
    hide *;
    GroupUnfold(data);
    TrailingPadsAppend(GroupText(data[..3]), Encode(data[3..]));
    GroupDecodes(data[..3], Encode(data[3..]), data[3..]);
    assert data == data[..3] + data[3..];
  }

  /** A full group in front of a text that decodes. */
  lemma GroupDecodes(a3: seq<Byte>, rest: seq<Byte>, bytes: seq<Byte>)
    requires |a3| == 3 && DecodeChars(UpToPad(rest)) == Some(bytes)
    ensures DecodeChars(UpToPad(GroupText(a3) + rest)) == Some(a3 + bytes)
  {
    hide *;
    var head := GroupText(a3);
    GroupTextDecodes(a3);
    UpToPadAppend(head, rest);
    var t := UpToPad(head + rest);
    assert t[..4] == head && t[4..] == UpToPad(rest);
    BlockUnfold(t);
  }

  lemma GroupUnfold(data: seq<Byte>)
    requires |data| >= 3
    ensures Encode(data) == GroupText(data[..3]) + Encode(data[3..])
  {
    hide GroupText;
  }

  lemma BlockUnfold(t: seq<Byte>)
    requires |t| >= 4
    ensures FullBlock(t[..4]).Some? ==> DecodeChars(t) == Prepend(FullBlock(t[..4]).value, DecodeChars(t[4..]))
    ensures forall x, y :: Prepend(x, Some(y)) == Some(x + y)
  {
    hide FullBlock;
  }

  lemma {:induction false} UpToPadAppend(head: seq<Byte>, rest: seq<Byte>)
    requires PAD !in head
    ensures UpToPad(head + rest) == head + UpToPad(rest)
  {
    if |head| == 0 {
      assert head + rest == rest;
    } else {
      UpToPadAppend(head[1..], rest);
      assert (head + rest)[1..] == head[1..] + rest;
    }
  }

  lemma UpToPadOf(head: seq<Byte>, rest: seq<Byte>)
    requires PAD !in head && (rest == [] || rest[0] == PAD)
    ensures UpToPad(head + rest) == head
  {
    UpToPadAppend(head, rest);
  }

  lemma {:induction false} TrailingPadsAppend(head: seq<Byte>, rest: seq<Byte>)
    requires PAD !in head
    ensures TrailingPads(head + rest) == TrailingPads(rest)
  {
    if |rest| == 0 {
      assert head + rest == head;
    } else {
      TrailingPadsAppend(head, rest[..|rest| - 1]);
      assert (head + rest)[..|head + rest| - 1] == head + rest[..|rest| - 1];
    }
  }

  /** Decoding undoes encoding into every buffer with room for the terminator, for all data whose
      encoding stays below the length at which `6 * inputLength` leaves 32 bits. */
  lemma RoundTrip(data: seq<Byte>, outputLength: nat)
    requires 6 * |Encode(data)| < TWO_32
    ensures DecodedLength(Encode(data)) == |data|
    ensures outputLength > |data| ==> Decode(Encode(data), outputLength) == data
    ensures outputLength <= |data| ==> Decode(Encode(data), outputLength) == []
  {
    hide Encode, DecodeChars, UpToPad, DecodedLength;
    DecodeCharsOfEncode(data);
    DecodedLengthOfEncode(data);
  }

  /** The same for data of every length: it comes back exactly when there is room for it and a
      terminator, and the announced length, whose 32-bit arithmetic may have wrapped, is no larger. */
  lemma RoundTripIff(data: seq<Byte>, outputLength: nat)
    requires data != []
    ensures Decode(Encode(data), outputLength) == data
            <==> |data| < outputLength && DecodedLength(Encode(data)) <= outputLength
  {
    hide Encode, DecodeChars, UpToPad, DecodedLength;
    DecodeCharsOfEncode(data);
  }

  lemma DecodedLengthOfEncode(data: seq<Byte>)
    requires 6 * |Encode(data)| < TWO_32
    ensures DecodedLength(Encode(data)) == |data|
  {
    hide Encode, DecodeChars, UpToPad, TrailingPads;
    DecodeCharsOfEncode(data);
    LengthsAgree(|data|);
    SmallModulo(6 * |Encode(data)|);
    SmallModulo(|data|);
  }

  lemma SmallModulo(x: nat)
    requires x < TWO_32
    ensures x % TWO_32 == x
  {
  }

  lemma LengthsAgree(n: nat)
    ensures 6 * ((n + 2) / 3 * 4) / 8 - (3 - n % 3) % 3 == n
  {
    var q, r := n / 3, n % 3;
    assert n == 3 * q + r;
    assert (n + 2) / 3 == (if r == 0 then q else q + 1);
  }
}
