/** `scripts/mqtt_proxy.py`: cutting a byte stream into MQTT packets and losing the ones asked for. */
module MqttStream {
  import opened Common

  const MAX_REMAINING_LENGTH_BYTES: nat := 4

  // ---------------------------------------------------------------- the length field

  /** Section 2.2.3 of MQTT 3.1.1: seven bits a byte, low ones first, the top bit says "more". */
  function EncodeLength(x: nat): (digits: seq<Byte>)
    ensures |digits| >= 1
    decreases x
  {
    if x < 128 then [x] else [x % 128 + 128] + EncodeLength(x / 128)
  }

  function ValueOf(digits: seq<Byte>): nat {
    if digits == [] then 0 else digits[0] % 128 + 128 * ValueOf(digits[1..])
  }

  /** How many leading bytes say "more". */
  function Continued(b: seq<Byte>): (n: nat)
    ensures n <= |b| && (forall i :: 0 <= i < n ==> b[i] >= 128) && (n < |b| ==> b[n] < 128)
  {
    if b == [] || b[0] < 128 then 0 else 1 + Continued(b[1..])
  }

  // ---------------------------------------------------------------- one packet

  /** What the front of a buffer is: not yet a packet, never one, or one of `total` bytes. */
  datatype Front = NotYet | Malformed | Packet(total: nat)

  function FrontOf(b: seq<Byte>): (f: Front)
    ensures f.Packet? ==> 2 <= f.total <= |b|
  {
    if b == [] then NotYet
    else
      var more := Continued(b[1..]);
      if more >= MAX_REMAINING_LENGTH_BYTES then Malformed
      else if 1 + more >= |b| then NotYet
      else
        var total := 2 + more + ValueOf(b[1..2 + more]);
        if |b| < total then NotYet else Packet(total)
  }

  lemma {:induction false} ValueOfSnoc(digits: seq<Byte>, d: Byte)
    ensures ValueOf(digits + [d]) == ValueOf(digits) + d % 128 * Pow128(|digits|)
  {
    if digits == [] {
      assert digits + [d] == [d];
      assert ValueOf([d]) == d % 128;
    } else {
      ValueOfSnoc(digits[1..], d);
      assert (digits + [d])[1..] == digits[1..] + [d];
      Distribute(ValueOf(digits[1..]), d % 128, Pow128(|digits| - 1));
    }
  }

  lemma Distribute(v: nat, d: nat, p: nat) ensures 128 * (v + d * p) == 128 * v + d * (128 * p) {}

  function Pow128(n: nat): nat { if n == 0 then 1 else 128 * Pow128(n - 1) }

  lemma MoreUntil(b: seq<Byte>, index: nat)
    requires 1 <= index <= |b| && forall i :: 1 <= i < index ==> b[i] >= 128
    ensures Continued(b[1..]) >= index - 1
    ensures index < |b| && b[index] < 128 ==> Continued(b[1..]) == index - 1
  {
    var (c, n) := (b[1..], Continued(b[1..]));
    assert n < |c| ==> c[n] == b[n + 1];
    assert index < |b| ==> c[index - 1] == b[index];
  }

  /** `take_packet`: removes one whole packet from the front of the buffer, or leaves it alone. */
  method TakePacket(buffer: seq<Byte>) returns (front: Front, packet: seq<Byte>, rest: seq<Byte>)
    ensures front == FrontOf(buffer)
    ensures packet + rest == buffer
    ensures packet == if front.Packet? then buffer[..front.total] else []
  {
    if |buffer| < 2 { return NotYet, [], buffer; }
    var index: nat, multiplier: nat, remaining: nat := 1, 1, 0;
    while true
      invariant 1 <= index <= MAX_REMAINING_LENGTH_BYTES && index <= |buffer|
      invariant forall i :: 1 <= i < index ==> buffer[i] >= 128
      invariant multiplier == Pow128(index - 1) && remaining == ValueOf(buffer[1..index])
      decreases |buffer| - index
    {
      if index >= |buffer| {
        MoreUntil(buffer, index);
        return NotYet, [], buffer;
      }
      var digit := buffer[index];
      ValueOfSnoc(buffer[1..index], digit);
      assert buffer[1..index] + [digit] == buffer[1..index + 1];
      remaining := remaining + digit % 128 * multiplier;
      multiplier := multiplier * 128;
      index := index + 1;
      if digit < 128 { break; }
      if index > MAX_REMAINING_LENGTH_BYTES {
        MoreUntil(buffer, index);
        return Malformed, [], buffer;
      }
    }
    MoreUntil(buffer, index - 1);
    var total := index + remaining;
    if |buffer| < total { return NotYet, [], buffer; }
    return Packet(total), buffer[..total], buffer[total..];
  }

  /** What follows cannot change what a packet, or an impossible one, is. */
  lemma FrontIsStable(b: seq<Byte>, more: seq<Byte>)
    requires !FrontOf(b).NotYet?
    ensures FrontOf(b + more) == FrontOf(b)
  {
    var (n, c) := (Continued(b[1..]), b + more);
    forall i | 1 <= i < 1 + n ensures c[i] >= 128 { assert b[1..][i - 1] >= 128; }
    MoreUntil(c, 1 + n);
    if n < MAX_REMAINING_LENGTH_BYTES {
      assert b[1..][n] < 128 && c[1 + n] < 128;
      assert c[1..2 + n] == b[1..2 + n];
    }
  }

  // ---------------------------------------------------------------- the standard's packets

  lemma {:induction false} LengthRoundTrip(x: nat)
    ensures var e := EncodeLength(x); ValueOf(e) == x && Continued(e) == |e| - 1
    decreases x
  {
    var e := EncodeLength(x);
    if x >= 128 {
      LengthRoundTrip(x / 128);
      assert e[1..] == EncodeLength(x / 128);
    } else {
      assert e[1..] == [];
    }
  }

  lemma {:induction false} LengthFits(x: nat, n: nat)
    requires x < Pow128(n) && n >= 1
    ensures |EncodeLength(x)| <= n
    decreases n
  {
    if x >= 128 {
      assert n > 1;
      LengthFits(x / 128, n - 1);
    }
  }

  /** A packet as the standard writes it. */
  function PacketOf(kind: Byte, body: seq<Byte>): seq<Byte> { [kind] + EncodeLength(|body|) + body }

  /** `take_packet` finds exactly the packet, for every body the standard's four bytes can announce. */
  lemma TakesWholePacket(kind: Byte, body: seq<Byte>, more: seq<Byte>)
    requires |body| < Pow128(4)
    ensures FrontOf(PacketOf(kind, body) + more) == Packet(|PacketOf(kind, body)|)
    ensures (PacketOf(kind, body) + more)[..|PacketOf(kind, body)|] == PacketOf(kind, body)
  {
    var (e, p) := (EncodeLength(|body|), PacketOf(kind, body));
    LengthRoundTrip(|body|);
    LengthFits(|body|, 4);
    forall i | 1 <= i < |e| ensures p[i] >= 128 { assert p[i] == e[i - 1]; }
    assert p[|e|] == e[|e| - 1];
    MoreUntil(p, |e|);
    assert p[1..1 + |e|] == e;
    FrontIsStable(p, more);
  }

  /** And waits for it as long as any of it is missing. */
  lemma WaitsForWholePacket(kind: Byte, body: seq<Byte>, n: nat)
    requires |body| < Pow128(4) && n < |PacketOf(kind, body)|
    ensures FrontOf(PacketOf(kind, body)[..n]).NotYet?
  {
    var p := PacketOf(kind, body);
    TakesWholePacket(kind, body, []);
    assert p + [] == p && p[..n] + p[n..] == p;
    if !FrontOf(p[..n]).NotYet? { FrontIsStable(p[..n], p[n..]); }
  }

  /** Malformed is exactly a length whose first four bytes all announce another. */
  lemma MalformedIff(b: seq<Byte>)
    ensures FrontOf(b).Malformed? <==> |b| >= 5 && forall i :: 1 <= i < 5 ==> b[i] >= 128
  {
    if |b| >= 1 {
      var (c, n) := (b[1..], Continued(b[1..]));
      assert forall i :: 0 <= i < |c| ==> c[i] == b[i + 1];
      if |b| >= 5 && forall i :: 1 <= i < 5 ==> b[i] >= 128 { MoreUntil(b, 5); }
      assert n >= 4 ==> c[0] >= 128 && c[1] >= 128 && c[2] >= 128 && c[3] >= 128;
    }
  }

  // ---------------------------------------------------------------- the stream

  function Packets(stream: seq<Byte>): seq<seq<Byte>>
    decreases |stream|
  {
    var f := FrontOf(stream);
    if f.Packet? then [stream[..f.total]] + Packets(stream[f.total..]) else []
  }

  function Joined(parts: seq<seq<Byte>>): seq<Byte> {
    if parts == [] then [] else parts[0] + Joined(parts[1..])
  }

  /** The packets found are the stream, cut: joined they are a prefix of it. */
  lemma {:induction false} PacketsArePrefix(stream: seq<Byte>)
    ensures Joined(Packets(stream)) <= stream
    decreases |stream|
  {
    var f := FrontOf(stream);
    if f.Packet? {
      PacketsArePrefix(stream[f.total..]);
      assert stream == stream[..f.total] + stream[f.total..];
      assert Packets(stream)[1..] == Packets(stream[f.total..]);
    }
  }

  datatype Sent = Sent(kind: Byte, body: seq<Byte>)

  function Wire(sent: seq<Sent>): seq<Byte> {
    if sent == [] then [] else PacketOf(sent[0].kind, sent[0].body) + Wire(sent[1..])
  }
  function Framed(sent: seq<Sent>): seq<seq<Byte>> {
    if sent == [] then [] else [PacketOf(sent[0].kind, sent[0].body)] + Framed(sent[1..])
  }

  /** A stream of packets the standard allows is cut exactly where they end. */
  lemma {:induction false} FramingUndone(sent: seq<Sent>, tail: seq<Byte>)
    requires forall i :: 0 <= i < |sent| ==> |sent[i].body| < Pow128(4)
    requires FrontOf(tail).NotYet?
    ensures Packets(Wire(sent) + tail) == Framed(sent)
  {
    if sent == [] {
      assert Wire(sent) + tail == tail;
    } else {
      var p := PacketOf(sent[0].kind, sent[0].body);
      var more := Wire(sent[1..]) + tail;
      TakesWholePacket(sent[0].kind, sent[0].body, more);
      assert Wire(sent) + tail == p + more && (p + more)[|p|..] == more;
      FramingUndone(sent[1..], tail);
    }
  }

  // ---------------------------------------------------------------- losing packets

  datatype Sender = Client | Broker
  datatype DropRule = DropRule(sender: Sender, kind: nat, occurrences: Option<set<nat>>)

  /** `packet_name`, by the code it is the name of. */
  function KindOf(packet: seq<Byte>): nat
    requires packet != []
  {
    packet[0] / 16
  }

  predicate ShouldDrop(rules: seq<DropRule>, sender: Sender, kind: nat, occurrence: nat) {
    exists i :: 0 <= i < |rules| && rules[i].sender == sender && rules[i].kind == kind
                && (rules[i].occurrences.None? || occurrence in rules[i].occurrences.value)
  }

  ghost predicate AllNonEmpty(packets: seq<seq<Byte>>) { forall i :: 0 <= i < |packets| ==> packets[i] != [] }

  /** How many packets of a kind there are. */
  ghost function Occurrences(packets: seq<seq<Byte>>, kind: nat): nat
    requires AllNonEmpty(packets)
  {
    if packets == [] then 0
    else Occurrences(packets[..|packets| - 1], kind) + (if KindOf(packets[|packets| - 1]) == kind then 1 else 0)
  }

  /** What a drop rule counts and when; `due(i)` says whether packet `i` comes late enough. */
  ghost predicate Dropped(packets: seq<seq<Byte>>, i: nat, rules: seq<DropRule>, sender: Sender, due: nat -> bool)
    requires i < |packets| && AllNonEmpty(packets)
  {
    due(i) && ShouldDrop(rules, sender, KindOf(packets[i]), Occurrences(packets[..i + 1], KindOf(packets[i])))
  }

  ghost function Undropped(packets: seq<seq<Byte>>, rules: seq<DropRule>, sender: Sender,
                           due: nat -> bool): seq<seq<Byte>>
    requires AllNonEmpty(packets)
  {
    if packets == [] then []
    else
      var i := |packets| - 1;
      Undropped(packets[..i], rules, sender, due)
      + (if Dropped(packets, i, rules, sender, due) then [] else [packets[i]])
  }

  /** How many of each packet type each sender has produced on one connection. */
  class Counters {
    var seen: map<(Sender, nat), nat>

    constructor ()
      ensures seen == map[]
    {
      seen := map[];
    }

    function Get(key: (Sender, nat)): nat reads this { if key in seen then seen[key] else 0 }

    /** What has been counted for the other sender. */
    ghost function Others(sender: Sender): map<(Sender, nat), nat> reads this {
      map key | key in seen && key.0 != sender :: seen[key]
    }

    /** The counts of one sender are those of its packets. */
    ghost predicate Matches(sender: Sender, packets: seq<seq<Byte>>)
      requires AllNonEmpty(packets)
      reads this
    {
      forall k :: Get((sender, k)) == Occurrences(packets, k)
    }

    method Count(key: (Sender, nat)) returns (n: nat)
      modifies this
      ensures n == old(Get(key)) + 1
      ensures seen == old(seen)[key := n]
    {
      n := Get(key) + 1;
      seen := seen[key := n];
    }
  }

  /** What arrives before the other end closes: a read of nothing is the end. */
  function Received(chunks: seq<seq<Byte>>): seq<Byte> {
    if chunks == [] || chunks[0] == [] then [] else chunks[0] + Received(chunks[1..])
  }

  /** A packet at the front of the buffer is the next packet of the stream. */
  lemma FrontIsNext(buffer: seq<Byte>, more: seq<Byte>)
    requires FrontOf(buffer).Packet?
    ensures var t := FrontOf(buffer).total; Packets(buffer + more) == [buffer[..t]] + Packets(buffer[t..] + more)
  {
    hide FrontOf;
    FrontIsStable(buffer, more);
    var t := FrontOf(buffer).total;
    assert (buffer + more)[..t] == buffer[..t] && (buffer + more)[t..] == buffer[t..] + more;
  }

  lemma NoneAtFront(buffer: seq<Byte>, more: seq<Byte>)
    requires FrontOf(buffer).Malformed? || (FrontOf(buffer).NotYet? && more == [])
    ensures Packets(buffer + more) == []
  {
    hide FrontOf;
    if FrontOf(buffer).Malformed? { FrontIsStable(buffer, more); } else { assert buffer + more == buffer; }
  }

  lemma UndroppedSnoc(found: seq<seq<Byte>>, p: seq<Byte>, rules: seq<DropRule>, sender: Sender, due: nat -> bool)
    requires AllNonEmpty(found) && p != []
    ensures AllNonEmpty(found + [p])
    ensures var n := Occurrences(found, KindOf(p)) + 1;
            Undropped(found + [p], rules, sender, due)
            == Undropped(found, rules, sender, due)
               + (if due(|found|) && ShouldDrop(rules, sender, KindOf(p), n) then [] else [p])
    ensures forall kind :: Occurrences(found + [p], kind)
                == Occurrences(found, kind) + (if KindOf(p) == kind then 1 else 0)
  {
    hide ShouldDrop;
    var all := found + [p];
    assert all[..|found|] == found && all[..|found| + 1] == all;
  }

  /** The part of `_pump` that counts one packet and forwards or drops it. */
  method Dispatch(packet: seq<Byte>, ghost found: seq<seq<Byte>>, forwarded: seq<seq<Byte>>, rules: seq<DropRule>,
                  sender: Sender,
                  late: bool, ghost due: nat -> bool, counters: Counters) returns (after: seq<seq<Byte>>)
    requires packet != [] && AllNonEmpty(found) && late == due(|found|)
             && forwarded == Undropped(found, rules, sender, due)
    requires counters.Matches(sender, found)
    modifies counters
    ensures AllNonEmpty(found + [packet]) && after == Undropped(found + [packet], rules, sender, due)
    ensures counters.Matches(sender, found + [packet]) && counters.Others(sender) == old(counters.Others(sender))
  {
    hide ShouldDrop, Undropped, Occurrences;
    UndroppedSnoc(found, packet, rules, sender, due);
    var occurrence := counters.Count((sender, KindOf(packet)));
    var dropped := late && ShouldDrop(rules, sender, KindOf(packet), occurrence);
    after := if dropped then forwarded else forwarded + [packet];
  }

  /** `_pump`: whatever the reads, the packets found are those of the whole stream, and the ones no
      rule drops go on in order. */
  method Pump(chunks: seq<seq<Byte>>, rules: seq<DropRule>, sender: Sender, due: nat -> bool, counters: Counters)
    returns (found: seq<seq<Byte>>, forwarded: seq<seq<Byte>>)
    requires counters.Matches(sender, [])
    modifies counters
    ensures found == Packets(Received(chunks)) && AllNonEmpty(found)
    ensures forwarded == Undropped(found, rules, sender, due)
    ensures counters.Matches(sender, found) && counters.Others(sender) == old(counters.Others(sender))
  {
    hide FrontOf, Undropped, Packets, Counters.Matches, Counters.Others;
    ghost var stream := Received(chunks);
    var buffer: seq<Byte> := [];
    var at := 0;
    found, forwarded := [], [];
    assert Undropped(found, rules, sender, due) == [] by { NothingYet(rules, sender, due); }
    assert chunks[0..] == chunks && buffer + stream == stream;
    while true
      invariant 0 <= at <= |chunks| && AllNonEmpty(found)
      invariant Packets(stream) == found + Packets(buffer + Received(chunks[at..]))
      invariant forwarded == Undropped(found, rules, sender, due)
      invariant counters.Matches(sender, found) && counters.Others(sender) == old(counters.Others(sender))
      decreases |chunks| - at, |buffer|
    {
      var front, packet, rest := TakePacket(buffer);
      if front.Malformed? {
        NoneAtFront(buffer, Received(chunks[at..]));
        return;
      }
      if front.NotYet? {
        if at == |chunks| || chunks[at] == [] {
          NoneAtFront(buffer, Received(chunks[at..]));
          return;
        }
        assert chunks[at..][1..] == chunks[at + 1..];
        assert buffer + Received(chunks[at..]) == (buffer + chunks[at]) + Received(chunks[at + 1..]);
        buffer, at := buffer + chunks[at], at + 1;
        continue;
      }
      FrontIsNext(buffer, Received(chunks[at..]));
      assert rest == buffer[front.total..];
      forwarded := Dispatch(packet, found, forwarded, rules, sender, due(|found|), due, counters);
      found := found + [packet];
      buffer := rest;
    }
  }

  lemma NothingYet(rules: seq<DropRule>, sender: Sender, due: nat -> bool)
    ensures AllNonEmpty([]) && Undropped([], rules, sender, due) == []
  {}

  /** A packet goes missing exactly when it is dropped: each of the others arrives, in its place. */
  lemma {:induction false} UndroppedAt(packets: seq<seq<Byte>>, i: nat, rules: seq<DropRule>, sender: Sender,
                                       due: nat -> bool)
    requires AllNonEmpty(packets) && i < |packets|
    ensures var (u, before) := (Undropped(packets, rules, sender, due), Undropped(packets[..i], rules, sender, due));
            && before <= u
            && (!Dropped(packets, i, rules, sender, due) ==> |before| < |u| && u[|before|] == packets[i])
            && (Dropped(packets, i, rules, sender, due) ==> Undropped(packets[..i + 1], rules, sender, due) == before)
    decreases |packets|
  {
    hide ShouldDrop, Occurrences;
    var n := |packets| - 1;
    if i < n {
      UndroppedAt(packets[..n], i, rules, sender, due);
      assert packets[..n][..i] == packets[..i] && packets[..n][..i + 1] == packets[..i + 1];
    } else {
      assert packets[..n + 1] == packets;
    }
  }

  lemma {:induction false} NoRulesForwardAll(packets: seq<seq<Byte>>, sender: Sender, due: nat -> bool)
    requires AllNonEmpty(packets)
    ensures Undropped(packets, [], sender, due) == packets
  {
    if packets != [] { NoRulesForwardAll(packets[..|packets| - 1], sender, due); }
  }

  lemma {:induction false} PacketsNonEmpty(stream: seq<Byte>)
    ensures AllNonEmpty(Packets(stream))
    decreases |stream|
  {
    hide FrontOf;
    if FrontOf(stream).Packet? { PacketsNonEmpty(stream[FrontOf(stream).total..]); }
  }

  /** With no rule the proxy changes nothing: what goes on is a prefix of what came in, cut short
      only by a packet that is not complete. */
  lemma TransparentWithoutRules(stream: seq<Byte>, sender: Sender, due: nat -> bool)
    ensures AllNonEmpty(Packets(stream)) && Joined(Undropped(Packets(stream), [], sender, due)) <= stream
  {
    hide Packets, Joined;
    PacketsNonEmpty(stream);
    NoRulesForwardAll(Packets(stream), sender, due);
    PacketsArePrefix(stream);
  }

  // ---------------------------------------------------------------- what one rule loses

  /** The first byte's upper half is the packet's type. */
  predicate IsOf(packet: seq<Byte>, kind: nat) { packet != [] && 16 * kind <= packet[0] < 16 * kind + 16 }

  ghost function Those(packets: seq<seq<Byte>>, kind: nat): set<int> {
    set i | 0 <= i < |packets| && IsOf(packets[i], kind)
  }

  /** The counters count the packets of the type. */
  lemma {:induction false} OccurrencesAre(packets: seq<seq<Byte>>, kind: nat)
    requires AllNonEmpty(packets)
    ensures Occurrences(packets, kind) == |Those(packets, kind)|
    decreases |packets|
  {
    if packets == [] {
      assert Those(packets, kind) == {};
    } else {
      var n := |packets| - 1;
      OccurrencesAre(packets[..n], kind);
      assert Those(packets, kind) == Those(packets[..n], kind) + (if IsOf(packets[n], kind) then {n} else {});
    }
  }

  function Always(): nat -> bool { _ => true }

  function NotOf(packets: seq<seq<Byte>>, kind: nat): seq<seq<Byte>> {
    if packets == [] then []
    else NotOf(packets[..|packets| - 1], kind)
         + (if IsOf(packets[|packets| - 1], kind) then [] else [packets[|packets| - 1]])
  }

  /** A rule without numbers loses every packet of its type and no other. */
  lemma {:induction false} TypeRuleLosesType(packets: seq<seq<Byte>>, sender: Sender, kind: nat)
    requires AllNonEmpty(packets)
    ensures Undropped(packets, [DropRule(sender, kind, None)], sender, Always()) == NotOf(packets, kind)
    decreases |packets|
  {
    if packets != [] {
      var rules := [DropRule(sender, kind, None)];
      assert rules[0].sender == sender;
      TypeRuleLosesType(packets[..|packets| - 1], sender, kind);
    }
  }

  /** A rule for the other sender loses nothing. */
  lemma {:induction false} OtherRuleLosesNothing(packets: seq<seq<Byte>>, sender: Sender, rule: DropRule,
                                                 due: nat -> bool)
    requires AllNonEmpty(packets) && rule.sender != sender
    ensures Undropped(packets, [rule], sender, due) == packets
    decreases |packets|
  {
    if packets != [] { OtherRuleLosesNothing(packets[..|packets| - 1], sender, rule, due); }
  }

  /** Whether a rule with one number drops the last packet. */
  lemma NumberedRule(packets: seq<seq<Byte>>, sender: Sender, kind: nat, n: nat)
    requires AllNonEmpty(packets) && packets != []
    ensures var rules := [DropRule(sender, kind, Some({n}))];
            Dropped(packets, |packets| - 1, rules, sender, Always())
            <==> IsOf(packets[|packets| - 1], kind) && Occurrences(packets, kind) == n
  {
    hide Occurrences;
    var rules := [DropRule(sender, kind, Some({n}))];
    assert packets[..|packets| - 1 + 1] == packets && rules[0] == DropRule(sender, kind, Some({n}));
  }

  lemma {:induction false} NothingLostBefore(packets: seq<seq<Byte>>, sender: Sender, kind: nat, n: nat)
    requires AllNonEmpty(packets) && Occurrences(packets, kind) < n
    ensures Undropped(packets, [DropRule(sender, kind, Some({n}))], sender, Always()) == packets
    decreases |packets|
  {
    hide Dropped;
    if packets != [] {
      NumberedRule(packets, sender, kind, n);
      NothingLostBefore(packets[..|packets| - 1], sender, kind, n);
    }
  }

  lemma {:induction false} LosesNth(packets: seq<seq<Byte>>, sender: Sender, kind: nat, i: nat, n: nat)
    requires AllNonEmpty(packets) && i < |packets| && IsOf(packets[i], kind)
    requires n == Occurrences(packets[..i + 1], kind)
    ensures Undropped(packets, [DropRule(sender, kind, Some({n}))], sender, Always()) == Without(packets, i)
    decreases |packets|
  {
    hide Dropped;
    var last := |packets| - 1;
    NumberedRule(packets, sender, kind, n);
    if i == last {
      assert packets[..i + 1] == packets;
      NothingLostBefore(packets[..last], sender, kind, n);
    } else {
      assert packets[..last][..i + 1] == packets[..i + 1];
      LosesNth(packets[..last], sender, kind, i, n);
      OccurrencesGrow(packets[..last], i + 1, kind);
      assert Without(packets, i) == Without(packets[..last], i) + [packets[last]];
    }
  }

  /** A rule with one number loses exactly the packet with that number among those of its type. */
  lemma NumberedRuleLosesOne(packets: seq<seq<Byte>>, sender: Sender, kind: nat, i: nat)
    requires AllNonEmpty(packets) && i < |packets| && IsOf(packets[i], kind)
    ensures var n := |Those(packets[..i + 1], kind)|;
            Undropped(packets, [DropRule(sender, kind, Some({n}))], sender, Always()) == Without(packets, i)
  {
    hide Those, Undropped;
    OccurrencesAre(packets[..i + 1], kind);
    LosesNth(packets, sender, kind, i, |Those(packets[..i + 1], kind)|);
  }

  lemma {:induction false} OccurrencesGrow(packets: seq<seq<Byte>>, i: nat, kind: nat)
    requires AllNonEmpty(packets) && i <= |packets|
    ensures Occurrences(packets[..i], kind) <= Occurrences(packets, kind)
    decreases |packets|
  {
    if i == |packets| {
      assert packets[..i] == packets;
    } else {
      OccurrencesGrow(packets[..|packets| - 1], i, kind);
      assert packets[..|packets| - 1][..i] == packets[..i];
    }
  }
}
