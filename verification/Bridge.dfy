/** The bridge from the virtual network card to the peers (client/tun/bridge.go), and the textual
    form of virtual addresses (protocol/constants.go). Destination forms: section 3.1 of RFC 791,
    section 7 of RFC 919 (limited broadcast), section 4 of RFC 1112 (multicast). */
module Bridge {
  import opened Vip
  import opened RoomServer
  import opened Frames
  import opened Membership
  import opened Options
  import opened PeerView
  import opened Channels
  import Relay

  datatype Route = Drop | Unicast(vip: nat) | Broadcast

  const IPV4_HEADER_SIZE: nat := 20

  /** Two octets as one 16-bit number. */
  function Joined(hi: int, lo: int): int {
    256 * hi + lo
  }

  /** The loop's decision about one packet. */
  function Classify(raw: seq<byte>): Route {
    if |raw| < IPV4_HEADER_SIZE || raw[0] / 16 != 4 then Drop
    else
      var d0, d1, d2, d3 := raw[16], raw[17], raw[18], raw[19];
      if d0 == 255 && d1 == 255 && d2 == 255 && d3 == 255 then Broadcast
      else if d0 == 10 && d1 == 66 && d2 == 255 && d3 == 255 then Broadcast
      else if 224 <= d0 <= 239 then Broadcast
      else if d0 != 10 || d1 != 66 then Drop
      else
        var vip := Joined(d2, d3);
        if vip == 0 then Drop else Unicast(vip)
  }

  /** The destination as one 32-bit number. */
  function Destination(raw: seq<byte>): uint32
    requires |raw| >= IPV4_HEADER_SIZE
  {
    0x1_0000 * Joined(raw[16], raw[17]) + Joined(raw[18], raw[19])
  }

  const NETWORK: int := 10 * 256 + 66 // the upper half of 10.66.0.0/16
  const ALL_HOSTS: int := 0xFFFF

  predicate Ipv4(raw: seq<byte>) {
    |raw| >= IPV4_HEADER_SIZE && raw[0] / 16 == 4
  }

  /** Exactly one outcome, told by the destination alone: limited broadcast, multicast and the
      subnet's all-hosts number are spread, any other number of the subnet but 0 is one peer's, the
      rest is dropped. */
  lemma ClassifyIff(raw: seq<byte>)
    ensures Classify(raw) == Broadcast <==>
            && |raw| >= 20 && raw[0] / 16 == 4
            && var d := Destination(raw); d == 0xFFFF_FFFF || d / 0x1000_0000 == 14 || d == 0x0A42_FFFF
    ensures forall vip: nat :: Classify(raw) == Unicast(vip) <==>
            |raw| >= 20 && raw[0] / 16 == 4 && 0 < vip < 0xFFFF && Destination(raw) == 0x0A42_0000 + vip
  {
    if Ipv4(raw) {
      assert Destination(raw) / 0x1000_0000 == raw[16] / 16;
      assert Destination(raw) % 0x1_0000 == Joined(raw[18], raw[19]);
    }
  }

  /** A packet to the address of an allocated number goes to that number, over any run. */
  lemma AllocatedIsUnicast(ops: seq<Op>, id: PeerId, raw: seq<byte>)
    requires JoinsFindRoom(map[], ops) && id in Run(map[], ops)
    requires Ipv4(raw) && var vip := Run(map[], ops)[id].vip; raw[16..20] == [10, 66, vip / 256, vip % 256]
    ensures Classify(raw) == Unicast(Run(map[], ops)[id].vip)
  {
    var vip := Run(map[], ops)[id].vip;
    RunKeepsUnique(map[], ops);
    var octets := raw[16..20];
    assert raw[16] == octets[0] && raw[17] == octets[1] && raw[18] == octets[2] && raw[19] == octets[3];
    ClassifyIff(raw);
  }

  // ---------------------------------------------------------------- sending

  /** The numbers of the listed peers other than self, in order. */
  function Others(list: seq<PeerInfo>, selfVIP: nat): seq<nat> {
    if |list| == 0 then []
    else
      var before, last := Others(list[..|list| - 1], selfVIP), list[|list| - 1].info.vip;
      if last == selfVIP then before else before + [last]
  }

  /** The numbers the bridge tries to send a packet to. */
  ghost predicate Targets(raw: seq<byte>, peers: Table, selfVIP: nat, targets: seq<nat>) {
    match Classify(raw)
    case Drop => targets == []
    case Unicast(vip) => targets == [vip]
    case Broadcast => exists list :: IsListing(list, peers) && targets == Others(list, selfVIP)
  }

  // One send: the number, the channel used (none for an unknown number), the datagram that went out.
  datatype Attempt = Attempt(vip: nat, via: Option<Relay.Chan>, sent: Option<Relay.Outgoing>)

  function Vips(attempts: seq<Attempt>): (vips: seq<nat>)
    ensures |vips| == |attempts| && forall i :: 0 <= i < |vips| ==> vips[i] == attempts[i].vip
  {
    if |attempts| == 0 then [] else Vips(attempts[..|attempts| - 1]) + [attempts[|attempts| - 1].vip]
  }

  type Slots = map<PeerId, Relay.Chan>

  /** The attempt went over the channel of a peer with that number, framed with that channel's own
      numbers and sent where it leads; and it failed only for want of such a peer. */
  ghost predicate Served(a: Attempt, packet: seq<byte>, server: Endpoint, peers: Table, slots: Slots) {
    match a.via
    case None => a.sent == None && forall id :: id in peers ==> peers[id].vip != a.vip
    case Some(ch) =>
      var l := Relay.LineOf(ch, server);
      && a.sent == Some(Relay.Outgoing(l.hop, Relay.FrameOn(l, Relay.DataKind(l), packet)))
      && exists id :: id in peers && peers[id].vip == a.vip && id in slots && slots[id] == ch
  }

  ghost predicate AllServed(attempts: seq<Attempt>, packet: seq<byte>, server: Endpoint, peers: Table, slots: Slots) {
    forall i :: 0 <= i < |attempts| ==> Served(attempts[i], packet, server, peers, slots)
  }

  ghost predicate Extends(slots: Slots, before: Slots) {
    forall id :: id in before ==> id in slots && slots[id] == before[id]
  }

  lemma OneMoreServed(attempts: seq<Attempt>, a: Attempt, packet: seq<byte>, server: Endpoint, peers: Table,
                      before: Slots, slots: Slots)
    requires AllServed(attempts, packet, server, peers, before) && Extends(slots, before)
    requires Served(a, packet, server, peers, slots)
    ensures AllServed(attempts + [a], packet, server, peers, slots)
    ensures Vips(attempts + [a]) == Vips(attempts) + [a.vip]
  {
    forall i | 0 <= i < |attempts| ensures Served(attempts[i], packet, server, peers, slots) {
      assert Served(attempts[i], packet, server, peers, before);
    }
    assert (attempts + [a])[..|attempts|] == attempts;
  }

  class Bridge {
    const client: Channels.Client

    constructor (client: Channels.Client)
      ensures this.client == client
    {
      this.client := client;
    }

    /** SendToPeer up to the socket. */
    method SendToPeer(vip: nat, raw: seq<byte>) returns (attempt: Attempt)
      requires client.Valid()
      modifies client`channels
      ensures client.Valid() && attempt.vip == vip
      ensures Served(attempt, raw, client.serverAddr, client.peerMgr.peers, client.channels)
      ensures Extends(client.channels, old(client.channels))
    {
      var ch := client.ChannelForVIP(vip);
      if ch == None {
        return Attempt(vip, None, None);
      }
      var sent := Relay.Send(ch.value, client.serverAddr, raw);
      attempt := Attempt(vip, ch, Some(sent));
    }

    /** One packet of the outbound loop. */
    method HandleOutbound(raw: seq<byte>) returns (attempts: seq<Attempt>)
      requires client.Valid()
      modifies client`channels
      ensures client.Valid()
      ensures Targets(raw, client.peerMgr.peers, client.peerMgr.SelfVIP(), Vips(attempts))
      ensures AllServed(attempts, raw, client.serverAddr, client.peerMgr.peers, client.channels)
    {
      if |raw| < 20 {
        return [];
      }
      if raw[0] / 16 != 4 {
        return [];
      }
      var d0, d1, d2, d3 := raw[16], raw[17], raw[18], raw[19];
      if d0 == 255 && d1 == 255 && d2 == 255 && d3 == 255 {
        attempts := BroadcastPacket(raw);
        return;
      }
      if d0 == 10 && d1 == 66 && d2 == 255 && d3 == 255 {
        attempts := BroadcastPacket(raw);
        return;
      }
      if d0 >= 224 && d0 <= 239 {
        attempts := BroadcastPacket(raw);
        return;
      }
      if d0 != 10 || d1 != 66 {
        return [];
      }
      var dstVIP := Joined(d2, d3);
      if dstVIP == 0 {
        return [];
      }
      var attempt := SendToPeer(dstVIP, raw);
      attempts := [attempt];
      assert Vips(attempts) == [dstVIP];
    }

    method BroadcastPacket(raw: seq<byte>) returns (attempts: seq<Attempt>)
      requires client.Valid()
      modifies client`channels
      ensures client.Valid()
      ensures exists list ::
        IsListing(list, client.peerMgr.peers) && Vips(attempts) == Others(list, client.peerMgr.SelfVIP())
      ensures AllServed(attempts, raw, client.serverAddr, client.peerMgr.peers, client.channels)
    {
      var selfVIP := client.peerMgr.SelfVIP();
      var list := client.peerMgr.List();
      attempts := [];
      for i := 0 to |list|
        invariant client.Valid() && Vips(attempts) == Others(list[..i], selfVIP)
        invariant AllServed(attempts, raw, client.serverAddr, client.peerMgr.peers, client.channels)
      {
        var p := list[i];
        assert list[..i + 1][..i] == list[..i];
        if p.info.vip == selfVIP {
          continue;
        }
        ghost var before := client.channels;
        var attempt := SendToPeer(p.info.vip, raw);
        OneMoreServed(attempts, attempt, raw, client.serverAddr, client.peerMgr.peers, before, client.channels);
        attempts := attempts + [attempt];
      }
      assert list[..|list|] == list;
    }
  }

  ghost function Numbers(t: Table): set<nat> {
    set id | id in t :: t[id].vip
  }

  ghost predicate DistinctNumbers(t: Table) {
    forall a, b :: a in t && b in t && a != b ==> t[a].vip != t[b].vip
  }

  /** With distinct numbers a broadcast is one attempt per peer number other than one's own. */
  lemma {:induction false} OthersEnumerate(list: seq<PeerInfo>, t: Table, selfVIP: nat)
    requires IsListing(list, t) && DistinctNumbers(t)
    ensures Enumerates(Others(list, selfVIP), Numbers(t) - {selfVIP})
    decreases |list|
  {
    if |list| == 0 {
      assert forall id :: id in t ==> PeerInfo(id, t[id]) in list;
    } else {
      var init, last := list[..|list| - 1], list[|list| - 1];
      var rest := t - {last.id};
      assert list == init + [last] && last in list;
      forall p ensures p in init <==> p.id in rest && rest[p.id] == p.info {
        assert p in list <==> p in init || p == last;
      }
      OthersEnumerate(init, rest, selfVIP);
      assert t == rest[last.id := last.info];
      forall v ensures v in Numbers(t) <==> v in Numbers(rest) || v == last.info.vip {
        if v == last.info.vip { assert t[last.id].vip == v; }
        if v in Numbers(rest) {
          var id :| id in rest && rest[id].vip == v;
          assert t[id].vip == v;
        }
      }
      assert last.info.vip !in Numbers(rest);
      if last.info.vip != selfVIP {
        EnumeratesMore(Others(init, selfVIP), Numbers(rest) - {selfVIP}, last.info.vip);
        assert Numbers(t) - {selfVIP} == Numbers(rest) - {selfVIP} + {last.info.vip};
      } else {
        assert Numbers(t) - {selfVIP} == Numbers(rest) - {selfVIP};
      }
    }
  }

  /** Over any run of the protocol in which every newcomer finds room, a member with nothing under
      way that broadcasts tries every other member of its room exactly once. */
  lemma BroadcastCoversRoom(net: Network, states: seq<State>, events: seq<Membership.Event>, r: RoomId, me: PeerId,
                            raw: seq<byte>, targets: seq<nat>)
    requires Membership.IsRun(net, states, events) && EveryJoinFindsRoom(states, events)
    requires Classify(raw) == Broadcast
    requires var s := states[|events|];
             && r in s.rooms && me in s.rooms[r] && me in s.clients
             && NoLeave(s.clients[me].up) && s.clients[me].down == []
             && Targets(raw, s.clients[me].view.peers, s.rooms[r][me].vip, targets)
    ensures var m := states[|events|].rooms[r]; Enumerates(targets, Used(m - {me}))
  {
    var s := states[|events|];
    var m, t := s.rooms[r], s.clients[me].view.peers;
    QuietViewIsExact(net, states, events, r, me);
    RunKeepsNumbers(net, states, events);
    var list :| IsListing(list, t) && targets == Others(list, m[me].vip);
    assert t == Public(m) - {me};
    OthersEnumerate(list, t, m[me].vip);
    forall v ensures v in Numbers(t) - {m[me].vip} <==> v in Used(m - {me}) {
      if v in Numbers(t) {
        var id :| id in t && t[id].vip == v;
        assert (m - {me})[id].vip == v;
      }
      if v in Used(m - {me}) {
        var id :| id in m - {me} && (m - {me})[id].vip == v;
        assert t[id].vip == v;
      }
    }
  }

  // ---------------------------------------------------------------- addresses as text

  function Digit(d: int): char
    requires 0 <= d < 10
  {
    (d + '0' as int) as char
  }

  function Decimal(n: nat): string {
    if n < 10 then [Digit(n)] else Decimal(n / 10) + [Digit(n % 10)]
  }

  function VIPToIP(vip: nat): string {
    "10.66.0" + "." + Decimal(vip)
  }

  predicate AllDigits(s: string) {
    forall i :: 0 <= i < |s| ==> '0' <= s[i] <= '9'
  }

  function Value(s: string): nat
    requires AllDigits(s)
  {
    if |s| == 0 then 0 else 10 * Value(s[..|s| - 1]) + (s[|s| - 1] as int - '0' as int)
  }

  /** One octet: decimal digits, no leading zero, at most 255. */
  function ParseOctet(s: string): Option<byte> {
    if |s| == 0 || !AllDigits(s) || (|s| > 1 && s[0] == '0') || Value(s) > 255 then None else Some(Value(s))
  }

  function ExtendLast(fields: seq<string>, tail: string): seq<string>
    requires |fields| > 0
  {
    fields[|fields| - 1 := fields[|fields| - 1] + tail]
  }

  function Split(s: string): (fields: seq<string>)
    ensures |fields| > 0
  {
    if |s| == 0 then [""]
    else
      var before, last := Split(s[..|s| - 1]), s[|s| - 1];
      if last == '.' then before + [""] else ExtendLast(before, [last])
  }

  /** Reading a dotted quad. */
  function ParseIPv4(s: string): Option<seq<byte>> {
    var f := Split(s);
    if |f| != 4 then None
    else
      var a, b, c, d := ParseOctet(f[0]), ParseOctet(f[1]), ParseOctet(f[2]), ParseOctet(f[3]);
      if a.Some? && b.Some? && c.Some? && d.Some? then Some([a.value, b.value, c.value, d.value]) else None
  }

  lemma {:induction false} DecimalReads(n: nat)
    ensures |Decimal(n)| > 0 && AllDigits(Decimal(n)) && Value(Decimal(n)) == n
    ensures Decimal(n)[0] == '0' <==> n == 0
    ensures |Decimal(n)| > 1 <==> n >= 10
    decreases n
  {
    if n >= 10 {
      DecimalReads(n / 10);
      var s := Decimal(n);
      assert s[..|s| - 1] == Decimal(n / 10);
    } else {
      assert Decimal(n)[..0] == "";
    }
  }

  lemma SplitMore(s: string, c: char)
    ensures Split(s + [c]) == if c == '.' then Split(s) + [""] else ExtendLast(Split(s), [c])
  {
    assert (s + [c])[..|s|] == s;
  }

  lemma ExtendTwice(fields: seq<string>, a: string, b: string)
    requires |fields| > 0
    ensures ExtendLast(ExtendLast(fields, a), b) == ExtendLast(fields, a + b)
    ensures ExtendLast(fields, "") == fields
  {
    assert fields[|fields| - 1] + a + b == fields[|fields| - 1] + (a + b);
    assert fields[|fields| - 1] + "" == fields[|fields| - 1];
  }

  lemma {:induction false} SplitAppend(s: string, tail: string)
    requires AllDigits(tail)
    ensures Split(s + tail) == ExtendLast(Split(s), tail)
    decreases |tail|
  {
    if |tail| == 0 {
      assert s + tail == s && tail == "";
      ExtendTwice(Split(s), "", "");
    } else {
      var init, c := tail[..|tail| - 1], tail[|tail| - 1];
      SplitAppend(s, init);
      SplitMore(s + init, c);
      ExtendTwice(Split(s), init, [c]);
      assert tail == init + [c];
      assert s + (init + [c]) == s + init + [c];
    }
  }

  lemma SplitField(s: string, digits: string)
    requires AllDigits(digits)
    ensures Split(s + "." + digits) == Split(s) + [digits]
  {
    SplitMore(s, '.');
    assert s + "." == s + ['.'];
    SplitAppend(s + ".", digits);
    assert "" + digits == digits;
  }

  lemma SplitThree(a: string, b: string, c: string)
    requires AllDigits(a) && AllDigits(b) && AllDigits(c)
    ensures Split(a + "." + b + "." + c) == [a, b, c]
  {
    SplitAppend("", a);
    assert "" + a == a;
    SplitField(a, b);
    SplitField(a + "." + b, c);
  }

  lemma SplitPrefix()
    ensures Split("10.66.0") == ["10", "66", "0"]
  {
    SplitThree("10", "66", "0");
    assert "10" + "." + "66" + "." + "0" == "10.66.0";
  }

  lemma DecimalOctet(n: nat)
    ensures ParseOctet(Decimal(n)) == if n <= 255 then Some(n) else None
  {
    DecimalReads(n);
  }

  lemma PrefixOctets()
    ensures ParseOctet("10") == Some(10) && ParseOctet("66") == Some(66) && ParseOctet("0") == Some(0)
  {
    DecimalOctet(10);
    DecimalOctet(66);
    DecimalOctet(0);
    assert Decimal(10) == "10" && Decimal(66) == "66" && Decimal(0) == "0";
  }

  lemma AddressFields(vip: nat)
    ensures Split(VIPToIP(vip)) == ["10", "66", "0", Decimal(vip)]
  {
    DecimalReads(vip);
    SplitPrefix();
    SplitField("10.66.0", Decimal(vip));
  }

  /** The printed address reads back as an IPv4 address exactly for numbers up to 255, and then its
      last two octets are the number. */
  lemma PrintedAddressReadsIff(vip: nat)
    ensures ParseIPv4(VIPToIP(vip)) == if vip <= 255 then Some([10, 66, 0, vip]) else None
  {
    AddressFields(vip);
    PrefixOctets();
    DecimalOctet(vip);
  }

  /** So in a room that has never had more than 254 members, every printed address is valid and a
      packet sent to it is routed to the number it was printed from. */
  lemma SmallRoomAddresses(ops: seq<Op>, id: PeerId, raw: seq<byte>)
    requires JoinsFindRoom(map[], ops) && id in Run(map[], ops) && Peak(map[], ops) <= 254
    ensures var vip := Run(map[], ops)[id].vip;
            && ParseIPv4(VIPToIP(vip)).Some?
            && (Ipv4(raw) && raw[16..20] == ParseIPv4(VIPToIP(vip)).value ==> Classify(raw) == Unicast(vip))
  {
    var vip := Run(map[], ops)[id].vip;
    VipBoundedByPeak(ops, id);
    RunKeepsUnique(map[], ops);
    PrintedAddressReadsIff(vip);
    assert vip / 256 == 0 && vip % 256 == vip;
    if Ipv4(raw) && raw[16..20] == [10, 66, 0, vip] {
      AllocatedIsUnicast(ops, id, raw);
    }
  }
}
