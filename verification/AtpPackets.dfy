/** Response packets of the AppleTalk Transaction Protocol.

Bit `i` of a packet bitmap asks for response packet `i`. */
module AtpPackets {

  type Body = seq<int>

  type Bitmap = b: seq<bool> | |b| == 8 witness NONE

  const NONE := [false, false, false, false, false, false, false, false]
  const FIRST: Bitmap := [true, false, false, false, false, false, false, false]

  /** One response packet: its number, whether it ends the message, and four user bytes with the data. */
  datatype Packet = Packet(number: int, eom: bool, body: Body)

  function Padded(b: Body): (p: Body)
    ensures |p| >= 4 && b <= p
  {
    if |b| >= 4 then b else b + seq(4 - |b|, i => 0)
  }

  function PacketOf(reply: seq<Body>, i: nat): Packet
    requires i < |reply|
  {
    Packet(i, i + 1 == |reply|, Padded(reply[i]))
  }

  /** The packets of `reply` from number `i` on that the bitmap asks for. */
  function Asked(reply: seq<Body>, bitmap: Bitmap, i: nat): seq<Packet>
    decreases 8 - i
  {
    if i >= |reply| || i >= 8 then []
    else (if bitmap[i] then [PacketOf(reply, i)] else []) + Asked(reply, bitmap, i + 1)
  }

  predicate IsOf(p: Packet, reply: seq<Body>) {
    0 <= p.number < |reply| && p.number < 8 && p == PacketOf(reply, p.number)
  }

  /** A reply to a bitmap is the asked packets of that reply, all of them and nothing else. */
  lemma {:induction false} AskedIsExact(reply: seq<Body>, bitmap: Bitmap, i: nat, p: Packet)
    ensures p in Asked(reply, bitmap, i) <==> IsOf(p, reply) && bitmap[p.number] && i <= p.number
    decreases 8 - i
  {
    hide Padded;
    if i < |reply| && i < 8 {
      AskedIsExact(reply, bitmap, i + 1, p);
      assert PacketOf(reply, i).number == i;
      hide PacketOf;
      var rest := Asked(reply, bitmap, i + 1);
      assert p in [PacketOf(reply, i)] + rest <==> p == PacketOf(reply, i) || p in rest;
    }
  }

  /** The loop of `sendAtpResponses`. */
  method SendResponses(reply: seq<Body>, bitmap: Bitmap) returns (sent: seq<Packet>)
    ensures sent == Asked(reply, bitmap, 0)
  {
    hide PacketOf, Asked;
    sent := [];
    ghost var all := Asked(reply, bitmap, 0);
    var i := 0;
    while i < |reply| && i < 8
      invariant 0 <= i <= 8
      invariant all == sent + Asked(reply, bitmap, i)
    {
      AskedStep(reply, bitmap, i, sent);
      if bitmap[i] {
        var p := MakePacket(reply, i);
        sent := sent + [p];
      }
      i := i + 1;
    }
    AskedEnds(reply, bitmap, i);
  }

  lemma {:induction false} AskedStep(reply: seq<Body>, bitmap: Bitmap, i: nat, sent: seq<Packet>)
    requires i < |reply| && i < 8
    ensures var more := if bitmap[i] then sent + [PacketOf(reply, i)] else sent;
      sent + Asked(reply, bitmap, i) == more + Asked(reply, bitmap, i + 1)
  {
    hide PacketOf;
    var rest := Asked(reply, bitmap, i + 1);
    if bitmap[i] {
      assert sent + ([PacketOf(reply, i)] + rest) == (sent + [PacketOf(reply, i)]) + rest;
    } else {
      assert [] + rest == rest;
    }
  }

  lemma {:induction false} AskedEnds(reply: seq<Body>, bitmap: Bitmap, i: nat)
    requires i >= |reply| || i >= 8
    ensures Asked(reply, bitmap, i) == []
  {
  }

  /** The packet the loop builds, short bodies filled up with zeros. */
  method MakePacket(reply: seq<Body>, i: nat) returns (p: Packet)
    requires i < |reply|
    ensures p == PacketOf(reply, i)
  {
    var b := reply[i];
    if |b| < 4 { b := b + seq(4 - |b|, k => 0); }
    p := Packet(i, i + 1 == |reply|, b);
  }
}
