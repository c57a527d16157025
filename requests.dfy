/**
  Fixed-layout request decoders (ow.Framework/IO/Network/Requests): each
  constructor reads its fields from the packet's BinaryReader in
  declaration order. A read past the end of the body throws, which
  abandons the request; here the decoder then yields None.

  For each request there is its wire form (the encoder), a decoding
  function on the remaining bytes, and the imperative decoder over the
  reader, proved to compute that function and to advance the cursor by
  exactly the request's size.
 */
module Requests {
  import opened Bytes
  import opened Wrappers
  import opened Fields
  import opened PacketIO
  import opened Messages

  // ---- HeartbeatRequest ------------------------------------------------------------

  /** Tick is public; the two unknowns are private fields of the request. */
  datatype HeartbeatRequest = HeartbeatRequest(tick: u64, unknown1: u64, unknown2: u32)

  const HeartbeatSize: nat := 20

  function HeartbeatBytes(h: HeartbeatRequest): (r: seq<byte>)
    ensures |r| == HeartbeatSize
  {
    Le64(h.tick) + Le64(h.unknown1) + Le32(h.unknown2)
  }

  /** `(br.ReadUInt64(), br.ReadUInt64(), br.ReadUInt32())` on the bytes left in the body. */
  function ParseHeartbeat(b: seq<byte>): (r: Option<HeartbeatRequest>)
    ensures r.None? <==> |b| < HeartbeatSize
    ensures r.Some? ==> HeartbeatBytes(r.value) == b[..HeartbeatSize]
  {
    if |b| < 20 then None
    else
      assert b[..20] == b[0..8] + b[8..16] + b[16..20];
      Some(HeartbeatRequest(ReadLe64(b[0..8]), ReadLe64(b[8..16]), ReadLe32(b[16..20])))
  }

  /** Encoding a request and decoding it, whatever follows, gives the request back. */
  lemma {:induction false} HeartbeatRoundTrip(h: HeartbeatRequest, rest: seq<byte>)
    ensures ParseHeartbeat(HeartbeatBytes(h) + rest) == Some(h)
  {
    var b := HeartbeatBytes(h) + rest;
    assert b[0..8] == Le64(h.tick) && b[8..16] == Le64(h.unknown1) && b[16..20] == Le32(h.unknown2);
    Le64Value(h.tick);
    Le64Value(h.unknown1);
    Le32Value(h.unknown2);
  }

  /** The tick is the little-endian u64 in bytes 0..7, and the server's Heartbeat reply echoes exactly those bytes. */
  lemma {:induction false} HeartbeatTickEcho(b: seq<byte>)
    requires |b| >= HeartbeatSize
    ensures ParseHeartbeat(b).value.tick == LeValue(b[..8])
    ensures Encode(HeartbeatLayout(ParseHeartbeat(b).value.tick)) == b[..8]
  {
    var t := ParseHeartbeat(b).value.tick;
    assert b[0..8] == b[..8];
    HeartbeatPayload(t);
  }

  /** HeartbeatRequest(BinaryReader). */
  method ReadHeartbeat(br: BinaryReader) returns (r: Option<HeartbeatRequest>)
    requires br.Valid()
    modifies br
    ensures br.Valid()
    ensures r == ParseHeartbeat(old(br.Remaining()))
    ensures r.Some? ==> br.pos == old(br.pos) + HeartbeatSize
    ensures r.None? ==> br.pos == |br.data|
  {
    ghost var p := br.pos;
    var tick := br.ReadU64();
    var unknown1 := br.ReadU64();
    var unknown2 := br.ReadU32();
    if tick.None? || unknown1.None? || unknown2.None? {
      return None;
    }
    assert br.data[p..][0..8] == br.data[p..p + 8];
    assert br.data[p..][8..16] == br.data[p + 8..p + 16];
    assert br.data[p..][16..20] == br.data[p + 16..p + 20];
    r := Some(HeartbeatRequest(tick.value, unknown1.value, unknown2.value));
  }

  // ---- ChangeSlotRequest -----------------------------------------------------------

  /** The two leading u64s are private; FirstSlot and SecondSlot are public. */
  datatype ChangeSlotRequest = ChangeSlotRequest(first: u64, second: u64, firstSlot: byte, secondSlot: byte)

  const ChangeSlotSize: nat := 18

  function ChangeSlotBytes(c: ChangeSlotRequest): (r: seq<byte>)
    ensures |r| == ChangeSlotSize
  {
    Le64(c.first) + Le64(c.second) + [c.firstSlot, c.secondSlot]
  }

  /** Two u64 reads, then two byte reads. */
  function ParseChangeSlot(b: seq<byte>): (r: Option<ChangeSlotRequest>)
    ensures r.None? <==> |b| < ChangeSlotSize
    ensures r.Some? ==> ChangeSlotBytes(r.value) == b[..ChangeSlotSize]
    ensures r.Some? ==> r.value.firstSlot == b[16] && r.value.secondSlot == b[17]
  {
    if |b| < 18 then None
    else
      assert b[..18] == b[0..8] + b[8..16] + [b[16], b[17]];
      Some(ChangeSlotRequest(ReadLe64(b[0..8]), ReadLe64(b[8..16]), b[16], b[17]))
  }

  lemma {:induction false} ChangeSlotRoundTrip(c: ChangeSlotRequest, rest: seq<byte>)
    ensures ParseChangeSlot(ChangeSlotBytes(c) + rest) == Some(c)
  {
    var b := ChangeSlotBytes(c) + rest;
    assert b[0..8] == Le64(c.first) && b[8..16] == Le64(c.second);
    Le64Value(c.first);
    Le64Value(c.second);
  }

  /** ChangeSlotRequest(BinaryReader). */
  method ReadChangeSlot(br: BinaryReader) returns (r: Option<ChangeSlotRequest>)
    requires br.Valid()
    modifies br
    ensures br.Valid()
    ensures r == ParseChangeSlot(old(br.Remaining()))
    ensures r.Some? ==> br.pos == old(br.pos) + ChangeSlotSize
    ensures r.None? ==> br.pos == |br.data|
  {
    ghost var p := br.pos;
    var first := br.ReadU64();
    var second := br.ReadU64();
    var firstSlot := br.ReadU8();
    var secondSlot := br.ReadU8();
    if first.None? || second.None? || firstSlot.None? || secondSlot.None? {
      return None;
    }
    assert br.data[p..][0..8] == br.data[p..p + 8];
    assert br.data[p..][8..16] == br.data[p + 8..p + 16];
    r := Some(ChangeSlotRequest(first.value, second.value, firstSlot.value, secondSlot.value));
  }

  // ---- FriendRecruitListRequest ----------------------------------------------------

  datatype FriendRecruitListRequest = FriendRecruitListRequest(unknown1: u16, unknown2: u16, unknown3: u16, unknown4: byte)

  const FriendRecruitListSize: nat := 7

  function FriendRecruitListBytes(f: FriendRecruitListRequest): (r: seq<byte>)
    ensures |r| == FriendRecruitListSize
  {
    Le16(f.unknown1) + Le16(f.unknown2) + Le16(f.unknown3) + [f.unknown4]
  }

  /** Three u16 reads, then one byte read. */
  function ParseFriendRecruitList(b: seq<byte>): (r: Option<FriendRecruitListRequest>)
    ensures r.None? <==> |b| < FriendRecruitListSize
    ensures r.Some? ==> FriendRecruitListBytes(r.value) == b[..FriendRecruitListSize]
    ensures r.Some? ==>
      r.value.unknown1 == LeValue(b[0..2]) && r.value.unknown2 == LeValue(b[2..4])
      && r.value.unknown3 == LeValue(b[4..6]) && r.value.unknown4 == b[6]
  {
    if |b| < 7 then None
    else
      assert b[..7] == b[0..2] + b[2..4] + b[4..6] + [b[6]];
      Some(FriendRecruitListRequest(ReadLe16(b[0..2]), ReadLe16(b[2..4]), ReadLe16(b[4..6]), b[6]))
  }

  lemma {:induction false} FriendRecruitListRoundTrip(f: FriendRecruitListRequest, rest: seq<byte>)
    ensures ParseFriendRecruitList(FriendRecruitListBytes(f) + rest) == Some(f)
  {
    var b := FriendRecruitListBytes(f) + rest;
    assert b[0..2] == Le16(f.unknown1) && b[2..4] == Le16(f.unknown2) && b[4..6] == Le16(f.unknown3);
    Le16Value(f.unknown1);
    Le16Value(f.unknown2);
    Le16Value(f.unknown3);
  }

  /** FriendRecruitListRequest(BinaryReader). */
  method ReadFriendRecruitList(br: BinaryReader) returns (r: Option<FriendRecruitListRequest>)
    requires br.Valid()
    modifies br
    ensures br.Valid()
    ensures r == ParseFriendRecruitList(old(br.Remaining()))
    ensures r.Some? ==> br.pos == old(br.pos) + FriendRecruitListSize
    ensures r.None? ==> br.pos == |br.data|
  {
    ghost var p := br.pos;
    var unknown1 := br.ReadU16();
    var unknown2 := br.ReadU16();
    var unknown3 := br.ReadU16();
    var unknown4 := br.ReadU8();
    if unknown1.None? || unknown2.None? || unknown3.None? || unknown4.None? {
      return None;
    }
    assert br.data[p..][0..2] == br.data[p..p + 2];
    assert br.data[p..][2..4] == br.data[p + 2..p + 4];
    assert br.data[p..][4..6] == br.data[p + 4..p + 6];
    r := Some(FriendRecruitListRequest(unknown1.value, unknown2.value, unknown3.value, unknown4.value));
  }
}
