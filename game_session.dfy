/**
  GameSession (ow.Framework/IO/Network/GameSession.cs): one client
  connection. It cuts each received slice into envelopes and hands every
  body to its handler, and it serialises typed messages into packed frames
  for the transport.

  The session's observable state is the handlers it invoked (`trace`),
  the packed frames it handed to the transport (`sent`) and whether it
  disconnected. PacketUtils.Exchange and PacketUtils.Pack, the handler
  table and the writer extensions are parameters of the session; the
  transport's answer to each send is a parameter of the send.
 */
module Session {
  import opened Bytes
  import opened Wrappers
  import opened Defines
  import opened Fields
  import opened PacketIO
  import opened Shared
  import opened Messages
  import opened Framing
  import opened Serialisers

  type Pack = (ClientOpcode, seq<byte>) -> seq<byte>

  /** Reading inside the window of a MemoryStream over buffer[offset .. offset + size]. */
  lemma {:induction false} WindowSlice(b: seq<byte>, offset: nat, size: nat, i: nat, j: nat)
    requires offset + size <= |b| && i <= j <= size
    ensures b[offset + i..offset + j] == b[offset..offset + size][i..j]
  {
    var u, v := b[offset + i..offset + j], b[offset..offset + size][i..j];
    assert |u| == |v|;
    forall k | 0 <= k < |u| ensures u[k] == v[k] {
      assert u[k] == b[offset + i + k];
    }
  }

  class GameSession {
    const exchange: Exchange
    const handlers: Handlers
    const pack: Pack
    const enc: Encoders

    var trace: seq<Dispatch>
    var sent: seq<seq<byte>>
    var disconnected: bool

    constructor (exchange: Exchange, handlers: Handlers, pack: Pack, enc: Encoders)
      ensures this.exchange == exchange && this.handlers == handlers
      ensures this.pack == pack && this.enc == enc
      ensures trace == [] && sent == [] && !disconnected
    {
      this.exchange := exchange;
      this.handlers := handlers;
      this.pack := pack;
      this.enc := enc;
      trace := [];
      sent := [];
      disconnected := false;
    }

    /** The frames a send of `fields` under `opcode` adds, given the transport's answer. */
    function Emitted(opcode: ClientOpcode, fields: seq<Field>, accepted: bool): seq<seq<byte>> {
      if accepted then [pack(opcode, Encode(fields))] else []
    }

    // ---- send --------------------------------------------------------------------

    /**
      SendAsync(opcode, func): pack what the serialiser wrote and hand it to
      the transport. A refused send throws NetworkException in release
      builds; `ok` is false then and nothing was sent.
     */
    method Send(w: PacketWriter, accepted: bool) returns (ok: bool)
      modifies this`sent
      ensures ok == accepted
      ensures sent == old(sent) + Emitted(w.opcode, w.written, accepted)
    {
      if accepted {
        sent := sent + [pack(w.opcode, w.Data())];
      }
      ok := accepted;
    }

    /** CharacterDbLoadSync: an empty payload. */
    method SendCharacterDbLoadSync(accepted: bool) returns (ok: bool)
      modifies this`sent
      ensures ok == accepted
      ensures sent == old(sent) + Emitted(ClientOpcode.CharacterDbLoadSync, EmptyLayout, accepted)
    {
      var w := WriteEmpty(PacketWriter(ClientOpcode.CharacterDbLoadSync, []));
      assert w.written == EmptyLayout;
      ok := Send(w, accepted);
    }

    /** CharacterToggleWeapon, echoing the request. */
    method SendToggleWeapon(v: ToggleWeapon, accepted: bool) returns (ok: bool)
      modifies this`sent
      ensures ok == accepted
      ensures sent == old(sent) + Emitted(ClientOpcode.CharacterToggleWeapon, ToggleWeaponLayout(enc, v), accepted)
    {
      var w := WriteToggleWeapon(enc, PacketWriter(ClientOpcode.CharacterToggleWeapon, []), v);
      assert w.written == ToggleWeaponLayout(enc, v);
      ok := Send(w, accepted);
    }

    /** NpcOtherInfos: the count as a truncated u16, then eight fields per NPC. */
    method SendNpcOthersInfos(values: seq<NpcInfo>, accepted: bool) returns (ok: bool)
      modifies this`sent
      ensures ok == accepted
      ensures sent == old(sent) + Emitted(ClientOpcode.NpcOtherInfos, NpcOthersInfosLayout(enc, values), accepted)
    {
      var w := WriteNpcOthersInfos(enc, PacketWriter(ClientOpcode.NpcOtherInfos, []), values);
      assert w.written == NpcOthersInfosLayout(enc, values);
      ok := Send(w, accepted);
    }

    /** CharacterInfo: an empty payload. */
    method SendCharacterInfo(accepted: bool) returns (ok: bool)
      modifies this`sent
      ensures ok == accepted
      ensures sent == old(sent) + Emitted(ClientOpcode.CharacterInfo, EmptyLayout, accepted)
    {
      var w := WriteEmpty(PacketWriter(ClientOpcode.CharacterInfo, []));
      assert w.written == EmptyLayout;
      ok := Send(w, accepted);
    }

    /** CharacterStatsUpdate: a zero byte, the character, the count as a byte, then value and stat per entry. */
    method SendStatsUpdate(v: StatsUpdate, accepted: bool) returns (ok: bool)
      modifies this`sent
      ensures ok == accepted
      ensures sent == old(sent) + Emitted(ClientOpcode.CharacterStatsUpdate, StatsUpdateLayout(enc, v), accepted)
    {
      var w := WriteStatsUpdate(enc, PacketWriter(ClientOpcode.CharacterStatsUpdate, []), v);
      assert w.written == StatsUpdateLayout(enc, v);
      ok := Send(w, accepted);
    }

    method SendProfile(v: Profile, accepted: bool) returns (ok: bool)
      modifies this`sent
      ensures ok == accepted
      ensures sent == old(sent) + Emitted(ClientOpcode.CharacterProfileInfo, ProfileLayout(enc, v), accepted)
    {
      var w := WriteProfile(enc, PacketWriter(ClientOpcode.CharacterProfileInfo, []), v);
      assert w.written == ProfileLayout(enc, v);
      ok := Send(w, accepted);
    }

    /** GestureLoad: the gesture ids, with no count in front. */
    method SendGestureLoad(values: seq<u32>, accepted: bool) returns (ok: bool)
      modifies this`sent
      ensures ok == accepted
      ensures sent == old(sent) + Emitted(ClientOpcode.GestureLoad, GesturesLayout(values), accepted)
    {
      var w := WriteGestures(PacketWriter(ClientOpcode.GestureLoad, []), values);
      assert w.written == GesturesLayout(values);
      ok := Send(w, accepted);
    }

    /** PostInfo: an empty payload. */
    method SendPostInfo(accepted: bool) returns (ok: bool)
      modifies this`sent
      ensures ok == accepted
      ensures sent == old(sent) + Emitted(ClientOpcode.PostInfo, EmptyLayout, accepted)
    {
      var w := WriteEmpty(PacketWriter(ClientOpcode.PostInfo, []));
      assert w.written == EmptyLayout;
      ok := Send(w, accepted);
    }

    method SendChat(v: Chat, accepted: bool) returns (ok: bool)
      modifies this`sent
      ensures ok == accepted
      ensures sent == old(sent) + Emitted(ClientOpcode.ChatMessage, ChatLayout(enc, v), accepted)
    {
      var w := WriteChat(enc, PacketWriter(ClientOpcode.ChatMessage, []), v);
      assert w.written == ChatLayout(enc, v);
      ok := Send(w, accepted);
    }

    /** EventDayEventBoosterList: the count as a truncated u16, then maze and id per booster. */
    method SendDayEventBoosters(values: seq<Booster>, accepted: bool) returns (ok: bool)
      modifies this`sent
      ensures ok == accepted
      ensures sent == old(sent) + Emitted(ClientOpcode.EventDayEventBoosterList, DayEventBoosterLayout(values), accepted)
    {
      var w := WriteDayEventBoosters(PacketWriter(ClientOpcode.EventDayEventBoosterList, []), values);
      assert w.written == DayEventBoosterLayout(values);
      ok := Send(w, accepted);
    }

    /** Heartbeat: the tick of the client's heartbeat, echoed. */
    method SendHeartbeat(tick: u64, accepted: bool) returns (ok: bool)
      modifies this`sent
      ensures ok == accepted
      ensures sent == old(sent) + Emitted(ClientOpcode.Heartbeat, HeartbeatLayout(tick), accepted)
    {
      var w := WriteHeartbeat(PacketWriter(ClientOpcode.Heartbeat, []), tick);
      assert w.written == HeartbeatLayout(tick);
      ok := Send(w, accepted);
    }

    method SendLogOut(v: LogOut, accepted: bool) returns (ok: bool)
      modifies this`sent
      ensures ok == accepted
      ensures sent == old(sent) + Emitted(ClientOpcode.LogOut, LogOutLayout(enc, v), accepted)
    {
      var w := WriteLogOut(enc, PacketWriter(ClientOpcode.LogOut, []), v);
      assert w.written == LogOutLayout(enc, v);
      ok := Send(w, accepted);
    }

    method SendWorldEnter(v: DistrictEnter, accepted: bool) returns (ok: bool)
      modifies this`sent
      ensures ok == accepted
      ensures sent == old(sent) + Emitted(ClientOpcode.WorldEnter, DistrictEnterLayout(enc, v), accepted)
    {
      var w := WriteWorldEnter(enc, PacketWriter(ClientOpcode.WorldEnter, []), v);
      assert w.written == DistrictEnterLayout(enc, v);
      ok := Send(w, accepted);
    }

    method SendWorldVersion(v: WorldVersion, accepted: bool) returns (ok: bool)
      modifies this`sent
      ensures ok == accepted
      ensures sent == old(sent) + Emitted(ClientOpcode.WorldVersion, WorldVersionLayout(v), accepted)
    {
      var w := WriteWorldVersion(PacketWriter(ClientOpcode.WorldVersion, []), v);
      assert w.written == WorldVersionLayout(v);
      ok := Send(w, accepted);
    }

    method SendBoosterRemove(id: u32, accepted: bool) returns (ok: bool)
      modifies this`sent
      ensures ok == accepted
      ensures sent == old(sent) + Emitted(ClientOpcode.BoosterRemove, BoosterRemoveLayout(id), accepted)
    {
      var w := WriteBoosterRemove(PacketWriter(ClientOpcode.BoosterRemove, []), id);
      assert w.written == BoosterRemoveLayout(id);
      ok := Send(w, accepted);
    }

    method SendBoosterAdd(v: BoosterAdd, accepted: bool) returns (ok: bool)
      modifies this`sent
      ensures ok == accepted
      ensures sent == old(sent) + Emitted(ClientOpcode.BoosterAdd, BoosterAddLayout(v), accepted)
    {
      var w := WriteBoosterAdd(PacketWriter(ClientOpcode.BoosterAdd, []), v);
      assert w.written == BoosterAddLayout(v);
      ok := Send(w, accepted);
    }

    /** GestureUpdateSlots: the slot ids, with no count in front. */
    method SendGestureUpdateSlots(values: seq<u32>, accepted: bool) returns (ok: bool)
      modifies this`sent
      ensures ok == accepted
      ensures sent == old(sent) + Emitted(ClientOpcode.GestureUpdateSlots, GesturesLayout(values), accepted)
    {
      var w := WriteGestures(PacketWriter(ClientOpcode.GestureUpdateSlots, []), values);
      assert w.written == GesturesLayout(values);
      ok := Send(w, accepted);
    }

    method SendGateEnter(v: GateEnter, accepted: bool) returns (ok: bool)
      modifies this`sent
      ensures ok == accepted
      ensures sent == old(sent) + Emitted(ClientOpcode.GateEnter, GateEnterLayout(enc, v), accepted)
    {
      var w := WriteGateEnter(enc, PacketWriter(ClientOpcode.GateEnter, []), v);
      assert w.written == GateEnterLayout(enc, v);
      ok := Send(w, accepted);
    }

    method SendMarkAsFavorite(v: MarkAsFavorite, accepted: bool) returns (ok: bool)
      modifies this`sent
      ensures ok == accepted
      ensures sent == old(sent) + Emitted(ClientOpcode.CharacterMarkAsFavorite, MarkAsFavoriteLayout(enc, v), accepted)
    {
      var w := WriteMarkAsFavorite(enc, PacketWriter(ClientOpcode.CharacterMarkAsFavorite, []), v);
      assert w.written == MarkAsFavoriteLayout(enc, v);
      ok := Send(w, accepted);
    }

    /** CharactersList: the count as a byte, each character, then the fixed trailer. */
    method SendCharacterList(v: CharacterList, accepted: bool) returns (ok: bool)
      modifies this`sent
      ensures ok == accepted
      ensures sent == old(sent) + Emitted(ClientOpcode.CharactersList, CharacterListLayout(enc, v), accepted)
    {
      var w := WriteCharacterList(enc, PacketWriter(ClientOpcode.CharactersList, []), v);
      assert w.written == CharacterListLayout(enc, v);
      ok := Send(w, accepted);
    }

    method SendChangeBackground(v: ChangeBackground, accepted: bool) returns (ok: bool)
      modifies this`sent
      ensures ok == accepted
      ensures sent == old(sent) + Emitted(ClientOpcode.CharacterChangeBackground, ChangeBackgroundLayout(v), accepted)
    {
      var w := WriteChangeBackground(PacketWriter(ClientOpcode.CharacterChangeBackground, []), v);
      assert w.written == ChangeBackgroundLayout(v);
      ok := Send(w, accepted);
    }

    method SendCharacterSelect(v: CharacterSelect, accepted: bool) returns (ok: bool)
      modifies this`sent
      ensures ok == accepted
      ensures sent == old(sent) + Emitted(ClientOpcode.CharacterSelect, CharacterSelectLayout(enc, v), accepted)
    {
      var w := WriteCharacterSelect(enc, PacketWriter(ClientOpcode.CharacterSelect, []), v);
      assert w.written == CharacterSelectLayout(enc, v);
      ok := Send(w, accepted);
    }

    method SendGateConnect(v: EndPoint, accepted: bool) returns (ok: bool)
      modifies this`sent
      ensures ok == accepted
      ensures sent == old(sent) + Emitted(ClientOpcode.GateConnect, GateConnectLayout(enc, v), accepted)
    {
      var w := WriteGateConnect(enc, PacketWriter(ClientOpcode.GateConnect, []), v);
      assert w.written == GateConnectLayout(enc, v);
      ok := Send(w, accepted);
    }

    /** GateList: a zero byte, the count as a byte, then eleven fields per gate. */
    method SendGateList(gates: seq<GateInfo>, accepted: bool) returns (ok: bool)
      modifies this`sent
      ensures ok == accepted
      ensures sent == old(sent) + Emitted(ClientOpcode.GateList, GateListLayout(enc, gates), accepted)
    {
      var w := WriteGateList(enc, PacketWriter(ClientOpcode.GateList, []), gates);
      assert w.written == GateListLayout(enc, gates);
      ok := Send(w, accepted);
    }

    /** OptionLoad: 64 zero bytes, then the status of each feature. */
    method SendOptionLoad(options: seq<nat>, accepted: bool) returns (ok: bool)
      modifies this`sent
      ensures ok == accepted
      ensures sent == old(sent) + Emitted(ClientOpcode.OptionLoad, OptionLoadLayout(enc, options), accepted)
    {
      var w := WriteOptionLoad(enc, PacketWriter(ClientOpcode.OptionLoad, []), options);
      assert w.written == OptionLoadLayout(enc, options);
      ok := Send(w, accepted);
    }

    method SendLoginResult(v: AuthLogin, accepted: bool) returns (ok: bool)
      modifies this`sent
      ensures ok == accepted
      ensures sent == old(sent) + Emitted(ClientOpcode.LoginResult, AuthLoginLayout(enc, v), accepted)
    {
      var w := WriteLoginResult(enc, PacketWriter(ClientOpcode.LoginResult, []), v);
      assert w.written == AuthLoginLayout(enc, v);
      ok := Send(w, accepted);
    }

    method SendCurrentDate(v: CurrentDate, accepted: bool) returns (ok: bool)
      modifies this`sent
      ensures ok == accepted
      ensures sent == old(sent) + Emitted(ClientOpcode.CurrentDate, CurrentDateLayout(v), accepted)
    {
      var w := WriteCurrentDate(PacketWriter(ClientOpcode.CurrentDate, []), v);
      assert w.written == CurrentDateLayout(v);
      ok := Send(w, accepted);
    }

    // ---- receive ----------------------------------------------------------------

    /**
      ProcessPacket: exchange the body, read the opcode, invoke its handler.
      `ok` is false when anything threw (no whole opcode, or the handler).
     */
    method ProcessPacket(raw: seq<byte>) returns (ok: bool)
      modifies this`trace
      ensures Unpack(exchange, raw).None? ==> !ok && trace == old(trace)
      ensures Unpack(exchange, raw).Some? ==>
        trace == old(trace) + [Unpack(exchange, raw).value]
        && ok == handlers(Unpack(exchange, raw).value.opcode, Unpack(exchange, raw).value.payload)
    {
      var x := exchange(raw);
      if |x| < OpcodeSize {
        return false;
      }
      var opcode := ReadLe16(x[..OpcodeSize]);
      var payload := x[OpcodeSize..];
      trace := trace + [Dispatch(opcode, payload)];
      ok := handlers(opcode, payload);
    }

    /**
      One pass of the OnReceived loop body up to the ProcessPacket call, on
      the MemoryStream over buffer[offset .. offset + size] with its cursor
      at `pos`: skip the magic, read the length, skip the reserved byte and
      read the body.
     */
    static method ReadEnvelopeAt(buffer: array<byte>, offset: nat, size: nat, pos: nat) returns (r: Frame)
      requires offset + size <= buffer.Length
      ensures r == ReadFrame(buffer[offset..offset + size], pos)
    {
      var p := pos + MagicSize;                                   // the magic
      if p + LengthFieldSize > size {
        return FrameFault(HeaderTruncated);                       // ReadUInt16 ran out
      }
      WindowSlice(buffer[..], offset, size, p, p + LengthFieldSize);
      var length := ReadLe16(buffer[offset + p..offset + p + LengthFieldSize]) as int
                    - PacketEncryptedHeaderSize as int;
      if length < 0 {
        return FrameFault(NegativeLength);                        // ReadBytes(negative)
      }
      p := p + LengthFieldSize + ReservedSize;                    // the length and the reserved byte
      if p >= size {
        return Framed([], p);                                     // nothing left to read
      }
      var end := Min(p + length, size);
      WindowSlice(buffer[..], offset, size, p, end);
      r := Framed(buffer[offset + p..offset + end], end);
    }

    /**
      One pass of the OnReceived loop body at cursor `pos` of the slice
      buffer[offset .. offset + size]: read the envelope, process its body,
      and disconnect on a fault. `more` is the loop condition that follows.
     */
    method ReceiveOne(buffer: array<byte>, offset: nat, size: nat, pos: nat, ghost w: seq<byte>,
                      ghost acc: seq<Dispatch>, ghost total: Outcome)
      returns (next: nat, more: bool, ghost taken: seq<Dispatch>)
      requires offset + size <= buffer.Length && w == buffer[offset..offset + size]
      requires Resume(exchange, handlers, w, pos, acc) == total
      modifies this`trace, this`disconnected
      ensures trace == old(trace) + taken
      ensures match StepAt(exchange, handlers, w, pos)
        case Halt(o) =>
          !more && taken == o.dispatched && disconnected == (old(disconnected) || o.fault.Some?)
        case Continue(d, n) =>
          more && next == n && taken == [d] && disconnected == old(disconnected)
      ensures more ==> pos < next <= size && Resume(exchange, handlers, w, next, acc + taken) == total
      ensures !more ==> acc + taken == total.dispatched && disconnected == (old(disconnected) || total.fault.Some?)
    {
      ResumeStep(exchange, handlers, w, pos, acc);
      next, more, taken := pos, false, [];
      var frame := ReadEnvelopeAt(buffer, offset, size, pos);
      if frame.FrameFault? {
        disconnected := true;
        return;
      }
      var ok := ProcessPacket(frame.body);
      taken := trace[|old(trace)|..];
      if !ok {
        disconnected := true;
        return;
      }
      next := frame.next;
      more := next < size;
    }

    /**
      OnReceived: read the envelopes of buffer[offset .. offset + size] in
      order, dispatching each body, until the cursor reaches the end of the
      slice. The first fault abandons the rest of the slice and disconnects.
     */
    method OnReceived(buffer: array<byte>, offset: nat, size: nat)
      requires offset + size <= buffer.Length
      modifies this`trace, this`disconnected
      ensures trace == old(trace) + Receive(exchange, handlers, buffer[offset..offset + size]).dispatched
      ensures disconnected == (old(disconnected) || Receive(exchange, handlers, buffer[offset..offset + size]).fault.Some?)
    {
      ghost var w := buffer[offset..offset + size];
      ghost var total := Resume(exchange, handlers, w, 0, []);
      ghost var acc: seq<Dispatch> := [];
      var pos: nat := 0;
      var more := true;
      while more
        invariant trace == old(trace) + acc
        invariant more ==> disconnected == old(disconnected) && Resume(exchange, handlers, w, pos, acc) == total
        invariant !more ==> acc == total.dispatched && disconnected == (old(disconnected) || total.fault.Some?)
        decreases more, size - pos
      {
        ghost var taken;
        pos, more, taken := ReceiveOne(buffer, offset, size, pos, w, acc, total);
        acc := acc + taken;
      }
    }
  }
}
