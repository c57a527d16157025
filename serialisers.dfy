/**
  The serialisers of GameSession (ow.Framework/IO/Network/GameSession.cs):
  each is the body handed to SendAsync(opcode, func), which writes one
  message's fields into the fresh PacketWriter it is given. Each is proved
  to append exactly its message's layout (module Messages) and to leave
  the writer's opcode alone.
 */
module Serialisers {
  import opened Bytes
  import opened Fields
  import opened PacketIO
  import opened Shared
  import opened Messages

  /** The empty body shared by CharacterDbLoadSync, CharacterInfo and PostInfo. */
  method WriteEmpty(w0: PacketWriter) returns (w: PacketWriter)
    ensures w.opcode == w0.opcode && w.written == w0.written + EmptyLayout
  {
    w := w0;
  }

  /** CharacterToggleWeapon, echoing the request. */
  method WriteToggleWeapon(enc: Encoders, w0: PacketWriter, v: ToggleWeapon) returns (w: PacketWriter)
    ensures w.opcode == w0.opcode && w.written == w0.written + ToggleWeaponLayout(enc, v)
  {
    w := w0;
    w := w.Write(U32(v.characterId));
    w := w.Write(Raw(enc.vector3(v.position)));
    w := w.Write(F32(v.rotation));
    w := w.Write(Bool(v.toggle));
    w := w.Write(U8(v.unknown1));
  }

  /** One NPC's eight fields, as the NpcOtherInfos loop writes them. */
  method WriteNpcInfo(enc: Encoders, w0: PacketWriter, e: NpcInfo) returns (w: PacketWriter)
    ensures w.opcode == w0.opcode && w.written == w0.written + NpcInfoFields(enc, e)
  {
    w := w0;
    w := w.Write(U32(e.id));
    w := w.Write(Raw(enc.vector3(e.position)));
    w := w.Write(F32(e.rotation));
    w := w.Write(U32(0));
    w := w.Write(U32(e.waypoint));
    w := w.Write(U32(0));
    w := w.Write(Raw(enc.enumeration(NpcVisible)));
    w := w.Write(U32(e.npcId));
  }

  /** NpcOtherInfos: the count as a truncated u16, then eight fields per NPC. */
  method WriteNpcOthersInfos(enc: Encoders, w0: PacketWriter, values: seq<NpcInfo>) returns (w: PacketWriter)
    ensures w.opcode == w0.opcode && w.written == w0.written + NpcOthersInfosLayout(enc, values)
  {
    w := w0;
    w := w.Write(U16(UShortCount(|values|)));
    for i := 0 to |values|
      invariant w.opcode == w0.opcode
      invariant w.written == w0.written + [U16(UShortCount(|values|))] + Flatten(values[..i], e => NpcInfoFields(enc, e))
    {
      w := WriteNpcInfo(enc, w, values[i]);
      FlattenStep(w0.written + [U16(UShortCount(|values|))], values, i, e => NpcInfoFields(enc, e));
    }
    assert values[..|values|] == values;
  }

  /** CharacterStatsUpdate: a zero byte, the character, the count as a byte, then value and stat per entry. */
  method WriteStatsUpdate(enc: Encoders, w0: PacketWriter, v: StatsUpdate) returns (w: PacketWriter)
    ensures w.opcode == w0.opcode && w.written == w0.written + StatsUpdateLayout(enc, v)
  {
    w := w0;
    w := w.Write(U8(0));
    w := w.Write(U32(v.character));
    w := w.Write(U8(ByteCount(|v.values|)));
    for i := 0 to |v.values|
      invariant w.opcode == w0.opcode
      invariant w.written == w0.written + [U8(0), U32(v.character), U8(ByteCount(|v.values|))] + Flatten(v.values[..i], s => StatFields(enc, s))
    {
      w := w.Write(F32(v.values[i].value));
      w := w.Write(Raw(enc.enumeration(CharacterStat(v.values[i].id))));
      FlattenStep(w0.written + [U8(0), U32(v.character), U8(ByteCount(|v.values|))], v.values, i, s => StatFields(enc, s));
    }
    assert v.values[..|v.values|] == v.values;
  }

  method WriteProfile(enc: Encoders, w0: PacketWriter, v: Profile) returns (w: PacketWriter)
    ensures w.opcode == w0.opcode && w.written == w0.written + ProfileLayout(enc, v)
  {
    w := w0;
    w := w.Write(Raw(enc.enumeration(ProfileStatus(v.status))));
    w := w.Write(Raw(enc.unicode(v.about)));
    w := w.Write(Raw(enc.unicode(v.note)));
  }

  /** GestureLoad and GestureUpdateSlots: the ids, with no count in front. */
  method WriteGestures(w0: PacketWriter, values: seq<u32>) returns (w: PacketWriter)
    ensures w.opcode == w0.opcode && w.written == w0.written + GesturesLayout(values)
  {
    w := w0;
    for i := 0 to |values|
      invariant w.opcode == w0.opcode
      invariant w.written == w0.written + Flatten(values[..i], U32Fields)
    {
      w := w.Write(U32(values[i]));
      FlattenStep(w0.written, values, i, U32Fields);
    }
    assert values[..|values|] == values;
  }

  method WriteChat(enc: Encoders, w0: PacketWriter, v: Chat) returns (w: PacketWriter)
    ensures w.opcode == w0.opcode && w.written == w0.written + ChatLayout(enc, v)
  {
    w := w0;
    w := w.Write(U32(v.character));
    w := w.Write(Raw(enc.enumeration(ChatType(v.chat))));
    w := w.Write(Raw(enc.unicode(v.message)));
  }

  /** EventDayEventBoosterList: the count as a truncated u16, then maze and id per booster. */
  method WriteDayEventBoosters(w0: PacketWriter, values: seq<Booster>) returns (w: PacketWriter)
    ensures w.opcode == w0.opcode && w.written == w0.written + DayEventBoosterLayout(values)
  {
    w := w0;
    w := w.Write(U16(UShortCount(|values|)));
    for i := 0 to |values|
      invariant w.opcode == w0.opcode
      invariant w.written == w0.written + [U16(UShortCount(|values|))] + Flatten(values[..i], BoosterFields)
    {
      w := w.Write(U32(values[i].maze));
      w := w.Write(U32(values[i].id));
      FlattenStep(w0.written + [U16(UShortCount(|values|))], values, i, BoosterFields);
    }
    assert values[..|values|] == values;
  }

  /** Heartbeat: the tick of the client's heartbeat, echoed. */
  method WriteHeartbeat(w0: PacketWriter, tick: u64) returns (w: PacketWriter)
    ensures w.opcode == w0.opcode && w.written == w0.written + HeartbeatLayout(tick)
  {
    w := w0;
    w := w.Write(U64(tick));
  }

  method WriteLogOut(enc: Encoders, w0: PacketWriter, v: LogOut) returns (w: PacketWriter)
    ensures w.opcode == w0.opcode && w.written == w0.written + LogOutLayout(enc, v)
  {
    w := w0;
    w := w.Write(U32(v.account));
    w := w.Write(U32(v.character));
    w := w.Write(Raw(enc.utf8(v.ip)));
    w := w.Write(U16(v.port));
    w := w.Write(Raw(enc.enumeration(LogOutGoToGateService)));
    w := w.Write(Raw(enc.enumeration(LogOutSuccess)));
  }

  method WriteWorldEnter(enc: Encoders, w0: PacketWriter, v: DistrictEnter) returns (w: PacketWriter)
    ensures w.opcode == w0.opcode && w.written == w0.written + DistrictEnterLayout(enc, v)
  {
    w := w0;
    w := w.Write(U32(0));
    w := w.Write(Raw(enc.enumeration(DistrictConnectResult(v.result))));
    w := w.Write(Raw(enc.place(v.place)));
    w := w.Write(U8(0));
  }

  method WriteWorldVersion(w0: PacketWriter, v: WorldVersion) returns (w: PacketWriter)
    ensures w.opcode == w0.opcode && w.written == w0.written + WorldVersionLayout(v)
  {
    w := w0;
    w := w.Write(U32(v.id));
    w := w.Write(U32(v.main));
    w := w.Write(U32(v.sub));
    w := w.Write(U32(v.data));
  }

  method WriteBoosterRemove(w0: PacketWriter, id: u32) returns (w: PacketWriter)
    ensures w.opcode == w0.opcode && w.written == w0.written + BoosterRemoveLayout(id)
  {
    w := w0;
    w := w.Write(U32(id));
  }

  method WriteBoosterAdd(w0: PacketWriter, v: BoosterAdd) returns (w: PacketWriter)
    ensures w.opcode == w0.opcode && w.written == w0.written + BoosterAddLayout(v)
  {
    w := w0;
    w := w.Write(U32(v.id));
    w := w.Write(U32(v.prototypeId));
    w := w.Write(U32(v.duration));
  }

  method WriteGateEnter(enc: Encoders, w0: PacketWriter, v: GateEnter) returns (w: PacketWriter)
    ensures w.opcode == w0.opcode && w.written == w0.written + GateEnterLayout(enc, v)
  {
    w := w0;
    w := w.Write(Raw(enc.enumeration(GateEnterResult(v.result))));
    w := w.Write(U32(v.accountId));
  }

  method WriteMarkAsFavorite(enc: Encoders, w0: PacketWriter, v: MarkAsFavorite) returns (w: PacketWriter)
    ensures w.opcode == w0.opcode && w.written == w0.written + MarkAsFavoriteLayout(enc, v)
  {
    w := w0;
    w := w.Write(U32(v.accountId));
    w := w.Write(I32(v.characterId));
    w := w.Write(U16(0));
    w := w.Write(Raw(enc.unicode(v.characterName)));
    w := w.Write(U32(v.photoId));
    w := w.Write(U32(0));
    w := w.Write(U32(0));
    w := w.Write(U32(0));
  }

  /** What CharactersList writes after the characters: the last selection, the times and fixed bytes. */
  method WriteCharacterListTrailer(w0: PacketWriter, lastSelected: i32, initializeTime: u64) returns (w: PacketWriter)
    ensures w.opcode == w0.opcode && w.written == w0.written + CharacterListTrailer(lastSelected, initializeTime)
  {
    w := w0;
    w := w.Write(I32(lastSelected));
    w := w.Write(U8(0));
    w := w.Write(U8(1));
    w := w.Write(U64(initializeTime));
    w := w.Write(U32(0));
    w := w.Write(U64(CharacterListEpoch));
    w := w.Write(U8(17));
    w := w.Write(U8(0));
    w := w.Write(U8(0));
    w := w.Write(U8(0));
  }

  /** CharactersList: the count as a byte, each character, then the fixed trailer. */
  method WriteCharacterList(enc: Encoders, w0: PacketWriter, v: CharacterList) returns (w: PacketWriter)
    ensures w.opcode == w0.opcode && w.written == w0.written + CharacterListLayout(enc, v)
  {
    w := w0;
    w := w.Write(U8(ByteCount(|v.characters|)));
    for i := 0 to |v.characters|
      invariant w.opcode == w0.opcode
      invariant w.written == w0.written + [U8(ByteCount(|v.characters|))] + Flatten(v.characters[..i], c => CharacterFields(enc, c))
    {
      w := w.Write(Raw(enc.character(v.characters[i])));
      FlattenStep(w0.written + [U8(ByteCount(|v.characters|))], v.characters, i, c => CharacterFields(enc, c));
    }
    assert v.characters[..|v.characters|] == v.characters;
    w := WriteCharacterListTrailer(w, v.lastSelected, v.initializeTime);
  }

  method WriteChangeBackground(w0: PacketWriter, v: ChangeBackground) returns (w: PacketWriter)
    ensures w.opcode == w0.opcode && w.written == w0.written + ChangeBackgroundLayout(v)
  {
    w := w0;
    w := w.Write(U32(v.accountId));
    w := w.Write(U32(v.backgroundId));
    w := w.Write(U32(0));
  }

  method WriteCharacterSelect(enc: Encoders, w0: PacketWriter, v: CharacterSelect) returns (w: PacketWriter)
    ensures w.opcode == w0.opcode && w.written == w0.written + CharacterSelectLayout(enc, v)
  {
    w := w0;
    w := w.Write(I32(v.characterId));
    w := w.Write(U32(v.accountId));
    w := w.Write(Pad(28));
    w := w.Write(Raw(enc.utf8(v.ip)));
    w := w.Write(U16(v.port));
    w := w.Write(Raw(enc.placeValue(v.place)));
    w := w.Write(Pad(12));
  }

  method WriteGateConnect(enc: Encoders, w0: PacketWriter, v: EndPoint) returns (w: PacketWriter)
    ensures w.opcode == w0.opcode && w.written == w0.written + GateConnectLayout(enc, v)
  {
    w := w0;
    w := w.Write(Raw(enc.utf8(v.ip)));
    w := w.Write(U16(v.port));
  }

  /** One gate's eleven fields, as the GateList loop writes them. */
  method WriteGate(enc: Encoders, w0: PacketWriter, g: GateInfo) returns (w: PacketWriter)
    ensures w.opcode == w0.opcode && w.written == w0.written + GateFields(enc, g)
  {
    w := w0;
    w := w.Write(U16(g.id));
    w := w.Write(U16(g.port));
    w := w.Write(Raw(enc.utf8(g.name)));
    w := w.Write(Raw(enc.utf8(g.ip)));
    w := w.Write(Raw(enc.enumeration(GateStatus(g.status))));
    w := w.Write(U8(0));
    w := w.Write(U8(0));
    w := w.Write(U8(0));
    w := w.Write(U16(g.playersOnline));
    w := w.Write(U16(0));
    w := w.Write(U8(g.charactersCount));
  }

  /** GateList: a zero byte, the count as a byte, then eleven fields per gate. */
  method WriteGateList(enc: Encoders, w0: PacketWriter, gates: seq<GateInfo>) returns (w: PacketWriter)
    ensures w.opcode == w0.opcode && w.written == w0.written + GateListLayout(enc, gates)
  {
    w := w0;
    w := w.Write(U8(0));
    w := w.Write(U8(ByteCount(|gates|)));
    for i := 0 to |gates|
      invariant w.opcode == w0.opcode
      invariant w.written == w0.written + [U8(0), U8(ByteCount(|gates|))] + Flatten(gates[..i], g => GateFields(enc, g))
    {
      w := WriteGate(enc, w, gates[i]);
      FlattenStep(w0.written + [U8(0), U8(ByteCount(|gates|))], gates, i, g => GateFields(enc, g));
    }
    assert gates[..|gates|] == gates;
  }

  /** OptionLoad: 64 zero bytes, then the status of each feature. */
  method WriteOptionLoad(enc: Encoders, w0: PacketWriter, options: seq<nat>) returns (w: PacketWriter)
    ensures w.opcode == w0.opcode && w.written == w0.written + OptionLoadLayout(enc, options)
  {
    w := w0;
    w := w.Write(Pad(64));
    for i := 0 to |options|
      invariant w.opcode == w0.opcode
      invariant w.written == w0.written + [Pad(64)] + Flatten(options[..i], o => OptionFields(enc, o))
    {
      w := w.Write(Raw(enc.enumeration(OptionStatus(options[i]))));
      FlattenStep(w0.written + [Pad(64)], options, i, o => OptionFields(enc, o));
    }
    assert options[..|options|] == options;
  }

  method WriteLoginResult(enc: Encoders, w0: PacketWriter, v: AuthLogin) returns (w: PacketWriter)
    ensures w.opcode == w0.opcode && w.written == w0.written + AuthLoginLayout(enc, v)
  {
    w := w0;
    w := w.Write(U32(v.accountId));
    w := w.Write(Raw(enc.enumeration(AuthLoginStatus(v.response))));
    w := w.Write(Raw(Ascii(v.mac)));
    w := w.Write(U8(0));
    w := w.Write(Raw(enc.unicode("")));
    w := w.Write(Raw(enc.enumeration(AuthLoginErrorMessageCode(v.errorMessageCode))));
    w := w.Write(U8(1));
    w := w.Write(Raw(enc.unicode(LoginVersion)));
    w := w.Write(U64(v.sessionKey));
    w := w.Write(U8(0));
    w := w.Write(U32(0));
    w := w.Write(U8(0));
  }

  method WriteCurrentDate(w0: PacketWriter, v: CurrentDate) returns (w: PacketWriter)
    ensures w.opcode == w0.opcode && w.written == w0.written + CurrentDateLayout(v)
  {
    w := w0;
    w := w.Write(U64(v.unixTimeSeconds));
    w := w.Write(U16(v.year));
    w := w.Write(U8(v.month));
    w := w.Write(U8(v.day));
    w := w.Write(U8(v.hour));
    w := w.Write(U8(v.minute));
    w := w.Write(U8(v.second));
    w := w.Write(Bool(v.isDaylightSavingTime));
  }
}
