/**
  Payload layouts of the typed outbound messages serialised by GameSession
  (ow.Framework/IO/Network/GameSession.cs). Each layout is the sequence of
  fields the serialiser hands to its PacketWriter, in order; the payload on
  the wire is `Encode` of it.
 */
module Messages {
  import opened Bytes
  import opened Fields
  import opened Shared

  datatype ToggleWeapon = ToggleWeapon(characterId: u32, position: Vector3, rotation: Float32, toggle: bool, unknown1: byte)
  datatype NpcInfo = NpcInfo(id: u32, position: Vector3, rotation: Float32, waypoint: u32, npcId: u32)
  datatype StatUpdate = StatUpdate(value: Float32, id: nat)
  datatype StatsUpdate = StatsUpdate(character: u32, values: seq<StatUpdate>)
  datatype Profile = Profile(status: nat, about: string, note: string)
  datatype Chat = Chat(character: u32, chat: nat, message: string)
  datatype Booster = Booster(maze: u32, id: u32)
  datatype LogOut = LogOut(account: u32, character: u32, ip: string, port: u16)
  datatype DistrictEnter = DistrictEnter(result: nat, place: Place)
  datatype WorldVersion = WorldVersion(id: u32, main: u32, sub: u32, data: u32)
  datatype BoosterAdd = BoosterAdd(id: u32, prototypeId: u32, duration: u32)
  datatype GateEnter = GateEnter(result: nat, accountId: u32)
  datatype MarkAsFavorite = MarkAsFavorite(accountId: u32, characterId: i32, characterName: string, photoId: u32)
  datatype CharacterList = CharacterList(characters: seq<Character>, lastSelected: i32, initializeTime: u64)
  datatype ChangeBackground = ChangeBackground(accountId: u32, backgroundId: u32)
  datatype CharacterSelect = CharacterSelect(characterId: i32, accountId: u32, ip: string, port: u16, place: Place)
  datatype EndPoint = EndPoint(ip: string, port: u16)
  datatype GateInfo = GateInfo(id: u16, port: u16, name: string, ip: string, status: nat, playersOnline: u16, charactersCount: byte)
  datatype AuthLogin = AuthLogin(accountId: u32, response: nat, mac: string, errorMessageCode: nat, sessionKey: u64)
  datatype CurrentDate = CurrentDate(
    unixTimeSeconds: u64, year: u16, month: byte, day: byte,
    hour: byte, minute: byte, second: byte, isDaylightSavingTime: bool)

  /** The `(byte)` and `(ushort)` casts of a list's Count: truncation, not saturation. */
  function ByteCount(n: nat): byte { n % 0x100 }
  function UShortCount(n: nat): u16 { n % 0x1_0000 }

  /** 1262271600 seconds after the Unix epoch, the constant the character list carries. */
  const CharacterListEpoch: u64 := 1262271600

  // ---- layouts, one per serialiser --------------------------------------

  /** CharacterDbLoadSync, CharacterInfo and PostInfo carry no payload. */
  const EmptyLayout: seq<Field> := []

  function ToggleWeaponLayout(enc: Encoders, v: ToggleWeapon): seq<Field> {
    [U32(v.characterId), Raw(enc.vector3(v.position)), F32(v.rotation), Bool(v.toggle), U8(v.unknown1)]
  }

  function NpcInfoFields(enc: Encoders, e: NpcInfo): seq<Field> {
    [U32(e.id), Raw(enc.vector3(e.position)), F32(e.rotation), U32(0), U32(e.waypoint), U32(0),
     Raw(enc.enumeration(NpcVisible)), U32(e.npcId)]
  }

  function NpcOthersInfosLayout(enc: Encoders, values: seq<NpcInfo>): seq<Field> {
    [U16(UShortCount(|values|))] + Flatten(values, e => NpcInfoFields(enc, e))
  }

  function StatFields(enc: Encoders, s: StatUpdate): seq<Field> {
    [F32(s.value), Raw(enc.enumeration(CharacterStat(s.id)))]
  }

  function StatsUpdateLayout(enc: Encoders, v: StatsUpdate): seq<Field> {
    [U8(0), U32(v.character), U8(ByteCount(|v.values|))] + Flatten(v.values, s => StatFields(enc, s))
  }

  function ProfileLayout(enc: Encoders, v: Profile): seq<Field> {
    [Raw(enc.enumeration(ProfileStatus(v.status))), Raw(enc.unicode(v.about)), Raw(enc.unicode(v.note))]
  }

  function U32Fields(x: u32): seq<Field> { [U32(x)] }

  /** GestureLoad and GestureUpdateSlots: the identifiers only, with no count in front. */
  function GesturesLayout(values: seq<u32>): seq<Field> {
    Flatten(values, U32Fields)
  }

  function ChatLayout(enc: Encoders, v: Chat): seq<Field> {
    [U32(v.character), Raw(enc.enumeration(ChatType(v.chat))), Raw(enc.unicode(v.message))]
  }

  function BoosterFields(b: Booster): seq<Field> { [U32(b.maze), U32(b.id)] }

  function DayEventBoosterLayout(values: seq<Booster>): seq<Field> {
    [U16(UShortCount(|values|))] + Flatten(values, BoosterFields)
  }

  function HeartbeatLayout(tick: u64): seq<Field> {
    [U64(tick)]
  }

  function LogOutLayout(enc: Encoders, v: LogOut): seq<Field> {
    [U32(v.account), U32(v.character), Raw(enc.utf8(v.ip)), U16(v.port),
     Raw(enc.enumeration(LogOutGoToGateService)), Raw(enc.enumeration(LogOutSuccess))]
  }

  function DistrictEnterLayout(enc: Encoders, v: DistrictEnter): seq<Field> {
    [U32(0), Raw(enc.enumeration(DistrictConnectResult(v.result))), Raw(enc.place(v.place)), U8(0)]
  }

  function WorldVersionLayout(v: WorldVersion): seq<Field> {
    [U32(v.id), U32(v.main), U32(v.sub), U32(v.data)]
  }

  function BoosterRemoveLayout(id: u32): seq<Field> {
    [U32(id)]
  }

  function BoosterAddLayout(v: BoosterAdd): seq<Field> {
    [U32(v.id), U32(v.prototypeId), U32(v.duration)]
  }

  function GateEnterLayout(enc: Encoders, v: GateEnter): seq<Field> {
    [Raw(enc.enumeration(GateEnterResult(v.result))), U32(v.accountId)]
  }

  function MarkAsFavoriteLayout(enc: Encoders, v: MarkAsFavorite): seq<Field> {
    [U32(v.accountId), I32(v.characterId), U16(0), Raw(enc.unicode(v.characterName)), U32(v.photoId),
     U32(0), U32(0), U32(0)]
  }

  function CharacterFields(enc: Encoders, c: Character): seq<Field> {
    [Raw(enc.character(c))]
  }

  /** Everything after the characters: last selected id, flags, init time and the fixed constants. */
  function CharacterListTrailer(lastSelected: i32, initializeTime: u64): seq<Field> {
    [I32(lastSelected), U8(0), U8(1), U64(initializeTime), U32(0), U64(CharacterListEpoch),
     U8(17), U8(0), U8(0), U8(0)]
  }

  function CharacterListLayout(enc: Encoders, v: CharacterList): seq<Field> {
    [U8(ByteCount(|v.characters|))] + Flatten(v.characters, c => CharacterFields(enc, c))
      + CharacterListTrailer(v.lastSelected, v.initializeTime)
  }

  function ChangeBackgroundLayout(v: ChangeBackground): seq<Field> {
    [U32(v.accountId), U32(v.backgroundId), U32(0)]
  }

  function CharacterSelectLayout(enc: Encoders, v: CharacterSelect): seq<Field> {
    [I32(v.characterId), U32(v.accountId), Pad(28), Raw(enc.utf8(v.ip)), U16(v.port),
     Raw(enc.placeValue(v.place)), Pad(12)]
  }

  function GateConnectLayout(enc: Encoders, v: EndPoint): seq<Field> {
    [Raw(enc.utf8(v.ip)), U16(v.port)]
  }

  function GateFields(enc: Encoders, g: GateInfo): seq<Field> {
    [U16(g.id), U16(g.port), Raw(enc.utf8(g.name)), Raw(enc.utf8(g.ip)),
     Raw(enc.enumeration(GateStatus(g.status))), U8(0), U8(0), U8(0),
     U16(g.playersOnline), U16(0), U8(g.charactersCount)]
  }

  function GateListLayout(enc: Encoders, gates: seq<GateInfo>): seq<Field> {
    [U8(0), U8(ByteCount(|gates|))] + Flatten(gates, g => GateFields(enc, g))
  }

  function OptionFields(enc: Encoders, status: nat): seq<Field> {
    [Raw(enc.enumeration(OptionStatus(status)))]
  }

  function OptionLoadLayout(enc: Encoders, options: seq<nat>): seq<Field> {
    [Pad(64)] + Flatten(options, o => OptionFields(enc, o))
  }

  /** The client version string the login result always carries. */
  const LoginVersion: string := "134006893"

  function AuthLoginLayout(enc: Encoders, v: AuthLogin): seq<Field> {
    [U32(v.accountId), Raw(enc.enumeration(AuthLoginStatus(v.response))), Raw(Ascii(v.mac)),
     U8(0), Raw(enc.unicode("")), Raw(enc.enumeration(AuthLoginErrorMessageCode(v.errorMessageCode))),
     U8(1), Raw(enc.unicode(LoginVersion)),
     U64(v.sessionKey), U8(0), U32(0), U8(0)]
  }

  function CurrentDateLayout(v: CurrentDate): seq<Field> {
    [U64(v.unixTimeSeconds), U16(v.year), U8(v.month), U8(v.day), U8(v.hour), U8(v.minute),
     U8(v.second), Bool(v.isDaylightSavingTime)]
  }

  // ---- what the layouts put on the wire ---------------------------------

  /** The heartbeat reply's payload is the tick alone, as eight little-endian bytes. */
  lemma {:induction false} HeartbeatPayload(tick: u64)
    ensures Encode(HeartbeatLayout(tick)) == Le64(tick)
    ensures |Encode(HeartbeatLayout(tick))| == 8
    ensures LeValue(Encode(HeartbeatLayout(tick))) == tick
  {
    Le64Value(tick);
  }

  /** CharacterSelect: character id, account id, 28 zero bytes, address, port, place, 12 zero bytes. */
  lemma {:induction false} CharacterSelectBytes(enc: Encoders, v: CharacterSelect)
    ensures Encode(CharacterSelectLayout(enc, v)) ==
      Le32(I32Bits(v.characterId)) + Le32(v.accountId) + Zeros(28) + enc.utf8(v.ip)
        + Le16(v.port) + enc.placeValue(v.place) + Zeros(12)
  {
    var l := CharacterSelectLayout(enc, v);
    assert l == l[..4] + l[4..];
    Encode4(l[..4]);
    Encode3(l[4..]);
    EncodeConcat(l[..4], l[4..]);
  }

  /** NPC lists carry their count as a truncated u16 in front. */
  lemma {:induction false} NpcOthersInfosCount(enc: Encoders, npcs: seq<NpcInfo>)
    ensures |Encode(NpcOthersInfosLayout(enc, npcs))| >= 2
    ensures Encode(NpcOthersInfosLayout(enc, npcs))[..2] == Le16(|npcs| % 0x1_0000)
  {
    EncodeCons(U16(UShortCount(|npcs|)), Flatten(npcs, e => NpcInfoFields(enc, e)));
  }

  /** Booster lists carry their count as a truncated u16 in front. */
  lemma {:induction false} DayEventBoosterCount(boosters: seq<Booster>)
    ensures |Encode(DayEventBoosterLayout(boosters))| >= 2
    ensures Encode(DayEventBoosterLayout(boosters))[..2] == Le16(|boosters| % 0x1_0000)
  {
    EncodeCons(U16(UShortCount(|boosters|)), Flatten(boosters, BoosterFields));
  }

  /** A stats update: a zero byte, the character, then the number of values cast to a byte. */
  lemma {:induction false} StatsUpdateCount(enc: Encoders, stats: StatsUpdate)
    ensures |Encode(StatsUpdateLayout(enc, stats))| >= 6
    ensures Encode(StatsUpdateLayout(enc, stats))[..6] ==
      [0] + Le32(stats.character) + [|stats.values| % 0x100]
  {
    var head := [U8(0), U32(stats.character), U8(ByteCount(|stats.values|))];
    EncodePrefix(head, Flatten(stats.values, x => StatFields(enc, x)));
    EncodeCons(head[0], head[1..]);
    assert head == [head[0]] + head[1..];
    EncodeCons(head[1], head[2..]);
    assert head[1..] == [head[1]] + head[2..];
    EncodeCons(head[2], []);
    assert head[2..] == [head[2]] + [];
  }

  /** The character list starts with its count cast to a byte. */
  lemma {:induction false} CharacterListCount(enc: Encoders, list: CharacterList)
    ensures |Encode(CharacterListLayout(enc, list))| >= 1
    ensures Encode(CharacterListLayout(enc, list))[0] == |list.characters| % 0x100
  {
    var c := Flatten(list.characters, x => CharacterFields(enc, x));
    var t := CharacterListTrailer(list.lastSelected, list.initializeTime);
    assert CharacterListLayout(enc, list) == [U8(ByteCount(|list.characters|))] + (c + t);
    EncodeCons(U8(ByteCount(|list.characters|)), c + t);
  }

  /** The gate list: a zero byte, then the number of gates cast to a byte. */
  lemma {:induction false} GateListCount(enc: Encoders, gates: seq<GateInfo>)
    ensures |Encode(GateListLayout(enc, gates))| >= 2
    ensures Encode(GateListLayout(enc, gates))[..2] == [0, |gates| % 0x100]
  {
    var g := Flatten(gates, x => GateFields(enc, x));
    assert GateListLayout(enc, gates) == [U8(0)] + ([U8(ByteCount(|gates|))] + g);
    EncodeCons(U8(0), [U8(ByteCount(|gates|))] + g);
    EncodeCons(U8(ByteCount(|gates|)), g);
  }

  /** A gesture list is its identifiers as consecutive little-endian u32s, and nothing else. */
  lemma {:induction false} GesturesBytes(values: seq<u32>)
    ensures |Encode(GesturesLayout(values))| == 4 * |values|
    ensures forall k :: 0 <= k < |values| ==> Encode(GesturesLayout(values))[4 * k..4 * k + 4] == Le32(values[k])
  {
    if values != [] {
      var init := values[..|values| - 1];
      GesturesBytes(init);
      EncodeAppend(GesturesLayout(init), U32(values[|values| - 1]));
      assert forall k :: 0 <= k < |init| ==> init[k] == values[k];
    }
  }
}
