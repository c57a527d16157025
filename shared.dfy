/**
  Game values that outbound messages carry, and the writer extensions
  whose byte formats are not part of this model (string encoders, vector,
  character, entity, place and enumeration writers). Each such extension is a
  function in `Encoders`; a message layout records its output as one
  `Raw` field.
 */
module Shared {
  import opened Bytes
  import opened Wrappers

  datatype Vector3 = Vector3(x: Float32, y: Float32, z: Float32)

  datatype Place = Place(position: Vector3, rotation: Float32, location: u32)

  /** A character as the character list and the favourite/selection messages use it. */
  datatype Character = Character(id: i32, name: string, photoId: u32)

  /**
    An entity of the gate's character collection: its handle stands for the
    entity and the components other than EntityCharacter, which it has or not.
   */
  datatype CharacterEntity = CharacterEntity(handle: nat, character: Option<Character>)

  /** An enumeration member handed to one of the enum writers; codes are the enum's underlying values. */
  datatype EnumValue =
    | GateEnterResult(code: nat)
    | NpcVisibility(code: nat)
    | CharacterStat(code: nat)
    | ProfileStatus(code: nat)
    | ChatType(code: nat)
    | DistrictLogOutWay(code: nat)
    | DistrictLogOutStatus(code: nat)
    | DistrictConnectResult(code: nat)
    | GateStatus(code: nat)
    | OptionStatus(code: nat)
    | AuthLoginStatus(code: nat)
    | AuthLoginErrorMessageCode(code: nat)
      // named members the serialisers write as constants; their codes are kept symbolic
    | GateEnterSuccess
    | NpcVisible
    | LogOutGoToGateService
    | LogOutSuccess

  datatype Encoders = Encoders(
    unicode: string -> seq<byte>,      // WriteByteLengthUnicodeString
    utf8: string -> seq<byte>,         // WriteNumberLengthUtf8String
    vector3: Vector3 -> seq<byte>,     // WriteVector3
    character: Character -> seq<byte>, // WriteCharacter(Character)
    entity: CharacterEntity -> seq<byte>, // WriteCharacter(Entity)
    place: Place -> seq<byte>,         // WritePlace
    placeValue: Place -> seq<byte>,    // Write(Place)
    enumeration: EnumValue -> seq<byte>)

  /** Encoding.ASCII.GetBytes: one byte per character, '?' for anything outside 7-bit ASCII. */
  function Ascii(s: string): (r: seq<byte>)
    ensures |r| == |s|
  {
    seq(|s|, i requires 0 <= i < |s| => if s[i] as int < 0x80 then s[i] as int else 0x3F)
  }
}
