/** Shared protocol and game constants (ow.Framework/Defines.cs). */
module Defines {
  import opened Bytes

  const MaxChannelSessions: byte := 96
  const Channels: byte := 32
  const FashionRows: byte := 14
  const ClothesWithBoochesCount: byte := 5
  const BoochesPerItem: byte := 3
  const StatsPerItem: byte := 5
  const PartyMembersCount: byte := 4
  const SquadMembersCount: byte := 8
  const QuickSlotsCount: byte := 6
  const SkillsInSequenceQuickSlotsCount: byte := 3
  // the product must still fit the declared byte type, as in the C# constant
  const SkillsInQuickSlotsCount: byte := QuickSlotsCount * SkillsInSequenceQuickSlotsCount
  const CharactersCount: byte := 8
  const CharactersSlotsCount: byte := 8
  const MinCharacterNameLength: byte := 2
  const MaxCharacterNameLength: byte := 12

  const CubeQuickSlotCount: byte := 4

  const EquipableFashionStorageMaxCapacity: byte := 14
  const EquipableGearStorageMaxCapacity: byte := 10

  const PacketHeaderSize: byte := 7
  const PacketEncryptedHeaderSize: byte := 5

  /** Bytes the receive loop consumes in front of every packet body. */
  const MagicSize: nat := 2
  const LengthFieldSize: nat := 2
  const ReservedSize: nat := 1
  /** Bytes of the opcode that ProcessPacket reads first. */
  const OpcodeSize: nat := 2

  lemma {:induction false} HeaderConstants()
    ensures SkillsInQuickSlotsCount == 18
    ensures PacketEncryptedHeaderSize as nat == MagicSize + LengthFieldSize + ReservedSize
    ensures PacketHeaderSize as nat == PacketEncryptedHeaderSize as nat + OpcodeSize
    ensures MinCharacterNameLength <= MaxCharacterNameLength
    ensures CharactersCount == CharactersSlotsCount == 8
  {
  }
}
