# OpenWorker core, modelled in Dafny

This project models the protocol core of OpenWorker, a server for the
SoulWorker game client, and proves properties of the model.

- **Receive side.** One game session cuts a received slice into envelopes:
  2 magic bytes, a little-endian u16 length that counts the 5 header bytes,
  1 reserved byte, then the body. It de-obfuscates each body, reads the
  opcode and invokes that opcode's handler. The first fault abandons the rest
  of the slice and disconnects.
- **Send side.** The typed serialisers of GameSession and the gate service's
  session extensions each write one message's fields into a fresh
  PacketWriter. The session packs that writer and hands it to the transport.
- **Request decoders.** Three fixed-layout decoders (heartbeat, change-slot,
  friend-recruit list) and the CustomizeSkin bin-table record decoder read
  through a BinaryReader cursor.
- **Character creation.** The gate's validators and the initial character
  model.
- **District NPC lists.** The cached NPC list and the NPC repository, with its
  wrapping `uint` id counter.
- **Shared constants** of `Defines`.

Files, one module each:

| file | module | models |
|---|---|---|
| bytes.dfy | Bytes | fixed-width integers, little-endian layout, two's complement |
| wrappers.dfy | Wrappers | Option |
| defines.dfy | Defines | ow.Framework/Defines.cs |
| shared.dfy | Shared | game values carried by messages; the unmodelled writer extensions as an `Encoders` record |
| fields.dfy | Fields | the values a PacketWriter appends, their bytes, and the matching sequential reader |
| packet_io.dfy | PacketIO | PacketWriter (a value) and BinaryReader (a class with a cursor) |
| messages.dfy | Messages | one payload layout per GameSession serialiser |
| serialisers.dfy | Serialisers | the serialiser bodies, each proved to write its layout |
| framing.dfy | Framing | the receive loop as functions: frame reading, dispatch, outcome |
| game_session.dfy | Session | the GameSession class: send methods, ProcessPacket, OnReceived over an `array` |
| gate.dfy | Gate | GameSessionExtension.cs |
| character_create.dfy | CharacterCreate | CharacterCreateHelper.cs |
| requests.dfy | Requests | HeartbeatRequest, ChangeSlotRequest, FriendRecruitListRequest |
| customize_skin.dfy | CustomizeSkin | CustomizeSkinTableEntity.cs |
| world.dfy | WorldTable | the monster spawn boxes the NPC lists read; spawn positions |
| cached_npcs.dfy | CachedNpcs | ow.Service.District/Game/CachedNpcs.cs |
| npc_repository.dfy | NpcRepository | ow.Service.District/Game/Repositories/NpcRepository.cs |

Edge cases of the receive loop, as the code behaves:

- A slice shorter than 4 bytes ends in a fault. The `do`/`while` loop runs
  once, and `ReadUInt16` on the length throws. The slice is then abandoned and
  the session disconnects (`Framing.ShortSlice`).
- A final envelope that declares more bytes than the slice holds is not a
  framing error. `BinaryReader.ReadBytes` returns what is left, and that
  shorter body is dispatched (`Framing.TruncatedTail`).
- A declared length below 5 throws, because `ReadBytes` is given a negative
  count (`Framing.NegativeLengthFaults`).
- An unknown opcode is not skipped. The handler table's indexer is a
  parameter, and a failing lookup counts as a failed handler, which ends the
  slice (`Framing.FaultEndsSlice`).

## Model

| member | source | states |
|---|---|---|
| Defines.HeaderConstants | ow.Framework/Defines.cs:13-27 | SkillsInQuickSlotsCount is 18. The encrypted header size is magic + length + reserved bytes, and the header size adds the 2-byte opcode to it. The minimum character name length is at most the maximum. Both character counts are 8 |
| Bytes.ReadLe16 | ow.Framework/IO/Network/GameSession.cs:370 | a u16 read is the little-endian value of its 2 bytes, and those bytes are that value's encoding |
| Bytes.ReadLe32 | ow.Framework/IO/Network/Requests/Server/HeartbeatRequest.cs:14 | a u32 read is the little-endian value of its 4 bytes, and those bytes are that value's encoding |
| Bytes.ReadLe64 | ow.Framework/IO/Network/Requests/Server/HeartbeatRequest.cs:14 | a u64 read is the little-endian value of its 8 bytes, and those bytes are that value's encoding |
| Bytes.I32RoundTrip | ow.Framework/IO/Network/GameSession.cs:220 | an `int` written as its two's-complement pattern reads back as itself |
| Shared.Ascii | ow.Framework/IO/Network/GameSession.cs:296 | `Encoding.ASCII.GetBytes` yields one byte per character |
| Fields.FieldBytes | ow.Framework/IO/Network/GameSession.cs:32-36 | each `writer.Write` appends exactly its type's width of bytes (1, 2, 4 or 8, n for a pad, the encoder's output for an extension) |
| Fields.DecodeEncode | ow.Framework/IO/Network/GameSession.cs:32-36 | a run of writes reads back field for field with BinaryReader, whatever bytes follow |
| Fields.EncodeConcat | ow.Framework/IO/Network/GameSession.cs:32-36 | the bytes of two runs of writes are the first run's bytes, then the second's |
| PacketIO.PacketWriter.Write | ow.Framework/IO/Network/GameSession.cs:32 | a write keeps the opcode and appends one field |
| PacketIO.WriteAppends | ow.Framework/IO/Network/GameSession.cs:32-36 | a write appends that field's bytes to the buffer and keeps what was there |
| PacketIO.NewWriterEmpty | ow.Framework/IO/Network/GameSession.cs:332 | a new writer holds no payload bytes |
| PacketIO.BinaryReader.ReadU8 | ow.Framework/IO/Network/Requests/Character/ChangeSlotRequest.cs:18 | ReadByte takes the byte at the cursor and advances it by 1; at the end of the data it fails and leaves the cursor at the end |
| PacketIO.BinaryReader.ReadU16 | ow.Framework/IO/Network/Requests/FriendRecruitListRequest.cs:16 | ReadUInt16 takes the next 2 bytes little-endian and advances by 2, or fails at the end |
| PacketIO.BinaryReader.ReadU32 | ow.Framework/IO/Network/Requests/Server/HeartbeatRequest.cs:14 | ReadUInt32 takes the next 4 bytes little-endian and advances by 4, or fails at the end |
| PacketIO.BinaryReader.ReadU64 | ow.Framework/IO/Network/Requests/Server/HeartbeatRequest.cs:14 | ReadUInt64 takes the next 8 bytes little-endian and advances by 8, or fails at the end |
| PacketIO.BinaryReader.ReadWith | Core/Systems/GameSystem/Datas/Bin/Table/Entities/CustomizeSkinTableEntity.cs:21-23 | an unmodelled reader (ReadHeroType, ReadByteLengthUnicodeString) yields its value and advances by the bytes it took, or fails at the end |
| Messages.HeartbeatPayload | ow.Framework/IO/Network/GameSession.cs:127-131 | the heartbeat reply's payload is the tick alone: 8 little-endian bytes whose value is the tick |
| Messages.CharacterSelectBytes | ow.Framework/IO/Network/GameSession.cs:240-250 | the CharacterSelect payload is character id, account id, 28 zero bytes, address, port, the place as the writer's Write(Place) writes it, 12 zero bytes |
| Messages.NpcOthersInfosCount | ow.Framework/IO/Network/GameSession.cs:39-54 | the NPC list begins with its count cast to u16 (mod 2^16) |
| Messages.StatsUpdateCount | ow.Framework/IO/Network/GameSession.cs:61-74 | a stats update begins with a zero byte, the character, then its count cast to a byte (mod 256) |
| Messages.DayEventBoosterCount | ow.Framework/IO/Network/GameSession.cs:112-121 | the booster list begins with its count cast to u16 (mod 2^16) |
| Messages.CharacterListCount | ow.Framework/IO/Network/GameSession.cs:213-230 | the character list begins with its count cast to a byte (mod 256) |
| Messages.GateListCount | ow.Framework/IO/Network/GameSession.cs:259-279 | the gate list begins with a zero byte, then the gate count cast to a byte |
| Messages.GesturesBytes | ow.Framework/IO/Network/GameSession.cs:84-89 | a gesture list is its ids as consecutive little-endian u32s, id k at bytes 4k..4k+3, with no count in front |
| Serialisers.WriteEmpty | ow.Framework/IO/Network/GameSession.cs:24-27 | the empty bodies write nothing and keep the opcode |
| Serialisers.WriteToggleWeapon | ow.Framework/IO/Network/GameSession.cs:29-37 | appends character id, position, rotation, toggle, unknown byte in that order, opcode unchanged |
| Serialisers.WriteNpcInfo | ow.Framework/IO/Network/GameSession.cs:45-52 | one NPC's eight fields, in order |
| Serialisers.WriteNpcOthersInfos | ow.Framework/IO/Network/GameSession.cs:39-54 | the u16 count, then each NPC's fields in list order |
| Serialisers.WriteStatsUpdate | ow.Framework/IO/Network/GameSession.cs:61-74 | zero byte, character, byte count, then value and stat per entry in order |
| Serialisers.WriteProfile | ow.Framework/IO/Network/GameSession.cs:76-82 | status, about, note |
| Serialisers.WriteGestures | ow.Framework/IO/Network/GameSession.cs:84-89 | the gesture ids in order, with no count |
| Serialisers.WriteChat | ow.Framework/IO/Network/GameSession.cs:100-106 | character, chat type, message |
| Serialisers.WriteDayEventBoosters | ow.Framework/IO/Network/GameSession.cs:112-121 | the u16 count, then maze and id per booster in order |
| Serialisers.WriteHeartbeat | ow.Framework/IO/Network/GameSession.cs:127-131 | the tick alone |
| Serialisers.WriteLogOut | ow.Framework/IO/Network/GameSession.cs:133-142 | account, character, address, port, then the GoToGateService and Success members |
| Serialisers.WriteWorldEnter | ow.Framework/IO/Network/GameSession.cs:148-155 | zero u32, result, place, zero byte |
| Serialisers.WriteWorldVersion | ow.Framework/IO/Network/GameSession.cs:157-164 | id, main, sub, data |
| Serialisers.WriteBoosterRemove | ow.Framework/IO/Network/GameSession.cs:170-174 | the booster id alone |
| Serialisers.WriteBoosterAdd | ow.Framework/IO/Network/GameSession.cs:176-182 | id, prototype id, duration |
| Serialisers.WriteGateEnter | ow.Framework/IO/Network/GameSession.cs:193-198 | result, account id |
| Serialisers.WriteMarkAsFavorite | ow.Framework/IO/Network/GameSession.cs:200-211 | account id, character id, zero u16, name, photo id, three zero u32s |
| Serialisers.WriteCharacterListTrailer | ow.Framework/IO/Network/GameSession.cs:220-229 | last selected, 0, 1, init time, zero u32, 1262271600 as u64, 17, 0, 0, 0 |
| Serialisers.WriteCharacterList | ow.Framework/IO/Network/GameSession.cs:213-230 | the byte count, each character in order, then the trailer |
| Serialisers.WriteChangeBackground | ow.Framework/IO/Network/GameSession.cs:232-238 | account id, background id, zero u32 |
| Serialisers.WriteCharacterSelect | ow.Framework/IO/Network/GameSession.cs:240-250 | character id, account id, 28 zeros, address, port, Write(Place) of the place, 12 zeros |
| Serialisers.WriteGateConnect | ow.Framework/IO/Network/GameSession.cs:252-257 | address, port |
| Serialisers.WriteGate | ow.Framework/IO/Network/GameSession.cs:267-277 | one gate's eleven fields, in order |
| Serialisers.WriteGateList | ow.Framework/IO/Network/GameSession.cs:259-279 | zero byte, byte count, then each gate's fields in order |
| Serialisers.WriteOptionLoad | ow.Framework/IO/Network/GameSession.cs:281-288 | 64 zero bytes, then each feature's status in order |
| Serialisers.WriteLoginResult | ow.Framework/IO/Network/GameSession.cs:290-309 | account, status, the ASCII MAC, 0, empty string, error code, 1, "134006893", session key, 0, zero u32, 0 |
| Serialisers.WriteCurrentDate | ow.Framework/IO/Network/GameSession.cs:311-322 | seconds, year, month, day, hour, minute, second, daylight flag |
| Session.GameSession.constructor | ow.Framework/IO/Network/GameSession.cs:345-346 | a new session keeps its handler table and has dispatched, sent and disconnected nothing |
| Session.GameSession.Send | ow.Framework/IO/Network/GameSession.cs:330-343 | an accepted send hands exactly the packed writer contents to the transport once and succeeds; a refused one sends nothing and fails |
| Session.GameSession.SendCharacterDbLoadSync | ow.Framework/IO/Network/GameSession.cs:24-27 | sends one packed empty CharacterDbLoadSync frame when accepted, nothing otherwise |
| Session.GameSession.SendToggleWeapon | ow.Framework/IO/Network/GameSession.cs:29-37 | sends one packed CharacterToggleWeapon frame of that layout when accepted |
| Session.GameSession.SendNpcOthersInfos | ow.Framework/IO/Network/GameSession.cs:39-54 | sends one packed NpcOtherInfos frame of that layout when accepted |
| Session.GameSession.SendCharacterInfo | ow.Framework/IO/Network/GameSession.cs:56-59 | sends one empty CharacterInfo frame when accepted |
| Session.GameSession.SendStatsUpdate | ow.Framework/IO/Network/GameSession.cs:61-74 | sends one CharacterStatsUpdate frame of that layout when accepted |
| Session.GameSession.SendProfile | ow.Framework/IO/Network/GameSession.cs:76-82 | sends one CharacterProfileInfo frame of that layout when accepted |
| Session.GameSession.SendGestureLoad | ow.Framework/IO/Network/GameSession.cs:84-89 | sends one GestureLoad frame of the gesture ids when accepted |
| Session.GameSession.SendPostInfo | ow.Framework/IO/Network/GameSession.cs:91-94 | sends one empty PostInfo frame when accepted |
| Session.GameSession.SendChat | ow.Framework/IO/Network/GameSession.cs:100-106 | sends one ChatMessage frame of that layout when accepted |
| Session.GameSession.SendDayEventBoosters | ow.Framework/IO/Network/GameSession.cs:112-121 | sends one EventDayEventBoosterList frame of that layout when accepted |
| Session.GameSession.SendHeartbeat | ow.Framework/IO/Network/GameSession.cs:127-131 | sends one Heartbeat frame carrying the tick when accepted |
| Session.GameSession.SendLogOut | ow.Framework/IO/Network/GameSession.cs:133-142 | sends one LogOut frame of that layout when accepted |
| Session.GameSession.SendWorldEnter | ow.Framework/IO/Network/GameSession.cs:148-155 | sends one WorldEnter frame of that layout when accepted |
| Session.GameSession.SendWorldVersion | ow.Framework/IO/Network/GameSession.cs:157-164 | sends one WorldVersion frame of that layout when accepted |
| Session.GameSession.SendBoosterRemove | ow.Framework/IO/Network/GameSession.cs:170-174 | sends one BoosterRemove frame when accepted |
| Session.GameSession.SendBoosterAdd | ow.Framework/IO/Network/GameSession.cs:176-182 | sends one BoosterAdd frame when accepted |
| Session.GameSession.SendGestureUpdateSlots | ow.Framework/IO/Network/GameSession.cs:186-191 | sends one GestureUpdateSlots frame of the ids when accepted |
| Session.GameSession.SendGateEnter | ow.Framework/IO/Network/GameSession.cs:193-198 | sends one GateEnter frame when accepted |
| Session.GameSession.SendMarkAsFavorite | ow.Framework/IO/Network/GameSession.cs:200-211 | sends one CharacterMarkAsFavorite frame when accepted |
| Session.GameSession.SendCharacterList | ow.Framework/IO/Network/GameSession.cs:213-230 | sends one CharactersList frame when accepted |
| Session.GameSession.SendChangeBackground | ow.Framework/IO/Network/GameSession.cs:232-238 | sends one CharacterChangeBackground frame when accepted |
| Session.GameSession.SendCharacterSelect | ow.Framework/IO/Network/GameSession.cs:240-250 | sends one CharacterSelect frame when accepted |
| Session.GameSession.SendGateConnect | ow.Framework/IO/Network/GameSession.cs:252-257 | sends one GateConnect frame when accepted |
| Session.GameSession.SendGateList | ow.Framework/IO/Network/GameSession.cs:259-279 | sends one GateList frame when accepted |
| Session.GameSession.SendOptionLoad | ow.Framework/IO/Network/GameSession.cs:281-288 | sends one OptionLoad frame when accepted |
| Session.GameSession.SendLoginResult | ow.Framework/IO/Network/GameSession.cs:290-309 | sends one LoginResult frame when accepted |
| Session.GameSession.SendCurrentDate | ow.Framework/IO/Network/GameSession.cs:311-322 | sends one CurrentDate frame when accepted |
| Session.GameSession.ProcessPacket | ow.Framework/IO/Network/GameSession.cs:390-401 | applies Exchange to the body first, reads the first 2 bytes as the opcode, and invokes that opcode's handler on the rest; a body too short for an opcode dispatches nothing and fails |
| Session.GameSession.ReadEnvelopeAt | ow.Framework/IO/Network/GameSession.cs:359-375 | one pass over the array reads exactly the frame the slice function gives, touching only buffer[offset..offset+size] |
| Session.GameSession.ReceiveOne | ow.Framework/IO/Network/GameSession.cs:364-387 | one loop pass dispatches what StepAt says; a fault disconnects; it goes on only with the cursor moved forward within the slice |
| Session.GameSession.OnReceived | ow.Framework/IO/Network/GameSession.cs:357-388 | the handlers invoked are exactly Receive of buffer[offset..offset+size], in order, and the session disconnects exactly when that ends in a fault |
| Session.WindowSlice | ow.Framework/IO/Network/GameSession.cs:359 | reading at cursor i of the MemoryStream is reading at offset + i of the buffer |
| Framing.ReadFrame | ow.Framework/IO/Network/GameSession.cs:366-375 | a frame is read exactly when the length field is inside the slice and at least 5. The body is the bytes from cursor+5, min(length−5, what is left) of them. The cursor advances by at least 5 |
| Framing.Unpack | ow.Framework/IO/Network/GameSession.cs:392-397 | a body unpacks exactly when its exchanged form has 2 bytes. That form is the opcode's little-endian bytes followed by the payload |
| Framing.StepAt | ow.Framework/IO/Network/GameSession.cs:364-387 | a pass continues only after a dispatch whose handler completed, with the cursor 5 or more bytes on and still inside the slice |
| Framing.Resume | ow.Framework/IO/Network/GameSession.cs:364-376 | resuming at cursor 0 with nothing dispatched is Receive |
| Framing.ResumeStep | ow.Framework/IO/Network/GameSession.cs:364-376 | one pass either ends the loop with what it dispatched or resumes further on with that dispatch appended |
| Framing.Envelope | ow.Framework/IO/Network/GameSession.cs:367-375 | the client's envelope around a body is 5 bytes longer than the body |
| Framing.ReadEnvelope | ow.Framework/IO/Network/GameSession.cs:367-375 | a well-formed envelope reads back as its body, and the cursor lands just after it, whatever follows |
| Framing.ReadFrameShift | ow.Framework/IO/Network/GameSession.cs:367-375 | reading a frame depends only on the bytes from the cursor on |
| Framing.IterateShift | ow.Framework/IO/Network/GameSession.cs:364-376 | the loop over a slice behaves the same after a prefix it has passed |
| Framing.ReceiveCons | ow.Framework/IO/Network/GameSession.cs:364-376 | a well-formed envelope followed by more bytes dispatches its body, then receives the rest as a slice of its own |
| Framing.ReceiveSingle | ow.Framework/IO/Network/GameSession.cs:364-376 | a slice of one well-formed envelope dispatches it alone, with no fault |
| Framing.ReceiveEnvelopes | ow.Framework/IO/Network/GameSession.cs:364-376 | back-to-back envelopes in one slice are each dispatched exactly once, in arrival order, with no fault, when each body unpacks and its handler completes |
| Framing.IterateContinues | ow.Framework/IO/Network/GameSession.cs:375-376 | after a completed dispatch short of the end, the loop continues from the frame's end |
| Framing.ShortSlice | ow.Framework/IO/Network/GameSession.cs:370 | a slice under 4 bytes, the empty one included, faults with nothing dispatched |
| Framing.NegativeLengthFaults | ow.Framework/IO/Network/GameSession.cs:370-375 | a declared length below 5 faults before anything of that envelope is dispatched |
| Framing.TruncatedTail | ow.Framework/IO/Network/GameSession.cs:375 | a final envelope declaring more than the slice holds is dispatched with the bytes that remain |
| Framing.FaultEndsSlice | ow.Framework/IO/Network/GameSession.cs:379-386 | a dispatch happens only after a frame read and unpack succeed; a failed handler is the last dispatch of the slice, and the slice ends in a fault |
| Framing.DispatchBound | ow.Framework/IO/Network/GameSession.cs:367-376 | each dispatch consumes at least 5 bytes, so a slice of n bytes yields at most (n + 1) / 5 dispatches |
| Gate.WithCharacter | ow.Service.Gate/Network/Extensions/GameSessionExtension.cs:51 | an entity is listed exactly when it is in the collection and has an EntityCharacter; every listed entity has one, and the list is no longer than the collection |
| Gate.WithCharacterConcat | ow.Service.Gate/Network/Extensions/GameSessionExtension.cs:51 | the filter keeps enumeration order |
| Gate.WithCharacterAll | ow.Service.Gate/Network/Extensions/GameSessionExtension.cs:51 | when every entity has a character, the filter returns the collection unchanged |
| Gate.LastSelectedId | ow.Service.Gate/Network/Extensions/GameSessionExtension.cs:57 | the last selection's id, or −1 when there is none |
| Gate.GateEnterResultBytes | ow.Service.Gate/Network/Extensions/GameSessionExtension.cs:17-24 | GateEnter carries the Success member, then the account id, and nothing else |
| Gate.CharactersListCount | ow.Service.Gate/Network/Extensions/GameSessionExtension.cs:50-53 | the count byte is the number of entities having a character, cast to a byte |
| Gate.CharactersListEntries | ow.Service.Gate/Network/Extensions/GameSessionExtension.cs:53-57 | after the count come one WriteCharacter(Entity) field per listed entity, in order, then the ten trailer fields starting with the last-selected id |
| Gate.SendGateEnterResult | ow.Service.Gate/Network/Extensions/GameSessionExtension.cs:15-25 | one GateEnter frame of Success and the account id, sent once; nothing without an account |
| Gate.SendFavoriteCharacter | ow.Service.Gate/Network/Extensions/GameSessionExtension.cs:27-44 | one frame under CharacterMakrAsFavorite: account, favourite id, zero u16, name, photo id, three zero u32s; nothing when a component or the favourite is missing |
| Gate.SendCharactersList | ow.Service.Gate/Network/Extensions/GameSessionExtension.cs:46-69 | one CharactersList frame: the count byte, WriteCharacter(Entity) of each entity having a character, then the last-selected id and the fixed trailer; nothing without the Characters component |
| Gate.SendCharacterBackground | ow.Service.Gate/Network/Extensions/GameSessionExtension.cs:71-84 | one frame of account id, background id, zero u32 |
| Gate.GateCharacterSelectBytes | ow.Service.Gate/Network/Extensions/GameSessionExtension.cs:86-105 | the payload is last-selected id, account id, 28 zero bytes, the district address and port, the place as WritePlace writes it, 12 zero bytes |
| Gate.SendCharacterSelect | ow.Service.Gate/Network/Extensions/GameSessionExtension.cs:86-105 | one frame of last-selected id, account id, 28 zeros, district address and port, WritePlace of the place, 12 zeros; nothing when a component or the selection is missing |
| CharacterCreate.HeroRules | ow.Service.Gate/Network/Helpers/CharacterCreateHelper.cs:15-19 | a hero passes exactly when it is a defined member other than Hero.None |
| CharacterCreate.ChoiceRules | ow.Service.Gate/Network/Helpers/CharacterCreateHelper.cs:21-28 | the shared rule: a pass implies an entry exists and the choice is non-zero and listed; rejection happens exactly for a missing entry, a zero or an unlisted choice |
| CharacterCreate.HairRules | ow.Service.Gate/Network/Helpers/CharacterCreateHelper.cs:21-28 | a hair style passes exactly when the hero has an entry and the style is non-zero and in its Style list |
| CharacterCreate.EyesRules | ow.Service.Gate/Network/Helpers/CharacterCreateHelper.cs:30-37 | the same three rules for the eye colour against the entry's Color |
| CharacterCreate.SkinRules | ow.Service.Gate/Network/Helpers/CharacterCreateHelper.cs:39-46 | the same three rules for the skin colour against the entry's Color |
| CharacterCreate.OutfitKey | ow.Service.Gate/Network/Helpers/CharacterCreateHelper.cs:54 | the key is 1000 × (hero mod 256) whenever the low byte of the hero code is below 66 |
| CharacterCreate.OutfitKeyWraps | ow.Service.Gate/Network/Helpers/CharacterCreateHelper.cs:54 | the byte cast makes hero codes 256 apart share a key, and from a low byte of 66 on the 16-bit truncation changes the key (66 looks up 464) |
| CharacterCreate.OutfitRules | ow.Service.Gate/Network/Helpers/CharacterCreateHelper.cs:48-59 | an outfit passes exactly when the truncated key has an entry and the outfit is non-zero and a default outfit there |
| CharacterCreate.FirstPhoto | ow.Service.Gate/Network/Helpers/CharacterCreateHelper.cs:96 | the photo is the first item matching the hero with PromotionInfo 1. There is none exactly when no item matches |
| CharacterCreate.CreateModelFields | ow.Service.Gate/Network/Helpers/CharacterCreateHelper.cs:61-97 | the model copies account, gate, slot, name, hero and the whole appearance. QuickSlot is 18 zeros, Gestures 6 zeros, LearnedSkill empty. The place is location 10003, rotation 0, with the nine storages. It fails exactly when no photo matches |
| CharacterCreate.ValidatedModel | ow.Service.Gate/Network/Helpers/CharacterCreateHelper.cs:15-97 | a request passing the hero, hair, eyes and skin validators becomes a character of a defined hero other than None whose hair style, eye colour and skin colour are non-zero entries of that hero's table lists |
| CharacterCreate.StorageIndex | ow.Service.Gate/Network/Helpers/CharacterCreateHelper.cs:99-110 | every storage type has a place among the nine |
| CharacterCreate.StoragesOncePerType | ow.Service.Gate/Network/Helpers/CharacterCreateHelper.cs:99-110 | exactly nine storages, each type once, in the fixed order EquippedBattleFashion … BankExtra |
| Requests.HeartbeatBytes | ow.Framework/IO/Network/Requests/Server/HeartbeatRequest.cs:14 | the request's wire form is 20 bytes |
| Requests.ParseHeartbeat | ow.Framework/IO/Network/Requests/Server/HeartbeatRequest.cs:13-14 | it fails exactly on fewer than 20 bytes, and otherwise its fields re-encode to the first 20 bytes |
| Requests.HeartbeatRoundTrip | ow.Framework/IO/Network/Requests/Server/HeartbeatRequest.cs:14 | encoding tick and both unknowns and decoding gives them back, whatever follows |
| Requests.HeartbeatTickEcho | ow.Framework/IO/Network/Requests/Server/HeartbeatRequest.cs:9-14 | the tick is the little-endian u64 of bytes 0..7, and the heartbeat reply carries exactly those bytes |
| Requests.ReadHeartbeat | ow.Framework/IO/Network/Requests/Server/HeartbeatRequest.cs:13-14 | the cursor decoder computes ParseHeartbeat of what remains and advances exactly 20 bytes, or fails at the end |
| Requests.ChangeSlotBytes | ow.Framework/IO/Network/Requests/Character/ChangeSlotRequest.cs:14-20 | the request's wire form is 18 bytes |
| Requests.ParseChangeSlot | ow.Framework/IO/Network/Requests/Character/ChangeSlotRequest.cs:14-20 | it fails exactly on fewer than 18 bytes. FirstSlot is byte 16, SecondSlot byte 17, and the fields re-encode to the first 18 bytes |
| Requests.ChangeSlotRoundTrip | ow.Framework/IO/Network/Requests/Character/ChangeSlotRequest.cs:16-19 | encoding the request and decoding it gives it back |
| Requests.ReadChangeSlot | ow.Framework/IO/Network/Requests/Character/ChangeSlotRequest.cs:14-20 | the cursor decoder computes ParseChangeSlot and advances exactly 18 bytes, or fails at the end |
| Requests.FriendRecruitListBytes | ow.Framework/IO/Network/Requests/FriendRecruitListRequest.cs:14-20 | the request's wire form is 7 bytes |
| Requests.ParseFriendRecruitList | ow.Framework/IO/Network/Requests/FriendRecruitListRequest.cs:14-20 | it fails exactly on fewer than 7 bytes. Unknown1..3 are the little-endian u16s at offsets 0, 2 and 4, and Unknown4 is byte 6 |
| Requests.FriendRecruitListRoundTrip | ow.Framework/IO/Network/Requests/FriendRecruitListRequest.cs:16-19 | encoding the four fields and decoding gives them back |
| Requests.ReadFriendRecruitList | ow.Framework/IO/Network/Requests/FriendRecruitListRequest.cs:14-20 | the cursor decoder computes ParseFriendRecruitList and advances exactly 7 bytes, or fails at the end |
| CustomizeSkin.Words | Core/Systems/GameSystem/Datas/Bin/Table/Entities/CustomizeSkinTableEntity.cs:22 | n u32 reads give n words |
| CustomizeSkin.ParseMany | Core/Systems/GameSystem/Datas/Bin/Table/Entities/CustomizeSkinTableEntity.cs:23 | n successful reads give n values within the bytes given |
| CustomizeSkin.ParseManyStaysFailed | Core/Systems/GameSystem/Datas/Bin/Table/Entities/CustomizeSkinTableEntity.cs:23 | once one read fails, no longer run of reads succeeds |
| CustomizeSkin.ParseManyPrefix | Core/Systems/GameSystem/Datas/Bin/Table/Entities/CustomizeSkinTableEntity.cs:22-24 | fewer reads see a prefix of the values, so elements appear in read order |
| CustomizeSkin.ParseRecord | Core/Systems/GameSystem/Datas/Bin/Table/Entities/CustomizeSkinTableEntity.cs:19-25 | a record read ends within the data, at or after where it started |
| CustomizeSkin.ParseLists | Core/Systems/GameSystem/Datas/Bin/Table/Entities/CustomizeSkinTableEntity.cs:22-24 | the lists read ends within the data |
| CustomizeSkin.ParseIcons | Core/Systems/GameSystem/Datas/Bin/Table/Entities/CustomizeSkinTableEntity.cs:23-24 | the icons and Unknown2 read ends within the data |
| CustomizeSkin.ParseUnknown2 | Core/Systems/GameSystem/Datas/Bin/Table/Entities/CustomizeSkinTableEntity.cs:24 | the Unknown2 read ends within the data |
| CustomizeSkin.ParseCustomizeSkin | Core/Systems/GameSystem/Datas/Bin/Table/Entities/CustomizeSkinTableEntity.cs:19-27 | a decoded record has exactly ItemsCount = 10 elements in each of Unknown1, Icons and Unknown2 |
| CustomizeSkin.WordsRoundTrip | Core/Systems/GameSystem/Datas/Bin/Table/Entities/CustomizeSkinTableEntity.cs:22 | words read back from where their bytes were written are the list |
| CustomizeSkin.ParseManyRoundTrip | Core/Systems/GameSystem/Datas/Bin/Table/Entities/CustomizeSkinTableEntity.cs:23 | with a string reader that inverts its encoding, n strings read back in order and take exactly their bytes |
| CustomizeSkin.ListsRoundTrip | Core/Systems/GameSystem/Datas/Bin/Table/Entities/CustomizeSkinTableEntity.cs:22-24 | all of Unknown1, then all Icons, then all Unknown2 decode from their wire form wherever it starts, ending just after it |
| CustomizeSkin.RecordRoundTrip | Core/Systems/GameSystem/Datas/Bin/Table/Entities/CustomizeSkinTableEntity.cs:19-25 | the id first, then the three lists, decode from the record's wire form whatever follows, ending just after it |
| CustomizeSkin.ReadWords | Core/Systems/GameSystem/Datas/Bin/Table/Entities/CustomizeSkinTableEntity.cs:22 | the read loop gives Words of the bytes at the cursor and advances 4n, or fails at the end |
| CustomizeSkin.ReadMany | Core/Systems/GameSystem/Datas/Bin/Table/Entities/CustomizeSkinTableEntity.cs:23 | the read loop gives ParseMany of what remains and advances by the bytes taken, or fails at the end |
| CustomizeSkin.ReadRecord | Core/Systems/GameSystem/Datas/Bin/Table/Entities/CustomizeSkinTableEntity.cs:19-25 | the constructor's reads compute ParseRecord and leave the cursor at its end |
| CustomizeSkin.ReadLists | Core/Systems/GameSystem/Datas/Bin/Table/Entities/CustomizeSkinTableEntity.cs:22-24 | the three list reads compute ParseLists |
| CustomizeSkin.ReadIcons | Core/Systems/GameSystem/Datas/Bin/Table/Entities/CustomizeSkinTableEntity.cs:23-24 | the Icons and Unknown2 reads compute ParseIcons |
| CustomizeSkin.ReadUnknown2 | Core/Systems/GameSystem/Datas/Bin/Table/Entities/CustomizeSkinTableEntity.cs:24 | the Unknown2 reads compute ParseUnknown2 |
| CustomizeSkin.ReadCustomizeSkin | Core/Systems/GameSystem/Datas/Bin/Table/Entities/CustomizeSkinTableEntity.cs:19-27 | the constructor computes ParseCustomizeSkin with ten-element lists and leaves the cursor after the record |
| WorldTable.GetPosition | ow.Service.District/Game/Repositories/NpcRepository.cs:44-54 | a spawn position is taken at the box centre exactly when the box's creation type is Center, and at a random point of the box otherwise; either way it is drawn from the box's own two corners |
| CachedNpcs.BoxNpcsSingle | ow.Service.District/Game/CachedNpcs.cs:19-20 | one slot yields its NPC exactly when its id is non-zero and its type is Npc |
| CachedNpcs.BoxNpcsConcat | ow.Service.District/Game/CachedNpcs.cs:18-20 | the filter keeps slot order |
| CachedNpcs.GetNpcsConcat | ow.Service.District/Game/CachedNpcs.cs:17-21 | the flattening keeps box order |
| CachedNpcs.GetNpcsSingle | ow.Service.District/Game/CachedNpcs.cs:17-21 | one box contributes exactly its own slots' NPCs |
| CachedNpcs.BoxNpcsCount | ow.Service.District/Game/CachedNpcs.cs:18-20 | a box yields one NPC per qualifying slot |
| CachedNpcs.GetNpcsCount | ow.Service.District/Game/CachedNpcs.cs:17-21 | the list has as many entries as there are qualifying slots, summed over the boxes |
| CachedNpcs.BoxNpcsFromSlots | ow.Service.District/Game/CachedNpcs.cs:19-20 | every NPC of a box comes from one of its qualifying slots |
| CachedNpcs.BoxNpcsHasSlots | ow.Service.District/Game/CachedNpcs.cs:19-20 | every qualifying slot of a box yields its NPC |
| CachedNpcs.GetNpcsFromSlots | ow.Service.District/Game/CachedNpcs.cs:17-21 | nothing is invented: every listed NPC is yielded by some qualifying slot of some box |
| CachedNpcs.GetNpcsHasSlots | ow.Service.District/Game/CachedNpcs.cs:17-21 | nothing is dropped: every qualifying slot's NPC is listed |
| CachedNpcs.GetNpcsMembers | ow.Service.District/Game/CachedNpcs.cs:17-21 | an NPC is listed exactly when some qualifying slot yields it, with the slot's monster id and its box's position, rotation and waypoint |
| CachedNpcs.AllNpcSlotsBox | ow.Service.District/Game/CachedNpcs.cs:19-20 | when every slot qualifies, NPC j is the one slot j yields |
| NpcRepository.IdStep | ow.Service.District/Game/Repositories/NpcRepository.cs:38 | `id++` on a uint steps by one and wraps from 0xFFFFFFFF to 0 |
| NpcRepository.Numbered | ow.Service.District/Game/Repositories/NpcRepository.cs:35-39 | one entity per NPC |
| NpcRepository.NumberedAt | ow.Service.District/Game/Repositories/NpcRepository.cs:35-38 | entity i is NPC i with the counter's value after i steps |
| NpcRepository.GetNpcs | ow.Service.District/Game/Repositories/NpcRepository.cs:35-39 | the nested loops with the captured counter produce the cached NPC list, numbered in output order |
| NpcRepository.BoxEntities | ow.Service.District/Game/Repositories/NpcRepository.cs:36-38 | one box's inner query appends its qualifying slots' entities in slot order, each taking the counter's value before it steps |
| NpcRepository.NpcRepository.constructor | ow.Service.District/Game/Repositories/NpcRepository.cs:31-33 | the repository holds the numbered NPC list of the zone's spawn boxes |
| NpcRepository.EntityCount | ow.Service.District/Game/Repositories/NpcRepository.cs:36-39 | the entity count is the sum over boxes of the qualifying slots |
| NpcRepository.MatchesCachedNpcs | ow.Service.District/Game/Repositories/NpcRepository.cs:35-39 | the repository lists the cached NPCs in the same order with the same monster id, placement rule and box corners, rotation and waypoint (the same point only for Center boxes; otherwise each list draws its own random point in that box) |
| NpcRepository.IdsConsecutive | ow.Service.District/Game/Repositories/NpcRepository.cs:35-38 | below 2^32 entities the ids are 0, 1, 2, … in output order, and no two are equal |
| NpcRepository.IdsWrap | ow.Service.District/Game/Repositories/NpcRepository.cs:38 | entity number 2^32 reuses id 0 |
| NpcRepository.EntitiesFromSlots | ow.Service.District/Game/Repositories/NpcRepository.cs:37-38 | every entity comes from a qualifying slot (id ≠ 0, type Npc) and carries that slot's id and its box's position, rotation and waypoint |

## Left out

- The socket layer, connect, disconnect and error logging hooks are I/O. The transport's answer to a send is a boolean parameter of each send method (`accepted`).
- PacketUtils.Exchange, PacketUtils.Pack and the handler table are not part of this model. They are constant parameters of the session: `exchange`, `pack`, and `handlers`, which says whether a handler returns normally. What handlers do to other state is not modelled.
- The writer extensions are not part of this model: the two string encoders, WriteVector3, the two WriteCharacter overloads (of a character record and of a DefaultEcs entity), WritePlace, the PacketWriter's own Write(Place) and the enumeration writers. Each is its own function of `Shared.Encoders`, and a layout records its output as raw bytes. ReadHeroType and ReadByteLengthUnicodeString are parameters of the CustomizeSkin decoder.
- Numeric codes of opcodes and enumeration members are defined outside the modelled files and are kept symbolic.
- The response records are defined outside the modelled files, so the width of each field is fixed by choice:
  - u32: the account ids; the character ids of ToggleWeapon, StatsUpdate, Chat and LogOut; NpcInfo's id, waypoint and npc id; the booster fields; the four world-version fields; the background ids; the photo ids; Place.location.
  - i32: Character.id, MarkAsFavorite.characterId, CharacterSelect.characterId and CharacterList.lastSelected.
  - u16: every port, GateInfo.id, GateInfo.playersOnline and CurrentDate.year.
  - byte: ToggleWeapon.unknown1, GateInfo.charactersCount and CurrentDate's month to second.
  - u64: CharacterList.initializeTime, AuthLogin.sessionKey and CurrentDate.unixTimeSeconds.
  - Statuses, results and stat ids are their enumeration's code. `Bool` fields are one byte.
- `float` values are kept as their IEEE-754 bit patterns. No float arithmetic is modelled.
- WorldTable.GetPosition: the centre is not computed as a float midpoint, and the random point is not drawn. The position records which rule applies and the box's corners. Each `new Random()` call is therefore not modelled.
- Debug builds are not modelled: `Debug.Assert`, `DebugLogOpcode` and the absence of Disconnect in a debug receive. Only release behaviour is.
- Session.GameSession.Send: a refused send throws NetworkException in release. Here that is `ok == false` with nothing sent; the exception's propagation to the caller is not modelled.
- PacketWriter is a value, rebuilt by each write, and not a mutable stream shared by reference. Aliasing of one writer by two callers is therefore not captured, and the `using` disposal is not modelled.
- Session.GameSession.OnReceived works on the buffer array directly, not through a MemoryStream. The `(int)` casts of `offset` and `size` are not modelled: both are non-negative and inside the array.
- The session's DefaultEcs entity is replaced by `Gate.GateState`, a record of optional components. A missing component, a null favourite or a null last selection makes the extension send nothing and report failure, where the code throws.
- Gate.SendCharactersList: the Characters component's InitializeTime is a TimeSpan, and `(ulong)TotalSeconds` truncates a double. The component here holds the already converted u64 (`initializeTimeSeconds`), so the truncation is not modelled.
- Gate.SendCharactersList: WriteCharacter(Entity) reads components of the entity that the model does not have. `Shared.CharacterEntity` stands for the entity by a handle and its optional EntityCharacter, and `Encoders.entity` is what that overload writes for it.
- Gate.SendFavoriteCharacter: a favourite whose Photo is null is not modelled, because the character record has a plain photo id.
- The SendAsync(PacketWriter) overload the extensions call is defined outside the modelled files. It is modelled as GameSession.Send, which packs the writer as SendAsync(opcode, func) does.
- NetworkUtils.DropSession is defined outside the modelled files. The validators are predicates that are false where the code drops the session, on the reading that it never returns.
- CharacterCreate: the Hero enumeration is a parameter (`HeroEnum`), and the bin tables are maps from key to the list each validator consults. The CustomizeSkin record in the table tree has no Color field. The validator therefore reads an abstract per-hero colour list; the two records come from different versions of the code.
- CharacterCreate.CreateModel: the empty Bank, Inventory, Energy, Title and Profile objects are not modelled. The start position is kept as the bit patterns of its three floats.
- The world table's XML loading (XmlNode lookups, `int.Parse`, `Enum.Parse`) is not modelled. So are the spawn box fields the NPC lists do not read, and the members of MonsterSpawnType other than Npc and of CreationPositionType other than Center, which are kept by code. The loader gives each box ten monster slots (`WorldTable.MonsterSlots`), but the lemmas hold for any number.
- The spawn box's Waypoint is an `int` in the engine's table class and a `uint` in the repository's entity. The model keeps it as a u32.
- Service bootstrap and configuration are not part of this model: the District server, the Zone and dependency injection.
