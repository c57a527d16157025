/**
  The gate service's session extensions
  (ow.Service.Gate/Network/Extensions/GameSessionExtension.cs). Each reads
  components of the session's entity, writes one message into a fresh
  PacketWriter and sends it once.

  The entity queries (`session.Entity.Get<T>()`) are replaced by a plain
  per-session record whose components may be missing; a missing
  component, like a null favourite or last-selected character, makes the
  extension throw before anything is sent. SendAsync(PacketWriter) packs
  and sends the writer as GameSession.SendAsync(opcode, func) does.
 */
module Gate {
  import opened Bytes
  import opened Wrappers
  import opened Fields
  import opened PacketIO
  import opened Shared
  import opened Messages
  import opened Serialisers
  import opened Session

  /** The Characters component: the entities, the favourite, the last selection and the initialisation time. */
  datatype Characters = Characters(
    entities: seq<CharacterEntity>,
    favorite: Option<Character>,
    lastSelected: Option<Character>,
    initializeTimeSeconds: u64)

  /** The components of one gate session's entity. */
  datatype GateState = GateState(
    account: Option<u32>,
    characters: Option<Characters>,
    background: Option<u32>,
    place: Option<Place>)

  /** The district a character enters. */
  datatype DistrictInstance = DistrictInstance(ip: string, port: u16)

  /** `characters.Where(c => c.Has<EntityCharacter>())`: the entities that have a character, in order. */
  function WithCharacter(es: seq<CharacterEntity>): (r: seq<CharacterEntity>)
    ensures |r| <= |es|
    ensures forall i :: 0 <= i < |r| ==> r[i].character.Some?
    ensures forall e :: e in r <==> e in es && e.character.Some?
  {
    if es == [] then []
    else
      var rest := WithCharacter(es[1..]);
      assert es == [es[0]] + es[1..];
      if es[0].character.Some? then [es[0]] + rest else rest
  }

  /** Filtering keeps enumeration order: the filter of a concatenation is the concatenation of the filters. */
  lemma {:induction false} WithCharacterConcat(a: seq<CharacterEntity>, b: seq<CharacterEntity>)
    ensures WithCharacter(a + b) == WithCharacter(a) + WithCharacter(b)
  {
    if a != [] {
      assert (a + b)[0] == a[0] && (a + b)[1..] == a[1..] + b;
      WithCharacterConcat(a[1..], b);
      if a[0].character.Some? {
        assert WithCharacter(a + b) == [a[0]] + (WithCharacter(a[1..]) + WithCharacter(b));
      }
    } else {
      assert a + b == b;
    }
  }

  /** When every entity has a character, all of them are listed, in their order. */
  lemma {:induction false} WithCharacterAll(es: seq<CharacterEntity>)
    requires forall i :: 0 <= i < |es| ==> es[i].character.Some?
    ensures WithCharacter(es) == es
  {
    if es != [] {
      WithCharacterAll(es[1..]);
      assert es == [es[0]] + es[1..];
    }
  }

  /** `characters.LastSelected?.Id ?? -1`. */
  function LastSelectedId(ch: Characters): (r: i32)
    ensures ch.lastSelected.None? ==> r == -1
    ensures ch.lastSelected.Some? ==> r == ch.lastSelected.value.id
  {
    match ch.lastSelected
    case Some(c) => c.id
    case None => -1
  }

  /** One listed entity, written by WriteCharacter(Entity). */
  function EntityFields(enc: Encoders, e: CharacterEntity): seq<Field> {
    [Raw(enc.entity(e))]
  }

  /** SendCharactersList's layout: the count as a byte, each entity that has a character, then the trailer. */
  function CharactersListLayout(enc: Encoders, ch: Characters): seq<Field> {
    [U8(ByteCount(|WithCharacter(ch.entities)|))] + Flatten(WithCharacter(ch.entities), e => EntityFields(enc, e))
      + CharacterListTrailer(LastSelectedId(ch), ch.initializeTimeSeconds)
  }

  /** SendGateEnterResult's layout: the Success result, then the account id, and nothing else. */
  function GateEnterResultLayout(enc: Encoders, accountId: u32): seq<Field> {
    [Raw(enc.enumeration(GateEnterSuccess)), U32(accountId)]
  }

  lemma {:induction false} GateEnterResultBytes(enc: Encoders, accountId: u32)
    ensures Encode(GateEnterResultLayout(enc, accountId)) == enc.enumeration(GateEnterSuccess) + Le32(accountId)
    ensures |Encode(GateEnterResultLayout(enc, accountId))| == |enc.enumeration(GateEnterSuccess)| + 4
  {
    EncodeCons(Raw(enc.enumeration(GateEnterSuccess)), [U32(accountId)]);
    EncodeCons(U32(accountId), []);
  }

  /** The gate's list starts with the number of entities having a character, cast to a byte. */
  lemma {:induction false} CharactersListCount(enc: Encoders, ch: Characters)
    ensures |Encode(CharactersListLayout(enc, ch))| >= 1
    ensures Encode(CharactersListLayout(enc, ch))[0] == |WithCharacter(ch.entities)| % 0x100
  {
    var listed := WithCharacter(ch.entities);
    var c := Flatten(listed, e => EntityFields(enc, e));
    var t := CharacterListTrailer(LastSelectedId(ch), ch.initializeTimeSeconds);
    assert CharactersListLayout(enc, ch) == [U8(ByteCount(|listed|))] + (c + t);
    EncodeCons(U8(ByteCount(|listed|)), c + t);
  }

  /** After the count come one WriteCharacter(Entity) field per listed entity, in order, then the ten trailer fields. */
  lemma {:induction false} CharactersListEntries(enc: Encoders, ch: Characters)
    ensures |CharactersListLayout(enc, ch)| == 1 + |WithCharacter(ch.entities)| + 10
    ensures forall i :: 0 <= i < |WithCharacter(ch.entities)| ==>
      CharactersListLayout(enc, ch)[1 + i] == Raw(enc.entity(WithCharacter(ch.entities)[i]))
    ensures CharactersListLayout(enc, ch)[1 + |WithCharacter(ch.entities)|] == I32(LastSelectedId(ch))
  {
    var listed := WithCharacter(ch.entities);
    FlattenSingles(listed, e => EntityFields(enc, e));
  }

  /** SendGateEnterResult: GateEnter with Success and the account id. */
  method SendGateEnterResult(session: GameSession, state: GateState, accepted: bool) returns (ok: bool)
    modifies session`sent
    ensures state.account.None? ==> !ok && session.sent == old(session.sent)
    ensures state.account.Some? ==>
      ok == accepted &&
      session.sent == old(session.sent) +
        session.Emitted(ClientOpcode.GateEnter, GateEnterResultLayout(session.enc, state.account.value), accepted)
  {
    var w := PacketWriter(ClientOpcode.GateEnter, []);
    w := w.Write(Raw(session.enc.enumeration(GateEnterSuccess)));
    if state.account.None? {
      return false;
    }
    w := w.Write(U32(state.account.value));
    assert w.written == GateEnterResultLayout(session.enc, state.account.value);
    ok := session.Send(w, accepted);
  }

  /** SendFavoriteCharacter: the account and the favourite, under the CharacterMakrAsFavorite opcode. */
  method SendFavoriteCharacter(session: GameSession, state: GateState, accepted: bool) returns (ok: bool)
    modifies session`sent
    ensures !(state.account.Some? && state.characters.Some? && state.characters.value.favorite.Some?) ==>
      !ok && session.sent == old(session.sent)
    ensures state.account.Some? && state.characters.Some? && state.characters.value.favorite.Some? ==>
      var f := state.characters.value.favorite.value;
      ok == accepted &&
      session.sent == old(session.sent) +
        session.Emitted(ClientOpcode.CharacterMakrAsFavorite,
          MarkAsFavoriteLayout(session.enc, MarkAsFavorite(state.account.value, f.id, f.name, f.photoId)), accepted)
  {
    if state.account.None? || state.characters.None? || state.characters.value.favorite.None? {
      return false;
    }
    var f := state.characters.value.favorite.value;
    var v := MarkAsFavorite(state.account.value, f.id, f.name, f.photoId);
    var w := WriteMarkAsFavorite(session.enc, PacketWriter(ClientOpcode.CharacterMakrAsFavorite, []), v);
    assert w.written == MarkAsFavoriteLayout(session.enc, v);
    ok := session.Send(w, accepted);
  }

  /** SendCharactersList: the entities that have a character, then the fixed trailer. */
  method SendCharactersList(session: GameSession, state: GateState, accepted: bool) returns (ok: bool)
    modifies session`sent
    ensures state.characters.None? ==> !ok && session.sent == old(session.sent)
    ensures state.characters.Some? ==>
      ok == accepted &&
      session.sent == old(session.sent) +
        session.Emitted(ClientOpcode.CharactersList, CharactersListLayout(session.enc, state.characters.value), accepted)
  {
    var w := PacketWriter(ClientOpcode.CharactersList, []);
    if state.characters.None? {
      return false;
    }
    var ch, enc := state.characters.value, session.enc;
    var entities := WithCharacter(ch.entities);
    w := w.Write(U8(ByteCount(|entities|)));
    for i := 0 to |entities|
      invariant session.sent == old(session.sent)
      invariant w.opcode == ClientOpcode.CharactersList
      invariant w.written == [U8(ByteCount(|entities|))] + Flatten(entities[..i], e => EntityFields(enc, e))
    {
      w := w.Write(Raw(enc.entity(entities[i])));
      FlattenStep([U8(ByteCount(|entities|))], entities, i, e => EntityFields(enc, e));
    }
    assert entities[..|entities|] == entities;
    w := WriteCharacterListTrailer(w, LastSelectedId(ch), ch.initializeTimeSeconds);
    assert w.written == CharactersListLayout(enc, ch);
    ok := session.Send(w, accepted);
  }

  /** SendCharacterBackground: the account id, the background id and a zero u32. */
  method SendCharacterBackground(session: GameSession, state: GateState, accepted: bool) returns (ok: bool)
    modifies session`sent
    ensures !(state.account.Some? && state.background.Some?) ==> !ok && session.sent == old(session.sent)
    ensures state.account.Some? && state.background.Some? ==>
      ok == accepted &&
      session.sent == old(session.sent) +
        session.Emitted(ClientOpcode.CharacterChangeBackground,
          ChangeBackgroundLayout(ChangeBackground(state.account.value, state.background.value)), accepted)
  {
    if state.account.None? || state.background.None? {
      return false;
    }
    var v := ChangeBackground(state.account.value, state.background.value);
    var w := WriteChangeBackground(PacketWriter(ClientOpcode.CharacterChangeBackground, []), v);
    assert w.written == ChangeBackgroundLayout(v);
    ok := session.Send(w, accepted);
  }

  /** What SendCharacterSelect reads: the last selected character, the account and the place. */
  predicate CanSelect(state: GateState) {
    state.characters.Some? && state.characters.value.lastSelected.Some? && state.account.Some? && state.place.Some?
  }

  /**
    SendCharacterSelect's layout: the last selected id, the account id, 28 zeros, the district's
    address and port, the place as WritePlace writes it, 12 zeros.
   */
  function GateCharacterSelectLayout(enc: Encoders, characterId: i32, accountId: u32, district: DistrictInstance,
    place: Place): seq<Field>
  {
    [I32(characterId), U32(accountId), Pad(28), Raw(enc.utf8(district.ip)), U16(district.port),
     Raw(enc.place(place)), Pad(12)]
  }

  lemma {:induction false} GateCharacterSelectBytes(enc: Encoders, characterId: i32, accountId: u32,
    district: DistrictInstance, place: Place)
    ensures Encode(GateCharacterSelectLayout(enc, characterId, accountId, district, place)) ==
      Le32(I32Bits(characterId)) + Le32(accountId) + Zeros(28) + enc.utf8(district.ip)
        + Le16(district.port) + enc.place(place) + Zeros(12)
  {
    var l := GateCharacterSelectLayout(enc, characterId, accountId, district, place);
    assert l == l[..4] + l[4..];
    Encode4(l[..4]);
    Encode3(l[4..]);
    EncodeConcat(l[..4], l[4..]);
  }

  /** SendCharacterSelect: the last selected character, the account, the district's address and the place. */
  method SendCharacterSelect(session: GameSession, state: GateState, district: DistrictInstance, accepted: bool)
    returns (ok: bool)
    modifies session`sent
    ensures !CanSelect(state) ==> !ok && session.sent == old(session.sent)
    ensures CanSelect(state) ==>
      ok == accepted &&
      session.sent == old(session.sent) +
        session.Emitted(ClientOpcode.CharacterSelect,
          GateCharacterSelectLayout(session.enc, state.characters.value.lastSelected.value.id,
            state.account.value, district, state.place.value), accepted)
  {
    var w := PacketWriter(ClientOpcode.CharacterSelect, []);
    if state.characters.None? || state.characters.value.lastSelected.None? {
      return false;
    }
    w := w.Write(I32(state.characters.value.lastSelected.value.id));
    if state.account.None? {
      return false;
    }
    w := w.Write(U32(state.account.value));
    w := w.Write(Pad(28));
    w := w.Write(Raw(session.enc.utf8(district.ip)));
    w := w.Write(U16(district.port));
    if state.place.None? {
      return false;
    }
    w := w.Write(Raw(session.enc.place(state.place.value)));
    w := w.Write(Pad(12));
    assert w.written == GateCharacterSelectLayout(session.enc, state.characters.value.lastSelected.value.id,
      state.account.value, district, state.place.value);
    ok := session.Send(w, accepted);
  }
}
