/**
  Character creation on the gate (ow.Service.Gate/Network/Helpers/CharacterCreateHelper.cs):
  the validators a creation request must pass, and the new character's
  initial model.

  NetworkUtils.DropSession throws and never returns, so a validator that
  calls it rejects the request: here a validator is a predicate, false
  where the code drops the session. The static tables are plain maps from
  their keys to the lists the validators consult.
 */
module CharacterCreate {
  import opened Bytes
  import opened Wrappers
  import opened Defines
  import opened Shared

  /** The Hero enumeration: the code of Hero.None and the codes Enum.IsDefined accepts. */
  datatype HeroEnum = HeroEnum(none: nat, defined: set<nat>)

  datatype HairStyle = HairStyle(style: nat, color: nat)

  datatype Appearance = Appearance(
    hair: HairStyle,
    eyesColor: nat,
    skinColor: nat,
    equippedHair: HairStyle,
    equippedEyesColor: nat,
    equippedSkinColor: nat)

  datatype CharacterMain = CharacterMain(name: string, hero: nat, appearance: Appearance)

  datatype CharacterCreateRequest = CharacterCreateRequest(slot: nat, main: CharacterMain, outfit: nat)

  /** A row of the photo item table, in the table's enumeration order. */
  datatype PhotoItem = PhotoItem(id: nat, hero: nat, promotionInfo: nat)

  /** The static tables creation consults. */
  datatype BinTables = BinTables(
    customizeHair: map<nat, seq<nat>>,  // hero -> Style
    customizeEyes: map<nat, seq<nat>>,  // hero -> Color
    customizeSkin: map<nat, seq<nat>>,  // hero -> Color
    characterInfo: map<u16, seq<nat>>,  // key -> DefaultOutfits
    photoItems: seq<PhotoItem>)

  datatype StorageType =
    | EquippedBattleFashion | EquippedViewFashion | EquippedGear
    | InventoryItems | InventoryFashion | InventoryExtra
    | BankItems | BankFashion | BankExtra

  datatype StorageModel = StorageModel(kind: StorageType)

  datatype CharacterModel = CharacterModel(
    accountId: u32,
    gate: nat,
    slot: nat,
    name: string,
    hero: nat,
    appearance: Appearance,
    place: Place,
    storage: seq<StorageModel>,
    learnedSkill: seq<u32>,
    quickSlot: seq<u32>,
    gestures: seq<u32>,
    photo: nat)

  // ---- validation ----------------------------------------------------------------

  /** ValidateHero: Hero.None and codes outside the enumeration are rejected. */
  predicate ValidateHero(heroes: HeroEnum, req: CharacterCreateRequest) {
    !(req.main.hero == heroes.none || req.main.hero !in heroes.defined)
  }

  /**
    The rule the hair, eyes, skin and outfit validators share: the key must
    have a table entry, and the choice must be non-zero and listed there.
   */
  predicate ValidateChoice<K>(table: map<K, seq<nat>>, key: K, choice: nat) {
    if key !in table then false
    else !(choice == 0 || choice !in table[key])
  }

  /** What passing a choice validator guarantees, and the three reasons for rejection. */
  lemma {:induction false} ChoiceRules<K>(table: map<K, seq<nat>>, key: K, choice: nat)
    ensures ValidateChoice(table, key, choice) ==>
      key in table && choice != 0 && exists i :: 0 <= i < |table[key]| && table[key][i] == choice
    ensures !ValidateChoice(table, key, choice) <==>
      key !in table || choice == 0 || choice !in table[key]
  {
  }

  predicate ValidateHair(req: CharacterCreateRequest, tables: BinTables) {
    ValidateChoice(tables.customizeHair, req.main.hero, req.main.appearance.hair.style)
  }

  predicate ValidateEyes(req: CharacterCreateRequest, tables: BinTables) {
    ValidateChoice(tables.customizeEyes, req.main.hero, req.main.appearance.eyesColor)
  }

  predicate ValidateSkin(req: CharacterCreateRequest, tables: BinTables) {
    ValidateChoice(tables.customizeSkin, req.main.hero, req.main.appearance.skinColor)
  }

  /** A hero passes exactly when it is a defined member other than Hero.None. */
  lemma {:induction false} HeroRules(heroes: HeroEnum, req: CharacterCreateRequest)
    ensures ValidateHero(heroes, req) <==> req.main.hero in heroes.defined - {heroes.none}
  {
  }

  /** The hair style must be non-zero and one of the styles listed for the hero. */
  lemma {:induction false} HairRules(req: CharacterCreateRequest, tables: BinTables)
    ensures ValidateHair(req, tables) <==>
      req.main.hero in tables.customizeHair && req.main.appearance.hair.style != 0
      && req.main.appearance.hair.style in tables.customizeHair[req.main.hero]
  {
    ChoiceRules(tables.customizeHair, req.main.hero, req.main.appearance.hair.style);
  }

  /** The eye colour must be non-zero and one of the colours listed for the hero. */
  lemma {:induction false} EyesRules(req: CharacterCreateRequest, tables: BinTables)
    ensures ValidateEyes(req, tables) <==>
      req.main.hero in tables.customizeEyes && req.main.appearance.eyesColor != 0
      && req.main.appearance.eyesColor in tables.customizeEyes[req.main.hero]
  {
    ChoiceRules(tables.customizeEyes, req.main.hero, req.main.appearance.eyesColor);
  }

  /** The skin colour must be non-zero and one of the colours listed for the hero. */
  lemma {:induction false} SkinRules(req: CharacterCreateRequest, tables: BinTables)
    ensures ValidateSkin(req, tables) <==>
      req.main.hero in tables.customizeSkin && req.main.appearance.skinColor != 0
      && req.main.appearance.skinColor in tables.customizeSkin[req.main.hero]
  {
    ChoiceRules(tables.customizeSkin, req.main.hero, req.main.appearance.skinColor);
  }

  /** `(ushort)(1000 * (byte)hero)`: the hero code is cut to a byte, the product to 16 bits. */
  function OutfitKey(hero: nat): (r: u16)
    ensures hero % 0x100 < 66 ==> r == 1000 * (hero % 0x100)
  {
    (1000 * (hero % 0x100)) % 0x1_0000
  }

  /**
    The casts fold hero codes onto other keys: codes 256 apart share a key, and
    from a low byte of 66 on the product no longer fits (code 66 looks up 464).
   */
  lemma {:induction false} OutfitKeyWraps(hero: nat)
    ensures OutfitKey(hero + 0x100) == OutfitKey(hero)
    ensures 66 <= hero % 0x100 ==> OutfitKey(hero) != 1000 * (hero % 0x100)
    ensures OutfitKey(66) == 464
  {
    assert (hero + 0x100) % 0x100 == hero % 0x100;
  }

  predicate ValidateOutfit(req: CharacterCreateRequest, tables: BinTables) {
    ValidateChoice(tables.characterInfo, OutfitKey(req.main.hero), req.outfit)
  }

  /** The outfit must be non-zero and a default outfit of the entry under the truncated key. */
  lemma {:induction false} OutfitRules(req: CharacterCreateRequest, tables: BinTables)
    ensures ValidateOutfit(req, tables) <==>
      OutfitKey(req.main.hero) in tables.characterInfo && req.outfit != 0
      && req.outfit in tables.characterInfo[OutfitKey(req.main.hero)]
  {
    ChoiceRules(tables.characterInfo, OutfitKey(req.main.hero), req.outfit);
  }

  // ---- the new character ---------------------------------------------------------

  /** The start position 10444.9951, 10179.7461, 100.325394 as IEEE-754 single-precision bit patterns. */
  const StartPosition: Vector3 := Vector3(0x462333fb, 0x461f0efc, 0x42c8a69a)
  const StartLocation: u32 := 10003

  /** `PhotoItem.Values.First(c => c.Hero == hero && c.PromotionInfo == 1).Id`; None where First throws. */
  function FirstPhoto(items: seq<PhotoItem>, hero: nat): (r: Option<nat>)
    ensures r.Some? ==>
      exists i :: (0 <= i < |items| && items[i].id == r.value
        && items[i].hero == hero && items[i].promotionInfo == 1
        && forall j :: 0 <= j < i ==> !(items[j].hero == hero && items[j].promotionInfo == 1))
    ensures r.None? <==> forall i :: 0 <= i < |items| ==> !(items[i].hero == hero && items[i].promotionInfo == 1)
  {
    if items == [] then None
    else if items[0].hero == hero && items[0].promotionInfo == 1 then Some(items[0].id)
    else
      var r := FirstPhoto(items[1..], hero);
      assert forall i :: 0 < i < |items| ==> items[i] == items[1..][i - 1];
      if r.Some? then
        ghost var k :| 0 <= k < |items[1..]| && items[1..][k].id == r.value
          && items[1..][k].hero == hero && items[1..][k].promotionInfo == 1
          && forall j :: 0 <= j < k ==> !(items[1..][j].hero == hero && items[1..][j].promotionInfo == 1);
        assert items[k + 1] == items[1..][k];
        r
      else r
  }

  /** CreateStorageInfo: the nine storages, in their fixed order. */
  function CreateStorageInfo(): seq<StorageModel> {
    [StorageModel(EquippedBattleFashion), StorageModel(EquippedViewFashion), StorageModel(EquippedGear),
     StorageModel(InventoryItems), StorageModel(InventoryFashion), StorageModel(InventoryExtra),
     StorageModel(BankItems), StorageModel(BankFashion), StorageModel(BankExtra)]
  }

  /** Where each storage type sits in the fixed order. */
  function StorageIndex(t: StorageType): (i: nat)
    ensures i < 9
  {
    match t
    case EquippedBattleFashion => 0
    case EquippedViewFashion => 1
    case EquippedGear => 2
    case InventoryItems => 3
    case InventoryFashion => 4
    case InventoryExtra => 5
    case BankItems => 6
    case BankFashion => 7
    case BankExtra => 8
  }

  /** The initial storages hold every storage type exactly once, each at its place in the order. */
  lemma {:induction false} StoragesOncePerType()
    ensures |CreateStorageInfo()| == 9
    ensures forall i, j :: 0 <= i < j < 9 ==> CreateStorageInfo()[i].kind != CreateStorageInfo()[j].kind
    ensures forall t: StorageType :: CreateStorageInfo()[StorageIndex(t)].kind == t
  {
  }

  /** CreateModel; None where no photo item matches the hero. */
  function CreateModel(accountId: u32, req: CharacterCreateRequest, gateId: nat, tables: BinTables): Option<CharacterModel> {
    var photo := FirstPhoto(tables.photoItems, req.main.hero);
    if photo.None? then None
    else
      var a := req.main.appearance;
      Some(CharacterModel(
        accountId, gateId, req.slot, req.main.name, req.main.hero,
        Appearance(
          HairStyle(a.hair.style, a.hair.color),
          a.eyesColor,
          a.skinColor,
          HairStyle(a.equippedHair.style, a.equippedHair.color),
          a.equippedEyesColor,
          a.equippedSkinColor),
        Place(StartPosition, 0, StartLocation),
        CreateStorageInfo(),
        [],
        seq(SkillsInQuickSlotsCount as nat, _ => 0),
        seq(QuickSlotsCount as nat, _ => 0),
        photo.value))
  }

  /** The model copies the request's identity and appearance and starts from fixed defaults. */
  lemma {:induction false} CreateModelFields(accountId: u32, req: CharacterCreateRequest, gateId: nat, tables: BinTables)
    ensures CreateModel(accountId, req, gateId, tables).None? <==> FirstPhoto(tables.photoItems, req.main.hero).None?
    ensures CreateModel(accountId, req, gateId, tables).Some? ==>
      var m := CreateModel(accountId, req, gateId, tables).value;
      m.accountId == accountId && m.gate == gateId && m.slot == req.slot && m.name == req.main.name
      && m.hero == req.main.hero && m.appearance == req.main.appearance
      && m.photo == FirstPhoto(tables.photoItems, req.main.hero).value
      && |m.quickSlot| == 18 && (forall i :: 0 <= i < 18 ==> m.quickSlot[i] == 0)
      && |m.gestures| == 6 && (forall i :: 0 <= i < 6 ==> m.gestures[i] == 0)
      && m.learnedSkill == []
      && m.place.location == 10003 && m.place.rotation == 0
      && m.storage == CreateStorageInfo()
  {
    HeaderConstants();
  }

  /**
    A request that passes the hero, hair, eyes and skin validators yields a
    character of a defined hero other than Hero.None whose hair style, eye
    colour and skin colour are non-zero entries of that hero's table lists.
   */
  lemma {:induction false} ValidatedModel(heroes: HeroEnum, accountId: u32, req: CharacterCreateRequest, gateId: nat,
    tables: BinTables)
    requires ValidateHero(heroes, req) && ValidateHair(req, tables) && ValidateEyes(req, tables) && ValidateSkin(req, tables)
    ensures CreateModel(accountId, req, gateId, tables).Some? ==>
      var m := CreateModel(accountId, req, gateId, tables).value;
      m.hero in heroes.defined && m.hero != heroes.none
      && m.hero in tables.customizeHair && m.appearance.hair.style != 0
      && m.appearance.hair.style in tables.customizeHair[m.hero]
      && m.hero in tables.customizeEyes && m.appearance.eyesColor != 0
      && m.appearance.eyesColor in tables.customizeEyes[m.hero]
      && m.hero in tables.customizeSkin && m.appearance.skinColor != 0
      && m.appearance.skinColor in tables.customizeSkin[m.hero]
  {
  }
}
