/**
  The part of a zone's world table the NPC lists are derived from: the
  monster spawn boxes of the event-box layer, each with its monster slots
  (VMonsterSpawnBox.Monsters, ten per box as the table loader builds them).

  Positions are single-precision vectors; the spawn point of a box is
  either its centre or a point drawn at random inside it, and which of the
  two is all the model keeps of it (see GetPosition).
 */
module WorldTable {
  import opened Bytes
  import opened Shared

  /** MonsterSpawnType: only Npc matters to the derivation; the other members are kept by their code. */
  datatype MonsterSpawnType = Npc | OtherSpawnType(code: nat)

  /** CreationPositionType: Center, or another member (placed at random inside the box). */
  datatype CreationPositionType = Center | OtherPlacement(code: nat)

  /** One monster slot of a spawn box. */
  datatype VMonster = VMonster(id: u32, kind: MonsterSpawnType, chance: i32)

  /** The fields of a monster spawn box the derivation reads. */
  datatype VMonsterSpawnBox = VMonsterSpawnBox(
    monsters: seq<VMonster>,
    creationPositionType: CreationPositionType,
    posTopLeft: Vector3,
    posBottomRight: Vector3,
    rotation: Float32,
    waypoint: u32)

  /** The number of monster slots the table loader gives every spawn box. */
  const MonsterSlots: nat := 10

  /**
    Where an NPC of a box is placed: the box's centre, or a fresh random
    point between its corners (each call draws anew). The float arithmetic
    and the draws are not modelled; the value says which rule applies and
    to which corners.
   */
  datatype SpawnPosition =
    | BoxCentre(topLeft: Vector3, bottomRight: Vector3)
    | RandomInBox(topLeft: Vector3, bottomRight: Vector3)

  /** GetPosition: the centre for Center boxes, a random point otherwise. */
  function GetPosition(box: VMonsterSpawnBox): (p: SpawnPosition)
    ensures p.topLeft == box.posTopLeft && p.bottomRight == box.posBottomRight
    ensures p.BoxCentre? <==> box.creationPositionType == Center
  {
    if box.creationPositionType == Center then BoxCentre(box.posTopLeft, box.posBottomRight)
    else RandomInBox(box.posTopLeft, box.posBottomRight)
  }

  /** The slot filter both NPC lists use: a non-zero monster id of type Npc. */
  predicate IsNpcSlot(m: VMonster) {
    m.id != 0 && m.kind == Npc
  }
}
