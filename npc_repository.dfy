/**
  The district's NPC repository (ow.Service.District/Game/Repositories/NpcRepository.cs):
  the same filter-and-flatten over the monster spawn boxes as the cached
  NPC list, where each entity also takes the next value of a `uint`
  counter captured by the query, starting at 0. The list constructor
  enumerates the query once, so the counter runs in output order.

  The query is written as the nested loops its enumeration performs; the
  counter is a u32 that wraps from 0xFFFF_FFFF to 0, as `id++` does on a
  `uint` outside a checked context.
 */
module NpcRepository {
  import opened Bytes
  import opened WorldTable
  import CachedNpcs

  datatype Entity = Entity(id: u32, mobId: u32, position: SpawnPosition, rotation: Float32, waypoint: u32)

  /** The counter's value after `count` increments from 0. */
  function IdAfter(count: nat): u32 {
    count % 0x1_0000_0000
  }

  /** The entity an NPC becomes when the counter stands at `id`. */
  function EntityOf(n: CachedNpcs.CachedNpc, id: u32): Entity {
    Entity(id, n.mobId, n.position, n.rotation, n.waypoint)
  }

  /** `id++` on a uint: the counter steps by one and wraps from 0xFFFF_FFFF to 0. */
  lemma {:induction false} IdStep(count: nat)
    ensures IdAfter(count + 1) == if IdAfter(count) == 0xFFFF_FFFF then 0 else IdAfter(count) + 1
  {
    var q := count / 0x1_0000_0000;
    assert count == q * 0x1_0000_0000 + IdAfter(count);
    if IdAfter(count) == 0xFFFF_FFFF {
      assert count + 1 == (q + 1) * 0x1_0000_0000;
    } else {
      assert count + 1 == q * 0x1_0000_0000 + (IdAfter(count) + 1);
    }
  }

  /** An NPC list numbered in order by the wrapping counter. */
  function Numbered(ns: seq<CachedNpcs.CachedNpc>): (es: seq<Entity>)
    ensures |es| == |ns|
  {
    if ns == [] then [] else Numbered(ns[..|ns| - 1]) + [EntityOf(ns[|ns| - 1], IdAfter(|ns| - 1))]
  }

  /** Numbering one more NPC appends it with the counter's current value. */
  lemma {:induction false} NumberedSnoc(ns: seq<CachedNpcs.CachedNpc>, n: CachedNpcs.CachedNpc)
    ensures Numbered(ns + [n]) == Numbered(ns) + [EntityOf(n, IdAfter(|ns|))]
  {
    assert (ns + [n])[..|ns|] == ns;
  }

  /** Entity i is NPC i with the id the counter has after i steps. */
  lemma {:induction false} NumberedAt(ns: seq<CachedNpcs.CachedNpc>, i: nat)
    requires i < |ns|
    ensures Numbered(ns)[i] == EntityOf(ns[i], IdAfter(i))
  {
    if i < |ns| - 1 {
      NumberedAt(ns[..|ns| - 1], i);
    }
  }

  /** GetNpcs: one entity per NPC slot, box after box and slot after slot, numbered by `id++`. */
  method GetNpcs(boxes: seq<VMonsterSpawnBox>) returns (es: seq<Entity>)
    ensures es == Numbered(CachedNpcs.GetNpcs(boxes))
  {
    var id: u32 := 0;
    es := [];
    for b := 0 to |boxes|
      invariant es == Numbered(CachedNpcs.GetNpcs(boxes[..b]))
      invariant id == IdAfter(|es|)
    {
      es, id := BoxEntities(boxes[b], es, id, CachedNpcs.GetNpcs(boxes[..b]));
      assert boxes[..b + 1][..b] == boxes[..b];
    }
    assert boxes[..|boxes|] == boxes;
  }

  /**
    The inner query of one box, appended to the entities so far: its NPC
    slots in order, each taking the counter's value before it steps.
   */
  method BoxEntities(box: VMonsterSpawnBox, es0: seq<Entity>, id0: u32, ghost ns: seq<CachedNpcs.CachedNpc>)
    returns (es: seq<Entity>, id: u32)
    requires es0 == Numbered(ns) && id0 == IdAfter(|es0|)
    ensures es == Numbered(ns + CachedNpcs.BoxNpcs(box, box.monsters))
    ensures id == IdAfter(|es|)
  {
    es, id := es0, id0;
    ghost var done := ns;
    assert box.monsters[..0] == [];
    assert ns + CachedNpcs.BoxNpcs(box, []) == ns;
    for s := 0 to |box.monsters|
      invariant done == ns + CachedNpcs.BoxNpcs(box, box.monsters[..s])
      invariant es == Numbered(done) && id == IdAfter(|done|)
    {
      var m := box.monsters[s];
      SlotStep(box, ns, s);
      if m.id != 0 && m.kind == Npc {
        NumberNext(done, es, id, box, m);
        es := es + [Entity(id, m.id, GetPosition(box), box.rotation, box.waypoint)];
        id := if id == 0xFFFF_FFFF then 0 else id + 1;
        done := done + [CachedNpcs.NpcOf(box, m)];
      }
    }
    assert box.monsters[..|box.monsters|] == box.monsters;
  }

  /** Numbering the next NPC of a box: the entity takes the counter's value, and the counter steps. */
  lemma {:induction false} NumberNext(done: seq<CachedNpcs.CachedNpc>, es: seq<Entity>, id: u32, box: VMonsterSpawnBox, m: VMonster)
    requires es == Numbered(done) && id == IdAfter(|done|)
    ensures es + [Entity(id, m.id, GetPosition(box), box.rotation, box.waypoint)]
      == Numbered(done + [CachedNpcs.NpcOf(box, m)])
    ensures (if id == 0xFFFF_FFFF then 0 else id + 1) == IdAfter(|done| + 1)
  {
    NumberedSnoc(done, CachedNpcs.NpcOf(box, m));
    IdStep(|done|);
  }

  /** One more slot extends a box's NPC list by that slot's NPC, if it is an NPC slot. */
  lemma {:induction false} SlotStep(box: VMonsterSpawnBox, ns: seq<CachedNpcs.CachedNpc>, s: nat)
    requires s < |box.monsters|
    ensures var m := box.monsters[s];
      ns + CachedNpcs.BoxNpcs(box, box.monsters[..s + 1]) ==
        if IsNpcSlot(m) then ns + CachedNpcs.BoxNpcs(box, box.monsters[..s]) + [CachedNpcs.NpcOf(box, m)]
        else ns + CachedNpcs.BoxNpcs(box, box.monsters[..s])
  {
    assert box.monsters[..s + 1][..s] == box.monsters[..s];
  }

  /** The repository itself: the list its constructor fills from the zone's spawn boxes. */
  class NpcRepository {
    var entities: seq<Entity>

    constructor(boxes: seq<VMonsterSpawnBox>)
      ensures entities == Numbered(CachedNpcs.GetNpcs(boxes))
    {
      var es := GetNpcs(boxes);
      entities := es;
    }
  }

  // ---- properties of the numbered list ---------------------------------------------

  /** One entity per NPC slot, summed over the boxes. */
  lemma {:induction false} EntityCount(boxes: seq<VMonsterSpawnBox>)
    ensures |Numbered(CachedNpcs.GetNpcs(boxes))| == CachedNpcs.TotalNpcSlots(boxes)
  {
    CachedNpcs.GetNpcsCount(boxes);
  }

  /**
    The repository lists the cached NPCs in the same order with the same
    monster id, placement rule and box corners, rotation and waypoint; only
    the id is added. The placement is the same point only for Center boxes:
    for the others each list draws its own random point in the same box.
   */
  lemma {:induction false} MatchesCachedNpcs(boxes: seq<VMonsterSpawnBox>)
    ensures var ns, es := CachedNpcs.GetNpcs(boxes), Numbered(CachedNpcs.GetNpcs(boxes));
      |es| == |ns| &&
      forall i :: 0 <= i < |es| ==>
        es[i].mobId == ns[i].mobId && es[i].position == ns[i].position
        && es[i].rotation == ns[i].rotation && es[i].waypoint == ns[i].waypoint
  {
    var ns := CachedNpcs.GetNpcs(boxes);
    forall i | 0 <= i < |ns|
      ensures Numbered(ns)[i] == EntityOf(ns[i], IdAfter(i))
    {
      NumberedAt(ns, i);
    }
  }

  /** Below 2^32 entities the ids are 0, 1, 2, … in list order, so no two entities share one. */
  lemma {:induction false} IdsConsecutive(ns: seq<CachedNpcs.CachedNpc>)
    requires |ns| <= 0x1_0000_0000
    ensures forall i :: 0 <= i < |ns| ==> Numbered(ns)[i].id == i
    ensures forall i, j :: 0 <= i < j < |ns| ==> Numbered(ns)[i].id != Numbered(ns)[j].id
  {
    forall i | 0 <= i < |ns|
      ensures Numbered(ns)[i].id == i
    {
      NumberedAt(ns, i);
    }
  }

  /** The counter wraps: entity number 2^32 reuses id 0. */
  lemma {:induction false} IdsWrap(ns: seq<CachedNpcs.CachedNpc>)
    requires |ns| > 0x1_0000_0000
    ensures Numbered(ns)[0x1_0000_0000].id == Numbered(ns)[0].id == 0
  {
    NumberedAt(ns, 0);
    NumberedAt(ns, 0x1_0000_0000);
  }

  /** Every entity comes from an NPC slot of some box and carries that box's position, rotation and waypoint. */
  lemma {:induction false} EntitiesFromSlots(boxes: seq<VMonsterSpawnBox>, j: nat)
    requires j < |Numbered(CachedNpcs.GetNpcs(boxes))|
    ensures var e := Numbered(CachedNpcs.GetNpcs(boxes))[j];
      exists i, k :: 0 <= i < |boxes| && 0 <= k < |boxes[i].monsters| && IsNpcSlot(boxes[i].monsters[k])
        && e.mobId == boxes[i].monsters[k].id && e.position == GetPosition(boxes[i])
        && e.rotation == boxes[i].rotation && e.waypoint == boxes[i].waypoint
  {
    var ns := CachedNpcs.GetNpcs(boxes);
    NumberedAt(ns, j);
    CachedNpcs.GetNpcsMembers(boxes, ns[j]);
    var i, k :| CachedNpcs.SlotYields(boxes, i, k, ns[j]);
  }
}
