/**
  The district's cached NPC list (ow.Service.District/Game/CachedNpcs.cs):
  every NPC slot of every monster spawn box, in box order and then slot
  order, each carrying its monster id and its box's spawn position,
  rotation and waypoint.

  The LINQ pipeline `Select(Where(..).Select(..)).SelectMany(i => i)` is a
  filter inside each box followed by a concatenation over the boxes; both
  are written here as recursions over the last element, the order in
  which the enumeration appends.
 */
module CachedNpcs {
  import opened Bytes
  import opened WorldTable

  datatype CachedNpc = CachedNpc(mobId: u32, position: SpawnPosition, rotation: Float32, waypoint: u32)

  /** The NPC one slot of a box yields. */
  function NpcOf(box: VMonsterSpawnBox, m: VMonster): CachedNpc {
    CachedNpc(m.id, GetPosition(box), box.rotation, box.waypoint)
  }

  /** `ms.Where(IsNpcSlot).Select(m => NpcOf(box, m))`. */
  function BoxNpcs(box: VMonsterSpawnBox, ms: seq<VMonster>): seq<CachedNpc> {
    if ms == [] then []
    else
      var last := ms[|ms| - 1];
      BoxNpcs(box, ms[..|ms| - 1]) + (if IsNpcSlot(last) then [NpcOf(box, last)] else [])
  }

  /** GetNpcs: the NPCs of each box's slots, box after box. */
  function GetNpcs(boxes: seq<VMonsterSpawnBox>): seq<CachedNpc> {
    if boxes == [] then []
    else
      var last := boxes[|boxes| - 1];
      GetNpcs(boxes[..|boxes| - 1]) + BoxNpcs(last, last.monsters)
  }

  /** The number of NPC slots among `ms`. */
  function NpcSlotCount(ms: seq<VMonster>): nat {
    if ms == [] then 0
    else NpcSlotCount(ms[..|ms| - 1]) + (if IsNpcSlot(ms[|ms| - 1]) then 1 else 0)
  }

  /** The number of NPC slots over all boxes. */
  function TotalNpcSlots(boxes: seq<VMonsterSpawnBox>): nat {
    if boxes == [] then 0
    else TotalNpcSlots(boxes[..|boxes| - 1]) + NpcSlotCount(boxes[|boxes| - 1].monsters)
  }

  // ---- order: the list is a homomorphism of slot and box concatenation -------------

  /** A box's NPCs for one slot: its NPC when the slot qualifies, none otherwise. */
  lemma {:induction false} BoxNpcsSingle(box: VMonsterSpawnBox, m: VMonster)
    ensures BoxNpcs(box, [m]) == if IsNpcSlot(m) then [NpcOf(box, m)] else []
  {
    assert [m][..0] == [];
  }

  /** Filtering keeps slot order: the NPCs of two runs of slots are those of the first, then the second's. */
  lemma {:induction false} BoxNpcsConcat(box: VMonsterSpawnBox, a: seq<VMonster>, b: seq<VMonster>)
    ensures BoxNpcs(box, a + b) == BoxNpcs(box, a) + BoxNpcs(box, b)
    decreases |b|
  {
    if b == [] {
      assert a + b == a;
    } else {
      var last := b[|b| - 1];
      assert (a + b)[..|a + b| - 1] == a + b[..|b| - 1];
      assert (a + b)[|a + b| - 1] == last;
      BoxNpcsConcat(box, a, b[..|b| - 1]);
    }
  }

  /** Flattening keeps box order: the NPCs of two runs of boxes are those of the first, then the second's. */
  lemma {:induction false} GetNpcsConcat(a: seq<VMonsterSpawnBox>, b: seq<VMonsterSpawnBox>)
    ensures GetNpcs(a + b) == GetNpcs(a) + GetNpcs(b)
    decreases |b|
  {
    if b == [] {
      assert a + b == a;
    } else {
      var last := b[|b| - 1];
      assert (a + b)[..|a + b| - 1] == a + b[..|b| - 1];
      assert (a + b)[|a + b| - 1] == last;
      GetNpcsConcat(a, b[..|b| - 1]);
    }
  }

  /** One box contributes exactly its own slots' NPCs. */
  lemma {:induction false} GetNpcsSingle(box: VMonsterSpawnBox)
    ensures GetNpcs([box]) == BoxNpcs(box, box.monsters)
  {
    assert [box][..0] == [];
  }

  // ---- count --------------------------------------------------------------------

  lemma {:induction false} BoxNpcsCount(box: VMonsterSpawnBox, ms: seq<VMonster>)
    ensures |BoxNpcs(box, ms)| == NpcSlotCount(ms)
  {
    if ms != [] {
      BoxNpcsCount(box, ms[..|ms| - 1]);
    }
  }

  /** The list has one entry per NPC slot, summed over the boxes. */
  lemma {:induction false} GetNpcsCount(boxes: seq<VMonsterSpawnBox>)
    ensures |GetNpcs(boxes)| == TotalNpcSlots(boxes)
  {
    if boxes != [] {
      GetNpcsCount(boxes[..|boxes| - 1]);
      BoxNpcsCount(boxes[|boxes| - 1], boxes[|boxes| - 1].monsters);
    }
  }

  // ---- contents -----------------------------------------------------------------

  /** Every NPC of a box comes from one of its NPC slots, with the box's position, rotation and waypoint. */
  lemma {:induction false} BoxNpcsFromSlots(box: VMonsterSpawnBox, ms: seq<VMonster>)
    ensures forall n :: n in BoxNpcs(box, ms) ==> exists k :: 0 <= k < |ms| && IsNpcSlot(ms[k]) && n == NpcOf(box, ms[k])
  {
    if ms != [] {
      var init := ms[..|ms| - 1];
      BoxNpcsFromSlots(box, init);
      assert forall k :: 0 <= k < |init| ==> init[k] == ms[k];
    }
  }

  /** Every NPC slot of a box yields its NPC. */
  lemma {:induction false} BoxNpcsHasSlots(box: VMonsterSpawnBox, ms: seq<VMonster>)
    ensures forall k :: 0 <= k < |ms| && IsNpcSlot(ms[k]) ==> NpcOf(box, ms[k]) in BoxNpcs(box, ms)
  {
    if ms != [] {
      var init := ms[..|ms| - 1];
      BoxNpcsHasSlots(box, init);
      assert forall k :: 0 <= k < |init| ==> init[k] == ms[k];
    }
  }

  /** Slot k of box i is an NPC slot and yields `n`. */
  predicate SlotYields(boxes: seq<VMonsterSpawnBox>, i: int, k: int, n: CachedNpc) {
    0 <= i < |boxes| && 0 <= k < |boxes[i].monsters|
    && IsNpcSlot(boxes[i].monsters[k]) && n == NpcOf(boxes[i], boxes[i].monsters[k])
  }

  /** Nothing is invented: every listed NPC is yielded by some slot. */
  lemma {:induction false} GetNpcsFromSlots(boxes: seq<VMonsterSpawnBox>)
    ensures forall n :: n in GetNpcs(boxes) ==> exists i, k :: SlotYields(boxes, i, k, n)
  {
    if boxes != [] {
      var init, last := boxes[..|boxes| - 1], boxes[|boxes| - 1];
      GetNpcsFromSlots(init);
      BoxNpcsFromSlots(last, last.monsters);
      forall n | n in GetNpcs(boxes)
        ensures exists i, k :: SlotYields(boxes, i, k, n)
      {
        if n in GetNpcs(init) {
          var i, k :| SlotYields(init, i, k, n);
          assert init[i] == boxes[i];
          assert SlotYields(boxes, i, k, n);
        } else {
          var k :| 0 <= k < |last.monsters| && IsNpcSlot(last.monsters[k]) && n == NpcOf(last, last.monsters[k]);
          assert SlotYields(boxes, |boxes| - 1, k, n);
        }
      }
    }
  }

  /** No NPC slot is dropped: every slot that qualifies has its NPC listed. */
  lemma {:induction false} GetNpcsHasSlots(boxes: seq<VMonsterSpawnBox>)
    ensures forall i, k, n :: SlotYields(boxes, i, k, n) ==> n in GetNpcs(boxes)
  {
    if boxes != [] {
      var init, last := boxes[..|boxes| - 1], boxes[|boxes| - 1];
      GetNpcsHasSlots(init);
      BoxNpcsHasSlots(last, last.monsters);
      forall i, k, n | SlotYields(boxes, i, k, n)
        ensures n in GetNpcs(boxes)
      {
        if i < |boxes| - 1 {
          assert init[i] == boxes[i];
          assert SlotYields(init, i, k, n);
        }
      }
    }
  }

  /** An NPC is in the list exactly when some NPC slot of some box yields it. */
  lemma {:induction false} GetNpcsMembers(boxes: seq<VMonsterSpawnBox>, n: CachedNpc)
    ensures n in GetNpcs(boxes) <==> exists i, k :: SlotYields(boxes, i, k, n)
  {
    GetNpcsFromSlots(boxes);
    GetNpcsHasSlots(boxes);
  }

  /** When every slot of a box is an NPC slot, its NPC j is the one slot j yields. */
  lemma {:induction false} AllNpcSlotsBox(box: VMonsterSpawnBox, ms: seq<VMonster>)
    requires forall k :: 0 <= k < |ms| ==> IsNpcSlot(ms[k])
    ensures BoxNpcs(box, ms) == seq(|ms|, k requires 0 <= k < |ms| => NpcOf(box, ms[k]))
  {
    if ms != [] {
      AllNpcSlotsBox(box, ms[..|ms| - 1]);
    }
  }
}
