/**
 * Where a bought item ends up (SpawnItemOnEntityValidated): in the first inventory
 * slot that accepts it, else in the buyer's hands, else it is deleted again. The
 * inventory and hands systems are the oracles of an Outfit; an item equipped into
 * a slot fills it for the items granted after it.
 */
module TraderPlacement {
  import opened Wrappers
  import opened TraderWorld

  /**
   * The outcome for one granted item. NotSpawned: nothing was spawned. PickupFailed:
   * the buyer has hands but TryPickup refused, and the spawned item stays where it
   * was spawned. Deleted: the item was spawned and deleted again.
   */
  datatype Placement = NotSpawned | Equipped(slot: SlotName) | PickedUp | PickupFailed | Deleted

  /** The value SpawnItemOnEntityValidated returns: the item reached the buyer. */
  predicate Granted(p: Placement)
  {
    p.Equipped? || p == PickedUp
  }

  /** CanEquip accepts the item in the slot, the slot is empty, and TryEquip succeeds. */
  predicate Fits(o: Outfit, proto: ProtoId, s: SlotName)
  {
    (proto, s) in o.canEquip && s !in o.occupied && (proto, s) in o.equips
  }

  /** No slot of `slots` takes an item of `proto`. */
  predicate NoSlotFits(o: Outfit, proto: ProtoId, slots: seq<SlotName>)
  {
    forall i :: 0 <= i < |slots| ==> !Fits(o, proto, slots[i])
  }

  /** The first slot, in definition order, that takes an item of `proto`. */
  function FirstFit(o: Outfit, proto: ProtoId, slots: seq<SlotName>): (r: Option<SlotName>)
    ensures r.None? <==> NoSlotFits(o, proto, slots)
    ensures r.Some? ==> exists i :: 0 <= i < |slots| && slots[i] == r.value && Fits(o, proto, r.value) && NoSlotFits(o, proto, slots[..i])
    decreases |slots|
  {
    if slots == [] then None
    else if Fits(o, proto, slots[0]) then
      assert slots[..0] == [];
      Some(slots[0])
    else
      var r := FirstFit(o, proto, slots[1..]);
      if r.Some? then
        var i :| 0 <= i < |slots[1..]| && slots[1..][i] == r.value && Fits(o, proto, r.value) && NoSlotFits(o, proto, slots[1..][..i]);
        assert slots[..i + 1] == [slots[0]] + slots[1..][..i];
        r
      else
        assert forall i :: 1 <= i < |slots| ==> slots[i] == slots[1..][i - 1];
        r
  }

  /** Whether the buyer can receive a spawned item at all: an inventory, not deleted, and the id indexes as an entity prototype. */
  predicate Spawns(o: Outfit, proto: ProtoId, protos: set<ProtoId>)
  {
    o.hasInventory && !o.deleted && proto in protos
  }

  /** Whether TryPickup puts an item of `proto` into the buyer's hands: one is empty and the item can be held. */
  predicate PicksUp(o: Outfit, proto: ProtoId)
  {
    o.freeHands > 0 && proto in o.pickups
  }

  /** The placement of one item of `proto`, as SpawnItemOnEntityValidated decides it. */
  function PlacementOf(o: Outfit, proto: ProtoId, protos: set<ProtoId>): (p: Placement)
    ensures p == NotSpawned <==> !Spawns(o, proto, protos)
    ensures p.Equipped? ==>
              && o.slots.Some? && p.slot in o.slots.value && Fits(o, proto, p.slot)
              && exists i :: 0 <= i < |o.slots.value| && o.slots.value[i] == p.slot && NoSlotFits(o, proto, o.slots.value[..i])
    ensures Spawns(o, proto, protos) && o.slots.Some? && !NoSlotFits(o, proto, o.slots.value) ==> p.Equipped?
    ensures p == PickedUp <==> Spawns(o, proto, protos) && o.slots.Some? && NoSlotFits(o, proto, o.slots.value) && o.hasHands && PicksUp(o, proto)
    ensures p == PickupFailed <==> Spawns(o, proto, protos) && o.slots.Some? && NoSlotFits(o, proto, o.slots.value) && o.hasHands && !PicksUp(o, proto)
    ensures p == Deleted <==> Spawns(o, proto, protos) && (o.slots.None? || (NoSlotFits(o, proto, o.slots.value) && !o.hasHands))
  {
    if !o.hasInventory || o.deleted || proto !in protos then NotSpawned
    else if o.slots.None? then Deleted
    else match FirstFit(o, proto, o.slots.value)
      case Some(s) => Equipped(s)
      case None =>
        if o.hasHands then (if PicksUp(o, proto) then PickedUp else PickupFailed)
        else Deleted
  }

  /** The buyer after a placement: an equipped slot is no longer empty, and a picked-up item takes one empty hand. */
  function AfterPlacement(o: Outfit, p: Placement): (o': Outfit)
    requires p == PickedUp ==> o.freeHands > 0
    ensures o' == o.(occupied := o'.occupied, freeHands := o'.freeHands)
    ensures o'.occupied == if p.Equipped? then o.occupied + {p.slot} else o.occupied
    ensures o'.freeHands == if p == PickedUp then o.freeHands - 1 else o.freeHands
  {
    if p.Equipped? then o.(occupied := o.occupied + {p.slot})
    else if p == PickedUp then o.(freeHands := o.freeHands - 1)
    else o
  }

  /** Every equipped placement of `ps` went into a slot empty in `o` and filled in `o'`, and no slot is used twice. */
  predicate SlotsFilledOnce(o: Outfit, ps: seq<Placement>, o': Outfit)
  {
    && (forall i :: 0 <= i < |ps| && ps[i].Equipped? ==> ps[i].slot !in o.occupied && ps[i].slot in o'.occupied)
    && (forall i, j :: 0 <= i < j < |ps| && ps[i].Equipped? && ps[j].Equipped? ==> ps[i].slot != ps[j].slot)
  }

  /** The inner loop of TryGiveItems: `count` items of `proto`, each placed on the buyer as left by the previous one. */
  function GrantUnits(o: Outfit, proto: ProtoId, count: int, protos: set<ProtoId>): (r: (seq<Placement>, Outfit))
    ensures |r.0| == if count > 0 then count else 0
    ensures r.1 == o.(occupied := r.1.occupied, freeHands := r.1.freeHands) && o.occupied <= r.1.occupied
    decreases count
  {
    if count <= 0 then ([], o)
    else
      var p := PlacementOf(o, proto, protos);
      var (rest, o2) := GrantUnits(AfterPlacement(o, p), proto, count - 1, protos);
      ([p] + rest, o2)
  }

  /** Every item equipped by GrantUnits went into a slot that was empty and is filled afterwards, and no slot is used twice. */
  lemma {:induction false} GrantUnitsFillsOnce(o: Outfit, proto: ProtoId, count: int, protos: set<ProtoId>)
    ensures SlotsFilledOnce(o, GrantUnits(o, proto, count, protos).0, GrantUnits(o, proto, count, protos).1)
    decreases count
  {
    if count > 0 {
      var p := PlacementOf(o, proto, protos);
      var o1 := AfterPlacement(o, p);
      GrantUnitsFillsOnce(o1, proto, count - 1, protos);
      var (rest, o2) := GrantUnits(o1, proto, count - 1, protos);
      var ps := [p] + rest;
      assert forall i :: 1 <= i < |ps| ==> ps[i] == rest[i - 1];
    }
  }

  /** How many placements of `ps` put the item into the buyer's hands. */
  function PickupCount(ps: seq<Placement>): (n: nat)
    ensures n <= |ps|
    ensures n == 0 <==> forall i :: 0 <= i < |ps| ==> ps[i] != PickedUp
  {
    if ps == [] then 0
    else
      assert forall i :: 1 <= i < |ps| ==> ps[i] == ps[1..][i - 1];
      (if ps[0] == PickedUp then 1 else 0) + PickupCount(ps[1..])
  }

  /** Counting pickups distributes over concatenation. */
  lemma {:induction false} PickupCountAppend(ps: seq<Placement>, qs: seq<Placement>)
    ensures PickupCount(ps + qs) == PickupCount(ps) + PickupCount(qs)
  {
    if ps != [] {
      PickupCountAppend(ps[1..], qs);
      assert (ps + qs)[0] == ps[0];
      assert (ps + qs)[1..] == ps[1..] + qs;
    } else {
      assert ps + qs == qs;
    }
  }

  /** Every item GrantUnits puts into the buyer's hands takes one of the empty hands, so no more are picked up than there were empty hands. */
  lemma {:induction false} GrantUnitsTakesHands(o: Outfit, proto: ProtoId, count: int, protos: set<ProtoId>)
    ensures PickupCount(GrantUnits(o, proto, count, protos).0) + GrantUnits(o, proto, count, protos).1.freeHands == o.freeHands
    decreases count
  {
    if count > 0 {
      var p := PlacementOf(o, proto, protos);
      var o1 := AfterPlacement(o, p);
      GrantUnitsTakesHands(o1, proto, count - 1, protos);
      var (rest, o2) := GrantUnits(o1, proto, count - 1, protos);
      assert ([p] + rest)[1..] == rest;
    }
  }

  /** The outer loop of TryGiveItems: the granted lines in order. */
  function GrantLines(o: Outfit, lines: seq<(ProtoId, int)>, protos: set<ProtoId>): (r: (seq<Placement>, Outfit))
    ensures r.1 == o.(occupied := r.1.occupied, freeHands := r.1.freeHands) && o.occupied <= r.1.occupied
    decreases |lines|
  {
    if lines == [] then ([], o)
    else
      var (ps, o1) := if lines[0].1 > 0 then GrantUnits(o, lines[0].0, lines[0].1, protos) else ([], o);
      var (qs, o2) := GrantLines(o1, lines[1..], protos);
      (ps + qs, o2)
  }

  /** Over a whole purchase, every item put into the buyer's hands takes one of the hands empty before it. */
  lemma {:induction false} GrantLinesTakesHands(o: Outfit, lines: seq<(ProtoId, int)>, protos: set<ProtoId>)
    ensures PickupCount(GrantLines(o, lines, protos).0) + GrantLines(o, lines, protos).1.freeHands == o.freeHands
    decreases |lines|
  {
    if lines != [] {
      if lines[0].1 > 0 {
        GrantUnitsTakesHands(o, lines[0].0, lines[0].1, protos);
      }
      var (ps, o1) := if lines[0].1 > 0 then GrantUnits(o, lines[0].0, lines[0].1, protos) else ([], o);
      GrantLinesTakesHands(o1, lines[1..], protos);
      var (qs, o2) := GrantLines(o1, lines[1..], protos);
      PickupCountAppend(ps, qs);
    }
  }

  /** Over a whole purchase, every equipped item went into a slot empty before it and filled after, and no slot is used twice. */
  lemma {:induction false} GrantLinesFillsOnce(o: Outfit, lines: seq<(ProtoId, int)>, protos: set<ProtoId>)
    ensures SlotsFilledOnce(o, GrantLines(o, lines, protos).0, GrantLines(o, lines, protos).1)
    decreases |lines|
  {
    if lines != [] {
      if lines[0].1 > 0 {
        GrantUnitsFillsOnce(o, lines[0].0, lines[0].1, protos);
      }
      var (ps, o1) := if lines[0].1 > 0 then GrantUnits(o, lines[0].0, lines[0].1, protos) else ([], o);
      GrantLinesFillsOnce(o1, lines[1..], protos);
      var (qs, o2) := GrantLines(o1, lines[1..], protos);
      assert forall i :: |ps| <= i < |ps + qs| ==> (ps + qs)[i] == qs[i - |ps|];
    }
  }
}
