/**
 * The payment search of a buy, as functions over the reservation it builds. Each
 * function follows one routine of the trader system (CheckCartridgeComp,
 * TryGiveEntityFromAmmoProvider, TryFindEntityInStorage, TryFindItem and the
 * per-line loop of OnNpcTraderBuy); the methods of the class in npc_trader.dfy
 * run the same loops on the trader's fields and are proved to agree with them.
 */
module TraderPayment {
  import opened Wrappers
  import opened TraderWorld

  /**
   * The three buckets a buy fills before anything is consumed: items to delete
   * (DelItem, in order), materialised rounds mapped to their provider (DelRealAmmo),
   * and providers mapped to how many unspawned rounds they give (DelVirtAmmo).
   */
  datatype Reservation = Reservation(delItem: seq<Entity>, delRealAmmo: map<Entity, Entity>, delVirtAmmo: map<Entity, int>)

  const NoReservation: Reservation := Reservation([], map[], map[])

  /** `r2` keeps all of `r1`: DelItem only grows at its end, no round is released, no virtual count drops. */
  predicate Extends(r1: Reservation, r2: Reservation)
  {
    && |r1.delItem| <= |r2.delItem|
    && (forall i :: 0 <= i < |r1.delItem| ==> r2.delItem[i] == r1.delItem[i])
    && (forall b :: b in r1.delRealAmmo ==> b in r2.delRealAmmo && r2.delRealAmmo[b] == r1.delRealAmmo[b])
    && (forall p :: p in r1.delVirtAmmo ==> p in r2.delVirtAmmo && r1.delVirtAmmo[p] <= r2.delVirtAmmo[p])
  }

  /** Two reservations that extend each other are the same. */
  lemma ExtendsAntisymmetric(r1: Reservation, r2: Reservation)
    requires Extends(r1, r2) && Extends(r2, r1)
    ensures r1 == r2
  {
    assert r1.delItem == r2.delItem;
    forall b | b in r1.delRealAmmo || b in r2.delRealAmmo
      ensures b in r1.delRealAmmo && b in r2.delRealAmmo && r1.delRealAmmo[b] == r2.delRealAmmo[b]
    {
    }
    assert r1.delRealAmmo == r2.delRealAmmo;
    forall p | p in r1.delVirtAmmo || p in r2.delVirtAmmo
      ensures p in r1.delVirtAmmo && p in r2.delVirtAmmo && r1.delVirtAmmo[p] == r2.delVirtAmmo[p]
    {
    }
    assert r1.delVirtAmmo == r2.delVirtAmmo;
  }

  /** Once a step adds a reservation, nothing later in the same buy takes it back. */
  lemma ExtendsStrict(r1: Reservation, r2: Reservation, r3: Reservation)
    requires Extends(r1, r2) && Extends(r2, r3) && r2 != r3
    ensures r1 != r3
  {
    if r1 == r3 {
      ExtendsAntisymmetric(r2, r3);
    }
  }

  /**
   * What a reservation may hold in world `w`: no spent cartridge is to be deleted,
   * every reserved round is an unspent round of its provider, and a provider gives
   * at least one and at most UnspawnedCount virtual rounds.
   */
  predicate Sound(w: World, r: Reservation)
  {
    && (forall i :: 0 <= i < |r.delItem| ==> !IsSpent(w, r.delItem[i]))
    && (forall b :: b in r.delRealAmmo ==>
          && !IsSpent(w, b)
          && r.delRealAmmo[b] in w.providers
          && b in w.providers[r.delRealAmmo[b]].entities)
    && (forall p :: p in r.delVirtAmmo ==> p in w.providers && 1 <= r.delVirtAmmo[p] <= w.providers[p].unspawnedCount)
  }

  /** No entity is twice in the sequence. */
  predicate Distinct(s: seq<Entity>)
  {
    forall i, j :: 0 <= i < j < |s| ==> s[i] != s[j]
  }

  /** Every materialised round of every provider carries a cartridge component. */
  predicate RoundsAreCartridges(w: World)
  {
    forall p, i :: p in w.providers && 0 <= i < |w.providers[p].entities| ==> w.providers[p].entities[i] in w.cartridges
  }

  /**
   * What every step of the search keeps: the earlier reservations, soundness, and,
   * when every round is a cartridge, that DelItem names each entity at most once
   * (so one item never pays for two units).
   */
  predicate Keeps(w: World, r1: Reservation, r2: Reservation)
  {
    && Extends(r1, r2)
    && (Sound(w, r1) ==> Sound(w, r2))
    && (RoundsAreCartridges(w) && Distinct(r1.delItem) ==> Distinct(r2.delItem))
  }

  /** The virtual rounds of `p` that the reservation already takes. */
  function VirtualReserved(r: Reservation, p: Entity): int
  {
    if p in r.delVirtAmmo then r.delVirtAmmo[p] else 0
  }

  /** The provider's unspawned pool is used up by the reservation (or was empty). */
  predicate VirtualPoolExhausted(w: World, p: Entity, r: Reservation)
    requires p in w.providers
  {
    w.providers[p].unspawnedCount == 0 || w.providers[p].unspawnedCount <= VirtualReserved(r, p)
  }

  /** The entities of a reachable thing: its own and, for a storage, those of everything stored in it, at any depth. */
  function Uids(t: Thing): set<Entity>
    decreases t
  {
    {t.uid} + if t.Storage? then (set i, e | 0 <= i < |t.stored| && e in Uids(t.stored[i]) :: e) else {}
  }

  /** The entities of a sequence of reachable things. */
  function UidsOf(things: seq<Thing>): set<Entity>
  {
    set i, e | 0 <= i < |things| && e in Uids(things[i]) :: e
  }

  /** Every entity the search can look at: the hands, the inventory slots and the entities near the trader, storages opened. */
  function Reachable(w: World): set<Entity>
  {
    UidsOf(w.hands) + UidsOf(w.slots) + UidsOf(w.nearby)
  }

  /** The entity is a materialised round of some provider. */
  predicate IsRound(w: World, e: Entity)
  {
    exists p :: p in w.providers && e in w.providers[p].entities
  }

  /** The entity is a materialised round of a provider whose round prototype is `price`. */
  predicate IsRoundOf(w: World, price: ProtoId, e: Entity)
  {
    exists p :: p in w.providers && w.providers[p].proto == Some(price) && e in w.providers[p].entities
  }

  /**
   * The reservations `r2` adds to `r1` pay with `price`: each entity newly queued for
   * deletion is an entity of `things` whose prototype is the price, or a round without a
   * cartridge component from a provider of the price; each newly reserved round and each
   * raised virtual count belongs to a provider whose round prototype is the price.
   */
  predicate PaysWith(w: World, price: ProtoId, things: set<Entity>, r1: Reservation, r2: Reservation)
  {
    && (forall i :: |r1.delItem| <= i < |r2.delItem| ==>
          || (r2.delItem[i] in things && MatchesPrice(w, r2.delItem[i], price))
          || (IsRoundOf(w, price, r2.delItem[i]) && r2.delItem[i] !in w.cartridges))
    && (forall b :: b in r2.delRealAmmo && b !in r1.delRealAmmo ==>
          r2.delRealAmmo[b] in w.providers && w.providers[r2.delRealAmmo[b]].proto == Some(price))
    && (forall p :: p in r2.delVirtAmmo && VirtualReserved(r1, p) != r2.delVirtAmmo[p] ==>
          p in w.providers && w.providers[p].proto == Some(price))
  }

  /** Paying with the same price composes along a growing reservation, over the union of the things looked at. */
  lemma PaysWithTransitive(w: World, price: ProtoId, s1: set<Entity>, s2: set<Entity>, s: set<Entity>,
                           r1: Reservation, r2: Reservation, r3: Reservation)
    requires s1 <= s && s2 <= s
    requires Extends(r1, r2) && Extends(r2, r3)
    requires PaysWith(w, price, s1, r1, r2) && PaysWith(w, price, s2, r2, r3)
    ensures PaysWith(w, price, s, r1, r3)
  {
    forall i | |r1.delItem| <= i < |r3.delItem|
      ensures || (r3.delItem[i] in s && MatchesPrice(w, r3.delItem[i], price))
              || (IsRoundOf(w, price, r3.delItem[i]) && r3.delItem[i] !in w.cartridges)
    {
      if i < |r2.delItem| {
        assert r3.delItem[i] == r2.delItem[i];
      }
    }
    forall p | p in r3.delVirtAmmo && VirtualReserved(r1, p) != r3.delVirtAmmo[p]
      ensures p in w.providers && w.providers[p].proto == Some(price)
    {
      if VirtualReserved(r2, p) == r3.delVirtAmmo[p] {
        assert p in r2.delVirtAmmo;
      }
    }
  }

  /**
   * CheckCartridgeComp: a cartridge is accepted only when it is not spent; an entity
   * without a cartridge component is always accepted. An accepted entity is queued
   * for deletion when asked, and, as written, always when it is no cartridge at all.
   */
  function CheckCartridge(w: World, uid: Entity, r: Reservation, addToDelete: bool): (res: (bool, Reservation))
    ensures res.0 <==> !IsSpent(w, uid)
    ensures res.0 && (addToDelete || uid !in w.cartridges) ==> res.1 == r.(delItem := r.delItem + [uid])
    ensures !(res.0 && (addToDelete || uid !in w.cartridges)) ==> res.1 == r
  {
    if uid in w.cartridges then
      if !w.cartridges[uid] then (true, if addToDelete then r.(delItem := r.delItem + [uid]) else r)
      else (false, r)
    else (true, r.(delItem := r.delItem + [uid]))
  }

  /** The reservation steps compose: keeping is transitive. */
  lemma KeepsTransitive(w: World, r1: Reservation, r2: Reservation, r3: Reservation)
    requires Keeps(w, r1, r2) && Keeps(w, r2, r3)
    ensures Keeps(w, r1, r3)
  {
  }

  /**
   * The fallback of TryGiveEntityFromAmmoProvider: the provider's rounds from index
   * `from` on, reserving the first one that is not spent and not reserved yet.
   */
  function ScanRounds(w: World, provider: Entity, from: nat, r: Reservation): (res: (bool, Reservation))
    requires provider in w.providers && from <= |w.providers[provider].entities|
    ensures res.1.delVirtAmmo == r.delVirtAmmo
    ensures res.0 ==> |res.1.delRealAmmo| == |r.delRealAmmo| + 1
    ensures !res.0 ==> res.1.delRealAmmo == r.delRealAmmo
    decreases |w.providers[provider].entities| - from
  {
    var rounds := w.providers[provider].entities;
    if from == |rounds| then (false, r)
    else
      var round := rounds[from];
      var (usable, r1) := CheckCartridge(w, round, r, false);
      if usable && round !in r1.delRealAmmo then (true, r1.(delRealAmmo := r1.delRealAmmo[round := provider]))
      else ScanRounds(w, provider, from + 1, r1)
  }

  /** The provider's round at index `i` can be reserved: it is not spent and no earlier unit reserved it. */
  predicate FreeRound(w: World, provider: Entity, reserved: map<Entity, Entity>, i: nat)
    requires provider in w.providers && i < |w.providers[provider].entities|
  {
    !IsSpent(w, w.providers[provider].entities[i]) && w.providers[provider].entities[i] !in reserved
  }

  /** The index of the provider's first free round from `from` on; the number of its rounds when there is none. */
  function FirstFree(w: World, provider: Entity, reserved: map<Entity, Entity>, from: nat): (i: nat)
    requires provider in w.providers && from <= |w.providers[provider].entities|
    ensures from <= i <= |w.providers[provider].entities|
    ensures forall j :: from <= j < i ==> !FreeRound(w, provider, reserved, j)
    ensures i < |w.providers[provider].entities| ==> FreeRound(w, provider, reserved, i)
    decreases |w.providers[provider].entities| - from
  {
    if from == |w.providers[provider].entities| then from
    else if FreeRound(w, provider, reserved, from) then from
    else FirstFree(w, provider, reserved, from + 1)
  }

  /** The round fallback succeeds exactly when a free round is left from `from` on, and reserves the first of them for the provider. */
  lemma {:induction false} ScanRoundsReservesFirstFree(w: World, provider: Entity, from: nat, r: Reservation)
    requires provider in w.providers && from <= |w.providers[provider].entities|
    ensures var i := FirstFree(w, provider, r.delRealAmmo, from);
            && (ScanRounds(w, provider, from, r).0 <==> i < |w.providers[provider].entities|)
            && (ScanRounds(w, provider, from, r).0 ==>
                  ScanRounds(w, provider, from, r).1.delRealAmmo == r.delRealAmmo[w.providers[provider].entities[i] := provider])
    decreases |w.providers[provider].entities| - from
  {
    var rounds := w.providers[provider].entities;
    if from < |rounds| {
      var (usable, r1) := CheckCartridge(w, rounds[from], r, false);
      assert r1.delRealAmmo == r.delRealAmmo;
      if !(usable && rounds[from] !in r1.delRealAmmo) {
        ScanRoundsReservesFirstFree(w, provider, from + 1, r1);
      }
    }
  }

  /** Checking one of a provider's rounds keeps the reservation, and queues nothing when rounds are cartridges. */
  lemma CheckRoundKeeps(w: World, provider: Entity, i: nat, r: Reservation)
    requires provider in w.providers && i < |w.providers[provider].entities|
    ensures Keeps(w, r, CheckCartridge(w, w.providers[provider].entities[i], r, false).1)
    ensures RoundsAreCartridges(w) ==> CheckCartridge(w, w.providers[provider].entities[i], r, false).1 == r
  {
    var round := w.providers[provider].entities[i];
    if round !in w.cartridges {
      var r1 := CheckCartridge(w, round, r, false).1;
      assert r1.delItem[|r.delItem|] == round;
    }
  }

  /** Reserving an unspent round of the provider keeps the reservation sound. */
  lemma ReserveRoundKeeps(w: World, provider: Entity, i: nat, r: Reservation)
    requires provider in w.providers && i < |w.providers[provider].entities|
    requires !IsSpent(w, w.providers[provider].entities[i]) && w.providers[provider].entities[i] !in r.delRealAmmo
    ensures Keeps(w, r, r.(delRealAmmo := r.delRealAmmo[w.providers[provider].entities[i] := provider]))
  {
  }

  /** The round fallback keeps the reservation sound, and touches DelItem only for a round without a cartridge component. */
  lemma {:induction false} ScanRoundsKeeps(w: World, provider: Entity, from: nat, r: Reservation)
    requires provider in w.providers && from <= |w.providers[provider].entities|
    ensures Keeps(w, r, ScanRounds(w, provider, from, r).1)
    ensures RoundsAreCartridges(w) ==> ScanRounds(w, provider, from, r).1.delItem == r.delItem
    decreases |w.providers[provider].entities| - from
  {
    var rounds := w.providers[provider].entities;
    if from < |rounds| {
      var round := rounds[from];
      var (usable, r1) := CheckCartridge(w, round, r, false);
      CheckRoundKeeps(w, provider, from, r);
      if usable && round !in r1.delRealAmmo {
        ReserveRoundKeeps(w, provider, from, r1);
        KeepsTransitive(w, r, r1, r1.(delRealAmmo := r1.delRealAmmo[round := provider]));
      } else {
        ScanRoundsKeeps(w, provider, from + 1, r1);
        KeepsTransitive(w, r, r1, ScanRounds(w, provider, from + 1, r1).1);
      }
    }
  }

  /**
   * TryGiveEntityFromAmmoProvider: a provider whose round prototype is the price
   * gives one unspawned round while its pool lasts, and only then one of its
   * materialised rounds.
   */
  function TakeFromProvider(w: World, price: ProtoId, provider: Entity, r: Reservation): (res: (bool, Reservation))
    requires provider in w.providers
    ensures w.providers[provider].proto != Some(price) ==> res == (false, r)
    ensures res.1.delVirtAmmo != r.delVirtAmmo ==>
              res == (true, r.(delVirtAmmo := r.delVirtAmmo[provider := VirtualReserved(r, provider) + 1]))
    ensures res.1.delRealAmmo != r.delRealAmmo ==>
              && res.0 && VirtualPoolExhausted(w, provider, r)
              && res.1.delVirtAmmo == r.delVirtAmmo
              && |res.1.delRealAmmo| == |r.delRealAmmo| + 1
    ensures res.0 ==> res.1.delVirtAmmo != r.delVirtAmmo || res.1.delRealAmmo != r.delRealAmmo
    ensures w.providers[provider].proto == Some(price) && !VirtualPoolExhausted(w, provider, r) ==>
              res == (true, r.(delVirtAmmo := r.delVirtAmmo[provider := VirtualReserved(r, provider) + 1]))
    ensures w.providers[provider].proto == Some(price) && VirtualPoolExhausted(w, provider, r) ==>
              res == ScanRounds(w, provider, 0, r)
  {
    var p := w.providers[provider];
    if p.proto.None? || p.proto.value != price then (false, r)
    else if p.unspawnedCount != 0 && provider !in r.delVirtAmmo then
      (true, r.(delVirtAmmo := r.delVirtAmmo[provider := 1]))
    else if p.unspawnedCount != 0 && p.unspawnedCount - r.delVirtAmmo[provider] > 0 then
      (true, r.(delVirtAmmo := r.delVirtAmmo[provider := r.delVirtAmmo[provider] + 1]))
    else if |p.entities| != 0 then ScanRounds(w, provider, 0, r)
    else (false, r)
  }

  /** A provider never gives more virtual rounds than it holds, nor a spent or already reserved round. */
  lemma TakeFromProviderKeeps(w: World, price: ProtoId, provider: Entity, r: Reservation)
    requires provider in w.providers
    ensures Keeps(w, r, TakeFromProvider(w, price, provider, r).1)
    ensures RoundsAreCartridges(w) ==> TakeFromProvider(w, price, provider, r).1.delItem == r.delItem
  {
    var p := w.providers[provider];
    if p.proto == Some(price) && !(p.unspawnedCount != 0 && provider !in r.delVirtAmmo)
       && !(p.unspawnedCount != 0 && p.unspawnedCount - r.delVirtAmmo[provider] > 0) && |p.entities| != 0 {
      ScanRoundsKeeps(w, provider, 0, r);
    }
  }

  /**
   * A provider pays one unit exactly when its round prototype is the price and either
   * its unspawned pool is not used up or one of its rounds is free.
   */
  lemma TakeFromProviderSucceeds(w: World, price: ProtoId, provider: Entity, r: Reservation)
    requires provider in w.providers
    ensures TakeFromProvider(w, price, provider, r).0 <==>
              && w.providers[provider].proto == Some(price)
              && (|| !VirtualPoolExhausted(w, provider, r)
                  || FirstFree(w, provider, r.delRealAmmo, 0) < |w.providers[provider].entities|)
  {
    ScanRoundsReservesFirstFree(w, provider, 0, r);
  }

  /** How one candidate ends: the search goes on with `r`, or the unit is decided. */
  datatype Step = Continue(r: Reservation) | Done(found: bool, r: Reservation)

  /**
   * The identity test shared by every search: a candidate whose prototype is the
   * price and that is not reserved yet decides the unit with CheckCartridgeComp's
   * verdict; any other candidate is passed over.
   */
  function IdentityStep(w: World, price: ProtoId, uid: Entity, r: Reservation): (s: Step)
    ensures !MatchesPrice(w, uid, price) || uid in r.delItem ==> s == Continue(r)
    ensures MatchesPrice(w, uid, price) && uid !in r.delItem ==>
              && s.Done?
              && (s.found <==> !IsSpent(w, uid))
              && s.r == (if s.found then r.(delItem := r.delItem + [uid]) else r)
  {
    if !MatchesPrice(w, uid, price) then Continue(r)
    else if uid in r.delItem then Continue(r)
    else
      var (ok, r1) := CheckCartridge(w, uid, r, true);
      Done(ok, r1)
  }

  /** The identity test never queues a spent cartridge, nor an entity twice. */
  lemma IdentityStepKeeps(w: World, price: ProtoId, uid: Entity, r: Reservation)
    ensures Keeps(w, r, IdentityStep(w, price, uid, r).r)
  {
    var s := IdentityStep(w, price, uid, r);
    if s.Done? && s.found {
      assert s.r.delItem[|r.delItem|] == uid;
    }
  }

  /** The provider test shared by every search: a provider candidate that gives a round decides the unit. */
  function ProviderStep(w: World, price: ProtoId, uid: Entity, r: Reservation): (res: (bool, Reservation))
  {
    if uid in w.providers then TakeFromProvider(w, price, uid, r) else (false, r)
  }

  /** What a candidate test keeps, and that a unit it finds always adds a reservation. */
  predicate StepKeeps(w: World, r: Reservation, s: Step)
  {
    Keeps(w, r, s.r) && (s.Done? && s.found ==> s.r != r)
  }

  /** The same for a search that returns a verdict and a reservation. */
  predicate SearchKeeps(w: World, r: Reservation, res: (bool, Reservation))
  {
    Keeps(w, r, res.1) && (res.0 ==> res.1 != r)
  }

  lemma ProviderStepKeeps(w: World, price: ProtoId, uid: Entity, r: Reservation)
    ensures SearchKeeps(w, r, ProviderStep(w, price, uid, r))
    ensures RoundsAreCartridges(w) ==> ProviderStep(w, price, uid, r).1.delItem == r.delItem
  {
    if uid in w.providers {
      TakeFromProviderKeeps(w, price, uid, r);
    }
  }

  /**
   * One stored entity, as TryFindEntityInStorage tries it: as a provider, then,
   * when it is a storage itself, searched inside with the verdict of that search
   * dropped and only its reservations kept, then by identity.
   */
  function StorageStep(w: World, price: ProtoId, t: Thing, r: Reservation): (s: Step)
    decreases t, 2, 0
  {
    var (taken, r1) := ProviderStep(w, price, t.uid, r);
    if taken then Done(true, r1)
    else
      var r2 := if t.Storage? then SearchStorage(w, price, t, 0, r1).1 else r1;
      IdentityStep(w, price, t.uid, r2)
  }

  /** TryFindEntityInStorage: the entities stored in `owner`, from index `from` on, until one decides the unit. */
  function SearchStorage(w: World, price: ProtoId, owner: Thing, from: nat, r: Reservation): (res: (bool, Reservation))
    requires owner.Storage? && from <= |owner.stored|
    decreases owner, 1, |owner.stored| - from
  {
    if from == |owner.stored| then (false, r)
    else
      match StorageStep(w, price, owner.stored[from], r)
      case Done(found, r1) => (found, r1)
      case Continue(r1) => SearchStorage(w, price, owner, from + 1, r1)
  }

  /** A stored candidate keeps the reservation sound, nested storages included. */
  lemma {:induction false} StorageStepKeeps(w: World, price: ProtoId, t: Thing, r: Reservation)
    ensures StepKeeps(w, r, StorageStep(w, price, t, r))
    decreases t, 2, 0
  {
    var (taken, r1) := ProviderStep(w, price, t.uid, r);
    ProviderStepKeeps(w, price, t.uid, r);
    if !taken {
      var r2 := if t.Storage? then SearchStorage(w, price, t, 0, r1).1 else r1;
      if t.Storage? {
        SearchStorageKeeps(w, price, t, 0, r1);
      }
      IdentityStepKeeps(w, price, t.uid, r2);
      var s := IdentityStep(w, price, t.uid, r2);
      KeepsTransitive(w, r1, r2, s.r);
      KeepsTransitive(w, r, r1, s.r);
      if s.Done? && s.found {
        ExtendsStrict(r, r2, s.r);
      }
    }
  }

  /** A storage search keeps the reservation sound, and a unit it finds always adds a reservation. */
  lemma {:induction false} SearchStorageKeeps(w: World, price: ProtoId, owner: Thing, from: nat, r: Reservation)
    requires owner.Storage? && from <= |owner.stored|
    ensures SearchKeeps(w, r, SearchStorage(w, price, owner, from, r))
    decreases owner, 1, |owner.stored| - from
  {
    if from < |owner.stored| {
      var s := StorageStep(w, price, owner.stored[from], r);
      StorageStepKeeps(w, price, owner.stored[from], r);
      if s.Continue? {
        SearchStorageKeeps(w, price, owner, from + 1, s.r);
        var res := SearchStorage(w, price, owner, from + 1, s.r);
        KeepsTransitive(w, r, s.r, res.1);
        if res.0 {
          ExtendsStrict(r, s.r, res.1);
        }
      }
    }
  }

  /** A held or nearby candidate: provider first, then its storage, then identity. */
  function ReachStep(w: World, price: ProtoId, t: Thing, r: Reservation): (s: Step)
  {
    var (taken, r1) := ProviderStep(w, price, t.uid, r);
    if taken then Done(true, r1)
    else
      var (stored, r2) := if t.Storage? then SearchStorage(w, price, t, 0, r1) else (false, r1);
      if stored then Done(true, r2)
      else IdentityStep(w, price, t.uid, r2)
  }

  lemma ReachStepKeeps(w: World, price: ProtoId, t: Thing, r: Reservation)
    ensures StepKeeps(w, r, ReachStep(w, price, t, r))
  {
    var (taken, r1) := ProviderStep(w, price, t.uid, r);
    ProviderStepKeeps(w, price, t.uid, r);
    if !taken {
      var (stored, r2) := if t.Storage? then SearchStorage(w, price, t, 0, r1) else (false, r1);
      if t.Storage? {
        SearchStorageKeeps(w, price, t, 0, r1);
      }
      KeepsTransitive(w, r, r1, r2);
      if stored {
        ExtendsStrict(r, r1, r2);
      } else {
        IdentityStepKeeps(w, price, t.uid, r2);
        var s := IdentityStep(w, price, t.uid, r2);
        KeepsTransitive(w, r, r2, s.r);
        if s.Done? && s.found {
          ExtendsStrict(r, r2, s.r);
        }
      }
    }
  }

  /** An inventory-slot candidate: a storage is only searched inside; anything else is tried as a provider, then by identity. */
  function SlotStep(w: World, price: ProtoId, t: Thing, r: Reservation): (s: Step)
  {
    if t.Plain? then
      var (taken, r1) := ProviderStep(w, price, t.uid, r);
      if taken then Done(true, r1) else IdentityStep(w, price, t.uid, r1)
    else
      var (stored, r1) := SearchStorage(w, price, t, 0, r);
      if stored then Done(true, r1) else Continue(r1)
  }

  lemma SlotStepKeeps(w: World, price: ProtoId, t: Thing, r: Reservation)
    ensures StepKeeps(w, r, SlotStep(w, price, t, r))
  {
    if t.Plain? {
      var (taken, r1) := ProviderStep(w, price, t.uid, r);
      ProviderStepKeeps(w, price, t.uid, r);
      if !taken {
        IdentityStepKeeps(w, price, t.uid, r1);
        var s := IdentityStep(w, price, t.uid, r1);
        KeepsTransitive(w, r, r1, s.r);
        if s.Done? && s.found {
          ExtendsStrict(r, r1, s.r);
        }
      }
    } else {
      SearchStorageKeeps(w, price, t, 0, r);
    }
  }

  /** The hands, or the entities near the trader, in order until one candidate decides the unit. */
  function ScanReach(w: World, price: ProtoId, things: seq<Thing>, r: Reservation): (s: Step)
    decreases |things|
  {
    if things == [] then Continue(r)
    else
      match ReachStep(w, price, things[0], r)
      case Done(found, r1) => Done(found, r1)
      case Continue(r1) => ScanReach(w, price, things[1..], r1)
  }

  lemma {:induction false} ScanReachKeeps(w: World, price: ProtoId, things: seq<Thing>, r: Reservation)
    ensures StepKeeps(w, r, ScanReach(w, price, things, r))
    decreases |things|
  {
    if things != [] {
      ReachStepKeeps(w, price, things[0], r);
      var s := ReachStep(w, price, things[0], r);
      if s.Continue? {
        ScanReachKeeps(w, price, things[1..], s.r);
        var s' := ScanReach(w, price, things[1..], s.r);
        KeepsTransitive(w, r, s.r, s'.r);
        if s'.Done? && s'.found {
          ExtendsStrict(r, s.r, s'.r);
        }
      }
    }
  }

  /** The inventory slots in order until one candidate decides the unit. */
  function ScanSlots(w: World, price: ProtoId, things: seq<Thing>, r: Reservation): (s: Step)
    decreases |things|
  {
    if things == [] then Continue(r)
    else
      match SlotStep(w, price, things[0], r)
      case Done(found, r1) => Done(found, r1)
      case Continue(r1) => ScanSlots(w, price, things[1..], r1)
  }

  lemma {:induction false} ScanSlotsKeeps(w: World, price: ProtoId, things: seq<Thing>, r: Reservation)
    ensures StepKeeps(w, r, ScanSlots(w, price, things, r))
    decreases |things|
  {
    if things != [] {
      SlotStepKeeps(w, price, things[0], r);
      var s := SlotStep(w, price, things[0], r);
      if s.Continue? {
        ScanSlotsKeeps(w, price, things[1..], s.r);
        var s' := ScanSlots(w, price, things[1..], s.r);
        KeepsTransitive(w, r, s.r, s'.r);
        if s'.Done? && s'.found {
          ExtendsStrict(r, s.r, s'.r);
        }
      }
    }
  }

  /**
   * TryFindItem: one unit of `price`, searched in the hands, then the inventory
   * slots, then the uncontained entities near the trader.
   */
  function FindItem(w: World, price: ProtoId, r: Reservation): (res: (bool, Reservation))
  {
    match ScanReach(w, price, w.hands, r)
    case Done(found, r1) => (found, r1)
    case Continue(r1) =>
      match ScanSlots(w, price, w.slots, r1)
      case Done(found, r2) => (found, r2)
      case Continue(r2) =>
        match ScanReach(w, price, w.nearby, r2)
        case Done(found, r3) => (found, r3)
        case Continue(r3) => (false, r3)
  }

  /** A unit search keeps the reservation sound, never releases one, and a found unit always adds a reservation. */
  lemma FindItemKeeps(w: World, price: ProtoId, r: Reservation)
    ensures SearchKeeps(w, r, FindItem(w, price, r))
  {
    ScanReachKeeps(w, price, w.hands, r);
    var s1 := ScanReach(w, price, w.hands, r);
    if s1.Continue? {
      ScanSlotsKeeps(w, price, w.slots, s1.r);
      var s2 := ScanSlots(w, price, w.slots, s1.r);
      KeepsTransitive(w, r, s1.r, s2.r);
      if s2.Done? && s2.found {
        ExtendsStrict(r, s1.r, s2.r);
      }
      if s2.Continue? {
        ScanReachKeeps(w, price, w.nearby, s2.r);
        var s3 := ScanReach(w, price, w.nearby, s2.r);
        KeepsTransitive(w, r, s2.r, s3.r);
        if s3.Done? && s3.found {
          ExtendsStrict(r, s2.r, s3.r);
        }
      }
    }
  }

  /** The inner loop of a payment line: `count` units of `price`, stopping at the first one not found. */
  function PayUnits(w: World, price: ProtoId, count: int, r: Reservation): (res: (bool, Reservation))
    decreases count
  {
    if count <= 0 then (true, r)
    else
      var (found, r1) := FindItem(w, price, r);
      if !found then (false, r1) else PayUnits(w, price, count - 1, r1)
  }

  /** A payment line keeps the reservation sound and releases nothing; a paid line of a positive count adds to the reservation. */
  lemma {:induction false} PayUnitsKeeps(w: World, price: ProtoId, count: int, r: Reservation)
    ensures Keeps(w, r, PayUnits(w, price, count, r).1)
    ensures count > 0 && PayUnits(w, price, count, r).0 ==> PayUnits(w, price, count, r).1 != r
    decreases count
  {
    if count > 0 {
      FindItemKeeps(w, price, r);
      var (found, r1) := FindItem(w, price, r);
      if found {
        PayUnitsKeeps(w, price, count - 1, r1);
        KeepsTransitive(w, r, r1, PayUnits(w, price, count - 1, r1).1);
        if PayUnits(w, price, count, r).1 == r {
          ExtendsAntisymmetric(r, r1);
        }
      }
    }
  }

  /** The rounds the fallback queues or reserves belong to the provider, whose round prototype is the price. */
  lemma {:induction false} ScanRoundsPays(w: World, price: ProtoId, provider: Entity, from: nat, r: Reservation)
    requires provider in w.providers && from <= |w.providers[provider].entities|
    requires w.providers[provider].proto == Some(price)
    ensures PaysWith(w, price, {}, r, ScanRounds(w, provider, from, r).1)
    decreases |w.providers[provider].entities| - from
  {
    var rounds := w.providers[provider].entities;
    if from < |rounds| {
      var (usable, r1) := CheckCartridge(w, rounds[from], r, false);
      CheckRoundPays(w, price, provider, from, r);
      if !(usable && rounds[from] !in r1.delRealAmmo) {
        ScanRoundsPays(w, price, provider, from + 1, r1);
        ScanRoundsKeeps(w, provider, from + 1, r1);
        PaysWithTransitive(w, price, {}, {}, {}, r, r1, ScanRounds(w, provider, from + 1, r1).1);
      }
    }
  }

  /** Checking, and then reserving, one round of a provider of the price pays with that round. */
  lemma CheckRoundPays(w: World, price: ProtoId, provider: Entity, i: nat, r: Reservation)
    requires provider in w.providers && i < |w.providers[provider].entities|
    requires w.providers[provider].proto == Some(price)
    ensures var r1 := CheckCartridge(w, w.providers[provider].entities[i], r, false).1;
            && Extends(r, r1) && PaysWith(w, price, {}, r, r1)
            && PaysWith(w, price, {}, r, r1.(delRealAmmo := r1.delRealAmmo[w.providers[provider].entities[i] := provider]))
  {
    var round := w.providers[provider].entities[i];
    assert IsRoundOf(w, price, round) by {
      assert round in w.providers[provider].entities;
    }
  }

  /** A provider gives only rounds of its own round prototype, and only when that is the price. */
  lemma ProviderStepPays(w: World, price: ProtoId, uid: Entity, r: Reservation)
    ensures PaysWith(w, price, {}, r, ProviderStep(w, price, uid, r).1)
  {
    if uid in w.providers && w.providers[uid].proto == Some(price) && VirtualPoolExhausted(w, uid, r) {
      ScanRoundsPays(w, price, uid, 0, r);
    }
  }

  /** The identity test queues only the candidate itself, and only when its prototype is the price. */
  lemma IdentityStepPays(w: World, price: ProtoId, uid: Entity, r: Reservation)
    ensures PaysWith(w, price, {uid}, r, IdentityStep(w, price, uid, r).r)
  {
  }

  /** The stored entities of the searched storage, at any depth, are within it. */
  lemma StoredWithin(owner: Thing, i: nat)
    requires owner.Storage? && i < |owner.stored|
    ensures Uids(owner.stored[i]) <= Uids(owner)
  {
    forall e | e in Uids(owner.stored[i])
      ensures e in Uids(owner)
    {
      assert 0 <= i < |owner.stored| && e in Uids(owner.stored[i]);
    }
  }

  /** A stored candidate pays only with entities of its own tree, nested storages included. */
  lemma {:induction false} StorageStepPays(w: World, price: ProtoId, t: Thing, r: Reservation)
    ensures PaysWith(w, price, Uids(t), r, StorageStep(w, price, t, r).r)
    decreases t, 2, 0
  {
    var (taken, r1) := ProviderStep(w, price, t.uid, r);
    ProviderStepPays(w, price, t.uid, r);
    ProviderStepKeeps(w, price, t.uid, r);
    if !taken {
      var r2 := if t.Storage? then SearchStorage(w, price, t, 0, r1).1 else r1;
      if t.Storage? {
        SearchStoragePays(w, price, t, 0, r1);
        SearchStorageKeeps(w, price, t, 0, r1);
      }
      PaysWithTransitive(w, price, {}, Uids(t), Uids(t), r, r1, r2);
      IdentityStepPays(w, price, t.uid, r2);
      IdentityStepKeeps(w, price, t.uid, r2);
      PaysWithTransitive(w, price, Uids(t), {t.uid}, Uids(t), r, r2, IdentityStep(w, price, t.uid, r2).r);
    }
  }

  /** A storage search pays only with entities stored in the storage, at any depth. */
  lemma {:induction false} SearchStoragePays(w: World, price: ProtoId, owner: Thing, from: nat, r: Reservation)
    requires owner.Storage? && from <= |owner.stored|
    ensures PaysWith(w, price, Uids(owner), r, SearchStorage(w, price, owner, from, r).1)
    decreases owner, 1, |owner.stored| - from
  {
    if from < |owner.stored| {
      var s := StorageStep(w, price, owner.stored[from], r);
      StorageStepPays(w, price, owner.stored[from], r);
      StoredWithin(owner, from);
      if s.Continue? {
        StorageStepKeeps(w, price, owner.stored[from], r);
        SearchStoragePays(w, price, owner, from + 1, s.r);
        SearchStorageKeeps(w, price, owner, from + 1, s.r);
        PaysWithTransitive(w, price, Uids(owner.stored[from]), Uids(owner), Uids(owner),
                           r, s.r, SearchStorage(w, price, owner, from + 1, s.r).1);
      }
    }
  }

  /** A held or nearby candidate pays only with entities of its own tree. */
  lemma ReachStepPays(w: World, price: ProtoId, t: Thing, r: Reservation)
    ensures PaysWith(w, price, Uids(t), r, ReachStep(w, price, t, r).r)
  {
    var (taken, r1) := ProviderStep(w, price, t.uid, r);
    ProviderStepPays(w, price, t.uid, r);
    if !taken {
      ProviderStepKeeps(w, price, t.uid, r);
      var (stored, r2) := if t.Storage? then SearchStorage(w, price, t, 0, r1) else (false, r1);
      if t.Storage? {
        SearchStoragePays(w, price, t, 0, r1);
        SearchStorageKeeps(w, price, t, 0, r1);
      }
      PaysWithTransitive(w, price, {}, Uids(t), Uids(t), r, r1, r2);
      if !stored {
        IdentityStepPays(w, price, t.uid, r2);
        IdentityStepKeeps(w, price, t.uid, r2);
        PaysWithTransitive(w, price, Uids(t), {t.uid}, Uids(t), r, r2, IdentityStep(w, price, t.uid, r2).r);
      }
    }
  }

  /** An inventory-slot candidate pays only with entities of its own tree. */
  lemma SlotStepPays(w: World, price: ProtoId, t: Thing, r: Reservation)
    ensures PaysWith(w, price, Uids(t), r, SlotStep(w, price, t, r).r)
  {
    if t.Plain? {
      var (taken, r1) := ProviderStep(w, price, t.uid, r);
      ProviderStepPays(w, price, t.uid, r);
      if !taken {
        ProviderStepKeeps(w, price, t.uid, r);
        IdentityStepPays(w, price, t.uid, r1);
        IdentityStepKeeps(w, price, t.uid, r1);
        PaysWithTransitive(w, price, {}, {t.uid}, Uids(t), r, r1, IdentityStep(w, price, t.uid, r1).r);
      }
    } else {
      SearchStoragePays(w, price, t, 0, r);
    }
  }

  /** The first thing of a sequence, and the rest of it, are within the sequence. */
  lemma ListedWithin(things: seq<Thing>)
    requires things != []
    ensures Uids(things[0]) <= UidsOf(things)
    ensures UidsOf(things[1..]) <= UidsOf(things)
  {
    forall e | e in Uids(things[0])
      ensures e in UidsOf(things)
    {
      assert 0 <= 0 < |things| && e in Uids(things[0]);
    }
    forall e | e in UidsOf(things[1..])
      ensures e in UidsOf(things)
    {
      var i :| 0 <= i < |things[1..]| && e in Uids(things[1..][i]);
      assert 0 <= i + 1 < |things| && e in Uids(things[i + 1]);
    }
  }

  /** Scanning the hands or the nearby entities pays only with what they hold. */
  lemma {:induction false} ScanReachPays(w: World, price: ProtoId, things: seq<Thing>, r: Reservation)
    ensures PaysWith(w, price, UidsOf(things), r, ScanReach(w, price, things, r).r)
    decreases |things|
  {
    if things != [] {
      ListedWithin(things);
      ReachStepPays(w, price, things[0], r);
      var s := ReachStep(w, price, things[0], r);
      if s.Continue? {
        ReachStepKeeps(w, price, things[0], r);
        ScanReachPays(w, price, things[1..], s.r);
        ScanReachKeeps(w, price, things[1..], s.r);
        PaysWithTransitive(w, price, Uids(things[0]), UidsOf(things[1..]), UidsOf(things),
                           r, s.r, ScanReach(w, price, things[1..], s.r).r);
      }
    }
  }

  /** Scanning the inventory slots pays only with what they hold. */
  lemma {:induction false} ScanSlotsPays(w: World, price: ProtoId, things: seq<Thing>, r: Reservation)
    ensures PaysWith(w, price, UidsOf(things), r, ScanSlots(w, price, things, r).r)
    decreases |things|
  {
    if things != [] {
      ListedWithin(things);
      SlotStepPays(w, price, things[0], r);
      var s := SlotStep(w, price, things[0], r);
      if s.Continue? {
        SlotStepKeeps(w, price, things[0], r);
        ScanSlotsPays(w, price, things[1..], s.r);
        ScanSlotsKeeps(w, price, things[1..], s.r);
        PaysWithTransitive(w, price, Uids(things[0]), UidsOf(things[1..]), UidsOf(things),
                           r, s.r, ScanSlots(w, price, things[1..], s.r).r);
      }
    }
  }

  /**
   * A unit of `price` is paid with something of the price: an entity the buyer can
   * reach whose prototype is the price, or a round of a provider of the price.
   */
  lemma FindItemPays(w: World, price: ProtoId, r: Reservation)
    ensures PaysWith(w, price, Reachable(w), r, FindItem(w, price, r).1)
  {
    ScanReachPays(w, price, w.hands, r);
    var s1 := ScanReach(w, price, w.hands, r);
    if s1.Continue? {
      ScanReachKeeps(w, price, w.hands, r);
      ScanSlotsPays(w, price, w.slots, s1.r);
      var s2 := ScanSlots(w, price, w.slots, s1.r);
      PaysWithTransitive(w, price, UidsOf(w.hands), UidsOf(w.slots), Reachable(w), r, s1.r, s2.r) by {
        ScanSlotsKeeps(w, price, w.slots, s1.r);
      }
      if s2.Continue? {
        ScanSlotsKeeps(w, price, w.slots, s1.r);
        KeepsTransitive(w, r, s1.r, s2.r);
        ScanReachPays(w, price, w.nearby, s2.r);
        ScanReachKeeps(w, price, w.nearby, s2.r);
        PaysWithTransitive(w, price, Reachable(w), UidsOf(w.nearby), Reachable(w),
                           r, s2.r, ScanReach(w, price, w.nearby, s2.r).r);
      }
    }
  }

  /** Every unit of a payment line is paid with something of the line's price. */
  lemma {:induction false} PayUnitsPays(w: World, price: ProtoId, count: int, r: Reservation)
    ensures PaysWith(w, price, Reachable(w), r, PayUnits(w, price, count, r).1)
    decreases count
  {
    if count > 0 {
      FindItemPays(w, price, r);
      var (found, r1) := FindItem(w, price, r);
      if found {
        FindItemKeeps(w, price, r);
        PayUnitsPays(w, price, count - 1, r1);
        PayUnitsKeeps(w, price, count - 1, r1);
        PaysWithTransitive(w, price, Reachable(w), Reachable(w), Reachable(w),
                           r, r1, PayUnits(w, price, count - 1, r1).1);
      }
    }
  }

  /**
   * The entities `r2` newly queues for deletion are entities of `things` or rounds
   * without a cartridge component: what PaysWith says of DelItem, whatever the price.
   */
  predicate QueuesFrom(w: World, things: set<Entity>, r1: Reservation, r2: Reservation)
  {
    forall i :: |r1.delItem| <= i < |r2.delItem| ==>
      r2.delItem[i] in things || (IsRound(w, r2.delItem[i]) && r2.delItem[i] !in w.cartridges)
  }

  /** Paying with one price queues from the same things. */
  lemma PaysWithQueuesFrom(w: World, price: ProtoId, things: set<Entity>, r1: Reservation, r2: Reservation)
    requires PaysWith(w, price, things, r1, r2)
    ensures QueuesFrom(w, things, r1, r2)
  {
  }

  /**
   * The payment lines of a product in order; the result's flag is OnNpcTraderBuy's
   * tempFlag: some unit of some line was not found. A line whose id is not an entity
   * prototype is skipped, and the lines after a failed one are still searched.
   */
  function PayLines(w: World, lines: seq<(ProtoId, int)>, r: Reservation): (res: (bool, Reservation))
    decreases |lines|
  {
    if lines == [] then (false, r)
    else if lines[0].0 !in w.entityPrototypes then PayLines(w, lines[1..], r)
    else
      var (paid, r1) := PayUnits(w, lines[0].0, lines[0].1, r);
      var (missing, r2) := PayLines(w, lines[1..], r1);
      (missing || !paid, r2)
  }

  /** Reservations persist across all payment lines of a buy, and stay sound. */
  lemma {:induction false} PayLinesKeeps(w: World, lines: seq<(ProtoId, int)>, r: Reservation)
    ensures Keeps(w, r, PayLines(w, lines, r).1)
    decreases |lines|
  {
    if lines != [] {
      if lines[0].0 !in w.entityPrototypes {
        PayLinesKeeps(w, lines[1..], r);
      } else {
        var (paid, r1) := PayUnits(w, lines[0].0, lines[0].1, r);
        PayUnitsKeeps(w, lines[0].0, lines[0].1, r);
        PayLinesKeeps(w, lines[1..], r1);
        KeepsTransitive(w, r, r1, PayLines(w, lines[1..], r1).1);
      }
    }
  }

  /** Across all payment lines, only reachable entities and rounds without a cartridge component are queued for deletion. */
  lemma {:induction false} PayLinesQueuesFrom(w: World, lines: seq<(ProtoId, int)>, r: Reservation)
    ensures QueuesFrom(w, Reachable(w), r, PayLines(w, lines, r).1)
    decreases |lines|
  {
    if lines != [] {
      if lines[0].0 !in w.entityPrototypes {
        PayLinesQueuesFrom(w, lines[1..], r);
      } else {
        var (paid, r1) := PayUnits(w, lines[0].0, lines[0].1, r);
        PayUnitsPays(w, lines[0].0, lines[0].1, r);
        PaysWithQueuesFrom(w, lines[0].0, Reachable(w), r, r1);
        PayUnitsKeeps(w, lines[0].0, lines[0].1, r);
        PayLinesQueuesFrom(w, lines[1..], r1);
        var r2 := PayLines(w, lines[1..], r1).1;
        forall i | |r.delItem| <= i < |r2.delItem|
          ensures r2.delItem[i] in Reachable(w) || (IsRound(w, r2.delItem[i]) && r2.delItem[i] !in w.cartridges)
        {
          if i < |r1.delItem| {
            PayLinesKeeps(w, lines[1..], r1);
            assert r2.delItem[i] == r1.delItem[i];
          }
        }
      }
    }
  }

  /** No provider round is among the things the buyer reaches directly: rounds sit inside their magazines and boxes. */
  predicate RoundsOutOfReach(w: World)
  {
    forall e :: e in Reachable(w) ==> !IsRound(w, e)
  }

  /**
   * The reservation a buy builds from scratch is sound: no spent cartridge is queued,
   * no provider gives more virtual rounds than it holds, every reserved round is an
   * unspent round of its provider; when all rounds are cartridges, no entity is
   * queued twice; and when, moreover, no round lies within the buyer's direct reach,
   * no entity is both queued for deletion and reserved as a round, so no entity
   * pays for two units.
   */
  lemma PaymentIsSound(w: World, lines: seq<(ProtoId, int)>)
    ensures Sound(w, PayLines(w, lines, NoReservation).1)
    ensures RoundsAreCartridges(w) ==> Distinct(PayLines(w, lines, NoReservation).1.delItem)
    ensures RoundsAreCartridges(w) && RoundsOutOfReach(w) ==>
              var r := PayLines(w, lines, NoReservation).1;
              forall i :: 0 <= i < |r.delItem| ==> r.delItem[i] !in r.delRealAmmo
  {
    PayLinesKeeps(w, lines, NoReservation);
    if RoundsAreCartridges(w) && RoundsOutOfReach(w) {
      PayLinesQueuesFrom(w, lines, NoReservation);
      QueuedNotReserved(w, PayLines(w, lines, NoReservation).1);
    }
  }

  /** A sound reservation that queues only reachable entities queues no round, when rounds are out of reach and all cartridges. */
  lemma QueuedNotReserved(w: World, r: Reservation)
    requires RoundsAreCartridges(w) && RoundsOutOfReach(w) && Sound(w, r)
    requires QueuesFrom(w, Reachable(w), NoReservation, r)
    ensures forall i :: 0 <= i < |r.delItem| ==> r.delItem[i] !in r.delRealAmmo
  {
    forall b | b in r.delRealAmmo
      ensures IsRound(w, b)
    {
      var p := r.delRealAmmo[b];
      assert p in w.providers && b in w.providers[p].entities;
    }
    forall i | 0 <= i < |r.delItem|
      ensures r.delItem[i] !in r.delRealAmmo
    {
      assert r.delItem[i] in Reachable(w);
    }
  }

  /**
   * What TryDeleteItems asks of the world: per provider, how many take events its
   * virtual reservation raises; one take event per reserved round; and the entities
   * queued for deletion.
   */
  datatype Commit = Commit(virtualTakes: map<Entity, int>, roundTakes: map<Entity, Entity>, deleted: seq<Entity>)

  /**
   * The number of take events for `reserved` virtual rounds when each take lowers
   * the unspawned count by one and the loop stops once it reaches zero.
   */
  function TakesBeforeEmpty(reserved: int, unspawned: nat): (n: nat)
    ensures n <= unspawned
    ensures 0 <= reserved <= unspawned ==> n == reserved
  {
    if reserved <= 0 then 0 else if reserved <= unspawned then reserved else unspawned
  }

  /** The commit of reservation `r`; providers that are gone are skipped. */
  function CommitOf(w: World, r: Reservation): (c: Commit)
    ensures forall p :: p in c.virtualTakes ==> p in r.delVirtAmmo && p in w.providers && c.virtualTakes[p] <= w.providers[p].unspawnedCount
    ensures c.roundTakes == r.delRealAmmo && c.deleted == r.delItem
  {
    Commit(map p | p in r.delVirtAmmo && p in w.providers :: TakesBeforeEmpty(r.delVirtAmmo[p], w.providers[p].unspawnedCount),
           r.delRealAmmo, r.delItem)
  }

  /** A sound reservation is committed exactly: every reserved virtual round is taken, none more. */
  lemma CommitTakesReserved(w: World, r: Reservation)
    requires Sound(w, r)
    ensures CommitOf(w, r).virtualTakes == r.delVirtAmmo
  {
    var c := CommitOf(w, r);
    assert forall p :: p in r.delVirtAmmo ==> p in w.providers;
    assert c.virtualTakes.Keys == r.delVirtAmmo.Keys;
    forall p | p in r.delVirtAmmo
      ensures c.virtualTakes[p] == r.delVirtAmmo[p]
    {
    }
  }
}
