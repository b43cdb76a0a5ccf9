/**
 * The trader component and the system's handlers that change it: initialisation,
 * the restock tick, the payment search that fills the three reservation buckets,
 * the commit, the grant, and the buy request that ties them together. Every method
 * is proved to compute the specification functions of TraderCatalog,
 * TraderPayment and TraderPlacement on the component's fields.
 */
module NpcTraderSystem {
  import opened Wrappers
  import opened TraderWorld
  import opened TraderCatalog
  import opened TraderPayment
  import opened TraderPlacement

  /** The seconds between two restock ticks when the prototype does not set them. */
  const DefaultDeltaTime: int := 5

  /** Which phrase list the trader picks a line from. */
  datatype Phrase = NoProduct | LittleMoney | ThankYou

  /** What a buy request did besides changing the component: the phrase said, the commit made, the items granted. */
  datatype BuyReport = BuyReport(phrase: Option<Phrase>, commit: Option<Commit>, granted: seq<Placement>)

  /** A finite stock lowered by one for a sale; an infinite stock (-1) is left as it is. */
  function Decremented(items: map<ProtoId, int>, productId: ProtoId): (r: map<ProtoId, int>)
    ensures r.Keys == items.Keys
    ensures forall k :: k in items && k != productId ==> r[k] == items[k]
    ensures productId in items ==> r[productId] == if items[productId] == -1 then -1 else items[productId] - 1
  {
    if productId in items && items[productId] != -1 then items[productId := items[productId] - 1] else items
  }

  /** A sale that passed the stock guard keeps every finite stock between 0 and its baseline. */
  lemma SaleKeepsStockInRange(items: map<ProtoId, int>, baseline: map<ProtoId, int>, productId: ProtoId)
    requires StockInRange(items, baseline) && productId in items && items[productId] != 0
    ensures StockInRange(Decremented(items, productId), baseline)
    ensures items[productId] != -1 ==> 0 <= Decremented(items, productId)[productId] < items[productId]
  {
    var r := Decremented(items, productId);
    forall k | k in baseline
      ensures (baseline[k] == -1 && r[k] == -1) || (0 <= r[k] <= baseline[k])
    {
      if k == productId {
        assert (baseline[k] == -1 && items[k] == -1) || (1 <= items[k] <= baseline[k]);
      }
    }
  }

  /** Some element of a non-empty set: the next key of a dictionary enumeration, in whatever order it runs. */
  method AnyOf<T>(s: set<T>) returns (x: T)
    requires s != {}
    ensures x in s
  {
    x :| x in s;
  }

  class NpcTrader {
    /** The earliest time after which the next restock tick runs. */
    var nextTick: int
    /** The time between restock ticks. */
    var deltaTime: int
    /** Pending restocks per product; an entry, once added, is never removed. */
    var respawnItems: map<ProtoId, Respawn>
    /** The sales catalogs the trader's prototype names, in order. */
    var catalog: seq<ProtoId>
    /** Current stock per product; -1 is an infinite stock. */
    var itemsInCatalog: map<ProtoId, int>
    /** The baseline stock, taken at initialisation; None before it. */
    var copyItemsInCatalog: Option<map<ProtoId, int>>
    /** The reservation buckets of the buy in progress. */
    var delItem: seq<Entity>
    var delRealAmmo: map<Entity, Entity>
    var delVirtAmmo: map<Entity, int>

    /**
     * The ticks only index stock and baseline by keys they share: before
     * initialisation nothing is pending; after it, the baseline has exactly the
     * products of the stock, and every pending restock is for one of them.
     */
    predicate Valid()
      reads this
    {
      match copyItemsInCatalog
      case None => respawnItems == map[]
      case Some(baseline) => baseline.Keys == itemsInCatalog.Keys && respawnItems.Keys <= itemsInCatalog.Keys
    }

    /**
     * What initialisation sets up and the ticks and sales keep: a baseline exists,
     * every finite stock lies between 0 and its baseline while infinite stock stays
     * infinite, and every pending restock adds at least 0 items or restores (-1).
     */
    ghost predicate StockValid()
      reads this`copyItemsInCatalog, this`itemsInCatalog, this`respawnItems
    {
      && copyItemsInCatalog.Some?
      && StockInRange(itemsInCatalog, copyItemsInCatalog.value)
      && RespawnCountsValid(respawnItems)
    }

    /** The three buckets as one reservation. */
    function Buckets(): Reservation
      reads this
    {
      Reservation(delItem, delRealAmmo, delVirtAmmo)
    }

    /** A fresh component whose prototype leaves the tick interval at its default. */
    constructor Default(catalog: seq<ProtoId>, itemsInCatalog: map<ProtoId, int>)
      ensures Valid()
      ensures this.catalog == catalog && this.itemsInCatalog == itemsInCatalog && deltaTime == DefaultDeltaTime
      ensures nextTick == 0 && respawnItems == map[] && copyItemsInCatalog == None
      ensures Buckets() == NoReservation
    {
      this.catalog := catalog;
      this.itemsInCatalog := itemsInCatalog;
      deltaTime := DefaultDeltaTime;
      nextTick := 0;
      respawnItems := map[];
      copyItemsInCatalog := None;
      delItem := [];
      delRealAmmo := map[];
      delVirtAmmo := map[];
    }

    /** A fresh component: the catalogs and any stock its prototype sets, nothing pending, no baseline yet. */
    constructor (catalog: seq<ProtoId>, itemsInCatalog: map<ProtoId, int>, deltaTime: int)
      ensures Valid()
      ensures this.catalog == catalog && this.itemsInCatalog == itemsInCatalog && this.deltaTime == deltaTime
      ensures nextTick == 0 && respawnItems == map[] && copyItemsInCatalog == None
      ensures Buckets() == NoReservation
    {
      this.catalog := catalog;
      this.itemsInCatalog := itemsInCatalog;
      this.deltaTime := deltaTime;
      nextTick := 0;
      respawnItems := map[];
      copyItemsInCatalog := None;
      delItem := [];
      delRealAmmo := map[];
      delVirtAmmo := map[];
    }

    /**
     * OnMapInit: an empty stock is filled from the catalogs in order, the first
     * listing of a product winning; the baseline becomes a copy of the stock, and the
     * first tick is due one delta after now.
     */
    method OnMapInit(now: int, reg: Registry)
      requires Valid()
      modifies this`itemsInCatalog, this`copyItemsInCatalog, this`nextTick
      ensures Valid()
      ensures old(itemsInCatalog) == map[] ==> itemsInCatalog == MergeCatalogs(map[], catalog, reg)
      ensures old(itemsInCatalog) != map[] ==> itemsInCatalog == old(itemsInCatalog)
      ensures copyItemsInCatalog == Some(itemsInCatalog)
      ensures nextTick == now + deltaTime
      ensures StockCountsValid(old(itemsInCatalog)) && CatalogCountsValid(reg) && RespawnCountsValid(respawnItems) ==> StockValid()
    {
      if |itemsInCatalog| == 0 {
        var n := 0;
        while n < |catalog|
          invariant 0 <= n <= |catalog|
          invariant MergeCatalogs(itemsInCatalog, catalog[n..], reg) == MergeCatalogs(map[], catalog, reg)
        {
          var name := catalog[n];
          assert catalog[n..][0] == name && catalog[n..][1..] == catalog[n + 1..];
          if name in reg.catalogs {
            AddCatalog(reg.catalogs[name], reg);
          }
          n := n + 1;
        }
        assert catalog[n..] == [];
      }
      if StockCountsValid(old(itemsInCatalog)) && CatalogCountsValid(reg) && old(itemsInCatalog) == map[] {
        MergeCatalogsCountsValid(map[], catalog, reg);
      }
      copyItemsInCatalog := Some(itemsInCatalog);
      nextTick := now + deltaTime;
    }

    /** The inner loop of OnMapInit: the lines of one sales catalog added to the stock in order. */
    method AddCatalog(offers: seq<(ProtoId, int)>, reg: Registry)
      modifies this`itemsInCatalog
      ensures itemsInCatalog == AddOffers(old(itemsInCatalog), offers, reg)
    {
      var j := 0;
      while j < |offers|
        invariant 0 <= j <= |offers|
        invariant AddOffers(itemsInCatalog, offers[j..], reg) == AddOffers(old(itemsInCatalog), offers, reg)
      {
        var (key, value) := offers[j];
        assert offers[j..][0] == offers[j] && offers[j..][1..] == offers[j + 1..];
        if key in reg.products {
          if key !in itemsInCatalog {
            itemsInCatalog := itemsInCatalog[key := value];
          }
        }
        j := j + 1;
      }
      assert offers[j..] == [];
    }

    /**
     * Update, for this trader: once now is past the next tick, the tick is pushed one
     * delta on; with a non-empty baseline, every due restock is applied and then every
     * product that needs one and has none gets a restock entry.
     */
    method Update(now: int, reg: Registry)
      requires Valid()
      modifies this`nextTick, this`itemsInCatalog, this`respawnItems
      ensures Valid()
      ensures now <= old(nextTick) ==> nextTick == old(nextTick) && itemsInCatalog == old(itemsInCatalog) && respawnItems == old(respawnItems)
      ensures now > old(nextTick) ==> nextTick == now + deltaTime
      ensures now > old(nextTick) && (copyItemsInCatalog == None || copyItemsInCatalog == Some(map[])) ==>
                itemsInCatalog == old(itemsInCatalog) && respawnItems == old(respawnItems)
      ensures now > old(nextTick) && copyItemsInCatalog.Some? && copyItemsInCatalog.value != map[] ==>
                && itemsInCatalog == RestockPhase(old(itemsInCatalog), copyItemsInCatalog.value, old(respawnItems), now)
                && respawnItems == SchedulePhase(itemsInCatalog, copyItemsInCatalog.value, old(respawnItems), reg, now)
      ensures old(StockValid()) && ProductCountsValid(reg) ==> StockValid()
    {
      if now <= nextTick {
        return;
      }
      nextTick := now + deltaTime;
      if copyItemsInCatalog.None? || |copyItemsInCatalog.value| == 0 {
        return;
      }
      var baseline := copyItemsInCatalog.value;
      RestockDue(now, baseline);
      ScheduleRestocks(now, baseline, reg);
    }

    /** Phase 1 of a tick: apply every due restock entry to its product's stock. */
    method RestockDue(now: int, baseline: map<ProtoId, int>)
      requires Valid() && copyItemsInCatalog == Some(baseline)
      modifies this`itemsInCatalog
      ensures Valid()
      ensures itemsInCatalog == RestockPhase(old(itemsInCatalog), baseline, respawnItems, now)
    {
      var items0, respawn := itemsInCatalog, respawnItems;
      var items := items0;
      assert items0.Keys == baseline.Keys && respawn.Keys <= items0.Keys;
      var todo := respawn.Keys;
      while todo != {}
        invariant todo <= respawn.Keys
        invariant items.Keys == items0.Keys
        invariant forall k :: k in items0 ==>
                    items[k] == (if k in respawn && k !in todo && IsDue(respawn[k], now)
                                 then Restocked(items0[k], baseline[k], respawn[k].countOfItems)
                                 else items0[k])
        decreases todo
      {
        var k := AnyOf(todo);
        var entry := respawn[k];
        if now > entry.timeRespawn {
          if entry.countOfItems == -1 {
            items := items[k := baseline[k]];
          } else if items[k] + entry.countOfItems <= baseline[k] {
            items := items[k := items[k] + entry.countOfItems];
          } else {
            items := items[k := baseline[k]];
          }
        }
        todo := todo - {k};
      }
      RestockPhaseUnique(items0, baseline, respawn, now, items);
      itemsInCatalog := items;
    }

    /** Phase 2 of a tick: add a restock entry for every product that needs one and has none. */
    method ScheduleRestocks(now: int, baseline: map<ProtoId, int>, reg: Registry)
      requires Valid() && copyItemsInCatalog == Some(baseline)
      modifies this`respawnItems
      ensures Valid()
      ensures respawnItems == SchedulePhase(itemsInCatalog, baseline, old(respawnItems), reg, now)
    {
      var items, respawn0 := itemsInCatalog, respawnItems;
      var respawn := respawn0;
      assert items.Keys == baseline.Keys && respawn0.Keys <= items.Keys;
      var todo := items.Keys;
      while todo != {}
        invariant todo <= items.Keys
        invariant forall k :: k in respawn0 ==> k in respawn && respawn[k] == respawn0[k]
        invariant forall k :: k in respawn && k !in respawn0 ==>
                    && k in items && k !in todo && NeedsRestock(items, baseline, reg, k)
                    && respawn[k] == Respawn(now + reg.products[k].timeRespawn, reg.products[k].countRespawn)
        invariant forall k :: k in items && k !in todo && NeedsRestock(items, baseline, reg, k) ==> k in respawn
        decreases todo
      {
        var k := AnyOf(todo);
        if k in reg.products {
          var product := reg.products[k];
          if product.canRespawn {
            if items[k] != baseline[k] {
              if k !in respawn {
                respawn := respawn[k := Respawn(now + product.timeRespawn, product.countRespawn)];
              }
            }
          }
        }
        todo := todo - {k};
      }
      SchedulePhaseUnique(items, baseline, respawn0, reg, now, respawn);
      respawnItems := respawn;
    }

    /** CheckCartridgeComp on the trader's DelItem bucket. */
    method CheckCartridgeComp(w: World, uid: Entity, addInDelQueu: bool) returns (ok: bool)
      modifies this`delItem
      ensures (ok, Buckets()) == CheckCartridge(w, uid, old(Buckets()), addInDelQueu)
    {
      if uid in w.cartridges {
        if !w.cartridges[uid] {
          if addInDelQueu {
            delItem := delItem + [uid];
          }
          return true;
        } else {
          return false;
        }
      } else {
        delItem := delItem + [uid];
        return true;
      }
    }

    /** TryGiveEntityFromAmmoProvider on the trader's buckets. */
    method TryGiveEntityFromAmmoProvider(w: World, price: ProtoId, provider: Entity) returns (ok: bool)
      requires provider in w.providers
      modifies this`delItem, this`delRealAmmo, this`delVirtAmmo
      ensures (ok, Buckets()) == TakeFromProvider(w, price, provider, old(Buckets()))
    {
      var p := w.providers[provider];
      if p.proto.None? {
        return false;
      }
      if p.proto.value != price {
        return false;
      }
      if p.unspawnedCount != 0 {
        if provider in delVirtAmmo {
          if p.unspawnedCount - delVirtAmmo[provider] > 0 {
            delVirtAmmo := delVirtAmmo[provider := delVirtAmmo[provider] + 1];
            return true;
          }
        } else {
          delVirtAmmo := delVirtAmmo[provider := 1];
          return true;
        }
      }
      if |p.entities| != 0 {
        ghost var r0 := Buckets();
        var flag := false;
        var i := 0;
        while i < |p.entities|
          invariant 0 <= i <= |p.entities|
          invariant ScanRounds(w, provider, 0, r0) == ScanRounds(w, provider, i, Buckets())
        {
          var bullet := p.entities[i];
          var usable := CheckCartridgeComp(w, bullet, false);
          if !usable {
            i := i + 1;
            continue;
          }
          if bullet !in delRealAmmo {
            delRealAmmo := delRealAmmo[bullet := provider];
            flag := true;
            break;
          }
          i := i + 1;
        }
        if flag {
          return true;
        }
      }
      return false;
    }

    /** The identity test of every search, on the trader's buckets. */
    method IdentityCandidate(w: World, price: ProtoId, uid: Entity) returns (decided: bool, found: bool)
      modifies this`delItem
      ensures IdentityStep(w, price, uid, old(Buckets())) == if decided then Done(found, Buckets()) else Continue(Buckets())
    {
      if !MatchesPrice(w, uid, price) {
        return false, false;
      }
      if uid in delItem {
        return false, false;
      }
      found := CheckCartridgeComp(w, uid, true);
      decided := true;
    }

    /** One stored entity of TryFindEntityInStorage's loop. */
    method StorageCandidate(w: World, price: ProtoId, t: Thing) returns (decided: bool, found: bool)
      modifies this`delItem, this`delRealAmmo, this`delVirtAmmo
      ensures StorageStep(w, price, t, old(Buckets())) == if decided then Done(found, Buckets()) else Continue(Buckets())
      decreases t, 2, 0
    {
      if t.uid in w.providers {
        var taken := TryGiveEntityFromAmmoProvider(w, price, t.uid);
        if taken {
          return true, true;
        }
      }
      if t.Storage? {
        var _ := TryFindEntityInStorage(w, price, t);
      }
      decided, found := IdentityCandidate(w, price, t.uid);
    }

    /** TryFindEntityInStorage: the stored entities of `owner` in order, until one decides the unit. */
    method TryFindEntityInStorage(w: World, price: ProtoId, owner: Thing) returns (found: bool)
      requires owner.Storage?
      modifies this`delItem, this`delRealAmmo, this`delVirtAmmo
      ensures (found, Buckets()) == SearchStorage(w, price, owner, 0, old(Buckets()))
      decreases owner, 1, 0
    {
      ghost var r0 := Buckets();
      var i := 0;
      while i < |owner.stored|
        invariant 0 <= i <= |owner.stored|
        invariant SearchStorage(w, price, owner, 0, r0) == SearchStorage(w, price, owner, i, Buckets())
      {
        var decided;
        decided, found := StorageCandidate(w, price, owner.stored[i]);
        if decided {
          return;
        }
        i := i + 1;
      }
      return false;
    }

    /** One held or nearby entity of TryFindItem's first and last loops. */
    method ReachCandidate(w: World, price: ProtoId, t: Thing) returns (decided: bool, found: bool)
      modifies this`delItem, this`delRealAmmo, this`delVirtAmmo
      ensures ReachStep(w, price, t, old(Buckets())) == if decided then Done(found, Buckets()) else Continue(Buckets())
    {
      if t.uid in w.providers {
        var taken := TryGiveEntityFromAmmoProvider(w, price, t.uid);
        if taken {
          return true, true;
        }
      }
      if t.Storage? {
        var stored := TryFindEntityInStorage(w, price, t);
        if stored {
          return true, true;
        }
      }
      decided, found := IdentityCandidate(w, price, t.uid);
    }

    /** One inventory-slot entity of TryFindItem's middle loop. */
    method SlotCandidate(w: World, price: ProtoId, t: Thing) returns (decided: bool, found: bool)
      modifies this`delItem, this`delRealAmmo, this`delVirtAmmo
      ensures SlotStep(w, price, t, old(Buckets())) == if decided then Done(found, Buckets()) else Continue(Buckets())
    {
      if t.Plain? {
        if t.uid in w.providers {
          var taken := TryGiveEntityFromAmmoProvider(w, price, t.uid);
          if taken {
            return true, true;
          }
        }
        decided, found := IdentityCandidate(w, price, t.uid);
      } else {
        found := TryFindEntityInStorage(w, price, t);
        decided := found;
      }
    }

    /** The hands or the nearby entities: `decided` when a candidate settled the unit, with its verdict in `found`. */
    method SearchReach(w: World, price: ProtoId, things: seq<Thing>) returns (decided: bool, found: bool)
      modifies this`delItem, this`delRealAmmo, this`delVirtAmmo
      ensures ScanReach(w, price, things, old(Buckets())) == if decided then Done(found, Buckets()) else Continue(Buckets())
    {
      ghost var r0 := Buckets();
      var i := 0;
      while i < |things|
        invariant 0 <= i <= |things|
        invariant ScanReach(w, price, things, r0) == ScanReach(w, price, things[i..], Buckets())
      {
        assert things[i..][0] == things[i] && things[i..][1..] == things[i + 1..];
        decided, found := ReachCandidate(w, price, things[i]);
        if decided {
          return;
        }
        i := i + 1;
      }
      assert things[i..] == [];
      return false, false;
    }

    /** The inventory slots in order, as SearchReach does for the hands. */
    method SearchSlots(w: World, price: ProtoId, things: seq<Thing>) returns (decided: bool, found: bool)
      modifies this`delItem, this`delRealAmmo, this`delVirtAmmo
      ensures ScanSlots(w, price, things, old(Buckets())) == if decided then Done(found, Buckets()) else Continue(Buckets())
    {
      ghost var r0 := Buckets();
      var i := 0;
      while i < |things|
        invariant 0 <= i <= |things|
        invariant ScanSlots(w, price, things, r0) == ScanSlots(w, price, things[i..], Buckets())
      {
        assert things[i..][0] == things[i] && things[i..][1..] == things[i + 1..];
        decided, found := SlotCandidate(w, price, things[i]);
        if decided {
          return;
        }
        i := i + 1;
      }
      assert things[i..] == [];
      return false, false;
    }

    /** TryFindItem: one unit of `price` from the hands, then the inventory slots, then the entities near the trader. */
    method TryFindItem(w: World, price: ProtoId) returns (found: bool)
      modifies this`delItem, this`delRealAmmo, this`delVirtAmmo
      ensures (found, Buckets()) == FindItem(w, price, old(Buckets()))
    {
      var decided: bool;
      decided, found := SearchReach(w, price, w.hands);
      if decided {
        return;
      }
      decided, found := SearchSlots(w, price, w.slots);
      if decided {
        return;
      }
      decided, found := SearchReach(w, price, w.nearby);
      found := decided && found;
    }

    /**
     * The take events TryDeleteItems raises for one provider with `reserved` virtual
     * rounds: it stops early once the provider's unspawned count reaches zero, each
     * take lowering that count by one.
     */
    method VirtualTakes(unspawnedCount: nat, reserved: int) returns (n: nat)
      ensures n == TakesBeforeEmpty(reserved, unspawnedCount)
    {
      var unspawned := unspawnedCount;
      n := 0;
      var i := 0;
      while i < reserved
        invariant 0 <= i && n == i && n + unspawned == unspawnedCount
        invariant i <= reserved || i == 0
      {
        if unspawned == 0 {
          break;
        }
        unspawned := unspawned - 1;
        n := n + 1;
        i := i + 1;
      }
    }

    /**
     * TryDeleteItems, as the requests it makes: per reserved provider, one take
     * event per virtual round until the provider reports none left; one take event
     * per reserved round; the deletion of every entity in DelItem.
     */
    method TryDeleteItems(w: World) returns (c: Commit)
      ensures c == CommitOf(w, Buckets())
    {
      var takes: map<Entity, int> := map[];
      var todo := delVirtAmmo.Keys;
      while todo != {}
        invariant todo <= delVirtAmmo.Keys
        invariant takes.Keys == (delVirtAmmo.Keys - todo) * w.providers.Keys
        invariant forall p :: p in takes ==> takes[p] == TakesBeforeEmpty(delVirtAmmo[p], w.providers[p].unspawnedCount)
        decreases todo
      {
        var p := AnyOf(todo);
        if p in w.providers {
          var n := VirtualTakes(w.providers[p].unspawnedCount, delVirtAmmo[p]);
          takes := takes[p := n];
        }
        todo := todo - {p};
      }
      c := Commit(takes, delRealAmmo, delItem);
      ghost var spec := CommitOf(w, Buckets());
      assert forall p :: p in spec.virtualTakes <==> p in takes;
      assert forall p :: p in takes ==> spec.virtualTakes[p] == takes[p];
    }

    /**
     * TryGiveItems: with a non-empty list of granted lines, every unit of every line
     * is placed on the buyer in order, then a finite stock is lowered by one and the
     * trader thanks the buyer.
     */
    method TryGiveItems(productId: ProtoId, w: World, reg: Registry, o: Outfit) returns (granted: seq<Placement>, thanked: bool)
      requires Valid()
      modifies this`itemsInCatalog
      ensures Valid()
      ensures productId !in reg.products || reg.products[productId].takingItems == [] ==>
                granted == [] && !thanked && itemsInCatalog == old(itemsInCatalog)
      ensures productId in reg.products && reg.products[productId].takingItems != [] ==>
                && granted == GrantLines(o, reg.products[productId].takingItems, w.entityPrototypes).0
                && thanked
                && itemsInCatalog == Decremented(old(itemsInCatalog), productId)
      ensures old(StockValid()) && productId in old(itemsInCatalog) && old(itemsInCatalog)[productId] != 0 ==> StockValid()
    {
      if productId !in reg.products {
        return [], false;
      }
      var lines := reg.products[productId].takingItems;
      if |lines| == 0 {
        return [], false;
      }
      var protos := w.entityPrototypes;
      var outfit := o;
      granted := [];
      var j := 0;
      while j < |lines|
        invariant 0 <= j <= |lines|
        invariant itemsInCatalog == old(itemsInCatalog)
        invariant GrantLines(o, lines, protos).0 == granted + GrantLines(outfit, lines[j..], protos).0
      {
        var (proto, count) := lines[j];
        assert lines[j..][0] == lines[j] && lines[j..][1..] == lines[j + 1..];
        var lineGranted: seq<Placement> := [];
        if count > 0 {
          lineGranted, outfit := GiveUnits(outfit, proto, count, protos);
        }
        ghost var tail := GrantLines(outfit, lines[j + 1..], protos).0;
        assert granted + (lineGranted + tail) == (granted + lineGranted) + tail;
        granted := granted + lineGranted;
        j := j + 1;
      }
      assert lines[j..] == [];
      SellOne(productId);
      thanked := true;
    }

    /** The stock decrement that ends TryGiveItems; a sale that passed the stock guard keeps the stock in range. */
    method SellOne(productId: ProtoId)
      modifies this`itemsInCatalog
      ensures itemsInCatalog == Decremented(old(itemsInCatalog), productId)
      ensures old(StockValid()) && productId in old(itemsInCatalog) && old(itemsInCatalog)[productId] != 0 ==> StockValid()
    {
      if StockValid() && productId in itemsInCatalog && itemsInCatalog[productId] != 0 {
        SaleKeepsStockInRange(itemsInCatalog, copyItemsInCatalog.value, productId);
      }
      if productId in itemsInCatalog && itemsInCatalog[productId] != -1 {
        itemsInCatalog := itemsInCatalog[productId := itemsInCatalog[productId] - 1];
      }
    }

    /** The inner loop of TryGiveItems: `count` items of `proto`, each placed on the buyer as the previous one left it. */
    method GiveUnits(o: Outfit, proto: ProtoId, count: int, protos: set<ProtoId>) returns (placed: seq<Placement>, after: Outfit)
      ensures (placed, after) == GrantUnits(o, proto, count, protos)
    {
      placed, after := [], o;
      var u := 0;
      ghost var spec := GrantUnits(o, proto, count, protos);
      assert [] + spec.0 == spec.0;
      while u < count
        invariant 0 <= u && (u <= count || u == 0)
        invariant spec.0 == placed + GrantUnits(after, proto, count - u, protos).0
        invariant spec.1 == GrantUnits(after, proto, count - u, protos).1
      {
        var p, _ := SpawnItemOnEntityValidated(after, proto, protos);
        assert p == PickedUp ==> PicksUp(after, proto);
        var next := AfterPlacement(after, p);
        ghost var rest := GrantUnits(next, proto, count - u - 1, protos);
        assert GrantUnits(after, proto, count - u, protos) == ([p] + rest.0, rest.1);
        assert placed + ([p] + rest.0) == (placed + [p]) + rest.0;
        placed := placed + [p];
        after := next;
        u := u + 1;
      }
      assert GrantUnits(after, proto, count - u, protos) == ([], after);
      assert placed + [] == placed;
    }

    /** SpawnItemOnEntityValidated's placement decision for one item of `proto`, and the value it returns. */
    method SpawnItemOnEntityValidated(o: Outfit, proto: ProtoId, protos: set<ProtoId>) returns (p: Placement, granted: bool)
      ensures p == PlacementOf(o, proto, protos)
      ensures granted <==> Granted(p)
    {
      if !o.hasInventory || o.deleted || proto !in protos {
        return NotSpawned, false;
      }
      if o.slots.None? {
        return Deleted, false;
      }
      var slots := o.slots.value;
      var i := 0;
      while i < |slots|
        invariant 0 <= i <= |slots|
        invariant NoSlotFits(o, proto, slots[..i])
      {
        var s := slots[i];
        if (proto, s) in o.canEquip && s !in o.occupied && (proto, s) in o.equips {
          assert FirstFit(o, proto, slots) == Some(s) by {
            FirstFitIsFirst(o, proto, slots, i);
          }
          return Equipped(s), true;
        }
        assert slots[..i + 1] == slots[..i] + [s];
        i := i + 1;
      }
      assert slots[..i] == slots;
      if o.hasHands {
        return if o.freeHands > 0 && proto in o.pickups then PickedUp else PickupFailed, o.freeHands > 0 && proto in o.pickups;
      }
      return Deleted, false;
    }

    /** The inner loop of a payment line in OnNpcTraderBuy: `count` units of `price`, stopping at the first one not found. */
    method PayLine(w: World, price: ProtoId, count: int) returns (paid: bool)
      modifies this`delItem, this`delRealAmmo, this`delVirtAmmo
      ensures (paid, Buckets()) == PayUnits(w, price, count, old(Buckets()))
    {
      ghost var r0 := Buckets();
      paid := true;
      if count > 0 {
        var u := 0;
        while u < count
          invariant 0 <= u <= count
          invariant PayUnits(w, price, count, r0) == PayUnits(w, price, count - u, Buckets())
        {
          ghost var before := Buckets();
          var found := TryFindItem(w, price);
          assert (found, Buckets()) == FindItem(w, price, before);
          if !found {
            assert PayUnits(w, price, count - u, before) == (false, Buckets());
            paid := false;
            break;
          }
          assert PayUnits(w, price, count - u, before) == PayUnits(w, price, count - u - 1, Buckets());
          u := u + 1;
        }
      }
    }

    /** The outer loop of OnNpcTraderBuy: every payment line in order; `tempFlag` is set once a unit is missing. */
    method PayGivingItems(w: World, lines: seq<(ProtoId, int)>) returns (tempFlag: bool)
      modifies this`delItem, this`delRealAmmo, this`delVirtAmmo
      ensures (tempFlag, Buckets()) == PayLines(w, lines, old(Buckets()))
    {
      ghost var r0 := Buckets();
      tempFlag := false;
      var j := 0;
      while j < |lines|
        invariant 0 <= j <= |lines|
        invariant PayLines(w, lines, r0).1 == PayLines(w, lines[j..], Buckets()).1
        invariant PayLines(w, lines, r0).0 == (PayLines(w, lines[j..], Buckets()).0 || tempFlag)
      {
        var (price, count) := lines[j];
        assert lines[j..][0] == lines[j] && lines[j..][1..] == lines[j + 1..];
        if price in w.entityPrototypes {
          var paid := PayLine(w, price, count);
          if !paid {
            tempFlag := true;
          }
        }
        j := j + 1;
      }
      assert lines[j..] == [];
    }

    /**
     * OnNpcTraderBuy: the buckets are cleared; an unknown product, an exhausted
     * finite stock or a product that does not index stops the request; otherwise
     * every unit of every payment line is searched, and only when none was missing
     * are the reservations committed and the goods granted.
     */
    method OnNpcTraderBuy(productId: ProtoId, w: World, reg: Registry, o: Outfit) returns (report: BuyReport)
      requires Valid()
      modifies this`delItem, this`delRealAmmo, this`delVirtAmmo, this`itemsInCatalog
      ensures Valid()
      ensures productId !in old(itemsInCatalog) ==>
                report == BuyReport(None, None, []) && itemsInCatalog == old(itemsInCatalog) && Buckets() == NoReservation
      ensures productId in old(itemsInCatalog) && old(itemsInCatalog)[productId] == 0 ==>
                report == BuyReport(Some(NoProduct), None, []) && itemsInCatalog == old(itemsInCatalog) && Buckets() == NoReservation
      ensures productId in old(itemsInCatalog) && old(itemsInCatalog)[productId] != 0 && productId !in reg.products ==>
                report == BuyReport(None, None, []) && itemsInCatalog == old(itemsInCatalog) && Buckets() == NoReservation
      ensures productId in old(itemsInCatalog) && old(itemsInCatalog)[productId] != 0 && productId in reg.products ==>
                var product := reg.products[productId];
                var payment := PayLines(w, product.givingItems, NoReservation);
                && Buckets() == payment.1
                && (payment.0 ==> report == BuyReport(Some(LittleMoney), None, []) && itemsInCatalog == old(itemsInCatalog))
                && (!payment.0 && product.takingItems == [] ==>
                      report == BuyReport(None, Some(CommitOf(w, payment.1)), []) && itemsInCatalog == old(itemsInCatalog))
                && (!payment.0 && product.takingItems != [] ==>
                      && report == BuyReport(Some(ThankYou), Some(CommitOf(w, payment.1)), GrantLines(o, product.takingItems, w.entityPrototypes).0)
                      && itemsInCatalog == Decremented(old(itemsInCatalog), productId))
      ensures old(StockValid()) ==> StockValid()
    {
      delItem, delRealAmmo, delVirtAmmo := [], map[], map[];
      if productId !in itemsInCatalog {
        return BuyReport(None, None, []);
      }
      if itemsInCatalog[productId] != -1 {
        if itemsInCatalog[productId] == 0 {
          return BuyReport(Some(NoProduct), None, []);
        }
      }
      if productId !in reg.products {
        return BuyReport(None, None, []);
      }
      var tempFlag := PayGivingItems(w, reg.products[productId].givingItems);
      if !tempFlag {
        var commit := TryDeleteItems(w);
        var granted, thanked := TryGiveItems(productId, w, reg, o);
        report := BuyReport(if thanked then Some(ThankYou) else None, Some(commit), granted);
      } else {
        report := BuyReport(Some(LittleMoney), None, []);
      }
    }
  }

  /** A slot that fits, with none fitting before it, is the first fit. */
  lemma {:induction false} FirstFitIsFirst(o: Outfit, proto: ProtoId, slots: seq<SlotName>, i: nat)
    requires i < |slots| && Fits(o, proto, slots[i]) && NoSlotFits(o, proto, slots[..i])
    ensures FirstFit(o, proto, slots) == Some(slots[i])
    decreases i
  {
    if i > 0 {
      assert !Fits(o, proto, slots[..i][0]);
      assert slots[1..][..i - 1] == slots[1..i];
      var rest := slots[1..][..i - 1];
      forall k | 0 <= k < |rest|
        ensures !Fits(o, proto, rest[k])
      {
        assert rest[k] == slots[..i][k + 1];
      }
      FirstFitIsFirst(o, proto, slots[1..], i - 1);
    }
  }
}
