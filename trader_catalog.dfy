/**
 * The trader's catalog as values: how initialisation merges the configured sales
 * catalogs, and the two phases of a restock tick. The class in npc_trader.dfy runs
 * these step by step and is proved to compute exactly these functions.
 */
module TraderCatalog {
  import opened TraderWorld

  /** A pending restock: the time after which it applies and how many items it adds (-1: back to the baseline). */
  datatype Respawn = Respawn(timeRespawn: int, countOfItems: int)

  // ---------------------------------------------------------------------------
  // Initialisation: merging the sales catalogs
  // ---------------------------------------------------------------------------

  /** Some line of `offers` names product `k`. */
  predicate Offers(offers: seq<(ProtoId, int)>, k: ProtoId)
  {
    exists i :: 0 <= i < |offers| && offers[i].0 == k
  }

  /** The count of the first line of `offers` that names `k`: the reference for "the first listing wins". */
  function FirstOffer(offers: seq<(ProtoId, int)>, k: ProtoId): int
    requires Offers(offers, k)
  {
    if offers[0].0 == k then offers[0].1
    else
      assert Offers(offers[1..], k) by {
        var i :| 0 <= i < |offers| && offers[i].0 == k;
        assert offers[1..][i - 1] == offers[i];
      }
      FirstOffer(offers[1..], k)
  }

  /**
   * The lines of one sales catalog added to `items` in order; only ids that index as
   * offer prototypes are added, and an id already present keeps its count.
   */
  function AddOffers(items: map<ProtoId, int>, offers: seq<(ProtoId, int)>, reg: Registry): (r: map<ProtoId, int>)
    ensures forall k :: k in items ==> k in r && r[k] == items[k]
    ensures forall k :: k in r ==> k in items || (k in reg.products && Offers(offers, k))
    decreases |offers|
  {
    if offers == [] then items
    else
      var next := if offers[0].0 in reg.products && offers[0].0 !in items then items[offers[0].0 := offers[0].1] else items;
      var r := AddOffers(next, offers[1..], reg);
      assert forall k :: k in r ==> k in items || (k in reg.products && Offers(offers, k)) by {
        forall k | k in r && k !in items
          ensures k in reg.products && Offers(offers, k)
        {
          if k !in next {
            var i :| 0 <= i < |offers[1..]| && offers[1..][i].0 == k;
            assert offers[i + 1].0 == k;
          }
        }
      }
      r
  }

  /** Every offer id of the catalog that indexes as a product ends up in the result. */
  lemma {:induction false} AddOffersCovers(items: map<ProtoId, int>, offers: seq<(ProtoId, int)>, reg: Registry, k: ProtoId)
    requires k in reg.products && Offers(offers, k)
    ensures k in AddOffers(items, offers, reg)
    decreases |offers|
  {
    var next := if offers[0].0 in reg.products && offers[0].0 !in items then items[offers[0].0 := offers[0].1] else items;
    if offers[0].0 != k {
      var i :| 0 <= i < |offers| && offers[i].0 == k;
      assert offers[1..][i - 1] == offers[i];
      AddOffersCovers(next, offers[1..], reg, k);
    }
  }

  /** A product not yet in `items` takes the count of its first line in the catalog. */
  lemma {:induction false} AddOffersFirstWins(items: map<ProtoId, int>, offers: seq<(ProtoId, int)>, reg: Registry, k: ProtoId)
    requires k !in items && k in reg.products && Offers(offers, k)
    ensures k in AddOffers(items, offers, reg) && AddOffers(items, offers, reg)[k] == FirstOffer(offers, k)
    decreases |offers|
  {
    var next := if offers[0].0 in reg.products && offers[0].0 !in items then items[offers[0].0 := offers[0].1] else items;
    if offers[0].0 != k {
      var i :| 0 <= i < |offers| && offers[i].0 == k;
      assert offers[1..][i - 1] == offers[i];
      AddOffersFirstWins(next, offers[1..], reg, k);
    }
  }

  /** Some catalog of `names` that indexes as a sales catalog lists product `k`. */
  predicate Listed(names: seq<ProtoId>, reg: Registry, k: ProtoId)
  {
    exists i :: 0 <= i < |names| && names[i] in reg.catalogs && Offers(reg.catalogs[names[i]], k)
  }

  /** The count that the first catalog listing `k` gives it: the reference for "the first catalog wins". */
  function FirstListing(names: seq<ProtoId>, reg: Registry, k: ProtoId): int
    requires Listed(names, reg, k)
  {
    if names[0] in reg.catalogs && Offers(reg.catalogs[names[0]], k) then FirstOffer(reg.catalogs[names[0]], k)
    else
      assert Listed(names[1..], reg, k) by {
        var i :| 0 <= i < |names| && names[i] in reg.catalogs && Offers(reg.catalogs[names[i]], k);
        assert names[1..][i - 1] == names[i];
      }
      FirstListing(names[1..], reg, k)
  }

  /** The catalogs named by the trader, merged into `items` in order (catalog ids that do not index are skipped). */
  function MergeCatalogs(items: map<ProtoId, int>, names: seq<ProtoId>, reg: Registry): (r: map<ProtoId, int>)
    ensures forall k :: k in items ==> k in r && r[k] == items[k]
    ensures forall k :: k in r ==> k in items || (k in reg.products && Listed(names, reg, k))
    decreases |names|
  {
    if names == [] then items
    else
      var next := if names[0] in reg.catalogs then AddOffers(items, reg.catalogs[names[0]], reg) else items;
      var r := MergeCatalogs(next, names[1..], reg);
      assert forall k :: k in r ==> k in items || (k in reg.products && Listed(names, reg, k)) by {
        forall k | k in r && k !in items
          ensures k in reg.products && Listed(names, reg, k)
        {
          if k !in next {
            var i :| 0 <= i < |names[1..]| && names[1..][i] in reg.catalogs && Offers(reg.catalogs[names[1..][i]], k);
            assert names[i + 1] == names[1..][i];
          }
        }
      }
      r
  }

  /** Initialisation's merge has exactly the products listed by a catalog, besides those already present. */
  lemma {:induction false} MergeCatalogsDomain(items: map<ProtoId, int>, names: seq<ProtoId>, reg: Registry, k: ProtoId)
    ensures k in MergeCatalogs(items, names, reg) <==> k in items || (k in reg.products && Listed(names, reg, k))
    decreases |names|
  {
    if names != [] && k !in items && k in reg.products && Listed(names, reg, k) {
      var next := if names[0] in reg.catalogs then AddOffers(items, reg.catalogs[names[0]], reg) else items;
      if names[0] in reg.catalogs && Offers(reg.catalogs[names[0]], k) {
        AddOffersCovers(items, reg.catalogs[names[0]], reg, k);
      } else {
        var i :| 0 <= i < |names| && names[i] in reg.catalogs && Offers(reg.catalogs[names[i]], k);
        assert names[1..][i - 1] == names[i];
        MergeCatalogsDomain(next, names[1..], reg, k);
      }
    }
  }

  /** A product absent before the merge takes the count of the first catalog, in the trader's order, that lists it. */
  lemma {:induction false} MergeCatalogsFirstWins(items: map<ProtoId, int>, names: seq<ProtoId>, reg: Registry, k: ProtoId)
    requires k !in items && k in reg.products && Listed(names, reg, k)
    ensures k in MergeCatalogs(items, names, reg) && MergeCatalogs(items, names, reg)[k] == FirstListing(names, reg, k)
    decreases |names|
  {
    var next := if names[0] in reg.catalogs then AddOffers(items, reg.catalogs[names[0]], reg) else items;
    if names[0] in reg.catalogs && Offers(reg.catalogs[names[0]], k) {
      AddOffersFirstWins(items, reg.catalogs[names[0]], reg, k);
    } else {
      assert k !in next;
      var i :| 0 <= i < |names| && names[i] in reg.catalogs && Offers(reg.catalogs[names[i]], k);
      assert names[1..][i - 1] == names[i];
      MergeCatalogsFirstWins(next, names[1..], reg, k);
    }
  }

  /** Every stock count is a count (at least 0) or infinite (-1). */
  predicate StockCountsValid(items: map<ProtoId, int>)
  {
    forall k :: k in items ==> items[k] >= -1
  }

  /** Every line of every sales catalog sets a stock count of at least 0, or an infinite one (-1). */
  predicate CatalogCountsValid(reg: Registry)
  {
    forall c, i :: c in reg.catalogs && 0 <= i < |reg.catalogs[c]| ==> reg.catalogs[c][i].1 >= -1
  }

  /** Merging catalogs whose lines set valid counts into a valid stock leaves a valid stock. */
  lemma {:induction false} MergeCatalogsCountsValid(items: map<ProtoId, int>, names: seq<ProtoId>, reg: Registry)
    requires StockCountsValid(items) && CatalogCountsValid(reg)
    ensures StockCountsValid(MergeCatalogs(items, names, reg))
    decreases |names|
  {
    if names != [] {
      if names[0] in reg.catalogs {
        AddOffersCountsValid(items, reg.catalogs[names[0]], reg);
        MergeCatalogsCountsValid(AddOffers(items, reg.catalogs[names[0]], reg), names[1..], reg);
      } else {
        MergeCatalogsCountsValid(items, names[1..], reg);
      }
    }
  }

  /** Adding lines with valid counts to a valid stock leaves a valid stock. */
  lemma {:induction false} AddOffersCountsValid(items: map<ProtoId, int>, offers: seq<(ProtoId, int)>, reg: Registry)
    requires StockCountsValid(items) && forall i :: 0 <= i < |offers| ==> offers[i].1 >= -1
    ensures StockCountsValid(AddOffers(items, offers, reg))
    decreases |offers|
  {
    if offers != [] {
      var next := if offers[0].0 in reg.products && offers[0].0 !in items then items[offers[0].0 := offers[0].1] else items;
      assert forall i :: 0 <= i < |offers[1..]| ==> offers[1..][i] == offers[i + 1];
      AddOffersCountsValid(next, offers[1..], reg);
    }
  }

  // ---------------------------------------------------------------------------
  // Restock tick
  // ---------------------------------------------------------------------------

  /** Finite stock lies between 0 and its baseline, and infinite stock (-1) stays infinite. */
  predicate StockInRange(items: map<ProtoId, int>, baseline: map<ProtoId, int>)
  {
    items.Keys == baseline.Keys &&
    forall k :: k in baseline ==> (baseline[k] == -1 && items[k] == -1) || (0 <= items[k] <= baseline[k])
  }

  /** Every pending restock adds a count of at least 0, or restores to the baseline (-1). */
  predicate RespawnCountsValid(respawn: map<ProtoId, Respawn>)
  {
    forall k :: k in respawn ==> respawn[k].countOfItems >= -1
  }

  /** Every offer prototype restocks by at least 0 items, or to the baseline (-1). */
  predicate ProductCountsValid(reg: Registry)
  {
    forall k :: k in reg.products ==> reg.products[k].countRespawn >= -1
  }

  /** A pending restock applies once the current time is strictly past its time. */
  predicate IsDue(e: Respawn, now: int)
  {
    now > e.timeRespawn
  }

  /** The stock a due restock leaves: `count` more, but never past the baseline; -1 goes straight to the baseline. */
  function Restocked(current: int, baseline: int, count: int): (v: int)
    ensures v <= baseline
    ensures count == -1 ==> v == baseline
    ensures count >= 0 && current <= baseline ==> current <= v
    ensures count != -1 && current + count <= baseline ==> v == current + count
    ensures count != -1 && current + count > baseline ==> v == baseline
  {
    if count == -1 then baseline
    else if current + count <= baseline then current + count
    else baseline
  }

  /** Phase 1 of a tick: every due entry is applied to its product's stock; the entries themselves stay. */
  function RestockPhase(items: map<ProtoId, int>, baseline: map<ProtoId, int>, respawn: map<ProtoId, Respawn>, now: int): (r: map<ProtoId, int>)
    requires items.Keys == baseline.Keys && respawn.Keys <= items.Keys
    ensures r.Keys == items.Keys
    ensures forall k :: k in respawn && IsDue(respawn[k], now) ==> r[k] == Restocked(items[k], baseline[k], respawn[k].countOfItems)
    ensures forall k :: k in items && !(k in respawn && IsDue(respawn[k], now)) ==> r[k] == items[k]
    ensures forall k :: k in respawn && IsDue(respawn[k], now) ==> r[k] <= baseline[k]
    ensures StockInRange(items, baseline) && RespawnCountsValid(respawn) ==> StockInRange(r, baseline)
  {
    map k | k in items :: if k in respawn && IsDue(respawn[k], now) then Restocked(items[k], baseline[k], respawn[k].countOfItems) else items[k]
  }

  /** A map over the stock's products that applies exactly the due entries and leaves the rest is phase 1's result. */
  lemma RestockPhaseUnique(items: map<ProtoId, int>, baseline: map<ProtoId, int>, respawn: map<ProtoId, Respawn>, now: int, m: map<ProtoId, int>)
    requires items.Keys == baseline.Keys && respawn.Keys <= items.Keys
    requires m.Keys == items.Keys
    requires forall k :: k in respawn && IsDue(respawn[k], now) ==> m[k] == Restocked(items[k], baseline[k], respawn[k].countOfItems)
    requires forall k :: k in items && !(k in respawn && IsDue(respawn[k], now)) ==> m[k] == items[k]
    ensures m == RestockPhase(items, baseline, respawn, now)
  {
    var spec := RestockPhase(items, baseline, respawn, now);
    assert forall k :: k in spec <==> k in m;
    assert forall k :: k in spec ==> spec[k] == m[k];
  }

  /** The product needs a restock entry: it restocks and its stock differs from the baseline. */
  predicate NeedsRestock(items: map<ProtoId, int>, baseline: map<ProtoId, int>, reg: Registry, k: ProtoId)
    requires k in items && k in baseline
  {
    k in reg.products && reg.products[k].canRespawn && items[k] != baseline[k]
  }

  /** Phase 2 of a tick: a product that needs a restock and has no entry gets one, due after its delay. */
  function SchedulePhase(items: map<ProtoId, int>, baseline: map<ProtoId, int>, respawn: map<ProtoId, Respawn>, reg: Registry, now: int): (r: map<ProtoId, Respawn>)
    requires items.Keys == baseline.Keys
    ensures forall k :: k in respawn ==> k in r && r[k] == respawn[k]
    ensures forall k :: k in r && k !in respawn ==>
              && k in items && NeedsRestock(items, baseline, reg, k)
              && r[k] == Respawn(now + reg.products[k].timeRespawn, reg.products[k].countRespawn)
    ensures forall k :: k in items && NeedsRestock(items, baseline, reg, k) ==> k in r
    ensures respawn.Keys <= items.Keys ==> r.Keys <= items.Keys
    ensures RespawnCountsValid(respawn) && ProductCountsValid(reg) ==> RespawnCountsValid(r)
  {
    respawn + map k | k in items && k !in respawn && NeedsRestock(items, baseline, reg, k)
                :: Respawn(now + reg.products[k].timeRespawn, reg.products[k].countRespawn)
  }

  /** SchedulePhase is the only map that keeps the old entries, adds exactly the products needing a restock, and misses none of them. */
  lemma SchedulePhaseUnique(items: map<ProtoId, int>, baseline: map<ProtoId, int>, respawn: map<ProtoId, Respawn>, reg: Registry, now: int, m: map<ProtoId, Respawn>)
    requires items.Keys == baseline.Keys
    requires forall k :: k in respawn ==> k in m && m[k] == respawn[k]
    requires forall k :: k in m && k !in respawn ==>
               && k in items && NeedsRestock(items, baseline, reg, k)
               && m[k] == Respawn(now + reg.products[k].timeRespawn, reg.products[k].countRespawn)
    requires forall k :: k in items && NeedsRestock(items, baseline, reg, k) ==> k in m
    ensures m == SchedulePhase(items, baseline, respawn, reg, now)
  {
    var spec := SchedulePhase(items, baseline, respawn, reg, now);
    assert forall k :: k in spec <==> k in m;
    assert forall k :: k in spec ==> spec[k] == m[k];
  }

  /**
   * Restock entries are never removed: a tick keeps every entry as it was, so an
   * entry due now is applied again on every later tick.
   */
  lemma DueEntryReapplies(items: map<ProtoId, int>, baseline: map<ProtoId, int>, respawn: map<ProtoId, Respawn>,
                          reg: Registry, now: int, later: int, k: ProtoId)
    requires items.Keys == baseline.Keys && respawn.Keys <= items.Keys
    requires k in respawn && IsDue(respawn[k], now) && now <= later
    ensures var items' := RestockPhase(items, baseline, respawn, now);
            var respawn' := SchedulePhase(items', baseline, respawn, reg, now);
            k in respawn' && respawn'[k] == respawn[k] && IsDue(respawn'[k], later)
  {
  }
}
