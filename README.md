# Metro-14 trader, tape player and skull meter in Dafny

This project models three game systems of the Metro-14 server and proves properties of them.

- **NPC trader** (`NpcTraderSystem`). A trader holds a stock per product. Its catalogs fill the stock at map initialisation, and a restock tick refills it over time. A buy request pays for a product with items the buyer carries, holds or stands next to. A payment may be items, cartridges, or rounds from ammo providers, which are boxes and magazines with an unspawned pool and materialised rounds. The request first reserves every unit of every payment line in three buckets (`DelItem`, `DelRealAmmo`, `DelVirtAmmo`). Only when no unit is missing does it consume the reservations, spawn the goods on the buyer and lower a finite stock by one.
- **Tape player** (`BoomBoxSystem`). A tape slot, a play switch, and a volume that steps by 3 between -13 and 5. The window offers only the buttons that would change something.
- **Skull meter** (`SkullMeterSystem`). Measuring a subject settles, for good, whether it is a mutant or a human. A subject holding one of the configured roles is always human; any other gets a random verdict.

## Layout

| file | module | contents |
|---|---|---|
| wrappers.dfy | `Wrappers` | `Option` |
| trader_world.dfy | `TraderWorld` | What the trader can see: the buyer's hands, inventory slots and nearby entities as a finite tree of storages; ammo providers; cartridges; the prototype registry; and the buyer's inventory and hands (`Outfit`) |
| trader_catalog.dfy | `TraderCatalog` | Initialisation's catalog merge and the two phases of a restock tick, as functions with their lemmas |
| trader_payment.dfy | `TraderPayment` | The payment search as functions over a `Reservation` value (the three buckets). Lemmas show every step keeps the reservation sound and pays only with things of the price. It also holds the commit that consumes the reservation |
| trader_placement.dfy | `TraderPlacement` | Where a granted item goes: an inventory slot, the hands, or deletion |
| npc_trader.dfy | `NpcTraderSystem` | The class `NpcTrader`: the component's fields, with every handler written as loops over those fields and proved to compute the functions above |
| boombox.dfy | `BoomBoxSystem` | The player's states as a `Deck` value with transition lemmas, and the class `BoomBox` whose handlers are proved against them |
| skull_meter.dfy | `SkullMeterSystem` | The measurement as a function with lemmas, and the class `SkullMeter` whose handler loops over the roles |

Where the code does something its authors may not have meant, the model follows the code:
- Restock entries are never removed, so a due entry is applied again on every tick.
- A storage nested in a storage is searched, but its verdict is discarded; whatever it reserved stays reserved.
- The first unreserved entity of the price's prototype decides a unit. If it is a spent cartridge, the unit fails even if another entity would have paid.
- `CheckCartridgeComp` queues an entity without a cartridge component for deletion even when it is asked not to.
- A product with no goods to give returns before its stock is lowered and before the thank-you.
- A failed pickup leaves the spawned item where it was spawned.

## Model

| member | source | states |
|---|---|---|
| TraderCatalog.AddOffers | Content.Server/_Metro14/NpcTrader/NpcTraderSystem.cs:146-155 | Adding one sales catalog keeps every product already in the stock with its count. A new product must index as an offer and be listed by the catalog |
| TraderCatalog.AddOffersCovers | Content.Server/_Metro14/NpcTrader/NpcTraderSystem.cs:146-155 | Every listed id that indexes as an offer ends up in the stock |
| TraderCatalog.AddOffersFirstWins | Content.Server/_Metro14/NpcTrader/NpcTraderSystem.cs:153-154 | A product new to the stock takes the count of its first line in the catalog |
| TraderCatalog.MergeCatalogs | Content.Server/_Metro14/NpcTrader/NpcTraderSystem.cs:139-156 | Merging the trader's catalogs keeps what the stock held. It adds only offers listed by a catalog that indexes |
| TraderCatalog.MergeCatalogsDomain | Content.Server/_Metro14/NpcTrader/NpcTraderSystem.cs:136-157 | The merged stock holds exactly the products it already had plus every offer listed by a catalog that indexes (if and only if) |
| TraderCatalog.MergeCatalogsFirstWins | Content.Server/_Metro14/NpcTrader/NpcTraderSystem.cs:139-156 | A new product takes the count from the first catalog, in the trader's order, that lists it |
| TraderCatalog.AddOffersCountsValid | Content.Server/_Metro14/NpcTrader/NpcTraderSystem.cs:146-155 | Adding catalog lines whose counts are at least -1 to a stock whose counts are at least -1 keeps every count at least -1 |
| TraderCatalog.MergeCatalogsCountsValid | Content.Server/_Metro14/NpcTrader/NpcTraderSystem.cs:139-156 | When every catalog line sets a count of at least -1, the merged stock has only counts of at least -1 |
| TraderCatalog.Restocked | Content.Server/_Metro14/NpcTrader/NpcTraderSystem.cs:81-97 | A restock never exceeds the baseline. Count -1 restores the baseline exactly. Any other count adds the count when the sum stays within the baseline, and otherwise restores the baseline. A non-negative count never lowers the stock |
| TraderCatalog.RestockPhase | Content.Server/_Metro14/NpcTrader/NpcTraderSystem.cs:77-100 | Phase 1 keeps the same products. Every product with a due entry gets exactly Restocked of its stock, baseline and count, so it ends at or below the baseline. Every other product keeps its stock. With valid counts, stock stays between 0 and the baseline, and infinite stock stays infinite |
| TraderCatalog.SchedulePhase | Content.Server/_Metro14/NpcTrader/NpcTraderSystem.cs:104-122 | Phase 2 keeps every existing entry. It adds entries for exactly the products that can respawn, differ from the baseline and have no entry. Each is due at now plus TimeRespawn with CountRespawn. Every such product gets one, and entries stay within the stock's products |
| TraderCatalog.SchedulePhaseUnique | Content.Server/_Metro14/NpcTrader/NpcTraderSystem.cs:104-122 | Any entry map with those three properties is phase 2's result |
| TraderCatalog.DueEntryReapplies | Content.Server/_Metro14/NpcTrader/NpcTraderSystem.cs:77-121 | A tick never removes or changes an entry, so an entry due now is due on every later tick |
| TraderPayment.CheckCartridge | Content.Server/_Metro14/NpcTrader/NpcTraderSystem.cs:632-653 | Accepted if and only if the entity is not a spent cartridge. It is queued in DelItem exactly when accepted and either asked to be queued or not a cartridge. Otherwise nothing changes |
| TraderPayment.ScanRounds | Content.Server/_Metro14/NpcTrader/NpcTraderSystem.cs:432-455 | The round fallback never touches the virtual bucket. A found round adds exactly one round reservation, and a miss adds none |
| TraderPayment.FirstFree | Content.Server/_Metro14/NpcTrader/NpcTraderSystem.cs:432-455 | The index of the provider's first round, from a start index on, that is neither spent nor reserved. Every round before it is spent or reserved, and there is none when it equals the number of rounds |
| TraderPayment.ScanRoundsReservesFirstFree | Content.Server/_Metro14/NpcTrader/NpcTraderSystem.cs:432-455 | The round fallback succeeds if and only if some round from the start index on is free. On success, exactly the first free round is added to DelRealAmmo, mapped to its provider |
| TraderPayment.CheckRoundKeeps | Content.Server/_Metro14/NpcTrader/NpcTraderSystem.cs:436-441 | Checking a round keeps the reservation sound. When the rounds are cartridges, it queues nothing |
| TraderPayment.ReserveRoundKeeps | Content.Server/_Metro14/NpcTrader/NpcTraderSystem.cs:443-447 | Reserving an unspent round that is not reserved yet keeps the reservation sound |
| TraderPayment.ScanRoundsKeeps | Content.Server/_Metro14/NpcTrader/NpcTraderSystem.cs:432-455 | The round fallback keeps the reservation sound. When the rounds are cartridges, it leaves DelItem alone |
| TraderPayment.TakeFromProvider | Content.Server/_Metro14/NpcTrader/NpcTraderSystem.cs:390-458 | A provider of another round prototype gives nothing. A provider of the price whose unspawned pool is not used up by the reservation succeeds by adding exactly one to its virtual count. Once the pool is used up, the result is the round fallback from the first round. A round is reserved only in that case, and then exactly one. A success always reserves something |
| TraderPayment.TakeFromProviderSucceeds | Content.Server/_Metro14/NpcTrader/NpcTraderSystem.cs:390-458 | A provider pays a unit if and only if its round prototype is the price and either its unspawned pool is not used up or one of its rounds is free |
| TraderPayment.TakeFromProviderKeeps | Content.Server/_Metro14/NpcTrader/NpcTraderSystem.cs:396-457 | A provider never gives more virtual rounds than its UnspawnedCount, nor a spent or already reserved round |
| TraderPayment.IdentityStep | Content.Server/_Metro14/NpcTrader/NpcTraderSystem.cs:612-618 | Candidates of another prototype, or already in DelItem, are passed over. The first unreserved match decides the unit: found if and only if it is not spent, and queued exactly when found |
| TraderPayment.IdentityStepKeeps | Content.Server/_Metro14/NpcTrader/NpcTraderSystem.cs:498-504 | The identity test never queues a spent cartridge, nor an entity twice |
| TraderPayment.ProviderStepKeeps | Content.Server/_Metro14/NpcTrader/NpcTraderSystem.cs:479-481 | Trying a candidate as a provider keeps the reservation sound. A unit it finds adds a reservation |
| TraderPayment.StorageStepKeeps | Content.Server/_Metro14/NpcTrader/NpcTraderSystem.cs:593-618 | One stored candidate, nested storages included, keeps the reservation sound. A unit it finds adds a reservation |
| TraderPayment.SearchStorageKeeps | Content.Server/_Metro14/NpcTrader/NpcTraderSystem.cs:591-622 | Searching a storage keeps the reservation sound, never releases one, and a unit it finds adds a reservation |
| TraderPayment.ReachStepKeeps | Content.Server/_Metro14/NpcTrader/NpcTraderSystem.cs:476-505 | One held or nearby candidate keeps the reservation sound. A unit it finds adds a reservation |
| TraderPayment.SlotStepKeeps | Content.Server/_Metro14/NpcTrader/NpcTraderSystem.cs:513-544 | One inventory-slot candidate keeps the reservation sound. A unit it finds adds a reservation |
| TraderPayment.ScanReachKeeps | Content.Server/_Metro14/NpcTrader/NpcTraderSystem.cs:552-579 | The scan of the hands or the nearby entities keeps the reservation sound. A unit it finds adds a reservation |
| TraderPayment.ScanSlotsKeeps | Content.Server/_Metro14/NpcTrader/NpcTraderSystem.cs:510-545 | The scan of the inventory slots keeps the reservation sound. A unit it finds adds a reservation |
| TraderPayment.FindItemKeeps | Content.Server/_Metro14/NpcTrader/NpcTraderSystem.cs:467-582 | One unit's search keeps the reservation sound and never releases a reservation. A found unit always adds one |
| TraderPayment.PayUnitsKeeps | Content.Server/_Metro14/NpcTrader/NpcTraderSystem.cs:200-209 | A payment line keeps the reservation sound and releases nothing. A paid line with a positive count adds to the reservation |
| TraderPayment.PayLinesKeeps | Content.Server/_Metro14/NpcTrader/NpcTraderSystem.cs:194-211 | Reservations persist across all payment lines of one buy and stay sound |
| TraderPayment.PaysWithTransitive | Content.Server/_Metro14/NpcTrader/NpcTraderSystem.cs:467-582 | Paying with one price composes along a growing reservation, over the union of the entities looked at |
| TraderPayment.CheckRoundPays | Content.Server/_Metro14/NpcTrader/NpcTraderSystem.cs:436-447 | Checking, then reserving, a round of a provider of the price queues or reserves only that round |
| TraderPayment.ScanRoundsPays | Content.Server/_Metro14/NpcTrader/NpcTraderSystem.cs:432-455 | For a provider of the price, the round fallback queues and reserves only rounds of that provider |
| TraderPayment.ProviderStepPays | Content.Server/_Metro14/NpcTrader/NpcTraderSystem.cs:390-458 | A provider candidate reserves only rounds or virtual rounds of a provider whose round prototype is the price |
| TraderPayment.IdentityStepPays | Content.Server/_Metro14/NpcTrader/NpcTraderSystem.cs:612-618 | The identity test queues only the candidate itself, and only when its prototype is the price |
| TraderPayment.StoredWithin | Content.Server/_Metro14/NpcTrader/NpcTraderSystem.cs:591-622 | The entities inside a stored entity, at any depth, are entities of the storage holding it |
| TraderPayment.StorageStepPays | Content.Server/_Metro14/NpcTrader/NpcTraderSystem.cs:593-618 | One stored candidate (the StorageStep function) pays only with entities of its own tree, of the price, or with rounds of a provider of the price |
| TraderPayment.SearchStoragePays | Content.Server/_Metro14/NpcTrader/NpcTraderSystem.cs:591-622 | The storage search (the SearchStorage function) pays only with entities stored in the storage, at any depth, of the price, or with rounds of a provider of the price |
| TraderPayment.ReachStepPays | Content.Server/_Metro14/NpcTrader/NpcTraderSystem.cs:476-505 | One held or nearby candidate (the ReachStep function) pays only with entities of its tree, of the price, or with rounds of a provider of the price |
| TraderPayment.SlotStepPays | Content.Server/_Metro14/NpcTrader/NpcTraderSystem.cs:513-544 | One inventory-slot candidate (the SlotStep function) pays only with entities of its tree, of the price, or with rounds of a provider of the price |
| TraderPayment.ListedWithin | Content.Server/_Metro14/NpcTrader/NpcTraderSystem.cs:470-581 | The entities of the first thing of a list, and of the rest of the list, are entities of the list |
| TraderPayment.ScanReachPays | Content.Server/_Metro14/NpcTrader/NpcTraderSystem.cs:470-507 | The scan of the hands or nearby entities (the ScanReach function) pays only with what they hold, of the price, or with rounds of a provider of the price |
| TraderPayment.ScanSlotsPays | Content.Server/_Metro14/NpcTrader/NpcTraderSystem.cs:510-545 | The scan of the inventory slots (the ScanSlots function) pays only with what they hold, of the price, or with rounds of a provider of the price |
| TraderPayment.FindItemPays | Content.Server/_Metro14/NpcTrader/NpcTraderSystem.cs:467-582 | A unit of a price (the FindItem function) is paid with something of the price. A newly queued entity is an entity the buyer reaches whose prototype is the price, or a round of a provider of the price. Each newly reserved round, and each raised virtual count, belongs to a provider whose round prototype is the price |
| TraderPayment.PayUnitsPays | Content.Server/_Metro14/NpcTrader/NpcTraderSystem.cs:200-209 | Every unit of a payment line (the PayUnits function) is paid with something of the line's price, in the same sense |
| TraderPayment.PaysWithQueuesFrom | Content.Server/_Metro14/NpcTrader/NpcTraderSystem.cs:467-582 | Paying with a price queues for deletion only entities looked at, or rounds without a cartridge component |
| TraderPayment.PayLinesQueuesFrom | Content.Server/_Metro14/NpcTrader/NpcTraderSystem.cs:194-211 | Across all payment lines of a buy (the PayLines function), only entities the buyer reaches and rounds without a cartridge component are queued for deletion |
| TraderPayment.QueuedNotReserved | Content.Server/_Metro14/NpcTrader/NpcTraderSystem.cs:246-293 | When rounds are all cartridges and none lies within the buyer's direct reach, a sound reservation that queues only reachable entities queues no reserved round |
| TraderPayment.PaymentIsSound | Content.Server/_Metro14/NpcTrader/NpcTraderSystem.cs:173-211 | A buy's reservation from cleared buckets queues no spent cartridge. No provider gives more virtual rounds than it holds, and every reserved round is an unspent round of its provider. When all rounds are cartridges, no entity is queued twice. When, moreover, no round lies within the buyer's direct reach, no entity is both queued for deletion and reserved as a round, so no entity pays for two units |
| TraderPayment.TakesBeforeEmpty | Content.Server/_Metro14/NpcTrader/NpcTraderSystem.cs:253-256 | The take events for one provider never exceed its unspawned count. They equal the reserved count when that fits |
| TraderPayment.CommitOf | Content.Server/_Metro14/NpcTrader/NpcTraderSystem.cs:246-293 | The commit requests virtual takes only from reserved providers that still exist, and never more than their unspawned count. It requests one take from the provider of each reserved round (DelRealAmmo maps the round to its provider), and deletes exactly DelItem |
| TraderPayment.CommitTakesReserved | Content.Server/_Metro14/NpcTrader/NpcTraderSystem.cs:248-271 | For a sound reservation, each reserved provider gets exactly as many take requests as it has reserved virtual rounds, and no other provider gets any |
| TraderPlacement.FirstFit | Content.Server/_Metro14/NpcTrader/NpcTraderSystem.cs:358-371 | No slot is chosen if and only if no slot fits. A chosen slot fits and no earlier slot does |
| TraderPlacement.PlacementOf | Content.Server/_Metro14/NpcTrader/NpcTraderSystem.cs:334-380 | Nothing is spawned if and only if the buyer has no inventory, is deleted, or the id is no entity prototype. If some slot fits, the item goes to the first one. Otherwise a buyer with hands picks it up if and only if a hand is empty and the item can be held, and the pickup fails otherwise; a buyer without hands has it deleted. With no slots the item is deleted |
| TraderPlacement.GrantUnits | Content.Server/_Metro14/NpcTrader/NpcTraderSystem.cs:311-313 | A line with a positive count places exactly that many items, and otherwise none. Each item is placed on the buyer as the previous one left it. Only the empty slots and empty hands change, and slots only fill up |
| TraderPlacement.GrantUnitsFillsOnce | Content.Server/_Metro14/NpcTrader/NpcTraderSystem.cs:309-314 | Every item a line equips goes into a slot that was empty and is filled afterwards. No slot is used twice |
| TraderPlacement.GrantLines | Content.Server/_Metro14/NpcTrader/NpcTraderSystem.cs:309-314 | Granting the goods only fills slots and takes empty hands, and changes nothing else on the buyer |
| TraderPlacement.GrantUnitsTakesHands | Content.Server/_Metro14/NpcTrader/NpcTraderSystem.cs:311-313 | Every item a line puts into the hands takes one empty hand: the pickups plus the hands still empty afterwards equal the hands empty before, so once the hands are full later units fail pickup |
| TraderPlacement.GrantLinesTakesHands | Content.Server/_Metro14/NpcTrader/NpcTraderSystem.cs:309-314 | Over a whole purchase, the items picked up plus the hands still empty afterwards equal the hands empty before |
| TraderPlacement.GrantLinesFillsOnce | Content.Server/_Metro14/NpcTrader/NpcTraderSystem.cs:309-314 | Over a whole purchase, every equipped item goes into a slot empty before it, and no slot is used twice |
| NpcTraderSystem.Decremented | Content.Server/_Metro14/NpcTrader/NpcTraderSystem.cs:318-322 | A sale lowers a finite stock by exactly one, leaves -1 alone and touches no other product |
| NpcTraderSystem.SaleKeepsStockInRange | Content.Server/_Metro14/NpcTrader/NpcTraderSystem.cs:182-188 | Past the zero-stock guard, a sale keeps every finite stock between 0 and its baseline and strictly lowers the sold one |
| NpcTraderSystem.FirstFitIsFirst | Content.Server/_Metro14/NpcTrader/NpcTraderSystem.cs:358-371 | A fitting slot with none fitting before it is the one chosen |
| NpcTraderSystem.NpcTrader.Default | Content.Shared/_Metro14/NpcTrader/NpcTraderComponent.cs:19 | A new component whose prototype sets no delta ticks every 5 seconds; otherwise as the constructor |
| NpcTraderSystem.NpcTrader.constructor | Content.Shared/_Metro14/NpcTrader/NpcTraderComponent.cs:13-92 | A new component has its configured catalogs, stock and delta, no pending restock, no baseline and empty buckets |
| NpcTraderSystem.NpcTrader.OnMapInit | Content.Server/_Metro14/NpcTrader/NpcTraderSystem.cs:133-162 | An empty stock becomes the merge of the catalogs, and a non-empty one is kept. The baseline is an exact copy of the stock, and the next tick is now plus the delta. When the prototype's stock, every catalog line and every pending restock have counts of at least -1, the stock invariant StockValid holds afterwards: every finite stock between 0 and its baseline, infinite stock infinite, every pending count at least -1 |
| NpcTraderSystem.NpcTrader.AddCatalog | Content.Server/_Metro14/NpcTrader/NpcTraderSystem.cs:146-155 | The loop over one catalog's lines leaves the stock equal to AddOffers of it |
| NpcTraderSystem.NpcTrader.Update | Content.Server/_Metro14/NpcTrader/NpcTraderSystem.cs:60-125 | Nothing changes until now is past the next tick. Then the tick moves to now plus the delta. A missing or empty baseline stops there; otherwise stock becomes phase 1's result and the entries phase 2's. When every offer restocks by at least -1, a tick keeps StockValid |
| NpcTraderSystem.NpcTrader.RestockDue | Content.Server/_Metro14/NpcTrader/NpcTraderSystem.cs:77-100 | The loop over the entries leaves the stock equal to phase 1's result |
| NpcTraderSystem.NpcTrader.ScheduleRestocks | Content.Server/_Metro14/NpcTrader/NpcTraderSystem.cs:104-122 | The loop over the stock leaves the entries equal to phase 2's result |
| NpcTraderSystem.NpcTrader.CheckCartridgeComp | Content.Server/_Metro14/NpcTrader/NpcTraderSystem.cs:632-653 | Verdict and DelItem as CheckCartridge |
| NpcTraderSystem.NpcTrader.TryGiveEntityFromAmmoProvider | Content.Server/_Metro14/NpcTrader/NpcTraderSystem.cs:390-458 | The loop with its early exits computes TakeFromProvider on the buckets |
| NpcTraderSystem.NpcTrader.IdentityCandidate | Content.Server/_Metro14/NpcTrader/NpcTraderSystem.cs:612-618 | Computes IdentityStep on the buckets |
| NpcTraderSystem.NpcTrader.StorageCandidate | Content.Server/_Metro14/NpcTrader/NpcTraderSystem.cs:595-618 | One stored entity, nested storage included, computes the storage step on the buckets |
| NpcTraderSystem.NpcTrader.TryFindEntityInStorage | Content.Server/_Metro14/NpcTrader/NpcTraderSystem.cs:591-622 | The loop over the stored entities computes the storage search on the buckets |
| NpcTraderSystem.NpcTrader.ReachCandidate | Content.Server/_Metro14/NpcTrader/NpcTraderSystem.cs:476-505 | One held or nearby entity: provider, then storage, then identity |
| NpcTraderSystem.NpcTrader.SlotCandidate | Content.Server/_Metro14/NpcTrader/NpcTraderSystem.cs:513-544 | One slot entity: a storage is only searched inside; anything else is tried as a provider, then by identity |
| NpcTraderSystem.NpcTrader.SearchReach | Content.Server/_Metro14/NpcTrader/NpcTraderSystem.cs:470-507 | The loop over the hands, or the nearby entities, stops at the first candidate that decides the unit |
| NpcTraderSystem.NpcTrader.SearchSlots | Content.Server/_Metro14/NpcTrader/NpcTraderSystem.cs:510-545 | The loop over the inventory slots stops at the first candidate that decides the unit |
| NpcTraderSystem.NpcTrader.TryFindItem | Content.Server/_Metro14/NpcTrader/NpcTraderSystem.cs:467-582 | Searches the hands, then the slots, then nearby. The verdict and buckets are FindItem's |
| NpcTraderSystem.NpcTrader.VirtualTakes | Content.Server/_Metro14/NpcTrader/NpcTraderSystem.cs:253-270 | The take loop raises exactly TakesBeforeEmpty events |
| NpcTraderSystem.NpcTrader.TryDeleteItems | Content.Server/_Metro14/NpcTrader/NpcTraderSystem.cs:246-293 | The requests made are exactly the commit of the current buckets |
| NpcTraderSystem.NpcTrader.TryGiveItems | Content.Server/_Metro14/NpcTrader/NpcTraderSystem.cs:301-328 | An unknown product or one with no goods grants nothing, thanks no one and keeps the stock. Otherwise every unit is placed as GrantLines does, the stock is decremented and the trader thanks the buyer. A sale of a product in stock keeps StockValid |
| NpcTraderSystem.NpcTrader.SellOne | Content.Server/_Metro14/NpcTrader/NpcTraderSystem.cs:318-322 | The stock becomes Decremented of it. A sale of a product whose stock is not 0 keeps StockValid |
| NpcTraderSystem.NpcTrader.GiveUnits | Content.Server/_Metro14/NpcTrader/NpcTraderSystem.cs:311-313 | The unit loop places items as GrantUnits does |
| NpcTraderSystem.NpcTrader.SpawnItemOnEntityValidated | Content.Server/_Metro14/NpcTrader/NpcTraderSystem.cs:334-380 | The slot loop with its early return decides PlacementOf. It returns true if and only if the item was equipped or picked up |
| NpcTraderSystem.NpcTrader.PayLine | Content.Server/_Metro14/NpcTrader/NpcTraderSystem.cs:200-209 | The unit loop with its break computes PayUnits on the buckets |
| NpcTraderSystem.NpcTrader.PayGivingItems | Content.Server/_Metro14/NpcTrader/NpcTraderSystem.cs:194-211 | The line loop's tempFlag and buckets are PayLines' |
| NpcTraderSystem.NpcTrader.OnNpcTraderBuy | Content.Server/_Metro14/NpcTrader/NpcTraderSystem.cs:171-223 | The buckets are cleared first. An unknown product, or one whose prototype does not index, says nothing and changes nothing. A finite stock at 0 only says no-product. Otherwise the buckets hold the payment search's reservation. A missing unit only says little-money, with no commit, no grant and no stock change. A full payment commits exactly the reservation, grants the goods and decrements the stock, saying thank-you when there are goods to give. Every buy keeps StockValid |
| BoomBoxSystem.Buttons | Content.Server/_Metro14/BoomBox/BoomBoxSystem.cs:188-216 | Start is offered if and only if a tape is in and not playing, and stop if and only if a tape is in and playing; never both. Louder is offered if and only if volume < 5, and quieter if and only if volume > -13 |
| BoomBoxSystem.SoundPathAfter | Content.Server/_Metro14/BoomBox/BoomBoxSystem.cs:118-124 | The sound path becomes the tape's only when the item is a tape naming a sound. Otherwise the previous path is kept |
| BoomBoxSystem.Insert | Content.Server/_Metro14/BoomBox/BoomBoxSystem.cs:69-124 | After insertion a tape is in, the play switch and volume are unchanged, and the sound path is SoundPathAfter of the slot |
| BoomBoxSystem.Remove | Content.Server/_Metro14/BoomBox/BoomBoxSystem.cs:83-91 | After removal no tape is in and nothing plays; volume and sound path are unchanged |
| BoomBoxSystem.VolumeDown | Content.Server/_Metro14/BoomBox/BoomBoxSystem.cs:228-242 | Above -13 the volume drops by exactly 3; at -13 or below nothing changes; nothing but the volume ever changes |
| BoomBoxSystem.VolumeUp | Content.Server/_Metro14/BoomBox/BoomBoxSystem.cs:249-263 | Below 5 the volume rises by exactly 3; at 5 or above nothing changes; nothing but the volume ever changes |
| BoomBoxSystem.Start | Content.Server/_Metro14/BoomBox/BoomBoxSystem.cs:270-286 | The player plays afterwards if and only if it was playing or a tape is in; nothing but the play switch changes |
| BoomBoxSystem.Stop | Content.Server/_Metro14/BoomBox/BoomBoxSystem.cs:293-309 | The player plays afterwards if and only if it was playing with no tape in; nothing but the play switch changes |
| BoomBoxSystem.HandlersKeepConsistent | Content.Server/_Metro14/BoomBox/BoomBoxSystem.cs:69-309 | A new player is consistent: playing implies a tape is in, and the volume is on the grid -13, -10, ..., 5. Every handler keeps it so |
| BoomBoxSystem.ButtonsOfferEffectiveActions | Content.Server/_Metro14/BoomBox/BoomBoxSystem.cs:183-309 | Each button is offered if and only if its handler would change the state |
| BoomBoxSystem.HandlersIdempotent | Content.Server/_Metro14/BoomBox/BoomBoxSystem.cs:270-309 | Start, stop and removing the tape twice equal once |
| BoomBoxSystem.VolumeStepsInverse | Content.Server/_Metro14/BoomBox/BoomBoxSystem.cs:228-263 | Away from the ends of the range, louder then quieter (and the reverse) restores the state |
| BoomBoxSystem.RemovedOffersNoPlayback | Content.Server/_Metro14/BoomBox/BoomBoxSystem.cs:83-91 | After the tape is removed, neither start nor stop is offered, and start does nothing |
| BoomBoxSystem.StartThenStop | Content.Server/_Metro14/BoomBox/BoomBoxSystem.cs:270-309 | Start then stop on a silent player with a tape restores its state |
| BoomBoxSystem.BoomBox.constructor | Content.Server/_Metro14/BoomBox/BoomBoxComponent.cs:17-44 | A new player has no tape, is silent, has no stream, is at volume -13 with the default sound, and is consistent |
| BoomBoxSystem.BoomBox.Default | Content.Server/_Metro14/BoomBox/BoomBoxComponent.cs:17-44 | A new player with the field defaults signals the default port "Pressed" |
| BoomBoxSystem.BoomBox.AddCurrentSoundPath | Content.Server/_Metro14/BoomBox/BoomBoxSystem.cs:118-124 | The path becomes the tape's sound only for a tape naming one |
| BoomBoxSystem.BoomBox.OnItemInserted | Content.Server/_Metro14/BoomBox/BoomBoxSystem.cs:69-110 | A tape is in, the play switch and volume are untouched, and the sound path is updated from the slot. Consistency is kept |
| BoomBoxSystem.BoomBox.OnItemRemoved | Content.Server/_Metro14/BoomBox/BoomBoxSystem.cs:83-91 | Whatever the prior state: no tape, not playing, no stream |
| BoomBoxSystem.BoomBox.UpdateUserInterface | Content.Server/_Metro14/BoomBox/BoomBoxSystem.cs:183-221 | The flags sent are Buttons of the current state |
| BoomBoxSystem.BoomBox.MinusVol | Content.Server/_Metro14/BoomBox/BoomBoxSystem.cs:228-242 | At -13 or below, nothing happens and no update is sent. Otherwise the volume drops by 3 and the new buttons are sent |
| BoomBoxSystem.BoomBox.PlusVol | Content.Server/_Metro14/BoomBox/BoomBoxSystem.cs:249-263 | At 5 or above, nothing happens and no update is sent. Otherwise the volume rises by 3 and the new buttons are sent |
| BoomBoxSystem.BoomBox.StartPlay | Content.Server/_Metro14/BoomBox/BoomBoxSystem.cs:270-286 | Starts playing, with the new stream, only when a tape is in and silent; otherwise unchanged. The new buttons are always sent |
| BoomBoxSystem.BoomBox.StopPlay | Content.Server/_Metro14/BoomBox/BoomBoxSystem.cs:293-309 | Stops playing and drops the stream only when a tape is in and playing; otherwise unchanged. The new buttons are always sent |
| SkullMeterSystem.AnyAlwaysHuman | Content.Server/_Metro14/SkullMeter/SkullMeterSystem.cs:46-64 | True if and only if some mind role's id is in the always-human list. The id is the job prototype, else the antagonist prototype, else empty |
| SkullMeterSystem.Measure | Content.Server/_Metro14/SkullMeter/SkullMeterSystem.cs:34-91 | The stored verdict is unsettled afterwards if and only if it was unsettled and the item is not the instrument. A popup is shown if and only if the item is the instrument |
| SkullMeterSystem.NonInstrumentIgnored | Content.Server/_Metro14/SkullMeter/SkullMeterSystem.cs:37-38 | An item that is not the instrument changes nothing and shows nothing |
| SkullMeterSystem.MeasureSettles | Content.Server/_Metro14/SkullMeter/SkullMeterSystem.cs:40-84 | Using the instrument always leaves Mutant or Human, and the popup matches the stored verdict |
| SkullMeterSystem.VerdictIsSticky | Content.Server/_Metro14/SkullMeter/SkullMeterSystem.cs:79-84 | A settled verdict never changes, whatever is used or drawn |
| SkullMeterSystem.RemeasureRepeats | Content.Server/_Metro14/SkullMeter/SkullMeterSystem.cs:40-88 | A second measurement repeats the first verdict and phrase |
| SkullMeterSystem.AlwaysHumanRoleMeasuresHuman | Content.Server/_Metro14/SkullMeter/SkullMeterSystem.cs:44-62 | A first measurement of a subject holding an always-human role is Human, whatever is drawn |
| SkullMeterSystem.DrawDecides | Content.Server/_Metro14/SkullMeter/SkullMeterSystem.cs:67-70 | Without such a role, draw 1 gives Mutant and draw 2 Human, following the enumeration's order |
| SkullMeterSystem.SkullMeter.constructor | Content.Shared/_Metro14/SkullMeter/SkullMeterComponent.cs:11-15 | A new subject is unmeasured and has the configured always-human roles |
| SkullMeterSystem.SkullMeter.OnInteractUsing | Content.Server/_Metro14/SkullMeter/SkullMeterSystem.cs:34-91 | The role loop with its early return stores and shows exactly what the measurement function gives |

## Left out

- Chat phrases, their localisation and the random choice of a line are not modelled. A buy records only which phrase list the trader speaks from.
- The admin log, network dirtying and sending UI state are not modelled; UI state is returned as a value instead.
- Entity lookup is not modelled. The hands, inventory slots, nearby uncontained entities and storage contents are inputs (`World`), listed in enumeration order.
- The inventory and hands systems are oracles in `Outfit`: `CanEquip`, empty slots, `TryEquip` and the slot list. `TryPickup` is modelled as succeeding exactly for the prototypes in `pickups` while a hand is empty, and each pickup takes one empty hand.
- `TakeAmmoEvent` handling is abstracted: a take lowers the provider's unspawned count by one, which the virtual loop needs for its break test. The rounds a take returns and their deletion are not modelled. TryDeleteItems is modelled as the take and deletion requests it makes (`Commit`).
- Spawning and deleting entities are not modelled; the placement decision for a spawned item is.
- Dictionary enumeration order is not modelled. The restock phases and TryDeleteItems visit keys in any order, and each result is proved independent of it. The payment buckets keep DelItem in order.
- Initialisation assumes a product prototype's ID equals the catalog key that indexes it.
- The restock tick covers one trader. The enumeration over all traders runs the same body per trader.
- Times and the restock delta are integers of whole seconds. Volume is an integer, because it only takes the exact values -13 + 3k.
- Audio playback, stopping a stream, applying the volume, popups and the device-link port signal are not modelled. The stream a playback returns is a parameter, and a stopped stream is none.
- The default branch of the skull meter's switch is unreachable for the three-valued enumeration and is not modelled.
- The random draw of the skull meter is a parameter in [1, 3).
- The client UI (BoomBoxBoundUi.cs) is not modelled; it only forwards button presses.
- The component files are used only as the state shape and defaults.
- The buyer's possessions are a finite tree, so the storage search always terminates. A cycle of storages is not modelled.
- NpcTraderSystem.NpcTrader.StockValid: the stock invariant is promised only when the configured counts are at least -1. These are the prototype's initial stock, every sales-catalog line, and every offer's CountRespawn. The system never checks them, and a count below -1 breaks the invariant.
- TraderPayment.PaymentIsSound: that no entity is both queued for deletion and reserved as a round is proved only under two conditions. Every round must be a cartridge, and no round may lie in the hands, the slots, nearby or an opened storage (`RoundsOutOfReach`). If a round is also reachable as a loose entity, the search as written can use it for two units.
- TraderPayment.CommitOf: a take is modelled as a request to the provider. The source raises a one-round `TakeAmmoEvent` on the provider, and the provider chooses which round it gives up, so the model does not promise that the reserved round itself is the one deleted.
