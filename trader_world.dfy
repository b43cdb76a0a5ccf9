/**
 * The part of the game world the trader system reads: entity prototypes, cartridge
 * and ammo-provider components, the buyer's possessions, and the answers of the
 * inventory and hands systems when a bought item is placed on the buyer.
 * Entities are plain integers and prototype ids plain strings.
 */
module TraderWorld {
  import opened Wrappers

  type Entity = int
  type ProtoId = string
  type SlotName = string

  /**
   * An entity the buyer can reach: either without a storage component, or with one
   * whose stored entities are listed in their enumeration order. The tree is
   * finite, so nested storages cannot contain themselves.
   */
  datatype Thing = Plain(uid: Entity) | Storage(uid: Entity, stored: seq<Thing>)

  /**
   * A ballistic ammo provider (magazine, ammo box): the prototype of the rounds it
   * hands out, how many rounds it still holds without having spawned them, and the
   * rounds that exist as entities.
   */
  datatype AmmoProvider = AmmoProvider(proto: Option<ProtoId>, unspawnedCount: nat, entities: seq<Entity>)

  /**
   * What one buy request sees of the world.
   * - entityPrototypes: the ids the prototype manager can index as entity prototypes;
   * - prototypeOf: the prototype id in an entity's metadata, when it has one;
   * - cartridges: the entities with a cartridge component, mapped to its Spent flag;
   * - providers: the entities with a ballistic ammo provider component;
   * - hands: the items held in the buyer's hands, hand by hand (empty hands and a
   *   buyer without hands contribute nothing);
   * - slots: the items in the buyer's inventory slots, slot by slot;
   * - nearby: the uncontained entities within range 1 of the trader.
   */
  datatype World = World(
    entityPrototypes: set<ProtoId>,
    prototypeOf: map<Entity, ProtoId>,
    cartridges: map<Entity, bool>,
    providers: map<Entity, AmmoProvider>,
    hands: seq<Thing>,
    slots: seq<Thing>,
    nearby: seq<Thing>)

  /** The entity is a cartridge that has already been fired. */
  predicate IsSpent(w: World, e: Entity)
  {
    e in w.cartridges && w.cartridges[e]
  }

  /** The entity's metadata prototype indexes and is the price id itself. */
  predicate MatchesPrice(w: World, e: Entity, price: ProtoId)
  {
    e in w.prototypeOf && w.prototypeOf[e] in w.entityPrototypes && w.prototypeOf[e] == price
  }

  /** A trader offer prototype: restock policy, price lines and granted lines, each line in declaration order. */
  datatype Product = Product(
    canRespawn: bool,
    timeRespawn: int,
    countRespawn: int,
    givingItems: seq<(ProtoId, int)>,
    takingItems: seq<(ProtoId, int)>)

  /** The prototypes the trader system indexes: offers and sales catalogs (offer id to stock). */
  datatype Registry = Registry(
    products: map<ProtoId, Product>,
    catalogs: map<ProtoId, seq<(ProtoId, int)>>)

  /**
   * The buyer as the inventory and hands systems answer for a freshly spawned item.
   * - slots: the inventory slot definitions, or None when they cannot be obtained;
   * - occupied: the slots that already hold an entity;
   * - canEquip and equips: the answers of CanEquip and TryEquip for an item of a
   *   prototype in a slot;
   * - hasHands, freeHands and pickups: whether the buyer has hands, how many of
   *   them are empty, and the prototypes whose items TryPickup puts into an empty
   *   hand (it fails for the others, and for every item once no hand is empty).
   */
  datatype Outfit = Outfit(
    hasInventory: bool,
    deleted: bool,
    slots: Option<seq<SlotName>>,
    occupied: set<SlotName>,
    canEquip: set<(ProtoId, SlotName)>,
    equips: set<(ProtoId, SlotName)>,
    hasHands: bool,
    freeHands: nat,
    pickups: set<ProtoId>)
}
