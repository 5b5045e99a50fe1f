/** The IndexedDB object stores the services of `src/db/service.ts` write,
    each a keyed table with its auto-increment key generator, and the service
    calls as methods. Each call is one atomic step; `adjustInventory`'s
    single transaction over the inventory and log stores is one method. */
module Store {

  import opened Types
  import opened Seqs
  import opened Catalog
  import L = Ledger

  /** Links whose ids strictly increase: the store order of an
      auto-increment store that only ever appends and deletes. */
  ghost predicate IdsIncreasing(links: seq<AppointmentLink>)
  {
    forall i, j :: 0 <= i < j < |links| ==> links[i].id < links[j].id
  }

  /** `AppointmentServiceService.getByAppointmentId`: the appointment's links, in store order. */
  function LinksOf(links: seq<AppointmentLink>, appointmentId: nat): (r: seq<AppointmentLink>)
    ensures forall k :: k in r <==> k in links && k.appointmentId == appointmentId
    ensures IsSubsequence(r, links)
    ensures forall k :: multiset(r)[k] == if k.appointmentId == appointmentId then multiset(links)[k] else 0
  {
    FilterIsSubsequence(links, OfAppointment(appointmentId));
    FilterCount(links, OfAppointment(appointmentId));
    Filter(links, OfAppointment(appointmentId))
  }

  function OfAppointment(appointmentId: nat): AppointmentLink -> bool
  {
    (k: AppointmentLink) => k.appointmentId == appointmentId
  }

  /** The links of every other appointment. */
  function LinksNotOf(links: seq<AppointmentLink>, appointmentId: nat): (r: seq<AppointmentLink>)
    ensures forall k :: k in r <==> k in links && k.appointmentId != appointmentId
  {
    Filter(links, (k: AppointmentLink) => k.appointmentId != appointmentId)
  }

  /** `store.delete(id)` on the links store. */
  function WithoutId(links: seq<AppointmentLink>, id: nat): (r: seq<AppointmentLink>)
    ensures forall k :: k in r <==> k in links && k.id != id
  {
    Filter(links, (k: AppointmentLink) => k.id != id)
  }

  /** `ReceiptItemService.getByReceiptId`: the receipt's items, in store order. */
  function ItemsOf(items: seq<ReceiptItem>, receiptId: nat): (r: seq<ReceiptItem>)
    ensures forall i :: i in r <==> i in items && i.receiptId == receiptId
    ensures IsSubsequence(r, items)
    ensures forall i :: multiset(r)[i] == if i.receiptId == receiptId then multiset(items)[i] else 0
  {
    FilterIsSubsequence(items, (i: ReceiptItem) => i.receiptId == receiptId);
    FilterCount(items, (i: ReceiptItem) => i.receiptId == receiptId);
    Filter(items, (i: ReceiptItem) => i.receiptId == receiptId)
  }

  /** Products sit under their own ids, below the key generator, with unique
      names; inventory records only exist for ids the generator has handed out. */
  ghost predicate CatalogValid(products: map<nat, Product>, nextProductId: nat, inventory: map<nat, InventoryRecord>)
  {
    && (forall id :: id in products ==> products[id].id == id && id < nextProductId)
    && (forall p :: p in inventory ==> p < nextProductId)
    && UniqueNames(products)
  }

  ghost predicate LinksValid(links: seq<AppointmentLink>, nextLinkId: nat)
  {
    && IdsIncreasing(links)
    && (forall i :: 0 <= i < |links| ==> 1 <= links[i].id < nextLinkId)
    && nextLinkId >= 1
  }

  ghost predicate AppointmentsValid(appointments: map<nat, Appointment>, nextAppointmentId: nat)
  {
    forall id :: id in appointments ==> appointments[id].id == id && id < nextAppointmentId
  }

  /** Adding a product with a fresh name under the key generator's id,
      with its inventory record, keeps the catalogue valid. */
  lemma CreateKeepsCatalog(products: map<nat, Product>, inventory: map<nat, InventoryRecord>,
                           p: Product, record: InventoryRecord)
    requires CatalogValid(products, p.id, inventory)
    requires !NameTaken(products, p.name, None)
    ensures CatalogValid(products[p.id := p], p.id + 1, inventory[p.id := record])
  {
    var after := products[p.id := p];
    var seeded := inventory[p.id := record];
    AddKeepsUnique(products, p);
    forall id | id in after
      ensures after[id].id == id && id < p.id + 1
    {
      if id != p.id { assert id in products && after[id] == products[id]; }
    }
    forall q | q in seeded
      ensures q < p.id + 1
    {
      if q != p.id { assert q in inventory; }
    }
  }

  /** `put` of a product whose name no other product uses keeps the
      catalogue valid, the key generator moving past its id. */
  lemma PutKeepsCatalog(products: map<nat, Product>, nextProductId: nat, inventory: map<nat, InventoryRecord>, p: Product)
    requires CatalogValid(products, nextProductId, inventory)
    requires !NameTaken(products, p.name, Some(p.id))
    ensures CatalogValid(products[p.id := p], if p.id < nextProductId then nextProductId else p.id + 1, inventory)
  {
    PutKeepsUnique(products, p);
  }

  /** Rewriting inventory records in place keeps the catalogue valid. */
  lemma CatalogSameKeys(products: map<nat, Product>, nextProductId: nat,
                        inventory: map<nat, InventoryRecord>, updated: map<nat, InventoryRecord>)
    requires CatalogValid(products, nextProductId, inventory) && updated.Keys == inventory.Keys
    ensures CatalogValid(products, nextProductId, updated)
  {
    forall p | p in updated
      ensures p < nextProductId
    {
      assert p in inventory;
    }
  }

  class Db {
    var products: map<nat, Product>
    var nextProductId: nat
    var inventory: map<nat, InventoryRecord>   // keyed by product id (unique index)
    var nextInventoryId: nat
    var logs: seq<InventoryLog>
    var nextLogId: nat
    var receipts: seq<Receipt>
    var nextReceiptId: nat
    var receiptItems: seq<ReceiptItem>
    var nextReceiptItemId: nat
    var appointments: map<nat, Appointment>
    var nextAppointmentId: nat
    var links: seq<AppointmentLink>
    var nextLinkId: nat

    /** The inventory and log stores as one ledger value. */
    function LedgerOf(): L.Ledger
      reads this
    {
      L.Ledger(inventory, nextInventoryId, logs, nextLogId)
    }

    ghost predicate Valid()
      reads this
    {
      && L.Valid(LedgerOf())
      && CatalogValid(products, nextProductId, inventory)
      && LinksValid(links, nextLinkId)
      && AppointmentsValid(appointments, nextAppointmentId)
      && nextReceiptId >= 1
    }

    /** A freshly opened, empty database; every key generator starts at 1. */
    constructor ()
      ensures Valid()
      ensures products == map[] && inventory == map[] && logs == [] && receipts == []
      ensures receiptItems == [] && appointments == map[] && links == []
    {
      products, nextProductId := map[], 1;
      inventory, nextInventoryId := map[], 1;
      logs, nextLogId := [], 1;
      receipts, nextReceiptId := [], 1;
      receiptItems, nextReceiptItemId := [], 1;
      appointments, nextAppointmentId := map[], 1;
      links, nextLinkId := [], 1;
    }

    /** `InventoryService.getByProductId`. */
    function GetInventory(productId: nat): (r: Option<InventoryRecord>)
      reads this
      ensures r.None? <==> productId !in inventory
      ensures r.Some? ==> r.value == inventory[productId]
    {
      if productId in inventory then Some(inventory[productId]) else None
    }

    /** `InventoryService.create`: one write to the inventory store. */
    method CreateInventory(productId: nat, quantity: int, now: Timestamp) returns (r: Result<nat>)
      modifies this
      ensures (r, LedgerOf()) == L.Create(old(LedgerOf()), productId, quantity, now)
      ensures products == old(products) && nextProductId == old(nextProductId)
      ensures receipts == old(receipts) && receiptItems == old(receiptItems)
      ensures appointments == old(appointments) && links == old(links)
      ensures nextReceiptId == old(nextReceiptId) && nextReceiptItemId == old(nextReceiptItemId)
      ensures nextAppointmentId == old(nextAppointmentId) && nextLinkId == old(nextLinkId)
    {
      if productId in inventory {
        return Err(ConstraintError);
      }
      r := Ok(nextInventoryId);
      inventory := inventory[productId := InventoryRecord(nextInventoryId, productId, quantity, now)];
      nextInventoryId := nextInventoryId + 1;
    }

    /** `ProductService.create`: refuses a name already used (after trim and
        lower-casing) before any write; otherwise adds the product, then, in
        a second write, seeds its inventory record at quantity 0. */
    method CreateProduct(name: string, price: Money, sku: Option<string>, threshold: int, now: Timestamp)
      returns (r: Result<nat>)
      requires Valid()
      modifies this
      ensures Valid()
      ensures NameTaken(old(products), name, None) ==> r == Err(DuplicateName) && unchanged(this)
      ensures !NameTaken(old(products), name, None) ==>
        && r == Ok(old(nextProductId))
        && products == old(products)[r.value := Product(r.value, name, price, sku, threshold, now, now)]
        && LedgerOf() == L.Create(old(LedgerOf()), r.value, 0, now).1
        && r.value in inventory && inventory[r.value].quantity == 0 && logs == old(logs)
      ensures receipts == old(receipts) && receiptItems == old(receiptItems)
      ensures appointments == old(appointments) && links == old(links)
    {
      if NameTaken(products, name, None) {
        return Err(DuplicateName);
      }
      var id := nextProductId;
      var product := Product(id, name, price, sku, threshold, now, now);
      CreateKeepsCatalog(products, inventory, product, InventoryRecord(nextInventoryId, id, 0, now));
      products := products[id := product];
      nextProductId := nextProductId + 1;
      L.CreateZeroKeepsValid(LedgerOf(), id, now);
      var seeded := CreateInventory(id, 0, now);
      assert seeded == Ok(old(nextInventoryId));
      r := Ok(id);
    }

    /** `ProductService.update`: refuses a name another product uses; a
        product may keep its own name. The write is a `put`: it replaces
        the record with that id, and a numeric key at or past the key
        generator moves the generator past it. */
    method UpdateProduct(product: Product) returns (r: Outcome)
      requires Valid()
      modifies this
      ensures Valid()
      ensures NameTaken(old(products), product.name, Some(product.id)) ==>
        r == Failed(DuplicateName) && unchanged(this)
      ensures !NameTaken(old(products), product.name, Some(product.id)) ==>
        && r == Done
        && products == old(products)[product.id := product]
        && nextProductId == if product.id < old(nextProductId) then old(nextProductId) else product.id + 1
      ensures LedgerOf() == old(LedgerOf())
      ensures receipts == old(receipts) && receiptItems == old(receiptItems)
      ensures appointments == old(appointments) && links == old(links)
    {
      if NameTaken(products, product.name, Some(product.id)) {
        return Failed(DuplicateName);
      }
      PutKeepsCatalog(products, nextProductId, inventory, product);
      products := products[product.id := product];
      if product.id >= nextProductId {
        nextProductId := product.id + 1;
      }
      r := Done;
    }

    /** `ProductService.delete`: removes the product record only; its
        inventory record and log entries stay. */
    method DeleteProduct(id: nat)
      requires Valid()
      modifies this
      ensures Valid()
      ensures products == old(products) - {id} && nextProductId == old(nextProductId)
      ensures LedgerOf() == old(LedgerOf())
      ensures receipts == old(receipts) && receiptItems == old(receiptItems)
      ensures appointments == old(appointments) && links == old(links)
    {
      products := products - {id};
    }

    /** `InventoryService.adjustInventory`: both writes of its transaction,
        or none when the record is missing or the quantity would go negative. */
    method AdjustInventory(productId: nat, change: int, reason: Reason, receiptId: Option<nat>,
                           notes: Option<string>, now: Timestamp) returns (r: Outcome)
      requires Valid()
      modifies this
      ensures Valid()
      ensures (r, LedgerOf()) == L.Adjust(old(LedgerOf()), productId, change, reason, receiptId, notes, now)
      ensures products == old(products) && nextProductId == old(nextProductId)
      ensures receipts == old(receipts) && receiptItems == old(receiptItems)
      ensures nextReceiptId == old(nextReceiptId) && nextReceiptItemId == old(nextReceiptItemId)
      ensures appointments == old(appointments) && links == old(links)
      ensures nextAppointmentId == old(nextAppointmentId) && nextLinkId == old(nextLinkId)
    {
      ghost var before := LedgerOf();
      if productId !in inventory {
        return Failed(NotFound);
      }
      var record := inventory[productId];
      var newQuantity := record.quantity + change;
      if newQuantity < 0 {
        return Failed(InsufficientStock);
      }
      record := record.(quantity := newQuantity, updatedAt := now);
      inventory := inventory[productId := record];
      logs := logs + [InventoryLog(nextLogId, productId, change, reason, receiptId, notes, now)];
      nextLogId := nextLogId + 1;
      r := Done;
      L.AdjustDone(before, productId, change, reason, receiptId, notes, now);
      L.AdjustKeepsValid(before, productId, change, reason, receiptId, notes, now);
      assert LedgerOf() == L.Adjust(before, productId, change, reason, receiptId, notes, now).1;
      CatalogSameKeys(products, nextProductId, before.inventory, inventory);
    }

    /** `ReceiptService.create`: appends a receipt under the next key. */
    method CreateReceipt(customerId: nat, appointmentId: Option<nat>, timestamp: Timestamp,
                         subtotal: Money, tip: Money, total: Money, createdAt: Timestamp)
      returns (id: nat)
      requires Valid()
      modifies this
      ensures Valid()
      ensures id == old(nextReceiptId) && id >= 1 && nextReceiptId == id + 1
      ensures receipts == old(receipts) + [Receipt(id, customerId, appointmentId, timestamp, subtotal, tip, total, createdAt)]
      ensures LedgerOf() == old(LedgerOf()) && products == old(products) && nextProductId == old(nextProductId)
      ensures receiptItems == old(receiptItems) && nextReceiptItemId == old(nextReceiptItemId)
      ensures appointments == old(appointments) && links == old(links)
      ensures nextAppointmentId == old(nextAppointmentId) && nextLinkId == old(nextLinkId)
    {
      id := nextReceiptId;
      receipts := receipts + [Receipt(id, customerId, appointmentId, timestamp, subtotal, tip, total, createdAt)];
      nextReceiptId := nextReceiptId + 1;
    }

    /** `ReceiptItemService.create`: appends an item under the next key. */
    method CreateReceiptItem(receiptId: nat, kind: ItemKind, itemId: nat, name: string,
                             quantity: int, unitPrice: Money, lineTotal: Money)
      returns (id: nat)
      requires Valid()
      modifies this
      ensures Valid()
      ensures id == old(nextReceiptItemId) && nextReceiptItemId == id + 1
      ensures receiptItems == old(receiptItems) + [ReceiptItem(id, receiptId, kind, itemId, name, quantity, unitPrice, lineTotal)]
      ensures LedgerOf() == old(LedgerOf()) && products == old(products) && nextProductId == old(nextProductId)
      ensures receipts == old(receipts) && nextReceiptId == old(nextReceiptId)
      ensures appointments == old(appointments) && links == old(links)
      ensures nextAppointmentId == old(nextAppointmentId) && nextLinkId == old(nextLinkId)
    {
      id := nextReceiptItemId;
      receiptItems := receiptItems + [ReceiptItem(id, receiptId, kind, itemId, name, quantity, unitPrice, lineTotal)];
      nextReceiptItemId := nextReceiptItemId + 1;
    }

    /** `AppointmentService.create`. */
    method CreateAppointment(a: Appointment) returns (id: nat)
      requires Valid()
      modifies this
      ensures Valid()
      ensures id == old(nextAppointmentId) && nextAppointmentId == id + 1
      ensures appointments == old(appointments)[id := a.(id := id)]
      ensures links == old(links) && nextLinkId == old(nextLinkId)
      ensures LedgerOf() == old(LedgerOf()) && products == old(products)
      ensures receipts == old(receipts) && receiptItems == old(receiptItems)
      ensures nextProductId == old(nextProductId) && nextReceiptId == old(nextReceiptId) && nextReceiptItemId == old(nextReceiptItemId)
    {
      id := nextAppointmentId;
      appointments := appointments[id := a.(id := id)];
      nextAppointmentId := nextAppointmentId + 1;
    }

    /** `AppointmentService.update`: a `put` under the appointment's own id. */
    method PutAppointment(a: Appointment)
      requires Valid()
      modifies this
      ensures Valid()
      ensures appointments == old(appointments)[a.id := a]
      ensures nextAppointmentId == if a.id < old(nextAppointmentId) then old(nextAppointmentId) else a.id + 1
      ensures links == old(links) && nextLinkId == old(nextLinkId)
      ensures LedgerOf() == old(LedgerOf()) && products == old(products)
      ensures receipts == old(receipts) && receiptItems == old(receiptItems)
      ensures nextProductId == old(nextProductId) && nextReceiptId == old(nextReceiptId) && nextReceiptItemId == old(nextReceiptItemId)
    {
      appointments := appointments[a.id := a];
      if a.id >= nextAppointmentId {
        nextAppointmentId := a.id + 1;
      }
    }

    /** `AppointmentService.delete`. */
    method DeleteAppointment(id: nat)
      requires Valid()
      modifies this
      ensures Valid()
      ensures appointments == old(appointments) - {id} && nextAppointmentId == old(nextAppointmentId)
      ensures links == old(links) && nextLinkId == old(nextLinkId)
      ensures LedgerOf() == old(LedgerOf()) && products == old(products)
      ensures receipts == old(receipts) && receiptItems == old(receiptItems)
      ensures nextProductId == old(nextProductId) && nextReceiptId == old(nextReceiptId) && nextReceiptItemId == old(nextReceiptItemId)
    {
      appointments := appointments - {id};
    }

    /** `AppointmentServiceService.create`: appends a link under the next key. */
    method CreateLink(appointmentId: nat, serviceId: nat, quantity: int) returns (id: nat)
      requires Valid()
      modifies this
      ensures Valid()
      ensures id == old(nextLinkId) && nextLinkId == id + 1
      ensures links == old(links) + [AppointmentLink(id, appointmentId, serviceId, quantity)]
      ensures appointments == old(appointments) && nextAppointmentId == old(nextAppointmentId)
      ensures LedgerOf() == old(LedgerOf()) && products == old(products)
      ensures receipts == old(receipts) && receiptItems == old(receiptItems)
      ensures nextProductId == old(nextProductId) && nextReceiptId == old(nextReceiptId) && nextReceiptItemId == old(nextReceiptItemId)
    {
      id := nextLinkId;
      links := links + [AppointmentLink(id, appointmentId, serviceId, quantity)];
      nextLinkId := nextLinkId + 1;
    }

    /** `AppointmentServiceService.deleteByAppointmentId`: reads the
        appointment's links, then deletes them one by one in one
        transaction. Every other appointment's links stay, in order. */
    method DeleteLinksOf(appointmentId: nat)
      requires Valid()
      modifies this
      ensures Valid()
      ensures links == LinksNotOf(old(links), appointmentId) && nextLinkId == old(nextLinkId)
      ensures appointments == old(appointments) && nextAppointmentId == old(nextAppointmentId)
      ensures LedgerOf() == old(LedgerOf()) && products == old(products)
      ensures receipts == old(receipts) && receiptItems == old(receiptItems)
      ensures nextProductId == old(nextProductId) && nextReceiptId == old(nextReceiptId) && nextReceiptItemId == old(nextReceiptItemId)
    {
      var items := LinksOf(links, appointmentId);
      var kept := DeleteEach(links, items);
      DeletedAreThoseOf(links, appointmentId, nextLinkId);
      FilterKeepsValid(links, (k: AppointmentLink) => k.appointmentId != appointmentId, nextLinkId);
      links := kept;
    }
  }

  /** The deletes of one `deleteByAppointmentId` transaction, one `store.delete`
      per listed link, applied to a working copy of the links store that the
      transaction commits when it completes. A link without an id is skipped,
      as the `if (item.id)` guard does. */
  method DeleteEach(links: seq<AppointmentLink>, items: seq<AppointmentLink>) returns (kept: seq<AppointmentLink>)
    ensures kept == Filter(links, NotIn(items))
  {
    kept := links;
    FilterKeepsAll(links, NotIn([]));
    var i := 0;
    while i < |items|
      invariant 0 <= i <= |items|
      invariant kept == Filter(links, NotIn(items[..i]))
    {
      var item := items[i];
      assert items[..i + 1] == items[..i] + [item];
      if item.id != 0 {
        DropOneMore(links, items[..i], item);
        kept := WithoutId(kept, item.id);
      } else {
        FilterSame(links, NotIn(items[..i]), NotIn(items[..i + 1]));
      }
      i := i + 1;
    }
    assert items[..i] == items;
  }

  /** Deleting links keeps the remaining ids increasing and in range. */
  lemma {:induction false} FilterKeepsValid(links: seq<AppointmentLink>, f: AppointmentLink -> bool, nextLinkId: nat)
    requires LinksValid(links, nextLinkId)
    ensures LinksValid(Filter(links, f), nextLinkId)
    decreases |links|
  {
    if links != [] {
      assert LinksValid(links[1..], nextLinkId);
      FilterKeepsValid(links[1..], f, nextLinkId);
      if f(links[0]) {
        LinksConsValid(links[0], Filter(links[1..], f), links[1..], nextLinkId);
      }
    }
  }

  /** A link below every id of a valid store of links, all drawn from
      `later`, can be put in front of them. */
  lemma LinksConsValid(k: AppointmentLink, rest: seq<AppointmentLink>, later: seq<AppointmentLink>, nextLinkId: nat)
    requires LinksValid(rest, nextLinkId) && 1 <= k.id < nextLinkId
    requires forall x :: x in rest ==> x in later
    requires forall x :: x in later ==> k.id < x.id
    ensures LinksValid([k] + rest, nextLinkId)
  {
    var r := [k] + rest;
    forall i, j | 0 <= i < j < |r|
      ensures r[i].id < r[j].id
    {
      assert r[j] == rest[j - 1];
      if i > 0 { assert r[i] == rest[i - 1]; }
      else { assert rest[j - 1] in later; }
    }
  }

  /** The test "no link of `deleted` with an id has this id". */
  function NotIn(deleted: seq<AppointmentLink>): AppointmentLink -> bool
  {
    (k: AppointmentLink) => forall d :: d in deleted && d.id != 0 ==> d.id != k.id
  }

  lemma DropOneMore(links: seq<AppointmentLink>, deleted: seq<AppointmentLink>, item: AppointmentLink)
    requires item.id != 0
    ensures WithoutId(Filter(links, NotIn(deleted)), item.id) == Filter(links, NotIn(deleted + [item]))
  {
    var f := NotIn(deleted);
    var g := (k: AppointmentLink) => k.id != item.id;
    FilterTwice(links, f, g);
    FilterSame(links, x => f(x) && g(x), NotIn(deleted + [item]));
  }

  /** With unique ids, deleting the ids of an appointment's links removes
      exactly that appointment's links. */
  lemma DeletedAreThoseOf(links: seq<AppointmentLink>, appointmentId: nat, nextLinkId: nat)
    requires LinksValid(links, nextLinkId)
    ensures Filter(links, NotIn(LinksOf(links, appointmentId))) == LinksNotOf(links, appointmentId)
  {
    var mine := LinksOf(links, appointmentId);
    forall k | k in links
      ensures NotIn(mine)(k) == (k.appointmentId != appointmentId)
    {
      if k.appointmentId != appointmentId {
        forall d | d in mine
          ensures d.id != k.id
        {
          var i :| 0 <= i < |links| && links[i] == d;
          var j :| 0 <= j < |links| && links[j] == k;
          assert i != j;
        }
      } else {
        var j :| 0 <= j < |links| && links[j] == k;
        assert k in mine && k.id != 0;
      }
    }
    FilterSame(links, NotIn(mine), (k: AppointmentLink) => k.appointmentId != appointmentId);
  }
}
