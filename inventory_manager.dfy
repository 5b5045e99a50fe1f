/** The inventory screen: a product list with stock statuses, the selected
    product's log history newest first, and the manual adjustment form. */
module InventoryView {

  import opened Types
  import opened Seqs
  import L = Ledger
  import opened Store
  import opened Stock
  import opened Text

  /** The two reasons the adjustment form offers; sales are only logged by checkout. */
  type AdjustType = r: Reason | r != Sale witness Restock

  function CreatedAt(e: InventoryLog): int
  {
    e.createdAt
  }

  /** `loadLogs`: the product's log entries sorted newest first. */
  function HistoryOf(logs: seq<InventoryLog>, productId: nat): (r: seq<InventoryLog>)
    ensures multiset(r) == multiset(L.LogsFor(logs, productId))
    ensures SortedDesc(r, CreatedAt)
  {
    SortDescSorted(L.LogsFor(logs, productId), CreatedAt);
    SortDesc(L.LogsFor(logs, productId), CreatedAt)
  }

  /** The history shows exactly the product's entries, each as often as it
      was logged, newest first. */
  lemma HistoryOfContents(logs: seq<InventoryLog>, productId: nat)
    ensures forall e :: e in HistoryOf(logs, productId) <==> e in logs && e.productId == productId
  {
    var h := HistoryOf(logs, productId);
    forall e
      ensures e in h <==> e in L.LogsFor(logs, productId)
    {
      assert e in h <==> e in multiset(h);
    }
  }

  /** Logging one entry adds it to its own product's history and leaves
      every other product's history as it was. */
  lemma {:induction false} HistoryAfterLog(logs: seq<InventoryLog>, e: InventoryLog, productId: nat)
    ensures e.productId == productId ==>
      multiset(HistoryOf(logs + [e], productId)) == multiset(HistoryOf(logs, productId)) + multiset{e}
    ensures e.productId != productId ==> HistoryOf(logs + [e], productId) == HistoryOf(logs, productId)
  {
    L.LogsForAppend(logs, e, productId);
    if e.productId != productId {
      assert L.LogsFor(logs, productId) + [] == L.LogsFor(logs, productId);
    }
  }

  class InventoryManager {
    const db: Db
    var products: map<nat, Product>
    var inventory: map<nat, InventoryRecord>   // the inventory snapshot, keyed by product id
    var selectedProduct: Option<Product>
    var logs: seq<InventoryLog>
    var adjustAmount: Option<int>               // None while the field is empty
    var adjustNotes: string
    var adjustType: AdjustType

    /** The screen as mounted: `loadData` has read both stores. */
    constructor (db: Db)
      ensures this.db == db && products == db.products && inventory == db.inventory
      ensures selectedProduct == None && logs == []
      ensures adjustAmount == None && adjustNotes == "" && adjustType == Restock
    {
      this.db := db;
      products := db.products;
      inventory := db.inventory;
      selectedProduct := None;
      logs := [];
      adjustAmount := None;
      adjustNotes := "";
      adjustType := Restock;
    }

    /** `getStockStatus` for a listed product, against its own threshold. */
    function GetStockStatus(product: Product): (r: (Status, int))
      reads this
      ensures r.0 == Unknown <==> product.id !in inventory
      ensures r.0 == Out <==> product.id in inventory && inventory[product.id].quantity == 0
      ensures r.0 == Low <==> product.id in inventory && inventory[product.id].quantity != 0 && inventory[product.id].quantity <= product.minStockThreshold
      ensures r.0 == Good <==> product.id in inventory && inventory[product.id].quantity != 0 && inventory[product.id].quantity > product.minStockThreshold
      ensures r.1 == if product.id in inventory then inventory[product.id].quantity else 0
    {
      StockStatus(inventory, product.id, product.minStockThreshold)
    }

    /** `loadData`: fresh snapshots of the product and inventory stores. */
    method LoadData()
      modifies this
      ensures products == db.products && inventory == db.inventory
      ensures selectedProduct == old(selectedProduct) && logs == old(logs)
      ensures adjustAmount == old(adjustAmount) && adjustNotes == old(adjustNotes)
      ensures adjustType == old(adjustType)
    {
      products := db.products;
      inventory := db.inventory;
    }

    /** `loadLogs`: the product's history, newest first. */
    method LoadLogs(productId: nat)
      modifies this
      ensures logs == HistoryOf(db.logs, productId)
      ensures products == old(products) && inventory == old(inventory)
      ensures selectedProduct == old(selectedProduct)
      ensures adjustAmount == old(adjustAmount) && adjustNotes == old(adjustNotes)
      ensures adjustType == old(adjustType)
    {
      logs := HistoryOf(db.logs, productId);
    }

    /** Selecting a product: the selection effect loads its history when
        the product has an id. */
    method SelectProduct(product: Product)
      modifies this
      ensures selectedProduct == Some(product)
      ensures logs == if product.id != 0 then HistoryOf(db.logs, product.id) else old(logs)
      ensures products == old(products) && inventory == old(inventory)
      ensures adjustAmount == old(adjustAmount) && adjustNotes == old(adjustNotes)
      ensures adjustType == old(adjustType)
    {
      selectedProduct := Some(product);
      if product.id != 0 {
        LoadLogs(product.id);
      }
    }

    /** `handleAdjust`: without a selected product nothing happens;
        otherwise one `adjustInventory` call with no receipt and the notes
        only when non-empty. On success the form is cleared and the
        snapshots and history are reloaded; on failure the screen keeps
        its state. */
    method HandleAdjust(now: Timestamp) returns (r: Option<Outcome>)
      requires db.Valid()
      requires adjustAmount.Some?
      modifies this, db
      ensures db.Valid()
      ensures selectedProduct.None? || selectedProduct.value.id == 0 ==>
        r == None && unchanged(this) && unchanged(db)
      ensures selectedProduct.Some? && selectedProduct.value.id != 0 ==>
        && r.Some?
        && (r.value, db.LedgerOf()) == L.Adjust(old(db.LedgerOf()), selectedProduct.value.id,
             old(adjustAmount).value, old(adjustType), None, NonEmpty(old(adjustNotes)), now)
      ensures r == Some(Done) ==>
        && adjustAmount == None && adjustNotes == ""
        && products == db.products && inventory == db.inventory
        && logs == HistoryOf(db.logs, selectedProduct.value.id)
        && selectedProduct == old(selectedProduct) && adjustType == old(adjustType)
      ensures r.Some? && r.value.Failed? ==> unchanged(this) && db.LedgerOf() == old(db.LedgerOf())
      ensures db.products == old(db.products) && db.receipts == old(db.receipts)
      ensures db.receiptItems == old(db.receiptItems)
      ensures db.appointments == old(db.appointments) && db.links == old(db.links)
    {
      if selectedProduct.None? || selectedProduct.value.id == 0 {
        return None;
      }
      var id := selectedProduct.value.id;
      var outcome := db.AdjustInventory(id, adjustAmount.value, adjustType, None, NonEmpty(adjustNotes), now);
      r := Some(outcome);
      if outcome == Done {
        adjustAmount := None;
        adjustNotes := "";
        LoadData();
        LoadLogs(id);
      }
    }
  }

  /** A successful adjustment from the screen moves the product's stock by
      exactly the amount entered and adds exactly one entry, carrying the
      chosen reason and no receipt, to its history. */
  lemma AdjustFromScreen(l: L.Ledger, productId: nat, amount: int, reason: AdjustType, notes: string, now: Timestamp)
    requires L.Valid(l)
    requires L.Adjust(l, productId, amount, reason, None, NonEmpty(notes), now).0 == Done
    ensures var after := L.Adjust(l, productId, amount, reason, None, NonEmpty(notes), now).1;
      && after.inventory[productId].quantity == l.inventory[productId].quantity + amount >= 0
      && multiset(HistoryOf(after.logs, productId)) ==
           multiset(HistoryOf(l.logs, productId)) + multiset{L.Entry(l, productId, amount, reason, None, NonEmpty(notes), now)}
      && L.Valid(after)
  {
    var e := L.Entry(l, productId, amount, reason, None, NonEmpty(notes), now);
    HistoryAfterLog(l.logs, e, productId);
    L.AdjustKeepsValid(l, productId, amount, reason, None, NonEmpty(notes), now);
  }
}
