/** The product screen: the catalogue with stock statuses and the form that
    adds a product or edits the one chosen for editing. */
module ProductView {

  import opened Types
  import opened Catalog
  import L = Ledger
  import opened Store
  import opened Stock

  /** The threshold the form starts with and returns to. */
  const DefaultThreshold: int := 5

  /** The product `handleSubmit` writes back when editing: the chosen record
      with the form's name, price and threshold and a new update time. */
  function Edited(product: Product, name: string, price: Money, threshold: int, now: Timestamp): (r: Product)
    ensures r.id == product.id && r.sku == product.sku && r.createdAt == product.createdAt
    ensures r.name == name && r.price == price && r.minStockThreshold == threshold && r.updatedAt == now
  {
    product.(name := name, price := price, minStockThreshold := threshold, updatedAt := now)
  }

  class ProductManager {
    const db: Db
    var products: map<nat, Product>
    var inventory: map<nat, InventoryRecord>   // the inventory snapshot, keyed by product id
    var isEditing: bool
    var editingProduct: Option<Product>
    var name: string
    var price: Option<Money>                    // None while the field is empty
    var minStockThreshold: Option<int>

    /** The form's initial values: adding, empty name and price, threshold 5. */
    ghost predicate FormReset()
      reads this
    {
      !isEditing && editingProduct == None && name == "" && price == None
      && minStockThreshold == Some(DefaultThreshold)
    }

    /** The screen as mounted: `loadData` has read both stores. */
    constructor (db: Db)
      ensures this.db == db && products == db.products && inventory == db.inventory
      ensures FormReset()
    {
      this.db := db;
      products := db.products;
      inventory := db.inventory;
      isEditing := false;
      editingProduct := None;
      name := "";
      price := None;
      minStockThreshold := Some(DefaultThreshold);
    }

    /** `getStockStatus(productId, threshold)` over the inventory snapshot. */
    function GetStockStatus(productId: nat, threshold: int): (r: (Status, int))
      reads this
      ensures r.0 == Unknown <==> productId !in inventory
      ensures r.0 == Out <==> productId in inventory && inventory[productId].quantity == 0
      ensures r.0 == Low <==> productId in inventory && inventory[productId].quantity != 0 && inventory[productId].quantity <= threshold
      ensures r.0 == Good <==> productId in inventory && inventory[productId].quantity != 0 && inventory[productId].quantity > threshold
      ensures r.1 == if productId in inventory then inventory[productId].quantity else 0
    {
      StockStatus(inventory, productId, threshold)
    }

    /** `handleEdit`: the form takes the product's values and switches to editing it. */
    method HandleEdit(product: Product)
      modifies this
      ensures isEditing && editingProduct == Some(product)
      ensures name == product.name && price == Some(product.price)
      ensures minStockThreshold == Some(product.minStockThreshold)
      ensures products == old(products) && inventory == old(inventory)
    {
      editingProduct := Some(product);
      name := product.name;
      price := Some(product.price);
      minStockThreshold := Some(product.minStockThreshold);
      isEditing := true;
    }

    /** `handleCancel`: back to the initial form, nothing written. */
    method HandleCancel()
      modifies this
      ensures FormReset()
      ensures products == old(products) && inventory == old(inventory)
    {
      isEditing := false;
      editingProduct := None;
      name := "";
      price := None;
      minStockThreshold := Some(DefaultThreshold);
    }

    /** `handleSubmit`: with a product being edited, writes it back with the
        form's values (its id, sku and creation time kept); otherwise creates
        a product without a sku. A refused name writes nothing and keeps the
        form; a saved product resets the form and reloads the screen. */
    method HandleSubmit(now: Timestamp) returns (r: Outcome)
      requires db.Valid()
      requires price.Some? && minStockThreshold.Some?
      modifies this, db
      ensures db.Valid()
      ensures old(editingProduct).Some? ==>
        var edited := Edited(old(editingProduct).value, old(name), old(price).value, old(minStockThreshold).value, now);
        && (r == Done <==> !NameTaken(old(db.products), old(name), Some(edited.id)))
        && (r == Done ==> db.products == old(db.products)[edited.id := edited])
      ensures old(editingProduct).None? ==>
        var id := old(db.nextProductId);
        && (r == Done <==> !NameTaken(old(db.products), old(name), None))
        && (r == Done ==>
              && db.products == old(db.products)[id := Product(id, old(name), old(price).value, None,
                                                               old(minStockThreshold).value, now, now)]
              && db.LedgerOf() == L.Create(old(db.LedgerOf()), id, 0, now).1
              && db.inventory[id].quantity == 0)
      ensures r == Done ==> FormReset() && products == db.products && inventory == db.inventory
      ensures r.Failed? ==> r.error == DuplicateName && unchanged(this) && unchanged(db)
      ensures old(editingProduct).Some? ==> db.LedgerOf() == old(db.LedgerOf())
      ensures db.receipts == old(db.receipts) && db.receiptItems == old(db.receiptItems)
      ensures db.appointments == old(db.appointments) && db.links == old(db.links)
    {
      if editingProduct.Some? {
        var edited := Edited(editingProduct.value, name, price.value, minStockThreshold.value, now);
        r := db.UpdateProduct(edited);
      } else {
        var created := db.CreateProduct(name, price.value, None, minStockThreshold.value, now);
        r := if created.Ok? then Done else Failed(created.error);
      }
      if r == Done {
        HandleCancel();
        LoadData();
      }
    }

    /** `handleDelete` once confirmed: removes the product record (its
        inventory record and history stay) and reloads the screen. */
    method HandleDelete(id: nat, confirmed: bool)
      requires db.Valid()
      modifies this, db
      ensures db.Valid()
      ensures !confirmed ==> unchanged(this) && unchanged(db)
      ensures confirmed ==>
        && db.products == old(db.products) - {id} && db.LedgerOf() == old(db.LedgerOf())
        && products == db.products && inventory == db.inventory
      ensures db.receipts == old(db.receipts) && db.receiptItems == old(db.receiptItems)
      ensures db.appointments == old(db.appointments) && db.links == old(db.links)
      ensures isEditing == old(isEditing) && editingProduct == old(editingProduct) && name == old(name)
      ensures price == old(price) && minStockThreshold == old(minStockThreshold)
    {
      if confirmed {
        db.DeleteProduct(id);
        LoadData();
      }
    }

    /** `loadData`: fresh snapshots of the product and inventory stores. */
    method LoadData()
      modifies this
      ensures products == db.products && inventory == db.inventory
      ensures isEditing == old(isEditing) && editingProduct == old(editingProduct) && name == old(name)
      ensures price == old(price) && minStockThreshold == old(minStockThreshold)
    {
      products := db.products;
      inventory := db.inventory;
    }
  }
}
