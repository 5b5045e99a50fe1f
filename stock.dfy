/** The stock classification both inventory views show next to a product,
    and the labels the inventory history gives to log reasons. */
module Stock {

  import opened Types
  import L = Ledger

  /** `unknown` (no inventory record), `out`, `low` and `good`. */
  datatype Status = Unknown | Out | Low | Good

  /** `getStockStatus`: the status of a product against its minimum stock
      threshold, with the quantity shown beside it (0 when there is no record). */
  function StockStatus(inventory: map<nat, InventoryRecord>, productId: nat, threshold: int): (r: (Status, int))
    ensures r.0 == Unknown <==> productId !in inventory
    ensures r.0 == Out <==> productId in inventory && inventory[productId].quantity == 0
    ensures r.0 == Low <==>
              productId in inventory && inventory[productId].quantity != 0 && inventory[productId].quantity <= threshold
    ensures r.0 == Good <==>
              productId in inventory && inventory[productId].quantity != 0 && inventory[productId].quantity > threshold
    ensures r.1 == if productId in inventory then inventory[productId].quantity else 0
  {
    if productId !in inventory then (Unknown, 0)
    else
      var quantity := inventory[productId].quantity;
      if quantity == 0 then (Out, quantity)
      else if quantity <= threshold then (Low, quantity)
      else (Good, quantity)
  }

  /** Over a valid ledger quantities are never negative, so `low` means a
      quantity strictly between 0 and the threshold (inclusive), and an
      empty product is `out` whatever its threshold. */
  lemma StockStatusOnLedger(l: L.Ledger, productId: nat, threshold: int)
    requires L.Valid(l)
    ensures StockStatus(l.inventory, productId, threshold).0 == Low <==>
              productId in l.inventory && 0 < l.inventory[productId].quantity <= threshold
    ensures StockStatus(l.inventory, productId, threshold).0 == Out ==>
              StockStatus(l.inventory, productId, threshold).1 == 0
    ensures StockStatus(l.inventory, productId, threshold).1 >= 0
  {
  }

  /** A larger threshold never turns a `low` product `good`, nor an `out`
      product anything else. */
  lemma StockStatusMonotone(inventory: map<nat, InventoryRecord>, productId: nat, t1: int, t2: int)
    requires t1 <= t2
    ensures StockStatus(inventory, productId, t1).0 == Low ==> StockStatus(inventory, productId, t2).0 == Low
    ensures StockStatus(inventory, productId, t2).0 == Good ==> StockStatus(inventory, productId, t1).0 == Good
    ensures StockStatus(inventory, productId, t1).1 == StockStatus(inventory, productId, t2).1
  {
  }

  /** The stored spelling of a log reason. */
  function ReasonName(reason: Reason): string
  {
    match reason
    case Sale => "sale"
    case Restock => "restock"
    case Adjustment => "adjustment"
  }

  const SaleLabel: string := "بيع"
  const RestockLabel: string := "إعادة تعبئة"
  const AdjustmentLabel: string := "تعديل"
  const InitialLabel: string := "رصيد افتتاحي"
  const ReturnLabel: string := "مرتجع"

  /** `getReasonLabel`: the Arabic label of a known reason; any other text
      is shown as it is. */
  function ReasonLabel(reason: string): (r: string)
    ensures !KnownReason(reason) ==> r == reason
    ensures KnownReason(reason) ==> r != reason
  {
    if reason == "sale" then SaleLabel
    else if reason == "restock" then RestockLabel
    else if reason == "adjustment" then AdjustmentLabel
    else if reason == "initial" then InitialLabel
    else if reason == "return" then ReturnLabel
    else reason
  }

  /** The five known reasons. */
  predicate KnownReason(reason: string)
  {
    reason in {"sale", "restock", "adjustment", "initial", "return"}
  }

  /** Distinct known reasons get distinct labels, so the history never
      shows two kinds of entry under one name. */
  lemma ReasonLabelInjective(a: string, b: string)
    requires KnownReason(a) && KnownReason(b) && a != b
    ensures ReasonLabel(a) != ReasonLabel(b)
  {
  }

  /** Every reason an entry can carry is a known one: no log entry is shown
      by its raw stored text. */
  lemma EveryReasonLabelled(reason: Reason)
    ensures KnownReason(ReasonName(reason))
    ensures ReasonLabel(ReasonName(reason)) in {SaleLabel, RestockLabel, AdjustmentLabel}
  {
  }
}
