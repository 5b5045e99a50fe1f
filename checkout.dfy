/** `handleCheckout` of `src/components/POSSystem.tsx`: the guards, the
    pre-flight stock check, the receipt, and the commit loop that writes one
    receipt item per cart line and sells the product lines' stock. */
module Checkout {

  import opened Types
  import Cart
  import L = Ledger
  import opened Store

  /** A product line the stock cannot cover: no inventory record, or fewer
      units than the line's quantity. Service lines are never short. */
  predicate Short(inventory: map<nat, InventoryRecord>, line: CartLine)
    ensures line.kind == ServiceItem ==> !Short(inventory, line)
  {
    line.kind == ProductItem && (line.id !in inventory || inventory[line.id].quantity < line.quantity)
  }

  /** The pre-flight loop: the name of the first short line, if any. */
  function FirstShort(inventory: map<nat, InventoryRecord>, cart: seq<CartLine>): (r: Option<string>)
    ensures r.None? <==> forall i :: 0 <= i < |cart| ==> !Short(inventory, cart[i])
    ensures r.Some? ==> exists i :: 0 <= i < |cart| && Short(inventory, cart[i]) && cart[i].name == r.value
  {
    if cart == [] then None
    else if Short(inventory, cart[0]) then Some(cart[0].name)
    else
      var r := FirstShort(inventory, cart[1..]);
      assert forall i :: 1 <= i < |cart| ==> cart[i] == cart[1..][i - 1];
      r
  }

  /** The receipt item written for a cart line. */
  function ItemFor(receiptId: nat, line: CartLine, id: nat): ReceiptItem
  {
    ReceiptItem(id, receiptId, line.kind, line.id, line.name, line.quantity, line.price, Cart.LineTotal(line))
  }

  /** One item per cart line, in cart order, under consecutive keys. */
  function ItemsFor(receiptId: nat, cart: seq<CartLine>, firstId: nat): (r: seq<ReceiptItem>)
    ensures |r| == |cart|
  {
    if cart == [] then [] else [ItemFor(receiptId, cart[0], firstId)] + ItemsFor(receiptId, cart[1..], firstId + 1)
  }

  /** Item `i` records line `i` of the cart: its type, id, name and quantity,
      `unit_price` = the cart price and `line_total` = price × quantity. */
  lemma {:induction false} ItemsForAt(receiptId: nat, cart: seq<CartLine>, firstId: nat, i: nat)
    requires i < |cart|
    ensures ItemsFor(receiptId, cart, firstId)[i] == ItemFor(receiptId, cart[i], firstId + i)
    ensures ItemsFor(receiptId, cart, firstId)[i].unitPrice == cart[i].price
    ensures ItemsFor(receiptId, cart, firstId)[i].lineTotal == cart[i].price * cart[i].quantity
    decreases i
  {
    if i > 0 {
      ItemsForAt(receiptId, cart[1..], firstId + 1, i - 1);
    }
  }

  /** The sale entry logged for a product line; none for a service line. */
  function SaleLog(receiptId: nat, line: CartLine, id: nat, now: Timestamp): (r: seq<InventoryLog>)
    ensures |r| == if line.kind == ProductItem then 1 else 0
  {
    if line.kind == ProductItem then [InventoryLog(id, line.id, -line.quantity, Sale, Some(receiptId), None, now)]
    else []
  }

  /** The sale entries logged for the product lines, in cart order, under
      consecutive keys. */
  function SaleLogs(receiptId: nat, cart: seq<CartLine>, firstId: nat, now: Timestamp): seq<InventoryLog>
  {
    if cart == [] then []
    else
      var head := SaleLog(receiptId, cart[0], firstId, now);
      head + SaleLogs(receiptId, cart[1..], firstId + |head|, now)
  }

  lemma SaleLogsCons(receiptId: nat, cart: seq<CartLine>, firstId: nat, now: Timestamp)
    requires cart != []
    ensures SaleLogs(receiptId, cart, firstId, now) ==
      SaleLog(receiptId, cart[0], firstId, now)
        + SaleLogs(receiptId, cart[1..], firstId + |SaleLog(receiptId, cart[0], firstId, now)|, now)
  {
  }

  /** The units of product `p` the cart sells. */
  function Sold(cart: seq<CartLine>, p: nat): int
  {
    if cart == [] then 0 else Units(cart[0], p) + Sold(cart[1..], p)
  }

  /** The units of product `p` one line sells. */
  function Units(line: CartLine, p: nat): int
  {
    if line.kind == ProductItem && line.id == p then line.quantity else 0
  }

  /** The stores the commit loop writes: the ledger and the receipt items. */
  datatype Books = Books(ledger: L.Ledger, items: seq<ReceiptItem>, nextItemId: nat)

  /** The stock side of one cart line: `adjustInventory(id, -quantity, 'sale',
      receiptId)` for a product line, nothing for a service line. */
  function SellLine(l: L.Ledger, receiptId: nat, line: CartLine, now: Timestamp): (r: (Outcome, L.Ledger))
    ensures line.kind == ServiceItem ==> r == (Done, l)
    ensures r.0.Failed? ==> r.1 == l
  {
    if line.kind == ProductItem then L.Adjust(l, line.id, -line.quantity, Sale, Some(receiptId), None, now)
    else (Done, l)
  }

  /** The commit loop, line by line: the receipt item, then the line's sale.
      A failing adjustment ends the loop; what was written before it stays. */
  function Commit(b: Books, receiptId: nat, cart: seq<CartLine>, now: Timestamp): (r: (Books, Outcome))
    ensures |b.items| < |r.0.items| <= |b.items| + |cart| || (cart == [] && r.0 == b)
    decreases |cart|
  {
    if cart == [] then (b, Done)
    else
      var b1 := b.(items := b.items + [ItemFor(receiptId, cart[0], b.nextItemId)], nextItemId := b.nextItemId + 1);
      var (o, ledger) := SellLine(b1.ledger, receiptId, cart[0], now);
      if o.Failed? then (b1.(ledger := ledger), o)
      else Commit(b1.(ledger := ledger), receiptId, cart[1..], now)
  }

  /** The commit loop keeps the ledger valid however far it gets. */
  lemma {:induction false} CommitKeepsValid(b: Books, receiptId: nat, cart: seq<CartLine>, now: Timestamp)
    requires L.Valid(b.ledger)
    ensures L.Valid(Commit(b, receiptId, cart, now).0.ledger)
    decreases |cart|
  {
    if cart != [] {
      var b1 := b.(items := b.items + [ItemFor(receiptId, cart[0], b.nextItemId)], nextItemId := b.nextItemId + 1);
      var (o, ledger) := SellLine(b1.ledger, receiptId, cart[0], now);
      SellLineKeepsValid(b1.ledger, receiptId, cart[0], now);
      if !o.Failed? {
        CommitKeepsValid(b1.(ledger := ledger), receiptId, cart[1..], now);
      }
    }
  }

  /** One line's sale keeps the ledger valid, whether or not it goes through. */
  lemma SellLineKeepsValid(l: L.Ledger, receiptId: nat, line: CartLine, now: Timestamp)
    requires L.Valid(l)
    ensures L.Valid(SellLine(l, receiptId, line, now).1)
  {
    if line.kind == ProductItem {
      L.AdjustKeepsValid(l, line.id, -line.quantity, Sale, Some(receiptId), None, now);
    }
  }

  /** Every line of `cart` can be covered by the stock in `inventory`. */
  ghost predicate Covered(inventory: map<nat, InventoryRecord>, cart: seq<CartLine>)
  {
    forall i :: 0 <= i < |cart| ==> !Short(inventory, cart[i])
  }

  /** A line's sale that goes through lowers only its own product's stock,
      by its quantity, and logs one sale entry for a product line. */
  lemma SellLineDone(l: L.Ledger, receiptId: nat, line: CartLine, now: Timestamp)
    requires SellLine(l, receiptId, line, now).0 == Done
    ensures var after := SellLine(l, receiptId, line, now).1;
      && after.inventory.Keys == l.inventory.Keys
      && (forall p :: p in l.inventory ==> after.inventory[p].quantity == l.inventory[p].quantity - Units(line, p))
      && after.logs == l.logs + SaleLog(receiptId, line, l.nextLogId, now)
      && after.nextLogId == l.nextLogId + |SaleLog(receiptId, line, l.nextLogId, now)|
  {
    if line.kind == ProductItem {
      L.AdjustDone(l, line.id, -line.quantity, Sale, Some(receiptId), None, now);
    }
  }

  /** Selling a covered line goes through, and leaves the lines of every
      other product covered. */
  lemma SellLineCovered(l: L.Ledger, receiptId: nat, line: CartLine, rest: seq<CartLine>, now: Timestamp)
    requires !Short(l.inventory, line) && Covered(l.inventory, rest)
    requires forall i :: 0 <= i < |rest| ==> Cart.Key(rest[i]) != Cart.Key(line)
    ensures SellLine(l, receiptId, line, now).0 == Done
    ensures Covered(SellLine(l, receiptId, line, now).1.inventory, rest)
  {
    if line.kind == ProductItem {
      L.AdjustDone(l, line.id, -line.quantity, Sale, Some(receiptId), None, now);
    }
  }

  lemma TailUnique(cart: seq<CartLine>)
    requires Cart.UniqueKeys(cart) && cart != []
    ensures Cart.UniqueKeys(cart[1..])
    ensures forall i :: 0 <= i < |cart[1..]| ==> Cart.Key(cart[1..][i]) != Cart.Key(cart[0])
  {
    forall i, j | 0 <= i < j < |cart[1..]|
      ensures Cart.Key(cart[1..][i]) != Cart.Key(cart[1..][j])
    {
      assert Cart.Key(cart[i + 1]) != Cart.Key(cart[j + 1]);
    }
    forall i | 0 <= i < |cart[1..]|
      ensures Cart.Key(cart[1..][i]) != Cart.Key(cart[0])
    {
      assert Cart.Key(cart[0]) != Cart.Key(cart[i + 1]);
    }
  }

  /** The state after the first line of the commit loop. */
  function Step(b: Books, receiptId: nat, line: CartLine, now: Timestamp): Books
  {
    var b1 := b.(items := b.items + [ItemFor(receiptId, line, b.nextItemId)], nextItemId := b.nextItemId + 1);
    b1.(ledger := SellLine(b1.ledger, receiptId, line, now).1)
  }

  lemma CommitUnfold(b: Books, receiptId: nat, cart: seq<CartLine>, now: Timestamp)
    requires cart != []
    ensures SellLine(b.ledger, receiptId, cart[0], now).0.Failed? ==>
              Commit(b, receiptId, cart, now) == (Step(b, receiptId, cart[0], now), SellLine(b.ledger, receiptId, cart[0], now).0)
    ensures SellLine(b.ledger, receiptId, cart[0], now).0 == Done ==>
              Commit(b, receiptId, cart, now) == Commit(Step(b, receiptId, cart[0], now), receiptId, cart[1..], now)
  {
  }

  /** With one line per `(type, id)` and a passing pre-flight check, every
      adjustment of the commit loop succeeds: the receipt gets one item per
      line in cart order, each product's stock drops by exactly the units
      sold (service lines touch no stock), and one sale entry per product
      line is logged. */
  lemma CommitSucceeds(b: Books, receiptId: nat, cart: seq<CartLine>, now: Timestamp)
    requires Cart.UniqueKeys(cart)
    requires FirstShort(b.ledger.inventory, cart).None?
    ensures var (after, outcome) := Commit(b, receiptId, cart, now);
      && outcome == Done
      && after.items == b.items + ItemsFor(receiptId, cart, b.nextItemId)
      && after.nextItemId == b.nextItemId + |cart|
      && after.ledger.inventory.Keys == b.ledger.inventory.Keys
      && (forall p :: p in b.ledger.inventory ==>
            after.ledger.inventory[p].quantity == b.ledger.inventory[p].quantity - Sold(cart, p))
      && after.ledger.logs == b.ledger.logs + SaleLogs(receiptId, cart, b.ledger.nextLogId, now)
  {
    CommitCoveredDone(b, receiptId, cart, now);
    CommitItems(b, receiptId, cart, now);
    CommitStock(b, receiptId, cart, now);
    CommitLogs(b, receiptId, cart, now);
  }

  /** A covered cart with unique keys commits without a failed adjustment. */
  lemma {:induction false} CommitCoveredDone(b: Books, receiptId: nat, cart: seq<CartLine>, now: Timestamp)
    requires Cart.UniqueKeys(cart)
    requires Covered(b.ledger.inventory, cart)
    ensures Commit(b, receiptId, cart, now).1 == Done
    decreases |cart|
  {
    if cart != [] {
      var rest := cart[1..];
      TailUnique(cart);
      assert Covered(b.ledger.inventory, rest) by {
        forall i | 0 <= i < |rest|
          ensures !Short(b.ledger.inventory, rest[i])
        {
          assert rest[i] == cart[i + 1];
        }
      }
      SellLineCovered(b.ledger, receiptId, cart[0], rest, now);
      CommitUnfold(b, receiptId, cart, now);
      CommitCoveredDone(Step(b, receiptId, cart[0], now), receiptId, rest, now);
    }
  }

  /** A commit that goes through writes one item per line, in cart order. */
  lemma {:induction false} CommitItems(b: Books, receiptId: nat, cart: seq<CartLine>, now: Timestamp)
    requires Commit(b, receiptId, cart, now).1 == Done
    ensures Commit(b, receiptId, cart, now).0.items == b.items + ItemsFor(receiptId, cart, b.nextItemId)
    ensures Commit(b, receiptId, cart, now).0.nextItemId == b.nextItemId + |cart|
    decreases |cart|
  {
    if cart == [] {
      assert b.items + [] == b.items;
    } else {
      CommitUnfold(b, receiptId, cart, now);
      var s := Step(b, receiptId, cart[0], now);
      var x := ItemFor(receiptId, cart[0], b.nextItemId);
      assert s.items == b.items + [x] && s.nextItemId == b.nextItemId + 1;
      CommitItems(s, receiptId, cart[1..], now);
      var rest := ItemsFor(receiptId, cart[1..], b.nextItemId + 1);
      assert ItemsFor(receiptId, cart, b.nextItemId) == [x] + rest;
      assert (b.items + [x]) + rest == b.items + ([x] + rest);
    }
  }

  /** A commit that goes through lowers each product's stock by the units
      the cart sells, and only that. */
  lemma {:induction false} CommitStock(b: Books, receiptId: nat, cart: seq<CartLine>, now: Timestamp)
    requires Commit(b, receiptId, cart, now).1 == Done
    ensures var after := Commit(b, receiptId, cart, now).0;
      && after.ledger.inventory.Keys == b.ledger.inventory.Keys
      && (forall p :: p in b.ledger.inventory ==>
            after.ledger.inventory[p].quantity == b.ledger.inventory[p].quantity - Sold(cart, p))
    decreases |cart|
  {
    if cart != [] {
      CommitUnfold(b, receiptId, cart, now);
      SellLineDone(b.ledger, receiptId, cart[0], now);
      CommitStock(Step(b, receiptId, cart[0], now), receiptId, cart[1..], now);
    }
  }

  /** A commit that goes through logs one sale entry per product line, in
      cart order, under consecutive keys. */
  lemma {:induction false} CommitLogs(b: Books, receiptId: nat, cart: seq<CartLine>, now: Timestamp)
    requires Commit(b, receiptId, cart, now).1 == Done
    ensures Commit(b, receiptId, cart, now).0.ledger.logs == b.ledger.logs + SaleLogs(receiptId, cart, b.ledger.nextLogId, now)
    decreases |cart|
  {
    if cart == [] {
      assert b.ledger.logs + [] == b.ledger.logs;
    } else {
      var s := Step(b, receiptId, cart[0], now);
      var head := SaleLog(receiptId, cart[0], b.ledger.nextLogId, now);
      var tail := SaleLogs(receiptId, cart[1..], b.ledger.nextLogId + |head|, now);
      assert SellLine(b.ledger, receiptId, cart[0], now).0 == Done
          && Commit(b, receiptId, cart, now) == Commit(s, receiptId, cart[1..], now) by {
        CommitUnfold(b, receiptId, cart, now);
      }
      assert s.ledger.logs == b.ledger.logs + head && s.ledger.nextLogId == b.ledger.nextLogId + |head| by {
        SellLineDone(b.ledger, receiptId, cart[0], now);
      }
      calc {
        Commit(b, receiptId, cart, now).0.ledger.logs;
        Commit(s, receiptId, cart[1..], now).0.ledger.logs;
        { CommitLogs(s, receiptId, cart[1..], now); }
        (b.ledger.logs + head) + tail;
        b.ledger.logs + (head + tail);
        { SaleLogsCons(receiptId, cart, b.ledger.nextLogId, now); }
        b.ledger.logs + SaleLogs(receiptId, cart, b.ledger.nextLogId, now);
      }
    }
  }

  /** The subtotal on the receipt is the sum of its items' line totals. */
  lemma {:induction false} SubtotalIsItemTotals(receiptId: nat, cart: seq<CartLine>, firstId: nat)
    ensures Cart.Subtotal(cart) == SumLineTotals(ItemsFor(receiptId, cart, firstId))
    decreases |cart|
  {
    if cart != [] {
      SubtotalIsItemTotals(receiptId, cart[1..], firstId + 1);
      Cart.SubtotalAppend([cart[0]], cart[1..]);
      Cart.SubtotalSingle(cart[0]);
      assert cart == [cart[0]] + cart[1..];
    }
  }

  function SumLineTotals(items: seq<ReceiptItem>): Money
  {
    if items == [] then 0 else items[0].lineTotal + SumLineTotals(items[1..])
  }

  /** What `handleCheckout` ends with. */
  datatype CheckoutResult =
    | NoCustomer
    | EmptyCart
    | Shortage(name: string)
    | CommitFailed(error: Error)
    | Paid(receiptId: nat)

  /** The checkout screen's state: the selected customer (0 for none), the
      cart, the tip field (None when empty or not a number), and the receipt
      dialog. */
  class PointOfSale {
    const db: Db
    var selectedCustomer: nat
    var cart: seq<CartLine>
    var tip: Option<Money>
    var showReceipt: bool
    var lastReceiptId: nat

    constructor (db: Db)
      ensures this.db == db
      ensures selectedCustomer == 0 && cart == [] && tip == None && !showReceipt && lastReceiptId == 0
    {
      this.db := db;
      selectedCustomer, cart, tip := 0, [], None;
      showReceipt, lastReceiptId := false, 0;
    }

    method AddToCart(kind: ItemKind, id: nat, name: string, price: Money)
      modifies this
      ensures cart == Cart.AddToCart(old(cart), kind, id, name, price)
      ensures Cart.WellFormed(old(cart)) ==> Cart.WellFormed(cart)
      ensures selectedCustomer == old(selectedCustomer) && tip == old(tip)
      ensures showReceipt == old(showReceipt) && lastReceiptId == old(lastReceiptId)
    {
      if Cart.WellFormed(cart) {
        Cart.AddKeepsWellFormed(cart, kind, id, name, price);
      }
      cart := Cart.AddToCart(cart, kind, id, name, price);
    }

    method UpdateQuantity(kind: ItemKind, id: nat, quantity: int)
      modifies this
      ensures cart == Cart.UpdateQuantity(old(cart), kind, id, quantity)
      ensures Cart.WellFormed(old(cart)) ==> Cart.WellFormed(cart)
      ensures selectedCustomer == old(selectedCustomer) && tip == old(tip)
      ensures showReceipt == old(showReceipt) && lastReceiptId == old(lastReceiptId)
    {
      if Cart.WellFormed(cart) {
        Cart.UpdateKeepsWellFormed(cart, kind, id, quantity);
      }
      cart := Cart.UpdateQuantity(cart, kind, id, quantity);
    }

    method RemoveFromCart(kind: ItemKind, id: nat)
      modifies this
      ensures cart == Cart.RemoveFromCart(old(cart), kind, id)
      ensures Cart.WellFormed(old(cart)) ==> Cart.WellFormed(cart)
      ensures selectedCustomer == old(selectedCustomer) && tip == old(tip)
      ensures showReceipt == old(showReceipt) && lastReceiptId == old(lastReceiptId)
    {
      if Cart.WellFormed(cart) {
        Cart.RemoveKeepsWellFormed(cart, kind, id);
      }
      cart := Cart.RemoveFromCart(cart, kind, id);
    }

    /** `handleCheckout`. The guards and the pre-flight check return before
        any write; after the receipt, each write stands on its own, so a
        failing adjustment leaves the receipt and the items before it. */
    method HandleCheckout(now: Timestamp) returns (r: CheckoutResult)
      requires db.Valid()
      modifies this, db
      ensures db.Valid()
      ensures old(selectedCustomer) == 0 ==> r == NoCustomer && unchanged(this, db)
      ensures old(selectedCustomer) != 0 && old(cart) == [] ==> r == EmptyCart && unchanged(this, db)
      ensures old(selectedCustomer) != 0 && old(cart) != [] && FirstShort(old(db.inventory), old(cart)).Some? ==>
        r == Shortage(FirstShort(old(db.inventory), old(cart)).value) && unchanged(this, db)
      ensures old(selectedCustomer) != 0 && old(cart) != [] && FirstShort(old(db.inventory), old(cart)).None? ==>
        var receiptId := old(db.nextReceiptId);
        var (books, outcome) := Commit(Books(old(db.LedgerOf()), old(db.receiptItems), old(db.nextReceiptItemId)),
                                       receiptId, old(cart), now);
        && db.receipts == old(db.receipts) + [Receipt(receiptId, old(selectedCustomer), None, now,
                                                      Cart.Subtotal(old(cart)), Cart.TipAmount(old(tip)),
                                                      Cart.Total(old(cart), old(tip)), now)]
        && BooksOf(db) == books
        && db.nextReceiptId == receiptId + 1
        && (outcome == Done ==>
              && r == Paid(receiptId) && lastReceiptId == receiptId && showReceipt
              && cart == [] && tip == None && selectedCustomer == 0)
        && (outcome.Failed? ==>
              && r == CommitFailed(outcome.error)
              && cart == old(cart) && tip == old(tip) && selectedCustomer == old(selectedCustomer)
              && showReceipt == old(showReceipt) && lastReceiptId == old(lastReceiptId))
      ensures db.products == old(db.products) && db.appointments == old(db.appointments) && db.links == old(db.links)
      ensures db.nextProductId == old(db.nextProductId) && db.nextAppointmentId == old(db.nextAppointmentId)
      ensures db.nextLinkId == old(db.nextLinkId)
    {
      if selectedCustomer == 0 {
        return NoCustomer;
      }
      if |cart| == 0 {
        return EmptyCart;
      }
      var subtotal := Cart.Subtotal(cart);
      var tipAmount := Cart.TipAmount(tip);
      var total := subtotal + tipAmount;
      var short := Preflight();
      if short.Some? {
        return Shortage(short.value);
      }
      var receiptId := db.CreateReceipt(selectedCustomer, None, now, subtotal, tipAmount, total, now);
      var outcome := CommitLines(receiptId, now);
      if outcome.Failed? {
        return CommitFailed(outcome.error);
      }
      lastReceiptId := receiptId;
      showReceipt := true;
      cart := [];
      tip := None;
      selectedCustomer := 0;
      r := Paid(receiptId);
    }

    /** The pre-flight loop: every product line must be covered by its stock. */
    method Preflight() returns (short: Option<string>)
      ensures short == FirstShort(db.inventory, cart)
    {
      var i := 0;
      while i < |cart|
        invariant 0 <= i <= |cart|
        invariant FirstShort(db.inventory, cart) == FirstShort(db.inventory, cart[i..])
      {
        var line := cart[i];
        assert cart[i..][1..] == cart[i + 1..];
        if line.kind == ProductItem {
          var inventory := db.GetInventory(line.id);
          if inventory.None? || inventory.value.quantity < line.quantity {
            return Some(line.name);
          }
        }
        i := i + 1;
      }
      return None;
    }

    /** The commit loop: one item per line, and the sale of each product line;
        the first failing adjustment ends it. */
    method CommitLines(receiptId: nat, now: Timestamp) returns (outcome: Outcome)
      requires db.Valid()
      modifies db
      ensures db.Valid()
      ensures (BooksOf(db), outcome) == Commit(old(BooksOf(db)), receiptId, cart, now)
      ensures db.receipts == old(db.receipts) && db.products == old(db.products)
      ensures db.appointments == old(db.appointments) && db.links == old(db.links)
      ensures db.nextProductId == old(db.nextProductId) && db.nextReceiptId == old(db.nextReceiptId)
      ensures db.nextAppointmentId == old(db.nextAppointmentId) && db.nextLinkId == old(db.nextLinkId)
    {
      var i := 0;
      while i < |cart|
        invariant 0 <= i <= |cart|
        invariant db.Valid()
        invariant Commit(old(BooksOf(db)), receiptId, cart, now) == Commit(BooksOf(db), receiptId, cart[i..], now)
        invariant db.receipts == old(db.receipts) && db.products == old(db.products)
        invariant db.appointments == old(db.appointments) && db.links == old(db.links)
        invariant db.nextProductId == old(db.nextProductId) && db.nextReceiptId == old(db.nextReceiptId)
        invariant db.nextAppointmentId == old(db.nextAppointmentId) && db.nextLinkId == old(db.nextLinkId)
      {
        var line := cart[i];
        assert cart[i..][1..] == cart[i + 1..];
        ghost var before := BooksOf(db);
        var _ := db.CreateReceiptItem(receiptId, line.kind, line.id, line.name, line.quantity,
                                      line.price, Cart.LineTotal(line));
        outcome := Done;
        if line.kind == ProductItem {
          outcome := db.AdjustInventory(line.id, -line.quantity, Sale, Some(receiptId), None, now);
        }
        assert (outcome, BooksOf(db).ledger) == SellLine(before.ledger, receiptId, line, now);
        assert BooksOf(db) == Step(before, receiptId, line, now);
        CommitUnfold(before, receiptId, cart[i..], now);
        if outcome.Failed? {
          return;
        }
        i := i + 1;
      }
      outcome := Done;
    }
  }

  /** The ledger and receipt-item stores of the database as one value. */
  function BooksOf(db: Db): Books
    reads db
  {
    Books(db.LedgerOf(), db.receiptItems, db.nextReceiptItemId)
  }
}
