/** The inventory ledger: the `inventory` store (one record per product,
    through the unique `product_id` index) and the append-only
    `inventory_logs` store, with the two operations that write them. */
module Ledger {

  import opened Types
  import opened Seqs

  /** The two stores `adjustInventory`'s transaction spans, with their key
      generators. `inventory` is keyed by product id. */
  datatype Ledger = Ledger(
    inventory: map<nat, InventoryRecord>, nextInventoryId: nat,
    logs: seq<InventoryLog>, nextLogId: nat)

  const Empty := Ledger(map[], 1, [], 1)

  /** `InventoryLogService.getByProductId`: the product's log entries, in
      store order. */
  function LogsFor(logs: seq<InventoryLog>, productId: nat): (r: seq<InventoryLog>)
    ensures forall e :: e in r <==> e in logs && e.productId == productId
    ensures IsSubsequence(r, logs)
  {
    FilterIsSubsequence(logs, OfProduct(productId));
    Filter(logs, OfProduct(productId))
  }

  /** The index lookup keeps every copy of the product's entries and nothing else. */
  lemma LogsForCount(logs: seq<InventoryLog>, productId: nat)
    ensures forall e :: multiset(LogsFor(logs, productId))[e] == if e.productId == productId then multiset(logs)[e] else 0
  {
    FilterCount(logs, OfProduct(productId));
  }

  /** The test of the `product_id` index. */
  function OfProduct(productId: nat): InventoryLog -> bool
  {
    (e: InventoryLog) => e.productId == productId
  }

  /** The sum of the change amounts of some log entries. */
  function SumChanges(logs: seq<InventoryLog>): int
  {
    if logs == [] then 0 else SumChanges(logs[..|logs| - 1]) + logs[|logs| - 1].change
  }

  /** The index on `product_id` agrees with the records it points at. */
  ghost predicate WellKeyed(l: Ledger)
  {
    forall p :: p in l.inventory ==> l.inventory[p].productId == p
  }

  /** No stock level is negative. */
  ghost predicate NonNegative(l: Ledger)
  {
    forall p :: p in l.inventory ==> l.inventory[p].quantity >= 0
  }

  /** Every log entry belongs to a product that has an inventory record. */
  ghost predicate LogsKnown(l: Ledger)
  {
    forall i :: 0 <= i < |l.logs| ==> l.logs[i].productId in l.inventory
  }

  /** Each stock level is the sum of its product's logged changes. */
  ghost predicate Balanced(l: Ledger)
  {
    forall p {:trigger LogsFor(l.logs, p)} :: p in l.inventory ==> l.inventory[p].quantity == SumChanges(LogsFor(l.logs, p))
  }

  ghost predicate Valid(l: Ledger)
  {
    WellKeyed(l) && NonNegative(l) && LogsKnown(l) && Balanced(l)
  }

  /** `InventoryService.create`: adds a record for the product; the unique
      `product_id` index rejects a second record for the same product. */
  function Create(l: Ledger, productId: nat, quantity: int, now: Timestamp): (r: (Result<nat>, Ledger))
    ensures productId in l.inventory <==> r.0.Err?
    ensures r.0.Err? ==> r.0.error == ConstraintError && r.1 == l
    ensures r.0.Ok? ==>
      && r.0.value == l.nextInventoryId
      && r.1.inventory == l.inventory[productId := InventoryRecord(l.nextInventoryId, productId, quantity, now)]
      && r.1.nextInventoryId > l.nextInventoryId
      && r.1.logs == l.logs && r.1.nextLogId == l.nextLogId
  {
    if productId in l.inventory then (Err(ConstraintError), l)
    else
      var id := l.nextInventoryId;
      (Ok(id), l.(inventory := l.inventory[productId := InventoryRecord(id, productId, quantity, now)],
                  nextInventoryId := id + 1))
  }

  /** The log entry `adjustInventory` appends. */
  function Entry(l: Ledger, productId: nat, change: int, reason: Reason, receiptId: Option<nat>,
                 notes: Option<string>, now: Timestamp): InventoryLog
  {
    InventoryLog(l.nextLogId, productId, change, reason, receiptId, notes, now)
  }

  /** `InventoryService.adjustInventory`: one transaction over both stores.
      A missing record and a change that would make the quantity negative
      are rejected with nothing written; otherwise the quantity moves by
      exactly `change` and exactly one entry is logged. */
  function Adjust(l: Ledger, productId: nat, change: int, reason: Reason, receiptId: Option<nat>,
                  notes: Option<string>, now: Timestamp): (r: (Outcome, Ledger))
    ensures productId !in l.inventory ==> r == (Failed(NotFound), l)
    ensures productId in l.inventory && l.inventory[productId].quantity + change < 0 ==>
              r == (Failed(InsufficientStock), l)
    ensures r.0 == Done <==> productId in l.inventory && l.inventory[productId].quantity + change >= 0
    ensures r.0 == Done ==>
      && r.1.inventory.Keys == l.inventory.Keys
      && r.1.inventory[productId].quantity == l.inventory[productId].quantity + change
      && r.1.inventory[productId].id == l.inventory[productId].id
      && r.1.inventory[productId].productId == l.inventory[productId].productId
      && (forall p :: p in l.inventory && p != productId ==> r.1.inventory[p] == l.inventory[p])
      && r.1.logs == l.logs + [Entry(l, productId, change, reason, receiptId, notes, now)]
      && r.1.nextInventoryId == l.nextInventoryId
  {
    if productId !in l.inventory then (Failed(NotFound), l)
    else
      var record := l.inventory[productId];
      var newQuantity := record.quantity + change;
      if newQuantity < 0 then (Failed(InsufficientStock), l)
      else
        var after := l.(inventory := l.inventory[productId := record.(quantity := newQuantity, updatedAt := now)],
                        logs := l.logs + [Entry(l, productId, change, reason, receiptId, notes, now)],
                        nextLogId := l.nextLogId + 1);
        (Done, after)
  }

  /** The state a successful adjustment leaves, field by field. */
  lemma AdjustDone(l: Ledger, productId: nat, change: int, reason: Reason, receiptId: Option<nat>,
                   notes: Option<string>, now: Timestamp)
    requires productId in l.inventory && l.inventory[productId].quantity + change >= 0
    ensures Adjust(l, productId, change, reason, receiptId, notes, now) ==
      (Done, l.(inventory := l.inventory[productId := l.inventory[productId].(
                               quantity := l.inventory[productId].quantity + change, updatedAt := now)],
                logs := l.logs + [Entry(l, productId, change, reason, receiptId, notes, now)],
                nextLogId := l.nextLogId + 1))
  {
  }

  /** Appending one entry adds it to its own product's history only. */
  lemma {:induction false} LogsForAppend(logs: seq<InventoryLog>, e: InventoryLog, p: nat)
    ensures LogsFor(logs + [e], p) == LogsFor(logs, p) + (if e.productId == p then [e] else [])
  {
    FilterAppend(logs, [e], OfProduct(p));
  }

  /** The sum over a concatenation is the sum of the sums. */
  lemma {:induction false} SumChangesAppend(a: seq<InventoryLog>, b: seq<InventoryLog>)
    ensures SumChanges(a + b) == SumChanges(a) + SumChanges(b)
    decreases |b|
  {
    if b != [] {
      SumChangesAppend(a, b[..|b| - 1]);
      assert (a + b)[..|a + b| - 1] == a + b[..|b| - 1];
    } else {
      assert a + b == a;
    }
  }

  /** `adjustInventory` keeps every stock level equal to its log sum,
      whether it succeeds or fails. */
  lemma {:induction false} AdjustKeepsBalance(l: Ledger, productId: nat, change: int, reason: Reason,
                                              receiptId: Option<nat>, notes: Option<string>, now: Timestamp)
    requires Balanced(l)
    ensures Balanced(Adjust(l, productId, change, reason, receiptId, notes, now).1)
  {
    var r := Adjust(l, productId, change, reason, receiptId, notes, now);
    if r.0 == Done {
      var e := Entry(l, productId, change, reason, receiptId, notes, now);
      forall p | p in r.1.inventory
        ensures r.1.inventory[p].quantity == SumChanges(LogsFor(r.1.logs, p))
      {
        LogsForAppend(l.logs, e, p);
        SumChangesAppend(LogsFor(l.logs, p), if e.productId == p then [e] else []);
      }
    }
  }

  /** Seeding a new product at quantity 0 keeps the ledger valid. */
  lemma {:induction false} CreateZeroKeepsValid(l: Ledger, productId: nat, now: Timestamp)
    requires Valid(l)
    ensures Valid(Create(l, productId, 0, now).1)
  {
    var r := Create(l, productId, 0, now);
    if r.0.Ok? {
      FilterNone(l.logs, OfProduct(productId));
      assert forall p :: p in r.1.inventory && p != productId ==> r.1.inventory[p] == l.inventory[p];
    }
  }

  /** `adjustInventory` keeps the whole ledger valid. */
  lemma AdjustKeepsValid(l: Ledger, productId: nat, change: int, reason: Reason,
                         receiptId: Option<nat>, notes: Option<string>, now: Timestamp)
    requires Valid(l)
    ensures Valid(Adjust(l, productId, change, reason, receiptId, notes, now).1)
  {
    AdjustKeepsShape(l, productId, change, reason, receiptId, notes, now);
    AdjustKeepsBalance(l, productId, change, reason, receiptId, notes, now);
  }

  /** An adjustment keeps the key index, non-negative stock and logs that
      name known products. */
  lemma AdjustKeepsShape(l: Ledger, productId: nat, change: int, reason: Reason,
                         receiptId: Option<nat>, notes: Option<string>, now: Timestamp)
    ensures WellKeyed(l) ==> WellKeyed(Adjust(l, productId, change, reason, receiptId, notes, now).1)
    ensures NonNegative(l) ==> NonNegative(Adjust(l, productId, change, reason, receiptId, notes, now).1)
    ensures LogsKnown(l) ==> LogsKnown(Adjust(l, productId, change, reason, receiptId, notes, now).1)
  {
    var after := Adjust(l, productId, change, reason, receiptId, notes, now).1;
    if after != l {
      assert forall i :: 0 <= i < |l.logs| ==> after.logs[i] == l.logs[i];
    }
  }

  /** The calls that write the ledger: the product-creation seed and adjustments. */
  datatype Call =
    | SeedCall(productId: nat, now: Timestamp)
    | AdjustCall(productId: nat, change: int, reason: Reason, receiptId: Option<nat>,
                 notes: Option<string>, now: Timestamp)

  /** Runs the calls in order; a failing call leaves the ledger as it was. */
  function Run(l: Ledger, calls: seq<Call>): (r: Ledger)
    ensures l.logs <= r.logs
    ensures l.inventory.Keys <= r.inventory.Keys
    decreases |calls|
  {
    if calls == [] then l
    else
      var c := calls[0];
      var next := match c
        case SeedCall(p, now) => Create(l, p, 0, now).1
        case AdjustCall(p, change, reason, rid, notes, now) => Adjust(l, p, change, reason, rid, notes, now).1;
      Run(next, calls[1..])
  }

  /** Under any sequence of seeds and adjustments from the empty stores, every
      quantity is non-negative and equals the sum of its product's logged changes. */
  lemma {:induction false} RunKeepsValid(l: Ledger, calls: seq<Call>)
    requires Valid(l)
    ensures Valid(Run(l, calls))
    ensures forall p :: p in Run(l, calls).inventory ==>
              Run(l, calls).inventory[p].quantity == SumChanges(LogsFor(Run(l, calls).logs, p)) >= 0
    decreases |calls|
  {
    if calls != [] {
      match calls[0]
      case SeedCall(p, now) =>
        CreateZeroKeepsValid(l, p, now);
        RunKeepsValid(Create(l, p, 0, now).1, calls[1..]);
      case AdjustCall(p, change, reason, rid, notes, now) =>
        AdjustKeepsValid(l, p, change, reason, rid, notes, now);
        RunKeepsValid(Adjust(l, p, change, reason, rid, notes, now).1, calls[1..]);
    }
  }

  lemma EmptyIsValid()
    ensures Valid(Empty)
  {
  }
}
