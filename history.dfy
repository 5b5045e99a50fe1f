/** The receipt history: receipts newest first, narrowed by a search over
    the receipt number and the customer's name and phone. */
module History {

  import opened Types
  import opened Seqs
  import opened Text

  function TimestampOf(r: Receipt): int
  {
    r.timestamp
  }

  /** `new Map(customers.map(c => [c.id, c]))`: each customer under its id,
      a later customer replacing an earlier one with the same id. */
  function CustomersById(customers: seq<Customer>): (r: map<nat, Customer>)
    ensures forall c :: c in customers ==> c.id in r
    ensures forall id :: id in r ==> r[id] in customers && r[id].id == id
  {
    if customers == [] then map[]
    else
      var last := customers[|customers| - 1];
      CustomersById(customers[..|customers| - 1])[last.id := last]
  }

  /** The filter of `filteredReceipts`: the empty query keeps everything;
      otherwise the receipt number contains the query, or the receipt's
      customer is known and the lower-cased name contains the lower-cased
      query or the phone contains the query as typed. */
  predicate Shown(r: Receipt, customers: map<nat, Customer>, query: string)
    ensures query == "" ==> Shown(r, customers, query)
    ensures Contains(NatToString(r.id), query) ==> Shown(r, customers, query)
  {
    if query == "" then true
    else
      || Contains(NatToString(r.id), query)
      || (r.customerId in customers && Contains(ToLower(customers[r.customerId].name), ToLower(query)))
      || (r.customerId in customers && Contains(customers[r.customerId].phone, query))
  }

  function ShownFor(customers: map<nat, Customer>, query: string): Receipt -> bool
  {
    (r: Receipt) => Shown(r, customers, query)
  }

  /** The list on screen: `loadData`'s newest-first sort, then the filter. */
  function Visible(receipts: seq<Receipt>, customers: map<nat, Customer>, query: string): (r: seq<Receipt>)
    ensures SortedDesc(r, TimestampOf)
    ensures IsSubsequence(r, SortDesc(receipts, TimestampOf))
  {
    SortDescSorted(receipts, TimestampOf);
    FilterSortedDesc(SortDesc(receipts, TimestampOf), ShownFor(customers, query), TimestampOf);
    FilterIsSubsequence(SortDesc(receipts, TimestampOf), ShownFor(customers, query));
    Filter(SortDesc(receipts, TimestampOf), ShownFor(customers, query))
  }

  /** The visible receipts are exactly the stored ones the filter accepts,
      newest first, in the order of the sorted list. */
  lemma VisibleContents(receipts: seq<Receipt>, customers: map<nat, Customer>, query: string)
    ensures forall r :: r in Visible(receipts, customers, query) <==> r in receipts && Shown(r, customers, query)
  {
    var sorted := SortDesc(receipts, TimestampOf);
    forall r
      ensures r in sorted <==> r in receipts
    {
      assert r in sorted <==> r in multiset(sorted);
    }
  }

  /** Without a query every receipt is listed, each once, newest first. */
  lemma VisibleEmptyQuery(receipts: seq<Receipt>, customers: map<nat, Customer>)
    ensures multiset(Visible(receipts, customers, "")) == multiset(receipts)
    ensures SortedDesc(Visible(receipts, customers, ""), TimestampOf)
  {
    SortDescSorted(receipts, TimestampOf);
    FilterKeepsAll(SortDesc(receipts, TimestampOf), ShownFor(customers, ""));
  }

  /** A receipt whose customer is not known is found by its number only. */
  lemma UnknownCustomerById(r: Receipt, customers: map<nat, Customer>, query: string)
    requires r.customerId !in customers
    ensures Shown(r, customers, query) <==> query == "" || Contains(NatToString(r.id), query)
  {
  }

  /** Typing a receipt's full number lists it. */
  lemma FoundByNumber(receipts: seq<Receipt>, customers: map<nat, Customer>, r: Receipt)
    requires r in receipts
    ensures r in Visible(receipts, customers, NatToString(r.id))
  {
    assert IsPrefix(NatToString(r.id), NatToString(r.id));
    VisibleContents(receipts, customers, NatToString(r.id));
  }
}
