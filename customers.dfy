/** `CustomerService.search`: the customers whose name, phone or e-mail
    contains the query. */
module Customers {

  import opened Types
  import opened Seqs
  import opened Text
  import opened Catalog

  /** The name and e-mail are compared lower-cased; the phone against the
      query as typed. A customer without an e-mail matches on the other two. */
  predicate Matches(c: Customer, query: string)
    ensures query == [] ==> Matches(c, query)
  {
    ContainsEmpty(c.phone);
    || Contains(ToLower(c.name), ToLower(query))
    || Contains(c.phone, query)
    || (c.email.Some? && Contains(ToLower(c.email.value), ToLower(query)))
  }

  function MatchesQuery(query: string): Customer -> bool
  {
    (c: Customer) => Matches(c, query)
  }

  /** `search(query)` over the customers `getAll` returns, in store order. */
  function Search(all: seq<Customer>, query: string): (r: seq<Customer>)
    ensures forall c :: c in r <==> c in all && Matches(c, query)
    ensures IsSubsequence(r, all)
    ensures forall c :: multiset(r)[c] == if Matches(c, query) then multiset(all)[c] else 0
  {
    FilterIsSubsequence(all, MatchesQuery(query));
    FilterCount(all, MatchesQuery(query));
    Filter(all, MatchesQuery(query))
  }

  /** A customer is found exactly when it is stored and its name, phone or
      e-mail contains the query, and the results keep the store order. */
  lemma SearchFinds(all: seq<Customer>, query: string)
    ensures forall c :: c in Search(all, query) <==>
      && c in all
      && (|| Contains(ToLower(c.name), ToLower(query))
          || Contains(c.phone, query)
          || (c.email.Some? && Contains(ToLower(c.email.value), ToLower(query))))
    ensures IsSubsequence(Search(all, query), all)
  {
    FilterIsSubsequence(all, MatchesQuery(query));
  }

  /** The empty query finds every customer. */
  lemma SearchEmpty(all: seq<Customer>)
    ensures Search(all, "") == all
  {
    forall c | c in all
      ensures Matches(c, "")
    {
      ContainsEmpty(c.phone);
    }
    FilterKeepsAll(all, MatchesQuery(""));
  }

  /** Lower-casing both sides keeps an occurrence where it was. */
  lemma {:induction false} ContainsLower(s: string, q: string)
    requires Contains(s, q)
    ensures Contains(ToLower(s), ToLower(q))
  {
    ContainsAt(s, q);
    var i :| OccursAt(s, q, i);
    assert ToLower(s)[i..i + |q|] == ToLower(q);
    assert OccursAt(ToLower(s), ToLower(q), i);
    ContainsAt(ToLower(s), ToLower(q));
  }

  /** Typing part of a stored name, in any mix of cases of the stored text,
      finds the customer. */
  lemma SearchByName(all: seq<Customer>, c: Customer, query: string)
    requires c in all && Contains(c.name, query)
    ensures c in Search(all, query) && c in Search(all, ToLower(query))
  {
    ContainsLower(c.name, query);
    LowerTwice(query);
  }

  /** Case in the query matters only for the phone: the name and e-mail
      tests give the same answer for the query lower-cased. */
  lemma SearchCaseOnlyForPhone(c: Customer, query: string)
    ensures Matches(c, ToLower(query)) <==>
      || Contains(ToLower(c.name), ToLower(query))
      || Contains(c.phone, ToLower(query))
      || (c.email.Some? && Contains(ToLower(c.email.value), ToLower(query)))
  {
    LowerTwice(query);
  }
}
