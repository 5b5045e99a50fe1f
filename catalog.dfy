/** The product catalogue's naming rule: names are unique once trimmed and
    lower-cased (`ProductService.create` and `ProductService.update`). */
module Catalog {

  import opened Types
  import opened Text

  /** `name.trim().toLowerCase()`. */
  function Normalize(name: string): (r: string)
    ensures |r| <= |name|
    ensures r == [] || (!IsSpace(r[0]) && !IsSpace(r[|r| - 1]))
    ensures forall k :: 0 <= k < |r| ==> !('A' <= r[k] <= 'Z')
  {
    LowerKeepsEnds(Trim(name));
    LowerLeavesNoCapital(Trim(name));
    ToLower(Trim(name))
  }

  /** Lower-casing a text without white space at its ends keeps it so. */
  lemma LowerKeepsEnds(t: string)
    requires t == [] || (!IsSpace(t[0]) && !IsSpace(t[|t| - 1]))
    ensures ToLower(t) == [] || (!IsSpace(ToLower(t)[0]) && !IsSpace(ToLower(t)[|ToLower(t)| - 1]))
  {
    if t != [] {
      LowerCharFacts(t[0]);
      LowerCharFacts(t[|t| - 1]);
    }
  }

  /** Lower-casing leaves no capital letter. */
  lemma LowerLeavesNoCapital(t: string)
    ensures forall k :: 0 <= k < |ToLower(t)| ==> !('A' <= ToLower(t)[k] <= 'Z')
  {
  }

  /** `existing.some(p => p.id !== except && normalized(p.name) === normalized(name))`:
      `except` is the id of the product being edited (None when creating). */
  predicate NameTaken(products: map<nat, Product>, name: string, except: Option<nat>)
  {
    exists id | id in products :: Some(id) != except && Normalize(products[id].name) == Normalize(name)
  }

  /** No two products share a normalized name. */
  ghost predicate UniqueNames(products: map<nat, Product>)
  {
    forall i, j :: i in products && j in products && i != j ==>
      Normalize(products[i].name) != Normalize(products[j].name)
  }

  /** Adding a product whose name is not taken keeps names unique, and a
      product whose name is taken is exactly one that would clash. */
  lemma AddKeepsUnique(products: map<nat, Product>, p: Product)
    requires UniqueNames(products)
    requires p.id !in products
    ensures UniqueNames(products[p.id := p]) <==> !NameTaken(products, p.name, None)
  {
    if NameTaken(products, p.name, None) {
      AddTakenClashes(products, p);
    } else {
      AddFreshUnique(products, p);
    }
  }

  lemma AddTakenClashes(products: map<nat, Product>, p: Product)
    requires p.id !in products && NameTaken(products, p.name, None)
    ensures !UniqueNames(products[p.id := p])
  {
    var after := products[p.id := p];
    var id :| id in products && Normalize(products[id].name) == Normalize(p.name);
    assert id != p.id && after[id] == products[id] && after[p.id] == p;
  }

  lemma AddFreshUnique(products: map<nat, Product>, p: Product)
    requires UniqueNames(products) && !NameTaken(products, p.name, None)
    ensures UniqueNames(products[p.id := p])
  {
    var after := products[p.id := p];
    forall i, j | i in after && j in after && i != j
      ensures Normalize(after[i].name) != Normalize(after[j].name)
    {
      if i == p.id {
        assert j in products && after[j] == products[j];
      } else if j == p.id {
        assert i in products && after[i] == products[i];
      } else {
        assert after[i] == products[i] && after[j] == products[j];
      }
    }
  }

  /** Writing a product under its own id when no other product uses its name
      keeps names unique; this is the guard of `ProductService.update`. */
  lemma {:induction false} PutKeepsUnique(products: map<nat, Product>, p: Product)
    requires UniqueNames(products)
    requires !NameTaken(products, p.name, Some(p.id))
    ensures UniqueNames(products[p.id := p])
  {
    var after := products[p.id := p];
    forall i, j | i in after && j in after && i != j
      ensures Normalize(after[i].name) != Normalize(after[j].name)
    {
      if i == p.id {
        assert j in products && Some(j) != Some(p.id);
      } else if j == p.id {
        assert i in products && Some(i) != Some(p.id);
      } else {
        assert after[i] == products[i] && after[j] == products[j];
      }
    }
  }

  /** In a catalogue with unique names, a product may always keep its own
      name on update: only a different product's name is refused. */
  lemma OwnNameNotTaken(products: map<nat, Product>, id: nat, name: string)
    requires UniqueNames(products)
    requires id in products && Normalize(name) == Normalize(products[id].name)
    ensures !NameTaken(products, name, Some(id))
  {
  }

  /** Names differing only in case or surrounding white space clash. */
  lemma {:induction false} CaseAndSpaceClash(products: map<nat, Product>, id: nat, name: string)
    requires id in products && products[id].name == name
    ensures NameTaken(products, " " + name, None) && NameTaken(products, ToLower(name), None)
  {
    TrimIgnoresLeadingSpace(name);
    LowerIdempotentUnderTrim(name);
  }

  lemma {:induction false} TrimIgnoresLeadingSpace(name: string)
    ensures Trim(" " + name) == Trim(name)
  {
    assert (" " + name)[1..] == name;
  }

  /** Lower-casing first does not change the normalized name. */
  lemma {:induction false} LowerIdempotentUnderTrim(name: string)
    ensures Normalize(ToLower(name)) == Normalize(name)
  {
    TrimStartLower(name);
    TrimEndLower(TrimStart(name));
    LowerTwice(Trim(name));
  }

  /** Lower-casing neither creates nor removes white space, and is idempotent. */
  lemma LowerCharFacts(c: char)
    ensures IsSpace(LowerChar(c)) == IsSpace(c)
    ensures LowerChar(LowerChar(c)) == LowerChar(c)
  {
  }

  lemma {:induction false} LowerTwice(s: string)
    ensures ToLower(ToLower(s)) == ToLower(s)
  {
    forall i | 0 <= i < |s|
      ensures ToLower(ToLower(s))[i] == ToLower(s)[i]
    {
      LowerCharFacts(s[i]);
    }
  }

  lemma {:induction false} TrimStartLower(s: string)
    ensures TrimStart(ToLower(s)) == ToLower(TrimStart(s))
    decreases |s|
  {
    if |s| > 0 {
      var t := ToLower(s);
      LowerCharFacts(s[0]);
      assert t[0] == LowerChar(s[0]);
      if IsSpace(s[0]) {
        assert t[1..] == ToLower(s[1..]);
        TrimStartLower(s[1..]);
      }
    }
  }

  lemma {:induction false} TrimEndLower(s: string)
    ensures TrimEnd(ToLower(s)) == ToLower(TrimEnd(s))
    decreases |s|
  {
    if |s| > 0 {
      var t := ToLower(s);
      LowerCharFacts(s[|s| - 1]);
      assert t[|s| - 1] == LowerChar(s[|s| - 1]);
      if IsSpace(s[|s| - 1]) {
        assert t[..|s| - 1] == ToLower(s[..|s| - 1]);
        TrimEndLower(s[..|s| - 1]);
        assert TrimEnd(t) == TrimEnd(t[..|t| - 1]);
        assert TrimEnd(s) == TrimEnd(s[..|s| - 1]);
      } else {
        assert TrimEnd(t) == t;
        assert TrimEnd(s) == s;
      }
    }
  }
}
