/** The point-of-sale cart of `src/components/POSSystem.tsx`: a list of
    `(type, id, name, price, quantity)` lines, rebuilt by each operation. */
module Cart {

  import opened Types
  import opened Seqs

  /** The line's `(type, id)` key. */
  function Key(line: CartLine): (ItemKind, nat)
  {
    (line.kind, line.id)
  }

  /** The test `item.type === type && item.id === id`. */
  predicate Matches(line: CartLine, kind: ItemKind, id: nat)
  {
    line.kind == kind && line.id == id
  }

  /** At most one line per `(type, id)`. */
  ghost predicate UniqueKeys(cart: seq<CartLine>)
  {
    forall i, j :: 0 <= i < j < |cart| ==> Key(cart[i]) != Key(cart[j])
  }

  /** The cart invariant the three operations keep. */
  ghost predicate WellFormed(cart: seq<CartLine>)
  {
    UniqueKeys(cart) && forall i :: 0 <= i < |cart| ==> cart[i].quantity >= 1
  }

  /** `cart.find(c => c.type === type && c.id === id)`: the first matching line. */
  function Find(cart: seq<CartLine>, kind: ItemKind, id: nat): (r: Option<nat>)
    ensures r.None? <==> forall i :: 0 <= i < |cart| ==> !Matches(cart[i], kind, id)
    ensures r.Some? ==> r.value < |cart| && Matches(cart[r.value], kind, id)
    ensures r.Some? ==> forall i :: 0 <= i < r.value ==> !Matches(cart[i], kind, id)
  {
    if cart == [] then None
    else if Matches(cart[0], kind, id) then Some(0)
    else match Find(cart[1..], kind, id)
      case None => None
      case Some(i) => Some(i + 1)
  }

  /** `removeFromCart`: `cart.filter(item => !(item.type === type && item.id === id))`. */
  function RemoveFromCart(cart: seq<CartLine>, kind: ItemKind, id: nat): (r: seq<CartLine>)
    ensures forall line :: line in r <==> line in cart && !Matches(line, kind, id)
    ensures IsSubsequence(r, cart)
  {
    FilterIsSubsequence(cart, Other(kind, id));
    Filter(cart, Other(kind, id))
  }

  function Other(kind: ItemKind, id: nat): CartLine -> bool
  {
    (line: CartLine) => !Matches(line, kind, id)
  }

  /** The `cart.map` branch of `updateQuantity`. */
  function SetQuantity(cart: seq<CartLine>, kind: ItemKind, id: nat, quantity: int): (r: seq<CartLine>)
    ensures |r| == |cart|
    ensures forall i :: 0 <= i < |cart| ==> Key(r[i]) == Key(cart[i])
    ensures forall i :: 0 <= i < |cart| && Matches(cart[i], kind, id) ==> r[i] == cart[i].(quantity := quantity)
    ensures forall i :: 0 <= i < |cart| && !Matches(cart[i], kind, id) ==> r[i] == cart[i]
  {
    seq(|cart|, i requires 0 <= i < |cart| =>
      if Matches(cart[i], kind, id) then cart[i].(quantity := quantity) else cart[i])
  }

  /** `updateQuantity`: a quantity of zero or less removes the line. */
  function UpdateQuantity(cart: seq<CartLine>, kind: ItemKind, id: nat, quantity: int): (r: seq<CartLine>)
    ensures quantity <= 0 ==> forall line :: line in r <==> line in cart && !Matches(line, kind, id)
    ensures quantity > 0 ==> |r| == |cart|
    ensures quantity > 0 ==> forall i :: 0 <= i < |cart| ==>
      r[i] == if Matches(cart[i], kind, id) then cart[i].(quantity := quantity) else cart[i]
  {
    if quantity <= 0 then RemoveFromCart(cart, kind, id) else SetQuantity(cart, kind, id, quantity)
  }

  /** `addToCart`: bumps an existing line through `updateQuantity`, or appends
      a line with quantity 1 and the item's current name and price. */
  function AddToCart(cart: seq<CartLine>, kind: ItemKind, id: nat, name: string, price: Money): (r: seq<CartLine>)
    ensures Find(cart, kind, id).None? ==> r == cart + [CartLine(kind, id, name, price, 1)]
    ensures Find(cart, kind, id).Some? && cart[Find(cart, kind, id).value].quantity >= 0 ==>
      && |r| == |cart|
      && forall i :: 0 <= i < |cart| ==> r[i].name == cart[i].name && r[i].price == cart[i].price
  {
    match Find(cart, kind, id)
    case Some(i) => UpdateQuantity(cart, kind, id, cart[i].quantity + 1)
    case None => cart + [CartLine(kind, id, name, price, 1)]
  }

  /** `calculateSubtotal`: the sum of `price * quantity`, folded from the left. */
  function Subtotal(cart: seq<CartLine>): (r: Money)
    ensures (forall i :: 0 <= i < |cart| ==> LineTotal(cart[i]) >= 0) ==> r >= 0
  {
    if cart == [] then 0 else Subtotal(cart[..|cart| - 1]) + LineTotal(cart[|cart| - 1])
  }

  function LineTotal(line: CartLine): Money
  {
    line.price * line.quantity
  }

  /** `parseFloat(tip) || 0`: an empty or unparseable tip field counts as 0;
      the sign is never checked. */
  function TipAmount(tip: Option<Money>): (r: Money)
    ensures tip.None? ==> r == 0
    ensures tip.Some? ==> r == tip.value
  {
    if tip.Some? then tip.value else 0
  }

  /** `calculateTotal`. */
  function Total(cart: seq<CartLine>, tip: Option<Money>): (r: Money)
    ensures tip.None? ==> r == Subtotal(cart)
    ensures tip.Some? ==> r == Subtotal(cart) + tip.value
    ensures tip.Some? && tip.value < 0 ==> r < Subtotal(cart)
  {
    Subtotal(cart) + TipAmount(tip)
  }

  // ----- What the operations do -----

  /** On a cart with unique keys, setting a positive quantity changes only
      the matching line, and only its quantity. */
  lemma UpdateQuantityAt(cart: seq<CartLine>, i: nat, quantity: int)
    requires UniqueKeys(cart) && i < |cart| && quantity > 0
    ensures UpdateQuantity(cart, cart[i].kind, cart[i].id, quantity) == cart[i := cart[i].(quantity := quantity)]
  {
    var r := UpdateQuantity(cart, cart[i].kind, cart[i].id, quantity);
    forall j | 0 <= j < |cart|
      ensures r[j] == cart[i := cart[i].(quantity := quantity)][j]
    {
      if j != i {
        assert Key(cart[i]) != Key(cart[j]) by {
          if j < i { assert Key(cart[j]) != Key(cart[i]); }
        }
      }
    }
  }

  /** A quantity of zero or less drops exactly the line's key. */
  lemma UpdateQuantityRemoves(cart: seq<CartLine>, kind: ItemKind, id: nat, quantity: int)
    requires quantity <= 0
    ensures forall line :: line in UpdateQuantity(cart, kind, id, quantity) <==> line in cart && !Matches(line, kind, id)
  {
  }

  /** On a cart with unique keys, removing the line at `i` leaves the lines
      before and after it, in order. */
  lemma {:induction false} RemoveAt(cart: seq<CartLine>, i: nat)
    requires UniqueKeys(cart) && i < |cart|
    ensures RemoveFromCart(cart, cart[i].kind, cart[i].id) == cart[..i] + cart[i + 1..]
  {
    OthersKept(cart, i);
    assert cart == cart[..i] + [cart[i]] + cart[i + 1..];
    FilterDropsOne(cart[..i], cart[i], cart[i + 1..], Other(cart[i].kind, cart[i].id));
  }

  /** Every line but the `i`-th has another key. */
  lemma OthersKept(cart: seq<CartLine>, i: nat)
    requires UniqueKeys(cart) && i < |cart|
    ensures forall line :: line in cart[..i] ==> Other(cart[i].kind, cart[i].id)(line)
    ensures forall line :: line in cart[i + 1..] ==> Other(cart[i].kind, cart[i].id)(line)
  {
    forall line | line in cart[..i]
      ensures !Matches(line, cart[i].kind, cart[i].id)
    {
      var j :| 0 <= j < i && cart[j] == line;
      assert Key(cart[j]) != Key(cart[i]);
    }
    forall line | line in cart[i + 1..]
      ensures !Matches(line, cart[i].kind, cart[i].id)
    {
      var j :| i < j < |cart| && cart[j] == line;
      assert Key(cart[i]) != Key(cart[j]);
    }
  }

  /** In a cart with unique keys, a key names one line. */
  lemma SameKeySameLine(cart: seq<CartLine>, a: nat, b: nat)
    requires UniqueKeys(cart) && a < |cart| && b < |cart| && Key(cart[a]) == Key(cart[b])
    ensures a == b
  {
  }

  /** Adding an item already in the cart raises that line's quantity by one
      and keeps its name and price; the other lines stay as they were. */
  lemma AddExisting(cart: seq<CartLine>, i: nat, name: string, price: Money)
    requires WellFormed(cart) && i < |cart|
    ensures AddToCart(cart, cart[i].kind, cart[i].id, name, price) == cart[i := cart[i].(quantity := cart[i].quantity + 1)]
  {
    var f := Find(cart, cart[i].kind, cart[i].id);
    assert Matches(cart[i], cart[i].kind, cart[i].id);
    SameKeySameLine(cart, f.value, i);
    UpdateQuantityAt(cart, i, cart[i].quantity + 1);
  }

  /** Adding an item not in the cart appends one line with quantity 1 and
      the item's current name and price. */
  lemma AddNew(cart: seq<CartLine>, kind: ItemKind, id: nat, name: string, price: Money)
    requires forall i :: 0 <= i < |cart| ==> !Matches(cart[i], kind, id)
    ensures AddToCart(cart, kind, id, name, price) == cart + [CartLine(kind, id, name, price, 1)]
  {
  }

  // ----- The cart invariant -----

  lemma {:induction false} AddKeepsWellFormed(cart: seq<CartLine>, kind: ItemKind, id: nat, name: string, price: Money)
    requires WellFormed(cart)
    ensures WellFormed(AddToCart(cart, kind, id, name, price))
  {
    match Find(cart, kind, id)
    case Some(i) =>
      AddExisting(cart, i, name, price);
    case None =>
      var r := cart + [CartLine(kind, id, name, price, 1)];
      forall i, j | 0 <= i < j < |r|
        ensures Key(r[i]) != Key(r[j])
      {
        if j == |cart| {
          assert !Matches(cart[i], kind, id);
        } else {
          assert Key(cart[i]) != Key(cart[j]);
        }
      }
  }

  /** Removing lines keeps the keys unique and the quantities positive. */
  lemma {:induction false} RemoveKeepsWellFormed(cart: seq<CartLine>, kind: ItemKind, id: nat)
    requires WellFormed(cart)
    ensures WellFormed(RemoveFromCart(cart, kind, id))
    decreases |cart|
  {
    if cart != [] {
      TailWellFormed(cart);
      RemoveKeepsWellFormed(cart[1..], kind, id);
      if !Matches(cart[0], kind, id) {
        var rest := RemoveFromCart(cart[1..], kind, id);
        assert RemoveFromCart(cart, kind, id) == [cart[0]] + rest;
        HeadKeyFresh(cart);
        ConsWellFormed(cart[0], rest);
      }
    }
  }

  lemma TailWellFormed(cart: seq<CartLine>)
    requires WellFormed(cart) && cart != []
    ensures WellFormed(cart[1..])
  {
    forall i, j | 0 <= i < j < |cart[1..]|
      ensures Key(cart[1..][i]) != Key(cart[1..][j])
    {
      assert Key(cart[i + 1]) != Key(cart[j + 1]);
    }
  }

  /** No later line shares the first line's key. */
  lemma HeadKeyFresh(cart: seq<CartLine>)
    requires UniqueKeys(cart) && cart != []
    ensures forall line :: line in cart[1..] ==> Key(line) != Key(cart[0])
  {
    forall line | line in cart[1..]
      ensures Key(line) != Key(cart[0])
    {
      var k :| 1 <= k < |cart| && cart[k] == line;
      assert Key(cart[0]) != Key(cart[k]);
    }
  }

  lemma ConsWellFormed(x: CartLine, rest: seq<CartLine>)
    requires WellFormed(rest) && x.quantity >= 1
    requires forall line :: line in rest ==> Key(line) != Key(x)
    ensures WellFormed([x] + rest)
  {
    var r := [x] + rest;
    forall i, j | 0 <= i < j < |r|
      ensures Key(r[i]) != Key(r[j])
    {
      assert r[j] == rest[j - 1];
      if i > 0 { assert r[i] == rest[i - 1]; }
    }
    forall i | 0 <= i < |r|
      ensures r[i].quantity >= 1
    {
      if i > 0 { assert r[i] == rest[i - 1]; }
    }
  }

  lemma UpdateKeepsWellFormed(cart: seq<CartLine>, kind: ItemKind, id: nat, quantity: int)
    requires WellFormed(cart)
    ensures WellFormed(UpdateQuantity(cart, kind, id, quantity))
  {
    if quantity <= 0 {
      RemoveKeepsWellFormed(cart, kind, id);
    } else {
      var r := SetQuantity(cart, kind, id, quantity);
      assert forall i, j :: 0 <= i < j < |r| ==> Key(r[i]) == Key(cart[i]) && Key(r[j]) == Key(cart[j]);
    }
  }

  // ----- Subtotal and total -----

  lemma {:induction false} SubtotalAppend(a: seq<CartLine>, b: seq<CartLine>)
    ensures Subtotal(a + b) == Subtotal(a) + Subtotal(b)
    decreases |b|
  {
    if b == [] {
      assert a + b == a;
    } else {
      assert (a + b)[..|a + b| - 1] == a + b[..|b| - 1];
      SubtotalAppend(a, b[..|b| - 1]);
    }
  }

  lemma SubtotalSingle(line: CartLine)
    ensures Subtotal([line]) == LineTotal(line)
  {
    assert [line][..0] == [];
  }

  /** Changing one line's quantity moves the subtotal by that line's price
      times the change. */
  lemma SubtotalUpdateAt(cart: seq<CartLine>, i: nat, quantity: int)
    requires i < |cart|
    ensures Subtotal(cart[i := cart[i].(quantity := quantity)])
            == Subtotal(cart) + cart[i].price * (quantity - cart[i].quantity)
  {
    SubtotalReplaceAt(cart, i, cart[i].(quantity := quantity));
    LineTotalChange(cart[i], quantity);
  }

  /** Replacing one line replaces its total in the subtotal. */
  lemma {:induction false} SubtotalReplaceAt(cart: seq<CartLine>, i: nat, y: CartLine)
    requires i < |cart|
    ensures Subtotal(cart[i := y]) == Subtotal(cart) - LineTotal(cart[i]) + LineTotal(y)
  {
    assert cart == cart[..i] + [cart[i]] + cart[i + 1..];
    assert cart[i := y] == cart[..i] + [y] + cart[i + 1..];
    SubtotalSplit(cart[..i], cart[i], cart[i + 1..]);
    SubtotalSplit(cart[..i], y, cart[i + 1..]);
  }

  lemma LineTotalChange(line: CartLine, quantity: int)
    ensures LineTotal(line.(quantity := quantity)) == LineTotal(line) + line.price * (quantity - line.quantity)
  {
  }

  lemma LineTotalBump(line: CartLine)
    ensures LineTotal(line.(quantity := line.quantity + 1)) == LineTotal(line) + line.price
  {
  }

  /** The subtotal of a cart is that of the cart without one line plus the
      line's total. */
  lemma {:induction false} SubtotalSplit(a: seq<CartLine>, x: CartLine, b: seq<CartLine>)
    ensures Subtotal(a + [x] + b) == Subtotal(a + b) + LineTotal(x)
  {
    SubtotalAppend(a + [x], b);
    SubtotalAppend(a, [x]);
    SubtotalAppend(a, b);
    SubtotalSingle(x);
  }

  /** Adding an item raises the subtotal by one unit of the line's price: the
      price already in the cart for an existing line, the item's current price
      for a new one. */
  lemma AddRaisesSubtotal(cart: seq<CartLine>, kind: ItemKind, id: nat, name: string, price: Money)
    requires WellFormed(cart)
    ensures var f := Find(cart, kind, id);
      Subtotal(AddToCart(cart, kind, id, name, price)) == Subtotal(cart) + (if f.Some? then cart[f.value].price else price)
  {
    var f := Find(cart, kind, id);
    if f.Some? {
      AddExistingSubtotal(cart, f.value, name, price);
    } else {
      var line := CartLine(kind, id, name, price, 1);
      SubtotalAppend(cart, [line]);
      SubtotalSingle(line);
    }
  }

  lemma AddExistingSubtotal(cart: seq<CartLine>, i: nat, name: string, price: Money)
    requires WellFormed(cart) && i < |cart|
    ensures Subtotal(AddToCart(cart, cart[i].kind, cart[i].id, name, price)) == Subtotal(cart) + cart[i].price
  {
    AddExisting(cart, i, name, price);
    SubtotalBumpAt(cart, i);
  }

  lemma SubtotalBumpAt(cart: seq<CartLine>, i: nat)
    requires i < |cart|
    ensures Subtotal(cart[i := cart[i].(quantity := cart[i].quantity + 1)]) == Subtotal(cart) + cart[i].price
  {
    SubtotalReplaceAt(cart, i, cart[i].(quantity := cart[i].quantity + 1));
    LineTotalBump(cart[i]);
  }

  /** Removing a line lowers the subtotal by that line's total. */
  lemma RemoveLowersSubtotal(cart: seq<CartLine>, i: nat)
    requires UniqueKeys(cart) && i < |cart|
    ensures Subtotal(RemoveFromCart(cart, cart[i].kind, cart[i].id)) == Subtotal(cart) - LineTotal(cart[i])
  {
    RemoveAt(cart, i);
    SubtotalWithout(cart, i);
  }

  lemma {:induction false} SubtotalWithout(cart: seq<CartLine>, i: nat)
    requires i < |cart|
    ensures Subtotal(cart[..i] + cart[i + 1..]) == Subtotal(cart) - LineTotal(cart[i])
  {
    assert cart == cart[..i] + [cart[i]] + cart[i + 1..];
    SubtotalSplit(cart[..i], cart[i], cart[i + 1..]);
  }
}
