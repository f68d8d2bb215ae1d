/** The order engine of the sales page: the cart is an ordered sequence of
    line items, and adding, removing and re-counting a line are pure
    functions from the old cart to the new one. */
module CartEngine {
  import opened Catalog
  import opened Sequences

  /** A line of the cart: the product as captured when it was first added,
      and how many of it are ordered. */
  datatype Item = Item(product: Product, quantity: int) {
    function Id(): int { product.id }

    /** `price * quantity` (see `TimesIsProduct`). */
    function LineTotal(): int { Times(product.price, quantity) }
  }

  /** `a * n` as repeated addition. Sums of line totals then stay linear for
      the solver; `TimesIsProduct` ties it back to multiplication. */
  function Times(a: int, n: int): int
    decreases if n < 0 then -n else n
  {
    if n == 0 then 0
    else if n > 0 then Times(a, n - 1) + a
    else Times(a, n + 1) - a
  }

  lemma {:induction false} TimesIsProduct(a: int, n: int)
    ensures Times(a, n) == a * n
    decreases if n < 0 then -n else n
  {
    if n > 0 {
      TimesIsProduct(a, n - 1);
    } else if n < 0 {
      TimesIsProduct(a, n + 1);
    }
  }

  /** Adding `d` to the quantity adds `a * d` to the line total. */
  lemma TimesShift(a: int, n: int, d: int)
    ensures Times(a, n + d) == Times(a, n) + a * d
  {
    TimesIsProduct(a, n + d);
    TimesIsProduct(a, n);
    Distributes(a, n, d);
  }

  lemma Distributes(a: int, n: int, d: int)
    ensures a * (n + d) == a * n + a * d
  {
  }

  type Cart = seq<Item>

  datatype Option<T> = None | Some(value: T)

  predicate HasId(cart: Cart, id: int) {
    exists i :: 0 <= i < |cart| && cart[i].Id() == id
  }

  /** At most one line per product id. */
  predicate UniqueIds(cart: Cart) {
    forall i, j :: 0 <= i < j < |cart| ==> cart[i].Id() != cart[j].Id()
  }

  /** No line is ever stored with a quantity below one. */
  predicate PositiveQuantities(cart: Cart) {
    forall i :: 0 <= i < |cart| ==> cart[i].quantity >= 1
  }

  /** The invariant every cart built by the page keeps. */
  predicate Valid(cart: Cart) {
    UniqueIds(cart) && PositiveQuantities(cart)
  }

  /** The first line carrying product id `id`, if any. */
  function Find(cart: Cart, id: int): (r: Option<Item>)
    ensures r.None? <==> !HasId(cart, id)
    ensures r.Some? ==> exists k :: 0 <= k < |cart| && cart[k] == r.value && r.value.Id() == id
                          && forall j :: 0 <= j < k ==> cart[j].Id() != id
  {
    if |cart| == 0 then None
    else if cart[0].Id() == id then Some(cart[0])
    else
      var r := Find(cart[1..], id);
      assert HasId(cart[1..], id) ==> HasId(cart, id);
      assert HasId(cart, id) ==> HasId(cart[1..], id) by {
        if HasId(cart, id) {
          var i :| 0 <= i < |cart| && cart[i].Id() == id;
          assert cart[1..][i - 1] == cart[i];
        }
      }
      if r.Some? then
        var k :| 0 <= k < |cart[1..]| && cart[1..][k] == r.value && r.value.Id() == id
                 && forall j :: 0 <= j < k ==> cart[1..][j].Id() != id;
        assert cart[k + 1] == r.value;
        assert forall j :: 0 <= j < k + 1 ==> cart[j].Id() != id by {
          forall j | 0 <= j < k + 1
            ensures cart[j].Id() != id
          {
            if j > 0 { assert cart[j] == cart[1..][j - 1]; }
          }
        }
        r
      else r
  }

  /** One more of every line with id `id`: the mapping a repeated add performs. */
  function Increment(cart: Cart, id: int): (r: Cart)
    ensures |r| == |cart|
    ensures forall i :: 0 <= i < |cart| ==> r[i].product == cart[i].product
    ensures forall i :: 0 <= i < |cart| && cart[i].Id() == id ==> r[i].quantity == cart[i].quantity + 1
    ensures forall i :: 0 <= i < |cart| && cart[i].Id() != id ==> r[i] == cart[i]
  {
    if |cart| == 0 then []
    else
      var head := if cart[0].Id() == id then cart[0].(quantity := cart[0].quantity + 1) else cart[0];
      [head] + Increment(cart[1..], id)
  }

  /** Adds one of product `p`: an existing line for its id gets one more,
      keeping the product it captured; otherwise a new line with quantity one
      goes at the end. */
  function AddToCart(cart: Cart, p: Product): (r: Cart)
    ensures HasId(r, p.id)
    ensures HasId(cart, p.id) ==> |r| == |cart|
    ensures HasId(cart, p.id) ==> forall i :: 0 <= i < |cart| ==> r[i].product == cart[i].product
    ensures HasId(cart, p.id) ==>
              forall i :: 0 <= i < |cart| && cart[i].Id() == p.id ==> r[i].quantity == cart[i].quantity + 1
    ensures HasId(cart, p.id) ==> forall i :: 0 <= i < |cart| && cart[i].Id() != p.id ==> r[i] == cart[i]
    ensures !HasId(cart, p.id) ==> |r| == |cart| + 1 && r[..|cart|] == cart && r[|cart|] == Item(p, 1)
  {
    match Find(cart, p.id)
    case Some(_) =>
      var r := Increment(cart, p.id);
      assert HasId(r, p.id) by {
        var i :| 0 <= i < |cart| && cart[i].Id() == p.id;
        assert r[i].Id() == p.id;
      }
      r
    case None =>
      var r := cart + [Item(p, 1)];
      assert r[|cart|].Id() == p.id;
      r
  }

  /** Adding keeps the cart invariant: quantities stay positive, and a
      product already present gets no second line. */
  lemma AddPreservesValid(cart: Cart, p: Product)
    ensures PositiveQuantities(cart) ==> PositiveQuantities(AddToCart(cart, p))
    ensures UniqueIds(cart) ==> UniqueIds(AddToCart(cart, p))
  {
    var r := AddToCart(cart, p);
    if !HasId(cart, p.id) && UniqueIds(cart) {
      forall i, j | 0 <= i < j < |r|
        ensures r[i].Id() != r[j].Id()
      {
        assert r[i] == cart[i];
        if j < |cart| { assert r[j] == cart[j]; }
      }
    }
  }

  /** Drops every line with id `id`, keeping the rest. */
  function RemoveFromCart(cart: Cart, id: int): (r: Cart)
    ensures forall i :: 0 <= i < |r| ==> r[i].Id() != id
    ensures !HasId(cart, id) ==> r == cart
    ensures HasId(cart, id) ==> |r| < |cart|
  {
    if |cart| == 0 then []
    else
      var rest := RemoveFromCart(cart[1..], id);
      assert HasId(cart, id) && cart[0].Id() != id ==> HasId(cart[1..], id) by {
        if HasId(cart, id) && cart[0].Id() != id {
          var i :| 0 <= i < |cart| && cart[i].Id() == id;
          assert cart[1..][i - 1] == cart[i];
        }
      }
      if cart[0].Id() == id then
        rest
      else
        assert !HasId(cart, id) ==> [cart[0]] + rest == cart by {
          if !HasId(cart, id) {
            assert forall i :: 0 <= i < |cart[1..]| ==> cart[1..][i] == cart[i + 1];
            assert cart == [cart[0]] + cart[1..];
          }
        }
        [cart[0]] + rest
  }

  /** Removal keeps exactly the lines whose id differs. */
  lemma {:induction false} RemoveKeepsOthers(cart: Cart, id: int)
    ensures forall x :: x in RemoveFromCart(cart, id) <==> x in cart && x.Id() != id
  {
    if |cart| > 0 {
      RemoveKeepsOthers(cart[1..], id);
      assert cart == [cart[0]] + cart[1..];
    }
  }

  /** Removal adds no second line for any id. */
  lemma {:induction false} RemoveKeepsUnique(cart: Cart, id: int)
    requires UniqueIds(cart)
    ensures UniqueIds(RemoveFromCart(cart, id))
  {
    if |cart| > 0 {
      var tail := cart[1..];
      RemoveKeepsUnique(tail, id);
      if cart[0].Id() != id {
        var r := RemoveFromCart(cart, id);
        var rest := RemoveFromCart(tail, id);
        assert r == [cart[0]] + rest;
        RemoveKeepsOthers(tail, id);
        forall j | 1 <= j < |r|
          ensures r[0].Id() != r[j].Id()
        {
          assert rest[j - 1] in rest;
          var m :| 0 <= m < |tail| && tail[m] == r[j];
          assert cart[m + 1] == r[j];
        }
      }
    }
  }

  /** Removal keeps the cart invariant. */
  lemma RemovePreservesValid(cart: Cart, id: int)
    ensures PositiveQuantities(cart) ==> PositiveQuantities(RemoveFromCart(cart, id))
    ensures UniqueIds(cart) ==> UniqueIds(RemoveFromCart(cart, id))
  {
    var r := RemoveFromCart(cart, id);
    RemoveKeepsOthers(cart, id);
    forall i | 0 <= i < |r| ensures r[i] in cart { assert r[i] in r; }
    if UniqueIds(cart) {
      RemoveKeepsUnique(cart, id);
    }
  }

  /** Adds the signed `change` to every line with id `id`, except that a line
      whose new quantity would not be positive keeps its old quantity; no
      line is ever deleted here. */
  function UpdateQuantity(cart: Cart, id: int, change: int): (r: Cart)
    ensures |r| == |cart|
    ensures forall i :: 0 <= i < |cart| ==> r[i].product == cart[i].product
    ensures forall i :: 0 <= i < |cart| && cart[i].Id() == id && cart[i].quantity + change > 0 ==>
              r[i].quantity == cart[i].quantity + change
    ensures forall i :: 0 <= i < |cart| && (cart[i].Id() != id || cart[i].quantity + change <= 0) ==>
              r[i] == cart[i]
  {
    if |cart| == 0 then []
    else
      var item := cart[0];
      var newQuantity := item.quantity + change;
      var head := if item.Id() == id && newQuantity > 0 then item.(quantity := newQuantity) else item;
      [head] + UpdateQuantity(cart[1..], id, change)
  }

  /** Changing the quantity of an id no line carries changes nothing. */
  lemma UpdateAbsent(cart: Cart, id: int, change: int)
    requires !HasId(cart, id)
    ensures UpdateQuantity(cart, id, change) == cart
  {
    var r := UpdateQuantity(cart, id, change);
    assert forall i :: 0 <= i < |cart| ==> r[i] == cart[i];
  }

  /** Changing quantities keeps the cart invariant. */
  lemma UpdatePreservesValid(cart: Cart, id: int, change: int)
    ensures PositiveQuantities(cart) ==> PositiveQuantities(UpdateQuantity(cart, id, change))
    ensures UniqueIds(cart) ==> UniqueIds(UpdateQuantity(cart, id, change))
  {
    var r := UpdateQuantity(cart, id, change);
    assert forall i :: 0 <= i < |r| ==> r[i].Id() == cart[i].Id();
  }

  /** Every operation keeps the cart invariant. */
  lemma OperationsPreserveValid(cart: Cart, p: Product, id: int, change: int)
    requires Valid(cart)
    ensures Valid(AddToCart(cart, p))
    ensures Valid(RemoveFromCart(cart, id))
    ensures Valid(UpdateQuantity(cart, id, change))
  {
    AddPreservesValid(cart, p);
    RemovePreservesValid(cart, id);
    UpdatePreservesValid(cart, id, change);
  }

  /** The cart total as the page computes it: a left-to-right fold of
      `price * quantity` starting from zero. */
  function Total(cart: Cart): (t: int)
    ensures |cart| == 0 ==> t == 0
    ensures |cart| == 1 ==> t == cart[0].LineTotal()
  {
    if |cart| == 0 then 0 else Total(cart[..|cart| - 1]) + cart[|cart| - 1].LineTotal()
  }

  /** The total of a concatenation is the sum of the totals. */
  lemma {:induction false} TotalAppend(a: Cart, b: Cart)
    ensures Total(a + b) == Total(a) + Total(b)
  {
    if |b| == 0 {
      assert a + b == a;
    } else {
      var b' := b[..|b| - 1];
      assert (a + b)[..|a + b| - 1] == a + b';
      TotalAppend(a, b');
    }
  }

  /** Taking line `j` out of a cart lowers its total by that line's total. */
  lemma TotalWithout(b: Cart, j: int)
    requires 0 <= j < |b|
    ensures Total(b) == Total(b[..j] + b[j + 1..]) + b[j].LineTotal()
  {
    var pre, post := b[..j], b[j + 1..];
    SplitAt(b, j);
    TotalAppend(pre + [b[j]], post);
    TotalAppend(pre, [b[j]]);
    TotalAppend(pre, post);
    assert [b[j]][..0] == [];
  }

  /** The total is the sum of the line totals however the lines are ordered:
      it does not depend on the order in which the products were added. */
  lemma {:induction false} TotalPermutation(a: Cart, b: Cart)
    requires multiset(a) == multiset(b)
    ensures Total(a) == Total(b)
  {
    if |a| == 0 {
      assert |b| == |multiset(b)| == 0;
    } else {
      var x := a[|a| - 1];
      assert x in multiset(b) by {
        assert x in multiset(a);
      }
      var j :| 0 <= j < |b| && b[j] == x;
      RemoveMatching(a, b, j);
      TotalPermutation(a[..|a| - 1], b[..j] + b[j + 1..]);
      TotalWithout(b, j);
    }
  }

  /** With prices at or above zero, a cart that keeps the quantity invariant
      never totals below zero. */
  lemma {:induction false} TotalNonNegative(cart: Cart)
    requires forall i :: 0 <= i < |cart| ==> cart[i].product.price >= 0
    requires PositiveQuantities(cart)
    ensures Total(cart) >= 0
  {
    if |cart| > 0 {
      var last := cart[|cart| - 1];
      TotalNonNegative(cart[..|cart| - 1]);
      TimesIsProduct(last.product.price, last.quantity);
    }
  }

  /** Replacing one line changes the total by exactly the difference of that
      line's totals. */
  lemma TotalReplaceOne(a: Cart, b: Cart, k: int)
    requires |a| == |b| && 0 <= k < |a|
    requires forall i :: 0 <= i < |a| && i != k ==> a[i] == b[i]
    ensures Total(b) == Total(a) - a[k].LineTotal() + b[k].LineTotal()
  {
    SplitAt(a, k);
    SplitAt(b, k);
    assert a[..k] == b[..k] && a[k + 1..] == b[k + 1..];
    TotalAppend(a[..k] + [a[k]], a[k + 1..]);
    TotalAppend(a[..k], [a[k]]);
    TotalAppend(b[..k] + [b[k]], b[k + 1..]);
    TotalAppend(b[..k], [b[k]]);
  }


  /** In a cart with unique ids, adding a product already present bumps
      exactly its own line. */
  lemma AddExistingLine(cart: Cart, p: Product, k: int)
    requires UniqueIds(cart) && 0 <= k < |cart| && cart[k].Id() == p.id
    ensures AddToCart(cart, p) == cart[k := cart[k].(quantity := cart[k].quantity + 1)]
  {
    assert HasId(cart, p.id);
    var r := AddToCart(cart, p);
    var b := cart[k := cart[k].(quantity := cart[k].quantity + 1)];
    forall i | 0 <= i < |cart|
      ensures r[i] == b[i]
    {
      if i != k {
        assert cart[i].Id() != p.id;
      }
    }
  }

  /** One more unit on line `k` adds that line's unit price to the total. */
  lemma TotalBumpLine(cart: Cart, k: int)
    requires 0 <= k < |cart|
    ensures Total(cart[k := cart[k].(quantity := cart[k].quantity + 1)]) == Total(cart) + cart[k].product.price
  {
    var x := cart[k];
    var b := cart[k := x.(quantity := x.quantity + 1)];
    assert b[k].LineTotal() == x.LineTotal() + x.product.price by {
      TimesShift(x.product.price, x.quantity, 1);
    }
    TotalReplaceOne(cart, b, k);
  }

  /** Bumping line `k` of a cart with unique ids adds one unit price. */
  lemma TotalAfterIncrement(cart: Cart, p: Product, k: int)
    requires UniqueIds(cart) && 0 <= k < |cart| && cart[k].Id() == p.id
    ensures Total(AddToCart(cart, p)) == Total(cart) + cart[k].product.price
  {
    TotalBumpLine(cart, k);
    AddExistingLine(cart, p, k);
  }

  /** Adding a product raises the total by the unit price of its line: the
      price captured earlier when the line exists, the catalog price when the
      line is new. */
  lemma TotalAfterAdd(cart: Cart, p: Product)
    requires UniqueIds(cart)
    ensures forall k :: 0 <= k < |cart| && cart[k].Id() == p.id ==>
              Total(AddToCart(cart, p)) == Total(cart) + cart[k].product.price
    ensures !HasId(cart, p.id) ==> Total(AddToCart(cart, p)) == Total(cart) + p.price
  {
    forall k | 0 <= k < |cart| && cart[k].Id() == p.id
      ensures Total(AddToCart(cart, p)) == Total(cart) + cart[k].product.price
    {
      TotalAfterIncrement(cart, p, k);
    }
    if !HasId(cart, p.id) {
      assert AddToCart(cart, p) == cart + [Item(p, 1)];
      TotalAppend(cart, [Item(p, 1)]);
      assert [Item(p, 1)][..0] == [];
    }
  }

  /** In a cart with unique ids, removing a line's id removes exactly that
      line and keeps the others in their order. */
  lemma {:induction false} RemoveLine(cart: Cart, k: int)
    requires UniqueIds(cart) && 0 <= k < |cart|
    ensures RemoveFromCart(cart, cart[k].Id()) == cart[..k] + cart[k + 1..]
  {
    if k == 0 {
      RemoveFirstLine(cart);
    } else {
      var id, tail := cart[k].Id(), cart[1..];
      UniqueTail(cart);
      assert tail[k - 1] == cart[k];
      RemoveLine(tail, k - 1);
      RemoveKeepsFirst(cart, id);
      DropShift(cart, k);
    }
  }

  /** Dropping the first line of a cart with unique ids drops only it. */
  lemma RemoveFirstLine(cart: Cart)
    requires UniqueIds(cart) && |cart| > 0
    ensures RemoveFromCart(cart, cart[0].Id()) == cart[1..]
  {
    var id, tail := cart[0].Id(), cart[1..];
    assert forall i :: 0 <= i < |tail| ==> tail[i].Id() != id by {
      assert forall i :: 0 <= i < |tail| ==> tail[i] == cart[i + 1];
    }
    RemoveAbsent(tail, id);
  }

  /** A first line with another id survives removal, at the front. */
  lemma RemoveKeepsFirst(cart: Cart, id: int)
    requires |cart| > 0 && cart[0].Id() != id
    ensures RemoveFromCart(cart, id) == [cart[0]] + RemoveFromCart(cart[1..], id)
  {
  }

  /** The lines after the first of a cart with unique ids have unique ids. */
  lemma UniqueTail(cart: Cart)
    requires UniqueIds(cart) && |cart| > 0
    ensures UniqueIds(cart[1..])
  {
    assert forall i :: 0 <= i < |cart| - 1 ==> cart[1..][i] == cart[i + 1];
  }

  /** Removing an id no line carries changes nothing. */
  lemma RemoveAbsent(cart: Cart, id: int)
    requires forall i :: 0 <= i < |cart| ==> cart[i].Id() != id
    ensures RemoveFromCart(cart, id) == cart
  {
    assert !HasId(cart, id);
  }

  /** Removal distributes over concatenation: it keeps relative order. */
  lemma {:induction false} RemoveAppend(a: Cart, b: Cart, id: int)
    ensures RemoveFromCart(a + b, id) == RemoveFromCart(a, id) + RemoveFromCart(b, id)
  {
    if |a| == 0 {
      assert a + b == b;
    } else {
      assert (a + b)[1..] == a[1..] + b;
      RemoveAppend(a[1..], b, id);
    }
  }

  /** Removing a line lowers the total by exactly that line's total. */
  lemma TotalAfterRemove(cart: Cart, k: int)
    requires UniqueIds(cart) && 0 <= k < |cart|
    ensures Total(RemoveFromCart(cart, cart[k].Id())) == Total(cart) - cart[k].LineTotal()
    ensures Total(RemoveFromCart(cart, cart[k].Id())) == Total(cart) - cart[k].product.price * cart[k].quantity
  {
    TimesIsProduct(cart[k].product.price, cart[k].quantity);
    RemoveLine(cart, k);
    var pre, post := cart[..k], cart[k + 1..];
    SplitAt(cart, k);
    TotalAppend(pre + [cart[k]], post);
    TotalAppend(pre, [cart[k]]);
    TotalAppend(pre, post);
  }

  /** Changing a line's quantity moves the total by price times the change,
      or leaves it alone when the change is refused. */
  lemma TotalAfterUpdate(cart: Cart, k: int, change: int)
    requires UniqueIds(cart) && 0 <= k < |cart|
    ensures Total(UpdateQuantity(cart, cart[k].Id(), change)) ==
            Total(cart) + if cart[k].quantity + change > 0 then cart[k].product.price * change else 0
  {
    var r := UpdateQuantity(cart, cart[k].Id(), change);
    if cart[k].quantity + change > 0 {
      assert r[k] == cart[k].(quantity := cart[k].quantity + change);
      TimesShift(cart[k].product.price, cart[k].quantity, change);
    } else {
      assert r[k] == cart[k];
    }
    TotalReplaceOne(cart, r, k);
  }

  /** A decrement that would take a line to zero or below keeps the cart
      as it is; only removal deletes a line. */
  lemma DecrementNeverDeletes(cart: Cart, k: int, change: int)
    requires UniqueIds(cart) && 0 <= k < |cart|
    requires cart[k].quantity + change <= 0
    ensures UpdateQuantity(cart, cart[k].Id(), change) == cart
  {
    var r := UpdateQuantity(cart, cart[k].Id(), change);
    assert forall i :: 0 <= i < |cart| ==> r[i] == cart[i];
  }

  /** For a product already in a cart that keeps the quantity invariant,
      clicking it in the catalog is the same as pressing the line's plus
      button. */
  lemma AddIsIncrement(cart: Cart, p: Product)
    requires PositiveQuantities(cart) && HasId(cart, p.id)
    ensures AddToCart(cart, p) == UpdateQuantity(cart, p.id, 1)
  {
    var a := AddToCart(cart, p);
    var u := UpdateQuantity(cart, p.id, 1);
    assert forall i :: 0 <= i < |cart| ==> a[i] == u[i];
  }

  /** The cart after adding `p` to `cart` `n` times. */
  function AddTimes(cart: Cart, p: Product, n: nat): Cart {
    if n == 0 then cart else AddToCart(AddTimes(cart, p, n - 1), p)
  }

  /** Re-adding the product of the last line, when no earlier line has its
      id, bumps that last line and nothing else. */
  lemma AddToLast(cart: Cart, p: Product, q: int)
    requires !HasId(cart, p.id)
    ensures AddToCart(cart + [Item(p, q)], p) == cart + [Item(p, q + 1)]
  {
    var c := cart + [Item(p, q)];
    assert c[|cart|].Id() == p.id;
    var r := AddToCart(c, p);
    assert forall i :: 0 <= i < |cart| ==> c[i] == cart[i] && cart[i].Id() != p.id;
    assert r[|cart|] == Item(p, q + 1);
    assert forall i :: 0 <= i < |c| ==> r[i] == (cart + [Item(p, q + 1)])[i];
  }

  /** Adding a product absent from the cart `n` times leaves exactly one new
      line for it, at the end, with quantity `n`. */
  lemma {:induction false} AddRepeatedly(cart: Cart, p: Product, n: nat)
    requires !HasId(cart, p.id) && n >= 1
    ensures AddTimes(cart, p, n) == cart + [Item(p, n)]
  {
    if n > 1 {
      AddRepeatedly(cart, p, n - 1);
      AddToLast(cart, p, n - 1);
    }
  }
}
