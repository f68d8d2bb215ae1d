/** Concrete walk-throughs of the sales page on small catalogs and carts. */
module Scenarios {
  import opened Catalog
  import opened CartEngine
  import opened Receipts

  const Drinks: string := "drinks"
  const Food: string := "food"

  const A := Product(1, "A", 50, Drinks)
  const B := Product(2, "B", 35, Drinks)
  const C := Product(3, "C", 45, Food)

  /** Adding A once and B twice gives two lines, B with quantity two, and a
      total of 120. */
  lemma AddScenario()
    ensures AddToCart(AddToCart(AddToCart([], A), B), B) == [Item(A, 1), Item(B, 2)]
    ensures Total([Item(A, 1), Item(B, 2)]) == 120
  {
    assert AddToCart([], A) == [Item(A, 1)];
    assert AddToCart([Item(A, 1)], B) == [Item(A, 1), Item(B, 1)];
    var cart := [Item(A, 1), Item(B, 2)];
    assert cart[..1] == [Item(A, 1)];
    assert [Item(A, 1)][..0] == [];
    assert Total([Item(A, 1)]) == 50;
    assert cart[1].LineTotal() == 70;
  }

  /** A decrement that would drive B to -3 is refused: nothing changes. */
  lemma RefusedDecrementScenario()
    ensures UpdateQuantity([Item(A, 1), Item(B, 2)], 2, -5) == [Item(A, 1), Item(B, 2)]
  {
  }

  /** Removing A leaves B alone, and the total drops to 70. */
  lemma RemoveScenario()
    ensures RemoveFromCart([Item(A, 1), Item(B, 2)], 1) == [Item(B, 2)]
    ensures Total([Item(B, 2)]) == 70
  {
  }

  /** An empty cart prints an empty receipt with a zero total. */
  lemma EmptyReceiptScenario()
    ensures BuildReceipt([]) == Receipt([], 0)
  {
  }

  /** Tabs follow first appearance and list each category once: a catalog
      of drinks, food, drinks gives the tabs `all`, drinks, food. */
  lemma CategoryScenario()
    ensures Categories([A, C, B]) == [All, Drinks, Food]
  {
    var column := CategoryColumn([A, C, B]);
    assert column == [Drinks, Food, Drinks];
    assert column[..2][..1] == column[..1] == [Drinks];
    assert column[..3] == column;
    assert Distinct(column[..1]) == [Drinks];
    assert Distinct(column[..2]) == [Drinks, Food];
  }

  /** On the same catalog the food tab shows only C and the `all` tab shows
      everything. */
  lemma FilterScenario()
    ensures FilterProducts([A, C, B], Food) == [C]
    ensures FilterProducts([A, C, B], All) == [A, C, B]
  {
    assert [A, C, B][1..] == [C, B] && [C, B][1..] == [B] && [B][1..] == [];
    assert OfCategory([B], Food) == [];
    assert OfCategory([C, B], Food) == [C];
  }
}
