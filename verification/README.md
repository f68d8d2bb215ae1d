# Sales page order engine

A Dafny model of the point-of-sale page of the GAPPA shop front (`SalesPage` in
`src/App.tsx`). The page keeps a cart, an ordered list of line items. Each line is
a catalog product plus a quantity. Four operations act on the cart:

- add a product: bump its line, or append a new line with quantity one;
- remove a product: drop its line;
- change a line's quantity by a signed amount: a change that would take the
  quantity to zero or below is refused;
- total the cart: the sum of price times quantity.

The page also derives two views from the catalog: the category tabs (`all`
followed by each category once, in order of first appearance) and the products
shown under the selected tab. The receipt prints one line per cart line (name,
quantity, line total) and the grand total.

Every operation is a pure function from the old cart to the new one. The
modules follow the page's structure:

- `Catalog` (`catalog.dfy`): products, category tabs, category filter.
- `CartEngine` (`cart.dfy`): cart lines, the four operations, the cart
  invariant (one line per product id, every quantity at least one) and the
  lemmas about totals.
- `Receipts` (`receipt.dfy`): the receipt body.
- `Scenarios` (`scenarios.dfy`): small concrete walk-throughs.
- `Sequences` (`sequences.dfy`): single-step facts about sequences used by the
  proofs.

Prices and quantities are mathematical integers, so every sum is exact.

The cart total (`CartEngine.Total`) is the page's left fold of price times
quantity, starting from zero. Beyond its empty and one-line cases it has no
contract of its own. The lemmas that characterise it are `TotalAppend`,
`TotalPermutation` and `Receipts.TotalIsSumOfLines`. A line total is computed as
repeated addition, which `CartEngine.TimesIsProduct` proves equal to price times
quantity.

Three behaviours of the code, kept as written:

- Adding or changing the quantity of an id rewrites every line carrying that id,
  not only the first one, because the code maps over the whole cart. On a cart
  that keeps the invariant there is only one such line.
- A receipt line holds the name, the quantity and the line total; no unit
  price is printed on the receipt.
- A product whose category is literally `all` makes the tab list show `all`
  twice. The model keeps that behaviour and states exactly when the tab list
  has no repeats (`Catalog.CategoriesDistinctIff`).

## Model

| member | source | states |
|---|---|---|
| Catalog.Distinct | src/App.tsx:103 | the distinct categories contain exactly the elements of the input, each once |
| Catalog.DistinctFirstAppearance | src/App.tsx:103 | distinct elements come in the order of their first occurrence in the input, as a JavaScript `Set` enumerates them |
| Catalog.Categories | src/App.tsx:103 | the tab list starts with `all` and has at most one more entry than the catalog has products |
| Catalog.ColumnCoverage | src/App.tsx:103 | every product's category is among the distinct categories, and every distinct category belongs to some product |
| Catalog.CategoriesSpec | src/App.tsx:103 | the tabs start with `all`; after it every product's category appears, nothing that no product has appears, none twice, in first-appearance order |
| Catalog.CategoriesDistinctIff | src/App.tsx:103 | the tab list has no repeated entry if and only if no product's category is `all` |
| Catalog.OfCategory | src/App.tsx:107 | a product is kept if and only if it is in the catalog with the chosen category; the result is no longer than the catalog |
| Catalog.OfCategoryAppend | src/App.tsx:107 | filtering a concatenation is the concatenation of the filtered parts, so catalog order is kept |
| Catalog.OfCategoryUniform | src/App.tsx:107 | a catalog all of one category passes that category's filter unchanged |
| Catalog.FilterProducts | src/App.tsx:105-107 | the `all` tab shows the whole catalog; any other tab shows exactly the catalog's products of that category |
| CartEngine.Find | src/App.tsx:110 | the lookup finds nothing exactly when no line has the id; otherwise it returns the first line with the id |
| CartEngine.Increment | src/App.tsx:111-116 | every line with the id gains one unit, keeps its product, and every other line is unchanged; length is kept |
| CartEngine.AddToCart | src/App.tsx:109-120 | afterwards the id is present; a present id has its lines bumped by one with everything else unchanged; an absent id gets a new line with quantity one appended after an untouched prefix |
| CartEngine.AddPreservesValid | src/App.tsx:109-120 | adding keeps every quantity positive and never creates a second line for an id |
| CartEngine.AddExistingLine | src/App.tsx:111-116 | with unique ids, adding a present product changes exactly its own line, by one unit |
| CartEngine.AddRepeatedly | src/App.tsx:109-120 | adding an absent product n times leaves the old cart followed by one line for it with quantity n |
| CartEngine.RemoveFromCart | src/App.tsx:122-124 | no remaining line has the id; an absent id changes nothing; a present id shortens the cart |
| CartEngine.RemoveKeepsOthers | src/App.tsx:123 | a line survives removal if and only if it was in the cart with a different id |
| CartEngine.RemoveKeepsUnique | src/App.tsx:123 | removal never creates a second line for an id |
| CartEngine.RemovePreservesValid | src/App.tsx:122-124 | removal keeps every quantity positive and ids unique |
| CartEngine.RemoveAppend | src/App.tsx:123 | removal distributes over concatenation, so the remaining lines keep their relative order |
| CartEngine.RemoveFirstLine | src/App.tsx:122-124 | with unique ids, removing the first line's id drops exactly the first line |
| CartEngine.RemoveLine | src/App.tsx:122-124 | with unique ids, removing a line's id takes out exactly that line and keeps the rest in order |
| CartEngine.UpdateQuantity | src/App.tsx:126-134 | length and products are kept; a matching line whose new quantity is positive takes it; every other line, including a refused one, is unchanged |
| CartEngine.UpdateAbsent | src/App.tsx:126-134 | changing the quantity of an id no line carries changes nothing |
| CartEngine.UpdatePreservesValid | src/App.tsx:126-134 | changing quantities keeps every quantity positive and ids unique |
| CartEngine.DecrementNeverDeletes | src/App.tsx:130-131 | a change that would take a line to zero or below leaves the whole cart as it was; no line is deleted |
| CartEngine.OperationsPreserveValid | src/App.tsx:109-134 | from a valid cart, adding, removing and changing quantities all give a valid cart |
| CartEngine.AddIsIncrement | src/App.tsx:109-134 | for a product already in a valid cart, adding it from the catalog equals pressing its line's plus button |
| CartEngine.TimesIsProduct | src/App.tsx:137 | a line total is price times quantity |
| CartEngine.Total | src/App.tsx:136-138 | left fold of price times quantity from zero: the empty cart totals zero and a one-line cart totals that line; the lemmas below characterise the rest |
| CartEngine.TotalAppend | src/App.tsx:136-138 | the total of two carts joined is the sum of their totals |
| CartEngine.TotalWithout | src/App.tsx:136-138 | taking one line out of a cart lowers the total by that line's total |
| CartEngine.TotalPermutation | src/App.tsx:136-138 | the total does not depend on the order of the lines |
| CartEngine.TotalNonNegative | src/App.tsx:136-138 | with prices at or above zero and positive quantities the total is not negative |
| CartEngine.TotalReplaceOne | src/App.tsx:136-138 | replacing one line changes the total by the difference of the two line totals |
| CartEngine.TotalBumpLine | src/App.tsx:113-114 | one more unit on a line raises the total by that line's captured unit price |
| CartEngine.TotalAfterIncrement | src/App.tsx:111-116 | bumping a present product raises the total by its line's unit price |
| CartEngine.TotalAfterAdd | src/App.tsx:109-138 | adding raises the total by the captured unit price of the product's line, or by the catalog price for a new line |
| CartEngine.TotalAfterRemove | src/App.tsx:122-138 | removing a line lowers the total by exactly that line's line total, which is its price times quantity |
| CartEngine.TotalAfterUpdate | src/App.tsx:126-138 | a quantity change moves the total by price times the change, or not at all when refused |
| Receipts.Lines | src/App.tsx:266-271 | one printed line per cart line, in cart order, with the line's name, quantity and price times quantity |
| Receipts.TotalIsSumOfLines | src/App.tsx:266-275 | the cart total equals the sum of the printed line totals |
| Receipts.BuildReceipt | src/App.tsx:266-275 | the receipt's lines describe the cart in order and its grand total is the sum of the printed line totals; an empty cart prints no lines and zero |
| Scenarios.AddScenario | src/App.tsx:109-138 | adding A, B, B to an empty cart gives lines A×1 and B×2 totalling 120 |
| Scenarios.RefusedDecrementScenario | src/App.tsx:126-134 | taking five from a line of two is refused and leaves the cart unchanged |
| Scenarios.RemoveScenario | src/App.tsx:122-138 | removing A from A×1, B×2 leaves B×2 totalling 70 |
| Scenarios.EmptyReceiptScenario | src/App.tsx:266-275 | an empty cart prints an empty receipt totalling zero |
| Scenarios.CategoryScenario | src/App.tsx:103 | a catalog of drinks, food, drinks gives the tabs `all`, drinks, food |
| Scenarios.FilterScenario | src/App.tsx:105-107 | on that catalog the food tab shows only the food product and `all` shows everything |

## Left out

- React state handling (`useState`, `setCart`, re-rendering): each operation is a pure function from the old cart to the new one.
- Routing, the layout sidebar and navigation bar, and the placeholder pages: they hold no order logic.
- PDF export and browser printing: foreign library and browser I/O.
- The invoice number, date and time on the receipt: they read the wall clock.
- The receipt's fixed shop name, cashier name and closing text: constant display text.
- JavaScript floating-point arithmetic and two-decimal formatting: prices and quantities are integers, so sums are exact; the page's sums are exact only for whole-number prices with totals below 2^53.
- Product images and the hard-coded sample catalog: the scenarios use a small catalog of their own instead.
