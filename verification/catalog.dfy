/** The read-only product catalog of the sales page and the two views the
    page derives from it: the list of category tabs and the products shown
    for the selected tab. */
module Catalog {
  import opened Sequences

  /** A catalog entry. Prices are whole amounts of the smallest currency unit,
      so every sum over them is exact. The image reference is not modelled. */
  datatype Product = Product(id: int, name: string, price: int, category: string)

  /** The tab value that selects the whole catalog. */
  const All: string := "all"

  predicate NoDuplicates<T(==)>(s: seq<T>) {
    forall i, j :: 0 <= i < j < |s| ==> s[i] != s[j]
  }

  /** The position of the first occurrence of `x` in `s`. */
  function FirstIndex<T(==)>(s: seq<T>, x: T): (k: nat)
    requires x in s
    ensures k < |s| && s[k] == x
    ensures forall j :: 0 <= j < k ==> s[j] != x
  {
    if s[0] == x then 0 else 1 + FirstIndex(s[1..], x)
  }

  /** A first occurrence inside a prefix is the first occurrence in the whole. */
  lemma {:induction false} FirstIndexInPrefix<T>(s: seq<T>, m: nat, x: T)
    requires m <= |s| && x in s[..m]
    ensures FirstIndex(s, x) == FirstIndex(s[..m], x) < m
  {
    if s[0] != x {
      assert s[1..][..m - 1] == s[..m][1..];
      FirstIndexInPrefix(s[1..], m - 1, x);
    }
  }

  /** The elements of `s`, each once, in the order of their first appearance:
      what spreading a JavaScript `Set` built from `s` back into an array
      yields, since a `Set` enumerates in insertion order. */
  function Distinct<T(==,!new)>(s: seq<T>): (r: seq<T>)
    ensures forall x :: x in r <==> x in s
    ensures NoDuplicates(r)
    ensures |r| <= |s|
  {
    if |s| == 0 then []
    else
      var d := Distinct(s[..|s| - 1]);
      var x := s[|s| - 1];
      assert s == s[..|s| - 1] + [x];
      if x in d then d else d + [x]
  }

  /** `Distinct` lists elements in the order of their first occurrence. */
  lemma {:induction false} DistinctFirstAppearance<T(!new)>(s: seq<T>)
    ensures forall i, j :: 0 <= i < j < |Distinct(s)| ==>
              && Distinct(s)[i] in s && Distinct(s)[j] in s
              && FirstIndex(s, Distinct(s)[i]) < FirstIndex(s, Distinct(s)[j])
  {
    if |s| > 0 {
      var init := s[..|s| - 1];
      var x := s[|s| - 1];
      var d := Distinct(init);
      DistinctFirstAppearance(init);
      assert s == init + [x];
      forall y | y in d
        ensures y in s && FirstIndex(s, y) == FirstIndex(init, y) < |s| - 1
      {
        FirstIndexInPrefix(s, |s| - 1, y);
      }
      var r := Distinct(s);
      assert r == if x in d then d else d + [x];
      if x !in d {
        assert FirstIndex(s, x) == |s| - 1;
      }
      forall i, j | 0 <= i < j < |r|
        ensures r[i] in s && r[j] in s && FirstIndex(s, r[i]) < FirstIndex(s, r[j])
      {
        assert r[i] == d[i] && d[i] in d;
        assert FirstIndex(s, d[i]) == FirstIndex(init, d[i]) < |s| - 1;
        if j < |d| {
          assert r[j] == d[j] && d[j] in d;
          assert FirstIndex(s, d[j]) == FirstIndex(init, d[j]);
          assert FirstIndex(init, d[i]) < FirstIndex(init, d[j]);
        } else {
          assert r[j] == x && FirstIndex(s, x) == |s| - 1;
        }
      }
    } else {
      assert Distinct(s) == [];
    }
  }

  /** The category of every product, in catalog order. */
  function CategoryColumn(products: seq<Product>): seq<string> {
    seq(|products|, i requires 0 <= i < |products| => products[i].category)
  }

  /** The category tabs as the page lists them: `All`, then the catalog's
      categories without repeats. */
  function Categories(products: seq<Product>): (r: seq<string>)
    ensures |r| >= 1 && r[0] == All
    ensures |r| <= |products| + 1
  {
    [All] + Distinct(CategoryColumn(products))
  }

  /** Every product's category is among the distinct categories, and every
      distinct category belongs to some product. */
  lemma ColumnCoverage(products: seq<Product>)
    ensures forall i :: 0 <= i < |products| ==> products[i].category in Distinct(CategoryColumn(products))
    ensures forall c :: c in Distinct(CategoryColumn(products)) ==>
              exists i :: 0 <= i < |products| && products[i].category == c
  {
    var column := CategoryColumn(products);
    var d := Distinct(column);
    forall i | 0 <= i < |products| ensures products[i].category in d {
      assert column[i] == products[i].category;
    }
    forall c | c in d ensures exists i :: 0 <= i < |products| && products[i].category == c {
      var i := FirstIndex(column, c);
      assert products[i].category == c;
    }
  }

  /** The tabs start with `All`; after it every category of the catalog
      appears exactly once, nothing else appears, and the tabs follow the
      order in which the catalog first mentions each category. */
  lemma CategoriesSpec(products: seq<Product>)
    ensures |Categories(products)| >= 1 && Categories(products)[0] == All
    ensures forall i :: 0 <= i < |products| ==> products[i].category in Categories(products)[1..]
    ensures forall c :: c in Categories(products)[1..] ==>
              exists i :: 0 <= i < |products| && products[i].category == c
    ensures NoDuplicates(Categories(products)[1..])
    ensures forall i, j :: 1 <= i < j < |Categories(products)| ==>
              && Categories(products)[i] in CategoryColumn(products)
              && Categories(products)[j] in CategoryColumn(products)
              && FirstIndex(CategoryColumn(products), Categories(products)[i])
                 < FirstIndex(CategoryColumn(products), Categories(products)[j])
  {
    var column := CategoryColumn(products);
    var d := Distinct(column);
    var r := Categories(products);
    ConsTail(All, d);
    ColumnCoverage(products);
    DistinctFirstAppearance(column);
    forall i, j | 1 <= i < j < |r|
      ensures r[i] in column && r[j] in column && FirstIndex(column, r[i]) < FirstIndex(column, r[j])
    {
      assert r[i] == d[i - 1] && r[j] == d[j - 1];
    }
  }

  /** The tab list repeats no entry exactly when no product uses the
      sentinel `All` as its own category. */
  lemma CategoriesDistinctIff(products: seq<Product>)
    ensures NoDuplicates(Categories(products)) <==>
            forall i :: 0 <= i < |products| ==> products[i].category != All
  {
    CategoriesSpec(products);
    var r := Categories(products);
    if forall i :: 0 <= i < |products| ==> products[i].category != All {
      assert All !in r[1..];
      forall i, j | 0 <= i < j < |r|
        ensures r[i] != r[j]
      {
        if i == 0 {
          assert r[j] == r[1..][j - 1];
        } else {
          assert r[i] == r[1..][i - 1] && r[j] == r[1..][j - 1];
        }
      }
    } else {
      var i :| 0 <= i < |products| && products[i].category == All;
      assert All in r[1..];
      var j :| 0 <= j < |r[1..]| && r[1..][j] == All;
      assert r[0] == r[j + 1];
    }
  }

  /** The products of category `c`, in catalog order. */
  function OfCategory(products: seq<Product>, c: string): (r: seq<Product>)
    ensures forall p :: p in r <==> p in products && p.category == c
    ensures |r| <= |products|
  {
    if |products| == 0 then []
    else if products[0].category == c then [products[0]] + OfCategory(products[1..], c)
    else OfCategory(products[1..], c)
  }

  /** Filtering distributes over concatenation, so the filter keeps the
      catalog's relative order. */
  lemma {:induction false} OfCategoryAppend(a: seq<Product>, b: seq<Product>, c: string)
    ensures OfCategory(a + b, c) == OfCategory(a, c) + OfCategory(b, c)
  {
    if |a| > 0 {
      assert (a + b)[1..] == a[1..] + b;
      OfCategoryAppend(a[1..], b, c);
    } else {
      assert a + b == b;
    }
  }

  /** A catalog all of one category passes its filter whole. */
  lemma {:induction false} OfCategoryUniform(products: seq<Product>, c: string)
    requires forall i :: 0 <= i < |products| ==> products[i].category == c
    ensures OfCategory(products, c) == products
  {
    if |products| > 0 {
      OfCategoryUniform(products[1..], c);
      assert products == [products[0]] + products[1..];
    }
  }

  /** The products shown for the selected tab. */
  function FilterProducts(products: seq<Product>, selected: string): (r: seq<Product>)
    ensures selected == All ==> r == products
    ensures selected != All ==> forall p :: p in r <==> p in products && p.category == selected
    ensures selected != All ==> forall i :: 0 <= i < |r| ==> r[i].category == selected
  {
    if selected == All then products else OfCategory(products, selected)
  }
}
