/**
 * The product list component of the frontend: the category options it
 * derives from the products (`Array.from(new Set(...))`) and the products it
 * shows for a search query and a selected category.
 */
module ProductList {
  import opened Seqs
  import opened Strings

  /** The fields of a product the list reads. */
  datatype Listed = Listed(name: string, description: string, category: string)

  /** `Array.from(new Set(s))`: each value once, in the order of its first occurrence. */
  function Dedup(s: seq<string>): (r: seq<string>)
    ensures Distinct(r)
    ensures forall x :: x in r <==> x in s
    ensures |r| <= |s|
  {
    if s == [] then []
    else
      var r := Dedup(s[..|s| - 1]);
      assert forall x :: x in s <==> x in s[..|s| - 1] || x == s[|s| - 1] by {
        assert s == s[..|s| - 1] + [s[|s| - 1]];
      }
      if s[|s| - 1] in r then r else r + [s[|s| - 1]]
  }

  /** Values keep the place of their first occurrence: what follows `s` only adds values after those of `s`. */
  lemma {:induction false} DedupPrefix(s: seq<string>, t: seq<string>)
    ensures Dedup(s) <= Dedup(s + t)
    decreases |t|
  {
    if t == [] {
      assert s + t == s;
    } else {
      var u := s + t[..|t| - 1];
      DedupPrefix(s, t[..|t| - 1]);
      assert s + t == u + [t[|t| - 1]];
      assert (s + t)[..|s + t| - 1] == u;
    }
  }

  /** `products.map((p) => p.category)`. */
  function CategoryColumn(products: seq<Listed>): (r: seq<string>)
    ensures |r| == |products|
    ensures forall k :: 0 <= k < |products| ==> r[k] == products[k].category
  {
    seq(|products|, k requires 0 <= k < |products| => products[k].category)
  }

  /** `categories`: every category a product has, each exactly once. */
  function Categories(products: seq<Listed>): (r: seq<string>)
    ensures Distinct(r)
    ensures forall c :: c in r <==> exists k :: 0 <= k < |products| && products[k].category == c
  {
    var column := CategoryColumn(products);
    assert forall c :: c in column <==> exists k :: 0 <= k < |products| && products[k].category == c by {
      forall c | c in column
        ensures exists k :: 0 <= k < |products| && products[k].category == c
      {
        var k :| 0 <= k < |column| && column[k] == c;
        assert products[k].category == c;
      }
    }
    Dedup(column)
  }

  /** The test inside `products.filter(...)`. */
  predicate Shown(query: string, selectedCategory: string, p: Listed) {
    var q := ToLower(query);
    (Includes(ToLower(p.name), q) || Includes(ToLower(p.description), q))
    && (selectedCategory == [] || p.category == selectedCategory)
  }

  /** `filteredProducts`. */
  function FilteredProducts(products: seq<Listed>, query: string, selectedCategory: string): seq<Listed> {
    Filter(products, p => Shown(query, selectedCategory, p))
  }

  /** `a` is `b` with some elements left out, the others kept in order. */
  predicate SubsequenceOf<T(==)>(a: seq<T>, b: seq<T>)
    decreases |b|
  {
    if a == [] then true
    else if b == [] then false
    else if a[0] == b[0] then SubsequenceOf(a[1..], b[1..])
    else SubsequenceOf(a, b[1..])
  }

  /** Filtering keeps a subsequence: shown products appear in the order of `products`. */
  lemma {:induction false} FilterSubsequence<T>(s: seq<T>, p: T -> bool)
    ensures SubsequenceOf(Filter(s, p), s)
  {
    if s != [] {
      FilterSubsequence(s[1..], p);
      var rest := Filter(s[1..], p);
      if !p(s[0]) && rest != [] {
        assert p(rest[0]);
      }
    }
  }

  /**
   * A product is shown exactly when its lowercased name or description
   * contains the lowercased query and no category is selected or it is the
   * product's; the shown products keep their order.
   */
  lemma FilteredProductsExact(products: seq<Listed>, query: string, selectedCategory: string)
    ensures forall p :: p in FilteredProducts(products, query, selectedCategory) <==>
              p in products
              && (Occurs(ToLower(p.name), ToLower(query)) || Occurs(ToLower(p.description), ToLower(query)))
              && (selectedCategory == [] || p.category == selectedCategory)
    ensures SubsequenceOf(FilteredProducts(products, query, selectedCategory), products)
  {
    forall p ensures p in FilteredProducts(products, query, selectedCategory) <==> p in products && Shown(query, selectedCategory, p) {
      FilterMembership(products, p => Shown(query, selectedCategory, p), p);
    }
    FilterSubsequence(products, p => Shown(query, selectedCategory, p));
  }

  /** With an empty query and no category every product is shown. */
  lemma ShowAllWhenUnfiltered(products: seq<Listed>)
    ensures FilteredProducts(products, "", "") == products
  {
    forall k | 0 <= k < |products|
      ensures Shown("", "", products[k])
    {
      assert StartsWith(ToLower(products[k].name), ToLower(""));
    }
    FilterAll(products, p => Shown("", "", p));
  }
}
