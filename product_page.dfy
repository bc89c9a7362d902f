/** The product search of frontend/src/pages/ProductPage.jsx: the products
    whose name or description contains the search term, ignoring case, in
    catalog order, and the "Showing N of M" count. */
module ProductPage {
  import opened Common
  import opened Text
  import opened CartModel

  /** The filter's test for one product. */
  predicate Matches(p: Product, term: string) {
    Includes(ToLower(p.name), ToLower(term)) || Includes(ToLower(p.description), ToLower(term))
  }

  /** `products.filter(...)`: the matching products, in catalog order. */
  function FilteredProducts(products: seq<Product>, term: string): (r: seq<Product>)
    ensures |r| <= |products|
    ensures IsSubsequence(r, products)
    ensures forall j :: 0 <= j < |r| ==> Matches(r[j], term)
  {
    if products == [] then []
    else if Matches(products[0], term) then [products[0]] + FilteredProducts(products[1..], term)
    else FilteredProducts(products[1..], term)
  }

  /** A product is kept exactly as often as it is listed if it matches, and
      not at all otherwise. */
  lemma {:induction false} FilterCounts(products: seq<Product>, term: string)
    ensures forall p ::
              multiset(FilteredProducts(products, term))[p] == if Matches(p, term) then multiset(products)[p] else 0
  {
    if products != [] {
      FilterCounts(products[1..], term);
      assert products == [products[0]] + products[1..];
    }
  }

  /** Every listed product whose lower-cased name or description contains
      the lower-cased term is shown. */
  lemma FilterKeepsMatches(products: seq<Product>, term: string, p: Product)
    requires p in products && Matches(p, term)
    ensures p in FilteredProducts(products, term)
  {
    FilterCounts(products, term);
    assert multiset(products)[p] > 0;
  }

  /** An empty search shows the whole catalog. */
  lemma {:induction false} EmptyTermKeepsAll(products: seq<Product>)
    ensures FilteredProducts(products, "") == products
  {
    if products != [] {
      IncludesEmpty(ToLower(products[0].name));
      assert ToLower("") == "";
      EmptyTermKeepsAll(products[1..]);
    }
  }

  /** The "Showing N of M products" line: N is the number of products the
      filter shows, and never more than M. */
  function ShowingCounts(products: seq<Product>, term: string): (counts: (nat, nat))
    ensures counts.0 == |FilteredProducts(products, term)|
    ensures counts.0 <= counts.1
    ensures counts.1 == |products|
  {
    (|FilteredProducts(products, term)|, |products|)
  }
}
