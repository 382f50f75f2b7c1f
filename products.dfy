/** The product listing page: the backend query built from the category,
    the search filter, the price sort, the heading and the result view. */
module Products {
  import opened Wrappers
  import opened Catalog
  import Text
  import JsArray

  /** Placeholders shown while the listing loads. */
  const SkeletonCount: nat := 6

  const QueryPrefix: string := "product_type:"

  /** `searchParams.get("category") || ""` */
  function CategoryParam(param: Option<string>): (r: string)
    ensures param.None? ==> r == ""
    ensures param.Some? ==> r == param.value
  {
    param.GetOr("")
  }

  /** The backend filter: `product_type:<category>` for a category, nothing
      otherwise. */
  function ShopifyQuery(category: string): (r: string)
    ensures r == "" <==> category == ""
    ensures category != "" ==> Text.StartsWith(r, QueryPrefix)
  {
    if category != "" then QueryPrefix + category else ""
  }

  /** Reading the category back out of a backend filter. */
  function CategoryOfQuery(query: string): string {
    if Text.StartsWith(query, QueryPrefix) then query[|QueryPrefix|..] else ""
  }

  /** The filter names its category and nothing else: the category can be
      read back from it. */
  lemma QueryRoundTrip(category: string)
    ensures CategoryOfQuery(ShopifyQuery(category)) == category
  {
    if category != "" {
      var q := QueryPrefix + category;
      assert q[..|QueryPrefix|] == QueryPrefix;
      assert q[|QueryPrefix|..] == category;
    }
  }

  /** The search test: the lower-cased title includes the lower-cased query. */
  predicate TitleMatches(query: string, p: Product)
    ensures TitleMatches(query, p) <==> exists k :: Text.OccursAt(Text.ToLower(p.title), Text.ToLower(query), k)
    ensures query == "" ==> TitleMatches(query, p)
  {
    Text.IncludesIffOccurs(Text.ToLower(p.title), Text.ToLower(query));
    Text.Includes(Text.ToLower(p.title), Text.ToLower(query))
  }

  /** `products?.filter(titleMatches) || []` */
  function FilterProducts(products: Option<seq<Product>>, query: string): (r: seq<Product>)
    ensures products.None? ==> r == []
    ensures products.Some? ==> JsArray.IsSubsequence(r, products.value)
    ensures forall i :: 0 <= i < |r| ==> TitleMatches(query, r[i])
    ensures products.Some? ==> multiset(r) <= multiset(products.value)
    ensures products.Some? ==> forall i :: 0 <= i < |products.value| && TitleMatches(query, products.value[i]) ==>
                                 multiset(r)[products.value[i]] == multiset(products.value)[products.value[i]]
  {
    match products
    case None => []
    case Some(s) => JsArray.Filter(s, (p: Product) => TitleMatches(query, p))
  }

  /** An empty search keeps every fetched product, in order. */
  lemma EmptySearchKeepsAll(s: seq<Product>)
    ensures FilterProducts(Some(s), "") == s
  {
    forall i | 0 <= i < |s|
      ensures TitleMatches("", s[i])
    {
      Text.IncludesEmpty(Text.ToLower(s[i].title));
    }
    JsArray.FilterKeepsAll(s, (p: Product) => TitleMatches("", p));
  }

  /** A kept title contains the query up to case: read at some offset it
      is the query, lower-cased. */
  lemma KeptTitleContainsQuery(products: Option<seq<Product>>, query: string, i: nat)
    requires i < |FilterProducts(products, query)|
    ensures exists k :: Text.OccursAt(Text.ToLower(FilterProducts(products, query)[i].title), Text.ToLower(query), k)
  {
    var p := FilterProducts(products, query)[i];
    Text.IncludesIffOccurs(Text.ToLower(p.title), Text.ToLower(query));
  }

  /** `parseFloat(p.node.priceRange.minVariantPrice.amount)`, in minor
      units; 0 stands in where the price is missing, which `Sortable`
      rules out. */
  function PriceKey(p: Product): (r: int)
    ensures p.minVariantPrice.Some? ==> r == p.minVariantPrice.value.amount
    ensures p.minVariantPrice.None? ==> r == 0
  {
    if p.minVariantPrice.Some? then p.minVariantPrice.value.amount else 0
  }

  /** The sort callback: by ascending price for `price-low`, descending for
      `price-high`, and a tie for every pair under any other key. */
  function Compare(sortBy: string, a: Product, b: Product): (r: int)
    ensures sortBy == "price-low" ==> (r <= 0 <==> PriceKey(a) <= PriceKey(b))
    ensures sortBy == "price-high" ==> (r <= 0 <==> PriceKey(a) >= PriceKey(b))
    ensures sortBy != "price-low" && sortBy != "price-high" ==> r == 0
  {
    if sortBy == "price-low" then PriceKey(a) - PriceKey(b)
    else if sortBy == "price-high" then PriceKey(b) - PriceKey(a)
    else 0
  }

  function Comparator(sortBy: string): (Product, Product) -> int {
    (a: Product, b: Product) => Compare(sortBy, a, b)
  }

  /** The callback reads `priceRange.minVariantPrice` without a guard, and
      a sort of two or more elements calls it on every element. */
  predicate Sortable(sortBy: string, s: seq<Product>): (r: bool)
    ensures |s| < 2 ==> r
    ensures sortBy != "price-low" && sortBy != "price-high" ==> r
    ensures r && (sortBy == "price-low" || sortBy == "price-high") && |s| >= 2 ==>
              forall i :: 0 <= i < |s| ==> s[i].minVariantPrice.Some?
    ensures (forall i :: 0 <= i < |s| ==> s[i].minVariantPrice.Some?) ==> r
  {
    (sortBy == "price-low" || sortBy == "price-high") && |s| >= 2 ==>
      forall i :: 0 <= i < |s| ==> s[i].minVariantPrice.Some?
  }

  /** `[...filtered].sort(compare)`: a new, rearranged copy. */
  function SortProducts(sortBy: string, s: seq<Product>): (r: seq<Product>)
    requires Sortable(sortBy, s)
    ensures |r| == |s| && multiset(r) == multiset(s)
  {
    JsArray.Sort(s, Comparator(sortBy))
  }

  lemma ComparatorConsistent(sortBy: string)
    ensures JsArray.Consistent(Comparator(sortBy))
  {
    var cmp := Comparator(sortBy);
    assert forall a, b :: cmp(a, b) == Compare(sortBy, a, b);
  }

  /** `price-low` orders by non-decreasing price. */
  lemma SortPriceLow(s: seq<Product>)
    requires Sortable("price-low", s)
    ensures forall i, j :: 0 <= i < j < |SortProducts("price-low", s)| ==>
              PriceKey(SortProducts("price-low", s)[i]) <= PriceKey(SortProducts("price-low", s)[j])
  {
    ComparatorConsistent("price-low");
    JsArray.SortOrdered(s, Comparator("price-low"));
    var r := SortProducts("price-low", s);
    forall i, j | 0 <= i < j < |r|
      ensures PriceKey(r[i]) <= PriceKey(r[j])
    {
      assert Comparator("price-low")(r[i], r[j]) <= 0;
    }
  }

  /** `price-high` orders by non-increasing price. */
  lemma SortPriceHigh(s: seq<Product>)
    requires Sortable("price-high", s)
    ensures forall i, j :: 0 <= i < j < |SortProducts("price-high", s)| ==>
              PriceKey(SortProducts("price-high", s)[i]) >= PriceKey(SortProducts("price-high", s)[j])
  {
    ComparatorConsistent("price-high");
    JsArray.SortOrdered(s, Comparator("price-high"));
    var r := SortProducts("price-high", s);
    forall i, j | 0 <= i < j < |r|
      ensures PriceKey(r[i]) >= PriceKey(r[j])
    {
      assert Comparator("price-high")(r[i], r[j]) <= 0;
    }
  }

  /** Any other key compares every pair as equal, so the filtered order is
      kept. */
  lemma SortOtherKeepsOrder(sortBy: string, s: seq<Product>)
    requires sortBy != "price-low" && sortBy != "price-high"
    ensures SortProducts(sortBy, s) == s
  {
    var cmp := Comparator(sortBy);
    assert forall a, b :: cmp(a, b) == 0;
    JsArray.SortKeepsOrderOnTies(s, cmp);
  }

  /** The page title: "<Category>'s Collection" with the first character
      upper-cased, or "All Products". */
  function Heading(category: string): (r: string)
    ensures r == "All Products" <==> category == ""
  {
    if category == "" then "All Products"
    else [Text.UpperChar(category[0])] + category[1..] + "'s Collection"
  }

  /** A category heading names the category up to the case of its first
      character and ends in "'s Collection". */
  lemma HeadingNamesCategory(category: string)
    requires category != ""
    ensures |Heading(category)| == |category| + |"'s Collection"|
    ensures Text.ToLower(Heading(category)[..|category|]) == Text.ToLower(category)
    ensures Heading(category)[1..|category|] == category[1..]
    ensures Heading(category)[|category|..] == "'s Collection"
    ensures Text.UpperChar(Heading(category)[0]) == Heading(category)[0]
  {
    var h := Heading(category);
    Text.LowerOfUpper(category[0]);
    assert h[0] == Text.UpperChar(category[0]);
    assert h[..|category|] == [Text.UpperChar(category[0])] + category[1..];
    forall i | 0 <= i < |category|
      ensures Text.ToLower(h[..|category|])[i] == Text.ToLower(category)[i]
    {
      if i > 0 {
        assert h[..|category|][i] == category[i];
      }
    }
  }

  /** The result area's views. */
  datatype ResultView =
    | LoadFailed
    | Skeletons(count: nat)
    | Cards(products: seq<Product>)
    | NoResults(hint: string)

  const SearchHint: string := "Try adjusting your search."
  const EmptyHint: string := "No products available yet."

  /** Error, then loading, then the cards, then the empty state whose hint
      depends on whether a search is active. */
  function Results(error: bool, isLoading: bool, sorted: seq<Product>, searchQuery: string): (r: ResultView)
    ensures r == LoadFailed <==> error
    ensures r == Skeletons(SkeletonCount) <==> !error && isLoading
    ensures r == Cards(sorted) <==> !error && !isLoading && sorted != []
    ensures r.NoResults? <==> !error && !isLoading && sorted == []
    ensures r.NoResults? ==> r.hint == if searchQuery != "" then SearchHint else EmptyHint
  {
    if error then LoadFailed
    else if isLoading then Skeletons(SkeletonCount)
    else if |sorted| > 0 then Cards(sorted)
    else NoResults(if searchQuery != "" then SearchHint else EmptyHint)
  }

  /** The component's own state, replaced wholesale by its controls. */
  datatype Controls = Controls(viewMode: string, sortBy: string, searchQuery: string)

  const InitialControls: Controls := Controls("grid", "newest", "")

  /** What the product request returned. */
  datatype Fetch = Fetch(data: Option<seq<Product>>, isLoading: bool, error: bool)

  datatype Page = Page(heading: string, count: nat, results: ResultView)

  predicate PageRenderable(c: Controls, f: Fetch) {
    Sortable(c.sortBy, FilterProducts(f.data, c.searchQuery))
  }

  /** The whole listing for a category parameter, the controls and the
      request's outcome. */
  function ListingPage(categoryParam: Option<string>, c: Controls, f: Fetch): (r: Page)
    requires PageRenderable(c, f)
    ensures r.heading == "All Products" <==> CategoryParam(categoryParam) == ""
    ensures r.count == |FilterProducts(f.data, c.searchQuery)|
  {
    var category := CategoryParam(categoryParam);
    var sorted := SortProducts(c.sortBy, FilterProducts(f.data, c.searchQuery));
    Page(Heading(category), |sorted|, Results(f.error, f.isLoading, sorted, c.searchQuery))
  }

  /** The page shows, in precedence order, the failure, the loading
      placeholders, or cards that are exactly the matching fetched products
      (a rearrangement of them), and otherwise the empty state; the count is
      the number of matching products. */
  lemma ListingShowsMatches(categoryParam: Option<string>, c: Controls, f: Fetch)
    requires PageRenderable(c, f)
    ensures ListingPage(categoryParam, c, f).count == |FilterProducts(f.data, c.searchQuery)|
    ensures ListingPage(categoryParam, c, f).results.LoadFailed? <==> f.error
    ensures ListingPage(categoryParam, c, f).results == Skeletons(6) <==> !f.error && f.isLoading
    ensures ListingPage(categoryParam, c, f).results.Cards? ==>
              !f.error && !f.isLoading &&
              multiset(ListingPage(categoryParam, c, f).results.products) == multiset(FilterProducts(f.data, c.searchQuery)) &&
              forall i :: 0 <= i < |ListingPage(categoryParam, c, f).results.products| ==>
                TitleMatches(c.searchQuery, ListingPage(categoryParam, c, f).results.products[i])
    ensures ListingPage(categoryParam, c, f).results.NoResults? <==>
              !f.error && !f.isLoading && FilterProducts(f.data, c.searchQuery) == []
    ensures !f.error && !f.isLoading && FilterProducts(f.data, c.searchQuery) != [] ==>
              ListingPage(categoryParam, c, f).results == Cards(SortProducts(c.sortBy, FilterProducts(f.data, c.searchQuery)))
    ensures ListingPage(categoryParam, c, f).results.NoResults? ==>
              ListingPage(categoryParam, c, f).results.hint == if c.searchQuery != "" then SearchHint else EmptyHint
    ensures ListingPage(categoryParam, c, f).heading == "All Products" <==> CategoryParam(categoryParam) == ""
  {
    var s := FilterProducts(f.data, c.searchQuery);
    var sorted := SortProducts(c.sortBy, s);
    forall i | 0 <= i < |sorted|
      ensures TitleMatches(c.searchQuery, sorted[i])
    {
      assert sorted[i] in multiset(s);
      var k :| 0 <= k < |s| && s[k] == sorted[i];
    }
  }

  /** With no category, no search and the default sort, the page lists every
      fetched product in the order fetched. */
  lemma DefaultListing(products: seq<Product>)
    requires |products| > 0
    ensures ListingPage(None, InitialControls, Fetch(Some(products), false, false)) ==
            Page("All Products", |products|, Cards(products))
  {
    EmptySearchKeepsAll(products);
    SortOtherKeepsOrder("newest", products);
  }
}
