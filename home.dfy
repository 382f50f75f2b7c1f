/** The home page's featured-products section. */
module Home {
  import opened Wrappers
  import opened Catalog

  /** How many of them it shows, and how many placeholders while loading. */
  const FeaturedShown: nat := 4

  datatype FeaturedView =
    | LoadFailed
    | Skeletons(count: nat)
    | Featured(products: seq<Product>)
    | NoProductsYet

  /** `products.slice(0, 4)` */
  function FirstFew(s: seq<Product>): (r: seq<Product>)
    ensures |r| == if |s| < FeaturedShown then |s| else FeaturedShown
    ensures r == s[..|r|]
  {
    if |s| < FeaturedShown then s else s[..FeaturedShown]
  }

  /** Error, then loading, then the first products, then the empty state. */
  function FeaturedSection(error: bool, isLoading: bool, products: Option<seq<Product>>): (r: FeaturedView)
    ensures r.Featured? <==> !error && !isLoading && products.Some? && products.value != []
    ensures r.Featured? ==> 0 < |r.products| <= FeaturedShown
  {
    if error then LoadFailed
    else if isLoading then Skeletons(FeaturedShown)
    else if products.Some? && |products.value| > 0 then Featured(FirstFew(products.value))
    else NoProductsYet
  }

  /** An error shows the failure whatever else holds; loading without an
      error shows four placeholders; products show their first one to four
      in order; no products, absent or empty, show the empty state rather
      than the failure. */
  lemma FeaturedPrecedence(error: bool, isLoading: bool, products: Option<seq<Product>>)
    ensures FeaturedSection(error, isLoading, products) == LoadFailed <==> error
    ensures FeaturedSection(error, isLoading, products) == Skeletons(4) <==> !error && isLoading
    ensures FeaturedSection(error, isLoading, products).Featured? ==>
              var shown := FeaturedSection(error, isLoading, products).products;
              0 < |shown| <= 4 && shown == products.value[..|shown|] &&
              (|products.value| >= 4 ==> |shown| == 4)
    ensures !error && !isLoading && products.Some? && products.value != [] ==>
              FeaturedSection(error, isLoading, products) == Featured(FirstFew(products.value))
    ensures !error && !isLoading && products.Some? && 0 < |products.value| < 4 ==>
              FeaturedSection(error, isLoading, products) == Featured(products.value)
    ensures !error && !isLoading && products.Some? && |products.value| >= FeaturedShown ==>
              FeaturedSection(error, isLoading, products) == Featured(products.value[..FeaturedShown])
    ensures FeaturedSection(error, isLoading, products) == NoProductsYet <==>
              !error && !isLoading && (products.None? || products.value == [])
  {
  }
}
