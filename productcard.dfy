/** The product card shown in listings: what it displays from a product and
    what its Add to Cart button does. */
module ProductCard {
  import opened Wrappers
  import opened Catalog

  /** `c?.[0]` of an optional connection. */
  function First<T>(c: Option<seq<T>>): (r: Option<T>)
    ensures r.None? <==> c.None? || c.value == []
    ensures r.Some? ==> r.value == c.value[0]
  {
    if c.Some? && |c.value| > 0 then Some(c.value[0]) else None
  }

  /** `node.images?.edges?.[0]?.node` */
  function CardImage(p: Product): (r: Option<Image>)
    ensures r.Some? <==> ImagesOf(p) != []
    ensures r.Some? ==> r.value == ImagesOf(p)[0]
  {
    First(p.images)
  }

  /** `node.variants?.edges?.[0]?.node` */
  function CardVariant(p: Product): (r: Option<Variant>)
    ensures r.Some? <==> VariantsOf(p) != []
    ensures r.Some? ==> r.value == VariantsOf(p)[0]
  {
    First(p.variants)
  }

  /** `variant?.availableForSale` */
  predicate ForSale(v: Option<Variant>): (r: bool)
    ensures r ==> v.Some?
    ensures v.Some? ==> (r <==> v.value.availableForSale)
  {
    v.Some? && v.value.availableForSale
  }

  /** `disabled={isLoading || !variant?.availableForSale}` */
  function ButtonDisabled(p: Product, cartLoading: bool): (r: bool)
    ensures r <==> cartLoading || CardVariant(p).None? || !CardVariant(p).value.availableForSale
  {
    cartLoading || !ForSale(CardVariant(p))
  }

  datatype Label = AddToCartLabel | SoldOutLabel

  function ButtonLabel(p: Product): (r: Label)
    ensures r == AddToCartLabel <==> CardVariant(p).Some? && CardVariant(p).value.availableForSale
  {
    if ForSale(CardVariant(p)) then AddToCartLabel else SoldOutLabel
  }

  /** `handleAddToCart`: nothing without a first variant, otherwise one of
      the first variant. */
  function CardAddToCart(p: Product): (r: Option<CartRequest>)
    ensures r.None? <==> CardVariant(p).None?
    ensures r.Some? ==> r.value.quantity == 1 && r.value.product == p &&
                        r.value.variantId == VariantsOf(p)[0].id && r.value.variantTitle == VariantsOf(p)[0].title &&
                        r.value.price == VariantsOf(p)[0].price &&
                        r.value.selectedOptions == VariantsOf(p)[0].selectedOptions.GetOr([])
  {
    match CardVariant(p)
    case None => None
    case Some(v) => Some(RequestFor(p, v, 1))
  }

  /** An enabled button reads "Add to Cart" and adds the first variant; a
      "Sold Out" button is always disabled, and so is every button while the
      cart is busy. */
  lemma ButtonConsistent(p: Product, cartLoading: bool)
    ensures !ButtonDisabled(p, cartLoading) ==>
              ButtonLabel(p) == AddToCartLabel && CardAddToCart(p).Some? &&
              CardAddToCart(p).value.variantId == CardVariant(p).value.id
    ensures ButtonLabel(p) == SoldOutLabel ==> ButtonDisabled(p, cartLoading)
    ensures cartLoading ==> ButtonDisabled(p, cartLoading)
  {
  }

  /** `N options available`, shown only when the first option offers more
      than one value. */
  function OptionsNote(p: Product): (r: Option<nat>)
    ensures r.Some? <==> p.options.Some? && |p.options.value| > 0 && |p.options.value[0].values| > 1
    ensures r.Some? ==> r.value == |p.options.value[0].values| && r.value >= 2
  {
    match p.options
    case Some(opts) =>
      if |opts| > 0 && |opts[0].values| > 1 then Some(|opts[0].values|) else None
    case None => None
  }

  const ProductRoute: string := "/product/"

  /** The card links to `/product/<handle>`. */
  function LinkTarget(p: Product): (r: string)
    ensures |r| == |ProductRoute| + |p.handle|
    ensures r[..|ProductRoute|] == ProductRoute && r[|ProductRoute|..] == p.handle
  {
    ProductRoute + p.handle
  }

  /** Reading the handle back out of a product link. */
  function HandleOfLink(link: string): string {
    if |ProductRoute| <= |link| && link[..|ProductRoute|] == ProductRoute then link[|ProductRoute|..] else ""
  }

  /** The link determines the product handle. */
  lemma LinkRoundTrip(p: Product)
    ensures HandleOfLink(LinkTarget(p)) == p.handle
  {
    var l := LinkTarget(p);
    assert l[..|ProductRoute|] == ProductRoute;
    assert l[|ProductRoute|..] == p.handle;
  }

  /** Everything the card shows. */
  datatype Card = Card(image: Option<Image>, title: string, price: Option<Money>, disabled: bool,
                       buttonLabel: Label, optionsNote: Option<nat>, link: string)

  function CardOf(p: Product, cartLoading: bool): (r: Card)
    ensures r.image.Some? <==> ImagesOf(p) != []
    ensures r.image.Some? ==> r.image.value == ImagesOf(p)[0]
    ensures r.price == p.minVariantPrice && r.title == p.title
    ensures r.disabled == ButtonDisabled(p, cartLoading) && r.buttonLabel == ButtonLabel(p)
    ensures r.optionsNote == OptionsNote(p) && r.link == LinkTarget(p)
  {
    Card(CardImage(p), p.title, p.minVariantPrice, ButtonDisabled(p, cartLoading), ButtonLabel(p),
         OptionsNote(p), LinkTarget(p))
  }
}
