/** The catalog entities the storefront reads from the commerce backend, and
    the argument record it hands to the cart store's `addItem`. Prices are
    integers in minor currency units. */
module Catalog {
  import opened Wrappers

  datatype Money = Money(amount: int, currencyCode: string)

  datatype Image = Image(url: string, altText: Option<string>)

  /** One name/value pair of a variant, e.g. Size = M. */
  datatype SelectedOption = SelectedOption(name: string, value: string)

  datatype Variant = Variant(
    id: string,
    title: string,
    price: Money,
    availableForSale: bool,
    selectedOptions: Option<seq<SelectedOption>>)

  /** A configurable option of a product and the values it offers. */
  datatype ProductOption = ProductOption(name: string, values: seq<string>)

  /** A product node. Each connection the views reach with `?.` is optional;
      `minVariantPrice` stands for `priceRange?.minVariantPrice`. */
  datatype Product = Product(
    id: string,
    handle: string,
    title: string,
    images: Option<seq<Image>>,
    variants: Option<seq<Variant>>,
    options: Option<seq<ProductOption>>,
    minVariantPrice: Option<Money>)

  /** The record passed to the cart store's `addItem`. */
  datatype CartRequest = CartRequest(
    product: Product,
    variantId: string,
    variantTitle: string,
    price: Money,
    quantity: int,
    selectedOptions: seq<SelectedOption>)

  /** `product.images?.edges || []` */
  function ImagesOf(p: Product): (r: seq<Image>)
    ensures p.images.Some? ==> r == p.images.value
    ensures p.images.None? ==> r == []
  {
    p.images.GetOr([])
  }

  /** `product.variants?.edges || []` */
  function VariantsOf(p: Product): (r: seq<Variant>)
    ensures p.variants.Some? ==> r == p.variants.value
    ensures p.variants.None? ==> r == []
  {
    p.variants.GetOr([])
  }

  /** The `addItem` argument for `variant`: its id, title and price, the
      given quantity, and its selected options or `[]` when it has none. */
  function RequestFor(p: Product, v: Variant, quantity: int): (r: CartRequest)
    ensures r.product == p && r.quantity == quantity
    ensures r.variantId == v.id && r.variantTitle == v.title && r.price == v.price
    ensures v.selectedOptions.Some? ==> r.selectedOptions == v.selectedOptions.value
    ensures v.selectedOptions.None? ==> r.selectedOptions == []
  {
    CartRequest(p, v.id, v.title, v.price, quantity, v.selectedOptions.GetOr([]))
  }
}
