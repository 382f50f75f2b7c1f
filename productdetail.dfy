/** The product detail page: which variant the chosen options resolve to,
    which view the page shows, and what its Add to Cart passes on. */
module ProductDetail {
  import opened Wrappers
  import opened Catalog
  import JsArray

  /** The chosen options, keyed by option name. */
  type Choices = map<string, string>

  /** The properties every plain object (`{}`) inherits from
      `Object.prototype`. Their values are functions or objects: truthy, and
      never equal to a string. */
  const InheritedKeys: set<string> := {
    "constructor", "hasOwnProperty", "isPrototypeOf", "propertyIsEnumerable", "toLocaleString",
    "toString", "valueOf", "__proto__", "__defineGetter__", "__defineSetter__",
    "__lookupGetter__", "__lookupSetter__"
  }

  /** What `selectedOptions[name]` reads: an own string, an inherited
      property, or undefined. */
  datatype Lookup = Own(value: string) | Inherited | Undefined

  function LookupChoice(chosen: Choices, name: string): (r: Lookup)
    ensures r.Own? <==> name in chosen
    ensures r.Own? ==> r.value == chosen[name]
    ensures r.Inherited? <==> name !in chosen && name in InheritedKeys
  {
    if name in chosen then Own(chosen[name])
    else if name in InheritedKeys then Inherited
    else Undefined
  }

  /** `!selectedOptions[name]`: the lookup is undefined or the empty string. */
  predicate Unchosen(chosen: Choices, name: string)
    ensures Unchosen(chosen, name) <==>
            (name in chosen && chosen[name] == "") || (name !in chosen && name !in InheritedKeys)
  {
    LookupChoice(chosen, name) == Undefined || LookupChoice(chosen, name) == Own("")
  }

  /** `selectedOptions[name] === value` */
  predicate ChosenAs(chosen: Choices, name: string, value: string)
    ensures ChosenAs(chosen, name, value) <==> name in chosen && chosen[name] == value
  {
    LookupChoice(chosen, name) == Own(value)
  }

  /** The `find` callback: with nothing chosen every variant qualifies;
      otherwise each of the variant's options must carry the chosen value
      for its name, or have nothing chosen for it. */
  predicate Fits(chosen: Choices, v: Variant)
    ensures |chosen| > 0 && Fits(chosen, v) ==> v.selectedOptions.Some?
  {
    |chosen| == 0 ||
    (v.selectedOptions.Some? &&
     forall k :: 0 <= k < |v.selectedOptions.value| ==>
       var o := v.selectedOptions.value[k];
       ChosenAs(chosen, o.name, o.value) || Unchosen(chosen, o.name))
  }

  /** The callback reads `v.node.selectedOptions.every` without a guard, so
      once something is chosen every variant it examines (those up to the
      first that fits) must carry selected options. */
  predicate Examinable(chosen: Choices, variants: seq<Variant>)
    ensures |chosen| == 0 ==> Examinable(chosen, variants)
    ensures (forall i :: 0 <= i < |variants| ==> variants[i].selectedOptions.Some?) ==> Examinable(chosen, variants)
    decreases |variants|
  {
    |chosen| == 0 || variants == [] ||
    (variants[0].selectedOptions.Some? && (Fits(chosen, variants[0]) || Examinable(chosen, variants[1..])))
  }

  /** `variants.find(fits)?.node || variants[0]?.node` */
  function ResolveVariant(variants: seq<Variant>, chosen: Choices): (r: Option<Variant>)
    requires Examinable(chosen, variants)
    ensures r.None? <==> variants == []
    ensures |chosen| == 0 && variants != [] ==> r == Some(variants[0])
    ensures (exists i :: 0 <= i < |variants| && Fits(chosen, variants[i])) ==>
              exists i :: 0 <= i < |variants| && r == Some(variants[i]) && Fits(chosen, variants[i]) &&
                          forall j :: 0 <= j < i ==> !Fits(chosen, variants[j])
    ensures variants != [] && (forall i :: 0 <= i < |variants| ==> !Fits(chosen, variants[i])) ==>
              r == Some(variants[0])
  {
    match JsArray.Find(variants, (v: Variant) => Fits(chosen, v))
    case Some(v) => Some(v)
    case None => if variants != [] then Some(variants[0]) else None
  }

  /** A variant that fits agrees with every chosen option it names: a
      non-empty chosen value for one of its options is the variant's own
      value, and none of its options left out of the choices is named after
      an inherited property. */
  lemma FitsAgrees(chosen: Choices, v: Variant, k: nat)
    requires Fits(chosen, v) && |chosen| > 0
    requires v.selectedOptions.Some? && k < |v.selectedOptions.value|
    ensures var o := v.selectedOptions.value[k];
            o.name in chosen && chosen[o.name] != "" ==> chosen[o.name] == o.value
    ensures v.selectedOptions.value[k].name !in chosen ==> v.selectedOptions.value[k].name !in InheritedKeys
  {
  }

  /** Once anything is chosen, a variant with an option named after an
      inherited property that is not itself chosen never fits: the lookup
      finds the inherited property, which is truthy and not the value. */
  lemma InheritedNameRejects(chosen: Choices, v: Variant, k: nat)
    requires |chosen| > 0
    requires v.selectedOptions.Some? && k < |v.selectedOptions.value|
    requires v.selectedOptions.value[k].name in InheritedKeys
    requires v.selectedOptions.value[k].name !in chosen
    ensures !Fits(chosen, v)
  {
    var o := v.selectedOptions.value[k];
    assert !ChosenAs(chosen, o.name, o.value) && !Unchosen(chosen, o.name);
  }

  /** With every chosen value empty, a variant carrying selected options
      fits unless one of its unchosen options is named after an inherited
      property. */
  lemma EmptyChoicesFit(chosen: Choices, v: Variant)
    requires forall n :: n in chosen ==> chosen[n] == ""
    requires v.selectedOptions.Some?
    requires forall k :: 0 <= k < |v.selectedOptions.value| ==>
               v.selectedOptions.value[k].name in chosen || v.selectedOptions.value[k].name !in InheritedKeys
    ensures Fits(chosen, v)
  {
    if |chosen| > 0 {
      forall k | 0 <= k < |v.selectedOptions.value|
        ensures Unchosen(chosen, v.selectedOptions.value[k].name)
      {
      }
    }
  }

  /** `handleAddToCart`: nothing without a resolved variant; otherwise the
      `addItem` argument for it with the page's quantity. */
  function AddToCart(p: Product, resolved: Option<Variant>, quantity: int): (r: Option<CartRequest>)
    ensures r.None? <==> resolved.None?
    ensures r.Some? ==> r.value.variantId == resolved.value.id && r.value.variantTitle == resolved.value.title &&
                        r.value.price == resolved.value.price && r.value.quantity == quantity &&
                        r.value.selectedOptions == resolved.value.selectedOptions.GetOr([]) && r.value.product == p
  {
    match resolved
    case None => None
    case Some(v) => Some(RequestFor(p, v, quantity))
  }

  /** The page's views. */
  datatype DetailView =
    | LoadingSkeleton
    | NotFound
    | Detail(mainImage: Option<Image>, thumbnails: seq<Image>, variant: Option<Variant>)

  /** `images[selectedImage]`, or the placeholder when there is none. */
  function MainImage(images: seq<Image>, selectedImage: nat): (r: Option<Image>)
    ensures r.Some? <==> selectedImage < |images|
    ensures r.Some? ==> r.value == images[selectedImage]
  {
    if selectedImage < |images| then Some(images[selectedImage]) else None
  }

  /** The thumbnails strip, which renders only for more than one image. */
  function Thumbnails(images: seq<Image>): (r: seq<Image>)
    ensures r != [] <==> |images| > 1
    ensures r != [] ==> r == images
  {
    if |images| > 1 then images else []
  }

  /** What the page can show once the product request has settled. */
  predicate Renderable(isLoading: bool, error: bool, product: Option<Product>, chosen: Choices) {
    !isLoading && !error && product.Some? ==> Examinable(chosen, VariantsOf(product.value))
  }

  /** The page: loading first, then an error or a missing product as not
      found, otherwise the product with its image, thumbnails and resolved
      variant. */
  function View(isLoading: bool, error: bool, product: Option<Product>,
                selectedImage: nat, chosen: Choices): (r: DetailView)
    requires Renderable(isLoading, error, product, chosen)
    ensures r.LoadingSkeleton? <==> isLoading
    ensures r.NotFound? <==> !isLoading && (error || product.None?)
    ensures r.Detail? ==> product.Some? &&
                          (r.variant.None? <==> VariantsOf(product.value) == []) &&
                          (r.thumbnails != [] <==> |ImagesOf(product.value)| > 1) &&
                          (r.mainImage.Some? <==> selectedImage < |ImagesOf(product.value)|)
    ensures r.Detail? ==> r == Detail(MainImage(ImagesOf(product.value), selectedImage),
                                      Thumbnails(ImagesOf(product.value)),
                                      ResolveVariant(VariantsOf(product.value), chosen))
  {
    if isLoading then LoadingSkeleton
    else if error || product.None? then NotFound
    else
      var node := product.value;
      Detail(MainImage(ImagesOf(node), selectedImage), Thumbnails(ImagesOf(node)),
             ResolveVariant(VariantsOf(node), chosen))
  }

  /** The page's own state. */
  class DetailState {
    var selectedImage: nat
    var selectedOptions: Choices
    var quantity: int

    /** Starts on the first image, with nothing chosen and quantity 1. */
    constructor ()
      ensures selectedImage == 0 && selectedOptions == map[] && quantity == 1
    {
      selectedImage := 0;
      selectedOptions := map[];
      quantity := 1;
    }

    /** A thumbnail click shows that image. */
    method SelectImage(index: nat)
      modifies this
      ensures selectedImage == index
      ensures selectedOptions == old(selectedOptions) && quantity == old(quantity)
    {
      selectedImage := index;
    }

    /** Add to Cart on the product `p` fetched for the page. */
    method HandleAddToCart(p: Product) returns (r: Option<CartRequest>)
      requires Examinable(selectedOptions, VariantsOf(p))
      ensures r == AddToCart(p, ResolveVariant(VariantsOf(p), selectedOptions), quantity)
      ensures r.None? <==> VariantsOf(p) == []
    {
      var resolved := ResolveVariant(VariantsOf(p), selectedOptions);
      if resolved.None? {
        return None;
      }
      r := Some(RequestFor(p, resolved.value, quantity));
    }
  }

  /** A freshly opened page resolves to the first variant and adds one of
      it to the cart. */
  lemma FreshPageAddsFirstVariant(p: Product)
    requires VariantsOf(p) != []
    ensures AddToCart(p, ResolveVariant(VariantsOf(p), map[]), 1) == Some(RequestFor(p, VariantsOf(p)[0], 1))
  {
  }
}
