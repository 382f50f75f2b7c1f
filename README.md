# Storefront decision logic, modelled in Dafny

This project models the decision logic of a storefront web UI. The storefront sells shirts from a commerce
backend's catalog and also offers a multi-step "build your own shirt" configurator. Rendering, animation, toasts
and the network are stripped away. What is left is stated and proved in Dafny:

- **Configurator** (`customize.dfy`, `src/pages/Customize.jsx`). A class `Configurator` holds the two state
  fields `currentStep` and `selections`. Its methods are the step moves (Next/Back clamped to 1..4, a jump from
  the step indicator) and the five selection handlers. The price is a pure function: base 1999 plus a fabric
  surcharge looked up in the fixed fabric table, with 0 for an unknown fabric.
- **Product detail** (`productdetail.dfy`, `src/pages/ProductDetail.jsx`). Resolution of the selected variant
  (the first variant that fits the chosen options, falling back to the first variant). The choice between the
  loading, not-found and detail views. The main image and thumbnails. What Add to Cart passes to the cart store.
  The page state (`selectedImage`, `selectedOptions`, `quantity`) is a class.
- **Product listing** (`products.dfy`, `src/pages/Products.jsx`). The backend filter string built from the
  category. The case-insensitive title search. The stable price sort of a copy. The heading, the count, and
  the result view in precedence order.
- **Home page** (`home.dfy`, `src/pages/Index.jsx`). The featured section: error, then loading, then the first
  four products, then the empty state.
- **Product card** (`productcard.dfy`, `src/components/ProductCard.jsx`). The first image, variant and price.
  The disabled state and label of the button. Its cart request. The options note and the link.

Shared modules:
- `wrappers.dfy`: `Option`, for optional chaining and `||` fallbacks.
- `text.dfy`: ASCII case mapping and `includes`.
- `jsarray.dfy`: the JavaScript `find`, `filter` and stable `sort`, as pure functions with their contracts.
- `catalog.dfy`: the catalog entities and the record passed to the cart store's `addItem`.

Prices are integers in minor currency units instead of the decimal strings the backend returns. The cart store's
`addItem` belongs to code that is not part of this model. The product card's and the product page's "Add to Cart"
therefore return the argument record they would pass (`Option<CartRequest>`, where `None` means the handler returns
early). The configurator's "Add to Cart" calls no `addItem`: it returns the notification it raises. The cart's
`isLoading` is a boolean parameter.

## Model

| member | source | states |
|---|---|---|
| `Customize.Configurator.constructor` | src/pages/Customize.jsx:49-56 | the wizard opens on step 1 with fabric cotton, style regular, collar classic, sleeve long, color #1E3A5F |
| `Customize.Configurator.NextStep` | src/pages/Customize.jsx:62-64 | Next advances by one below step 4, and at step 4 changes nothing; the selections are untouched; the step stays in 1..4 |
| `Customize.Configurator.PrevStep` | src/pages/Customize.jsx:66-68 | Back goes back by one above step 1, and at step 1 changes nothing; the selections are untouched; the step stays in 1..4 |
| `Customize.Configurator.JumpTo` | src/pages/Customize.jsx:106 | clicking the indicator of any of the four steps sets the step to exactly that step's id, whatever the prior step was |
| `Customize.Configurator.SelectFabric` | src/pages/Customize.jsx:150 | a fabric card overwrites the fabric and leaves the other four fields and the step unchanged |
| `Customize.Configurator.SelectStyle` | src/pages/Customize.jsx:179 | a fit card overwrites the style only |
| `Customize.Configurator.SelectCollar` | src/pages/Customize.jsx:209 | a collar button overwrites the collar only |
| `Customize.Configurator.SelectSleeve` | src/pages/Customize.jsx:225 | a sleeve button overwrites the sleeve only |
| `Customize.Configurator.SelectColor` | src/pages/Customize.jsx:243 | a color swatch overwrites the color only |
| `Customize.Configurator.HandleAddToCart` | src/pages/Customize.jsx:70-75 | the final Add to Cart only raises the "Custom design saved!" notice; it modifies no state |
| `Customize.Configurator.Price` | src/pages/Customize.jsx:58-60 | the component's price is `TotalPrice` of its current selections, so it lies between 1999 and 1999 plus the dearest surcharge |
| `Customize.With` | src/pages/Customize.jsx:150 | the `{ ...selections, field }` update sets the named field and keeps every other field |
| `Customize.FindFabric` | src/pages/Customize.jsx:59 | the fabric lookup returns the first table entry with that id, or nothing exactly when no entry has it |
| `Customize.FabricPrice` | src/pages/Customize.jsx:59 | the surcharge is 0 or a listed fabric's price, and is 0 when the id is not in the table |
| `Customize.TotalPrice` | src/pages/Customize.jsx:58-60 | the total is at least the base price 1999 and at most 1999 + 1500 |
| `Customize.FabricPriceOfListed` | src/pages/Customize.jsx:17-22 | each listed fabric's id finds that entry and adds exactly its own surcharge |
| `Customize.TotalPriceOnlyByFabric` | src/pages/Customize.jsx:58-60 | selections that agree on the fabric have the same total, whatever their style, collar, sleeve or color |
| `Customize.ConcretePrices` | src/pages/Customize.jsx:58-60 | the defaults cost 1999, linen 2499, silk 3499, wool 3199 |
| `Customize.UnlistedFabricPrice` | src/pages/Customize.jsx:59 | for every selection whose fabric id is not in the table, the total is exactly the base price 1999 |
| `Customize.NextOf` | src/pages/Customize.jsx:62-64 | Next keeps a step in 1..4, moves it by at most one, and leaves it where it is exactly from step 4 on |
| `Customize.PrevOf` | src/pages/Customize.jsx:66-68 | Back keeps a step in 1..4, moves it by at most one, and leaves it where it is exactly at step 1 and below |
| `Customize.Nav` | src/pages/Customize.jsx:294-310 | Back is offered exactly when Back would change the step, and Next exactly when Next would, otherwise Add to Cart |
| `Customize.IndicatorOf` | src/pages/Customize.jsx:107-119 | a step's indicator is current for the current step, done for earlier steps and ahead for later ones |
| `Customize.StepMoves` | src/pages/Customize.jsx:62-68 | Next and Back keep the step in 1..4. Each is a no-op exactly at its end. Away from the ends they undo each other |
| `Customize.NavMatchesMoves` | src/pages/Customize.jsx:294-310 | Back shows iff step > 1, which is iff Back changes the step. Next shows iff step < 4, which is iff Next changes the step. Otherwise Add to Cart shows, which happens exactly on the last step |
| `Customize.IndicatorsAgree` | src/pages/Customize.jsx:107-119 | in a valid state exactly the current step's indicator is highlighted, and exactly the earlier ones show as done |
| `Customize.ChoiceName` | src/pages/Customize.jsx:263-271 | the preview's name lookup finds a name iff some entry has the id, and then it is the first such entry's name |
| `Customize.ChoiceNameAt` | src/pages/Customize.jsx:263-271 | a listed choice's id previews as that choice's name |
| `Customize.SummaryOf` | src/pages/Customize.jsx:257-284 | the preview shows the selected color and the total price. It names the fabric iff it is listed, and then by the found entry's name. Its fit, collar and sleeve names are the lookups of the selected ids in their tables |
| `Customize.DefaultSummary` | src/pages/Customize.jsx:49-56 | each default is an entry of its table and the default color is one of the swatches of lines 43-46. The defaults preview as Premium Cotton, Regular Fit, Classic Collar, Long Sleeve, #1E3A5F, 1999 |
| `JsArray.FindIndex` | src/pages/ProductDetail.jsx:76 | `find` stops at the first element that satisfies the callback, and finds nothing only if no element does |
| `JsArray.Find` | src/pages/ProductDetail.jsx:76-82 | `find` returns an element satisfying the callback that no earlier element satisfies, and nothing exactly when none does |
| `JsArray.Filter` | src/pages/Products.jsx:53-55 | `filter` returns an order-preserving subsequence whose elements all pass. It keeps every occurrence of every passing element: each passing element occurs in the result exactly as often as in the input |
| `JsArray.FilterKeepsAll` | src/pages/Products.jsx:53-55 | a filter that passes every element returns its input |
| `JsArray.Sort` | src/pages/Products.jsx:57 | the sorted copy is a permutation of its input |
| `JsArray.SortOrdered` | src/pages/Products.jsx:57 | with a total, transitive comparator no element of the sorted copy sorts after a later one |
| `JsArray.SortKeepsOrderOnTies` | src/pages/Products.jsx:70 | a comparator that never orders an element after another leaves the input order as it is |
| `Text.IncludesIffOccurs` | src/pages/Products.jsx:54 | `includes` holds exactly when the part occurs at some offset |
| `Text.Includes` | src/pages/Products.jsx:54 | `includes` never finds a part longer than the string |
| `Text.UpperChar` | src/pages/Products.jsx:85 | `toUpperCase` of a character maps 'a'..'z' to the capital whose lower case it is, and keeps every other character |
| `Text.ToLower` | src/pages/Products.jsx:54 | `toLowerCase` keeps the length and lower-cases each character (ASCII letters) |
| `Products.CategoryParam` | src/pages/Products.jsx:42 | a missing category parameter becomes the empty string; a present one is used as given |
| `Products.ShopifyQuery` | src/pages/Products.jsx:49 | the backend filter is empty iff the category is empty, and otherwise begins with `product_type:` |
| `Products.QueryRoundTrip` | src/pages/Products.jsx:49 | the category can be read back from the filter built for it |
| `Products.TitleMatches` | src/pages/Products.jsx:54 | a title matches iff its lower-cased form contains the lower-cased query at some offset; the empty query matches every title |
| `Products.FilterProducts` | src/pages/Products.jsx:52-55 | absent products give []. Otherwise the result is an order-preserving subsequence of the fetched products. Every kept title contains the query case-insensitively, and every matching product is kept as often as it was fetched |
| `Products.EmptySearchKeepsAll` | src/pages/Products.jsx:52-55 | an empty search keeps every fetched product in order |
| `Products.KeptTitleContainsQuery` | src/pages/Products.jsx:54 | each kept title, lower-cased, contains the lower-cased query at some offset |
| `Products.SortProducts` | src/pages/Products.jsx:57 | the sorted list is a permutation of the filtered list; it is a new value, so the filtered list is not changed |
| `Products.PriceKey` | src/pages/Products.jsx:60-61 | the sort key is the product's minimum variant price. The fallback 0 for a missing price applies only where `Sortable` rules out a comparison |
| `Products.Sortable` | src/pages/Products.jsx:57-69 | the sort cannot throw for a list of fewer than two or for a key other than the two price keys. Under a price key it cannot throw exactly when every product carries a minimum price |
| `Products.Compare` | src/pages/Products.jsx:57-71 | under `price-low` a pair is in order iff the first price is not higher. Under `price-high` it is in order iff the first price is not lower. Under any other key every pair ties |
| `Products.ComparatorConsistent` | src/pages/Products.jsx:57-71 | the sort callback is total and transitive for every sort key |
| `Products.SortPriceLow` | src/pages/Products.jsx:58-63 | `price-low` yields non-decreasing minimum prices |
| `Products.SortPriceHigh` | src/pages/Products.jsx:64-69 | `price-high` yields non-increasing minimum prices |
| `Products.SortOtherKeepsOrder` | src/pages/Products.jsx:70 | any other sort key keeps the filtered order |
| `Products.Heading` | src/pages/Products.jsx:84-86 | the heading is "All Products" exactly when there is no category |
| `Products.HeadingNamesCategory` | src/pages/Products.jsx:84-86 | a category heading is the category with an upper-cased first character followed by "'s Collection", and it lower-cases to the lower-cased category |
| `Products.Results` | src/pages/Products.jsx:197-246 | error shows the failure. Otherwise loading shows six placeholders. Otherwise a non-empty sorted list shows exactly those cards. Otherwise the empty state shows, hinting at the search when a query is set and at an empty store otherwise |
| `Products.ListingPage` | src/pages/Products.jsx:84-89 | the heading is "All Products" iff the category parameter is missing or empty, and the count is the number of matching products |
| `Products.ListingShowsMatches` | src/pages/Products.jsx:197-246 | the count equals the number of matching products. The views come in precedence order. An error shows the failure. Otherwise loading shows six placeholders. Otherwise matching products are always shown, as the sorted matches, whose multiset is that of the matches. Otherwise the empty state shows, with the search hint iff a query is set |
| `Products.DefaultListing` | src/pages/Products.jsx:42-89 | with no category, no search and the initial sort, the page is headed "All Products" and lists every fetched product in the order fetched |
| `ProductDetail.LookupChoice` | src/pages/ProductDetail.jsx:80-81 | `selectedOptions[name]` on a plain object reads the own value when the name was chosen, otherwise an inherited `Object.prototype` property for those names, otherwise undefined |
| `ProductDetail.Unchosen` | src/pages/ProductDetail.jsx:81 | `!selectedOptions[name]` holds iff the name was chosen as "", or was not chosen and is not an inherited property name |
| `ProductDetail.ChosenAs` | src/pages/ProductDetail.jsx:80 | `selectedOptions[name] === value` holds iff the name was chosen with exactly that value |
| `ProductDetail.Fits` | src/pages/ProductDetail.jsx:76-82 | once anything is chosen, only a variant that carries selected options can fit |
| `ProductDetail.Examinable` | src/pages/ProductDetail.jsx:76-82 | the resolution never throws when nothing is chosen, nor when every variant carries selected options |
| `ProductDetail.ResolveVariant` | src/pages/ProductDetail.jsx:75-83 | with no options chosen the first variant is resolved. Otherwise the first variant that fits is resolved, falling back to the first variant. The result is undefined only for an empty variant list |
| `ProductDetail.FitsAgrees` | src/pages/ProductDetail.jsx:78-82 | a fitting variant's value for every one of its options with a non-empty choice is the chosen value, and none of its unchosen options is named after an inherited property |
| `ProductDetail.InheritedNameRejects` | src/pages/ProductDetail.jsx:78-82 | once anything is chosen, a variant with an unchosen option named like an `Object.prototype` property (e.g. "constructor") never fits |
| `ProductDetail.EmptyChoicesFit` | src/pages/ProductDetail.jsx:78-82 | choices that are all empty strings reject no variant that has selected options, unless one of its unchosen options is named after an inherited property |
| `ProductDetail.AddToCart` | src/pages/ProductDetail.jsx:85-95 | nothing is added without a resolved variant. Otherwise the request carries that variant's id, title and price, the page's quantity, and its selected options or [] |
| `ProductDetail.MainImage` | src/pages/ProductDetail.jsx:124-134 | the main image is the selected one when that index exists, otherwise the placeholder |
| `ProductDetail.Thumbnails` | src/pages/ProductDetail.jsx:137-157 | thumbnails render, all of them, only when there is more than one image |
| `ProductDetail.View` | src/pages/ProductDetail.jsx:35-83 | loading beats error. An error or a missing product gives "Product not found". The detail view shows `MainImage` of the selected index, `Thumbnails` of all images and `ResolveVariant` of the chosen options: so it has a variant iff the product has variants, thumbnails iff the product has more than one image, and a main image iff the selected index exists |
| `ProductDetail.DetailState.constructor` | src/pages/ProductDetail.jsx:31-33 | the page starts on image 0 with no options chosen and quantity 1 |
| `ProductDetail.DetailState.SelectImage` | src/pages/ProductDetail.jsx:142 | a thumbnail click selects that image and changes nothing else |
| `ProductDetail.DetailState.HandleAddToCart` | src/pages/ProductDetail.jsx:85-95 | the page's Add to Cart makes the request for the resolved variant, and makes none exactly when the product has no variants |
| `ProductDetail.FreshPageAddsFirstVariant` | src/pages/ProductDetail.jsx:31-95 | on a freshly opened page Add to Cart requests one of the first variant |
| `Catalog.ImagesOf` | src/pages/ProductDetail.jsx:71 | `images?.edges || []`: the product's images when present, and [] otherwise |
| `Catalog.VariantsOf` | src/pages/ProductDetail.jsx:72 | `variants?.edges || []`: the product's variants when present, and [] otherwise |
| `Catalog.RequestFor` | src/pages/ProductDetail.jsx:88-95 | the `addItem` argument carries the variant's id, title and price, the quantity, and its selected options or [] when it has none |
| `Home.FirstFew` | src/pages/Index.jsx:229 | `slice(0, 4)` is the first min(4, n) products in order |
| `Home.FeaturedSection` | src/pages/Index.jsx:213-240 | products are featured iff there is no error, no loading and a non-empty list, and then one to four of them |
| `Home.FeaturedPrecedence` | src/pages/Index.jsx:213-240 | an error shows the failure whatever else holds. Loading without an error shows exactly 4 placeholders. Otherwise a non-empty list is always shown, as `FirstFew` of it: all of fewer than four, four of more. "No products yet" shows iff there is no error or loading and the products are absent or empty |
| `ProductCard.First` | src/components/ProductCard.jsx:14-15 | the card takes element 0 of a connection, or nothing for a missing or empty one |
| `ProductCard.CardImage` | src/components/ProductCard.jsx:14 | the card's image is the first image iff the product has any |
| `ProductCard.CardVariant` | src/components/ProductCard.jsx:15 | the card's variant is the first variant iff the product has any |
| `ProductCard.ButtonDisabled` | src/components/ProductCard.jsx:77 | the button is disabled iff the cart is loading or the first variant is missing or not for sale |
| `ProductCard.ForSale` | src/components/ProductCard.jsx:77-81 | `variant?.availableForSale` holds only for a present variant, and then exactly when that variant is for sale |
| `ProductCard.ButtonLabel` | src/components/ProductCard.jsx:81 | the label is "Add to Cart" iff the first variant is for sale, otherwise "Sold Out" |
| `ProductCard.CardAddToCart` | src/components/ProductCard.jsx:22-31 | nothing is added without a first variant. Otherwise the request has quantity 1 and the first variant's id, title, price and selected options or [] |
| `ProductCard.ButtonConsistent` | src/components/ProductCard.jsx:77-81 | an enabled button reads "Add to Cart" and adds the first variant. A "Sold Out" button is always disabled, and so is every button while the cart is busy |
| `ProductCard.OptionsNote` | src/components/ProductCard.jsx:95-101 | "N options available" shows iff the first option has more than one value, with N that value count |
| `ProductCard.LinkTarget` | src/components/ProductCard.jsx:47 | the link is "/product/" followed by the handle: its first nine characters are the route and the rest is the handle |
| `ProductCard.LinkRoundTrip` | src/components/ProductCard.jsx:47 | the handle can be read back from the link |
| `ProductCard.CardOf` | src/components/ProductCard.jsx:13-101 | the card shows the first image (iff there is one), the title and `priceRange.minVariantPrice`. Its button state and label, its options note and its link are those of `ButtonDisabled`, `ButtonLabel`, `OptionsNote` and `LinkTarget` |

## Left out

- `Products.SortProducts` requires `Products.Sortable`. Sorting by price reads `priceRange.minVariantPrice` without a
  guard, so a list of two or more with a product lacking it throws a `TypeError`, which the model does not represent.
- `ProductDetail.ResolveVariant` requires `ProductDetail.Examinable`. Once any option is chosen, the resolution reads
  `selectedOptions.every` without a guard on each variant up to the first that fits. A variant lacking selected
  options there throws a `TypeError`, which the model does not represent.
- Request sizes: the listing asks the query hook for 50 products and the home page for 8. Those numbers are only
  passed to the hook, which is left out. The home page shows at most four of whatever it receives.
- The cart store (`src/stores/cartStore`) is not part of this model, so neither are the merging of line items,
  rollback or the ordering of its mutations. `addItem` is represented only by the argument record it receives.
- `src/hooks/useProducts.js` (the query hook and the storefront request) is left out: it is network I/O. Its
  results enter as parameters: the fetched products, `isLoading` and `error`.
- `convert.mjs` is left out: it walks, reads and rewrites files and rewrites source text with regular expressions.
- `Header.jsx` and `Footer.jsx` are left out: they are static navigation and layout.
- Toast notifications are left out, except the configurator's "saved" notice, which is its handler's only effect.
  Animation, CSS classes, routing, icons and the unused filter checkboxes are left out too.
- `Products.Controls`: the grid/list `viewMode` is kept in the state, but it only chooses CSS classes.
- Prices are integers in minor units. Parsing price strings with `parseFloat`, and formatting prices with
  `formatPrice` and `toLocaleString`, are not modelled.
- `Text.ToLower`: case mapping covers the ASCII letters only, while JavaScript's `toLowerCase` and `toUpperCase`
  map all of Unicode. `Products.FilterProducts` and `Products.HeadingNamesCategory` inherit this.
- `JsArray.Sort`: the sort is a stable insertion sort. For a consistent comparator, every stable sort (as
  ECMAScript has required since 2019) produces this same order. Stability for equal prices follows from the
  construction, but only the all-ties case is stated as a lemma.
- `ProductDetail.DetailState`: `ProductDetail.jsx` elides its JSX after the thumbnails, where the handlers that
  change `selectedOptions` and `quantity` would be. Only those fields' initial values are modelled.
- `async`/`await` of the add-to-cart handlers: each is modelled as one sequential call.
- The `handle || ""` and `enabled: !!handle` guards on the product request belong to the query hook and are
  left out with it.
