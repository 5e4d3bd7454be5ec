# Storefront display rules, catalog pipeline and toast queue in Dafny

This project models the client-side logic of a small e-commerce storefront
written in React and TypeScript, and proves properties of that model. Three
parts are covered:

- **The toast notification queue** (`useToast`). It is an ordered list of
  `{id, message, type}` records. `addToast` appends a record with a fresh id,
  with `'info'` as the default type, and schedules an eviction of that id after
  4000 ms. `removeToast` filters the id out. The eviction callback applies the
  same filter. The model is the class `Toasts.ToastQueue`. Its field `toasts`
  is updated by `AddToast`, `RemoveToast` and `Evict`. The pure updaters are
  `Appended` and `Without`. The class invariant says three things: ids strictly
  increase from front to back, so they are unique and in creation order; every
  queued entry is one that was added and was never changed; and every queued
  toast still has an eviction pending.
- **The catalog filter-and-sort effect** (`ProductCatalog`). Applying the
  optional category, brand, effective-price range and minimum-rating filters in
  turn, then sorting by the chosen key, gives exactly the products that pass
  every filter, each as often as in the catalog, sorted by that key. The sort is
  an in-place insertion sort on an array (`SortProducts`). `CatalogView` keeps
  the shown list in step with the filter and sort state, including the reset to
  the initial filters. `Distinct` models the category and brand menus.
- **Price, stock and image display rules** (`ProductCard`, `ProductDetails`).
  These cover the effective price `discount_price || price`, where a zero
  discount counts as no discount for the price, the percentage and the badges. They also cover the rounded discount
  percentage and when its badge shows, the three stock classes and their texts,
  the card's low-stock badge, and the add buttons and the cart calls they make.
  The rest are the star rows, the main-image fallback, the quantity stepper
  (never below 1) and the specification labels, where only the first `_` is
  replaced.

Modules: `Types` (product, review and cart-call values), `Sequences`
(general sequence helpers), `DisplayRules` (price, stock, button and star rules
shared by the card, the details page and the catalog), `ProductCard`,
`ProductDetails`, `Catalog` and `Toasts`.

Two details of the toast code the model keeps:

- `addToast` returns nothing. The model's `AddToast` returns the new id only
  so that a caller can name the toast.
- `removeToast` does not cancel the toast's timer. The timer still fires
  later, and then filters a queue that no longer holds the id.

## Model

| member | source | states |
|---|---|---|
| `DisplayRules.EffectivePriceChoice` | src/components/products/ProductCard.tsx:95 | the shown price is the discount price when it is present and non-zero, otherwise the list price; a zero discount gives the same price as no discount |
| `DisplayRules.HasDiscount` | src/components/products/ProductCard.tsx:15 | `discount_price` is truthy: present and not zero (its meaning is stated by `DisplayRules.EffectivePriceChoice`) |
| `DisplayRules.EffectivePrice` | src/components/products/ProductCatalog.tsx:172 | the truthy discount price, else the list price, as stated by `DisplayRules.EffectivePriceChoice` |
| `DisplayRules.AddDisabled` | src/components/products/ProductCard.tsx:107 | both add buttons are disabled at stock exactly 0 (`ProductCard.ClickAdd`, `ProductDetails.DetailsView.ClickAdd`) |
| `DisplayRules.Round` | src/components/products/ProductDetails.tsx:40 | `Math.round` yields the integer within half of its argument, halves rounded up |
| `DisplayRules.DiscountPercentage` | src/components/products/ProductCard.tsx:15-17 | 0 without a non-zero discount, otherwise the saved percentage `(price - d) / price * 100` rounded to the nearest integer |
| `DisplayRules.DiscountPercentageInRange` | src/components/products/ProductDetails.tsx:39-41 | a discount in `(0, price]` gives a percentage between 0 and 100 |
| `DisplayRules.DiscountPercentagePositive` | src/components/products/ProductCard.tsx:34 | for a positive list price, the discount badge shows exactly when a non-zero discount saves at least half a percent |
| `DisplayRules.PositivePercentageMeansCheaper` | src/components/products/ProductCard.tsx:34 | for a positive list price, a shown discount badge implies the effective price is below the list price |
| `DisplayRules.StockLevelOf` | src/components/products/ProductDetails.tsx:140-147 | stock above 10 is in stock, 1 to 10 is low stock carrying the count, 0 or below is out of stock; each value falls in exactly one class |
| `DisplayRules.RatingStars` | src/components/products/ProductCard.tsx:76-84 | the product star row, characterized by `DisplayRules.RatingStarsCount` |
| `DisplayRules.RatingStarsCount` | src/components/products/ProductCard.tsx:76-84 | star `i` of 5 is filled iff `i < floor(rating)`; filled stars come first and number `floor(rating)` clamped to 0..5 |
| `ProductCard.ShowDiscountBadge` | src/components/products/ProductCard.tsx:34 | the "-N%" badge shows when the percentage is positive (`DisplayRules.DiscountPercentagePositive`) |
| `ProductCard.ShowListPrice` | src/components/products/ProductCard.tsx:97 | the struck-through price shows when the discount is truthy (`ProductCard.DiscountBadgeImpliesListPrice`, `ProductCard.ListPriceWithoutBadge`) |
| `ProductCard.ShowLowStockBadge` | src/components/products/ProductCard.tsx:41 | the "Only N left!" badge shows for stock 1 to 9 (`ProductCard.LowStockBadgeVsStockLevel`) |
| `ProductCard.AddLabel` | src/components/products/ProductCard.tsx:112 | the button text, characterized by `ProductCard.AddLabelMatchesDisabled` |
| `ProductCard.ClickAdd` | src/components/products/ProductCard.tsx:19-22 | a click does nothing iff the button is disabled; otherwise it calls the cart with the product and no quantity |
| `ProductCard.DiscountBadgeImpliesListPrice` | src/components/products/ProductCard.tsx:97-101 | the discount badge appears only with the struck-through list price, and for a positive list price only when the effective price is lower |
| `ProductCard.ListPriceWithoutBadge` | src/components/products/ProductCard.tsx:34 | for a positive list price, every truthy discount saving less than half a percent (so rounding to 0%) shows the struck-through price but no badge |
| `ProductCard.ListPriceWithoutBadgeExample` | src/components/products/ProductCard.tsx:34 | such a discount exists: 99.9 against 100 |
| `ProductCard.AddLabelMatchesDisabled` | src/components/products/ProductCard.tsx:105-113 | the button reads "Out of Stock" iff it is disabled (stock exactly 0), otherwise "Add to Cart" |
| `ProductCard.LowStockBadgeVsStockLevel` | src/components/products/ProductCard.tsx:41 | the card's low-stock badge implies the details page's low-stock class; the two disagree exactly at stock 10 |
| `ProductDetails.NatToString` | src/components/products/ProductDetails.tsx:146 | the stock count is written as a non-empty string of decimal digits, with no leading zero (the first digit is `0` only for 0) |
| `ProductDetails.NatToStringRoundTrip` | src/components/products/ProductDetails.tsx:146 | reading the written digits back gives the count |
| `ProductDetails.StockText` | src/components/products/ProductDetails.tsx:145-147 | the stock text, characterized by `ProductDetails.StockTextBranches` and `ProductDetails.StockTextInjective` |
| `ProductDetails.StockTextBranches` | src/components/products/ProductDetails.tsx:145-147 | "In Stock" iff stock > 10, "Out of Stock" iff stock <= 0, otherwise "Only N left!" with N the stock |
| `ProductDetails.StockTextInjective` | src/components/products/ProductDetails.tsx:146 | two different low stock values never give the same text |
| `ProductDetails.OutOfStockTextVsButton` | src/components/products/ProductDetails.tsx:187 | a disabled add button comes with "Out of Stock"; a negative stock reads "Out of Stock" with the button enabled |
| `ProductDetails.DiscountAboveListPrice` | src/components/products/ProductDetails.tsx:126-133 | for a positive list price, a discount above it is truthy and gives a percentage of at most 0; it is negative exactly when the discount exceeds 1.005 times the list price, so a discount only slightly above shows "-0% OFF" |
| `ProductDetails.IntText` | src/components/products/ProductDetails.tsx:132 | an integer as the template writes it: a leading `-` exactly for a negative number, then decimal digits that read back as its magnitude |
| `ProductDetails.OffBadgeText` | src/components/products/ProductDetails.tsx:131-133 | the badge text: a literal `-`, the percentage as written by `ProductDetails.IntText`, then "% OFF" (stated by `ProductDetails.DiscountAboveListPriceExamples`) |
| `ProductDetails.DiscountAboveListPriceExamples` | src/components/products/ProductDetails.tsx:126-133 | 125 against 100 gives the percentage -25, shown as "--25% OFF"; 100.4 against 100 gives 0, shown as "-0% OFF" |
| `ProductDetails.MainImage` | src/components/products/ProductDetails.tsx:62 | the selected image when it is truthy, else `image_url`, characterized by `ProductDetails.MainImageRule` |
| `ProductDetails.MainImageRule` | src/components/products/ProductDetails.tsx:62 | the main image is the selected image when it exists and is non-empty, otherwise `image_url`; it is empty only if `image_url` is |
| `ProductDetails.ShowThumbnails` | src/components/products/ProductDetails.tsx:68 | the thumbnail strip shows for more than one image; `ProductDetails.DetailsView.SelectImage` requires it |
| `ProductDetails.ReviewStars` | src/components/products/ProductDetails.tsx:232-239 | the star row of one `Review`, read from `review.rating`, characterized by `ProductDetails.StarRulesCompared` |
| `ProductDetails.StarRulesCompared` | src/components/products/ProductDetails.tsx:232-239 | a review star `i` is filled iff `i < review.rating`; for whole ratings this equals the product rule, and for 4.5 the two rows differ (5 vs 4 stars) |
| `ProductDetails.SpecLabel` | src/components/products/ProductDetails.tsx:208 | the label has the key's length, the first `_` becomes a space, every other character is kept, and a key without `_` is unchanged |
| `ProductDetails.SpecLabelKeepsLaterUnderscores` | src/components/products/ProductDetails.tsx:208 | underscores after the first stay |
| `ProductDetails.DetailsView.constructor` | src/components/products/ProductDetails.tsx:36-37 | quantity starts at 1 and the selected image at 0 |
| `ProductDetails.DetailsView.Decrement` | src/components/products/ProductDetails.tsx:168 | the minus button sets `max(1, quantity - 1)`, keeping quantity at least 1 |
| `ProductDetails.DetailsView.Increment` | src/components/products/ProductDetails.tsx:175 | the plus button adds exactly 1 |
| `ProductDetails.DetailsView.SelectImage` | src/components/products/ProductDetails.tsx:68-73 | a thumbnail click, possible only with more than one image, selects that index |
| `ProductDetails.DetailsView.Shown` | src/components/products/ProductDetails.tsx:62 | the large image for the current selection: the selected image when it is not empty, otherwise `image_url`; it is one of the product's images or `image_url`, and empty only if `image_url` is (via `ProductDetails.MainImageRule`) |
| `ProductDetails.DetailsView.ClickAdd` | src/components/products/ProductDetails.tsx:43-45 | disabled iff stock is 0; otherwise the cart gets the product and the current quantity, which is at least 1 |
| `Toasts.SeverityOrDefault` | src/hooks/useToast.tsx:12 | the type defaults to `info`, stated by `Toasts.ToastQueue.AddToast` |
| `Toasts.Appended` | src/hooks/useToast.tsx:16 | the new queue is the old one, unchanged and in order, followed by exactly one new entry |
| `Toasts.Without` | src/hooks/useToast.tsx:24 | an entry is kept iff it was queued and its id differs; the id is gone afterwards |
| `Toasts.WithoutAbsent` | src/hooks/useToast.tsx:24 | removing an id that is not queued leaves the queue unchanged |
| `Toasts.WithoutIdempotent` | src/hooks/useToast.tsx:23-25 | removing twice equals removing once |
| `Toasts.WithoutCommutes` | src/hooks/useToast.tsx:18-25 | dismissals and evictions of two ids give the same queue in either order |
| `Toasts.WithoutIsSubsequence` | src/hooks/useToast.tsx:24 | removal keeps the remaining entries in their original order |
| `Toasts.AddThenRemove` | src/hooks/useToast.tsx:12-25 | removing a freshly added toast restores the previous queue |
| `Toasts.WithoutPresent` | src/hooks/useToast.tsx:23-25 | with unique ids, removing a queued id drops exactly that one entry |
| `Toasts.WithoutIncreasing` | src/hooks/useToast.tsx:13-24 | removal keeps ids in creation order |
| `Toasts.IncreasingIsDistinct` | src/hooks/useToast.tsx:13 | ids in creation order are pairwise distinct |
| `Toasts.ToastQueue.constructor` | src/hooks/useToast.tsx:10 | the queue starts empty, with no eviction pending |
| `Toasts.ToastQueue.AddToast` | src/hooks/useToast.tsx:12-21 | appends one toast with an id never issued before, with type `info` when none is given, and schedules its eviction; the invariant is kept |
| `Toasts.ToastQueue.RemoveToast` | src/hooks/useToast.tsx:23-25 | the queue becomes the old one without that id; pending evictions are untouched |
| `Toasts.ToastQueue.Evict` | src/hooks/useToast.tsx:18-20 | the timer's callback applies the same filter as `removeToast` and is no longer pending |
| `Toasts.ToastQueue.RemovalKeepsValid` | src/hooks/useToast.tsx:19-24 | what a removal leaves is still taken unchanged from the added toasts, with no new ids |
| `Catalog.Filter` | src/components/products/ProductCatalog.tsx:164 | `filter` keeps each element passing the test as often as it occurs, and nothing else |
| `Catalog.FilterConcat` | src/components/products/ProductCatalog.tsx:164 | `filter` keeps input order: filtering two consecutive parts and joining the results is filtering the whole |
| `Catalog.MatchesCategory` | src/components/products/ProductCatalog.tsx:163-165 | the category step, stated by `Catalog.CategoryAndBrandFilters` |
| `Catalog.MatchesBrand` | src/components/products/ProductCatalog.tsx:167-169 | the brand step, stated by `Catalog.CategoryAndBrandFilters` |
| `Catalog.InPriceRange` | src/components/products/ProductCatalog.tsx:171-174 | the price step, stated by `Catalog.PriceRangeFilter` |
| `Catalog.MeetsRating` | src/components/products/ProductCatalog.tsx:176-178 | the rating step, stated by `Catalog.RatingFilter` |
| `Catalog.MatchingCounts` | src/components/products/ProductCatalog.tsx:160-178 | a product is in the filtered list, with its catalog multiplicity, iff it passes every active filter |
| `Catalog.CategoryAndBrandFilters` | src/components/products/ProductCatalog.tsx:163-169 | a non-empty category or brand keeps only that category or brand; an empty category, or an empty brand, excludes nothing whatever the other filters are |
| `Catalog.PriceRangeFilter` | src/components/products/ProductCatalog.tsx:171-174 | every result's effective price is within the inclusive range; a reversed range gives no result |
| `Catalog.RatingFilter` | src/components/products/ProductCatalog.tsx:176-178 | a positive minimum rating keeps only ratings at least that high; 0 restricts nothing |
| `Catalog.DefaultFiltersOnlyPrice` | src/components/products/ProductCatalog.tsx:151-156 | under the initial filters a product passes iff its effective price is in `[0, 1000]` |
| `Catalog.NameCompare` | src/components/products/ProductCatalog.tsx:192 | the name comparison returns -1, 0 or 1 |
| `Catalog.NameCompareAntisymmetric` | src/components/products/ProductCatalog.tsx:192 | swapping the names negates the comparison, and 0 means equal names |
| `Catalog.NameCompareTransitive` | src/components/products/ProductCatalog.tsx:192 | the name order is transitive |
| `Catalog.KeyOf` | src/components/products/ProductCatalog.tsx:182-192 | the `sortBy` cases, any other value falling to the name order; its meaning is stated by `Catalog.SortedMeaning` |
| `Catalog.Compare` | src/components/products/ProductCatalog.tsx:181-194 | the comparator, stated by `Catalog.PrecedesTotal`, `Catalog.PrecedesTransitive` and `Catalog.SortedMeaning` |
| `Catalog.PrecedesTotal` | src/components/products/ProductCatalog.tsx:181-194 | for every key, of any two products one may precede the other |
| `Catalog.PrecedesTransitive` | src/components/products/ProductCatalog.tsx:181-194 | for every key, the comparator's order is transitive |
| `Catalog.SortedMeaning` | src/components/products/ProductCatalog.tsx:182-193 | a sorted list has non-decreasing effective price for `price_low`, non-increasing for `price_high`, non-increasing rating for `rating`, newest first for `newest`, ascending names otherwise |
| `Catalog.SortProducts` | src/components/products/ProductCatalog.tsx:181 | the in-place sort leaves the array sorted by the key and a permutation of its old contents |
| `Catalog.SortedCopy` | src/components/products/ProductCatalog.tsx:181 | sorting a copy gives a sorted permutation of the list |
| `Catalog.FilterAndSort` | src/components/products/ProductCatalog.tsx:159-197 | the effect's result is a permutation of exactly the products passing every filter, sorted by the chosen key |
| `Catalog.Distinct` | src/components/products/ProductCatalog.tsx:199-200 | each value once, nothing else, in order of first occurrence |
| `Catalog.MenusListEachValueOnce` | src/components/products/ProductCatalog.tsx:199-200 | the category (brand) menu, `Distinct` of `CategoriesOf` (`BrandsOf`), the models of `products.map(p => p.category)` (`p.brand`), lists exactly the catalog's categories (brands), each once |
| `Catalog.CatalogView.constructor` | src/components/products/ProductCatalog.tsx:147-156 | mounting starts with the initial filters and name sort, and the shown list already reflects them |
| `Catalog.CatalogView.SetFilters` | src/components/products/ProductCatalog.tsx:278-343 | a filter change is followed by the effect, so the shown list reflects the new filters |
| `Catalog.CatalogView.ClearFilters` | src/components/products/ProductCatalog.tsx:355-360 | clearing restores `''`, `''`, `[0, 1000]`, `0` and refreshes the shown list |
| `Catalog.CatalogView.SetSortBy` | src/components/products/ProductCatalog.tsx:241 | a sort change re-sorts the shown list by the new key |
| `Catalog.CatalogView.ShownAtMostAll` | src/components/products/ProductCatalog.tsx:211 | "Showing N of M": N never exceeds M |

## Left out

- Cart: `contexts/CartContext` is not part of this model. Only the arguments of the `addToCart` calls are modelled. Merging, totals and the header's item-count badge are not.
- Auth, theme, routing, the header's search guard, the admin panel, the dashboard and the home page: not part of this model. They lie outside the catalog, product and toast logic: routing (`App.tsx`) only selects which view to show, the search guard (`Header.tsx`) is a single `trim()` check before switching to the search view, and the others do not take part in the catalog, product or toast logic.
- A zero discount makes `{product.discount_price && (...)}` evaluate to the number 0, which React renders as a stray "0" where a missing discount renders nothing; rendering is not modelled, so the model treats both alike.
- React machinery: `useState`/`useEffect` scheduling, rendering, CSS classes (including `capitalize` on specification labels) and event propagation are left out. An effect is modelled as running right after the state change that triggers it.
- Time: the 4000 ms delay is not modelled, and there is no clock. A pending eviction is an id in `timers`, and the timer firing is the `Evict` event, which may happen at any point.
- Randomness: `crypto.randomUUID` is replaced by a counter. Ids are creation ordinals, so a new id is never equal to any id issued before.
- `ToastContainer` calls `useToast()` itself and so owns its own queue. The model has one queue object.
- Stock counts and review counts are integers in the model (`stockQuantity`, `reviewCount`); the source's `number` could hold a fraction, which the templates would print (such as "Only 2.5 left!").
- Floating point: prices and ratings are exact reals. IEEE rounding, `NaN`, `Infinity` and `toFixed(2)` formatting are not modelled.
- `DisplayRules.DiscountPercentage`: requires a non-zero list price when a discount is present, because the source's division by zero would yield `Infinity` or `NaN`.
- `localeCompare` is modelled as lexicographic order on character codes (`NameCompare`). `new Date(created_at).getTime()` is modelled as a timestamp already stored in the product (`createdAt`).
- Catalog.FilterAndSort: does not state the relative order of products that compare equal. `Array.prototype.sort` is stable, and that stability is not proved.
- Catalog.SortProducts: the source calls the engine's `sort`, whose algorithm is not visible. The model sorts with an insertion sort and states only its result.
- The catalog's individual filter controls each build the next `filters` record (`{...prev, field: value}`). The model passes that record to `CatalogView.SetFilters`. A slider's `parseInt` is reflected only in the integer type of the bounds.
- The mock product and review data are fixtures and are not modelled. The catalog's products are a constructor parameter.
- Specification entries are modelled as a sequence of key/value pairs. The iteration order of `Object.entries` is not modelled.
