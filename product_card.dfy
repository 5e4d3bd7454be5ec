/** The product card of the catalog grid. It has no state of its own: every
    value it shows is derived from the product it is given. */
module ProductCard {
  import opened Types
  import opened DisplayRules

  /** The red "-N%" badge. */
  predicate ShowDiscountBadge(p: Product)
    requires HasDiscount(p) ==> p.price != 0.0
  {
    DiscountPercentage(p) > 0
  }

  /** The struck-through list price beside the effective price. */
  predicate ShowListPrice(p: Product) {
    HasDiscount(p)
  }

  /** The orange "Only N left!" badge. */
  predicate ShowLowStockBadge(p: Product) {
    p.stockQuantity < 10 && p.stockQuantity > 0
  }

  function AddLabel(p: Product): string {
    if p.stockQuantity == 0 then "Out of Stock" else "Add to Cart"
  }

  /** Clicking the add button: a disabled button does nothing; an enabled
      one calls the cart with the product and no quantity argument. */
  function ClickAdd(p: Product): (call: Option<CartCall>)
    ensures call.None? <==> AddDisabled(p.stockQuantity)
    ensures call.Some? ==> call.value.product == p && call.value.quantity.None?
  {
    if AddDisabled(p.stockQuantity) then None else Some(AddToCart(p, None))
  }

  /** The discount badge is shown only alongside the struck-through price, and
      for a positive list price only when the effective price is lower. */
  lemma DiscountBadgeImpliesListPrice(p: Product)
    requires HasDiscount(p) ==> p.price != 0.0
    ensures ShowDiscountBadge(p) ==> ShowListPrice(p)
    ensures p.price > 0.0 && ShowDiscountBadge(p) ==> EffectivePrice(p) < p.price
  {
    if p.price > 0.0 && ShowDiscountBadge(p) {
      PositivePercentageMeansCheaper(p);
    }
  }

  /** The converse fails: a discount too small to round to 1% keeps the
      struck-through price but shows no badge. */
  lemma ListPriceWithoutBadge(p: Product)
    requires p.price > 0.0 && HasDiscount(p) && SavedPercent(p) < 0.5
    ensures ShowListPrice(p) && !ShowDiscountBadge(p)
  {
    DiscountPercentagePositive(p);
  }

  /** Such a discount exists: 99.9 against a list price of 100. */
  lemma ListPriceWithoutBadgeExample()
    ensures var p := Product("1", "n", "", 100.0, Some(99.9), "", [], "", "", 1, 0.0, 0, [], 0);
            ShowListPrice(p) && !ShowDiscountBadge(p)
  {
    var p := Product("1", "n", "", 100.0, Some(99.9), "", [], "", "", 1, 0.0, 0, [], 0);
    assert SavedPercent(p) < 0.5;
    ListPriceWithoutBadge(p);
  }

  /** The label reads "Out of Stock" exactly when the button is disabled. */
  lemma AddLabelMatchesDisabled(p: Product)
    ensures AddLabel(p) == "Out of Stock" <==> AddDisabled(p.stockQuantity)
    ensures !AddDisabled(p.stockQuantity) ==> AddLabel(p) == "Add to Cart"
  {
    if !AddDisabled(p.stockQuantity) {
      assert AddLabel(p)[1] != "Out of Stock"[1];
    }
  }

  /** The card's low-stock badge agrees with the details page's stock text
      except at a stock of exactly 10, where the details page says
      "Only 10 left!" and the card shows no badge. */
  lemma LowStockBadgeVsStockLevel(p: Product)
    ensures ShowLowStockBadge(p) ==> StockLevelOf(p.stockQuantity).LowStock?
    ensures StockLevelOf(p.stockQuantity).LowStock? && !ShowLowStockBadge(p) <==> p.stockQuantity == 10
  {
  }
}
