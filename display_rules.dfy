/** Display rules that the product card, the product details page and the
    catalog share: the effective price, the discount percentage, the add
    button's disabled state, the stock classification and the star fill. */
module DisplayRules {
  import opened Types

  /** `product.discount_price` is truthy: present and not zero. For the
      effective price, the percentage and the badges, a discount of zero
      behaves like a missing one. */
  predicate HasDiscount(p: Product) {
    p.discountPrice.Some? && p.discountPrice.value != 0.0
  }

  /** `discount_price || price`: the price the storefront charges and shows. */
  function EffectivePrice(p: Product): real {
    if HasDiscount(p) then p.discountPrice.value else p.price
  }

  /** The effective price is one of the two prices, and a zero discount gives
      the same effective price as no discount at all. */
  lemma EffectivePriceChoice(p: Product)
    ensures EffectivePrice(p) == p.price || (p.discountPrice.Some? && EffectivePrice(p) == p.discountPrice.value)
    ensures EffectivePrice(p.(discountPrice := Some(0.0))) == EffectivePrice(p.(discountPrice := None)) == p.price
    ensures p.discountPrice.Some? && p.discountPrice.value != 0.0 ==> EffectivePrice(p) == p.discountPrice.value
  {
  }

  /** `Math.round`: the nearest integer, halves rounded up. */
  function Round(x: real): (r: int)
    ensures x - 0.5 < r as real <= x + 0.5
  {
    (x + 0.5).Floor
  }

  /** The exact (unrounded) percentage saved by the discount. */
  function SavedPercent(p: Product): real
    requires p.discountPrice.Some? && p.price != 0.0
  {
    (p.price - p.discountPrice.value) / p.price * 100.0
  }

  /** `discountPercentage`: zero without a (non-zero) discount, otherwise the
      saved percentage rounded to the nearest integer. The source divides by
      the list price; a zero list price with a discount is excluded. */
  function DiscountPercentage(p: Product): (r: int)
    requires HasDiscount(p) ==> p.price != 0.0
    ensures !HasDiscount(p) ==> r == 0
    ensures HasDiscount(p) ==> SavedPercent(p) - 0.5 < r as real <= SavedPercent(p) + 0.5
  {
    if HasDiscount(p) then Round(SavedPercent(p)) else 0
  }

  /** A positive discount no higher than the list price gives a percentage
      between 0 and 100. */
  lemma DiscountPercentageInRange(p: Product)
    requires p.discountPrice.Some? && 0.0 < p.discountPrice.value <= p.price
    ensures 0 <= DiscountPercentage(p) <= 100
  {
    var d, q := p.discountPrice.value, p.price;
    assert 0.0 <= (q - d) / q < 1.0 by {
      assert (q - d) / q * q == q - d;
    }
  }

  /** For a positive list price the percentage is positive exactly when a
      non-zero discount saves at least half a percent. */
  lemma DiscountPercentagePositive(p: Product)
    requires p.price > 0.0
    ensures DiscountPercentage(p) > 0 <==> HasDiscount(p) && SavedPercent(p) >= 0.5
  {
    if HasDiscount(p) {
      var r := DiscountPercentage(p);
      assert r > 0 ==> r as real >= 1.0;
    }
  }

  /** A positive percentage means the effective price is below the list price. */
  lemma PositivePercentageMeansCheaper(p: Product)
    requires p.price > 0.0
    requires DiscountPercentage(p) > 0
    ensures HasDiscount(p) && EffectivePrice(p) < p.price
  {
    DiscountPercentagePositive(p);
    var d, q := p.discountPrice.value, p.price;
    var s := (q - d) / q;
    assert s * q == q - d;
    assert s > 0.0;
  }

  /** `disabled={product.stock_quantity === 0}`: the add buttons of the card
      and of the details page are disabled only at a stock of exactly zero. */
  predicate AddDisabled(stock: int) {
    stock == 0
  }

  /** How stock is classified on the details page (and by the admin table). */
  datatype StockLevel = InStock | LowStock(left: nat) | OutOfStock

  function StockLevelOf(stock: int): (s: StockLevel)
    ensures s.InStock? <==> stock > 10
    ensures s.LowStock? <==> 0 < stock <= 10
    ensures s.OutOfStock? <==> stock <= 0
    ensures s.LowStock? ==> s.left == stock
  {
    if stock > 10 then InStock else if stock > 0 then LowStock(stock) else OutOfStock
  }

  /** The star row: star `i` (0 to 4) is filled when `i < floor(rating)`. */
  function RatingStars(rating: real): seq<bool> {
    seq(5, i => i < rating.Floor)
  }

  /** The number of `true` entries. */
  function CountTrue(s: seq<bool>): nat {
    if s == [] then 0 else CountTrue(s[..|s| - 1]) + (if s[|s| - 1] then 1 else 0)
  }

  function Clamp(x: int, lo: int, hi: int): int
    requires lo <= hi
  {
    if x < lo then lo else if x > hi then hi else x
  }

  /** A row of `n` stars whose first `k` are filled shows `k` filled stars,
      clamped to the row. */
  lemma {:induction false} CountPrefix(n: nat, k: int)
    ensures CountTrue(seq(n, i => i < k)) == Clamp(k, 0, n)
  {
    if n > 0 {
      var s := seq(n, i => i < k);
      assert s[..n - 1] == seq(n - 1, i => i < k);
      CountPrefix(n - 1, k);
    }
  }

  /** Star `i` is filled exactly when `i < floor(rating)`: the filled stars
      come first, and there are `floor(rating)` of them, clamped to 0..5. */
  lemma RatingStarsCount(rating: real)
    ensures |RatingStars(rating)| == 5
    ensures forall i :: 0 <= i < 5 ==> (RatingStars(rating)[i] <==> i < rating.Floor)
    ensures CountTrue(RatingStars(rating)) == Clamp(rating.Floor, 0, 5)
    ensures forall i, j :: 0 <= i < j < 5 && RatingStars(rating)[j] ==> RatingStars(rating)[i]
  {
    CountPrefix(5, rating.Floor);
  }
}
