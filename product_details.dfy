/** The product details page: its stock text, image gallery, review stars,
    specification labels, and the quantity and image selection it keeps as
    state. */
module ProductDetails {
  import opened Types
  import opened Sequences
  import opened DisplayRules

  /** The decimal digits of `n`, as a template literal writes an integer. */
  function NatToString(n: nat): (s: string)
    ensures |s| >= 1
    ensures forall i :: 0 <= i < |s| ==> '0' <= s[i] <= '9'
    ensures s[0] == '0' <==> n == 0
    ensures |s| > 1 ==> s[0] != '0'
  {
    if n < 10 then [DigitChar(n)] else NatToString(n / 10) + [DigitChar(n % 10)]
  }

  function DigitChar(d: nat): (c: char)
    requires d < 10
    ensures '0' <= c <= '9'
  {
    ('0' as int + d) as char
  }

  predicate AllDigits(s: string) {
    forall i :: 0 <= i < |s| ==> '0' <= s[i] <= '9'
  }

  /** The number a string of decimal digits denotes. */
  function DigitsValue(s: string): nat
    requires AllDigits(s)
  {
    if s == [] then 0 else DigitsValue(s[..|s| - 1]) * 10 + (s[|s| - 1] as int - '0' as int)
  }

  /** Reading back the digits gives the number. */
  lemma {:induction false} NatToStringRoundTrip(n: nat)
    ensures DigitsValue(NatToString(n)) == n
  {
    var s := NatToString(n);
    if n >= 10 {
      NatToStringRoundTrip(n / 10);
      assert s[..|s| - 1] == NatToString(n / 10);
    }
  }

  /** The stock status text beside the coloured dot. */
  function StockText(stock: int): string {
    match StockLevelOf(stock)
    case InStock => "In Stock"
    case LowStock(n) => "Only " + NatToString(n) + " left!"
    case OutOfStock => "Out of Stock"
  }

  /** Each stock value falls into exactly one of the three texts, and the low
      stock text names the stock itself. */
  lemma StockTextBranches(stock: int)
    ensures StockText(stock) == "In Stock" <==> stock > 10
    ensures StockText(stock) == "Out of Stock" <==> stock <= 0
    ensures 0 < stock <= 10 ==> StockText(stock) == "Only " + NatToString(stock) + " left!"
  {
    var t := StockText(stock);
    if 0 < stock <= 10 {
      assert t[1] == 'n';
    } else if stock > 10 {
      assert t[1] == 'n';
    }
  }

  /** Two different low stock values never show the same text. */
  lemma StockTextInjective(a: int, b: int)
    requires 0 < a <= 10 && 0 < b <= 10
    requires StockText(a) == StockText(b)
    ensures a == b
  {
    var sa, sb := NatToString(a), NatToString(b);
    assert "Only " + sa + " left!" == "Only " + sb + " left!";
    assert |sa| == |sb|;
    assert sa == ("Only " + sa + " left!")[5..5 + |sa|];
    assert sb == ("Only " + sb + " left!")[5..5 + |sb|];
    NatToStringRoundTrip(a);
    NatToStringRoundTrip(b);
  }

  /** The add button is disabled only at a stock of exactly zero, so a
      negative stock reads "Out of Stock" with the button enabled. */
  lemma OutOfStockTextVsButton(stock: int)
    ensures AddDisabled(stock) ==> StockText(stock) == "Out of Stock"
    ensures stock < 0 ==> StockText(stock) == "Out of Stock" && !AddDisabled(stock)
  {
  }

  /** The price block shows the list price and the "-N% OFF" badge whenever
      the discount is truthy. A discount above a positive list price gives a
      percentage of at most zero: negative once the discount exceeds the list
      price by more than half a percent, and "-0% OFF" up to that point. */
  lemma DiscountAboveListPrice(p: Product)
    requires p.price > 0.0 && p.discountPrice.Some? && p.discountPrice.value > p.price
    ensures HasDiscount(p)
    ensures DiscountPercentage(p) <= 0
    ensures DiscountPercentage(p) < 0 <==> p.discountPrice.value > 1.005 * p.price
  {
    var d, q := p.discountPrice.value, p.price;
    var t := (q - d) / q;
    assert t * q == q - d;
    assert SavedPercent(p) == t * 100.0;
    // (t + 0.005) * q == q - d + 0.005 * q, and q > 0 fixes its sign.
    if d > 1.005 * q {
      assert (t + 0.005) * q < 0.0;
      assert SavedPercent(p) < -0.5;
    } else {
      assert (t + 0.005) * q >= 0.0;
      assert SavedPercent(p) >= -0.5;
    }
  }

  /** An integer as a template literal writes it: a minus sign before the
      digits of a negative number. `Math.round` of a value in `[-0.5, 0)`
      is `-0`, which also prints as "0". */
  function IntText(n: int): (s: string)
    ensures |s| >= 1
    ensures s[0] == '-' <==> n < 0
    ensures var digits := if n < 0 then s[1..] else s;
            |digits| >= 1 && AllDigits(digits) && DigitsValue(digits) == if n < 0 then -n else n
  {
    var m := if n < 0 then -n else n;
    NatToStringRoundTrip(m);
    if n < 0 then
      assert ("-" + NatToString(m))[1..] == NatToString(m);
      "-" + NatToString(m)
    else NatToString(m)
  }

  /** The details page's badge text `-{discountPercentage}% OFF`: a literal
      minus sign, then the percentage as written by the template. */
  function OffBadgeText(p: Product): string
    requires HasDiscount(p) ==> p.price != 0.0
  {
    "-" + IntText(DiscountPercentage(p)) + "% OFF"
  }

  /** Both cases occur: for 125 against 100 the percentage is -25, shown as
      "--25% OFF"; for 100.4 against 100 it is 0, shown as "-0% OFF". */
  lemma DiscountAboveListPriceExamples()
    ensures var p := Product("1", "n", "", 100.0, Some(125.0), "", [], "", "", 1, 0.0, 0, [], 0);
            HasDiscount(p) && DiscountPercentage(p) == -25 && OffBadgeText(p) == "--25% OFF"
    ensures var p := Product("1", "n", "", 100.0, Some(100.4), "", [], "", "", 1, 0.0, 0, [], 0);
            HasDiscount(p) && DiscountPercentage(p) == 0 && OffBadgeText(p) == "-0% OFF"
  {
    var p := Product("1", "n", "", 100.0, Some(125.0), "", [], "", "", 1, 0.0, 0, [], 0);
    assert SavedPercent(p) == -25.0;
    assert NatToString(25) == "25" by {
      assert NatToString(2) == "2";
    }
    var p2 := Product("1", "n", "", 100.0, Some(100.4), "", [], "", "", 1, 0.0, 0, [], 0);
    assert SavedPercent(p2) == -0.4;
    assert NatToString(0) == "0";
  }

  /** The main image: `images[selectedImage] || image_url`. An index past the
      end reads `undefined`, which, like the empty string, falls back. */
  function MainImage(images: seq<string>, selected: int, imageUrl: string): string {
    if 0 <= selected < |images| && images[selected] != "" then images[selected] else imageUrl
  }

  /** The selected image when it exists and is not empty, otherwise the
      fallback; so the main image is never empty unless the fallback is. */
  lemma MainImageRule(images: seq<string>, selected: int, imageUrl: string)
    ensures 0 <= selected < |images| && images[selected] != "" ==> MainImage(images, selected, imageUrl) == images[selected]
    ensures !(0 <= selected < |images|) || images[selected] == "" ==> MainImage(images, selected, imageUrl) == imageUrl
    ensures MainImage(images, selected, imageUrl) == "" ==> imageUrl == ""
    ensures MainImage(images, selected, imageUrl) in images + [imageUrl]
  {
  }

  /** The thumbnail strip appears only for more than one image. */
  predicate ShowThumbnails(images: seq<string>) {
    |images| > 1
  }

  /** A review's star row: star `i` is filled when `i < review.rating`,
      without rounding the rating down. */
  function ReviewStars(review: Review): seq<bool> {
    seq(5, i => (i as real) < review.rating)
  }

  /** For a whole-number rating both star rules agree; for 4.5 the review row
      fills five stars and the product row four. */
  lemma StarRulesCompared(review: Review)
    ensures forall i :: 0 <= i < 5 ==> (ReviewStars(review)[i] <==> (i as real) < review.rating)
    ensures review.rating == review.rating.Floor as real ==> ReviewStars(review) == RatingStars(review.rating)
    ensures review.rating == 4.5 ==> CountTrue(ReviewStars(review)) == 5 && CountTrue(RatingStars(4.5)) == 4
  {
    if review.rating == 4.5 {
      assert (4.5).Floor == 4;
      RatingStarsCount(4.5);
      CountPrefix(5, 5);
      assert ReviewStars(review) == seq(5, i => i < 5);
    }
  }

  /** `key.replace('_', ' ')`: a string pattern replaces only its first
      occurrence. */
  function SpecLabel(key: string): (r: string)
    ensures |r| == |key|
    ensures '_' !in key ==> r == key
    ensures '_' in key ==> r[FirstIndex(key, '_')] == ' '
    ensures '_' in key ==> forall j :: 0 <= j < |key| && j != FirstIndex(key, '_') ==> r[j] == key[j]
  {
    if key == [] then []
    else if key[0] == '_' then " " + key[1..]
    else [key[0]] + SpecLabel(key[1..])
  }

  /** Any underscore after the first stays in the label. */
  lemma SpecLabelKeepsLaterUnderscores(key: string, j: int)
    requires 0 <= j < |key| && key[j] == '_' && j != FirstIndex(key, '_')
    ensures SpecLabel(key)[j] == '_'
  {
  }

  /** The page's quantity stepper and image selection. */
  class DetailsView {
    const product: Product
    var quantity: int
    var selectedImage: int

    ghost predicate Valid()
      reads this
    {
      quantity >= 1 && 0 <= selectedImage && (selectedImage == 0 || selectedImage < |product.images|)
    }

    constructor (product: Product)
      ensures Valid()
      ensures this.product == product && quantity == 1 && selectedImage == 0
    {
      this.product := product;
      quantity := 1;
      selectedImage := 0;
    }

    /** The minus button: `Math.max(1, quantity - 1)`. */
    method Decrement()
      requires Valid()
      modifies this`quantity
      ensures Valid()
      ensures quantity == if old(quantity) > 1 then old(quantity) - 1 else 1
    {
      quantity := if 1 > quantity - 1 then 1 else quantity - 1;
    }

    /** The plus button. */
    method Increment()
      requires Valid()
      modifies this`quantity
      ensures Valid()
      ensures quantity == old(quantity) + 1
    {
      quantity := quantity + 1;
    }

    /** A click on a thumbnail; thumbnails exist only for more than one image. */
    method SelectImage(index: int)
      requires Valid()
      requires ShowThumbnails(product.images) && 0 <= index < |product.images|
      modifies this`selectedImage
      ensures Valid()
      ensures selectedImage == index
    {
      selectedImage := index;
    }

    /** The add-to-cart button: disabled at zero stock, otherwise it hands the
        current quantity to the cart. */
    method ClickAdd() returns (call: Option<CartCall>)
      requires Valid()
      ensures call.None? <==> AddDisabled(product.stockQuantity)
      ensures call.Some? ==> call.value.product == product && call.value.quantity == Some(quantity)
      ensures call.Some? ==> call.value.quantity.value >= 1
    {
      if AddDisabled(product.stockQuantity) {
        call := None;
      } else {
        call := Some(AddToCart(product, Some(quantity)));
      }
    }

    /** The image shown large, for the current selection: the selected image
        when it is not empty, otherwise the product's `image_url`. */
    function Shown(): (r: string)
      reads this
      ensures 0 <= selectedImage < |product.images| && product.images[selectedImage] != "" ==>
        r == product.images[selectedImage]
      ensures r == "" ==> product.imageUrl == ""
      ensures r in product.images + [product.imageUrl]
    {
      MainImageRule(product.images, selectedImage, product.imageUrl);
      MainImage(product.images, selectedImage, product.imageUrl)
    }
  }
}
