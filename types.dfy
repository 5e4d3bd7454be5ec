/** Values shared by the storefront's product components and the catalog. */
module Types {

  datatype Option<+T> = None | Some(value: T)

  /** A catalog product. `discountPrice` is optional, as in the source's
      interface. `createdAt` is the creation date already turned into a
      timestamp: date parsing is not part of this model. Specifications are
      the key/value pairs of the product's record, in their entry order. */
  datatype Product = Product(
    id: string,
    name: string,
    description: string,
    price: real,
    discountPrice: Option<real>,
    imageUrl: string,
    images: seq<string>,
    category: string,
    brand: string,
    stockQuantity: int,
    rating: real,
    reviewCount: int,
    specifications: seq<(string, string)>,
    createdAt: int)

  /** A customer review shown on the product details page. */
  datatype Review = Review(
    id: string,
    productId: string,
    userId: string,
    userName: string,
    rating: real,
    comment: string,
    createdAt: string)

  /** A call into the cart context, which is not part of this model: the
      product and the quantity argument, `None` when the caller omits it. */
  datatype CartCall = AddToCart(product: Product, quantity: Option<int>)
}
