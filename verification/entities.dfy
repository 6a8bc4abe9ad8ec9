/** The records the marketplace keeps: suppliers, categories with their
    products, and registered users. The same shapes are declared by the mock
    data layer and by the admin screens. */
module Entities {
  import opened Options

  /** A JavaScript number the application only stores and compares (a price
      or a star rating), written as an integer count of hundredths: the
      rating 4.8 is 480. */
  type Hundredths = int

  datatype Supplier = Supplier(
    id: int,
    name: string,
    location: string,
    rating: Hundredths,
    specialties: seq<string>,
    image: string,
    verified: bool,
    description: Option<string>,
    phone: Option<string>,
    email: Option<string>)

  datatype Product = Product(
    id: int,
    name: string,
    company: string,
    description: string,
    minQuantity: int,
    price: Hundredths,
    categoryId: int)

  /** `count` is a stored field: the screens recompute it from `products`
      only when they touch a category's products. */
  datatype Category = Category(
    id: int,
    name: string,
    count: int,
    icon: string,
    slug: string,
    products: seq<Product>)

  /** `kind` is the `type` field, declared as 'buyer' | 'supplier' but read as
      any string by the admin screen. */
  datatype User = User(
    id: int,
    name: string,
    email: string,
    phone: string,
    company: string,
    location: string,
    kind: string,
    createdAt: string,
    lastLogin: string,
    verified: bool)

  /** The stored product count agrees with the product list. */
  predicate CountMatches(c: Category) {
    c.count == |c.products|
  }
}
