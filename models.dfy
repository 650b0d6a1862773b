/** Option and Result, used for the lookups and error paths of the handlers. */
module Wrappers {
  datatype Option<+T> = None | Some(value: T)

  datatype Result<+T, +E> = Ok(value: T) | Err(error: E)
}

/**
 * The documents of the retail backend (Product, User, Order), the errors the
 * request handlers answer with, and the document store, replaced by
 * in-memory maps and a sequence.
 */
module Models {
  import opened Wrappers

  /** A document id (an ObjectId, compared through its string form). */
  type Id = string

  /** One `{userId, rating}` entry of a product's `ratings` array. */
  datatype RatingEntry = RatingEntry(userId: Id, rating: real)

  datatype Product = Product(
    id: Id,
    name: string,
    description: string,
    quantity: int,            // the stock
    images: seq<string>,
    category: string,
    price: real,
    ratings: seq<RatingEntry>)

  /**
   * `{product, quantity}`: a line of a user's cart and a line of an order.
   * The product is a copy of the catalog document taken when the line was made.
   */
  datatype LineItem = LineItem(product: Product, quantity: int)

  datatype User = User(
    id: Id,
    name: string,
    email: string,
    password: string,
    address: string,
    role: string,             // the schema's `type` field
    cart: seq<LineItem>)

  datatype Order = Order(
    products: seq<LineItem>,
    totalPrice: real,
    address: string,
    userId: Id,
    orderedAt: int,           // epoch milliseconds, supplied by the caller of the model
    status: int)

  /** The status a new order starts with (the Order schema's default). */
  const InitialStatus: int := 0

  /** The fixed categories the analytics report on. */
  const Categories: seq<string> := ["Mobiles", "Essentials", "Appliances", "Books", "Fashion"]

  /** The outcomes of a request that does not succeed. */
  datatype ApiError =
    | MissingProductId     // 400: `!id`
    | MissingRating        // 400: rating undefined or null
    | InvalidRating        // 400: NaN, below 0 or above 5
    | ProductNotFound      // 404
    | UserNotFound         // 404
    | NotInCart            // 404: remove-from-cart of a product the cart does not hold
    | NullDocument         // 500: a lookup returned null and the handler dereferenced it
    | DuplicateKey         // 500: the store refused to insert a document whose id is taken
    | Unanswered           // the handler threw and its `catch` only logs: no (further) response

  /** The HTTP status each error is answered with, or None when no response is sent. */
  function HttpStatus(e: ApiError): (code: Option<int>)
    ensures code.None? <==> e == Unanswered
    ensures code == Some(400) <==> e in {MissingProductId, MissingRating, InvalidRating}
    ensures code == Some(404) <==> e in {ProductNotFound, UserNotFound, NotInCart}
    ensures code == Some(500) <==> e in {NullDocument, DuplicateKey}
  {
    match e
    case MissingProductId => Some(400)
    case MissingRating => Some(400)
    case InvalidRating => Some(400)
    case ProductNotFound => Some(404)
    case UserNotFound => Some(404)
    case NotInCart => Some(404)
    case NullDocument => Some(500)
    case DuplicateKey => Some(500)
    case Unanswered => None
  }

  /** JavaScript's `!id` on a request field: absent, null or the empty string. */
  predicate Missing(id: Option<Id>) {
    id.None? || id.value == ""
  }

  /** Every product sits under its own id. */
  ghost predicate Keyed(products: map<Id, Product>) {
    forall k :: k in products ==> products[k].id == k
  }

  /** No product holds a negative stock. */
  ghost predicate StockNonNegative(products: map<Id, Product>) {
    forall k :: k in products ==> products[k].quantity >= 0
  }

  /** The document store: the Product, User and Order collections. */
  class Store {
    var products: map<Id, Product>
    var users: map<Id, User>
    var orders: seq<Order>   // an order's id is its index

    /** Every document sits under its own id. */
    ghost predicate Valid()
      reads this
    {
      && Keyed(products)
      && (forall k :: k in users ==> users[k].id == k)
    }

    constructor ()
      ensures Valid()
      ensures products == map[] && users == map[] && orders == []
    {
      products := map[];
      users := map[];
      orders := [];
    }
  }
}
