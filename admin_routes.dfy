/**
 * The admin routes: add-product, delete-product, change-order-status and
 * the earnings analytics (the total and one bucket per fixed category).
 */
module AdminRoutes {
  import opened Wrappers
  import opened Models

  // ---------------------------------------------------------------------
  // add-product, delete-product, change-order-status
  // ---------------------------------------------------------------------

  /** The fields of the add-product request body the handler destructures. */
  datatype ProductBody = ProductBody(
    name: string,
    description: string,
    quantity: int,
    images: seq<string>,
    category: string,
    price: real,
    id: Option<Id>,           // destructured, never used
    userId: Option<Id>)       // destructured, never used

  /** The new product document: six whitelisted fields, the store's fresh id, no ratings. */
  function NewProduct(body: ProductBody, newId: Id): (p: Product)
    ensures p.id == newId && p.ratings == []
  {
    Product(newId, body.name, body.description, body.quantity, body.images, body.category, body.price, [])
  }

  /** The body's `id` and `userId` have no effect on the product built. */
  lemma NewProductIgnoresIds(b: ProductBody, id: Option<Id>, userId: Option<Id>, newId: Id)
    ensures NewProduct(b.(id := id, userId := userId), newId) == NewProduct(b, newId)
  {
  }

  /**
   * POST /admin/add-product: saves the new product under `newId`, the id
   * the store assigns; a taken id is refused and nothing changes.
   * An `Err(e)` result is answered with the status `HttpStatus(e)`, or with
   * no response when that is None.
   */
  method AddProduct(db: Store, body: ProductBody, newId: Id) returns (r: Result<Product, ApiError>)
    requires db.Valid()
    modifies db
    ensures db.Valid()
    ensures db.users == old(db.users) && db.orders == old(db.orders)
    ensures newId in old(db.products) ==> r == Err(DuplicateKey) && db.products == old(db.products)
    ensures newId !in old(db.products) ==>
              && r == Ok(NewProduct(body, newId))
              && db.products == old(db.products)[newId := NewProduct(body, newId)]
  {
    if newId in db.products {
      return Err(DuplicateKey);
    }
    var product := NewProduct(body, newId);
    db.products := db.products[newId := product];
    r := Ok(product);
  }

  /**
   * GET /admin/delete-product: `findByIdAndUpdate(id)` with no update only
   * looks the product up. The method's empty frame is the point: the
   * catalog is left as it was.
   */
  method DeleteProduct(db: Store, id: Option<Id>) returns (r: Option<Product>)
    requires db.Valid()
    ensures r.Some? <==> id.Some? && id.value in db.products
    ensures r.Some? ==> r.value == db.products[id.value] && r.value.id == id.value
  {
    if id.Some? && id.value in db.products {
      r := Some(db.products[id.value]);
    } else {
      r := None;
    }
  }

  /**
   * GET /admin/change-order-status: overwrites the status of order `id`; an
   * unknown id makes `findById` return null, whose `status` assignment fails.
   * An `Err(e)` result is answered with the status `HttpStatus(e)`, or with
   * no response when that is None.
   */
  method ChangeOrderStatus(db: Store, id: int, status: int) returns (r: Result<Order, ApiError>)
    requires db.Valid()
    modifies db
    ensures db.Valid()
    ensures db.products == old(db.products) && db.users == old(db.users)
    ensures !(0 <= id < |old(db.orders)|) ==> r == Err(NullDocument) && db.orders == old(db.orders)
    ensures 0 <= id < |old(db.orders)| ==>
              && |db.orders| == |old(db.orders)|
              && db.orders[id].status == status
              && db.orders[id].(status := old(db.orders)[id].status) == old(db.orders)[id]
              && (forall j :: 0 <= j < |db.orders| && j != id ==> db.orders[j] == old(db.orders)[j])
              && r == Ok(db.orders[id])
  {
    if !(0 <= id < |db.orders|) {
      return Err(NullDocument);
    }
    var order := db.orders[id];
    order := order.(status := status);
    db.orders := db.orders[id := order];
    r := Ok(order);
  }

  // ---------------------------------------------------------------------
  // Revenue
  // ---------------------------------------------------------------------

  /** `quantity * product.price`, with the price copied into the order line. */
  function LineRevenue(l: LineItem): real {
    l.quantity as real * l.product.price
  }

  /** The revenue of an order's lines, accumulated left to right. */
  function OrderRevenue(lines: seq<LineItem>): real {
    if lines == [] then 0.0 else OrderRevenue(lines[..|lines| - 1]) + LineRevenue(lines[|lines| - 1])
  }

  /** The revenue of a list of orders, accumulated left to right. */
  function TotalRevenue(orders: seq<Order>): real {
    if orders == [] then 0.0 else TotalRevenue(orders[..|orders| - 1]) + OrderRevenue(orders[|orders| - 1].products)
  }

  /** Some line of `o` is a product of category `c` (the query `"products.product.category": c`). */
  predicate HasCategory(o: Order, c: string) {
    exists j :: 0 <= j < |o.products| && o.products[j].product.category == c
  }

  /** The orders the category query returns, in store order. */
  function OrdersWithCategory(orders: seq<Order>, c: string): (r: seq<Order>)
    ensures |r| <= |orders|
    ensures forall o :: o in r <==> o in orders && HasCategory(o, c)
  {
    if orders == [] then []
    else
      var last := orders[|orders| - 1];
      assert forall o :: o in orders <==> o in orders[..|orders| - 1] || o == last by {
        assert orders == orders[..|orders| - 1] + [last];
      }
      OrdersWithCategory(orders[..|orders| - 1], c) + (if HasCategory(last, c) then [last] else [])
  }

  /** A category bucket: the whole revenue of every order with a line of that category. */
  function CategoryRevenue(orders: seq<Order>, c: string): real {
    TotalRevenue(OrdersWithCategory(orders, c))
  }

  /** Every line of every order has a non-negative quantity and price. */
  predicate NonNegativeLines(orders: seq<Order>) {
    forall i, j :: 0 <= i < |orders| && 0 <= j < |orders[i].products| ==>
      orders[i].products[j].quantity >= 0 && orders[i].products[j].product.price >= 0.0
  }

  lemma {:induction false} TotalRevenueConcat(a: seq<Order>, b: seq<Order>)
    ensures TotalRevenue(a + b) == TotalRevenue(a) + TotalRevenue(b)
  {
    if b == [] {
      assert a + b == a;
    } else {
      assert (a + b)[..|a + b| - 1] == a + b[..|b| - 1];
      TotalRevenueConcat(a, b[..|b| - 1]);
    }
  }

  lemma {:induction false} OrderRevenueNonNegative(lines: seq<LineItem>)
    requires forall j :: 0 <= j < |lines| ==> lines[j].quantity >= 0 && lines[j].product.price >= 0.0
    ensures OrderRevenue(lines) >= 0.0
  {
    if lines != [] {
      OrderRevenueNonNegative(lines[..|lines| - 1]);
    }
  }

  /** With non-negative lines, every bucket lies between 0 and the total. */
  lemma {:induction false} CategoryRevenueBounded(orders: seq<Order>, c: string)
    requires NonNegativeLines(orders)
    ensures 0.0 <= CategoryRevenue(orders, c) <= TotalRevenue(orders)
  {
    if orders != [] {
      var init, last := orders[..|orders| - 1], orders[|orders| - 1];
      assert NonNegativeLines(init);
      CategoryRevenueBounded(init, c);
      OrderRevenueNonNegative(last.products);
      var part := if HasCategory(last, c) then [last] else [];
      TotalRevenueConcat(OrdersWithCategory(init, c), part);
      assert part != [] ==> part[..0] == [];
    }
  }

  /** Orders with no line of the category add nothing to its bucket. */
  lemma {:induction false} CategoryRevenueWithoutCategory(orders: seq<Order>, c: string)
    requires forall i :: 0 <= i < |orders| ==> !HasCategory(orders[i], c)
    ensures OrdersWithCategory(orders, c) == []
    ensures CategoryRevenue(orders, c) == 0.0
  {
    if orders != [] {
      CategoryRevenueWithoutCategory(orders[..|orders| - 1], c);
    }
  }

  /** An order with a line of the category adds all of its lines to the bucket; any other adds nothing. */
  lemma CategoryRevenueAppend(orders: seq<Order>, o: Order, c: string)
    ensures CategoryRevenue(orders + [o], c)
            == CategoryRevenue(orders, c) + (if HasCategory(o, c) then OrderRevenue(o.products) else 0.0)
  {
    assert (orders + [o])[..|orders + [o]| - 1] == orders;
    var part := if HasCategory(o, c) then [o] else [];
    TotalRevenueConcat(OrdersWithCategory(orders, c), part);
    assert part != [] ==> part[..0] == [];
  }

  /**
   * One order, one Mobiles line worth 10 and one Books line worth 5: both
   * buckets report 15, the total is 15, so the buckets add up to twice the
   * total.
   */
  lemma MixedOrderCountedInBothBuckets()
    ensures var phone := Product("p1", "phone", "", 1, [], "Mobiles", 10.0, []);
            var book := Product("p2", "book", "", 1, [], "Books", 5.0, []);
            var orders := [Order([LineItem(phone, 1), LineItem(book, 1)], 15.0, "", "u", 0, InitialStatus)];
            && TotalRevenue(orders) == 15.0
            && CategoryRevenue(orders, "Mobiles") == 15.0
            && CategoryRevenue(orders, "Books") == 15.0
            && CategoryRevenue(orders, "Fashion") == 0.0
  {
    var phone := Product("p1", "phone", "", 1, [], "Mobiles", 10.0, []);
    var book := Product("p2", "book", "", 1, [], "Books", 5.0, []);
    var lines := [LineItem(phone, 1), LineItem(book, 1)];
    var o := Order(lines, 15.0, "", "u", 0, InitialStatus);
    var orders := [o];
    assert lines[..1] == [LineItem(phone, 1)] && lines[..1][..0] == [];
    assert OrderRevenue(lines[..1]) == 10.0;
    assert OrderRevenue(lines) == 15.0;
    assert orders[..0] == [];
    assert HasCategory(o, "Mobiles") by { assert o.products[0].product.category == "Mobiles"; }
    assert HasCategory(o, "Books") by { assert o.products[1].product.category == "Books"; }
    assert OrdersWithCategory(orders, "Mobiles") == orders;
    assert OrdersWithCategory(orders, "Books") == orders;
    CategoryRevenueWithoutCategory(orders, "Fashion");
  }

  /** Two order lists that agree on every order's lines. */
  predicate SameLines(a: seq<Order>, b: seq<Order>) {
    |a| == |b| && forall i :: 0 <= i < |a| ==> a[i].products == b[i].products
  }

  /** The total depends on the orders' lines only. */
  lemma {:induction false} TotalRevenueDependsOnLines(a: seq<Order>, b: seq<Order>)
    requires SameLines(a, b)
    ensures TotalRevenue(a) == TotalRevenue(b)
  {
    if a != [] {
      var n := |a|;
      assert SameLines(a[..n - 1], b[..n - 1]);
      TotalRevenueDependsOnLines(a[..n - 1], b[..n - 1]);
    }
  }

  /** A bucket depends on the orders' lines only. */
  lemma {:induction false} CategoryRevenueDependsOnLines(a: seq<Order>, b: seq<Order>, c: string)
    requires SameLines(a, b)
    ensures CategoryRevenue(a, c) == CategoryRevenue(b, c)
  {
    if a != [] {
      var n := |a|;
      assert SameLines(a[..n - 1], b[..n - 1]);
      CategoryRevenueDependsOnLines(a[..n - 1], b[..n - 1], c);
      assert a == a[..n - 1] + [a[n - 1]] && b == b[..n - 1] + [b[n - 1]];
      CategoryRevenueAppend(a[..n - 1], a[n - 1], c);
      CategoryRevenueAppend(b[..n - 1], b[n - 1], c);
      assert a[n - 1].products == b[n - 1].products;
    }
  }

  /** Overwriting an order's status leaves every revenue figure unchanged. */
  lemma StatusDoesNotAffectRevenue(orders: seq<Order>, id: nat, status: int, c: string)
    requires id < |orders|
    ensures TotalRevenue(orders[id := orders[id].(status := status)]) == TotalRevenue(orders)
    ensures CategoryRevenue(orders[id := orders[id].(status := status)], c) == CategoryRevenue(orders, c)
  {
    var changed := orders[id := orders[id].(status := status)];
    assert SameLines(changed, orders);
    TotalRevenueDependsOnLines(changed, orders);
    CategoryRevenueDependsOnLines(changed, orders, c);
  }

  // ---------------------------------------------------------------------
  // The analytics loops
  // ---------------------------------------------------------------------

  /** The nested loop over orders and their lines, summing quantity times price. */
  method SumEarnings(orders: seq<Order>) returns (earnings: real)
    ensures earnings == TotalRevenue(orders)
  {
    earnings := 0.0;
    var i := 0;
    while i < |orders|
      invariant 0 <= i <= |orders|
      invariant earnings == TotalRevenue(orders[..i])
    {
      var lines := orders[i].products;
      var j := 0;
      while j < |lines|
        invariant 0 <= j <= |lines|
        invariant earnings == TotalRevenue(orders[..i]) + OrderRevenue(lines[..j])
      {
        assert lines[..j + 1][..j] == lines[..j];
        earnings := earnings + lines[j].quantity as real * lines[j].product.price;
        j := j + 1;
      }
      assert lines[..j] == lines;
      assert orders[..i + 1][..i] == orders[..i];
      i := i + 1;
    }
    assert orders[..i] == orders;
  }

  /** `fetchCategoryWiseProduct(c)`: the category query, then the same nested loop over its result. */
  method FetchCategoryWiseProduct(orders: seq<Order>, category: string) returns (earnings: real)
    ensures earnings == CategoryRevenue(orders, category)
    ensures NonNegativeLines(orders) ==> 0.0 <= earnings <= TotalRevenue(orders)
  {
    var categoryOrders := OrdersWithCategory(orders, category);
    earnings := SumEarnings(categoryOrders);
    if NonNegativeLines(orders) {
      CategoryRevenueBounded(orders, category);
    }
  }

  /** The earnings object the analytics handler builds. */
  datatype EarningsReport = EarningsReport(
    totalEarnings: real,
    mobileEarnings: real,
    essentialEarnings: real,
    applianceEarnings: real,
    booksEarnings: real,
    fashionEarnings: real)

  /** Every bucket of the report lies between 0 and the total. */
  predicate BucketsBounded(e: EarningsReport) {
    && 0.0 <= e.mobileEarnings <= e.totalEarnings
    && 0.0 <= e.essentialEarnings <= e.totalEarnings
    && 0.0 <= e.applianceEarnings <= e.totalEarnings
    && 0.0 <= e.booksEarnings <= e.totalEarnings
    && 0.0 <= e.fashionEarnings <= e.totalEarnings
  }

  /** The analytics computation over all stored orders: the total and the five fixed buckets. */
  method Analytics(orders: seq<Order>) returns (e: EarningsReport)
    ensures e.totalEarnings == TotalRevenue(orders)
    ensures e.mobileEarnings == CategoryRevenue(orders, Categories[0])
    ensures e.essentialEarnings == CategoryRevenue(orders, Categories[1])
    ensures e.applianceEarnings == CategoryRevenue(orders, Categories[2])
    ensures e.booksEarnings == CategoryRevenue(orders, Categories[3])
    ensures e.fashionEarnings == CategoryRevenue(orders, Categories[4])
    ensures NonNegativeLines(orders) ==> BucketsBounded(e)
  {
    var totalEarnings := SumEarnings(orders);
    var mobileEarnings := FetchCategoryWiseProduct(orders, "Mobiles");
    var essentialEarnings := FetchCategoryWiseProduct(orders, "Essentials");
    var applianceEarnings := FetchCategoryWiseProduct(orders, "Appliances");
    var booksEarnings := FetchCategoryWiseProduct(orders, "Books");
    var fashionEarnings := FetchCategoryWiseProduct(orders, "Fashion");
    e := EarningsReport(totalEarnings, mobileEarnings, essentialEarnings, applianceEarnings, booksEarnings, fashionEarnings);
  }
}
