/**
 * The user routes: add-to-cart, remove-from-cart, save-user-address,
 * order-product and orders/me. The caller's id (`req.user`, set by the
 * token middleware) is the explicit parameter `userId`.
 */
module UserRoutes {
  import opened Wrappers
  import opened Models

  // ---------------------------------------------------------------------
  // The cart
  // ---------------------------------------------------------------------

  /** Line `i` is the first line of `cart` that holds product `id`. */
  predicate IsFirstLine(cart: seq<LineItem>, id: Id, i: int) {
    && 0 <= i < |cart|
    && cart[i].product.id == id
    && forall j :: 0 <= j < i ==> cart[j].product.id != id
  }

  predicate InCart(cart: seq<LineItem>, id: Id) {
    exists i :: 0 <= i < |cart| && cart[i].product.id == id
  }

  /** No line has a quantity of 0 or less. */
  predicate AllPositive(cart: seq<LineItem>) {
    forall i :: 0 <= i < |cart| ==> cart[i].quantity > 0
  }

  /** `user.cart.find(item => item.product._id.toString() === id)`, as an index. */
  function FirstLine(cart: seq<LineItem>, id: Id): (r: Option<nat>)
    ensures r.Some? ==> IsFirstLine(cart, id, r.value)
    ensures r.None? <==> !InCart(cart, id)
  {
    if cart == [] then None
    else if cart[0].product.id == id then Some(0)
    else match FirstLine(cart[1..], id)
      case None => None
      case Some(i) => Some(i + 1)
  }

  /**
   * The cart after add-to-cart of `p`: the first line for `p` gets one more,
   * or a line `{p, 1}` is appended.
   */
  function AddLine(cart: seq<LineItem>, p: Product): (r: seq<LineItem>)
    ensures InCart(r, p.id)
    ensures AllPositive(cart) ==> AllPositive(r)
  {
    match FirstLine(cart, p.id)
    case Some(i) =>
      var r := cart[i := cart[i].(quantity := cart[i].quantity + 1)];
      assert r[i].product.id == p.id;
      r
    case None =>
      var r := cart + [LineItem(p, 1)];
      assert r[|cart|].product.id == p.id;
      r
  }

  /** The first line for `id` is the one `find` returns. */
  lemma FirstLineIs(cart: seq<LineItem>, id: Id, i: nat)
    requires IsFirstLine(cart, id, i)
    ensures FirstLine(cart, id) == Some(i)
  {
  }

  /** `cart.filter(item => item.product._id.toString() !== id)` */
  function WithoutProduct(cart: seq<LineItem>, id: Id): (r: seq<LineItem>)
    ensures |r| <= |cart|
    ensures !InCart(r, id)
    ensures forall l {:trigger l in r} :: l in r <==> l in cart && l.product.id != id
  {
    if cart == [] then []
    else (if cart[0].product.id == id then [] else [cart[0]]) + WithoutProduct(cart[1..], id)
  }

  /**
   * The cart after remove-from-cart of `id`, or None when no line holds it:
   * the first line for `id` loses one; if that leaves it at 0 or less, every
   * line for `id` goes.
   */
  function RemoveLine(cart: seq<LineItem>, id: Id): (r: Option<seq<LineItem>>)
    ensures r.None? <==> !InCart(cart, id)
    ensures r.Some? && AllPositive(cart) ==> AllPositive(r.value)
  {
    match FirstLine(cart, id)
    case None => None
    case Some(i) =>
      var q := cart[i].quantity - 1;
      if q <= 0 then
        var w := WithoutProduct(cart, id);
        assert forall k :: 0 <= k < |w| ==> w[k] in w;
        Some(w)
      else Some(cart[i := cart[i].(quantity := q)])
  }

  /** Adding a product the cart holds: its first line gains exactly one, nothing else moves. */
  lemma AddToExistingLine(cart: seq<LineItem>, p: Product, i: nat)
    requires IsFirstLine(cart, p.id, i)
    ensures var r := AddLine(cart, p);
            && |r| == |cart|
            && r[i] == LineItem(cart[i].product, cart[i].quantity + 1)
            && forall j :: 0 <= j < |cart| && j != i ==> r[j] == cart[j]
  {
    FirstLineIs(cart, p.id, i);
  }

  /** Adding a product the cart does not hold appends `{p, 1}`. */
  lemma AddNewLine(cart: seq<LineItem>, p: Product)
    requires !InCart(cart, p.id)
    ensures AddLine(cart, p) == cart + [LineItem(p, 1)]
  {
  }

  /** Removing a product whose first line holds more than one: that line loses exactly one, in place. */
  lemma RemoveDecrements(cart: seq<LineItem>, id: Id, i: nat)
    requires IsFirstLine(cart, id, i) && cart[i].quantity > 1
    ensures RemoveLine(cart, id).Some?
    ensures var r := RemoveLine(cart, id).value;
            && |r| == |cart|
            && r[i] == LineItem(cart[i].product, cart[i].quantity - 1)
            && forall j :: 0 <= j < |cart| && j != i ==> r[j] == cart[j]
  {
    FirstLineIs(cart, id, i);
  }

  /** Removing a product whose first line holds one or less drops every line of that product. */
  lemma RemoveDropsProduct(cart: seq<LineItem>, id: Id, i: nat)
    requires IsFirstLine(cart, id, i) && cart[i].quantity <= 1
    ensures RemoveLine(cart, id) == Some(WithoutProduct(cart, id))
    ensures !InCart(RemoveLine(cart, id).value, id)
  {
    FirstLineIs(cart, id, i);
  }

  /** The filter keeps the other lines in their relative order. */
  lemma {:induction false} WithoutProductConcat(a: seq<LineItem>, b: seq<LineItem>, id: Id)
    ensures WithoutProduct(a + b, id) == WithoutProduct(a, id) + WithoutProduct(b, id)
  {
    if a == [] {
      assert a + b == b;
    } else {
      var head := if a[0].product.id == id then [] else [a[0]];
      assert (a + b)[0] == a[0];
      assert (a + b)[1..] == a[1..] + b;
      WithoutProductConcat(a[1..], b, id);
      calc {
        WithoutProduct(a + b, id);
        head + WithoutProduct(a[1..] + b, id);
        head + (WithoutProduct(a[1..], id) + WithoutProduct(b, id));
        (head + WithoutProduct(a[1..], id)) + WithoutProduct(b, id);
      }
    }
  }

  /** Filtering out a product the cart does not hold changes nothing. */
  lemma {:induction false} WithoutAbsentProduct(cart: seq<LineItem>, id: Id)
    requires !InCart(cart, id)
    ensures WithoutProduct(cart, id) == cart
  {
    if cart != [] {
      forall k | 0 <= k < |cart[1..]| ensures cart[1..][k].product.id != id {
        assert cart[1..][k] == cart[k + 1];
      }
      WithoutAbsentProduct(cart[1..], id);
    }
  }

  /** Adding a product the cart did not hold and then removing it gives back the cart. */
  lemma AddThenRemove(cart: seq<LineItem>, p: Product)
    requires !InCart(cart, p.id)
    ensures RemoveLine(AddLine(cart, p), p.id) == Some(cart)
  {
    AddNewLine(cart, p);
    RemoveTimesLast(cart, p, 1);
  }

  /** `n` add-to-cart requests for `p` in a row. */
  function AddTimes(cart: seq<LineItem>, p: Product, n: nat): seq<LineItem>
  {
    if n == 0 then cart else AddLine(AddTimes(cart, p, n - 1), p)
  }

  /** `n` remove-from-cart requests for `id` in a row; None when one of them answers 404. */
  function RemoveTimes(cart: seq<LineItem>, id: Id, n: nat): Option<seq<LineItem>>
    decreases n
  {
    if n == 0 then Some(cart)
    else match RemoveLine(cart, id)
      case None => None
      case Some(c) => RemoveTimes(c, id, n - 1)
  }

  /** Adding to a product held only by the last line raises that line. */
  lemma AddToLastLine(cart: seq<LineItem>, p: Product, m: int)
    requires !InCart(cart, p.id)
    ensures AddLine(cart + [LineItem(p, m - 1)], p) == cart + [LineItem(p, m)]
  {
    var c := cart + [LineItem(p, m - 1)];
    assert IsFirstLine(c, p.id, |cart|);
    FirstLineIs(c, p.id, |cart|);
    assert c[|cart| := LineItem(p, m)] == cart + [LineItem(p, m)];
  }

  lemma {:induction false} AddTimesAppends(cart: seq<LineItem>, p: Product, n: nat)
    requires !InCart(cart, p.id) && n >= 1
    ensures AddTimes(cart, p, n) == cart + [LineItem(p, n)]
  {
    if n == 1 {
      AddNewLine(cart, p);
    } else {
      AddTimesAppends(cart, p, n - 1);
      AddToLastLine(cart, p, n);
    }
  }

  lemma {:induction false} RemoveTimesLast(cart: seq<LineItem>, p: Product, n: nat)
    requires !InCart(cart, p.id) && n >= 1
    ensures RemoveTimes(cart + [LineItem(p, n)], p.id, n) == Some(cart)
  {
    var c := cart + [LineItem(p, n)];
    assert IsFirstLine(c, p.id, |cart|);
    if n == 1 {
      RemoveDropsProduct(c, p.id, |cart|);
      WithoutProductConcat(cart, [LineItem(p, 1)], p.id);
      WithoutAbsentProduct(cart, p.id);
      assert [LineItem(p, 1)][1..] == [];
      assert WithoutProduct([LineItem(p, 1)][1..], p.id) == [];
      assert WithoutProduct([LineItem(p, 1)], p.id) == [];
      assert cart + [] == cart;
    } else {
      RemoveDecrements(c, p.id, |cart|);
      var r := RemoveLine(c, p.id).value;
      assert r == cart + [LineItem(p, n - 1)] by {
        forall j | 0 <= j < |r| ensures r[j] == (cart + [LineItem(p, n - 1)])[j] {
        }
      }
      RemoveTimesLast(cart, p, n - 1);
    }
  }

  /**
   * Adding a product the cart did not hold `n` times and removing it `n`
   * times leaves the cart as it was, without a line for it.
   */
  lemma AddRemoveTimes(cart: seq<LineItem>, p: Product, n: nat)
    requires !InCart(cart, p.id)
    ensures RemoveTimes(AddTimes(cart, p, n), p.id, n) == Some(cart)
  {
    if n >= 1 {
      AddTimesAppends(cart, p, n);
      RemoveTimesLast(cart, p, n);
    }
  }

  // ---------------------------------------------------------------------
  // The cart handlers
  // ---------------------------------------------------------------------

  /**
   * POST /api/add-to-cart: a missing id is a 400; then the product and then
   * the user must exist (404 otherwise); nothing is saved on an error.
   * An `Err(e)` result is answered with the status `HttpStatus(e)`, or with
   * no response when that is None.
   */
  method AddToCart(db: Store, userId: Id, id: Option<Id>) returns (r: Result<seq<LineItem>, ApiError>)
    requires db.Valid()
    modifies db
    ensures db.Valid()
    ensures db.products == old(db.products) && db.orders == old(db.orders)
    ensures Missing(id) ==> r == Err(MissingProductId) && db.users == old(db.users)
    ensures !Missing(id) && id.value !in db.products ==> r == Err(ProductNotFound) && db.users == old(db.users)
    ensures !Missing(id) && id.value in db.products && userId !in old(db.users) ==>
              r == Err(UserNotFound) && db.users == old(db.users)
    ensures !Missing(id) && id.value in db.products && userId in old(db.users) ==>
              var user := old(db.users)[userId];
              var cart := AddLine(user.cart, db.products[id.value]);
              r == Ok(cart) && db.users == old(db.users)[userId := user.(cart := cart)]
  {
    if Missing(id) {
      return Err(MissingProductId);
    }
    if id.value !in db.products {
      return Err(ProductNotFound);
    }
    if userId !in db.users {
      return Err(UserNotFound);
    }
    var product := db.products[id.value];
    var user := db.users[userId];
    var cart := AddLine(user.cart, product);
    db.users := db.users[userId := user.(cart := cart)];
    r := Ok(cart);
  }

  /**
   * DELETE /api/remove-from-cart/:id: the same 400 and 404 checks as
   * add-to-cart, then a 404 when no cart line holds the product; nothing is
   * saved on an error.
   * An `Err(e)` result is answered with the status `HttpStatus(e)`, or with
   * no response when that is None.
   */
  method RemoveFromCart(db: Store, userId: Id, id: Option<Id>) returns (r: Result<seq<LineItem>, ApiError>)
    requires db.Valid()
    modifies db
    ensures db.Valid()
    ensures db.products == old(db.products) && db.orders == old(db.orders)
    ensures Missing(id) ==> r == Err(MissingProductId) && db.users == old(db.users)
    ensures !Missing(id) && id.value !in db.products ==> r == Err(ProductNotFound) && db.users == old(db.users)
    ensures !Missing(id) && id.value in db.products && userId !in old(db.users) ==>
              r == Err(UserNotFound) && db.users == old(db.users)
    ensures !Missing(id) && id.value in db.products && userId in old(db.users) ==>
              var user := old(db.users)[userId];
              match RemoveLine(user.cart, id.value)
              case None => r == Err(NotInCart) && db.users == old(db.users)
              case Some(cart) => r == Ok(cart) && db.users == old(db.users)[userId := user.(cart := cart)]
  {
    if Missing(id) {
      return Err(MissingProductId);
    }
    if id.value !in db.products {
      return Err(ProductNotFound);
    }
    if userId !in db.users {
      return Err(UserNotFound);
    }
    var user := db.users[userId];
    match RemoveLine(user.cart, id.value) {
      case None =>
        r := Err(NotInCart);
      case Some(cart) =>
        db.users := db.users[userId := user.(cart := cart)];
        r := Ok(cart);
    }
  }

  /**
   * POST /api/save-user-address: overwrites the address. For an unknown user
   * `user.address` throws, and the `catch` only logs: no response is sent.
   * An `Err(e)` result is answered with the status `HttpStatus(e)`, or with
   * no response when that is None.
   */
  method SaveUserAddress(db: Store, userId: Id, address: string) returns (r: Result<User, ApiError>)
    requires db.Valid()
    modifies db
    ensures db.Valid()
    ensures db.products == old(db.products) && db.orders == old(db.orders)
    ensures userId !in old(db.users) ==> r == Err(Unanswered) && db.users == old(db.users)
    ensures userId in old(db.users) ==>
              var user := old(db.users)[userId].(address := address);
              r == Ok(user) && db.users == old(db.users)[userId := user]
  {
    if userId !in db.users {
      return Err(Unanswered);
    }
    var user := db.users[userId].(address := address);
    db.users := db.users[userId := user];
    r := Ok(user);
  }

  /** GET /api/orders/me: the caller's orders, in store order. */
  function OrdersOf(orders: seq<Order>, userId: Id): (r: seq<Order>)
    ensures |r| <= |orders|
    ensures forall o :: o in r <==> o in orders && o.userId == userId
  {
    if orders == [] then []
    else (if orders[0].userId == userId then [orders[0]] else []) + OrdersOf(orders[1..], userId)
  }

  /** The query keeps the store order and every repeat: it distributes over concatenation. */
  lemma {:induction false} OrdersOfConcat(a: seq<Order>, b: seq<Order>, userId: Id)
    ensures OrdersOf(a + b, userId) == OrdersOf(a, userId) + OrdersOf(b, userId)
  {
    if a == [] {
      assert a + b == b;
    } else {
      assert (a + b)[0] == a[0];
      assert (a + b)[1..] == a[1..] + b;
      OrdersOfConcat(a[1..], b, userId);
    }
  }

  /** A caller's orders are kept whole, others' are dropped, one stored order at a time. */
  lemma OrdersOfAppend(orders: seq<Order>, o: Order, userId: Id)
    ensures OrdersOf(orders + [o], userId) == OrdersOf(orders, userId) + (if o.userId == userId then [o] else [])
  {
    OrdersOfConcat(orders, [o], userId);
    assert OrdersOf([o][1..], userId) == [];
  }

  // ---------------------------------------------------------------------
  // Order placement: the stock reservation loop
  // ---------------------------------------------------------------------

  /** One `{_id, quantity}` line of the request body's cart. */
  datatype RequestLine = RequestLine(id: Id, quantity: int)

  /**
   * The state of the reservation loop: the catalog as saved so far, the
   * order lines pushed so far, the indices of the request lines reserved and
   * of the one answered "out of stock", and the index of the line at which
   * the handler throws.
   */
  datatype Reservation = Reservation(
    stock: map<Id, Product>,
    lines: seq<LineItem>,
    taken: seq<nat>,
    skipped: seq<nat>,
    thrownAt: Option<nat>)

  /**
   * One iteration of the loop, on request line `i`. A product lookup that
   * returns null throws on `product.quantity`. The first uncovered line is
   * answered 400; a second one throws too, because `res.json` then sets a
   * header on a response already sent.
   */
  function Step(st: Reservation, i: nat, line: RequestLine): Reservation
  {
    if line.id !in st.stock then st.(thrownAt := Some(i))
    else
      var p := st.stock[line.id];
      if p.quantity >= line.quantity then
        var p' := p.(quantity := p.quantity - line.quantity);
        st.(stock := st.stock[line.id := p'],
            lines := st.lines + [LineItem(p', line.quantity)],
            taken := st.taken + [i])
      else if st.skipped == [] then
        st.(skipped := [i])
      else
        st.(thrownAt := Some(i))
  }

  /** The loop over the request lines, in order, stopping where the handler throws. */
  function Reserve(stock: map<Id, Product>, req: seq<RequestLine>): Reservation
    decreases |req|
  {
    if req == [] then Reservation(stock, [], [], [], None)
    else
      var st := Reserve(stock, req[..|req| - 1]);
      if st.thrownAt.Some? then st else Step(st, |req| - 1, req[|req| - 1])
  }

  /** The quantity the order lines reserve of product `id`. */
  function ReservedOf(lines: seq<LineItem>, id: Id): int
  {
    if lines == [] then 0
    else ReservedOf(lines[..|lines| - 1], id)
         + (if lines[|lines| - 1].product.id == id then lines[|lines| - 1].quantity else 0)
  }

  lemma ReservedOfAppend(lines: seq<LineItem>, l: LineItem, id: Id)
    ensures ReservedOf(lines + [l], id) == ReservedOf(lines, id) + (if l.product.id == id then l.quantity else 0)
  {
    assert (lines + [l])[..|lines|] == lines;
  }

  /**
   * Only stock changes: the catalog keeps its products and every field of
   * each but `quantity`, and every order line holds a copy of its product.
   */
  ghost predicate StockFramed(st: Reservation, stock: map<Id, Product>) {
    && st.stock.Keys == stock.Keys
    && Keyed(st.stock)
    && (forall k :: k in stock ==> st.stock[k] == stock[k].(quantity := st.stock[k].quantity))
    && (forall j :: 0 <= j < |st.lines| ==>
          && st.lines[j].product.id in stock
          && st.lines[j].product == stock[st.lines[j].product.id].(quantity := st.lines[j].product.quantity))
  }

  /** One step keeps the stock framed. */
  lemma StepStockFramed(prev: Reservation, stock: map<Id, Product>, i: nat, line: RequestLine)
    requires Keyed(stock) && StockFramed(prev, stock)
    ensures StockFramed(Step(prev, i, line), stock)
  {
    if line.id in prev.stock && prev.stock[line.id].quantity >= line.quantity {
      var p' := prev.stock[line.id].(quantity := prev.stock[line.id].quantity - line.quantity);
      var st := Step(prev, i, line);
      assert st.lines == prev.lines + [LineItem(p', line.quantity)];
      assert st.stock == prev.stock[line.id := p'];
      forall k | k in stock
        ensures st.stock[k] == stock[k].(quantity := st.stock[k].quantity) && st.stock[k].id == k
      {
        if k != line.id {
          assert st.stock[k] == prev.stock[k];
        }
      }
      forall j | 0 <= j < |st.lines|
        ensures st.lines[j].product.id in stock
        ensures st.lines[j].product == stock[st.lines[j].product.id].(quantity := st.lines[j].product.quantity)
      {
        if j < |prev.lines| {
          assert st.lines[j] == prev.lines[j];
        }
      }
    }
  }

  lemma {:induction false} ReserveFrame(stock: map<Id, Product>, req: seq<RequestLine>)
    requires Keyed(stock)
    ensures StockFramed(Reserve(stock, req), stock)
  {
    if req != [] {
      var init := req[..|req| - 1];
      ReserveFrame(stock, init);
      var prev := Reserve(stock, init);
      if prev.thrownAt.None? {
        StepStockFramed(prev, stock, |req| - 1, req[|req| - 1]);
      }
    }
  }

  /** One reserved line keeps the stock accounting. */
  lemma TakeKeepsAccounting(prev: Reservation, i: nat, line: RequestLine, stock: map<Id, Product>)
    requires Keyed(prev.stock) && stock.Keys == prev.stock.Keys
    requires line.id in prev.stock && prev.stock[line.id].quantity >= line.quantity
    requires forall k :: k in stock ==> prev.stock[k].quantity == stock[k].quantity - ReservedOf(prev.lines, k)
    ensures var st := Step(prev, i, line);
            forall k :: k in stock ==> k in st.stock && st.stock[k].quantity == stock[k].quantity - ReservedOf(st.lines, k)
  {
    var p := prev.stock[line.id];
    var l := LineItem(p.(quantity := p.quantity - line.quantity), line.quantity);
    var st := Step(prev, i, line);
    assert st.lines == prev.lines + [l] && st.stock == prev.stock[line.id := l.product];
    forall k | k in stock
      ensures st.stock[k].quantity == stock[k].quantity - ReservedOf(st.lines, k)
    {
      ReservedOfAppend(prev.lines, l, k);
      if k == line.id {
        assert st.stock[k].quantity == prev.stock[k].quantity - line.quantity;
      } else {
        assert st.stock[k] == prev.stock[k];
      }
    }
  }

  /**
   * Stock accounting: each product's new stock is its old stock less what
   * the order lines reserve of it.
   */
  lemma {:induction false} ReserveAccounting(stock: map<Id, Product>, req: seq<RequestLine>)
    requires Keyed(stock)
    ensures var st := Reserve(stock, req);
            forall k :: k in stock ==> k in st.stock && st.stock[k].quantity == stock[k].quantity - ReservedOf(st.lines, k)
  {
    if req != [] {
      var init := req[..|req| - 1];
      ReserveAccounting(stock, init);
      ReserveFrame(stock, init);
      var prev := Reserve(stock, init);
      var line := req[|req| - 1];
      if prev.thrownAt.None? && line.id in prev.stock && prev.stock[line.id].quantity >= line.quantity {
        TakeKeepsAccounting(prev, |req| - 1, line, stock);
      }
    }
  }

  /** A reserved line never takes a stock below zero, so a non-negative catalog stays non-negative. */
  lemma {:induction false} ReserveKeepsStockNonNegative(stock: map<Id, Product>, req: seq<RequestLine>)
    requires StockNonNegative(stock)
    ensures StockNonNegative(Reserve(stock, req).stock)
  {
    if req != [] {
      ReserveKeepsStockNonNegative(stock, req[..|req| - 1]);
    }
  }

  /** No order takes more of a product than was in stock. */
  lemma NoOversell(stock: map<Id, Product>, req: seq<RequestLine>, k: Id)
    requires Keyed(stock) && StockNonNegative(stock) && k in stock
    ensures ReservedOf(Reserve(stock, req).lines, k) <= stock[k].quantity
  {
    ReserveAccounting(stock, req);
    ReserveKeepsStockNonNegative(stock, req);
  }

  /**
   * The order lines follow the request: line `j` comes from request line
   * `taken[j]`, with its product id and quantity, and the taken indices
   * increase, so the lines are a subsequence of the request.
   */
  predicate LinesFollow(st: Reservation, req: seq<RequestLine>) {
    && |st.lines| == |st.taken|
    && (forall j :: 0 <= j < |st.taken| ==>
          && st.taken[j] < |req|
          && st.lines[j].quantity == req[st.taken[j]].quantity
          && st.lines[j].product.id == req[st.taken[j]].id)
    && (forall j1, j2 :: 0 <= j1 < j2 < |st.taken| ==> st.taken[j1] < st.taken[j2])
  }

  /** One more processed request line keeps the lines following the request. */
  lemma StepLinesFollow(prev: Reservation, req: seq<RequestLine>)
    requires req != [] && Keyed(prev.stock)
    requires LinesFollow(prev, req[..|req| - 1])
    ensures LinesFollow(Step(prev, |req| - 1, req[|req| - 1]), req)
  {
    assert forall j :: 0 <= j < |req| - 1 ==> req[..|req| - 1][j] == req[j];
  }

  lemma {:induction false} ReserveLinesFollowRequest(stock: map<Id, Product>, req: seq<RequestLine>)
    requires Keyed(stock)
    ensures LinesFollow(Reserve(stock, req), req)
  {
    if req != [] {
      var init := req[..|req| - 1];
      ReserveLinesFollowRequest(stock, init);
      ReserveFrame(stock, init);
      var prev := Reserve(stock, init);
      if prev.thrownAt.None? {
        StepLinesFollow(prev, req);
      } else {
        assert forall j :: 0 <= j < |init| ==> init[j] == req[j];
      }
    }
  }

  /**
   * The first `n` request lines are split between `taken` and `skipped`:
   * each is in one of them and none is in both, and neither holds an index
   * from `n` on.
   */
  predicate SplitsPrefix(st: Reservation, n: nat) {
    && (forall j :: 0 <= j < n ==> j in st.taken || j in st.skipped)
    && (forall j :: j in st.skipped ==> j !in st.taken)
    && (forall j :: j in st.taken ==> j < n)
    && (forall j :: j in st.skipped ==> j < n)
  }

  /** The request line processed by a step joins exactly one of `taken` and `skipped`, or the step throws. */
  lemma StepSplitsPrefix(prev: Reservation, i: nat, line: RequestLine)
    requires prev.thrownAt.None? && SplitsPrefix(prev, i)
    ensures var st := Step(prev, i, line);
            st.thrownAt.None? ==> SplitsPrefix(st, i + 1)
  {
  }

  /**
   * Every processed request line is either reserved or skipped, never both,
   * and at most one is skipped. The handler throws at a product missing from
   * the catalog, or at a second line the stock does not cover, and the loop
   * stops there.
   */
  predicate CoversRequest(st: Reservation, stock: map<Id, Product>, req: seq<RequestLine>) {
    && |st.skipped| <= 1
    && (st.thrownAt.None? ==> SplitsPrefix(st, |req|) && |st.taken| + |st.skipped| == |req|)
    && (st.thrownAt.Some? ==>
          var f := st.thrownAt.value;
          && f < |req|
          && SplitsPrefix(st, f)
          && |st.taken| + |st.skipped| == f
          && (|| req[f].id !in stock
              || (st.skipped != [] && req[f].id in st.stock && st.stock[req[f].id].quantity < req[f].quantity)))
  }

  /** One more processed request line keeps the request covered. */
  lemma StepCoversRequest(prev: Reservation, stock: map<Id, Product>, req: seq<RequestLine>)
    requires req != [] && prev.thrownAt.None? && prev.stock.Keys == stock.Keys
    requires CoversRequest(prev, stock, req[..|req| - 1])
    ensures CoversRequest(Step(prev, |req| - 1, req[|req| - 1]), stock, req)
  {
    StepSplitsPrefix(prev, |req| - 1, req[|req| - 1]);
  }

  lemma {:induction false} ReserveCoversRequest(stock: map<Id, Product>, req: seq<RequestLine>)
    requires Keyed(stock)
    ensures CoversRequest(Reserve(stock, req), stock, req)
  {
    if req != [] {
      var init := req[..|req| - 1];
      ReserveCoversRequest(stock, init);
      ReserveFrame(stock, init);
      var prev := Reserve(stock, init);
      if prev.thrownAt.None? {
        StepCoversRequest(prev, stock, req);
      } else {
        assert req[prev.thrownAt.value] == init[prev.thrownAt.value];
      }
    }
  }

  /**
   * The skipped line is the one the stock did not cover: when the loop
   * reached it, its product was in the catalog with less than the requested
   * quantity, so none of it was reserved.
   */
  lemma {:induction false} SkippedLineUncovered(stock: map<Id, Product>, req: seq<RequestLine>, s: nat)
    requires s in Reserve(stock, req).skipped
    ensures s < |req|
    ensures var before := Reserve(stock, req[..s]);
            && before.thrownAt.None?
            && req[s].id in before.stock
            && before.stock[req[s].id].quantity < req[s].quantity
  {
    var init := req[..|req| - 1];
    var prev := Reserve(stock, init);
    if s in prev.skipped {
      SkippedLineUncovered(stock, init, s);
      assert init[..s] == req[..s];
    } else {
      assert s == |req| - 1;
      assert init == req[..s];
    }
  }

  /** Once the handler has thrown, the later request lines are never processed. */
  lemma {:induction false} ReserveFailurePersists(stock: map<Id, Product>, req: seq<RequestLine>, k: nat)
    requires k <= |req| && Reserve(stock, req[..k]).thrownAt.Some?
    ensures Reserve(stock, req) == Reserve(stock, req[..k])
  {
    if k < |req| {
      assert req[..|req| - 1][..k] == req[..k];
      ReserveFailurePersists(stock, req[..|req| - 1], k);
    } else {
      assert req[..k] == req;
    }
  }

  /**
   * A repeated id is checked against the already decremented stock: with 5
   * in stock, a request for 3 and then 3 more reserves the first line only.
   */
  lemma RepeatedIdSeesDecrementedStock(p: Product)
    requires p.quantity == 5
    ensures var st := Reserve(map[p.id := p], [RequestLine(p.id, 3), RequestLine(p.id, 3)]);
            && p.id in st.stock && st.stock[p.id].quantity == 2
            && st.taken == [0] && st.skipped == [1] && st.thrownAt == None
            && st.lines == [LineItem(p.(quantity := 2), 3)]
  {
    var m := map[p.id := p];
    var req := [RequestLine(p.id, 3), RequestLine(p.id, 3)];
    assert req[..1] == [RequestLine(p.id, 3)];
    assert req[..1][..0] == [];
    var first := Reservation(m[p.id := p.(quantity := 2)], [LineItem(p.(quantity := 2), 3)], [0], [], None);
    assert Reserve(m, req[..1]) == first;
    assert Reserve(m, req) == Step(first, 1, req[1]);
  }

  /**
   * Exactly the stock: 5 in stock and 5 requested reserves the whole stock
   * in one line.
   */
  lemma WholeStockScenario(p: Product)
    requires p.quantity == 5
    ensures var st := Reserve(map[p.id := p], [RequestLine(p.id, 5)]);
            && st.stock == map[p.id := p.(quantity := 0)]
            && st.lines == [LineItem(p.(quantity := 0), 5)] && st.skipped == [] && st.thrownAt == None
  {
    var req := [RequestLine(p.id, 5)];
    assert req[..0] == [];
  }

  /**
   * Out of stock: with 0 in stock a request for 1 is skipped and the stock
   * stays 0; the order is still made, with no line.
   */
  lemma OutOfStockScenario(p: Product)
    requires p.quantity == 0
    ensures var st := Reserve(map[p.id := p], [RequestLine(p.id, 1)]);
            && st.stock == map[p.id := p]
            && st.lines == [] && st.skipped == [0] && st.thrownAt == None
  {
    var req := [RequestLine(p.id, 1)];
    assert req[..0] == [];
  }

  /**
   * Two uncovered lines: with A at 0 and C at 10, the request A 1, A 1, C 1
   * answers 400 for the first line and throws at the second, so C is never
   * reserved and stays at 10.
   */
  lemma SecondOutOfStockThrows(a: Product, c: Product)
    requires a.id != c.id && a.quantity == 0 && c.quantity == 10
    ensures var stock := map[a.id := a, c.id := c];
            var st := Reserve(stock, [RequestLine(a.id, 1), RequestLine(a.id, 1), RequestLine(c.id, 1)]);
            && st.thrownAt == Some(1)
            && st.stock == stock
            && st.lines == [] && st.skipped == [0]
  {
    var stock := map[a.id := a, c.id := c];
    var req := [RequestLine(a.id, 1), RequestLine(a.id, 1), RequestLine(c.id, 1)];
    assert req[..2][..1] == [RequestLine(a.id, 1)] && req[..2][..1][..0] == [];
    var first := Reservation(stock, [], [], [0], None);
    assert Reserve(stock, req[..2][..1]) == first;
    assert Reserve(stock, req[..2]) == first.(thrownAt := Some(1));
    assert Reserve(stock, req) == Reserve(stock, req[..2]);
  }

  // ---------------------------------------------------------------------
  // The order-product handler
  // ---------------------------------------------------------------------

  /**
   * POST /api/order-product. Each request line, in order, re-reads its
   * product; when the stock covers the request the stock goes down by it,
   * the product is saved at once and `{product, quantity}` joins the order;
   * otherwise the first such line is answered "out of stock" and the loop
   * goes on. The handler throws at a product lookup that returns null and
   * at a second uncovered line; its `catch` only logs, the stock saved so
   * far stays, the cart is kept and no order is made. Then the user's cart
   * is emptied (an unknown user throws likewise) and the order is stored
   * with the caller's totalPrice and address.
   * An `Err(e)` result is answered with the status `HttpStatus(e)`, or with
   * no response when that is None.
   */
  method OrderProduct(db: Store, userId: Id, cart: seq<RequestLine>, totalPrice: real, address: string, now: int)
    returns (r: Result<Order, ApiError>, skipped: seq<nat>)
    requires db.Valid()
    modifies db
    ensures db.Valid()
    ensures var st := Reserve(old(db.products), cart);
            && db.products == st.stock
            && skipped == st.skipped
            && (st.thrownAt.Some? ==>
                  r == Err(Unanswered) && db.users == old(db.users) && db.orders == old(db.orders))
            && (st.thrownAt.None? && userId !in old(db.users) ==>
                  r == Err(Unanswered) && db.users == old(db.users) && db.orders == old(db.orders))
            && (st.thrownAt.None? && userId in old(db.users) ==>
                  var order := Order(st.lines, totalPrice, address, userId, now, InitialStatus);
                  && r == Ok(order)
                  && db.users == old(db.users)[userId := old(db.users)[userId].(cart := [])]
                  && db.orders == old(db.orders) + [order])
  {
    var products: seq<LineItem> := [];
    ghost var taken: seq<nat> := [];
    skipped := [];
    var i := 0;
    while i < |cart|
      invariant 0 <= i <= |cart|
      invariant Reserve(old(db.products), cart[..i]) == Reservation(db.products, products, taken, skipped, None)
      invariant db.users == old(db.users) && db.orders == old(db.orders)
      invariant db.Valid()
    {
      assert cart[..i + 1][..i] == cart[..i];
      var line := cart[i];
      if line.id !in db.products {
        // `product.quantity` on a null product: TypeError, caught and logged.
        ReserveFailurePersists(old(db.products), cart, i + 1);
        ReserveFrame(old(db.products), cart);
        return Err(Unanswered), skipped;
      }
      var product := db.products[line.id];
      if product.quantity >= line.quantity {
        product := product.(quantity := product.quantity - line.quantity);
        products := products + [LineItem(product, line.quantity)];
        taken := taken + [i];
        db.products := db.products[line.id := product];
      } else if skipped == [] {
        skipped := [i];
      } else {
        // A second `res.status(400).json(...)`: the response is already sent, so it throws.
        ReserveFailurePersists(old(db.products), cart, i + 1);
        ReserveFrame(old(db.products), cart);
        return Err(Unanswered), skipped;
      }
      i := i + 1;
    }
    assert cart[..i] == cart;
    ReserveFrame(old(db.products), cart);
    if userId !in db.users {
      return Err(Unanswered), skipped;
    }
    var user := db.users[userId];
    db.users := db.users[userId := user.(cart := [])];
    var order := Order(products, totalPrice, address, userId, now, InitialStatus);
    db.orders := db.orders + [order];
    r := Ok(order);
  }
}
