/** The order bookkeeping endpoints of `main.py`: the admin guard, order
    creation, order status updates, pagination, the delete guards and the
    image upload checks. */
module OrderEndpoints {
  import opened Wrappers
  import opened Http
  import opened Text
  import opened PydanticModel
  import opened Shop

  /** `require_admin`: only a caller whose role claim is "admin" passes. */
  function RequireAdmin(user: User): (r: Option<HttpError>)
    ensures r.None? <==> user.role == Some(RoleValue(Role.Admin))
    ensures r.Some? ==> r.value.status == Forbidden
  {
    if user.role != Some(RoleValue(Role.Admin)) then Some(HttpError(Forbidden, "Admin access required"))
    else None
  }

  // ---------------------------------------------------------------- create_order

  /** A set address id (zero counts as unset) must name an address of the caller. */
  function AddressError(addresses: map<int, Address>, user: User, addressId: Option<int>): (r: Option<HttpError>)
    ensures r.None? <==> (addressId.None? || addressId.value == 0
      || (addressId.value in addresses && addresses[addressId.value].userId == user.id))
    ensures r.Some? ==> r.value.status == BadRequest
  {
    match addressId
    case None => None
    case Some(a) =>
      if a != 0 && !(a in addresses && addresses[a].userId == user.id) then Some(HttpError(BadRequest, "Invalid address ID"))
      else None
  }

  /** The check of one cart line against the stock as it was before the order. */
  function LineError(products: map<int, Product>, item: CartItem): (r: Option<HttpError>)
    ensures r.None? <==> item.id in products && item.quantity <= products[item.id].stock
  {
    if item.id !in products then Some(HttpError(NotFound, "Product ID " + IntToString(item.id) + " not found"))
    else if products[item.id].stock < item.quantity then
      Some(HttpError(BadRequest, "Insufficient stock for product " + products[item.id].name))
    else None
  }

  /** The error of the first failing cart line, if any. */
  function CartError(products: map<int, Product>, cart: seq<CartItem>): (r: Option<HttpError>)
    ensures r.None? <==> forall k :: 0 <= k < |cart| ==> LineError(products, cart[k]).None?
  {
    if cart == [] then None
    else
      var init := cart[..|cart| - 1];
      assert forall k :: 0 <= k < |init| ==> init[k] == cart[k];
      match CartError(products, init)
      case Some(e) => Some(e)
      case None => LineError(products, cart[|cart| - 1])
  }

  /** Once a prefix of the cart has failed, the whole cart fails with that error. */
  lemma {:induction false} CartErrorSticks(products: map<int, Product>, cart: seq<CartItem>, n: nat)
    requires n <= |cart|
    requires CartError(products, cart[..n]).Some?
    ensures CartError(products, cart) == CartError(products, cart[..n])
    decreases |cart| - n
  {
    if n < |cart| {
      CartErrorStep(products, cart, n);
      CartErrorSticks(products, cart, n + 1);
    } else {
      assert cart[..n] == cart;
    }
  }

  /** One more line does not change an error already found. */
  lemma CartErrorStep(products: map<int, Product>, cart: seq<CartItem>, n: nat)
    requires n < |cart|
    requires CartError(products, cart[..n]).Some?
    ensures CartError(products, cart[..n + 1]) == CartError(products, cart[..n])
  {
    var longer := cart[..n + 1];
    assert longer[..|longer| - 1] == cart[..n];
  }

  /** The error of the order request: the address check, then the cart lines. */
  function CreateOrderError(addresses: map<int, Address>, products: map<int, Product>, user: User, payload: CartPayload): Option<HttpError> {
    match AddressError(addresses, user, payload.addressId)
    case Some(e) => Some(e)
    case None => CartError(products, payload.cart)
  }

  /** The order line written for one cart line. */
  function LineFor(orderId: int, products: map<int, Product>, item: CartItem): OrderDetail
    requires item.id in products
  {
    OrderDetail(orderId, item.id, item.quantity, products[item.id].price * item.quantity)
  }

  /** The order lines written for a cart whose products all exist. */
  function DetailsFor(orderId: int, products: map<int, Product>, cart: seq<CartItem>): (r: seq<OrderDetail>)
    requires ProductsExist(products, cart)
    ensures |r| == |cart|
  {
    if cart == [] then []
    else DetailsFor(orderId, products, cart[..|cart| - 1]) + [LineFor(orderId, products, cart[|cart| - 1])]
  }

  /** The sum of the line totals. */
  function LinesTotal(details: seq<OrderDetail>): int {
    if details == [] then 0 else LinesTotal(details[..|details| - 1]) + details[|details| - 1].totalPrice
  }

  /** The total quantity the cart asks of product `id`. */
  function QuantityOf(cart: seq<CartItem>, id: int): int {
    if cart == [] then 0
    else QuantityOf(cart[..|cart| - 1], id) + (if cart[|cart| - 1].id == id then cart[|cart| - 1].quantity else 0)
  }

  /** One cart line taking its quantity off its product's stock. */
  function Decrement(products: map<int, Product>, item: CartItem): map<int, Product> {
    if item.id in products then products[item.id := products[item.id].(stock := products[item.id].stock - item.quantity)]
    else products
  }

  /** The products after every cart line has taken its quantity off the stock. */
  function StockAfter(products: map<int, Product>, cart: seq<CartItem>): (r: map<int, Product>)
    ensures r.Keys == products.Keys
  {
    if cart == [] then products
    else Decrement(StockAfter(products, cart[..|cart| - 1]), cart[|cart| - 1])
  }

  /** Taking stock off changes nothing about a product but its stock. */
  lemma {:induction false} StockAfterKeepsProduct(products: map<int, Product>, cart: seq<CartItem>, id: int)
    requires id in products
    ensures StockAfter(products, cart)[id] == products[id].(stock := StockAfter(products, cart)[id].stock)
  {
    if cart != [] {
      StockAfterKeepsProduct(products, cart[..|cart| - 1], id);
    }
  }

  /** Each product loses exactly the quantities of its cart lines. */
  lemma {:induction false} StockAfterSubtracts(products: map<int, Product>, cart: seq<CartItem>, id: int)
    requires id in products
    ensures StockAfter(products, cart)[id].stock == products[id].stock - QuantityOf(cart, id)
  {
    if cart != [] {
      StockAfterSubtracts(products, cart[..|cart| - 1], id);
    }
  }

  predicate DistinctIds(cart: seq<CartItem>) {
    forall i, j :: 0 <= i < j < |cart| ==> cart[i].id != cart[j].id
  }

  /** With distinct ids, the quantity asked of a line's product is that line's quantity. */
  lemma {:induction false} QuantityOfDistinct(cart: seq<CartItem>, k: nat)
    requires DistinctIds(cart) && k < |cart|
    ensures QuantityOf(cart, cart[k].id) == cart[k].quantity
  {
    var n := |cart| - 1;
    var prefix := cart[..n];
    if k == n {
      QuantityOfAbsent(prefix, cart[k].id);
    } else {
      assert prefix[k] == cart[k];
      QuantityOfDistinct(prefix, k);
    }
  }

  lemma {:induction false} QuantityOfAbsent(cart: seq<CartItem>, id: int)
    requires forall k :: 0 <= k < |cart| ==> cart[k].id != id
    ensures QuantityOf(cart, id) == 0
  {
    if cart != [] {
      QuantityOfAbsent(cart[..|cart| - 1], id);
    }
  }

  /** When the cart names each product at most once, an accepted cart leaves
      every product it names with a stock of at least zero. */
  lemma DistinctCartKeepsStock(products: map<int, Product>, cart: seq<CartItem>)
    requires DistinctIds(cart)
    requires CartError(products, cart).None?
    ensures forall k :: 0 <= k < |cart| ==> StockAfter(products, cart)[cart[k].id].stock >= 0
  {
    forall k | 0 <= k < |cart|
      ensures StockAfter(products, cart)[cart[k].id].stock >= 0
    {
      assert LineError(products, cart[k]).None?;
      StockAfterSubtracts(products, cart, cart[k].id);
      QuantityOfDistinct(cart, k);
    }
  }

  /** Two lines for the same product each pass the check against the original
      stock, and together they take the stock below zero. */
  lemma DuplicateLinesOversell()
    ensures var products := map[1 := Product(1, 7, "mug", 500, 5)];
      var cart := [CartItem(1, 3), CartItem(1, 3)];
      CartError(products, cart).None? && StockAfter(products, cart)[1].stock == -1
  {
    var products := map[1 := Product(1, 7, "mug", 500, 5)];
    var cart := [CartItem(1, 3), CartItem(1, 3)];
    assert cart[..1] == [CartItem(1, 3)];
    assert cart[..1][..0] == [];
    assert LineError(products, cart[0]).None? && LineError(products, cart[1]).None?;
    StockAfterSubtracts(products, cart, 1);
  }

  /** The stock check as intended: each product must cover the total quantity
      the cart asks of it. */
  function AggregateCartError(products: map<int, Product>, cart: seq<CartItem>): (r: Option<HttpError>)
    ensures r.None? <==> forall k :: 0 <= k < |cart| ==>
      cart[k].id in products && QuantityOf(cart, cart[k].id) <= products[cart[k].id].stock
  {
    AggregateLinesError(products, cart, 0)
  }

  /** The intended check applied to the lines from index `i` on. */
  function AggregateLinesError(products: map<int, Product>, cart: seq<CartItem>, i: nat): (r: Option<HttpError>)
    ensures r.None? <==> forall k :: i <= k < |cart| ==>
      cart[k].id in products && QuantityOf(cart, cart[k].id) <= products[cart[k].id].stock
    decreases |cart| - i
  {
    if i >= |cart| then None
    else if cart[i].id !in products then Some(HttpError(NotFound, "Product ID " + IntToString(cart[i].id) + " not found"))
    else if products[cart[i].id].stock < QuantityOf(cart, cart[i].id) then
      Some(HttpError(BadRequest, "Insufficient stock for product " + products[cart[i].id].name))
    else AggregateLinesError(products, cart, i + 1)
  }

  /** The intended check never lets a product's stock go below zero, duplicates or not. */
  lemma AggregateCheckKeepsStock(products: map<int, Product>, cart: seq<CartItem>)
    requires AggregateCartError(products, cart).None?
    ensures forall k :: 0 <= k < |cart| ==> StockAfter(products, cart)[cart[k].id].stock >= 0
  {
    forall k | 0 <= k < |cart|
      ensures StockAfter(products, cart)[cart[k].id].stock >= 0
    {
      StockAfterSubtracts(products, cart, cart[k].id);
    }
  }

  /** For carts that name each product once, the two checks accept the same carts. */
  lemma ChecksAgreeOnDistinctCarts(products: map<int, Product>, cart: seq<CartItem>)
    requires DistinctIds(cart)
    ensures AggregateCartError(products, cart).None? <==> CartError(products, cart).None?
  {
    forall k | 0 <= k < |cart|
      ensures QuantityOf(cart, cart[k].id) == cart[k].quantity
    {
      QuantityOfDistinct(cart, k);
    }
  }

  /** The order row written on success, before its total is known. */
  function NewOrder(orderId: int, user: User, payload: CartPayload): Order {
    Order(orderId, user.id, 0, payload.deliveryFee, payload.addressId, OrderStatus.Pending, None, None, None)
  }

  /** The stock check of `create_order`, line by line against the stock as it was. */
  method ValidateCart(products: map<int, Product>, cart: seq<CartItem>) returns (e: Option<HttpError>)
    ensures e == CartError(products, cart)
  {
    var i := 0;
    while i < |cart|
      invariant 0 <= i <= |cart|
      invariant CartError(products, cart[..i]).None?
    {
      var item := cart[i];
      assert cart[..i + 1][..i] == cart[..i];
      if item.id !in products {
        CartErrorSticks(products, cart, i + 1);
        return Some(HttpError(NotFound, "Product ID " + IntToString(item.id) + " not found"));
      }
      var product := products[item.id];
      if product.stock < item.quantity {
        CartErrorSticks(products, cart, i + 1);
        return Some(HttpError(BadRequest, "Insufficient stock for product " + product.name));
      }
      i := i + 1;
    }
    assert cart[..|cart|] == cart;
    return None;
  }

  /** How one more cart line extends the stock and the order lines. */
  lemma CartStep(orderId: int, products: map<int, Product>, cart: seq<CartItem>, i: nat)
    requires i < |cart|
    requires ProductsExist(products, cart)
    ensures ProductsExist(products, cart[..i]) && ProductsExist(products, cart[..i + 1])
    ensures StockAfter(products, cart[..i + 1]) == Decrement(StockAfter(products, cart[..i]), cart[i])
    ensures DetailsFor(orderId, products, cart[..i + 1])
         == DetailsFor(orderId, products, cart[..i]) + [LineFor(orderId, products, cart[i])]
  {
    assert cart[..i + 1][..i] == cart[..i];
    ProductsExistPrefix(products, cart, i + 1);
    ProductsExistPrefix(products, cart, i);
  }

  lemma LinesTotalAppend(lines: seq<OrderDetail>, line: OrderDetail)
    ensures LinesTotal(lines + [line]) == LinesTotal(lines) + line.totalPrice
  {
    assert (lines + [line])[..|lines|] == lines;
  }

  /** Every cart line names an existing product. */
  predicate ProductsExist(products: map<int, Product>, cart: seq<CartItem>) {
    forall k :: 0 <= k < |cart| ==> cart[k].id in products
  }

  lemma ProductsExistPrefix(products: map<int, Product>, cart: seq<CartItem>, i: nat)
    requires ProductsExist(products, cart) && i <= |cart|
    ensures ProductsExist(products, cart[..i])
  {
    forall k | 0 <= k < i
      ensures cart[..i][k].id in products
    {
      assert cart[..i][k] == cart[k];
    }
  }

  /** The second loop of `create_order`: one order line per cart line, each
      quantity taken off its product, and the sum of the lines. */
  method ApplyCart(products0: map<int, Product>, orderId: int, cart: seq<CartItem>)
    returns (products: map<int, Product>, lines: seq<OrderDetail>, totalCost: int)
    requires ProductsExist(products0, cart)
    requires forall p :: p in products0 ==> products0[p].id == p
    ensures products == StockAfter(products0, cart)
    ensures lines == DetailsFor(orderId, products0, cart)
    ensures totalCost == LinesTotal(lines)
    ensures forall p :: p in products ==> products[p].id == p
  {
    products := products0;
    lines := [];
    totalCost := 0;
    var i := 0;
    while i < |cart|
      invariant 0 <= i <= |cart|
      invariant products == StockAfter(products0, cart[..i])
      invariant ProductsExist(products0, cart[..i]) && lines == DetailsFor(orderId, products0, cart[..i])
      invariant totalCost == LinesTotal(lines)
    {
      var item := cart[i];
      CartStep(orderId, products0, cart, i);
      StockAfterKeepsProduct(products0, cart[..i], item.id);
      var product := products[item.id];
      var itemTotal := product.price * item.quantity;
      var detail := OrderDetail(orderId, product.id, item.quantity, itemTotal);
      products := products[item.id := product.(stock := product.stock - item.quantity)];
      LinesTotalAppend(lines, detail);
      lines := lines + [detail];
      totalCost := totalCost + itemTotal;
      i := i + 1;
    }
    assert cart[..|cart|] == cart;
    forall p | p in products
      ensures products[p].id == p
    {
      StockAfterKeepsProduct(products0, cart, p);
    }
  }

  /** The write phase of `create_order`, once every check has passed: a new
      order row, one line per cart line, the stock taken off, and the total. */
  method PlaceOrder(db: Tables, user: User, payload: CartPayload) returns (orderId: int)
    requires db.Valid()
    requires ProductsExist(db.products, payload.cart)
    modifies db
    ensures db.Valid()
    ensures orderId == old(db.nextOrderId) && db.nextOrderId == old(db.nextOrderId) + 1
    ensures db.details == old(db.details) + DetailsFor(orderId, old(db.products), payload.cart)
    ensures db.orders == old(db.orders)[orderId := NewOrder(orderId, user, payload).(
      total := LinesTotal(DetailsFor(orderId, old(db.products), payload.cart)) + payload.deliveryFee)]
    ensures db.products == StockAfter(old(db.products), payload.cart)
    ensures db.addresses == old(db.addresses)
  {
    orderId := db.nextOrderId;
    var products, lines, totalCost := ApplyCart(db.products, orderId, payload.cart);
    var order := NewOrder(orderId, user, payload);
    db.orders := db.orders[orderId := order.(total := totalCost + order.deliveryFee)];
    db.nextOrderId := orderId + 1;
    db.products := products;
    db.details := db.details + lines;
  }

  /** `create_order`: validates the address and every cart line against the
      stock as it was, then writes the order, one line per cart line, takes each
      line's quantity off its product, and sets the total to the sum of the
      lines plus the delivery fee. A failed check changes nothing. */
  method CreateOrder(db: Tables, user: User, payload: CartPayload) returns (r: Result<int, HttpError>)
    requires db.Valid()
    modifies db
    ensures db.Valid()
    ensures db.addresses == old(db.addresses)
    ensures r.Failure? <==> CreateOrderError(old(db.addresses), old(db.products), user, payload).Some?
    ensures r.Failure? ==> Some(r.error) == CreateOrderError(old(db.addresses), old(db.products), user, payload)
    ensures r.Failure? ==> (db.orders == old(db.orders) && db.products == old(db.products)
      && db.details == old(db.details) && db.nextOrderId == old(db.nextOrderId))
    ensures r.Success? ==>
      && ProductsExist(old(db.products), payload.cart)
      && r.value == old(db.nextOrderId) && db.nextOrderId == old(db.nextOrderId) + 1
      && db.details == old(db.details) + DetailsFor(r.value, old(db.products), payload.cart)
      && db.orders == old(db.orders)[r.value := NewOrder(r.value, user, payload).(
           total := LinesTotal(DetailsFor(r.value, old(db.products), payload.cart)) + payload.deliveryFee)]
      && db.products == StockAfter(old(db.products), payload.cart)
    ensures (r.Success? && OrdersReferToAddresses(old(db.orders), old(db.addresses)) && payload.addressId != Some(0)) ==>
      OrdersReferToAddresses(db.orders, db.addresses)
  {
    var addressError := AddressError(db.addresses, user, payload.addressId);
    if addressError.Some? {
      return Failure(addressError.value);
    }
    var cartError := ValidateCart(db.products, payload.cart);
    if cartError.Some? {
      return Failure(cartError.value);
    }
    var orderId := PlaceOrder(db, user, payload);
    r := Success(orderId);
  }

  // --------------------------------------------------------- update_order_status

  /** The errors `update_order_status` raises for itself: 403 for a non-admin,
      then 404 for a missing order. */
  function StatusUpdateError(user: User, orders: map<int, Order>, orderId: int): (r: Option<HttpError>)
    ensures r.None? <==> RequireAdmin(user).None? && orderId in orders
    ensures r.Some? ==> (r.value.status == Forbidden <==> RequireAdmin(user).Some?)
    ensures r.Some? ==> (r.value.status == NotFound <==> RequireAdmin(user).None?)
  {
    match RequireAdmin(user)
    case Some(e) => Some(e)
    case None => if orderId !in orders then Some(HttpError(NotFound, "Order not found")) else None
  }

  /** `completed_at` after a status change: set to the time of the change when
      the order is delivered, cleared otherwise. */
  function CompletedAtAfter(completedAt: Option<int>, status: OrderStatus, now: int): (r: Option<int>)
    ensures r.Some? <==> status == OrderStatus.Delivered
    ensures r.Some? ==> r.value == now
  {
    if status == OrderStatus.Delivered then Some(now)
    else if completedAt.Some? then None
    else completedAt
  }

  datatype StatusUpdated = StatusUpdated(message: string, orderId: int, newStatus: string)

  /** `update_order_status` as written: its own 403 and 404 are raised inside
      the block whose catch-all turns every error into a 500. */
  method UpdateOrderStatus(db: Tables, user: User, orderId: int, status: OrderStatus, now: int) returns (r: Result<StatusUpdated, HttpError>)
    requires db.Valid()
    modifies db
    ensures db.Valid()
    ensures StatusUpdateError(user, old(db.orders), orderId).Some? ==>
      r == Failure(HttpError(ServerError, "Error updating order status")) && db.orders == old(db.orders)
    ensures StatusUpdateError(user, old(db.orders), orderId).None? ==>
      && r == Success(StatusUpdated("Order status updated to " + OrderStatusValue(status), orderId, OrderStatusValue(status)))
      && db.orders == old(db.orders)[orderId := old(db.orders)[orderId].(
           status := status, completedAt := CompletedAtAfter(old(db.orders)[orderId].completedAt, status, now))]
    ensures db.products == old(db.products) && db.addresses == old(db.addresses)
    ensures db.details == old(db.details) && db.nextOrderId == old(db.nextOrderId)
  {
    var error := StatusUpdateError(user, db.orders, orderId);
    if error.Some? {
      return Failure(HttpError(ServerError, "Error updating order status"));
    }
    var order := db.orders[orderId];
    order := order.(status := status);
    order := order.(completedAt := CompletedAtAfter(order.completedAt, status, now));
    db.orders := db.orders[orderId := order];
    var value := OrderStatusValue(status);
    r := Success(StatusUpdated("Order status updated to " + value, orderId, value));
  }

  /** An order is delivered exactly when it carries a completion time. */
  predicate CompletionConsistent(o: Order) {
    o.status == OrderStatus.Delivered <==> o.completedAt.Some?
  }

  /** A status update leaves the order consistent, whatever it was before. */
  lemma StatusUpdateMakesConsistent(o: Order, status: OrderStatus, now: int)
    ensures CompletionConsistent(o.(status := status, completedAt := CompletedAtAfter(o.completedAt, status, now)))
  {
  }

  // ------------------------------------------------------------------ pagination

  /** Python's `a // b`: division rounding down. */
  function FloorDiv(a: int, b: int): (q: int)
    requires b != 0
    ensures b > 0 ==> b * q <= a < b * q + b
    ensures b < 0 ==> b * q >= a > b * q + b
  {
    if b > 0 then a / b else (-a) / (-b)
  }

  /** `ceil(a / b)`: division rounding up. */
  function CeilDiv(a: int, b: int): (q: int)
    requires b != 0
    ensures b > 0 ==> b * q - b < a <= b * q
  {
    -FloorDiv(-a, b)
  }

  datatype Page = Page(skip: int, page: int, limit: int, pages: int)

  /** Pagination of the product listing: the page number and size come from
      the query; a size of zero fails the division and is answered with 500. */
  function ProductPage(page: int, limit: int, total: nat): (r: Result<Page, HttpError>)
    ensures r.Failure? <==> limit == 0
    ensures r.Success? ==> r.value.skip == (page - 1) * limit && r.value.page == page && r.value.limit == limit
    ensures r.Success? && limit > 0 ==> r.value.pages * limit - limit < total <= r.value.pages * limit
  {
    if limit == 0 then Failure(HttpError(ServerError, "Internal Server Error"))
    else Success(Page((page - 1) * limit, page, limit, CeilDiv(total, limit)))
  }

  /** Pagination of the order listings: `skip` must be at least 0 and `limit`
      between 1 and 100, else 422; the page is the one holding `skip`. */
  function OrderPage(skip: int, limit: int, total: nat): (r: Result<Page, HttpError>)
    ensures r.Success? <==> skip >= 0 && 1 <= limit <= 100
    ensures r.Failure? ==> r.error.status == Unprocessable
    ensures r.Success? ==> (r.value.page - 1) * limit <= skip < r.value.page * limit
    ensures r.Success? ==> r.value.pages * limit - limit < total <= r.value.pages * limit
  {
    if skip < 0 || limit < 1 || limit > 100 then Failure(HttpError(Unprocessable, "Invalid pagination parameters"))
    else Success(Page(skip, FloorDiv(skip, limit) + 1, limit, if limit > 0 then CeilDiv(total, limit) else 0))
  }

  /** The two paginations agree: the offset of a product page, used as the
      `skip` of an order listing, is reported as the same page number. */
  lemma PaginationsAgree(page: int, limit: int, total: nat)
    requires page >= 1 && 1 <= limit <= 100
    ensures ProductPage(page, limit, total).Success?
    ensures OrderPage(ProductPage(page, limit, total).value.skip, limit, total).value.page == page
    ensures OrderPage(ProductPage(page, limit, total).value.skip, limit, total).value.pages
         == ProductPage(page, limit, total).value.pages
  {
    var skip := (page - 1) * limit;
    assert skip >= 0 by {
      assert page - 1 >= 0;
    }
    var q := FloorDiv(skip, limit);
    assert limit * q <= skip < limit * q + limit;
    assert limit * (page - 1) == skip;
    PageUnique(q, page - 1, limit);
  }

  lemma PageUnique(q: int, p: int, limit: int)
    requires limit > 0
    requires limit * q <= limit * p < limit * q + limit
    ensures q == p
  {
    var d := p - q;
    assert limit * p == limit * q + limit * d;
    if d >= 1 {
      MulAtLeast(limit, d);
      assert false;
    } else if d <= -1 {
      MulAtLeast(limit, -d);
      assert false;
    }
  }

  lemma {:induction false} MulAtLeast(a: int, d: int)
    requires a > 0 && d >= 1
    ensures a * d >= a
  {
    if d > 1 {
      MulAtLeast(a, d - 1);
      assert a * d == a * (d - 1) + a;
    }
  }

  /** An offset inside the result set lands on an existing page. */
  lemma SkipWithinTotalIsOnAPage(skip: int, limit: int, total: nat)
    requires skip >= 0 && 1 <= limit <= 100 && skip < total
    ensures 1 <= OrderPage(skip, limit, total).value.page <= OrderPage(skip, limit, total).value.pages
  {
  }

  // --------------------------------------------------------------- delete guards

  /** `delete_product`: admin only (403), the caller's own product (404), and
      no order line may name it (400). */
  method DeleteProduct(db: Tables, user: User, productId: int) returns (r: Result<string, HttpError>)
    requires db.Valid()
    modifies db
    ensures db.Valid()
    ensures RequireAdmin(user).Some? ==> r == Failure(RequireAdmin(user).value)
    ensures RequireAdmin(user).None? && !(productId in old(db.products) && old(db.products)[productId].userId == user.id) ==>
      r == Failure(HttpError(NotFound, "Product not found"))
    ensures r.Success? <==> (RequireAdmin(user).None? && productId in old(db.products)
      && old(db.products)[productId].userId == user.id
      && forall k :: 0 <= k < |old(db.details)| ==> old(db.details)[k].productId != productId)
    ensures r.Success? ==> db.products == old(db.products) - {productId}
    ensures r.Failure? ==> db.products == old(db.products)
    ensures db.orders == old(db.orders) && db.details == old(db.details) && db.addresses == old(db.addresses)
    ensures db.nextOrderId == old(db.nextOrderId)
    ensures DetailsReferToProducts(old(db.details), old(db.products)) ==> DetailsReferToProducts(db.details, db.products)
  {
    var denied := RequireAdmin(user);
    if denied.Some? {
      return Failure(denied.value);
    }
    if !(productId in db.products && db.products[productId].userId == user.id) {
      return Failure(HttpError(NotFound, "Product not found"));
    }
    if exists k :: 0 <= k < |db.details| && db.details[k].productId == productId {
      return Failure(HttpError(BadRequest, "Cannot delete product with existing orders"));
    }
    db.products := db.products - {productId};
    r := Success("Product deleted successfully");
  }

  /** `delete_address`: the caller's own address (404), not named by any order (400). */
  method DeleteAddress(db: Tables, user: User, addressId: int) returns (r: Result<string, HttpError>)
    requires db.Valid()
    modifies db
    ensures db.Valid()
    ensures !(addressId in old(db.addresses) && old(db.addresses)[addressId].userId == user.id) ==>
      r == Failure(HttpError(NotFound, "Address not found"))
    ensures r.Success? <==> (addressId in old(db.addresses) && old(db.addresses)[addressId].userId == user.id
      && forall o :: o in old(db.orders) ==> old(db.orders)[o].addressId != Some(addressId))
    ensures r.Success? ==> db.addresses == old(db.addresses) - {addressId}
    ensures r.Failure? ==> db.addresses == old(db.addresses)
    ensures db.orders == old(db.orders) && db.details == old(db.details) && db.products == old(db.products)
    ensures db.nextOrderId == old(db.nextOrderId)
    ensures OrdersReferToAddresses(old(db.orders), old(db.addresses)) ==> OrdersReferToAddresses(db.orders, db.addresses)
  {
    if !(addressId in db.addresses && db.addresses[addressId].userId == user.id) {
      return Failure(HttpError(NotFound, "Address not found"));
    }
    if exists o :: o in db.orders && db.orders[o].addressId == Some(addressId) {
      return Failure(HttpError(BadRequest, "Cannot delete address used in orders"));
    }
    db.addresses := db.addresses - {addressId};
    r := Success("Address deleted successfully");
  }

  // ---------------------------------------------------------------- upload_image

  const MaxUploadBytes: int := 5 * 1024 * 1024
  const AllowedExtensions: seq<string> := ["jpg", "jpeg", "png", "gif"]

  /** The file extension: the text after the last dot, in lower case. */
  function Extension(filename: string): string {
    LowerAscii(LastSegment(filename, '.'))
  }

  /** The checks of an upload as they are meant to be answered: 400 for a
      non-image type, an oversized file or an unsupported extension. A missing
      content type or file name is a server error. */
  function UploadCheck(contentType: Option<string>, size: nat, filename: Option<string>): (r: Result<string, HttpError>)
    ensures r.Success? <==> (contentType.Some? && StartsWith(contentType.value, "image/")
      && size <= MaxUploadBytes && filename.Some? && Extension(filename.value) in AllowedExtensions)
    ensures r.Success? ==> r.value == Extension(filename.value)
    ensures r.Failure? && contentType.Some? && filename.Some? ==> r.error.status == BadRequest
  {
    if contentType.None? then Failure(HttpError(ServerError, "Error uploading image"))
    else if !StartsWith(contentType.value, "image/") then Failure(HttpError(BadRequest, "Only image files are allowed"))
    else if size > MaxUploadBytes then Failure(HttpError(BadRequest, "File size exceeds 5MB limit"))
    else if filename.None? then Failure(HttpError(ServerError, "Error uploading image"))
    else if Extension(filename.value) !in AllowedExtensions then Failure(HttpError(BadRequest, "Unsupported image format"))
    else Success(Extension(filename.value))
  }

  datatype ImageResponse = ImageResponse(message: string, imgUrl: string)

  /** `upload_image` as written: the admin guard answers 403, but each check
      raises inside the block whose catch-all turns it into a 500. `name` is
      the generated file name. */
  function UploadImage(user: User, contentType: Option<string>, size: nat, filename: Option<string>, name: string): (r: Result<ImageResponse, HttpError>)
    ensures RequireAdmin(user).Some? ==> r == Failure(RequireAdmin(user).value)
    ensures RequireAdmin(user).None? && UploadCheck(contentType, size, filename).Failure? ==>
      r == Failure(HttpError(ServerError, "Error uploading image"))
    ensures r.Success? <==> RequireAdmin(user).None? && UploadCheck(contentType, size, filename).Success?
    ensures r.Success? ==> filename.Some? && Extension(filename.value) in AllowedExtensions
    ensures r.Success? ==> r.value.imgUrl == "/uploads/" + name + "." + Extension(filename.value)
  {
    if RequireAdmin(user).Some? then Failure(RequireAdmin(user).value)
    else match UploadCheck(contentType, size, filename)
      case Failure(_) => Failure(HttpError(ServerError, "Error uploading image"))
      case Success(ext) => Success(ImageResponse("Image uploaded successfully", "/uploads/" + name + "." + ext))
  }

  /** An admin's PNG is accepted under its lower-cased extension. */
  lemma UploadAcceptsImage()
    ensures UploadImage(User(1, Some("admin")), Some("image/png"), 100, Some("Photo.PNG"), "n").Success?
  {
    assert LastSegment("Photo.PNG", '.') == "PNG";
    assert Extension("Photo.PNG") == "png";
  }

  /** A text file is answered with 500 instead of the intended 400. */
  lemma UploadMasksRefusal()
    ensures UploadImage(User(1, Some("admin")), Some("text/plain"), 100, Some("a.png"), "n")
            == Failure(HttpError(ServerError, "Error uploading image"))
    ensures UploadCheck(Some("text/plain"), 100, Some("a.png")) == Failure(HttpError(BadRequest, "Only image files are allowed"))
  {
    assert !StartsWith("text/plain", "image/") by {
      assert "text/plain"[..6][0] == 't';
    }
  }
}
