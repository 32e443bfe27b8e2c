/** The shop tables the payment flow reads and writes: orders, products,
    addresses and order lines, and the caller's identity. */
module Shop {
  import opened Wrappers
  import opened PydanticModel

  /** The authenticated caller: an id and the optional `role` claim. */
  datatype User = User(id: int, role: Option<string>)

  /** A product; `price` in cents, `stock` in units. */
  datatype Product = Product(id: int, userId: int, name: string, price: int, stock: int)

  datatype Address = Address(id: int, userId: int)

  /** An order; money in cents, timestamps as integers. */
  datatype Order = Order(
    orderId: int,
    userId: int,
    total: int,
    deliveryFee: int,
    addressId: Option<int>,
    status: OrderStatus,
    completedAt: Option<int>,
    paymentReference: Option<string>,
    paymentStatus: Option<string>)

  datatype OrderDetail = OrderDetail(orderId: int, productId: int, quantity: int, totalPrice: int)

  /** Every order line names a product that exists. */
  predicate DetailsReferToProducts(details: seq<OrderDetail>, products: map<int, Product>) {
    forall k :: 0 <= k < |details| ==> details[k].productId in products
  }

  /** Every address an order names exists. */
  predicate OrdersReferToAddresses(orders: map<int, Order>, addresses: map<int, Address>) {
    forall o :: o in orders && orders[o].addressId.Some? ==> orders[o].addressId.value in addresses
  }

  class Tables {
    var orders: map<int, Order>
    var products: map<int, Product>
    var addresses: map<int, Address>
    var details: seq<OrderDetail>
    var nextOrderId: int

    /** Each row is stored under its own id, and new order ids are above all existing ones. */
    ghost predicate Valid()
      reads this
    {
      && nextOrderId >= 1
      && (forall o :: o in orders ==> orders[o].orderId == o && o < nextOrderId)
      && (forall p :: p in products ==> products[p].id == p)
      && (forall a :: a in addresses ==> addresses[a].id == a)
    }

    constructor(products: map<int, Product>, addresses: map<int, Address>)
      requires forall p :: p in products ==> products[p].id == p
      requires forall a :: a in addresses ==> addresses[a].id == a
      ensures Valid()
      ensures this.orders == map[] && this.products == products && this.addresses == addresses
      ensures this.details == [] && nextOrderId == 1
    {
      this.orders := map[];
      this.products := products;
      this.addresses := addresses;
      this.details := [];
      this.nextOrderId := 1;
    }
  }
}
