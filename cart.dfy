/**
 * The cart and order routes of api/cart.js over an in-memory copy of the three tables they
 * touch. An `Orders` row with `is_order = false` is its owner's cart; `POST /cart` creates it
 * on demand, lines are addressed by a 1-based position into the unordered `Order_items` result,
 * totals are priced from the product table when they are read, and checkout flips `is_order`.
 * The model assumes that an unordered SELECT sees rows in insertion order, that an UPDATE
 * leaves a row where it is, and that `ORDER BY created desc` is reverse insertion order.
 */
module Cart {
  import opened Wrappers
  import opened Js
  import opened Seqs
  import opened Http
  import opened Validation

  /** A row of `Orders`: `id`, `order_userId` and `is_order`. */
  datatype OrderRow = OrderRow(id: int, owner: int, isOrder: bool)

  /** A row of `Order_items`: `id`, `product_no`, `order_id` and `quantity`. */
  datatype ItemRow = ItemRow(id: int, productNo: int, orderId: int, quantity: int)

  /** The columns of a `Products` row that the routes read. */
  datatype Product = Product(name: string, price: int)

  /** `{ 'Product Name', Quantity, Price }`. */
  datatype LineEntry = LineEntry(name: string, quantity: int, price: int)

  /** The lines of a cart or order followed by its `{ 'Total Price' }`. */
  datatype Bill = Bill(lines: seq<LineEntry>, total: int)

  /** A JSON body sent back by a route. */
  datatype Body =
    | ErrorBody(error: string)
    | ErrorsBody(errors: seq<Message>)
    | BillBody(bill: Bill)
    | LineBody(line: LineEntry)
    | ItemBody(item: ItemRow)
    | OrderBody(order: OrderRow)
    | OrdersBody(orders: seq<OrderRow>)
    | TextBody(text: string)

  const CartNotFound := "Cart not found"
  const LineNotFound := "Cart line not found"
  const QuantityNotInteger := "Quantity must be an integer"
  const OrderNotFound := "Order not found"
  const OrdersNotFound := "Orders not found"
  const LineDeleted := "Cart line deleted"
  /** What reading `.price` or `.id` off a missing first row throws. */
  const NoRow := "TypeError: cannot read a property of undefined"

  // ---------------------------------------------------------------------------
  // The SELECTs, as order-preserving filters

  function IsOpenCartOf(user: int): OrderRow -> bool
  {
    (o: OrderRow) => o.owner == user && !o.isOrder
  }

  function IsOrderOf(user: int): OrderRow -> bool
  {
    (o: OrderRow) => o.owner == user
  }

  function IsFinalizedOf(user: int): OrderRow -> bool
  {
    (o: OrderRow) => o.owner == user && o.isOrder
  }

  predicate IsFinalized(o: OrderRow)
  {
    o.isOrder
  }

  function IsLineOf(orderId: int): ItemRow -> bool
  {
    (r: ItemRow) => r.orderId == orderId
  }

  /** `SELECT id FROM Orders WHERE order_userId = $1 AND is_order = false`. */
  function OpenCarts(orders: seq<OrderRow>, user: int): (r: seq<OrderRow>)
    ensures forall o :: o in r <==> o in orders && o.owner == user && !o.isOrder
  {
    Filter(orders, IsOpenCartOf(user))
  }

  /** `SELECT id from Orders WHERE order_userId = $1`: carts and finalized orders alike. */
  function OrdersOf(orders: seq<OrderRow>, user: int): (r: seq<OrderRow>)
    ensures forall o :: o in r <==> o in orders && o.owner == user
  {
    Filter(orders, IsOrderOf(user))
  }

  /** `SELECT * FROM Order_items WHERE order_id = $1`. */
  function LinesOf(items: seq<ItemRow>, orderId: int): (r: seq<ItemRow>)
    ensures forall l :: l in r <==> l in items && l.orderId == orderId
  {
    Filter(items, IsLineOf(orderId))
  }

  /** Order ids are unique and below the next serial value. */
  predicate OrderIdsFresh(orders: seq<OrderRow>, next: int)
  {
    (forall i :: 0 <= i < |orders| ==> orders[i].id < next)
    && (forall i, j :: 0 <= i < j < |orders| ==> orders[i].id != orders[j].id)
  }

  /** Line ids are unique and below the next serial value. */
  predicate ItemIdsFresh(items: seq<ItemRow>, next: int)
  {
    (forall i :: 0 <= i < |items| ==> items[i].id < next)
    && (forall i, j :: 0 <= i < j < |items| ==> items[i].id != items[j].id)
  }

  /** No user has two carts. */
  predicate OneCartPerUser(orders: seq<OrderRow>)
  {
    forall i, j :: 0 <= i < j < |orders| && !orders[i].isOrder && !orders[j].isOrder ==> orders[i].owner != orders[j].owner
  }

  /** `UPDATE Orders SET is_order = TRUE WHERE order_userId = $1`: every order of the user, in place. */
  function Checkout(orders: seq<OrderRow>, user: int): (r: seq<OrderRow>)
    ensures |r| == |orders|
    ensures forall i :: 0 <= i < |orders| ==> r[i].id == orders[i].id && r[i].owner == orders[i].owner
    ensures forall i :: 0 <= i < |orders| ==> r[i].isOrder == (orders[i].isOrder || orders[i].owner == user)
  {
    seq(|orders|, i requires 0 <= i < |orders| => if orders[i].owner == user then orders[i].(isOrder := true) else orders[i])
  }

  // ---------------------------------------------------------------------------
  // Pricing

  /** Every line's product is in the table, so `product.rows[0]` exists. */
  predicate Priced(rows: seq<ItemRow>, products: map<int, Product>)
  {
    forall i :: 0 <= i < |rows| ==> rows[i].productNo in products
  }

  function Entry(row: ItemRow, products: map<int, Product>): LineEntry
    requires row.productNo in products
  {
    LineEntry(products[row.productNo].name, row.quantity, products[row.productNo].price)
  }

  function Entries(rows: seq<ItemRow>, products: map<int, Product>): seq<LineEntry>
    requires Priced(rows, products)
  {
    seq(|rows|, i requires 0 <= i < |rows| => Entry(rows[i], products))
  }

  /** `Σ price × quantity` over the lines, with each product's current price. */
  function Total(rows: seq<ItemRow>, products: map<int, Product>): int
    requires Priced(rows, products)
  {
    if rows == [] then 0
    else Total(rows[..|rows| - 1], products) + products[rows[|rows| - 1].productNo].price * rows[|rows| - 1].quantity
  }

  /** The bill of some lines, or `None` when one of their products is missing (the loop throws). */
  function BillOf(rows: seq<ItemRow>, products: map<int, Product>): (r: Option<Bill>)
    ensures r.Some? <==> Priced(rows, products)
    ensures r.Some? ==> |r.value.lines| == |rows|
    ensures r.Some? ==> forall i :: 0 <= i < |rows| ==>
              r.value.lines[i] == LineEntry(products[rows[i].productNo].name, rows[i].quantity, products[rows[i].productNo].price)
    ensures r.Some? ==> r.value.total == Total(rows, products)
  {
    if Priced(rows, products) then Some(Bill(Entries(rows, products), Total(rows, products))) else None
  }

  /** The total of two runs of lines is the sum of their totals. */
  lemma {:induction false} TotalAppend(a: seq<ItemRow>, b: seq<ItemRow>, products: map<int, Product>)
    requires Priced(a, products) && Priced(b, products)
    ensures Priced(a + b, products)
    ensures Total(a + b, products) == Total(a, products) + Total(b, products)
    decreases |b|
  {
    if b != [] {
      var n := |b| - 1;
      assert (a + b)[..|a + b| - 1] == a + b[..n];
      assert Priced(b[..n], products);
      TotalAppend(a, b[..n], products);
    } else {
      assert a + b == a;
    }
  }

  /** How many units of a product the lines hold. */
  function UnitsOf(rows: seq<ItemRow>, productNo: int): int
  {
    if rows == [] then 0
    else UnitsOf(rows[..|rows| - 1], productNo)
         + (if rows[|rows| - 1].productNo == productNo then rows[|rows| - 1].quantity else 0)
  }

  /**
   * Totals are priced at read time: changing one product's price moves the total of any
   * cart or order by the price difference times the units of that product it holds.
   */
  lemma {:induction false} TotalReprice(rows: seq<ItemRow>, products: map<int, Product>, productNo: int, price: int)
    requires Priced(rows, products) && productNo in products
    ensures Priced(rows, products[productNo := products[productNo].(price := price)])
    ensures Total(rows, products[productNo := products[productNo].(price := price)])
            == Total(rows, products) + (price - products[productNo].price) * UnitsOf(rows, productNo)
  {
    var repriced := products[productNo := products[productNo].(price := price)];
    assert Priced(rows, repriced);
    if rows != [] {
      var n := |rows| - 1;
      assert Priced(rows[..n], products);
      TotalReprice(rows[..n], products, productNo, price);
      if rows[n].productNo == productNo {
        calc {
          repriced[productNo].price * rows[n].quantity;
          price * rows[n].quantity;
          products[productNo].price * rows[n].quantity + (price - products[productNo].price) * rows[n].quantity;
        }
      }
    }
  }

  // ---------------------------------------------------------------------------
  // Line positions

  /** `req.params.id - 1`, when `Number.isInteger` holds of it. */
  function LineIndex(position: string): (r: Option<int>)
    ensures r.Some? <==> IsInteger(MinusOne(StringToNumber(position)))
    ensures r.Some? ==> IsInteger(StringToNumber(position)) && r.value == IntegerValue(StringToNumber(position)) - 1
  {
    var lineNr := MinusOne(StringToNumber(position));
    if IsInteger(lineNr) then Some(IntegerValue(lineNr)) else None
  }

  /** `Number(req.params.id)` of an order, when `Number.isInteger` holds of it. */
  function OrderNumber(orderId: string): (r: Option<int>)
    ensures r.Some? <==> IntegerLike(Str(orderId))
    ensures r.Some? ==> r.value == IntegerValue(StringToNumber(orderId))
  {
    var n := StringToNumber(orderId);
    if IsInteger(n) then Some(IntegerValue(n)) else None
  }

  /** Positions are 1-based: the text of `n` addresses line `n - 1`. */
  lemma LineIndexOfInt(n: int)
    ensures LineIndex(IntToString(n)) == Some(n - 1)
  {
    StringToNumberOfInt(n);
    LineIndexOfNumber(IntToString(n), n);
  }

  lemma LineIndexOfNumber(position: string, n: int)
    requires StringToNumber(position) == Finite(n as real)
    ensures LineIndex(position) == Some(n - 1)
  {
    assert (n as real).Floor == n;
  }

  /** `rows[lineNr] === undefined` is false exactly for an index inside the array. */
  predicate InRange<T>(k: int, rows: seq<T>)
  {
    0 <= k < |rows|
  }

  // ---------------------------------------------------------------------------
  // Order visibility

  /** `order_id IN (SELECT id FROM Orders WHERE order_userId = $2)`. */
  predicate Owns(orders: seq<OrderRow>, user: int, orderId: int)
  {
    exists i :: 0 <= i < |orders| && orders[i].id == orderId && orders[i].owner == user
  }

  /** The lines `orderRoute` selects: all of the order's lines for an admin, else only when the caller owns it. */
  function VisibleLines(items: seq<ItemRow>, orders: seq<OrderRow>, orderId: int, user: int, admin: bool): (r: seq<ItemRow>)
    ensures forall l :: l in r <==> (admin || Owns(orders, user, orderId)) && l in items && l.orderId == orderId
  {
    if admin || Owns(orders, user, orderId) then LinesOf(items, orderId) else []
  }

  /** `ordersRoute`: finalized orders (all of them for an admin), newest first. */
  function VisibleOrders(orders: seq<OrderRow>, user: int, admin: bool): (r: seq<OrderRow>)
    ensures forall o :: o in r <==> o in orders && o.isOrder && (admin || o.owner == user)
  {
    Reverse(if admin then Filter(orders, IsFinalized) else Filter(orders, IsFinalizedOf(user)))
  }

  // ---------------------------------------------------------------------------
  // The store

  class Store {
    var orders: seq<OrderRow>
    var items: seq<ItemRow>
    var products: map<int, Product>
    /** The next values of the two `serial` id columns. */
    var nextOrderId: int
    var nextItemId: int

    /** Ids are unique and below the next serial value, and no user has two carts. */
    ghost predicate Valid()
      reads this
    {
      OrderIdsFresh(orders, nextOrderId) && ItemIdsFresh(items, nextItemId) && OneCartPerUser(orders)
    }

    constructor(catalog: map<int, Product>)
      ensures Valid()
      ensures orders == [] && items == [] && products == catalog
    {
      orders := [];
      items := [];
      products := catalog;
      nextOrderId := 1;
      nextItemId := 1;
    }

    /** The pricing loop of `cartRoute` and `orderRoute`: one entry per line in row order, and the running total. */
    method PriceLines(rows: seq<ItemRow>) returns (r: Option<Bill>)
      ensures r == BillOf(rows, products)
    {
      var message := [];
      var totalPrice := 0;
      var i := 0;
      while i < |rows|
        invariant 0 <= i <= |rows|
        invariant Priced(rows[..i], products)
        invariant message == Entries(rows[..i], products)
        invariant totalPrice == Total(rows[..i], products)
      {
        if rows[i].productNo !in products {
          return None;
        }
        var product := products[rows[i].productNo];
        assert rows[..i + 1][..i] == rows[..i];
        totalPrice := totalPrice + product.price * rows[i].quantity;
        message := message + [LineEntry(product.name, rows[i].quantity, product.price)];
        i := i + 1;
      }
      assert rows[..i] == rows;
      return Some(Bill(message, totalPrice));
    }

    /** `GET /cart`: the bill of the user's cart. */
    method CartRoute(user: int) returns (r: Reply<Body>)
      ensures OpenCarts(orders, user) == [] ==> r == Reply(404, ErrorBody(CartNotFound))
      ensures OpenCarts(orders, user) != [] ==>
                match BillOf(LinesOf(items, OpenCarts(orders, user)[0].id), products)
                case None => r.Thrown?
                case Some(bill) => r == Reply(200, BillBody(bill))
    {
      var userOrderId := OpenCarts(orders, user);
      if |userOrderId| == 0 {
        return Reply(404, ErrorBody(CartNotFound));
      }
      var result := LinesOf(items, userOrderId[0].id);
      var bill := PriceLines(result);
      if bill.None? {
        return Thrown(NoRow);
      }
      return Reply(200, BillBody(bill.value));
    }

    /** The cart look-up of `POST /cart`, inserting a cart row for a user who has none. */
    method OpenCart(user: int) returns (orderId: int)
      requires Valid()
      modifies this`orders, this`nextOrderId
      ensures Valid()
      ensures orders == (if OpenCarts(old(orders), user) == [] then old(orders) + [OrderRow(old(nextOrderId), user, false)]
                         else old(orders))
      ensures nextOrderId == (if OpenCarts(old(orders), user) == [] then old(nextOrderId) + 1 else old(nextOrderId))
      ensures |OpenCarts(orders, user)| == 1 && orderId == OpenCarts(orders, user)[0].id
    {
      var carts := OpenCarts(orders, user);
      if |carts| == 0 {
        var cart := OrderRow(nextOrderId, user, false);
        var table := orders + [cart];
        var serial := nextOrderId + 1;
        CartAdded(orders, user, nextOrderId);
        ghost var lines := items;
        assert ItemIdsFresh(lines, nextItemId);
        orders, nextOrderId := table, serial;
        assert items == lines;
        assert OrderIdsFresh(orders, nextOrderId) && OneCartPerUser(orders);
        orderId := cart.id;
      } else {
        AtMostOneOpen(orders, user);
        orderId := carts[0].id;
      }
    }

    /** `INSERT INTO Order_items`: the new line, with the next serial id, goes last. */
    method InsertLine(productId: int, orderId: int, quantity: int) returns (row: ItemRow)
      requires Valid()
      modifies this`items, this`nextItemId
      ensures Valid()
      ensures row == ItemRow(old(nextItemId), productId, orderId, quantity)
      ensures items == old(items) + [row] && nextItemId == old(nextItemId) + 1
      ensures LinesOf(items, orderId) == LinesOf(old(items), orderId) + [row]
    {
      row := ItemRow(nextItemId, productId, orderId, quantity);
      LineAdded(items, row, nextItemId);
      items := items + [row];
      nextItemId := nextItemId + 1;
    }

    /**
     * `POST /cart`: rejected with its validation messages, or the user's cart (created first
     * when there is none) gains one line.
     */
    method CartPostRoute(user: int, productId: int, quantity: int, validation: seq<Message>) returns (r: Reply<Body>)
      requires Valid()
      modifies this`orders, this`items, this`nextOrderId, this`nextItemId
      ensures Valid()
      ensures validation != [] ==> r == Reply(400, ErrorsBody(validation)) && unchanged(this)
      ensures validation == [] ==>
                orders == (if OpenCarts(old(orders), user) == [] then old(orders) + [OrderRow(old(nextOrderId), user, false)]
                           else old(orders))
                && nextOrderId == (if OpenCarts(old(orders), user) == [] then old(nextOrderId) + 1 else old(nextOrderId))
                && nextItemId == old(nextItemId) + 1
                && |OpenCarts(orders, user)| == 1
                && items == old(items) + [ItemRow(old(nextItemId), productId, OpenCarts(orders, user)[0].id, quantity)]
                && LinesOf(items, OpenCarts(orders, user)[0].id)
                   == LinesOf(old(items), OpenCarts(orders, user)[0].id) + [items[|items| - 1]]
                && r == Reply(200, ItemBody(items[|items| - 1]))
    {
      if |validation| > 0 {
        return Reply(400, ErrorsBody(validation));
      }
      var orderId := OpenCart(user);
      var row := InsertLine(productId, orderId, quantity);
      r := Reply(200, ItemBody(row));
    }

    /** `GET /cart/line/:id`: one line of the user's first order, whether or not it is finalized. */
    method CartLineRoute(user: int, position: string) returns (r: Reply<Body>)
      ensures LineIndex(position).None? || OrdersOf(orders, user) == [] ==> r == Reply(404, ErrorBody(LineNotFound))
      ensures LineIndex(position).Some? && OrdersOf(orders, user) != [] ==>
                var lines := LinesOf(items, OrdersOf(orders, user)[0].id);
                var k := LineIndex(position).value;
                if !InRange(k, lines) then r == Reply(404, ErrorBody(LineNotFound))
                else if lines[k].productNo !in products then r.Thrown?
                else r == Reply(200, LineBody(Entry(lines[k], products)))
    {
      var lineNr := LineIndex(position);
      if lineNr.None? {
        return Reply(404, ErrorBody(LineNotFound));
      }
      var userOrderId := OrdersOf(orders, user);
      if |userOrderId| == 0 {
        return Reply(404, ErrorBody(LineNotFound));
      }
      var result := LinesOf(items, userOrderId[0].id);
      var k := lineNr.value;
      if !(0 <= k < |result|) {
        return Reply(404, ErrorBody(LineNotFound));
      }
      if result[k].productNo !in products {
        return Thrown(NoRow);
      }
      var product := products[result[k].productNo];
      r := Reply(200, LineBody(LineEntry(product.name, result[k].quantity, product.price)));
    }

    /**
     * `PATCH /cart/line/:id`: after the quantity and position checks against the user's first
     * order, the row at that offset of the whole `Order_items` table gets the new quantity.
     */
    method CartLinePatchRoute(user: int, position: string, quantity: Value) returns (r: Reply<Body>)
      requires Valid()
      modifies this
      ensures Valid()
      ensures orders == old(orders) && products == old(products)
      ensures nextOrderId == old(nextOrderId) && nextItemId == old(nextItemId)
      ensures !IntegerLike(quantity) ==> r == Reply(404, ErrorBody(QuantityNotInteger)) && items == old(items)
      ensures IntegerLike(quantity) && LineIndex(position).None? ==>
                r == Reply(404, ErrorBody(LineNotFound)) && items == old(items)
      ensures IntegerLike(quantity) && LineIndex(position).Some? && OrdersOf(orders, user) == [] ==>
                r.Thrown? && items == old(items)
      ensures IntegerLike(quantity) && LineIndex(position).Some? && OrdersOf(orders, user) != [] ==>
                var k := LineIndex(position).value;
                if !InRange(k, LinesOf(old(items), OrdersOf(orders, user)[0].id)) then
                  r == Reply(404, ErrorBody(LineNotFound)) && items == old(items)
                else
                  k < |old(items)|
                  && items == old(items)[k := old(items)[k].(quantity := IntegerValue(ToNumber(quantity)))]
                  && r == Reply(200, ItemBody(items[k]))
    {
      if !IntegerLike(quantity) {
        return Reply(404, ErrorBody(QuantityNotInteger));
      }
      var lineNr := LineIndex(position);
      if lineNr.None? {
        return Reply(404, ErrorBody(LineNotFound));
      }
      var userOrderId := OrdersOf(orders, user);
      if |userOrderId| == 0 {
        return Thrown(NoRow);
      }
      var check := LinesOf(items, userOrderId[0].id);
      var k := lineNr.value;
      if !(0 <= k < |check|) {
        return Reply(404, ErrorBody(LineNotFound));
      }
      var row := items[k].(quantity := IntegerValue(ToNumber(quantity)));
      items := items[k := row];
      r := Reply(200, ItemBody(row));
    }

    /**
     * `DELETE /cart/line/:id`: after the position check against the user's first order, the
     * row at that offset of the whole `Order_items` table is removed.
     */
    method CartLineDeleteRoute(user: int, position: string) returns (r: Reply<Body>)
      requires Valid()
      modifies this
      ensures Valid()
      ensures orders == old(orders) && products == old(products)
      ensures nextOrderId == old(nextOrderId) && nextItemId == old(nextItemId)
      ensures LineIndex(position).None? ==> r == Reply(404, ErrorBody(LineNotFound)) && items == old(items)
      ensures LineIndex(position).Some? && OrdersOf(orders, user) == [] ==> r.Thrown? && items == old(items)
      ensures LineIndex(position).Some? && OrdersOf(orders, user) != [] ==>
                var k := LineIndex(position).value;
                if !InRange(k, LinesOf(old(items), OrdersOf(orders, user)[0].id)) then
                  r == Reply(404, ErrorBody(LineNotFound)) && items == old(items)
                else
                  k < |old(items)| && items == old(items)[..k] + old(items)[k + 1..]
                  && r == Reply(200, TextBody(LineDeleted))
    {
      var lineNr := LineIndex(position);
      if lineNr.None? {
        return Reply(404, ErrorBody(LineNotFound));
      }
      var userOrderId := OrdersOf(orders, user);
      if |userOrderId| == 0 {
        return Thrown(NoRow);
      }
      var check := LinesOf(items, userOrderId[0].id);
      var k := lineNr.value;
      if !(0 <= k < |check|) {
        return Reply(404, ErrorBody(LineNotFound));
      }
      RemoveKeepsIds(items, k, nextItemId);
      items := items[..k] + items[k + 1..];
      r := Reply(200, TextBody(LineDeleted));
    }

    /** `POST /orders`: with a cart, every order of the user is finalized and the first one returned. */
    method OrderPostRoute(user: int) returns (r: Reply<Body>)
      requires Valid()
      modifies this
      ensures Valid()
      ensures items == old(items) && products == old(products)
      ensures nextOrderId == old(nextOrderId) && nextItemId == old(nextItemId)
      ensures OpenCarts(old(orders), user) == [] ==> r == Reply(404, ErrorBody(CartNotFound)) && orders == old(orders)
      ensures OpenCarts(old(orders), user) != [] ==>
                orders == Checkout(old(orders), user)
                && OrdersOf(orders, user) != []
                && r == Reply(200, OrderBody(OrdersOf(orders, user)[0]))
    {
      if |OpenCarts(orders, user)| == 0 {
        return Reply(404, ErrorBody(CartNotFound));
      }
      OpenCartIsOrder(orders, user);
      CheckoutKeepsOrdersOf(orders, user);
      CheckoutKeepsOneCart(orders, user);
      orders := Checkout(orders, user);
      r := Reply(200, OrderBody(OrdersOf(orders, user)[0]));
    }

    /** `GET /orders`: the visible finalized orders, or 404 when there are none. */
    method OrdersRoute(user: int, admin: bool) returns (r: Reply<Body>)
      ensures VisibleOrders(orders, user, admin) == [] ==> r == Reply(404, ErrorBody(OrdersNotFound))
      ensures VisibleOrders(orders, user, admin) != [] ==> r == Reply(200, OrdersBody(VisibleOrders(orders, user, admin)))
    {
      var rows := if admin then Filter(orders, IsFinalized) else Filter(orders, IsFinalizedOf(user));
      rows := Reverse(rows);
      if |rows| == 0 {
        return Reply(404, ErrorBody(OrdersNotFound));
      }
      return Reply(200, OrdersBody(rows));
    }

    /** `GET /orders/:id`: the bill of a visible order; a missing and a foreign order look alike. */
    method OrderRoute(user: int, admin: bool, orderId: string) returns (r: Reply<Body>)
      ensures OrderNumber(orderId).None? ==> r == Reply(404, ErrorBody(OrderNotFound))
      ensures OrderNumber(orderId).Some? ==>
                var lines := VisibleLines(items, orders, OrderNumber(orderId).value, user, admin);
                if lines == [] then r == Reply(404, ErrorBody(OrderNotFound))
                else match BillOf(lines, products)
                     case None => r.Thrown?
                     case Some(bill) => r == Reply(200, BillBody(bill))
    {
      var id := OrderNumber(orderId);
      if id.None? {
        return Reply(404, ErrorBody(OrderNotFound));
      }
      var order := VisibleLines(items, orders, id.value, user, admin);
      if |order| == 0 {
        return Reply(404, ErrorBody(OrderNotFound));
      }
      var bill := PriceLines(order);
      if bill.None? {
        return Thrown(NoRow);
      }
      return Reply(200, BillBody(bill.value));
    }
  }

  // ---------------------------------------------------------------------------
  // Lemmas about the tables

  /** A user with no cart in the table has no open order row at all. */
  lemma NoCartNoOpenRow(orders: seq<OrderRow>, user: int)
    requires OpenCarts(orders, user) == []
    ensures forall i :: 0 <= i < |orders| ==> !(orders[i].owner == user && !orders[i].isOrder)
  {
    forall i | 0 <= i < |orders|
      ensures !IsOpenCartOf(user)(orders[i])
    {
      assert orders[i] in orders;
    }
  }

  /** One cart per user holds of every prefix of the table. */
  lemma OneCartPrefix(orders: seq<OrderRow>, n: int)
    requires OneCartPerUser(orders) && 0 <= n <= |orders|
    ensures OneCartPerUser(orders[..n])
  {
    var init := orders[..n];
    forall i, j | 0 <= i < j < |init| && !init[i].isOrder && !init[j].isOrder
      ensures init[i].owner != init[j].owner
    {
      assert init[i] == orders[i] && init[j] == orders[j];
    }
  }

  /** The carts of a table with one more row: the row joins them when it is an open cart of the user. */
  lemma OpenCartsSnoc(init: seq<OrderRow>, last: OrderRow, user: int)
    ensures OpenCarts(init + [last], user) == OpenCarts(init, user) + (if IsOpenCartOf(user)(last) then [last] else [])
  {
    FilterAppend(init, [last], IsOpenCartOf(user));
    FilterSingleton(last, IsOpenCartOf(user));
  }

  /** With one cart per user, no cart of the owner of a cart comes before it. */
  lemma NoOpenBefore(orders: seq<OrderRow>, user: int)
    requires OneCartPerUser(orders) && orders != [] && IsOpenCartOf(user)(orders[|orders| - 1])
    ensures OpenCarts(orders[..|orders| - 1], user) == []
  {
    var init := orders[..|orders| - 1];
    forall i | 0 <= i < |init|
      ensures !IsOpenCartOf(user)(init[i])
    {
      assert init[i] == orders[i];
    }
    FilterNone(init, IsOpenCartOf(user));
  }

  /** With one cart per user, the cart query finds at most one row. */
  lemma {:induction false} AtMostOneOpen(orders: seq<OrderRow>, user: int)
    requires OneCartPerUser(orders)
    ensures |OpenCarts(orders, user)| <= 1
  {
    if orders != [] {
      var n := |orders| - 1;
      var init, last := orders[..n], orders[n];
      assert orders == init + [last];
      OneCartPrefix(orders, n);
      AtMostOneOpen(init, user);
      OpenCartsSnoc(init, last, user);
      if IsOpenCartOf(user)(last) {
        NoOpenBefore(orders, user);
      }
    }
  }

  /** A user with a cart has at least one order row. */
  lemma OpenCartIsOrder(orders: seq<OrderRow>, user: int)
    requires OpenCarts(orders, user) != []
    ensures OrdersOf(orders, user) != []
  {
    var cart := OpenCarts(orders, user)[0];
    assert cart in OpenCarts(orders, user);
    assert cart in OrdersOf(orders, user);
  }

  /** Checkout keeps the number of the user's orders: it finalizes rows, it does not add or drop any. */
  lemma {:induction false} CheckoutKeepsOrdersOf(orders: seq<OrderRow>, user: int)
    ensures |OrdersOf(Checkout(orders, user), user)| == |OrdersOf(orders, user)|
  {
    if orders != [] {
      var n := |orders| - 1;
      assert Checkout(orders, user)[..n] == Checkout(orders[..n], user);
      CheckoutKeepsOrdersOf(orders[..n], user);
    }
  }

  /** Checkout leaves the user without a cart. */
  lemma {:induction false} CheckoutClosesCart(orders: seq<OrderRow>, user: int)
    ensures OpenCarts(Checkout(orders, user), user) == []
  {
    if orders != [] {
      var n := |orders| - 1;
      assert Checkout(orders, user)[..n] == Checkout(orders[..n], user);
      CheckoutClosesCart(orders[..n], user);
    }
  }

  /** Checkout leaves every other user's cart alone. */
  lemma {:induction false} CheckoutLeavesOthers(orders: seq<OrderRow>, user: int, other: int)
    requires other != user
    ensures OpenCarts(Checkout(orders, user), other) == OpenCarts(orders, other)
  {
    if orders != [] {
      var n := |orders| - 1;
      assert Checkout(orders, user)[..n] == Checkout(orders[..n], user);
      CheckoutLeavesOthers(orders[..n], user, other);
    }
  }

  lemma CheckoutKeepsOneCart(orders: seq<OrderRow>, user: int)
    requires OneCartPerUser(orders)
    ensures OneCartPerUser(Checkout(orders, user))
  {
  }

  /** Appending a row with the next serial id keeps order ids fresh. */
  lemma OrderIdsAppend(orders: seq<OrderRow>, o: OrderRow, next: int)
    requires OrderIdsFresh(orders, next) && o.id == next
    ensures OrderIdsFresh(orders + [o], next + 1)
  {
    var s := orders + [o];
    forall i, j | 0 <= i < j < |s|
      ensures s[i].id != s[j].id
    {
      assert s[i] == orders[i];
    }
  }

  /** Appending a row with the next serial id keeps line ids fresh. */
  lemma ItemIdsAppend(items: seq<ItemRow>, row: ItemRow, next: int)
    requires ItemIdsFresh(items, next) && row.id == next
    ensures ItemIdsFresh(items + [row], next + 1)
  {
    var s := items + [row];
    forall i, j | 0 <= i < j < |s|
      ensures s[i].id != s[j].id
    {
      assert s[i] == items[i];
    }
  }

  /** A new cart for a user without one keeps one cart per user. */
  lemma OneCartAppend(orders: seq<OrderRow>, user: int, next: int)
    requires OneCartPerUser(orders) && OpenCarts(orders, user) == []
    ensures OneCartPerUser(orders + [OrderRow(next, user, false)])
  {
    var s := orders + [OrderRow(next, user, false)];
    NoCartNoOpenRow(orders, user);
    forall i, j | 0 <= i < j < |s| && !s[i].isOrder && !s[j].isOrder
      ensures s[i].owner != s[j].owner
    {
      assert s[i] == orders[i];
    }
  }

  /** A new cart for a user without one is then the user's only cart, and ids stay fresh. */
  lemma CartAdded(orders: seq<OrderRow>, user: int, next: int)
    requires OrderIdsFresh(orders, next) && OneCartPerUser(orders) && OpenCarts(orders, user) == []
    ensures OrderIdsFresh(orders + [OrderRow(next, user, false)], next + 1)
    ensures OneCartPerUser(orders + [OrderRow(next, user, false)])
    ensures OpenCarts(orders + [OrderRow(next, user, false)], user) == [OrderRow(next, user, false)]
  {
    var cart := OrderRow(next, user, false);
    OrderIdsAppend(orders, cart, next);
    OneCartAppend(orders, user, next);
    FilterAppend(orders, [cart], IsOpenCartOf(user));
    FilterSingleton(cart, IsOpenCartOf(user));
  }

  /** An appended line joins the lines of its order, at the end, and ids stay fresh. */
  lemma LineAdded(items: seq<ItemRow>, row: ItemRow, next: int)
    requires ItemIdsFresh(items, next) && row.id == next
    ensures ItemIdsFresh(items + [row], next + 1)
    ensures LinesOf(items + [row], row.orderId) == LinesOf(items, row.orderId) + [row]
  {
    ItemIdsAppend(items, row, next);
    FilterAppend(items, [row], IsLineOf(row.orderId));
    FilterSingleton(row, IsLineOf(row.orderId));
  }

  /** Removing a row keeps the remaining ids unique and below the next serial value. */
  lemma RemoveKeepsIds(items: seq<ItemRow>, k: int, next: int)
    requires 0 <= k < |items| && ItemIdsFresh(items, next)
    ensures ItemIdsFresh(items[..k] + items[k + 1..], next)
  {
    var rest := items[..k] + items[k + 1..];
    assert forall i :: 0 <= i < |rest| ==> rest[i] == items[if i < k then i else i + 1];
  }

  lemma FirstPosition()
    ensures LineIndex("1") == Some(0)
  {
    LineIndexOfInt(1);
    assert IntToString(1) == "1";
  }

  /**
   * A line position is checked against the user's own order but applied to the whole table:
   * with another order's line stored first, the position of the second order's first line
   * (the text "1", by `FirstPosition`) is in range of that order's lines, while the same offset
   * of the table is the other order's line.
   */
  lemma GlobalOffsetHitsOtherOrder(position: string, other: ItemRow, line: ItemRow)
    requires LineIndex(position) == Some(0) && other.orderId != line.orderId
    ensures var k := LineIndex(position).value;
            InRange(k, LinesOf([other, line], line.orderId)) && LinesOf([other, line], line.orderId)[k] == line
            && [other, line][k] == other
  {
    LinesOfPair(other, line);
  }

  /** Of two rows of different orders, the second order's lines are the second row alone. */
  lemma LinesOfPair(other: ItemRow, line: ItemRow)
    requires other.orderId != line.orderId
    ensures LinesOf([other, line], line.orderId) == [line]
  {
    assert [other, line] == [other] + [line];
    FilterAppend([other], [line], IsLineOf(line.orderId));
    FilterSingleton(other, IsLineOf(line.orderId));
    FilterSingleton(line, IsLineOf(line.orderId));
  }

}
