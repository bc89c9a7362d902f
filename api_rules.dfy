/** The route handlers of backend/routes/api.js as transitions on values:
    what each handler does to one cart document, and what checkout makes of
    its request. The store that holds the documents is in ApiStore. */
module ApiRules {
  import opened Common
  import opened Text
  import opened CartModel
  import OrderModel

  /** The failures a handler answers with: a 404 with its message, the 400
      for a checkout with missing fields, and a rejected `save`. */
  datatype ApiError = NotFound(message: string) | MissingFields | ValidationFailed

  datatype Result<+T> = Ok(value: T) | Err(error: ApiError)

  const ProductNotFound := "Product not found"
  const CartNotFound := "Cart not found"
  const ItemNotFound := "Item not found in cart"

  /** A cart as the store keeps it under `key`. */
  predicate StoredCart(key: string, c: Cart) {
    c.cartId == key && Saveable(c) && Consistent(c) && PricesNonNegative(c.items)
  }

  /** A stored cart's total is never negative: its lines have prices of at
      least 0 and quantities of at least 1. */
  lemma StoredCartTotalNonNegative(key: string, c: Cart)
    requires StoredCart(key, c)
    ensures c.total >= 0
  {
    TotalNonNegative(c.items);
  }

  /** The cart a handler works on: the stored one, or a fresh empty one. */
  function CartOrNew(carts: map<string, Cart>, key: string): Cart {
    if key in carts then carts[key] else NewCart(key)
  }

  /** `cart.save()`: the schema validators decide whether the write happens. */
  function SaveCart(c: Cart): Result<Cart> {
    if Saveable(c) then Ok(c) else Err(ValidationFailed)
  }

  /** Assigning new items and recomputing the total from them. */
  function WithItems(c: Cart, items: seq<LineItem>): Cart {
    c.(items := items, total := Total(items))
  }

  /** The line `p` contributes when it is not yet in the cart. */
  function SnapshotLine(p: Product, qty: int): LineItem {
    LineItem(p.id, p.name, p.price, qty, p.image)
  }

  /** The items after adding `qty` of `p`: the product's line with its
      quantity raised, or a snapshot line appended. */
  function AddedItems(items: seq<LineItem>, p: Product, qty: int): seq<LineItem> {
    match FindLine(items, p.id)
    case Some(i) => items[i := items[i].(quantity := items[i].quantity + qty)]
    case None => items + [SnapshotLine(p, qty)]
  }

  /** POST /cart/:id once the product is found: raise the quantity of the
      product's line, or append a snapshot line, recompute, save. A saved
      cart keeps its key, has a matching total, still has one line per
      product, and now has a line for the product. */
  function AddToCart(c: Cart, p: Product, qty: int): (r: Result<Cart>)
    ensures r.Ok? ==> r.value.cartId == c.cartId && Saveable(r.value) && r.value.total == Total(r.value.items)
    ensures r.Ok? && UniqueProducts(c.items) ==> UniqueProducts(r.value.items)
    ensures r.Ok? ==> FindLine(r.value.items, p.id).Some?
    ensures r.Ok? && PricesNonNegative(c.items) && p.price >= 0 ==> PricesNonNegative(r.value.items)
    ensures r.Err? ==> r.error == ValidationFailed
  {
    var items := AddedItems(c.items, p, qty);
    var k := if FindLine(c.items, p.id).Some? then FindLine(c.items, p.id).value else |c.items|;
    assert k < |items| && items[k].productId == p.id;
    SaveCart(WithItems(c, items))
  }

  /** An add is rejected exactly when the quantity it would store is below 1. */
  lemma AddRejectedIffBelowOne(c: Cart, p: Product, qty: int)
    requires Saveable(c) && p.id != ""
    ensures AddToCart(c, p, qty).Err? <==>
      match FindLine(c.items, p.id)
      case Some(i) => c.items[i].quantity + qty < 1
      case None => qty < 1
  {
    var items := AddedItems(c.items, p, qty);
    match FindLine(c.items, p.id)
    case Some(i) =>
      assert items[i].quantity == c.items[i].quantity + qty;
      assert forall j :: 0 <= j < |items| && j != i ==> items[j] == c.items[j];
    case None =>
      assert items[|c.items|] == SnapshotLine(p, qty);
      assert forall j :: 0 <= j < |c.items| ==> items[j] == c.items[j];
  }

  /** Adding a product that has a line raises that line's quantity by `qty`,
      adds no line, leaves every other line alone, and moves the total by
      the line's price times `qty`. */
  lemma {:induction false} AddExistingLine(c: Cart, p: Product, qty: int, i: nat)
    requires Saveable(c) && Consistent(c)
    requires FindLine(c.items, p.id) == Some(i)
    requires c.items[i].quantity + qty >= 1
    ensures AddToCart(c, p, qty).Ok?
    ensures var n := AddToCart(c, p, qty).value;
      && |n.items| == |c.items|
      && n.items[i] == c.items[i].(quantity := c.items[i].quantity + qty)
      && (forall j :: 0 <= j < |c.items| && j != i ==> n.items[j] == c.items[j])
      && n.total == c.total + c.items[i].price * qty
  {
    var l := c.items[i].(quantity := c.items[i].quantity + qty);
    TotalUpdate(c.items, i, l);
    assert Subtotal(l) - Subtotal(c.items[i]) == c.items[i].price * qty by {
      assert Subtotal(l) == c.items[i].price * (c.items[i].quantity + qty);
    }
  }

  /** Adding a product with no line appends exactly one line at the end,
      copying the product's name, price and image with quantity `qty`. */
  lemma {:induction false} AddNewLine(c: Cart, p: Product, qty: int)
    requires Saveable(c) && Consistent(c) && p.id != ""
    requires FindLine(c.items, p.id).None?
    requires qty >= 1
    ensures AddToCart(c, p, qty).Ok?
    ensures var n := AddToCart(c, p, qty).value;
      && n.items == c.items + [LineItem(p.id, p.name, p.price, qty, p.image)]
      && n.total == c.total + p.price * qty
  {
    var items := c.items + [SnapshotLine(p, qty)];
    assert items[|c.items|] == SnapshotLine(p, qty);
    TotalAppend(c.items, [SnapshotLine(p, qty)]);
    assert Total([SnapshotLine(p, qty)]) == p.price * qty;
  }

  /** Quantities accumulate on the items: adding `a` then `b` of a product
      gives the items adding `a + b` gives. */
  lemma {:induction false} AddedItemsAccumulate(items: seq<LineItem>, p: Product, a: int, b: int)
    ensures AddedItems(AddedItems(items, p, a), p, b) == AddedItems(items, p, a + b)
  {
    var once := AddedItems(items, p, a);
    if FindLine(items, p.id).Some? {
      var i := FindLine(items, p.id).value;
      FindLineAt(once, p.id, i);
    } else {
      var n := |items|;
      FindLineAt(once, p.id, n);
      assert once[n := once[n].(quantity := once[n].quantity + b)] == items + [SnapshotLine(p, a + b)];
    }
  }

  /** Quantities accumulate in the cart: after an accepted add of `a`, adding
      `b` has the outcome of adding `a + b` at once (adding 2 then 3 is
      adding 5). */
  lemma AddAccumulates(c: Cart, p: Product, a: int, b: int)
    requires AddToCart(c, p, a).Ok?
    ensures AddToCart(AddToCart(c, p, a).value, p, b) == AddToCart(c, p, a + b)
  {
    AddedItemsAccumulate(c.items, p, a, b);
  }

  /** `find` returns `n` when position `n` is the first one that matches. */
  lemma {:induction false} FindLineAt(items: seq<LineItem>, pid: ProductId, n: nat)
    requires n < |items| && items[n].productId == pid
    requires forall j :: 0 <= j < n ==> items[j].productId != pid
    ensures FindLine(items, pid) == Some(n)
  {
    if n > 0 {
      FindLineAt(items[1..], pid, n - 1);
    }
  }

  /** DELETE /cart/:cartId/:productId on a found cart: drop the product's
      lines, recompute, save. A valid cart always saves, keeps its key and
      a matching total, and has no line for the product afterwards. */
  function RemoveFromCart(c: Cart, pid: ProductId): (r: Result<Cart>)
    ensures Saveable(c) ==> r.Ok?
    ensures r.Ok? ==> r.value.cartId == c.cartId && r.value.total == Total(r.value.items)
    ensures r.Ok? ==> FindLine(r.value.items, pid).None?
    ensures r.Ok? && UniqueProducts(c.items) ==> UniqueProducts(r.value.items)
    ensures r.Ok? && PricesNonNegative(c.items) ==> PricesNonNegative(r.value.items)
  {
    var items := WithoutProduct(c.items, pid);
    SubsequenceMembers(items, c.items);
    assert UniqueProducts(c.items) ==> UniqueProducts(items) by {
      if UniqueProducts(c.items) {
        WithoutProductUnique(c.items, pid);
      }
    }
    SaveCart(WithItems(c, items))
  }

  /** Removing a product the cart does not hold is a no-op, not an error. */
  lemma RemoveAbsentIsNoop(c: Cart, pid: ProductId)
    requires Saveable(c) && Consistent(c)
    requires FindLine(c.items, pid).None?
    ensures RemoveFromCart(c, pid) == Ok(c)
  {
    WithoutAbsentProduct(c.items, pid);
  }

  /** Removing a product the cart holds drops exactly its line, keeps the
      other lines in order, and lowers the total by that line's subtotal. */
  lemma RemoveHeldLine(c: Cart, pid: ProductId, i: nat)
    requires Saveable(c) && Consistent(c)
    requires FindLine(c.items, pid) == Some(i)
    ensures RemoveFromCart(c, pid) == Ok(c.(items := c.items[..i] + c.items[i + 1..], total := c.total - Subtotal(c.items[i])))
  {
    WithoutUniqueLine(c.items, pid, i);
    TotalWithoutLine(c.items, i);
  }

  /** PUT /cart/:cartId/:productId on a found cart: a missing line is a 404;
      a quantity of at most 0 drops the line; otherwise the line's quantity
      becomes exactly `qty`. A valid cart with the line always saves, with a
      matching total and one line per product. */
  function SetCartQuantity(c: Cart, pid: ProductId, qty: int): (r: Result<Cart>)
    ensures FindLine(c.items, pid).None? <==> r == Err(NotFound(ItemNotFound))
    ensures Saveable(c) && FindLine(c.items, pid).Some? ==> r.Ok?
    ensures r.Ok? ==> r.value.cartId == c.cartId && r.value.total == Total(r.value.items)
    ensures r.Ok? && UniqueProducts(c.items) ==> UniqueProducts(r.value.items)
    ensures r.Ok? && PricesNonNegative(c.items) ==> PricesNonNegative(r.value.items)
  {
    match FindLine(c.items, pid)
    case None => Err(NotFound(ItemNotFound))
    case Some(i) =>
      if qty <= 0 then
        var items := WithoutProduct(c.items, pid);
        SubsequenceMembers(items, c.items);
        assert UniqueProducts(c.items) ==> UniqueProducts(items) by {
          if UniqueProducts(c.items) {
            WithoutProductUnique(c.items, pid);
          }
        }
        SaveCart(WithItems(c, items))
      else
        SaveCart(WithItems(c, c.items[i := c.items[i].(quantity := qty)]))
  }

  /** Setting a quantity of at most 0 on a held line is removing the product. */
  lemma SetNonPositiveIsRemove(c: Cart, pid: ProductId, qty: int)
    requires FindLine(c.items, pid).Some?
    requires qty <= 0
    ensures SetCartQuantity(c, pid, qty) == RemoveFromCart(c, pid)
  {
  }

  /** Setting a positive quantity on a held line changes that line's quantity
      to exactly `qty`, nothing else, and moves the total accordingly. */
  lemma SetPositiveQuantity(c: Cart, pid: ProductId, qty: int, i: nat)
    requires Saveable(c) && Consistent(c)
    requires FindLine(c.items, pid) == Some(i)
    requires qty >= 1
    ensures SetCartQuantity(c, pid, qty).Ok?
    ensures var n := SetCartQuantity(c, pid, qty).value;
      && |n.items| == |c.items|
      && n.items[i] == c.items[i].(quantity := qty)
      && (forall j :: 0 <= j < |c.items| && j != i ==> n.items[j] == c.items[j])
      && n.total == c.total - Subtotal(c.items[i]) + c.items[i].price * qty
  {
    TotalUpdate(c.items, i, c.items[i].(quantity := qty));
  }

  /** POST /checkout without its side effects: the 400 for a missing field,
      the order document, and its save. An order is made exactly when the
      items are present, name and email are not blank after trimming, and
      the total is not negative; it then holds the items verbatim, their
      total, the trimmed name and email, and status completed. */
  function PlaceOrder(cartItems: Option<seq<LineItem>>, email: string, name: string): (r: Result<OrderModel.Order>)
    ensures r == Err(MissingFields) <==> cartItems.None? || email == "" || name == ""
    ensures r.Err? && r.error != MissingFields ==> r.error == ValidationFailed
    ensures r.Ok? <==> cartItems.Some? && Trim(name) != "" && Trim(email) != "" && Total(cartItems.value) >= 0
    ensures r.Ok? ==> OrderModel.Saveable(r.value) && r.value.status == OrderModel.Completed
    ensures r.Ok? ==> r.value.items == cartItems.value && r.value.total == Total(cartItems.value)
    ensures r.Ok? ==> r.value.name == Trim(name) && r.value.email == Trim(email)
  {
    if cartItems.None? || email == "" || name == "" then Err(MissingFields)
    else
      var order := OrderModel.NewOrder(name, email, cartItems.value, Total(cartItems.value), OrderModel.Completed);
      if OrderModel.Saveable(order) then Ok(order) else Err(ValidationFailed)
  }

  /** Lines a cart may hold (prices and quantities not negative) always make
      an order once name and email are not all white space. */
  lemma CheckoutOfCartLines(items: seq<LineItem>, email: string, name: string)
    requires forall i :: 0 <= i < |items| ==> items[i].price >= 0 && items[i].quantity >= 1
    requires !AllSpace(name) && !AllSpace(email)
    ensures PlaceOrder(Some(items), email, name).Ok?
  {
    TotalNonNegative(items);
  }

  /** The lines of a stored cart always make an order once name and email
      are not all white space. */
  lemma CheckoutOfStoredCart(key: string, c: Cart, email: string, name: string)
    requires StoredCart(key, c)
    requires !AllSpace(name) && !AllSpace(email)
    ensures PlaceOrder(Some(c.items), email, name).Ok?
  {
    CheckoutOfCartLines(c.items, email, name);
  }
}
