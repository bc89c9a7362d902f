/** The persistent side of backend/routes/api.js: one cart document per cart
    key, a growing list of orders, and a read-only catalog. Each handler is a
    method that looks the document up, changes it, and writes it back only
    if `save` accepts it; every error leaves the store as it was. */
module ApiStore {
  import opened Common
  import opened CartModel
  import opened OrderModel
  import opened ApiRules

  /** Catalog entries are stored under their own id and satisfy the product schema. */
  predicate ValidCatalog(catalog: map<ProductId, Product>) {
    forall id :: id in catalog ==> catalog[id].id == id && ValidProduct(catalog[id])
  }

  class Store {
    const catalog: map<ProductId, Product>
    var carts: map<string, Cart>
    var orders: seq<Order>

    /** One cart per key, each valid under the schema with its total,
        one-line-per-product and non-negative-price invariants, and every
        order valid. */
    ghost predicate Valid()
      reads this
    {
      && ValidCatalog(catalog)
      && (forall key :: key in carts ==> StoredCart(key, carts[key]))
      && (forall i :: 0 <= i < |orders| ==> OrderModel.Saveable(orders[i]))
    }

    constructor (catalog: map<ProductId, Product>)
      requires ValidCatalog(catalog)
      ensures Valid()
      ensures this.catalog == catalog && carts == map[] && orders == []
    {
      this.catalog := catalog;
      carts := map[];
      orders := [];
    }

    /** GET /cart/:id: the stored cart, or a new empty cart with total 0
        that is saved first. */
    method GetCart(key: string) returns (r: Result<Cart>)
      requires Valid()
      modifies this
      ensures Valid() && orders == old(orders)
      ensures key in old(carts) ==> r == Ok(old(carts)[key]) && carts == old(carts)
      ensures key !in old(carts) && key != "" ==>
        && r.Ok? && r.value.cartId == key && r.value.items == [] && r.value.total == 0
        && carts == old(carts)[key := r.value]
      ensures key !in old(carts) && key == "" ==> r == Err(ValidationFailed) && carts == old(carts)
    {
      if key in carts {
        r := Ok(carts[key]);
        return;
      }
      var cart := NewCart(key);
      r := SaveCart(cart);
      if r.Ok? {
        carts := carts[key := cart];
      }
    }

    /** POST /cart/:id: an unknown product is a 404 before the cart is
        looked at; otherwise the (possibly new) cart gets the product's
        quantity raised or a snapshot line appended, and is saved if the
        schema accepts it. */
    method AddItem(key: string, pid: ProductId, qty: int) returns (r: Result<Cart>)
      requires Valid()
      modifies this
      ensures Valid() && orders == old(orders)
      ensures pid !in catalog ==> r == Err(NotFound(ProductNotFound))
      ensures pid in catalog ==> r == AddToCart(CartOrNew(old(carts), key), catalog[pid], qty)
      ensures r.Ok? ==> carts == old(carts)[key := r.value]
      ensures r.Err? ==> carts == old(carts)
    {
      if pid !in catalog {
        r := Err(NotFound(ProductNotFound));
        return;
      }
      var product := catalog[pid];
      var cart := if key in carts then carts[key] else NewCart(key);
      ghost var before := cart;
      var items := cart.items;
      var existing := FindLine(items, pid);
      assert existing == FindLine(before.items, product.id);
      if existing.Some? {
        var i := existing.value;
        items := items[i := items[i].(quantity := items[i].quantity + qty)];
      } else {
        items := items + [LineItem(product.id, product.name, product.price, qty, product.image)];
      }
      assert items == AddedItems(before.items, product, qty);
      cart := cart.(items := items);
      cart := cart.(total := Total(cart.items));
      assert cart == WithItems(before, items);
      if !CartModel.Saveable(cart) {
        r := Err(ValidationFailed);
        return;
      }
      r := Ok(cart);
      assert r == AddToCart(before, product, qty);
      assert StoredCart(key, cart);
      ghost var was := carts;
      carts := carts[key := cart];
      forall k | k in carts ensures StoredCart(k, carts[k]) {
        if k != key {
          assert carts[k] == was[k];
        }
      }
    }

    /** DELETE /cart/:cartId/:productId: a missing cart is a 404; otherwise
        the product's lines are dropped and the cart is saved, which never
        fails for a stored cart. */
    method RemoveItem(key: string, pid: ProductId) returns (r: Result<Cart>)
      requires Valid()
      modifies this
      ensures Valid() && orders == old(orders)
      ensures key !in old(carts) ==> r == Err(NotFound(CartNotFound))
      ensures key in old(carts) ==> r == RemoveFromCart(old(carts)[key], pid) && r.Ok?
      ensures r.Ok? ==> carts == old(carts)[key := r.value]
      ensures r.Err? ==> carts == old(carts)
    {
      if key !in carts {
        r := Err(NotFound(CartNotFound));
        return;
      }
      var cart := carts[key];
      cart := cart.(items := WithoutProduct(cart.items, pid));
      cart := cart.(total := Total(cart.items));
      r := SaveCart(cart);
      assert r == RemoveFromCart(carts[key], pid);
      if r.Ok? {
        carts := carts[key := cart];
      }
    }

    /** PUT /cart/:cartId/:productId: a missing cart or line is a 404; a
        quantity of at most 0 drops the line, any other sets it exactly. */
    method SetQuantity(key: string, pid: ProductId, qty: int) returns (r: Result<Cart>)
      requires Valid()
      modifies this
      ensures Valid() && orders == old(orders)
      ensures key !in old(carts) ==> r == Err(NotFound(CartNotFound))
      ensures key in old(carts) ==> r == SetCartQuantity(old(carts)[key], pid, qty)
      ensures r.Ok? ==> carts == old(carts)[key := r.value]
      ensures r.Err? ==> carts == old(carts)
    {
      if key !in carts {
        r := Err(NotFound(CartNotFound));
        return;
      }
      var cart := carts[key];
      var found := FindLine(cart.items, pid);
      if found.None? {
        r := Err(NotFound(ItemNotFound));
        return;
      }
      var i := found.value;
      if qty <= 0 {
        cart := cart.(items := WithoutProduct(cart.items, pid));
      } else {
        cart := cart.(items := cart.items[i := cart.items[i].(quantity := qty)]);
      }
      cart := cart.(total := Total(cart.items));
      r := SaveCart(cart);
      assert r == SetCartQuantity(carts[key], pid, qty);
      if r.Ok? {
        carts := carts[key := cart];
      }
    }

    /** POST /checkout: a missing field is a 400 and a rejected order save
        is an error, both leaving the store alone. Otherwise one order is
        appended, and only then is the originating cart, if a key is given
        and the cart exists, emptied with total 0. */
    method Checkout(cartItems: Option<seq<LineItem>>, email: string, name: string, cartId: string)
      returns (r: Result<Receipt>)
      requires Valid()
      modifies this
      ensures Valid()
      ensures var placed := PlaceOrder(cartItems, email, name);
        && (placed.Err? ==> r == Err(placed.error) && carts == old(carts) && orders == old(orders))
        && (placed.Ok? ==> r == Ok(ReceiptOf(|old(orders)|, placed.value)) && orders == old(orders) + [placed.value])
      ensures r.Ok? && cartId != "" && cartId in old(carts) ==>
        carts == old(carts)[cartId := old(carts)[cartId].(items := [], total := 0)]
      ensures r.Ok? && (cartId == "" || cartId !in old(carts)) ==> carts == old(carts)
    {
      if cartItems.None? || email == "" || name == "" {
        r := Err(MissingFields);
        return;
      }
      var items := cartItems.value;
      var total := Total(items);
      var order := NewOrder(name, email, items, total, Completed);
      if !OrderModel.Saveable(order) {
        r := Err(ValidationFailed);
        return;
      }
      orders := orders + [order];
      if cartId != "" && cartId in carts {
        carts := carts[cartId := carts[cartId].(items := [], total := 0)];
      }
      r := Ok(ReceiptOf(|orders| - 1, order));
    }
  }

  /** Reading a cart twice: the second read returns the cart the first one
      returned or created, and changes nothing. */
  method GetCartTwice(s: Store, key: string) returns (first: Result<Cart>, second: Result<Cart>)
    requires s.Valid()
    modifies s
    ensures s.Valid() && s.orders == old(s.orders)
    ensures first.Ok? ==> second == first && s.carts == old(s.carts)[key := first.value]
    ensures first.Err? ==> second == first && s.carts == old(s.carts)
  {
    first := s.GetCart(key);
    ghost var between := s.carts;
    second := s.GetCart(key);
    assert s.carts == between;
  }
}
