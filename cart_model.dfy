/** The cart document (backend/models/Cart.js), the catalog entry it copies
    from (backend/models/Product.js), and the pure list expressions the
    route handlers apply to a cart's items: the `find` by product id, the
    `filter` that drops a product, and the `reduce` that sums the total.
    Prices are whole cents, so every sum is exact. */
module CartModel {
  import opened Common

  /** Product ids are opaque, system-generated and never empty. */
  type ProductId = string

  datatype Product = Product(id: ProductId, name: string, price: int, image: string, description: string)

  /** The product schema: a required name and a price of at least 0 (the
      name's trimming is not modelled). */
  predicate ValidProduct(p: Product) {
    p.id != "" && p.name != "" && p.price >= 0
  }

  /** A line of a cart or an order: a snapshot of the product's fields taken
      when it was added, plus a quantity. */
  datatype LineItem = LineItem(productId: ProductId, name: string, price: int, quantity: int, image: string)

  datatype Cart = Cart(cartId: string, items: seq<LineItem>, total: int)

  /** The document `new Cart({ cartId, items: [], total: 0 })`: no lines, a
      total of 0 that matches them, and savable exactly when the key is given. */
  function NewCart(key: string): (c: Cart)
    ensures c.cartId == key && c.items == [] && c.total == 0
    ensures Consistent(c) && (Saveable(c) <==> key != "")
  {
    Cart(key, [], 0)
  }

  /** The line schema's validators: a required product id and `min: 1` on quantity. */
  predicate LineSaveable(l: LineItem) {
    l.productId != "" && l.quantity >= 1
  }

  /** What `save` checks before writing a cart: a required cart key and every line valid. */
  predicate Saveable(c: Cart) {
    c.cartId != "" && forall i :: 0 <= i < |c.items| ==> LineSaveable(c.items[i])
  }

  /** At most one line per product id. */
  predicate UniqueProducts(items: seq<LineItem>) {
    forall i, j :: 0 <= i < j < |items| ==> items[i].productId != items[j].productId
  }

  /** What every handler re-establishes before it saves: the stored total is
      the sum over the lines, and no product has two lines. */
  predicate Consistent(c: Cart) {
    c.total == Total(c.items) && UniqueProducts(c.items)
  }

  /** Every line's price is at least 0, as the product schema's `min: 0`
      guarantees for the prices lines copy. */
  predicate PricesNonNegative(items: seq<LineItem>) {
    forall i :: 0 <= i < |items| ==> items[i].price >= 0
  }

  function Subtotal(l: LineItem): int {
    l.price * l.quantity
  }

  /** `items.reduce((sum, item) => sum + item.price * item.quantity, 0)`;
      integer addition is associative, so folding from the front gives the
      same sum as the left fold. */
  function Total(items: seq<LineItem>): int {
    if items == [] then 0 else Subtotal(items[0]) + Total(items[1..])
  }

  /** The total of a concatenation is the sum of the totals. */
  lemma {:induction false} TotalAppend(a: seq<LineItem>, b: seq<LineItem>)
    ensures Total(a + b) == Total(a) + Total(b)
  {
    if a == [] {
      assert a + b == b;
    } else {
      assert (a + b)[1..] == a[1..] + b;
      TotalAppend(a[1..], b);
    }
  }

  /** Replacing one line changes the total by exactly the difference of the two subtotals. */
  lemma {:induction false} TotalUpdate(items: seq<LineItem>, i: nat, l: LineItem)
    requires i < |items|
    ensures Total(items[i := l]) == Total(items) - Subtotal(items[i]) + Subtotal(l)
  {
    if i == 0 {
      assert items[i := l][1..] == items[1..];
    } else {
      assert items[i := l][1..] == items[1..][i - 1 := l];
      TotalUpdate(items[1..], i - 1, l);
    }
  }

  /** With no negative price and no negative quantity the total is not negative. */
  lemma {:induction false} TotalNonNegative(items: seq<LineItem>)
    requires forall i :: 0 <= i < |items| ==> items[i].price >= 0 && items[i].quantity >= 0
    ensures Total(items) >= 0
  {
    if items != [] {
      assert Subtotal(items[0]) >= 0;
      TotalNonNegative(items[1..]);
    }
  }

  /** `items.find(item => item.productId === pid)`, as the index of the first
      matching line. */
  function FindLine(items: seq<LineItem>, pid: ProductId): (r: Option<nat>)
    ensures r.Some? ==> r.value < |items| && items[r.value].productId == pid
    ensures r.Some? ==> forall j :: 0 <= j < r.value ==> items[j].productId != pid
    ensures r.None? ==> forall j :: 0 <= j < |items| ==> items[j].productId != pid
  {
    if items == [] then None
    else if items[0].productId == pid then Some(0)
    else match FindLine(items[1..], pid)
      case Some(k) => Some(k + 1)
      case None => None
  }

  /** `items.filter(item => item.productId !== pid)`: some of the lines, in
      their order, and none of them for `pid`. */
  function WithoutProduct(items: seq<LineItem>, pid: ProductId): (r: seq<LineItem>)
    ensures IsSubsequence(r, items)
    ensures forall j :: 0 <= j < |r| ==> r[j].productId != pid
  {
    if items == [] then []
    else if items[0].productId == pid then WithoutProduct(items[1..], pid)
    else [items[0]] + WithoutProduct(items[1..], pid)
  }

  /** The filter keeps every line of another product, as often as it occurred. */
  lemma {:induction false} WithoutProductCounts(items: seq<LineItem>, pid: ProductId)
    ensures forall l ::
              multiset(WithoutProduct(items, pid))[l] == if l.productId == pid then 0 else multiset(items)[l]
  {
    if items != [] {
      WithoutProductCounts(items[1..], pid);
      assert items == [items[0]] + items[1..];
    }
  }

  /** The filter keeps one line per product. */
  lemma {:induction false} WithoutProductUnique(items: seq<LineItem>, pid: ProductId)
    requires UniqueProducts(items)
    ensures UniqueProducts(WithoutProduct(items, pid))
  {
    if items != [] {
      WithoutProductUnique(items[1..], pid);
      var rest := WithoutProduct(items[1..], pid);
      if items[0].productId != pid {
        SubsequenceMembers(rest, items[1..]);
        forall j | 0 <= j < |rest| ensures rest[j].productId != items[0].productId {
          var k :| 0 <= k < |items[1..]| && items[1..][k] == rest[j];
          assert items[k + 1] == rest[j];
        }
      }
    }
  }

  /** When no line matches, the filter keeps every line. */
  lemma {:induction false} WithoutAbsentProduct(items: seq<LineItem>, pid: ProductId)
    requires FindLine(items, pid).None?
    ensures WithoutProduct(items, pid) == items
  {
    if items != [] {
      WithoutAbsentProduct(items[1..], pid);
    }
  }

  /** With one line per product, the filter removes exactly the line `find`
      returns and keeps the others in order. */
  lemma {:induction false} WithoutUniqueLine(items: seq<LineItem>, pid: ProductId, i: nat)
    requires UniqueProducts(items)
    requires FindLine(items, pid) == Some(i)
    ensures WithoutProduct(items, pid) == items[..i] + items[i + 1..]
  {
    if i == 0 {
      WithoutAbsentProduct(items[1..], pid);
    } else {
      assert FindLine(items[1..], pid) == Some(i - 1);
      WithoutUniqueLine(items[1..], pid, i - 1);
      assert items[..i] + items[i + 1..] == [items[0]] + (items[1..][..i - 1] + items[1..][i..]);
    }
  }

  /** Dropping the line at `i` lowers the total by exactly that line's subtotal. */
  lemma TotalWithoutLine(items: seq<LineItem>, i: nat)
    requires i < |items|
    ensures Total(items[..i] + items[i + 1..]) == Total(items) - Subtotal(items[i])
  {
    var before, after := items[..i], items[i + 1..];
    assert items == before + ([items[i]] + after);
    TotalAppend(before, [items[i]] + after);
    assert ([items[i]] + after)[1..] == after;
    TotalAppend(before, after);
  }
}
