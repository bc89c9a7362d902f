/** The order document (backend/models/Order.js): trimmed, required name and
    email, line items without a quantity bound, a total of at least 0, and a
    status drawn from a fixed enumeration. */
module OrderModel {
  import opened Common
  import opened Text
  import opened CartModel

  datatype Status = Pending | Completed | Shipped

  /** The schema's default status. */
  const DefaultStatus: Status := Completed

  function StatusName(st: Status): string {
    match st
    case Pending => "pending"
    case Completed => "completed"
    case Shipped => "shipped"
  }

  /** The enum validator: a status string is accepted only if it names one
      of the three states. */
  function ParseStatus(s: string): (r: Option<Status>)
    ensures r.Some? ==> StatusName(r.value) == s
    ensures r.None? <==> s != "pending" && s != "completed" && s != "shipped"
  {
    if s == "pending" then Some(Pending)
    else if s == "completed" then Some(Completed)
    else if s == "shipped" then Some(Shipped)
    else None
  }

  /** Casting the stored status: absent gives the default, present must pass the enum. */
  function CastStatus(given: Option<string>): (r: Option<Status>)
    ensures given.None? ==> r == Some(Completed)
    ensures given.Some? ==> (r.Some? <==> given.value in {"pending", "completed", "shipped"})
    ensures given.Some? && r.Some? ==> StatusName(r.value) == given.value
  {
    match given
    case None => Some(DefaultStatus)
    case Some(s) => ParseStatus(s)
  }

  /** Every status is accepted under its own name. */
  lemma StatusRoundTrip(st: Status)
    ensures ParseStatus(StatusName(st)) == Some(st)
  {
  }

  /** Order lines share the cart line's shape; no bound is placed on quantity. */
  datatype Order = Order(name: string, email: string, items: seq<LineItem>, total: int, status: Status)

  /** What `save` checks before writing an order: name and email present
      after trimming, and a total of at least 0. */
  predicate Saveable(o: Order) {
    o.name != "" && o.email != "" && o.total >= 0
  }

  /** `new Order({ name, email, items, total, status })`: the schema's trim
      setters apply to name and email as the document is built, so a name
      or email made only of white space becomes empty and the document is
      then rejected at save. */
  function NewOrder(name: string, email: string, items: seq<LineItem>, total: int, status: Status): (o: Order)
    ensures o.name == Trim(name) && o.email == Trim(email)
    ensures o.items == items && o.total == total && o.status == status
    ensures Saveable(o) <==> !AllSpace(name) && !AllSpace(email) && total >= 0
  {
    Order(Trim(name), Trim(email), items, total, status)
  }

  /** The checkout response: the stored order's fields with its id. The
      creation timestamp is not modelled. */
  datatype Receipt = Receipt(id: nat, name: string, email: string, items: seq<LineItem>, total: int, status: Status)

  function ReceiptOf(id: nat, o: Order): Receipt {
    Receipt(id, o.name, o.email, o.items, o.total, o.status)
  }
}
