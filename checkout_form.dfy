/** What the two checkout forms (frontend/src/pages/CartPage.jsx and
    frontend/src/components/CheckoutModal.jsx) have in common: the form's
    fields, the `validateForm` rule that both copy and that differs only in
    the wording of the bad-format message, the outcome of the `onCheckout`
    call, and the three views a checkout panel chooses from. */
module CheckoutForm {
  import opened Common
  import opened Text
  import opened CartModel
  import opened OrderModel

  datatype Field = Name | Email

  datatype FormData = FormData(name: string, email: string)

  /** `{ name: "", email: "" }`, the initial and the reset form. */
  const EmptyForm := FormData("", "")

  const NameRequired := "Name is required"
  const EmailRequired := "Email is required"

  /** `validateForm`: a name error when the trimmed name is empty; an email
      error when the trimmed email is empty or the email has no "@". The
      format check runs last and overwrites: a non-empty email without "@"
      (even one of only spaces) gets `invalidEmail`, an empty one gets the
      required message. */
  function Validate(form: FormData, invalidEmail: string): (errors: map<Field, string>)
    ensures Name in errors <==> Trim(form.name) == ""
    ensures Name in errors ==> errors[Name] == NameRequired
    ensures Email in errors <==> Trim(form.email) == "" || '@' !in form.email
    ensures Email in errors ==>
              errors[Email] == if form.email != "" && '@' !in form.email then invalidEmail else EmailRequired
    ensures errors == map[] <==> Trim(form.name) != "" && Trim(form.email) != "" && '@' in form.email
  {
    var withName := if Trim(form.name) == "" then map[Name := NameRequired] else map[];
    var withRequired := if Trim(form.email) == "" then withName[Email := EmailRequired] else withName;
    IncludesChar(form.email, '@');
    var withFormat := if form.email != "" && !Includes(form.email, "@") then withRequired[Email := invalidEmail] else withRequired;
    assert withFormat == map[] <== Name !in withFormat && Email !in withFormat;
    withFormat
  }

  /** How the awaited `onCheckout(formData)` ends: it resolves with a value
      or it rejects. */
  datatype Reply<+T> = Resolved(value: T) | Rejected

  /** The panel a checkout component renders. */
  datatype View = ReceiptView | EmptyCartView | CheckoutFormView

  /** The view both components choose: a receipt takes precedence;
      otherwise an empty cart shows its message and a non-empty one the
      items with the form. */
  function ChooseView(receipt: Option<Receipt>, cart: Cart): (v: View)
    ensures v == ReceiptView <==> receipt.Some?
    ensures v == CheckoutFormView <==> receipt.None? && cart.items != []
    ensures v == EmptyCartView <==> receipt.None? && cart.items == []
  {
    if receipt.Some? then ReceiptView
    else if |cart.items| == 0 then EmptyCartView
    else CheckoutFormView
  }
}
