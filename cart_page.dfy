/** The checkout panel of frontend/src/pages/CartPage.jsx: its form state,
    its validator and its submit handler. The view it shows is chosen by
    `CheckoutForm.ChooseView`. */
module CartPage {
  import opened Common
  import opened Text
  import opened CartModel
  import opened OrderModel
  import opened CheckoutForm

  const InvalidEmailFormat := "Invalid email format"

  /** This page's `validateForm`: no errors exactly when name and email are
      not blank and the email has an "@"; a non-empty email without "@"
      reads "Invalid email format". */
  function ValidateForm(form: FormData): (errors: map<Field, string>)
    ensures errors == map[] <==> Trim(form.name) != "" && Trim(form.email) != "" && '@' in form.email
    ensures form.email != "" && '@' !in form.email ==> Email in errors && errors[Email] == InvalidEmailFormat
    ensures form.email == "" ==> Email in errors && errors[Email] == EmailRequired
    ensures Trim(form.name) == "" ==> Name in errors && errors[Name] == NameRequired
  {
    Validate(form, InvalidEmailFormat)
  }

  /** The component's state: `formData`, `loading`, `errors` and `receipt`
      (`None` stands for null or undefined). */
  class CartPageState {
    var formData: FormData
    var loading: bool
    var errors: map<Field, string>
    var receipt: Option<Receipt>

    constructor ()
      ensures formData == EmptyForm && !loading && errors == map[] && receipt == None
    {
      formData := EmptyForm;
      loading := false;
      errors := map[];
      receipt := None;
    }

    /** `handleSubmit`, with the outcome of `onCheckout` given as `reply`.
        Invalid input stores the errors and never calls `onCheckout`;
        otherwise `onCheckout` gets the form, and when it resolves the
        receipt is set and the form and errors are reset. `loading` is false
        at the end of every call that got past validation. */
    method HandleSubmit(reply: Reply<Option<Receipt>>) returns (submitted: Option<FormData>, rejected: bool)
      modifies this
      ensures submitted == if ValidateForm(old(formData)) == map[] then Some(old(formData)) else None
      ensures submitted.None? ==>
        && errors == ValidateForm(old(formData)) && !rejected
        && formData == old(formData) && loading == old(loading) && receipt == old(receipt)
      ensures submitted.Some? ==> !loading && rejected == reply.Rejected?
      ensures submitted.Some? && reply.Resolved? ==>
        receipt == reply.value && formData == EmptyForm && errors == map[]
      ensures submitted.Some? && reply.Rejected? ==>
        receipt == old(receipt) && formData == old(formData) && errors == old(errors)
    {
      var newErrors := ValidateForm(formData);
      if |newErrors| > 0 {
        errors := newErrors;
        submitted, rejected := None, false;
        return;
      }
      loading := true;
      submitted := Some(formData);
      match reply {
        case Resolved(orderData) =>
          receipt := orderData;
          formData := EmptyForm;
          errors := map[];
          rejected := false;
        case Rejected =>
          rejected := true;
      }
      loading := false;
    }
  }
}
