/** The checkout dialog of frontend/src/components/CheckoutModal.jsx: its
    form state, its validator and its submit handler. The view it shows is chosen by
    `CheckoutForm.ChooseView`.
    Unlike the cart page it does not hold the receipt; the receipt comes in
    as a property. */
module CheckoutModal {
  import opened Common
  import opened Text
  import opened CartModel
  import opened OrderModel
  import opened CheckoutForm

  const InvalidEmail := "Invalid email"

  /** This dialog's `validateForm`: the same rule as the cart page's, with
      the bad-format message "Invalid email". */
  function ValidateForm(form: FormData): (errors: map<Field, string>)
    ensures errors == map[] <==> Trim(form.name) != "" && Trim(form.email) != "" && '@' in form.email
    ensures form.email != "" && '@' !in form.email ==> Email in errors && errors[Email] == InvalidEmail
    ensures form.email == "" ==> Email in errors && errors[Email] == EmailRequired
    ensures Trim(form.name) == "" ==> Name in errors && errors[Name] == NameRequired
  {
    Validate(form, InvalidEmail)
  }

  /** The dialog's own state: `formData`, `loading` and `errors`. */
  class CheckoutModalState {
    var formData: FormData
    var loading: bool
    var errors: map<Field, string>

    constructor ()
      ensures formData == EmptyForm && !loading && errors == map[]
    {
      formData := EmptyForm;
      loading := false;
      errors := map[];
    }

    /** `handleSubmit`, with the outcome of `onCheckout` given as `reply`.
        Invalid input stores the errors and returns without calling
        `onCheckout`; otherwise the form is submitted, reset with the errors
        when the call resolves, and `loading` ends false either way. */
    method HandleSubmit(reply: Reply<()>) returns (submitted: Option<FormData>, rejected: bool)
      modifies this
      ensures submitted == if ValidateForm(old(formData)) == map[] then Some(old(formData)) else None
      ensures submitted.None? ==>
        errors == ValidateForm(old(formData)) && formData == old(formData) && loading == old(loading) && !rejected
      ensures submitted.Some? ==> !loading && rejected == reply.Rejected?
      ensures submitted.Some? && reply.Resolved? ==> formData == EmptyForm && errors == map[]
      ensures submitted.Some? && reply.Rejected? ==> formData == old(formData) && errors == old(errors)
    {
      var newErrors := ValidateForm(formData);
      if |newErrors| > 0 {
        errors := newErrors;
        submitted, rejected := None, false;
        return;
      }
      loading := true;
      submitted := Some(formData);
      match reply {
        case Resolved(_) =>
          formData := EmptyForm;
          errors := map[];
          rejected := false;
        case Rejected =>
          rejected := true;
      }
      loading := false;
    }
  }
}
