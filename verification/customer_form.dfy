/** The add-customer form, shared by the customers page and the add-customer
    dialog: name required, blank phone and email dropped, reset after adding. */
module CustomerForm {
  import opened Wrappers
  import opened Domain
  import Ids
  import CustomerRegistry

  datatype Form = Form(name: string, phone: string, email: string, open: bool)

  /** JavaScript's `s || undefined` on a string. */
  function OrNone(s: string): Option<string>
  {
    if s == "" then None else Some(s)
  }

  /** The add button is disabled exactly while the name is empty. */
  function SubmitDisabled(f: Form): bool
  {
    f.name == ""
  }

  /** Add and delete controls are rendered for admins only. */
  function ControlsShown(user: Option<User>): bool
  {
    user.Some? && user.value.role == Admin
  }

  /** `handleAddCustomer`: an empty name does nothing; otherwise the customer
      is added with the name as typed and blank phone or email left out, the
      fields are cleared and the dialog closes. */
  function Submit(customers: seq<Customer>, f: Form): (r: (seq<Customer>, Form))
    ensures f.name == "" ==> r == (customers, f)
    ensures f.name != "" ==>
      && |r.0| == |customers| + 1 && r.0[..|customers|] == customers
      && r.0[|customers|].name == f.name
      && r.0[|customers|].phone == OrNone(f.phone) && r.0[|customers|].email == OrNone(f.email)
      && r.0[|customers|].id == Ids.NextId("cust", |customers|)
      && r.1 == Form("", "", "", false)
  {
    if f.name == "" then (customers, f)
    else
      var draft := CustomerRegistry.CustomerDraft(f.name, OrNone(f.phone), OrNone(f.email), None, None);
      var (customers', _) := CustomerRegistry.AddCustomer(customers, draft);
      (customers', Form("", "", "", false))
  }

  /** The button is disabled exactly when pressing it would add nothing. */
  lemma DisabledExactlyWhenNoOp(customers: seq<Customer>, f: Form)
    ensures SubmitDisabled(f) <==> Submit(customers, f).0 == customers
  {
    if !SubmitDisabled(f) {
      assert |Submit(customers, f).0| != |customers|;
    }
  }

  /** Because the form clears itself, a second press right after an add adds
      nothing more: one press, one customer. */
  lemma SecondPressAddsNothing(customers: seq<Customer>, f: Form)
    requires f.name != ""
    ensures var (cs1, f1) := Submit(customers, f);
            SubmitDisabled(f1) && Submit(cs1, f1) == (cs1, f1) && |cs1| == |customers| + 1
  {
  }

  /** The customers page: the add dialog is rendered only when the controls
      are shown, so only an admin's submission reaches the form. */
  function PageSubmit(customers: seq<Customer>, user: Option<User>, f: Form): (seq<Customer>, Form)
  {
    if ControlsShown(user) then Submit(customers, f) else (customers, f)
  }

  /** Customers are added through the page exactly when an admin submits a
      named form; waiters and signed-out users change nothing. */
  lemma OnlyAdminsAddCustomers(customers: seq<Customer>, user: Option<User>, f: Form)
    ensures PageSubmit(customers, user, f).0 != customers <==>
      user.Some? && user.value.role == Admin && f.name != ""
    ensures !(user.Some? && user.value.role == Admin) ==> PageSubmit(customers, user, f) == (customers, f)
  {
  }
}
