/** The customer registry: `addCustomer`. No delete operation is defined. */
module CustomerRegistry {
  import opened Wrappers
  import opened Domain
  import Ids

  function CustomerIds(customers: seq<Customer>): (ids: seq<string>)
    ensures |ids| == |customers| && forall i :: 0 <= i < |customers| ==> ids[i] == customers[i].id
  {
    seq(|customers|, i requires 0 <= i < |customers| => customers[i].id)
  }

  /** The fields a caller supplies (everything but id and visits). */
  datatype CustomerDraft = CustomerDraft(
    name: string,
    phone: Option<string>,
    email: Option<string>,
    membershipId: Option<string>,
    feedback: Option<string>)

  /** Appends one customer numbered after the current length, with one visit,
      and returns that record. */
  function AddCustomer(customers: seq<Customer>, draft: CustomerDraft): (r: (seq<Customer>, Customer))
    ensures r.0 == customers + [r.1]
    ensures r.1.id == Ids.NextId("cust", |customers|)
    ensures r.1.visits == Some(1)
    ensures r.1.name == draft.name && r.1.phone == draft.phone && r.1.email == draft.email
    ensures r.1.membershipId == draft.membershipId && r.1.feedback == draft.feedback
  {
    var c := Customer(Ids.NextId("cust", |customers|), draft.name, draft.phone, draft.email,
                      Some(1), draft.membershipId, draft.feedback);
    (customers + [c], c)
  }

  /** Adding to a sequentially numbered list uses a fresh id and keeps the
      numbering sequential, so every id stays unique. */
  lemma AddCustomerFresh(customers: seq<Customer>, draft: CustomerDraft)
    requires Ids.SequentialIds("cust", CustomerIds(customers))
    ensures AddCustomer(customers, draft).1.id !in CustomerIds(customers)
    ensures Ids.SequentialIds("cust", CustomerIds(AddCustomer(customers, draft).0))
  {
    var r := AddCustomer(customers, draft);
    Ids.NextIdFresh("cust", CustomerIds(customers));
    assert CustomerIds(r.0) == CustomerIds(customers) + [r.1.id];
  }

  /** Two successive additions, to any list, get two different ids, each with
      one visit. */
  lemma TwoAddsDistinct(customers: seq<Customer>, d1: CustomerDraft, d2: CustomerDraft)
    ensures var (cs1, c1) := AddCustomer(customers, d1);
            var (cs2, c2) := AddCustomer(cs1, d2);
            c1.id != c2.id && c1.visits == c2.visits == Some(1) && cs2 == customers + [c1, c2]
  {
    Ids.MakeIdInjective("cust", |customers| + 1, |customers| + 2);
  }
}
