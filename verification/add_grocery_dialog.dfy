/** The add-grocery dialog: field validation, the availability it derives
    from the stock, and the reset after a valid submit. */
module AddGroceryForm {
  import opened Wrappers
  import opened Domain
  import GroceryInventory
  import GroceryCardView

  /** The form's values after number coercion. `None` is a number field the
      user never touched: its default `undefined` coerces to NaN, which every
      number check rejects. A field the user typed into and cleared holds the
      empty string, which coerces to 0, so it is `Some(0.0)`. Stock is kept as
      a real so that the integer check has something to reject. */
  datatype GroceryForm = GroceryForm(
    name: string,
    category: string,
    price: Option<real>,
    unit: string,
    stock: Option<real>,
    expiryDate: Option<string>)

  datatype Field = NameField | CategoryField | PriceField | UnitField | StockField

  predicate PositivePrice(price: Option<real>)
  {
    price.Some? && price.value > 0.0
  }

  predicate WholeStock(stock: Option<real>)
  {
    stock.Some? && stock.value.Floor as real == stock.value && stock.value >= 0.0
  }

  /** The fields the schema rejects, in schema order: a name shorter than two
      characters, an empty category or unit, a price that is not positive, a
      stock that is negative or not whole. The expiry date is optional. */
  function FormErrors(f: GroceryForm): (errs: seq<Field>)
    ensures NameField in errs <==> |f.name| < 2
    ensures CategoryField in errs <==> |f.category| < 1
    ensures PriceField in errs <==> !PositivePrice(f.price)
    ensures UnitField in errs <==> |f.unit| < 1
    ensures StockField in errs <==> !WholeStock(f.stock)
  {
    Flag(|f.name| < 2, NameField) +
    Flag(|f.category| < 1, CategoryField) +
    Flag(!PositivePrice(f.price), PriceField) +
    Flag(|f.unit| < 1, UnitField) +
    Flag(!WholeStock(f.stock), StockField)
  }

  /** The field alone when its check fails, nothing otherwise. */
  function Flag(failed: bool, x: Field): (errs: seq<Field>)
    ensures x in errs <==> failed
    ensures forall y :: y in errs ==> y == x
  {
    if failed then [x] else []
  }

  /** A valid form becomes a draft whose availability is "stock above zero". */
  function Validate(f: GroceryForm): (r: Result<GroceryInventory.GroceryDraft, seq<Field>>)
    ensures r.Failure? <==> FormErrors(f) != []
    ensures r.Failure? ==> r.error == FormErrors(f)
    ensures r.Success? ==>
      && r.value.name == f.name && r.value.category == f.category && r.value.unit == f.unit
      && f.price == Some(r.value.price) && r.value.price > 0.0
      && f.stock == Some(r.value.stock as real) && r.value.stock >= 0
      && (r.value.isAvailable <==> r.value.stock > 0)
      && r.value.expiryDate == f.expiryDate && |r.value.name| >= 2
  {
    var errs := FormErrors(f);
    if errs != [] then Failure(errs)
    else
      var stock := f.stock.value.Floor;
      Success(GroceryInventory.GroceryDraft(f.name, f.category, f.price.value, f.unit, stock, stock > 0, f.expiryDate))
  }

  function EmptyForm(): GroceryForm
  {
    GroceryForm("", "", None, "", None, Some(""))
  }

  datatype Dialog = Dialog(open: bool, form: GroceryForm)

  /** `onSubmit`: a valid form adds the item, then the form resets and the
      dialog closes; an invalid one changes nothing. */
  function Submit(items: seq<GroceryItem>, d: Dialog): (r: (seq<GroceryItem>, Dialog))
    ensures Validate(d.form).Failure? ==> r == (items, d)
    ensures Validate(d.form).Success? ==>
      && |r.0| == |items| + 1 && r.0[..|items|] == items
      && r.0[|items|].id !in GroceryInventory.GroceryIds(items)
      && r.1 == Dialog(false, EmptyForm())
  {
    match Validate(d.form)
    case Failure(_) => (items, d)
    case Success(draft) =>
      var (items', _) := GroceryInventory.AddGroceryItemFresh(items, draft);
      (items', Dialog(false, EmptyForm()))
  }

  /** Submitting keeps every stock non-negative, and the added item is
      available exactly when it has stock. */
  lemma SubmitKeepsStock(items: seq<GroceryItem>, d: Dialog)
    requires GroceryCardView.StockNonNegative(items)
    ensures GroceryCardView.StockNonNegative(Submit(items, d).0)
    ensures Validate(d.form).Success? ==>
      var added := Submit(items, d).0[|items|];
      added.stock >= 0 && (added.isAvailable <==> added.stock > 0)
  {
  }

  /** A cleared number field counts as 0: a cleared stock is accepted and
      gives an unavailable item, while a cleared price is rejected. */
  lemma ClearedNumberFields(f: GroceryForm)
    requires |f.name| >= 2 && |f.category| >= 1 && |f.unit| >= 1 && PositivePrice(f.price)
    ensures var r := Validate(f.(stock := Some(0.0)));
            r.Success? && r.value.stock == 0 && !r.value.isAvailable
    ensures PriceField in Validate(f.(price := Some(0.0))).error
  {
  }

  /** The empty form the dialog resets to is itself rejected. */
  lemma EmptyFormRejected()
    ensures Validate(EmptyForm()).Failure?
    ensures Validate(EmptyForm()).error == [NameField, CategoryField, PriceField, UnitField, StockField]
  {
  }
}
