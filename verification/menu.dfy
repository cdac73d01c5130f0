/** The menu registry: `updateMenuItemAvailability` and `addMenuItem`. */
module MenuRegistry {
  import opened Wrappers
  import opened Domain
  import Ids

  function MenuIds(items: seq<MenuItem>): (ids: seq<string>)
    ensures |ids| == |items| && forall i :: 0 <= i < |items| ==> ids[i] == items[i].id
  {
    seq(|items|, i requires 0 <= i < |items| => items[i].id)
  }

  /** Sets the availability flag of every item whose id matches; all other
      fields and all other items are kept. */
  function UpdateMenuItemAvailability(items: seq<MenuItem>, menuItemId: string, isAvailable: bool): (r: seq<MenuItem>)
    ensures |r| == |items|
    ensures forall i :: 0 <= i < |r| && items[i].id != menuItemId ==> r[i] == items[i]
    ensures forall i :: 0 <= i < |r| && items[i].id == menuItemId ==>
      r[i].isAvailable == isAvailable && r[i] == items[i].(isAvailable := r[i].isAvailable)
  {
    seq(|items|, i requires 0 <= i < |items| =>
      if items[i].id == menuItemId then items[i].(isAvailable := isAvailable) else items[i])
  }

  /** The fields a caller supplies to `addMenuItem` (everything but id and image). */
  datatype MenuItemDraft = MenuItemDraft(
    name: string,
    description: string,
    price: real,
    category: string,
    isAvailable: bool,
    cuisine: Option<string>,
    veg: Option<bool>)

  /** Appends one item numbered after the current length and returns it. */
  function AddMenuItem(items: seq<MenuItem>, draft: MenuItemDraft): (r: (seq<MenuItem>, MenuItem))
    ensures r.0 == items + [r.1]
    ensures r.1.id == Ids.NextId("item", |items|)
    ensures r.1.name == draft.name && r.1.description == draft.description
    ensures r.1.price == draft.price && r.1.category == draft.category
    ensures r.1.isAvailable == draft.isAvailable && r.1.cuisine == draft.cuisine
    ensures r.1.veg == draft.veg && r.1.image.None?
  {
    var item := MenuItem(Ids.NextId("item", |items|), draft.name, draft.description, draft.price,
                         draft.category, draft.isAvailable, None, draft.cuisine, draft.veg);
    (items + [item], item)
  }

  /** An unknown id leaves the menu unchanged. */
  lemma UnknownMenuItemIsNoOp(items: seq<MenuItem>, menuItemId: string, isAvailable: bool)
    requires menuItemId !in MenuIds(items)
    ensures UpdateMenuItemAvailability(items, menuItemId, isAvailable) == items
  {
    var r := UpdateMenuItemAvailability(items, menuItemId, isAvailable);
    forall i | 0 <= i < |items|
      ensures r[i] == items[i]
    {
      assert MenuIds(items)[i] == items[i].id;
    }
  }

  /** Only the last flag written matters: setting v, then not v, then v is the
      same as setting v once, and in particular setting a flag twice is the same
      as setting it once. */
  lemma LastAvailabilityWins(items: seq<MenuItem>, menuItemId: string, a: bool, b: bool)
    ensures UpdateMenuItemAvailability(UpdateMenuItemAvailability(items, menuItemId, a), menuItemId, b)
         == UpdateMenuItemAvailability(items, menuItemId, b)
  {
    var once := UpdateMenuItemAvailability(items, menuItemId, b);
    var twice := UpdateMenuItemAvailability(UpdateMenuItemAvailability(items, menuItemId, a), menuItemId, b);
    forall i | 0 <= i < |items|
      ensures twice[i] == once[i]
    {
    }
  }

  lemma AvailabilityRoundTrip(items: seq<MenuItem>, menuItemId: string, v: bool)
    ensures UpdateMenuItemAvailability(UpdateMenuItemAvailability(
              UpdateMenuItemAvailability(items, menuItemId, v), menuItemId, !v), menuItemId, v)
         == UpdateMenuItemAvailability(items, menuItemId, v)
  {
    LastAvailabilityWins(items, menuItemId, v, !v);
    LastAvailabilityWins(UpdateMenuItemAvailability(items, menuItemId, v), menuItemId, !v, v);
  }

  /** Adding to a sequentially numbered menu uses a fresh id and keeps the
      numbering sequential. */
  lemma AddMenuItemFresh(items: seq<MenuItem>, draft: MenuItemDraft)
    requires Ids.SequentialIds("item", MenuIds(items))
    ensures AddMenuItem(items, draft).1.id !in MenuIds(items)
    ensures Ids.SequentialIds("item", MenuIds(AddMenuItem(items, draft).0))
  {
    var r := AddMenuItem(items, draft);
    Ids.NextIdFresh("item", MenuIds(items));
    assert MenuIds(r.0) == MenuIds(items) + [r.1.id];
  }
}
