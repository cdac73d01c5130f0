/** The grocery inventory provider: add, delete, stock and availability
    updates over its own list, plus a collision-free id for additions. */
module GroceryInventory {
  import opened Wrappers
  import opened Domain
  import Ids

  function GroceryIds(items: seq<GroceryItem>): (ids: seq<string>)
    ensures |ids| == |items| && forall i :: 0 <= i < |items| ==> ids[i] == items[i].id
  {
    seq(|items|, i requires 0 <= i < |items| => items[i].id)
  }

  /** The five items the inventory starts with. */
  function InitialGroceryItems(): seq<GroceryItem>
  {
    [ GroceryItem("groc001", "Fresh Milk", "Dairy", 3.99, "gallon", 24, true, None, None),
      GroceryItem("groc002", "Organic Eggs", "Dairy", 5.49, "dozen", 36, true, None, None),
      GroceryItem("groc003", "Whole Wheat Bread", "Bakery", 2.99, "loaf", 18, true, None, None),
      GroceryItem("groc004", "Ripe Bananas", "Produce", 0.79, "lb", 40, true, None, None),
      GroceryItem("groc005", "Chicken Breast", "Meat", 8.99, "lb", 15, true, None, None) ]
  }

  /** The fields a caller supplies (everything but id and image). */
  datatype GroceryDraft = GroceryDraft(
    name: string,
    category: string,
    price: real,
    unit: string,
    stock: int,
    isAvailable: bool,
    expiryDate: Option<string>)

  function FromDraft(id: string, d: GroceryDraft): GroceryItem
  {
    GroceryItem(id, d.name, d.category, d.price, d.unit, d.stock, d.isAvailable, None, d.expiryDate)
  }

  /** `addGroceryItem` as the provider writes it: the id is derived from the
      current length. */
  function AddGroceryItem(items: seq<GroceryItem>, draft: GroceryDraft): (r: (seq<GroceryItem>, GroceryItem))
    ensures r.0 == items + [r.1]
    ensures r.1.id == Ids.NextId("groc", |items|)
    ensures r.1 == FromDraft(r.1.id, draft) && r.1.isAvailable == draft.isAvailable
  {
    var item := FromDraft(Ids.NextId("groc", |items|), draft);
    (items + [item], item)
  }

  /** `items.filter(item => item.id !== id)`. */
  function RemoveId(items: seq<GroceryItem>, id: string): (r: seq<GroceryItem>)
    ensures |r| <= |items|
    ensures forall i :: 0 <= i < |r| ==> r[i].id != id && r[i] in items
  {
    if |items| == 0 then []
    else if items[|items| - 1].id == id then RemoveId(items[..|items| - 1], id)
    else RemoveId(items[..|items| - 1], id) + [items[|items| - 1]]
  }

  /** Filtering distributes over concatenation, so the kept items stay in
      their original order. */
  lemma {:induction false} RemoveIdAppend(a: seq<GroceryItem>, b: seq<GroceryItem>, id: string)
    ensures RemoveId(a + b, id) == RemoveId(a, id) + RemoveId(b, id)
  {
    if |b| == 0 {
      assert a + b == a;
    } else {
      var ab := a + b;
      assert ab[..|ab| - 1] == a + b[..|b| - 1];
      RemoveIdAppend(a, b[..|b| - 1], id);
    }
  }

  /** Every item with another id survives the filter. */
  lemma {:induction false} RemoveIdKeepsOthers(items: seq<GroceryItem>, id: string, x: GroceryItem)
    requires x in items && x.id != id
    ensures x in RemoveId(items, id)
  {
    var last := items[|items| - 1];
    if x != last {
      assert x in items[..|items| - 1];
      RemoveIdKeepsOthers(items[..|items| - 1], id, x);
    }
  }

  /** Filtering a list that does not contain the id keeps it whole. */
  lemma {:induction false} RemoveAbsentId(items: seq<GroceryItem>, id: string)
    requires id !in GroceryIds(items)
    ensures RemoveId(items, id) == items
  {
    if |items| > 0 {
      var init, last := items[..|items| - 1], items[|items| - 1];
      assert items == init + [last];
      assert last.id != id by {
        assert GroceryIds(items)[|items| - 1] == last.id;
      }
      assert id !in GroceryIds(init) by {
        forall j | 0 <= j < |init|
          ensures GroceryIds(init)[j] != id
        {
          assert GroceryIds(init)[j] == GroceryIds(items)[j];
        }
      }
      RemoveAbsentId(init, id);
    }
  }

  /** `deleteGroceryItem`: reports false and changes nothing when the id is
      absent; otherwise removes every item with that id and reports true. */
  function DeleteGroceryItem(items: seq<GroceryItem>, id: string): (r: (seq<GroceryItem>, bool))
    ensures r.1 <==> id in GroceryIds(items)
    ensures !r.1 ==> r.0 == items
    ensures r.1 ==> forall i :: 0 <= i < |r.0| ==> r.0[i].id != id && r.0[i] in items
    ensures r.1 ==> forall x :: x in items && x.id != id ==> x in r.0
  {
    if id in GroceryIds(items) then
      var r := RemoveId(items, id);
      assert forall x :: x in items && x.id != id ==> x in r by {
        forall x | x in items && x.id != id ensures x in r {
          RemoveIdKeepsOthers(items, id, x);
        }
      }
      (r, true)
    else (items, false)
  }

  /** Sets the stock of every matching item; its availability flag is kept. */
  function UpdateGroceryItemStock(items: seq<GroceryItem>, id: string, stock: int): (r: seq<GroceryItem>)
    ensures |r| == |items|
    ensures forall i :: 0 <= i < |r| && items[i].id != id ==> r[i] == items[i]
    ensures forall i :: 0 <= i < |r| && items[i].id == id ==>
      r[i].stock == stock && r[i].isAvailable == items[i].isAvailable && r[i] == items[i].(stock := r[i].stock)
  {
    seq(|items|, i requires 0 <= i < |items| => if items[i].id == id then items[i].(stock := stock) else items[i])
  }

  /** Sets the availability flag of every matching item. */
  function UpdateGroceryItemAvailability(items: seq<GroceryItem>, id: string, isAvailable: bool): (r: seq<GroceryItem>)
    ensures |r| == |items|
    ensures forall i :: 0 <= i < |r| && items[i].id != id ==> r[i] == items[i]
    ensures forall i :: 0 <= i < |r| && items[i].id == id ==>
      r[i].isAvailable == isAvailable && r[i] == items[i].(isAvailable := r[i].isAvailable)
  {
    seq(|items|, i requires 0 <= i < |items| => if items[i].id == id then items[i].(isAvailable := isAvailable) else items[i])
  }

  /** The initial inventory is numbered groc001..groc005 and every item is
      available with stock on hand. */
  lemma InitialInventoryStocked()
    ensures |InitialGroceryItems()| == 5
    ensures Ids.SequentialIds("groc", GroceryIds(InitialGroceryItems()))
    ensures forall i :: 0 <= i < 5 ==> InitialGroceryItems()[i].isAvailable && InitialGroceryItems()[i].stock > 0
  {
    var ids := GroceryIds(InitialGroceryItems());
    forall i | 0 <= i < 5
      ensures ids[i] == Ids.MakeId("groc", i + 1)
    {
      Ids.Pad3Digits(i + 1);
    }
  }

  /** No item after the first has id groc001. */
  lemma FirstIdUnique()
    ensures "groc001" !in GroceryIds(InitialGroceryItems()[1..])
  {
    var rest := InitialGroceryItems()[1..];
    forall i | 0 <= i < 4
      ensures GroceryIds(rest)[i] != "groc001"
    {
      assert GroceryIds(rest)[i] == rest[i].id;
    }
  }

  /** Deleting groc001 from the initial inventory leaves the other four in order. */
  lemma DeleteFirstInitialItem()
    ensures DeleteGroceryItem(InitialGroceryItems(), "groc001") == (InitialGroceryItems()[1..], true)
  {
    var init := InitialGroceryItems();
    assert GroceryIds(init)[0] == "groc001";
    assert init == [init[0]] + init[1..];
    RemoveIdAppend([init[0]], init[1..], "groc001");
    assert RemoveId([init[0]], "groc001") == [] by {
      assert [init[0]][..0] == [];
    }
    FirstIdUnique();
    RemoveAbsentId(init[1..], "groc001");
    assert RemoveId(init, "groc001") == init[1..];
  }

  /** The length-derived id reuses a live id once an item other than the last
      has been deleted: after removing groc001 from the initial inventory the
      next item is numbered groc005, which Chicken Breast already holds. */
  lemma DeleteThenAddReusesId(draft: GroceryDraft)
    ensures var (afterDelete, deleted) := DeleteGroceryItem(InitialGroceryItems(), "groc001");
            var (afterAdd, added) := AddGroceryItem(afterDelete, draft);
            && deleted
            && added.id == "groc005"
            && afterAdd[|afterAdd| - 2].id == added.id
  {
    var init := InitialGroceryItems();
    DeleteFirstInitialItem();
    var afterDelete := init[1..];
    assert |afterDelete| == 4;
    var (afterAdd, added) := AddGroceryItem(afterDelete, draft);
    FifthGroceryId();
    assert added.id == "groc005";
    assert afterAdd[|afterAdd| - 2] == afterDelete[3] == init[4];
  }

  /** The id given to an item added to a list of four. */
  lemma FifthGroceryId()
    ensures Ids.NextId("groc", 4) == "groc005"
  {
    Ids.Pad3Digits(5);
    assert 5 / 100 == 0 && 5 / 10 % 10 == 0 && 5 % 10 == 5;
    assert Ids.Pad3(5) == "005";
  }

  /** The largest sequence number among the ids of shape `groc` + digits, or
      zero when there is none. */
  function MaxSeq(items: seq<GroceryItem>): (r: nat)
    ensures forall i :: 0 <= i < |items| && Ids.SeqOf("groc", items[i].id).Some? ==>
      Ids.SeqOf("groc", items[i].id).value <= r
    ensures r == 0 || exists i :: 0 <= i < |items| && Ids.SeqOf("groc", items[i].id) == Some(r)
  {
    if |items| == 0 then 0
    else
      var rest := MaxSeq(items[..|items| - 1]);
      match Ids.SeqOf("groc", items[|items| - 1].id)
      case Some(k) => if k > rest then k else rest
      case None => rest
  }

  /** A new grocery id one past the largest number in use. */
  function FreshGroceryId(items: seq<GroceryItem>): (id: string)
    ensures id !in GroceryIds(items)
  {
    var id := Ids.MakeId("groc", MaxSeq(items) + 1);
    Ids.SeqOfMakeId("groc", MaxSeq(items) + 1);
    assert forall i :: 0 <= i < |items| ==> items[i].id != id;
    id
  }

  /** `addGroceryItem` with a collision-free id. */
  function AddGroceryItemFresh(items: seq<GroceryItem>, draft: GroceryDraft): (r: (seq<GroceryItem>, GroceryItem))
    ensures r.0 == items + [r.1]
    ensures r.1.id !in GroceryIds(items)
    ensures r.1 == FromDraft(r.1.id, draft)
  {
    var item := FromDraft(FreshGroceryId(items), draft);
    (items + [item], item)
  }

  /** Until something is deleted the fresh id is exactly the length-derived id
      the provider assigns. */
  lemma FreshIdAgreesOnSequentialLists(items: seq<GroceryItem>)
    requires Ids.SequentialIds("groc", GroceryIds(items))
    ensures FreshGroceryId(items) == Ids.NextId("groc", |items|)
  {
    var m := MaxSeq(items);
    forall i | 0 <= i < |items|
      ensures Ids.SeqOf("groc", items[i].id) == Some(i + 1)
    {
      assert GroceryIds(items)[i] == items[i].id;
      Ids.SeqOfMakeId("groc", i + 1);
    }
    if m != 0 {
      var i :| 0 <= i < |items| && Ids.SeqOf("groc", items[i].id) == Some(m);
      assert m <= |items|;
    }
    if |items| > 0 {
      assert Ids.SeqOf("groc", items[|items| - 1].id) == Some(|items|);
      assert |items| <= m;
    }
    assert m == |items|;
  }

  /** After the deletion that breaks the provider, the fresh id is new. */
  lemma DeleteThenAddFreshIsNew(draft: GroceryDraft)
    ensures var (afterDelete, _) := DeleteGroceryItem(InitialGroceryItems(), "groc001");
            var (afterAdd, added) := AddGroceryItemFresh(afterDelete, draft);
            added.id !in GroceryIds(afterDelete) && |afterAdd| == 5
  {
    DeleteFirstInitialItem();
  }
}
