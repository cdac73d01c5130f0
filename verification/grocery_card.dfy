/** What a grocery card offers an admin: one-step stock buttons clamped at
    zero, an availability flip, and delete. Others get no controls. */
module GroceryCardView {
  import opened Domain
  import GroceryInventory

  datatype CardAction = StepStock(amount: int) | FlipAvailability | Delete

  /** `handleStockChange`: the stock requested is the current stock plus the
      step, clamped below at zero. */
  function RequestedStock(item: GroceryItem, amount: int): (s: int)
    ensures s >= 0
    ensures item.stock + amount >= 0 ==> s == item.stock + amount
    ensures item.stock + amount < 0 ==> s == 0
  {
    if item.stock + amount > 0 then item.stock + amount else 0
  }

  /** The enabled controls: for an admin, minus (only while stock is
      positive), plus, the availability flip and delete; nothing otherwise. */
  function OfferedActions(item: GroceryItem, isAdmin: bool): (r: seq<CardAction>)
    ensures !isAdmin ==> r == []
    ensures isAdmin ==> StepStock(1) in r && FlipAvailability in r && Delete in r
    ensures StepStock(-1) in r <==> isAdmin && item.stock > 0
    ensures forall a :: a in r && a.StepStock? ==> a.amount == 1 || a.amount == -1
  {
    if !isAdmin then []
    else (if item.stock > 0 then [StepStock(-1)] else []) + [StepStock(1), FlipAvailability, Delete]
  }

  /** The provider call a control makes for the card of `item`. */
  function ApplyCardAction(items: seq<GroceryItem>, item: GroceryItem, a: CardAction): (r: seq<GroceryItem>)
    ensures !a.Delete? ==> |r| == |items| && forall i :: 0 <= i < |r| && items[i].id != item.id ==> r[i] == items[i]
    ensures a.StepStock? ==> forall i :: 0 <= i < |r| && items[i].id == item.id ==>
      r[i] == items[i].(stock := RequestedStock(item, a.amount))
    ensures a.FlipAvailability? ==> forall i :: 0 <= i < |r| && items[i].id == item.id ==>
      r[i] == items[i].(isAvailable := !item.isAvailable)
    ensures a.Delete? ==> (forall x :: x in r <==> x in items && x.id != item.id)
  {
    match a
    case StepStock(amount) => GroceryInventory.UpdateGroceryItemStock(items, item.id, RequestedStock(item, amount))
    case FlipAvailability => GroceryInventory.UpdateGroceryItemAvailability(items, item.id, !item.isAvailable)
    case Delete => GroceryInventory.DeleteGroceryItem(items, item.id).0
  }

  /** When the minus button is enabled the clamp never bites: it asks for one
      less. */
  lemma EnabledDecrementIsExact(item: GroceryItem, isAdmin: bool)
    requires StepStock(-1) in OfferedActions(item, isAdmin)
    ensures RequestedStock(item, -1) == item.stock - 1
  {
  }

  predicate StockNonNegative(items: seq<GroceryItem>)
  {
    forall i :: 0 <= i < |items| ==> items[i].stock >= 0
  }

  /** Clicking control `a` on card `k`; a control that is not enabled does nothing. */
  function Click(items: seq<GroceryItem>, k: nat, a: CardAction, isAdmin: bool): (r: seq<GroceryItem>)
    ensures !isAdmin ==> r == items
    ensures k < |items| && items[k].stock <= 0 && a == StepStock(-1) ==> r == items
    ensures a.StepStock? && a.amount != 1 && a.amount != -1 ==> r == items
  {
    if k < |items| && a in OfferedActions(items[k], isAdmin) then ApplyCardAction(items, items[k], a) else items
  }

  predicate UniqueGroceryIds(items: seq<GroceryItem>)
  {
    forall i, j :: 0 <= i < j < |items| ==> items[i].id != items[j].id
  }

  /** With unique ids each admin control does what its label says to card
      `k` and to no other card: plus adds one to a non-negative stock, the flip negates
      the flag, delete drops the item and keeps every other one. */
  lemma AdminControlsOnCard(items: seq<GroceryItem>, k: nat)
    requires k < |items| && UniqueGroceryIds(items)
    ensures var r := Click(items, k, StepStock(1), true);
            && |r| == |items| && r[k] == items[k].(stock := RequestedStock(items[k], 1))
            && (items[k].stock >= 0 ==> r[k].stock == items[k].stock + 1)
            && (forall i :: 0 <= i < |items| && i != k ==> r[i] == items[i])
    ensures var r := Click(items, k, FlipAvailability, true);
            && |r| == |items| && r[k] == items[k].(isAvailable := !items[k].isAvailable)
            && (forall i :: 0 <= i < |items| && i != k ==> r[i] == items[i])
    ensures var r := Click(items, k, Delete, true);
            && items[k] !in r
            && (forall i :: 0 <= i < |items| && i != k ==> items[i] in r)
  {
  }

  /** Flipping the same card twice restores the list. */
  lemma FlipTwiceRestores(items: seq<GroceryItem>, k: nat)
    requires k < |items| && UniqueGroceryIds(items)
    ensures Click(Click(items, k, FlipAvailability, true), k, FlipAvailability, true) == items
  {
  }

  /** Every card control keeps all stocks non-negative. */
  lemma ClickKeepsStock(items: seq<GroceryItem>, k: nat, a: CardAction, isAdmin: bool)
    requires StockNonNegative(items)
    ensures StockNonNegative(Click(items, k, a, isAdmin))
  {
    if k < |items| && a in OfferedActions(items[k], isAdmin) && a.Delete? {
      var r := Click(items, k, a, isAdmin);
      forall i | 0 <= i < |r|
        ensures r[i].stock >= 0
      {
        var j :| 0 <= j < |items| && items[j] == r[i];
      }
    }
  }

  /** A sequence of clicks, each on the list the previous one left. */
  function RunClicks(items: seq<GroceryItem>, clicks: seq<(nat, CardAction)>, isAdmin: bool): seq<GroceryItem>
    decreases |clicks|
  {
    if |clicks| == 0 then items
    else RunClicks(Click(items, clicks[0].0, clicks[0].1, isAdmin), clicks[1..], isAdmin)
  }

  /** However the cards are used, no stock goes negative. */
  lemma {:induction false} RunClicksKeepStock(items: seq<GroceryItem>, clicks: seq<(nat, CardAction)>, isAdmin: bool)
    requires StockNonNegative(items)
    ensures StockNonNegative(RunClicks(items, clicks, isAdmin))
    decreases |clicks|
  {
    if |clicks| > 0 {
      ClickKeepsStock(items, clicks[0].0, clicks[0].1, isAdmin);
      RunClicksKeepStock(Click(items, clicks[0].0, clicks[0].1, isAdmin), clicks[1..], isAdmin);
    }
  }
}
