/** The shopping cart: a list of (dish, quantity) lines, one line per dish id, in the order
    the dishes were first added. */
module CartStore {
  import opened Types

  /** The first line for the dish id, or -1 (`items.find(item => item.dish.id === id)`). */
  function LineIndex(items: seq<CartItem>, id: string): (k: int)
    ensures -1 <= k < |items|
    ensures k == -1 <==> forall j :: 0 <= j < |items| ==> items[j].dish.id != id
    ensures k >= 0 ==> items[k].dish.id == id && forall j :: 0 <= j < k ==> items[j].dish.id != id
  {
    if items == [] then -1
    else if items[0].dish.id == id then 0
    else var k := LineIndex(items[1..], id); if k == -1 then -1 else k + 1
  }

  /** Every line with the dish id has its quantity changed by `delta`. */
  function Bumped(items: seq<CartItem>, id: string, delta: int): (r: seq<CartItem>)
    ensures |r| == |items|
    ensures forall j :: 0 <= j < |items| ==>
      r[j] == if items[j].dish.id == id then items[j].(quantity := items[j].quantity + delta) else items[j]
  {
    seq(|items|, j requires 0 <= j < |items| =>
      if items[j].dish.id == id then items[j].(quantity := items[j].quantity + delta) else items[j])
  }

  /** Every line with the dish id has its quantity set to `q`. */
  function WithQuantity(items: seq<CartItem>, id: string, q: int): (r: seq<CartItem>)
    ensures |r| == |items|
    ensures forall j :: 0 <= j < |items| ==>
      r[j] == if items[j].dish.id == id then items[j].(quantity := q) else items[j]
  {
    seq(|items|, j requires 0 <= j < |items| => if items[j].dish.id == id then items[j].(quantity := q) else items[j])
  }

  /** `items.filter(item => item.dish.id !== id)`. */
  function Dropped(items: seq<CartItem>, id: string): (r: seq<CartItem>)
    ensures |r| <= |items|
    ensures forall j :: 0 <= j < |r| ==> r[j].dish.id != id
  {
    if items == [] then []
    else (if items[0].dish.id == id then [] else [items[0]]) + Dropped(items[1..], id)
  }

  /** The cart after `addItem(dish)`. */
  function Added(items: seq<CartItem>, dish: Dish): seq<CartItem> {
    if LineIndex(items, dish.id) >= 0 then Bumped(items, dish.id, 1) else items + [CartItem(dish, 1)]
  }

  /** The cart after `removeItem(id)`: one fewer when the first line for the dish holds more
      than one, otherwise no line for the dish at all. */
  function Removed(items: seq<CartItem>, id: string): seq<CartItem> {
    var k := LineIndex(items, id);
    if k >= 0 && items[k].quantity > 1 then Bumped(items, id, -1) else Dropped(items, id)
  }

  /** The cart after `updateQuantity(id, q)`. */
  function Requantified(items: seq<CartItem>, id: string, q: int): seq<CartItem> {
    if q <= 0 then Dropped(items, id) else WithQuantity(items, id, q)
  }

  /** `getTotalCount`: the sum of the quantities. */
  function Total(items: seq<CartItem>): int {
    if items == [] then 0 else items[0].quantity + Total(items[1..])
  }

  /** The invariant the cart keeps: each quantity at least 1, at most one line per dish id. */
  predicate Valid(items: seq<CartItem>) {
    && (forall j :: 0 <= j < |items| ==> items[j].quantity >= 1)
    && (forall j, h :: 0 <= j < h < |items| ==> items[j].dish.id != items[h].dish.id)
  }

  // ---------------------------------------------------------------------------------------
  // What the operations do to a valid cart

  /** Adding a dish not in the cart appends a line with quantity 1. */
  lemma AddNew(items: seq<CartItem>, dish: Dish)
    requires LineIndex(items, dish.id) == -1
    ensures Added(items, dish) == items + [CartItem(dish, 1)]
  {
  }

  /** Adding a dish already in a valid cart raises only its line's quantity, by one; order
      and length are kept. */
  lemma AddPresent(items: seq<CartItem>, dish: Dish, k: nat)
    requires Valid(items) && k < |items| && items[k].dish.id == dish.id
    ensures Added(items, dish) == items[k := items[k].(quantity := items[k].quantity + 1)]
  {
    assert LineIndex(items, dish.id) >= 0;
  }

  /** Removing from a line holding more than one lowers only that line, by one. */
  lemma RemoveDecrements(items: seq<CartItem>, k: nat)
    requires Valid(items) && k < |items| && items[k].quantity > 1
    ensures Removed(items, items[k].dish.id) == items[k := items[k].(quantity := items[k].quantity - 1)]
  {
    assert LineIndex(items, items[k].dish.id) == k;
  }

  /** Removing from a line holding one deletes the line. */
  lemma RemoveDeletes(items: seq<CartItem>, k: nat)
    requires Valid(items) && k < |items| && items[k].quantity == 1
    ensures Removed(items, items[k].dish.id) == items[..k] + items[k + 1..]
  {
    assert LineIndex(items, items[k].dish.id) == k;
    DroppedSingle(items, k);
  }

  /** Removing or re-quantifying a dish that is not in the cart leaves the cart as it is. */
  lemma AbsentUnchanged(items: seq<CartItem>, id: string, q: int)
    requires LineIndex(items, id) == -1
    ensures Removed(items, id) == items
    ensures Requantified(items, id, q) == items
  {
    var r := WithQuantity(items, id, q);
    assert q > 0 ==> r == items;
    DroppedAbsent(items, id);
  }

  /** Filtering out an id no line has changes nothing. */
  lemma {:induction false} DroppedAbsent(items: seq<CartItem>, id: string)
    requires forall j :: 0 <= j < |items| ==> items[j].dish.id != id
    ensures Dropped(items, id) == items
  {
    if items != [] {
      DroppedAbsent(items[1..], id);
      assert [items[0]] + items[1..] == items;
    }
  }

  /** `updateQuantity` with a positive quantity sets that dish's line, with a non-positive one
      deletes it. */
  lemma RequantifyPresent(items: seq<CartItem>, k: nat, q: int)
    requires Valid(items) && k < |items|
    ensures q > 0 ==> Requantified(items, items[k].dish.id, q) == items[k := items[k].(quantity := q)]
    ensures q <= 0 ==> Requantified(items, items[k].dish.id, q) == items[..k] + items[k + 1..]
  {
    if q <= 0 {
      DroppedSingle(items, k);
    }
  }

  lemma {:induction false} DroppedSingle(items: seq<CartItem>, k: nat)
    requires k < |items|
    requires forall j :: 0 <= j < |items| && j != k ==> items[j].dish.id != items[k].dish.id
    ensures Dropped(items, items[k].dish.id) == items[..k] + items[k + 1..]
  {
    var id := items[k].dish.id;
    var tail := items[1..];
    if k == 0 {
      DroppedAbsent(tail, id);
      assert items[..0] + items[1..] == tail;
    } else {
      assert items[0].dish.id != id;
      assert tail[k - 1] == items[k];
      forall j | 0 <= j < |tail| && j != k - 1 ensures tail[j].dish.id != id {
        assert tail[j] == items[j + 1];
      }
      DroppedSingle(tail, k - 1);
      assert Dropped(items, id) == [items[0]] + Dropped(tail, id);
      assert items[..k] == [items[0]] + tail[..k - 1];
      assert items[k + 1..] == tail[k..];
      assert [items[0]] + (tail[..k - 1] + tail[k..]) == items[..k] + items[k + 1..];
    }
  }

  lemma {:induction false} DroppedKeeps(items: seq<CartItem>, id: string, x: CartItem)
    ensures x in Dropped(items, id) <==> x in items && x.dish.id != id
  {
    if items != [] {
      DroppedKeeps(items[1..], id, x);
      assert x in items <==> x == items[0] || x in items[1..];
    }
  }

  /** The filter keeps the relative order of the remaining lines, so distinct ids stay distinct. */
  lemma {:induction false} DroppedValid(items: seq<CartItem>, id: string)
    requires Valid(items)
    ensures Valid(Dropped(items, id))
  {
    if items != [] {
      DroppedValid(items[1..], id);
      var rest := Dropped(items[1..], id);
      forall h | 0 <= h < |rest| ensures rest[h].dish.id != items[0].dish.id {
        DroppedKeeps(items[1..], id, rest[h]);
        var g :| 0 <= g < |items[1..]| && items[1..][g] == rest[h];
        assert items[g + 1] == rest[h];
      }
    }
  }

  /** addItem keeps the cart valid. */
  lemma AddKeepsValid(items: seq<CartItem>, dish: Dish)
    requires Valid(items)
    ensures Valid(Added(items, dish))
  {
    var r := Added(items, dish);
    if LineIndex(items, dish.id) >= 0 {
      assert forall j :: 0 <= j < |items| ==> r[j].dish == items[j].dish;
    } else {
      assert forall j :: 0 <= j < |items| ==> r[j] == items[j];
    }
  }

  /** removeItem keeps the cart valid. */
  lemma RemoveKeepsValid(items: seq<CartItem>, id: string)
    requires Valid(items)
    ensures Valid(Removed(items, id))
  {
    var k := LineIndex(items, id);
    if k >= 0 && items[k].quantity > 1 {
      var r := Bumped(items, id, -1);
      assert forall j :: 0 <= j < |items| ==> r[j].dish == items[j].dish;
    } else {
      DroppedValid(items, id);
    }
  }

  /** updateQuantity keeps the cart valid. */
  lemma RequantifyKeepsValid(items: seq<CartItem>, id: string, q: int)
    requires Valid(items)
    ensures Valid(Requantified(items, id, q))
  {
    if q <= 0 {
      DroppedValid(items, id);
    } else {
      var r := WithQuantity(items, id, q);
      assert forall j :: 0 <= j < |items| ==> r[j].dish == items[j].dish;
    }
  }

  // ---------------------------------------------------------------------------------------
  // The total count

  lemma {:induction false} TotalAppend(items: seq<CartItem>, x: CartItem)
    ensures Total(items + [x]) == Total(items) + x.quantity
  {
    if items != [] {
      assert (items + [x])[1..] == items[1..] + [x];
      TotalAppend(items[1..], x);
    }
  }

  lemma {:induction false} TotalUpdate(items: seq<CartItem>, k: nat, x: CartItem)
    requires k < |items|
    ensures Total(items[k := x]) == Total(items) - items[k].quantity + x.quantity
  {
    if k > 0 {
      assert items[k := x][1..] == items[1..][k - 1 := x];
      TotalUpdate(items[1..], k - 1, x);
    }
  }

  lemma {:induction false} TotalRemove(items: seq<CartItem>, k: nat)
    requires k < |items|
    ensures Total(items[..k] + items[k + 1..]) == Total(items) - items[k].quantity
  {
    if k == 0 {
      assert items[..0] + items[1..] == items[1..];
    } else {
      TotalRemove(items[1..], k - 1);
      assert items[..k] + items[k + 1..] == [items[0]] + (items[1..][..k - 1] + items[1..][k..]);
    }
  }

  /** addItem raises the total count by exactly one. */
  lemma AddRaisesTotal(items: seq<CartItem>, dish: Dish)
    requires Valid(items)
    ensures Total(Added(items, dish)) == Total(items) + 1
  {
    var k := LineIndex(items, dish.id);
    if k >= 0 {
      AddPresent(items, dish, k);
      TotalUpdate(items, k, items[k].(quantity := items[k].quantity + 1));
    } else {
      TotalAppend(items, CartItem(dish, 1));
    }
  }

  /** removeItem of a dish in the cart lowers the total count by exactly one. */
  lemma RemoveLowersTotal(items: seq<CartItem>, id: string)
    requires Valid(items) && LineIndex(items, id) >= 0
    ensures Total(Removed(items, id)) == Total(items) - 1
  {
    var k := LineIndex(items, id);
    if items[k].quantity > 1 {
      RemoveDecrements(items, k);
      TotalUpdate(items, k, items[k].(quantity := items[k].quantity - 1));
    } else {
      RemoveDeletes(items, k);
      TotalRemove(items, k);
    }
  }

  /** addItem followed by removeItem of the same dish gives back the cart. */
  lemma AddThenRemove(items: seq<CartItem>, dish: Dish)
    requires Valid(items)
    ensures Removed(Added(items, dish), dish.id) == items
  {
    var k := LineIndex(items, dish.id);
    var added := Added(items, dish);
    if k >= 0 {
      AddPresent(items, dish, k);
      AddKeepsValid(items, dish);
      RemoveDecrements(added, k);
      assert added[k := added[k].(quantity := added[k].quantity - 1)] == items;
    } else {
      AddKeepsValid(items, dish);
      RemoveDeletes(added, |items|);
      assert added[..|items|] == items;
    }
  }

  class CartStore {
    var items: seq<CartItem>

    constructor()
      ensures items == []
    {
      items := [];
    }

    /** `addItem`. */
    method AddItem(dish: Dish)
      modifies this
      ensures items == Added(old(items), dish)
    {
      items := Added(items, dish);
    }

    /** `removeItem`. */
    method RemoveItem(id: string)
      modifies this
      ensures items == Removed(old(items), id)
    {
      items := Removed(items, id);
    }

    /** `updateQuantity`. */
    method UpdateQuantity(id: string, q: int)
      modifies this
      ensures items == Requantified(old(items), id, q)
    {
      items := Requantified(items, id, q);
    }

    /** `clearCart`. */
    method ClearCart()
      modifies this
      ensures items == [] && Total(items) == 0
    {
      items := [];
    }

    /** `getTotalCount`. */
    function GetTotalCount(): int
      reads this
    {
      Total(items)
    }
  }
}
