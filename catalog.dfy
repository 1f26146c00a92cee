/** The catalog: the ordered list of categories and the pure operations on it that the menu
    store (src/store/menuStore.ts) applies inside its `set` callbacks, and the lookups it and
    the bundled menu (src/data/menu.ts) answer. */
module Catalog {
  import opened Types

  /** `Partial<Dish>`: a field is `None` when the key is absent. `tags` has one more level,
      because the dish editor passes `tags: undefined` explicitly: `Some(None)` is a key that is
      present with value `undefined`, which a spread copies over the old value. */
  datatype DishPatch = DishPatch(
    id: Option<string>,
    name: Option<string>,
    description: Option<string>,
    image: Option<string>,
    category: Option<string>,
    tags: Option<Option<seq<string>>>)

  /** `Partial<Category>`. */
  datatype CategoryPatch = CategoryPatch(
    id: Option<string>,
    name: Option<string>,
    icon: Option<string>,
    dishes: Option<seq<Dish>>)

  function Pick<T>(field: Option<T>, current: T): T {
    if field.Some? then field.value else current
  }

  /** `{ ...dish, ...patch }`. */
  function MergeDish(d: Dish, p: DishPatch): Dish {
    Dish(Pick(p.id, d.id), Pick(p.name, d.name), Pick(p.description, d.description),
         Pick(p.image, d.image), Pick(p.category, d.category), Pick(p.tags, d.tags))
  }

  /** `{ ...category, ...patch }`. */
  function MergeCategory(c: Category, p: CategoryPatch): Category {
    Category(Pick(p.id, c.id), Pick(p.name, c.name), Pick(p.icon, c.icon), Pick(p.dishes, c.dishes))
  }

  /** `updatedDish.category && ...`: a patch re-parents the dish only when it carries a
      non-empty category id (the empty string is falsy). */
  predicate Moves(p: DishPatch) {
    p.category.Some? && p.category.value != ""
  }

  /** `dishes.findIndex(d => d.id === id)`: the first position holding that id, or -1. */
  function DishIndex(ds: seq<Dish>, id: string): (k: int)
    ensures -1 <= k < |ds|
    ensures k == -1 <==> forall j :: 0 <= j < |ds| ==> ds[j].id != id
    ensures k >= 0 ==> ds[k].id == id && forall j :: 0 <= j < k ==> ds[j].id != id
  {
    if ds == [] then -1
    else if ds[0].id == id then 0
    else
      var k := DishIndex(ds[1..], id);
      if k == -1 then -1 else k + 1
  }

  /** `categories.findIndex(c => c.id === id)`. */
  function CategoryIndex(cats: seq<Category>, id: string): (k: int)
    ensures -1 <= k < |cats|
    ensures k == -1 <==> forall i :: 0 <= i < |cats| ==> cats[i].id != id
    ensures k >= 0 ==> cats[k].id == id && forall i :: 0 <= i < k ==> cats[i].id != id
  {
    if cats == [] then -1
    else if cats[0].id == id then 0
    else
      var k := CategoryIndex(cats[1..], id);
      if k == -1 then -1 else k + 1
  }

  predicate HasDish(c: Category, id: string) {
    DishIndex(c.dishes, id) >= 0
  }

  /** The first category, in display order, that holds a dish with this id, or -1. */
  function HolderIndex(cats: seq<Category>, id: string): (k: int)
    ensures -1 <= k < |cats|
    ensures k == -1 <==> forall i :: 0 <= i < |cats| ==> !HasDish(cats[i], id)
    ensures k >= 0 ==> HasDish(cats[k], id) && forall i :: 0 <= i < k ==> !HasDish(cats[i], id)
  {
    if cats == [] then -1
    else if HasDish(cats[0], id) then 0
    else
      var tail := cats[1..];
      var k := HolderIndex(tail, id);
      assert forall i :: 0 < i < |cats| ==> cats[i] == tail[i - 1];
      if k == -1 then -1 else k + 1
  }

  /** What the scan at the start of `updateDish` finds: the dish and its category's id. */
  datatype Location = Location(dish: Dish, categoryId: string)

  function Locate(cats: seq<Category>, id: string): Option<Location> {
    var k := HolderIndex(cats, id);
    if k == -1 then None else Some(Location(cats[k].dishes[DishIndex(cats[k].dishes, id)], cats[k].id))
  }

  /** `dishes.filter(d => d.id !== id)`. */
  function WithoutDish(ds: seq<Dish>, id: string): (r: seq<Dish>)
    ensures |r| <= |ds|
    ensures forall j :: 0 <= j < |r| ==> r[j].id != id
  {
    if ds == [] then [] else (if ds[0].id == id then [] else [ds[0]]) + WithoutDish(ds[1..], id)
  }

  /** Filtering out an id no dish has changes nothing. */
  lemma {:induction false} WithoutAbsentDish(ds: seq<Dish>, id: string)
    requires forall a :: 0 <= a < |ds| ==> ds[a].id != id
    ensures WithoutDish(ds, id) == ds
  {
    if ds != [] {
      WithoutAbsentDish(ds[1..], id);
      assert [ds[0]] + ds[1..] == ds;
    }
  }

  /** Filtering out an id that occurs at exactly one position removes just that position. */
  lemma {:induction false} WithoutSingleDish(ds: seq<Dish>, id: string, j: nat)
    requires j < |ds| && ds[j].id == id
    requires forall a :: 0 <= a < |ds| && a != j ==> ds[a].id != id
    ensures WithoutDish(ds, id) == ds[..j] + ds[j + 1..]
    decreases j
  {
    var tail := ds[1..];
    if j == 0 {
      WithoutAbsentDish(tail, id);
      assert ds[..0] + ds[1..] == tail;
    } else {
      assert ds[0].id != id;
      forall a | 0 <= a < |tail| && a != j - 1 ensures tail[a].id != id {
        assert tail[a] == ds[a + 1];
      }
      WithoutSingleDish(tail, id, j - 1);
      assert WithoutDish(ds, id) == [ds[0]] + WithoutDish(tail, id);
      assert ds[..j] == [ds[0]] + tail[..j - 1];
      assert ds[j + 1..] == tail[j..];
      assert [ds[0]] + (tail[..j - 1] + tail[j..]) == ds[..j] + ds[j + 1..];
    }
  }

  /** `categories.flatMap(c => c.dishes)`: every dish, category by category. */
  function AllDishes(cats: seq<Category>): seq<Dish> {
    if cats == [] then [] else cats[0].dishes + AllDishes(cats[1..])
  }

  /** A dish is listed by `AllDishes` exactly when some category holds it. */
  lemma {:induction false} AllDishesHolds(cats: seq<Category>, d: Dish)
    ensures d in AllDishes(cats) <==> exists i :: 0 <= i < |cats| && d in cats[i].dishes
  {
    if cats != [] {
      AllDishesHolds(cats[1..], d);
      if d in AllDishes(cats[1..]) {
        var i :| 0 <= i < |cats[1..]| && d in cats[1..][i].dishes;
        assert d in cats[i + 1].dishes;
      }
      if exists i :: 0 <= i < |cats| && d in cats[i].dishes {
        var i :| 0 <= i < |cats| && d in cats[i].dishes;
        if i > 0 { assert d in cats[1..][i - 1].dishes; }
      }
    }
  }

  /** Replacing one category changes the dish count by the difference in its dish lists. */
  lemma {:induction false} AllDishesReplace(cats: seq<Category>, k: nat, c: Category)
    requires k < |cats|
    ensures |AllDishes(cats[k := c])| == |AllDishes(cats)| - |cats[k].dishes| + |c.dishes|
  {
    if k == 0 {
      assert cats[k := c][1..] == cats[1..];
    } else {
      assert cats[k := c][1..] == cats[1..][k - 1 := c];
      AllDishesReplace(cats[1..], k - 1, c);
    }
  }

  lemma {:induction false} AllDishesAppend(cats: seq<Category>, c: Category)
    ensures AllDishes(cats + [c]) == AllDishes(cats) + c.dishes
  {
    if cats == [] {
      assert [c][1..] == [];
    } else {
      assert (cats + [c])[1..] == cats[1..] + [c];
      AllDishesAppend(cats[1..], c);
    }
  }

  /** `categories.find(c => c.id === id)?.dishes || []`. */
  function DishesOf(cats: seq<Category>, id: string): (r: seq<Dish>)
    ensures CategoryIndex(cats, id) == -1 ==> r == []
    ensures CategoryIndex(cats, id) >= 0 ==> r == cats[CategoryIndex(cats, id)].dishes
  {
    var k := CategoryIndex(cats, id);
    if k == -1 then [] else cats[k].dishes
  }

  /** `categories.find(c => c.id === id)`. */
  function CategoryById(cats: seq<Category>, id: string): (r: Option<Category>)
    ensures r.Some? <==> exists i :: 0 <= i < |cats| && cats[i].id == id
    ensures r.Some? ==> r.value in cats && r.value.id == id
    ensures r.Some? ==> exists k :: 0 <= k < |cats| && cats[k] == r.value && forall i :: 0 <= i < k ==> cats[i].id != id
  {
    var k := CategoryIndex(cats, id);
    if k == -1 then None else Some(cats[k])
  }

  /** No two categories share an id. */
  predicate UniqueCategoryIds(cats: seq<Category>) {
    forall i, j :: 0 <= i < j < |cats| ==> cats[i].id != cats[j].id
  }

  /** No two dishes, in the same category or not, share an id. */
  predicate UniqueDishIds(cats: seq<Category>) {
    forall i, j, a, b ::
      (0 <= i < |cats| && 0 <= j < |cats| && 0 <= a < |cats[i].dishes| && 0 <= b < |cats[j].dishes| &&
       cats[i].dishes[a].id == cats[j].dishes[b].id) ==> i == j && a == b
  }

  /** Every dish names the category that holds it. */
  predicate Parented(cats: seq<Category>) {
    forall i, a :: 0 <= i < |cats| && 0 <= a < |cats[i].dishes| ==> cats[i].dishes[a].category == cats[i].id
  }

  // ---------------------------------------------------------------------------------------
  // Dish mutations

  /** The local update of `addDish`: append to the first category whose id is `dish.category`;
      with no such category the catalog is returned as it is. */
  function WithDishAdded(cats: seq<Category>, dish: Dish): (r: seq<Category>)
    ensures |r| == |cats|
    ensures CategoryIndex(cats, dish.category) == -1 ==> r == cats
    ensures CategoryIndex(cats, dish.category) >= 0 ==>
      var k := CategoryIndex(cats, dish.category);
      && r[k].dishes == cats[k].dishes + [dish]
      && r[k].(dishes := cats[k].dishes) == cats[k]
      && forall i :: 0 <= i < |cats| && i != k ==> r[i] == cats[i]
  {
    var k := CategoryIndex(cats, dish.category);
    if k == -1 then cats else cats[k := cats[k].(dishes := cats[k].dishes + [dish])]
  }

  /** Adding a dish to an existing category lists it once more among all dishes. */
  lemma AddDishCount(cats: seq<Category>, dish: Dish)
    ensures |AllDishes(WithDishAdded(cats, dish))| ==
            |AllDishes(cats)| + (if CategoryIndex(cats, dish.category) >= 0 then 1 else 0)
  {
    var k := CategoryIndex(cats, dish.category);
    if k >= 0 {
      AllDishesReplace(cats, k, cats[k].(dishes := cats[k].dishes + [dish]));
    }
  }

  /** The first step of `updateDish`'s local update, applied to each category: a category
      holding the dish either drops every dish with that id (when the patch moves it to another
      category) or has its first such dish replaced by the merged dish. */
  function UpdatedCategory(c: Category, id: string, p: DishPatch): Category {
    var j := DishIndex(c.dishes, id);
    if j == -1 then c
    else if Moves(p) && p.category.value != c.id then c.(dishes := WithoutDish(c.dishes, id))
    else c.(dishes := c.dishes[j := MergeDish(c.dishes[j], p)])
  }

  /** The second step: append the merged dish to every category whose id is the target. */
  function AppendedTo(cats: seq<Category>, target: string, d: Dish): seq<Category> {
    seq(|cats|, i requires 0 <= i < |cats| =>
      if cats[i].id == target then cats[i].(dishes := cats[i].dishes + [d]) else cats[i])
  }

  /** The local update of `updateDish(id, patch)`. */
  function WithDishUpdated(cats: seq<Category>, id: string, p: DishPatch): seq<Category> {
    match Locate(cats, id)
    case None => cats
    case Some(loc) =>
      var mapped := seq(|cats|, i requires 0 <= i < |cats| => UpdatedCategory(cats[i], id, p));
      if Moves(p) && loc.categoryId != p.category.value
      then AppendedTo(mapped, p.category.value, MergeDish(loc.dish, p))
      else mapped
  }

  /** The id occurs once in the whole catalog: in category `k`, at position `j`. */
  predicate OnlyAt(cats: seq<Category>, id: string, k: nat, j: nat) {
    && k < |cats| && j < |cats[k].dishes| && cats[k].dishes[j].id == id
    && forall i, a :: 0 <= i < |cats| && 0 <= a < |cats[i].dishes| && cats[i].dishes[a].id == id ==> i == k && a == j
  }

  predicate Absent(cats: seq<Category>, id: string) {
    forall i, a :: 0 <= i < |cats| && 0 <= a < |cats[i].dishes| ==> cats[i].dishes[a].id != id
  }

  lemma UniqueGivesOnlyAt(cats: seq<Category>, id: string)
    requires UniqueDishIds(cats)
    ensures HolderIndex(cats, id) == -1 ==> Absent(cats, id)
    ensures HolderIndex(cats, id) >= 0 ==>
      OnlyAt(cats, id, HolderIndex(cats, id), DishIndex(cats[HolderIndex(cats, id)].dishes, id))
  {
    var k := HolderIndex(cats, id);
    if k == -1 {
      forall i, a | 0 <= i < |cats| && 0 <= a < |cats[i].dishes| ensures cats[i].dishes[a].id != id {
        assert !HasDish(cats[i], id);
      }
    }
  }

  lemma LocateOnlyAt(cats: seq<Category>, id: string, k: nat, j: nat)
    requires OnlyAt(cats, id, k, j)
    ensures HolderIndex(cats, id) == k && DishIndex(cats[k].dishes, id) == j
    ensures Locate(cats, id) == Some(Location(cats[k].dishes[j], cats[k].id))
  {
    var h := HolderIndex(cats, id);
    assert HasDish(cats[k], id);
    assert cats[h].dishes[DishIndex(cats[h].dishes, id)].id == id;
  }

  lemma LocateAbsent(cats: seq<Category>, id: string)
    requires Absent(cats, id)
    ensures Locate(cats, id) == None
  {
    forall i | 0 <= i < |cats| ensures !HasDish(cats[i], id) {
      assert forall a :: 0 <= a < |cats[i].dishes| ==> cats[i].dishes[a].id != id;
    }
  }

  /** With the dish only in category `k`, the first step changes category `k` alone. */
  lemma MappedOnlyAt(cats: seq<Category>, id: string, p: DishPatch, k: nat, j: nat)
    requires OnlyAt(cats, id, k, j)
    ensures seq(|cats|, i requires 0 <= i < |cats| => UpdatedCategory(cats[i], id, p))
         == cats[k := UpdatedCategory(cats[k], id, p)]
  {
    var mapped := seq(|cats|, i requires 0 <= i < |cats| => UpdatedCategory(cats[i], id, p));
    forall i | 0 <= i < |cats| && i != k ensures mapped[i] == cats[i] {
      assert forall a :: 0 <= a < |cats[i].dishes| ==> cats[i].dishes[a].id != id;
    }
    LocateOnlyAt(cats, id, k, j);
  }

  /** With unique category ids the second step touches the target category alone. */
  lemma AppendedToUnique(cats: seq<Category>, target: string, d: Dish)
    requires UniqueCategoryIds(cats)
    ensures CategoryIndex(cats, target) == -1 ==> AppendedTo(cats, target, d) == cats
    ensures CategoryIndex(cats, target) >= 0 ==>
      var m := CategoryIndex(cats, target);
      AppendedTo(cats, target, d) == cats[m := cats[m].(dishes := cats[m].dishes + [d])]
  {
  }

  /** updateDish without a change of category (or with the patch naming the dish's own
      category) replaces the dish in place by the patch laid over it; nothing else changes. */
  lemma {:induction false} UpdateInPlace(cats: seq<Category>, id: string, p: DishPatch, k: nat, j: nat)
    requires OnlyAt(cats, id, k, j)
    requires !Moves(p) || p.category.value == cats[k].id
    ensures WithDishUpdated(cats, id, p)
         == cats[k := cats[k].(dishes := cats[k].dishes[j := MergeDish(cats[k].dishes[j], p)])]
  {
    LocateOnlyAt(cats, id, k, j);
    MappedOnlyAt(cats, id, p, k, j);
  }

  /** updateDish moving the dish to another category: it leaves its old list (the rest keep
      their order) and the merged dish goes to the end of the target's list; with no category
      of that id it is dropped. */
  lemma {:induction false} UpdateMoving(cats: seq<Category>, id: string, p: DishPatch, k: nat, j: nat)
    requires UniqueCategoryIds(cats)
    requires OnlyAt(cats, id, k, j)
    requires Moves(p) && p.category.value != cats[k].id
    ensures var removed := cats[k := cats[k].(dishes := cats[k].dishes[..j] + cats[k].dishes[j + 1..])];
            var m := CategoryIndex(cats, p.category.value);
            var moved := MergeDish(cats[k].dishes[j], p);
            WithDishUpdated(cats, id, p)
              == if m == -1 then removed else removed[m := removed[m].(dishes := removed[m].dishes + [moved])]
  {
    LocateOnlyAt(cats, id, k, j);
    MappedOnlyAt(cats, id, p, k, j);
    WithoutSingleDish(cats[k].dishes, id, j);
    var removed := cats[k := cats[k].(dishes := cats[k].dishes[..j] + cats[k].dishes[j + 1..])];
    assert forall i :: 0 <= i < |cats| ==> removed[i].id == cats[i].id;
    assert CategoryIndex(removed, p.category.value) == CategoryIndex(cats, p.category.value) by {
      CategoryIndexSameIds(removed, cats, p.category.value);
    }
    AppendedToUnique(removed, p.category.value, MergeDish(cats[k].dishes[j], p));
  }

  lemma {:induction false} CategoryIndexSameIds(a: seq<Category>, b: seq<Category>, id: string)
    requires |a| == |b| && forall i :: 0 <= i < |a| ==> a[i].id == b[i].id
    ensures CategoryIndex(a, id) == CategoryIndex(b, id)
  {
    if a != [] {
      CategoryIndexSameIds(a[1..], b[1..], id);
    }
  }

  /** A move keeps the number of dishes when the target category exists, and loses the dish
      when it does not. */
  lemma UpdateMovingCount(cats: seq<Category>, id: string, p: DishPatch, k: nat, j: nat)
    requires UniqueCategoryIds(cats)
    requires OnlyAt(cats, id, k, j)
    requires Moves(p) && p.category.value != cats[k].id
    ensures |AllDishes(WithDishUpdated(cats, id, p))|
         == |AllDishes(cats)| - (if CategoryIndex(cats, p.category.value) == -1 then 1 else 0)
  {
    UpdateMoving(cats, id, p, k, j);
    var removed := cats[k := cats[k].(dishes := cats[k].dishes[..j] + cats[k].dishes[j + 1..])];
    AllDishesReplace(cats, k, removed[k]);
    var m := CategoryIndex(cats, p.category.value);
    if m != -1 {
      AllDishesReplace(removed, m, removed[m].(dishes := removed[m].dishes + [MergeDish(cats[k].dishes[j], p)]));
    }
  }

  /** Applying the same updateDish patch twice gives the catalog applying it once gives. */
  lemma {:induction false} UpdateIdempotent(cats: seq<Category>, id: string, p: DishPatch)
    requires UniqueCategoryIds(cats) && UniqueDishIds(cats)
    ensures WithDishUpdated(WithDishUpdated(cats, id, p), id, p) == WithDishUpdated(cats, id, p)
  {
    UniqueGivesOnlyAt(cats, id);
    var k := HolderIndex(cats, id);
    if k == -1 {
      LocateAbsent(cats, id);
    } else {
      var j := DishIndex(cats[k].dishes, id);
      if !Moves(p) || p.category.value == cats[k].id {
        IdempotentInPlace(cats, id, p, k, j);
      } else {
        IdempotentMoving(cats, id, p, k, j);
      }
    }
  }

  /** Laying a patch over a dish twice gives what laying it once gives. */
  lemma MergeTwice(d: Dish, p: DishPatch)
    ensures MergeDish(MergeDish(d, p), p) == MergeDish(d, p)
  {
  }

  /** An update that would leave the dish as it is leaves the catalog as it is. */
  lemma FixedInPlace(cats: seq<Category>, id: string, p: DishPatch, k: nat, j: nat)
    requires OnlyAt(cats, id, k, j)
    requires !Moves(p) || p.category.value == cats[k].id
    requires MergeDish(cats[k].dishes[j], p) == cats[k].dishes[j]
    ensures WithDishUpdated(cats, id, p) == cats
  {
    UpdateInPlace(cats, id, p, k, j);
    assert cats[k].dishes[j := cats[k].dishes[j]] == cats[k].dishes;
  }

  /** An update of an id no dish has changes nothing. */
  lemma FixedAbsent(cats: seq<Category>, id: string, p: DishPatch)
    requires Absent(cats, id)
    ensures WithDishUpdated(cats, id, p) == cats
  {
    LocateAbsent(cats, id);
  }

  lemma {:induction false} IdempotentInPlace(cats: seq<Category>, id: string, p: DishPatch, k: nat, j: nat)
    requires OnlyAt(cats, id, k, j)
    requires !Moves(p) || p.category.value == cats[k].id
    ensures WithDishUpdated(WithDishUpdated(cats, id, p), id, p) == WithDishUpdated(cats, id, p)
  {
    UpdateInPlace(cats, id, p, k, j);
    var d' := MergeDish(cats[k].dishes[j], p);
    var once := cats[k := cats[k].(dishes := cats[k].dishes[j := d'])];
    if d'.id == id {
      ReplacedOnlyAt(cats, id, k, j, d');
      MergeTwice(cats[k].dishes[j], p);
      FixedInPlace(once, id, p, k, j);
    } else {
      ReplacedAbsent(cats, id, k, j, d');
      FixedAbsent(once, id, p);
    }
  }

  /** Replacing the only dish with the id by one with the same id keeps it the only one. */
  lemma ReplacedOnlyAt(cats: seq<Category>, id: string, k: nat, j: nat, d: Dish)
    requires OnlyAt(cats, id, k, j) && d.id == id
    ensures OnlyAt(cats[k := cats[k].(dishes := cats[k].dishes[j := d])], id, k, j)
  {
    var once := cats[k := cats[k].(dishes := cats[k].dishes[j := d])];
    forall i, a | 0 <= i < |once| && 0 <= a < |once[i].dishes|
      ensures once[i].dishes[a].id == id ==> i == k && a == j
    {
      if i != k || a != j { assert once[i].dishes[a] == cats[i].dishes[a]; }
    }
  }

  /** Replacing the only dish with the id by one with another id leaves the id absent. */
  lemma ReplacedAbsent(cats: seq<Category>, id: string, k: nat, j: nat, d: Dish)
    requires OnlyAt(cats, id, k, j) && d.id != id
    ensures Absent(cats[k := cats[k].(dishes := cats[k].dishes[j := d])], id)
  {
    var once := cats[k := cats[k].(dishes := cats[k].dishes[j := d])];
    forall i, a | 0 <= i < |once| && 0 <= a < |once[i].dishes| ensures once[i].dishes[a].id != id {
      if i != k || a != j { assert once[i].dishes[a] == cats[i].dishes[a]; }
    }
  }

  /** Removing the only dish with the id leaves the id absent. */
  lemma RemovedAbsent(cats: seq<Category>, id: string, k: nat, j: nat)
    requires OnlyAt(cats, id, k, j)
    ensures Absent(cats[k := cats[k].(dishes := cats[k].dishes[..j] + cats[k].dishes[j + 1..])], id)
  {
    var removed := cats[k := cats[k].(dishes := cats[k].dishes[..j] + cats[k].dishes[j + 1..])];
    forall i, a | 0 <= i < |removed| && 0 <= a < |removed[i].dishes| ensures removed[i].dishes[a].id != id {
      if i != k { assert removed[i].dishes[a] == cats[i].dishes[a]; }
      else if a < j { assert removed[k].dishes[a] == cats[k].dishes[a]; }
      else { assert removed[k].dishes[a] == cats[k].dishes[a + 1]; }
    }
  }

  /** Appending a dish with an absent id to one category makes it the only one there. */
  lemma AppendedOnlyAt(cats: seq<Category>, id: string, m: nat, d: Dish)
    requires Absent(cats, id) && m < |cats| && d.id == id
    ensures OnlyAt(cats[m := cats[m].(dishes := cats[m].dishes + [d])], id, m, |cats[m].dishes|)
  {
    var once := cats[m := cats[m].(dishes := cats[m].dishes + [d])];
    var n := |cats[m].dishes|;
    forall i, a | 0 <= i < |once| && 0 <= a < |once[i].dishes|
      ensures once[i].dishes[a].id == id ==> i == m && a == n
    {
      if i != m || a != n { assert once[i].dishes[a] == cats[i].dishes[a]; }
    }
  }

  /** Appending a dish with another id keeps an absent id absent. */
  lemma AppendedAbsent(cats: seq<Category>, id: string, m: nat, d: Dish)
    requires Absent(cats, id) && m < |cats| && d.id != id
    ensures Absent(cats[m := cats[m].(dishes := cats[m].dishes + [d])], id)
  {
    var once := cats[m := cats[m].(dishes := cats[m].dishes + [d])];
    forall i, a | 0 <= i < |once| && 0 <= a < |once[i].dishes| ensures once[i].dishes[a].id != id {
      if i != m || a != |cats[m].dishes| { assert once[i].dishes[a] == cats[i].dishes[a]; }
    }
  }

  lemma {:induction false} IdempotentMoving(cats: seq<Category>, id: string, p: DishPatch, k: nat, j: nat)
    requires UniqueCategoryIds(cats)
    requires OnlyAt(cats, id, k, j)
    requires Moves(p) && p.category.value != cats[k].id
    ensures WithDishUpdated(WithDishUpdated(cats, id, p), id, p) == WithDishUpdated(cats, id, p)
  {
    UpdateMoving(cats, id, p, k, j);
    RemovedAbsent(cats, id, k, j);
    var d' := MergeDish(cats[k].dishes[j], p);
    var removed := cats[k := cats[k].(dishes := cats[k].dishes[..j] + cats[k].dishes[j + 1..])];
    var m := CategoryIndex(cats, p.category.value);
    if m == -1 {
      FixedAbsent(removed, id, p);
    } else {
      var once := removed[m := removed[m].(dishes := removed[m].dishes + [d'])];
      if d'.id == id {
        AppendedOnlyAt(removed, id, m, d');
        MergeTwice(cats[k].dishes[j], p);
        FixedInPlace(once, id, p, m, |removed[m].dishes|);
      } else {
        AppendedAbsent(removed, id, m, d');
        FixedAbsent(once, id, p);
      }
    }
  }

  /** The local update of `deleteDish`: every category drops every dish with that id. */
  function WithDishDeleted(cats: seq<Category>, id: string): (r: seq<Category>)
    ensures |r| == |cats|
    ensures forall i :: 0 <= i < |cats| ==> r[i].(dishes := cats[i].dishes) == cats[i]
    ensures Absent(r, id)
  {
    seq(|cats|, i requires 0 <= i < |cats| => cats[i].(dishes := WithoutDish(cats[i].dishes, id)))
  }

  /** Filtering keeps exactly the dishes with another id. */
  lemma {:induction false} WithoutDishKeeps(ds: seq<Dish>, id: string, d: Dish)
    ensures d in WithoutDish(ds, id) <==> d in ds && d.id != id
  {
    if ds != [] {
      WithoutDishKeeps(ds[1..], id, d);
      assert d in ds <==> d == ds[0] || d in ds[1..];
    }
  }

  /** deleteDish keeps, in each category, exactly the dishes with another id. */
  lemma DeleteDishKeepsOthers(cats: seq<Category>, id: string, i: nat, d: Dish)
    requires i < |cats|
    ensures d in WithDishDeleted(cats, id)[i].dishes <==> d in cats[i].dishes && d.id != id
  {
    WithoutDishKeeps(cats[i].dishes, id, d);
  }

  // ---------------------------------------------------------------------------------------
  // Category mutations

  /** The local update of `addCategory`. */
  function WithCategoryAdded(cats: seq<Category>, c: Category): (r: seq<Category>)
    ensures |r| == |cats| + 1 && r[..|cats|] == cats && r[|cats|] == c
  {
    cats + [c]
  }

  /** The local update of `updateCategory(id, patch)`: merge into every category with that id. */
  function WithCategoryUpdated(cats: seq<Category>, id: string, p: CategoryPatch): (r: seq<Category>)
    ensures |r| == |cats|
    ensures forall i :: 0 <= i < |cats| && cats[i].id != id ==> r[i] == cats[i]
    ensures forall i :: 0 <= i < |cats| && cats[i].id == id ==> r[i] == MergeCategory(cats[i], p)
  {
    seq(|cats|, i requires 0 <= i < |cats| => if cats[i].id == id then MergeCategory(cats[i], p) else cats[i])
  }

  /** The local update of `deleteCategory(id)`: `categories.filter(c => c.id !== id)`. Nothing
      here looks at the category's dishes or at how many categories are left. */
  function WithoutCategory(cats: seq<Category>, id: string): (r: seq<Category>)
    ensures |r| <= |cats|
    ensures forall i :: 0 <= i < |r| ==> r[i].id != id
  {
    if cats == [] then [] else (if cats[0].id == id then [] else [cats[0]]) + WithoutCategory(cats[1..], id)
  }

  /** deleteCategory keeps exactly the categories with another id. */
  lemma {:induction false} WithoutCategoryKeeps(cats: seq<Category>, id: string, c: Category)
    ensures c in WithoutCategory(cats, id) <==> c in cats && c.id != id
  {
    if cats != [] {
      WithoutCategoryKeeps(cats[1..], id, c);
      assert c in cats <==> c == cats[0] || c in cats[1..];
    }
  }

  /** Deleting an id no category has changes nothing. */
  lemma {:induction false} WithoutAbsentCategory(cats: seq<Category>, id: string)
    requires forall i :: 0 <= i < |cats| ==> cats[i].id != id
    ensures WithoutCategory(cats, id) == cats
  {
    if cats != [] {
      WithoutAbsentCategory(cats[1..], id);
      assert [cats[0]] + cats[1..] == cats;
    }
  }

  /** Deleting the category at `k` when no other category shares its id removes exactly it. */
  lemma {:induction false} WithoutSingleCategory(cats: seq<Category>, k: nat)
    requires k < |cats|
    requires forall i :: 0 <= i < |cats| && i != k ==> cats[i].id != cats[k].id
    ensures WithoutCategory(cats, cats[k].id) == cats[..k] + cats[k + 1..]
    decreases k
  {
    var id := cats[k].id;
    var tail := cats[1..];
    if k == 0 {
      WithoutAbsentCategory(tail, id);
      assert cats[..0] + cats[1..] == tail;
    } else {
      assert tail[k - 1] == cats[k];
      assert cats[0].id != id;
      forall i | 0 <= i < |tail| && i != k - 1 ensures tail[i].id != id {
        assert tail[i] == cats[i + 1];
      }
      WithoutSingleCategory(tail, k - 1);
      assert WithoutCategory(cats, id) == [cats[0]] + WithoutCategory(tail, id);
      assert cats[..k] == [cats[0]] + tail[..k - 1];
      assert cats[k + 1..] == tail[k..];
      assert [cats[0]] + (tail[..k - 1] + tail[k..]) == cats[..k] + cats[k + 1..];
    }
  }

  /** Removing a category with no dishes leaves the list of all dishes as it was. */
  lemma {:induction false} AllDishesWithoutEmpty(cats: seq<Category>, k: nat)
    requires k < |cats| && cats[k].dishes == []
    ensures AllDishes(cats[..k] + cats[k + 1..]) == AllDishes(cats)
    decreases k
  {
    if k == 0 {
      assert cats[..0] + cats[1..] == cats[1..];
    } else {
      AllDishesWithoutEmpty(cats[1..], k - 1);
      var rest := cats[1..][..k - 1] + cats[1..][k..];
      assert cats[..k] + cats[k + 1..] == [cats[0]] + rest;
      assert ([cats[0]] + rest)[1..] == rest;
    }
  }

  /** Where the dishes of category `i` start in `AllDishes(cats)`. */
  function Offset(cats: seq<Category>, i: nat): nat
    requires i <= |cats|
  {
    if i == 0 then 0 else |cats[0].dishes| + Offset(cats[1..], i - 1)
  }

  /** Dish `a` of category `i` sits at position `Offset(cats, i) + a` of the flattened list. */
  lemma {:induction false} AllDishesAt(cats: seq<Category>, i: nat, a: nat)
    requires i < |cats| && a < |cats[i].dishes|
    ensures Offset(cats, i) + a < |AllDishes(cats)|
    ensures AllDishes(cats)[Offset(cats, i) + a] == cats[i].dishes[a]
    decreases i
  {
    if i > 0 {
      AllDishesAt(cats[1..], i - 1, a);
    }
  }

  /** The dishes of an earlier category all come before those of a later one. */
  lemma {:induction false} OffsetOrdered(cats: seq<Category>, i: nat, j: nat)
    requires i < j <= |cats|
    ensures Offset(cats, i) + |cats[i].dishes| <= Offset(cats, j)
    decreases i
  {
    if i > 0 {
      OffsetOrdered(cats[1..], i - 1, j - 1);
    }
  }

  /** No two entries of the list share an id. */
  predicate DistinctIds(ds: seq<Dish>) {
    forall p, q :: 0 <= p < q < |ds| ==> ds[p].id != ds[q].id
  }

  /** When the flattened dish list has distinct ids, no two dishes of the catalog share one. */
  lemma {:induction false} DistinctIdsUnique(cats: seq<Category>)
    requires DistinctIds(AllDishes(cats))
    ensures UniqueDishIds(cats)
  {
    var all := AllDishes(cats);
    forall i, j, a, b | 0 <= i < |cats| && 0 <= j < |cats| && 0 <= a < |cats[i].dishes| && 0 <= b < |cats[j].dishes|
      ensures cats[i].dishes[a].id == cats[j].dishes[b].id ==> i == j && a == b
    {
      AllDishesAt(cats, i, a);
      AllDishesAt(cats, j, b);
      if i < j {
        OffsetOrdered(cats, i, j);
      } else if j < i {
        OffsetOrdered(cats, j, i);
      }
    }
  }

  /** In a well-formed catalog every dish is listed by `DishesOf` under the category it names:
      the category tab a dish declares is the one that shows it. */
  lemma ParentedListed(cats: seq<Category>, i: nat, a: nat)
    requires UniqueCategoryIds(cats) && Parented(cats)
    requires i < |cats| && a < |cats[i].dishes|
    ensures cats[i].dishes[a] in DishesOf(cats, cats[i].dishes[a].category)
  {
    var k := CategoryIndex(cats, cats[i].id);
    assert k == i;
  }

  // ---------------------------------------------------------------------------------------
  // Every dish stays in the category it names

  /** A category whose dishes all name it. */
  predicate Holds(c: Category) {
    forall a :: 0 <= a < |c.dishes| ==> c.dishes[a].category == c.id
  }

  /** Filtering a category's dishes keeps it holding only its own dishes. */
  lemma {:induction false} WithoutDishHolds(c: Category, id: string)
    requires Holds(c)
    ensures Holds(c.(dishes := WithoutDish(c.dishes, id)))
  {
    var r := WithoutDish(c.dishes, id);
    forall a | 0 <= a < |r| ensures r[a].category == c.id {
      WithoutDishKeeps(c.dishes, id, r[a]);
    }
  }

  /** addDish keeps every dish in the category it names. */
  lemma AddKeepsParented(cats: seq<Category>, dish: Dish)
    requires Parented(cats)
    ensures Parented(WithDishAdded(cats, dish))
  {
  }

  /** updateDish keeps every dish in the category it names, for any patch that does not set
      the category to the empty string (which the update leaves in place, `""` being falsy). */
  lemma UpdateKeepsParented(cats: seq<Category>, id: string, p: DishPatch)
    requires Parented(cats)
    requires p.category != Some("")
    ensures Parented(WithDishUpdated(cats, id, p))
  {
    match Locate(cats, id)
    case None =>
    case Some(loc) =>
      var mapped := seq(|cats|, i requires 0 <= i < |cats| => UpdatedCategory(cats[i], id, p));
      forall i | 0 <= i < |cats| ensures Holds(mapped[i]) {
        UpdatedHolds(cats[i], id, p);
      }
  }

  /** The first step of updateDish keeps a category holding only its own dishes. */
  lemma UpdatedHolds(c: Category, id: string, p: DishPatch)
    requires Holds(c)
    requires p.category != Some("")
    ensures Holds(UpdatedCategory(c, id, p))
  {
    var j := DishIndex(c.dishes, id);
    if j != -1 && Moves(p) && p.category.value != c.id {
      WithoutDishHolds(c, id);
    }
  }

  /** deleteDish keeps every dish in the category it names. */
  lemma DeleteKeepsParented(cats: seq<Category>, id: string)
    requires Parented(cats)
    ensures Parented(WithDishDeleted(cats, id))
  {
    var r := WithDishDeleted(cats, id);
    forall i | 0 <= i < |cats| ensures Holds(r[i]) {
      assert Holds(cats[i]);
      WithoutDishHolds(cats[i], id);
      assert r[i] == cats[i].(dishes := WithoutDish(cats[i].dishes, id));
    }
  }
}
