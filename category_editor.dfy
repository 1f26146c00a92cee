/** The category dialog's two actions: building the record it saves, and the guards in front
    of deleting a category. The store it calls is `MenuStore.MenuStore`; the outcomes here say
    which store call the dialog makes, and the lemmas what that call then does to the catalog. */
module CategoryEditor {
  import opened Types
  import opened Strings
  import opened Catalog

  /** What saving the dialog does. */
  datatype SaveOutcome =
    | SaveRefused
    | AddCategoryOp(category: Category)
    | UpdateCategoryOp(id: string, data: Category)

  /** The whole record as a patch: `updateCategory(id, categoryData)` spreads every field. */
  function AsPatch(c: Category): (p: CategoryPatch)
    ensures forall before :: MergeCategory(before, p) == c
  {
    CategoryPatch(Some(c.id), Some(c.name), Some(c.icon), Some(c.dishes))
  }

  /** `handleSave`. `editing` is the category the dialog was opened on (none when adding);
      `newId` is the id `generateId()` would produce, `GeneratedId("cat_", …)`. */
  function SaveCategory(editing: Option<Category>, name: string, icon: string, newId: string): (r: SaveOutcome)
    ensures r.SaveRefused? <==> Trim(name) == []
    ensures !r.SaveRefused? ==> (r.UpdateCategoryOp? <==> editing.Some?)
    ensures r.AddCategoryOp? ==> r.category == Category(newId, Trim(name), icon, [])
    ensures r.UpdateCategoryOp? ==>
      && r.id == editing.value.id
      && r.data.name == Trim(name) && r.data.icon == icon && r.data.dishes == editing.value.dishes
      && r.data.id == (if editing.value.id != [] then editing.value.id else newId)
  {
    if Trim(name) == [] then SaveRefused
    else
      var id := if editing.Some? && editing.value.id != [] then editing.value.id else newId;
      var dishes := if editing.Some? then editing.value.dishes else [];
      var data := Category(id, Trim(name), icon, dishes);
      if editing.Some? then UpdateCategoryOp(editing.value.id, data) else AddCategoryOp(data)
  }

  /** The catalog after the store carries out a save. */
  function ApplySave(cats: seq<Category>, r: SaveOutcome): seq<Category> {
    match r
    case SaveRefused => cats
    case AddCategoryOp(c) => WithCategoryAdded(cats, c)
    case UpdateCategoryOp(id, data) => WithCategoryUpdated(cats, id, AsPatch(data))
  }

  /** Replacing a category by one with the same dishes leaves the flattened dish list alone. */
  lemma {:induction false} AllDishesSameDishes(cats: seq<Category>, k: nat, c: Category)
    requires k < |cats| && c.dishes == cats[k].dishes
    ensures AllDishes(cats[k := c]) == AllDishes(cats)
    decreases k
  {
    if k == 0 {
      assert cats[k := c][1..] == cats[1..];
    } else {
      assert cats[k := c][1..] == cats[1..][k - 1 := c];
      AllDishesSameDishes(cats[1..], k - 1, c);
    }
  }

  /** Saving an open category renames it (and sets its icon) in place: the catalog keeps its
      length, its ids, every dish where it was, and its well-formedness. */
  lemma EditSaveInPlace(cats: seq<Category>, k: nat, name: string, icon: string, newId: string)
    requires k < |cats| && UniqueCategoryIds(cats) && Parented(cats)
    requires cats[k].id != []
    requires Trim(name) != []
    ensures ApplySave(cats, SaveCategory(Some(cats[k]), name, icon, newId))
      == cats[k := Category(cats[k].id, Trim(name), icon, cats[k].dishes)]
    ensures AllDishes(ApplySave(cats, SaveCategory(Some(cats[k]), name, icon, newId))) == AllDishes(cats)
    ensures UniqueCategoryIds(ApplySave(cats, SaveCategory(Some(cats[k]), name, icon, newId)))
    ensures Parented(ApplySave(cats, SaveCategory(Some(cats[k]), name, icon, newId)))
  {
    var c := Category(cats[k].id, Trim(name), icon, cats[k].dishes);
    var r := ApplySave(cats, SaveCategory(Some(cats[k]), name, icon, newId));
    assert r == WithCategoryUpdated(cats, cats[k].id, AsPatch(c));
    assert r == cats[k := c];
    AllDishesSameDishes(cats, k, c);
  }

  /** Adding a category appends an empty one: no dish moves, and the catalog stays well formed
      when the generated id is new. */
  lemma AddSaveAppends(cats: seq<Category>, name: string, icon: string, newId: string)
    requires Trim(name) != []
    ensures ApplySave(cats, SaveCategory(None, name, icon, newId)) == cats + [Category(newId, Trim(name), icon, [])]
    ensures AllDishes(ApplySave(cats, SaveCategory(None, name, icon, newId))) == AllDishes(cats)
    ensures Parented(cats) ==> Parented(ApplySave(cats, SaveCategory(None, name, icon, newId)))
    ensures UniqueCategoryIds(cats) && (forall i :: 0 <= i < |cats| ==> cats[i].id != newId) ==>
      UniqueCategoryIds(ApplySave(cats, SaveCategory(None, name, icon, newId)))
  {
    var c := Category(newId, Trim(name), icon, []);
    AllDishesAppend(cats, c);
    assert AllDishes(cats) + [] == AllDishes(cats);
  }

  /** What pressing delete does, guard by guard. */
  datatype DeleteOutcome =
    | NothingToDelete
    | HasDishes(count: nat)
    | LastCategory
    | Cancelled
    | DeleteCategoryOp(id: string)

  /** `handleDelete`: no category open, then dishes left in it, then fewer than two categories,
      then the user's answer to the confirmation. */
  function DeleteCategory(editing: Option<Category>, categoryCount: nat, confirmed: bool): (r: DeleteOutcome)
    ensures editing.None? <==> r.NothingToDelete?
    ensures r.HasDishes? <==> editing.Some? && editing.value.dishes != []
    ensures r.HasDishes? ==> r.count == |editing.value.dishes|
    ensures r.LastCategory? <==> editing.Some? && editing.value.dishes == [] && categoryCount <= 1
    ensures r.DeleteCategoryOp? <==> editing.Some? && editing.value.dishes == [] && categoryCount > 1 && confirmed
    ensures r.DeleteCategoryOp? ==> r.id == editing.value.id
  {
    if editing.None? then NothingToDelete
    else if |editing.value.dishes| > 0 then HasDishes(|editing.value.dishes|)
    else if categoryCount <= 1 then LastCategory
    else if confirmed then DeleteCategoryOp(editing.value.id)
    else Cancelled
  }

  /** Through the dialog a category is deleted only when it is empty and not the last one, so
      the catalog keeps at least one category and every dish. */
  lemma GuardedDeleteKeeps(cats: seq<Category>, k: nat, confirmed: bool)
    requires k < |cats| && UniqueCategoryIds(cats)
    requires DeleteCategory(Some(cats[k]), |cats|, confirmed).DeleteCategoryOp?
    ensures WithoutCategory(cats, cats[k].id) == cats[..k] + cats[k + 1..]
    ensures |WithoutCategory(cats, cats[k].id)| == |cats| - 1 >= 1
    ensures AllDishes(WithoutCategory(cats, cats[k].id)) == AllDishes(cats)
  {
    WithoutSingleCategory(cats, k);
    AllDishesWithoutEmpty(cats, k);
  }
}
