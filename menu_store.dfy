/** The menu store: the catalog the app displays and edits, with its loading flags. Every
    mutation first changes the local catalog and then, when a backend is configured, sends
    the same change to it; the backend's answer is only logged, so the local catalog is never
    rolled back. Remote calls are recorded in `sent`, in the order they are issued. */
module MenuStore {
  import opened Types
  import opened Catalog
  import MenuService
  import Seed

  /** A call the store makes on the menu service. */
  datatype RemoteCall =
    | FetchAllCall
    | InitializeDataCall
    | AddDishCall(dish: Dish)
    | UpdateDishCall(dishId: string, patch: DishPatch)
    | DeleteDishCall(dishId: string)
    | AddCategoryCall(category: Category)
    | UpdateCategoryCall(categoryId: string, categoryPatch: CategoryPatch)
    | DeleteCategoryCall(categoryId: string)

  class MenuStore {
    var categories: seq<Category>
    var isLoading: bool
    var isInitialized: bool
    var isSyncing: bool
    /** The remote calls issued so far. */
    var sent: seq<RemoteCall>

    /** The store starts on the seed menu, not loading, not initialized, not syncing. */
    constructor()
      ensures categories == Seed.MenuData()
      ensures !isLoading && !isInitialized && !isSyncing && sent == []
    {
      categories := Seed.MenuData();
      isLoading := false;
      isInitialized := false;
      isSyncing := false;
      sent := [];
    }

    /** One synchronised call: `isSyncing` is raised while the call is awaited and lowered
        afterwards, whatever the call answers. */
    method Sync(call: RemoteCall)
      modifies this
      ensures sent == old(sent) + [call]
      ensures !isSyncing
      ensures categories == old(categories) && isLoading == old(isLoading)
      ensures isInitialized == old(isInitialized)
    {
      isSyncing := true;
      sent := sent + [call];
      isSyncing := false;
    }

    /** `initialize`: nothing once initialized; otherwise the fetched menu when a backend is
        configured (the seed menu when it is not), and the store ends initialized and not
        loading. `fetchAll` itself falls back to the seed menu on every error, so the
        store's own error branch never changes the outcome. */
    method Initialize(configured: bool, reply: MenuService.FetchReply)
      modifies this
      ensures old(isInitialized) ==>
        && categories == old(categories) && isLoading == old(isLoading)
        && isInitialized && sent == old(sent)
      ensures !old(isInitialized) ==> isInitialized && !isLoading
      ensures !old(isInitialized) && !configured ==> categories == Seed.MenuData() && sent == old(sent)
      ensures !old(isInitialized) && configured ==>
        && categories == MenuService.FetchAll(true, reply).menu
        && sent == old(sent) + [FetchAllCall]
          + (if MenuService.FetchAll(true, reply).seeded then [InitializeDataCall] else [])
      ensures isSyncing == old(isSyncing)
    {
      if isInitialized {
        return;
      }
      isLoading := true;
      if configured {
        var fetched := MenuService.FetchAll(true, reply);
        sent := sent + [FetchAllCall] + (if fetched.seeded then [InitializeDataCall] else []);
        categories := fetched.menu;
      } else {
        categories := Seed.MenuData();
      }
      isInitialized := true;
      isLoading := false;
    }

    /** `addDish`: append the dish to the category it names, then sync. */
    method AddDish(dish: Dish, configured: bool)
      modifies this
      ensures categories == WithDishAdded(old(categories), dish)
      ensures sent == old(sent) + (if configured then [AddDishCall(dish)] else [])
      ensures configured ==> !isSyncing
      ensures !configured ==> isSyncing == old(isSyncing)
      ensures isLoading == old(isLoading) && isInitialized == old(isInitialized)
    {
      categories := WithDishAdded(categories, dish);
      if configured {
        Sync(AddDishCall(dish));
      }
    }

    /** The scan `updateDish` and `getDishById` make: the first category, in order, holding a
        dish with the id, and the first such dish in it. */
    method FindDish(id: string) returns (found: Option<Location>)
      ensures found == Locate(categories, id)
      ensures found.Some? ==> found.value.dish.id == id
    {
      var i := 0;
      while i < |categories|
        invariant 0 <= i <= |categories|
        invariant forall h :: 0 <= h < i ==> !HasDish(categories[h], id)
      {
        var j := DishIndex(categories[i].dishes, id);
        if j != -1 {
          assert HolderIndex(categories, id) == i;
          return Some(Location(categories[i].dishes[j], categories[i].id));
        }
        i := i + 1;
      }
      assert HolderIndex(categories, id) == -1;
      return None;
    }

    /** `updateDish`: nothing at all, not even a remote call, when no category holds the id;
        otherwise the local update, then sync. */
    method UpdateDish(id: string, patch: DishPatch, configured: bool)
      modifies this
      ensures categories == WithDishUpdated(old(categories), id, patch)
      ensures Locate(old(categories), id).None? ==> sent == old(sent) && isSyncing == old(isSyncing)
      ensures Locate(old(categories), id).Some? ==>
        sent == old(sent) + (if configured then [UpdateDishCall(id, patch)] else [])
      ensures Locate(old(categories), id).Some? && configured ==> !isSyncing
      ensures !configured ==> isSyncing == old(isSyncing)
      ensures isLoading == old(isLoading) && isInitialized == old(isInitialized)
    {
      var found := FindDish(id);
      if found.None? {
        return;
      }
      categories := WithDishUpdated(categories, id, patch);
      if configured {
        Sync(UpdateDishCall(id, patch));
      }
    }

    /** `deleteDish`: every category drops every dish with the id, then sync. */
    method DeleteDish(id: string, configured: bool)
      modifies this
      ensures categories == WithDishDeleted(old(categories), id)
      ensures sent == old(sent) + (if configured then [DeleteDishCall(id)] else [])
      ensures configured ==> !isSyncing
      ensures !configured ==> isSyncing == old(isSyncing)
      ensures isLoading == old(isLoading) && isInitialized == old(isInitialized)
    {
      categories := WithDishDeleted(categories, id);
      if configured {
        Sync(DeleteDishCall(id));
      }
    }

    /** `addCategory`: append the category, then sync. */
    method AddCategory(c: Category, configured: bool)
      modifies this
      ensures categories == old(categories) + [c]
      ensures sent == old(sent) + (if configured then [AddCategoryCall(c)] else [])
      ensures configured ==> !isSyncing
      ensures !configured ==> isSyncing == old(isSyncing)
      ensures isLoading == old(isLoading) && isInitialized == old(isInitialized)
    {
      categories := WithCategoryAdded(categories, c);
      if configured {
        Sync(AddCategoryCall(c));
      }
    }

    /** `updateCategory`: merge the patch into the categories with the id, then sync. */
    method UpdateCategory(id: string, patch: CategoryPatch, configured: bool)
      modifies this
      ensures categories == WithCategoryUpdated(old(categories), id, patch)
      ensures sent == old(sent) + (if configured then [UpdateCategoryCall(id, patch)] else [])
      ensures configured ==> !isSyncing
      ensures !configured ==> isSyncing == old(isSyncing)
      ensures isLoading == old(isLoading) && isInitialized == old(isInitialized)
    {
      categories := WithCategoryUpdated(categories, id, patch);
      if configured {
        Sync(UpdateCategoryCall(id, patch));
      }
    }

    /** `deleteCategory`: drop the categories with the id, with their dishes and whatever
        number of categories remains, then sync. */
    method DeleteCategory(id: string, configured: bool)
      modifies this
      ensures categories == WithoutCategory(old(categories), id)
      ensures sent == old(sent) + (if configured then [DeleteCategoryCall(id)] else [])
      ensures configured ==> !isSyncing
      ensures !configured ==> isSyncing == old(isSyncing)
      ensures isLoading == old(isLoading) && isInitialized == old(isInitialized)
    {
      categories := WithoutCategory(categories, id);
      if configured {
        Sync(DeleteCategoryCall(id));
      }
    }

    /** `getAllDishes`. */
    function GetAllDishes(): seq<Dish>
      reads this
    {
      AllDishes(categories)
    }

    /** `getDishesByCategory`. */
    function GetDishesByCategory(id: string): (r: seq<Dish>)
      reads this
      ensures CategoryIndex(categories, id) == -1 ==> r == []
      ensures CategoryIndex(categories, id) >= 0 ==> r == categories[CategoryIndex(categories, id)].dishes
    {
      DishesOf(categories, id)
    }

    /** `getDishById`: the first dish with the id, scanning categories in order. */
    method GetDishById(id: string) returns (r: Option<Dish>)
      ensures r.Some? <==>
        exists i, a :: 0 <= i < |categories| && 0 <= a < |categories[i].dishes| && categories[i].dishes[a].id == id
      ensures r.Some? ==> r.value.id == id && exists i :: 0 <= i < |categories| && r.value in categories[i].dishes
      ensures r.Some? ==>
        exists i, a ::
          && 0 <= i < |categories| && 0 <= a < |categories[i].dishes|
          && categories[i].dishes[a] == r.value
          && (forall j :: 0 <= j < i ==> !HasDish(categories[j], id))
          && (forall b :: 0 <= b < a ==> categories[i].dishes[b].id != id)
    {
      var found := FindDish(id);
      var k := HolderIndex(categories, id);
      if found.None? {
        assert k == -1;
        forall i, a | 0 <= i < |categories| && 0 <= a < |categories[i].dishes|
          ensures categories[i].dishes[a].id != id
        {
          assert !HasDish(categories[i], id);
        }
        return None;
      }
      assert HasDish(categories[k], id);
      var a := DishIndex(categories[k].dishes, id);
      assert categories[k].dishes[a] == found.value.dish;
      return Some(found.value.dish);
    }

    /** `getCategoryById`. */
    function GetCategoryById(id: string): (r: Option<Category>)
      reads this
      ensures r.Some? <==> exists i :: 0 <= i < |categories| && categories[i].id == id
      ensures r.Some? ==> r.value in categories && r.value.id == id
      ensures r.Some? ==>
        exists k :: 0 <= k < |categories| && categories[k] == r.value && forall i :: 0 <= i < k ==> categories[i].id != id
    {
      CategoryById(categories, id)
    }

    /** `refresh`: nothing when no backend is configured; otherwise the fetched menu, and not
        loading afterwards. */
    method Refresh(configured: bool, reply: MenuService.FetchReply)
      modifies this
      ensures !configured ==> categories == old(categories) && isLoading == old(isLoading) && sent == old(sent)
      ensures configured ==>
        && categories == MenuService.FetchAll(true, reply).menu
        && !isLoading
        && sent == old(sent) + [FetchAllCall]
          + (if MenuService.FetchAll(true, reply).seeded then [InitializeDataCall] else [])
      ensures isInitialized == old(isInitialized) && isSyncing == old(isSyncing)
    {
      if !configured {
        return;
      }
      isLoading := true;
      var fetched := MenuService.FetchAll(true, reply);
      sent := sent + [FetchAllCall] + (if fetched.seeded then [InitializeDataCall] else []);
      categories := fetched.menu;
      isLoading := false;
    }

    /** `resetToDefault`: back to the seed menu, and the backend is asked to re-seed. */
    method ResetToDefault(configured: bool)
      modifies this
      ensures categories == Seed.MenuData()
      ensures sent == old(sent) + (if configured then [InitializeDataCall] else [])
      ensures isLoading == old(isLoading) && isInitialized == old(isInitialized)
      ensures isSyncing == old(isSyncing)
    {
      categories := Seed.MenuData();
      if configured {
        sent := sent + [InitializeDataCall];
      }
    }
  }
}
