# Order menu — a Dafny model

This project models the core of a small ordering web app. The app shows a menu of dish
categories, lets people put dishes in a cart and submit an order, and lets the menu be
edited. When a Supabase backend is configured, edits are mirrored to two database tables
(`categories` and `dishes`) and dish photos go to a storage bucket. Otherwise the app runs
on its built-in seed menu.

The model covers these parts of the app:

- **Catalog and menu store** (`catalog.dfy`, `menu_store.dfy`). The `MenuStore` class
  holds the categories and their dishes, plus the loading, initialised and syncing flags.
  - Every store action is a method. It states the new catalog as a pure function of the old
    one and records the remote calls it issues in a `sent` trace.
  - Lemmas state what the actions mean: a dish added to an existing category is listed
    once more, an update in place keeps positions, an update that moves a dish appends it
    to the target, updates are idempotent, deletes keep exactly the other dishes, and every
    action keeps each dish inside the category it names.
- **Seed menu** (`seed.dfy`). This is the built-in menu: five categories and
  twenty-four dishes. The model proves it is well formed.
- **Menu service** (`menu_service.dfy`). This covers:
  - the database rows and the converters between rows and records, with round-trip lemmas;
  - the join `fetchAll` performs, and `fetchAll`'s fallbacks;
  - the seeding rows `initializeData` builds with nested loops (a method proved against a
    function), with a proof that seeding and reading back gives the menu. The read-back
    proof holds for rows in the order they were written and also for the order `fetchAll`
    reads them in: ascending `sort_order`, which interleaves the categories, with rows of
    equal sort order in any order;
  - the update records and the delete filters.
- **Cart** (`cart_store.dfy`). The cart lines, the cart's invariant (positive quantities,
  one line per dish), and the effect of each action on the total count.
- **Orders** (`order_store.dfy`). The order id format, and that new orders go to the front
  of the history.
- **Asset URLs** (`asset_url.dfy`). How a path is resolved against the deployment base.
- **Image storage** (`storage_service.dfy`). The data-URL pattern, which is proved sound
  and complete; the extension table; the upload file names; and recovering the stored path
  from a public URL.
- **Image cache and preloading hooks** (`image_cache.dfy`, `image_preloader.dfy`):
  - the in-memory cache and its in-flight loads;
  - the versioned localStorage entry;
  - the per-list preloader;
  - the whole-menu preloader, which works in batches of six. The batches are proved to
    cover every image once, in order.
- **Dialogs and order page** (`category_editor.dfy`, `dish_editor.dfy`, `order_page.dfy`):
  - the guards of the category and dish dialogs, the records they save, and their tag
    editing;
  - the order page's submission: its checks, its effects in order, and the text it sends.

Things that are inputs to the program become parameters of the model. These are:

- whether a backend is configured;
- the database replies;
- clock readings;
- the text of `Math.random().toString(36)`;
- the notification service's reply.

JavaScript strings are `seq<char>`. `trim` uses the ECMAScript white-space set.

## Model

| member | source | states |
|---|---|---|
| Strings.TrimStart | src/components/OrderPage.tsx:51 | the result is the suffix left after the leading white space, and starts with a non-space or is empty |
| Strings.TrimEnd | src/components/OrderPage.tsx:87 | the result is the prefix left before the trailing white space, and ends with a non-space or is empty |
| Strings.Trim | src/components/OrderPage.tsx:51 | the trimmed text is no longer than the input, and starts and ends with a non-space character |
| Strings.TrimEmptyIffAllSpace | src/components/OrderPage.tsx:51 | `!s.trim()` holds exactly when every character of `s` is white space (both directions) |
| Strings.TrimIdempotent | src/components/DishEditModal.tsx:111 | trimming twice is trimming once |
| Strings.TrimFramed | src/components/OrderPage.tsx:72-87 | white space before a text that starts and ends with visible characters is dropped, and the text is kept whole |
| Strings.TrimStartSkips | src/components/OrderPage.tsx:72-87 | `trimStart` skips white space and stops at the first visible character |
| Strings.TrimEndKeeps | src/components/OrderPage.tsx:72-87 | `trimEnd` never cuts into a text that ends with a visible character |
| Strings.Slice | src/store/orderStore.ts:16 | `slice(from, to)` with both bounds clamped to the length: the chosen range, or the rest when the string is shorter |
| Strings.Without | src/store/orderStore.ts:14-15 | `replace(/c/g, '')` removes every `c`, keeps every other character, and changes nothing when there is no `c` |
| Strings.WithoutAppend | src/store/orderStore.ts:14-15 | removing a character from a concatenation removes it from each part |
| Strings.Upper | src/store/orderStore.ts:16 | `toUpperCase` keeps the length, maps each character, and leaves no lower-case ASCII letter |
| Strings.Decimal | src/services/storageService.ts:18 | `String(n)` is a non-empty string of digits with no leading zero |
| Strings.DecimalRoundTrip | src/services/storageService.ts:18 | reading back the decimal text of `n` gives `n` |
| Strings.GeneratedId | src/components/CategoryEditModal.tsx:49-53 | an id the dialogs generate (`cat_` here, `dish_` in `src/components/DishEditModal.tsx`) starts with its prefix, then the timestamp's digits, which read back as the timestamp, then `_` and at most six random characters |
| Strings.IntString | src/components/OrderPage.tsx:69 | the text of an integer is non-empty and starts with `-` exactly when the integer is negative |
| Strings.Join | src/components/OrderPage.tsx:68-70 | joining one part gives the part; joining none gives the empty string |
| Strings.JoinSnoc | src/components/OrderPage.tsx:68-70 | joining one more part appends the separator and the part |
| Catalog.DishIndex | src/store/menuStore.ts:103-112 | the first position holding the id, or -1 exactly when no dish has it |
| Catalog.CategoryIndex | src/store/menuStore.ts:71-72 | the first category with the id, or -1 exactly when there is none |
| Catalog.HolderIndex | src/store/menuStore.ts:103-112 | the first category holding a dish with the id, or -1 exactly when none holds one |
| Catalog.WithoutDish | src/store/menuStore.ts:171 | no dish with the id is left, and the list does not grow |
| Catalog.WithoutAbsentDish | src/store/menuStore.ts:171 | filtering out an id no dish has changes nothing |
| Catalog.WithoutSingleDish | src/store/menuStore.ts:123-128 | filtering out an id held at exactly one position removes just that position, and keeps the order |
| Catalog.AllDishesHolds | src/store/menuStore.ts:249-251 | `getAllDishes` lists a dish exactly when some category holds it |
| Catalog.AllDishesReplace | src/store/menuStore.ts:249-251 | replacing one category changes the dish count by the difference in dish-list lengths |
| Catalog.AllDishesAppend | src/store/menuStore.ts:249-251 | appending a category appends its dishes to the flattened list |
| Catalog.DishesOf | src/store/menuStore.ts:254-257 | the dishes of the first category with the id, or none when no category has it |
| Catalog.CategoryById | src/store/menuStore.ts:269-271 | a category is found exactly when one has the id; the one found has the id and is the first such category |
| Catalog.WithDishAdded | src/store/menuStore.ts:70-81 | only the first category whose id is the dish's category changes, and the dish is appended to it; the catalog is unchanged when no category matches |
| Catalog.AddDishCount | src/store/menuStore.ts:70-81 | adding a dish lists it once more when its category exists, and changes nothing otherwise |
| Catalog.UniqueGivesOnlyAt | src/store/menuStore.ts:103-112 | with unique dish ids, an id is either absent or held at exactly the position the scan finds |
| Catalog.LocateOnlyAt | src/store/menuStore.ts:103-112 | the scan finds the only dish with the id, and its category |
| Catalog.LocateAbsent | src/store/menuStore.ts:103-113 | the scan finds nothing for an absent id |
| Catalog.MappedOnlyAt | src/store/menuStore.ts:115-134 | the first step of the update changes only the category holding the dish |
| Catalog.AppendedToUnique | src/store/menuStore.ts:136-148 | with unique category ids the second step changes only the target category, and nothing when there is none |
| Catalog.UpdateInPlace | src/store/menuStore.ts:115-134 | an update that keeps the category replaces the dish at its own position with the merged dish |
| Catalog.UpdateMoving | src/store/menuStore.ts:115-148 | a move removes the dish from its old list, keeping the rest in order, and appends the merged dish to the target category |
| Catalog.CategoryIndexSameIds | src/store/menuStore.ts:136-148 | two catalogs with the same category ids in the same order locate a category id at the same index |
| Catalog.UpdateMovingCount | src/store/menuStore.ts:115-148 | a move keeps the dish count when the target exists, and loses the dish when it does not |
| Catalog.UpdateIdempotent | src/store/menuStore.ts:97-163 | applying the same `updateDish` patch twice equals applying it once |
| Catalog.MergeTwice | src/store/menuStore.ts:120 | spreading a patch over a dish twice equals spreading it once |
| Catalog.FixedInPlace | src/store/menuStore.ts:115-134 | an update that would leave the dish as it is leaves the catalog as it is |
| Catalog.FixedAbsent | src/store/menuStore.ts:108-113 | an update of an absent id changes nothing |
| Catalog.IdempotentInPlace | src/store/menuStore.ts:115-134 | repeating an in-place update changes nothing more |
| Catalog.ReplacedOnlyAt | src/store/menuStore.ts:130-133 | replacing the only dish with the id by one with the same id keeps it the only one |
| Catalog.ReplacedAbsent | src/store/menuStore.ts:130-133 | replacing it by one with another id leaves the id absent |
| Catalog.RemovedAbsent | src/store/menuStore.ts:123-128 | removing the only dish with the id leaves the id absent |
| Catalog.AppendedOnlyAt | src/store/menuStore.ts:136-148 | appending a dish with an absent id makes it the only one, at the end of the target |
| Catalog.AppendedAbsent | src/store/menuStore.ts:136-148 | appending a dish with another id keeps an absent id absent |
| Catalog.IdempotentMoving | src/store/menuStore.ts:115-148 | repeating a move changes nothing more |
| Catalog.WithDishDeleted | src/store/menuStore.ts:168-173 | only the dish lists change, and afterwards no category holds a dish with the id |
| Catalog.WithoutDishKeeps | src/store/menuStore.ts:171 | the filter keeps exactly the dishes with another id |
| Catalog.DeleteDishKeepsOthers | src/store/menuStore.ts:168-173 | after `deleteDish`, each category holds exactly its dishes with another id |
| Catalog.WithCategoryAdded | src/store/menuStore.ts:190-192 | the new category is appended after the unchanged old ones |
| Catalog.WithCategoryUpdated | src/store/menuStore.ts:209-215 | categories with the id are merged with the patch, and all others are unchanged |
| Catalog.WithoutCategory | src/store/menuStore.ts:232-234 | no category with the id is left, and the list does not grow |
| Catalog.WithoutCategoryKeeps | src/store/menuStore.ts:232-234 | `deleteCategory` keeps exactly the categories with another id |
| Catalog.WithoutAbsentCategory | src/store/menuStore.ts:232-234 | deleting an absent id changes nothing |
| Catalog.WithoutSingleCategory | src/store/menuStore.ts:232-234 | deleting a category whose id is unique removes just that category, and keeps the order |
| Catalog.AllDishesWithoutEmpty | src/store/menuStore.ts:249-251 | removing a category with no dishes leaves `getAllDishes` unchanged |
| Catalog.AllDishesAt | src/store/menuStore.ts:249-251 | dish `a` of category `i` sits at position `Offset(i) + a` of the flattened list |
| Catalog.OffsetOrdered | src/store/menuStore.ts:249-251 | the dishes of an earlier category all come before those of a later one |
| Catalog.DistinctIdsUnique | src/store/menuStore.ts:249-251 | distinct ids in the flattened list means no two dishes in the catalog share an id |
| Catalog.ParentedListed | src/store/menuStore.ts:254-257 | in a well-formed catalog, `getDishesByCategory(dish.category)` lists the dish |
| Catalog.WithoutDishHolds | src/store/menuStore.ts:171 | filtering keeps a category holding only dishes that name it |
| Catalog.AddKeepsParented | src/store/menuStore.ts:70-81 | `addDish` keeps every dish in the category it names |
| Catalog.UpdateKeepsParented | src/store/menuStore.ts:115-148 | `updateDish` keeps every dish in the category it names, for any patch that does not set the category to the empty string |
| Catalog.UpdatedHolds | src/store/menuStore.ts:115-134 | the first update step keeps a category holding only dishes that name it |
| Catalog.DeleteKeepsParented | src/store/menuStore.ts:168-173 | `deleteDish` keeps every dish in the category it names |
| Seed.SeedShape | src/data/menu.ts:4-232 | the seed menu has five categories and twenty-four dishes, and no category is empty |
| Seed.SeedDishIdsDistinct | src/data/menu.ts:4-232 | the twenty-four seed dish ids are pairwise distinct |
| Seed.IdsOfAppend | src/data/menu.ts:235-237 | the ids of a concatenation are the concatenated ids |
| Seed.SeedCategoryIds | src/data/menu.ts:4-232 | each seed category holds the dishes with its listed ids, in order |
| Seed.SeedAllDishIds | src/data/menu.ts:235-237 | `getAllDishes` on the seed lists the dish ids category by category |
| Seed.IdsOfFive | src/data/menu.ts:235-237 | the flattened ids of five categories are their ids laid end to end |
| Seed.SeedUniqueDishIds | src/data/menu.ts:4-232 | no two seed dishes share an id |
| Seed.SeedWellFormed | src/data/menu.ts:4-232 | seed category ids are unique, every seed dish names the category holding it, and every seed dish has at least one tag |
| Seed.SeedCategoryIdsDistinct | src/data/menu.ts:4-232 | the five seed category ids are distinct |
| Seed.FiveReady | src/data/menu.ts:4-232 | five categories that each hold only their own dishes make a catalog where every dish names its category |
| Seed.CategoriesReady | src/data/menu.ts:4-232 | each seed category holds only its own dishes, each with a tag |
| Seed.SeedDishesByCategory | src/data/menu.ts:240-243 | on the seed, each dish is listed under its own category, and an unknown id lists nothing |
| MenuService.DishRowRoundTrip | src/services/menuService.ts:35-53 | a dish written as a row and read back is the same dish; the row carries the sort order and the category id, and stores absent tags as null |
| MenuService.RowDishRoundTrip | src/services/menuService.ts:35-53 | a row read and written back with its own sort order is the same row |
| MenuService.CategoryRowRoundTrip | src/services/menuService.ts:28-60 | a category row keeps id, name and icon; read back with the category's dishes, it gives the category |
| MenuService.InCategory | src/services/menuService.ts:32 | the filtered dishes all name the category, and the list does not grow |
| MenuService.InCategoryKeeps | src/services/menuService.ts:32 | the filter keeps exactly the dishes naming the category |
| MenuService.InCategoryEvery | src/services/menuService.ts:32 | a list whose dishes all name the category passes whole |
| MenuService.InCategoryNoneOf | src/services/menuService.ts:32 | a list with no dish naming the category passes nothing |
| MenuService.InCategoryAppend | src/services/menuService.ts:32 | the filter keeps input order |
| MenuService.RowsToDishes | src/services/menuService.ts:96 | one dish per row, converted, in order |
| MenuService.Join | src/services/menuService.ts:96-99 | one category per category row, in order, each holding the dishes of its rows; every dish names the category holding it |
| MenuService.JoinPlacesDishes | src/services/menuService.ts:96-99 | a dish row lands in a category exactly when its category id is that category's id |
| MenuService.JoinDropsOrphans | src/services/menuService.ts:96-99 | a dish row appears in the menu exactly when some category row has its category id |
| MenuService.FetchAll | src/services/menuService.ts:65-106 | the seed menu when unconfigured or on an error; the seed menu plus a seeding call when there are no category rows; otherwise the join |
| MenuService.FetchAllWellFormed | src/services/menuService.ts:65-106 | whatever the backend answers, the menu has a category and every dish names the category holding it |
| MenuService.CategoryRows | src/services/menuService.ts:114-116 | one row per category, with its index as sort order |
| MenuService.IndexedRows | src/services/menuService.ts:125-130 | one row per dish, with its index in the category as sort order |
| MenuService.DishRowsAppend | src/services/menuService.ts:125-130 | the rows of one more category come after the earlier ones |
| MenuService.DishRowsAt | src/services/menuService.ts:125-130 | dish `a` of category `i` is written at its `getAllDishes` position, with sort order `a` |
| MenuService.DishRowsLength | src/services/menuService.ts:125-130 | there is one dish row per dish |
| MenuService.DishRowsRead | src/services/menuService.ts:125-130 | the dish rows read back as the flattened menu |
| MenuService.BuildDishRows | src/services/menuService.ts:125-130 | the nested loops produce exactly the rows, category by category, in dish order |
| MenuService.InCategoryOfAll | src/services/menuService.ts:96-99 | in a well-formed menu, the dishes naming a category are exactly that category's dishes, in order |
| MenuService.InCategoryNone | src/services/menuService.ts:96-99 | in a well-formed menu, no dish names an absent category |
| MenuService.SeedRowsRoundTrip | src/services/menuService.ts:109-142 | joining the rows that seeding writes, in the order written, gives back the menu, for any well-formed menu |
| MenuService.SortedUnique | src/services/menuService.ts:73-84 | two lists sorted by one key with the same elements, no two sharing a key, are equal: ties in a sort cannot reorder them |
| MenuService.RowsOfRead | src/services/menuService.ts:32 | filtering the converted rows by category converts the category's rows |
| MenuService.RowsOfCount | src/services/menuService.ts:32 | a row occurs among a category's rows as often as among all rows when it names the category, else never |
| MenuService.RowsOfSorted | src/services/menuService.ts:80-84 | the rows of one category of a list sorted by `sort_order` are sorted |
| MenuService.DishRowsCount | src/services/menuService.ts:125-130 | in a well-formed menu a seeded row naming category `k` occurs as often as among the rows of `k`'s dishes |
| MenuService.DishRowsNamed | src/services/menuService.ts:125-130 | a row naming no category of a well-formed menu is not seeded |
| MenuService.RowsOfSeeded | src/services/menuService.ts:125-130 | whatever their order, the seeded rows naming category `k` are the rows of its dishes |
| MenuService.IndexedRowsSorted | src/services/menuService.ts:127-128 | one category's rows are in ascending sort order, one row per sort order |
| MenuService.CategoryRowsSorted | src/services/menuService.ts:73-76 | the seeded category rows, read in ascending `sort_order`, come back in menu order |
| MenuService.DishRowsSorted | src/services/menuService.ts:80-99 | the seeded dish rows, read in ascending `sort_order`, give each category its dishes in order |
| MenuService.SortedRowsRoundTrip | src/services/menuService.ts:73-142 | seeding and reading back as `fetchAll` does, rows in ascending `sort_order` with ties in any order, rebuilds the menu |
| MenuService.AddedDishRow | src/services/menuService.ts:150-157 | the inserted row reads back as the dish, and its sort order is the count (0 when the count is missing) |
| MenuService.AddedCategoryRow | src/services/menuService.ts:216-222 | the inserted row carries id, name and icon, and its sort order is the count (0 when missing) |
| MenuService.AddedRowsIndexed | src/services/menuService.ts:150-157 | inserting a category's dishes one by one gives each the sort order of its index |
| MenuService.CountInAppend | src/services/menuService.ts:150-153 | one more row of the category raises its count by one; a row of another category leaves it |
| MenuService.DishUpdateRecord | src/services/menuService.ts:172-177 | as written, a column is sent for each patch field present, holding the patch's value, and `tags` only when the patch's tags are defined, holding them |
| MenuService.UpdateRecordAgreesUnlessCleared | src/services/menuService.ts:168-190 | as written, the updated row reads back as the locally merged dish for every patch that keeps the id and does not clear the tags |
| MenuService.DishUpdateRecordFixed | src/services/menuService.ts:172-177 | corrected, `tags` is sent whenever the patch names it, as null when cleared; the other columns are as written |
| MenuService.ClearedTagsReturn | src/services/menuService.ts:177 | a patch that clears a dish's tags leaves them cleared in the store but unchanged in the row sent as written |
| MenuService.UpdateRecordAgrees | src/services/menuService.ts:168-190 | with the corrected record, the updated row reads back as the locally merged dish, and keeps its sort order |
| MenuService.CategoryUpdateRecord | src/services/menuService.ts:237-239 | the record holds `name` exactly when the patch has a name, `icon` exactly when it has an icon, and nothing else |
| MenuService.CategoryRecordAgrees | src/services/menuService.ts:233-252 | the updated category row is the row of the locally merged category |
| MenuService.DeleteCategoryRows | src/services/menuService.ts:255-277 | afterwards no dish row names the category and no category row has the id; all other rows stay |
| MenuService.FilterCategoryRows | src/services/menuService.ts:266-269 | exactly the category rows with another id stay |
| MenuService.FilterDishRows | src/services/menuService.ts:260-263 | exactly the dish rows of other categories stay |
| MenuStore.MenuStore.constructor | src/store/menuStore.ts:39-43 | the store starts on the seed menu, not loading, not initialised and not syncing |
| MenuStore.MenuStore.Sync | src/store/menuStore.ts:84-93 | one remote call is recorded, the syncing flag ends lowered, and nothing else changes |
| MenuStore.MenuStore.Initialize | src/store/menuStore.ts:46-65 | nothing changes once initialised; otherwise the menu is the fetched one (the seed when unconfigured), the store ends initialised and not loading, and the calls issued are recorded |
| MenuStore.MenuStore.AddDish | src/store/menuStore.ts:68-94 | the catalog becomes `WithDishAdded`, and an add call is recorded only when configured |
| MenuStore.MenuStore.FindDish | src/store/menuStore.ts:103-112 | the loop finds the first holder's dish and category id, exactly as `Locate` does |
| MenuStore.MenuStore.UpdateDish | src/store/menuStore.ts:97-163 | nothing at all happens for an absent id; otherwise the catalog becomes `WithDishUpdated`, with a remote call when configured |
| MenuStore.MenuStore.DeleteDish | src/store/menuStore.ts:166-185 | the catalog becomes `WithDishDeleted`, with a remote call when configured |
| MenuStore.MenuStore.AddCategory | src/store/menuStore.ts:188-204 | the category is appended, with a remote call when configured |
| MenuStore.MenuStore.UpdateCategory | src/store/menuStore.ts:207-227 | the categories with the id are merged with the patch, with a remote call when configured |
| MenuStore.MenuStore.DeleteCategory | src/store/menuStore.ts:230-246 | the categories with the id are dropped, with their dishes, and a remote call is made when configured |
| MenuStore.MenuStore.GetDishesByCategory | src/store/menuStore.ts:254-257 | the dishes of the first category with the id, or none |
| MenuStore.MenuStore.GetDishById | src/store/menuStore.ts:260-266 | a dish is returned exactly when some category holds one with the id; it is the first such dish of the first category holding one |
| MenuStore.MenuStore.GetCategoryById | src/store/menuStore.ts:269-271 | a category is returned exactly when one has the id; it is the first category with the id |
| MenuStore.MenuStore.Refresh | src/store/menuStore.ts:274-286 | nothing changes when unconfigured; otherwise the menu is the fetched one and the store ends not loading |
| MenuStore.MenuStore.ResetToDefault | src/store/menuStore.ts:289-295 | the store goes back to the seed menu and, when configured, asks the backend to re-seed |
| CartStore.LineIndex | src/store/cartStore.ts:21 | the first line for the dish, or -1 exactly when there is none |
| CartStore.Bumped | src/store/cartStore.ts:24-28 | every line for the dish changes by `delta`, and the others stay |
| CartStore.WithQuantity | src/store/cartStore.ts:57-59 | every line for the dish gets the quantity, and the others stay |
| CartStore.Dropped | src/store/cartStore.ts:47 | no line for the dish remains, and the cart does not grow |
| CartStore.AddNew | src/store/cartStore.ts:31 | adding a dish not in the cart appends a line with quantity 1 |
| CartStore.AddPresent | src/store/cartStore.ts:22-29 | adding a dish already in the cart raises only its line, by one |
| CartStore.RemoveDecrements | src/store/cartStore.ts:38-45 | removing from a line of more than one lowers only that line, by one |
| CartStore.RemoveDeletes | src/store/cartStore.ts:47 | removing from a line of one deletes that line, and keeps the order of the others |
| CartStore.AbsentUnchanged | src/store/cartStore.ts:35-62 | removing or requantifying a dish not in the cart changes nothing |
| CartStore.DroppedAbsent | src/store/cartStore.ts:47 | filtering out a dish not in the cart changes nothing |
| CartStore.RequantifyPresent | src/store/cartStore.ts:51-62 | a positive quantity sets the dish's line; a non-positive one deletes it |
| CartStore.DroppedSingle | src/store/cartStore.ts:47 | filtering out a dish with one line removes just that line |
| CartStore.DroppedKeeps | src/store/cartStore.ts:47 | the filter keeps exactly the lines of other dishes |
| CartStore.DroppedValid | src/store/cartStore.ts:47 | filtering keeps quantities positive and one line per dish |
| CartStore.AddKeepsValid | src/store/cartStore.ts:19-33 | `addItem` keeps quantities positive and one line per dish |
| CartStore.RemoveKeepsValid | src/store/cartStore.ts:35-49 | `removeItem` keeps quantities positive and one line per dish |
| CartStore.RequantifyKeepsValid | src/store/cartStore.ts:51-62 | `updateQuantity` keeps quantities positive and one line per dish |
| CartStore.TotalAppend | src/store/cartStore.ts:66-68 | an appended line adds its quantity to the total |
| CartStore.TotalUpdate | src/store/cartStore.ts:66-68 | replacing a line changes the total by the difference |
| CartStore.TotalRemove | src/store/cartStore.ts:66-68 | deleting a line subtracts its quantity from the total |
| CartStore.AddRaisesTotal | src/store/cartStore.ts:19-33 | `addItem` raises the total count by exactly one |
| CartStore.RemoveLowersTotal | src/store/cartStore.ts:35-49 | `removeItem` of a dish in the cart lowers the total count by exactly one |
| CartStore.AddThenRemove | src/store/cartStore.ts:19-49 | adding a dish and then removing it gives back the cart |
| CartStore.CartStore.constructor | src/store/cartStore.ts:17 | the cart starts empty |
| CartStore.CartStore.AddItem | src/store/cartStore.ts:19-33 | the items become `Added` of the old items |
| CartStore.CartStore.RemoveItem | src/store/cartStore.ts:35-49 | the items become `Removed` of the old items |
| CartStore.CartStore.UpdateQuantity | src/store/cartStore.ts:51-62 | the items become `Requantified` of the old items |
| CartStore.CartStore.ClearCart | src/store/cartStore.ts:64 | the cart is empty and its total is 0 |
| OrderStore.OrderIdFormat | src/store/orderStore.ts:12-18 | an order id is eight date digits, six time digits, a dash and the upper-cased random part |
| OrderStore.DropSeparators | src/store/orderStore.ts:14-15 | removing the separators from digit groups leaves the digits joined |
| OrderStore.OrderStore.constructor | src/store/orderStore.ts:23 | the history starts empty |
| OrderStore.OrderStore.AddOrder | src/store/orderStore.ts:25-39 | the new order holds exactly the given items, note and name, and goes to the front of the history |
| OrderStore.OrderStore.GetOrders | src/store/orderStore.ts:41 | the history as it is |
| AssetUrl.CleanBase | src/utils/getAssetUrl.ts:12-18 | the base ends in `/`: `/` when unset, otherwise the base with a `/` added if it lacks one |
| AssetUrl.CleanPath | src/utils/getAssetUrl.ts:15 | at most one leading `/` is removed |
| AssetUrl.ExternalUnchanged | src/utils/getAssetUrl.ts:7-9 | http and https links come back unchanged |
| AssetUrl.LocalResolved | src/utils/getAssetUrl.ts:5-21 | any other path is the cleaned base followed by the path without one leading slash |
| AssetUrl.DoubleSlashKeepsOne | src/utils/getAssetUrl.ts:15-20 | a path starting with `//` loses only one slash |
| AssetUrl.RootBaseIdempotent | src/utils/getAssetUrl.ts:5-21 | with base `/`, resolving a resolved path changes nothing |
| StorageService.MimeRun | src/services/storageService.ts:52 | the longest prefix of characters in `[A-Za-z-+/]` |
| StorageService.MimeRunOf | src/services/storageService.ts:52 | a MIME run stops exactly at the first character outside the class |
| StorageService.ParseSound | src/services/storageService.ts:52-58 | an accepted data URL is well formed, and renders back to the same text |
| StorageService.ParseComplete | src/services/storageService.ts:52-58 | every well-formed data URL is accepted, with its own MIME type and payload |
| StorageService.ExtFor | src/services/storageService.ts:62-69 | the extension from the table for the five image types, and `jpg` for anything else |
| StorageService.FileExtension | src/services/storageService.ts:17 | the text after the last dot, which contains no dot |
| StorageService.FileExtensionSplit | src/services/storageService.ts:17 | a name without a dot is its own extension; `stem.ext` gives `ext` |
| StorageService.UploadPath | src/services/storageService.ts:18-19 | the path starts with `dishes/` and ends with `.` and the extension |
| StorageService.UploadImage | src/services/storageService.ts:9-41 | null when unconfigured or when the upload fails; otherwise the path named by time, random text and the file's extension |
| StorageService.UploadBase64Image | src/services/storageService.ts:44-96 | null when unconfigured, when the text is not a data URL, or when the upload fails; otherwise the path carries the extension of the MIME type |
| StorageService.LineRun | src/services/storageService.ts:105 | the longest prefix without a line break |
| StorageService.MatchFrom | src/services/storageService.ts:105 | a match is a non-empty path without line breaks |
| StorageService.NoMarkerNoPath | src/services/storageService.ts:105-106 | a URL path without the bucket marker names no file |
| StorageService.StoragePathOfPublic | src/services/storageService.ts:104-108 | the bucket marker followed by a stored path gives back that path |
| StorageService.LineRunAll | src/services/storageService.ts:105 | a text without line breaks is its own run |
| StorageService.UploadThenDeleteFindsPath | src/services/storageService.ts:72-108 | the path found in an upload's public URL is exactly the path the upload stored |
| StorageService.DeleteImage | src/services/storageService.ts:99-120 | true exactly when configured, the URL parses, its path names a stored file, and the removal succeeds |
| ImageCache.ImageCache.constructor | src/utils/imageCache.ts:4-7 | nothing is cached, nothing is loading, and the invariant holds |
| ImageCache.ImageCache.PreloadImage | src/utils/imageCache.ts:12-43 | a cached src resolves at once; a loading src shares its pending load; otherwise one new load is started and recorded as in flight |
| ImageCache.ImageCache.OnLoad | src/utils/imageCache.ts:27-31 | the loaded src is cached and is no longer in flight |
| ImageCache.ImageCache.OnError | src/utils/imageCache.ts:33-36 | the failed src is neither cached nor in flight, so a later call retries it |
| ImageCache.ImageCache.PreloadImages | src/utils/imageCache.ts:48-55 | every src is cached or in flight afterwards; the loads started are `NewLoads` of the srcs, so exactly the srcs neither cached nor in flight before, once each, in order; earlier loads are kept; each result is resolved exactly when its src was cached, and otherwise names the src's load in flight |
| ImageCache.NewLoadsSpec | src/utils/imageCache.ts:12-55 | a batch starts a load for exactly the srcs that were not known, and never twice for one src |
| ImageCache.ProgressStep | src/utils/imageCache.ts:48-55 | one more `preloadImage` call keeps the loop state of `preloadImages` |
| ImageCache.StepStarted | src/utils/imageCache.ts:23-42 | one more src starts a load exactly when it was neither known nor seen earlier in the list |
| ImageCache.StepLoading | src/utils/imageCache.ts:12-42 | one more src is put in flight unless cached, and the loads in flight stay |
| ImageCache.StepResults | src/utils/imageCache.ts:14-21 | one more result is resolved exactly when its src is cached, and otherwise names its load in flight |
| ImageCache.ImageCache.IsImageCached | src/utils/imageCache.ts:60-62 | true exactly when the src is cached |
| ImageCache.ImageCache.GetCachedImage | src/utils/imageCache.ts:67-69 | the cached image exactly when there is one |
| ImageCache.ImageCache.ClearImageCache | src/utils/imageCache.ts:74-76 | the cache is emptied, and loads in flight go on |
| ImageCache.ImageCache.GetCacheSize | src/utils/imageCache.ts:81-83 | the number of cached srcs, which is 0 exactly when the cache is empty |
| ImageCache.InitCache | src/utils/imageCache.ts:93-99 | afterwards the version is current; storage at the current version is untouched; otherwise the image entry is removed |
| ImageCache.InitCacheIdempotent | src/utils/imageCache.ts:93-99 | initialising twice is initialising once |
| ImageCache.ImageFromStorage | src/utils/imageCache.ts:139-146 | the stored non-empty image for the src exactly when the entry is an object holding one; null otherwise |
| ImageCache.OutdatedCacheEmpty | src/utils/imageCache.ts:93-146 | after initialising an outdated cache, no stored image is found |
| ImageCache.LocalStorage.constructor | src/utils/imageCache.ts:93-99 | the storage starts with the given entries |
| ImageCache.LocalStorage.InitLocalStorageCache | src/utils/imageCache.ts:93-99 | the entries become `InitCache` of the old entries |
| ImagePreloader.ImageUrls | src/hooks/useImagePreloader.ts:37 | each dish's image resolved by `getAssetUrl`, in order |
| ImagePreloader.NotPreloaded | src/hooks/useImagePreloader.ts:13-15 | a url is kept exactly when it is in the list and not preloaded |
| ImagePreloader.NotPreloadedAppend | src/hooks/useImagePreloader.ts:13-15 | the filter keeps list order: filtering a joined list joins the filtered parts |
| ImagePreloader.NotPreloadedSingle | src/hooks/useImagePreloader.ts:13-15 | a single url is kept exactly when it was not preloaded |
| ImagePreloader.NothingLeft | src/hooks/useImagePreloader.ts:13-17 | once every url is preloaded nothing is requested |
| ImagePreloader.Batch | src/hooks/useImagePreloader.ts:40 | `images.slice(start, start + 6)`: six images, the rest, or none |
| ImagePreloader.BatchesCover | src/hooks/useImagePreloader.ts:39-49 | the batches laid end to end are all the images, in order, each loaded once |
| ImagePreloader.BatchSizes | src/hooks/useImagePreloader.ts:36-41 | every batch holds one to six images, and all but the last exactly six |
| ImagePreloader.BatchCount | src/hooks/useImagePreloader.ts:36-49 | the number of batches is the image count divided by six, rounded up |
| ImagePreloader.ImagePreloader.constructor | src/hooks/useImagePreloader.ts:10 | nothing is preloaded and nothing is pending |
| ImagePreloader.ImagePreloader.Request | src/hooks/useImagePreloader.ts:12-22 | the urls not yet preloaded go to the cache, which loads or has each; nothing is requested when there are none |
| ImagePreloader.ImagePreloader.Complete | src/hooks/useImagePreloader.ts:18-20 | once a request settles, all its urls count as preloaded |
| ImagePreloader.MenuImagePreloader.constructor | src/hooks/useImagePreloader.ts:29 | the preloader has not run and has handed nothing over |
| ImagePreloader.MenuImagePreloader.LoadBatch | src/hooks/useImagePreloader.ts:39-47 | the batch at the cursor goes to the cache unless it is empty; once none is left, every batch has been handed over |
| ImagePreloader.MenuImagePreloader.Run | src/hooks/useImagePreloader.ts:31-50 | it runs at most once; the first run resolves all images and hands over the first batch |
| ImagePreloader.MenuImagePreloader.BatchSettled | src/hooks/useImagePreloader.ts:43-46 | after a batch settles the next one goes to the cache; when none is left, all batches were handed over, in order |
| CategoryEditor.AsPatch | src/components/CategoryEditModal.tsx:62-70 | spreading the whole record over any category gives the record |
| CategoryEditor.SaveCategory | src/components/CategoryEditModal.tsx:56-76 | refused exactly when the name trims to nothing; an update when editing, else an add; the trimmed name, the icon, and the open category's id and dishes |
| CategoryEditor.AllDishesSameDishes | src/components/CategoryEditModal.tsx:66 | replacing a category by one with the same dishes keeps `getAllDishes` |
| CategoryEditor.EditSaveInPlace | src/components/CategoryEditModal.tsx:56-76 | saving an open category changes it in place; no dish moves; the catalog stays well formed |
| CategoryEditor.AddSaveAppends | src/components/CategoryEditModal.tsx:56-76 | adding appends an empty category; no dish moves; the catalog stays well formed for a fresh id |
| CategoryEditor.DeleteCategory | src/components/CategoryEditModal.tsx:79-98 | the guards in order: nothing open, dishes left (with their count), the last category, then the confirmation |
| CategoryEditor.GuardedDeleteKeeps | src/components/CategoryEditModal.tsx:79-98 | a delete through the dialog removes exactly that category, leaves at least one, and loses no dish |
| DishEditor.CheckFile | src/components/DishEditModal.tsx:68-95 | no file, then a non-image type, then over 5 MB, else the file is read; each case exactly when its condition holds |
| DishEditor.TagAdded | src/components/DishEditModal.tsx:110-117 | a non-empty new trimmed tag is appended at the end; otherwise the list is unchanged |
| DishEditor.AddKeepsDistinct | src/components/DishEditModal.tsx:112 | adding keeps the tag list free of duplicates |
| DishEditor.TagRemoved | src/components/DishEditModal.tsx:120-122 | every occurrence of the tag is removed, and the others stay |
| DishEditor.TagRemovedAppend | src/components/DishEditModal.tsx:120-122 | removal keeps the order of the other tags: removing from a joined list joins the parts removed from |
| DishEditor.TagRemovedSingle | src/components/DishEditModal.tsx:120-122 | a single tag stays exactly when it is not the removed one |
| DishEditor.RemoveKeepsDistinct | src/components/DishEditModal.tsx:120-122 | removing keeps the tag list free of duplicates |
| DishEditor.AddThenRemoveTag | src/components/DishEditModal.tsx:110-122 | adding a new tag and removing it gives back the list |
| DishEditor.Unchosen | src/components/DishEditModal.tsx:392 | exactly the presets not chosen, in preset order |
| DishEditor.Suggestions | src/components/DishEditModal.tsx:392 | at most twelve unchosen presets, a prefix of them in order, and all of them when there are at most twelve |
| DishEditor.FreshSuggestions | src/components/DishEditModal.tsx:16-20 | with no tag chosen the first twelve presets are offered |
| DishEditor.Untrimmed | src/components/DishEditModal.tsx:111 | a text without surrounding white space trims to itself |
| DishEditor.PresetsPlain | src/components/DishEditModal.tsx:16-20 | no preset tag is empty or has white space around it |
| DishEditor.SuggestionAppends | src/components/DishEditModal.tsx:392-395 | pressing a suggestion appends exactly that preset |
| DishEditor.AsPatch | src/components/DishEditModal.tsx:131-141 | spreading the whole record over any dish gives the record, and the patch names the tags even when they are undefined |
| DishEditor.DishForm.constructor | src/components/DishEditModal.tsx:34-40 | every field starts empty |
| DishEditor.DishForm.Open | src/components/DishEditModal.tsx:45-65 | the dish's fields when editing; otherwise empty fields and the default or first category |
| DishEditor.DishForm.AddTag | src/components/DishEditModal.tsx:110-117 | the tags become `TagAdded` of the trimmed tag, stay duplicate-free, and the tag input is closed and emptied |
| DishEditor.DishForm.RemoveTag | src/components/DishEditModal.tsx:120-122 | the tags become `TagRemoved` and stay duplicate-free; other fields are unchanged |
| DishEditor.DishForm.Save | src/components/DishEditModal.tsx:125-147 | refused exactly when the name trims to nothing or no category is chosen; otherwise trimmed fields, the default image for an empty one, and tags absent exactly when the list is empty |
| DishEditor.ClearedTagsThroughDialog | src/components/DishEditModal.tsx:137 | saving with every tag removed clears the tags in the store, but the row written as-is keeps the old tags; the corrected record matches the store |
| OrderPage.DishLine | src/components/OrderPage.tsx:69 | `- <name> × <quantity>` |
| OrderPage.DishLines | src/components/OrderPage.tsx:68-69 | one line per cart item, in cart order |
| OrderPage.DishListGrows | src/components/OrderPage.tsx:68-70 | one item gives its line; each further item adds a newline and its line |
| OrderPage.NoteText | src/components/OrderPage.tsx:80 | an empty note shows as `无`; any other note shows as typed |
| OrderPage.TrimEndSpace | src/components/OrderPage.tsx:87 | trimming the end of all-white-space text leaves nothing |
| OrderPage.SummaryIsBody | src/components/OrderPage.tsx:72-87 | the trimmed template is exactly its sections when the time text does not end in white space |
| OrderPage.BodyEnds | src/components/OrderPage.tsx:72-86 | the sections start with `#` and end with the time text |
| OrderPage.TemplateSpace | src/components/OrderPage.tsx:72-87 | what the template puts around the sections is white space |
| OrderPage.Notify | src/components/OrderPage.tsx:24-48 | nothing is sent exactly when there is no key; otherwise the summary is posted to the key's endpoint, and succeeds exactly when the reply is ok |
| OrderPage.Notice | src/components/OrderPage.tsx:72-90 | the notification a submission sends carries the summary of the name, items, note, order id and time |
| OrderPage.OrderPage.constructor | src/components/OrderPage.tsx:18-21 | the name and note are empty, the flags are down, and there are no effects yet |
| OrderPage.OrderPage.Submit | src/components/OrderPage.tsx:50-112 | a blank name, then an empty cart, is refused with no change; the order is submitted exactly when the name is not blank and the cart is not empty; it is then recorded, then the notice is sent, then the cart is cleared, and the page shows success |
| OrderPage.OrderPage.SuccessShown | src/components/OrderPage.tsx:99-104 | the success timer resets the message, the name and the note |

## Left out

- Supabase network I/O is not modelled. Each query's outcome is a parameter:
  - a `FetchReply`;
  - an `uploaded` or `removed` flag;
  - a count reply;
  - whether a backend is configured.
  The stores record the calls they issue in a `sent` trace.
- Asynchronous interleaving is not modelled.
  - Each `await` is a point at which the rest of the action runs.
  - Two store actions never overlap.
  - The 100 ms timer of the menu preloader is the `BatchSettled` step.
  - The 2.5 s success timer of the order page is the `SuccessShown` step.
- The zustand `persist` middleware (saving to and loading from localStorage) is not
  modelled. It is a library effect with no logic of its own here.
- Rendering, React components, framer-motion animation and `CachedImage` are not
  modelled. They draw the state and hold no logic beyond it.
- `imageCompressor` is not part of this model.
- `cacheImageToLocalStorage` is not modelled, because it is all I/O:
  - `fetch`;
  - `FileReader`;
  - `localStorage.setItem` with a quota error.
- `ImageCache.LocalStorage.GetImageFromLocalStorage` simply delegates to
  `ImageCache.ImageFromStorage`, which carries the contract.
- Parsing the JSON text in localStorage is reduced to the `Stored` datatype: an object of
  strings, or any other text. This does not model:
  - an object whose values are not strings;
  - lookups of prototype keys such as `__proto__` or `toString`.
- `StorageService.ExtFor`: a MIME type that names a prototype member of the `extMap`
  object is treated like any unknown type, giving `jpg`.
- `StorageService.UploadBase64Image`: when `atob` fails on the payload the upload returns
  null. This failure is folded into the `uploaded` parameter. The model does not decode
  base64.
- `StorageService.UploadImage` and `StorageService.UploadBase64Image` return the storage path.
  The real functions return the public URL, which is the bucket's host and the marker
  followed by that path. `StorageService.UploadThenDeleteFindsPath` states the link
  between the two.
- `DeleteImage` receives `new URL(...)`'s path as a parameter. URL parsing is not
  modelled, and the parameter is `None` when parsing fails.
- The dish dialog's `handleDelete` (`src/components/DishEditModal.tsx:150-155`) is not
  modelled. It only asks for confirmation and then calls `deleteDish`, which is modelled.
  The image-upload handlers' `FileReader` and compressor calls are not modelled either.
- `menuService.deleteDish` (`src/services/menuService.ts:193-208`) is a single
  `delete().eq('id', …)`. Its local counterpart is modelled; the remote call appears only as
  `DeleteDishCall` in the trace.
- The category dialog's form state and its icon presets are not a class here, because
  `handleSave` reads only the name and the icon. The dialog is modelled through
  `CategoryEditor.SaveCategory`.
- `OrderPage.OrderPage.Submit`: its `catch` branch is not modelled. It would be reached
  only by an exception from the store or the notification. The notification catches its own
  errors, and the store's actions do not throw.
- `MenuService.SortedRowsRoundTrip` assumes each query returns exactly the rows seeding
  wrote, in some order. It does not model rows written by another client, or two seeded
  dishes sharing an id, whose upserts would collapse into one row.
- Clock readings are not modelled as clocks. `toISOString`, `toTimeString` and
  `toLocaleString('zh-CN')` are text parameters, so which time zone each uses is not
  modelled. `OrderStore.OrderIdFormat` assumes the texts have their documented shapes.
- `MenuService.AddedDishRow`: when two dishes are added at the same time, two rows may
  get the same sort order. This is not modelled, because actions do not interleave here.
- `Catalog.UpdateKeepsParented` requires that the patch does not set the category to the
  empty string. A patch with `category: ""` does not move the dish, because `""` is
  falsy, but it does rename the dish's category to `""`. The dish then no longer names the
  category holding it, so the property does not hold for such a patch.
- `MenuStore.MenuStore.GetAllDishes` and `CartStore.CartStore.GetTotalCount` have no
  contract of their own. They return `Catalog.AllDishes` and `CartStore.Total`, about which
  the lemmas above are stated.

## Findings

| source | as written | input that shows it | evidently intended | confidence | as-written member | corrected member |
|---|---|---|---|---|---|---|
| src/services/menuService.ts:177 | the update record sends `tags` only when `dish.tags !== undefined`; the dish dialog saves an empty tag list as `tags: undefined` (`src/components/DishEditModal.tsx:137`), so clearing every tag of a dish never reaches the database | update dish `hongshaorou`, tagged `["下饭"]`, with the patch `{ tags: undefined }` produced by saving with no tags: the store drops the tags, the row keeps `["下饭"]`, and the next fetch brings them back | a patch that names `tags`, even as undefined, writes the column, as null when cleared, so the row reads back as the dish the store holds | not executed | MenuService.DishUpdateRecord, MenuService.ClearedTagsReturn, DishEditor.ClearedTagsThroughDialog | MenuService.DishUpdateRecordFixed, MenuService.UpdateRecordAgrees |
