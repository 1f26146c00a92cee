/** The database side of the menu: the `categories` and `dishes` table rows, the converters
    between rows and records, the join that rebuilds the menu from the rows, the rows written
    when the database is seeded, and the update records sent for a changed dish or category.
    The queries themselves are I/O: their replies are parameters here. */
module MenuService {
  import opened Types
  import opened Catalog
  import Seed

  /** A row of the `categories` table (timestamps omitted). */
  datatype DbCategory = DbCategory(id: string, name: string, icon: string, sortOrder: int)

  /** A row of the `dishes` table (timestamps omitted); `tags` is a nullable column. */
  datatype DbDish = DbDish(
    id: string,
    name: string,
    description: string,
    image: string,
    categoryId: string,
    tags: Option<seq<string>>,
    sortOrder: int)

  // ---------------------------------------------------------------------------------------
  // Converters

  /** `dbDishToDish`: `category_id` becomes `category`; a null tag column becomes an absent
      tag list (`tags || undefined`; an empty array is kept, arrays being truthy). */
  function RowToDish(row: DbDish): Dish {
    Dish(row.id, row.name, row.description, row.image, row.categoryId, row.tags)
  }

  /** `dishToDbDish(dish, sortOrder)`: an absent tag list is stored as null. */
  function DishToRow(d: Dish, sortOrder: int): DbDish {
    DbDish(d.id, d.name, d.description, d.image, d.category, d.tags, sortOrder)
  }

  /** `categoryToDbCategory(category, sortOrder)`: the dish list is not part of the row. */
  function CategoryToRow(c: Category, sortOrder: int): DbCategory {
    DbCategory(c.id, c.name, c.icon, sortOrder)
  }

  /** Reading back a written dish row gives the dish, whatever sort order it was stored with. */
  lemma DishRowRoundTrip(d: Dish, sortOrder: int)
    ensures RowToDish(DishToRow(d, sortOrder)) == d
    ensures DishToRow(d, sortOrder).sortOrder == sortOrder
    ensures DishToRow(d, sortOrder).categoryId == d.category
    ensures d.tags == None <==> DishToRow(d, sortOrder).tags == None
  {
  }

  /** Writing back a read row with its own sort order gives the row. */
  lemma RowDishRoundTrip(row: DbDish)
    ensures DishToRow(RowToDish(row), row.sortOrder) == row
  {
  }

  /** A category row keeps id, name and icon; with the dishes of the category it reads back
      as the category. */
  lemma CategoryRowRoundTrip(c: Category, sortOrder: int)
    ensures var row := CategoryToRow(c, sortOrder);
      && row.sortOrder == sortOrder
      && Category(row.id, row.name, row.icon, c.dishes) == c
  {
  }

  // ---------------------------------------------------------------------------------------
  // The join in fetchAll

  /** `dishes.filter(d => d.category === id)`. */
  function InCategory(ds: seq<Dish>, id: string): (r: seq<Dish>)
    ensures |r| <= |ds|
    ensures forall j :: 0 <= j < |r| ==> r[j].category == id
  {
    if ds == [] then []
    else (if ds[0].category == id then [ds[0]] else []) + InCategory(ds[1..], id)
  }

  /** The filter keeps exactly the dishes of the category. */
  lemma {:induction false} InCategoryKeeps(ds: seq<Dish>, id: string, d: Dish)
    ensures d in InCategory(ds, id) <==> d in ds && d.category == id
  {
    if ds != [] {
      InCategoryKeeps(ds[1..], id, d);
      assert ds == [ds[0]] + ds[1..];
    }
  }

  /** A list whose dishes all name the category passes the filter whole. */
  lemma {:induction false} InCategoryEvery(ds: seq<Dish>, id: string)
    requires forall j :: 0 <= j < |ds| ==> ds[j].category == id
    ensures InCategory(ds, id) == ds
  {
    if ds != [] {
      InCategoryEvery(ds[1..], id);
      assert [ds[0]] + ds[1..] == ds;
    }
  }

  /** A list none of whose dishes names the category passes nothing. */
  lemma {:induction false} InCategoryNoneOf(ds: seq<Dish>, id: string)
    requires forall j :: 0 <= j < |ds| ==> ds[j].category != id
    ensures InCategory(ds, id) == []
  {
    if ds != [] {
      InCategoryNoneOf(ds[1..], id);
    }
  }

  /** The filter keeps input order: filtering a concatenation concatenates the filtered parts. */
  lemma {:induction false} InCategoryAppend(a: seq<Dish>, b: seq<Dish>, id: string)
    ensures InCategory(a + b, id) == InCategory(a, id) + InCategory(b, id)
  {
    if a == [] {
      assert a + b == b;
    } else {
      assert (a + b)[0] == a[0];
      assert (a + b)[1..] == a[1..] + b;
      InCategoryAppend(a[1..], b, id);
    }
  }

  /** `dbCategoryToCategory(row, dishes)`. */
  function RowToCategory(row: DbCategory, dishes: seq<Dish>): Category {
    Category(row.id, row.name, row.icon, InCategory(dishes, row.id))
  }

  /** `(dishesData || []).map(dbDishToDish)`. */
  function RowsToDishes(rows: seq<DbDish>): (r: seq<Dish>)
    ensures |r| == |rows|
    ensures forall j :: 0 <= j < |rows| ==> r[j] == RowToDish(rows[j])
  {
    seq(|rows|, j requires 0 <= j < |rows| => RowToDish(rows[j]))
  }

  /** The menu `fetchAll` rebuilds from the two tables' rows: one category per category row,
      in row order, each holding the dishes whose `category_id` is its id, in row order. */
  function Join(catRows: seq<DbCategory>, dishRows: seq<DbDish>): (r: seq<Category>)
    ensures |r| == |catRows|
    ensures forall i :: 0 <= i < |r| ==>
      r[i].id == catRows[i].id && r[i].name == catRows[i].name && r[i].icon == catRows[i].icon
    ensures Parented(r)
  {
    var dishes := RowsToDishes(dishRows);
    seq(|catRows|, i requires 0 <= i < |catRows| => RowToCategory(catRows[i], dishes))
  }

  /** A dish row lands in a category of the join exactly when that category's row has the id
      the dish row names; a dish row whose category has no row is dropped. */
  lemma JoinPlacesDishes(catRows: seq<DbCategory>, dishRows: seq<DbDish>, i: nat, row: DbDish)
    requires i < |catRows|
    ensures RowToDish(row) in Join(catRows, dishRows)[i].dishes <==>
      RowToDish(row) in RowsToDishes(dishRows) && row.categoryId == catRows[i].id
  {
    InCategoryKeeps(RowsToDishes(dishRows), catRows[i].id, RowToDish(row));
  }

  /** A dish row appears in the rebuilt menu exactly when some category row has its
      `category_id`. */
  lemma JoinDropsOrphans(catRows: seq<DbCategory>, dishRows: seq<DbDish>, row: DbDish)
    requires row in dishRows
    ensures RowToDish(row) in AllDishes(Join(catRows, dishRows)) <==>
      exists i :: 0 <= i < |catRows| && catRows[i].id == row.categoryId
  {
    var m := Join(catRows, dishRows);
    var d := RowToDish(row);
    var j :| 0 <= j < |dishRows| && dishRows[j] == row;
    assert RowsToDishes(dishRows)[j] == d;
    AllDishesHolds(m, d);
    if exists i :: 0 <= i < |catRows| && catRows[i].id == row.categoryId {
      var i :| 0 <= i < |catRows| && catRows[i].id == row.categoryId;
      JoinPlacesDishes(catRows, dishRows, i, row);
    }
    if d in AllDishes(m) {
      var i :| 0 <= i < |m| && d in m[i].dishes;
      JoinPlacesDishes(catRows, dishRows, i, row);
    }
  }

  // ---------------------------------------------------------------------------------------
  // fetchAll

  /** The reply to the two `select` queries of `fetchAll`, rows in `sort_order` order as the
      queries request; `Failed` when either query reported an error or threw. A null
      `dishesData` is an empty list. */
  datatype FetchReply = Failed | Rows(categories: seq<DbCategory>, dishes: seq<DbDish>)

  /** What `fetchAll` resolves to, and whether it started seeding the database. */
  datatype Fetched = Fetched(menu: seq<Category>, seeded: bool)

  /** `fetchAll`: the seed menu when the backend is unconfigured, on an error, or when the
      categories table is empty (after asking for the tables to be seeded); otherwise the
      join of the rows. */
  function FetchAll(configured: bool, reply: FetchReply): (r: Fetched)
    ensures !configured || reply.Failed? ==> r == Fetched(Seed.MenuData(), false)
    ensures configured && reply.Rows? && reply.categories == [] ==> r == Fetched(Seed.MenuData(), true)
    ensures configured && reply.Rows? && reply.categories != [] ==>
      r == Fetched(Join(reply.categories, reply.dishes), false)
  {
    if !configured then Fetched(Seed.MenuData(), false)
    else match reply
      case Failed => Fetched(Seed.MenuData(), false)
      case Rows(cats, dishes) =>
        if cats == [] then Fetched(Seed.MenuData(), true) else Fetched(Join(cats, dishes), false)
  }

  /** Whatever the backend answers, the fetched menu has at least one category and every dish
      in it names the category holding it. */
  lemma FetchAllWellFormed(configured: bool, reply: FetchReply)
    ensures |FetchAll(configured, reply).menu| > 0
    ensures Parented(FetchAll(configured, reply).menu)
  {
    Seed.SeedShape();
    Seed.SeedWellFormed();
  }

  // ---------------------------------------------------------------------------------------
  // initializeData

  /** `menuData.map((cat, index) => categoryToDbCategory(cat, index))`. */
  function CategoryRows(menu: seq<Category>): (r: seq<DbCategory>)
    ensures |r| == |menu|
    ensures forall i :: 0 <= i < |menu| ==> r[i] == CategoryToRow(menu[i], i)
  {
    seq(|menu|, i requires 0 <= i < |menu| => CategoryToRow(menu[i], i))
  }

  /** The rows of one category's dishes, each with its index in the category as sort order. */
  function IndexedRows(ds: seq<Dish>): (r: seq<DbDish>)
    ensures |r| == |ds|
    ensures forall a :: 0 <= a < |ds| ==> r[a] == DishToRow(ds[a], a)
  {
    seq(|ds|, a requires 0 <= a < |ds| => DishToRow(ds[a], a))
  }

  /** The dish rows `initializeData` upserts: category by category, in dish order. */
  function DishRows(menu: seq<Category>): seq<DbDish> {
    if menu == [] then [] else IndexedRows(menu[0].dishes) + DishRows(menu[1..])
  }

  lemma {:induction false} DishRowsAppend(menu: seq<Category>, c: Category)
    ensures DishRows(menu + [c]) == DishRows(menu) + IndexedRows(c.dishes)
  {
    if menu == [] {
      assert [c][1..] == [];
    } else {
      assert (menu + [c])[1..] == menu[1..] + [c];
      DishRowsAppend(menu[1..], c);
    }
  }

  /** Dish `a` of category `i` is written at the position it has in `getAllDishes`, with its
      index within its own category as sort order. */
  lemma {:induction false} DishRowsAt(menu: seq<Category>, i: nat, a: nat)
    requires i < |menu| && a < |menu[i].dishes|
    ensures |DishRows(menu)| == |AllDishes(menu)|
    ensures Offset(menu, i) + a < |DishRows(menu)|
    ensures DishRows(menu)[Offset(menu, i) + a] == DishToRow(menu[i].dishes[a], a)
    decreases i
  {
    DishRowsLength(menu);
    AllDishesAt(menu, i, a);
    if i > 0 {
      DishRowsAt(menu[1..], i - 1, a);
    }
  }

  lemma {:induction false} DishRowsLength(menu: seq<Category>)
    ensures |DishRows(menu)| == |AllDishes(menu)|
  {
    if menu != [] {
      DishRowsLength(menu[1..]);
    }
  }

  /** The dish rows read back as the flattened menu. */
  lemma {:induction false} DishRowsRead(menu: seq<Category>)
    ensures RowsToDishes(DishRows(menu)) == AllDishes(menu)
  {
    if menu != [] {
      DishRowsRead(menu[1..]);
      var head := IndexedRows(menu[0].dishes);
      var tail := DishRows(menu[1..]);
      assert RowsToDishes(head + tail) == RowsToDishes(head) + RowsToDishes(tail);
      assert RowsToDishes(head) == menu[0].dishes;
    }
  }

  /** The nested `forEach` loops of `initializeData` that collect the dish rows. */
  method BuildDishRows(menu: seq<Category>) returns (rows: seq<DbDish>)
    ensures rows == DishRows(menu)
  {
    rows := [];
    var i := 0;
    while i < |menu|
      invariant 0 <= i <= |menu|
      invariant rows == DishRows(menu[..i])
    {
      var ds := menu[i].dishes;
      var a := 0;
      while a < |ds|
        invariant 0 <= a <= |ds|
        invariant rows == DishRows(menu[..i]) + IndexedRows(ds[..a])
      {
        assert IndexedRows(ds[..a + 1]) == IndexedRows(ds[..a]) + [DishToRow(ds[a], a)];
        rows := rows + [DishToRow(ds[a], a)];
        a := a + 1;
      }
      assert ds[..a] == ds;
      DishRowsAppend(menu[..i], menu[i]);
      assert menu[..i + 1] == menu[..i] + [menu[i]];
      i := i + 1;
    }
    assert menu[..i] == menu;
  }

  /** In a well-formed menu the dishes naming a category are exactly that category's dishes,
      in order. */
  lemma {:induction false} InCategoryOfAll(menu: seq<Category>, k: nat)
    requires UniqueCategoryIds(menu) && Parented(menu)
    requires k < |menu|
    ensures InCategory(AllDishes(menu), menu[k].id) == menu[k].dishes
  {
    var id := menu[k].id;
    var tail := menu[1..];
    assert AllDishes(menu) == menu[0].dishes + AllDishes(tail);
    InCategoryAppend(menu[0].dishes, AllDishes(tail), id);
    assert Parented(tail) by {
      forall i, a | 0 <= i < |tail| && 0 <= a < |tail[i].dishes| ensures tail[i].dishes[a].category == tail[i].id {
        assert tail[i] == menu[i + 1];
      }
    }
    if k == 0 {
      InCategoryEvery(menu[0].dishes, id);
      forall i | 0 <= i < |tail| ensures tail[i].id != id {
        assert tail[i] == menu[i + 1];
      }
      InCategoryNone(tail, id);
    } else {
      InCategoryNoneOf(menu[0].dishes, id);
      assert tail[k - 1] == menu[k];
      assert UniqueCategoryIds(tail) by {
        forall i, j | 0 <= i < j < |tail| ensures tail[i].id != tail[j].id {
          assert tail[i] == menu[i + 1] && tail[j] == menu[j + 1];
        }
      }
      InCategoryOfAll(tail, k - 1);
    }
  }

  lemma {:induction false} InCategoryNone(menu: seq<Category>, id: string)
    requires Parented(menu)
    requires forall i :: 0 <= i < |menu| ==> menu[i].id != id
    ensures InCategory(AllDishes(menu), id) == []
  {
    if menu != [] {
      InCategoryAppend(menu[0].dishes, AllDishes(menu[1..]), id);
      InCategoryNoneOf(menu[0].dishes, id);
      InCategoryNone(menu[1..], id);
    }
  }

  /** Seeding and reading back: joining the category rows and dish rows `initializeData`
      writes for a well-formed menu rebuilds that menu. */
  lemma SeedRowsRoundTrip(menu: seq<Category>)
    requires UniqueCategoryIds(menu) && Parented(menu)
    ensures Join(CategoryRows(menu), DishRows(menu)) == menu
  {
    var m := Join(CategoryRows(menu), DishRows(menu));
    DishRowsRead(menu);
    forall k | 0 <= k < |menu| ensures m[k] == menu[k] {
      InCategoryOfAll(menu, k);
    }
  }

  // ---------------------------------------------------------------------------------------
  // Reading the seeded rows back in `sort_order` order

  /** A list in ascending order of a key; equal keys may come in any order. */
  ghost predicate SortedBy<T>(s: seq<T>, key: T -> int) {
    forall i, j :: 0 <= i < j < |s| ==> key(s[i]) <= key(s[j])
  }

  function CategoryOrder(row: DbCategory): int { row.sortOrder }

  function DishOrder(row: DbDish): int { row.sortOrder }

  /** Two lists sorted by the same key and holding the same elements, no two different
      elements sharing a key, are the same list: a sort with ties in any order cannot
      reorder them. */
  lemma {:induction false} SortedUnique<T>(a: seq<T>, b: seq<T>, key: T -> int)
    requires multiset(a) == multiset(b)
    requires SortedBy(a, key) && SortedBy(b, key)
    requires forall x, y :: x in b && y in b && key(x) == key(y) ==> x == y
    ensures a == b
    decreases |b|
  {
    assert |a| == |multiset(a)| == |multiset(b)| == |b|;
    if b != [] {
      SortedHead(a, b, key);
      SortedTail(a, key);
      SortedTail(b, key);
      var rest := b[1..];
      forall x, y | x in rest && y in rest && key(x) == key(y) ensures x == y {
        assert x in b && y in b;
      }
      SortedUnique(a[1..], rest, key);
    }
  }

  /** Of two sorted lists with the same elements, no two sharing a key, the first elements
      agree. */
  lemma SortedHead<T>(a: seq<T>, b: seq<T>, key: T -> int)
    requires multiset(a) == multiset(b) && b != []
    requires SortedBy(a, key) && SortedBy(b, key)
    requires forall x, y :: x in b && y in b && key(x) == key(y) ==> x == y
    ensures a != [] && a[0] == b[0]
    ensures multiset(a[1..]) == multiset(b[1..])
  {
    assert |a| == |multiset(a)| == |multiset(b)| == |b|;
    assert a[0] in multiset(a) && b[0] in multiset(b);
    var j :| 0 <= j < |b| && b[j] == a[0];
    var i :| 0 <= i < |a| && a[i] == b[0];
    assert key(b[0]) <= key(b[j]) && key(a[0]) <= key(a[i]);
    SameTail(a, b);
  }

  /** Taking the same first element from two lists with the same elements leaves the same
      elements. */
  lemma SameTail<T>(a: seq<T>, b: seq<T>)
    requires multiset(a) == multiset(b) && a != [] && b != [] && a[0] == b[0]
    ensures multiset(a[1..]) == multiset(b[1..])
  {
    assert a == [a[0]] + a[1..] && b == [b[0]] + b[1..];
    assert multiset(a[1..]) == multiset(a) - multiset{a[0]};
    assert multiset(b[1..]) == multiset(b) - multiset{b[0]};
  }

  lemma SortedTail<T>(s: seq<T>, key: T -> int)
    requires SortedBy(s, key) && s != []
    ensures SortedBy(s[1..], key)
  {
    forall i, j | 0 <= i < j < |s[1..]| ensures key(s[1..][i]) <= key(s[1..][j]) {
      assert s[1..][i] == s[i + 1] && s[1..][j] == s[j + 1];
    }
  }

  /** `filter` on the dish rows: the rows naming a category, in row order. */
  function RowsOf(rows: seq<DbDish>, id: string): seq<DbDish> {
    if rows == [] then [] else (if rows[0].categoryId == id then [rows[0]] else []) + RowsOf(rows[1..], id)
  }

  /** Filtering the converted rows by category is converting the rows of the category. */
  lemma {:induction false} RowsOfRead(rows: seq<DbDish>, id: string)
    ensures InCategory(RowsToDishes(rows), id) == RowsToDishes(RowsOf(rows, id))
  {
    if rows != [] {
      var ds := RowsToDishes(rows);
      assert ds[1..] == RowsToDishes(rows[1..]);
      RowsOfRead(rows[1..], id);
      var head := if rows[0].categoryId == id then [rows[0]] else [];
      assert RowsToDishes(head + RowsOf(rows[1..], id)) == RowsToDishes(head) + RowsToDishes(RowsOf(rows[1..], id));
    }
  }

  /** A row occurs among the rows of a category as often as among all rows when it names the
      category, and not at all otherwise. */
  lemma {:induction false} RowsOfCount(rows: seq<DbDish>, id: string, x: DbDish)
    ensures multiset(RowsOf(rows, id))[x] == if x.categoryId == id then multiset(rows)[x] else 0
  {
    if rows != [] {
      RowsOfCount(rows[1..], id, x);
      assert rows == [rows[0]] + rows[1..];
    }
  }

  /** The rows of a category of a sorted list are sorted. */
  lemma {:induction false} RowsOfSorted(rows: seq<DbDish>, id: string)
    requires SortedBy(rows, DishOrder)
    ensures SortedBy(RowsOf(rows, id), DishOrder)
  {
    if rows != [] {
      var tail := rows[1..];
      assert SortedBy(tail, DishOrder) by {
        forall i, j | 0 <= i < j < |tail| ensures DishOrder(tail[i]) <= DishOrder(tail[j]) {
          assert tail[i] == rows[i + 1] && tail[j] == rows[j + 1];
        }
      }
      RowsOfSorted(tail, id);
      var rest := RowsOf(tail, id);
      if rows[0].categoryId == id {
        var r := [rows[0]] + rest;
        forall i, j | 0 <= i < j < |r| ensures DishOrder(r[i]) <= DishOrder(r[j]) {
          if i == 0 {
            RowsOfCount(tail, id, r[j]);
            assert r[j] in multiset(rest);
            var h :| 0 <= h < |tail| && tail[h] == r[j];
            assert tail[h] == rows[h + 1];
          } else {
            assert r[i] == rest[i - 1] && r[j] == rest[j - 1];
          }
        }
      }
    }
  }

  /** In a well-formed menu, a dish row naming category `k` is written as often as it occurs
      among the rows of that category's dishes. */
  lemma {:induction false} DishRowsCount(menu: seq<Category>, k: nat, x: DbDish)
    requires UniqueCategoryIds(menu) && Parented(menu)
    requires k < |menu| && x.categoryId == menu[k].id
    ensures multiset(DishRows(menu))[x] == multiset(IndexedRows(menu[k].dishes))[x]
  {
    var tail := menu[1..];
    var head := IndexedRows(menu[0].dishes);
    assert multiset(DishRows(menu)) == multiset(head) + multiset(DishRows(tail));
    assert Parented(tail) by {
      forall i, a | 0 <= i < |tail| && 0 <= a < |tail[i].dishes| ensures tail[i].dishes[a].category == tail[i].id {
        assert tail[i] == menu[i + 1];
      }
    }
    assert UniqueCategoryIds(tail) by {
      forall i, j | 0 <= i < j < |tail| ensures tail[i].id != tail[j].id {
        assert tail[i] == menu[i + 1] && tail[j] == menu[j + 1];
      }
    }
    if k == 0 {
      assert x !in DishRows(tail) by {
        forall i | 0 <= i < |tail| ensures tail[i].id != x.categoryId {
          assert tail[i] == menu[i + 1];
        }
        DishRowsNamed(tail, x);
      }
    } else {
      assert x !in head;
      assert tail[k - 1] == menu[k];
      DishRowsCount(tail, k - 1, x);
    }
  }

  /** A row naming no category of a well-formed menu is not among its dish rows. */
  lemma {:induction false} DishRowsNamed(menu: seq<Category>, x: DbDish)
    requires Parented(menu)
    requires forall i :: 0 <= i < |menu| ==> menu[i].id != x.categoryId
    ensures x !in DishRows(menu)
  {
    if menu != [] {
      var tail := menu[1..];
      assert Parented(tail) by {
        forall i, a | 0 <= i < |tail| && 0 <= a < |tail[i].dishes| ensures tail[i].dishes[a].category == tail[i].id {
          assert tail[i] == menu[i + 1];
        }
      }
      DishRowsNamed(tail, x);
    }
  }

  /** The category rows seeding writes, read back in ascending `sort_order`, come back in
      menu order. */
  lemma CategoryRowsSorted(menu: seq<Category>, catRows: seq<DbCategory>)
    requires multiset(catRows) == multiset(CategoryRows(menu)) && SortedBy(catRows, CategoryOrder)
    ensures catRows == CategoryRows(menu)
  {
    var cats := CategoryRows(menu);
    forall x, y | x in cats && y in cats && CategoryOrder(x) == CategoryOrder(y) ensures x == y {
      var i :| 0 <= i < |cats| && cats[i] == x;
      var j :| 0 <= j < |cats| && cats[j] == y;
    }
    SortedUnique(catRows, cats, CategoryOrder);
  }

  /** The dish rows seeding writes, read back in ascending `sort_order`, interleave the
      categories; the dishes naming one category still come back in that category's order. */
  lemma DishRowsSorted(menu: seq<Category>, dishRows: seq<DbDish>, k: nat)
    requires UniqueCategoryIds(menu) && Parented(menu) && k < |menu|
    requires multiset(dishRows) == multiset(DishRows(menu)) && SortedBy(dishRows, DishOrder)
    ensures InCategory(RowsToDishes(dishRows), menu[k].id) == menu[k].dishes
  {
    var id := menu[k].id;
    var mine, seeded := RowsOf(dishRows, id), IndexedRows(menu[k].dishes);
    RowsOfSorted(dishRows, id);
    RowsOfSeeded(menu, dishRows, k);
    IndexedRowsSorted(menu[k].dishes);
    SortedUnique(mine, seeded, DishOrder);
    RowsOfRead(dishRows, id);
    assert RowsToDishes(seeded) == menu[k].dishes;
  }

  /** Whatever their order, the dish rows naming category `k` are the rows of its dishes. */
  lemma RowsOfSeeded(menu: seq<Category>, dishRows: seq<DbDish>, k: nat)
    requires UniqueCategoryIds(menu) && Parented(menu) && k < |menu|
    requires multiset(dishRows) == multiset(DishRows(menu))
    ensures multiset(RowsOf(dishRows, menu[k].id)) == multiset(IndexedRows(menu[k].dishes))
  {
    var id := menu[k].id;
    forall x ensures multiset(RowsOf(dishRows, id))[x] == multiset(IndexedRows(menu[k].dishes))[x] {
      RowsOfCount(dishRows, id, x);
      if x.categoryId == id {
        DishRowsCount(menu, k, x);
      }
    }
  }

  /** The rows of one category's dishes are in ascending sort order, one row per sort order. */
  lemma IndexedRowsSorted(ds: seq<Dish>)
    ensures SortedBy(IndexedRows(ds), DishOrder)
    ensures var rows := IndexedRows(ds);
      forall x, y :: x in rows && y in rows && DishOrder(x) == DishOrder(y) ==> x == y
  {
    var rows := IndexedRows(ds);
    forall x, y | x in rows && y in rows && DishOrder(x) == DishOrder(y) ensures x == y {
      var a :| 0 <= a < |rows| && rows[a] == x;
      var b :| 0 <= b < |rows| && rows[b] == y;
    }
  }

  /** Seeding and reading back as `fetchAll` does: whatever order the two queries return the
      seeded rows in, as long as it is ascending `sort_order` (rows with equal sort orders in
      any order), the join rebuilds the seeded menu. */
  lemma SortedRowsRoundTrip(menu: seq<Category>, catRows: seq<DbCategory>, dishRows: seq<DbDish>)
    requires UniqueCategoryIds(menu) && Parented(menu)
    requires multiset(catRows) == multiset(CategoryRows(menu)) && SortedBy(catRows, CategoryOrder)
    requires multiset(dishRows) == multiset(DishRows(menu)) && SortedBy(dishRows, DishOrder)
    ensures Join(catRows, dishRows) == menu
  {
    CategoryRowsSorted(menu, catRows);
    var m := Join(catRows, dishRows);
    forall k | 0 <= k < |menu| ensures m[k] == menu[k] {
      DishRowsSorted(menu, dishRows, k);
    }
  }

  // ---------------------------------------------------------------------------------------
  // addDish and addCategory

  /** The row `addDish` inserts: its sort order is the reply to the count query on the dish's
      category (`count || 0`, a null count giving 0). */
  function AddedDishRow(dish: Dish, count: Option<nat>): (row: DbDish)
    ensures RowToDish(row) == dish
    ensures row.sortOrder == (if count.Some? then count.value else 0)
  {
    DishToRow(dish, if count.Some? then count.value else 0)
  }

  /** The row `addCategory` inserts: its sort order is the reply to the count query on the
      whole table (`count || 0`). */
  function AddedCategoryRow(c: Category, count: Option<nat>): (row: DbCategory)
    ensures row.id == c.id && row.name == c.name && row.icon == c.icon
    ensures row.sortOrder == (if count.Some? then count.value else 0)
  {
    CategoryToRow(c, if count.Some? then count.value else 0)
  }

  /** The number of dish rows of a category: what the exact count query of `addDish` answers. */
  function CountIn(rows: seq<DbDish>, categoryId: string): nat {
    if rows == [] then 0 else (if rows[0].categoryId == categoryId then 1 else 0) + CountIn(rows[1..], categoryId)
  }

  /** Inserting the rows of a category one by one, each with the count of that category's rows
      so far, gives each its index within the category: on a fresh table `addDish` and
      `initializeData` agree. */
  lemma {:induction false} AddedRowsIndexed(ds: seq<Dish>, id: string, a: nat)
    requires forall j :: 0 <= j < |ds| ==> ds[j].category == id
    requires a <= |ds|
    ensures CountIn(IndexedRows(ds[..a]), id) == a
    decreases a
  {
    if a > 0 {
      AddedRowsIndexed(ds, id, a - 1);
      CountInAppend(IndexedRows(ds[..a - 1]), DishToRow(ds[a - 1], a - 1), id);
      assert IndexedRows(ds[..a]) == IndexedRows(ds[..a - 1]) + [DishToRow(ds[a - 1], a - 1)];
    }
  }

  lemma {:induction false} CountInAppend(rows: seq<DbDish>, row: DbDish, id: string)
    ensures CountIn(rows + [row], id) == CountIn(rows, id) + (if row.categoryId == id then 1 else 0)
  {
    if rows != [] {
      assert (rows + [row])[1..] == rows[1..] + [row];
      CountInAppend(rows[1..], row, id);
    }
  }

  // ---------------------------------------------------------------------------------------
  // Update records

  /** A value in an update record: a text column, a tag array, or null. */
  datatype Value = Text(text: string) | Tags(tags: seq<string>) | Null

  /** The column update applied to one dish row by `update(record).eq('id', …)`. */
  function ApplyDishRecord(row: DbDish, rec: map<string, Value>): DbDish {
    DbDish(
      row.id,
      TextOr(rec, "name", row.name),
      TextOr(rec, "description", row.description),
      TextOr(rec, "image", row.image),
      TextOr(rec, "category_id", row.categoryId),
      if "tags" in rec && rec["tags"].Tags? then Some(rec["tags"].tags)
      else if "tags" in rec && rec["tags"].Null? then None
      else row.tags,
      row.sortOrder)
  }

  function TextOr(rec: map<string, Value>, key: string, current: string): string {
    if key in rec && rec[key].Text? then rec[key].text else current
  }

  /** The fields of a record built from patch fields: a key for each field the patch defines. */
  function TextFields(p: DishPatch): map<string, Value> {
    var m0 := map[];
    var m1 := if p.name.Some? then m0["name" := Text(p.name.value)] else m0;
    var m2 := if p.description.Some? then m1["description" := Text(p.description.value)] else m1;
    var m3 := if p.image.Some? then m2["image" := Text(p.image.value)] else m2;
    if p.category.Some? then m3["category_id" := Text(p.category.value)] else m3
  }

  /** The update record `updateDish` sends, as written: `tags` is sent only when the patch's
      tag list is defined (`dish.tags !== undefined`), so a patch that sets the tags to
      undefined sends no `tags` key and `|| null` never applies. */
  function DishUpdateRecord(p: DishPatch): (rec: map<string, Value>)
    ensures "name" in rec <==> p.name.Some?
    ensures "description" in rec <==> p.description.Some?
    ensures "image" in rec <==> p.image.Some?
    ensures "category_id" in rec <==> p.category.Some?
    ensures "tags" in rec <==> p.tags.Some? && p.tags.value.Some?
    ensures "id" !in rec && "category" !in rec
    ensures p.name.Some? ==> rec["name"] == Text(p.name.value)
    ensures p.description.Some? ==> rec["description"] == Text(p.description.value)
    ensures p.image.Some? ==> rec["image"] == Text(p.image.value)
    ensures p.category.Some? ==> rec["category_id"] == Text(p.category.value)
    ensures p.tags.Some? && p.tags.value.Some? ==> rec["tags"] == Tags(p.tags.value.value)
  {
    var m := TextFields(p);
    if p.tags.Some? && p.tags.value.Some? then m["tags" := Tags(p.tags.value.value)] else m
  }

  /** The update record with the tag key sent whenever the patch names the tags: an undefined
      tag list is sent as null, as `dish.tags || null` intends. */
  function DishUpdateRecordFixed(p: DishPatch): (rec: map<string, Value>)
    ensures "tags" in rec <==> p.tags.Some?
    ensures p.tags == Some(None) ==> rec["tags"] == Null
    ensures forall k :: k != "tags" ==> (k in rec <==> k in DishUpdateRecord(p))
  {
    var m := TextFields(p);
    if p.tags.Some? then m["tags" := if p.tags.value.Some? then Tags(p.tags.value.value) else Null] else m
  }

  /** A patch that clears the tags of a tagged dish: the local merge drops the tags, while
      the row updated with the record as written keeps them, so they come back on the next
      fetch. */
  lemma ClearedTagsReturn()
    ensures var d := Dish("hongshaorou", "红烧肉", "", "", "meat", Some(["下饭"]));
      var p := DishPatch(None, None, None, None, None, Some(None));
      && MergeDish(d, p).tags == None
      && RowToDish(ApplyDishRecord(DishToRow(d, 0), DishUpdateRecord(p))).tags == Some(["下饭"])
  {
    var p := DishPatch(None, None, None, None, None, Some(None));
    assert DishUpdateRecord(p) == map[];
  }

  /** With the corrected record, updating a dish's row and reading it back gives the dish the
      store computes locally, for every patch that keeps the dish's id. */
  lemma UpdateRecordAgrees(d: Dish, sortOrder: int, p: DishPatch)
    requires p.id.None? || p.id.value == d.id
    ensures RowToDish(ApplyDishRecord(DishToRow(d, sortOrder), DishUpdateRecordFixed(p))) == MergeDish(d, p)
    ensures ApplyDishRecord(DishToRow(d, sortOrder), DishUpdateRecordFixed(p)).sortOrder == sortOrder
  {
  }

  /** The record as written reads back as the locally merged dish for every patch that keeps
      the dish's id and does not clear its tags: the missing null is the only divergence. */
  lemma UpdateRecordAgreesUnlessCleared(d: Dish, sortOrder: int, p: DishPatch)
    requires p.id.None? || p.id.value == d.id
    requires p.tags != Some(None)
    ensures RowToDish(ApplyDishRecord(DishToRow(d, sortOrder), DishUpdateRecord(p))) == MergeDish(d, p)
  {
  }

  /** The update record `updateCategory` sends: only name and icon, whatever else the patch
      holds. */
  function CategoryUpdateRecord(p: CategoryPatch): (rec: map<string, Value>)
    ensures "name" in rec <==> p.name.Some?
    ensures "icon" in rec <==> p.icon.Some?
    ensures forall k :: k in rec ==> k == "name" || k == "icon"
  {
    var m := if p.name.Some? then map["name" := Text(p.name.value)] else map[];
    if p.icon.Some? then m["icon" := Text(p.icon.value)] else m
  }

  function ApplyCategoryRecord(row: DbCategory, rec: map<string, Value>): DbCategory {
    DbCategory(row.id, TextOr(rec, "name", row.name), TextOr(rec, "icon", row.icon), row.sortOrder)
  }

  /** Updating a category's row with the record gives the row of the locally merged category,
      for every patch that keeps the category's id. */
  lemma CategoryRecordAgrees(c: Category, sortOrder: int, p: CategoryPatch)
    requires p.id.None? || p.id.value == c.id
    ensures ApplyCategoryRecord(CategoryToRow(c, sortOrder), CategoryUpdateRecord(p)) ==
      CategoryToRow(MergeCategory(c, p), sortOrder)
  {
  }

  // ---------------------------------------------------------------------------------------
  // deleteCategory

  /** `deleteCategory`'s two deletes: first the dish rows of the category, then its row. */
  function DeleteCategoryRows(catRows: seq<DbCategory>, dishRows: seq<DbDish>, id: string)
    : (r: (seq<DbCategory>, seq<DbDish>))
    ensures forall i :: 0 <= i < |r.0| ==> r.0[i].id != id
    ensures forall j :: 0 <= j < |r.1| ==> r.1[j].categoryId != id
    ensures forall c :: c in r.0 <==> c in catRows && c.id != id
    ensures forall d :: d in r.1 <==> d in dishRows && d.categoryId != id
  {
    (FilterCategoryRows(catRows, id), FilterDishRows(dishRows, id))
  }

  function FilterCategoryRows(rows: seq<DbCategory>, id: string): (r: seq<DbCategory>)
    ensures forall c :: c in r <==> c in rows && c.id != id
  {
    if rows == [] then [] else (if rows[0].id != id then [rows[0]] else []) + FilterCategoryRows(rows[1..], id)
  }

  function FilterDishRows(rows: seq<DbDish>, id: string): (r: seq<DbDish>)
    ensures forall d :: d in r <==> d in rows && d.categoryId != id
  {
    if rows == [] then [] else (if rows[0].categoryId != id then [rows[0]] else []) + FilterDishRows(rows[1..], id)
  }
}
