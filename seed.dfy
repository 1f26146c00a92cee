/** The built-in menu: five categories and their twenty-four dishes, used when no database is
    configured, when the database is empty and when the user resets the menu; and the two
    getters over it. */
module Seed {
  import opened Types
  import opened Catalog

  /** The image address of a photo on the stock-photo host the seed menu uses, at 400x300. */
  function Photo(code: string): string {
    "https://images.unsplash.com/photo-" + code + "?w=400&h=300&fit=crop"
  }

  function Meat(): Category {
    Category("meat", "肉类", "🥩", [
      Dish("hongshaorou", "红烧肉", "肥而不腻，入口即化", Photo("1623689046286-addbd9474e05"), "meat", Some(["经典", "下饭"])),
      Dish("tangcupaigu", "糖醋排骨", "酸甜可口，外酥里嫩", Photo("1544025162-d76694265947"), "meat", Some(["酸甜", "人气"])),
      Dish("gongbaojiding", "宫保鸡丁", "香辣微甜，花生酥脆", Photo("1525755662778-989d0524087e"), "meat", Some(["微辣", "经典"])),
      Dish("jiangbaorousi", "酱爆肉丝", "酱香浓郁，嫩滑可口", Photo("1603133872878-684f208fb84b"), "meat", Some(["下饭"])),
      Dish("qingjiaorousi", "青椒肉丝", "清香爽口，家常美味", Photo("1547928578-bca3e9c0f90f"), "meat", Some(["家常", "清淡"])),
      Dish("huiliguorou", "回锅肉", "四川名菜，肥而不腻", Photo("1608835291093-394b0c943a75"), "meat", Some(["川菜", "下饭"]))
    ])
  }

  function Seafood(): Category {
    Category("seafood", "海鲜", "🦐", [
      Dish("qingzhengyu", "清蒸鱼", "鲜嫩清香，原汁原味", Photo("1519708227418-c8fd9a32b7a2"), "seafood", Some(["清淡", "健康"])),
      Dish("youmenxia", "油焖大虾", "鲜香四溢，Q弹入味", Photo("1565680018434-b513d5e5fd47"), "seafood", Some(["人气", "鲜美"])),
      Dish("suanxiangxia", "蒜蓉虾", "蒜香浓郁，虾肉鲜甜", Photo("1599084993091-1cb5c0721cc6"), "seafood", Some(["蒜香"])),
      Dish("chaoxian", "炒蛤蜊", "鲜嫩多汁，葱香扑鼻", Photo("1534604973900-c43ab4c2e0ab"), "seafood", Some(["鲜美", "快手"]))
    ])
  }

  function Vegetable(): Category {
    Category("vegetable", "蔬菜", "🥬", [
      Dish("fanqiechaodan", "番茄炒蛋", "酸甜开胃，老少皆宜", Photo("1546069901-ba9599a7e63c"), "vegetable", Some(["经典", "快手"])),
      Dish("suancaibaicai", "醋溜白菜", "酸爽脆嫩，开胃解腻", Photo("1540420773420-3366772f4999"), "vegetable", Some(["清淡", "爽口"])),
      Dish("disamxian", "地三鲜", "土豆茄子青椒，东北名菜", Photo("1512621776951-a57141f2eefd"), "vegetable", Some(["东北菜", "下饭"])),
      Dish("chaodoumiao", "蒜蓉豆苗", "清脆嫩绿，蒜香扑鼻", Photo("1574484284002-952d92456975"), "vegetable", Some(["清淡", "健康"])),
      Dish("chaomuer", "木耳炒山药", "脆嫩滑爽，营养丰富", Photo("1543339308-43e59d6b73a6"), "vegetable", Some(["养生", "清淡"])),
      Dish("ganbiansijidou", "干煸四季豆", "外焦里嫩，香辣可口", Photo("1455619452474-d2be8b1e70cd"), "vegetable", Some(["川菜", "下饭"]))
    ])
  }

  function Soup(): Category {
    Category("soup", "汤品", "🍲", [
      Dish("fanqiejidantang", "番茄蛋花汤", "酸甜鲜香，营养开胃", Photo("1547592166-23ac45744acd"), "soup", Some(["清淡", "快手"])),
      Dish("zicaitang", "紫菜蛋汤", "鲜香可口，简单美味", Photo("1476718406336-bb5a9690ee2a"), "soup", Some(["快手", "经典"])),
      Dish("yumitang", "玉米排骨汤", "清甜滋补，营养丰富", Photo("1603105037880-880cd4edfb0d"), "soup", Some(["滋补", "慢炖"])),
      Dish("suanlatang", "酸辣汤", "酸辣开胃，暖身暖胃", Photo("1555126634-323283e090fa"), "soup", Some(["开胃", "微辣"]))
    ])
  }

  function Staple(): Category {
    Category("staple", "主食", "🍚", [
      Dish("baifan", "白米饭", "香软可口，百搭主食", Photo("1536304993881-ff6e9eefa2a6"), "staple", Some(["主食"])),
      Dish("danchaofan", "蛋炒饭", "粒粒分明，蛋香四溢", Photo("1603133872878-684f208fb84b"), "staple", Some(["经典", "快手"])),
      Dish("jiaozi", "水饺", "皮薄馅大，鲜香多汁", Photo("1496116218417-1a781b1c416c"), "staple", Some(["传统", "人气"])),
      Dish("chaomian", "炒面", "劲道爽滑，酱香浓郁", Photo("1585032226651-759b368d7246"), "staple", Some(["快手", "下饭"]))
    ])
  }

  /** `menuData`. */
  function MenuData(): seq<Category> {
    [Meat(), Seafood(), Vegetable(), Soup(), Staple()]
  }

  /** The seed menu has five categories holding six, four, six, four and four dishes. */
  lemma SeedShape()
    ensures |MenuData()| == 5
    ensures |AllDishes(MenuData())| == 24
    ensures forall i :: 0 <= i < |MenuData()| ==> |MenuData()[i].dishes| > 0
  {
    var m := MenuData();
    assert AllDishes(m) == m[0].dishes + AllDishes(m[1..]);
  }

  /** The ids of a list of dishes, in order. */
  function IdsOf(ds: seq<Dish>): seq<string> {
    seq(|ds|, p requires 0 <= p < |ds| => ds[p].id)
  }

  /** The dish ids of each seed category, in order. */
  function MeatIds(): seq<string> {
    ["hongshaorou", "tangcupaigu", "gongbaojiding", "jiangbaorousi", "qingjiaorousi", "huiliguorou"]
  }

  function SeafoodIds(): seq<string> {
    ["qingzhengyu", "youmenxia", "suanxiangxia", "chaoxian"]
  }

  function VegetableIds(): seq<string> {
    ["fanqiechaodan", "suancaibaicai", "disamxian", "chaodoumiao", "chaomuer", "ganbiansijidou"]
  }

  function SoupIds(): seq<string> {
    ["fanqiejidantang", "zicaitang", "yumitang", "suanlatang"]
  }

  function StapleIds(): seq<string> {
    ["baifan", "danchaofan", "jiaozi", "chaomian"]
  }

  /** The dish ids of the seed menu, category by category. */
  function SeedDishIds(): seq<string> {
    MeatIds() + SeafoodIds() + VegetableIds() + SoupIds() + StapleIds()
  }

  lemma SeedDishIdsDistinct()
    ensures forall p, q :: 0 <= p < q < |SeedDishIds()| ==> SeedDishIds()[p] != SeedDishIds()[q]
  {
  }

  lemma IdsOfAppend(a: seq<Dish>, b: seq<Dish>)
    ensures IdsOf(a + b) == IdsOf(a) + IdsOf(b)
  {
  }

  /** Each seed category lists the dishes with its ids, in order. */
  lemma SeedCategoryIds()
    ensures IdsOf(Meat().dishes) == MeatIds()
    ensures IdsOf(Seafood().dishes) == SeafoodIds()
    ensures IdsOf(Vegetable().dishes) == VegetableIds()
    ensures IdsOf(Soup().dishes) == SoupIds()
    ensures IdsOf(Staple().dishes) == StapleIds()
  {
    assert IdsOf(Meat().dishes) == MeatIds();
    assert IdsOf(Seafood().dishes) == SeafoodIds();
    assert IdsOf(Vegetable().dishes) == VegetableIds();
    assert IdsOf(Soup().dishes) == SoupIds();
  }

  /** `getAllDishes` on the seed menu lists the dishes with these ids, in this order. */
  lemma SeedAllDishIds()
    ensures IdsOf(AllDishes(MenuData())) == SeedDishIds()
  {
    IdsOfFive(MenuData());
    SeedCategoryIds();
  }

  /** The ids of five categories' dishes, category by category. */
  lemma IdsOfFive(m: seq<Category>)
    requires |m| == 5
    ensures IdsOf(AllDishes(m))
         == IdsOf(m[0].dishes) + IdsOf(m[1].dishes) + IdsOf(m[2].dishes) + IdsOf(m[3].dishes) + IdsOf(m[4].dishes)
  {
    assert AllDishes(m[4..]) == m[4].dishes by {
      assert m[4..][1..] == [];
    }
    assert AllDishes(m[3..]) == m[3].dishes + AllDishes(m[4..]) by {
      assert m[3..][1..] == m[4..];
    }
    assert AllDishes(m[2..]) == m[2].dishes + AllDishes(m[3..]) by {
      assert m[2..][1..] == m[3..];
    }
    assert AllDishes(m[1..]) == m[1].dishes + AllDishes(m[2..]) by {
      assert m[1..][1..] == m[2..];
    }
    IdsOfAppend(m[3].dishes, m[4].dishes);
    IdsOfAppend(m[2].dishes, m[3].dishes + m[4].dishes);
    IdsOfAppend(m[1].dishes, m[2].dishes + (m[3].dishes + m[4].dishes));
    IdsOfAppend(m[0].dishes, m[1].dishes + (m[2].dishes + (m[3].dishes + m[4].dishes)));
  }

  /** Dish ids are distinct across the whole seed menu. */
  lemma SeedUniqueDishIds()
    ensures UniqueDishIds(MenuData())
  {
    SeedAllDishIds();
    SeedDishIdsDistinct();
    var all := AllDishes(MenuData());
    assert forall p :: 0 <= p < |all| ==> all[p].id == IdsOf(all)[p];
    assert DistinctIds(AllDishes(MenuData()));
    DistinctIdsUnique(MenuData());
  }

  /** Category ids are distinct, every seed dish names the category holding it and carries at
      least one tag. */
  lemma SeedWellFormed()
    ensures UniqueCategoryIds(MenuData())
    ensures Parented(MenuData())
    ensures forall i, a :: 0 <= i < |MenuData()| && 0 <= a < |MenuData()[i].dishes| ==>
      MenuData()[i].dishes[a].tags.Some? && |MenuData()[i].dishes[a].tags.value| > 0
  {
    CategoriesReady();
    FiveReady(MenuData());
    SeedCategoryIdsDistinct();
  }

  lemma SeedCategoryIdsDistinct()
    ensures UniqueCategoryIds(MenuData())
  {
  }

  /** Five categories each holding only its own dishes, each with a tag. */
  lemma FiveReady(m: seq<Category>)
    requires |m| == 5
    requires Holds(m[0]) && Holds(m[1]) && Holds(m[2]) && Holds(m[3]) && Holds(m[4])
    requires Tagged(m[0]) && Tagged(m[1]) && Tagged(m[2]) && Tagged(m[3]) && Tagged(m[4])
    ensures Parented(m)
    ensures forall i, a :: 0 <= i < |m| && 0 <= a < |m[i].dishes| ==>
      m[i].dishes[a].tags.Some? && |m[i].dishes[a].tags.value| > 0
  {
    forall i | 0 <= i < |m| ensures Holds(m[i]) && Tagged(m[i]) {
    }
  }

  /** Each seed category holds only its own dishes, each with a tag. */
  lemma CategoriesReady()
    ensures Holds(Meat()) && Tagged(Meat())
    ensures Holds(Seafood()) && Tagged(Seafood())
    ensures Holds(Vegetable()) && Tagged(Vegetable())
    ensures Holds(Soup()) && Tagged(Soup())
    ensures Holds(Staple()) && Tagged(Staple())
  {
    MeatReady();
    SeafoodReady();
    VegetableReady();
    SoupReady();
    StapleReady();
  }

  lemma MeatReady() ensures Holds(Meat()) && Tagged(Meat()) { }
  lemma SeafoodReady() ensures Holds(Seafood()) && Tagged(Seafood()) { }
  lemma VegetableReady() ensures Holds(Vegetable()) && Tagged(Vegetable()) { }
  lemma SoupReady() ensures Holds(Soup()) && Tagged(Soup()) { }
  lemma StapleReady() ensures Holds(Staple()) && Tagged(Staple()) { }

  /** Every dish of the category carries at least one tag. */
  predicate Tagged(c: Category) {
    forall a :: 0 <= a < |c.dishes| ==> c.dishes[a].tags.Some? && |c.dishes[a].tags.value| > 0
  }

  /** `getDishesByCategory` on the seed menu: each seed dish is listed under its own category,
      and an unknown category lists nothing. */
  lemma SeedDishesByCategory(id: string)
    ensures forall i, a :: 0 <= i < |MenuData()| && 0 <= a < |MenuData()[i].dishes| ==>
      MenuData()[i].dishes[a] in DishesOf(MenuData(), MenuData()[i].dishes[a].category)
    ensures (forall i :: 0 <= i < |MenuData()| ==> MenuData()[i].id != id) ==> DishesOf(MenuData(), id) == []
  {
    var m := MenuData();
    SeedWellFormed();
    forall i, a | 0 <= i < |m| && 0 <= a < |m[i].dishes| ensures m[i].dishes[a] in DishesOf(m, m[i].dishes[a].category) {
      ParentedListed(m, i, a);
    }
  }
}
