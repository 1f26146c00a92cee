/** The application's records: a dish, a category holding its dishes in display order, a cart
    line and a submitted order. */
module Types {

  /** An optional value: a TypeScript `T | undefined` (or `T | null`) field or result. */
  datatype Option<T> = None | Some(value: T)

  /** A dish. `category` names the category it belongs to; `tags` is optional. */
  datatype Dish = Dish(
    id: string,
    name: string,
    description: string,
    image: string,
    category: string,
    tags: Option<seq<string>>)

  /** A category and its dishes, in display order. */
  datatype Category = Category(id: string, name: string, icon: string, dishes: seq<Dish>)

  /** A cart line: a dish and how many of it. The quantity is a JavaScript number; the cart
      keeps it at least 1 (see CartStore). */
  datatype CartItem = CartItem(dish: Dish, quantity: int)

  /** A submitted order. `createdAt` is the submission time in milliseconds since the epoch. */
  datatype Order = Order(id: string, items: seq<CartItem>, note: string, createdAt: nat, userName: string)
}
