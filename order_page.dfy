/** The order page: the checks in front of a submission, the order it records, the summary it
    sends to the notification service and the order of its effects. The page's own state
    (name, note, flags) is a class; the cart and the order history are the stores'. */
module OrderPage {
  import opened Types
  import opened Strings
  import CartStore
  import OrderStore

  /** One line of the dish list: `- <name> × <quantity>`. */
  function DishLine(item: CartItem): (line: string)
    ensures StartsWith(line, "- ")
    ensures line == "- " + item.dish.name + " × " + IntString(item.quantity)
  {
    "- " + item.dish.name + " × " + IntString(item.quantity)
  }

  function DishLines(items: seq<CartItem>): (lines: seq<string>)
    ensures |lines| == |items|
    ensures forall i :: 0 <= i < |items| ==> lines[i] == DishLine(items[i])
  {
    seq(|items|, i requires 0 <= i < |items| => DishLine(items[i]))
  }

  /** The dish list: one line per cart item, in cart order, separated by newlines. */
  function DishList(items: seq<CartItem>): string {
    Join(DishLines(items), "\n")
  }

  /** One item gives its own line; each further item adds a newline and its line at the end. */
  lemma DishListGrows(items: seq<CartItem>, x: CartItem)
    ensures DishList([x]) == DishLine(x)
    ensures items != [] ==> DishList(items + [x]) == DishList(items) + "\n" + DishLine(x)
  {
    if items != [] {
      assert DishLines(items + [x]) == DishLines(items) + [DishLine(x)];
      JoinSnoc(DishLines(items), DishLine(x), "\n");
    }
  }

  /** `note || '无'`: an empty note shows as "无" (none). */
  function NoteText(note: string): (r: string)
    ensures r != []
    ensures note == [] ==> r == "无"
    ensures note != [] ==> r == note
  {
    if note == [] then "无" else note
  }

  /** The summary's sections, with nothing around them. */
  function Body(userName: string, dishList: string, note: string, orderId: string, localeTime: string): string {
    "## 下单人\n" + userName
    + "\n\n## 菜品列表\n" + dishList
    + "\n\n## 备注\n" + NoteText(note)
    + "\n\n## 订单号\n" + orderId
    + "\n\n## 下单时间\n" + localeTime
  }

  /** The template as written (a newline before the first section, a newline and the
      indentation of the closing line after the last), then `.trim()`. */
  function Summary(userName: string, dishList: string, note: string, orderId: string, localeTime: string): string {
    Trim("\n" + Body(userName, dishList, note, orderId, localeTime) + "\n      ")
  }

  /** A trimmed all-white-space text is empty. */
  lemma TrimEndSpace(s: string)
    requires AllSpace(s)
    ensures TrimEnd(s) == []
  {
  }

  /** The summary is exactly its sections when the time text does not end in white space:
      trimming removes the template's surrounding newlines and indentation and nothing else. */
  lemma SummaryIsBody(userName: string, dishList: string, note: string, orderId: string, localeTime: string)
    requires localeTime != [] && !IsSpace(localeTime[|localeTime| - 1])
    ensures Summary(userName, dishList, note, orderId, localeTime) == Body(userName, dishList, note, orderId, localeTime)
  {
    var body := Body(userName, dishList, note, orderId, localeTime);
    BodyEnds(userName, dishList, note, orderId, localeTime);
    TemplateSpace();
    TrimFramed("\n", body, "\n      ");
    TrimEndSpace("\n      ");
    assert body + [] == body;
  }

  /** The body starts with the first heading and ends with the time text. */
  lemma BodyEnds(userName: string, dishList: string, note: string, orderId: string, localeTime: string)
    requires localeTime != []
    ensures var body := Body(userName, dishList, note, orderId, localeTime);
      |body| > 0 && body[0] == '#' && body[|body| - 1] == localeTime[|localeTime| - 1]
  {
    var head := "## 下单人\n" + userName
      + "\n\n## 菜品列表\n" + dishList
      + "\n\n## 备注\n" + NoteText(note)
      + "\n\n## 订单号\n" + orderId
      + "\n\n## 下单时间\n";
    assert Body(userName, dishList, note, orderId, localeTime) == head + localeTime;
    assert head[0] == '#';
  }

  /** What the template puts around the body is white space. */
  lemma TemplateSpace()
    ensures AllSpace("\n") && AllSpace("\n      ")
  {
  }

  /** What `sendNotification` did. */
  datatype Notification =
    | Skipped
    | Posted(url: string, title: string, body: string, ok: bool)

  /** `sendNotification(orderInfo)`. With no key nothing is sent and the answer is `true`.
      Otherwise the summary is posted to the key's endpoint; the answer is the response's
      `ok`, or `false` when the request fails (`reply` is `None`). */
  function Notify(notifyKey: string, orderInfo: string, reply: Option<bool>): (n: Notification)
    ensures notifyKey == [] <==> n.Skipped?
    ensures n.Posted? ==> n.url == "https://sctapi.ftqq.com/" + notifyKey + ".send" && n.body == orderInfo
    ensures n.Posted? ==> (n.ok <==> reply == Some(true))
  {
    if notifyKey == [] then Skipped
    else Posted("https://sctapi.ftqq.com/" + notifyKey + ".send", "📋 新订单来了！", orderInfo,
                reply.Some? && reply.value)
  }

  /** The answer `sendNotification` resolves to. */
  function Delivered(n: Notification): bool {
    match n
    case Skipped => true
    case Posted(_, _, _, ok) => ok
  }

  /** The notification a submission sends: its summary, posted to the key's endpoint. */
  function Notice(notifyKey: string, reply: Option<bool>, userName: string, items: seq<CartItem>,
                  note: string, orderId: string, localeTime: string): (n: Notification)
    ensures n.Posted? ==> n.body == Summary(userName, DishList(items), note, orderId, localeTime)
    ensures notifyKey == [] <==> n.Skipped?
  {
    Notify(notifyKey, Summary(userName, DishList(items), note, orderId, localeTime), reply)
  }

  /** The effects of a submission, in the order they happen. */
  datatype Step = Recorded(order: Order) | Notified(notification: Notification) | Cleared

  datatype SubmitOutcome = NameMissing | CartEmpty | Submitted(order: Order)

  class OrderPage {
    var userName: string
    var note: string
    var isSubmitting: bool
    var isSuccess: bool
    /** The effects of submissions so far. */
    var steps: seq<Step>

    constructor()
      ensures userName == [] && note == [] && !isSubmitting && !isSuccess && steps == []
    {
      userName, note, isSubmitting, isSuccess, steps := [], [], false, false, [];
    }

    /** `handleSubmit`. A blank name is refused first, then an empty cart; neither changes
        anything. (A name trims to nothing exactly when it is all white space, by
        `Strings.TrimEmptyIffAllSpace`, so the guard is stated that way.) Otherwise the order is recorded with the cart's items, the note and the name
        as typed; then the summary is sent; then the cart is cleared, whatever the
        notification answered; the page shows success and is no longer submitting. The clock
        texts and the random text are parameters, as is the notification service's reply. */
    method Submit(cart: CartStore.CartStore, orders: OrderStore.OrderStore, notifyKey: string,
                  reply: Option<bool>, now: nat, iso: string, time: string, random36: string,
                  localeTime: string) returns (r: SubmitOutcome)
      modifies this, cart, orders
      ensures AllSpace(old(userName)) ==> r == NameMissing
      ensures !AllSpace(old(userName)) && old(cart.items) == [] ==> r == CartEmpty
      ensures !r.Submitted? ==>
        && unchanged(this) && unchanged(cart) && unchanged(orders)
      ensures r.Submitted? <==> !AllSpace(old(userName)) && old(cart.items) != []
      ensures r.Submitted? ==>
        && r.order.items == old(cart.items) && r.order.note == old(note) && r.order.userName == old(userName)
        && r.order.createdAt == now
        && orders.orders == [r.order] + old(orders.orders)
        && cart.items == []
        && isSuccess && !isSubmitting
        && userName == old(userName) && note == old(note)
      ensures r.Submitted? ==> r.order.id == OrderStore.OrderId(iso, time, random36)
      ensures r.Submitted? ==> steps == old(steps) + [
             Recorded(r.order),
             Notified(Notice(notifyKey, reply, old(userName), old(cart.items), old(note), r.order.id, localeTime)),
             Cleared]
    {
      if AllSpace(userName) {
        return NameMissing;
      }
      if |cart.items| == 0 {
        return CartEmpty;
      }
      var items, name, text := cart.items, userName, note;
      var notification := Notice(notifyKey, reply, name, items, text, OrderStore.OrderId(iso, time, random36), localeTime);
      isSubmitting := true;
      var order := orders.AddOrder(items, text, name, now, iso, time, random36);
      cart.ClearCart();
      steps := steps + [Recorded(order), Notified(notification), Cleared];
      isSuccess := true;
      isSubmitting := false;
      r := Submitted(order);
    }

    /** The success timer: the page resets its message, name and note. */
    method SuccessShown()
      modifies this
      ensures !isSuccess && userName == [] && note == []
      ensures isSubmitting == old(isSubmitting) && steps == old(steps)
    {
      isSuccess, userName, note := false, [], [];
    }
  }
}
