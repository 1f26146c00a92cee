/** The order history: submitted orders, most recent first. */
module OrderStore {
  import opened Types
  import opened Strings

  /** `toISOString()` text: `YYYY-MM-DDTHH:mm:ss.sssZ`; only the date part matters here. */
  predicate IsoDateText(iso: string) {
    && |iso| >= 10
    && iso[4] == '-' && iso[7] == '-'
    && AllDigits(iso[..4]) && AllDigits(iso[5..7]) && AllDigits(iso[8..10])
  }

  /** `toTimeString()` text: `HH:MM:SS GMT…`; only the first eight characters matter. */
  predicate TimeText(time: string) {
    && |time| >= 8
    && time[2] == ':' && time[5] == ':'
    && AllDigits(time[..2]) && AllDigits(time[3..5]) && AllDigits(time[6..8])
  }

  /** `generateOrderId`: the UTC date without dashes, the local time without colons, a dash,
      and characters 2 to 5 of the random number's base-36 text (`0.xxxx…`), upper-cased.
      The date, the time and the random text are parameters: the source reads them from the
      clock and from `Math.random`. */
  function OrderId(iso: string, time: string, random36: string): string {
    Without(Slice(iso, 0, 10), '-') + Without(Slice(time, 0, 8), ':') + "-" + Upper(Slice(random36, 2, 6))
  }

  /** An order id is the eight date digits (year, month, day), the six time digits (hours,
      minutes, seconds), a dash, then at most four upper-cased characters of the random text:
      exactly four when that text has at least six characters. */
  lemma OrderIdFormat(iso: string, time: string, random36: string)
    requires IsoDateText(iso) && TimeText(time)
    ensures var id := OrderId(iso, time, random36);
      && |id| >= 15
      && id[..8] == iso[..4] + iso[5..7] + iso[8..10]
      && id[8..14] == time[..2] + time[3..5] + time[6..8]
      && AllDigits(id[..14])
      && id[14] == '-'
      && id[15..] == Upper(Slice(random36, 2, 6))
      && |id| <= 19
      && (|random36| >= 6 ==> |id| == 19)
  {
    DropSeparators(iso[..4], iso[5..7], iso[8..10], '-');
    assert Slice(iso, 0, 10) == iso[..4] + [iso[4]] + iso[5..7] + [iso[7]] + iso[8..10];
    DropSeparators(time[..2], time[3..5], time[6..8], ':');
    assert Slice(time, 0, 8) == time[..2] + [time[2]] + time[3..5] + [time[5]] + time[6..8];
  }

  /** Removing the separator from `a` sep `b` sep `c` leaves `a + b + c` when the parts are
      digits. */
  lemma DropSeparators(a: string, b: string, c: string, sep: char)
    requires AllDigits(a) && AllDigits(b) && AllDigits(c) && !IsDigit(sep)
    ensures Without(a + [sep] + b + [sep] + c, sep) == a + b + c
  {
    assert sep !in a && sep !in b && sep !in c;
    assert Without([sep], sep) == [];
    var s1 := a + [sep];
    WithoutAppend(a, [sep], sep);
    assert Without(s1, sep) == a;
    var s2 := s1 + b;
    WithoutAppend(s1, b, sep);
    assert Without(s2, sep) == a + b;
    var s3 := s2 + [sep];
    WithoutAppend(s2, [sep], sep);
    assert Without(s3, sep) == a + b;
    WithoutAppend(s3, c, sep);
  }

  class OrderStore {
    var orders: seq<Order>

    constructor()
      ensures orders == []
    {
      orders := [];
    }

    /** `addOrder`: the new order, holding exactly the given items, note and user name, goes
        first; the earlier orders follow unchanged; the order returned is the one stored. */
    method AddOrder(items: seq<CartItem>, note: string, userName: string,
                    now: nat, iso: string, time: string, random36: string) returns (o: Order)
      modifies this
      ensures o == Order(OrderId(iso, time, random36), items, note, now, userName)
      ensures orders == [o] + old(orders)
      ensures |orders| == |old(orders)| + 1 && orders[0] == o && orders[1..] == old(orders)
    {
      o := Order(OrderId(iso, time, random36), items, note, now, userName);
      orders := [o] + orders;
    }

    /** `getOrders`: the list as it is. */
    method GetOrders() returns (r: seq<Order>)
      ensures r == orders
    {
      r := orders;
    }
  }
}
