/**
 * What the bill promises: the order edits keep the rest of the order, the
 * discount stays within the coupon's terms and the subtotal, and the total
 * is never below the tax.
 */
module PayBillProperties {
  import opened Wrappers
  import opened PayBill

  // ------------------------------------------------------------- subtotal

  lemma {:induction false} SubtotalAppend(a: seq<OrderItem>, b: seq<OrderItem>)
    ensures Subtotal(a + b) == Subtotal(a) + Subtotal(b)
    decreases |b|
  {
    if b == [] {
      assert a + b == a;
    } else {
      var b' := b[..|b| - 1];
      assert (a + b)[..|a + b| - 1] == a + b';
      SubtotalAppend(a, b');
    }
  }

  /** The subtotal is also the sum from the front, as the item lists are edited. */
  lemma SubtotalCons(x: OrderItem, rest: seq<OrderItem>)
    ensures Subtotal([x] + rest) == LineTotal(x) + Subtotal(rest)
  {
    SubtotalAppend([x], rest);
  }

  /** An order of non-negative prices and quantities has a non-negative subtotal. */
  lemma {:induction false} SubtotalNonNegative(items: seq<OrderItem>)
    requires forall i :: 0 <= i < |items| ==> items[i].price >= 0 && items[i].quantity >= 0
    ensures Subtotal(items) >= 0
    decreases |items|
  {
    if items != [] {
      var last := items[|items| - 1];
      SubtotalNonNegative(items[..|items| - 1]);
      assert last.price * last.quantity >= 0;
    }
  }

  /** The order the page opens with: 1380 before tax, 248 tax, 1628 in all. */
  lemma InitialBill()
    ensures Subtotal(InitialItems) == 1380
    ensures Tax(Subtotal(InitialItems)) == 248
    ensures Total(InitialItems, None) == 1628
  {
    var s := InitialItems;
    assert s[..1][..0] == [];
    assert Subtotal(s[..1]) == 420;
    assert s[..2][..1] == s[..1];
    assert Subtotal(s[..2]) == 980;
    assert s[..3][..2] == s[..2];
    assert Subtotal(s[..3]) == 1220;
    assert s[..3] == s[..|s| - 1];
  }

  // -------------------------------------------------------------- editing

  /** The line totals of the items carrying `id`. */
  function IdTotal(items: seq<OrderItem>, id: string): int {
    if items == [] then 0
    else (if items[0].id == id then LineTotal(items[0]) else 0) + IdTotal(items[1..], id)
  }

  /** The prices of the items carrying `id`, one each. */
  function IdPrices(items: seq<OrderItem>, id: string): int {
    if items == [] then 0
    else (if items[0].id == id then items[0].price else 0) + IdPrices(items[1..], id)
  }

  /** Removal keeps exactly the items with another id. */
  lemma {:induction false} RemoveItemsMembers(items: seq<OrderItem>, id: string, x: OrderItem)
    ensures x in RemoveItems(items, id) <==> x in items && x.id != id
  {
    if items != [] {
      RemoveItemsMembers(items[1..], id, x);
      assert items == [items[0]] + items[1..];
    }
  }

  /** Removal works piece by piece, so the items kept stay in their order. */
  lemma {:induction false} RemoveItemsAppend(a: seq<OrderItem>, b: seq<OrderItem>, id: string)
    ensures RemoveItems(a + b, id) == RemoveItems(a, id) + RemoveItems(b, id)
  {
    if a == [] {
      assert a + b == b;
    } else {
      assert (a + b)[1..] == a[1..] + b;
      RemoveItemsAppend(a[1..], b, id);
    }
  }

  /** Removal takes off exactly the line totals of the removed items. */
  lemma {:induction false} SubtotalAfterRemove(items: seq<OrderItem>, id: string)
    ensures Subtotal(RemoveItems(items, id)) == Subtotal(items) - IdTotal(items, id)
  {
    if items != [] {
      var head := if items[0].id == id then [] else [items[0]];
      SubtotalAfterRemove(items[1..], id);
      SubtotalAppend(head, RemoveItems(items[1..], id));
      assert items == [items[0]] + items[1..];
      SubtotalCons(items[0], items[1..]);
    }
  }

  /** A new quantity prices every item carrying the id at that quantity, and the rest as before. */
  lemma {:induction false} SubtotalAfterSetQuantity(items: seq<OrderItem>, id: string, quantity: int)
    ensures Subtotal(SetQuantity(items, id, quantity)) == Subtotal(RemoveItems(items, id)) + quantity * IdPrices(items, id)
  {
    if items != [] {
      var x, rest := items[0], items[1..];
      var y := if x.id == id then x.(quantity := quantity) else x;
      var head := if x.id == id then [] else [x];
      SubtotalAfterSetQuantity(rest, id, quantity);
      assert SetQuantity(items, id, quantity) == [y] + SetQuantity(rest, id, quantity);
      SubtotalCons(y, SetQuantity(rest, id, quantity));
      assert RemoveItems(items, id) == head + RemoveItems(rest, id);
      SubtotalAppend(head, RemoveItems(rest, id));
      var p := if x.id == id then x.price else 0;
      assert IdPrices(items, id) == p + IdPrices(rest, id);
      if x.id == id {
        assert LineTotal(y) == quantity * p by {
          Commute(x.price, quantity);
        }
        assert Subtotal(head) == 0;
      } else {
        assert Subtotal(head) == LineTotal(y) by {
          SubtotalCons(x, []);
          assert [x] + [] == [x];
        }
      }
      Combine(Subtotal(SetQuantity(rest, id, quantity)), Subtotal(RemoveItems(rest, id)), quantity, p,
              IdPrices(rest, id), LineTotal(y), Subtotal(head));
    }
  }

  /** The arithmetic step of the lemma above, kept apart from the sequences. */
  lemma Combine(setRest: int, removedRest: int, q: int, p: int, prices: int, line: int, headTotal: int)
    requires setRest == removedRest + q * prices
    requires (line == q * p && headTotal == 0) || (line == headTotal && p == 0)
    ensures line + setRest == headTotal + removedRest + q * (p + prices)
  {
    Distribute(q, p, prices);
  }

  lemma Distribute(q: int, a: int, b: int)
    ensures q * (a + b) == q * a + q * b
  {
  }

  lemma Commute(a: int, b: int)
    ensures a * b == b * a
  {
  }

  /** Setting the same quantity twice is setting it once. */
  lemma SetQuantityIdempotent(items: seq<OrderItem>, id: string, quantity: int)
    ensures SetQuantity(SetQuantity(items, id, quantity), id, quantity) == SetQuantity(items, id, quantity)
  {
  }

  /** After a quantity update no item has quantity 0 unless it had it before under another id. */
  lemma UpdatedItemsNoZero(items: seq<OrderItem>, id: string, quantity: int, i: nat)
    requires i < |UpdatedItems(items, id, quantity)|
    ensures UpdatedItems(items, id, quantity)[i].id == id ==> UpdatedItems(items, id, quantity)[i].quantity == quantity != 0
  {
    if quantity == 0 {
      var r := RemoveItems(items, id);
      RemoveItemsMembers(items, id, r[i]);
    }
  }

  // ------------------------------------------------------------- discount

  /** No coupon, no discount: the total is subtotal and tax. */
  lemma NoCouponTotal(items: seq<OrderItem>)
    ensures Total(items, None) == Subtotal(items) + Tax(Subtotal(items))
  {
  }

  /** A fixed coupon takes off its value, or the whole amount when that is smaller. */
  lemma FixedDiscount(amount: int, c: AppliedCoupon)
    requires c.kind == Fixed
    ensures var d := Discount(amount, Some(c));
      d <= amount && d <= c.value && (d == amount || d == c.value)
  {
  }

  /** Below the cap a percentage coupon takes off `value`% of the amount, rounded to the nearest rupee. */
  lemma PercentageDiscountRounded(amount: int, c: AppliedCoupon)
    requires c.kind == Percentage
    requires !HasCap(c) || amount * c.value <= 100 * c.maxDiscountAmount.value
    ensures var d := Discount(amount, Some(c));
      200 * d <= 2 * amount * c.value + 100 < 200 * d + 200
  {
  }

  /** A percentage coupon with a truthy cap never takes off more than the cap. */
  lemma PercentageDiscountCapped(amount: int, c: AppliedCoupon)
    requires c.kind == Percentage && HasCap(c)
    ensures Discount(amount, Some(c)) <= c.maxDiscountAmount.value
    ensures amount * c.value > 100 * c.maxDiscountAmount.value ==> Discount(amount, Some(c)) == c.maxDiscountAmount.value
  {
  }

  /** A coupon of at most 100% never takes off more than the amount. */
  lemma PercentageDiscountWithinAmount(amount: int, c: AppliedCoupon)
    requires c.kind == Percentage && c.value <= 100 && amount >= 0
    ensures Discount(amount, Some(c)) <= amount
  {
    assert amount * c.value <= amount * 100 by {
      assert amount * (100 - c.value) >= 0;
    }
  }

  /** A coupon the Coupon model can store (a percentage of at most 100) never brings the total below the tax. */
  lemma TotalNotBelowTax(items: seq<OrderItem>, coupon: Option<AppliedCoupon>)
    requires forall i :: 0 <= i < |items| ==> items[i].price >= 0 && items[i].quantity >= 0
    requires coupon.Some? && coupon.value.kind == Percentage ==> coupon.value.value <= 100
    ensures Total(items, coupon) >= Tax(Subtotal(items)) >= 0
  {
    SubtotalNonNegative(items);
    if coupon.Some? && coupon.value.kind == Percentage {
      PercentageDiscountWithinAmount(Subtotal(items), coupon.value);
    }
  }
}
