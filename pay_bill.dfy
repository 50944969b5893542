/**
 * pages/PayBill.tsx: the bill of an order (subtotal, 18% tax, coupon
 * discount, total) and the edits of the order and of the applied coupon.
 *
 * Prices, quantities and coupon values are integers (rupees), and the
 * divisions by 100 are exact rationals, so `Math.round(n / 100)`, with
 * halves rounded up, is computed as `(2n + 100) / 200` with floor division.
 */
module PayBill {
  import opened Wrappers

  datatype OrderItem = OrderItem(id: string, name: string, price: int, quantity: int)

  /** The `type` of an applied coupon: anything but "percentage" takes the fixed branch. */
  datatype CouponKind = Percentage | Fixed

  /** The coupon the server sent back, as far as the bill reads it. */
  datatype AppliedCoupon = AppliedCoupon(code: string, kind: CouponKind, value: int, maxDiscountAmount: Option<int>)

  /** `Math.round(n / 100)`: the nearest integer, halves going up. */
  function RoundHundredths(n: int): (r: int)
    ensures 200 * r <= 2 * n + 100 < 200 * r + 200
  {
    (2 * n + 100) / 200
  }

  function LineTotal(item: OrderItem): int {
    item.price * item.quantity
  }

  /** `orderItems.reduce((sum, item) => sum + item.price * item.quantity, 0)`. */
  function Subtotal(items: seq<OrderItem>): int {
    if items == [] then 0 else Subtotal(items[..|items| - 1]) + LineTotal(items[|items| - 1])
  }

  /** `Math.round(subtotal * 0.18)`. */
  function Tax(subtotal: int): (t: int)
    ensures 200 * t <= 36 * subtotal + 100 < 200 * t + 200
  {
    RoundHundredths(18 * subtotal)
  }

  /** `coupon.maxDiscountAmount` is truthy: present and not zero. */
  predicate HasCap(c: AppliedCoupon) {
    c.maxDiscountAmount.Some? && c.maxDiscountAmount.value != 0
  }

  /** `calculateDiscount(amount, coupon)`. */
  function Discount(amount: int, coupon: Option<AppliedCoupon>): int {
    match coupon
    case None => 0
    case Some(c) =>
      match c.kind
      case Percentage =>
        // `amount * value / 100 > maxDiscountAmount`, compared exactly.
        if HasCap(c) && amount * c.value > 100 * c.maxDiscountAmount.value then c.maxDiscountAmount.value
        else RoundHundredths(amount * c.value)
      case Fixed => if c.value <= amount then c.value else amount
  }

  /** `total = subtotal + tax - discountAmount`, the discount taken on the subtotal. */
  function Total(items: seq<OrderItem>, coupon: Option<AppliedCoupon>): int {
    var subtotal := Subtotal(items);
    subtotal + Tax(subtotal) - Discount(subtotal, coupon)
  }

  /** `items.filter(item => item.id !== id)`. */
  function RemoveItems(items: seq<OrderItem>, id: string): seq<OrderItem> {
    if items == [] then []
    else (if items[0].id == id then [] else [items[0]]) + RemoveItems(items[1..], id)
  }

  /** `items.map(item => item.id === id ? {...item, quantity} : item)`. */
  function SetQuantity(items: seq<OrderItem>, id: string, quantity: int): (r: seq<OrderItem>)
    ensures |r| == |items|
    ensures forall i :: 0 <= i < |items| ==>
      r[i] == (if items[i].id == id then items[i].(quantity := quantity) else items[i])
  {
    if items == [] then []
    else [if items[0].id == id then items[0].(quantity := quantity) else items[0]] + SetQuantity(items[1..], id, quantity)
  }

  /** `updateQuantity(id, q)`: 0 removes the items, anything else sets their quantity. */
  function UpdatedItems(items: seq<OrderItem>, id: string, quantity: int): seq<OrderItem> {
    if quantity == 0 then RemoveItems(items, id) else SetQuantity(items, id, quantity)
  }

  /** The order the page starts with. */
  const InitialItems: seq<OrderItem> := [
    OrderItem("1", "Butter Chicken", 420, 1),
    OrderItem("2", "Paneer Tikka", 280, 2),
    OrderItem("3", "Garlic Naan", 80, 3),
    OrderItem("4", "Gulab Jamun", 160, 1)]

  /** The coupon form's schema: a code of three or more characters. */
  predicate CouponFormValid(code: string) {
    |code| >= 3
  }

  /** The page's state: the order and the applied coupon. */
  class Bill {
    var items: seq<OrderItem>
    var applied: Option<AppliedCoupon>
    /** The subtotal posted when the applied coupon was obtained. */
    ghost var quoted: int

    /** An applied coupon was obtained for the order as it now stands. */
    ghost predicate Valid()
      reads this
    {
      applied.Some? ==> quoted == Subtotal(items)
    }

    constructor()
      ensures Valid()
      ensures items == InitialItems && applied == None
    {
      items := InitialItems;
      applied := None;
    }

    function CurrentTotal(): int
      reads this
    {
      Total(items, applied)
    }

    /**
     * The total shown takes the applied coupon's discount on the very
     * subtotal that was posted for it: editing the order drops the coupon
     * rather than leaving a discount quoted for another order.
     */
    lemma TotalOnQuotedSubtotal()
      requires Valid()
      ensures applied.Some? ==> CurrentTotal() == quoted + Tax(quoted) - Discount(quoted, applied)
      ensures applied.None? ==> CurrentTotal() == Subtotal(items) + Tax(Subtotal(items))
    {
    }

    /** `updateQuantity`: the order edited, and any applied coupon dropped. */
    method UpdateQuantity(id: string, quantity: int)
      modifies this
      ensures Valid()
      ensures items == UpdatedItems(old(items), id, quantity)
      ensures applied == None
    {
      if quantity == 0 {
        items := RemoveItems(items, id);
      } else {
        items := SetQuantity(items, id, quantity);
      }
      if applied.Some? {
        applied := None;
      }
    }

    /** `removeCoupon`. */
    method RemoveCoupon()
      modifies this
      ensures Valid()
      ensures applied == None && items == old(items)
    {
      applied := None;
    }

    /**
     * `applyCoupon` on submit of the form: an invalid code is stopped by the
     * form's resolver; otherwise the code and the subtotal are posted, and an
     * accepted coupon (the server's answer) replaces the applied one.
     */
    method ApplyCoupon(code: string, answer: Option<AppliedCoupon>) returns (posted: Option<(string, int)>)
      requires Valid()
      modifies this
      ensures Valid()
      ensures items == old(items)
      ensures !CouponFormValid(code) ==> posted == None && applied == old(applied)
      ensures CouponFormValid(code) ==> posted == Some((code, Subtotal(items)))
      ensures CouponFormValid(code) ==> applied == (if answer.Some? then answer else old(applied))
    {
      if !CouponFormValid(code) {
        return None;
      }
      posted := Some((code, Subtotal(items)));
      if answer.Some? {
        applied := answer;
        quoted := Subtotal(items);
      }
    }
  }
}
