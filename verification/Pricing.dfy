/** Cart totals, discount amounts and the rounding of stored money. Exact amounts are in hundredths. */
module Pricing {
  import opened Common
  import opened Inventory
  import opened Tables

  const LINE_TOTAL: CartItem -> int := (c: CartItem) => c.Total()

  const ITEM_TOTAL: Item -> int := (i: Item) => i.totalPrice

  function Subtotal(cart: seq<CartItem>): int {
    Sum(cart, LINE_TOTAL)
  }

  predicate Targets(d: Discount, c: CartItem) {
    c.product in d.products || c.category in d.categories
  }

  function TargetTotal(d: Discount): CartItem -> int {
    (c: CartItem) => if Targets(d, c) then c.Total() else 0
  }

  function EligibleSubtotal(d: Discount, cart: seq<CartItem>): int {
    if d.products == {} && d.categories == {} then Subtotal(cart) else Sum(cart, TargetTotal(d))
  }

  /** The exact discount on a cart, in hundredths of the currency unit. */
  function Amount(d: Discount, cart: seq<CartItem>): int {
    AmountOf(d, EligibleSubtotal(d, cart))
  }

  function AmountOf(d: Discount, eligible: int): int {
    if eligible <= 0 then 0
    else match d.kind
      case Percentage =>
        var exact := eligible * d.value;
        if d.maxAmount.Some? then Min(exact, 100 * d.maxAmount.value) else exact
      case FixedAmount => 100 * Min(d.value, eligible)
  }

  function UsesOf(usages: map<nat, Usage>, d: nat): set<nat> {
    set o | o in usages && usages[o].discount == d
  }

  function UsesBy(usages: map<nat, Usage>, d: nat, user: nat): set<nat> {
    set o | o in usages && usages[o].discount == d && usages[o].user == user
  }

  /** The checks of a discount against a cart, and its exact amount when they all pass. The cart is read
      twice, for the minimum order and for the amount. */
  function Validate(
    d: Discount, total: nat, byUser: nat, floor: seq<CartItem>, eligible: seq<CartItem>, now: int): Result<int>
  {
    if !d.active then Err(DiscountInactive)
    else if d.start.Some? && now < d.start.value then Err(DiscountNotStarted)
    else if d.end.Some? && d.end.value < now then Err(DiscountExpired)
    else if d.limitTotal.Some? && d.limitTotal.value <= total then Err(DiscountUsedUp)
    else if d.limitPerUser.Some? && d.limitPerUser.value <= byUser then Err(DiscountUsedUpByUser)
    else if Subtotal(floor) < d.minOrder then Err(BelowMinimumOrder)
    else if Amount(d, eligible) <= 0 then Err(DiscountNotApplicable)
    else Ok(Amount(d, eligible))
  }

  predicate DiscountFieldsOk(d: Discount) {
    && 0 <= d.value && (d.kind.Percentage? ==> d.value <= 100)
    && 0 <= d.minOrder
    && (d.maxAmount.Some? ==> 0 <= d.maxAmount.value)
    && (d.start.Some? && d.end.Some? ==> d.start.value < d.end.value)
  }

  predicate CartItemOk(c: CartItem) {
    0 < c.quantity
  }

  /** A stored cart: positive quantities, each product once. */
  ghost predicate CartOk(cart: seq<CartItem>) {
    && (forall k :: 0 <= k < |cart| ==> CartItemOk(cart[k]))
    && (forall j, k :: 0 <= j < k < |cart| ==> cart[j].product != cart[k].product)
  }

  // ----- Storage rounding

  /** Both roundings the database layer may apply to a money column of whole units. */
  datatype Rounding = HalfUp | HalfEven

  function Round(mode: Rounding, hundredths: int): int {
    var whole, rest := hundredths / 100, hundredths % 100;
    if rest < 50 || (rest == 50 && mode.HalfEven? && whole % 2 == 0) then whole else whole + 1
  }

  predicate IsNearest(n: int, hundredths: int) {
    -50 <= 100 * n - hundredths <= 50
  }

  lemma {:induction false} RoundIsNearest(mode: Rounding, h: int)
    ensures IsNearest(Round(mode, h), h)
    ensures Round(mode, 100 * (h / 100)) == h / 100
  {
    assert (100 * (h / 100)) / 100 == h / 100 && (100 * (h / 100)) % 100 == 0;
  }

  // ----- Bounds

  lemma {:induction false} TotalNonNegative(c: CartItem)
    requires CartItemOk(c)
    ensures 0 <= c.Total()
  {
    assert 0 <= c.unitPrice * c.quantity;
  }

  /** A cart is worth nothing iff each of its lines is. */
  lemma {:induction false} SubtotalNonNegative(cart: seq<CartItem>)
    requires forall k :: 0 <= k < |cart| ==> CartItemOk(cart[k])
    ensures 0 <= Subtotal(cart)
    ensures Subtotal(cart) == 0 <==> forall k :: 0 <= k < |cart| ==> cart[k].unitPrice == 0
  {
    forall k | 0 <= k < |cart| ensures 0 <= cart[k].Total() && (cart[k].Total() == 0 <==> cart[k].unitPrice == 0) {
      TotalNonNegative(cart[k]);
      assert CartItemOk(cart[k]);
    }
    SumNonNegative(cart, LINE_TOTAL);
    if forall k :: 0 <= k < |cart| ==> cart[k].unitPrice == 0 {
      SumZero(cart, LINE_TOTAL);
    }
  }

  lemma {:induction false} EligibleWithinSubtotal(d: Discount, cart: seq<CartItem>)
    requires forall k :: 0 <= k < |cart| ==> CartItemOk(cart[k])
    ensures 0 <= EligibleSubtotal(d, cart) <= Subtotal(cart)
  {
    forall k | 0 <= k < |cart| ensures 0 <= cart[k].Total() {
      TotalNonNegative(cart[k]);
    }
    SumNonNegative(cart, LINE_TOTAL);
    SumNonNegative(cart, TargetTotal(d));
    SumDominated(cart, TargetTotal(d), LINE_TOTAL);
  }

  lemma {:induction false} SumDominated<T>(s: seq<T>, f: T -> int, g: T -> int)
    requires forall i :: 0 <= i < |s| ==> f(s[i]) <= g(s[i])
    ensures Sum(s, f) <= Sum(s, g)
  {
    if s != [] {
      SumDominated(s[..|s| - 1], f, g);
    }
  }

  /** An accepted discount is positive and at most the eligible part of the cart its amount was read from,
      which is at most that cart. */
  lemma {:induction false} DiscountWithinSubtotal(
    d: Discount, total: nat, byUser: nat, floor: seq<CartItem>, cart: seq<CartItem>, now: int)
    requires DiscountFieldsOk(d) && (forall k :: 0 <= k < |cart| ==> CartItemOk(cart[k]))
    requires Validate(d, total, byUser, floor, cart, now).Ok?
    ensures 0 < Validate(d, total, byUser, floor, cart, now).value
              <= 100 * EligibleSubtotal(d, cart) <= 100 * Subtotal(cart)
  {
    EligibleWithinSubtotal(d, cart);
    var e := EligibleSubtotal(d, cart);
    if d.kind.Percentage? {
      assert e * d.value <= e * 100 by {
        ProductMonotone(e, d.value, 100);
      }
    }
  }

  lemma {:induction false} ProductMonotone(a: int, b: int, c: int)
    requires 0 <= a && b <= c
    ensures a * b <= a * c
  {
    assert a * (c - b) >= 0;
  }

  /** Storing an exact discount h and the exact total of `gross` minus it, each rounded to a nearest
      whole unit: the stored discount stays within the subtotal and no clamp at zero is needed. */
  lemma {:induction false} StoredMoneyBounds(gross: int, subtotal: int, h: int, discount: int, total: int)
    requires 0 <= h <= 100 * subtotal && subtotal <= gross
    requires IsNearest(discount, h) && IsNearest(total, 100 * gross - h)
    ensures 0 <= discount <= subtotal
    ensures 0 <= total
    ensures -1 <= (gross - discount) - total <= 1
    ensures h % 100 != 50 ==> total == gross - discount
  {
    var k, r := h / 100, h % 100;
    assert h == 100 * k + r;
  }

  /** Which roundings lose a unit: with halves rounded up, every exact half; with halves rounded to
      even, an exact half of an odd gross amount. */
  lemma {:induction false} RecomputedTotalDiffers(mode: Rounding, gross: int, h: int)
    ensures (gross - Round(mode, h) != Round(mode, 100 * gross - h)) <==>
            (h % 100 == 50 && (mode.HalfUp? || gross % 2 == 1))
  {
    var k, r := h / 100, h % 100;
    assert h == 100 * k + r;
    if r == 0 {
      assert 100 * gross - h == 100 * (gross - k);
      assert (100 * gross - h) / 100 == gross - k && (100 * gross - h) % 100 == 0;
    } else {
      assert 100 * gross - h == 100 * (gross - k - 1) + (100 - r);
      assert (100 * gross - h) / 100 == gross - k - 1 && (100 * gross - h) % 100 == 100 - r;
    }
  }
}
