/**
 * Server-side pricing and the bonus rules, over exact decimals.
 *
 * Amounts are reals; `Round2` is the rounding to kopecks the service applies,
 * `IsKopeck` says that an amount already is a whole number of kopecks.
 */
module Pricing {
  import opened Wrappers

  datatype Modifier = Modifier(priceDelta: real, quantity: int)

  datatype Item = Item(unitPrice: real, quantity: int, modifiers: seq<Modifier>)

  /** Half away from zero, to two decimals. */
  function Round2(x: real): real {
    if x >= 0.0 then (x * 100.0 + 0.5).Floor as real / 100.0
    else -((-x * 100.0 + 0.5).Floor as real / 100.0)
  }

  predicate IsKopeck(x: real) {
    (x * 100.0).Floor as real == x * 100.0
  }

  /** A price taken n times. */
  function Times(price: real, n: int): real { price * n as real }

  function ModifierDelta(modifiers: seq<Modifier>): real {
    if modifiers == [] then 0.0
    else ModifierDelta(modifiers[..|modifiers| - 1])
         + Times(modifiers[|modifiers| - 1].priceDelta, modifiers[|modifiers| - 1].quantity)
  }

  /** The price of one line before rounding. */
  function ExactLine(item: Item): real {
    Times(item.unitPrice + ModifierDelta(item.modifiers), item.quantity)
  }

  function LineTotal(item: Item): real {
    Round2(ExactLine(item))
  }

  function SumLines(items: seq<Item>): real {
    if items == [] then 0.0 else SumLines(items[..|items| - 1]) + LineTotal(items[|items| - 1])
  }

  function ExactSum(items: seq<Item>): real {
    if items == [] then 0.0 else ExactSum(items[..|items| - 1]) + ExactLine(items[|items| - 1])
  }

  function OrderSubtotal(items: seq<Item>): real {
    Round2(SumLines(items))
  }

  function OrderTotal(subtotal: real): real {
    Round2(subtotal * 100.0 / 100.0)
  }

  // ----- kopecks -----

  lemma KopeckOf(x: real, k: int)
    requires x * 100.0 == k as real
    ensures IsKopeck(x)
  {
    assert (k as real).Floor == k;
  }

  lemma KopeckAdd(x: real, y: real)
    requires IsKopeck(x) && IsKopeck(y)
    ensures IsKopeck(x + y) && IsKopeck(x - y)
  {
    var a, b := (x * 100.0).Floor, (y * 100.0).Floor;
    KopeckOf(x + y, a + b);
    KopeckOf(x - y, a - b);
  }

  lemma KopeckScale(x: real, n: int)
    requires IsKopeck(x)
    ensures IsKopeck(Times(x, n))
  {
    var a := (x * 100.0).Floor;
    assert x * n as real * 100.0 == (x * 100.0) * n as real;
    assert (a * n) as real == a as real * n as real;
    KopeckOf(Times(x, n), a * n);
  }

  /** Rounding always lands on a kopeck, at most half a kopeck away, and leaves kopecks alone. */
  lemma RoundsToNearestKopeck(x: real)
    ensures IsKopeck(Round2(x))
    ensures -0.005 <= Round2(x) - x <= 0.005
    ensures IsKopeck(x) ==> Round2(x) == x
  {
    if x >= 0.0 {
      var k := (x * 100.0 + 0.5).Floor;
      KopeckOf(Round2(x), k);
      if IsKopeck(x) {
        FloorPastHalf((x * 100.0).Floor);
      }
    } else {
      var k := (-x * 100.0 + 0.5).Floor;
      assert Round2(x) * 100.0 == -(k as real) == (-k) as real;
      KopeckOf(Round2(x), -k);
      if IsKopeck(x) {
        FloorPastHalf(-(x * 100.0).Floor);
      }
    }
  }

  lemma FloorPastHalf(k: int)
    ensures (k as real + 0.5).Floor == k
  {
  }

  // ----- the subtotal -----

  lemma {:induction false} SumLinesIsKopeck(items: seq<Item>)
    ensures IsKopeck(SumLines(items))
  {
    if items == [] {
      KopeckOf(0.0, 0);
    } else {
      var last := items[|items| - 1];
      SumLinesIsKopeck(items[..|items| - 1]);
      RoundsToNearestKopeck(ExactLine(last));
      KopeckAdd(SumLines(items[..|items| - 1]), LineTotal(last));
    }
  }

  /** Rounding the sum of rounded lines again changes nothing. */
  lemma OuterRoundingIsIdentity(items: seq<Item>)
    ensures OrderSubtotal(items) == SumLines(items)
  {
    SumLinesIsKopeck(items);
    RoundsToNearestKopeck(SumLines(items));
  }

  /** Rounding line by line moves the subtotal by at most half a kopeck per line. */
  lemma {:induction false} SubtotalErrorBound(items: seq<Item>)
    ensures -0.005 * |items| as real <= OrderSubtotal(items) - ExactSum(items) <= 0.005 * |items| as real
  {
    OuterRoundingIsIdentity(items);
    if items != [] {
      var rest := items[..|items| - 1];
      SubtotalErrorBound(rest);
      OuterRoundingIsIdentity(rest);
      RoundsToNearestKopeck(ExactLine(items[|items| - 1]));
      assert |items| as real == |rest| as real + 1.0;
    }
  }

  ghost predicate KopeckPrices(items: seq<Item>) {
    forall i :: 0 <= i < |items| ==>
      && IsKopeck(items[i].unitPrice)
      && forall j :: 0 <= j < |items[i].modifiers| ==> IsKopeck(items[i].modifiers[j].priceDelta)
  }

  lemma {:induction false} ModifierDeltaIsKopeck(modifiers: seq<Modifier>)
    requires forall j :: 0 <= j < |modifiers| ==> IsKopeck(modifiers[j].priceDelta)
    ensures IsKopeck(ModifierDelta(modifiers))
  {
    if modifiers == [] {
      KopeckOf(0.0, 0);
    } else {
      var last := modifiers[|modifiers| - 1];
      ModifierDeltaIsKopeck(modifiers[..|modifiers| - 1]);
      KopeckScale(last.priceDelta, last.quantity);
      KopeckAdd(ModifierDelta(modifiers[..|modifiers| - 1]), Times(last.priceDelta, last.quantity));
    }
  }

  /** With catalogue prices in kopecks no rounding happens anywhere. */
  lemma {:induction false} KopeckPricesAreExact(items: seq<Item>)
    requires KopeckPrices(items)
    ensures OrderSubtotal(items) == ExactSum(items)
    ensures forall i :: 0 <= i < |items| ==> LineTotal(items[i]) == ExactLine(items[i])
  {
    OuterRoundingIsIdentity(items);
    if items != [] {
      var rest, last := items[..|items| - 1], items[|items| - 1];
      assert IsKopeck(items[|items| - 1].unitPrice);
      assert KopeckPrices(rest) by {
        forall i | 0 <= i < |rest|
          ensures IsKopeck(rest[i].unitPrice) && forall j :: 0 <= j < |rest[i].modifiers| ==>
              IsKopeck(rest[i].modifiers[j].priceDelta)
        {
          assert rest[i] == items[i];
        }
      }
      KopeckPricesAreExact(rest);
      OuterRoundingIsIdentity(rest);
      ModifierDeltaIsKopeck(last.modifiers);
      KopeckAdd(last.unitPrice, ModifierDelta(last.modifiers));
      KopeckScale(last.unitPrice + ModifierDelta(last.modifiers), last.quantity);
      RoundsToNearestKopeck(ExactLine(last));
      forall i | 0 <= i < |items| ensures LineTotal(items[i]) == ExactLine(items[i]) {
        if i < |rest| {
          assert items[i] == rest[i];
        } else {
          assert items[i] == last;
        }
      }
    }
  }

  // ----- bonus rules -----

  function BonusLimit(base: real): int {
    if base <= 0.0 then 0 else (base * 0.30).Floor
  }

  function MaxBonusPoints(base: real, balance: int): int {
    Min(Max(balance, 0), BonusLimit(base))
  }

  function CashbackPoints(payable: real, rate: real): int {
    if payable <= 0.0 || rate <= 0.0 then 0 else (payable * rate / 100.0).Floor
  }

  /** The two checks of the checkout. */
  predicate SpendAllowed(points: int, base: real, balance: int) {
    points <= BonusLimit(base) && points <= balance
  }

  /** The offered maximum is exactly the largest spend the checkout accepts. */
  lemma OfferMatchesChecks(base: real, balance: int, points: int)
    requires points > 0
    ensures points <= MaxBonusPoints(base, balance) <==> SpendAllowed(points, base, balance)
  {
  }

  /** An accepted spend leaves at least 70% of the subtotal to pay, to the exact kopeck. */
  lemma SpendLeavesSeventyPercent(items: seq<Item>, points: int)
    requires 0 <= points <= BonusLimit(OrderSubtotal(items))
    ensures OrderTotal(OrderSubtotal(items) - points as real) == OrderSubtotal(items) - points as real
    ensures OrderSubtotal(items) >= 0.0 ==>
              OrderTotal(OrderSubtotal(items) - points as real) >= OrderSubtotal(items) * 0.70
    ensures OrderSubtotal(items) < 0.0 ==> points == 0
  {
    var subtotal := OrderSubtotal(items);
    RoundsToNearestKopeck(SumLines(items));
    KopeckOf(points as real, points * 100);
    KopeckAdd(subtotal, points as real);
    RoundsToNearestKopeck(subtotal - points as real);
    assert subtotal > 0.0 ==> (subtotal * 0.30).Floor as real <= subtotal * 0.30;
  }

  /** Cashback at a rate of at most 100% never exceeds what was paid and never is negative. */
  lemma CashbackWithinTotal(payable: real, rate: real)
    requires payable >= 0.0 && rate <= 100.0
    ensures 0 <= CashbackPoints(payable, rate)
    ensures CashbackPoints(payable, rate) as real <= payable
  {
    if payable > 0.0 && rate > 0.0 {
      assert payable * rate >= 0.0;
      assert payable * (100.0 - rate) >= 0.0;
      assert payable * rate <= payable * 100.0;
    }
  }

  // ----- the stored order and its recomputation -----

  /** The money columns of an order: lines with their totals, subtotal, bonus discount, total. */
  datatype Amounts = Amounts(items: seq<Item>, lineTotals: seq<real>, subtotal: real, bonusDiscount: real, total: real)

  function LineTotals(items: seq<Item>): seq<real> {
    seq(|items|, i requires 0 <= i < |items| => LineTotal(items[i]))
  }

  function StoredModifiers(modifiers: seq<Modifier>): seq<Modifier> {
    seq(|modifiers|, i requires 0 <= i < |modifiers| =>
      modifiers[i].(priceDelta := Round2(modifiers[i].priceDelta)))
  }

  /** The lines as the price columns hold them: two decimals. */
  function StoredItems(items: seq<Item>): seq<Item> {
    seq(|items|, i requires 0 <= i < |items| =>
      items[i].(unitPrice := Round2(items[i].unitPrice), modifiers := StoredModifiers(items[i].modifiers)))
  }

  /** What the checkout computes from the catalogue and stores. */
  function Checkout(items: seq<Item>, points: int): Amounts {
    var subtotal := OrderSubtotal(items);
    Amounts(StoredItems(items), LineTotals(items), subtotal, points as real, OrderTotal(subtotal - points as real))
  }

  /** What the worker writes: totals from the stored lines, the discount kept. */
  function Recompute(a: Amounts): Amounts {
    var subtotal := OrderSubtotal(a.items);
    a.(lineTotals := LineTotals(a.items), subtotal := subtotal, total := OrderTotal(subtotal - a.bonusDiscount))
  }

  function Recomputed(a: Amounts, times: nat): Amounts {
    if times == 0 then a else Recompute(Recomputed(a, times - 1))
  }

  lemma KopeckPricesAreStoredAsTheyAre(items: seq<Item>)
    requires KopeckPrices(items)
    ensures StoredItems(items) == items
  {
    forall i | 0 <= i < |items| ensures StoredItems(items)[i] == items[i] {
      RoundsToNearestKopeck(items[i].unitPrice);
      var modifiers := items[i].modifiers;
      forall j | 0 <= j < |modifiers| ensures StoredModifiers(modifiers)[j] == modifiers[j] {
        RoundsToNearestKopeck(modifiers[j].priceDelta);
      }
      assert StoredModifiers(modifiers) == modifiers;
    }
  }

  /** The worker may run any number of times: it reproduces what the checkout stored. */
  lemma {:induction false} RecomputationReproducesCheckout(items: seq<Item>, points: int, times: nat)
    requires KopeckPrices(items)
    ensures Recomputed(Checkout(items, points), times) == Checkout(items, points)
  {
    KopeckPricesAreStoredAsTheyAre(items);
    if times > 0 {
      RecomputationReproducesCheckout(items, points, times - 1);
    }
  }

  // ----- the fiscal receipt -----

  datatype ReceiptLine = ReceiptLine(quantity: int, unitPrice: real)

  function ReceiptLines(items: seq<Item>): seq<ReceiptLine> {
    seq(|items|, i requires 0 <= i < |items| =>
      ReceiptLine(items[i].quantity, items[i].unitPrice + ModifierDelta(items[i].modifiers)))
  }

  function ReceiptSum(lines: seq<ReceiptLine>): real {
    if lines == [] then 0.0
    else ReceiptSum(lines[..|lines| - 1]) + Times(lines[|lines| - 1].unitPrice, lines[|lines| - 1].quantity)
  }

  lemma {:induction false} ReceiptSumIsExactSum(items: seq<Item>)
    ensures ReceiptSum(ReceiptLines(items)) == ExactSum(items)
  {
    if items != [] {
      var rest := items[..|items| - 1];
      ReceiptSumIsExactSum(rest);
      assert ReceiptLines(items)[..|items| - 1] == ReceiptLines(rest);
    }
  }

  /**
   * The receipt adds up to the order total plus the bonus discount. It equals
   * the order total, as the comment in the code has it, exactly when no bonuses
   * were spent.
   */
  lemma ReceiptAddsUp(items: seq<Item>, points: int)
    requires KopeckPrices(items)
    ensures var order := Checkout(items, points);
            && ReceiptSum(ReceiptLines(order.items)) == order.total + order.bonusDiscount
            && (ReceiptSum(ReceiptLines(order.items)) == order.total <==> points == 0)
  {
    hide ReceiptLines;
    ReceiptSumIsExactSum(items);
    KopeckPricesAreExact(items);
    KopeckPricesAreStoredAsTheyAre(items);
    RoundsToNearestKopeck(SumLines(items));
    KopeckOf(points as real, points * 100);
    KopeckAdd(OrderSubtotal(items), points as real);
    RoundsToNearestKopeck(OrderSubtotal(items) - points as real);
  }

  /** Nonnegative lines make a nonnegative subtotal. */
  lemma {:induction false} NonnegativeLines(items: seq<Item>)
    requires forall i :: 0 <= i < |items| ==> ExactLine(items[i]) >= 0.0
    ensures OrderSubtotal(items) >= 0.0
  {
    OuterRoundingIsIdentity(items);
    if items != [] {
      NonnegativeLines(items[..|items| - 1]);
      OuterRoundingIsIdentity(items[..|items| - 1]);
    }
  }
}
