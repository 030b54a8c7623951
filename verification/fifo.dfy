/** First-in-first-out lot accounting of `sell.py`: which parts of the BUY
    lots are still held, how a sale takes shares from them, and the average
    cost of what remains. */
module Fifo {
  import opened Seqs
  import opened Tables

  /** The unsold part of a BUY lot (`available_quantity` of
      `get_fifo_holdings`). */
  datatype Available = Available(lot: Lot, quantity: real)

  /** Shares taken from one lot by a sale (an entry of `sold_shares_info`). */
  datatype Taken = Taken(quantity: real, price: real)

  function AvailableQuantity(a: Available): real { a.quantity }

  function AvailableCost(a: Available): real { a.quantity * a.lot.price }

  function TakenQuantity(t: Taken): real { t.quantity }

  function TakenCost(t: Taken): real { t.quantity * t.price }

  function LotsOf(avail: seq<Available>): (lots: seq<Lot>)
    ensures |lots| == |avail|
    ensures forall i :: 0 <= i < |avail| ==> lots[i] == avail[i].lot
  {
    seq(|avail|, i requires 0 <= i < |avail| => avail[i].lot)
  }

  predicate NonNegativeLots(lots: seq<Lot>) {
    forall k :: 0 <= k < |lots| ==> lots[k].quantity >= 0.0
  }

  /** Skips `toReduce` shares of the lots, oldest first, and lists what is
      left: a lot the skip covers entirely is dropped, the lot it ends in is
      reduced, and every later lot is kept whole. This is the loop of
      `get_fifo_holdings` and, with the same branches, the skip loop of
      `calculate_remaining_average_cost`. */
  function AvailableLots(lots: seq<Lot>, toReduce: real): (r: seq<Available>)
    ensures forall i :: 0 <= i < |r| ==> r[i].quantity > 0.0
    ensures toReduce >= 0.0 ==> forall i :: 0 <= i < |r| ==> r[i].quantity <= r[i].lot.quantity
    ensures NonNegativeLots(lots) && toReduce == 0.0 ==>
      forall i :: 0 <= i < |r| ==> r[i].quantity == r[i].lot.quantity
    ensures NonNegativeLots(lots) ==> forall i :: 0 < i < |r| ==> r[i].quantity == r[i].lot.quantity
    ensures IsSubsequence(LotsOf(r), lots)
    decreases |lots|
  {
    if |lots| == 0 then []
    else if toReduce >= lots[0].quantity then AvailableLots(lots[1..], toReduce - lots[0].quantity)
    else
      var rest := AvailableLots(lots[1..], 0.0);
      var r := [Available(lots[0], lots[0].quantity - toReduce)] + rest;
      assert LotsOf(r)[1..] == LotsOf(rest);
      r
  }

  /** When no more shares were sold than bought, what is left adds up to
      bought minus sold; when more were sold, nothing is left. */
  lemma {:induction false} AvailableLotsSum(lots: seq<Lot>, toReduce: real)
    requires NonNegativeLots(lots) && toReduce >= 0.0
    ensures toReduce <= Sum(lots, LotQuantity) ==>
      Sum(AvailableLots(lots, toReduce), AvailableQuantity) == Sum(lots, LotQuantity) - toReduce
    ensures toReduce > Sum(lots, LotQuantity) ==> AvailableLots(lots, toReduce) == []
    decreases |lots|
  {
    if |lots| > 0 {
      var rest := lots[1..];
      SumNonNegative(rest, LotQuantity);
      if toReduce >= lots[0].quantity {
        AvailableLotsSum(rest, toReduce - lots[0].quantity);
      } else {
        AvailableLotsSum(rest, 0.0);
      }
    }
  }

  /** With nothing to skip every lot of positive quantity is kept whole. */
  lemma {:induction false} AvailableLotsNoSkip(lots: seq<Lot>)
    requires forall k :: 0 <= k < |lots| ==> lots[k].quantity > 0.0
    ensures AvailableLots(lots, 0.0) == seq(|lots|, i requires 0 <= i < |lots| => Available(lots[i], lots[i].quantity))
    decreases |lots|
  {
    if |lots| > 0 {
      AvailableLotsNoSkip(lots[1..]);
    }
  }

  /** The loop of `sell_stock` that takes `min(remaining, available)` from
      each available lot in order until nothing remains to sell. */
  function Consume(avail: seq<Available>, remaining: real): (taken: seq<Taken>)
    ensures |taken| <= |avail|
    ensures forall i :: 0 <= i < |taken| ==> taken[i].price == avail[i].lot.price
    ensures forall i :: 0 <= i < |taken| ==> taken[i].quantity <= avail[i].quantity
    ensures forall i :: 0 <= i < |taken| - 1 ==> taken[i].quantity == avail[i].quantity
    ensures (forall i :: 0 <= i < |avail| ==> avail[i].quantity > 0.0) ==>
      forall i :: 0 <= i < |taken| ==> taken[i].quantity > 0.0
    decreases |avail|
  {
    if |avail| == 0 || remaining <= 0.0 then []
    else
      var q := Portion(remaining, avail[0].quantity);
      var rest := Consume(avail[1..], remaining - q);
      var taken := [Taken(q, avail[0].lot.price)] + rest;
      assert forall i :: 0 < i < |taken| ==> taken[i] == rest[i - 1];
      taken
  }

  /** `min(remaining, available)`: what one lot gives. */
  function Portion(remaining: real, available: real): real {
    if remaining < available then remaining else available
  }

  /** The shares taken add up to the smaller of the quantity to sell and the
      quantity available; in particular to the quantity to sell when enough
      is available. */
  lemma {:induction false} ConsumeSum(avail: seq<Available>, remaining: real)
    requires forall i :: 0 <= i < |avail| ==> avail[i].quantity >= 0.0
    requires remaining >= 0.0
    ensures Sum(Consume(avail, remaining), TakenQuantity) ==
      Min2(remaining, Sum(avail, AvailableQuantity))
    decreases |avail|
  {
    if |avail| > 0 && remaining > 0.0 {
      var a := avail[0].quantity;
      var q := if remaining < a then remaining else a;
      var rest := Consume(avail[1..], remaining - q);
      ConsumeSum(avail[1..], remaining - q);
      SumNonNegative(avail[1..], AvailableQuantity);
      assert Consume(avail, remaining) == [Taken(q, avail[0].lot.price)] + rest;
      assert Sum(avail, AvailableQuantity) == a + Sum(avail[1..], AvailableQuantity);
      ConsumeStep(a, remaining, Sum(avail[1..], AvailableQuantity), Sum(rest, TakenQuantity));
    } else if |avail| > 0 {
      SumNonNegative(avail, AvailableQuantity);
    }
  }

  /** One lot of `Consume`: taking `min(remaining, a)` from a lot of `a`
      shares and the smaller of what is left and `later` from the later
      lots takes the smaller of `remaining` and everything. */
  lemma ConsumeStep(a: real, remaining: real, later: real, restSum: real)
    requires a >= 0.0 && later >= 0.0
    requires restSum == Min2(remaining - (if remaining < a then remaining else a), later)
    ensures (if remaining < a then remaining else a) + restSum == Min2(remaining, a + later)
  {
  }

  /** What a sale takes costs exactly what the FIFO holdings lose: after
      `skipped` shares, taking `quantity` more leaves the holdings that skip
      `upTo`, that is `skipped + quantity`, and the cost of the shares taken
      is the difference in cost between the two. */
  lemma {:induction false} ConsumeCost(lots: seq<Lot>, skipped: real, quantity: real, upTo: real)
    requires NonNegativeLots(lots) && skipped >= 0.0 && quantity >= 0.0 && upTo == skipped + quantity
    ensures Sum(Consume(AvailableLots(lots, skipped), quantity), TakenCost) ==
      Sum(AvailableLots(lots, skipped), AvailableCost) - Sum(AvailableLots(lots, upTo), AvailableCost)
    decreases |lots|, 1
  {
    if |lots| == 0 {
      assert Consume([], quantity) == [];
    } else if quantity == 0.0 {
      assert Consume(AvailableLots(lots, skipped), 0.0) == [];
    } else if skipped >= lots[0].quantity {
      ConsumeCostSkip(lots, skipped, quantity, upTo);
    } else {
      ConsumeCostInside(lots, skipped, quantity, upTo);
    }
  }

  /** The step of `ConsumeCost` at a first lot the skip covers, given the
      claim for the later lots. */
  lemma {:induction false} ConsumeCostSkip(lots: seq<Lot>, skipped: real, quantity: real, upTo: real)
    requires NonNegativeLots(lots) && |lots| > 0 && skipped >= lots[0].quantity && quantity >= 0.0
    requires upTo == skipped + quantity
    ensures Sum(Consume(AvailableLots(lots, skipped), quantity), TakenCost) ==
      Sum(AvailableLots(lots, skipped), AvailableCost) - Sum(AvailableLots(lots, upTo), AvailableCost)
    decreases |lots|, 0
  {
    var later := skipped - lots[0].quantity;
    var laterUpTo := upTo - lots[0].quantity;
    assert NonNegativeLots(lots[1..]);
    ConsumeCost(lots[1..], later, quantity, laterUpTo);
    AvailableSkip(lots, skipped, later);
    AvailableSkip(lots, upTo, laterUpTo);
  }

  /** The step of `ConsumeCost` at a first lot the skip ends inside,
      given the claim for the later lots. */
  lemma {:induction false} ConsumeCostInside(lots: seq<Lot>, skipped: real, quantity: real, upTo: real)
    requires NonNegativeLots(lots) && |lots| > 0 && 0.0 <= skipped < lots[0].quantity && quantity > 0.0
    requires upTo == skipped + quantity
    ensures Sum(Consume(AvailableLots(lots, skipped), quantity), TakenCost) ==
      Sum(AvailableLots(lots, skipped), AvailableCost) - Sum(AvailableLots(lots, upTo), AvailableCost)
    decreases |lots|, 0
  {
    var first := lots[0];
    var a := first.quantity - skipped;
    var q := Portion(quantity, a);
    var left := quantity - q;
    InsideFirst(lots, skipped, quantity, a, q, left);
    var taken := Sum(Consume(AvailableLots(lots, skipped), quantity), TakenCost);
    var takenLater := Sum(Consume(AvailableLots(lots[1..], 0.0), left), TakenCost);
    var before := Sum(AvailableLots(lots, skipped), AvailableCost);
    var laterCost := Sum(AvailableLots(lots[1..], 0.0), AvailableCost);
    var after := Sum(AvailableLots(lots, upTo), AvailableCost);
    if quantity < a {
      var kept := a - quantity;
      PartAfter(lots, upTo, kept);
      assert Consume(AvailableLots(lots[1..], 0.0), left) == [];
      PartOfLotCost(first, a, q, kept);
      CostDifference(taken, TakenCost(Taken(q, first.price)), takenLater, before, AvailableCost(Available(first, a)),
        laterCost, after, AvailableCost(Available(first, kept)));
    } else {
      assert NonNegativeLots(lots[1..]);
      ConsumeCost(lots[1..], 0.0, left, left);
      AvailableSkip(lots, upTo, left);
      WholeLotCost(first, a, q);
      CostDifference(taken, TakenCost(Taken(q, first.price)), takenLater, before, AvailableCost(Available(first, a)),
        laterCost, after, 0.0);
    }
  }

  /** Both sides of the cost claim split at a first lot the skip ends
      inside: `a` shares of it are available, `q` of them are taken and
      `left` remain to take from the later lots. */
  lemma InsideFirst(lots: seq<Lot>, skipped: real, quantity: real, a: real, q: real, left: real)
    requires |lots| > 0 && skipped < lots[0].quantity && quantity > 0.0
    requires a == lots[0].quantity - skipped && q == Portion(quantity, a) && left == quantity - q
    ensures Sum(Consume(AvailableLots(lots, skipped), quantity), TakenCost) ==
      TakenCost(Taken(q, lots[0].price)) + Sum(Consume(AvailableLots(lots[1..], 0.0), left), TakenCost)
    ensures Sum(AvailableLots(lots, skipped), AvailableCost) ==
      AvailableCost(Available(lots[0], a)) + Sum(AvailableLots(lots[1..], 0.0), AvailableCost)
  {
    InsideTaken(lots, skipped, quantity, a, q, left);
    InsideHeld(lots, skipped, a);
  }

  lemma InsideTaken(lots: seq<Lot>, skipped: real, quantity: real, a: real, q: real, left: real)
    requires |lots| > 0 && skipped < lots[0].quantity && quantity > 0.0
    requires a == lots[0].quantity - skipped && q == Portion(quantity, a) && left == quantity - q
    ensures Sum(Consume(AvailableLots(lots, skipped), quantity), TakenCost) ==
      TakenCost(Taken(q, lots[0].price)) + Sum(Consume(AvailableLots(lots[1..], 0.0), left), TakenCost)
  {
    var avail := AvailableLots(lots, skipped);
    AvailableFirst(lots, skipped);
    assert avail[0].quantity == a;
    ConsumeFirst(avail, quantity, q, left);
  }

  lemma InsideHeld(lots: seq<Lot>, skipped: real, a: real)
    requires |lots| > 0 && skipped < lots[0].quantity && a == lots[0].quantity - skipped
    ensures Sum(AvailableLots(lots, skipped), AvailableCost) ==
      AvailableCost(Available(lots[0], a)) + Sum(AvailableLots(lots[1..], 0.0), AvailableCost)
  {
    var avail := AvailableLots(lots, skipped);
    AvailableFirst(lots, skipped);
    assert avail[0] == Available(lots[0], a);
    SumFirst(avail, AvailableCost);
  }

  /** After a skip up to `upTo` that still ends inside the first lot,
      `kept` shares of it remain and the later lots are whole. */
  lemma PartAfter(lots: seq<Lot>, upTo: real, kept: real)
    requires |lots| > 0 && upTo < lots[0].quantity && kept == lots[0].quantity - upTo
    ensures Sum(AvailableLots(lots, upTo), AvailableCost) ==
      AvailableCost(Available(lots[0], kept)) + Sum(AvailableLots(lots[1..], 0.0), AvailableCost)
  {
    var after := AvailableLots(lots, upTo);
    AvailableFirst(lots, upTo);
    assert after[0] == Available(lots[0], kept);
    SumFirst(after, AvailableCost);
  }

  /** The bookkeeping that closes both cases of `ConsumeCostInside`. */
  lemma CostDifference(taken: real, first: real, takenLater: real, before: real, head: real,
                       laterCost: real, after: real, keptHead: real)
    requires taken == first + takenLater && before == head + laterCost
    requires first == head - keptHead
    requires takenLater == laterCost + keptHead - after
    ensures taken == before - after
  {
  }

  /** Taking `q` of the `a` shares available in a lot: the cost taken is
      what the lot's cost falls by. */
  lemma PartOfLotCost(lot: Lot, a: real, q: real, kept: real)
    requires kept == a - q
    ensures TakenCost(Taken(q, lot.price)) ==
      AvailableCost(Available(lot, a)) - AvailableCost(Available(lot, kept))
  {
    Distribute(lot.price, kept, q);
  }

  lemma WholeLotCost(lot: Lot, a: real, q: real)
    requires q == a
    ensures TakenCost(Taken(q, lot.price)) == AvailableCost(Available(lot, a))
  {
  }

  /** A skip that ends inside the first lot keeps its rest and every later
      lot whole. */
  lemma AvailableFirst(lots: seq<Lot>, skipped: real)
    requires |lots| > 0 && skipped < lots[0].quantity
    ensures var avail := AvailableLots(lots, skipped);
      && |avail| > 0
      && avail[0] == Available(lots[0], lots[0].quantity - skipped)
      && avail[1..] == AvailableLots(lots[1..], 0.0)
  {
    var avail := AvailableLots(lots, skipped);
    assert avail == [Available(lots[0], lots[0].quantity - skipped)] + AvailableLots(lots[1..], 0.0);
  }

  /** A skip that covers the first lot drops it; `later` is what remains
      to skip in the later lots. */
  lemma AvailableSkip(lots: seq<Lot>, skipped: real, later: real)
    requires |lots| > 0 && skipped >= lots[0].quantity && later == skipped - lots[0].quantity
    ensures AvailableLots(lots, skipped) == AvailableLots(lots[1..], later)
  {
  }

  /** The first lot of `Consume`: it takes its portion and the later lots
      give the rest. */
  lemma ConsumeUnfold(avail: seq<Available>, remaining: real, q: real, left: real)
    requires |avail| > 0 && remaining > 0.0
    requires q == Portion(remaining, avail[0].quantity) && left == remaining - q
    ensures var t := Consume(avail, remaining);
      && |t| > 0
      && t[0] == Taken(q, avail[0].lot.price)
      && t[1..] == Consume(avail[1..], left)
  {
  }

  /** The first lot of `Consume`, priced. */
  lemma ConsumeFirst(avail: seq<Available>, remaining: real, q: real, left: real)
    requires |avail| > 0 && remaining > 0.0
    requires q == Portion(remaining, avail[0].quantity) && left == remaining - q
    ensures Sum(Consume(avail, remaining), TakenCost) ==
      TakenCost(Taken(q, avail[0].lot.price)) + Sum(Consume(avail[1..], left), TakenCost)
  {
    ConsumeUnfold(avail, remaining, q, left);
    SumFirst(Consume(avail, remaining), TakenCost);
  }

  function Min2(a: real, b: real): real {
    if a <= b then a else b
  }

  /** `total_cost / total_quantity` over the remaining lots, or 0 when none
      remain. */
  function WeightedAverage(avail: seq<Available>): real {
    if |avail| == 0 then 0.0
    else
      var quantity := Sum(avail, AvailableQuantity);
      if quantity > 0.0 then Sum(avail, AvailableCost) / quantity else 0.0
  }

  /** `calculate_remaining_average_cost`: skips as many shares of all the BUY
      lots as THIS sale took, oldest first, and averages what is left
      weighted by quantity. */
  function RemainingAverageCost(allBuys: seq<Lot>, soldShares: seq<Taken>): real {
    WeightedAverage(AvailableLots(allBuys, Sum(soldShares, TakenQuantity)))
  }

  predicate PriceBounds(avail: seq<Available>, lo: real, hi: real) {
    forall i :: 0 <= i < |avail| ==> lo <= avail[i].lot.price <= hi
  }

  lemma {:induction false} CostBounds(avail: seq<Available>, lo: real, hi: real)
    requires forall i :: 0 <= i < |avail| ==> avail[i].quantity > 0.0
    requires PriceBounds(avail, lo, hi)
    ensures lo * Sum(avail, AvailableQuantity) <= Sum(avail, AvailableCost) <= hi * Sum(avail, AvailableQuantity)
    decreases |avail|
  {
    if |avail| > 0 {
      CostBounds(avail[1..], lo, hi);
      var a := avail[0];
      var q := Sum(avail[1..], AvailableQuantity);
      var c := Sum(avail[1..], AvailableCost);
      var first := AvailableCost(a);
      MulMonotone(a.quantity, lo, a.lot.price);
      MulMonotone(a.quantity, a.lot.price, hi);
      assert lo * a.quantity <= first <= hi * a.quantity;
      assert Sum(avail, AvailableQuantity) == a.quantity + q;
      assert Sum(avail, AvailableCost) == first + c;
      Distribute(lo, a.quantity, q);
      Distribute(hi, a.quantity, q);
    }
  }

  lemma Distribute(x: real, a: real, b: real)
    ensures x * (a + b) == x * a + x * b
  {
  }

  lemma MulMonotone(q: real, x: real, y: real)
    requires q >= 0.0 && x <= y
    ensures x * q <= y * q && q * x <= q * y
  {
  }

  /** `c` lies between `lo` and `hi` times `q`. */
  predicate ScaledBetween(lo: real, c: real, hi: real, q: real) {
    lo * q <= c <= hi * q
  }

  /** A quotient by a positive amount keeps the bounds of the numerator. */
  lemma DivBounds(c: real, q: real, lo: real, hi: real)
    requires q > 0.0 && ScaledBetween(lo, c, hi, q)
    ensures lo <= c / q <= hi
  {
  }

  lemma DivMul(c: real, q: real)
    requires q != 0.0
    ensures (c / q) * q == c
  {
  }

  /** Times the remaining quantity, the weighted average gives back the cost
      of what remains. */
  lemma WeightedAverageCost(avail: seq<Available>)
    requires forall i :: 0 <= i < |avail| ==> avail[i].quantity > 0.0
    ensures WeightedAverage(avail) * Sum(avail, AvailableQuantity) == Sum(avail, AvailableCost)
  {
    if |avail| > 0 {
      var q := Sum(avail, AvailableQuantity);
      assert q > 0.0 by {
        SumNonNegative(avail[1..], AvailableQuantity);
        assert q == avail[0].quantity + Sum(avail[1..], AvailableQuantity);
      }
      DivMul(Sum(avail, AvailableCost), q);
    }
  }

  /** The remaining weighted average lies between the smallest and the
      largest price of the lots that remain. */
  lemma WeightedAverageBounds(avail: seq<Available>, lo: real, hi: real)
    requires forall i :: 0 <= i < |avail| ==> avail[i].quantity > 0.0
    requires |avail| > 0 && PriceBounds(avail, lo, hi)
    ensures lo <= WeightedAverage(avail) <= hi
  {
    var q := Sum(avail, AvailableQuantity);
    var c := Sum(avail, AvailableCost);
    assert q > 0.0 by {
      SumNonNegative(avail[1..], AvailableQuantity);
      assert q == avail[0].quantity + Sum(avail[1..], AvailableQuantity);
    }
    CostBounds(avail, lo, hi);
    DivBounds(c, q, lo, hi);
    var w := WeightedAverage(avail);
    assert w == c / q;
  }

  /** The average of the remaining lots lies between their extreme prices. */
  lemma RemainingAverageBounds(allBuys: seq<Lot>, soldShares: seq<Taken>, lo: real, hi: real)
    requires NonNegativeLots(allBuys)
    requires 0.0 <= Sum(soldShares, TakenQuantity) < Sum(allBuys, LotQuantity)
    requires PriceBounds(AvailableLots(allBuys, Sum(soldShares, TakenQuantity)), lo, hi)
    ensures lo <= RemainingAverageCost(allBuys, soldShares) <= hi
  {
    var skip := Sum(soldShares, TakenQuantity);
    var avail := AvailableLots(allBuys, skip);
    AvailableLotsSum(allBuys, skip);
    assert Sum(avail, AvailableQuantity) > 0.0;
    WeightedAverageBounds(avail, lo, hi);
  }
}
