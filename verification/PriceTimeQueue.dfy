/** One side of the order book seen as a single queue: best price first, then
    arrival order. `Consume` is the walk an incoming order makes down that queue;
    the lemmas say what the walk achieves without mentioning how it is made. */
module PriceTimeQueue {
  import opened Basics

  type OrderId = string

  datatype Side = Buy | Sell
  {
    function Opposite(): Side { if Buy? then Sell else Buy }
  }

  datatype Kind = Limit | Market | ImmediateOrCancel | FillOrKill

  /** What an order fixes when it is created. */
  datatype Ticket = Ticket(id: OrderId, side: Side, price: real, quantity: real, kind: Kind)

  /** A resting order, as the queue sees it. */
  datatype Entry = Entry(id: OrderId, price: real, remaining: real)

  datatype Fill = Fill(maker: OrderId, taker: OrderId, price: real, quantity: real, side: Side)

  /** How bad a price is for a taker on side `taker`: lower rank is matched first.
      A buyer ranks asks upwards, a seller ranks bids downwards. */
  function Rank(taker: Side, price: real): real
  {
    if taker.Buy? then price else -price
  }

  predicate Crosses(t: Ticket, price: real)
  {
    t.kind.Market? || Rank(t.side, price) <= Rank(t.side, t.price)
  }

  // ---------------------------------------------------------------- sums

  function Depth(es: seq<Entry>): real
  {
    if es == [] then 0.0 else es[0].remaining + Depth(es[1..])
  }

  /** Depth an order may take: every entry its limit crosses, wherever it stands. */
  function CrossingDepth(t: Ticket, es: seq<Entry>): real
  {
    if es == [] then 0.0
    else (if Crosses(t, es[0].price) then es[0].remaining else 0.0) + CrossingDepth(t, es[1..])
  }

  function Quantity(fs: seq<Fill>): real
  {
    if fs == [] then 0.0 else fs[0].quantity + Quantity(fs[1..])
  }

  function Pay(quantity: real, price: real): real { quantity * price }

  function Cost(fs: seq<Fill>): real
  {
    if fs == [] then 0.0 else Pay(fs[0].quantity, fs[0].price) + Cost(fs[1..])
  }

  /** What the fills of `fs` that name `id`, as maker or as taker, add up to. */
  function FilledBy(fs: seq<Fill>, id: OrderId): real
  {
    if fs == [] then 0.0
    else (if fs[0].maker == id || fs[0].taker == id then fs[0].quantity else 0.0) + FilledBy(fs[1..], id)
  }

  // ---------------------------------------------------------------- queue order

  ghost predicate Sorted(taker: Side, es: seq<Entry>)
  {
    forall i, j :: 0 <= i < j < |es| ==> Rank(taker, es[i].price) <= Rank(taker, es[j].price)
  }

  ghost predicate Positive(es: seq<Entry>)
  {
    forall i :: 0 <= i < |es| ==> es[i].remaining > 0.0
  }

  ghost predicate Distinct(es: seq<Entry>)
  {
    forall i, j :: 0 <= i < j < |es| ==> es[i].id != es[j].id
  }

  ghost predicate Rests(id: OrderId, es: seq<Entry>)
  {
    exists i :: 0 <= i < |es| && es[i].id == id
  }

  /** The price a queue starts at. */
  function FirstPrice(es: seq<Entry>): Option<real>
  {
    if es == [] then None else Some(es[0].price)
  }

  // ---------------------------------------------------------------- the walk

  /** Fills in the order they happen, what is left of the queue, what is left to fill. */
  datatype Walk = Walk(fills: seq<Fill>, rest: seq<Entry>, left: real)

  function Consume(t: Ticket, want: real, es: seq<Entry>): (w: Walk)
    ensures |w.fills| <= |es|
    ensures want <= 0.0 ==> w == Walk([], es, want)
    decreases es
  {
    if es == [] || want <= 0.0 || !Crosses(t, es[0].price) then
      Walk([], es, want)
    else
      var n := Min(want, es[0].remaining);
      var f := Fill(es[0].id, t.id, es[0].price, n, t.side);
      if es[0].remaining - n <= 0.0 then
        var w := Consume(t, want - n, es[1..]);
        Walk([f] + w.fills, w.rest, w.left)
      else
        Walk([f], [es[0].(remaining := es[0].remaining - n)] + es[1..], want - n)
  }

  /** Price-time priority: the i-th fill is against the i-th entry of the queue, at
      that entry's price, and every maker but the last is emptied. */
  lemma {:induction false} Priority(t: Ticket, want: real, es: seq<Entry>)
    requires Positive(es)
    ensures var fs := Consume(t, want, es).fills;
      && (forall i :: 0 <= i < |fs| ==>
            && fs[i] == Fill(es[i].id, t.id, es[i].price, fs[i].quantity, t.side)
            && Crosses(t, es[i].price)
            && 0.0 < fs[i].quantity <= es[i].remaining)
      && (forall i :: 0 <= i < |fs| - 1 ==> fs[i].quantity == es[i].remaining)
    decreases es
  {
    if es == [] || want <= 0.0 || !Crosses(t, es[0].price) {
    } else if es[0].remaining - Min(want, es[0].remaining) <= 0.0 {
      var n := Min(want, es[0].remaining);
      Priority(t, want - n, es[1..]);
      var fs, tail := Consume(t, want, es).fills, Consume(t, want - n, es[1..]).fills;
      assert fs == [fs[0]] + tail;
    }
  }

  /** The last maker of a walk is left with something. */
  predicate Reduced(fs: seq<Fill>, es: seq<Entry>)
    requires |fs| <= |es|
  {
    fs != [] && fs[|fs|-1].quantity < es[|fs|-1].remaining
  }

  /** What remains is the untouched tail, behind the last maker if that one is only
      reduced, and then the order is complete. */
  lemma {:induction false} Remainder(t: Ticket, want: real, es: seq<Entry>)
    requires Positive(es)
    ensures var w := Consume(t, want, es); var k := |w.fills|;
      && w.rest == (if Reduced(w.fills, es)
                    then [es[k-1].(remaining := es[k-1].remaining - w.fills[k-1].quantity)] + es[k..]
                    else es[k..])
      && (Reduced(w.fills, es) ==> w.left == 0.0)
    decreases es
  {
    if es == [] || want <= 0.0 || !Crosses(t, es[0].price) {
    } else if es[0].remaining - Min(want, es[0].remaining) <= 0.0 {
      var n := Min(want, es[0].remaining);
      Remainder(t, want - n, es[1..]);
      var fs, tail := Consume(t, want, es).fills, Consume(t, want - n, es[1..]).fills;
      assert fs == [fs[0]] + tail;
      assert es[1..][|tail|..] == es[|fs|..];
      assert Reduced(fs, es) <==> Reduced(tail, es[1..]);
    }
  }

  /** Nothing is created or lost by a walk. */
  lemma {:induction false} Conserved(t: Ticket, want: real, es: seq<Entry>)
    requires Positive(es)
    ensures var w := Consume(t, want, es);
      && Quantity(w.fills) + w.left == want
      && Depth(w.rest) + Quantity(w.fills) == Depth(es)
      && (want >= 0.0 ==> w.left >= 0.0)
      && Quantity(w.fills) >= 0.0
      && (w.fills != [] <==> Quantity(w.fills) > 0.0)
    decreases es
  {
    if es == [] || want <= 0.0 || !Crosses(t, es[0].price) {
    } else {
      var n := Min(want, es[0].remaining);
      if es[0].remaining - n <= 0.0 {
        Conserved(t, want - n, es[1..]);
        var w, tail := Consume(t, want, es), Consume(t, want - n, es[1..]);
        assert w.fills[1..] == tail.fills;
      } else {
        var w := Consume(t, want, es);
        assert w.fills[1..] == [] && w.rest[1..] == es[1..] && w.rest[0].remaining == es[0].remaining - n;
      }
    }
  }

  lemma {:induction false} NothingCrosses(t: Ticket, es: seq<Entry>)
    requires forall i :: 0 <= i < |es| ==> !Crosses(t, es[i].price)
    ensures CrossingDepth(t, es) == 0.0
  {
    if es != [] { NothingCrosses(t, es[1..]); }
  }

  lemma {:induction false} CrossingDepthNonNegative(t: Ticket, es: seq<Entry>)
    requires Positive(es)
    ensures CrossingDepth(t, es) >= 0.0
  {
    if es != [] { CrossingDepthNonNegative(t, es[1..]); }
  }

  lemma HeadBlocks(t: Ticket, es: seq<Entry>)
    requires Sorted(t.side, es) && es != [] && !Crosses(t, es[0].price)
    ensures forall i :: 0 <= i < |es| ==> !Crosses(t, es[i].price)
  {
    forall i | 0 < i < |es| ensures !Crosses(t, es[i].price) {
      assert Rank(t.side, es[0].price) <= Rank(t.side, es[i].price);
    }
  }

  /** A walk fills as much as the limit allows, and stops for one of two reasons only:
      the order is complete, or nothing left in the queue crosses. */
  lemma {:induction false} FillsAllItCan(t: Ticket, want: real, es: seq<Entry>)
    requires want >= 0.0 && Sorted(t.side, es) && Positive(es)
    ensures var w := Consume(t, want, es);
      && Quantity(w.fills) == Min(want, CrossingDepth(t, es))
      && (w.left > 0.0 ==> forall i :: 0 <= i < |w.rest| ==> !Crosses(t, w.rest[i].price))
    decreases es
  {
    CrossingDepthNonNegative(t, es);
    if es == [] || want == 0.0 {
    } else if !Crosses(t, es[0].price) {
      HeadBlocks(t, es);
      NothingCrosses(t, es);
    } else {
      var n := Min(want, es[0].remaining);
      CrossingDepthNonNegative(t, es[1..]);
      var w := Consume(t, want, es);
      if es[0].remaining - n <= 0.0 {
        FillsAllItCan(t, want - n, es[1..]);
        assert w.fills[1..] == Consume(t, want - n, es[1..]).fills;
      } else {
        assert w.fills[1..] == [];
      }
    }
  }

  lemma RestSorted(t: Ticket, want: real, es: seq<Entry>)
    requires Sorted(t.side, es) && Positive(es)
    ensures Sorted(t.side, Consume(t, want, es).rest) && Positive(Consume(t, want, es).rest)
    ensures Distinct(es) ==> Distinct(Consume(t, want, es).rest)
  {
    hide Consume;
    Remainder(t, want, es);
    Priority(t, want, es);
  }

  /** Every entry left behind was there before, with the same id and price. */
  lemma RestFrom(t: Ticket, want: real, es: seq<Entry>, i: nat)
    requires Positive(es) && i < |Consume(t, want, es).rest|
    ensures exists j :: 0 <= j < |es| &&
              Consume(t, want, es).rest[i].id == es[j].id && Consume(t, want, es).rest[i].price == es[j].price
  {
    hide Consume;
    Remainder(t, want, es);
    var w := Consume(t, want, es);
    var j := if Reduced(w.fills, es) then i + |w.fills| - 1 else i + |w.fills|;
    assert w.rest[i].id == es[j].id;
  }

  // ---------------------------------------------------------------- optimality

  /** An allocation takes `a[i]` from the i-th entry: at most what is there, and
      nothing from an entry the order's limit does not cross. */
  ghost predicate Allocation(t: Ticket, es: seq<Entry>, a: seq<real>)
  {
    |a| == |es| &&
    forall i :: 0 <= i < |es| ==>
      0.0 <= a[i] <= es[i].remaining && (a[i] > 0.0 ==> Crosses(t, es[i].price))
  }

  function Sum(a: seq<real>): real
  {
    if a == [] then 0.0 else a[0] + Sum(a[1..])
  }

  /** What an allocation costs at the makers' prices. */
  function AllocationCost(es: seq<Entry>, a: seq<real>): real
    requires |a| == |es|
  {
    if a == [] then 0.0 else Pay(a[0], es[0].price) + AllocationCost(es[1..], a[1..])
  }

  /** The walk's own fills, laid out as an allocation. */
  function AsAllocation(es: seq<Entry>, fs: seq<Fill>): (a: seq<real>)
    requires |fs| <= |es|
    ensures |a| == |es|
    ensures forall i :: 0 <= i < |es| ==> a[i] == if i < |fs| then fs[i].quantity else 0.0
  {
    seq(|es|, i requires 0 <= i < |es| => if i < |fs| then fs[i].quantity else 0.0)
  }

  lemma {:induction false} AsAllocationTotals(es: seq<Entry>, fs: seq<Fill>)
    requires |fs| <= |es|
    requires forall i :: 0 <= i < |fs| ==> fs[i].price == es[i].price
    ensures Sum(AsAllocation(es, fs)) == Quantity(fs)
    ensures AllocationCost(es, AsAllocation(es, fs)) == Cost(fs)
  {
    var a := AsAllocation(es, fs);
    if es == [] {
    } else {
      var tail := if fs == [] then [] else fs[1..];
      assert a[1..] == AsAllocation(es[1..], tail);
      AsAllocationTotals(es[1..], tail);
    }
  }

  /** The difference between two allocations, valued at one price. */
  function Excess(pivot: real, g: seq<real>, a: seq<real>): real
    requires |g| == |a|
  {
    if g == [] then 0.0 else Pay(g[0] - a[0], pivot) + Excess(pivot, g[1..], a[1..])
  }

  lemma {:induction false} ExcessIsProduct(pivot: real, g: seq<real>, a: seq<real>)
    requires |g| == |a|
    ensures Excess(pivot, g, a) == pivot * (Sum(g) - Sum(a))
  {
    if g != [] {
      ExcessIsProduct(pivot, g[1..], a[1..]);
      Distribute(pivot, g[0] - a[0], Sum(g[1..]) - Sum(a[1..]));
      SumSplits(g, a);
    }
  }

  lemma SumSplits(g: seq<real>, a: seq<real>)
    requires |g| == |a| > 0
    ensures Sum(g) - Sum(a) == (g[0] - a[0]) + (Sum(g[1..]) - Sum(a[1..]))
  {}

  /** An allocation valued at ranks: its cost to a buyer, minus its proceeds to a seller. */
  function RankCost(side: Side, es: seq<Entry>, a: seq<real>): real
    requires |a| == |es|
  {
    if a == [] then 0.0 else Pay(a[0], Rank(side, es[0].price)) + RankCost(side, es[1..], a[1..])
  }

  lemma {:induction false} RankCostIsCost(side: Side, es: seq<Entry>, a: seq<real>)
    requires |a| == |es|
    ensures RankCost(side, es, a) == Rank(side, AllocationCost(es, a))
  {
    hide Pay;
    if es != [] {
      RankCostIsCost(side, es[1..], a[1..]);
      PayRank(side, a[0], es[0].price);
    }
  }

  lemma PayRank(side: Side, q: real, p: real)
    ensures Pay(q, Rank(side, p)) == Rank(side, Pay(q, p))
  {}

  /** If one allocation takes more than another only where prices rank at or below
      `pivot`, and less only where they rank at or above, it is the cheaper one up to
      the difference in size valued at `pivot`. */
  lemma {:induction false} PivotBound(side: Side, es: seq<Entry>, g: seq<real>, a: seq<real>, pivot: real)
    requires |g| == |es| == |a|
    requires forall i :: 0 <= i < |es| ==>
      && (g[i] > a[i] ==> Rank(side, es[i].price) <= pivot)
      && (g[i] < a[i] ==> Rank(side, es[i].price) >= pivot)
    ensures RankCost(side, es, g) - RankCost(side, es, a) <= Excess(pivot, g, a)
  {
    hide Pay, Rank;
    if es != [] {
      PivotBound(side, es[1..], g[1..], a[1..], pivot);
      PivotStep(Rank(side, es[0].price), g[0], a[0], pivot);
    }
  }

  lemma SameTotal(side: Side, es: seq<Entry>, g: seq<real>, a: seq<real>, pivot: real)
    requires |g| == |es| == |a| && Sum(g) == Sum(a)
    requires forall i :: 0 <= i < |es| ==>
      && (g[i] > a[i] ==> Rank(side, es[i].price) <= pivot)
      && (g[i] < a[i] ==> Rank(side, es[i].price) >= pivot)
    ensures Rank(side, AllocationCost(es, g)) <= Rank(side, AllocationCost(es, a))
  {
    hide AllocationCost, RankCost;
    RankCostIsCost(side, es, g);
    RankCostIsCost(side, es, a);
    PivotBound(side, es, g, a, pivot);
    NoExcess(pivot, g, a);
  }

  lemma NoExcess(pivot: real, g: seq<real>, a: seq<real>)
    requires |g| == |a| && Sum(g) == Sum(a)
    ensures Excess(pivot, g, a) == 0.0
  {
    hide Sum;
    ExcessIsProduct(pivot, g, a);
    TimesZero(pivot, Sum(g) - Sum(a));
  }

  lemma TimesZero(p: real, x: real)
    requires x == 0.0
    ensures p * x == 0.0
  {}

  lemma PivotStep(rank: real, g: real, a: real, pivot: real)
    requires g > a ==> rank <= pivot
    requires g < a ==> rank >= pivot
    ensures Pay(g, rank) - Pay(a, rank) <= Pay(g - a, pivot)
  {
    assert Pay(g, rank) - Pay(a, rank) == (g - a) * rank;
    if g >= a { assert (g - a) * (pivot - rank) >= 0.0; } else { assert (a - g) * (rank - pivot) >= 0.0; }
  }

  lemma Distribute(p: real, x: real, y: real)
    ensures p * (x + y) == p * x + p * y
  {}

  /** The price of the last maker separates what the walk took from what it left. */
  lemma WalkPivot(t: Ticket, want: real, es: seq<Entry>, a: seq<real>) returns (pivot: real)
    requires Sorted(t.side, es) && Positive(es) && Allocation(t, es, a)
    ensures var g := AsAllocation(es, Consume(t, want, es).fills);
      forall i :: 0 <= i < |es| ==>
        && (g[i] > a[i] ==> Rank(t.side, es[i].price) <= pivot)
        && (g[i] < a[i] ==> Rank(t.side, es[i].price) >= pivot)
    ensures Allocation(t, es, AsAllocation(es, Consume(t, want, es).fills))
  {
    Priority(t, want, es);
    var k := |Consume(t, want, es).fills|;
    pivot := if k > 0 then Rank(t.side, es[k-1].price) else if es == [] then 0.0 else Rank(t.side, es[0].price);
  }

  /** Greedy matching is optimal: no way of taking the same total from the entries the
      limit crosses is cheaper for a buyer or pays a seller more. */
  lemma GreedyOptimal(t: Ticket, want: real, es: seq<Entry>, a: seq<real>)
    requires Sorted(t.side, es) && Positive(es) && Allocation(t, es, a)
    requires Sum(a) == Quantity(Consume(t, want, es).fills)
    ensures t.side.Buy? ==> Cost(Consume(t, want, es).fills) <= AllocationCost(es, a)
    ensures t.side.Sell? ==> Cost(Consume(t, want, es).fills) >= AllocationCost(es, a)
    ensures Allocation(t, es, AsAllocation(es, Consume(t, want, es).fills))
    ensures AllocationCost(es, AsAllocation(es, Consume(t, want, es).fills)) == Cost(Consume(t, want, es).fills)
  {
    var pivot := WalkPivot(t, want, es, a);
    Priority(t, want, es);
    var fs := Consume(t, want, es).fills;
    AsAllocationTotals(es, fs);
    var g := AsAllocation(es, fs);
    SameTotal(t.side, es, g, a, pivot);
  }
}
