/** Walking a snapshot of an order book: what a market order costs, and how large an
    order may be to stay near the best price. */
module Slippage {
  import opened Basics

  datatype Level = Level(price: real, quantity: real)

  datatype Book = Book(bids: seq<Level>, asks: seq<Level>)

  datatype Fill = Fill(price: real, quantity: real, cost: real)

  datatype Assessment = Assessment(
    side: string, requested: real, levelsConsumed: nat, totalFilled: real, averagePrice: real, worstPrice: real,
    slippageBps: real, slippageAbsolute: real, baseCost: real, actualCost: real, slippageCost: real,
    fills: seq<Fill>, unfilled: real)

  datatype Outcome = Assessed(value: Assessment) | UnknownSymbol

  const BUY := "buy"
  const SELL := "sell"
  const HISTORY_LENGTH := 1000

  function Pay(quantity: real, price: real): real { quantity * price }

  /** Prices as the taker sees them: the dearer (for a seller: the cheaper), the higher. */
  function Rank(side: string, price: real): real { if side == BUY then price else -price }

  /** Any side but "buy" sells. */
  function Facing(book: Book, side: string): seq<Level>
  {
    if side == BUY then book.asks else book.bids
  }

  // ---------------------------------------------------------------- the walk

  function Take(levels: seq<Level>, want: real): seq<Fill>
  {
    if levels == [] || want <= 0.0 then []
    else
      var q := Min(want, levels[0].quantity);
      [Fill(levels[0].price, q, Pay(q, levels[0].price))] + Take(levels[1..], want - q)
  }

  function Unfilled(levels: seq<Level>, want: real): real
  {
    if levels == [] || want <= 0.0 then want
    else Unfilled(levels[1..], want - Min(want, levels[0].quantity))
  }

  /** What a walk leaves of the book. */
  function Rest(levels: seq<Level>, want: real): seq<Level>
  {
    if levels == [] || want <= 0.0 then levels
    else if want < levels[0].quantity then [levels[0].(quantity := levels[0].quantity - want)] + levels[1..]
    else Rest(levels[1..], want - levels[0].quantity)
  }

  function Cost(levels: seq<Level>, want: real): real
  {
    if levels == [] || want <= 0.0 then 0.0
    else
      var q := Min(want, levels[0].quantity);
      Pay(q, levels[0].price) + Cost(levels[1..], want - q)
  }

  function Depth(levels: seq<Level>): real
  {
    if levels == [] then 0.0 else levels[0].quantity + Depth(levels[1..])
  }

  /** The book is sorted, best price first, and has something on every level. */
  ghost predicate Fit(side: string, levels: seq<Level>)
  {
    && (forall i :: 0 <= i < |levels| ==> levels[i].quantity > 0.0)
    && forall i, j :: 0 <= i < j < |levels| ==> Rank(side, levels[i].price) <= Rank(side, levels[j].price)
  }

  /** Every level ranks at least `bound`. */
  ghost predicate AtLeast(side: string, levels: seq<Level>, bound: real)
  {
    forall i :: 0 <= i < |levels| ==> bound <= Rank(side, levels[i].price)
  }

  lemma {:induction false} DepthPositive(side: string, levels: seq<Level>)
    requires Fit(side, levels)
    ensures Depth(levels) >= 0.0 && (levels != [] <==> Depth(levels) > 0.0)
  {
    if levels != [] { DepthPositive(side, levels[1..]); }
  }

  /** Filled and unfilled make up the request; what is filled is the request or the whole
      book, whichever is less. */
  lemma {:induction false} FillsWhatThereIs(side: string, levels: seq<Level>, want: real)
    requires Fit(side, levels) && want >= 0.0
    ensures want - Unfilled(levels, want) == Min(want, Depth(levels))
    ensures Depth(Rest(levels, want)) == Depth(levels) - Min(want, Depth(levels))
    ensures Fit(side, Rest(levels, want))
    decreases levels
  {
    DepthPositive(side, levels);
    if levels != [] && want > 0.0 {
      DepthPositive(side, levels[1..]);
      if want < levels[0].quantity {
        var rest := Rest(levels, want);
        assert rest[1..] == levels[1..];
      } else {
        FillsWhatThereIs(side, levels[1..], want - levels[0].quantity);
      }
    }
  }

  /** The fills are a prefix of the book: level by level at the level's price, every level
      but the last touched taken whole. */
  lemma {:induction false} TakesInOrder(side: string, levels: seq<Level>, want: real)
    requires Fit(side, levels)
    ensures var fs := Take(levels, want);
      && |fs| <= |levels|
      && (forall i :: 0 <= i < |fs| ==>
            && fs[i].price == levels[i].price && 0.0 < fs[i].quantity <= levels[i].quantity
            && fs[i].cost == Pay(fs[i].quantity, fs[i].price))
      && (forall i :: 0 <= i < |fs| - 1 ==> fs[i].quantity == levels[i].quantity)
    decreases levels
  {
    hide Pay, Rank;
    if levels != [] && want > 0.0 {
      var q := Min(want, levels[0].quantity);
      TakesInOrder(side, levels[1..], want - q);
      var fs, tail := Take(levels, want), Take(levels[1..], want - q);
      assert fs == [fs[0]] + tail;
    }
  }

  // ---------------------------------------------------------------- splitting an order

  /** Walking for two orders' worth is walking for the first and then for the second on
      what is left, for every book and every two sizes. */
  lemma {:induction false} WalkSplits(side: string, levels: seq<Level>, q1: real, q2: real)
    requires Fit(side, levels) && q1 >= 0.0 && q2 >= 0.0
    ensures Cost(levels, q1 + q2) == Cost(levels, q1) + Cost(Rest(levels, q1), q2)
    ensures Rest(levels, q1 + q2) == Rest(Rest(levels, q1), q2)
    decreases levels
  {
    hide Pay, Rank;
    if levels != [] && q1 > 0.0 && q2 > 0.0 {
      var p, n := levels[0].price, levels[0].quantity;
      if q1 < n {
        var rest := Rest(levels, q1);
        assert rest[0] == Level(p, n - q1) && rest[1..] == levels[1..];
        var q := Min(q2, n - q1);
        PayAdds(q1, q, p);
        assert Cost(levels[1..], q1 - q1) == 0.0;
        assert Min(q1 + q2, n) == q1 + q;
      } else {
        WalkSplits(side, levels[1..], q1 - n, q2);
        assert (q1 - n) + q2 == q1 + q2 - n;
      }
    }
  }

  lemma PayAdds(x: real, y: real, p: real)
    ensures Pay(x + y, p) == Pay(x, p) + Pay(y, p)
  {}

  lemma PayGrows(q: real, p: real, p': real)
    requires q >= 0.0 && p <= p'
    ensures Pay(q, p) <= Pay(q, p')
  {
    assert q * (p' - p) >= 0.0;
  }

  lemma PayRank(side: string, q: real, p: real)
    ensures Pay(q, Rank(side, p)) == Rank(side, Pay(q, p))
  {}

  /** A quantity taken whole costs at least the quantity at the lowest rank. */
  lemma {:induction false} CostAtLeast(side: string, levels: seq<Level>, want: real, bound: real)
    requires Fit(side, levels) && 0.0 <= want <= Depth(levels) && AtLeast(side, levels, bound)
    ensures Rank(side, Cost(levels, want)) >= Pay(want, bound)
    decreases levels
  {
    if levels != [] && want > 0.0 {
      hide Pay;
      var q, p := Min(want, levels[0].quantity), levels[0].price;
      DepthPositive(side, levels[1..]);
      CostAtLeast(side, levels[1..], want - q, bound);
      PayGrows(q, bound, Rank(side, p));
      PayRank(side, q, p);
      PayAdds(q, want - q, bound);
    } else {
      assert want == 0.0;
    }
  }

  /** Later quantity is no cheaper: the same quantity costs at least as much after an
      earlier order as before it, as long as the book holds both. */
  lemma {:induction false} LaterIsDearer(side: string, levels: seq<Level>, q1: real, q: real)
    requires Fit(side, levels) && q1 >= 0.0 && q >= 0.0 && q1 + q <= Depth(levels)
    ensures Rank(side, Cost(Rest(levels, q1), q)) >= Rank(side, Cost(levels, q))
    decreases levels
  {
    hide Pay, Fit;
    FitTail(side, levels);
    if levels != [] && q1 > 0.0 && q > 0.0 {
      var tail, p, n := levels[1..], levels[0].price, levels[0].quantity;
      DepthPositive(side, tail);
      var taken := Min(q, n);
      var still := if q1 < n then Min(q, n - q1) else 0.0;
      if q1 >= n {
        LaterIsDearer(side, tail, q1 - n, q);
        PayNothing(p);
      } else {
        var rest := Rest(levels, q1);
        assert rest[0] == Level(p, n - q1) && rest[1..] == tail;
      }
      HeadMoved(side, levels, q, taken, still);
    } else {
      assert q1 == 0.0 ==> Rest(levels, q1) == levels;
    }
  }

  lemma PayNothing(p: real)
    ensures Pay(0.0, p) == 0.0
  {}

  lemma FitTail(side: string, levels: seq<Level>)
    requires Fit(side, levels)
    ensures levels != [] ==> levels[0].quantity > 0.0 && Fit(side, levels[1..])
  {}

  /** Taking only `still` of the first level instead of `taken`, and the difference from
      the levels behind it, is no cheaper. */
  lemma {:induction false} HeadMoved(side: string, levels: seq<Level>, q: real, taken: real, still: real)
    requires Fit(side, levels) && levels != [] && q > 0.0
    requires taken == Min(q, levels[0].quantity) && 0.0 <= still <= taken && q - still <= Depth(levels[1..])
    ensures Rank(side, Pay(still, levels[0].price) + Cost(levels[1..], q - still)) >= Rank(side, Cost(levels, q))
    decreases levels, 0
  {
    var tail, p, gap := levels[1..], levels[0].price, taken - still;
    WalkSplits(side, tail, gap, q - taken);
    assert gap + (q - taken) == q - still;
    LaterIsDearer(side, tail, gap, q - taken);
    CostAtLeast(side, tail, gap, Rank(side, p));
    PayAdds(still, gap, p);
    PayRank(side, gap, p);
  }

  /** Convexity, within the depth of the book: one large order costs a buyer at least as
      much as two small ones placed on fresh books, and pays a seller at most as much. */
  lemma ConvexWithinDepth(side: string, levels: seq<Level>, q1: real, q2: real)
    requires Fit(side, levels) && q1 >= 0.0 && q2 >= 0.0 && q1 + q2 <= Depth(levels)
    ensures side == BUY ==> Convex(levels, q1, q2)
    ensures side != BUY ==> Cost(levels, q1 + q2) <= Cost(levels, q1) + Cost(levels, q2)
  {
    hide Cost, Rest;
    WalkSplits(side, levels, q1, q2);
    LaterIsDearer(side, levels, q1, q2);
  }

  /** Beyond the depth of the book convexity can fail for buyers: on a book with one level it
      holds exactly when the two orders fit together, or one of them is empty. */
  lemma ConvexOnlyWithinDepth(price: real, depth: real, q1: real, q2: real)
    requires price > 0.0 && depth > 0.0 && q1 >= 0.0 && q2 >= 0.0
    ensures Convex([Level(price, depth)], q1, q2) <==> q1 + q2 <= depth || q1 == 0.0 || q2 == 0.0
  {
    var levels := [Level(price, depth)];
    OneLevel(price, depth, q1 + q2);
    OneLevel(price, depth, q1);
    OneLevel(price, depth, q2);
    PayAdds(Min(q1, depth), Min(q2, depth), price);
    PayStrict(Min(q1 + q2, depth), Min(q1, depth) + Min(q2, depth), price);
  }

  /** What a caller who knows only how deep a book is can rely on: two sizes are safe on
      every book of that depth exactly when they fit in it together, or one is empty. */
  lemma ConvexOnEveryBook(depth: real, q1: real, q2: real)
    requires depth > 0.0 && q1 >= 0.0 && q2 >= 0.0
    ensures (forall levels :: Fit(BUY, levels) && PositivePrices(levels) && Depth(levels) == depth ==> Convex(levels, q1, q2))
            <==> q1 + q2 <= depth || q1 == 0.0 || q2 == 0.0
  {
    if q1 + q2 <= depth || q1 == 0.0 || q2 == 0.0 {
      forall levels | Fit(BUY, levels) && Depth(levels) == depth ensures Convex(levels, q1, q2) {
        if q1 + q2 <= depth { ConvexWithinDepth(BUY, levels, q1, q2); }
      }
    } else {
      var book := [Level(1.0, depth)];
      assert book[1..] == [] && Depth(book) == depth && Fit(BUY, book);
      ConvexOnlyWithinDepth(1.0, depth, q1, q2);
      assert !Convex(book, q1, q2);
    }
  }

  /** Both sizes in one order cost a buyer no less than each in an order of its own. */
  ghost predicate Convex(levels: seq<Level>, q1: real, q2: real)
  {
    Cost(levels, q1 + q2) >= Cost(levels, q1) + Cost(levels, q2)
  }

  /** On any book with positive prices, an order that already empties the book leaves no
      room: adding a second one keeps convexity exactly when that one is empty. */
  lemma ConvexOnceEmptied(side: string, levels: seq<Level>, q1: real, q2: real)
    requires Fit(side, levels) && levels != [] && PositivePrices(levels)
    requires q1 >= Depth(levels) && q2 >= 0.0
    ensures Convex(levels, q1, q2) <==> q2 == 0.0
  {
    DepthPositive(side, levels);
    WholeBook(side, levels, q1);
    WholeBook(side, levels, q1 + q2);
    if q2 > 0.0 {
      CostPositive(side, levels, q2);
    }
  }

  ghost predicate PositivePrices(levels: seq<Level>)
  {
    forall i :: 0 <= i < |levels| ==> levels[i].price > 0.0
  }

  lemma CostPositive(side: string, levels: seq<Level>, want: real)
    requires Fit(side, levels) && levels != [] && PositivePrices(levels) && want > 0.0
    ensures Cost(levels, want) > 0.0
  {
    var q := Min(want, levels[0].quantity);
    CostNotNegative(side, levels[1..], want - q);
    PayPositive(q, levels[0].price);
  }

  lemma PayPositive(q: real, p: real)
    requires q > 0.0 && p > 0.0
    ensures Pay(q, p) > 0.0
  {}

  lemma OneLevel(price: real, depth: real, q: real)
    requires depth > 0.0 && q >= 0.0
    ensures Cost([Level(price, depth)], q) == Pay(Min(q, depth), price)
  {
    assert [Level(price, depth)][1..] == [];
  }

  lemma PayStrict(x: real, y: real, p: real)
    requires p > 0.0
    ensures Pay(x, p) >= Pay(y, p) <==> x >= y
  {
    if x > y { assert (x - y) * p > 0.0; } else if x < y { assert (y - x) * p > 0.0; }
  }

  // ---------------------------------------------------------------- average price

  /** What a walk takes costs at most its quantity at the worst price it touches, and what
      it leaves ranks no better than that. */
  lemma {:induction false} WorstPrice(side: string, levels: seq<Level>, want: real) returns (worst: real)
    requires Fit(side, levels) && levels != [] && want > 0.0
    ensures Take(levels, want) != [] && worst == Rank(side, Take(levels, want)[|Take(levels, want)|-1].price)
    ensures Rank(side, levels[0].price) <= worst
    ensures Rank(side, Cost(levels, want)) <= Pay(Min(want, Depth(levels)), worst)
    ensures AtLeast(side, Rest(levels, want), worst)
    decreases levels
  {
    var q, p, tail := Min(want, levels[0].quantity), levels[0].price, levels[1..];
    DepthPositive(side, tail);
    PayRank(side, q, p);
    if want > q && tail != [] {
      worst := WorstPrice(side, tail, want - q);
      assert Rank(side, p) <= Rank(side, tail[0].price) by { assert tail[0] == levels[1]; }
      PayGrows(q, Rank(side, p), worst);
      hide Pay;
      PayAdds(q, Min(want - q, Depth(tail)), worst);
    } else {
      worst := Rank(side, p);
      assert Take(tail, want - q) == [] && Cost(tail, want - q) == 0.0;
      assert tail == [] ==> Depth(levels) == levels[0].quantity;
    }
  }

  /** The average price is monotone: a larger order pays (or is paid) no better on average. */
  lemma AverageMonotone(side: string, levels: seq<Level>, q1: real, q2: real)
    requires Fit(side, levels) && levels != [] && 0.0 < q1 <= q2
    ensures var f1, f2 := Min(q1, Depth(levels)), Min(q2, Depth(levels));
      f1 > 0.0 && f2 > 0.0 && Rank(side, Cost(levels, q1) / f1) <= Rank(side, Cost(levels, q2) / f2)
  {
    hide Pay, Cost, Rest, Fit, AtLeast, Take, Unfilled, Rank;
    DepthPositive(side, levels);
    var f1, f2 := Min(q1, Depth(levels)), Min(q2, Depth(levels));
    var c, d := Cost(levels, q1), Cost(Rest(levels, q1), q2 - q1);
    var worst := TwoParts(side, levels, q1, q2);
    AverageStep(Rank(side, c), Rank(side, d), f1, f2 - f1, worst);
    RankAdds(side, c, d);
    RankDivides(side, c, f1);
    RankDivides(side, c + d, f2);
  }

  /** The larger order is the smaller one and more, divided by the worst price of the
      smaller. */
  lemma TwoParts(side: string, levels: seq<Level>, q1: real, q2: real) returns (worst: real)
    requires Fit(side, levels) && levels != [] && 0.0 < q1 <= q2
    ensures var f1, f2 := Min(q1, Depth(levels)), Min(q2, Depth(levels)); var c, d := Cost(levels, q1), Cost(Rest(levels, q1), q2 - q1);
      && Cost(levels, q2) == c + d
      && Rank(side, c) <= Pay(f1, worst) && Rank(side, d) >= Pay(f2 - f1, worst)
  {
    hide Pay, Cost, Rest, Fit, AtLeast, Take, Unfilled, Rank;
    worst := WorstPrice(side, levels, q1);
    WalkSplits(side, levels, q1, q2 - q1);
    FillsWhatThereIs(side, levels, q1);
    DepthPositive(side, Rest(levels, q1));
    WholeBook(side, Rest(levels, q1), q2 - q1);
    CostAtLeast(side, Rest(levels, q1), Min(q2 - q1, Depth(Rest(levels, q1))), worst);
  }

  lemma RankAdds(side: string, x: real, y: real)
    ensures Rank(side, x + y) == Rank(side, x) + Rank(side, y)
  {}

  /** Asking for more than there is costs what there is. */
  lemma {:induction false} WholeBook(side: string, levels: seq<Level>, want: real)
    requires Fit(side, levels) && want >= 0.0
    ensures Cost(levels, want) == Cost(levels, Min(want, Depth(levels)))
    decreases levels
  {
    hide Pay;
    DepthPositive(side, levels);
    if levels != [] && want > 0.0 {
      DepthPositive(side, levels[1..]);
      WholeBook(side, levels[1..], want - Min(want, levels[0].quantity));
    }
  }

  lemma RankDivides(side: string, c: real, f: real)
    requires f > 0.0
    ensures Rank(side, c / f) == Rank(side, c) / f
  {}

  lemma AverageStep(c: real, d: real, f: real, g: real, worst: real)
    requires f > 0.0 && g >= 0.0 && c <= Pay(f, worst) && d >= Pay(g, worst)
    ensures c / f <= (c + d) / (f + g)
  {
    var a := c / f;
    assert a * f == c;
    SmallerFactor(a, worst, f);
    assert g * (worst - a) >= 0.0;
    assert c + d >= a * (f + g);
    AtMostQuotient(a, c + d, f + g);
  }

  lemma SmallerFactor(a: real, b: real, f: real)
    requires f > 0.0 && a * f <= Pay(f, b)
    ensures a <= b
  {
    AtMostQuotient(a, f * b, f);
    assert (f * b) / f == b;
  }

  lemma AtMostQuotient(a: real, n: real, m: real)
    requires m > 0.0 && a * m <= n
    ensures a <= n / m
  {
    var b := n / m;
    assert b * m == n;
    if a > b { assert (a - b) * m > 0.0; }
  }

  // ---------------------------------------------------------------- sellers

  ghost predicate NoNegativePrices(levels: seq<Level>)
  {
    forall i :: 0 <= i < |levels| ==> levels[i].price >= 0.0
  }

  lemma {:induction false} CostNotNegative(side: string, levels: seq<Level>, want: real)
    requires Fit(side, levels) && NoNegativePrices(levels)
    ensures Cost(levels, want) >= 0.0
    decreases levels
  {
    if levels != [] && want > 0.0 {
      var q := Min(want, levels[0].quantity);
      CostNotNegative(side, levels[1..], want - q);
      PayGrows(q, 0.0, levels[0].price);
    }
  }

  lemma {:induction false} RestPrices(levels: seq<Level>, want: real)
    requires NoNegativePrices(levels)
    ensures NoNegativePrices(Rest(levels, want))
    decreases levels
  {
    if levels != [] && want > 0.0 && want >= levels[0].quantity { RestPrices(levels[1..], want - levels[0].quantity); }
  }

  lemma CostMonotone(side: string, levels: seq<Level>, q: real, q': real)
    requires Fit(side, levels) && NoNegativePrices(levels) && 0.0 <= q <= q'
    ensures Cost(levels, q) <= Cost(levels, q')
  {
    WalkSplits(side, levels, q, q' - q);
    FillsWhatThereIs(side, levels, q);
    RestPrices(levels, q);
    CostNotNegative(side, Rest(levels, q), q' - q);
  }

  /** For sellers there is no limit: splitting an order never brings in less, at any size,
      on any book without negative prices. */
  lemma SellersSplitFreely(side: string, levels: seq<Level>, q1: real, q2: real)
    requires side != BUY && Fit(side, levels) && NoNegativePrices(levels) && q1 >= 0.0 && q2 >= 0.0
    ensures Cost(levels, q1 + q2) <= Cost(levels, q1) + Cost(levels, q2)
  {
    hide Cost, Fit;
    var depth := Depth(levels);
    WholeBook(side, levels, q1 + q2);
    if q1 + q2 <= depth {
      ConvexWithinDepth(side, levels, q1, q2);
    } else if q1 >= depth {
      WholeBook(side, levels, q1);
      CostNotNegative(side, levels, q2);
    } else {
      ConvexWithinDepth(side, levels, q1, depth - q1);
      CostMonotone(side, levels, depth - q1, q2);
    }
  }

  // ---------------------------------------------------------------- assessing an order

  /** The mid price used when the caller gives none. */
  function DefaultMid(book: Book, side: string): real
  {
    if book.bids != [] && book.asks != [] then (book.bids[0].price + book.asks[0].price) / 2.0
    else if Facing(book, side) != [] then Facing(book, side)[0].price
    else 0.0
  }

  function Assess(book: Book, side: string, quantity: real, mid: real): Assessment
  {
    var levels := Facing(book, side);
    var fills, unfilled, cost := Take(levels, quantity), Unfilled(levels, quantity), Cost(levels, quantity);
    var filled := quantity - unfilled;
    var average := if filled > 0.0 then cost / filled else mid;
    var base := Pay(mid, filled);
    var absolute := if side == BUY then cost - base else base - cost;
    var apart := if side == BUY then average - mid else mid - average;
    Assessment(side, quantity, |fills|, filled, average, if fills == [] then average else fills[|fills|-1].price,
               if mid > 0.0 then apart / mid * 10000.0 else 0.0, absolute, base, cost, Abs(absolute), fills, unfilled)
  }

  /** Both sides of the book are fit, and the best bid is not above the best ask. */
  ghost predicate UncrossedBook(book: Book)
  {
    && Fit(BUY, book.asks) && Fit(SELL, book.bids)
    && (book.bids != [] && book.asks != [] ==> book.bids[0].price <= book.asks[0].price)
  }

  /** Slippage against the default mid price is never a gain, for orders of any side and
      size (absurd sizes included) on any uncrossed book. */
  lemma SlippageNotNegative(book: Book, side: string, quantity: real)
    requires UncrossedBook(book)
    ensures var r := Assess(book, side, quantity, DefaultMid(book, side));
      && r.slippageAbsolute >= 0.0 && r.slippageBps >= 0.0 && r.slippageCost == r.slippageAbsolute
      && r.totalFilled + r.unfilled == quantity
  {
    var levels, mid := Facing(book, side), DefaultMid(book, side);
    if quantity > 0.0 && levels != [] {
      var depth := Depth(levels);
      FitFacing(book, side);
      DepthPositive(side, levels);
      FillsWhatThereIs(side, levels, quantity);
      WholeBook(side, levels, quantity);
      var filled := Min(quantity, depth);
      assert Rank(side, mid) <= Rank(side, levels[0].price);
      CostAtLeast(side, levels, filled, Rank(side, mid));
      PayRank(side, filled, mid);
      NoGain(side, Cost(levels, quantity), filled, mid);
    } else {
      assert Unfilled(levels, quantity) == quantity && Cost(levels, quantity) == 0.0;
      assert Pay(mid, 0.0) == 0.0;
    }
  }

  lemma FitFacing(book: Book, side: string)
    requires UncrossedBook(book)
    ensures Fit(side, Facing(book, side))
  {
    if side != BUY { assert forall p :: Rank(side, p) == Rank(SELL, p); }
  }

  lemma NoGain(side: string, cost: real, filled: real, mid: real)
    requires filled > 0.0 && Rank(side, cost) >= Rank(side, Pay(filled, mid))
    ensures Rank(side, cost) >= Rank(side, Pay(mid, filled))
    ensures Rank(side, cost / filled) >= Rank(side, mid)
    ensures mid > 0.0 ==> (Rank(side, cost / filled) - Rank(side, mid)) / mid * 10000.0 >= 0.0
  {
    RankDivides(side, cost, filled);
    RankTimes(side, filled, mid);
    AtMostQuotient(Rank(side, mid), Rank(side, cost), filled);
    if mid > 0.0 { QuotientNotNegative(Rank(side, cost / filled) - Rank(side, mid), mid); }
  }

  lemma RankTimes(side: string, f: real, p: real)
    ensures Rank(side, p) * f == Rank(side, Pay(f, p)) == Rank(side, Pay(p, f))
  {}

  lemma QuotientNotNegative(n: real, m: real)
    requires n >= 0.0 && m > 0.0
    ensures n / m >= 0.0
  {
    AtMostQuotient(0.0, n, m);
  }

  // ---------------------------------------------------------------- what an assessment says

  /** The default mid price lies halfway between the best prices, or is the best price of
      the side the order faces if the other one is empty. */
  lemma MidIsMiddle(book: Book, side: string)
    ensures var mid, levels := DefaultMid(book, side), if side == "buy" then book.asks else book.bids;
      && (book.bids != [] && book.asks != [] ==> mid - book.bids[0].price == book.asks[0].price - mid)
      && (book.bids == [] || book.asks == [] ==> mid == if levels != [] then levels[0].price else 0.0)
  {}

  /** What fills add up to, and what they cost. */
  ghost function Amount(fs: seq<Fill>): real
  {
    if fs == [] then 0.0 else fs[0].quantity + Amount(fs[1..])
  }

  ghost function Worth(fs: seq<Fill>): real
  {
    if fs == [] then 0.0 else fs[0].quantity * fs[0].price + Worth(fs[1..])
  }

  lemma {:induction false} TakeAddsUp(levels: seq<Level>, want: real)
    ensures Amount(Take(levels, want)) + Unfilled(levels, want) == want
    ensures Worth(Take(levels, want)) == Cost(levels, want)
    decreases levels
  {
    if levels != [] && want > 0.0 {
      var q := Min(want, levels[0].quantity);
      TakeAddsUp(levels[1..], want - q);
      assert Take(levels, want)[1..] == Take(levels[1..], want - q);
    }
  }

  /** The figures of an assessment, for any side and size and any mid price: quantities and
      costs are those of its fills, the average price is what the total cost spreads over
      the quantity filled, the worst is that of the last level touched, and slippage is the
      difference to the cost at the mid price, in basis points of that cost. */
  lemma AssessmentTells(book: Book, side: string, quantity: real, mid: real)
    requires Fit(side, Facing(book, side))
    ensures var levels, r := if side == "buy" then book.asks else book.bids, Assess(book, side, quantity, mid);
      && r.side == side && r.requested == quantity && r.levelsConsumed == |r.fills| <= |levels|
      && r.totalFilled == Amount(r.fills) == (if quantity > 0.0 then Min(quantity, Depth(levels)) else 0.0)
      && r.totalFilled + r.unfilled == quantity
      && r.actualCost == Worth(r.fills) == r.averagePrice * r.totalFilled && r.baseCost == mid * r.totalFilled
      && r.slippageAbsolute == (if side == "buy" then r.actualCost - r.baseCost else r.baseCost - r.actualCost)
      && r.slippageCost == Abs(r.slippageAbsolute)
      && (if mid > 0.0 then r.slippageBps * r.baseCost == 10000.0 * r.slippageAbsolute else r.slippageBps == 0.0)
      && (r.fills == [] ==> r.averagePrice == r.worstPrice == mid && r.slippageBps == 0.0)
      && (r.fills != [] ==>
            && r.worstPrice == levels[r.levelsConsumed-1].price
            && Rank(side, levels[0].price) <= Rank(side, r.averagePrice) <= Rank(side, r.worstPrice))
  {
    hide Take, Unfilled, Cost, Depth, Amount, Worth, Fit;
    var levels := Facing(book, side);
    var fills, cost := Take(levels, quantity), Cost(levels, quantity);
    var filled := quantity - Unfilled(levels, quantity);
    TakeAddsUp(levels, quantity);
    TakesInOrder(side, levels, quantity);
    DepthPositive(side, levels);
    NothingTaken(levels, quantity);
    if fills != [] {
      FillsWhatThereIs(side, levels, quantity);
      AverageBetween(side, levels, quantity);
      QuotientTimes(cost, filled);
      BasisPoints(mid, cost, filled);
    }
  }

  lemma NothingTaken(levels: seq<Level>, want: real)
    ensures Take(levels, want) == [] <==> levels == [] || want <= 0.0
    ensures Take(levels, want) == [] ==> Unfilled(levels, want) == want && Cost(levels, want) == 0.0
    ensures Amount([]) == 0.0 == Worth([]) && Depth([]) == 0.0
  {}

  lemma AverageBetween(side: string, levels: seq<Level>, want: real)
    requires Fit(side, levels) && levels != [] && want > 0.0
    ensures Min(want, Depth(levels)) > 0.0 && Take(levels, want) != []
    ensures var average, fills := Cost(levels, want) / Min(want, Depth(levels)), Take(levels, want);
      Rank(side, levels[0].price) <= Rank(side, average) <= Rank(side, fills[|fills|-1].price)
  {
    hide Take, Cost, Depth, Rest, Pay;
    DepthPositive(side, levels);
    var filled, cost := Min(want, Depth(levels)), Cost(levels, want);
    var worst := WorstPrice(side, levels, want);
    WholeBook(side, levels, want);
    CostAtLeast(side, levels, filled, Rank(side, levels[0].price));
    RankDivides(side, cost, filled);
    BetweenProducts(Rank(side, levels[0].price), Rank(side, cost), worst, filled);
  }

  lemma BetweenProducts(low: real, cost: real, high: real, q: real)
    requires q > 0.0 && Pay(q, low) <= cost <= Pay(q, high)
    ensures low <= cost / q <= high
  {
    AtMostQuotient(low, cost, q);
    assert cost / q * q == cost;
    SmallerFactor(cost / q, high, q);
  }

  lemma QuotientTimes(n: real, m: real)
    requires m != 0.0
    ensures n / m * m == n
  {}

  lemma BasisPoints(mid: real, cost: real, filled: real)
    requires filled > 0.0
    ensures mid > 0.0 ==> (cost / filled - mid) / mid * 10000.0 * (mid * filled) == 10000.0 * (cost - mid * filled)
    ensures mid > 0.0 ==> (mid - cost / filled) / mid * 10000.0 * (mid * filled) == 10000.0 * (mid * filled - cost)
  {
    if mid > 0.0 {
      var average := cost / filled;
      QuotientTimes(cost, filled);
      ThroughMid(average - mid, mid, filled);
      ThroughMid(mid - average, mid, filled);
      assert (average - mid) * filled == cost - mid * filled;
    }
  }

  lemma ThroughMid(apart: real, mid: real, filled: real)
    requires mid > 0.0
    ensures apart / mid * 10000.0 * (mid * filled) == 10000.0 * (apart * filled)
  {
    var x := apart / mid;
    assert x * mid == apart;
    assert x * 10000.0 * (mid * filled) == 10000.0 * (x * mid * filled);
  }

  // ---------------------------------------------------------------- sizing

  /** The furthest price a target allows. */
  function PriceLimit(best: real, bps: real, side: string): real
  {
    if side == SELL then best * (1.0 - bps / 10000.0) else best * (1.0 + bps / 10000.0)
  }

  predicate Outside(side: string, price: real, limit: real)
  {
    (side == BUY && price > limit) || (side == SELL && price < limit)
  }

  function QuantityInside(levels: seq<Level>, side: string, limit: real): real
  {
    if levels == [] || Outside(side, levels[0].price, limit) then 0.0
    else levels[0].quantity + QuantityInside(levels[1..], side, limit)
  }

  function OptimalSize(levels: seq<Level>, side: string, bps: real): real
  {
    if levels == [] then 0.0 else QuantityInside(levels, side, PriceLimit(levels[0].price, bps, side))
  }

  /** The order is filled, and every price it touches is inside the limit. */
  ghost predicate StaysInside(levels: seq<Level>, side: string, limit: real, want: real)
  {
    && Unfilled(levels, want) <= 0.0
    && forall i :: 0 <= i < |Take(levels, want)| ==> !Outside(side, Take(levels, want)[i].price, limit)
  }

  lemma {:induction false} SizeSeparates(levels: seq<Level>, side: string, limit: real, want: real)
    requires (side == BUY || side == SELL) && Fit(side, levels) && want >= 0.0
    ensures StaysInside(levels, side, limit, want) <==> want <= QuantityInside(levels, side, limit)
    ensures QuantityInside(levels, side, limit) >= 0.0
    decreases levels
  {
    hide Pay;
    if levels == [] || want == 0.0 {
      if levels != [] { SizeSeparates(levels[1..], side, limit, 0.0); }
    } else {
      var q := Min(want, levels[0].quantity);
      SizeSeparates(levels[1..], side, limit, want - q);
      var fs, tail := Take(levels, want), Take(levels[1..], want - q);
      assert fs[0].price == levels[0].price;
      assert forall i {:trigger tail[i]} :: 0 <= i < |tail| ==> tail[i] == fs[i+1];
      assert forall i {:trigger fs[i]} :: 0 < i < |fs| ==> fs[i] == tail[i-1];
    }
  }

  /** A price no further from the best one than so many basis points of it. */
  ghost predicate WithinBps(side: string, best: real, bps: real, price: real)
  {
    10000.0 * (if side == "buy" then price - best else best - price) <= bps * best
  }

  lemma InsideIsWithinBps(side: string, best: real, bps: real, price: real)
    requires side == BUY || side == SELL
    ensures !Outside(side, price, PriceLimit(best, bps, side)) <==> WithinBps(side, best, bps, price)
  {
    var b := bps / 10000.0;
    assert b * 10000.0 == bps;
    assert best * (1.0 + b) == best + best * b && best * (1.0 - b) == best - best * b;
    assert best * b * 10000.0 == bps * best;
  }

  /** The size computed is exact: an order fills completely with every touched price within
      the target, counted in basis points of the best price, if and only if it is no larger. */
  lemma SizingAgreesWithWalk(book: Book, side: string, bps: real, want: real)
    requires (side == BUY || side == SELL) && Fit(side, Facing(book, side)) && Facing(book, side) != [] && want >= 0.0
    ensures var levels, r := Facing(book, side), Assess(book, side, want, DefaultMid(book, side));
      (r.unfilled <= 0.0 && forall i :: 0 <= i < |r.fills| ==> WithinBps(side, levels[0].price, bps, r.fills[i].price))
      <==> want <= OptimalSize(levels, side, bps)
  {
    hide PriceLimit, Outside, WithinBps;
    var levels := Facing(book, side);
    SizeSeparates(levels, side, PriceLimit(levels[0].price, bps, side), want);
    forall i | 0 <= i < |Take(levels, want)|
      ensures !Outside(side, Take(levels, want)[i].price, PriceLimit(levels[0].price, bps, side))
         <==> WithinBps(side, levels[0].price, bps, Take(levels, want)[i].price)
    {
      InsideIsWithinBps(side, levels[0].price, bps, Take(levels, want)[i].price);
    }
  }

  /** A side that is neither is sized by nothing but the depth of the bids. */
  lemma {:induction false} OtherSidesUnlimited(levels: seq<Level>, side: string, limit: real)
    requires side != BUY && side != SELL
    ensures QuantityInside(levels, side, limit) == Depth(levels)
  {
    if levels != [] { OtherSidesUnlimited(levels[1..], side, limit); }
  }

  // ---------------------------------------------------------------- the history

  /** A history of bounded length: the newest entry in, the oldest out. */
  function Remembered(past: seq<Assessment>, r: Assessment): (h: seq<Assessment>)
    ensures |past| <= HISTORY_LENGTH ==> |h| <= HISTORY_LENGTH
  {
    var all := past + [r];
    if |all| > HISTORY_LENGTH then all[1..] else all
  }

  function RememberedAll(rs: seq<Assessment>): seq<Assessment>
  {
    if rs == [] then [] else Remembered(RememberedAll(rs[..|rs|-1]), rs[|rs|-1])
  }

  /** Whatever has been assessed, the last thousand are remembered, in order. */
  lemma {:induction false} LastThousandRemembered(rs: seq<Assessment>)
    ensures RememberedAll(rs) == if |rs| <= 1000 then rs else rs[|rs| - 1000..]
  {
    if rs != [] {
      var front := rs[..|rs|-1];
      LastThousandRemembered(front);
      assert front + [rs[|rs|-1]] == rs;
    }
  }

  // ---------------------------------------------------------------- the simulator

  /** The symbols tracked: the ones given, or two by default. */
  function Tracked(symbols: seq<string>): seq<string>
  {
    if symbols == [] then ["BTC", "ETH"] else symbols
  }

  class SlippageSimulator {
    var orderBooks: map<string, Book>
    var history: map<string, seq<Assessment>>

    ghost predicate Valid()
      reads this
    {
      orderBooks.Keys == history.Keys && forall s :: s in history ==> |history[s]| <= HISTORY_LENGTH
    }

    constructor (symbols: seq<string>)
      ensures Valid()
      ensures orderBooks.Keys == if symbols == [] then {"BTC", "ETH"} else set s | s in symbols
      ensures forall s :: s in Tracked(symbols) ==> orderBooks[s] == Book([], []) && history[s] == []
    {
      orderBooks := map s | s in Tracked(symbols) :: Book([], []);
      history := map s | s in Tracked(symbols) :: [];
    }

    method UpdateOrderBook(symbol: string, bids: seq<Level>, asks: seq<Level>)
      requires Valid()
      modifies this
      ensures Valid() && orderBooks == old(orderBooks)[symbol := Book(bids, asks)]
      ensures history == if symbol in old(history) then old(history) else old(history)[symbol := []]
    {
      if symbol !in orderBooks {
        history := history[symbol := []];
      }
      orderBooks := orderBooks[symbol := Book(bids, asks)];
    }

    /** The loop over the levels. */
    static method WalkLevels(levels: seq<Level>, quantity: real) returns (fills: seq<Fill>, remaining: real, cost: real)
      ensures fills == Take(levels, quantity) && remaining == Unfilled(levels, quantity) && cost == Cost(levels, quantity)
    {
      hide Pay;
      fills, remaining, cost := [], quantity, 0.0;
      var i := 0;
      while i < |levels| && remaining > 0.0
        invariant 0 <= i <= |levels|
        invariant fills + Take(levels[i..], remaining) == Take(levels, quantity)
        invariant Unfilled(levels[i..], remaining) == Unfilled(levels, quantity)
        invariant cost + Cost(levels[i..], remaining) == Cost(levels, quantity)
      {
        var q := Min(remaining, levels[i].quantity);
        assert levels[i..][0] == levels[i] && levels[i..][1..] == levels[i+1..];
        fills := fills + [Fill(levels[i].price, q, Pay(q, levels[i].price))];
        cost := cost + Pay(q, levels[i].price);
        remaining := remaining - q;
        i := i + 1;
      }
    }

    /** Walks the facing side. An unknown symbol is assessed against an empty book and then
        fails where the result would be remembered. */
    method CalculateSlippage(symbol: string, side: string, quantity: real, midPrice: Option<real>) returns (r: Outcome)
      requires Valid()
      modifies this`history
      ensures Valid()
      ensures symbol !in orderBooks ==> r == UnknownSymbol && history == old(history)
      ensures symbol in orderBooks ==>
        && var book := orderBooks[symbol];
        && r == Assessed(Assess(book, side, quantity, if midPrice.Some? then midPrice.value else DefaultMid(book, side)))
        && history == old(history)[symbol := Remembered(old(history)[symbol], r.value)]
    {
      hide Pay, Take, Unfilled, Cost, Remembered, DefaultMid, Facing;
      var book := if symbol in orderBooks then orderBooks[symbol] else Book([], []);
      var levels := Facing(book, side);
      var mid := if midPrice.Some? then midPrice.value else DefaultMid(book, side);
      var fills, remaining, cost := WalkLevels(levels, quantity);
      var filled := quantity - remaining;
      var average := if filled > 0.0 then cost / filled else mid;
      var worst := if fills == [] then average else fills[|fills|-1].price;
      var base := Pay(mid, filled);
      var absolute := if side == BUY then cost - base else base - cost;
      var bps := if mid > 0.0 then (if side == BUY then average - mid else mid - average) / mid * 10000.0 else 0.0;
      var result := Assessment(side, quantity, |fills|, filled, average, worst, bps, absolute, base, cost, Abs(absolute), fills, remaining);
      if symbol !in history {
        return UnknownSymbol;
      }
      history := history[symbol := Remembered(history[symbol], result)];
      return Assessed(result);
    }

    method GetOptimalExecutionSize(symbol: string, bps: real, side: string) returns (size: real)
      requires Valid()
      ensures size == if symbol in orderBooks then OptimalSize(Facing(orderBooks[symbol], side), side, bps) else 0.0
      ensures symbol in orderBooks && Facing(orderBooks[symbol], side) == [] ==> size == 0.0
    {
      var book := if symbol in orderBooks then orderBooks[symbol] else Book([], []);
      var levels := Facing(book, side);
      if levels == [] {
        return 0.0;
      }
      var limit := PriceLimit(levels[0].price, bps, side);
      size := 0.0;
      var i := 0;
      while i < |levels| && !Outside(side, levels[i].price, limit)
        invariant 0 <= i <= |levels|
        invariant size + QuantityInside(levels[i..], side, limit) == QuantityInside(levels, side, limit)
      {
        assert levels[i..][0] == levels[i] && levels[i..][1..] == levels[i+1..];
        size := size + levels[i].quantity;
        i := i + 1;
      }
    }
  }
}
