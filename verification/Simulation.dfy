/** The read-only forecast of a limit order from cached depths, and why it agrees with
    submitting the order. */
module Simulation {
  import opened Basics
  import opened PriceTimeQueue
  import opened OrderBook
  import opened OrderBookRuns
  import opened Ladder
  import opened LevelWalk

  datatype Simulation = Simulation(fills: seq<LevelFill>, totalFilled: real, averagePrice: real, remaining: real)

  /** The order a simulation pretends to submit. */
  function SimTicket(side: Side, price: real, quantity: real): Ticket
  {
    Ticket("sim", side, price, quantity, Limit)
  }

  /** What a walk amounts to, price by price. */
  ghost function Foretold(t: Ticket, es: seq<Entry>): Simulation
  {
    var w := Consume(t, t.quantity, es);
    Simulation(ByLevel(w.fills), Quantity(w.fills),
               if Quantity(w.fills) > 0.0 then Cost(w.fills) / Quantity(w.fills) else t.price, w.left)
  }

  ghost predicate LadderOk(side: Side, ladder: Levels, prices: seq<Key>)
  {
    && prices == BestFirst(side, ladder.Keys) && AtPrice(ladder)
    && forall p :: p in ladder ==> ladder[p] != [] && Positive(ladder[p])
  }

  /** The levels seen so far and the walk over the rest are together the whole walk. */
  ghost predicate ForetellingTo(t: Ticket, ladder: Levels, prices: seq<Key>, i: nat,
                                fills: seq<LevelFill>, total: real, cost: real, remaining: real)
    requires LadderOk(t.side, ladder, prices) && i <= |prices|
  {
    var w, ahead := Consume(t, t.quantity, Flat(ladder, prices)), Consume(t, remaining, Flat(ladder, prices[i..]));
    && fills + ByLevel(ahead.fills) == ByLevel(w.fills)
    && total + Quantity(ahead.fills) == Quantity(w.fills)
    && cost + Cost(ahead.fills) == Cost(w.fills)
    && ahead.left == w.left
  }

  lemma ForetellingStarts(t: Ticket, ladder: Levels, prices: seq<Key>)
    requires LadderOk(t.side, ladder, prices)
    ensures ForetellingTo(t, ladder, prices, 0, [], 0.0, 0.0, t.quantity)
  {
    assert prices[0..] == prices;
    var all := ByLevel(Consume(t, t.quantity, Flat(ladder, prices)).fills);
    assert [] + all == all;
  }

  /** A walk over one level and then the rest, seen price by price. */
  lemma ForetellingStep(t: Ticket, want: real, a: seq<Entry>, b: seq<Entry>, p: real)
    requires want > 0.0 && a != [] && Positive(a) && Crosses(t, p) && forall i :: 0 <= i < |a| ==> a[i].price == p
    requires Positive(b) && forall i :: 0 <= i < |b| ==> b[i].price != p
    ensures var q := Min(want, Depth(a)); var w, wb := Consume(t, want, a + b), Consume(t, want - q, b);
      && q > 0.0
      && ByLevel(w.fills) == [LevelFill(p, q)] + ByLevel(wb.fills)
      && Quantity(w.fills) == q + Quantity(wb.fills)
      && Cost(w.fills) == Pay(q, p) + Cost(wb.fills)
      && w.left == wb.left
  {
    hide Consume, Pay, Crosses, ByLevel;
    LevelFilled(t, want, a, p);
    ConsumeSplit(t, want, a, b);
    var wa := Consume(t, want, a);
    var wb := Consume(t, wa.left, b);
    Priority(t, wa.left, b);
    ByLevelSplit(wa.fills, wb.fills, p);
    FillsAppend(wa.fills, wb.fills);
  }

  lemma ForetellingGoesOn(t: Ticket, ladder: Levels, prices: seq<Key>, i: nat,
                          fills: seq<LevelFill>, total: real, cost: real, remaining: real)
    requires LadderOk(t.side, ladder, prices) && i < |prices| && remaining > 0.0 && Crosses(t, prices[i].price)
    requires ForetellingTo(t, ladder, prices, i, fills, total, cost, remaining)
    ensures prices[i] in ladder
    ensures var q := Min(remaining, Depth(ladder[prices[i]]));
      && q > 0.0
      && ForetellingTo(t, ladder, prices, i + 1, fills + [LevelFill(prices[i].price, q)], total + q,
                       cost + Pay(q, prices[i].price), remaining - q)
  {
    hide Consume, Pay, Crosses, ByLevel, BestFirst, Quantity, Cost, Depth;
    var p := prices[i];
    assert p in prices && prices[i..][0] == p && prices[i..][1..] == prices[i+1..];
    var a, b := ladder[p], Flat(ladder, prices[i+1..]);
    assert Flat(ladder, prices[i..]) == a + b;
    LaterLevels(t.side, ladder, prices, i);
    ForetellingStep(t, remaining, a, b, p.price);
    var q := Min(remaining, Depth(a));
    var rest := ByLevel(Consume(t, remaining - q, b).fills);
    assert fills + ([LevelFill(p.price, q)] + rest) == (fills + [LevelFill(p.price, q)]) + rest;
  }

  lemma LaterLevels(side: Side, ladder: Levels, prices: seq<Key>, i: nat)
    requires LadderOk(side, ladder, prices) && i < |prices|
    ensures var b := Flat(ladder, prices[i+1..]); Positive(b) && forall k :: 0 <= k < |b| ==> b[k].price != prices[i].price
  {
    hide BestFirst;
    SortedDistinct(side, ladder.Keys, prices);
    var b := Flat(ladder, prices[i+1..]);
    forall k | 0 <= k < |b| ensures b[k].remaining > 0.0 && b[k].price != prices[i].price {
      var q, j := FlatFrom(ladder, prices[i+1..], k);
      var m :| 0 <= m < |prices[i+1..]| && prices[i+1..][m] == q;
      assert prices[i+1+m] == q;
    }
  }

  lemma ForetellingEnds(t: Ticket, ladder: Levels, prices: seq<Key>, i: nat,
                        fills: seq<LevelFill>, total: real, cost: real, remaining: real)
    requires LadderOk(t.side, ladder, prices) && i <= |prices|
    requires i == |prices| || remaining <= 0.0 || !Crosses(t, prices[i].price)
    requires ForetellingTo(t, ladder, prices, i, fills, total, cost, remaining)
    ensures Foretold(t, Flat(ladder, prices))
         == Simulation(fills, total, if total > 0.0 then cost / total else t.price, remaining)
  {
    var ahead := Flat(ladder, prices[i..]);
    if i < |prices| {
      assert prices[i] in prices && ladder[prices[i]] != [];
      assert ahead[0] == ladder[prices[i]][0];
    }
    assert Consume(t, remaining, ahead) == Walk([], ahead, remaining);
    assert fills + [] == fills;
  }

  /** One crossing level on its own: what is taken from it is one fill at its price. */
  lemma LevelFilled(t: Ticket, want: real, a: seq<Entry>, p: real)
    requires want > 0.0 && a != [] && Positive(a) && Crosses(t, p) && forall i :: 0 <= i < |a| ==> a[i].price == p
    ensures var w := Consume(t, want, a); var q := Min(want, Depth(a));
      && q > 0.0 && w.fills != [] && Quantity(w.fills) == q && w.left == want - q && Cost(w.fills) == Pay(q, p)
      && forall i :: 0 <= i < |w.fills| ==> w.fills[i].price == p
  {
    hide Consume, Pay, Crosses;
    assert Sorted(t.side, a);
    FillsAllItCan(t, want, a);
    AllCross(t, a);
    Conserved(t, want, a);
    Priority(t, want, a);
    CostAtPrice(Consume(t, want, a).fills, p);
    LevelDepth(a);
  }

  lemma {:induction false} FillsAppend(a: seq<Fill>, b: seq<Fill>)
    ensures Quantity(a + b) == Quantity(a) + Quantity(b) && Cost(a + b) == Cost(a) + Cost(b)
  {
    hide Pay;
    if a == [] { assert a + b == b; }
    else { assert (a + b)[1..] == a[1..] + b; FillsAppend(a[1..], b); }
  }

  lemma {:induction false} CostAtPrice(fs: seq<Fill>, p: real)
    requires forall i :: 0 <= i < |fs| ==> fs[i].price == p
    ensures Cost(fs) == Pay(Quantity(fs), p)
  {
    if fs != [] {
      CostAtPrice(fs[1..], p);
      PayAdds(fs[0].quantity, Quantity(fs[1..]), p);
    }
  }

  lemma PayAdds(x: real, y: real, p: real)
    ensures Pay(x + y, p) == Pay(x, p) + Pay(y, p)
  {}

  lemma {:induction false} AllCross(t: Ticket, es: seq<Entry>)
    requires forall i :: 0 <= i < |es| ==> Crosses(t, es[i].price)
    ensures CrossingDepth(t, es) == Depth(es)
  {
    if es != [] { AllCross(t, es[1..]); }
  }

  lemma LevelDepth(a: seq<Entry>)
    requires Positive(a) && a != []
    ensures Depth(a) > 0.0
  {
    if a[1..] != [] { LevelDepth(a[1..]); }
  }

  /** Two orders that differ only in their ids walk alike. */
  lemma {:induction false} WalksAlike(t: Ticket, t': Ticket, want: real, es: seq<Entry>)
    requires t.side == t'.side && t.price == t'.price && !t.kind.Market? && !t'.kind.Market?
    ensures var w, w' := Consume(t, want, es), Consume(t', want, es);
      && w.rest == w'.rest && w.left == w'.left && ByLevel(w.fills) == ByLevel(w'.fills)
      && Quantity(w.fills) == Quantity(w'.fills) && Cost(w.fills) == Cost(w'.fills)
      && |w.fills| == |w'.fills| && (w.fills != [] ==> w.fills[0].price == w'.fills[0].price)
    decreases es
  {
    hide Pay;
    if es != [] && want > 0.0 && Crosses(t, es[0].price) {
      var n := Min(want, es[0].remaining);
      if es[0].remaining - n <= 0.0 {
        WalksAlike(t, t', want - n, es[1..]);
        var w, w' := Consume(t, want, es), Consume(t', want, es);
        assert w.fills[1..] == Consume(t, want - n, es[1..]).fills;
        assert w'.fills[1..] == Consume(t', want - n, es[1..]).fills;
      }
    }
  }

  /** A simulation foretells what submitting the same limit order would report: the same
      quantity filled, the same remainder, the same average price if anything is filled,
      and at every price the same quantity. */
  lemma SimulationAgrees(s: State, t: Ticket)
    requires Inv(s) && Acceptable(t) && t.kind.Limit?
    ensures KnownQueues(s)
    ensures var sim, r := Foretold(SimTicket(t.side, t.price, t.quantity), Facing(s, t.side)), Submit(s, t).1;
      && sim.totalFilled == r.totalFilled && sim.remaining == r.remaining
      && (if r.totalFilled > 0.0 then sim.averagePrice == r.averagePrice else sim.averagePrice == t.price)
      && sim.fills == ByLevel(r.fills)
      && forall p :: AtLevel(sim.fills, p) == QuantityAt(r.fills, p)
  {
    hide Consume, Inv, ByLevel, AtLevel, QuantityAt, Quantity, Cost, Matched, Acceptable;
    InvImpliesKnown(s);
    WalksAlike(SimTicket(t.side, t.price, t.quantity), t, t.quantity, Facing(s, t.side));
    var fs := Consume(t, t.quantity, Facing(s, t.side)).fills;
    forall p ensures AtLevel(ByLevel(fs), p) == QuantityAt(fs, p) { ByLevelIsPerPrice(fs, p); }
  }

  // ---------------------------------------------------------------- a simulation by itself

  /** What fills seen level by level add up to, and what they cost. */
  ghost function Amount(fs: seq<LevelFill>): real
  {
    if fs == [] then 0.0 else fs[0].quantity + Amount(fs[1..])
  }

  ghost function Worth(fs: seq<LevelFill>): real
  {
    if fs == [] then 0.0 else fs[0].quantity * fs[0].price + Worth(fs[1..])
  }

  lemma {:induction false} ByLevelTotals(fs: seq<Fill>)
    ensures Amount(ByLevel(fs)) == Quantity(fs) && Worth(ByLevel(fs)) == Cost(fs)
  {
    if fs != [] {
      var tail, r := ByLevel(fs[1..]), ByLevel(fs);
      ByLevelTotals(fs[1..]);
      if tail != [] && tail[0].price == fs[0].price {
        assert r[1..] == tail[1..];
        PayAdds(fs[0].quantity, tail[0].quantity, fs[0].price);
      } else {
        assert r[1..] == tail;
      }
    }
  }

  lemma {:induction false} ByLevelPrices(fs: seq<Fill>, k: nat) returns (i: nat)
    requires k < |ByLevel(fs)|
    ensures i < |fs| && ByLevel(fs)[k].price == fs[i].price
  {
    var tail, r := ByLevel(fs[1..]), ByLevel(fs);
    var m := k - (|r| - |tail|);
    if m < 0 || r[k].price == fs[0].price {
      i := 0;
    } else {
      i := ByLevelPrices(fs[1..], m);
      i := i + 1;
    }
  }

  /** What is simulated adds up: as much as the limit crosses, at prices within the limit,
      and the average price is that of the levels listed or, without any, the limit. */
  lemma SimulationAddsUp(s: State, side: Side, price: real, quantity: real)
    requires Inv(s)
    ensures var t := SimTicket(side, price, quantity); var sim := Foretold(t, Facing(s, side));
      && sim.totalFilled == (if quantity > 0.0 then Min(quantity, CrossingDepth(t, Facing(s, side))) else 0.0)
      && sim.totalFilled == Amount(sim.fills) && sim.totalFilled + sim.remaining == quantity
      && (if sim.totalFilled > 0.0 then sim.averagePrice * sim.totalFilled == Worth(sim.fills) else sim.averagePrice == price)
      && forall f :: f in sim.fills ==> if side == Buy then f.price <= price else f.price >= price
  {
    hide Consume, Inv, Quantity, Cost, ByLevel, Amount, Worth, CrossingDepth;
    var t, es := SimTicket(side, price, quantity), Facing(s, side);
    FacingPositive(s, side);
    Conserved(t, quantity, es);
    Priority(t, quantity, es);
    var fs := Consume(t, quantity, es).fills;
    ByLevelTotals(fs);
    forall k | 0 <= k < |ByLevel(fs)| ensures Crosses(t, ByLevel(fs)[k].price) { var i := ByLevelPrices(fs, k); }
    if quantity > 0.0 { FillsAllItCan(t, quantity, es); }
  }

  /** A simulation does not validate. For a limit order that would be rejected it agrees
      with the report, which is of nothing filled, exactly if no quantity is asked for or
      the limit crosses nothing. */
  lemma RejectedYetForetold(s: State, t: Ticket)
    requires Inv(s) && !Acceptable(t) && t.kind.Limit?
    ensures KnownQueues(s)
    ensures Foretold(SimTicket(t.side, t.price, t.quantity), Facing(s, t.side)).totalFilled == Submit(s, t).1.totalFilled
      <==> t.quantity <= 0.0 || forall e :: e in Facing(s, t.side) ==> if t.side == Buy then e.price > t.price else e.price < t.price
  {
    hide Consume, Inv, Acceptable;
    InvImpliesKnown(s);
    var sim, es := SimTicket(t.side, t.price, t.quantity), Facing(s, t.side);
    FacingPositive(s, t.side);
    SimulationAddsUp(s, t.side, t.price, t.quantity);
    if forall i :: 0 <= i < |es| ==> !Crosses(sim, es[i].price) {
      NothingCrosses(sim, es);
    } else {
      var i :| 0 <= i < |es| && Crosses(sim, es[i].price);
      SomethingCrosses(sim, es, i);
      assert es[i] in es;
    }
  }

  lemma {:induction false} SomethingCrosses(t: Ticket, es: seq<Entry>, i: nat)
    requires Positive(es) && i < |es| && Crosses(t, es[i].price)
    ensures CrossingDepth(t, es) > 0.0
  {
    CrossingDepthNonNegative(t, es[1..]);
    if i > 0 { SomethingCrosses(t, es[1..], i - 1); }
  }
}
