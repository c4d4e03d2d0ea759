/** What an order is accepted for, what its report and its record say of prices and
    quantities, and what the counters and the best prices stand for, without reference to
    how any of it is computed. */
module OrderReports {
  import opened Basics
  import opened PriceTimeQueue
  import opened OrderBook
  import opened OrderBookRuns
  import opened OrderSteps
  import opened OrderStatuses
  import opened OrderBookHistory

  // ---------------------------------------------------------------- validation

  /** The price is a whole number of cents, give or take a billionth. */
  ghost predicate InCents(price: real, cents: int)
  {
    -0.000000001 <= price - cents as real / 100.0 <= 0.000000001
  }

  /** Accepted are the positive quantities at whole cents from 1 to 99. */
  lemma AcceptableExactly(t: Ticket)
    ensures Acceptable(t) <==>
      t.quantity > 0.0 && 0.01 <= t.price <= 0.99 && exists cents :: 1 <= cents <= 99 && InCents(t.price, cents)
  {
    var nearest := (t.price / TICK + 0.5).Floor;
    assert t.price / TICK == 100.0 * t.price;
    if Acceptable(t) {
      assert 1 <= nearest <= 99 && InCents(t.price, nearest);
    }
    if cents :| 0.01 <= t.price <= 0.99 && InCents(t.price, cents) {
      assert nearest == cents;
    }
  }

  // ---------------------------------------------------------------- the report

  /** What a submission adds to the history. */
  ghost function Made(s: State, s': State): seq<Fill>
  {
    if |s.ledger.fills| <= |s'.ledger.fills| then s'.ledger.fills[|s.ledger.fills|..] else []
  }

  /** What an accepted submission comes to, ledger and report. */
  lemma Accepted(s: State, t: Ticket)
    requires Inv(s) && Acceptable(t)
    ensures KnownQueues(s) && Known(Entered(s.ledger, t), WalkOf(s, t).fills)
    ensures var (s', r) := Submit(s, t); var w := WalkOf(s, t);
      && s'.ledger == TakerWritten(RecordFills(Entered(s.ledger, t), w.fills), t, w) && r == ResultOf(t, w)
      && Facing(s', t.side) == w.rest
  {
    hide Inv, Consume, RecordFills, Acceptable, TakerWritten, ResultOf;
    InvImpliesKnown(s);
    SubmitAccepts(s, t);
  }

  /** What the caller is told, for orders of every type: exactly the trades made, with
      their total, their average price and the rest of the order; only a fill-or-kill order
      that got something but not all is told that it got nothing. The record of the order
      has the true quantity in any case, and the same status and average price. */
  lemma ReportTellsTheTrades(s: State, t: Ticket)
    requires Inv(s) && Acceptable(t) && t.id !in s.ledger.orders
    ensures KnownQueues(s)
    ensures var (s', r) := Submit(s, t); var made, depth := Made(s, s'), CrossingDepth(t, Facing(s, t.side));
      && s'.ledger.fills == s.ledger.fills + made
      && Quantity(made) == Min(t.quantity, depth) && r.averagePrice * Quantity(made) == Cost(made)
      && (made == [] ==> r.averagePrice == 0.0)
      && (if t.kind.FillOrKill? && 0.0 < depth < t.quantity
          then r == MatchResult(Cancelled, [], 0.0, r.averagePrice, t.quantity)
          else r.fills == made && r.totalFilled == Quantity(made) && r.totalFilled + r.remaining == t.quantity)
      && t.id in s'.ledger.orders
      && s'.ledger.orders[t.id] == Record(t, r.status, Quantity(made), r.averagePrice)
  {
    hide Inv, CrossingDepth, RecordFills, Acceptable, Submit, Quantity, Cost, Average, ResultOf, FinalStatus, WalkOf, Made, Facing;
    Accepted(s, t);
    WalkFigures(s, t);
    ResultTells(t, WalkOf(s, t), CrossingDepth(t, Facing(s, t.side)));
    MadeIsWalk(s, t);
  }

  lemma WalkFigures(s: State, t: Ticket)
    requires Inv(s) && Acceptable(t)
    ensures t.quantity > 0.0
    ensures var fs, left := WalkOf(s, t).fills, WalkOf(s, t).left;
      && Quantity(fs) == Min(t.quantity, CrossingDepth(t, Facing(s, t.side))) >= 0.0 && Quantity(fs) + left == t.quantity
      && Average(fs) * Quantity(fs) == Cost(fs) && (fs == [] ==> Quantity(fs) == Average(fs) == 0.0)
  {
    hide Consume, Inv, CrossingDepth, Acceptable, Quantity, Cost, Average;
    InvImpliesKnown(s);
    FacingPositive(s, t.side);
    QuantityPositive(t);
    FillsAllItCan(t, t.quantity, Facing(s, t.side));
    CrossingDepthNonNegative(t, Facing(s, t.side));
    WalkAddsUp(s, t);
    AveragePays(WalkOf(s, t).fills);
  }

  lemma ResultTells(t: Ticket, w: Walk, depth: real)
    requires t.quantity > 0.0 && Quantity(w.fills) == Min(t.quantity, depth) >= 0.0
    requires Quantity(w.fills) + w.left == t.quantity && (w.fills == [] ==> Quantity(w.fills) == 0.0)
    ensures ResultOf(t, w) ==
      if t.kind.FillOrKill? && 0.0 < depth < t.quantity then MatchResult(Cancelled, [], 0.0, Average(w.fills), t.quantity)
      else MatchResult(FinalStatus(t, w), w.fills, Quantity(w.fills), Average(w.fills), t.quantity - Quantity(w.fills))
    ensures ResultOf(t, w).status == FinalStatus(t, w)
  {
    hide Quantity, Average;
  }

  lemma MadeIsWalk(s: State, t: Ticket)
    requires Inv(s) && Acceptable(t) && t.id !in s.ledger.orders
    ensures KnownQueues(s)
    ensures var s' := Submit(s, t).0; s'.ledger.fills == s.ledger.fills + Made(s, s') && Made(s, s') == WalkOf(s, t).fills
  {
    hide Consume, Inv, Acceptable, Submit;
    InvImpliesKnown(s);
    StepAppends(s, SubmitOrder(t), Submit(s, t).0);
  }

  lemma AveragePays(fs: seq<Fill>)
    requires Quantity(fs) >= 0.0 && (fs != [] ==> Quantity(fs) > 0.0)
    ensures Average(fs) * Quantity(fs) == Cost(fs)
    ensures fs == [] ==> Quantity(fs) == Average(fs) == 0.0
  {}

  /** A price at which an order may trade. */
  ghost predicate WithinLimit(t: Ticket, price: real)
  {
    t.kind == Market || (if t.side == Buy then price <= t.price else price >= t.price)
  }

  /** No order but a market order trades beyond its limit, and one that is left wanting has
      taken everything within it. */
  lemma TradesToTheLimit(s: State, t: Ticket)
    requires Inv(s) && Acceptable(t) && t.id !in s.ledger.orders
    ensures KnownQueues(s)
    ensures var s' := Submit(s, t).0; var made := Made(s, s');
      && (forall f :: f in made ==> f.taker == t.id && f.side == t.side && WithinLimit(t, f.price))
      && (Quantity(made) < t.quantity ==>
            forall e :: e in (if t.side == Buy then s'.asks else s'.bids) ==> !WithinLimit(t, e.price))
  {
    hide Consume, Inv, CrossingDepth, RecordFills, Acceptable, Submit, Quantity;
    var es := Facing(s, t.side);
    Accepted(s, t);
    FacingPositive(s, t.side);
    QuantityPositive(t);
    Priority(t, t.quantity, es);
    FillsAllItCan(t, t.quantity, es);
    WalkAddsUp(s, t);
    MadeIsWalk(s, t);
  }

  // ---------------------------------------------------------------- average prices

  /** The fills an order made on arrival. */
  ghost function TakenBy(fs: seq<Fill>, id: OrderId): seq<Fill>
  {
    if fs == [] then [] else TakenBy(fs[..|fs|-1], id) + (if fs[|fs|-1].taker == id then [fs[|fs|-1]] else [])
  }

  lemma {:induction false} TakenByOthers(a: seq<Fill>, b: seq<Fill>, taker: OrderId, id: OrderId)
    requires forall i :: 0 <= i < |b| ==> b[i].taker == taker
    ensures TakenBy(a + b, id) == if id == taker then TakenBy(a, id) + b else TakenBy(a, id)
    decreases b
  {
    if b == [] {
      assert a + b == a;
      assert TakenBy(a, id) + b == TakenBy(a, id);
    } else {
      var front := b[..|b|-1];
      TakenByOthers(a, front, taker, id);
      assert (a + b)[..|a + b|-1] == a + front;
      assert front + [b[|b|-1]] == b;
      assert (TakenBy(a, id) + front) + [b[|b|-1]] == TakenBy(a, id) + b;
    }
  }

  lemma {:induction false} NeverTook(fs: seq<Fill>, id: OrderId)
    requires forall i :: 0 <= i < |fs| ==> fs[i].taker != id
    ensures TakenBy(fs, id) == []
  {
    if fs != [] { NeverTook(fs[..|fs|-1], id); }
  }

  /** Every recorded average price is that of the fills made on arrival. */
  ghost predicate Averaged(l: Ledger)
  {
    forall id :: id in l.orders ==> l.orders[id].averagePrice == Average(TakenBy(l.fills, id))
  }

  lemma {:induction false} FillsLeaveAverages(l: Ledger, fs: seq<Fill>)
    requires Known(l, fs)
    ensures forall id :: id in l.orders ==> RecordFills(l, fs).orders[id].averagePrice == l.orders[id].averagePrice
    decreases fs
  {
    if fs != [] {
      KeepsKnown(l, fs[0], fs[1..]);
      assert forall i :: 0 <= i < |fs[1..]| ==> fs[1..][i] == fs[i+1];
      FillsLeaveAverages(RecordFill(l, fs[0]), fs[1..]);
    }
  }

  /** The fills of a walk, all by one taker whose own record is written last. */
  lemma TakerAveraged(l: Ledger, l': Ledger, t: Ticket, w: Walk)
    requires Averaged(l) && t.id !in l.orders && l'.orders.Keys == l.orders.Keys + {t.id} && l'.fills == l.fills + w.fills
    requires forall i :: 0 <= i < |w.fills| ==> w.fills[i].taker == t.id
    requires forall i :: 0 <= i < |l.fills| ==> l.fills[i].taker != t.id
    requires forall id :: id in l.orders ==> l'.orders[id].averagePrice == l.orders[id].averagePrice
    requires l'.orders[t.id].averagePrice == Average(w.fills)
    ensures Averaged(l')
  {
    hide Average, TakenBy;
    NeverTook(l.fills, t.id);
    forall id | id in l'.orders ensures l'.orders[id].averagePrice == Average(TakenBy(l'.fills, id)) {
      TakenByOthers(l.fills, w.fills, t.id, id);
      assert [] + w.fills == w.fills;
    }
  }

  lemma SubmitKeepsAveraged(s: State, t: Ticket)
    requires Inv(s) && Averaged(s.ledger) && t.id !in s.ledger.orders && KnownQueues(s)
    ensures Averaged(Submit(s, t).0.ledger)
  {
    hide Consume, RecordFills, Acceptable, Average, Quantity, Inv, Averaged, Submit;
    SubmitRejects(s, t);
    if Acceptable(t) {
      var w, l := WalkOf(s, t), Entered(s.ledger, t);
      Accepted(s, t);
      FillsLeaveAverages(l, w.fills);
      FacingPositive(s, t.side);
      Priority(t, t.quantity, Facing(s, t.side));
      MadeIsWalk(s, t);
      TakersKnown(s, t.id);
      TakerAveraged(s.ledger, Submit(s, t).0.ledger, t, w);
    }
  }

  lemma TakersKnown(s: State, id: OrderId)
    requires Inv(s) && id !in s.ledger.orders
    ensures forall i :: 0 <= i < |s.ledger.fills| ==> s.ledger.fills[i].taker != id
  {
    assert forall i :: 0 <= i < |s.ledger.fills| ==> FillOk(s.ledger, s.ledger.fills[i]);
  }

  lemma {:induction false} EveryRunAveraged(states: seq<State>, commands: seq<Command>, i: nat)
    requires IsRun(states, commands) && i < |states|
    ensures Averaged(states[i].ledger)
  {
    hide Inv, Averaged, Submit;
    if i == 0 {
      assert Averaged(EMPTY.ledger) by { NothingAveraged(); }
    } else {
      EveryRunAveraged(states, commands, i - 1);
      EveryRun(states, commands, i - 1);
      assert StepTo(states[i-1], commands[i-1], states[i-1+1]);
      match commands[i-1] {
        case SubmitOrder(t) => SubmitKeepsAveraged(states[i-1], t);
        case CancelOrder(id) => CancelKeepsAveraged(states[i-1], id);
      }
    }
  }

  lemma NothingAveraged()
    ensures Averaged(EMPTY.ledger)
  {}

  lemma CancelKeepsAveraged(s: State, id: OrderId)
    requires s.live <= s.ledger.orders.Keys && Averaged(s.ledger)
    ensures Averaged(Cancel(s, id).0.ledger)
  {}

  lemma FillsPositive(s: State)
    requires Inv(s)
    ensures forall i :: 0 <= i < |s.ledger.fills| ==> s.ledger.fills[i].quantity > 0.0
  {
    assert forall i :: 0 <= i < |s.ledger.fills| ==> FillOk(s.ledger, s.ledger.fills[i]);
  }

  /** At every point of every run an order's average price is that of the fills it made on
      arrival, and zero without any: what it is filled for later, as a maker, never moves it. */
  lemma AveragesAlwaysTell(states: seq<State>, commands: seq<Command>, i: nat, id: OrderId)
    requires IsRun(states, commands) && i < |states| && id in states[i].ledger.orders
    ensures var l := states[i].ledger; var taken := TakenBy(l.fills, id);
      && l.orders[id].averagePrice * Quantity(taken) == Cost(taken)
      && (taken == [] ==> l.orders[id].averagePrice == 0.0)
  {
    hide Inv, Average, TakenBy, Quantity, Cost, Placed, AllTell;
    EveryRunAveraged(states, commands, i);
    EveryRun(states, commands, i);
    var l := states[i].ledger;
    FillsPositive(states[i]);
    TakenPositive(l.fills, id);
    AveragePays(TakenBy(l.fills, id));
  }

  lemma {:induction false} TakenPositive(fs: seq<Fill>, id: OrderId)
    requires forall i :: 0 <= i < |fs| ==> fs[i].quantity > 0.0
    ensures Quantity(TakenBy(fs, id)) >= 0.0 && (Quantity(TakenBy(fs, id)) == 0.0 ==> TakenBy(fs, id) == [])
  {
    if fs != [] {
      TakenPositive(fs[..|fs|-1], id);
      assert TakenBy(fs[..|fs|-1], id) + [] == TakenBy(fs[..|fs|-1], id);
      if fs[|fs|-1].taker == id { TotalsNext(TakenBy(fs[..|fs|-1], id), fs[|fs|-1]); }
    }
  }

  /** A resting order that has been filled completely, with an average price of zero. */
  lemma MakerNotAveragedExample()
    ensures exists states: seq<State>, commands: seq<Command> ::
      && IsRun(states, commands) && |states| == 3 && "m" in states[2].ledger.orders
      && states[2].ledger.orders["m"].filled == states[2].ledger.orders["m"].ticket.quantity > 0.0
      && states[2].ledger.orders["m"].averagePrice == 0.0
  {
    hide Inv, IsRun;
    OneOffered();
    TickOk();
    var t, e := Ticket("t", Buy, 0.5, 2.0, Market), Entry("m", 0.5, 1.0);
    assert [e][1..] == [] && Consume(t, 1.0, []) == Walk([], [], 1.0);
    assert Consume(t, 2.0, [e]) == Walk([Fill("m", "t", 0.5, 1.0, Buy)], [], 1.0);
    TwoSteps(t);
  }

  // ---------------------------------------------------------------- the counter of cancellations

  /** The limit orders that were cancelled. */
  ghost function Withdrawn(orders: map<OrderId, Record>): set<OrderId>
  {
    set id | id in orders && orders[id].ticket.kind.Limit? && orders[id].status == Cancelled
  }

  lemma {:induction false} FillsLeaveWithdrawn(l: Ledger, fs: seq<Fill>)
    requires Known(l, fs) && forall i :: 0 <= i < |fs| ==> l.orders[fs[i].maker].status != Cancelled
    ensures Withdrawn(RecordFills(l, fs).orders) == Withdrawn(l.orders)
    ensures RecordFills(l, fs).stats.cancelled == l.stats.cancelled
    decreases fs
  {
    if fs != [] {
      var next := RecordFill(l, fs[0]);
      KeepsKnown(l, fs[0], fs[1..]);
      assert forall i :: 0 <= i < |fs[1..]| ==> fs[1..][i] == fs[i+1];
      assert Withdrawn(next.orders) == Withdrawn(l.orders);
      FillsLeaveWithdrawn(next, fs[1..]);
    }
  }

  lemma SubmitKeepsWithdrawn(s: State, t: Ticket)
    requires Inv(s) && t.id !in s.ledger.orders && KnownQueues(s)
    ensures Withdrawn(Submit(s, t).0.ledger.orders) == Withdrawn(s.ledger.orders)
    ensures Submit(s, t).0.ledger.stats.cancelled == s.ledger.stats.cancelled
  {
    hide Consume, RecordFills, Acceptable, Average, Quantity, LedgerOk, Covered, Sorted, Distinct, Uncrossed, Submit;
    SubmitRejects(s, t);
    if Acceptable(t) {
      var es, w, l := Facing(s, t.side), WalkOf(s, t), Entered(s.ledger, t);
      Accepted(s, t);
      FacingPositive(s, t.side);
      Priority(t, t.quantity, es);
      forall i | 0 <= i < |w.fills| ensures l.orders[w.fills[i].maker].status != Cancelled {
        assert EntryOk(s.ledger, s.live, t.side.Opposite(), es[i]);
      }
      FillsLeaveWithdrawn(l, w.fills);
      assert Withdrawn(l.orders) == Withdrawn(s.ledger.orders);
      assert Withdrawn(Submit(s, t).0.ledger.orders) == Withdrawn(RecordFills(l, w.fills).orders);
    }
  }

  lemma CancelKeepsWithdrawn(s: State, id: OrderId)
    requires Inv(s)
    ensures s.live <= s.ledger.orders.Keys
    ensures var s' := Cancel(s, id).0;
      |Withdrawn(s'.ledger.orders)| - s'.ledger.stats.cancelled == |Withdrawn(s.ledger.orders)| - s.ledger.stats.cancelled
  {
    hide Inv;
    CancelExact(s, id);
    if Cancel(s, id).1 {
      var side := if Rests(id, s.bids) then Buy else Sell;
      RestsAsLimit(s, id, side);
      assert Withdrawn(Cancel(s, id).0.ledger.orders) == Withdrawn(s.ledger.orders) + {id};
    }
  }

  lemma RestsAsLimit(s: State, id: OrderId, side: Side)
    requires Inv(s) && Rests(id, Facing(s, side.Opposite()))
    ensures id in s.ledger.orders && s.ledger.orders[id].ticket.kind.Limit? && s.ledger.orders[id].status != Cancelled
  {
    hide LedgerOk, Covered, Uncrossed, Sorted, Distinct;
    var es := Facing(s, side.Opposite());
    var i :| 0 <= i < |es| && es[i].id == id;
    assert EntryOk(s.ledger, s.live, side, es[i]);
  }

  /** At every point of every run the counter of cancellations is the number of limit orders
      that were cancelled; killed orders are not counted. */
  lemma {:induction false} CancellationsCounted(states: seq<State>, commands: seq<Command>, i: nat)
    requires IsRun(states, commands) && i < |states|
    ensures var l := states[i].ledger;
      l.stats.cancelled == |set id | id in l.orders && l.orders[id].ticket.kind == Limit && l.orders[id].status == Cancelled|
  {
    hide Inv, Submit, Cancel;
    var l := states[i].ledger;
    assert (set id | id in l.orders && l.orders[id].ticket.kind == Limit && l.orders[id].status == Cancelled) == Withdrawn(l.orders);
    if i > 0 {
      var l' := states[i-1].ledger;
      CancellationsCounted(states, commands, i - 1);
      assert (set id | id in l'.orders && l'.orders[id].ticket.kind == Limit && l'.orders[id].status == Cancelled) == Withdrawn(l'.orders);
      EveryRun(states, commands, i - 1);
      assert StepTo(states[i-1], commands[i-1], states[i-1+1]);
      match commands[i-1] {
        case SubmitOrder(t) => SubmitKeepsWithdrawn(states[i-1], t);
        case CancelOrder(id) => CancelKeepsWithdrawn(states[i-1], id);
      }
    } else {
      assert Withdrawn(EMPTY.ledger.orders) == {};
    }
  }

  // ---------------------------------------------------------------- best prices

  /** The best bid is the highest and the best ask the lowest price on offer, and the bid is
      the lower of the two. */
  lemma BestPrices(s: State)
    requires Inv(s)
    ensures var bid, ask := FirstPrice(s.bids), FirstPrice(s.asks);
      && (bid == None <==> s.bids == []) && (ask == None <==> s.asks == [])
      && (bid.Some? ==> (exists e :: e in s.bids && e.price == bid.value) && forall e :: e in s.bids ==> e.price <= bid.value)
      && (ask.Some? ==> (exists e :: e in s.asks && e.price == ask.value) && forall e :: e in s.asks ==> e.price >= ask.value)
      && (bid.Some? && ask.Some? ==> bid.value < ask.value)
  {
    hide LedgerOk, Covered, EntryOk, Distinct;
    assert s.bids != [] ==> s.bids[0] in s.bids;
    assert s.asks != [] ==> s.asks[0] in s.asks;
  }
}
