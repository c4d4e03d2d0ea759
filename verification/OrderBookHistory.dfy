/** Whole runs of the matching engine: any sequence of submissions (of every type,
    rejected and killed ones included) and cancellations from an empty book. */
module OrderBookHistory {
  import opened PriceTimeQueue
  import opened OrderBook
  import opened OrderBookRuns
  import opened OrderSteps
  import opened OrderStatuses

  datatype Command = SubmitOrder(t: Ticket) | CancelOrder(id: OrderId)

  /** One command. A submission uses an id no accepted order has used. */
  ghost predicate StepTo(s: State, c: Command, s': State)
  {
    match c
    case SubmitOrder(t) => t.id !in s.ledger.orders && KnownQueues(s) && s' == Submit(s, t).0
    case CancelOrder(id) => s.live <= s.ledger.orders.Keys && s' == Cancel(s, id).0
  }

  ghost predicate IsRun(states: seq<State>, commands: seq<Command>)
  {
    && |states| == |commands| + 1 && states[0] == EMPTY
    && forall i :: 0 <= i < |commands| ==> StepTo(states[i], commands[i], states[i+1])
  }

  /** Every command can be carried out in a state that satisfies the invariant. */
  lemma StepsExist(s: State, c: Command)
    requires Inv(s) && (c.SubmitOrder? ==> c.t.id !in s.ledger.orders)
    ensures exists s' :: StepTo(s, c, s') && Inv(s')
  {
    match c {
      case SubmitOrder(t) => SubmitKeepsInv(s, t); assert StepTo(s, c, Submit(s, t).0);
      case CancelOrder(id) => CancelKeepsInv(s, id); assert StepTo(s, c, Cancel(s, id).0);
    }
  }

  /** An accepted limit order that is out of the lookup has been filled or cancelled. */
  ghost predicate Placed(s: State)
  {
    forall id :: id in s.ledger.orders && s.ledger.orders[id].ticket.kind.Limit? ==>
      id in s.live || Complete(s.ledger.orders[id].status)
  }

  lemma SubmitKeepsPlaced(s: State, t: Ticket)
    requires Inv(s) && Placed(s) && t.id !in s.ledger.orders && KnownQueues(s)
    ensures Placed(Submit(s, t).0)
  {
    if Acceptable(t) {
      hide Consume, RecordFills, Acceptable, Average, Quantity;
      SubmitAccepts(s, t);
      var es := Facing(s, t.side);
      var w, l := Consume(t, t.quantity, es), Entered(s.ledger, t);
      var s' := Submit(s, t).0;
      forall id | id in s'.ledger.orders && s'.ledger.orders[id].ticket.kind.Limit?
        ensures id in s'.live || Complete(s'.ledger.orders[id].status)
      {
        if id != t.id && id !in s.live {
          AllLive(s, t.side);
          WalkSpares(l, t, t.quantity, es, id);
        }
      }
    }
  }

  lemma CancelKeepsPlaced(s: State, id: OrderId)
    requires Placed(s) && s.live <= s.ledger.orders.Keys
    ensures Placed(Cancel(s, id).0)
  {}

  lemma AllLive(s: State, side: Side)
    requires Inv(s)
    ensures Positive(Facing(s, side)) && forall i :: 0 <= i < |Facing(s, side)| ==> Facing(s, side)[i].id in s.live
  {
    forall i | 0 <= i < |Facing(s, side)| ensures EntryOk(s.ledger, s.live, side.Opposite(), Facing(s, side)[i]) {}
  }

  /** The invariant holds at every point of every run. */
  lemma {:induction false} EveryRun(states: seq<State>, commands: seq<Command>, i: nat)
    requires IsRun(states, commands) && i < |states|
    ensures Inv(states[i]) && Placed(states[i]) && AllTell(states[i].ledger)
  {
    hide Inv, Placed, AllTell, Submit, Cancel;
    if i == 0 {
      EmptyInv();
    } else {
      EveryRun(states, commands, i - 1);
      assert StepTo(states[i-1], commands[i-1], states[i-1+1]);
      match commands[i-1] {
        case SubmitOrder(t) =>
          SubmitKeepsInv(states[i-1], t);
          SubmitKeepsPlaced(states[i-1], t);
          SubmitKeepsTelling(states[i-1], t);
        case CancelOrder(id) =>
          CancelKeepsInv(states[i-1], id);
          CancelKeepsPlaced(states[i-1], id);
          CancelKeepsTelling(states[i-1], id);
      }
    }
  }

  /** The book at every point of every run: uncrossed, each order once, with what remains
      of it positive and equal to what it has not been filled for. */
  lemma BookAlwaysSound(states: seq<State>, commands: seq<Command>, i: nat)
    requires IsRun(states, commands) && i < |states|
    ensures var s := states[i];
      && (forall b, a :: 0 <= b < |s.bids| && 0 <= a < |s.asks| ==> s.bids[b].price < s.asks[a].price)
      && Sorted(Sell, s.bids) && Sorted(Buy, s.asks) && Distinct(s.bids + s.asks)
      && forall e :: e in s.bids + s.asks ==>
           && e.id in s.live && e.id in s.ledger.orders
           && var r := s.ledger.orders[e.id];
           && r.ticket.price == e.price && r.ticket.kind.Limit?
           && e.remaining == r.ticket.quantity - r.filled > 0.0
           && (e in s.bids <==> r.ticket.side.Buy?)
  {
    EveryRun(states, commands, i);
    var s := states[i];
    assert forall k :: 0 <= k < |s.bids| ==> EntryOk(s.ledger, s.live, Buy, s.bids[k]);
    assert forall k :: 0 <= k < |s.asks| ==> EntryOk(s.ledger, s.live, Sell, s.asks[k]);
  }

  /** The accounts at every point of every run, killed orders included: what an order has
      been filled for is what the history says it traded, as maker or as taker, and never
      more than it asked for; the counters count the history. */
  lemma AccountsAlwaysBalance(states: seq<State>, commands: seq<Command>, i: nat)
    requires IsRun(states, commands) && i < |states|
    ensures var l := states[i].ledger;
      && (forall id :: id in l.orders ==>
            && l.orders[id].filled == FilledBy(l.fills, id)
            && 0.0 <= l.orders[id].filled <= l.orders[id].ticket.quantity)
      && l.stats.volume == Quantity(l.fills) && l.stats.fills == |l.fills|
      && l.stats.received == |l.orders|
      && l.stats.completed == |set id | id in l.orders && l.orders[id].filled == l.orders[id].ticket.quantity|
  {
    EveryRun(states, commands, i);
    var l := states[i].ledger;
    assert Done(l.orders) == set id | id in l.orders && l.orders[id].filled == l.orders[id].ticket.quantity;
    forall id | id in l.orders
      ensures l.orders[id].filled == FilledBy(l.fills, id) && 0.0 <= l.orders[id].filled <= l.orders[id].ticket.quantity
    {
      assert Accounted(l, id);
    }
  }

  /** What a status says, at every point of every run and for orders of every type. FILLED
      means filled completely, or filled at all for an order that takes what it gets; only
      limit orders, and fill-or-kill orders that got nothing, are not complete. */
  lemma StatusesAlwaysTell(states: seq<State>, commands: seq<Command>, i: nat, id: OrderId)
    requires IsRun(states, commands) && i < |states| && id in states[i].ledger.orders
    ensures var r := states[i].ledger.orders[id];
      && (r.status == Filled <==>
            r.filled == r.ticket.quantity || ((r.ticket.kind.Market? || r.ticket.kind.ImmediateOrCancel?) && r.filled > 0.0))
      && (Complete(r.status) || r.ticket.kind.Limit? || (r.ticket.kind.FillOrKill? && r.filled == 0.0))
      && (r.status == PartiallyFilled ==> r.ticket.kind.Limit? && 0.0 < r.filled < r.ticket.quantity)
      && (r.status == Open ==> r.filled == 0.0)
      && r.status != New && r.status != Rejected
  {
    hide Inv, Placed;
    EveryRun(states, commands, i);
    assert Tells(states[i].ledger.orders[id]);
  }

  /** No limit order is ever lost: it has been filled completely, or it was cancelled short
      of that, or it rests in the book. */
  lemma LimitOrdersNeverLost(states: seq<State>, commands: seq<Command>, i: nat, id: OrderId)
    requires IsRun(states, commands) && i < |states|
    requires id in states[i].ledger.orders && states[i].ledger.orders[id].ticket.kind.Limit?
    ensures var s, r := states[i], states[i].ledger.orders[id];
      && (r.status == Filled <==> r.filled == r.ticket.quantity)
      && (r.status == Filled || r.status == Cancelled <==> !Rests(id, s.bids + s.asks))
      && (Rests(id, s.bids + s.asks) <==> r.status == (if r.filled > 0.0 then PartiallyFilled else Open))
  {
    EveryRun(states, commands, i);
    StatusesAlwaysTell(states, commands, i, id);
    var s := states[i];
    assert Accounted(s.ledger, id);
    RestsOnItsSide(s, id, Buy);
    RestsOnItsSide(s, id, Sell);
    RestsEither(s.bids, s.asks, id);
  }

  lemma RestsEither(a: seq<Entry>, b: seq<Entry>, id: OrderId)
    ensures Rests(id, a + b) <==> Rests(id, a) || Rests(id, b)
  {
    if Rests(id, a) { var i :| 0 <= i < |a| && a[i].id == id; assert (a + b)[i].id == id; }
    if Rests(id, b) { var i :| 0 <= i < |b| && b[i].id == id; assert (a + b)[|a| + i].id == id; }
  }

  // ---------------------------------------------------------------- history only grows

  lemma RecordFillHistory(l: Ledger, f: Fill)
    requires f.maker in l.orders
    ensures RecordFill(l, f).fills == l.fills + [f]
  {}

  lemma {:induction false} RecordFillsHistory(l: Ledger, fs: seq<Fill>)
    requires Known(l, fs)
    ensures RecordFills(l, fs).fills == l.fills + fs
    decreases fs
  {
    hide RecordFill;
    if fs != [] {
      RecordFillHistory(l, fs[0]);
      KeepsKnown(l, fs[0], fs[1..]);
      assert forall i :: 0 <= i < |fs[1..]| ==> fs[1..][i] == fs[i+1];
      RecordFillsHistory(RecordFill(l, fs[0]), fs[1..]);
      assert [fs[0]] + fs[1..] == fs;
    }
  }

  /** A submission appends its walk's fills to the history; a cancellation appends nothing. */
  lemma StepAppends(s: State, c: Command, s': State)
    requires Inv(s) && StepTo(s, c, s')
    ensures s'.ledger.fills == s.ledger.fills +
      (if c.SubmitOrder? && Acceptable(c.t) then Consume(c.t, c.t.quantity, Facing(s, c.t.side)).fills else [])
  {
    hide Consume, Acceptable, RecordFills, Inv;
    match c {
      case SubmitOrder(t) =>
        if Acceptable(t) {
          SubmitAccepts(s, t);
          RecordFillsHistory(Entered(s.ledger, t), Consume(t, t.quantity, Facing(s, t.side)).fills);
        }
      case CancelOrder(id) =>
    }
  }

  // ---------------------------------------------------------------- fill or kill

  /** The result of a fill-or-kill order is all or nothing. */
  lemma FillOrKillResult(s: State, t: Ticket)
    requires Inv(s) && Acceptable(t) && t.kind.FillOrKill?
    ensures KnownQueues(s)
    ensures var r := Submit(s, t).1;
      && ((r.fills == [] && r.totalFilled == 0.0 && r.remaining == t.quantity)
          || (r.totalFilled == t.quantity && r.remaining == 0.0))
      && (r.totalFilled == t.quantity <==> CrossingDepth(t, Facing(s, t.side)) >= t.quantity)
  {
    hide Consume, Inv, CrossingDepth, SettledTo, RecordFills, Acceptable, Submit;
    InvImpliesKnown(s);
    FacingPositive(s, t.side);
    QuantityPositive(t);
    FillsAllItCan(t, t.quantity, Facing(s, t.side));
    SubmitAccepts(s, t);
    WalkAddsUp(s, t);
  }

  /** The book is not: a killed order leaves its trades behind. When nothing is reported
      as filled, the book is untouched if and only if the order's limit crosses nothing. */
  lemma KilledYetTraded(s: State, t: Ticket)
    requires Inv(s) && Acceptable(t) && t.kind.FillOrKill? && t.id !in s.ledger.orders
    requires CrossingDepth(t, Facing(s, t.side)) < t.quantity
    ensures KnownQueues(s) && Submit(s, t).1.fills == []
    ensures var s' := Submit(s, t).0;
      (s'.ledger.fills == s.ledger.fills && s'.bids == s.bids && s'.asks == s.asks)
      <==> CrossingDepth(t, Facing(s, t.side)) == 0.0
  {
    var es := Facing(s, t.side);
    FillOrKillResult(s, t);
    FacingPositive(s, t.side);
    FillsAllItCan(t, t.quantity, es);
    Remainder(t, t.quantity, es);
    StepAppends(s, SubmitOrder(t), Submit(s, t).0);
    hide Consume, Inv, CrossingDepth, Acceptable;
    SubmitAccepts(s, t);
    var w := Consume(t, t.quantity, es);
    assert w.fills == [] ==> w.rest == es;
    assert (s.ledger.fills + w.fills == s.ledger.fills) <==> w.fills == [];
  }

  const MAKER := Ticket("m", Sell, 0.5, 1.0, Limit)

  const OFFERED := Submit(EMPTY, MAKER).0

  /** One unit on offer in an otherwise empty engine. */
  lemma OneOffered()
    ensures StepTo(EMPTY, SubmitOrder(MAKER), OFFERED) && Inv(OFFERED) && KnownQueues(OFFERED)
    ensures OFFERED.asks == [Entry("m", 0.5, 1.0)] && OFFERED.ledger.orders.Keys == {"m"}
  {
    EmptyInv();
    TickOk();
    SubmitKeepsInv(EMPTY, MAKER);
    InvImpliesKnown(OFFERED);
  }

  lemma TwoSteps(t: Ticket)
    requires t.id != "m"
    ensures KnownQueues(OFFERED)
    ensures IsRun([EMPTY, OFFERED, Submit(OFFERED, t).0], [SubmitOrder(MAKER), SubmitOrder(t)])
  {
    hide Inv, Submit;
    OneOffered();
  }

  /** Such an order: two units wanted, one on offer. The order is reported as not filled
      at all, and the one unit is gone. */
  lemma KilledYetTradedExample()
    ensures exists states: seq<State>, commands: seq<Command> ::
      && IsRun(states, commands) && |states| == 3 && KilledWithTrades(states[1], commands[1], states[2])
  {
    hide Inv, OFFERED, RecordFills, IsRun;
    OneOffered();
    TickOk();
    var t, e := Ticket("t", Buy, 0.5, 2.0, FillOrKill), Entry("m", 0.5, 1.0);
    assert [e][1..] == [] && Consume(t, 1.0, []) == Walk([], [], 1.0);
    assert Consume(t, 2.0, [e]) == Walk([Fill("m", "t", 0.5, 1.0, Buy)], [], 1.0);
    assert Quantity([Fill("m", "t", 0.5, 1.0, Buy)]) == 1.0;
    assert KilledWithTrades(OFFERED, SubmitOrder(t), Submit(OFFERED, t).0);
    TwoSteps(t);
  }

  ghost predicate KilledWithTrades(s: State, c: Command, s': State)
  {
    && c.SubmitOrder? && c.t.kind.FillOrKill? && KnownQueues(s)
    && Submit(s, c.t).1.totalFilled == 0.0 && s.asks != [] && s'.asks == []
  }

  /** Two units wanted at the market, one on offer: the order ends as FILLED with one. */
  lemma PartlyFilledExample()
    ensures exists states: seq<State>, commands: seq<Command> ::
      && IsRun(states, commands) && |states| == 3 && "t" in states[2].ledger.orders
      && states[2].ledger.orders["t"].status == Filled
      && states[2].ledger.orders["t"].filled < states[2].ledger.orders["t"].ticket.quantity
  {
    hide Inv, OFFERED, Submit, IsRun;
    OneOffered();
    TickOk();
    var t, e := Ticket("t", Buy, 0.5, 2.0, Market), Entry("m", 0.5, 1.0);
    assert [e][1..] == [] && CrossingDepth(t, [e]) == 1.0;
    Outcome(OFFERED, t);
    TwoSteps(t);
  }

  /** A fill-or-kill order on an empty book stays OPEN and is in no queue. */
  lemma OpenNowhereExample()
    ensures exists states: seq<State>, commands: seq<Command> ::
      && IsRun(states, commands) && |states| == 2 && "t" in states[1].ledger.orders
      && states[1].ledger.orders["t"].status == Open && states[1].bids == states[1].asks == []
  {
    EmptyInv();
    TickOk();
    var t := Ticket("t", Buy, 0.5, 2.0, FillOrKill);
    Outcome(EMPTY, t);
    assert IsRun([EMPTY, Submit(EMPTY, t).0], [SubmitOrder(t)]);
  }

  lemma TickOk()
    ensures Acceptable(Ticket("m", Sell, 0.5, 1.0, Limit))
    ensures Acceptable(Ticket("t", Buy, 0.5, 2.0, FillOrKill)) && Acceptable(Ticket("t", Buy, 0.5, 2.0, Market))
  {
    assert (0.5 / TICK + 0.5).Floor == 50;
  }

  lemma EmptyInv()
    ensures Inv(EMPTY) && Placed(EMPTY) && AllTell(EMPTY.ledger)
  {}
}
