/** What an order's status says about what has been filled of it, and where it says less
    than it seems to. */
module OrderStatuses {
  import opened Basics
  import opened PriceTimeQueue
  import opened OrderBook
  import opened OrderBookRuns
  import opened OrderSteps

  /** These settle for part of what they asked for. */
  predicate TakesPart(k: Kind) { k.Market? || k.ImmediateOrCancel? }

  /** FILLED means filled completely, or for an order that takes what it gets, filled at
      all; what is not complete is a limit order or a fill-or-kill order that got nothing. */
  ghost predicate Tells(r: Record)
  {
    && (r.status == Filled <==> r.filled == r.ticket.quantity || (TakesPart(r.ticket.kind) && r.filled > 0.0))
    && (Complete(r.status) || r.ticket.kind.Limit? || (r.ticket.kind.FillOrKill? && r.filled == 0.0))
    && (r.status == PartiallyFilled ==> r.ticket.kind.Limit? && 0.0 < r.filled < r.ticket.quantity)
    && (r.status == Open ==> r.filled == 0.0)
    && r.status != New && r.status != Rejected
  }

  ghost predicate AllTell(l: Ledger)
  {
    forall id :: id in l.orders ==> Tells(l.orders[id])
  }

  ghost predicate AllTellBut(l: Ledger, taker: OrderId)
  {
    forall id :: id in l.orders && id != taker ==> Tells(l.orders[id])
  }

  // ---------------------------------------------------------------- every step

  lemma FillKeepsTelling(l: Ledger, live: set<OrderId>, t: Ticket, es: seq<Entry>, f: Fill)
    requires HeadFill(t, es, f) && QueueOk(l, live, t.side.Opposite(), es) && AllTellBut(l, t.id)
    requires LedgerOkBut(l, t.id) && f.maker != t.id
    ensures f.maker in l.orders && AllTellBut(RecordFill(l, f), t.id)
  {
    assert EntryOk(l, live, t.side.Opposite(), es[0]);
    assert Accounted(l, f.maker);
  }

  lemma {:induction false} WalkKeepsTelling(l: Ledger, live: set<OrderId>, t: Ticket, want: real, es: seq<Entry>)
    requires QueueOk(l, live, t.side.Opposite(), es) && AllTellBut(l, t.id)
    requires LedgerOkBut(l, t.id) && l.orders[t.id].ticket.side == t.side
    requires Known(l, Consume(t, want, es).fills)
    ensures AllTellBut(RecordFills(l, Consume(t, want, es).fills), t.id)
    decreases |es|, want > 0.0
  {
    hide Sorted, Distinct, AllTellBut, LedgerOkBut;
    if es != [] && want > 0.0 && Crosses(t, es[0].price) {
      assert EntryOk(l, live, t.side.Opposite(), es[0]);
      var f, want', es' := Unfold(l, t, want, es);
      FillKeepsQueue(l, live, t, es, f);
      FillKeepsLedger(l, live, t, es, f);
      FillKeepsTelling(l, live, t, es, f);
      WalkKeepsTelling(RecordFill(l, f), live, t, want', es');
    }
  }

  lemma TakerTells(l: Ledger, t: Ticket, w: Walk)
    requires AllTellBut(l, t.id) && t.quantity > 0.0
    requires Quantity(w.fills) + w.left == t.quantity && Quantity(w.fills) >= 0.0 && w.left >= 0.0
    ensures AllTell(TakerWritten(l, t, w))
  {
    hide Average, Quantity;
  }

  lemma SubmitKeepsTelling(s: State, t: Ticket)
    requires Inv(s) && t.id !in s.ledger.orders && AllTell(s.ledger)
    ensures KnownQueues(s) && AllTell(Submit(s, t).0.ledger)
  {
    hide Inv, Consume, RecordFills, Acceptable, TakerWritten, AllTellBut, LedgerOkBut, QueueOk, Covered, SettledTo;
    InvImpliesKnown(s);
    if Acceptable(t) {
      var l, es := Entered(s.ledger, t), Facing(s, t.side);
      QuantityPositive(t);
      SubmitAccepts(s, t);
      EnteredOk(s, t, t.side.Opposite());
      EnteredTells(s.ledger, t);
      WalkKeepsTelling(l, s.live, t, t.quantity, es);
      FacingPositive(s, t.side);
      Conserved(t, t.quantity, es);
      TakerTells(RecordFills(l, Consume(t, t.quantity, es).fills), t, Consume(t, t.quantity, es));
    }
  }

  lemma QuantityPositive(t: Ticket)
    requires Acceptable(t)
    ensures t.quantity > 0.0
  {}

  lemma EnteredTells(l: Ledger, t: Ticket)
    requires AllTell(l)
    ensures AllTellBut(Entered(l, t), t.id)
  {}

  lemma CancelKeepsTelling(s: State, id: OrderId)
    requires Inv(s) && AllTell(s.ledger)
    ensures s.live <= s.ledger.orders.Keys && AllTell(Cancel(s, id).0.ledger)
  {
    hide Sorted, Distinct, LedgerOk, Remove, Uncrossed;
    InvImpliesKnown(s);
    if Cancel(s, id).1 {
      RestsOnItsSide(s, id, Buy);
      RestsOnItsSide(s, id, Sell);
      var es := if s.ledger.orders[id].ticket.side.Buy? then s.bids else s.asks;
      var i :| 0 <= i < |es| && es[i].id == id;
      assert EntryOk(s.ledger, s.live, s.ledger.orders[id].ticket.side, es[i]);
    }
  }

  // ---------------------------------------------------------------- what a caller can foretell

  /** What a submission writes down about the order itself. */
  lemma Outcome(s: State, t: Ticket)
    requires Inv(s) && Acceptable(t) && t.id !in s.ledger.orders
    ensures KnownQueues(s)
    ensures var s' := Submit(s, t).0; var depth := CrossingDepth(t, Facing(s, t.side));
      && t.id in s'.ledger.orders
      && var r := s'.ledger.orders[t.id];
      && r.ticket == t && r.filled == Min(t.quantity, depth) && depth >= 0.0
      && r.status == (if depth >= t.quantity then Filled
                      else match t.kind
                        case Limit => if depth > 0.0 then PartiallyFilled else Open
                        case FillOrKill => if depth > 0.0 then Cancelled else Open
                        case _ => if depth > 0.0 then Filled else Cancelled)
  {
    hide Inv, Consume, RecordFills, Acceptable, CrossingDepth, Average;
    InvImpliesKnown(s);
    SubmitAccepts(s, t);
    QuantityPositive(t);
    var es := Facing(s, t.side);
    FacingPositive(s, t.side);
    FillsAllItCan(t, t.quantity, es);
    Conserved(t, t.quantity, es);
    CrossingDepthNonNegative(t, es);
  }

  /** For a limit order the walk has the last word: what the type makes of the rest does not
      change the status the walk leaves. */
  lemma WalkDecidesLimitOrders(t: Ticket, w: Walk)
    requires t.kind.Limit? && t.quantity > 0.0 && Quantity(w.fills) + w.left == t.quantity && w.left >= 0.0
    ensures FinalStatus(t, w) == StatusAfterMatch(w)
  {
    hide Quantity;
  }

  /** FILLED means filled completely unless the order takes what it gets and the book has
      something, but not enough, for it. */
  lemma FilledMeansComplete(s: State, t: Ticket)
    requires Inv(s) && Acceptable(t) && t.id !in s.ledger.orders
    ensures KnownQueues(s)
    ensures var s' := Submit(s, t).0; var depth := CrossingDepth(t, Facing(s, t.side));
      && t.id in s'.ledger.orders
      && var r := s'.ledger.orders[t.id];
      && ((r.status == Filled ==> r.filled == t.quantity)
          <==> !(TakesPart(t.kind) && 0.0 < depth < t.quantity))
  {
    hide Inv, Submit, Acceptable, CrossingDepth;
    Outcome(s, t);
    QuantityPositive(t);
  }

  /** An order ends up complete or resting in the book, unless it is a fill-or-kill order
      that crosses nothing: that one stays open and is nowhere. */
  lemma CompleteOrResting(s: State, t: Ticket)
    requires Inv(s) && Acceptable(t) && t.id !in s.ledger.orders
    ensures KnownQueues(s)
    ensures var s' := Submit(s, t).0;
      && t.id in s'.ledger.orders
      && (Complete(s'.ledger.orders[t.id].status) || Rests(t.id, s'.bids) || Rests(t.id, s'.asks)
          <==> !(t.kind.FillOrKill? && CrossingDepth(t, Facing(s, t.side)) == 0.0))
  {
    hide Submit, Acceptable, CrossingDepth, Consume, Rests, RecordFills;
    Outcome(s, t);
    QuantityPositive(t);
    SubmitKeepsInv(s, t);
    var s' := Submit(s, t).0;
    RestsOnItsSide(s', t.id, Buy);
    RestsOnItsSide(s', t.id, Sell);
    LiveAfter(s, t);
  }

  /** Only a limit order that is not complete enters the lookup, and nothing leaves it. */
  lemma LiveAfter(s: State, t: Ticket)
    requires Inv(s) && Acceptable(t) && t.id !in s.ledger.orders
    ensures KnownQueues(s) && t.id !in s.live
    ensures Submit(s, t).0.live
         == s.live + if t.kind.Limit? && CrossingDepth(t, Facing(s, t.side)) < t.quantity then {t.id} else {}
  {
    hide Inv, Consume, RecordFills, Acceptable, CrossingDepth;
    InvImpliesKnown(s);
    SubmitAccepts(s, t);
    QuantityPositive(t);
    FreshNowhere(s, t.id);
    FacingPositive(s, t.side);
    FillsAllItCan(t, t.quantity, Facing(s, t.side));
    Conserved(t, t.quantity, Facing(s, t.side));
  }
}
