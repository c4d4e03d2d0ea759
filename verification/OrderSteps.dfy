/** Facts about single submissions and cancellations: how fills add up, whom they touch,
    and what a submission comes to once its walk is known. */
module OrderSteps {
  import opened PriceTimeQueue
  import opened OrderBook
  import opened OrderBookRuns

  lemma {:induction false} RecordAppend(l: Ledger, a: seq<Fill>, b: seq<Fill>)
    requires Known(l, a + b)
    ensures Known(l, a) && Known(RecordFills(l, a), b)
    ensures RecordFills(l, a + b) == RecordFills(RecordFills(l, a), b)
    decreases a
  {
    assert forall i :: 0 <= i < |a| ==> (a + b)[i] == a[i];
    assert forall i :: 0 <= i < |b| ==> (a + b)[|a| + i] == b[i];
    if a == [] {
      assert a + b == b;
    } else {
      hide RecordFill;
      assert (a + b)[1..] == a[1..] + b && (a + b)[0] == a[0];
      var next := RecordFill(l, a[0]);
      KeepsKnown(l, a[0], a[1..] + b);
      RecordAppend(next, a[1..], b);
    }
  }

  lemma KeepsKnown(l: Ledger, f: Fill, fs: seq<Fill>)
    requires f.maker in l.orders
    ensures Known(RecordFill(l, f), fs) <==> Known(l, fs)
  {}

  lemma {:induction false} RecordFillsSpares(l: Ledger, fs: seq<Fill>, id: OrderId)
    requires Known(l, fs) && id in l.orders && forall i :: 0 <= i < |fs| ==> fs[i].maker != id
    ensures RecordFills(l, fs).orders[id] == l.orders[id]
    decreases fs
  {
    if fs != [] {
      KeepsKnown(l, fs[0], fs[1..]);
      assert forall i :: 0 <= i < |fs[1..]| ==> fs[1..][i] == fs[i+1];
      assert RecordFill(l, fs[0]).orders[id] == l.orders[id];
      RecordFillsSpares(RecordFill(l, fs[0]), fs[1..], id);
    }
  }

  /** A walk charges only orders of the side it faces. */
  lemma WalkSpares(l: Ledger, t: Ticket, want: real, es: seq<Entry>, id: OrderId)
    requires Positive(es) && Known(l, Consume(t, want, es).fills) && id in l.orders
    requires forall i :: 0 <= i < |es| ==> es[i].id != id
    ensures RecordFills(l, Consume(t, want, es).fills).orders[id] == l.orders[id]
  {
    hide Consume;
    Priority(t, want, es);
    RecordFillsSpares(l, Consume(t, want, es).fills, id);
  }

  /** A walk leaves no entry that was not there. */
  lemma StillNotThere(t: Ticket, want: real, es: seq<Entry>)
    requires Positive(es)
    ensures forall id :: !Rests(id, es) ==> !Rests(id, Consume(t, want, es).rest)
  {
    hide Consume;
    forall id | !Rests(id, es) ensures !Rests(id, Consume(t, want, es).rest) {
      forall i | 0 <= i < |Consume(t, want, es).rest| ensures Consume(t, want, es).rest[i].id != id {
        RestFrom(t, want, es, i);
      }
    }
  }

  lemma DepthAppend(es: seq<Entry>, e: Entry)
    ensures Depth(es + [e]) == Depth(es) + e.remaining
  {
    if es == [] {
      assert es + [e] == [e];
    } else {
      assert (es + [e])[1..] == es[1..] + [e];
      DepthAppend(es[1..], e);
    }
  }

  lemma DepthAfterHead(es: seq<Entry>, f: Fill)
    requires es != [] && f.quantity <= es[0].remaining
    ensures Depth(AfterHead(es, f)) == Depth(es) - f.quantity
  {
    var es' := AfterHead(es, f);
    if es[0].remaining - f.quantity > 0.0 { assert es'[1..] == es[1..]; }
  }

  lemma DepthDropped(es: seq<Entry>, id: OrderId)
    ensures forall k :: 0 <= k < |es| && es[k].id == id && (forall i :: 0 <= i < k ==> es[i].id != id) ==>
      Depth(Remove(es, id)) == Depth(es) - es[k].remaining
  {
    if es != [] && es[0].id != id {
      DepthDropped(es[1..], id);
      forall k | 0 <= k < |es| && es[k].id == id && (forall i :: 0 <= i < k ==> es[i].id != id)
        ensures Depth(Remove(es, id)) == Depth(es) - es[k].remaining
      {
        assert es[1..][k-1] == es[k];
        assert forall i :: 0 <= i < k - 1 ==> es[1..][i] == es[i+1];
        assert Remove(es, id)[1..] == Remove(es[1..], id);
      }
    }
  }

  lemma TotalsNext(fs: seq<Fill>, f: Fill)
    ensures Quantity(fs + [f]) == Quantity(fs) + f.quantity
    ensures Cost(fs + [f]) == Cost(fs) + Pay(f.quantity, f.price)
  {
    hide Pay;
    if fs == [] {
      assert fs + [f] == [f];
    } else {
      assert (fs + [f])[1..] == fs[1..] + [f];
      TotalsNext(fs[1..], f);
    }
  }

  lemma SubmitRejects(s: State, t: Ticket)
    requires KnownQueues(s)
    ensures !Acceptable(t) ==> Submit(s, t) == (s, MatchResult(Rejected, [], 0.0, 0.0, t.quantity))
  {}

  /** The state a walk by `t` leads to, with the given ledger. */
  ghost function WalkedTo(s: State, t: Ticket, w: Walk, ledger: Ledger): State
  {
    State(if t.side.Buy? then s.bids else w.rest, if t.side.Buy? then w.rest else s.asks, s.live, ledger)
  }

  /** Where an accepted order ends up once its walk is over. */
  ghost function SettledTo(s: State, t: Ticket, w: Walk, ledger: Ledger): State
  {
    var done, e := WalkedTo(s, t, w, TakerWritten(ledger, t, w)), Entry(t.id, t.price, w.left);
    if !Resting(t, w) then done
    else if t.side.Buy? then done.(bids := Insert(Sell, done.bids, e), live := done.live + {t.id})
    else done.(asks := Insert(Buy, done.asks, e), live := done.live + {t.id})
  }

  lemma SubmitAccepts(s: State, t: Ticket)
    requires KnownQueues(s) && Acceptable(t)
    ensures var e := s.(ledger := Entered(s.ledger, t)); var w := WalkOf(e, t);
      && KnownQueues(e) && Known(e.ledger, w.fills)
      && Submit(s, t) == (SettledTo(e, t, w, RecordFills(e.ledger, w.fills)), ResultOf(t, w))
  {
    WalkKnown(s, t);
    Conserved(t, t.quantity, Facing(s, t.side));
  }

  /** The walk an order makes through the queue it faces. */
  ghost function WalkOf(s: State, t: Ticket): Walk
  {
    Consume(t, t.quantity, Facing(s, t.side))
  }

  lemma WalkAddsUp(s: State, t: Ticket)
    requires KnownQueues(s)
    ensures Quantity(WalkOf(s, t).fills) + WalkOf(s, t).left == t.quantity
    ensures WalkOf(s, t).fills != [] <==> Quantity(WalkOf(s, t).fills) > 0.0
  {
    Conserved(t, t.quantity, Facing(s, t.side));
  }

  /** An incomplete order of the lookup rests on its own side, once. */
  lemma CancelRests(s: State, id: OrderId)
    requires Inv(s) && id in s.live && s.live <= s.ledger.orders.Keys && !Complete(s.ledger.orders[id].status)
    ensures var side := s.ledger.orders[id].ticket.side;
      && Rests(id, if side.Buy? then s.bids else s.asks)
      && !Rests(id, Remove(s.bids, id)) && !Rests(id, Remove(s.asks, id))
      && (side.Buy? ==> !Rests(id, s.asks)) && (side.Sell? ==> !Rests(id, s.bids))
  {
    hide Inv, Rests, Remove;
    RestsOnItsSide(s, id, Buy);
    RestsOnItsSide(s, id, Sell);
    Removed(s, id, Buy);
    Removed(s, id, Sell);
  }
}
