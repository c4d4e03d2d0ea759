/** What every run of the matching engine keeps: an uncrossed, correctly indexed book
    and a ledger in which every quantity is accounted for. */
module OrderBookRuns {
  import opened Basics
  import opened PriceTimeQueue
  import opened OrderBook

  // ---------------------------------------------------------------- the invariant

  /** A queue entry agrees with the order it stands for. */
  ghost predicate EntryOk(l: Ledger, live: set<OrderId>, side: Side, e: Entry)
  {
    && e.id in l.orders && e.id in live
    && var r := l.orders[e.id];
    && r.ticket.id == e.id && r.ticket.side == side && r.ticket.price == e.price && r.ticket.kind.Limit?
    && r.status in {Open, PartiallyFilled}
    && e.remaining == r.ticket.quantity - r.filled > 0.0
  }

  /** The resting orders of one side: in priority order, none twice, all as recorded. */
  ghost predicate QueueOk(l: Ledger, live: set<OrderId>, side: Side, es: seq<Entry>)
  {
    && Sorted(side.Opposite(), es)
    && Distinct(es)
    && forall i :: 0 <= i < |es| ==> EntryOk(l, live, side, es[i])
  }

  /** Everything in the id lookup either rests in the book or has been filled. */
  ghost predicate Covered(l: Ledger, live: set<OrderId>, side: Side, es: seq<Entry>)
  {
    forall id :: id in live ==>
      && id in l.orders
      && (l.orders[id].ticket.side == side ==> l.orders[id].status == Filled || Rests(id, es))
  }

  ghost predicate Uncrossed(bids: seq<Entry>, asks: seq<Entry>)
  {
    forall i, j :: 0 <= i < |bids| && 0 <= j < |asks| ==> bids[i].price < asks[j].price
  }

  ghost predicate FillOk(l: Ledger, f: Fill)
  {
    f.maker in l.orders && f.taker in l.orders && f.maker != f.taker && f.quantity > 0.0
  }

  /** Each order's filled quantity is what the fill history says, and never more than
      it asked for. */
  ghost predicate Accounted(l: Ledger, id: OrderId)
    requires id in l.orders
  {
    && l.orders[id].ticket.id == id
    && l.orders[id].filled == FilledBy(l.fills, id)
    && 0.0 <= l.orders[id].filled <= l.orders[id].ticket.quantity
  }

  /** The orders that have all they asked for. */
  ghost function Done(orders: map<OrderId, Record>): set<OrderId>
  {
    set id | id in orders && orders[id].filled == orders[id].ticket.quantity
  }

  ghost predicate Counters(l: Ledger)
  {
    && (forall i :: 0 <= i < |l.fills| ==> FillOk(l, l.fills[i]))
    && l.stats.volume == Quantity(l.fills)
    && l.stats.fills == |l.fills|
    && l.stats.completed == |Done(l.orders)|
    && l.stats.received == |l.orders|
  }

  ghost predicate LedgerOk(l: Ledger)
  {
    Counters(l) && forall id :: id in l.orders ==> Accounted(l, id)
  }

  ghost predicate Inv(s: State)
  {
    && QueueOk(s.ledger, s.live, Buy, s.bids) && QueueOk(s.ledger, s.live, Sell, s.asks)
    && Covered(s.ledger, s.live, Buy, s.bids) && Covered(s.ledger, s.live, Sell, s.asks)
    && Uncrossed(s.bids, s.asks)
    && LedgerOk(s.ledger)
  }

  lemma InvImpliesKnown(s: State)
    requires Inv(s)
    ensures KnownQueues(s) && s.live <= s.ledger.orders.Keys
  {
    assert forall i :: 0 <= i < |s.bids| ==> EntryOk(s.ledger, s.live, Buy, s.bids[i]);
    assert forall i :: 0 <= i < |s.asks| ==> EntryOk(s.ledger, s.live, Sell, s.asks[i]);
  }

  lemma FacingPositive(s: State, side: Side)
    requires Inv(s)
    ensures Sorted(side, Facing(s, side)) && Positive(Facing(s, side))
  {
    forall i | 0 <= i < |Facing(s, side)| ensures Facing(s, side)[i].remaining > 0.0 {
      assert EntryOk(s.ledger, s.live, side.Opposite(), Facing(s, side)[i]);
    }
  }

  // ---------------------------------------------------------------- sums over the history

  lemma {:induction false} QuantityAppend(a: seq<Fill>, b: seq<Fill>)
    ensures Quantity(a + b) == Quantity(a) + Quantity(b)
  {
    if a == [] { assert a + b == b; }
    else { assert (a + b)[1..] == a[1..] + b; QuantityAppend(a[1..], b); }
  }

  lemma {:induction false} FilledByAppend(a: seq<Fill>, b: seq<Fill>, id: OrderId)
    ensures FilledBy(a + b, id) == FilledBy(a, id) + FilledBy(b, id)
  {
    if a == [] { assert a + b == b; }
    else { assert (a + b)[1..] == a[1..] + b; FilledByAppend(a[1..], b, id); }
  }

  lemma {:induction false} NeverNamed(fs: seq<Fill>, id: OrderId)
    requires forall i :: 0 <= i < |fs| ==> fs[i].maker != id && fs[i].taker != id
    ensures FilledBy(fs, id) == 0.0
  {
    if fs != [] { NeverNamed(fs[1..], id); }
  }

  // ---------------------------------------------------------------- one fill

  /** The fill a walk makes against the head of the queue. */
  ghost predicate HeadFill(t: Ticket, es: seq<Entry>, f: Fill)
  {
    && es != []
    && f == Fill(es[0].id, t.id, es[0].price, f.quantity, t.side)
    && 0.0 < f.quantity <= es[0].remaining
  }

  function AfterHead(es: seq<Entry>, f: Fill): seq<Entry>
    requires es != []
  {
    if es[0].remaining - f.quantity <= 0.0 then es[1..]
    else [es[0].(remaining := es[0].remaining - f.quantity)] + es[1..]
  }

  lemma FillKeepsQueue(l: Ledger, live: set<OrderId>, t: Ticket, es: seq<Entry>, f: Fill)
    requires HeadFill(t, es, f) && QueueOk(l, live, t.side.Opposite(), es)
    ensures f.maker in l.orders
    ensures QueueOk(RecordFill(l, f), live, t.side.Opposite(), AfterHead(es, f))
    ensures forall id :: id in l.orders && id != f.maker ==> RecordFill(l, f).orders[id] == l.orders[id]
    ensures l.orders[f.maker].ticket.side != t.side
  {
    var side, l', es' := t.side.Opposite(), RecordFill(l, f), AfterHead(es, f);
    assert EntryOk(l, live, side, es[0]);
    forall i | 0 <= i < |es'| ensures EntryOk(l', live, side, es'[i]) {
      var j := if es[0].remaining - f.quantity <= 0.0 then i + 1 else i;
      assert EntryOk(l, live, side, es[j]);
      if j > 0 { assert es[0].id != es[j].id && es'[i] == es[j]; }
    }
  }

  lemma FillKeepsCover(l: Ledger, live: set<OrderId>, t: Ticket, es: seq<Entry>, f: Fill, side: Side)
    requires HeadFill(t, es, f) && QueueOk(l, live, t.side.Opposite(), es) && f.maker in l.orders
    requires side == t.side.Opposite() && Covered(l, live, side, es)
    ensures Covered(RecordFill(l, f), live, side, AfterHead(es, f))
  {
    var l', es' := RecordFill(l, f), AfterHead(es, f);
    assert EntryOk(l, live, side, es[0]);
    forall id | id in live && l'.orders[id].ticket.side == side && l'.orders[id].status != Filled
      ensures Rests(id, es')
    {
      if id == f.maker {
        assert es'[0].id == id;
      } else {
        var i :| 0 <= i < |es| && es[i].id == id;
        var j := if es[0].remaining - f.quantity <= 0.0 then i - 1 else i;
        assert es'[j].id == id;
      }
    }
  }

  /** A ledger that is right about everyone but the taker, whose own figures are only
      written when the walk is over. */
  ghost predicate LedgerOkBut(l: Ledger, taker: OrderId)
  {
    && Counters(l)
    && taker in l.orders && l.orders[taker].ticket.id == taker
    && l.orders[taker].filled == 0.0 < l.orders[taker].ticket.quantity
    && forall id :: id in l.orders && id != taker ==> Accounted(l, id)
  }

  lemma FillKeepsLedger(l: Ledger, live: set<OrderId>, t: Ticket, es: seq<Entry>, f: Fill)
    requires HeadFill(t, es, f) && QueueOk(l, live, t.side.Opposite(), es)
    requires LedgerOkBut(l, t.id) && l.orders[t.id].ticket.side == t.side
    ensures f.maker in l.orders && LedgerOkBut(RecordFill(l, f), t.id)
    ensures FilledBy(RecordFill(l, f).fills, t.id) == FilledBy(l.fills, t.id) + f.quantity
  {
    assert EntryOk(l, live, t.side.Opposite(), es[0]);
    var l' := RecordFill(l, f);
    QuantityAppend(l.fills, [f]);
    forall id | id in l'.orders ensures id != t.id ==> Accounted(l', id)
      ensures FilledBy(l'.fills, id) == FilledBy(l.fills, id) + FilledBy([f], id)
    {
      FilledByAppend(l.fills, [f], id);
      if id != t.id { assert Accounted(l, id); }
    }
    assert t.id in l'.orders && FilledBy([f], t.id) == f.quantity;
    forall i | 0 <= i < |l'.fills| ensures FillOk(l', l'.fills[i]) {
      if i < |l.fills| { assert FillOk(l, l.fills[i]); }
    }
    if l'.orders[f.maker].filled == l'.orders[f.maker].ticket.quantity {
      assert Done(l'.orders) == Done(l.orders) + {f.maker};
    } else {
      assert Done(l'.orders) == Done(l.orders);
    }
  }

  // ---------------------------------------------------------------- a whole walk

  /** The first fill of a walk, the rest of it, and what they do to the ledger. */
  lemma Unfold(l: Ledger, t: Ticket, want: real, es: seq<Entry>) returns (f: Fill, want': real, es': seq<Entry>)
    requires es != [] && want > 0.0 && Crosses(t, es[0].price) && es[0].remaining > 0.0
    requires Known(l, Consume(t, want, es).fills)
    ensures HeadFill(t, es, f) && f.quantity == Min(want, es[0].remaining)
    ensures es' == AfterHead(es, f) && want' == want - f.quantity
    ensures Consume(t, want, es) == Consume(t, want', es').(fills := [f] + Consume(t, want', es').fills)
    ensures f.maker in l.orders && Known(RecordFill(l, f), Consume(t, want', es').fills)
    ensures RecordFills(l, Consume(t, want, es).fills)
         == RecordFills(RecordFill(l, f), Consume(t, want', es').fills)
    ensures |es'| < |es| || want' == 0.0
  {
    var n := Min(want, es[0].remaining);
    f := Fill(es[0].id, t.id, es[0].price, n, t.side);
    want', es' := want - n, AfterHead(es, f);
    var w, w' := Consume(t, want, es), Consume(t, want', es');
    assert w.fills[0] == f;
    assert w.fills[1..] == w'.fills;
    forall i | 0 <= i < |w'.fills| ensures w'.fills[i].maker in RecordFill(l, f).orders {
      assert w'.fills[i] == w.fills[i+1];
    }
  }

  lemma {:induction false} WalkKeeps(l: Ledger, live: set<OrderId>, t: Ticket, want: real, es: seq<Entry>)
    requires QueueOk(l, live, t.side.Opposite(), es) && Covered(l, live, t.side.Opposite(), es)
    requires LedgerOkBut(l, t.id) && l.orders[t.id].ticket.side == t.side
    requires Known(l, Consume(t, want, es).fills)
    ensures var w := Consume(t, want, es); var l' := RecordFills(l, w.fills);
      && QueueOk(l', live, t.side.Opposite(), w.rest) && Covered(l', live, t.side.Opposite(), w.rest)
      && LedgerOkBut(l', t.id)
      && FilledBy(l'.fills, t.id) == FilledBy(l.fills, t.id) + Quantity(w.fills)
      && (forall id :: id in l.orders && l.orders[id].ticket.side == t.side ==> l'.orders[id] == l.orders[id])
    decreases |es|, want > 0.0
  {
    if es == [] || want <= 0.0 || !Crosses(t, es[0].price) {
    } else {
      assert EntryOk(l, live, t.side.Opposite(), es[0]);
      var f, want', es' := Unfold(l, t, want, es);
      FillKeepsQueue(l, live, t, es, f);
      FillKeepsCover(l, live, t, es, f, t.side.Opposite());
      FillKeepsLedger(l, live, t, es, f);
      WalkKeeps(RecordFill(l, f), live, t, want', es');
      assert Consume(t, want, es).fills[1..] == Consume(t, want', es').fills;
    }
  }

  // ---------------------------------------------------------------- placing and removing

  /** Where a newcomer goes: behind the last entry that ranks no worse. */
  lemma {:induction false} InsertAt(consumer: Side, es: seq<Entry>, e: Entry) returns (k: nat)
    requires Sorted(consumer, es)
    ensures k <= |es| && Insert(consumer, es, e) == es[..k] + [e] + es[k..]
    ensures forall i :: 0 <= i < k ==> Rank(consumer, es[i].price) <= Rank(consumer, e.price)
    ensures forall i :: k <= i < |es| ==> Rank(consumer, es[i].price) > Rank(consumer, e.price)
  {
    hide Rank;
    if es == [] || Rank(consumer, e.price) < Rank(consumer, es[0].price) {
      k := 0;
    } else {
      var k' := InsertAt(consumer, es[1..], e);
      k := k' + 1;
      assert es[..k] == [es[0]] + es[1..][..k'];
      assert forall i :: 0 < i < |es| ==> es[i] == es[1..][i-1];
    }
  }

  /** `es'` is `es` without its `k`-th entry. */
  ghost predicate Dropped(es: seq<Entry>, k: nat, es': seq<Entry>)
  {
    && k < |es| == |es'| + 1
    && forall i {:trigger es'[i]} :: 0 <= i < |es'| ==> es'[i] == es[if i < k then i else i + 1]
  }

  lemma {:induction false} RemoveAt(es: seq<Entry>, id: OrderId) returns (k: nat)
    requires Rests(id, es)
    ensures Dropped(es, k, Remove(es, id)) && es[k].id == id
    ensures forall i :: 0 <= i < k ==> es[i].id != id
  {
    if es[0].id == id {
      k := 0;
    } else {
      var tail := es[1..];
      var i :| 0 <= i < |es| && es[i].id == id;
      assert tail[i-1].id == id;
      var k' := RemoveAt(tail, id);
      k := k' + 1;
      forall i | 0 <= i < k ensures es[i].id != id {
        if i > 0 { assert es[i] == tail[i-1]; }
      }
      var es', tail' := Remove(es, id), Remove(tail, id);
      forall i | 0 <= i < |es'| ensures es'[i] == es[if i < k then i else i + 1] {
        if i > 0 { assert es'[i] == tail'[i-1]; }
      }
    }
  }

  /** Orders unknown to the other side's queue may change without disturbing it. */
  lemma QueueFrame(l: Ledger, l': Ledger, live: set<OrderId>, live': set<OrderId>, side: Side, es: seq<Entry>)
    requires QueueOk(l, live, side, es) && live <= live'
    requires forall id :: id in l.orders && l.orders[id].ticket.side == side && id in live ==>
      id in l'.orders && l'.orders[id] == l.orders[id]
    ensures QueueOk(l', live', side, es)
  {
    forall i | 0 <= i < |es| ensures EntryOk(l', live', side, es[i]) {
      assert EntryOk(l, live, side, es[i]);
    }
  }

  /** `es'` is `es` with `e` put in at position `k`. */
  ghost predicate Spliced(es: seq<Entry>, k: nat, e: Entry, es': seq<Entry>)
  {
    && k <= |es| && |es'| == |es| + 1
    && forall i {:trigger es'[i]} :: 0 <= i < |es'| ==> es'[i] == if i < k then es[i] else if i == k then e else es[i-1]
  }

  lemma SplicedSorted(consumer: Side, es: seq<Entry>, k: nat, e: Entry, es': seq<Entry>)
    requires Spliced(es, k, e, es') && Sorted(consumer, es)
    requires forall i :: 0 <= i < k ==> Rank(consumer, es[i].price) <= Rank(consumer, e.price)
    requires forall i :: k <= i < |es| ==> Rank(consumer, es[i].price) > Rank(consumer, e.price)
    ensures Sorted(consumer, es')
  {
    forall i, j | 0 <= i < j < |es'| ensures Rank(consumer, es'[i].price) <= Rank(consumer, es'[j].price) {
      var x, y := es'[i], es'[j];
      assert x == if i < k then es[i] else if i == k then e else es[i-1];
      assert y == if j < k then es[j] else if j == k then e else es[j-1];
    }
  }

  lemma SplicedDistinct(es: seq<Entry>, k: nat, e: Entry, es': seq<Entry>)
    requires Spliced(es, k, e, es') && Distinct(es) && !Rests(e.id, es)
    ensures Distinct(es')
  {
    forall i, j | 0 <= i < j < |es'| ensures es'[i].id != es'[j].id {
      var x, y := es'[i], es'[j];
      assert x == if i < k then es[i] else if i == k then e else es[i-1];
      assert y == if j < k then es[j] else if j == k then e else es[j-1];
    }
  }

  lemma QueueGrows(l: Ledger, live: set<OrderId>, side: Side, es: seq<Entry>, e: Entry)
    requires QueueOk(l, live, side, es) && EntryOk(l, live, side, e) && !Rests(e.id, es)
    ensures QueueOk(l, live, side, Insert(side.Opposite(), es, e))
  {
    hide Insert;
    var k := InsertAt(side.Opposite(), es, e);
    var es' := Insert(side.Opposite(), es, e);
    assert Spliced(es, k, e, es');
    SplicedSorted(side.Opposite(), es, k, e, es');
    SplicedDistinct(es, k, e, es');
    assert forall i :: 0 <= i < |es| ==> EntryOk(l, live, side, es[i]);
  }

  lemma CoverGrows(l: Ledger, live: set<OrderId>, side: Side, es: seq<Entry>, e: Entry)
    requires Sorted(side.Opposite(), es) && Covered(l, live - {e.id}, side, es) && live <= l.orders.Keys
    ensures Covered(l, live, side, Insert(side.Opposite(), es, e))
  {
    var k := InsertAt(side.Opposite(), es, e);
    var es' := Insert(side.Opposite(), es, e);
    forall id | id in live && l.orders[id].ticket.side == side && l.orders[id].status != Filled
      ensures Rests(id, es')
    {
      if id == e.id {
        assert es'[k].id == id;
      } else {
        assert id in live - {e.id};
        var i :| 0 <= i < |es| && es[i].id == id;
        assert es'[if i < k then i else i + 1].id == id;
      }
    }
  }

  lemma DroppedOk(l: Ledger, live: set<OrderId>, side: Side, es: seq<Entry>, k: nat, es': seq<Entry>)
    requires QueueOk(l, live, side, es) && Dropped(es, k, es')
    ensures QueueOk(l, live, side, es') && !Rests(es[k].id, es')
  {
    hide EntryOk;
    forall i, j | 0 <= i < j < |es'|
      ensures Rank(side.Opposite(), es'[i].price) <= Rank(side.Opposite(), es'[j].price) && es'[i].id != es'[j].id
    {
      var x, y := es'[i], es'[j];
      var i', j' := if i < k then i else i + 1, if j < k then j else j + 1;
      assert x == es[i'] && y == es[j'];
    }
  }

  lemma QueueShrinks(l: Ledger, live: set<OrderId>, side: Side, es: seq<Entry>, id: OrderId)
    requires QueueOk(l, live, side, es) && Rests(id, es)
    ensures QueueOk(l, live, side, Remove(es, id)) && !Rests(id, Remove(es, id))
    ensures forall id' :: id' != id && Rests(id', es) ==> Rests(id', Remove(es, id))
  {
    hide QueueOk, Remove;
    var k := RemoveAt(es, id);
    var es' := Remove(es, id);
    assert Dropped(es, k, es');
    DroppedOk(l, live, side, es, k, es');
    forall id' | id' != id && Rests(id', es) ensures Rests(id', es') {
      var i :| 0 <= i < |es| && es[i].id == id';
      assert es'[if i < k then i else i - 1].id == id';
    }
  }

  /** An order nobody has seen is nowhere in the books or the history. */
  lemma FreshNowhere(s: State, id: OrderId)
    requires Inv(s) && id !in s.ledger.orders
    ensures id !in s.live && !Rests(id, s.bids) && !Rests(id, s.asks)
    ensures FilledBy(s.ledger.fills, id) == 0.0
  {
    assert forall i :: 0 <= i < |s.bids| ==> EntryOk(s.ledger, s.live, Buy, s.bids[i]);
    assert forall i :: 0 <= i < |s.asks| ==> EntryOk(s.ledger, s.live, Sell, s.asks[i]);
    assert forall i :: 0 <= i < |s.ledger.fills| ==> FillOk(s.ledger, s.ledger.fills[i]);
    NeverNamed(s.ledger.fills, id);
  }

  // ---------------------------------------------------------------- submitting

  lemma EnteredOk(s: State, t: Ticket, side: Side)
    requires Inv(s) && t.id !in s.ledger.orders && t.quantity > 0.0
    ensures LedgerOkBut(Entered(s.ledger, t), t.id)
    ensures QueueOk(Entered(s.ledger, t), s.live, side, if side.Buy? then s.bids else s.asks)
    ensures Covered(Entered(s.ledger, t), s.live, side, if side.Buy? then s.bids else s.asks)
  {
    FreshNowhere(s, t.id);
    var l, l' := s.ledger, Entered(s.ledger, t);
    QueueFrame(l, l', s.live, s.live, side, if side.Buy? then s.bids else s.asks);
    forall i | 0 <= i < |l'.fills| ensures FillOk(l', l'.fills[i]) {
      assert FillOk(l, l.fills[i]);
    }
    assert Done(l'.orders) == Done(l.orders);
    forall id | id in l'.orders && id != t.id ensures Accounted(l', id) {
      assert Accounted(l, id);
    }
  }

  /** Writing down the taker's own figures completes the ledger. */
  lemma TakerWrittenOk(l: Ledger, t: Ticket, w: Walk)
    requires LedgerOkBut(l, t.id) && l.orders[t.id].ticket == t
    requires FilledBy(l.fills, t.id) == Quantity(w.fills) && Quantity(w.fills) + w.left == t.quantity
    requires 0.0 <= Quantity(w.fills) && 0.0 <= w.left
    ensures LedgerOk(TakerWritten(l, t, w))
  {
    var l' := TakerWritten(l, t, w);
    forall i | 0 <= i < |l'.fills| ensures FillOk(l', l'.fills[i]) {
      assert FillOk(l, l.fills[i]);
    }
    forall id | id in l'.orders ensures Accounted(l', id) {
      if id != t.id { assert Accounted(l, id); }
    }
    assert l'.orders.Keys == l.orders.Keys;
    if w.left > 0.0 { assert Done(l'.orders) == Done(l.orders); }
    else { assert Done(l'.orders) == Done(l.orders) + {t.id}; }
  }

  lemma TakerWrittenKeeps(l: Ledger, t: Ticket, w: Walk, live: set<OrderId>, side: Side, es: seq<Entry>)
    requires QueueOk(l, live, side, es) && Covered(l, live, side, es) && t.id !in live
    ensures QueueOk(TakerWritten(l, t, w), live, side, es) && Covered(TakerWritten(l, t, w), live, side, es)
  {
    hide Average, Quantity, Sorted, Distinct;
    QueueFrame(l, TakerWritten(l, t, w), live, live, side, es);
  }

  /** The ledger and both queues once the walk is recorded, before the taker's figures. */
  lemma WalkRecorded(s: State, t: Ticket)
    requires Inv(s) && t.id !in s.ledger.orders && Acceptable(t)
    ensures KnownQueues(s)
    ensures var w := Consume(t, t.quantity, Facing(s, t.side)); var opp := t.side.Opposite();
      && Known(s.ledger, w.fills)
      && var l := RecordFills(Entered(s.ledger, t), w.fills);
      && LedgerOkBut(l, t.id) && l.orders[t.id].ticket == t && FilledBy(l.fills, t.id) == Quantity(w.fills)
      && QueueOk(l, s.live, opp, w.rest) && Covered(l, s.live, opp, w.rest)
      && QueueOk(l, s.live, t.side, Facing(s, opp)) && Covered(l, s.live, t.side, Facing(s, opp))
  {
    hide RecordFills, Consume, Sorted, Distinct, EntryOk, Counters;
    InvImpliesKnown(s);
    WalkKnown(s, t);
    var opp := t.side.Opposite();
    EnteredOk(s, t, opp);
    EnteredOk(s, t, t.side);
    var es := Facing(s, t.side);
    var w := Consume(t, t.quantity, es);
    FreshNowhere(s, t.id);
    WalkKeeps(Entered(s.ledger, t), s.live, t, t.quantity, es);
    QueueFrame(Entered(s.ledger, t), RecordFills(Entered(s.ledger, t), w.fills), s.live, s.live, t.side, Facing(s, opp));
  }

  /** The ledger and both queues under the final ledger. */
  lemma MatchedOk(s: State, t: Ticket)
    requires Inv(s) && t.id !in s.ledger.orders && Acceptable(t)
    ensures KnownQueues(s)
    ensures var w := Consume(t, t.quantity, Facing(s, t.side)); var opp := t.side.Opposite();
      && Known(s.ledger, w.fills)
      && var l := Matched(s.ledger, t, w);
      && LedgerOk(l)
      && QueueOk(l, s.live, opp, w.rest) && Covered(l, s.live, opp, w.rest)
      && QueueOk(l, s.live, t.side, Facing(s, opp)) && Covered(l, s.live, t.side, Facing(s, opp))
  {
    hide RecordFills, Consume, LedgerOk, LedgerOkBut, QueueOk, Covered, TakerWritten;
    WalkRecorded(s, t);
    var es, opp := Facing(s, t.side), t.side.Opposite();
    var w := Consume(t, t.quantity, es);
    FreshNowhere(s, t.id);
    Conserved(t, t.quantity, es);
    var l := RecordFills(Entered(s.ledger, t), w.fills);
    TakerWrittenOk(l, t, w);
    TakerWrittenKeeps(l, t, w, s.live, opp, w.rest);
    TakerWrittenKeeps(l, t, w, s.live, t.side, Facing(s, opp));
  }

  /** Putting the newcomer in its own queue and in the lookup. */
  lemma NewcomerRests(l: Ledger, live: set<OrderId>, t: Ticket, own: seq<Entry>, facing: seq<Entry>, e: Entry)
    requires QueueOk(l, live, t.side, own) && Covered(l, live, t.side, own)
    requires QueueOk(l, live, t.side.Opposite(), facing) && Covered(l, live, t.side.Opposite(), facing)
    requires EntryOk(l, live + {t.id}, t.side, e) && e.id == t.id && !Rests(t.id, own) && t.id !in live
    ensures QueueOk(l, live + {t.id}, t.side, Insert(t.side.Opposite(), own, e))
    ensures Covered(l, live + {t.id}, t.side, Insert(t.side.Opposite(), own, e))
    ensures QueueOk(l, live + {t.id}, t.side.Opposite(), facing)
    ensures Covered(l, live + {t.id}, t.side.Opposite(), facing)
  {
    hide Insert, Distinct;
    var live' := live + {t.id};
    QueueFrame(l, l, live, live', t.side, own);
    QueueFrame(l, l, live, live', t.side.Opposite(), facing);
    QueueGrows(l, live', t.side, own, e);
    assert live' - {t.id} == live;
    CoverGrows(l, live', t.side, own, e);
  }

  /** A newcomer that rests does so because nothing it crosses is left. */
  lemma NewcomerApart(s: State, t: Ticket, i: nat)
    requires Inv(s) && Acceptable(t)
    requires var w := Consume(t, t.quantity, Facing(s, t.side)); Resting(t, w) && i < |w.rest|
    ensures Rank(t.side, t.price) < Rank(t.side, Consume(t, t.quantity, Facing(s, t.side)).rest[i].price)
  {
    InvImpliesKnown(s);
    FillsAllItCan(t, t.quantity, Facing(s, t.side));
  }

  lemma RestApart(s: State, t: Ticket, i: nat, j: nat)
    requires Inv(s)
    requires i < |Consume(t, t.quantity, Facing(s, t.side)).rest| && j < |Facing(s, t.side.Opposite())|
    ensures Rank(t.side, Facing(s, t.side.Opposite())[j].price)
          < Rank(t.side, Consume(t, t.quantity, Facing(s, t.side)).rest[i].price)
  {
    hide Consume, LedgerOk, Covered, EntryOk, Sorted, Distinct;
    InvImpliesKnown(s);
    RestFrom(t, t.quantity, Facing(s, t.side), i);
  }

  /** `own`, with the newcomer if it rests, stays apart from what the walk left. */
  lemma StillUncrossed(s: State, t: Ticket, own': seq<Entry>)
    requires Inv(s) && Acceptable(t)
    requires var w := Consume(t, t.quantity, Facing(s, t.side)); var own := Facing(s, t.side.Opposite());
      own' == if Resting(t, w) then Insert(t.side.Opposite(), own, Entry(t.id, t.price, w.left)) else own
    ensures var rest := Consume(t, t.quantity, Facing(s, t.side)).rest;
      if t.side.Buy? then Uncrossed(own', rest) else Uncrossed(rest, own')
  {
    hide Consume, Acceptable, LedgerOk, Covered;
    var w, own := Consume(t, t.quantity, Facing(s, t.side)), Facing(s, t.side.Opposite());
    var k := if Resting(t, w) then |own| else 0;
    if Resting(t, w) { k := InsertAt(t.side.Opposite(), own, Entry(t.id, t.price, w.left)); }
    forall i, j | 0 <= i < |w.rest| && 0 <= j < |own'|
      ensures Rank(t.side, own'[j].price) < Rank(t.side, w.rest[i].price)
    {
      if Resting(t, w) && j == k { NewcomerApart(s, t, i); }
      else { RestApart(s, t, i, if Resting(t, w) && j > k then j - 1 else j); }
    }
  }

  /** Every submission, of every type, keeps the invariant. */
  lemma SubmitKeepsInv(s: State, t: Ticket)
    requires Inv(s) && t.id !in s.ledger.orders
    ensures KnownQueues(s) && Inv(Submit(s, t).0)
  {
    hide Consume, Acceptable, Matched, LedgerOk, Insert, QueueOk, Covered, Uncrossed, Average;
    InvImpliesKnown(s);
    if Acceptable(t) {
      MatchedOk(s, t);
      FreshNowhere(s, t.id);
      var w, own := Consume(t, t.quantity, Facing(s, t.side)), Facing(s, t.side.Opposite());
      var e := Entry(t.id, t.price, w.left);
      StillUncrossed(s, t, if Resting(t, w) then Insert(t.side.Opposite(), own, e) else own);
      if Resting(t, w) {
        RestingEntryOk(s, t);
        NewcomerRests(Matched(s.ledger, t, w), s.live, t, own, w.rest, e);
      }
    }
  }

  lemma RestingEntryOk(s: State, t: Ticket)
    requires KnownQueues(s) && Known(s.ledger, Consume(t, t.quantity, Facing(s, t.side)).fills)
    requires var w := Consume(t, t.quantity, Facing(s, t.side)); Resting(t, w)
    ensures var w := Consume(t, t.quantity, Facing(s, t.side));
      EntryOk(Matched(s.ledger, t, w), s.live + {t.id}, t.side, Entry(t.id, t.price, w.left))
  {
    hide Consume, RecordFills, Average;
    Conserved(t, t.quantity, Facing(s, t.side));
  }

  // ---------------------------------------------------------------- cancelling

  /** Cancelling reports true exactly when the order rests in the book; it then takes
      that order out, and nothing else, leaving the rest in place. */
  lemma CancelExact(s: State, id: OrderId)
    requires Inv(s)
    ensures KnownQueues(s) && s.live <= s.ledger.orders.Keys
    ensures Cancel(s, id).1 <==> Rests(id, s.bids) || Rests(id, s.asks)
    ensures !Cancel(s, id).1 ==> Cancel(s, id).0 == s
    ensures Cancel(s, id).1 ==> var s' := Cancel(s, id).0;
      && !Rests(id, s'.bids) && !Rests(id, s'.asks) && s'.live == s.live - {id}
      && s'.bids == Remove(s.bids, id) && s'.asks == Remove(s.asks, id)
      && s'.ledger.fills == s.ledger.fills && s'.ledger.orders.Keys == s.ledger.orders.Keys
      && id in s.ledger.orders && s'.ledger.orders[id] == s.ledger.orders[id].(status := Cancelled)
      && (forall id' :: id' in s.ledger.orders && id' != id ==> s'.ledger.orders[id'] == s.ledger.orders[id'])
      && s'.ledger.stats == s.ledger.stats.(cancelled := s.ledger.stats.cancelled + 1)
  {
    hide Remove, LedgerOk, Sorted, Distinct, Uncrossed;
    InvImpliesKnown(s);
    RestsOnItsSide(s, id, Buy);
    RestsOnItsSide(s, id, Sell);
    Removed(s, id, Buy);
    Removed(s, id, Sell);
  }

  /** A resting order is live and incomplete, and an incomplete live order rests on its
      own side. */
  lemma RestsOnItsSide(s: State, id: OrderId, side: Side)
    requires Inv(s)
    ensures Rests(id, Facing(s, side.Opposite())) <==>
      && id in s.live && s.ledger.orders[id].ticket.side == side && !Complete(s.ledger.orders[id].status)
  {
    hide LedgerOk, Sorted, Distinct, Uncrossed;
    var es := Facing(s, side.Opposite());
    if Rests(id, es) {
      var i :| 0 <= i < |es| && es[i].id == id;
      assert EntryOk(s.ledger, s.live, side, es[i]);
    }
    assert Covered(s.ledger, s.live, side, es);
  }

  lemma Removed(s: State, id: OrderId, side: Side)
    requires Inv(s)
    ensures var es := Facing(s, side); !Rests(id, Remove(es, id)) && (!Rests(id, es) ==> Remove(es, id) == es)
  {
    var es := Facing(s, side);
    if Rests(id, es) { QueueShrinks(s.ledger, s.live, side.Opposite(), es, id); } else { RemoveAbsent(es, id); }
  }

  lemma {:induction false} RemoveAbsent(es: seq<Entry>, id: OrderId)
    requires !Rests(id, es)
    ensures Remove(es, id) == es
  {
    if es != [] {
      forall i | 0 <= i < |es[1..]| ensures es[1..][i].id != id { assert es[1..][i] == es[i+1]; }
      RemoveAbsent(es[1..], id);
      assert es[0].id != id;
    }
  }

  lemma CancelKeepsInv(s: State, id: OrderId)
    requires Inv(s)
    ensures s.live <= s.ledger.orders.Keys && Inv(Cancel(s, id).0)
  {
    CancelExact(s, id);
    var s' := Cancel(s, id).0;
    if Cancel(s, id).1 {
      assert forall i :: 0 <= i < |s.bids| ==> EntryOk(s.ledger, s.live, Buy, s.bids[i]);
      assert forall i :: 0 <= i < |s.asks| ==> EntryOk(s.ledger, s.live, Sell, s.asks[i]);
      CancelKeepsQueue(s, id, Buy, s.bids);
      CancelKeepsQueue(s, id, Sell, s.asks);
      CancelKeepsLedger(s, id);
      RemoveFrom(s.bids, id);
      RemoveFrom(s.asks, id);
    }
  }

  lemma RemoveFrom(es: seq<Entry>, id: OrderId)
    ensures forall i :: 0 <= i < |Remove(es, id)| ==> Remove(es, id)[i] in es
  {
    if Rests(id, es) { var k := RemoveAt(es, id); } else { RemoveAbsent(es, id); }
  }

  lemma CancelKeepsQueue(s: State, id: OrderId, side: Side, es: seq<Entry>)
    requires Inv(s) && id in s.live && es == (if side.Buy? then s.bids else s.asks)
    requires s.live <= s.ledger.orders.Keys && Cancel(s, id).1
    ensures var s' := Cancel(s, id).0;
      QueueOk(s'.ledger, s'.live, side, Remove(es, id)) && Covered(s'.ledger, s'.live, side, Remove(es, id))
  {
    var s', es' := Cancel(s, id).0, Remove(es, id);
    if Rests(id, es) { QueueShrinks(s.ledger, s.live, side, es, id); } else { RemoveAbsent(es, id); }
    forall i | 0 <= i < |es'| ensures EntryOk(s'.ledger, s'.live, side, es'[i]) {
      assert EntryOk(s.ledger, s.live, side, es'[i]);
      assert es'[i].id != id;
    }
    forall o | o in s'.live && s'.ledger.orders[o].ticket.side == side && s'.ledger.orders[o].status != Filled
      ensures Rests(o, es')
    {
      assert o in s.live && o != id && Rests(o, es);
    }
  }

  lemma CancelKeepsLedger(s: State, id: OrderId)
    requires Inv(s) && s.live <= s.ledger.orders.Keys
    ensures LedgerOk(Cancel(s, id).0.ledger)
  {
    var l, l' := s.ledger, Cancel(s, id).0.ledger;
    forall i | 0 <= i < |l'.fills| ensures FillOk(l', l'.fills[i]) { assert FillOk(l, l.fills[i]); }
    forall o | o in l'.orders ensures Accounted(l', o) { assert Accounted(l, o); }
    assert Done(l'.orders) == Done(l.orders);
    assert l'.orders.Keys == l.orders.Keys;
  }
}
