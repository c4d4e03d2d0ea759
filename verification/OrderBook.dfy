/** The matching engine as a state machine over values: two price-time queues, the
    orders accepted so far, the fill ledger and the counters. The class in
    MatchingEngine.dfy is proved to take exactly these steps. */
module OrderBook {
  import opened Basics
  import opened PriceTimeQueue

  datatype Status = New | Open | PartiallyFilled | Filled | Cancelled | Rejected

  /** An accepted order: its ticket and what has happened to it. */
  datatype Record = Record(ticket: Ticket, status: Status, filled: real, averagePrice: real)

  datatype Stats = Stats(received: nat, completed: nat, cancelled: nat, volume: real, fills: nat)

  /** What a fill touches: the accepted orders, the fill history, the counters. */
  datatype Ledger = Ledger(orders: map<OrderId, Record>, fills: seq<Fill>, stats: Stats)

  /** `live` is the id lookup: orders that were put in the book and not cancelled
      since; filled makers stay in it. */
  datatype State = State(bids: seq<Entry>, asks: seq<Entry>, live: set<OrderId>, ledger: Ledger)

  datatype MatchResult = MatchResult(status: Status, fills: seq<Fill>, totalFilled: real, averagePrice: real, remaining: real)

  const EMPTY := State([], [], {}, Ledger(map[], [], Stats(0, 0, 0, 0.0, 0)))

  // ---------------------------------------------------------------- validation

  const TICK := 0.01
  const MIN_PRICE := 0.01
  const MAX_PRICE := 0.99

  /** Nearest multiple of the tick. (Halfway cases are off the tick either way.) */
  function RoundToTick(price: real): real
  {
    (price / TICK + 0.5).Floor as real * TICK
  }

  predicate Acceptable(t: Ticket)
  {
    && MIN_PRICE <= t.price <= MAX_PRICE
    && Abs(t.price - RoundToTick(t.price)) <= 0.000000001
    && t.quantity > 0.0
  }

  // ---------------------------------------------------------------- the steps

  /** One fill: the maker is charged, the fill is recorded, the counters move. */
  function RecordFill(l: Ledger, f: Fill): Ledger
    requires f.maker in l.orders
  {
    var r := l.orders[f.maker];
    var filled := r.filled + f.quantity;
    var done := r.ticket.quantity - filled <= 0.0;
    Ledger(
      l.orders[f.maker := r.(filled := filled, status := if done then Filled else PartiallyFilled)],
      l.fills + [f],
      l.stats.(completed := l.stats.completed + (if done then 1 else 0),
               volume := l.stats.volume + f.quantity,
               fills := l.stats.fills + 1))
  }

  predicate Known(l: Ledger, fs: seq<Fill>)
  {
    forall i :: 0 <= i < |fs| ==> fs[i].maker in l.orders
  }

  function RecordFills(l: Ledger, fs: seq<Fill>): (r: Ledger)
    requires Known(l, fs)
    ensures r.orders.Keys == l.orders.Keys
    ensures forall id :: id in l.orders ==> r.orders[id].ticket == l.orders[id].ticket
    decreases fs
  {
    if fs == [] then l
    else
      var next := RecordFill(l, fs[0]);
      assert Known(next, fs[1..]) by {
        assert forall i :: 0 <= i < |fs| - 1 ==> fs[1..][i] == fs[i+1];
      }
      RecordFills(next, fs[1..])
  }

  /** A newcomer goes behind everything that ranks at least as well. */
  function Insert(consumer: Side, es: seq<Entry>, e: Entry): (r: seq<Entry>)
    ensures |r| == |es| + 1
  {
    if es == [] || Rank(consumer, e.price) < Rank(consumer, es[0].price) then [e] + es
    else [es[0]] + Insert(consumer, es[1..], e)
  }

  function Remove(es: seq<Entry>, id: OrderId): seq<Entry>
  {
    if es == [] then [] else if es[0].id == id then es[1..] else [es[0]] + Remove(es[1..], id)
  }

  function Facing(s: State, side: Side): seq<Entry>
  {
    if side.Buy? then s.asks else s.bids
  }

  function Average(fs: seq<Fill>): real
  {
    if Quantity(fs) > 0.0 then Cost(fs) / Quantity(fs) else 0.0
  }

  /** The taker's status once the walk is over, before the order type has its say. */
  function StatusAfterMatch(w: Walk): Status
  {
    if w.left == 0.0 && Quantity(w.fills) > 0.0 then Filled
    else if Quantity(w.fills) > 0.0 then PartiallyFilled
    else Open
  }

  /** The taker's status when the walk left something unfilled. A FOK order that found
      nothing at all is left open; MARKET and IOC orders count as filled once anything
      was filled. */
  function FinalStatus(t: Ticket, w: Walk): Status
  {
    if w.left > 0.0 then
      match t.kind
      case Limit => StatusAfterMatch(w)
      case Market => if Quantity(w.fills) > 0.0 then Filled else Cancelled
      case ImmediateOrCancel => if Quantity(w.fills) > 0.0 then Filled else Cancelled
      case FillOrKill => if Quantity(w.fills) > 0.0 then Cancelled else Open
    else Filled
  }

  /** The ledger with the newcomer entered and nothing matched yet. */
  function Entered(l: Ledger, t: Ticket): Ledger
  {
    Ledger(l.orders[t.id := Record(t, Open, 0.0, 0.0)], l.fills, l.stats.(received := l.stats.received + 1))
  }

  /** The taker's own figures as the walk leaves them. */
  function TakerMatched(l: Ledger, t: Ticket, w: Walk): Ledger
  {
    l.(orders := l.orders[t.id := Record(t, StatusAfterMatch(w), Quantity(w.fills), Average(w.fills))])
  }

  /** The taker's own figures, written once the order type has had its say. */
  function TakerWritten(l: Ledger, t: Ticket, w: Walk): Ledger
  {
    l.(orders := l.orders[t.id := Record(t, FinalStatus(t, w), Quantity(w.fills), Average(w.fills))],
       stats := if w.left > 0.0 then l.stats else l.stats.(completed := l.stats.completed + 1))
  }

  function Matched(l: Ledger, t: Ticket, w: Walk): Ledger
    requires Known(l, w.fills)
  {
    TakerWritten(RecordFills(Entered(l, t), w.fills), t, w)
  }

  function ResultOf(t: Ticket, w: Walk): MatchResult
  {
    if t.kind.FillOrKill? && w.left > 0.0 && Quantity(w.fills) > 0.0
    then MatchResult(Cancelled, [], 0.0, Average(w.fills), t.quantity)
    else MatchResult(FinalStatus(t, w), w.fills, Quantity(w.fills), Average(w.fills), w.left)
  }

  predicate Resting(t: Ticket, w: Walk) { t.kind.Limit? && w.left > 0.0 }

  predicate KnownQueues(s: State)
  {
    && (forall i :: 0 <= i < |s.bids| ==> s.bids[i].id in s.ledger.orders && s.bids[i].remaining > 0.0)
    && (forall i :: 0 <= i < |s.asks| ==> s.asks[i].id in s.ledger.orders && s.asks[i].remaining > 0.0)
  }

  lemma WalkKnown(s: State, t: Ticket)
    requires KnownQueues(s)
    ensures Known(s.ledger, Consume(t, t.quantity, Facing(s, t.side)).fills)
  {
    Priority(t, t.quantity, Facing(s, t.side));
  }

  function Submit(s: State, t: Ticket): (State, MatchResult)
    requires KnownQueues(s)
  {
    if !Acceptable(t) then (s, MatchResult(Rejected, [], 0.0, 0.0, t.quantity))
    else
      var w := Consume(t, t.quantity, Facing(s, t.side));
      WalkKnown(s, t);
      var ledger := Matched(s.ledger, t, w);
      var newcomer := Entry(t.id, t.price, w.left);
      var live := if Resting(t, w) then s.live + {t.id} else s.live;
      var bids := if t.side.Sell? then w.rest
                  else if Resting(t, w) then Insert(Sell, s.bids, newcomer) else s.bids;
      var asks := if t.side.Buy? then w.rest
                  else if Resting(t, w) then Insert(Buy, s.asks, newcomer) else s.asks;
      (State(bids, asks, live, ledger), ResultOf(t, w))
  }

  predicate Complete(st: Status) { st in {Filled, Cancelled, Rejected} }

  function Cancel(s: State, id: OrderId): (State, bool)
    requires s.live <= s.ledger.orders.Keys
  {
    if id !in s.live || Complete(s.ledger.orders[id].status) then (s, false)
    else
      var r := s.ledger.orders[id];
      var ledger := s.ledger.(orders := s.ledger.orders[id := r.(status := Cancelled)],
                              stats := s.ledger.stats.(cancelled := s.ledger.stats.cancelled + 1));
      (State(if r.ticket.side.Buy? then Remove(s.bids, id) else s.bids,
             if r.ticket.side.Sell? then Remove(s.asks, id) else s.asks,
             s.live - {id}, ledger), true)
  }
}
