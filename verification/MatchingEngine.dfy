/** The matching engine: two dictionaries of price levels whose queues hold shared,
    mutable orders, an id lookup, the fill history and the counters. Every method is
    proved to take the step OrderBook.dfy prescribes on what the objects stand for. */
module MatchingEngine {
  import opened Basics
  import opened PriceTimeQueue
  import opened OrderBook
  import opened OrderBookRuns
  import opened Ladder
  import opened OrderSteps
  import opened LevelWalk
  import opened Simulation
  import opened BookObjects

  class LocalMatchingEngine {
    var bids: map<Key, PriceLevel>
    var asks: map<Key, PriceLevel>
    var orders: map<OrderId, Order>
    var fills: seq<Fill>
    var stats: Stats

    /** Every order that passed validation, by id. */
    ghost var accepted: map<OrderId, Order>

    constructor ()
      ensures Valid() && View() == EMPTY && accepted == map[]
    {
      bids, asks, orders, fills, stats, accepted := map[], map[], map[], [], Stats(0, 0, 0, 0.0, 0), map[];
    }

    ghost function LedgerView(): (l: Ledger)
      reads this`accepted, this`fills, this`stats, accepted.Values
      ensures l.orders.Keys == accepted.Keys
    {
      Ledger(map id | id in accepted :: accepted[id].AsRecord(), fills, stats)
    }

    /** The objects hang together: nothing is shared that should not be. */
    ghost predicate BooksSound()
      reads this`bids, this`asks, this`accepted, bids.Values, asks.Values, accepted.Values
    {
      && OwnIds()
      && BookOk(bids, Buy, accepted) && BookOk(asks, Sell, accepted)
      && bids.Values !! asks.Values
    }

    ghost predicate OwnIds()
      reads this`accepted
    {
      forall id :: id in accepted ==> accepted[id].ticket.id == id
    }

    ghost predicate LookupSound()
      reads this`orders, this`accepted
    {
      forall id :: id in orders ==> id in accepted && orders[id] == accepted[id]
    }

    ghost predicate Sound()
      reads this`bids, this`asks, this`orders, this`accepted, bids.Values, asks.Values, accepted.Values
    {
      BooksSound() && LookupSound()
    }

    ghost predicate NoEmptyLevels()
      reads this`bids, this`asks, bids.Values, asks.Values
    {
      Full(bids) && Full(asks)
    }

    ghost function BidQueue(): seq<Entry>
      requires BooksSound()
      reads this`bids, this`asks, this`accepted, bids.Values, asks.Values, accepted.Values
    {
      Flatten(Sell, LadderOf(bids, Buy, accepted))
    }

    ghost function AskQueue(): seq<Entry>
      requires BooksSound()
      reads this`bids, this`asks, this`accepted, bids.Values, asks.Values, accepted.Values
    {
      Flatten(Buy, LadderOf(asks, Sell, accepted))
    }

    /** What the objects stand for. */
    ghost function View(): State
      requires Sound()
      reads this, bids.Values, asks.Values, accepted.Values
    {
      State(BidQueue(), AskQueue(), orders.Keys, LedgerView())
    }

    ghost predicate Valid()
      reads this, bids.Values, asks.Values, accepted.Values
    {
      Sound() && NoEmptyLevels() && Inv(View())
    }

    /** A sound engine, taken apart: its two ladders. */
    lemma Opened() returns (bidLadder: Levels, askLadder: Levels)
      requires Sound()
      ensures Held(bids, Buy, accepted, bidLadder) && Held(asks, Sell, accepted, askLadder)
      ensures OwnIds() && LookupSound() && bids.Values !! asks.Values
      ensures View() == State(Flatten(Sell, bidLadder), Flatten(Buy, askLadder), orders.Keys, LedgerView())
    {
      hide Held, LookupSound, OwnIds, LedgerView;
      bidLadder, askLadder := LadderOf(bids, Buy, accepted), LadderOf(asks, Sell, accepted);
      OkHeld(bids, Buy, accepted);
      OkHeld(asks, Sell, accepted);
    }

    /** And put together again. */
    lemma Closed(bidLadder: Levels, askLadder: Levels)
      requires Held(bids, Buy, accepted, bidLadder) && Held(asks, Sell, accepted, askLadder)
      requires OwnIds() && LookupSound() && bids.Values !! asks.Values
      ensures Sound()
      ensures View() == State(Flatten(Sell, bidLadder), Flatten(Buy, askLadder), orders.Keys, LedgerView())
    {
      hide Held, LookupSound, OwnIds, LedgerView;
      HeldOk(bids, Buy, accepted, bidLadder);
      HeldOk(asks, Sell, accepted, askLadder);
    }

    // ---------------------------------------------------------------- matching

    /** Enters a fill in the history and the counters and charges it to its maker. */
    method RecordFillFor(maker: Order, fill: Fill)
      requires OwnIds() && fill.maker == maker.ticket.id && fill.maker in accepted && accepted[fill.maker] == maker
      modifies this`fills, this`stats, maker
      ensures maker.filled == old(maker.filled) + fill.quantity
      ensures LedgerView() == old(RecordFill(LedgerView(), fill))
    {
      fills := fills + [fill];
      maker.filled := maker.filled + fill.quantity;
      if maker.Remaining() <= 0.0 {
        maker.status := Filled;
        stats := stats.(completed := stats.completed + 1);
      } else {
        maker.status := PartiallyFilled;
      }
      stats := stats.(volume := stats.volume + fill.quantity, fills := stats.fills + 1);
      assert LedgerView().orders == old(LedgerView().orders)[fill.maker := maker.AsRecord()];
    }

    /** One turn of the inner loop: fill against the order at the front of a level. */
    method FillFront(level: PriceLevel, ghost p: Key, taker: Order, remaining: real) returns (fill: Fill)
      requires level.orders != [] && LevelOk(level, p, taker.ticket.side.Opposite(), accepted) && OwnIds()
      requires remaining > 0.0 && level.orders[0].Remaining() > 0.0
      modifies this`fills, this`stats, level, level.orders[0]
      ensures old(HeadFill(taker.ticket, Entries(level.orders), fill))
      ensures fill.quantity == Min(remaining, old(level.orders[0].Remaining()))
      ensures Entries(level.orders) == old(AfterHead(Entries(level.orders), fill))
      ensures level.orders == old(level.orders) || level.orders == old(level.orders)[1..]
      ensures LevelOk(level, p, taker.ticket.side.Opposite(), accepted)
      ensures old(fill.maker in LedgerView().orders) && LedgerView() == old(RecordFill(LedgerView(), fill))
    {
      hide RecordFill, Depth, Lined, AfterHead, LedgerView, OwnIds, Entries;
      var maker := level.orders[0];
      ghost var queue, before := level.orders, Entries(level.orders);
      LinedTail(queue, p, taker.ticket.side.Opposite(), accepted);
      var quantity := Min(remaining, maker.Remaining());
      fill := Fill(maker.ticket.id, taker.ticket.id, level.price, quantity, taker.ticket.side);
      RecordFillFor(maker, fill);
      EntriesAfterHead(queue, before, fill);
      level.TakeFromFront(quantity);
      DepthAfterHead(before, fill);
    }

    /** The inner loop: fill against one level, in arrival order, until either the level
        or the order is used up. */
    method MatchLevel(level: PriceLevel, ghost p: Key, taker: Order, want: real) returns (made: seq<Fill>, remaining: real)
      requires LevelOk(level, p, taker.ticket.side.Opposite(), accepted) && OwnIds()
      requires Positive(Entries(level.orders)) && Crosses(taker.ticket, p.price)
      modifies this`fills, this`stats, level, level.orders
      ensures old(Known(LedgerView(), Consume(taker.ticket, want, Entries(level.orders)).fills))
      ensures LedgerView() == old(RecordFills(LedgerView(), Consume(taker.ticket, want, Entries(level.orders)).fills))
      ensures Walk(made, Entries(level.orders), remaining) == old(Consume(taker.ticket, want, Entries(level.orders)))
      ensures forall o :: o in level.orders ==> o in old(level.orders)
      ensures LevelOk(level, p, taker.ticket.side.Opposite(), accepted)
    {
      hide RecordFill, RecordFills, LevelOk, Progress, AfterHead, Consume, Known, Entries, LedgerView, OwnIds, Crosses;
      ghost var t, side := taker.ticket, taker.ticket.side.Opposite();
      ghost var es0, ledger0 := Entries(level.orders), LedgerView();
      made, remaining := [], want;
      LevelPrice(level, p, side, accepted);
      ProgressStart(t, want, es0, ledger0);
      while level.orders != [] && remaining > 0.0
        invariant LevelOk(level, p, side, accepted)
        invariant forall o :: o in level.orders ==> o in old(level.orders)
        invariant Positive(Entries(level.orders))
        invariant Progress(t, want, es0, ledger0, made, remaining, Entries(level.orders), LedgerView())
        decreases |level.orders|, remaining > 0.0
      {
        ghost var es, ledger := Entries(level.orders), LedgerView();
        LevelPrice(level, p, side, accepted);
        assert level.orders[0] in level.orders;
        var fill := FillFront(level, p, taker, remaining);
        ProgressStep(t, want, es0, ledger0, made, remaining, es, ledger, fill);
        made, remaining := made + [fill], remaining - fill.quantity;
      }
      ProgressDone(t, want, es0, ledger0, made, remaining, Entries(level.orders), LedgerView());
    }

    /** Match against one level of the facing book; the other levels stay as they are. */
    method MatchAt(opposite: map<Key, PriceLevel>, p: Key, taker: Order, want: real) returns (made: seq<Fill>, remaining: real)
      requires OwnIds() && BookOk(opposite, taker.ticket.side.Opposite(), accepted) && p in opposite
      requires Positive(LadderOf(opposite, taker.ticket.side.Opposite(), accepted)[p]) && Crosses(taker.ticket, p.price)
      modifies this`fills, this`stats, opposite.Values, accepted.Values
      ensures BookOk(opposite, taker.ticket.side.Opposite(), accepted)
      ensures var opp := taker.ticket.side.Opposite();
        && var w := Consume(taker.ticket, want, old(LadderOf(opposite, opp, accepted)[p]));
        && made == w.fills && remaining == w.left
        && LadderOf(opposite, opp, accepted) == old(LadderOf(opposite, opp, accepted))[p := w.rest]
        && (opposite[p].orders == [] <==> w.rest == [])
        && old(Known(LedgerView(), w.fills)) && LedgerView() == old(RecordFills(LedgerView(), w.fills))
    {
      hide RecordFills, Consume, Positive, Lined, LedgerView, OwnIds, Known, Crosses, LevelOk, BookOk, LadderOf, Entries, Stands, Separate;
      ghost var side := taker.ticket.side.Opposite();
      ghost var ladder := LadderOf(opposite, side, accepted);
      LadderSays(opposite, side, accepted, ladder);
      made, remaining := MatchApart(opposite, p, taker, want, ladder);
      LadderStands(opposite, p, side, accepted, ladder);
    }

    method MatchApart(opposite: map<Key, PriceLevel>, p: Key, taker: Order, want: real, ghost ladder: Levels)
      returns (made: seq<Fill>, remaining: real)
      requires OwnIds() && BookOk(opposite, taker.ticket.side.Opposite(), accepted) && p in opposite
      requires ladder == LadderOf(opposite, taker.ticket.side.Opposite(), accepted)
      requires Positive(ladder[p]) && Crosses(taker.ticket, p.price)
      modifies this`fills, this`stats, opposite.Values, accepted.Values
      ensures LevelOk(opposite[p], p, taker.ticket.side.Opposite(), accepted)
      ensures forall q :: q in opposite && q != p ==>
        Stands(opposite[q], q, taker.ticket.side.Opposite(), accepted, ladder[q]) && Entries(opposite[q].orders) == ladder[q]
      ensures Walk(made, Entries(opposite[p].orders), remaining) == Consume(taker.ticket, want, ladder[p])
      ensures var w := Consume(taker.ticket, want, ladder[p]);
        old(Known(LedgerView(), w.fills)) && LedgerView() == old(RecordFills(LedgerView(), w.fills))
    {
      hide RecordFills, Consume, Positive, Depth, Lined, LedgerView, OwnIds, Known, Crosses, LevelOk, BookOk, LadderOf, Entries, Stands;
      var level := opposite[p];
      ghost var side := taker.ticket.side.Opposite();
      LevelsApart(opposite, p, side, accepted);
      LadderSays(opposite, side, accepted, ladder);
      made, remaining := MatchLevel(level, p, taker, want);
      forall q, i | q in opposite && q != p && 0 <= i < |opposite[q].orders|
        ensures opposite[q].orders[i].AsEntry() == ladder[q][i]
      {
        var o := opposite[q].orders[i];
        assert o in opposite[q].orders && o !in old(level.orders);
        assert old(Entries(opposite[q].orders))[i] == old(o.AsEntry());
      }
      OthersAre(opposite, p, ladder);
    }

    /** Where the outer loop stands: the prices visited, the levels, the fills so far. */
    ghost predicate Underway(opposite: map<Key, PriceLevel>, t: Ticket, es0: seq<Entry>, ledger0: Ledger,
                             prices: seq<Key>, i: nat, made: seq<Fill>, remaining: real, emptied: seq<Key>)
      reads this, opposite.Values, accepted.Values
    {
      && OwnIds() && BookOk(opposite, t.side.Opposite(), accepted)
      && var ladder := LadderOf(opposite, t.side.Opposite(), accepted);
      && Visiting(t.side, ladder, prices, i, remaining, emptied)
      && Progress(t, t.quantity, es0, ledger0, made, remaining, Flat(ladder, prices), LedgerView())
    }

    /** One turn of the outer loop. */
    method MatchNext(opposite: map<Key, PriceLevel>, taker: Order, ghost es0: seq<Entry>, ghost ledger0: Ledger,
                     prices: seq<Key>, i: nat, ghost made: seq<Fill>, want: real, ghost emptied: seq<Key>)
      returns (more: seq<Fill>, remaining: real)
      requires Underway(opposite, taker.ticket, es0, ledger0, prices, i, made, want, emptied)
      requires i < |prices| && want > 0.0 && Crosses(taker.ticket, prices[i].price)
      modifies this`fills, this`stats, opposite.Values, accepted.Values
      ensures prices[i] in opposite
      ensures Underway(opposite, taker.ticket, es0, ledger0, prices, i + 1, made + more, remaining,
                       if opposite[prices[i]].orders == [] then emptied + [prices[i]] else emptied)
    {
      hide RecordFills, Consume, Positive, BookOk, LedgerView, Progress, Known, Crosses, Visiting, LadderOf, Entries;
      ghost var ladder := LadderOf(opposite, taker.ticket.side.Opposite(), accepted);
      VisitProgress(taker.ticket, taker.ticket.quantity, es0, ledger0, made, want, ladder, prices, i, emptied, LedgerView());
      VisitNext(taker.ticket, want, ladder, prices, i, emptied);
      VisitPositive(taker.ticket.side, ladder, prices, i, want, emptied);
      more, remaining := MatchAt(opposite, prices[i], taker, want);
    }

    /** The outer loop: level after level in matching order, while the order wants more
        and the level's price crosses. Levels it empties are listed for deletion. */
    method MatchLevels(opposite: map<Key, PriceLevel>, taker: Order) returns (made: seq<Fill>, remaining: real, emptied: seq<Key>)
      requires OwnIds() && BookOk(opposite, taker.ticket.side.Opposite(), accepted)
      requires forall p :: p in opposite ==>
        var es := LadderOf(opposite, taker.ticket.side.Opposite(), accepted)[p]; es != [] && Positive(es)
      modifies this`fills, this`stats, opposite.Values, accepted.Values
      ensures BookOk(opposite, taker.ticket.side.Opposite(), accepted)
      ensures var t := taker.ticket; var opp := t.side.Opposite();
        && var es := old(Flatten(t.side, LadderOf(opposite, opp, accepted)));
        && var w := Consume(t, t.quantity, es);
        && Walk(made, Flatten(t.side, LadderOf(opposite, opp, accepted)), remaining) == w
        && old(Known(LedgerView(), w.fills)) && LedgerView() == old(RecordFills(LedgerView(), w.fills))
      ensures forall p :: p in emptied <==>
        p in opposite && LadderOf(opposite, taker.ticket.side.Opposite(), accepted)[p] == []
    {
      hide RecordFills, Consume, Positive, BookOk, LedgerView, Known, Crosses, LadderOf, Underway, OwnIds, Flatten, BestFirst;
      var prices := SortPrices(taker.ticket.side, opposite.Keys);
      ghost var t, ledger0 := taker.ticket, LedgerView();
      ghost var es0 := Flatten(t.side, LadderOf(opposite, t.side.Opposite(), accepted));
      WalkBegins(opposite, t, prices);
      ghost var i;
      made, remaining, emptied, i := MatchInTurn(opposite, taker, prices, es0, ledger0);
      WalkOver(opposite, t, es0, ledger0, prices, i, made, remaining, emptied);
    }

    /** The loop over the sorted prices. */
    method MatchInTurn(opposite: map<Key, PriceLevel>, taker: Order, prices: seq<Key>, ghost es0: seq<Entry>, ghost ledger0: Ledger)
      returns (made: seq<Fill>, remaining: real, emptied: seq<Key>, ghost visited: nat)
      requires Underway(opposite, taker.ticket, es0, ledger0, prices, 0, [], taker.ticket.quantity, [])
      modifies this`fills, this`stats, opposite.Values, accepted.Values
      ensures Underway(opposite, taker.ticket, es0, ledger0, prices, visited, made, remaining, emptied)
      ensures visited >= |prices| || remaining <= 0.0 || !Crosses(taker.ticket, prices[visited].price)
    {
      hide Crosses, Underway;
      made, remaining, emptied := [], taker.ticket.quantity, [];
      var i := 0;
      while i < |prices| && remaining > 0.0 && Crosses(taker.ticket, prices[i].price)
        invariant 0 <= i <= |prices|
        invariant Underway(opposite, taker.ticket, es0, ledger0, prices, i, made, remaining, emptied)
      {
        var more;
        more, remaining := MatchNext(opposite, taker, es0, ledger0, prices, i, made, remaining, emptied);
        made := made + more;
        if opposite[prices[i]].orders == [] {
          emptied := emptied + [prices[i]];
        }
        i := i + 1;
      }
      visited := i;
    }

    lemma WalkBegins(opposite: map<Key, PriceLevel>, t: Ticket, prices: seq<Key>)
      requires OwnIds() && BookOk(opposite, t.side.Opposite(), accepted)
      requires forall p :: p in opposite ==> var es := LadderOf(opposite, t.side.Opposite(), accepted)[p]; es != [] && Positive(es)
      requires prices == BestFirst(t.side, opposite.Keys)
      ensures Underway(opposite, t, Flatten(t.side, LadderOf(opposite, t.side.Opposite(), accepted)), LedgerView(),
                       prices, 0, [], t.quantity, [])
    {
      hide RecordFills, Consume, BookOk, LedgerView, Progress, Known, Crosses, Visiting, LadderOf, Positive;
      ghost var ladder := LadderOf(opposite, t.side.Opposite(), accepted);
      LadderAtPrice(opposite, t.side.Opposite(), accepted);
      FlatPositive(ladder, prices, accepted.Keys);
      ProgressStart(t, t.quantity, Flat(ladder, prices), LedgerView());
      VisitStart(t.side, ladder, prices, t.quantity);
    }

    lemma WalkOver(opposite: map<Key, PriceLevel>, t: Ticket, es0: seq<Entry>, ledger0: Ledger,
                   prices: seq<Key>, i: nat, made: seq<Fill>, remaining: real, emptied: seq<Key>)
      requires Underway(opposite, t, es0, ledger0, prices, i, made, remaining, emptied)
      requires i >= |prices| || remaining <= 0.0 || !Crosses(t, prices[i].price)
      ensures BookOk(opposite, t.side.Opposite(), accepted)
      ensures var w := Consume(t, t.quantity, es0); var ladder := LadderOf(opposite, t.side.Opposite(), accepted);
        && Walk(made, Flatten(t.side, ladder), remaining) == w
        && Known(ledger0, w.fills) && LedgerView() == RecordFills(ledger0, w.fills)
        && forall p :: p in emptied <==> p in opposite && ladder[p] == []
    {
      hide RecordFills, Consume, Positive, BookOk, LedgerView, Progress, Known, Crosses, LadderOf, Listed, AtPrice;
      var ladder := LadderOf(opposite, t.side.Opposite(), accepted);
      VisitDone(t, t.quantity, es0, ledger0, made, remaining, ladder, prices, i, emptied, LedgerView());
    }

    // ---------------------------------------------------------------- submitting

    function FacingBook(side: Side): map<Key, PriceLevel>
      reads this`bids, this`asks
    {
      if side.Buy? then asks else bids
    }

    /** Accepts an order into the engine, before anything is matched. */
    method Enter(order: Order)
      requires Sound() && order.ticket.id !in accepted && order.filled == 0.0 && order.averagePrice == 0.0
      modifies this`stats, this`accepted, order
      ensures accepted == old(accepted)[order.ticket.id := order]
      ensures order.status == Open && order.averagePrice == 0.0
      ensures Sound() && NoEmptyLevels() == old(NoEmptyLevels())
      ensures View() == old(View()).(ledger := Entered(old(View()).ledger, order.ticket))
    {
      hide Sound, View, Held, Flatten, NoEmptyLevels, LedgerView, OwnIds, LookupSound;
      ghost var bidLadder, askLadder := Opened();
      NotAccepted(order);
      Stamp(order);
      AcceptedGrows(bids, Buy, old(accepted), accepted, bidLadder, order);
      AcceptedGrows(asks, Sell, old(accepted), accepted, askLadder, order);
      Closed(bidLadder, askLadder);
    }

    /** The order's entry in the accounts. */
    method Stamp(order: Order)
      requires OwnIds() && LookupSound() && order.ticket.id !in accepted && order !in accepted.Values && order.filled == 0.0
      requires order.averagePrice == 0.0
      modifies this`stats, this`accepted, order
      ensures accepted == old(accepted)[order.ticket.id := order] && OwnIds() && LookupSound()
      ensures order.status == Open && order.averagePrice == 0.0
      ensures LedgerView() == Entered(old(LedgerView()), order.ticket)
    {
      stats := stats.(received := stats.received + 1);
      order.status := Open;
      accepted := accepted[order.ticket.id := order];
      assert LedgerView().orders == old(LedgerView().orders)[order.ticket.id := order.AsRecord()];
    }

    /** The walk, with the own side set apart: none of its orders are touched. */
    method MatchFacing(facing: map<Key, PriceLevel>, taker: Order, ghost own: map<Key, PriceLevel>, ghost ladder: Levels)
      returns (made: seq<Fill>, remaining: real, emptied: seq<Key>)
      requires OwnIds() && BookOk(facing, taker.ticket.side.Opposite(), accepted)
      requires forall p :: p in facing ==>
        var es := LadderOf(facing, taker.ticket.side.Opposite(), accepted)[p]; es != [] && Positive(es)
      requires facing.Values !! own.Values && Held(own, taker.ticket.side, accepted, ladder)
      requires var es := Flatten(taker.ticket.side, LadderOf(facing, taker.ticket.side.Opposite(), accepted));
        Positive(es) && forall k :: 0 <= k < |es| ==> es[k].id in accepted && accepted[es[k].id].ticket.side != taker.ticket.side
      modifies this`fills, this`stats, facing.Values, accepted.Values
      ensures BookOk(facing, taker.ticket.side.Opposite(), accepted)
      ensures var t := taker.ticket; var opp := t.side.Opposite();
        && var es := old(Flatten(t.side, LadderOf(facing, opp, accepted)));
        && var w := Consume(t, t.quantity, es);
        && Walk(made, Flatten(t.side, LadderOf(facing, opp, accepted)), remaining) == w
        && old(Known(LedgerView(), w.fills)) && LedgerView() == old(RecordFills(LedgerView(), w.fills))
      ensures forall p :: p in emptied <==>
        p in facing && LadderOf(facing, taker.ticket.side.Opposite(), accepted)[p] == []
      ensures Held(own, taker.ticket.side, accepted, ladder)
    {
      hide BookOk, LadderOf, Flatten, LedgerView, Consume, RecordFills, Known, Positive, Held, OnRecord;
      ghost var t, ledger0 := taker.ticket, LedgerView();
      ghost var es := Flatten(t.side, LadderOf(facing, t.side.Opposite(), accepted));
      HeldOnRecord(own, t.side, ladder);
      made, remaining, emptied := MatchLevels(facing, taker);
      StillHeld(own, ladder, t, es, ledger0);
    }

    /** A book told from its levels and the records of its orders, without the orders. */
    ghost predicate OnRecord(own: map<Key, PriceLevel>, side: Side, ladder: Levels, ledger: Ledger)
      reads own.Values, this`accepted
    {
      && Separate(own) && ladder.Keys == own.Keys
      && forall q :: q in own ==>
           && Stands(own[q], q, side, accepted, ladder[q])
           && |own[q].orders| == |ladder[q]|
           && forall i :: 0 <= i < |ladder[q]| ==> InRecord(own[q].orders[i], q, side, ladder[q][i], ledger)
    }

    ghost predicate InRecord(o: Order, q: Key, side: Side, e: Entry, ledger: Ledger)
      reads this`accepted
    {
      && Belongs(o, q, side, accepted) && o.ticket.id in ledger.orders
      && e == Entry(o.ticket.id, o.ticket.price, o.ticket.quantity - ledger.orders[o.ticket.id].filled)
    }

    /** Before the walk the records say what the orders say. */
    lemma HeldOnRecord(own: map<Key, PriceLevel>, side: Side, ladder: Levels)
      requires Held(own, side, accepted, ladder)
      ensures OnRecord(own, side, ladder, LedgerView())
    {
      hide Stands, Separate;
    }

    /** The walk charges the other side only, so the records of this side, and with them its
        orders, are what they were. */
    lemma StillHeld(own: map<Key, PriceLevel>, ladder: Levels, t: Ticket, es: seq<Entry>, ledger0: Ledger)
      requires OnRecord(own, t.side, ladder, ledger0)
      requires Positive(es) && Known(ledger0, Consume(t, t.quantity, es).fills)
      requires LedgerView() == RecordFills(ledger0, Consume(t, t.quantity, es).fills)
      requires forall k :: 0 <= k < |es| ==> es[k].id in accepted && accepted[es[k].id].ticket.side != t.side
      ensures Held(own, t.side, accepted, ladder)
    {
      hide Stands, Separate, Consume, RecordFills, Known, Positive;
      forall q, i | q in own && 0 <= i < |ladder[q]| ensures own[q].orders[i].AsEntry() == ladder[q][i] {
        var o := own[q].orders[i];
        assert InRecord(o, q, t.side, ladder[q][i], ledger0);
        WalkSpares(ledger0, t, t.quantity, es, o.ticket.id);
        RecordOf(o);
      }
    }

    /** The walk itself: the facing levels, its makers and the ledger change, the own side
        does not. */
    method WalkBook(taker: Order) returns (made: seq<Fill>, remaining: real, emptied: seq<Key>)
      requires Sound() && NoEmptyLevels() && KnownQueues(View())
      modifies this`fills, this`stats, FacingBook(taker.ticket.side).Values, accepted.Values
      ensures Sound() && (if taker.ticket.side.Buy? then Full(bids) else Full(asks))
      ensures var t := taker.ticket; var s := old(View()); var w := Consume(t, t.quantity, Facing(s, t.side));
        && made == w.fills && remaining == w.left && Known(s.ledger, w.fills)
        && View() == State(if t.side.Buy? then s.bids else w.rest, if t.side.Buy? then w.rest else s.asks,
                           s.live, RecordFills(s.ledger, w.fills))
      ensures var opp := taker.ticket.side.Opposite();
        forall p :: p in emptied <==>
          p in FacingBook(taker.ticket.side) && LadderOf(FacingBook(taker.ticket.side), opp, accepted)[p] == []
    {
      hide Sound, View, BookOk, LadderOf, Flatten, LedgerView, Consume, RecordFills, Held, Known, Positive, LookupSound, OwnIds, Full;
      var side := taker.ticket.side;
      var facing := FacingBook(side);
      ghost var own, opp := FacingBook(side.Opposite()), side.Opposite();
      ghost var bidLadder, askLadder := Opened();
      ghost var ladder, ownLadder := if side.Buy? then askLadder else bidLadder, if side.Buy? then bidLadder else askLadder;
      FacingLevels(side);
      HeldOk(facing, opp, accepted, ladder);
      made, remaining, emptied := MatchFacing(facing, taker, own, ownLadder);
      OkHeld(facing, opp, accepted);
      ClosedFacing(side, LadderOf(facing, opp, accepted), ownLadder);
    }

    /** The same, told from one side. */
    lemma ClosedFacing(side: Side, ladder: Levels, ownLadder: Levels)
      requires Held(FacingBook(side), side.Opposite(), accepted, ladder)
      requires Held(FacingBook(side.Opposite()), side, accepted, ownLadder)
      requires OwnIds() && LookupSound() && bids.Values !! asks.Values
      ensures Sound()
      ensures var q, own := Flatten(side, ladder), Flatten(side.Opposite(), ownLadder);
        View() == State(if side.Buy? then own else q, if side.Buy? then q else own, orders.Keys, LedgerView())
    {
      hide Sound, View, Held, LookupSound, OwnIds, LedgerView, Flatten;
      if side.Buy? { Closed(ownLadder, ladder); } else { Closed(ladder, ownLadder); }
    }

    lemma RecordOf(o: Order)
      requires o.ticket.id in accepted && accepted[o.ticket.id] == o
      ensures LedgerView().orders[o.ticket.id] == o.AsRecord()
      ensures Sound() ==> View().ledger == LedgerView()
    {}

    /** The facing levels are full, and every order in them is of the other side. */
    lemma FacingLevels(side: Side)
      requires Sound() && NoEmptyLevels() && KnownQueues(View())
      ensures var book, opp := FacingBook(side), side.Opposite(); var es := Facing(View(), side);
        && (forall p :: p in book ==> LadderOf(book, opp, accepted)[p] != [] && Positive(LadderOf(book, opp, accepted)[p]))
        && Positive(es) && (forall k :: 0 <= k < |es| ==> es[k].id in accepted && accepted[es[k].id].ticket.side == opp)
    {
      hide Flatten;
      var book, opp := FacingBook(side), side.Opposite();
      BookEntries(book, opp, accepted);
    }

    /** Deletes the levels a walk emptied. */
    method DeleteLevels(side: Side, emptied: seq<Key>)
      requires Sound()
      requires forall p :: p in emptied <==>
        p in FacingBook(side) && LadderOf(FacingBook(side), side.Opposite(), accepted)[p] == []
      requires side.Buy? ==> Full(bids)
      requires side.Sell? ==> Full(asks)
      modifies this`bids, this`asks
      ensures Sound() && NoEmptyLevels() && View() == old(View())
      ensures bids.Values <= old(bids.Values) && asks.Values <= old(asks.Values)
    {
      hide Sound, View, BookOk, LadderOf, Flatten, Held, LedgerView, LookupSound, OwnIds, Full;
      ghost var bidLadder, askLadder := Opened();
      var gone := set p | p in emptied;
      if side.Buy? {
        HeldKept(asks, Sell, accepted, askLadder, gone);
        asks := asks - gone;
        Closed(bidLadder, askLadder - gone);
      } else {
        HeldKept(bids, Buy, accepted, bidLadder, gone);
        bids := bids - gone;
        Closed(bidLadder - gone, askLadder);
      }
    }

    /** Adds up what an order's fills come to. */
    static method Totals(made: seq<Fill>) returns (filled: real, cost: real)
      ensures filled == Quantity(made) && cost == Cost(made)
    {
      filled, cost := 0.0, 0.0;
      for i := 0 to |made|
        invariant filled == Quantity(made[..i]) && cost == Cost(made[..i])
      {
        filled := filled + made[i].quantity;
        cost := cost + Pay(made[i].quantity, made[i].price);
        TotalsNext(made[..i], made[i]);
        assert made[..i] + [made[i]] == made[..i+1];
      }
      assert made[..|made|] == made;
    }

    /** Writes an order's own figures once its walk is over. */
    method SetFigures(taker: Order, status: Status, filled: real, averagePrice: real)
      requires Sound() && taker.ticket.id in accepted && accepted[taker.ticket.id] == taker
      requires !Rests(taker.ticket.id, View().bids) && !Rests(taker.ticket.id, View().asks)
      modifies taker
      ensures Sound() && NoEmptyLevels() == old(NoEmptyLevels())
      ensures taker.AsRecord() == Record(taker.ticket, status, filled, averagePrice)
      ensures View() == old(View()).(ledger := old(View()).ledger.(orders :=
        old(View()).ledger.orders[taker.ticket.id := Record(taker.ticket, status, filled, averagePrice)]))
    {
      hide Sound, View, Flatten, Held, Rests, NoEmptyLevels, LedgerView, OwnIds, LookupSound;
      ghost var bidLadder, askLadder := Opened();
      NotQueued(taker);
      Write(taker, status, filled, averagePrice, bidLadder, askLadder);
      Closed(bidLadder, askLadder);
    }

    /** Writes the figures of an order no level holds: both sides stand for what they did. */
    method Write(order: Order, status: Status, filled: real, averagePrice: real, ghost bidLadder: Levels, ghost askLadder: Levels)
      requires OwnIds() && order.ticket.id in accepted && accepted[order.ticket.id] == order
      requires Held(bids, Buy, accepted, bidLadder) && Held(asks, Sell, accepted, askLadder)
      requires forall p, i :: p in bids && 0 <= i < |bids[p].orders| ==> bids[p].orders[i] != order
      requires forall p, i :: p in asks && 0 <= i < |asks[p].orders| ==> asks[p].orders[i] != order
      modifies order
      ensures order.AsRecord() == Record(order.ticket, status, filled, averagePrice)
      ensures Held(bids, Buy, accepted, bidLadder) && Held(asks, Sell, accepted, askLadder)
      ensures LedgerView() == old(LedgerView()).(orders := old(LedgerView()).orders[order.ticket.id := order.AsRecord()])
    {
      hide Stands, Belongs, Separate, LedgerView, OwnIds;
      WriteRecord(order, status, filled, averagePrice);
    }

    method WriteRecord(order: Order, status: Status, filled: real, averagePrice: real)
      requires OwnIds() && order.ticket.id in accepted && accepted[order.ticket.id] == order
      modifies order
      ensures order.AsRecord() == Record(order.ticket, status, filled, averagePrice)
      ensures LedgerView() == old(LedgerView()).(orders := old(LedgerView()).orders[order.ticket.id := order.AsRecord()])
    {
      order.status, order.filled, order.averagePrice := status, filled, averagePrice;
      assert LedgerView().orders == old(LedgerView().orders)[order.ticket.id := order.AsRecord()];
    }

    lemma NotQueued(order: Order)
      requires Sound() && !Rests(order.ticket.id, View().bids) && !Rests(order.ticket.id, View().asks)
      ensures forall p, i :: p in bids && 0 <= i < |bids[p].orders| ==> bids[p].orders[i] != order
      ensures forall p, i :: p in asks && 0 <= i < |asks[p].orders| ==> asks[p].orders[i] != order
    {
      hide BookOk, LadderOf, Flatten, Rests;
      NotInBook(bids, Buy, accepted, order);
      NotInBook(asks, Sell, accepted, order);
    }

    /** Makes sure a book has a level at a price. */
    method OpenLevel(book: map<Key, PriceLevel>, ghost side: Side, price: real) returns (book': map<Key, PriceLevel>)
      requires BookOk(book, side, accepted)
      ensures BookOk(book', side, accepted)
      ensures fresh(book'.Values - book.Values)
      ensures Key(price) in book' && book'.Keys == book.Keys + {Key(price)}
      ensures forall p :: p in book ==> book'[p] == book[p]
      ensures Key(price) !in book ==> book'[Key(price)].orders == []
      ensures LadderOf(book', side, accepted) == var ladder := LadderOf(book, side, accepted);
        ladder[Key(price) := Queued(ladder, Key(price))]
    {
      hide BookOk, LadderOf;
      var p := Key(price);
      if p in book {
        SameLadder(LadderOf(book, side, accepted), p);
        return book;
      }
      var level := new PriceLevel(price);
      LevelAdded(book, p, level, side, accepted);
      book' := book[p := level];
    }

    /** Puts an order at the end of its level. */
    method Enqueue(book: map<Key, PriceLevel>, ghost side: Side, order: Order)
      requires BookOk(book, side, accepted) && Key(order.ticket.price) in book
      requires Belongs(order, Key(order.ticket.price), side, accepted)
      requires forall i :: 0 <= i < |book[Key(order.ticket.price)].orders| ==> book[Key(order.ticket.price)].orders[i] != order
      modifies book[Key(order.ticket.price)]
      ensures BookOk(book, side, accepted) && book[Key(order.ticket.price)].orders != []
      ensures LadderOf(book, side, accepted) == var ladder, p := old(LadderOf(book, side, accepted)), Key(order.ticket.price);
        ladder[p := ladder[p] + [order.AsEntry()]]
    {
      hide BookOk, LadderOf, Entries;
      var p := Key(order.ticket.price);
      ghost var ladder := LadderOf(book, side, accepted);
      LadderSays(book, side, accepted, ladder);
      LineUp(book[p].orders, order, p, side, accepted);
      EntriesAppend(book[p].orders, order);
      DepthAppend(ladder[p], order.AsEntry());
      book[p].AddOrder(order);
      LadderStands(book, p, side, accepted, ladder);
    }

    /** Puts an order at the end of its level, creating the level if there is none. */
    method Append(book: map<Key, PriceLevel>, ghost side: Side, order: Order) returns (book': map<Key, PriceLevel>)
      requires BookOk(book, side, accepted)
      requires Belongs(order, Key(order.ticket.price), side, accepted)
      requires forall p, i :: p in book && 0 <= i < |book[p].orders| ==> book[p].orders[i] != order
      modifies book.Values
      ensures BookOk(book', side, accepted)
      ensures fresh(book'.Values - book.Values)
      ensures LadderOf(book', side, accepted) == var ladder, p := old(LadderOf(book, side, accepted)), Key(order.ticket.price);
        ladder[p := Queued(ladder, p) + [order.AsEntry()]]
    {
      hide BookOk, LadderOf, Belongs;
      book' := OpenLevel(book, side, order.ticket.price);
      Enqueue(book', side, order);
    }

    /** Appends to one side of the book; the other side stays as it is. */
    method AppendBeside(book: map<Key, PriceLevel>, side: Side, order: Order, ghost ladder: Levels,
                        ghost other: map<Key, PriceLevel>, ghost otherLadder: Levels)
      returns (book': map<Key, PriceLevel>, ghost ladder': Levels)
      requires Held(book, side, accepted, ladder) && Held(other, side.Opposite(), accepted, otherLadder)
      requires book.Values !! other.Values
      requires Belongs(order, Key(order.ticket.price), side, accepted)
      requires !Rests(order.ticket.id, Flatten(side.Opposite(), ladder))
      modifies book.Values
      ensures Held(book', side, accepted, ladder') && Held(other, side.Opposite(), accepted, otherLadder)
      ensures book'.Values !! other.Values
      ensures Flatten(side.Opposite(), ladder') == Insert(side.Opposite(), Flatten(side.Opposite(), ladder), order.AsEntry())
      ensures old(Full(book)) ==> Full(book')
      ensures Full(other) == old(Full(other))
    {
      hide BookOk, LadderOf, Flatten, Held, Full, Rests, Insert, AtPrice, Belongs;
      HeldOk(book, side, accepted, ladder);
      NotInBook(book, side, accepted, order);
      LadderAtPrice(book, side, accepted);
      FullLadder(book, side, accepted);
      book' := Append(book, side, order);
      FullLadder(book', side, accepted);
      AddIsInsert(side.Opposite(), ladder, order.AsEntry());
      OkHeld(book', side, accepted);
      ladder' := LadderOf(book', side, accepted);
    }

    method AddBid(order: Order)
      requires Sound() && NoEmptyLevels() && Belongs(order, Key(order.ticket.price), Buy, accepted)
      requires !Rests(order.ticket.id, View().bids)
      modifies this`bids, bids.Values
      ensures Sound() && NoEmptyLevels()
      ensures View() == old(View()).(bids := Insert(Sell, old(View()).bids, order.AsEntry()))
    {
      hide Sound, View, Full, Flatten, Held, Rests, Insert, LedgerView, LookupSound, OwnIds, Belongs;
      ghost var bidLadder, askLadder := Opened();
      ghost var ladder;
      bids, ladder := AppendBeside(bids, Buy, order, bidLadder, asks, askLadder);
      Closed(ladder, askLadder);
    }

    method AddAsk(order: Order)
      requires Sound() && NoEmptyLevels() && Belongs(order, Key(order.ticket.price), Sell, accepted)
      requires !Rests(order.ticket.id, View().asks)
      modifies this`asks, asks.Values
      ensures Sound() && NoEmptyLevels()
      ensures View() == old(View()).(asks := Insert(Buy, old(View()).asks, order.AsEntry()))
    {
      hide Sound, View, Full, Flatten, Held, Rests, Insert, LedgerView, LookupSound, OwnIds, Belongs;
      ghost var bidLadder, askLadder := Opened();
      ghost var ladder;
      asks, ladder := AppendBeside(asks, Sell, order, askLadder, bids, bidLadder);
      Closed(bidLadder, ladder);
    }

    /** Rests an order in the book and in the id lookup. */
    method AddToBook(order: Order)
      requires Sound() && NoEmptyLevels()
      requires order.ticket.id in accepted && accepted[order.ticket.id] == order
      requires !Rests(order.ticket.id, View().bids) && !Rests(order.ticket.id, View().asks)
      modifies this`bids, this`asks, this`orders, FacingBook(order.ticket.side.Opposite()).Values
      ensures Sound() && NoEmptyLevels()
      ensures FacingBook(order.ticket.side) == old(FacingBook(order.ticket.side))
      ensures var s := old(View());
        View() == State(if order.ticket.side.Buy? then Insert(Sell, s.bids, order.AsEntry()) else s.bids,
                        if order.ticket.side.Sell? then Insert(Buy, s.asks, order.AsEntry()) else s.asks,
                        s.live + {order.ticket.id}, s.ledger)
    {
      hide Sound, View, Rests, Insert, NoEmptyLevels, Belongs;
      OwnPrice(order);
      if order.ticket.side.Buy? {
        AddBid(order);
      } else {
        AddAsk(order);
      }
      Remember(order);
    }

    /** Enters an order in the lookup. */
    method Remember(order: Order)
      requires Sound() && order.ticket.id in accepted && accepted[order.ticket.id] == order
      modifies this`orders
      ensures Sound() && NoEmptyLevels() == old(NoEmptyLevels())
      ensures View() == old(View()).(live := old(View()).live + {order.ticket.id})
    {
      hide BooksSound, BidQueue, AskQueue, LedgerView;
      orders := orders[order.ticket.id := order];
    }

    /** The walk, and the deletion of the levels it empties. The order's own figures are
        not written yet. */
    method WalkAndSweep(taker: Order) returns (made: seq<Fill>, remaining: real)
      requires Sound() && NoEmptyLevels() && KnownQueues(View())
      requires taker.ticket.id in accepted && accepted[taker.ticket.id] == taker
      requires !Rests(taker.ticket.id, View().bids) && !Rests(taker.ticket.id, View().asks)
      modifies this`fills, this`stats, this`bids, this`asks, bids.Values, asks.Values, accepted.Values
      ensures Sound() && NoEmptyLevels() && bids.Values <= old(bids.Values) && asks.Values <= old(asks.Values)
      ensures var t := taker.ticket; var s := old(View()); var w := Consume(t, t.quantity, Facing(s, t.side));
        && made == w.fills && remaining == w.left && Known(s.ledger, w.fills)
        && View() == WalkedTo(s, t, w, RecordFills(s.ledger, w.fills))
      ensures taker.AsRecord() == old(taker.AsRecord())
      ensures !Rests(taker.ticket.id, View().bids) && !Rests(taker.ticket.id, View().asks)
    {
      hide Sound, View, LedgerView, NoEmptyLevels, Consume, RecordFills, Known, LadderOf, Full;
      ghost var s, t := View(), taker.ticket;
      var emptied;
      RecordOf(taker);
      made, remaining, emptied := WalkBook(taker);
      WalkSpares(s.ledger, t, t.quantity, Facing(s, t.side), t.id);
      RecordOf(taker);
      DeleteLevels(taker.ticket.side, emptied);
      StillNotThere(t, t.quantity, Facing(s, t.side));
    }

    /** Matches an accepted order against the facing book and writes its figures. */
    method MatchOrder(taker: Order) returns (made: seq<Fill>, totalFilled: real, remaining: real)
      requires Sound() && NoEmptyLevels() && KnownQueues(View())
      requires taker.ticket.id in accepted && accepted[taker.ticket.id] == taker
      requires taker.status == Open && taker.averagePrice == 0.0
      requires !Rests(taker.ticket.id, View().bids) && !Rests(taker.ticket.id, View().asks)
      modifies this`fills, this`stats, this`bids, this`asks, bids.Values, asks.Values, accepted.Values
      ensures Sound() && NoEmptyLevels() && bids.Values <= old(bids.Values) && asks.Values <= old(asks.Values)
      ensures var t := taker.ticket; var s := old(View()); var w := Consume(t, t.quantity, Facing(s, t.side));
        && made == w.fills && totalFilled == Quantity(w.fills) && remaining == w.left
        && Known(s.ledger, w.fills)
        && taker.AsRecord() == Record(t, StatusAfterMatch(w), Quantity(w.fills), Average(w.fills))
        && View() == WalkedTo(s, t, w, TakerMatched(RecordFills(s.ledger, w.fills), t, w))
        && !Rests(t.id, View().bids) && !Rests(t.id, View().asks)
    {
      hide Sound, View, LedgerView, NoEmptyLevels, Consume, RecordFills, Quantity, Cost, Known, Rests;
      made, remaining := WalkAndSweep(taker);
      var cost;
      totalFilled, cost := Totals(made);
      var status := if remaining == 0.0 && totalFilled > 0.0 then Filled
                    else if totalFilled > 0.0 then PartiallyFilled else taker.status;
      SetFigures(taker, status, totalFilled, if totalFilled > 0.0 then cost / totalFilled else taker.averagePrice);
    }

    /** What the order type makes of an order once its walk is over. */
    method Settle(order: Order, totalFilled: real, remaining: real, ghost s: State, ghost w: Walk, ghost ledger: Ledger)
      requires Sound() && NoEmptyLevels() && !Rests(order.ticket.id, View().bids) && !Rests(order.ticket.id, View().asks)
      requires order.ticket.id in accepted && accepted[order.ticket.id] == order
      requires order.AsRecord() == Record(order.ticket, StatusAfterMatch(w), totalFilled, Average(w.fills))
      requires totalFilled == Quantity(w.fills) && remaining == w.left == order.ticket.quantity - totalFilled
      requires View() == WalkedTo(s, order.ticket, w, TakerMatched(ledger, order.ticket, w))
      modifies this`stats, this`bids, this`asks, this`orders, order, bids.Values, asks.Values
      ensures Sound() && NoEmptyLevels()
      ensures order.status == FinalStatus(order.ticket, w)
      ensures View() == SettledTo(s, order.ticket, w, ledger)
    {
      hide Sound, View, Rests, NoEmptyLevels, Quantity, Average, Insert;
      if remaining > 0.0 {
        match order.ticket.kind {
          case Market => SetStatus(order, if totalFilled > 0.0 then Filled else Cancelled);
          case ImmediateOrCancel => SetStatus(order, if totalFilled > 0.0 then Filled else Cancelled);
          case FillOrKill =>
            if totalFilled > 0.0 {
              SetStatus(order, Cancelled);
            }
          case Limit => AddToBook(order);
        }
      } else {
        SetStatus(order, Filled);
        CountCompleted();
      }
    }

    method SetStatus(order: Order, status: Status)
      requires Sound() && order.ticket.id in accepted && accepted[order.ticket.id] == order
      requires !Rests(order.ticket.id, View().bids) && !Rests(order.ticket.id, View().asks)
      modifies order
      ensures Sound() && NoEmptyLevels() == old(NoEmptyLevels()) && order.status == status
      ensures var r := old(order.AsRecord()).(status := status);
        View() == old(View()).(ledger := old(View()).ledger.(orders := old(View()).ledger.orders[order.ticket.id := r]))
    {
      SetFigures(order, status, order.filled, order.averagePrice);
    }

    method CountCompleted()
      requires Sound()
      modifies this`stats
      ensures Sound() && NoEmptyLevels() == old(NoEmptyLevels())
      ensures View() == old(View()).(ledger :=
        old(View()).ledger.(stats := old(View()).ledger.stats.(completed := old(View()).ledger.stats.completed + 1)))
    {
      hide BooksSound, BidQueue, AskQueue;
      stats := stats.(completed := stats.completed + 1);
    }

    /** The caller's report. A fill-or-kill order that got something but not all of it
        is reported as if it had got nothing. */
    method Report(order: Order, made: seq<Fill>, totalFilled: real, average: real, remaining: real, ghost w: Walk)
      returns (result: MatchResult)
      requires made == w.fills && totalFilled == Quantity(w.fills) && remaining == w.left && average == Average(w.fills)
      requires order.status == FinalStatus(order.ticket, w)
      ensures result == ResultOf(order.ticket, w) && result.status == order.status
    {
      hide Quantity, Average;
      if order.ticket.kind.FillOrKill? && totalFilled > 0.0 && remaining > 0.0 {
        result := MatchResult(order.status, [], 0.0, average, order.ticket.quantity);
      } else {
        result := MatchResult(order.status, made, totalFilled, average, remaining);
      }
    }

    /** Matches an accepted order and deals with what is left of it. */
    method Process(order: Order) returns (result: MatchResult)
      requires Sound() && NoEmptyLevels() && KnownQueues(View())
      requires order.ticket.id in accepted && accepted[order.ticket.id] == order
      requires order.status == Open && order.averagePrice == 0.0
      requires !Rests(order.ticket.id, View().bids) && !Rests(order.ticket.id, View().asks)
      modifies this`fills, this`stats, this`bids, this`asks, this`orders, bids.Values, asks.Values, accepted.Values
      ensures Sound() && NoEmptyLevels()
      ensures var s, t := old(View()), order.ticket; var w := WalkOf(s, t);
        && Known(s.ledger, w.fills)
        && View() == SettledTo(s, t, w, RecordFills(s.ledger, w.fills))
        && result == ResultOf(t, w)
      ensures order.status == result.status
    {
      hide Rests, Sound, View, LedgerView, NoEmptyLevels, FinalStatus, StatusAfterMatch,
           Consume, RecordFills, Quantity, Average, TakerMatched, WalkedTo, SettledTo, KnownQueues, Known, ResultOf;
      ghost var s, t := View(), order.ticket;
      ghost var w := WalkOf(s, t);
      WalkAddsUp(s, t);
      var made, totalFilled, remaining := MatchOrder(order);
      var average := order.averagePrice;
      Settle(order, totalFilled, remaining, s, w, RecordFills(s.ledger, w.fills));
      result := Report(order, made, totalFilled, average, remaining, w);
    }

    /** The submission of an order that passed validation. */
    method Accept(order: Order) returns (result: MatchResult)
      requires Sound() && NoEmptyLevels() && KnownQueues(View()) && Acceptable(order.ticket)
      requires order.ticket.id !in accepted && order.filled == 0.0 && order.averagePrice == 0.0
      requires !Rests(order.ticket.id, View().bids) && !Rests(order.ticket.id, View().asks)
      modifies this, order, bids.Values, asks.Values, accepted.Values
      ensures Sound() && NoEmptyLevels()
      ensures (View(), result) == Submit(old(View()), order.ticket)
      ensures order.status == result.status
      ensures accepted == old(accepted)[order.ticket.id := order]
    {
      hide Rests, Acceptable, Sound, View, LedgerView, NoEmptyLevels, Submit, WalkOf,
           RecordFills, ResultOf, SettledTo, KnownQueues, Known;
      SubmitAccepts(View(), order.ticket);
      Enter(order);
      result := Process(order);
    }

    lemma NotAccepted(order: Order)
      requires Sound() && order.ticket.id !in accepted
      ensures order !in accepted.Values && View().ledger.orders.Keys == accepted.Keys
    {}

    /** Submits an order: exactly the step OrderBook.Submit, for orders of every type,
        rejected ones included. */
    method SubmitOrder(order: Order) returns (result: MatchResult)
      requires Valid() && order.ticket.id !in accepted && order.filled == 0.0 && order.averagePrice == 0.0
      modifies this, order, bids.Values, asks.Values, accepted.Values
      ensures Valid()
      ensures old(KnownQueues(View())) && (View(), result) == Submit(old(View()), order.ticket)
      ensures order.status == result.status
      ensures accepted == if Acceptable(order.ticket) then old(accepted)[order.ticket.id := order] else old(accepted)
    {
      hide Sound, View, NoEmptyLevels, LedgerView, Inv, KnownQueues, Submit, Rests, Acceptable;
      ghost var s, t := View(), order.ticket;
      NotAccepted(order);
      SubmitKeepsInv(s, t);
      FreshNowhere(s, t.id);
      SubmitRejects(s, t);
      if !Acceptable(order.ticket) {
        order.status := Rejected;
        return MatchResult(Rejected, [], 0.0, 0.0, order.ticket.quantity);
      }
      result := Accept(order);
    }

    // ---------------------------------------------------------------- cancelling

    /** Takes a resting order out of its level, which may be left empty. */
    method LeaveLevel(book: map<Key, PriceLevel>, ghost side: Side, order: Order)
      requires BookOk(book, side, accepted) && Belongs(order, Key(order.ticket.price), side, accepted)
      requires Key(order.ticket.price) in book && order in book[Key(order.ticket.price)].orders
      modifies book.Values
      ensures BookOk(book, side, accepted)
      ensures var p := Key(order.ticket.price); var ladder := old(LadderOf(book, side, accepted));
        LadderOf(book, side, accepted) == ladder[p := Remove(ladder[p], order.ticket.id)]
      ensures forall q :: q in book && q != Key(order.ticket.price) ==> book[q].orders == old(book[q].orders)
    {
      hide BookOk, LadderOf, Entries, Remove, Depth, Stands;
      var p := Key(order.ticket.price);
      ghost var ladder := LadderOf(book, side, accepted);
      LadderSays(book, side, accepted, ladder);
      var level := book[p];
      ghost var queue := level.orders;
      LinedUp(level, p, side, accepted);
      var removed := level.RemoveOrder(order.ticket.id);
      LevelLoses(ladder[p], queue, level.orders, order, p, side, accepted);
      assert Entries(level.orders) == Remove(ladder[p], order.ticket.id);
      LadderStands(book, p, side, accepted, ladder);
    }

    /** Takes an order out of its level, and the level out of the book if that empties it. */
    method Detach(book: map<Key, PriceLevel>, ghost side: Side, order: Order) returns (book': map<Key, PriceLevel>)
      requires BookOk(book, side, accepted) && Full(book)
      requires Belongs(order, Key(order.ticket.price), side, accepted)
      requires Rests(order.ticket.id, Flatten(side.Opposite(), LadderOf(book, side, accepted)))
      modifies book.Values
      ensures book'.Values <= book.Values
      ensures BookOk(book', side, accepted) && Full(book')
      ensures Flatten(side.Opposite(), LadderOf(book', side, accepted))
           == old(Remove(Flatten(side.Opposite(), LadderOf(book, side, accepted)), order.ticket.id))
    {
      hide BookOk, LadderOf, Rests, Flatten, Remove;
      book' := book;
      var p := Key(order.ticket.price);
      ghost var ladder := LadderOf(book, side, accepted);
      RestsAtItsPrice(book, side, accepted, order);
      RemoveAtPrice(side.Opposite(), ladder, p, order.ticket.id);
      if p in book {
        LeaveLevel(book, side, order);
        EmptyIff(book, side, accepted, p);
        if book[p].orders == [] {
          BookMinus(book, side, accepted, {p});
          book' := book - {p};
        }
      }
    }

    /** Detaches from one side of the book; the other side stays as it is. */
    method DetachBeside(book: map<Key, PriceLevel>, side: Side, order: Order, ghost ladder: Levels,
                        ghost other: map<Key, PriceLevel>, ghost otherLadder: Levels)
      returns (book': map<Key, PriceLevel>, ghost ladder': Levels)
      requires Held(book, side, accepted, ladder) && Held(other, side.Opposite(), accepted, otherLadder)
      requires book.Values !! other.Values && Full(book)
      requires Belongs(order, Key(order.ticket.price), side, accepted)
      requires Rests(order.ticket.id, Flatten(side.Opposite(), ladder))
      modifies book.Values
      ensures Held(book', side, accepted, ladder') && Held(other, side.Opposite(), accepted, otherLadder)
      ensures book'.Values <= book.Values && Full(book')
      ensures Flatten(side.Opposite(), ladder') == Remove(Flatten(side.Opposite(), ladder), order.ticket.id)
      ensures Full(other) == old(Full(other))
    {
      hide BookOk, LadderOf, Flatten, Held, Full, Rests, Remove, Belongs;
      HeldOk(book, side, accepted, ladder);
      book' := Detach(book, side, order);
      OkHeld(book', side, accepted);
      ladder' := LadderOf(book', side, accepted);
    }

    method RemoveBid(order: Order)
      requires Sound() && NoEmptyLevels() && Belongs(order, Key(order.ticket.price), Buy, accepted)
      requires Rests(order.ticket.id, View().bids)
      modifies this`bids, bids.Values
      ensures bids.Values <= old(bids.Values)
      ensures Sound() && NoEmptyLevels()
      ensures View() == old(View()).(bids := Remove(old(View()).bids, order.ticket.id))
    {
      hide Sound, View, Full, Flatten, Held, Rests, Remove, LedgerView, LookupSound, OwnIds, Belongs;
      ghost var bidLadder, askLadder := Opened();
      ghost var ladder;
      bids, ladder := DetachBeside(bids, Buy, order, bidLadder, asks, askLadder);
      Closed(ladder, askLadder);
    }

    method RemoveAsk(order: Order)
      requires Sound() && NoEmptyLevels() && Belongs(order, Key(order.ticket.price), Sell, accepted)
      requires Rests(order.ticket.id, View().asks)
      modifies this`asks, asks.Values
      ensures asks.Values <= old(asks.Values)
      ensures Sound() && NoEmptyLevels()
      ensures View() == old(View()).(asks := Remove(old(View()).asks, order.ticket.id))
    {
      hide Sound, View, Full, Flatten, Held, Rests, Remove, LedgerView, LookupSound, OwnIds, Belongs;
      ghost var bidLadder, askLadder := Opened();
      ghost var ladder;
      asks, ladder := DetachBeside(asks, Sell, order, askLadder, bids, bidLadder);
      Closed(bidLadder, ladder);
    }

    /** Takes a resting order out of the book and the id lookup. */
    method RemoveFromBook(order: Order)
      requires Sound() && NoEmptyLevels()
      requires order.ticket.id in accepted && accepted[order.ticket.id] == order
      requires Rests(order.ticket.id, if order.ticket.side.Buy? then View().bids else View().asks)
      modifies this`bids, this`asks, this`orders, bids.Values, asks.Values
      ensures Sound() && NoEmptyLevels()
      ensures bids.Values <= old(bids.Values) && asks.Values <= old(asks.Values)
      ensures var s, id := old(View()), order.ticket.id;
        View() == State(if order.ticket.side.Buy? then Remove(s.bids, id) else s.bids,
                        if order.ticket.side.Sell? then Remove(s.asks, id) else s.asks,
                        s.live - {id}, s.ledger)
    {
      hide Sound, View, Rests, Remove, NoEmptyLevels, Belongs;
      LookupIs();
      OwnPrice(order);
      if order.ticket.side.Buy? {
        RemoveBid(order);
      } else {
        RemoveAsk(order);
      }
      if order.ticket.id in orders {
        Forget(order.ticket.id);
      }
    }

    lemma LookupIs()
      requires Sound()
      ensures View().live == orders.Keys && View().ledger == LedgerView()
    {}

    lemma OwnPrice(order: Order)
      requires order.ticket.id in accepted && accepted[order.ticket.id] == order
      ensures Belongs(order, Key(order.ticket.price), order.ticket.side, accepted)
    {}

    /** Takes an id out of the lookup. */
    method Forget(id: OrderId)
      requires Sound()
      modifies this`orders
      ensures Sound() && NoEmptyLevels() == old(NoEmptyLevels())
      ensures View() == old(View()).(live := old(View()).live - {id})
    {
      hide BooksSound, BidQueue, AskQueue, LedgerView;
      orders := orders - {id};
    }

    method CountCancelled()
      requires Sound()
      modifies this`stats
      ensures Sound() && NoEmptyLevels() == old(NoEmptyLevels())
      ensures View() == old(View()).(ledger :=
        old(View()).ledger.(stats := old(View()).ledger.stats.(cancelled := old(View()).ledger.stats.cancelled + 1)))
    {
      hide BooksSound, BidQueue, AskQueue;
      stats := stats.(cancelled := stats.cancelled + 1);
    }

    /** Cancels an order by id: exactly the step OrderBook.Cancel. */
    method CancelOrder(id: OrderId) returns (ok: bool)
      requires Valid()
      modifies this, bids.Values, asks.Values, accepted.Values
      ensures Valid() && accepted == old(accepted)
      ensures old(View().live <= View().ledger.orders.Keys) && (View(), ok) == Cancel(old(View()), id)
      ensures bids.Values <= old(bids.Values) && asks.Values <= old(asks.Values)
    {
      hide Sound, View, LedgerView, Rests, Remove, NoEmptyLevels, Inv, Complete;
      ghost var s := View();
      LookupIs();
      CancelKeepsInv(s, id);
      if id !in orders {
        return false;
      }
      var order := orders[id];
      InLookup(id);
      if Complete(order.status) {
        return false;
      }
      CancelRests(s, id);
      CancelResting(order);
      return true;
    }

    /** Takes a resting order out and writes it down as cancelled. */
    method CancelResting(order: Order)
      requires Sound() && NoEmptyLevels() && order.ticket.id in accepted && accepted[order.ticket.id] == order
      requires var s, id, buys := View(), order.ticket.id, order.ticket.side.Buy?;
        && Rests(id, if buys then s.bids else s.asks)
        && !Rests(id, if buys then Remove(s.bids, id) else s.bids)
        && !Rests(id, if buys then s.asks else Remove(s.asks, id))
      modifies this`bids, this`asks, this`orders, this`stats, order, bids.Values, asks.Values
      ensures Sound() && NoEmptyLevels()
      ensures bids.Values <= old(bids.Values) && asks.Values <= old(asks.Values)
      ensures var s, id, buys := old(View()), order.ticket.id, order.ticket.side.Buy?;
        var r, l := old(order.AsRecord()).(status := Cancelled), s.ledger;
        View() == State(if buys then Remove(s.bids, id) else s.bids, if buys then s.asks else Remove(s.asks, id), s.live - {id},
                        l.(orders := l.orders[id := r], stats := l.stats.(cancelled := l.stats.cancelled + 1)))
    {
      hide Sound, View, LedgerView, Rests, Remove, NoEmptyLevels;
      RemoveFromBook(order);
      SetStatus(order, Cancelled);
      CountCancelled();
    }

    lemma InLookup(id: OrderId)
      requires Sound() && id in orders
      ensures id in accepted && accepted[id] == orders[id] && orders[id].ticket.id == id
      ensures View().ledger.orders[id] == orders[id].AsRecord()
    {}

    // ---------------------------------------------------------------- reading

    /** Foretells a limit order level by level, from the cached depths alone. */
    method SimulateFill(side: Side, price: real, quantity: real) returns (result: Simulation)
      requires Valid()
      ensures result == Foretold(SimTicket(side, price, quantity), Facing(View(), side))
    {
      hide Inv, Sound, View, NoEmptyLevels, Foretold, ForetellingTo, LadderOk, BestFirst;
      ghost var t := SimTicket(side, price, quantity);
      var book := FacingBook(side);
      var prices := SortPrices(side, book.Keys);
      ghost var ladder := FacingLadder(side, prices);
      ghost var visited;
      var fills, totalFilled, totalCost, remaining;
      fills, totalFilled, totalCost, remaining, visited := SimulateInTurn(side, price, quantity, book, prices, ladder);
      ForetellingEnds(t, ladder, prices, visited, fills, totalFilled, totalCost, remaining);
      result := Simulation(fills, totalFilled, if totalFilled > 0.0 then totalCost / totalFilled else price, remaining);
    }

    /** The loop over the sorted prices. */
    static method SimulateInTurn(side: Side, price: real, quantity: real, book: map<Key, PriceLevel>, prices: seq<Key>, ghost ladder: Levels)
      returns (fills: seq<LevelFill>, totalFilled: real, totalCost: real, remaining: real, ghost visited: nat)
      requires LadderOk(side, ladder, prices) && ladder.Keys == book.Keys
      requires forall p :: p in ladder ==> book[p].totalQuantity == Depth(ladder[p])
      ensures visited <= |prices|
      ensures ForetellingTo(SimTicket(side, price, quantity), ladder, prices, visited, fills, totalFilled, totalCost, remaining)
      ensures visited == |prices| || remaining <= 0.0 || !Crosses(SimTicket(side, price, quantity), prices[visited].price)
    {
      hide ForetellingTo, LadderOk, Depth, Pay, Rank;
      ghost var t := SimTicket(side, price, quantity);
      fills, totalFilled, totalCost, remaining := [], 0.0, 0.0, quantity;
      ForetellingStarts(t, ladder, prices);
      var i := 0;
      while i < |prices| && remaining > 0.0 && Rank(side, prices[i].price) <= Rank(side, price)
        invariant 0 <= i <= |prices|
        invariant ForetellingTo(t, ladder, prices, i, fills, totalFilled, totalCost, remaining)
      {
        ForetellingGoesOn(t, ladder, prices, i, fills, totalFilled, totalCost, remaining);
        var available := book[prices[i]].totalQuantity;
        var filled := Min(remaining, available);
        if filled > 0.0 {
          fills := fills + [LevelFill(prices[i].price, filled)];
          remaining := remaining - filled;
          totalFilled := totalFilled + filled;
          totalCost := totalCost + Pay(filled, prices[i].price);
        }
        i := i + 1;
      }
      visited := i;
    }

    /** The facing levels and their cached depths. */
    lemma FacingLadder(side: Side, prices: seq<Key>) returns (ladder: Levels)
      requires Valid() && prices == BestFirst(side, FacingBook(side).Keys)
      ensures ladder.Keys == FacingBook(side).Keys && LadderOk(side, ladder, prices)
      ensures Facing(View(), side) == Flat(ladder, prices)
      ensures forall p :: p in ladder ==> FacingBook(side)[p].totalQuantity == Depth(ladder[p])
    {
      hide Inv, Sound, View, NoEmptyLevels, BookOk, LadderOf, LookupSound, OwnIds, Belongs, Depth;
      InvImpliesKnown(View());
      var book, opp := FacingBook(side), side.Opposite();
      var bidLadder, askLadder := Opened();
      ladder := if side.Buy? then askLadder else bidLadder;
      HeldOk(book, opp, accepted, ladder);
      LadderAtPrice(book, opp, accepted);
      FacingLevels(side);
    }

    method GetBestBid() returns (best: Option<real>)
      requires Valid()
      ensures best == FirstPrice(View().bids)
    {
      hide Inv, Sound, View, NoEmptyLevels;
      BestIsFirst(Buy);
      if bids == map[] {
        return None;
      }
      var p := Cheapest(Sell, bids.Keys);
      return Some(p.price);
    }

    method GetBestAsk() returns (best: Option<real>)
      requires Valid()
      ensures best == FirstPrice(View().asks)
    {
      hide Inv, Sound, View, NoEmptyLevels;
      BestIsFirst(Sell);
      if asks == map[] {
        return None;
      }
      var p := Cheapest(Buy, asks.Keys);
      return Some(p.price);
    }

    /** The queue of a side starts at the best price of its levels. */
    lemma BestIsFirst(side: Side)
      requires Valid()
      ensures var book := FacingBook(side.Opposite());
        FirstPrice(Facing(View(), side.Opposite()))
        == if book == map[] then None else Some(Best(side.Opposite(), book.Keys).price)
    {
      hide Inv, Sound, View, NoEmptyLevels;
      var consumer, book := side.Opposite(), FacingBook(side.Opposite());
      var prices := BestFirst(consumer, book.Keys);
      var ladder := FacingLadder(consumer, prices);
      if book.Keys != {} {
        BestComesFirst(consumer, book.Keys);
        assert prices[0] in ladder;
      } else {
        assert book == map[];
      }
    }
  }
}
