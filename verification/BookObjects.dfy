/** The mutable objects a book is made of, and what they stand for. */
module BookObjects {
  import opened PriceTimeQueue
  import opened OrderBook
  import opened OrderBookRuns
  import opened Ladder
  import opened OrderSteps

  class Order {
    const ticket: Ticket
    var status: Status
    var filled: real
    var averagePrice: real

    constructor (t: Ticket)
      ensures ticket == t && status == New && filled == 0.0 && averagePrice == 0.0
    {
      ticket := t;
      status, filled, averagePrice := New, 0.0, 0.0;
    }

    function Remaining(): real
      reads this
    {
      ticket.quantity - filled
    }

    ghost function AsRecord(): Record
      reads this
    {
      Record(ticket, status, filled, averagePrice)
    }

    ghost function AsEntry(): Entry
      reads this
    {
      Entry(ticket.id, ticket.price, Remaining())
    }
  }

  /** What a queue of orders stands for at this moment. */
  ghost function Entries(os: seq<Order>): (es: seq<Entry>)
    reads os
    ensures |es| == |os|
    ensures forall i :: 0 <= i < |es| ==> es[i] == os[i].AsEntry()
  {
    if os == [] then [] else [os[0].AsEntry()] + Entries(os[1..])
  }

  /** A price level: orders in arrival order and a cached sum of what remains of them. */
  class PriceLevel {
    const price: real
    var orders: seq<Order>
    var totalQuantity: real

    constructor (price: real)
      ensures this.price == price && orders == [] && totalQuantity == 0.0
    {
      this.price := price;
      orders, totalQuantity := [], 0.0;
    }

    method AddOrder(order: Order)
      modifies this
      ensures orders == old(orders) + [order]
      ensures totalQuantity == old(totalQuantity) + order.Remaining()
    {
      orders := orders + [order];
      totalQuantity := totalQuantity + order.Remaining();
    }

    /** After `quantity` has been charged to the front order: drop that order if it is
        complete, and keep the cached depth in step. */
    method TakeFromFront(quantity: real)
      requires orders != []
      modifies this
      ensures orders == if old(orders)[0].Remaining() <= 0.0 then old(orders)[1..] else old(orders)
      ensures totalQuantity == old(totalQuantity) - quantity
    {
      if orders[0].Remaining() <= 0.0 {
        orders := orders[1..];
      }
      totalQuantity := totalQuantity - quantity;
    }

    /** Takes out the first order with this id, if there is one. */
    method RemoveOrder(id: OrderId) returns (removed: Order?)
      modifies this
      ensures removed == null ==> orders == old(orders) && totalQuantity == old(totalQuantity)
      ensures removed == null <==> forall i :: 0 <= i < |old(orders)| ==> old(orders)[i].ticket.id != id
      ensures removed != null ==>
        && totalQuantity == old(totalQuantity) - removed.Remaining()
        && exists k :: 0 <= k < |old(orders)| && old(orders)[k] == removed && removed.ticket.id == id
             && (forall i :: 0 <= i < k ==> old(orders)[i].ticket.id != id)
             && orders == old(orders)[..k] + old(orders)[k+1..]
    {
      for i := 0 to |orders|
        invariant orders == old(orders) && totalQuantity == old(totalQuantity)
        invariant forall j :: 0 <= j < i ==> orders[j].ticket.id != id
      {
        if orders[i].ticket.id == id {
          removed := orders[i];
          totalQuantity := totalQuantity - removed.Remaining();
          orders := orders[..i] + orders[i+1..];
          return;
        }
      }
      removed := null;
    }
  }

  /** An order queued at price `p` on side `side`, known under its own id. */
  ghost predicate Belongs(o: Order, p: Key, side: Side, accepted: map<OrderId, Order>)
  {
    o.ticket.id in accepted && accepted[o.ticket.id] == o && o.ticket.side == side && o.ticket.price == p.price
  }

  /** The orders of one level: all at its price, none twice. */
  ghost predicate Lined(os: seq<Order>, p: Key, side: Side, accepted: map<OrderId, Order>)
  {
    && (forall i :: 0 <= i < |os| ==> Belongs(os[i], p, side, accepted))
    && (forall i, j :: 0 <= i < j < |os| ==> os[i] != os[j])
  }

  /** A level is what its key says, and its cached depth is the depth of its queue. */
  ghost predicate LevelOk(level: PriceLevel, p: Key, side: Side, accepted: map<OrderId, Order>)
    reads level, accepted.Values
  {
    && level.price == p.price
    && Lined(level.orders, p, side, accepted)
    && level.totalQuantity == Depth(Entries(level.orders))
  }

  /** Each price has a level of its own. */
  ghost predicate Separate(book: map<Key, PriceLevel>)
  {
    forall p, q :: p in book && q in book && p != q ==> book[p] != book[q]
  }

  ghost predicate BookOk(book: map<Key, PriceLevel>, side: Side, accepted: map<OrderId, Order>)
    reads book.Values, accepted.Values
  {
    Separate(book) && forall p :: p in book ==> LevelOk(book[p], p, side, accepted)
  }

  /** No level of the book is empty. */
  ghost predicate Full(book: map<Key, PriceLevel>)
    reads book.Values
  {
    forall p :: p in book ==> book[p].orders != []
  }

  ghost function LadderOf(book: map<Key, PriceLevel>, side: Side, accepted: map<OrderId, Order>): (l: Levels)
    requires BookOk(book, side, accepted)
    reads book.Values, accepted.Values
    ensures l.Keys == book.Keys
  {
    map p | p in book :: Entries(book[p].orders)
  }

  /** Charging the head of a queue of distinct orders changes the head's entry only. */
  lemma EntriesAfterHead(queue: seq<Order>, before: seq<Entry>, f: Fill)
    requires queue != [] && |before| == |queue| && f.quantity <= before[0].remaining
    requires forall i :: 0 < i < |queue| ==> queue[i].AsEntry() == before[i]
    requires queue[0].AsEntry() == before[0].(remaining := before[0].remaining - f.quantity)
    ensures Entries(if queue[0].Remaining() <= 0.0 then queue[1..] else queue) == AfterHead(before, f)
  {
    hide Entries;
  }

  lemma LinedTail(os: seq<Order>, p: Key, side: Side, accepted: map<OrderId, Order>)
    requires Lined(os, p, side, accepted) && os != []
    ensures Lined(os[1..], p, side, accepted) && Belongs(os[0], p, side, accepted)
    ensures forall i :: 0 < i < |os| ==> os[i] != os[0]
  {}

  lemma LineUp(os: seq<Order>, o: Order, p: Key, side: Side, accepted: map<OrderId, Order>)
    requires Lined(os, p, side, accepted) && Belongs(o, p, side, accepted)
    requires forall i :: 0 <= i < |os| ==> os[i] != o
    ensures Lined(os + [o], p, side, accepted)
  {}

  /** A sound level is lined up, and its cached quantity is the depth of its entries. */
  lemma LinedUp(level: PriceLevel, p: Key, side: Side, accepted: map<OrderId, Order>)
    requires LevelOk(level, p, side, accepted)
    ensures Lined(level.orders, p, side, accepted) && level.totalQuantity == Depth(Entries(level.orders))
  {}

  lemma EntriesAppend(os: seq<Order>, o: Order)
    ensures Entries(os + [o]) == Entries(os) + [o.AsEntry()]
  {}

  lemma LevelPrice(level: PriceLevel, p: Key, side: Side, accepted: map<OrderId, Order>)
    requires LevelOk(level, p, side, accepted)
    ensures forall i :: 0 <= i < |level.orders| ==>
      Entries(level.orders)[i].price == p.price && Entries(level.orders)[i].id in accepted
  {
    assert forall i :: 0 <= i < |level.orders| ==> Belongs(level.orders[i], p, side, accepted);
  }

  lemma LadderAtPrice(book: map<Key, PriceLevel>, side: Side, accepted: map<OrderId, Order>)
    requires BookOk(book, side, accepted)
    ensures AtPrice(LadderOf(book, side, accepted))
    ensures forall p, i :: p in book && 0 <= i < |LadderOf(book, side, accepted)[p]| ==>
      LadderOf(book, side, accepted)[p][i].id in accepted
  {
    hide Depth;
    forall p, i | p in book && 0 <= i < |book[p].orders|
      ensures Entries(book[p].orders)[i].price == p.price && Entries(book[p].orders)[i].id in accepted
    {
      assert LevelOk(book[p], p, side, accepted);
      assert Belongs(book[p].orders[i], p, side, accepted);
    }
  }

  lemma OthersAre(book: map<Key, PriceLevel>, p: Key, ladder: Levels)
    requires ladder.Keys == book.Keys
    requires forall q :: q in book && q != p ==> |book[q].orders| == |ladder[q]|
    requires forall q, i :: q in book && q != p && 0 <= i < |book[q].orders| ==> book[q].orders[i].AsEntry() == ladder[q][i]
    ensures forall q :: q in book && q != p ==> Entries(book[q].orders) == ladder[q]
  {
    forall q | q in book && q != p ensures Entries(book[q].orders) == ladder[q] {
      assert |Entries(book[q].orders)| == |ladder[q]|;
    }
  }

  /** What a sound book lets one recover from the ladder alone. */
  ghost predicate Stands(level: PriceLevel, q: Key, side: Side, accepted: map<OrderId, Order>, es: seq<Entry>)
    reads level
  {
    level.price == q.price && Lined(level.orders, q, side, accepted) && level.totalQuantity == Depth(es)
  }

  lemma LadderSays(book: map<Key, PriceLevel>, side: Side, accepted: map<OrderId, Order>, ladder: Levels)
    requires BookOk(book, side, accepted) && ladder == LadderOf(book, side, accepted)
    ensures ladder.Keys == book.Keys && Separate(book)
    ensures forall q :: q in book ==> Stands(book[q], q, side, accepted, ladder[q])
    ensures forall q :: q in book ==> LevelOk(book[q], q, side, accepted) && ladder[q] == Entries(book[q].orders)
  {
    hide Depth, Lined;
    assert forall q :: q in book ==> LevelOk(book[q], q, side, accepted);
  }

  /** If every level but `p` stands as it did, and `p` is sound, the book is sound and
      its ladder differs at `p` only. */
  lemma LadderStands(book: map<Key, PriceLevel>, p: Key, side: Side, accepted: map<OrderId, Order>, ladder: Levels)
    requires Separate(book) && p in book && ladder.Keys == book.Keys
    requires LevelOk(book[p], p, side, accepted)
    requires forall q :: q in book && q != p ==>
      Stands(book[q], q, side, accepted, ladder[q]) && Entries(book[q].orders) == ladder[q]
    ensures BookOk(book, side, accepted)
    ensures LadderOf(book, side, accepted) == ladder[p := Entries(book[p].orders)]
  {
    hide Depth, Lined, Separate;
    forall q | q in book ensures LevelOk(book[q], q, side, accepted) {
      if q != p { assert Stands(book[q], q, side, accepted, ladder[q]); }
    }
  }

  /** A book whose levels stand for `ladder`, order by order. */
  ghost predicate Held(book: map<Key, PriceLevel>, side: Side, accepted: map<OrderId, Order>, ladder: Levels)
    reads book.Values, accepted.Values
  {
    && Separate(book) && ladder.Keys == book.Keys
    && forall q :: q in book ==>
         && Stands(book[q], q, side, accepted, ladder[q])
         && |book[q].orders| == |ladder[q]|
         && forall i :: 0 <= i < |ladder[q]| ==>
              Belongs(book[q].orders[i], q, side, accepted) && book[q].orders[i].AsEntry() == ladder[q][i]
  }

  lemma OkHeld(book: map<Key, PriceLevel>, side: Side, accepted: map<OrderId, Order>)
    requires BookOk(book, side, accepted)
    ensures Held(book, side, accepted, LadderOf(book, side, accepted))
  {
    hide Depth;
    assert forall q :: q in book ==> LevelOk(book[q], q, side, accepted);
  }

  lemma HeldOk(book: map<Key, PriceLevel>, side: Side, accepted: map<OrderId, Order>, ladder: Levels)
    requires Held(book, side, accepted, ladder)
    ensures BookOk(book, side, accepted) && LadderOf(book, side, accepted) == ladder
  {
    hide Depth, Lined;
    forall q | q in book ensures LevelOk(book[q], q, side, accepted) && Entries(book[q].orders) == ladder[q] {
      assert Entries(book[q].orders) == ladder[q];
    }
  }

  /** Accepting one more order does not disturb a book. */
  lemma AcceptedGrows(book: map<Key, PriceLevel>, side: Side, accepted: map<OrderId, Order>, accepted': map<OrderId, Order>,
                      ladder: Levels, o: Order)
    requires Held(book, side, accepted, ladder)
    requires o.ticket.id !in accepted && accepted' == accepted[o.ticket.id := o]
    ensures Held(book, side, accepted', ladder)
  {
    forall q | q in book ensures Stands(book[q], q, side, accepted', ladder[q]) {
      assert Stands(book[q], q, side, accepted, ladder[q]);
    }
  }

  /** No order is queued at two prices. */
  lemma LevelsApart(book: map<Key, PriceLevel>, p: Key, side: Side, accepted: map<OrderId, Order>)
    requires BookOk(book, side, accepted) && p in book
    ensures forall o :: o in book[p].orders ==> o in accepted.Values && o.ticket.price == p.price
    ensures forall q, o :: q in book && q != p && o in book[q].orders ==> o !in book[p].orders
  {
    forall q, o | q in book && o in book[q].orders ensures o in accepted.Values && o.ticket.price == q.price {
      var i :| 0 <= i < |book[q].orders| && book[q].orders[i] == o;
      assert LevelOk(book[q], q, side, accepted);
      assert Belongs(o, q, side, accepted);
    }
  }

  lemma EmptyIff(book: map<Key, PriceLevel>, side: Side, accepted: map<OrderId, Order>, p: Key)
    requires BookOk(book, side, accepted) && p in book
    ensures book[p].orders == [] <==> LadderOf(book, side, accepted)[p] == []
  {}

  lemma SameLadder(ladder: Levels, p: Key)
    requires p in ladder
    ensures ladder == ladder[p := Queued(ladder, p)]
  {}

  /** Adding an empty level to a book. */
  lemma LevelAdded(book: map<Key, PriceLevel>, p: Key, level: PriceLevel, side: Side, accepted: map<OrderId, Order>)
    requires BookOk(book, side, accepted) && p !in book && level !in book.Values
    requires level.price == p.price && level.orders == [] && level.totalQuantity == 0.0
    ensures var ladder := LadderOf(book, side, accepted);
      BookOk(book[p := level], side, accepted)
      && LadderOf(book[p := level], side, accepted) == ladder[p := Queued(ladder, p)]
  {
    hide Depth, Lined;
    assert LevelOk(level, p, side, accepted) by { EmptyLevelOk(level, p, side, accepted); }
    var book' := book[p := level];
    forall q | q in book ensures book'[q] == book[q] && book'[q] != level && LevelOk(book'[q], q, side, accepted) {
      assert LevelOk(book[q], q, side, accepted);
    }
    assert Separate(book');
    assert forall q :: q in book' ==> LevelOk(book'[q], q, side, accepted);
    assert BookOk(book', side, accepted);
    assert LadderOf(book', side, accepted)[p] == [];
  }

  lemma EmptyLevelOk(level: PriceLevel, p: Key, side: Side, accepted: map<OrderId, Order>)
    requires level.price == p.price && level.orders == [] && level.totalQuantity == 0.0
    ensures LevelOk(level, p, side, accepted)
  {}

  lemma FullLadder(book: map<Key, PriceLevel>, side: Side, accepted: map<OrderId, Order>)
    requires BookOk(book, side, accepted)
    ensures Full(book) <==> forall p :: p in book ==> LadderOf(book, side, accepted)[p] != []
  {
    hide BookOk;
    forall p | p in book ensures book[p].orders == [] <==> LadderOf(book, side, accepted)[p] == [] {
      EmptyIff(book, side, accepted, p);
    }
  }

  /** Deleting levels from a book. */
  lemma BookMinus(book: map<Key, PriceLevel>, side: Side, accepted: map<OrderId, Order>, gone: set<Key>)
    requires BookOk(book, side, accepted)
    ensures BookOk(book - gone, side, accepted) && (book - gone).Values <= book.Values
    ensures LadderOf(book - gone, side, accepted) == LadderOf(book, side, accepted) - gone
  {
    hide Depth, Lined;
    var kept := book - gone;
    forall p | p in kept ensures kept[p] == book[p] && LevelOk(kept[p], p, side, accepted) {
      assert LevelOk(book[p], p, side, accepted);
    }
  }

  /** Deleting the empty levels of a book. */
  lemma BookKept(book: map<Key, PriceLevel>, side: Side, accepted: map<OrderId, Order>, gone: set<Key>)
    requires BookOk(book, side, accepted)
    requires forall p :: p in gone <==> p in book && LadderOf(book, side, accepted)[p] == []
    ensures BookOk(book - gone, side, accepted) && (book - gone).Values <= book.Values && Full(book - gone)
    ensures Flatten(side.Opposite(), LadderOf(book - gone, side, accepted)) == Flatten(side.Opposite(), LadderOf(book, side, accepted))
  {
    BookMinus(book, side, accepted, gone);
    SweepKeepsFlat(side.Opposite(), LadderOf(book, side, accepted), gone);
  }

  lemma HeldKept(book: map<Key, PriceLevel>, side: Side, accepted: map<OrderId, Order>, ladder: Levels, gone: set<Key>)
    requires Held(book, side, accepted, ladder)
    requires BookOk(book, side, accepted) ==>
      forall p :: p in gone <==> p in book && LadderOf(book, side, accepted)[p] == []
    ensures Held(book - gone, side, accepted, ladder - gone)
    ensures (book - gone).Values <= book.Values && Full(book - gone)
    ensures Flatten(side.Opposite(), ladder - gone) == Flatten(side.Opposite(), ladder)
  {
    hide Held, BookOk, LadderOf, Full, Flatten;
    HeldOk(book, side, accepted, ladder);
    BookKept(book, side, accepted, gone);
    BookMinus(book, side, accepted, gone);
    OkHeld(book - gone, side, accepted);
  }

  /** What a book's flattened queue says of its levels and its orders. */
  lemma BookEntries(book: map<Key, PriceLevel>, side: Side, accepted: map<OrderId, Order>)
    requires BookOk(book, side, accepted) && Full(book)
    requires Positive(Flatten(side.Opposite(), LadderOf(book, side, accepted)))
    ensures forall p :: p in book ==> LadderOf(book, side, accepted)[p] != [] && Positive(LadderOf(book, side, accepted)[p])
    ensures var es := Flatten(side.Opposite(), LadderOf(book, side, accepted));
      forall k :: 0 <= k < |es| ==> es[k].id in accepted && accepted[es[k].id].ticket.side == side
  {
    hide BestFirst, LevelOk, Lined, Depth;
    var ladder := LadderOf(book, side, accepted);
    var ps := BestFirst(side.Opposite(), ladder.Keys);
    OkHeld(book, side, accepted);
    forall p, j | p in book && 0 <= j < |ladder[p]| ensures ladder[p][j].remaining > 0.0 {
      var k := FlatInto(ladder, ps, p, j);
    }
    forall k | 0 <= k < |Flat(ladder, ps)|
      ensures Flat(ladder, ps)[k].id in accepted && accepted[Flat(ladder, ps)[k].id].ticket.side == side
    {
      var p, j := FlatFrom(ladder, ps, k);
      assert Belongs(book[p].orders[j], p, side, accepted);
    }
  }

  /** An order the flattened queue does not name is in no level. */
  lemma NotInBook(book: map<Key, PriceLevel>, side: Side, accepted: map<OrderId, Order>, o: Order)
    requires BookOk(book, side, accepted)
    requires !Rests(o.ticket.id, Flatten(side.Opposite(), LadderOf(book, side, accepted)))
    ensures forall p, i :: p in book && 0 <= i < |book[p].orders| ==> book[p].orders[i] != o
  {
    hide BestFirst, LevelOk, Lined, Depth;
    var ladder := LadderOf(book, side, accepted);
    OkHeld(book, side, accepted);
    forall p, j | p in book && 0 <= j < |book[p].orders| ensures book[p].orders[j] != o {
      var k := FlatInto(ladder, BestFirst(side.Opposite(), ladder.Keys), p, j);
    }
  }

  /** A resting order stands in the level of its price, and in no other. */
  lemma RestsAtItsPrice(book: map<Key, PriceLevel>, side: Side, accepted: map<OrderId, Order>, o: Order)
    requires BookOk(book, side, accepted) && Belongs(o, Key(o.ticket.price), side, accepted)
    requires Rests(o.ticket.id, Flatten(side.Opposite(), LadderOf(book, side, accepted)))
    ensures Key(o.ticket.price) in book && o in book[Key(o.ticket.price)].orders
    ensures forall q :: q in book && q != Key(o.ticket.price) ==> !Rests(o.ticket.id, LadderOf(book, side, accepted)[q])
    ensures Rests(o.ticket.id, LadderOf(book, side, accepted)[Key(o.ticket.price)])
  {
    hide BestFirst, LevelOk, Lined, Depth, Stands;
    var ladder, id := LadderOf(book, side, accepted), o.ticket.id;
    var ps := BestFirst(side.Opposite(), ladder.Keys);
    OkHeld(book, side, accepted);
    forall q, i | q in book && 0 <= i < |ladder[q]| && ladder[q][i].id == id ensures q == Key(o.ticket.price) && book[q].orders[i] == o {
      assert Belongs(book[q].orders[i], q, side, accepted);
    }
    var k :| 0 <= k < |Flat(ladder, ps)| && Flat(ladder, ps)[k].id == id;
    var q, j := FlatFrom(ladder, ps, k);
  }

  /** What a level's queue loses when an order is taken out of it. */
  lemma LevelLoses(es: seq<Entry>, queue: seq<Order>, queue': seq<Order>, o: Order, p: Key, side: Side, accepted: map<OrderId, Order>)
    requires |es| == |queue| && Lined(queue, p, side, accepted) && o in queue && Belongs(o, p, side, accepted)
    requires forall i :: 0 <= i < |es| ==> es[i] == queue[i].AsEntry()
    requires exists k :: 0 <= k < |queue| && queue[k] == o && (forall i :: 0 <= i < k ==> queue[i].ticket.id != o.ticket.id)
               && queue' == queue[..k] + queue[k+1..]
    ensures |queue'| == |Remove(es, o.ticket.id)| && Lined(queue', p, side, accepted)
    ensures forall i :: 0 <= i < |queue'| ==> Remove(es, o.ticket.id)[i] == queue'[i].AsEntry()
    ensures Depth(Remove(es, o.ticket.id)) == Depth(es) - o.Remaining()
  {
    hide Depth, Remove;
    var k :| 0 <= k < |queue| && queue[k] == o && (forall i :: 0 <= i < k ==> queue[i].ticket.id != o.ticket.id)
               && queue' == queue[..k] + queue[k+1..];
    var m := RemoveAt(es, o.ticket.id);
    assert m == k by {
      assert Belongs(queue[m], p, side, accepted);
    }
    DepthDropped(es, o.ticket.id);
    forall i | 0 <= i < |queue'| ensures queue'[i] == queue[if i < k then i else i + 1] {}
  }
}
