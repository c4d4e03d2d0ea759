/** Walking a ladder of price levels one level at a time comes to the same as walking the
    flattened queue in one go. */
module LevelWalk {
  import opened Basics
  import opened PriceTimeQueue
  import opened OrderBook
  import opened OrderBookRuns
  import opened Ladder
  import opened OrderSteps

  /** The fills made so far and the walk still ahead are together the whole walk. */
  ghost predicate Progress(t: Ticket, want: real, es0: seq<Entry>, l0: Ledger,
                           made: seq<Fill>, remaining: real, es: seq<Entry>, l: Ledger)
  {
    var w0, w := Consume(t, want, es0), Consume(t, remaining, es);
    && Known(l0, w0.fills) && Known(l, w.fills)
    && RecordFills(l0, w0.fills) == RecordFills(l, w.fills)
    && w0 == Walk(made + w.fills, w.rest, w.left)
  }

  lemma ProgressStart(t: Ticket, want: real, es0: seq<Entry>, l0: Ledger)
    requires Positive(es0) && forall i :: 0 <= i < |es0| ==> es0[i].id in l0.orders
    ensures Progress(t, want, es0, l0, [], want, es0, l0)
  {
    Priority(t, want, es0);
    assert [] + Consume(t, want, es0).fills == Consume(t, want, es0).fills;
  }

  lemma ProgressStep(t: Ticket, want: real, es0: seq<Entry>, l0: Ledger,
                     made: seq<Fill>, remaining: real, es: seq<Entry>, l: Ledger, f: Fill)
    requires Progress(t, want, es0, l0, made, remaining, es, l) && Positive(es)
    requires HeadFill(t, es, f) && f.quantity == Min(remaining, es[0].remaining) && Crosses(t, es[0].price) && remaining > 0.0
    ensures f.maker in l.orders
    ensures Progress(t, want, es0, l0, made + [f], remaining - f.quantity, AfterHead(es, f), RecordFill(l, f))
    ensures Positive(AfterHead(es, f))
    ensures |AfterHead(es, f)| < |es| || remaining - f.quantity == 0.0
  {
    hide Consume, RecordFill, RecordFills;
    var f', want', es' := Unfold(l, t, remaining, es);
    assert made + ([f] + Consume(t, want', es').fills) == (made + [f]) + Consume(t, want', es').fills;
  }

  /** Walking the front stretch `a` of a queue `a + b` is progress. */
  lemma ProgressStretch(t: Ticket, want: real, es0: seq<Entry>, l0: Ledger,
                        made: seq<Fill>, remaining: real, a: seq<Entry>, b: seq<Entry>, l: Ledger)
    requires Progress(t, want, es0, l0, made, remaining, a + b, l)
    requires Positive(a) && forall i :: 0 <= i < |a| ==> Crosses(t, a[i].price)
    ensures var w := Consume(t, remaining, a);
      && Known(l, w.fills)
      && Progress(t, want, es0, l0, made + w.fills, w.left, w.rest + b, RecordFills(l, w.fills))
  {
    hide RecordFills, Known, Consume;
    ConsumeSplit(t, remaining, a, b);
    var w := Consume(t, remaining, a);
    var wb := Consume(t, w.left, b);
    RecordAppend(l, w.fills, wb.fills);
    WalkOnward(t, w.left, w.rest, b);
    assert made + (w.fills + wb.fills) == (made + w.fills) + wb.fills;
  }

  /** What a walk over `rest + b` does when `rest` is what an earlier walk left. */
  lemma WalkOnward(t: Ticket, left: real, rest: seq<Entry>, b: seq<Entry>)
    requires left > 0.0 ==> rest == []
    ensures Consume(t, left, rest + b) == Consume(t, left, b).(rest := rest + Consume(t, left, b).rest)
  {
    if left > 0.0 { assert rest + b == b && [] + Consume(t, left, b).rest == Consume(t, left, b).rest; }
  }

  lemma ProgressDone(t: Ticket, want: real, es0: seq<Entry>, l0: Ledger,
                     made: seq<Fill>, remaining: real, es: seq<Entry>, l: Ledger)
    requires Progress(t, want, es0, l0, made, remaining, es, l)
    requires es == [] || remaining <= 0.0 || !Crosses(t, es[0].price)
    ensures Known(l0, Consume(t, want, es0).fills) && l == RecordFills(l0, Consume(t, want, es0).fills)
    ensures Consume(t, want, es0) == Walk(made, es, remaining)
  {
    assert made + [] == made;
  }

  /** How the levels stand when the first `i` prices have been visited. */
  ghost predicate Visiting(side: Side, ladder: Levels, ps: seq<Key>, i: nat, remaining: real, emptied: seq<Key>)
  {
    && i <= |ps| && ps == BestFirst(side, ladder.Keys) && AtPrice(ladder)
    && (forall p :: p in ladder ==> Positive(ladder[p]))
    && (remaining > 0.0 ==> forall k :: 0 <= k < i ==> ladder[ps[k]] == [])
    && (forall k :: i <= k < |ps| ==> ladder[ps[k]] != [])
    && Listed(ladder, ps, i, emptied)
  }

  /** `emptied` lists the visited levels that are empty. */
  ghost predicate Listed(ladder: Levels, ps: seq<Key>, i: nat, emptied: seq<Key>)
    requires i <= |ps| && forall p :: p in ps ==> p in ladder
  {
    && (forall j :: 0 <= j < |emptied| ==> emptied[j] in ladder && ladder[emptied[j]] == [])
    && (forall k :: 0 <= k < i && ladder[ps[k]] == [] ==> ps[k] in emptied)
  }

  lemma {:induction false} AllEmpty(ladder: Levels, ps: seq<Key>)
    requires forall p :: p in ps ==> p in ladder
    requires forall k :: 0 <= k < |ps| ==> ladder[ps[k]] == []
    ensures Flat(ladder, ps) == []
  {
    if ps != [] {
      forall k | 0 <= k < |ps[1..]| ensures ladder[ps[1..][k]] == [] { assert ps[1..][k] == ps[k+1]; }
      AllEmpty(ladder, ps[1..]);
    }
  }

  /** Behind empty levels, the flattened queue begins with level `i`. */
  lemma FlatFromLevel(ladder: Levels, ps: seq<Key>, i: nat)
    requires forall p :: p in ps ==> p in ladder
    requires i < |ps| && forall k :: 0 <= k < i ==> ladder[ps[k]] == []
    ensures ps[i] in ladder && (forall p :: p in ps[i+1..] ==> p in ladder)
    ensures Flat(ladder, ps) == ladder[ps[i]] + Flat(ladder, ps[i+1..])
  {
    assert ps == ps[..i] + ps[i..] && ps[i..][1..] == ps[i+1..];
    FlatAppend(ladder, ps[..i], ps[i..]);
    AllEmpty(ladder, ps[..i]);
  }

  lemma SortedDistinct(side: Side, keys: set<Key>, ps: seq<Key>)
    requires ps == BestFirst(side, keys)
    ensures forall i, j :: 0 <= i < j < |ps| ==> ps[i] != ps[j]
  {
    BestFirstSorted(side, keys);
  }

  lemma VisitStart(side: Side, ladder: Levels, ps: seq<Key>, want: real)
    requires ps == BestFirst(side, ladder.Keys) && AtPrice(ladder)
    requires forall p :: p in ladder ==> ladder[p] != [] && Positive(ladder[p])
    ensures Visiting(side, ladder, ps, 0, want, [])
  {
    assert forall k :: 0 <= k < |ps| ==> ps[k] in ps;
  }

  lemma VisitPositive(side: Side, ladder: Levels, ps: seq<Key>, i: nat, remaining: real, emptied: seq<Key>)
    requires Visiting(side, ladder, ps, i, remaining, emptied)
    ensures forall p :: p in ladder ==> Positive(ladder[p])
  {}

  /** Visiting the next level is a stretch of the walk. */
  lemma VisitProgress(t: Ticket, want: real, es0: seq<Entry>, l0: Ledger, made: seq<Fill>, remaining: real,
                      ladder: Levels, ps: seq<Key>, i: nat, emptied: seq<Key>, l: Ledger)
    requires Visiting(t.side, ladder, ps, i, remaining, emptied)
    requires Progress(t, want, es0, l0, made, remaining, Flat(ladder, ps), l)
    requires i < |ps| && remaining > 0.0 && Crosses(t, ps[i].price)
    ensures ps[i] in ladder
    ensures var w := Consume(t, remaining, ladder[ps[i]]); var ladder' := ladder[ps[i] := w.rest];
      && Known(l, w.fills)
      && Progress(t, want, es0, l0, made + w.fills, w.left, Flat(ladder', ps), RecordFills(l, w.fills))
  {
    hide Progress, Consume, Known, RecordFills, BestFirst;
    assert ps[i] in ps && ps[i] in ladder;
    FlatFromLevel(ladder, ps, i);
    var a, b := ladder[ps[i]], Flat(ladder, ps[i+1..]);
    assert forall j :: 0 <= j < |a| ==> a[j].price == ps[i].price;
    ProgressStretch(t, want, es0, l0, made, remaining, a, b, l);
    var w := Consume(t, remaining, a);
    var ladder' := ladder[ps[i] := w.rest];
    SortedDistinct(t.side, ladder.Keys, ps);
    FlatFromLevel(ladder', ps, i);
    FlatFrame(ladder, ladder', ps[i+1..]);
  }

  lemma VisitNext(t: Ticket, remaining: real, ladder: Levels, ps: seq<Key>, i: nat, emptied: seq<Key>)
    requires Visiting(t.side, ladder, ps, i, remaining, emptied)
    requires i < |ps| && remaining > 0.0 && Crosses(t, ps[i].price) && ps[i] in ladder
    ensures var w := Consume(t, remaining, ladder[ps[i]]); var ladder' := ladder[ps[i] := w.rest];
      Visiting(t.side, ladder', ps, i + 1, w.left, if w.rest == [] then emptied + [ps[i]] else emptied)
  {
    hide Consume, BestFirst, Positive, Listed;
    var w, p := Consume(t, remaining, ladder[ps[i]]), ps[i];
    var emptied' := if w.rest == [] then emptied + [p] else emptied;
    LevelRest(t, remaining, ladder[p], p.price);
    SortedDistinct(t.side, ladder.Keys, ps);
    ListedNext(ladder, ps, i, emptied, w.rest);
    StillAtPrice(ladder, p, w.rest);
    VisitOver(t.side, remaining, ladder, ps, i, emptied, w.rest, w.left, emptied');
  }

  lemma VisitOver(side: Side, remaining: real, ladder: Levels, ps: seq<Key>, i: nat, emptied: seq<Key>,
                  rest: seq<Entry>, left: real, emptied': seq<Key>)
    requires Visiting(side, ladder, ps, i, remaining, emptied) && i < |ps| && remaining > 0.0 && ps[i] in ladder
    requires forall k, j :: 0 <= k < j < |ps| ==> ps[k] != ps[j]
    requires Positive(rest) && (left > 0.0 ==> rest == []) && AtPrice(ladder[ps[i] := rest])
    requires Listed(ladder[ps[i] := rest], ps, i + 1, emptied')
    ensures Visiting(side, ladder[ps[i] := rest], ps, i + 1, left, emptied')
  {
    hide BestFirst, Positive, Listed, AtPrice;
    var ladder' := ladder[ps[i] := rest];
    assert ladder'.Keys == ladder.Keys;
    assert forall k :: 0 <= k < |ps| && k != i ==> ladder'[ps[k]] == ladder[ps[k]];
  }

  lemma StillAtPrice(ladder: Levels, p: Key, rest: seq<Entry>)
    requires AtPrice(ladder) && p in ladder && forall j :: 0 <= j < |rest| ==> rest[j].price == p.price
    ensures AtPrice(ladder[p := rest])
  {}

  lemma ListedNext(ladder: Levels, ps: seq<Key>, i: nat, emptied: seq<Key>, rest: seq<Entry>)
    requires i < |ps| && (forall p :: p in ps ==> p in ladder) && ladder[ps[i]] != [] && Listed(ladder, ps, i, emptied)
    requires forall k, j :: 0 <= k < j < |ps| ==> ps[k] != ps[j]
    ensures Listed(ladder[ps[i] := rest], ps, i + 1, if rest == [] then emptied + [ps[i]] else emptied)
  {
    var ladder', emptied' := ladder[ps[i] := rest], if rest == [] then emptied + [ps[i]] else emptied;
    forall j | 0 <= j < |emptied'| ensures emptied'[j] in ladder' && ladder'[emptied'[j]] == [] {
      if j < |emptied| { assert emptied'[j] == emptied[j]; }
    }
    forall k | 0 <= k < i + 1 && ladder'[ps[k]] == [] ensures ps[k] in emptied' {
      if k < i { assert ladder'[ps[k]] == ladder[ps[k]] && ps[k] in emptied; }
    }
  }

  lemma LevelRest(t: Ticket, want: real, a: seq<Entry>, price: real)
    requires Positive(a) && (forall i :: 0 <= i < |a| ==> a[i].price == price) && Crosses(t, price)
    ensures var w := Consume(t, want, a);
      Positive(w.rest) && (forall i :: 0 <= i < |w.rest| ==> w.rest[i].price == price) && (w.left > 0.0 ==> w.rest == [])
  {
    hide Consume;
    assert Sorted(t.side, a);
    RestSorted(t, want, a);
    ConsumeSplit(t, want, a, []);
    var w := Consume(t, want, a);
    forall i | 0 <= i < |w.rest| ensures w.rest[i].price == price { RestFrom(t, want, a, i); }
  }

  lemma VisitDone(t: Ticket, want: real, es0: seq<Entry>, l0: Ledger, made: seq<Fill>, remaining: real,
                  ladder: Levels, ps: seq<Key>, i: nat, emptied: seq<Key>, l: Ledger)
    requires Visiting(t.side, ladder, ps, i, remaining, emptied)
    requires Progress(t, want, es0, l0, made, remaining, Flat(ladder, ps), l)
    requires i == |ps| || remaining <= 0.0 || !Crosses(t, ps[i].price)
    ensures Known(l0, Consume(t, want, es0).fills) && l == RecordFills(l0, Consume(t, want, es0).fills)
    ensures Consume(t, want, es0) == Walk(made, Flat(ladder, ps), remaining)
    ensures forall p :: p in emptied <==> p in ladder && ladder[p] == []
  {
    hide Progress, Consume, Known, RecordFills, BestFirst;
    if remaining > 0.0 {
      if i == |ps| {
        AllEmpty(ladder, ps);
      } else {
        FlatFromLevel(ladder, ps, i);
        assert ps[i] in ps && ladder[ps[i]][0].price == ps[i].price;
      }
    }
    ProgressDone(t, want, es0, l0, made, remaining, Flat(ladder, ps), l);
    forall p | p in ladder && ladder[p] == [] ensures p in emptied {
      var k :| 0 <= k < |ps| && ps[k] == p;
    }
  }

  lemma FlatPositive(ladder: Levels, ps: seq<Key>, known: set<OrderId>)
    requires forall p :: p in ps ==> p in ladder
    requires forall p :: p in ladder ==> Positive(ladder[p])
    requires forall p, i :: p in ladder && 0 <= i < |ladder[p]| ==> ladder[p][i].id in known
    ensures Positive(Flat(ladder, ps)) && forall i :: 0 <= i < |Flat(ladder, ps)| ==> Flat(ladder, ps)[i].id in known
  {
    forall i | 0 <= i < |Flat(ladder, ps)|
      ensures Flat(ladder, ps)[i].remaining > 0.0 && Flat(ladder, ps)[i].id in known
    {
      var p, j := FlatFrom(ladder, ps, i);
    }
  }

  /** Removing an order from its level, and the level if it is empty, removes the order
      from the flattened queue. */
  lemma RemoveAtPrice(consumer: Side, ladder: Levels, p: Key, id: OrderId)
    requires p in ladder && Rests(id, ladder[p])
    requires forall q :: q in ladder && q != p ==> !Rests(id, ladder[q])
    ensures Flatten(consumer, ladder[p := Remove(ladder[p], id)]) == Remove(Flatten(consumer, ladder), id)
    ensures Remove(ladder[p], id) == [] ==>
      Flatten(consumer, ladder[p := Remove(ladder[p], id)] - {p}) == Remove(Flatten(consumer, ladder), id)
  {
    hide Remove, BestFirst, Rests;
    var ps, ladder' := BestFirst(consumer, ladder.Keys), ladder[p := Remove(ladder[p], id)];
    SortedDistinct(consumer, ladder.Keys, ps);
    FlatRemove(ladder, ps, p, id);
    assert ladder'.Keys == ladder.Keys;
    if Remove(ladder[p], id) == [] { SweepKeepsFlat(consumer, ladder', {p}); }
  }
}
