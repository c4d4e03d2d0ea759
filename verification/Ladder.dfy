/** A dictionary of price levels, each a first-in-first-out queue, read as one
    price-time queue: best price first, each level in arrival order. The lemmas relate
    the dictionary operations to operations on that queue. */
module Ladder {
  import opened Basics
  import opened PriceTimeQueue
  import opened OrderBook

  // ---------------------------------------------------------------- sorted prices

  /** A price as a dictionary key. */
  datatype Key = Key(price: real)

  ghost predicate RankSorted(consumer: Side, ps: seq<Key>)
  {
    forall i, j :: 0 <= i < j < |ps| ==> Rank(consumer, ps[i].price) < Rank(consumer, ps[j].price)
  }

  ghost function Best(consumer: Side, keys: set<Key>): (p: Key)
    requires keys != {}
    ensures p in keys && forall q :: q in keys ==> Rank(consumer, p.price) <= Rank(consumer, q.price)
    decreases |keys|
  {
    var x :| x in keys;
    if keys == {x} then x
    else
      var m := Best(consumer, keys - {x});
      if Rank(consumer, x.price) <= Rank(consumer, m.price) then x else m
  }

  /** The prices of a side in the order a taker visits them. */
  ghost function BestFirst(consumer: Side, keys: set<Key>): (ps: seq<Key>)
    ensures forall p :: p in ps <==> p in keys
    decreases |keys|
  {
    if keys == {} then []
    else
      var p := Best(consumer, keys);
      [p] + BestFirst(consumer, keys - {p})
  }

  lemma BestComesFirst(consumer: Side, keys: set<Key>)
    requires keys != {}
    ensures BestFirst(consumer, keys) == [Best(consumer, keys)] + BestFirst(consumer, keys - {Best(consumer, keys)})
  {}

  lemma {:induction false} BestFirstSorted(consumer: Side, keys: set<Key>)
    ensures RankSorted(consumer, BestFirst(consumer, keys))
    decreases |keys|
  {
    if keys != {} {
      hide BestFirst, Best;
      var p := Best(consumer, keys);
      BestComesFirst(consumer, keys);
      BestFirstSorted(consumer, keys - {p});
      BestAhead(consumer, p, BestFirst(consumer, keys - {p}), keys);
    }
  }

  lemma BestAhead(consumer: Side, p: Key, tail: seq<Key>, keys: set<Key>)
    requires RankSorted(consumer, tail)
    requires forall q :: q in tail ==> q in keys && q != p
    requires forall q :: q in keys ==> Rank(consumer, p.price) <= Rank(consumer, q.price)
    ensures RankSorted(consumer, [p] + tail)
  {
    var ps := [p] + tail;
    forall i, j | 0 <= i < j < |ps| ensures Rank(consumer, ps[i].price) < Rank(consumer, ps[j].price) {
      assert ps[j] == tail[j-1] && tail[j-1] in tail;
      if i > 0 { assert ps[i] == tail[i-1]; }
    }
  }

  /** There is only one way to sort a set of prices. */
  lemma {:induction false} SortedIsBestFirst(consumer: Side, ps: seq<Key>, keys: set<Key>)
    requires RankSorted(consumer, ps) && forall p :: p in ps <==> p in keys
    ensures ps == BestFirst(consumer, keys)
    decreases |ps|
  {
    if ps == [] {
      assert keys == {};
    } else {
      HeadIsBest(consumer, ps, keys);
      BestComesFirst(consumer, keys);
      hide Best, BestFirst, Rank;
      SortedIsBestFirst(consumer, ps[1..], keys - {ps[0]});
    }
  }

  lemma HeadIsBest(consumer: Side, ps: seq<Key>, keys: set<Key>)
    requires RankSorted(consumer, ps) && ps != [] && forall p :: p in ps <==> p in keys
    ensures keys != {} && Best(consumer, keys) == ps[0]
    ensures forall p :: p in ps[1..] <==> p in keys - {ps[0]}
  {
    hide Best;
    assert ps[0] in keys;
    assert forall i :: 0 < i < |ps| ==> Rank(consumer, ps[0].price) < Rank(consumer, ps[i].price);
    forall p ensures p in ps[1..] <==> p in keys - {ps[0]} {
      if p in ps[1..] { assert p in ps; }
      if p in keys && p != ps[0] { assert p in [ps[0]] + ps[1..]; }
    }
  }

  /** Computes what `sorted` computes. */
  method SortPrices(consumer: Side, keys: set<Key>) returns (ps: seq<Key>)
    ensures ps == BestFirst(consumer, keys)
  {
    ps := [];
    var rest := keys;
    while rest != {}
      invariant BestFirst(consumer, keys) == ps + BestFirst(consumer, rest)
      decreases rest
    {
      var best := Cheapest(consumer, rest);
      BestComesFirst(consumer, rest);
      hide Best, BestFirst;
      assert ps + ([best] + BestFirst(consumer, rest - {best})) == (ps + [best]) + BestFirst(consumer, rest - {best});
      ps := ps + [best];
      rest := rest - {best};
    }
    assert ps + [] == ps;
  }

  method Cheapest(consumer: Side, keys: set<Key>) returns (best: Key)
    requires keys != {}
    ensures best == Best(consumer, keys)
  {
    ghost var p := Best(consumer, keys);
    best :| best in keys && forall q :: q in keys ==> Rank(consumer, best.price) <= Rank(consumer, q.price);
    assert Rank(consumer, best.price) == Rank(consumer, p.price);
  }

  // ---------------------------------------------------------------- flattening

  type Levels = map<Key, seq<Entry>>

  function Flat(ladder: Levels, ps: seq<Key>): seq<Entry>
    requires forall p :: p in ps ==> p in ladder
  {
    if ps == [] then [] else ladder[ps[0]] + Flat(ladder, ps[1..])
  }

  ghost function Flatten(consumer: Side, ladder: Levels): seq<Entry>
  {
    Flat(ladder, BestFirst(consumer, ladder.Keys))
  }

  /** Every entry stands at the price of its level. */
  ghost predicate AtPrice(ladder: Levels)
  {
    forall p, i :: p in ladder && 0 <= i < |ladder[p]| ==> ladder[p][i].price == p.price
  }

  lemma {:induction false} FlatFrame(l: Levels, l': Levels, ps: seq<Key>)
    requires forall p :: p in ps ==> p in l && p in l' && l[p] == l'[p]
    ensures Flat(l, ps) == Flat(l', ps)
  {
    if ps != [] { FlatFrame(l, l', ps[1..]); }
  }

  lemma {:induction false} FlatAppend(l: Levels, a: seq<Key>, b: seq<Key>)
    requires forall p :: p in a + b ==> p in l
    requires (forall p :: p in a ==> p in l) && (forall p :: p in b ==> p in l)
    ensures Flat(l, a + b) == Flat(l, a) + Flat(l, b)
  {
    if a == [] {
      assert a + b == b;
    } else {
      assert (a + b)[1..] == a[1..] + b;
      FlatAppend(l, a[1..], b);
    }
  }

  /** An entry of the flattened queue comes from one of the levels. */
  lemma {:induction false} FlatFrom(l: Levels, ps: seq<Key>, i: nat) returns (p: Key, j: nat)
    requires forall p :: p in ps ==> p in l
    requires i < |Flat(l, ps)|
    ensures p in ps && j < |l[p]| && Flat(l, ps)[i] == l[p][j]
  {
    if i < |l[ps[0]]| {
      p, j := ps[0], i;
    } else {
      p, j := FlatFrom(l, ps[1..], i - |l[ps[0]]|);
    }
  }

  /** An entry of a level is in the flattened queue. */
  lemma {:induction false} FlatInto(l: Levels, ps: seq<Key>, p: Key, j: nat) returns (i: nat)
    requires forall q :: q in ps ==> q in l
    requires p in ps && j < |l[p]|
    ensures i < |Flat(l, ps)| && Flat(l, ps)[i] == l[p][j]
  {
    if ps[0] == p {
      i := j;
    } else {
      var i' := FlatInto(l, ps[1..], p, j);
      i := |l[ps[0]]| + i';
    }
  }

  // ---------------------------------------------------------------- adding an order

  lemma {:induction false} InsertSplit(consumer: Side, a: seq<Entry>, b: seq<Entry>, e: Entry)
    requires forall i :: 0 <= i < |a| ==> Rank(consumer, a[i].price) <= Rank(consumer, e.price)
    requires forall i :: 0 <= i < |b| ==> Rank(consumer, b[i].price) > Rank(consumer, e.price)
    ensures Insert(consumer, a + b, e) == a + [e] + b
  {
    if a == [] {
      assert a + b == b;
    } else {
      assert (a + b)[1..] == a[1..] + b;
      InsertSplit(consumer, a[1..], b, e);
    }
  }

  /** All of a run of levels ranks on one side of a bound. */
  lemma FlatRanks(consumer: Side, l: Levels, ps: seq<Key>, bound: real)
    requires AtPrice(l) && forall p :: p in ps ==> p in l
    ensures (forall p :: p in ps ==> Rank(consumer, p.price) <= bound) ==>
      forall i :: 0 <= i < |Flat(l, ps)| ==> Rank(consumer, Flat(l, ps)[i].price) <= bound
    ensures (forall p :: p in ps ==> Rank(consumer, p.price) > bound) ==>
      forall i :: 0 <= i < |Flat(l, ps)| ==> Rank(consumer, Flat(l, ps)[i].price) > bound
  {
    forall i | 0 <= i < |Flat(l, ps)| ensures Key(Flat(l, ps)[i].price) in ps {
      var p, j := FlatFrom(l, ps, i);
    }
  }

  /** How many prices are ahead of `p`. */
  lemma CountAhead(consumer: Side, ps: seq<Key>, p: Key) returns (k: nat)
    requires RankSorted(consumer, ps)
    ensures k <= |ps|
    ensures forall i :: 0 <= i < k ==> Rank(consumer, ps[i].price) < Rank(consumer, p.price)
    ensures k < |ps| ==> ps[k] == p || Rank(consumer, ps[k].price) > Rank(consumer, p.price)
  {
    k := 0;
    while k < |ps| && Rank(consumer, ps[k].price) < Rank(consumer, p.price)
      invariant k <= |ps|
      invariant forall i :: 0 <= i < k ==> Rank(consumer, ps[i].price) < Rank(consumer, p.price)
    {
      k := k + 1;
    }
  }

  /** Sorted prices fall apart into those ahead of `p`, `p` itself if it is one, and
      those behind it. */
  lemma Cut(consumer: Side, ps: seq<Key>, p: Key) returns (before: seq<Key>, mid: seq<Key>, after: seq<Key>)
    requires RankSorted(consumer, ps)
    ensures ps == before + mid + after
    ensures mid == if p in ps then [p] else []
    ensures RankSorted(consumer, before) && RankSorted(consumer, after)
    ensures forall i :: 0 <= i < |before| ==> Rank(consumer, before[i].price) < Rank(consumer, p.price)
    ensures forall i :: 0 <= i < |after| ==> Rank(consumer, after[i].price) > Rank(consumer, p.price)
  {
    var k, m := Span(consumer, ps, p);
    hide Rank;
    before, mid, after := ps[..k], ps[k..m], ps[m..];
  }

  /** The prices equal to `p`, none or one, are those from `k` up to `m`. */
  lemma Span(consumer: Side, ps: seq<Key>, p: Key) returns (k: nat, m: nat)
    requires RankSorted(consumer, ps)
    ensures k <= m <= |ps| && m == if p in ps then k + 1 else k
    ensures m > k ==> ps[k] == p
    ensures forall i :: 0 <= i < k ==> Rank(consumer, ps[i].price) < Rank(consumer, p.price)
    ensures forall i :: m <= i < |ps| ==> Rank(consumer, ps[i].price) > Rank(consumer, p.price)
  {
    k := CountAhead(consumer, ps, p);
    m := if k < |ps| && ps[k] == p then k + 1 else k;
    forall i | m <= i < |ps| ensures Rank(consumer, ps[i].price) > Rank(consumer, p.price) {
      if i > k { assert Rank(consumer, ps[k].price) < Rank(consumer, ps[i].price); }
    }
  }

  lemma JoinSorted(consumer: Side, a: seq<Key>, b: seq<Key>, pivot: real)
    requires RankSorted(consumer, a) && RankSorted(consumer, b)
    requires forall i :: 0 <= i < |a| ==> Rank(consumer, a[i].price) <= pivot
    requires forall i :: 0 <= i < |b| ==> Rank(consumer, b[i].price) > pivot
    ensures RankSorted(consumer, a + b)
  {
    hide Rank;
    var ps := a + b;
    forall i, j | 0 <= i < j < |ps| ensures Rank(consumer, ps[i].price) < Rank(consumer, ps[j].price) {
      assert ps[i] == if i < |a| then a[i] else b[i-|a|];
      assert ps[j] == if j < |a| then a[j] else b[j-|a|];
    }
  }

  lemma JoinAtLast(consumer: Side, a: seq<Key>, p: Key)
    requires RankSorted(consumer, a)
    requires forall i :: 0 <= i < |a| ==> Rank(consumer, a[i].price) < Rank(consumer, p.price)
    ensures RankSorted(consumer, a + [p])
  {
    hide Rank;
    var ps := a + [p];
    forall i, j | 0 <= i < j < |ps| ensures Rank(consumer, ps[i].price) < Rank(consumer, ps[j].price) {
      assert ps[i] == a[i];
      assert ps[j] == if j < |a| then a[j] else p;
    }
  }

  function Queued(l: Levels, p: Key): seq<Entry>
  {
    if p in l then l[p] else []
  }

  /** The prices before and after `p` in matching order, whether or not `p` is one. */
  lemma Around(consumer: Side, l: Levels, p: Key) returns (before: seq<Key>, after: seq<Key>)
    ensures forall q :: q in before || q in after ==> q in l && q != p
    ensures BestFirst(consumer, l.Keys) == before + (if p in l then [p] else []) + after
    ensures BestFirst(consumer, l.Keys + {p}) == before + [p] + after
    ensures forall i :: 0 <= i < |before| ==> Rank(consumer, before[i].price) < Rank(consumer, p.price)
    ensures forall i :: 0 <= i < |after| ==> Rank(consumer, after[i].price) > Rank(consumer, p.price)
  {
    hide BestFirst, Rank;
    var ps := BestFirst(consumer, l.Keys);
    BestFirstSorted(consumer, l.Keys);
    var mid;
    before, mid, after := Cut(consumer, ps, p);
    JoinAtLast(consumer, before, p);
    JoinSorted(consumer, before + [p], after, Rank(consumer, p.price));
    forall q ensures q in before + [p] + after <==> q in l.Keys + {p} {
      assert q in ps <==> q in before || q in mid || q in after;
    }
    SortedIsBestFirst(consumer, before + [p] + after, l.Keys + {p});
  }

  /** Appending to a level, creating it if need be, is a stable insertion into the
      flattened queue. */
  lemma AddIsInsert(consumer: Side, l: Levels, e: Entry)
    requires AtPrice(l)
    ensures Flatten(consumer, l[Key(e.price) := Queued(l, Key(e.price)) + [e]]) == Insert(consumer, Flatten(consumer, l), e)
  {
    hide BestFirst, Flat, Insert, Rank;
    var p := Key(e.price);
    var before, after := Around(consumer, l, p);
    var l' := l[p := Queued(l, p) + [e]];
    assert l'.Keys == l.Keys + {p};
    FlatAround(l, before, p, after);
    FlatAround(l', before, p, after);
    FlatFrame(l, l', before);
    FlatFrame(l, l', after);
    NewcomerGoes(consumer, l, before, p, after, e);
  }

  lemma NewcomerGoes(consumer: Side, l: Levels, before: seq<Key>, p: Key, after: seq<Key>, e: Entry)
    requires AtPrice(l) && (forall q :: q in before ==> q in l) && (forall q :: q in after ==> q in l) && p == Key(e.price)
    requires forall i :: 0 <= i < |before| ==> Rank(consumer, before[i].price) < Rank(consumer, p.price)
    requires forall i :: 0 <= i < |after| ==> Rank(consumer, after[i].price) > Rank(consumer, p.price)
    ensures Insert(consumer, Flat(l, before) + Queued(l, p) + Flat(l, after), e)
         == Flat(l, before) + (Queued(l, p) + [e]) + Flat(l, after)
  {
    hide Flat, Insert, Rank;
    FlatRanks(consumer, l, before, Rank(consumer, p.price));
    FlatRanks(consumer, l, after, Rank(consumer, p.price));
    var head := Flat(l, before) + Queued(l, p);
    InsertSplit(consumer, head, Flat(l, after), e);
    assert Flat(l, before) + (Queued(l, p) + [e]) == head + [e];
  }

  lemma FlatAround(l: Levels, before: seq<Key>, p: Key, after: seq<Key>)
    requires (forall q :: q in before ==> q in l) && (forall q :: q in after ==> q in l)
    ensures var mid := if p in l then [p] else [];
      && (forall q :: q in before + mid + after ==> q in l)
      && Flat(l, before + mid + after) == Flat(l, before) + Queued(l, p) + Flat(l, after)
  {
    var mid := if p in l then [p] else [];
    FlatAppend(l, before + mid, after);
    FlatAppend(l, before, mid);
    assert Flat(l, mid) == Queued(l, p) by {
      if p in l { assert [p][1..] == []; }
    }
  }

  // ---------------------------------------------------------------- removing an order

  lemma RestsTail(a: seq<Entry>, id: OrderId)
    requires a != []
    ensures Rests(id, a) <==> a[0].id == id || Rests(id, a[1..])
  {
    if Rests(id, a) && a[0].id != id {
      var i :| 0 <= i < |a| && a[i].id == id;
      assert a[1..][i-1].id == id;
    }
    if Rests(id, a[1..]) {
      var i :| 0 <= i < |a[1..]| && a[1..][i].id == id;
      assert a[i+1].id == id;
    }
  }

  lemma {:induction false} RemoveSplit(a: seq<Entry>, b: seq<Entry>, id: OrderId)
    ensures Remove(a + b, id) == if Rests(id, a) then Remove(a, id) + b else a + Remove(b, id)
  {
    if a == [] {
      assert a + b == b && !Rests(id, a);
    } else {
      hide Rests;
      assert (a + b)[1..] == a[1..] + b;
      RestsTail(a, id);
      if a[0].id != id {
        RemoveSplit(a[1..], b, id);
        assert [a[0]] + (a[1..] + Remove(b, id)) == a + Remove(b, id);
        assert [a[0]] + (Remove(a[1..], id) + b) == ([a[0]] + Remove(a[1..], id)) + b;
      }
    }
  }

  /** Removing an order from the one level that holds it removes it from the flattened
      queue. The level may stay behind empty. */
  lemma {:induction false} FlatRemove(l: Levels, ps: seq<Key>, p: Key, id: OrderId)
    requires forall q :: q in ps ==> q in l
    requires p in ps && Rests(id, l[p]) && forall i, j :: 0 <= i < j < |ps| ==> ps[i] != ps[j]
    requires forall q :: q in ps && q != p ==> !Rests(id, l[q])
    ensures Flat(l[p := Remove(l[p], id)], ps) == Remove(Flat(l, ps), id)
  {
    hide Remove, Rests;
    var l' := l[p := Remove(l[p], id)];
    RemoveSplit(l[ps[0]], Flat(l, ps[1..]), id);
    assert forall i :: 0 <= i < |ps[1..]| ==> ps[1..][i] == ps[i+1];
    if ps[0] == p {
      FlatFrame(l, l', ps[1..]);
    } else {
      assert p in ps[1..];
      FlatRemove(l, ps[1..], p, id);
    }
  }

  /** Deleting empty levels leaves the flattened queue as it is. */
  lemma SweepKeepsFlat(consumer: Side, l: Levels, gone: set<Key>)
    requires forall p :: p in gone && p in l ==> l[p] == []
    ensures Flatten(consumer, l - gone) == Flatten(consumer, l)
  {
    var ps := BestFirst(consumer, l.Keys);
    var kept := Keep(ps, gone);
    BestFirstSorted(consumer, l.Keys);
    KeepSorted(consumer, ps, gone);
    SortedIsBestFirst(consumer, kept, (l - gone).Keys);
    FlatKeep(l, ps, gone);
  }

  function Keep(ps: seq<Key>, gone: set<Key>): (kept: seq<Key>)
    ensures forall p :: p in kept <==> p in ps && p !in gone
  {
    if ps == [] then [] else (if ps[0] in gone then [] else [ps[0]]) + Keep(ps[1..], gone)
  }

  lemma {:induction false} KeepSorted(consumer: Side, ps: seq<Key>, gone: set<Key>)
    requires RankSorted(consumer, ps)
    ensures RankSorted(consumer, Keep(ps, gone))
  {
    if ps != [] {
      KeepSorted(consumer, ps[1..], gone);
      var tail := Keep(ps[1..], gone);
      forall i | 0 <= i < |tail| ensures Rank(consumer, ps[0].price) < Rank(consumer, tail[i].price) {
        assert tail[i] in ps[1..];
      }
    }
  }

  lemma {:induction false} FlatKeep(l: Levels, ps: seq<Key>, gone: set<Key>)
    requires forall p :: p in ps ==> p in l
    requires forall p :: p in gone && p in l ==> l[p] == []
    ensures Flat(l - gone, Keep(ps, gone)) == Flat(l, ps)
  {
    if ps != [] {
      var kept := Keep(ps[1..], gone);
      FlatKeep(l, ps[1..], gone);
      if ps[0] in gone {
        assert Keep(ps, gone) == kept && l[ps[0]] == [];
      } else {
        assert Keep(ps, gone) == [ps[0]] + kept && (l - gone)[ps[0]] == l[ps[0]];
      }
    }
  }

  // ---------------------------------------------------------------- walking level by level

  /** Walking one queue and then the next is walking their concatenation, provided the
      first walk runs out of makers rather than of crossing prices. */
  lemma {:induction false} ConsumeSplit(t: Ticket, want: real, a: seq<Entry>, b: seq<Entry>)
    requires Positive(a) && forall i :: 0 <= i < |a| ==> Crosses(t, a[i].price)
    ensures var wa := Consume(t, want, a); var wb := Consume(t, wa.left, b);
      && Consume(t, want, a + b) == Walk(wa.fills + wb.fills, wa.rest + wb.rest, wb.left)
      && (wa.left > 0.0 ==> wa.rest == [])
    decreases a
  {
    if a == [] {
      assert a + b == b;
    } else if want <= 0.0 {
    } else {
      var n := Min(want, a[0].remaining);
      assert (a + b)[1..] == a[1..] + b;
      if a[0].remaining - n <= 0.0 {
        ConsumeSplit(t, want - n, a[1..], b);
        var f := Fill(a[0].id, t.id, a[0].price, n, t.side);
        var wa := Consume(t, want - n, a[1..]);
        var wb := Consume(t, wa.left, b);
        assert [f] + (wa.fills + wb.fills) == ([f] + wa.fills) + wb.fills;
      } else {
        var wa := Consume(t, want, a);
        assert wa.left == 0.0 && Consume(t, wa.left, b) == Walk([], b, 0.0);
        assert wa.fills + [] == wa.fills;
        assert [a[0].(remaining := a[0].remaining - n)] + (a[1..] + b) == wa.rest + b;
      }
    }
  }

  // ---------------------------------------------------------------- fills by level

  datatype LevelFill = LevelFill(price: real, quantity: real)

  /** Consecutive fills at one price, added up. */
  function ByLevel(fs: seq<Fill>): (r: seq<LevelFill>)
    ensures fs != [] ==> r != [] && r[0].price == fs[0].price
    ensures fs == [] ==> r == []
  {
    if fs == [] then []
    else
      var tail := ByLevel(fs[1..]);
      if tail != [] && tail[0].price == fs[0].price
      then [LevelFill(fs[0].price, fs[0].quantity + tail[0].quantity)] + tail[1..]
      else [LevelFill(fs[0].price, fs[0].quantity)] + tail
  }

  /** Fills at one price and then fills at another are added up separately. */
  lemma {:induction false} ByLevelSplit(a: seq<Fill>, b: seq<Fill>, p: real)
    requires forall i :: 0 <= i < |a| ==> a[i].price == p
    requires b != [] ==> b[0].price != p
    ensures ByLevel(a + b) == (if a == [] then [] else [LevelFill(p, Quantity(a))]) + ByLevel(b)
  {
    if a == [] {
      assert a + b == b;
    } else {
      assert (a + b)[1..] == a[1..] + b;
      ByLevelSplit(a[1..], b, p);
    }
  }

  /** What the level-by-level fills say of one price is what the fills say of it. */
  function AtLevel(r: seq<LevelFill>, p: real): real
  {
    if r == [] then 0.0 else (if r[0].price == p then r[0].quantity else 0.0) + AtLevel(r[1..], p)
  }

  function QuantityAt(fs: seq<Fill>, p: real): real
  {
    if fs == [] then 0.0 else (if fs[0].price == p then fs[0].quantity else 0.0) + QuantityAt(fs[1..], p)
  }

  lemma {:induction false} ByLevelIsPerPrice(fs: seq<Fill>, p: real)
    ensures AtLevel(ByLevel(fs), p) == QuantityAt(fs, p)
  {
    if fs != [] {
      ByLevelIsPerPrice(fs[1..], p);
      var tail, r := ByLevel(fs[1..]), ByLevel(fs);
      if tail != [] && tail[0].price == fs[0].price {
        assert r[1..] == tail[1..];
      } else {
        assert r[1..] == tail;
      }
    }
  }
}
