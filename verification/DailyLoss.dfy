/** Daily loss limits: losses add up, profits pay them back, never below zero, day by day. */
module DailyLoss {
  import opened Basics

  type Day = string

  function Tracked(losses: map<Day, real>, day: Day): real
  {
    if day in losses then losses[day] else 0.0
  }

  datatype Entry = Loss(day: Day, amount: real) | Profit(day: Day, amount: real)

  /** Amounts that are not positive are ignored. */
  function Enter(losses: map<Day, real>, e: Entry): map<Day, real>
  {
    if e.amount <= 0.0 then losses
    else match e
      case Loss(day, amount) => losses[day := Tracked(losses, day) + amount]
      case Profit(day, amount) => losses[day := Max(0.0, Tracked(losses, day) - amount)]
  }

  function EnterAll(losses: map<Day, real>, es: seq<Entry>): map<Day, real>
  {
    if es == [] then losses else Enter(EnterAll(losses, es[..|es|-1]), es[|es|-1])
  }

  predicate Allowed(limit: real, losses: map<Day, real>, day: Day)
  {
    limit <= 0.0 || Tracked(losses, day) < limit
  }

  // ---------------------------------------------------------------- the closed form

  /** What an entry does to a day's profit and loss. */
  function Change(e: Entry, day: Day): real
  {
    if e.day != day || e.amount <= 0.0 then 0.0 else if e.Loss? then -e.amount else e.amount
  }

  /** A day's running profit and loss. */
  function Balance(es: seq<Entry>, day: Day): real
  {
    if es == [] then 0.0 else Balance(es[..|es|-1], day) + Change(es[|es|-1], day)
  }

  /** The best that balance has been at any time, starting from nothing. */
  ghost predicate IsBest(es: seq<Entry>, day: Day, best: real)
  {
    && (forall n :: 0 <= n <= |es| ==> Balance(es[..n], day) <= best)
    && (exists n :: 0 <= n <= |es| && Balance(es[..n], day) == best)
  }

  lemma BestStep(es: seq<Entry>, day: Day, was: real)
    requires es != [] && IsBest(es[..|es|-1], day, was)
    ensures IsBest(es, day, Max(was, Balance(es, day))) && Balance(es[..|es|-1], day) <= was
  {
    hide Balance;
    var n := |es| - 1;
    var front := es[..n];
    assert forall i :: 0 <= i <= n ==> front[..i] == es[..i];
    assert front[..n] == front && es[..|es|] == es;
    var i :| 0 <= i <= n && Balance(front[..i], day) == was;
    assert Balance(es[..i], day) == was && Balance(es[..|es|], day) == Balance(es, day);
    assert forall i :: 0 <= i <= n ==> Balance(es[..i], day) == Balance(front[..i], day);
    assert Balance(front[..n], day) <= was;
  }

  /** The loss tracked for a day is the fall from that day's best balance to its current
      balance; entries of other days do not touch it. */
  lemma {:induction false} TrackedIsFallFromBest(es: seq<Entry>, day: Day) returns (best: real)
    ensures IsBest(es, day, best)
    ensures Tracked(EnterAll(map[], es), day) == best - Balance(es, day)
  {
    if es == [] {
      best := 0.0;
      assert Balance(es[..0], day) == 0.0;
    } else {
      hide IsBest;
      var was := TrackedIsFallFromBest(es[..|es|-1], day);
      BestStep(es, day, was);
      best := Max(was, Balance(es, day));
    }
  }

  /** Trading is blocked exactly when there is a limit and the fall has reached it. */
  lemma BlockedExactlyAtLimit(limit: real, es: seq<Entry>, day: Day, best: real)
    requires IsBest(es, day, best)
    ensures Allowed(limit, EnterAll(map[], es), day) <==> limit <= 0.0 || best - Balance(es, day) < limit
  {
    var b := TrackedIsFallFromBest(es, day);
    BestIsUnique(es, day, best, b);
  }

  lemma AllowedByFall(limit: real, es: seq<Entry>, day: Day)
    ensures forall best :: IsBest(es, day, best) ==>
              (Allowed(limit, EnterAll(map[], es), day) <==> limit <= 0.0 || best - Balance(es, day) < limit)
  {
    forall best | IsBest(es, day, best)
      ensures Allowed(limit, EnterAll(map[], es), day) <==> limit <= 0.0 || best - Balance(es, day) < limit
    {
      BlockedExactlyAtLimit(limit, es, day, best);
    }
  }

  lemma BestIsUnique(es: seq<Entry>, day: Day, a: real, b: real)
    requires IsBest(es, day, a) && IsBest(es, day, b)
    ensures a == b
  {
    var i :| 0 <= i <= |es| && Balance(es[..i], day) == a;
    var j :| 0 <= j <= |es| && Balance(es[..j], day) == b;
    assert Balance(es[..i], day) <= b && Balance(es[..j], day) <= a;
  }

  // ---------------------------------------------------------------- the class

  class DailyLossLimiter {
    const dailyLimit: real
    var losses: map<Day, real>

    /** Everything reported so far. */
    ghost var entered: seq<Entry>

    ghost predicate Valid()
      reads this
    {
      losses == EnterAll(map[], entered)
    }

    constructor (dailyLimit: real)
      ensures Valid() && this.dailyLimit == dailyLimit && losses == map[] && entered == []
    {
      this.dailyLimit := dailyLimit;
      losses, entered := map[], [];
    }

    method RecordLoss(day: Day, amount: real)
      requires Valid()
      modifies this
      ensures Valid() && entered == old(entered) + [Loss(day, amount)]
      ensures losses == Enter(old(losses), Loss(day, amount)) && (amount <= 0.0 ==> losses == old(losses))
    {
      entered := entered + [Loss(day, amount)];
      assert entered[..|entered|-1] == old(entered);
      if amount <= 0.0 {
        return;
      }
      losses := losses[day := Tracked(losses, day) + amount];
    }

    method RecordProfit(day: Day, amount: real)
      requires Valid()
      modifies this
      ensures Valid() && entered == old(entered) + [Profit(day, amount)]
      ensures losses == Enter(old(losses), Profit(day, amount)) && (amount <= 0.0 ==> losses == old(losses))
    {
      entered := entered + [Profit(day, amount)];
      assert entered[..|entered|-1] == old(entered);
      if amount <= 0.0 {
        return;
      }
      losses := losses[day := Max(0.0, Tracked(losses, day) - amount)];
    }

    /** Whether the day's fall from its best balance has stayed short of a positive limit. */
    predicate IsTradingAllowed(day: Day): (ok: bool)
      requires Valid()
      reads this
      ensures forall best :: IsBest(entered, day, best) ==>
                (ok <==> dailyLimit <= 0.0 || best - Balance(entered, day) < dailyLimit)
    {
      AllowedByFall(dailyLimit, entered, day);
      Allowed(dailyLimit, losses, day)
    }
  }
}
