/** Capital tracking (src/capital_tracker.py): trades may be recorded while a
    merge sleeps; merges themselves are serialised by a lock. */
module CapitalMerges {
  import opened Basics

  /** The `side` argument after upper-casing. */
  datatype Side = Yes | No | Unknown

  /** A position: shares and average prices of the two outcomes. */
  datatype Holding = Holding(yes: real, no: real, avgYes: real, avgNo: real)

  datatype MergeEvent = MergeEvent(id: string, merged: real, before: real, after: real)

  /** Where the holder of the merge lock is. */
  datatype Phase =
    | Free
    | Sleeping(id: string, mergeable: real, before: real)
    | Notifying

  datatype Tracker = Tracker(
    usdc: real,
    positions: map<string, Holding>,
    history: seq<MergeEvent>,
    phase: Phase
  )

  datatype TradeError = BadShares | BadPrice | BadSide

  datatype TradeResult = Recorded(holding: Holding) | Rejected(error: TradeError)

  const TOLERANCE := 0.01
  const SMALLEST := 0.01

  const NOTHING := Holding(0.0, 0.0, 0.0, 0.0)

  // ---------------------------------------------------------------- the steps

  /** Average price after adding `shares` at `price`. */
  function Blend(held: real, average: real, shares: real, price: real): real
  {
    if held + shares > 0.0 then (held * average + shares * price) / (held + shares) else 0.0
  }

  function Added(h: Holding, side: Side, shares: real, price: real): Holding
  {
    if side.Yes? then h.(yes := h.yes + shares, avgYes := Blend(h.yes, h.avgYes, shares, price))
    else h.(no := h.no + shares, avgNo := Blend(h.no, h.avgNo, shares, price))
  }

  ghost predicate HoldingOk(h: Holding)
  {
    && h.yes >= 0.0 && h.no >= 0.0
    && 0.0 <= h.avgYes <= 1.0
    && 0.0 <= h.avgNo <= 1.0
  }

  ghost predicate HoldingsOk(t: Tracker)
  {
    forall id :: id in t.positions ==> HoldingOk(t.positions[id])
  }

  function PositionOf(t: Tracker, id: string): Holding
  {
    if id in t.positions then t.positions[id] else NOTHING
  }

  /** An unknown side is noticed only after the position has been created. */
  function TradeOn(t: Tracker, id: string, side: Side, shares: real, price: real): (Tracker, TradeResult)
  {
    if shares <= 0.0 then (t, Rejected(BadShares))
    else if price < 0.0 || price > 1.0 then (t, Rejected(BadPrice))
    else if side.Unknown? then (t.(positions := t.positions[id := PositionOf(t, id)]), Rejected(BadSide))
    else
      var h := Added(PositionOf(t, id), side, shares, price);
      (t.(positions := t.positions[id := h]), Recorded(h))
  }

  /** A rejected trade leaves no trace, unless it is the side that is wrong and the
      condition is a new one: then an empty position stays behind. */
  lemma RejectedLeavesNoTrace(t: Tracker, id: string, side: Side, shares: real, price: real)
    requires TradeOn(t, id, side, shares, price).1.Rejected?
    ensures TradeOn(t, id, side, shares, price).0 == t <==>
            shares <= 0.0 || price < 0.0 || price > 1.0 || id in t.positions
    ensures forall other :: PositionOf(TradeOn(t, id, side, shares, price).0, other) == PositionOf(t, other)
  {
    var u := TradeOn(t, id, side, shares, price).0;
    if id in t.positions {
      assert t.positions[id := t.positions[id]] == t.positions;
    } else if shares > 0.0 && 0.0 <= price <= 1.0 {
      assert id in u.positions;
    }
  }

  /** An instance: a first trade on a side nobody knows. */
  lemma EmptyPositionLeft()
    ensures TradeOn(Open(100.0), "c", Unknown, 1.0, 0.5) == (Open(100.0).(positions := map["c" := NOTHING]), Rejected(BadSide))
  {}

  predicate Mergeable(t: Tracker, id: string)
  {
    && id in t.positions
    && Abs(t.positions[id].yes - t.positions[id].no) <= TOLERANCE
    && t.positions[id].yes >= SMALLEST
  }

  /** Up to the await: the amount and the balance are read here. */
  function BegunOn(t: Tracker, id: string): Tracker
    requires t.phase.Free?
  {
    if Mergeable(t, id)
    then t.(phase := Sleeping(id, Min(t.positions[id].yes, t.positions[id].no), t.usdc))
    else t
  }

  /** From the await to the history entry. */
  function Settle(t: Tracker, id: string, merged: real, before: real): Tracker
    requires id in t.positions
  {
    var h := t.positions[id];
    t.(usdc := t.usdc + merged,
       positions := t.positions[id := h.(yes := h.yes - merged, no := h.no - merged)],
       history := t.history + [MergeEvent(id, merged, before, t.usdc + merged)])
  }

  function FinishedOn(t: Tracker): Tracker
    requires t.phase.Sleeping? && t.phase.id in t.positions
  {
    Settle(t, t.phase.id, t.phase.mergeable, t.phase.before).(phase := Notifying)
  }

  function Released(t: Tracker): Tracker
  {
    t.(phase := Free)
  }

  /** What the event loop may run next. `Release` ends the callback, or is the
      cancellation of a merge that is asleep. */
  datatype Step =
    | Trade(id: string, side: Side, shares: real, price: real)
    | Begin(id: string)
    | Finish
    | Release

  /** A step whose turn has not come, such as a merge waiting for the lock,
      leaves everything as it is. */
  function Next(t: Tracker, s: Step): Tracker
  {
    match s
    case Trade(id, side, shares, price) => TradeOn(t, id, side, shares, price).0
    case Begin(id) => if t.phase.Free? then BegunOn(t, id) else t
    case Finish => if t.phase.Sleeping? && t.phase.id in t.positions then FinishedOn(t) else t
    case Release => Released(t)
  }

  // ---------------------------------------------------------------- the invariant

  function MergedFor(history: seq<MergeEvent>, id: string): real
    decreases history
  {
    if history == [] then 0.0
    else
      var e := history[|history| - 1];
      MergedFor(history[..|history| - 1], id) + (if e.id == id then e.merged else 0.0)
  }

  function MergedAll(history: seq<MergeEvent>): real
    decreases history
  {
    if history == [] then 0.0
    else MergedAll(history[..|history| - 1]) + history[|history| - 1].merged
  }

  /** The events' balances form one chain from `start` to `now`. */
  predicate Chained(start: real, history: seq<MergeEvent>, now: real)
    decreases history
  {
    if history == [] then now == start
    else
      var e := history[|history| - 1];
      && e.merged >= 0.0
      && e.after == now
      && e.after == e.before + e.merged
      && Chained(start, history[..|history| - 1], e.before)
  }

  ghost predicate PhaseOk(t: Tracker)
  {
    t.phase.Sleeping? ==>
      && t.phase.id in t.positions
      && 0.0 <= t.phase.mergeable <= Min(t.positions[t.phase.id].yes, t.positions[t.phase.id].no)
      && t.phase.before == t.usdc
  }

  ghost predicate Sound(t: Tracker, start: real)
  {
    HoldingsOk(t) && PhaseOk(t) && Chained(start, t.history, t.usdc)
  }

  function Open(start: real): Tracker
  {
    Tracker(start, map[], [], Free)
  }

  /** The state after a run of steps. */
  function After(start: real, steps: seq<Step>): Tracker
    decreases steps
  {
    if steps == [] then Open(start)
    else Next(After(start, steps[..|steps| - 1]), steps[|steps| - 1])
  }

  function SharesOf(h: Holding, side: Side): real
  {
    match side
    case Yes => h.yes
    case No => h.no
    case Unknown => 0.0
  }

  /** Shares of one outcome that a step adds to one condition. */
  function Adds(s: Step, id: string, side: Side): real
  {
    if s.Trade? && s.id == id && s.side == side && s.shares > 0.0 && 0.0 <= s.price <= 1.0
    then s.shares else 0.0
  }

  function Bought(steps: seq<Step>, id: string, side: Side): real
    decreases steps
  {
    if steps == [] then 0.0
    else Bought(steps[..|steps| - 1], id, side) + Adds(steps[|steps| - 1], id, side)
  }

  // ---------------------------------------------------------------- one step

  lemma Within(weight: real, x: real)
    requires weight >= 0.0 && 0.0 <= x <= 1.0
    ensures 0.0 <= weight * x <= weight
  {}

  /** The new average is the share-weighted mean of the old one and the price. */
  lemma BlendIsAverage(held: real, average: real, shares: real, price: real)
    requires held >= 0.0 && shares > 0.0 && 0.0 <= average <= 1.0 && 0.0 <= price <= 1.0
    ensures 0.0 <= Blend(held, average, shares, price) <= 1.0
    ensures (held + shares) * Blend(held, average, shares, price) == held * average + shares * price
  {
    var a, b := held * average, shares * price;
    assert 0.0 <= a <= held by { Within(held, average); }
    assert 0.0 <= b <= shares by { Within(shares, price); }
    Quotient(a + b, held + shares);
  }

  lemma Quotient(value: real, total: real)
    requires total > 0.0 && 0.0 <= value <= total
    ensures 0.0 <= value / total <= 1.0
    ensures total * (value / total) == value
  {}

  lemma TradeKeepsSound(t: Tracker, start: real, id: string, side: Side, shares: real, price: real)
    requires Sound(t, start)
    ensures Sound(TradeOn(t, id, side, shares, price).0, start)
  {
    if shares > 0.0 && 0.0 <= price <= 1.0 {
      var h := PositionOf(t, id);
      BlendIsAverage(h.yes, h.avgYes, shares, price);
      BlendIsAverage(h.no, h.avgNo, shares, price);
    }
  }

  lemma FinishKeepsSound(t: Tracker, start: real)
    requires Sound(t, start) && t.phase.Sleeping?
    ensures Sound(FinishedOn(t), start)
  {
    var u := FinishedOn(t);
    assert u.history[..|t.history|] == t.history;
  }

  lemma StepKeepsSound(t: Tracker, start: real, s: Step)
    requires Sound(t, start)
    ensures Sound(Next(t, s), start)
  {
    hide Chained, HoldingOk, TradeOn, FinishedOn;
    match s
    case Trade(other, which, shares, price) => TradeKeepsSound(t, start, other, which, shares, price);
    case Begin(_) =>
    case Release =>
    case Finish =>
      if t.phase.Sleeping? {
        FinishKeepsSound(t, start);
      }
  }

  /** One step keeps the invariant, and per condition and outcome moves the
      balance held + merged by exactly what it bought. */
  lemma StepKeeps(t: Tracker, start: real, s: Step, id: string, side: Side)
    requires Sound(t, start) && !side.Unknown?
    ensures Sound(Next(t, s), start)
    ensures SharesOf(PositionOf(Next(t, s), id), side) + MergedFor(Next(t, s).history, id)
         == SharesOf(PositionOf(t, id), side) + MergedFor(t.history, id) + Adds(s, id, side)
    ensures Next(t, s).usdc - MergedAll(Next(t, s).history) == t.usdc - MergedAll(t.history)
  {
    hide Sound, Blend;
    StepKeepsSound(t, start, s);
    if s.Finish? && t.phase.Sleeping? && t.phase.id in t.positions {
      assert FinishedOn(t).history[..|t.history|] == t.history;
    }
  }

  // ---------------------------------------------------------------- every run

  /** After any interleaving of trades and merges: no share count is negative;
      on both outcomes what was bought is what is held plus what was merged;
      the balance is the starting one plus everything merged; and the recorded
      balances of the merges follow on from one another. */
  lemma {:induction false} EveryRun(start: real, steps: seq<Step>, id: string, side: Side)
    requires !side.Unknown?
    ensures Sound(After(start, steps), start)
    ensures SharesOf(PositionOf(After(start, steps), id), side) >= 0.0
    ensures Bought(steps, id, side)
         == SharesOf(PositionOf(After(start, steps), id), side) + MergedFor(After(start, steps).history, id)
    ensures After(start, steps).usdc == start + MergedAll(After(start, steps).history)
    decreases steps
  {
    if steps != [] {
      var front := steps[..|steps| - 1];
      EveryRun(start, front, id, side);
      StepKeeps(After(start, front), start, steps[|steps| - 1], id, side);
    }
  }

  // ---------------------------------------------------------------- trades and average prices

  function AverageOf(h: Holding, side: Side): real
  {
    match side
    case Yes => h.avgYes
    case No => h.avgNo
    case Unknown => 0.0
  }

  function Other(side: Side): Side
  {
    match side
    case Yes => No
    case No => Yes
    case Unknown => Unknown
  }

  /** What a holding of one outcome has cost: shares times average price. */
  function CostOf(h: Holding, side: Side): real { SharesOf(h, side) * AverageOf(h, side) }

  /** A trade, exactly: which error it meets first, or what it makes of the position. The
      outcome traded has so many shares more and has cost so much more; the other outcome,
      other positions, the balance and the merges are as they were. */
  lemma TradeExactly(t: Tracker, id: string, side: Side, shares: real, price: real)
    requires HoldingOk(PositionOf(t, id))
    ensures var (u, r) := TradeOn(t, id, side, shares, price); var h, h' := PositionOf(t, id), PositionOf(u, id);
      && (r == Rejected(BadShares) <==> shares <= 0.0)
      && (r == Rejected(BadPrice) <==> shares > 0.0 && (price < 0.0 || price > 1.0))
      && (r == Rejected(BadSide) <==> shares > 0.0 && 0.0 <= price <= 1.0 && side == Unknown)
      && (r.Recorded? ==>
            && r.holding == h' && id in u.positions && u == t.(positions := t.positions[id := h'])
            && SharesOf(h', side) == SharesOf(h, side) + shares && CostOf(h', side) == CostOf(h, side) + shares * price
            && SharesOf(h', Other(side)) == SharesOf(h, Other(side)) && AverageOf(h', Other(side)) == AverageOf(h, Other(side))
            && CostOf(h', Other(side)) == CostOf(h, Other(side)))
  {
    hide CostOf, Added, HoldingOk;
    if shares > 0.0 && 0.0 <= price <= 1.0 && !side.Unknown? {
      AddedExactly(PositionOf(t, id), side, shares, price);
    }
  }

  lemma AddedExactly(h: Holding, side: Side, shares: real, price: real)
    requires HoldingOk(h) && !side.Unknown? && shares > 0.0 && 0.0 <= price <= 1.0
    ensures var h' := Added(h, side, shares, price);
      && SharesOf(h', side) == SharesOf(h, side) + shares && CostOf(h', side) == CostOf(h, side) + shares * price
      && SharesOf(h', Other(side)) == SharesOf(h, Other(side)) && AverageOf(h', Other(side)) == AverageOf(h, Other(side))
      && CostOf(h', Other(side)) == CostOf(h, Other(side))
  {
    hide Blend;
    BlendIsAverage(SharesOf(h, side), AverageOf(h, side), shares, price);
  }

  /** What a step spends on one outcome of one condition. */
  function Spends(s: Step, id: string, side: Side): real
  {
    if s.Trade? && s.id == id && s.side == side && s.shares > 0.0 && 0.0 <= s.price <= 1.0
    then s.shares * s.price else 0.0
  }

  function Spent(steps: seq<Step>, id: string, side: Side): real
    decreases steps
  {
    if steps == [] then 0.0
    else Spent(steps[..|steps| - 1], id, side) + Spends(steps[|steps| - 1], id, side)
  }

  /** The shares of one condition that a step merges. */
  function MergesOf(t: Tracker, s: Step, id: string): real
  {
    if s.Finish? && t.phase.Sleeping? && t.phase.id in t.positions && t.phase.id == id then t.phase.mergeable else 0.0
  }

  /** One step moves what a holding has cost by what it spends on it and by the merged
      shares at their average price; and only a trade moves an average price. */
  lemma StepCosts(t: Tracker, start: real, s: Step, id: string, side: Side)
    requires Sound(t, start) && !side.Unknown?
    ensures var h, h' := PositionOf(t, id), PositionOf(Next(t, s), id);
      && CostOf(h', side) == CostOf(h, side) + Spends(s, id, side) - MergesOf(t, s, id) * AverageOf(h, side)
      && (Adds(s, id, side) == 0.0 ==> AverageOf(h', side) == AverageOf(h, side))
  {
    hide Sound, CostOf, TradeOn, FinishedOn;
    match s {
      case Trade(other, which, shares, price) => TradeCosts(t, start, other, which, shares, price, id, side);
      case Begin(_) =>
      case Release =>
      case Finish => FinishCosts(t, id, side);
    }
  }

  lemma TradeCosts(t: Tracker, start: real, other: string, which: Side, shares: real, price: real, id: string, side: Side)
    requires Sound(t, start) && !side.Unknown?
    ensures var s := Trade(other, which, shares, price); var h, h' := PositionOf(t, id), PositionOf(Next(t, s), id);
      && CostOf(h', side) == CostOf(h, side) + Spends(s, id, side)
      && (Adds(s, id, side) == 0.0 ==> AverageOf(h', side) == AverageOf(h, side))
  {
    hide Chained, PhaseOk, CostOf, Added;
    TradeExactly(t, other, which, shares, price);
  }

  lemma FinishCosts(t: Tracker, id: string, side: Side)
    requires !side.Unknown?
    ensures var h, h' := PositionOf(t, id), PositionOf(Next(t, Finish), id);
      && CostOf(h', side) == CostOf(h, side) - MergesOf(t, Finish, id) * AverageOf(h, side)
      && AverageOf(h', side) == AverageOf(h, side)
  {
    var h := PositionOf(t, id);
    LessMerged(SharesOf(h, side), MergesOf(t, Finish, id), AverageOf(h, side));
  }

  lemma LessMerged(shares: real, merged: real, average: real)
    ensures (shares - merged) * average == shares * average - merged * average
  {}

  lemma MergesRecorded(t: Tracker, s: Step, id: string)
    ensures t.history <= Next(t, s).history
    ensures MergesOf(t, s, id) != 0.0 ==> Next(t, s).history != [] && Next(t, s).history[|Next(t, s).history| - 1].id == id
  {}

  /** After any interleaving, and until a condition's first merge: on either outcome the
      shares held are those bought, and their average price times their number is what was
      paid for them. */
  lemma {:induction false} AverageIsMeanPaid(start: real, steps: seq<Step>, id: string, side: Side)
    requires !side.Unknown?
    requires forall k :: 0 <= k < |After(start, steps).history| ==> After(start, steps).history[k].id != id
    ensures SharesOf(PositionOf(After(start, steps), id), side) == Bought(steps, id, side)
    ensures CostOf(PositionOf(After(start, steps), id), side) == Spent(steps, id, side)
    decreases steps
  {
    hide Sound, CostOf, Next, MergesOf, MergedFor;
    if steps != [] {
      var front, last := steps[..|steps| - 1], steps[|steps| - 1];
      var before, after := After(start, front).history, After(start, steps).history;
      MergesRecorded(After(start, front), last, id);
      assert forall k :: 0 <= k < |before| ==> before[k] == after[k];
      assert after != [] ==> after[|after| - 1].id != id;
      AverageIsMeanPaid(start, front, id, side);
      EveryRun(start, front, id, side);
      StepCosts(After(start, front), start, last, id, side);
      EveryRun(start, steps, id, side);
      NoneMerged(After(start, steps).history, id);
    } else {
      NothingCosts(side);
    }
  }

  lemma NothingCosts(side: Side)
    ensures SharesOf(NOTHING, side) == 0.0 && CostOf(NOTHING, side) == 0.0
  {}

  lemma {:induction false} NoneMerged(history: seq<MergeEvent>, id: string)
    requires forall k :: 0 <= k < |history| ==> history[k].id != id
    ensures MergedFor(history, id) == 0.0
    decreases history
  {
    if history != [] { NoneMerged(history[..|history| - 1], id); }
  }

  // ---------------------------------------------------------------- one merge, seen from both ends

  /** When a merge begins: the lock is free and the position has outcomes within a hundredth
      of each other, of at least a hundredth; it is to take the smaller one. Otherwise
      nothing changes. */
  lemma BeginsExactly(t: Tracker, id: string)
    ensures var u := Next(t, Begin(id));
      var fit := t.phase == Free && id in t.positions
        && -0.01 <= t.positions[id].yes - t.positions[id].no <= 0.01 && t.positions[id].yes >= 0.01;
      && (!fit ==> u == t)
      && (fit ==> u.phase.Sleeping? && u == t.(phase := u.phase) && u.phase.id == id && u.phase.before == t.usdc
                  && u.phase.mergeable <= t.positions[id].yes && u.phase.mergeable <= t.positions[id].no
                  && u.phase.mergeable in {t.positions[id].yes, t.positions[id].no})
  {}

  /** The lock: from the moment a merge begins no other begins, whatever trades are recorded,
      until it is released; finishing a merge does not release it, and only the holder of a
      sleeping merge can finish one. */
  lemma LockIsHeld(t: Tracker, s: Step)
    requires t.phase != Free && (t.phase.Sleeping? ==> t.phase.id in t.positions)
    ensures Next(t, s).phase == match s
      case Trade(_, _, _, _) => t.phase
      case Begin(_) => t.phase
      case Finish => Notifying
      case Release => Free
    ensures s.Begin? || (s.Finish? && t.phase == Notifying) ==> Next(t, s) == t
    ensures s.Release? ==> Next(t, s) == t.(phase := Free)
  {}


  ghost predicate OnlyTrades(steps: seq<Step>)
  {
    forall k :: 0 <= k < |steps| ==> steps[k].Trade?
  }

  function Fold(t: Tracker, steps: seq<Step>): Tracker
    decreases steps
  {
    if steps == [] then t else Next(Fold(t, steps[..|steps| - 1]), steps[|steps| - 1])
  }

  lemma {:induction false} TradesWhileAsleep(t: Tracker, start: real, steps: seq<Step>, id: string, side: Side)
    requires Sound(t, start) && OnlyTrades(steps) && !side.Unknown?
    ensures Sound(Fold(t, steps), start)
    ensures Fold(t, steps).phase == t.phase && Fold(t, steps).history == t.history
    ensures Fold(t, steps).usdc == t.usdc
    ensures SharesOf(PositionOf(Fold(t, steps), id), side)
         == SharesOf(PositionOf(t, id), side) + Bought(steps, id, side)
    decreases steps
  {
    if steps != [] {
      TradesWhileAsleep(t, start, steps[..|steps| - 1], id, side);
      StepKeeps(Fold(t, steps[..|steps| - 1]), start, steps[|steps| - 1], id, side);
    }
  }

  /** Shares bought while the merge sleeps are not merged: what goes is the
      smaller side as it was when the merge began, and what is left over is the
      imbalance of that moment, at most the tolerance, plus the late trades. */
  lemma LateTradesAreSpared(t: Tracker, start: real, id: string, late: seq<Step>, side: Side)
    requires Sound(t, start) && t.phase.Free? && Mergeable(t, id)
    requires OnlyTrades(late) && !side.Unknown?
    ensures
      var merged := Min(t.positions[id].yes, t.positions[id].no);
      var u := Next(Fold(BegunOn(t, id), late), Finish);
      && u.usdc == t.usdc + merged
      && u.history == t.history + [MergeEvent(id, merged, t.usdc, t.usdc + merged)]
      && SharesOf(PositionOf(u, id), side) == SharesOf(t.positions[id], side) - merged + Bought(late, id, side)
      && 0.0 <= SharesOf(PositionOf(u, id), side) - Bought(late, id, side) <= TOLERANCE
  {
    TradesWhileAsleep(BegunOn(t, id), start, late, id, side);
  }

  /** Why the lock is needed: two merges of one position that both read it before
      either finished would take the shares out twice. */
  lemma UnlockedMergesOversell(t: Tracker, start: real, id: string)
    requires Sound(t, start) && Mergeable(t, id)
    ensures
      var merged := Min(t.positions[id].yes, t.positions[id].no);
      var twice := Settle(Settle(t, id, merged, t.usdc), id, merged, t.usdc);
      && (merged > 0.0 ==> !HoldingsOk(twice))
      && (merged > 0.0 ==> !Chained(start, twice.history, twice.usdc))
  {
    var merged := Min(t.positions[id].yes, t.positions[id].no);
    var once := Settle(t, id, merged, t.usdc);
    var twice := Settle(once, id, merged, t.usdc);
    assert twice.history[..|once.history|] == once.history;
    assert id in twice.positions;
  }

  // ---------------------------------------------------------------- the objects

  class Position {
    var yesShares: real
    var noShares: real
    var avgYesPrice: real
    var avgNoPrice: real

    constructor ()
      ensures View() == NOTHING
    {
      yesShares, noShares, avgYesPrice, avgNoPrice := 0.0, 0.0, 0.0, 0.0;
    }

    function View(): Holding
      reads this
    {
      Holding(yesShares, noShares, avgYesPrice, avgNoPrice)
    }

    method Buy(side: Side, shares: real, price: real)
      requires !side.Unknown?
      modifies this
      ensures View() == Added(old(View()), side, shares, price)
    {
      if side.Yes? {
        var total := yesShares * avgYesPrice + shares * price;
        yesShares := yesShares + shares;
        avgYesPrice := if yesShares > 0.0 then total / yesShares else 0.0;
      } else {
        var total := noShares * avgNoPrice + shares * price;
        noShares := noShares + shares;
        avgNoPrice := if noShares > 0.0 then total / noShares else 0.0;
      }
    }
  }

  class CapitalVelocityTracker {
    var paperUsdc: real
    var positions: map<string, Position>
    var mergeHistory: seq<MergeEvent>
    var phase: Phase
    /** The sleeping merge's own reference to the position it checked. */
    var asleep: Position?

    ghost predicate Valid()
      reads this
    {
      && (forall a, b :: a in positions && b in positions && a != b ==> positions[a] != positions[b])
      && (phase.Sleeping? ==> phase.id in positions && asleep == positions[phase.id])
    }

    ghost function View(): Tracker
      reads this, positions.Values
    {
      Tracker(paperUsdc, Holdings(), mergeHistory, phase)
    }

    ghost function Holdings(): (h: map<string, Holding>)
      reads this`positions, positions.Values
      ensures h.Keys == positions.Keys
    {
      map id | id in positions :: positions[id].View()
    }

    constructor (startingUsdc: real)
      ensures Valid() && View() == Open(startingUsdc)
    {
      paperUsdc := startingUsdc;
      positions := map[];
      mergeHistory := [];
      phase := Free;
      asleep := null;
    }

    method RecordTrade(id: string, side: Side, shares: real, price: real) returns (r: TradeResult)
      requires Valid()
      modifies this, positions.Values
      ensures Valid() && fresh(positions.Values - old(positions.Values))
      ensures (View(), r) == TradeOn(old(View()), id, side, shares, price)
    {
      hide Holdings, Added;
      if shares <= 0.0 {
        return Rejected(BadShares);
      }
      if price < 0.0 || price > 1.0 {
        return Rejected(BadPrice);
      }
      if id !in positions {
        Create(id);
      }
      if side.Unknown? {
        assert Holdings() == old(Holdings())[id := PositionOf(old(View()), id)];
        return Rejected(BadSide);
      }
      var bought := Buy(id, side, shares, price);
      assert Holdings() == old(Holdings())[id := bought];
      r := Recorded(bought);
    }

    method Buy(id: string, side: Side, shares: real, price: real) returns (h: Holding)
      requires Valid() && id in positions && !side.Unknown?
      modifies positions[id]
      ensures Valid() && Holdings() == old(Holdings())[id := h]
      ensures h == Added(old(Holdings())[id], side, shares, price)
    {
      var position := positions[id];
      position.Buy(side, shares, price);
      h := position.View();
    }

    method Withdraw(position: Position, merged: real, ghost id: string)
      requires Valid() && id in positions && position == positions[id]
      modifies position
      ensures Valid()
      ensures var h := old(Holdings())[id];
              Holdings() == old(Holdings())[id := h.(yes := h.yes - merged, no := h.no - merged)]
    {
      position.yesShares := position.yesShares - merged;
      position.noShares := position.noShares - merged;
      assert Holdings()[id] == position.View();
    }

    method Create(id: string)
      requires Valid() && id !in positions
      modifies this`positions
      ensures Valid() && id in positions && fresh(positions[id])
      ensures positions == old(positions)[id := positions[id]]
      ensures Holdings() == old(Holdings())[id := NOTHING]
    {
      var created := new Position();
      positions := positions[id := created];
    }

    /** check_and_execute_merge up to its await. */
    method BeginMerge(id: string) returns (asleepNow: bool)
      requires Valid() && phase.Free?
      modifies this
      ensures Valid() && positions == old(positions)
      ensures View() == BegunOn(old(View()), id) && asleepNow == phase.Sleeping?
    {
      if id !in positions {
        return false;
      }
      var position := positions[id];
      if Abs(position.yesShares - position.noShares) > TOLERANCE {
        return false;
      }
      if position.yesShares < SMALLEST {
        return false;
      }
      phase := Sleeping(id, Min(position.yesShares, position.noShares), paperUsdc);
      asleep := position;
      return true;
    }

    /** From the await to the callback. */
    method FinishMerge() returns (event: MergeEvent)
      requires Valid() && phase.Sleeping?
      modifies this, positions.Values
      ensures Valid() && positions == old(positions)
      ensures View() == FinishedOn(old(View()))
      ensures mergeHistory == old(mergeHistory) + [event]
    {
      hide Holdings, Settle;
      event := SettleMerge(asleep, phase.id, phase.mergeable, phase.before);
      phase := Notifying;
    }

    method SettleMerge(position: Position, id: string, merged: real, before: real) returns (event: MergeEvent)
      requires Valid() && id in positions && position == positions[id]
      modifies this`paperUsdc, this`mergeHistory, positions.Values
      ensures Valid() && id in old(View()).positions
      ensures View() == Settle(old(View()), id, merged, before)
      ensures mergeHistory == old(mergeHistory) + [event]
    {
      hide Holdings;
      RecalculateBalance(merged);
      event := MergeEvent(id, merged, before, paperUsdc);
      Withdraw(position, merged, id);
      mergeHistory := mergeHistory + [event];
    }

    /** The lock is given up: after the callback, or when a sleeping merge is
        cancelled, in which case nothing else has changed. */
    method ReleaseLock()
      requires Valid()
      modifies this`phase
      ensures Valid() && View() == Released(old(View()))
    {
      phase := Free;
    }

    method RecalculateBalance(merged: real)
      modifies this`paperUsdc
      ensures paperUsdc == old(paperUsdc) + merged
    {
      paperUsdc := paperUsdc + merged;
    }
  }
}
