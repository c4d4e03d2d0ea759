/** The mode machine of a portfolio: dry runs, small live tests, and autonomous trading,
    with automatic promotion after a winning streak and demotion at the daily loss limit. */
module PortfolioModes {
  import opened Basics
  import opened DailyLoss

  datatype Mode = DRY_RUN | LIVE_TEST | AUTONOMOUS

  datatype Portfolio = Portfolio(initial: real, balance: real, mode: Mode, streak: nat,
                                 trades: nat, wins: nat, losses: nat, profit: real)

  /** The loss limiter, if there is one. */
  datatype Guard = Unguarded | Guarded(limit: real, losses: map<Day, real>)

  /** `waiting` counts the executions that began in autonomous mode and are still reading
      the balance. */
  datatype State = State(p: Portfolio, g: Guard, waiting: nat)

  const REQUIRED_CONSECUTIVE_WINS := 3

  predicate MayTrade(g: Guard, day: Day)
  {
    g.Unguarded? || Allowed(g.limit, g.losses, day)
  }

  // ---------------------------------------------------------------- the steps

  function Booked(g: Guard, e: Entry): Guard
  {
    if g.Unguarded? then g else g.(losses := Enter(g.losses, e))
  }

  /** Books a won or lost trade. A win that paid less than it cost still counts as a win,
      and its negative profit is ignored by the limiter. */
  function Settle(s: State, cost: real, won: bool, payout: real, day: Day): State
  {
    var p := s.p;
    if won then
      var gain := payout - cost;
      State(p.(wins := p.wins + 1, streak := p.streak + 1, balance := p.balance + gain, profit := p.profit + gain,
               trades := p.trades + 1),
            Booked(s.g, Profit(day, gain)), s.waiting)
    else
      State(p.(losses := p.losses + 1, streak := 0, balance := p.balance - cost, profit := p.profit - cost,
               trades := p.trades + 1),
            Booked(s.g, Loss(day, cost)), s.waiting)
  }

  function Upgrade(p: Portfolio): Portfolio
  {
    if p.mode == LIVE_TEST && p.streak >= REQUIRED_CONSECUTIVE_WINS then p.(mode := AUTONOMOUS) else p
  }

  function Demoted(p: Portfolio): Portfolio { p.(mode := LIVE_TEST, streak := 0) }

  function Downgrade(s: State, day: Day): State
  {
    if s.p.mode == AUTONOMOUS && !MayTrade(s.g, day) then s.(p := Demoted(s.p)) else s
  }

  function RecordOutcome(s: State, cost: real, won: bool, payout: real, day: Day): State
  {
    var settled := Settle(s, cost, won, payout, day);
    Downgrade(settled.(p := Upgrade(settled.p)), day)
  }

  function SetMode(p: Portfolio, mode: Mode): Portfolio
  {
    if mode != p.mode then p.(mode := mode, streak := 0) else p
  }

  /** A balance read from outside; a failed reading changes nothing. */
  function Refresh(p: Portfolio, reading: Option<real>): Portfolio
  {
    if reading.Some? then p.(balance := reading.value) else p
  }

  /** The gate in front of an order, for an execution that began in mode `began`: live
      trading needs the limiter's leave, and one that began autonomous demotes the engine
      without it, whatever mode the engine is in by now. */
  function Gate(s: State, began: Mode, day: Day): (State, bool)
  {
    if began == DRY_RUN || MayTrade(s.g, day) then (s, true)
    else (if began == AUTONOMOUS then s.(p := Demoted(s.p)) else s, false)
  }

  /** An execution up to its first await. An autonomous one goes to read the balance; any
      other passes the gate, or not, at once. */
  function Begin(s: State, day: Day): (State, Option<bool>)
  {
    if s.p.mode == AUTONOMOUS then (s.(waiting := s.waiting + 1), None)
    else var (s', ok) := Gate(s, s.p.mode, day); (s', Some(ok))
  }

  /** From the balance to the order. */
  function Resume(s: State, reading: Option<real>, day: Day): (State, bool)
    requires s.waiting > 0
  {
    Gate(s.(p := Refresh(s.p, reading), waiting := s.waiting - 1), AUTONOMOUS, day)
  }

  datatype Event =
    | Outcome(cost: real, won: bool, payout: real, day: Day)
    | ModeSet(mode: Mode)
    | Begun(day: Day)
    | Resumed(reading: Option<real>, day: Day)
    | BalanceRead(reading: Option<real>)

  /** With no execution waiting there is none to resume. */
  function Step(s: State, e: Event): State
  {
    match e
    case Outcome(cost, won, payout, day) => RecordOutcome(s, cost, won, payout, day)
    case ModeSet(mode) => s.(p := SetMode(s.p, mode))
    case Begun(day) => Begin(s, day).0
    case Resumed(reading, day) => if s.waiting > 0 then Resume(s, reading, day).0 else s
    case BalanceRead(reading) => s.(p := Refresh(s.p, reading))
  }

  function Initial(balance: real, mode: Mode): Portfolio
  {
    Portfolio(balance, balance, mode, 0, 0, 0, 0, 0.0)
  }

  // ---------------------------------------------------------------- runs

  /** A run of a newly made engine. */
  ghost predicate IsRun(states: seq<State>, events: seq<Event>)
  {
    && |states| == |events| + 1
    && states[0].p == Initial(states[0].p.initial, states[0].p.mode) && states[0].waiting == 0
    && forall i :: 0 <= i < |events| ==> states[i+1] == Step(states[i], events[i])
  }

  /** A live test never holds a full winning streak, and every trade was won or lost. */
  lemma {:induction false} AlwaysConsistent(states: seq<State>, events: seq<Event>, i: nat)
    requires IsRun(states, events) && i < |states|
    ensures var p := states[i].p;
      && (p.mode == LIVE_TEST ==> p.streak < REQUIRED_CONSECUTIVE_WINS)
      && p.trades == p.wins + p.losses && p.streak <= p.wins
      && p.initial == states[0].p.initial
  {
    if i > 0 {
      AlwaysConsistent(states, events, i - 1);
      assert states[i-1+1] == Step(states[i-1], events[i-1]);
    }
  }

  /** While the balance is not read from outside, it has moved by exactly the profit booked. */
  lemma {:induction false} BalanceIsProfit(states: seq<State>, events: seq<Event>, i: nat)
    requires IsRun(states, events) && i < |states|
    requires forall k :: 0 <= k < i && (events[k].BalanceRead? || events[k].Resumed?) ==> events[k].reading.None?
    ensures states[i].p.balance - states[i].p.initial == states[i].p.profit
  {
    if i > 0 {
      BalanceIsProfit(states, events, i - 1);
      assert states[i-1+1] == Step(states[i-1], events[i-1]);
    }
  }

  /** Right after an outcome, and right after an execution has come back from reading the
      balance, autonomous trading is on only if the limiter allows trading. */
  lemma AutonomousOnlyIfAllowed(s: State, e: Event)
    requires e.Outcome? || (e.Resumed? && s.waiting > 0)
    requires Step(s, e).p.mode == AUTONOMOUS
    ensures MayTrade(Step(s, e).g, e.day)
    ensures e.Resumed? ==> Resume(s, e.reading, e.day).1
  {}

  // ---------------------------------------------------------------- what outcomes book

  /** What an outcome brings in: the payout of a won trade less its cost, and the cost of a
      lost one gone. */
  function Gain(e: Event): real
  {
    if !e.Outcome? then 0.0 else if e.won then e.payout - e.cost else -e.cost
  }

  function Gains(events: seq<Event>): real
  {
    if events == [] then 0.0 else Gains(events[..|events|-1]) + Gain(events[|events|-1])
  }

  function Wins(events: seq<Event>): nat
  {
    if events == [] then 0 else Wins(events[..|events|-1]) + (if events[|events|-1].Outcome? && events[|events|-1].won then 1 else 0)
  }

  predicate Loses(e: Event) { e.Outcome? && !e.won }

  function Losses(events: seq<Event>): nat
  {
    if events == [] then 0 else Losses(events[..|events|-1]) + (if Loses(events[|events|-1]) then 1 else 0)
  }

  /** What the limiter is told: the profit of every win and the cost of every loss. */
  function Reported(events: seq<Event>): seq<Entry>
  {
    if events == [] then []
    else
      var e := events[|events|-1];
      Reported(events[..|events|-1])
      + (if !e.Outcome? then [] else if e.won then [Profit(e.day, e.payout - e.cost)] else [Loss(e.day, e.cost)])
  }

  /** At every point of every run the books are a function of the outcomes alone: the profit
      is what they brought in, the counters count them, and the limiter has been told them. */
  lemma {:induction false} OutcomesBooked(states: seq<State>, events: seq<Event>, i: nat)
    requires IsRun(states, events) && i < |states|
    ensures var p, g, past := states[i].p, states[i].g, events[..i];
      && p.profit == Gains(past) && p.wins == Wins(past) && p.losses == Losses(past) && p.trades == p.wins + p.losses
      && g == match states[0].g
              case Unguarded => Unguarded
              case Guarded(limit, losses) => Guarded(limit, EnterAll(losses, Reported(past)))
  {
    if i > 0 {
      hide Enter, Allowed;
      var s, e := states[i-1], events[i-1];
      OutcomesBooked(states, events, i - 1);
      assert states[i-1+1] == Step(s, e) && events[..i][..i-1] == events[..i-1];
      OutcomeBooks(s, e);
      ReportedOnce(events[..i]);
    }
  }

  lemma OutcomeBooks(s: State, e: Event)
    ensures var p, p' := s.p, Step(s, e).p;
      && p'.profit == p.profit + Gain(e)
      && p'.wins == p.wins + (if e.Outcome? && e.won then 1 else 0) && p'.losses == p.losses + (if Loses(e) then 1 else 0)
      && p'.trades == p.trades + (if e.Outcome? then 1 else 0)
    ensures Step(s, e).g == if !e.Outcome? || s.g.Unguarded? then s.g
      else s.g.(losses := Enter(s.g.losses, if e.won then Profit(e.day, e.payout - e.cost) else Loss(e.day, e.cost)))
  {
    hide Enter, Allowed;
  }

  lemma ReportedOnce(events: seq<Event>)
    requires events != []
    ensures var e, before, after := events[|events|-1], Reported(events[..|events|-1]), Reported(events);
      && (!e.Outcome? ==> after == before)
      && (e.Outcome? ==>
            && after != [] && after[..|after|-1] == before
            && after[|after|-1] == if e.won then Profit(e.day, e.payout - e.cost) else Loss(e.day, e.cost))
  {}

  /** A balance reading that takes effect. */
  predicate Reads(s: State, e: Event)
  {
    (e.BalanceRead? || (e.Resumed? && s.waiting > 0)) && e.reading.Some?
  }

  lemma BalanceMoves(s: State, e: Event)
    ensures Step(s, e).p.balance == if Reads(s, e) then e.reading.value else s.p.balance + Gain(e)
  {
    hide Enter, Allowed;
  }

  /** The balance at every point of every run: what was read last, or the initial one, and
      what the outcomes since then brought in. */
  lemma {:induction false} BalanceSinceReading(states: seq<State>, events: seq<Event>, j: nat, i: nat)
    requires IsRun(states, events) && j <= i < |states|
    requires j == 0 || Reads(states[j-1], events[j-1])
    requires forall k :: j <= k < i ==> !Reads(states[k], events[k])
    ensures states[i].p.balance == (if j == 0 then states[0].p.initial else events[j-1].reading.value) + Gains(events[j..i])
    decreases i
  {
    hide Step, Gain;
    if i == j {
      assert events[j..i] == [];
      if j > 0 {
        assert states[j-1+1] == Step(states[j-1], events[j-1]);
        BalanceMoves(states[j-1], events[j-1]);
      }
    } else {
      BalanceSinceReading(states, events, j, i - 1);
      assert states[i-1+1] == Step(states[i-1], events[i-1]);
      BalanceMoves(states[i-1], events[i-1]);
      assert events[j..i][..|events[j..i]|-1] == events[j..i-1];
    }
  }

  /** What the limiter lets through in a run that starts with an empty one: trading is
      blocked on a day exactly if there is a positive limit and the profit and loss of that
      day's outcomes have fallen that far from the best they have been. */
  lemma BlockedByOutcomes(states: seq<State>, events: seq<Event>, i: nat, limit: real, day: Day, best: real)
    requires IsRun(states, events) && i < |states| && states[0].g == Guarded(limit, map[])
    requires IsBest(Reported(events[..i]), day, best)
    ensures !MayTrade(states[i].g, day) <==> limit > 0.0 && best - Balance(Reported(events[..i]), day) >= limit
  {
    hide IsBest, Balance, EnterAll, Allowed;
    OutcomesBooked(states, events, i);
    BlockedExactlyAtLimit(limit, Reported(events[..i]), day, best);
  }

  // ---------------------------------------------------------------- the mode after every event

  /** The mode machine, event by event: when the mode changes, what becomes of the streak,
      and how many executions are waiting. */
  lemma ModeAfter(s: State, e: Event)
    requires s.p.mode == LIVE_TEST ==> s.p.streak < 3
    ensures var p, p', g' := s.p, Step(s, e).p, Step(s, e).g;
      match e
      case Outcome(_, won, _, day) =>
        var earned := p.mode == AUTONOMOUS || (p.mode == LIVE_TEST && won && p.streak >= 2);
        && p'.mode == (if !earned then p.mode else if MayTrade(g', day) then AUTONOMOUS else LIVE_TEST)
        && p'.streak == (if !won || (earned && !MayTrade(g', day)) then 0 else p.streak + 1)
        && Step(s, e).waiting == s.waiting
      case ModeSet(mode) => Step(s, e) == s.(p := p.(mode := mode, streak := if mode == p.mode then p.streak else 0))
      case Begun(_) => Step(s, e) == s.(waiting := s.waiting + if p.mode == AUTONOMOUS then 1 else 0)
      case Resumed(_, day) =>
        if s.waiting == 0 then Step(s, e) == s
        else
          && (MayTrade(s.g, day) ==> p'.mode == p.mode && p'.streak == p.streak)
          && (!MayTrade(s.g, day) ==> p'.mode == LIVE_TEST && p'.streak == 0)
          && Step(s, e).waiting == s.waiting - 1
      case BalanceRead(_) => p'.mode == p.mode && p'.streak == p.streak && Step(s, e).waiting == s.waiting
  {
    hide Enter, Allowed;
  }

  /** Which executions get their order through: all in a dry run, any other exactly with the
      limiter's leave, and without a limiter always. An autonomous one is first sent to
      read the balance. */
  lemma OrdersNeedLeave(s: State, reading: Option<real>, day: Day)
    ensures Begin(s, day).1 == match s.p.mode
      case DRY_RUN => Some(true)
      case LIVE_TEST => Some(MayTrade(s.g, day))
      case AUTONOMOUS => None
    ensures s.waiting > 0 ==> (Resume(s, reading, day).1 <==> MayTrade(s.g, day))
    ensures s.g == Unguarded ==> MayTrade(s.g, day)
  {
    hide Allowed;
  }

  // ---------------------------------------------------------------- dry runs

  /** A dry run is meant to be left by hand only. It is also left for live tests when an
      execution that began before it comes back to find the limiter blocking, and in no
      other way. */
  lemma LeavesDryRun(s: State, e: Event)
    requires s.p.mode == DRY_RUN
    ensures Step(s, e).p.mode != DRY_RUN <==>
      (e.ModeSet? && e.mode != DRY_RUN) || (e.Resumed? && s.waiting > 0 && !MayTrade(s.g, e.day))
    ensures e.Resumed? && Step(s, e).p.mode != DRY_RUN ==> Step(s, e).p.mode == LIVE_TEST
  {}

  /** The stale mode counts for the order as well: an execution begun autonomous sends its
      order out of an engine that is in dry run exactly if the limiter allows trading, and
      then the dry run goes on. */
  lemma OrdersFromDryRun(s: State, reading: Option<real>, day: Day)
    requires s.p.mode == DRY_RUN && s.waiting > 0
    ensures Resume(s, reading, day).1 <==> MayTrade(s.g, day)
    ensures Resume(s, reading, day).0.p.mode == DRY_RUN <==> MayTrade(s.g, day)
  {}

  /** So a dry run entered with nothing waiting lasts until the mode is set by hand. */
  lemma {:induction false} DryRunLasts(states: seq<State>, events: seq<Event>, i: nat, j: nat)
    requires IsRun(states, events) && i <= j < |states|
    requires states[i].p.mode == DRY_RUN && states[i].waiting == 0
    requires forall k :: i <= k < j ==> !events[k].ModeSet?
    ensures states[j].p.mode == DRY_RUN && states[j].waiting == 0
    decreases j
  {
    if i < j {
      DryRunLasts(states, events, i, j - 1);
      var e := events[j-1];
      assert states[j-1+1] == Step(states[j-1], e);
      LeavesDryRun(states[j-1], e);
    }
  }

  /** With something waiting it may not: an autonomous execution begins, the engine is put
      in dry run, a loss reaches the limit, the execution comes back, and live tests are on. */
  lemma DryRunLeftExample()
    ensures exists states: seq<State>, events: seq<Event> ::
      && |events| == 4 && IsRun(states, events)
      && events[1] == ModeSet(DRY_RUN) && !events[2].ModeSet? && !events[3].ModeSet?
      && states[2].p.mode == states[3].p.mode == DRY_RUN && states[4].p.mode == LIVE_TEST
  {
    var events := [Begun("d"), ModeSet(DRY_RUN), Outcome(5.0, false, 0.0, "d"), Resumed(None, "d")];
    var s0 := State(Initial(100.0, AUTONOMOUS), Guarded(5.0, map[]), 0);
    var s1 := Step(s0, events[0]);
    var s2 := Step(s1, events[1]);
    var s3 := Step(s2, events[2]);
    var states := [s0, s1, s2, s3, Step(s3, events[3])];
    assert IsRun(states, events);
  }

  // ---------------------------------------------------------------- promotions

  /** The event promotes the portfolio by itself: the limiter may still take it back. */
  predicate Promotes(s: State, e: Event)
  {
    e.Outcome? && s.p.mode == LIVE_TEST &&
    Upgrade(Settle(s, e.cost, e.won, e.payout, e.day).p).mode == AUTONOMOUS
  }

  /** An execution begun in autonomous mode comes back and the limiter blocks it. */
  predicate ComesBackBlocked(s: State, e: Event)
  {
    e.Resumed? && s.waiting > 0 && !MayTrade(s.g, e.day)
  }

  /** What starts the streak afresh: a loss, a change of mode, a promotion even if it is
      taken back at once, and an autonomous execution that comes back blocked even if it
      finds a live test. */
  predicate Breaks(s: State, e: Event)
  {
    Loses(e) || Step(s, e).p.mode != s.p.mode || Promotes(s, e) || ComesBackBlocked(s, e)
  }

  /** Nothing breaks the streak from state `j` to state `i`. */
  ghost predicate Whole(states: seq<State>, events: seq<Event>, j: nat, i: nat)
    requires j <= i < |states| == |events| + 1
  {
    forall k :: j <= k < i ==> !Breaks(states[k], events[k])
  }

  /** State `j` is where the stretch up to state `i` begins: nothing breaks it since, and
      the run begins there or the step to it is a break. */
  ghost predicate Begins(states: seq<State>, events: seq<Event>, j: nat, i: nat)
    requires j <= i < |states| == |events| + 1
  {
    Whole(states, events, j, i) && (j == 0 || Breaks(states[j-1], events[j-1]))
  }

  lemma UnbrokenStep(s: State, e: Event)
    requires !Breaks(s, e) && s.p.mode == LIVE_TEST
    ensures Step(s, e).p.streak == s.p.streak + (if e.Outcome? && e.won then 1 else 0)
  {
    hide Enter, Allowed;
  }

  lemma BrokenStep(s: State, e: Event)
    requires Breaks(s, e) && Step(s, e).p.mode == LIVE_TEST
    requires s.p.mode == LIVE_TEST ==> s.p.streak < REQUIRED_CONSECUTIVE_WINS
    ensures Step(s, e).p.streak == 0
  {
    hide Enter, Allowed;
  }

  /** Over any stretch of a live test that nothing breaks, the streak grows by the wins. */
  lemma {:induction false} StreakGrowsByWins(states: seq<State>, events: seq<Event>, j: nat, i: nat)
    requires IsRun(states, events) && j <= i < |states| && states[i].p.mode == LIVE_TEST && Whole(states, events, j, i)
    ensures states[j].p.mode == LIVE_TEST
    ensures states[i].p.streak == states[j].p.streak + Wins(events[j..i])
    decreases i
  {
    if j == i {
      assert events[j..i] == [];
    } else {
      var s, e := states[i-1], events[i-1];
      assert states[i-1+1] == Step(s, e) && !Breaks(s, e);
      UnbrokenStep(s, e);
      hide Breaks, Step;
      StreakGrowsByWins(states, events, j, i - 1);
      assert events[j..i][..|events[j..i]|-1] == events[j..i-1];
    }
  }

  /** The streak of a live test counts the wins since the last break. */
  lemma StreakCountsWins(states: seq<State>, events: seq<Event>, j: nat, i: nat)
    requires IsRun(states, events) && j <= i < |states| && states[i].p.mode == LIVE_TEST && Begins(states, events, j, i)
    ensures states[i].p.streak == Wins(events[j..i]) < REQUIRED_CONSECUTIVE_WINS
  {
    hide Breaks, Step;
    AlwaysConsistent(states, events, i);
    StreakGrowsByWins(states, events, j, i);
    if j > 0 {
      AlwaysConsistent(states, events, j - 1);
      assert states[j-1+1] == Step(states[j-1], events[j-1]);
      BrokenStep(states[j-1], events[j-1]);
    }
  }

  /** There is always exactly one place where the stretch up to a state begins. */
  lemma {:induction false} BeginsSomewhere(states: seq<State>, events: seq<Event>, i: nat) returns (j: nat)
    requires |states| == |events| + 1 && i < |states|
    ensures j <= i && Begins(states, events, j, i)
    ensures forall k: nat | k <= i && Begins(states, events, k, i) :: k == j
    decreases i
  {
    hide Breaks;
    if i == 0 || Breaks(states[i-1], events[i-1]) {
      j := i;
    } else {
      j := BeginsSomewhere(states, events, i - 1);
      forall k: nat | k <= i && Begins(states, events, k, i) ensures k == j {
        if k < i { assert Begins(states, events, k, i - 1); }
      }
    }
  }

  /** An outcome promotes a live test if and only if it is the third win since the last
      break. */
  lemma PromotionNeedsThreeWins(states: seq<State>, events: seq<Event>, j: nat, i: nat)
    requires IsRun(states, events) && j <= i < |events| && states[i].p.mode == LIVE_TEST && Begins(states, events, j, i)
    ensures Promotes(states[i], events[i]) <==>
      events[i].Outcome? && events[i].won && Wins(events[j..i+1]) == REQUIRED_CONSECUTIVE_WINS
  {
    StreakCountsWins(states, events, j, i);
    assert events[j..i+1][..|events[j..i+1]|-1] == events[j..i];
  }

  /** A third win in a row, with no loss and the mode a live test throughout, need not
      promote. A loss ends autonomous trading while an execution is waiting; two trades are
      won in live tests; the execution comes back blocked; the third win counts as one. */
  lemma ThirdWinIgnored()
    ensures exists states: seq<State>, events: seq<Event> ::
      && |events| == 6 && IsRun(states, events)
      && (forall k :: 2 <= k <= 6 ==> states[k].p.mode == LIVE_TEST)
      && (forall k :: 2 <= k < 6 ==> !Loses(events[k]) && !events[k].ModeSet?)
      && Wins(events[2..6]) == REQUIRED_CONSECUTIVE_WINS && events[5].Outcome? && events[5].won
      && !Promotes(states[5], events[5]) && states[6].p.streak == 1
  {
    var win := Outcome(1.0, true, 1.0, "d");
    var events := [Begun("d"), Outcome(5.0, false, 0.0, "d"), win, win, Resumed(None, "d"), win];
    var s0 := State(Initial(100.0, AUTONOMOUS), Guarded(5.0, map[]), 0);
    var s1 := Step(s0, events[0]);
    var s2 := Step(s1, events[1]);
    assert s2.p.mode == LIVE_TEST && s2.p.streak == 0 && s2.waiting == 1 && !MayTrade(s2.g, "d");
    var s3 := Step(s2, events[2]);
    var s4 := Step(s3, events[3]);
    var s5 := Step(s4, events[4]);
    assert s5.p.mode == LIVE_TEST && s5.p.streak == 0;
    var s6 := Step(s5, events[5]);
    var states := [s0, s1, s2, s3, s4, s5, s6];
    assert IsRun(states, events);
    assert events[2..6] == [win, win, Resumed(None, "d"), win];
    WinsOfFour(win, Resumed(None, "d"));
  }

  lemma WinsOfFour(win: Event, other: Event)
    requires win.Outcome? && win.won && !other.Outcome?
    ensures Wins([win, win, other, win]) == 3
  {
    assert [win][..0] == [] && Wins([win]) == 1;
    assert [win, win][..1] == [win] && Wins([win, win]) == 2;
    assert [win, win, other][..2] == [win, win] && Wins([win, win, other]) == 2;
    assert [win, win, other, win][..3] == [win, win, other];
  }

  /** No other step turns a portfolio autonomous, short of setting the mode by hand. */
  lemma OnlyPromotionsPromote(s: State, e: Event)
    requires s.p.mode != AUTONOMOUS && Step(s, e).p.mode == AUTONOMOUS
    ensures Promotes(s, e) || e == ModeSet(AUTONOMOUS)
  {}

  // ---------------------------------------------------------------- the engine

  class Trade {
    const cost: real
    var outcome: Option<bool>
    var payout: real
    var profit: real

    constructor (cost: real)
      ensures this.cost == cost && outcome == None
    {
      this.cost := cost;
      outcome, payout, profit := None, 0.0, 0.0;
    }
  }

  class PortfolioEngine {
    const initialBalance: real
    const limiter: DailyLossLimiter?
    var balance: real
    var mode: Mode
    var consecutiveWins: nat
    var totalTrades: nat
    var winningTrades: nat
    var losingTrades: nat
    var totalProfit: real

    /** Executions that are reading the balance. */
    ghost var waiting: nat

    ghost predicate Valid()
      reads this, limiter
    {
      limiter != null ==> limiter.Valid()
    }

    ghost function View(): State
      reads this, limiter
    {
      State(Portfolio(initialBalance, balance, mode, consecutiveWins, totalTrades, winningTrades, losingTrades, totalProfit),
            if limiter == null then Unguarded else Guarded(limiter.dailyLimit, limiter.losses), waiting)
    }

    constructor (initialBalance: real, mode: Mode, limiter: DailyLossLimiter?)
      requires limiter != null ==> limiter.Valid()
      ensures Valid() && View().p == Initial(initialBalance, mode) && View().waiting == 0 && this.limiter == limiter
    {
      waiting := 0;
      this.initialBalance, this.limiter := initialBalance, limiter;
      balance, this.mode, consecutiveWins, totalTrades, winningTrades, losingTrades, totalProfit :=
        initialBalance, mode, 0, 0, 0, 0, 0.0;
    }

    method RecordTradeOutcome(trade: Trade, won: bool, payout: real, day: Day)
      requires Valid()
      modifies this, trade, limiter
      ensures Valid() && View() == RecordOutcome(old(View()), trade.cost, won, payout, day)
      ensures trade.outcome == Some(won) && trade.payout == payout
      ensures trade.profit == if won then payout - trade.cost else -trade.cost
    {
      hide Settle, Upgrade, Downgrade, View, Valid;
      SettleTrade(trade, won, payout, day);
      CheckModeUpgrade();
      CheckModeDowngrade(day);
    }

    /** Books the trade, with the limiter if there is one. */
    method SettleTrade(trade: Trade, won: bool, payout: real, day: Day)
      requires Valid()
      modifies this, trade, limiter
      ensures Valid() && View() == Settle(old(View()), trade.cost, won, payout, day)
      ensures trade.outcome == Some(won) && trade.payout == payout
      ensures trade.profit == if won then payout - trade.cost else -trade.cost
    {
      hide Enter, EnterAll;
      trade.outcome, trade.payout := Some(won), payout;
      if won {
        trade.profit := payout - trade.cost;
        winningTrades, consecutiveWins := winningTrades + 1, consecutiveWins + 1;
        balance, totalProfit := balance + trade.profit, totalProfit + trade.profit;
        if limiter != null {
          limiter.RecordProfit(day, trade.profit);
        }
      } else {
        trade.profit := -trade.cost;
        losingTrades, consecutiveWins := losingTrades + 1, 0;
        balance, totalProfit := balance - trade.cost, totalProfit - trade.cost;
        if limiter != null {
          limiter.RecordLoss(day, trade.cost);
        }
      }
      totalTrades := totalTrades + 1;
    }

    method CheckModeUpgrade()
      requires Valid()
      modifies this`mode
      ensures Valid() && View() == old(View()).(p := Upgrade(old(View()).p))
    {
      if mode == LIVE_TEST && consecutiveWins >= REQUIRED_CONSECUTIVE_WINS {
        mode := AUTONOMOUS;
      }
    }

    predicate Blocked(day: Day)
      requires Valid()
      reads this, limiter
    {
      limiter != null && !limiter.IsTradingAllowed(day)
    }

    method CheckModeDowngrade(day: Day)
      requires Valid()
      modifies this`mode, this`consecutiveWins
      ensures Valid() && View() == Downgrade(old(View()), day)
    {
      if mode == AUTONOMOUS && Blocked(day) {
        DowngradeToLiveTest();
      }
    }

    method DowngradeToLiveTest()
      modifies this`mode, this`consecutiveWins
      ensures View() == old(View()).(p := Demoted(old(View()).p))
    {
      mode, consecutiveWins := LIVE_TEST, 0;
    }

    method SetTradingMode(newMode: Mode)
      modifies this`mode, this`consecutiveWins
      ensures View() == old(View()).(p := SetMode(old(View()).p, newMode))
    {
      var oldMode := mode;
      mode := newMode;
      if newMode != oldMode {
        consecutiveWins := 0;
      }
    }

    method RefreshBalance(reading: Option<real>)
      modifies this`balance
      ensures View() == old(View()).(p := Refresh(old(View()).p, reading))
    {
      if reading.Some? {
        balance := reading.value;
      }
    }

    /** An execution up to its first await: none if it goes to read the balance. */
    method BeginExecution(day: Day) returns (ok: Option<bool>)
      requires Valid()
      modifies this`mode, this`consecutiveWins, this`waiting
      ensures Valid() && (View(), ok) == Begin(old(View()), day)
    {
      if mode == AUTONOMOUS {
        waiting := waiting + 1;
        return None;
      }
      var passed := PassGate(mode, day);
      return Some(passed);
    }

    /** From the balance to the order. */
    method ResumeExecution(reading: Option<real>, day: Day) returns (ok: bool)
      requires Valid() && waiting > 0
      modifies this`balance, this`mode, this`consecutiveWins, this`waiting
      ensures Valid() && (View(), ok) == Resume(old(View()), reading, day)
    {
      waiting := waiting - 1;
      RefreshBalance(reading);
      ok := PassGate(AUTONOMOUS, day);
    }

    /** The gate, on the mode the execution began in. */
    method PassGate(began: Mode, day: Day) returns (ok: bool)
      requires Valid()
      modifies this`mode, this`consecutiveWins
      ensures Valid() && (View(), ok) == Gate(old(View()), began, day)
    {
      if began == DRY_RUN {
        return true;
      }
      if Blocked(day) {
        if began == AUTONOMOUS {
          DowngradeToLiveTest();
        }
        return false;
      }
      return true;
    }
  }
}
