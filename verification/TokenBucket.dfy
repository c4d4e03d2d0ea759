/** A token bucket with a cooldown: what its steps do, what every run of them keeps, and
    how much it can ever let through. The clock is passed to each step. */
module TokenBucket {
  import opened Basics

  datatype Bucket = Bucket(capacity: real, rate: real, tokens: real, lastRefill: real,
                           inCooldown: bool, cooldownEnd: Option<real>, acquires: nat, throttles: nat)

  const WARNING_THRESHOLD := 0.80
  const CRITICAL_THRESHOLD := 0.90
  const COOLDOWN_DURATION := 5.0

  /** The readings one acquire makes of the clock: for the cooldown, for the refill, and
      for the end of a new cooldown. */
  datatype Clock = Clock(check: real, refill: real, enter: real)

  predicate Forward(c: Clock) { c.check <= c.refill <= c.enter }

  // ---------------------------------------------------------------- the steps

  function Full(capacity: real, rate: real, now: real): Bucket
  {
    Bucket(capacity, rate, capacity, now, false, None, 0, 0)
  }

  /** A cooldown end of zero counts as no end at all. */
  predicate Counts(end: Option<real>) { end.Some? && end.value != 0.0 }

  /** What the refill rate adds in `span`. */
  function TimeBudget(rate: real, span: real): real { span * rate }

  /** The tokens the bucket would hold if it were refilled now. */
  function Ready(b: Bucket, now: real): real
  {
    Min(b.capacity, b.tokens + TimeBudget(b.rate, now - b.lastRefill))
  }

  function Refill(b: Bucket, now: real): Bucket
  {
    b.(tokens := Ready(b, now), lastRefill := now)
  }

  function CheckCooldownExpired(b: Bucket, now: real): Bucket
  {
    if b.inCooldown && Counts(b.cooldownEnd) && now >= b.cooldownEnd.value
    then b.(inCooldown := false, cooldownEnd := None) else b
  }

  function Utilization(b: Bucket): real
    requires b.capacity != 0.0
  {
    1.0 - b.tokens / b.capacity
  }

  function Acquire(b: Bucket, c: Clock, n: real): (Bucket, bool)
    requires b.capacity != 0.0
  {
    var b := CheckCooldownExpired(b, c.check);
    if b.inCooldown then (b.(throttles := b.throttles + 1), false)
    else
      var b := Refill(b, c.refill);
      if b.tokens >= n then
        var b := b.(tokens := b.tokens - n, acquires := b.acquires + 1);
        (if Utilization(b) >= CRITICAL_THRESHOLD
         then b.(inCooldown := true, cooldownEnd := Some(c.enter + COOLDOWN_DURATION)) else b, true)
      else (b.(throttles := b.throttles + 1), false)
  }

  /** Two readings: for the cooldown, and for what is left of it or the refill. */
  function WaitForTokens(b: Bucket, check: real, now: real, n: real): (Bucket, real)
    requires b.rate != 0.0
  {
    var b := CheckCooldownExpired(b, check);
    if b.inCooldown && Counts(b.cooldownEnd) then (b, Max(0.0, b.cooldownEnd.value - now))
    else
      var b := Refill(b, now);
      if b.tokens >= n then (b, 0.0) else (b, (n - b.tokens) / b.rate)
  }

  function Reset(b: Bucket, now: real): Bucket
  {
    b.(tokens := b.capacity, lastRefill := now, inCooldown := false, cooldownEnd := None)
  }

  datatype ThrottleLevel = NORMAL | WARNING | CRITICAL | COOLDOWN

  function LevelOf(b: Bucket): ThrottleLevel
    requires b.capacity != 0.0
  {
    if b.inCooldown then COOLDOWN
    else if Utilization(b) >= CRITICAL_THRESHOLD then CRITICAL
    else if Utilization(b) >= WARNING_THRESHOLD then WARNING
    else NORMAL
  }

  function CooldownRemaining(b: Bucket, now: real): real
  {
    if b.inCooldown && Counts(b.cooldownEnd) then Max(0.0, b.cooldownEnd.value - now) else 0.0
  }

  // ---------------------------------------------------------------- what every step keeps

  /** A bucket in good order at time `now`. In particular a bucket in cooldown is nearly
      empty, and one that is not has no cooldown end. */
  ghost predicate Kept(b: Bucket, now: real)
  {
    && b.capacity > 0.0 && b.rate > 0.0
    && 0.0 <= b.tokens <= b.capacity
    && 0.0 <= b.lastRefill <= now
    && (b.inCooldown ==> b.cooldownEnd.Some? && b.cooldownEnd.value >= COOLDOWN_DURATION
                         && Utilization(b) >= CRITICAL_THRESHOLD)
    && (!b.inCooldown ==> b.cooldownEnd == None)
  }

  lemma ReadyInRange(b: Bucket, now: real)
    requires Kept(b, now)
    ensures 0.0 <= b.tokens <= Ready(b, now) <= b.capacity
  {
    hide TimeBudget, Utilization;
    BudgetNotNegative(b.rate, now - b.lastRefill);
  }

  lemma BudgetNotNegative(rate: real, span: real)
    requires rate > 0.0 && span >= 0.0
    ensures TimeBudget(rate, span) >= 0.0
  {}

  lemma BudgetAdds(rate: real, x: real, y: real)
    ensures TimeBudget(rate, x + y) == TimeBudget(rate, x) + TimeBudget(rate, y)
  {}

  lemma NoBudget(rate: real)
    ensures TimeBudget(rate, 0.0) == 0.0
  {}

  lemma AcquireKeeps(b: Bucket, c: Clock, n: real)
    requires Kept(b, c.check) && Forward(c) && n >= 0.0
    ensures Kept(Acquire(b, c, n).0, c.enter)
  {
    hide Ready;
    KeptLater(b, c.check, c.refill);
    ReadyInRange(b, c.refill);
    ReadyAlike(b, CheckCooldownExpired(b, c.check), c.refill);
  }

  lemma WaitKeeps(b: Bucket, check: real, now: real, n: real)
    requires Kept(b, check) && check <= now
    ensures Kept(WaitForTokens(b, check, now, n).0, now)
  {
    hide Ready, Utilization;
    KeptLater(b, check, now);
    ReadyInRange(b, now);
    ReadyAlike(b, CheckCooldownExpired(b, check), now);
  }

  lemma ResetKeeps(b: Bucket, now: real)
    requires Kept(b, now)
    ensures Kept(Reset(b, now), now)
  {}

  lemma KeptLater(b: Bucket, from: real, to: real)
    requires Kept(b, from) && from <= to
    ensures Kept(b, to)
  {
    hide Utilization;
  }

  /** The flags do not matter to how much is ready. */
  lemma ReadyAlike(b: Bucket, b': Bucket, now: real)
    requires b'.capacity == b.capacity && b'.rate == b.rate && b'.tokens == b.tokens && b'.lastRefill == b.lastRefill
    ensures Ready(b', now) == Ready(b, now)
  {}

  /** Which amounts are safe to ask for: from any bucket in good order, the tokens stay
      within its bounds exactly if it is in cooldown or the amount puts back no more than
      there is room for. In particular every amount that is not negative is safe. */
  lemma StaysInBounds(b: Bucket, c: Clock, n: real)
    requires Kept(b, c.check) && Forward(c)
    ensures var b' := Acquire(b, c, n).0;
      0.0 <= b'.tokens <= b'.capacity
      <==> CheckCooldownExpired(b, c.check).inCooldown || n >= Ready(b, c.refill) - b.capacity
  {
    hide Ready, Utilization;
    KeptLater(b, c.check, c.refill);
    ReadyInRange(b, c.refill);
    ReadyAlike(b, CheckCooldownExpired(b, c.check), c.refill);
  }

  /** An instance: a full bucket of ten asked for minus one holds eleven. */
  lemma Overfilled()
    ensures var b, c := Full(10.0, 1.0, 0.0), Clock(0.0, 0.0, 0.0);
      Kept(b, 0.0) && Acquire(b, c, -1.0).1 && Acquire(b, c, -1.0).0.tokens == 11.0
  {}

  /** An acquire, exactly. It is granted if no cooldown is on and the amount is ready; what
      is ready then is the bucket's, less the amount; and a cooldown begins, for five
      seconds, exactly if that leaves a tenth of the capacity or less. */
  lemma AcquireExactly(b: Bucket, c: Clock, n: real)
    requires Kept(b, c.check)
    ensures GrantedBy(b, Acquiring(c, n)) == if Acquire(b, c, n).1 then n else 0.0
    ensures var (b', granted) := Acquire(b, c, n); var cooling := b.inCooldown && c.check < b.cooldownEnd.value;
      && (granted <==> !cooling && n <= Ready(b, c.refill))
      && (granted ==> b'.tokens == Ready(b, c.refill) - n)
      && (granted ==> (b'.inCooldown <==> 10.0 * b'.tokens <= b'.capacity))
      && (granted && b'.inCooldown ==> b'.cooldownEnd == Some(c.enter + 5.0))
      && (!granted && !cooling ==> b'.tokens == Ready(b, c.refill) && !b'.inCooldown)
      && (cooling ==> b' == b.(throttles := b.throttles + 1))
      && (!cooling ==> b'.lastRefill == c.refill)
      && b'.acquires == b.acquires + (if granted then 1 else 0)
      && b'.throttles == b.throttles + (if granted then 0 else 1)
  {
    hide Ready, Utilization;
    ReadyAlike(b, CheckCooldownExpired(b, c.check), c.refill);
    UtilizationIs(Acquire(b, c, n).0);
    TenthLeft(b, c, n);
  }

  lemma TenthLeft(b: Bucket, c: Clock, n: real)
    requires Kept(b, c.check)
    ensures var (b', granted) := Acquire(b, c, n);
      granted ==> (b'.inCooldown <==> Utilization(b') >= CRITICAL_THRESHOLD)
  {
    hide Ready;
  }

  lemma UtilizationIs(b: Bucket)
    requires b.capacity > 0.0
    ensures Utilization(b) >= CRITICAL_THRESHOLD <==> 10.0 * b.tokens <= b.capacity
    ensures Utilization(b) >= WARNING_THRESHOLD <==> 5.0 * b.tokens <= b.capacity
  {
    var share := b.tokens / b.capacity;
    assert share * b.capacity == b.tokens;
    SameShare(share, 0.1, b.capacity);
    SameShare(share, 0.2, b.capacity);
  }

  lemma SameShare(x: real, y: real, m: real)
    requires m > 0.0
    ensures x * m <= y * m <==> x <= y
  {
    if x > y { assert (x - y) * m > 0.0; } else { assert (y - x) * m >= 0.0; }
  }

  /** The levels: cooldown while one is on, else critical with a tenth of the capacity left
      or less, a warning with a fifth. */
  lemma LevelsByTokens(b: Bucket)
    requires b.capacity > 0.0
    ensures LevelOf(b) == COOLDOWN <==> b.inCooldown
    ensures LevelOf(b) == CRITICAL <==> !b.inCooldown && 10.0 * b.tokens <= b.capacity
    ensures LevelOf(b) == WARNING <==> !b.inCooldown && b.capacity < 10.0 * b.tokens && 5.0 * b.tokens <= b.capacity
  {
    hide Utilization;
    UtilizationIs(b);
  }

  /** What is said to be left of a cooldown is the least time after which an acquire is no
      longer turned away by it. */
  lemma RemainingIsExact(b: Bucket, now: real, later: real)
    requires Kept(b, now) && now <= later
    ensures CheckCooldownExpired(b, later).inCooldown <==> later - now < CooldownRemaining(b, now)
    ensures CooldownRemaining(b, now) >= 0.0 && (CooldownRemaining(b, now) > 0.0 ==> b.inCooldown)
  {
    hide Utilization;
  }

  /** A cooldown that is to end at time zero never does, and is said to have nothing left. */
  lemma ZeroEndNeverComes(b: Bucket, c: Clock, n: real, now: real)
    requires b.capacity > 0.0 && b.inCooldown && b.cooldownEnd == Some(0.0)
    ensures Acquire(b, c, n) == (b.(throttles := b.throttles + 1), false) && CooldownRemaining(b, now) == 0.0
  {}

  /** A reset bucket, like a new one, grants anything up to its capacity at once. */
  lemma ResetGrants(b: Bucket, at: real, c: Clock, n: real)
    requires Kept(b, at) && at <= c.check && Forward(c)
    ensures var b' := Reset(b, at); !b'.inCooldown && (Acquire(b', c, n).1 <==> n <= b.capacity)
    ensures Reset(b, at) == Full(b.capacity, b.rate, at).(acquires := b.acquires, throttles := b.throttles)
  {
    hide Utilization, Ready, TimeBudget;
    ResetKeeps(b, at);
    KeptLater(Reset(b, at), at, c.check);
    KeptLater(Reset(b, at), at, c.refill);
    ReadyInRange(Reset(b, at), c.refill);
  }

  /** Asking how long to wait changes nothing later: every acquire after it is answered, and
      leaves the bucket, as if nobody had asked. */
  lemma WaitingIsHarmless(b: Bucket, check: real, now: real, n: real, c: Clock, m: real)
    requires Kept(b, check) && check <= now <= c.check && Forward(c)
    ensures var asked := WaitForTokens(b, check, now, n).0;
      && Acquire(asked, c, m) == Acquire(b, c, m)
      && (if asked.inCooldown then asked == b else asked.tokens == Ready(b, now) && asked.lastRefill == now)
  {
    hide Utilization, Ready;
    ReadyAlike(b, CheckCooldownExpired(b, check), now);
    ReadyAlike(b, CheckCooldownExpired(b, c.check), c.refill);
    ReadyInTwo(b, now, c.refill);
    var asked := WaitForTokens(b, check, now, n).0;
    if !asked.inCooldown { ReadyAlike(Refill(b, now), asked, c.refill); }
  }

  lemma ReadyInTwo(b: Bucket, now: real, later: real)
    requires b.rate > 0.0 && now <= later
    ensures Ready(Refill(b, now), later) == Ready(b, later)
  {
    hide TimeBudget;
    BudgetAdds(b.rate, now - b.lastRefill, later - now);
    BudgetNotNegative(b.rate, later - now);
  }

  // ---------------------------------------------------------------- runs

  datatype Event = Acquiring(c: Clock, n: real) | Waiting(check: real, now: real, n: real) | Resetting(at: real)

  /** An event's first and last reading of the clock. */
  function First(e: Event): real
  {
    match e
    case Acquiring(c, _) => c.check
    case Waiting(check, _, _) => check
    case Resetting(at) => at
  }

  function Latest(e: Event): real
  {
    match e
    case Acquiring(c, _) => c.enter
    case Waiting(_, now, _) => now
    case Resetting(at) => at
  }

  /** Readings do not go back within an event, and no negative amount is asked for. */
  predicate Proper(e: Event)
  {
    match e
    case Acquiring(c, n) => Forward(c) && n >= 0.0
    case Waiting(check, now, _) => check <= now
    case Resetting(_) => true
  }

  function Step(b: Bucket, e: Event): Bucket
    requires b.capacity != 0.0 && b.rate != 0.0
  {
    match e
    case Acquiring(c, n) => Acquire(b, c, n).0
    case Waiting(check, now, n) => WaitForTokens(b, check, now, n).0
    case Resetting(at) => Reset(b, at)
  }

  function GrantedBy(b: Bucket, e: Event): real
    requires b.capacity != 0.0
  {
    if e.Acquiring? && Acquire(b, e.c, e.n).1 then e.n else 0.0
  }

  lemma StepKeepsShape(b: Bucket, e: Event)
    requires b.capacity != 0.0 && b.rate != 0.0
    ensures Step(b, e).capacity == b.capacity && Step(b, e).rate == b.rate
  {}

  function Run(b: Bucket, es: seq<Event>): (b': Bucket)
    requires b.capacity != 0.0 && b.rate != 0.0
    ensures b'.capacity == b.capacity && b'.rate == b.rate
    decreases es
  {
    if es == [] then b else Run(Step(b, es[0]), es[1..])
  }

  function Granted(b: Bucket, es: seq<Event>): real
    requires b.capacity != 0.0 && b.rate != 0.0
    decreases es
  {
    if es == [] then 0.0 else GrantedBy(b, es[0]) + Granted(Step(b, es[0]), es[1..])
  }

  function Resets(es: seq<Event>): nat
  {
    if es == [] then 0 else (if es[0].Resetting? then 1 else 0) + Resets(es[1..])
  }

  /** The events happen between `from` and `to`, in order. */
  ghost predicate Timely(from: real, es: seq<Event>, to: real)
    decreases es
  {
    if es == [] then from <= to
    else from <= First(es[0]) && Proper(es[0]) && Timely(Latest(es[0]), es[1..], to)
  }

  lemma {:induction false} RunKeeps(b: Bucket, from: real, es: seq<Event>, to: real)
    requires Kept(b, from) && Timely(from, es, to)
    ensures Kept(Run(b, es), to)
    decreases es
  {
    hide Utilization, Step;
    if es == [] {
      KeptLater(b, from, to);
    } else {
      KeptLater(b, from, First(es[0]));
      StepKeeps(b, es[0]);
      RunKeeps(Step(b, es[0]), Latest(es[0]), es[1..], to);
    }
  }

  lemma StepKeeps(b: Bucket, e: Event)
    requires Kept(b, First(e)) && Proper(e)
    ensures Kept(Step(b, e), Latest(e))
  {
    hide Acquire, WaitForTokens, Reset, Kept;
    match e {
      case Acquiring(c, n) => AcquireKeeps(b, c, n);
      case Waiting(check, now, n) => WaitKeeps(b, check, now, n);
      case Resetting(at) => ResetKeeps(b, at);
    }
  }

  /** Waiting adds tokens at the refill rate at most. */
  lemma ReadyGrows(b: Bucket, from: real, to: real)
    requires b.rate > 0.0 && from <= to
    ensures Ready(b, from) <= Ready(b, to) <= Ready(b, from) + TimeBudget(b.rate, to - from)
  {
    hide TimeBudget;
    BudgetAdds(b.rate, from - b.lastRefill, to - from);
    BudgetNotNegative(b.rate, to - from);
  }

  /** A bucket refilled at `now` has ready what it holds. */
  lemma ReadyAtRefill(b: Bucket, now: real)
    requires b.lastRefill == now && b.tokens <= b.capacity
    ensures Ready(b, now) == b.tokens
  {
    hide TimeBudget;
    NoBudget(b.rate);
  }

  /** One event: what it grants comes out of what was ready and what its own duration
      refills, and only a reset adds. */
  lemma StepSpends(b: Bucket, e: Event)
    requires Kept(b, First(e)) && Proper(e)
    ensures GrantedBy(b, e) + Ready(Step(b, e), Latest(e))
         <= Ready(b, First(e)) + TimeBudget(b.rate, Latest(e) - First(e)) + (if e.Resetting? then b.capacity else 0.0)
  {
    hide Acquire, WaitForTokens, Ready, TimeBudget, Utilization;
    match e {
      case Acquiring(c, n) => AcquireSpends(b, c, n);
      case Waiting(check, now, n) => WaitSpends(b, check, now, n);
      case Resetting(at) =>
        ReadyAtRefill(Reset(b, at), at);
        ReadyInRange(b, at);
        ReadyGrows(b, at, at);
    }
  }

  lemma AcquireSpends(b: Bucket, c: Clock, n: real)
    requires Kept(b, c.check) && Forward(c) && n >= 0.0
    ensures var (b', granted) := Acquire(b, c, n);
      (if granted then n else 0.0) + Ready(b', c.enter) <= Ready(b, c.check) + TimeBudget(b.rate, c.enter - c.check)
  {
    hide Ready, TimeBudget, Utilization;
    var idle, b' := CheckCooldownExpired(b, c.check), Acquire(b, c, n).0;
    KeptLater(b, c.check, c.refill);
    ReadyInRange(b, c.refill);
    ReadyAlike(b, idle, c.refill);
    ReadyGrows(b, c.check, c.refill);
    if idle.inCooldown {
      ReadyAlike(b, b', c.enter);
      ReadyGrows(b, c.check, c.enter);
    } else {
      ReadyAtRefill(b', c.refill);
      ReadyGrows(b', c.refill, c.enter);
      BudgetAdds(b.rate, c.refill - c.check, c.enter - c.refill);
    }
  }

  lemma WaitSpends(b: Bucket, check: real, now: real, n: real)
    requires Kept(b, check) && check <= now
    ensures Ready(WaitForTokens(b, check, now, n).0, now) <= Ready(b, check) + TimeBudget(b.rate, now - check)
  {
    hide Ready, TimeBudget, Utilization;
    var idle, b' := CheckCooldownExpired(b, check), WaitForTokens(b, check, now, n).0;
    KeptLater(b, check, now);
    ReadyInRange(b, now);
    ReadyGrows(b, check, now);
    ReadyAlike(b, idle, now);
    if b'.inCooldown { ReadyAlike(b, b', now); } else { ReadyAtRefill(b', now); }
  }

  /** The budget of a run: what is granted and what is left are covered by what was there,
      what time refilled, and a full bucket per reset. */
  lemma {:induction false} Budget(b: Bucket, from: real, es: seq<Event>, to: real)
    requires Kept(b, from) && Timely(from, es, to)
    ensures Granted(b, es) + Ready(Run(b, es), to) <= Ready(b, from) + ResetBudget(b.capacity, es) + TimeBudget(b.rate, to - from)
    decreases es
  {
    hide Utilization, Ready, TimeBudget, Step, GrantedBy, Kept;
    KeptPositive(b, from);
    if es == [] {
      ReadyGrows(b, from, to);
    } else {
      var first, last := First(es[0]), Latest(es[0]);
      KeptLater(b, from, first);
      ReadyGrows(b, from, first);
      StepSpends(b, es[0]);
      StepKeeps(b, es[0]);
      StepKeepsShape(b, es[0]);
      Budget(Step(b, es[0]), last, es[1..], to);
      BudgetAdds(b.rate, first - from, last - first);
      BudgetAdds(b.rate, last - from, to - last);
    }
  }

  lemma KeptPositive(b: Bucket, now: real)
    requires Kept(b, now)
    ensures b.capacity > 0.0 && b.rate > 0.0
  {}

  /** A full bucket per reset. */
  function ResetBudget(capacity: real, es: seq<Event>): real
  {
    if es == [] then 0.0 else (if es[0].Resetting? then capacity else 0.0) + ResetBudget(capacity, es[1..])
  }

  lemma {:induction false} ResetBudgetIs(capacity: real, es: seq<Event>)
    ensures ResetBudget(capacity, es) == capacity * Resets(es) as real
  {
    if es != [] {
      ResetBudgetIs(capacity, es[1..]);
      OneMore(capacity, Resets(es[1..]) as real);
      assert Resets(es) as real == (if es[0].Resetting? then 1.0 else 0.0) + Resets(es[1..]) as real;
    }
  }

  lemma OneMore(c: real, x: real)
    ensures c * (1.0 + x) == c + c * x && c * (0.0 + x) == c * x
  {}

  /** One full bucket, one more for each reset, and what the rate refills in `span`. */
  function WholeBudget(capacity: real, es: seq<Event>, rate: real, span: real): real
  {
    capacity * (1 + Resets(es)) as real + rate * span
  }

  /** The bound a rate limiter is for: in any stretch of any run, what is granted between
      `from` and `to` is at most one full bucket, one more for each reset, and what the
      refill rate adds in the meantime. */
  lemma GrantedIsBounded(b: Bucket, start: real, before: seq<Event>, from: real, stretch: seq<Event>, to: real)
    requires Kept(b, start) && Timely(start, before, from) && Timely(from, stretch, to)
    ensures Granted(Run(b, before), stretch)
         <= WholeBudget(b.capacity, stretch, b.rate, to - from)
    ensures 0.0 <= Run(b, before + stretch).tokens <= b.capacity
  {
    hide Ready, Utilization, Granted, Run, ResetBudget, Resets, TimeBudget, WholeBudget;
    RunKeeps(b, start, before, from);
    var b' := Run(b, before);
    Budget(b', from, stretch, to);
    ReadyInRange(b', from);
    RunKeeps(b', from, stretch, to);
    ReadyInRange(Run(b', stretch), to);
    RunAppend(b, before, stretch);
    WholeBudgetIs(b.capacity, stretch, b.rate, to - from);
  }

  lemma WholeBudgetIs(capacity: real, es: seq<Event>, rate: real, span: real)
    ensures capacity + ResetBudget(capacity, es) + TimeBudget(rate, span) == WholeBudget(capacity, es, rate, span)
  {
    ResetBudgetIs(capacity, es);
    BucketPlusResets(capacity, Resets(es), rate, span);
  }

  lemma BucketPlusResets(capacity: real, resets: nat, rate: real, span: real)
    ensures capacity + capacity * resets as real + TimeBudget(rate, span) == capacity * (1 + resets) as real + rate * span
  {
    OneMore(capacity, resets as real);
    assert (1 + resets) as real == 1.0 + resets as real;
  }

  lemma {:induction false} RunAppend(b: Bucket, a: seq<Event>, c: seq<Event>)
    requires b.capacity != 0.0 && b.rate != 0.0
    ensures Run(b, a + c) == Run(Run(b, a), c)
    decreases a
  {
    hide Step;
    if a == [] {
      assert a + c == c;
    } else {
      StepKeepsShape(b, a[0]);
      assert (a + c)[1..] == a[1..] + c;
      RunAppend(Step(b, a[0]), a[1..], c);
    }
  }

  // ---------------------------------------------------------------- cooldown

  /** Until the cooldown is over, and short of a reset, nothing is granted and the bucket
      stays as it is. */
  lemma {:induction false} NothingDuringCooldown(b: Bucket, from: real, es: seq<Event>, to: real)
    requires Kept(b, from) && b.inCooldown && Timely(from, es, to)
    requires to < b.cooldownEnd.value && Resets(es) == 0
    ensures Granted(b, es) == 0.0
    ensures Run(b, es) == b.(throttles := Run(b, es).throttles)
    decreases es
  {
    if es != [] {
      hide Utilization, Ready;
      KeptLater(b, from, First(es[0]));
      TimelyEnds(Latest(es[0]), es[1..], to);
      StepKeeps(b, es[0]);
      NothingDuringCooldown(Step(b, es[0]), Latest(es[0]), es[1..], to);
    }
  }

  /** A grant that leaves a tenth of the capacity or less, at any point of any run, closes the
      bucket: for five seconds, and short of a reset, nothing more is granted. */
  lemma FiveSecondsOff(b: Bucket, start: real, before: seq<Event>, c: Clock, n: real, es: seq<Event>, to: real)
    requires Kept(b, start) && Timely(start, before, c.check) && Forward(c) && n >= 0.0
    requires var (b', granted) := Acquire(Run(b, before), c, n); granted && 10.0 * b'.tokens <= b'.capacity
    requires Timely(c.enter, es, to) && to < c.enter + 5.0 && Resets(es) == 0
    ensures Granted(Acquire(Run(b, before), c, n).0, es) == 0.0 && Grants(Acquire(Run(b, before), c, n).0, es) == 0
  {
    hide Run, Acquire, Granted, Grants, Kept;
    KeptPositive(b, start);
    RunKeeps(b, start, before, c.check);
    var b' := Acquire(Run(b, before), c, n).0;
    AcquireExactly(Run(b, before), c, n);
    AcquireKeeps(Run(b, before), c, n);
    NothingDuringCooldown(b', c.enter, es, to);
    CountersTell(b', c.enter, es, to);
  }

  /** How often an acquire was granted, and how often one was tried. */
  function Grants(b: Bucket, es: seq<Event>): nat
    requires b.capacity != 0.0 && b.rate != 0.0
    decreases es
  {
    if es == [] then 0
    else (if es[0].Acquiring? && Acquire(b, es[0].c, es[0].n).1 then 1 else 0) + Grants(Step(b, es[0]), es[1..])
  }

  function Attempts(es: seq<Event>): nat
  {
    if es == [] then 0 else (if es[0].Acquiring? then 1 else 0) + Attempts(es[1..])
  }

  /** Over every run one counter counts the grants, the other the refusals. */
  lemma {:induction false} CountersTell(b: Bucket, from: real, es: seq<Event>, to: real)
    requires Kept(b, from) && Timely(from, es, to)
    ensures Run(b, es).acquires == b.acquires + Grants(b, es)
    ensures Run(b, es).throttles + Grants(b, es) == b.throttles + Attempts(es)
    decreases es
  {
    if es != [] {
      hide Utilization, Ready;
      KeptLater(b, from, First(es[0]));
      StepKeeps(b, es[0]);
      CountersTell(Step(b, es[0]), Latest(es[0]), es[1..], to);
    }
  }

  lemma {:induction false} TimelyEnds(from: real, es: seq<Event>, to: real)
    requires Timely(from, es, to)
    ensures from <= to
    decreases es
  {
    if es != [] { TimelyEnds(Latest(es[0]), es[1..], to); }
  }

  lemma CooldownShows(b: Bucket, now: real)
    requires Kept(b, now)
    ensures b.inCooldown ==> Utilization(b) >= CRITICAL_THRESHOLD
    ensures LevelOf(b) != NORMAL <==> Utilization(b) >= WARNING_THRESHOLD
  {
    hide Utilization;
  }

  /** In every reachable state a bucket in cooldown is at the critical threshold by its
      utilization alone, and utilization alone tells whether it is throttled at all. */
  lemma CooldownAlwaysShows(b: Bucket, start: real, es: seq<Event>, now: real)
    requires Kept(b, start) && Timely(start, es, now)
    ensures Run(b, es).inCooldown ==> Utilization(Run(b, es)) >= CRITICAL_THRESHOLD
    ensures LevelOf(Run(b, es)) != NORMAL <==> Utilization(Run(b, es)) >= WARNING_THRESHOLD
  {
    hide Utilization, Run;
    RunKeeps(b, start, es, now);
    CooldownShows(Run(b, es), now);
  }

  // ---------------------------------------------------------------- waiting

  /** Outside a cooldown the wait is exact: the same amount is granted to an acquire whose
      refill is that much later, and to none sooner, if nobody else asks. More than the
      capacity is never granted. */
  lemma WaitIsLeastDelay(b: Bucket, check: real, now: real, n: real, c: Clock)
    requires Kept(b, check) && check <= now <= c.check && Forward(c)
    requires n >= 0.0 && !CheckCooldownExpired(b, check).inCooldown
    ensures var (b', wait) := WaitForTokens(b, check, now, n);
      && wait >= 0.0
      && (n <= b.capacity ==> (Acquire(b', c, n).1 <==> c.refill - now >= wait))
      && (n > b.capacity ==> !Acquire(b', c, n).1)
  {
    hide Utilization, Ready, TimeBudget;
    KeptLater(b, check, now);
    ReadyInRange(b, now);
    ReadyAlike(b, CheckCooldownExpired(b, check), now);
    var b' := WaitForTokens(b, check, now, n).0;
    ReadyLater(b', now, c.refill - now);
    DelayEnough(Ready(b, now), n, b.rate, c.refill - now);
  }

  lemma ReadyLater(b: Bucket, now: real, delay: real)
    requires b.lastRefill == now
    ensures Ready(b, now + delay) == Min(b.capacity, b.tokens + TimeBudget(b.rate, delay))
  {
    hide TimeBudget;
  }

  lemma DelayEnough(have: real, n: real, rate: real, delay: real)
    requires rate > 0.0 && delay >= 0.0
    ensures have < n ==> (n - have) / rate > 0.0
    ensures have < n ==> (have + TimeBudget(rate, delay) >= n <==> delay >= (n - have) / rate)
    ensures have >= n ==> have + TimeBudget(rate, delay) >= n
  {
    var wait := (n - have) / rate;
    assert wait * rate == n - have;
    assert delay * rate >= 0.0;
    assert (delay - wait) * rate == delay * rate - (n - have);
    if delay >= wait { assert (delay - wait) * rate >= 0.0; } else { assert (wait - delay) * rate > 0.0; }
  }

  /** During a cooldown the wait is the rest of the cooldown; the amount is granted to an
      acquire that begins after it, exactly if the bucket has filled up enough by its
      refill. */
  lemma WaitDuringCooldown(b: Bucket, check: real, now: real, n: real, c: Clock)
    requires Kept(b, check) && check <= now <= c.check && Forward(c)
    requires n >= 0.0 && CheckCooldownExpired(b, check).inCooldown
    ensures var (b', wait) := WaitForTokens(b, check, now, n);
      && b' == b && wait == Max(0.0, b.cooldownEnd.value - now)
      && (Acquire(b', c, n).1 <==> c.check - now >= wait && Ready(b, c.refill) >= n)
  {
    hide Utilization, Ready;
    ReadyAlike(b, CheckCooldownExpired(b, c.check), c.refill);
  }

  // ---------------------------------------------------------------- the class

  class TokenBucket {
    const capacity: real
    const rate: real
    const name: string
    var tokens: real
    var lastRefill: real
    var inCooldown: bool
    var cooldownEnd: Option<real>
    var acquires: nat
    var throttles: nat

    ghost function View(): Bucket
      reads this
    {
      Bucket(capacity, rate, tokens, lastRefill, inCooldown, cooldownEnd, acquires, throttles)
    }

    constructor (capacity: real, rate: real, name: string, now: real)
      ensures View() == Full(capacity, rate, now) && this.name == name
      ensures tokens == capacity && acquires == throttles == 0
      ensures capacity > 0.0 && rate > 0.0 && now >= 0.0 ==> Kept(View(), now)
    {
      this.capacity, this.rate, this.name := capacity, rate, name;
      tokens, lastRefill, inCooldown, cooldownEnd, acquires, throttles := capacity, now, false, None, 0, 0;
    }

    method DoRefill(now: real)
      modifies this`tokens, this`lastRefill
      ensures View() == Refill(old(View()), now)
    {
      tokens := Min(capacity, tokens + (now - lastRefill) * rate);
      lastRefill := now;
    }

    method DoCheckCooldownExpired(now: real)
      modifies this`inCooldown, this`cooldownEnd
      ensures View() == CheckCooldownExpired(old(View()), now)
    {
      if inCooldown && Counts(cooldownEnd) {
        if now >= cooldownEnd.value {
          inCooldown, cooldownEnd := false, None;
        }
      }
    }

    function CurrentUtilization(): (u: real)
      requires capacity != 0.0
      reads this
      ensures u == Utilization(View())
    {
      1.0 - tokens / capacity
    }

    method DoAcquire(c: Clock, n: real) returns (granted: bool)
      requires capacity != 0.0
      modifies this
      ensures (View(), granted) == Acquire(old(View()), c, n)
    {
      hide Utilization, Ready;
      DoCheckCooldownExpired(c.check);
      if inCooldown {
        throttles := throttles + 1;
        return false;
      }
      DoRefill(c.refill);
      if tokens >= n {
        tokens := tokens - n;
        acquires := acquires + 1;
        if CurrentUtilization() >= CRITICAL_THRESHOLD {
          inCooldown, cooldownEnd := true, Some(c.enter + COOLDOWN_DURATION);
        }
        return true;
      }
      throttles := throttles + 1;
      return false;
    }

    method DoWaitForTokens(check: real, now: real, n: real) returns (wait: real)
      requires rate != 0.0
      modifies this
      ensures (View(), wait) == WaitForTokens(old(View()), check, now, n)
    {
      hide Ready;
      DoCheckCooldownExpired(check);
      if inCooldown && Counts(cooldownEnd) {
        return Max(0.0, cooldownEnd.value - now);
      }
      DoRefill(now);
      if tokens >= n {
        return 0.0;
      }
      return (n - tokens) / rate;
    }

    method DoReset(now: real)
      modifies this
      ensures View() == Reset(old(View()), now)
    {
      tokens, lastRefill, inCooldown, cooldownEnd := capacity, now, false, None;
    }

    function LeftOfCooldown(now: real): (left: real)
      reads this
      ensures left == CooldownRemaining(View(), now)
    {
      if inCooldown && Counts(cooldownEnd) then Max(0.0, cooldownEnd.value - now) else 0.0
    }

    function Level(): (l: ThrottleLevel)
      requires capacity != 0.0
      reads this
      ensures l == LevelOf(View())
    {
      if inCooldown then COOLDOWN
      else if CurrentUtilization() >= CRITICAL_THRESHOLD then CRITICAL
      else if CurrentUtilization() >= WARNING_THRESHOLD then WARNING
      else NORMAL
    }
  }
}
