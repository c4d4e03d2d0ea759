/** A sliding-window rate limiter: timestamps of past calls, the old ones evicted, new ones
    admitted while there are few enough. Each reading of the clock is an argument. */
module SlidingWindow {
  import opened Basics

  // ---------------------------------------------------------------- the steps

  /** Drops stamps strictly older than the window. */
  function Clean(stamps: seq<real>, cutoff: real): seq<real>
  {
    if stamps != [] && stamps[0] < cutoff then Clean(stamps[1..], cutoff) else stamps
  }

  /** The clock is read twice: for the eviction, and for the new stamp. */
  function TryAcquire(maxCalls: int, window: real, stamps: seq<real>, read: real, stamp: real): (seq<real>, bool)
  {
    var kept := Clean(stamps, read - window);
    if |kept| < maxCalls then (kept + [stamp], true) else (kept, false)
  }

  function IsAllowed(maxCalls: int, window: real, stamps: seq<real>, read: real): bool
  {
    |Clean(stamps, read - window)| < maxCalls
  }

  datatype Wait = Seconds(s: real) | IndexError

  function WaitTime(maxCalls: int, window: real, stamps: seq<real>, read: real, again: real): Wait
  {
    var kept := Clean(stamps, read - window);
    if |kept| < maxCalls then Seconds(0.0)
    else if kept == [] then IndexError
    else Seconds(Max(0.0, kept[0] + window - again))
  }

  // ---------------------------------------------------------------- eviction

  ghost predicate Ordered(ts: seq<real>)
  {
    forall i, j :: 0 <= i < j < |ts| ==> ts[i] <= ts[j]
  }

  /** Eviction drops a front part, all of it too old, and keeps no front stamp that is. */
  lemma {:induction false} CleanDrops(stamps: seq<real>, cutoff: real) returns (k: nat)
    ensures k <= |stamps| && Clean(stamps, cutoff) == stamps[k..]
    ensures forall i :: 0 <= i < k ==> stamps[i] < cutoff
    ensures k < |stamps| ==> stamps[k] >= cutoff
  {
    if stamps != [] && stamps[0] < cutoff {
      var k' := CleanDrops(stamps[1..], cutoff);
      k := k' + 1;
    } else {
      k := 0;
    }
  }

  // ---------------------------------------------------------------- runs

  datatype Event = Trying(read: real, stamp: real) | Looking(read: real)

  function Latest(e: Event): real { if e.Trying? then e.stamp else e.read }

  /** The limiter's stamps, and every stamp it ever admitted. */
  datatype State = State(stamps: seq<real>, admitted: seq<real>)

  function Step(maxCalls: int, window: real, s: State, e: Event): State
  {
    match e
    case Trying(read, stamp) =>
      var (stamps, ok) := TryAcquire(maxCalls, window, s.stamps, read, stamp);
      State(stamps, if ok then s.admitted + [stamp] else s.admitted)
    case Looking(read) => State(Clean(s.stamps, read - window), s.admitted)
  }

  function Run(maxCalls: int, window: real, s: State, es: seq<Event>): State
    decreases es
  {
    if es == [] then s else Run(maxCalls, window, Step(maxCalls, window, s, es[0]), es[1..])
  }

  /** The clock never goes back. */
  ghost predicate Timely(from: real, es: seq<Event>)
    decreases es
  {
    es != [] ==>
      && from <= es[0].read && (es[0].Trying? ==> es[0].read <= es[0].stamp)
      && Timely(Latest(es[0]), es[1..])
  }

  /** Stamps `m` apart lie more than a window apart. */
  ghost predicate Spread(ts: seq<real>, m: int, window: real)
  {
    forall i, j :: 0 <= i < |ts| && 0 <= j < |ts| && i + m <= j ==> ts[j] > ts[i] + window
  }

  /** The first `k` admitted stamps have been evicted for age, the rest are still held; and
      stamps `maxCalls` apart lie more than a window apart. */
  ghost predicate Kept(maxCalls: int, window: real, s: State, k: nat, now: real)
  {
    && k <= |s.admitted| && s.stamps == s.admitted[k..]
    && Ordered(s.admitted)
    && (forall i :: 0 <= i < |s.admitted| ==> s.admitted[i] <= now)
    && (forall i :: 0 <= i < k ==> s.admitted[i] < now - window)
    && (|s.stamps| <= maxCalls || s.admitted == [])
    && Spread(s.admitted, maxCalls, window)
  }

  lemma CleanKeeps(maxCalls: int, window: real, s: State, k: nat, now: real, read: real) returns (k': nat)
    requires Kept(maxCalls, window, s, k, now) && now <= read
    ensures Kept(maxCalls, window, State(Clean(s.stamps, read - window), s.admitted), k', read)
  {
    hide Spread, Ordered, Clean;
    var d := CleanDrops(s.stamps, read - window);
    k' := k + d;
    assert s.stamps[d..] == s.admitted[k'..];
    forall i | 0 <= i < k' ensures s.admitted[i] < read - window {
      if i >= k { assert s.stamps[i-k] == s.admitted[i]; }
    }
  }

  lemma KeptLater(maxCalls: int, window: real, s: State, k: nat, from: real, to: real)
    requires Kept(maxCalls, window, s, k, from) && from <= to
    ensures Kept(maxCalls, window, s, k, to)
  {
    hide Spread, Ordered;
  }

  lemma StepKeeps(maxCalls: int, window: real, s: State, k: nat, now: real, e: Event) returns (k': nat)
    requires Kept(maxCalls, window, s, k, now) && Timely(now, [e])
    ensures Kept(maxCalls, window, Step(maxCalls, window, s, e), k', Latest(e))
  {
    hide Kept, Clean;
    k' := CleanKeeps(maxCalls, window, s, k, now, e.read);
    var cleaned := State(Clean(s.stamps, e.read - window), s.admitted);
    if e.Trying? && IsAllowed(maxCalls, window, s.stamps, e.read) {
      AdmitKeeps(maxCalls, window, cleaned, k', e.read, e.stamp);
    } else {
      KeptLater(maxCalls, window, cleaned, k', e.read, Latest(e));
    }
  }

  lemma AdmitKeeps(maxCalls: int, window: real, s: State, k: nat, read: real, stamp: real)
    requires Kept(maxCalls, window, s, k, read) && |s.stamps| < maxCalls && read <= stamp
    ensures Kept(maxCalls, window, State(s.stamps + [stamp], s.admitted + [stamp]), k, stamp)
  {
    hide Spread, Ordered;
    var ts, ts' := s.admitted, s.admitted + [stamp];
    assert s.stamps + [stamp] == ts'[k..];
    AdmitOrdered(ts, stamp);
    AdmitSpread(ts, maxCalls, window, stamp);
  }

  lemma AdmitOrdered(ts: seq<real>, stamp: real)
    requires Ordered(ts) && forall i :: 0 <= i < |ts| ==> ts[i] <= stamp
    ensures Ordered(ts + [stamp])
  {
    var ts' := ts + [stamp];
    forall i, j | 0 <= i < j < |ts'| ensures ts'[i] <= ts'[j] {
      assert ts'[i] == ts[i];
      if j < |ts| { assert ts'[j] == ts[j]; }
    }
  }

  lemma AdmitSpread(ts: seq<real>, m: int, window: real, stamp: real)
    requires Spread(ts, m, window) && m > 0
    requires forall i :: 0 <= i <= |ts| - m && i < |ts| ==> ts[i] + window < stamp
    ensures Spread(ts + [stamp], m, window)
  {
    var ts' := ts + [stamp];
    forall i, j | 0 <= i < |ts'| && 0 <= j < |ts'| && i + m <= j ensures ts'[j] > ts'[i] + window {
      assert ts'[i] == ts[i];
      if j < |ts| { assert ts'[j] == ts[j]; }
    }
  }

  /** The last reading of a run that starts at `from`. */
  ghost function End(from: real, es: seq<Event>): real
    decreases es
  {
    if es == [] then from else End(Latest(es[0]), es[1..])
  }

  lemma {:induction false} RunKeeps(maxCalls: int, window: real, s: State, k: nat, now: real, es: seq<Event>) returns (k': nat)
    requires Kept(maxCalls, window, s, k, now) && Timely(now, es)
    ensures Kept(maxCalls, window, Run(maxCalls, window, s, es), k', End(now, es))
    decreases es
  {
    if es == [] {
      k' := k;
    } else {
      hide Kept;
      var k1 := StepKeeps(maxCalls, window, s, k, now, es[0]);
      k' := RunKeeps(maxCalls, window, Step(maxCalls, window, s, es[0]), k1, Latest(es[0]), es[1..]);
    }
  }

  // ---------------------------------------------------------------- the bound

  function CountIn(ts: seq<real>, a: real, b: real): nat
  {
    if ts == [] then 0 else (if a <= ts[0] <= b then 1 else 0) + CountIn(ts[1..], a, b)
  }

  lemma {:induction false} NoneAfter(ts: seq<real>, a: real, b: real)
    requires Ordered(ts) && (ts != [] ==> ts[0] > b)
    ensures CountIn(ts, a, b) == 0
  {
    if ts != [] {
      if |ts| > 1 { assert ts[0] <= ts[1]; }
      NoneAfter(ts[1..], a, b);
    }
  }

  lemma {:induction false} CountSplit(ts: seq<real>, n: nat, a: real, b: real)
    requires n <= |ts|
    ensures CountIn(ts, a, b) == CountIn(ts[..n], a, b) + CountIn(ts[n..], a, b)
    ensures CountIn(ts[..n], a, b) <= n
  {
    if n > 0 {
      CountSplit(ts[1..], n - 1, a, b);
      assert ts[..n][1..] == ts[1..][..n-1];
    }
  }

  lemma {:induction false} CountBounded(ts: seq<real>, m: nat, window: real, a: real)
    requires Ordered(ts) && Spread(ts, m, window)
    ensures CountIn(ts, a, a + window) <= m
  {
    if ts != [] {
      var tail := ts[1..];
      if ts[0] < a {
        assert Spread(tail, m, window) by {
          forall i, j | 0 <= i && i + m <= j < |tail| ensures tail[j] > tail[i] + window { assert ts[j+1] > ts[i+1] + window; }
        }
        CountBounded(tail, m, window, a);
      } else if m < |ts| {
        CountSplit(ts, m, a, a + window);
        assert ts[m] > ts[0] + window;
        NoneAfter(ts[m..], a, a + window);
      } else {
        CountSplit(ts, |ts|, a, a + window);
        assert ts[..|ts|] == ts && ts[|ts|..] == [];
      }
    }
  }

  /** The limit holds at every place: in any run from a new limiter, any closed interval as
      long as the window contains at most `maxCalls` admitted calls, wherever it starts. */
  lemma WindowBound(maxCalls: int, window: real, start: real, es: seq<Event>, a: real)
    requires Timely(start, es)
    ensures CountIn(Run(maxCalls, window, State([], []), es).admitted, a, a + window) <= (if maxCalls > 0 then maxCalls else 0)
  {
    var s := Run(maxCalls, window, State([], []), es);
    if maxCalls <= 0 {
      NothingAdmitted(maxCalls, window, State([], []), es);
    } else {
      var k := RunKeeps(maxCalls, window, State([], []), 0, start, es);
      CountBounded(s.admitted, maxCalls, window, a);
    }
  }

  lemma {:induction false} NothingAdmitted(maxCalls: int, window: real, s: State, es: seq<Event>)
    requires maxCalls <= 0
    ensures Run(maxCalls, window, s, es).admitted == s.admitted
    ensures s.stamps == [] ==> Run(maxCalls, window, s, es).stamps == []
    decreases es
  {
    if es != [] { NothingAdmitted(maxCalls, window, Step(maxCalls, window, s, es[0]), es[1..]); }
  }

  /** A limiter that allows no calls refuses in every run, and asked how long to wait fails. */
  lemma NoCallsAllowed(maxCalls: int, window: real, es: seq<Event>, read: real, again: real, stamp: real)
    requires maxCalls <= 0
    ensures var stamps := Run(maxCalls, window, State([], []), es).stamps;
      && !TryAcquire(maxCalls, window, stamps, read, stamp).1
      && WaitTime(maxCalls, window, stamps, read, again) == IndexError
  {
    NothingAdmitted(maxCalls, window, State([], []), es);
  }

  // ---------------------------------------------------------------- who is admitted

  lemma {:induction false} CountNone(ts: seq<real>, a: real, b: real)
    requires forall i :: 0 <= i < |ts| ==> ts[i] < a
    ensures CountIn(ts, a, b) == 0
  {
    if ts != [] { CountNone(ts[1..], a, b); }
  }

  lemma {:induction false} CountAll(ts: seq<real>, a: real, b: real)
    requires forall i :: 0 <= i < |ts| ==> a <= ts[i] <= b
    ensures CountIn(ts, a, b) == |ts|
  {
    if ts != [] { CountAll(ts[1..], a, b); }
  }

  /** What eviction leaves at any point of a run: the admitted stamps of the last window. */
  lemma CleanIsRecent(maxCalls: int, window: real, s: State, k: nat, now: real, read: real)
    requires Kept(maxCalls, window, s, k, now) && now <= read
    ensures var kept, recent := Clean(s.stamps, read - window), CountIn(s.admitted, read - window, read);
      |kept| == recent <= |s.admitted| && kept == s.admitted[|s.admitted| - recent..]
  {
    hide Spread, Clean;
    var d := CleanDrops(s.stamps, read - window);
    var m := k + d;
    assert s.stamps[d..] == s.admitted[m..];
    forall i | 0 <= i < m ensures s.admitted[i] < read - window {
      if i >= k { assert s.stamps[i-k] == s.admitted[i]; }
    }
    CountSplit(s.admitted, m, read - window, read);
    CountNone(s.admitted[..m], read - window, read);
    CountAll(s.admitted[m..], read - window, read);
  }

  /** The other half of the limit: at any point of any run a call is admitted if and only if
      fewer than `maxCalls` were admitted in the window up to it, and then it is the newest
      stamp; what is held is always what was admitted within the window. */
  lemma AdmitsExactly(maxCalls: int, window: real, start: real, es: seq<Event>, read: real, stamp: real)
    requires Timely(start, es) && End(start, es) <= read
    ensures var s := Run(maxCalls, window, State([], []), es); var recent := CountIn(s.admitted, read - window, read);
      var s', ok := Step(maxCalls, window, s, Trying(read, stamp)), TryAcquire(maxCalls, window, s.stamps, read, stamp).1;
      && (ok <==> recent < maxCalls) && (IsAllowed(maxCalls, window, s.stamps, read) <==> recent < maxCalls)
      && s'.admitted == s.admitted + (if ok then [stamp] else [])
      && recent <= |s.admitted| && s'.stamps == s'.admitted[|s.admitted| - recent..]
  {
    hide Kept, Clean, CountIn;
    KeptAtStart(maxCalls, window, start);
    var s := Run(maxCalls, window, State([], []), es);
    var k := RunKeeps(maxCalls, window, State([], []), 0, start, es);
    CleanIsRecent(maxCalls, window, s, k, End(start, es), read);
  }

  lemma KeptAtStart(maxCalls: int, window: real, start: real)
    ensures Kept(maxCalls, window, State([], []), 0, start)
  {}

  // ---------------------------------------------------------------- waiting

  /** A wait of zero does not quite mean a free slot: it is reported exactly when a slot is
      free or the oldest stamp is a full window old by the second reading of the clock. */
  lemma WaitZeroWhen(maxCalls: int, window: real, stamps: seq<real>, read: real, again: real)
    requires maxCalls > 0
    ensures var kept := Clean(stamps, read - window);
      WaitTime(maxCalls, window, stamps, read, again) == Seconds(0.0)
      <==> IsAllowed(maxCalls, window, stamps, read) || kept[0] + window <= again
  {}

  /** The difference is real: with one call allowed a second and one made a second ago, no
      wait is reported and the call is refused. */
  lemma WaitZeroYetRefused()
    ensures WaitTime(1, 1.0, [0.0], 1.0, 1.0) == Seconds(0.0)
    ensures !TryAcquire(1, 1.0, [0.0], 1.0, 1.0).1
  {}

  /** With no slot free, and nobody else calling, a call succeeds exactly if it comes
      later than a full window after the oldest stamp kept. So any delay longer than the
      wait reported is enough; the wait itself is enough exactly if that window had passed
      by the second reading of the clock already. */
  lemma OnlyLongerDelayFrees(maxCalls: int, window: real, stamps: seq<real>, read: real, again: real, delay: real, stamp: real)
    requires maxCalls > 0 && |stamps| <= maxCalls && read <= again && delay >= 0.0
    requires !IsAllowed(maxCalls, window, stamps, read)
    ensures var wait, kept := WaitTime(maxCalls, window, stamps, read, again), Clean(stamps, read - window);
      && kept != [] && wait.Seconds? && wait.s >= 0.0
      && (TryAcquire(maxCalls, window, kept, again + delay, stamp).1 <==> delay > kept[0] + window - again)
      && (delay > wait.s ==> TryAcquire(maxCalls, window, kept, again + delay, stamp).1)
      && (TryAcquire(maxCalls, window, kept, again + wait.s, stamp).1 <==> kept[0] + window < again)
  {
    hide Clean;
    var k := CleanDrops(stamps, read - window);
    var kept := Clean(stamps, read - window);
    var wait := Max(0.0, kept[0] + window - again);
    var i := CleanDrops(kept, again + delay - window);
    var j := CleanDrops(kept, again + wait - window);
  }

  /** Luck with the clock: the same wait of zero, reported half a second later, is enough. */
  lemma WaitZeroYetGranted()
    ensures !IsAllowed(1, 1.0, [0.0], 1.0)
    ensures WaitTime(1, 1.0, [0.0], 1.0, 1.5) == Seconds(0.0)
    ensures TryAcquire(1, 1.0, [0.0], 1.5, 1.5).1
  {}

  /** In every run a limiter holds no more stamps than it allows calls. */
  lemma FewHeld(maxCalls: int, window: real, start: real, es: seq<Event>)
    requires maxCalls > 0 && Timely(start, es)
    ensures |Run(maxCalls, window, State([], []), es).stamps| <= maxCalls
  {
    var k := RunKeeps(maxCalls, window, State([], []), 0, start, es);
  }

  // ---------------------------------------------------------------- the class

  class RateLimiter {
    const maxCalls: int
    const timeWindow: real
    var timestamps: seq<real>

    constructor (maxCalls: int, timeWindow: real)
      ensures this.maxCalls == maxCalls && this.timeWindow == timeWindow && timestamps == []
    {
      this.maxCalls, this.timeWindow := maxCalls, timeWindow;
      timestamps := [];
    }

    method CleanOldTimestamps(now: real)
      modifies this
      ensures timestamps == Clean(old(timestamps), now - timeWindow)
    {
      var cutoff := now - timeWindow;
      while timestamps != [] && timestamps[0] < cutoff
        invariant Clean(timestamps, cutoff) == Clean(old(timestamps), cutoff)
        decreases |timestamps|
      {
        timestamps := timestamps[1..];
      }
    }

    method Allowed(now: real) returns (ok: bool)
      modifies this
      ensures ok == IsAllowed(maxCalls, timeWindow, old(timestamps), now)
      ensures timestamps == Clean(old(timestamps), now - timeWindow)
    {
      CleanOldTimestamps(now);
      return |timestamps| < maxCalls;
    }

    method Acquire(now: real, stamp: real) returns (ok: bool)
      modifies this
      ensures (timestamps, ok) == TryAcquire(maxCalls, timeWindow, old(timestamps), now, stamp)
    {
      CleanOldTimestamps(now);
      if |timestamps| < maxCalls {
        timestamps := timestamps + [stamp];
        return true;
      }
      return false;
    }

    method TimeToWait(now: real, again: real) returns (wait: Wait)
      modifies this
      ensures wait == WaitTime(maxCalls, timeWindow, old(timestamps), now, again)
      ensures timestamps == Clean(old(timestamps), now - timeWindow)
    {
      CleanOldTimestamps(now);
      if |timestamps| < maxCalls {
        return Seconds(0.0);
      }
      if timestamps == [] {
        return IndexError;
      }
      return Seconds(Max(0.0, timestamps[0] + timeWindow - again));
    }
  }
}
