/** Many token buckets under one watch: whether anything is throttling, how badly, and
    which connection to prefer. */
module RateLimitOverwatch {
  import opened Basics
  import opened TokenBucket

  datatype ThrottleStatus = ThrottleStatus(isThrottling: bool, services: seq<string>, suggestedCooldown: real, level: ThrottleLevel)

  /** The WebSocket buckets, most important first. */
  const WS_PRIORITY: seq<string> := ["polymarket_ws", "binance_ws"]

  function Severity(l: ThrottleLevel): nat
  {
    match l
    case NORMAL => 0
    case WARNING => 1
    case CRITICAL => 2
    case COOLDOWN => 3
  }

  /** The buckets by name, in the dictionary's order, as they stand. */
  ghost predicate Sound(bs: seq<(string, Bucket)>)
  {
    forall i :: 0 <= i < |bs| ==> bs[i].1.capacity > 0.0
  }

  function Throttled(bs: seq<(string, Bucket)>): seq<string>
    requires forall i :: 0 <= i < |bs| ==> bs[i].1.capacity != 0.0
  {
    if bs == [] then []
    else Throttled(bs[..|bs|-1]) + (if LevelOf(bs[|bs|-1].1) != NORMAL then [bs[|bs|-1].0] else [])
  }

  /** The status says what the buckets are: `level` is the worst of theirs, the services
      named are the throttled ones in order, and the pause suggested is the longest
      cooldown left, or else a fixed one by the highest utilization. */
  ghost predicate Reports(s: ThrottleStatus, bs: seq<(string, Bucket)>, now: real)
    requires Sound(bs)
  {
    && (forall i :: 0 <= i < |bs| ==> Severity(LevelOf(bs[i].1)) <= Severity(s.level))
    && (s.level != NORMAL ==> exists i :: 0 <= i < |bs| && LevelOf(bs[i].1) == s.level)
    && (s.isThrottling <==> s.level != NORMAL)
    && s.services == Throttled(bs)
    && (forall i :: 0 <= i < |bs| && bs[i].1.inCooldown ==> CooldownRemaining(bs[i].1, now) <= s.suggestedCooldown)
    && (s.level == COOLDOWN ==> exists i :: 0 <= i < |bs| && bs[i].1.inCooldown && s.suggestedCooldown == CooldownRemaining(bs[i].1, now))
    && (s.level == CRITICAL ==> s.suggestedCooldown == COOLDOWN_DURATION)
    && (s.level == WARNING ==> s.suggestedCooldown == 1.0)
    && (s.level == NORMAL ==> s.suggestedCooldown == 0.0)
  }

  /** The running figures of the status loop. */
  ghost predicate SoFar(bs: seq<(string, Bucket)>, now: real, services: seq<string>, maxUtilization: real,
                        worst: ThrottleLevel, cooldowns: seq<real>)
    requires Sound(bs)
  {
    && services == Throttled(bs)
    && (forall i :: 0 <= i < |bs| ==> Utilization(bs[i].1) <= maxUtilization && Severity(LevelOf(bs[i].1)) <= Severity(worst))
    && (maxUtilization == 0.0 || exists i :: 0 <= i < |bs| && Utilization(bs[i].1) == maxUtilization) && maxUtilization >= 0.0
    && (worst != NORMAL ==> exists i :: 0 <= i < |bs| && LevelOf(bs[i].1) == worst)
    && (cooldowns != [] <==> worst == COOLDOWN)
    && (forall i :: 0 <= i < |bs| && bs[i].1.inCooldown ==> CooldownRemaining(bs[i].1, now) in cooldowns)
    && (forall c :: c in cooldowns ==> exists i :: 0 <= i < |bs| && bs[i].1.inCooldown && CooldownRemaining(bs[i].1, now) == c)
  }

  class RateLimitOverwatch {
    var names: seq<string>
    var buckets: map<string, TokenBucket>

    ghost predicate Valid()
      reads this, buckets.Values
    {
      && (forall i :: 0 <= i < |names| ==> names[i] in buckets)
      && (forall n :: n in buckets ==> n in names && buckets[n].capacity > 0.0)
    }

    ghost function View(): (bs: seq<(string, Bucket)>)
      requires Valid()
      reads this, buckets.Values
      ensures |bs| == |names| && forall i :: 0 <= i < |bs| ==> bs[i] == (names[i], buckets[names[i]].View())
      ensures Sound(bs)
    {
      seq(|names|, i requires 0 <= i < |names| && Valid() reads this, buckets.Values => (names[i], buckets[names[i]].View()))
    }

    /** True exactly if some bucket is in cooldown or at the warning threshold. */
    method IsThrottling() returns (r: bool)
      requires Valid()
      ensures r <==> exists i :: 0 <= i < |View()| && LevelOf(View()[i].1) != NORMAL
    {
      for i := 0 to |names|
        invariant forall j :: 0 <= j < i ==> LevelOf(View()[j].1) == NORMAL
      {
        var bucket := buckets[names[i]];
        assert View()[i].1 == bucket.View();
        if bucket.CurrentUtilization() >= WARNING_THRESHOLD {
          return true;
        }
        if bucket.inCooldown {
          return true;
        }
      }
      return false;
    }

    method GetThrottleStatus(now: real) returns (status: ThrottleStatus)
      requires Valid()
      ensures Reports(status, View(), now)
    {
      hide Reports, SoFar, Utilization, LevelOf, Throttled, CooldownRemaining;
      var services, maxUtilization, worst, cooldowns := [], 0.0, NORMAL, [];
      SoFarNone(now);
      assert View()[..0] == [];
      for i := 0 to |names|
        invariant SoFar(View()[..i], now, services, maxUtilization, worst, cooldowns)
      {
        var name, bucket := names[i], buckets[names[i]];
        SoFarNext(View()[..i], View()[i], now, services, maxUtilization, worst, cooldowns);
        assert View()[..i] + [View()[i]] == View()[..i+1] && View()[i] == (name, bucket.View());
        var utilization, level := bucket.CurrentUtilization(), bucket.Level();
        if utilization > maxUtilization {
          maxUtilization := utilization;
        }
        match level {
          case COOLDOWN =>
            worst, services := COOLDOWN, services + [name];
            cooldowns := cooldowns + [bucket.LeftOfCooldown(now)];
          case CRITICAL =>
            if worst != COOLDOWN { worst := CRITICAL; }
            services := services + [name];
          case WARNING =>
            if worst == NORMAL { worst := WARNING; }
            services := services + [name];
          case NORMAL =>
        }
      }
      assert View()[..|names|] == View();
      var suggested;
      if cooldowns != [] {
        suggested := Longest(cooldowns);
      } else if maxUtilization >= CRITICAL_THRESHOLD {
        suggested := COOLDOWN_DURATION;
      } else if maxUtilization >= WARNING_THRESHOLD {
        suggested := 1.0;
      } else {
        suggested := 0.0;
      }
      status := ThrottleStatus(worst != NORMAL, services, suggested, worst);
      SoFarReports(View(), now, services, maxUtilization, worst, cooldowns, status);
    }

    /** The most important WebSocket bucket below the warning threshold. Only utilization is
        looked at; with every bucket in good order that is enough to pass over the ones in
        cooldown. */
    method GetPriorityWsBucket(ghost now: real) returns (best: Option<string>)
      requires Valid()
      ensures best.Some? ==> best.value in WS_PRIORITY && best.value in buckets
      ensures best.Some? ==> Utilization(buckets[best.value].View()) < WARNING_THRESHOLD
      ensures best == Some(WS_PRIORITY[1]) && WS_PRIORITY[0] in buckets ==>
        Utilization(buckets[WS_PRIORITY[0]].View()) >= WARNING_THRESHOLD
      ensures best == None ==> forall n :: n in WS_PRIORITY && n in buckets ==>
        Utilization(buckets[n].View()) >= WARNING_THRESHOLD
      ensures best.Some? && (forall n :: n in buckets ==> Kept(buckets[n].View(), now)) ==>
        LevelOf(buckets[best.value].View()) == NORMAL && !buckets[best.value].inCooldown
    {
      hide Utilization, Kept, LevelOf;
      for k := 0 to |WS_PRIORITY|
        invariant forall j :: 0 <= j < k && WS_PRIORITY[j] in buckets ==> Utilization(buckets[WS_PRIORITY[j]].View()) >= WARNING_THRESHOLD
      {
        var name := WS_PRIORITY[k];
        if name in buckets {
          var bucket := buckets[name];
          if bucket.CurrentUtilization() < WARNING_THRESHOLD {
            if Kept(bucket.View(), now) { CooldownShows(bucket.View(), now); }
            return Some(name);
          }
        }
      }
      return None;
    }
  }

  /** The greatest of some numbers. */
  method Longest(xs: seq<real>) returns (m: real)
    requires xs != []
    ensures m in xs && forall x :: x in xs ==> x <= m
  {
    m := xs[0];
    for i := 1 to |xs|
      invariant m in xs[..i] && forall j :: 0 <= j < i ==> xs[j] <= m
    {
      if xs[i] > m {
        m := xs[i];
      }
    }
  }

  lemma SoFarNone(now: real)
    ensures SoFar([], now, [], 0.0, NORMAL, [])
  {}

  lemma SoFarNext(bs: seq<(string, Bucket)>, b: (string, Bucket), now: real,
                  services: seq<string>, maxUtilization: real, worst: ThrottleLevel, cooldowns: seq<real>)
    requires Sound(bs + [b]) && Sound(bs) && b.1.capacity > 0.0 && SoFar(bs, now, services, maxUtilization, worst, cooldowns)
    ensures var u, l := Utilization(b.1), LevelOf(b.1);
      SoFar(bs + [b], now, if l != NORMAL then services + [b.0] else services, Max(maxUtilization, u),
            if Severity(l) > Severity(worst) then l else worst,
            if l == COOLDOWN then cooldowns + [CooldownRemaining(b.1, now)] else cooldowns)
  {
    hide Utilization, CooldownRemaining;
    var bs', n := bs + [b], |bs|;
    assert bs'[..n] == bs && bs'[n] == b;
  }

  function FixedPause(maxUtilization: real): real
  {
    if maxUtilization >= CRITICAL_THRESHOLD then COOLDOWN_DURATION
    else if maxUtilization >= WARNING_THRESHOLD then 1.0
    else 0.0
  }

  /** The final figures make a true report. */
  lemma SoFarReports(bs: seq<(string, Bucket)>, now: real, services: seq<string>, maxUtilization: real,
                     worst: ThrottleLevel, cooldowns: seq<real>, s: ThrottleStatus)
    requires Sound(bs) && SoFar(bs, now, services, maxUtilization, worst, cooldowns)
    requires s.isThrottling == (worst != NORMAL) && s.services == services && s.level == worst
    requires cooldowns != [] ==> s.suggestedCooldown in cooldowns && forall c :: c in cooldowns ==> c <= s.suggestedCooldown
    requires cooldowns == [] ==> s.suggestedCooldown == FixedPause(maxUtilization)
    ensures Reports(s, bs, now)
  {
    hide Utilization, CooldownRemaining, Throttled;
    if worst != COOLDOWN {
      assert forall i :: 0 <= i < |bs| ==> Severity(LevelOf(bs[i].1)) <= Severity(worst);
    }
  }

  /** The two questions agree: something is throttling exactly when the status says so,
      and exactly when it names a service. */
  lemma StatusAgrees(s: ThrottleStatus, bs: seq<(string, Bucket)>, now: real)
    requires Sound(bs) && Reports(s, bs, now)
    ensures s.isThrottling <==> exists i :: 0 <= i < |bs| && LevelOf(bs[i].1) != NORMAL
    ensures s.isThrottling <==> s.services != []
  {
    hide Utilization, LevelOf, CooldownRemaining;
    NamesThrottled(bs);
    if exists i :: 0 <= i < |bs| && LevelOf(bs[i].1) != NORMAL {
      var i :| 0 <= i < |bs| && LevelOf(bs[i].1) != NORMAL;
      assert Severity(LevelOf(bs[i].1)) <= Severity(s.level);
    }
  }

  lemma {:induction false} NamesThrottled(bs: seq<(string, Bucket)>)
    requires Sound(bs)
    ensures Throttled(bs) != [] <==> exists i :: 0 <= i < |bs| && LevelOf(bs[i].1) != NORMAL
  {
    hide LevelOf;
    if bs != [] {
      var n := |bs| - 1;
      NamesThrottled(bs[..n]);
      assert forall i :: 0 <= i < n ==> bs[..n][i] == bs[i];
    }
  }

  /** The level reported, in tokens: cooldown if some bucket is in one, else critical if some
      bucket is down to a tenth of its capacity, else a warning if some is down to a fifth;
      and the pause suggested where none is in cooldown. */
  lemma StatusSaysWorst(s: ThrottleStatus, bs: seq<(string, Bucket)>, now: real)
    requires Sound(bs) && Reports(s, bs, now)
    ensures var cooling, low, lower := (exists i :: 0 <= i < |bs| && bs[i].1.inCooldown),
        (exists i :: 0 <= i < |bs| && 5.0 * bs[i].1.tokens <= bs[i].1.capacity),
        (exists i :: 0 <= i < |bs| && 10.0 * bs[i].1.tokens <= bs[i].1.capacity);
      && (s.level == COOLDOWN <==> cooling)
      && (s.level == CRITICAL <==> !cooling && lower)
      && (s.level == WARNING <==> !cooling && !lower && low)
      && (!cooling ==> s.suggestedCooldown == if lower then 5.0 else if low then 1.0 else 0.0)
  {
    hide Utilization, LevelOf, CooldownRemaining, Throttled;
    forall i | 0 <= i < |bs|
      ensures bs[i].1.inCooldown <==> LevelOf(bs[i].1) == COOLDOWN
      ensures !bs[i].1.inCooldown && 10.0 * bs[i].1.tokens <= bs[i].1.capacity <==> LevelOf(bs[i].1) == CRITICAL
      ensures LevelOf(bs[i].1) == WARNING
        <==> !bs[i].1.inCooldown && bs[i].1.capacity < 10.0 * bs[i].1.tokens && 5.0 * bs[i].1.tokens <= bs[i].1.capacity
      ensures Severity(LevelOf(bs[i].1)) <= Severity(s.level)
    {
      LevelsByTokens(bs[i].1);
    }
    if s.level != NORMAL { var i :| 0 <= i < |bs| && LevelOf(bs[i].1) == s.level; }
  }

  /** With some bucket in cooldown the pause suggested is exact: some bucket is still in
      cooldown before it is over, none after. */
  lemma PauseEndsCooldowns(s: ThrottleStatus, bs: seq<(string, Bucket)>, now: real, later: real)
    requires Sound(bs) && Reports(s, bs, now) && s.level == COOLDOWN && now <= later
    requires forall i :: 0 <= i < |bs| ==> Kept(bs[i].1, now)
    ensures (exists i :: 0 <= i < |bs| && CheckCooldownExpired(bs[i].1, later).inCooldown) <==> later - now < s.suggestedCooldown
  {
    hide Utilization, LevelOf, CooldownRemaining, Throttled, Kept;
    forall i | 0 <= i < |bs|
      ensures CheckCooldownExpired(bs[i].1, later).inCooldown <==> later - now < CooldownRemaining(bs[i].1, now)
      ensures CheckCooldownExpired(bs[i].1, later).inCooldown ==> bs[i].1.inCooldown
    {
      RemainingIsExact(bs[i].1, now, later);
    }
  }

  /** Throttled, in tokens: in cooldown, or down to a fifth of the capacity. */
  ghost predicate Low(b: Bucket)
  {
    b.inCooldown || 5.0 * b.tokens <= b.capacity
  }

  /** `names` are those of the buckets at the places `at`, which are the low ones in order. */
  ghost predicate NamesLow(bs: seq<(string, Bucket)>, names: seq<string>, at: seq<nat>)
  {
    && |names| == |at|
    && (forall k :: 0 <= k < |at| ==> at[k] < |bs| && names[k] == bs[at[k]].0 && Low(bs[at[k]].1))
    && (forall k, l :: 0 <= k < l < |at| ==> at[k] < at[l])
    && (forall i: nat :: i < |bs| && Low(bs[i].1) ==> i in at)
  }

  lemma NamesLowNext(bs: seq<(string, Bucket)>, b: (string, Bucket), names: seq<string>, at: seq<nat>)
    requires NamesLow(bs, names, at)
    ensures Low(b.1) ==> NamesLow(bs + [b], names + [b.0], at + [|bs|])
    ensures !Low(b.1) ==> NamesLow(bs + [b], names, at)
  {
    hide Low;
    var bs', at' := bs + [b], at + [|bs|];
    assert at'[|at|] == |bs| && bs'[|bs|] == b;
    forall i: nat | i < |bs| && i in at ensures i in at' {
      var k :| 0 <= k < |at| && at[k] == i;
      assert at'[k] == i;
    }
  }

  /** The services named are those of the throttled buckets, each once and in order. */
  lemma {:induction false} ThrottledExactly(bs: seq<(string, Bucket)>) returns (at: seq<nat>)
    requires Sound(bs)
    ensures NamesLow(bs, Throttled(bs), at)
  {
    hide LevelOf, Utilization, NamesLow;
    if bs == [] {
      at := [];
      NoNames();
    } else {
      var n := |bs| - 1;
      at := ThrottledExactly(bs[..n]);
      LevelsByTokens(bs[n].1);
      NamesLowNext(bs[..n], bs[n], Throttled(bs[..n]), at);
      assert bs[..n] + [bs[n]] == bs;
      if Low(bs[n].1) {
        at := at + [n];
      } else {
        assert Throttled(bs[..n]) + [] == Throttled(bs[..n]);
      }
    }
  }

  lemma NoNames()
    ensures NamesLow([], [], [])
  {}
}
