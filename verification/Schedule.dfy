/** Reflection schedules: when a tick fires one, and why the minimum-gap guard suppresses
    exactly the repeated ticks of a minute. */
module Schedule {
  import opened Results
  import opened Calendar

  datatype Schedule = Schedule(enabled: bool, hour: int, minute: int, dayOfWeek: Option<int>, dayOfMonth: Option<int>) {

    /** The instant lies in a minute the schedule is meant for. */
    predicate InDueMinute(now: nat) {
      && enabled && HourOfDay(now) == hour && MinuteOfHour(now) == minute
      && (dayOfWeek.Some? ==> WeekdayOf(DayOf(now)) == dayOfWeek.value)
      && (dayOfMonth.Some? ==> DateOf(DayOf(now)).day == dayOfMonth.value)
    }

    function MinGap(): nat {
      if dayOfMonth.Some? then 27 * DAY else if dayOfWeek.Some? then 6 * DAY else 23 * HOUR
    }

    /** Due minutes lie at least this many days apart. */
    function Period(): nat {
      if dayOfMonth.Some? then 28 else if dayOfWeek.Some? then 7 else 1
    }

    /** The zero instant as last run stands for never. */
    function IsDue(now: nat, lastRun: nat): bool {
      if !enabled then false
      else if HourOfDay(now) != hour || MinuteOfHour(now) != minute then false
      else if dayOfWeek.Some? && WeekdayOf(DayOf(now)) != dayOfWeek.value then false
      else if dayOfMonth.Some? && DateOf(DayOf(now)).day != dayOfMonth.value then false
      else if lastRun != 0 && Sub(now, lastRun) < MinGap() then false
      else true
    }
  }

  // ---------- a run of ticks ----------

  /** The last run after the first n ticks. */
  function LastRun(s: Schedule, ticks: seq<nat>, n: nat): nat
    requires n <= |ticks|
    decreases n, 0
  {
    if n == 0 then 0 else if Fires(s, ticks, n - 1) then ticks[n - 1] else LastRun(s, ticks, n - 1)
  }

  predicate Fires(s: Schedule, ticks: seq<nat>, i: nat)
    requires i < |ticks|
    decreases i, 1
  {
    s.IsDue(ticks[i], LastRun(s, ticks, i))
  }

  /** Ticks come in order. */
  predicate InOrder(ticks: seq<nat>) {
    forall i, j | 0 <= i < j < |ticks| :: ticks[i] <= ticks[j]
  }

  lemma MinuteTimes(h: int, m: int, a: nat)
    requires a % 1440 / 60 == h && a % 60 == m
    ensures a % 1440 == 60 * h + m
  {
    var r := a % 1440;
    assert a == 1440 * (a / 1440) + r;
    assert a % 60 == r % 60;
  }

  /** Two different due minutes are whole periods apart. */
  lemma DueMinutesApart(s: Schedule, a: nat, b: nat)
    requires s.InDueMinute(a) && s.InDueMinute(b) && MinuteOf(a) < MinuteOf(b)
    ensures MinuteOf(b) - MinuteOf(a) >= 1440 * s.Period()
  {
    hide DateOf;
    var x, y := MinuteOf(a), MinuteOf(b);
    MinuteTimes(s.hour, s.minute, x);
    MinuteTimes(s.hour, s.minute, y);
    assert x == 1440 * DayOf(a) + x % 1440 && y == 1440 * DayOf(b) + y % 1440;
    assert DayOf(a) < DayOf(b);
    if s.dayOfMonth.Some? {
      SameDayApart(DayOf(a), DayOf(b));
    } else if s.dayOfWeek.Some? {
      SameWeekdayApart(DayOf(a), DayOf(b));
    }
  }

  lemma InMinute(t: nat)
    ensures MinuteOf(t) * MINUTE <= t < MinuteOf(t) * MINUTE + MINUTE
  {
  }

  /** Between two due minutes the guard has run out. */
  lemma GapRunsOut(s: Schedule, a: nat, b: nat)
    requires s.InDueMinute(a) && s.InDueMinute(b) && MinuteOf(a) < MinuteOf(b)
    ensures Sub(b, a) >= s.MinGap()
  {
    hide s.InDueMinute, MinuteOf;
    DueMinutesApart(s, a, b);
    InMinute(a);
    InMinute(b);
    assert (MinuteOf(b) - MinuteOf(a)) * MINUTE >= 1440 * s.Period() * MINUTE;
    assert b - a > 1440 * s.Period() * MINUTE - MINUTE;
  }

  /** Within a minute it has not. */
  lemma GapHolds(s: Schedule, a: nat, b: nat)
    requires a <= b && MinuteOf(a) == MinuteOf(b)
    ensures Sub(b, a) < s.MinGap()
  {
    InMinute(a);
    InMinute(b);
  }

  predicate LatestFire(s: Schedule, ticks: seq<nat>, n: nat, j: nat)
    requires n <= |ticks|
  {
    j < n && Fires(s, ticks, j) && forall k | j < k < n :: !Fires(s, ticks, k)
  }

  /** The last run is the latest tick that fired; a run at the zero instant leaves no trace. */
  lemma {:induction false} LastRunIs(s: Schedule, ticks: seq<nat>, n: nat)
    requires InOrder(ticks) && n <= |ticks|
    ensures LastRun(s, ticks, n) == 0 ==> forall j | 0 <= j < n && Fires(s, ticks, j) :: ticks[j] == 0
    ensures LastRun(s, ticks, n) != 0 ==> exists j: nat :: LatestFire(s, ticks, n, j) && ticks[j] == LastRun(s, ticks, n)
    decreases n
  {
    hide Fires, LastRun;
    LastRunStep(s, ticks, n);
    if n > 0 {
      LastRunIs(s, ticks, n - 1);
      if Fires(s, ticks, n - 1) {
        assert LatestFire(s, ticks, n, n - 1);
      } else if LastRun(s, ticks, n) != 0 {
        var j: nat :| LatestFire(s, ticks, n - 1, j) && ticks[j] == LastRun(s, ticks, n - 1);
        assert LatestFire(s, ticks, n, j);
      }
    }
  }

  lemma LastRunStep(s: Schedule, ticks: seq<nat>, n: nat)
    requires n <= |ticks|
    ensures LastRun(s, ticks, n) == if n == 0 then 0 else if Fires(s, ticks, n - 1) then ticks[n - 1] else LastRun(s, ticks, n - 1)
  {
  }

  lemma FiresStep(s: Schedule, ticks: seq<nat>, i: nat)
    requires i < |ticks|
    ensures Fires(s, ticks, i) <==>
              s.InDueMinute(ticks[i]) && (LastRun(s, ticks, i) == 0 || Sub(ticks[i], LastRun(s, ticks, i)) >= s.MinGap())
  {
    hide LastRun;
  }

  /** No earlier tick fired in the tick's minute. */
  predicate FirstOfMinute(s: Schedule, ticks: seq<nat>, i: nat)
    requires i < |ticks|
  {
    forall j | 0 <= j < i && Fires(s, ticks, j) :: MinuteOf(ticks[j]) != MinuteOf(ticks[i])
  }

  /** A run on record tells first ticks of a minute from repeated ones. */
  lemma GuardTells(s: Schedule, ticks: seq<nat>, i: nat)
    requires InOrder(ticks) && i < |ticks| && s.InDueMinute(ticks[i]) && LastRun(s, ticks, i) != 0
    ensures Fires(s, ticks, i) <==> FirstOfMinute(s, ticks, i)
  {
    hide Fires, LastRun, MinuteOf, s.MinGap, s.InDueMinute, Sub;
    FiresStep(s, ticks, i);
    LastRunIs(s, ticks, i);
    var j: nat :| LatestFire(s, ticks, i, j) && ticks[j] == LastRun(s, ticks, i);
    FiresStep(s, ticks, j);
    assert ticks[j] <= ticks[i];
    MinutesOrdered(ticks[j], ticks[i]);
    if MinuteOf(ticks[j]) == MinuteOf(ticks[i]) {
      GapHolds(s, ticks[j], ticks[i]);
    } else {
      GapRunsOut(s, ticks[j], ticks[i]);
      forall k | 0 <= k < i && Fires(s, ticks, k) ensures MinuteOf(ticks[k]) != MinuteOf(ticks[i]) {
        assert k <= j;
        MinutesOrdered(ticks[k], ticks[j]);
      }
    }
  }

  /** The tick follows one at the zero instant within the first minute of all. */
  predicate AfterZero(ticks: seq<nat>, i: nat)
    requires i < |ticks|
  {
    i > 0 && ticks[i - 1] == 0 && MinuteOf(ticks[i]) == 0
  }

  /** Without a run on record it is the zero instant only that is forgotten. */
  lemma ZeroForgotten(s: Schedule, ticks: seq<nat>, i: nat)
    requires InOrder(ticks) && i < |ticks| && s.InDueMinute(ticks[i]) && LastRun(s, ticks, i) == 0
    ensures Fires(s, ticks, i) && (FirstOfMinute(s, ticks, i) <==> !AfterZero(ticks, i))
  {
    hide Fires, LastRun, Sub;
    FiresStep(s, ticks, i);
    LastRunIs(s, ticks, i);
    if i > 0 {
      FiresStep(s, ticks, i - 1);
      LastRunStep(s, ticks, i);
      assert ticks[i - 1] <= ticks[i];
      forall j | 0 <= j < i && Fires(s, ticks, j) && MinuteOf(ticks[j]) == MinuteOf(ticks[i]) ensures AfterZero(ticks, i) {
        assert ticks[j] == 0;
        BetweenDue(s, ticks[i - 1], ticks[i]);
      }
      if AfterZero(ticks, i) { BetweenDue(s, ticks[i - 1], ticks[i]); }
    }
  }

  /** In the first minute of all, what comes before a due instant is due. */
  lemma BetweenDue(s: Schedule, a: nat, b: nat)
    requires s.InDueMinute(b) && a <= b && MinuteOf(b) == 0
    ensures s.InDueMinute(a) && MinuteOf(a) == 0
  {
    hide DateOf;
    MinutesOrdered(a, b);
  }

  lemma RecordPastZero(s: Schedule, ticks: seq<nat>, i: nat)
    requires InOrder(ticks) && i < |ticks| && LastRun(s, ticks, i) != 0
    ensures !AfterZero(ticks, i)
  {
    hide Fires, LastRun, MinuteOf;
    LastRunIs(s, ticks, i);
    var j: nat :| LatestFire(s, ticks, i, j) && ticks[j] == LastRun(s, ticks, i);
    assert j < i - 1 ==> ticks[j] <= ticks[i - 1];
  }

  /** Over any ticks in order, a tick in a due minute fires unless an earlier tick fired in
      that minute: the guard never suppresses a minute's first tick, nor lets a second one
      through, except right after a tick at the zero instant, which it takes for never. */
  lemma FiresOncePerDueMinute(s: Schedule, ticks: seq<nat>, i: nat)
    requires InOrder(ticks) && i < |ticks|
    ensures Fires(s, ticks, i) <==> s.InDueMinute(ticks[i]) && (FirstOfMinute(s, ticks, i) || AfterZero(ticks, i))
  {
    hide Fires, LastRun, s.InDueMinute, FirstOfMinute, AfterZero;
    FiresStep(s, ticks, i);
    if s.InDueMinute(ticks[i]) {
      if LastRun(s, ticks, i) != 0 {
        GuardTells(s, ticks, i);
        RecordPastZero(s, ticks, i);
      } else {
        ZeroForgotten(s, ticks, i);
      }
    }
  }

  /** Firing once per due minute fails at a tick exactly when the tick is due and follows one
      at the zero instant within the first minute of all. */
  lemma OncePerMinuteIff(s: Schedule, ticks: seq<nat>, i: nat)
    requires InOrder(ticks) && i < |ticks|
    ensures (Fires(s, ticks, i) <==> s.InDueMinute(ticks[i]) && FirstOfMinute(s, ticks, i)) <==>
              !(s.InDueMinute(ticks[i]) && AfterZero(ticks, i))
  {
    hide Fires, LastRun, s.InDueMinute, FirstOfMinute, AfterZero;
    FiresOncePerDueMinute(s, ticks, i);
    if s.InDueMinute(ticks[i]) && AfterZero(ticks, i) {
      if LastRun(s, ticks, i) != 0 { RecordPastZero(s, ticks, i); } else { ZeroForgotten(s, ticks, i); }
    }
  }

  lemma MinutesOrdered(a: nat, b: nat)
    requires a <= b
    ensures MinuteOf(a) <= MinuteOf(b)
  {
  }

  /** The first tick of a due minute fires. */
  lemma FirstTickFires(s: Schedule, ticks: seq<nat>, i: nat)
    requires InOrder(ticks) && i < |ticks| && s.InDueMinute(ticks[i])
    requires forall j | 0 <= j < i :: MinuteOf(ticks[j]) != MinuteOf(ticks[i])
    ensures Fires(s, ticks, i)
  {
    hide Fires, MinuteOf;
    FiresOncePerDueMinute(s, ticks, i);
  }

  /** At the zero instant a run leaves no trace: the guard takes it for never. */
  lemma ZeroInstantFiresTwice()
    ensures var s, ticks := Schedule(true, 0, 0, None, None), [0, 1];
            Fires(s, ticks, 0) && Fires(s, ticks, 1) && MinuteOf(ticks[0]) == MinuteOf(ticks[1])
  {
    var s, ticks := Schedule(true, 0, 0, None, None), [0, 1];
    assert LastRun(s, ticks, 0) == 0;
    assert Fires(s, ticks, 0);
    assert LastRun(s, ticks, 1) == 0;
  }

  // ---------- the scheduler ----------

  datatype CycleType = Daily | Weekly | Monthly

  lemma AllTypes(types: seq<CycleType>, ct: CycleType)
    requires types == [Daily, Weekly, Monthly]
    ensures ct in types
  {
    assert types[0] == Daily && types[1] == Weekly && types[2] == Monthly;
  }

  class Scheduler {
    const daily: Schedule
    const weekly: Schedule
    const monthly: Schedule
    var lastRun: map<CycleType, nat>

    constructor (d: Schedule, w: Schedule, m: Schedule)
      ensures daily == d && weekly == w && monthly == m && lastRun == map[]
    {
      daily, weekly, monthly, lastRun := d, w, m, map[];
    }

    function Last(ct: CycleType): nat
      reads this
    {
      if ct in lastRun then lastRun[ct] else 0
    }

    function ScheduleOf(ct: CycleType): Schedule {
      match ct case Daily => daily case Weekly => weekly case Monthly => monthly
    }

    /** One tick: the cycle types whose cycles are run, each remembered as run now. */
    method Tick(now: nat) returns (fired: set<CycleType>)
      modifies this
      ensures forall ct: CycleType :: ct in fired <==> ScheduleOf(ct).IsDue(now, old(Last(ct)))
      ensures forall ct: CycleType :: Last(ct) == if ct in fired then now else old(Last(ct))
    {
      var types := [Daily, Weekly, Monthly];
      fired := {};
      for i := 0 to |types|
        invariant forall ct: CycleType :: ct in fired <==> ct in types[..i] && ScheduleOf(ct).IsDue(now, old(Last(ct)))
        invariant forall ct: CycleType :: Last(ct) == if ct in fired then now else old(Last(ct))
      {
        var ct := types[i];
        assert types[..i + 1] == types[..i] + [ct];
        var due := ScheduleOf(ct).IsDue(now, Last(ct));
        if !due { continue; }
        lastRun := lastRun[ct := now];
        fired := fired + {ct};
      }
      assert types[..|types|] == types;
      forall ct: CycleType ensures ct in types { AllTypes(types, ct); }
    }
  }

  /** Running a scheduler over ticks from the start does for each cycle type what the run
      of its schedule says. */
  method RunTicks(s: Scheduler, ticks: seq<nat>) returns (fired: seq<set<CycleType>>)
    requires s.lastRun == map[]
    modifies s
    ensures |fired| == |ticks|
    ensures forall ct: CycleType, i | 0 <= i < |ticks| :: ct in fired[i] <==> Fires(s.ScheduleOf(ct), ticks, i)
  {
    hide Fires, LastRun;
    fired := [];
    forall ct: CycleType ensures s.Last(ct) == LastRun(s.ScheduleOf(ct), ticks, 0) { LastRunStep(s.ScheduleOf(ct), ticks, 0); }
    for n := 0 to |ticks|
      invariant |fired| == n
      invariant forall ct: CycleType :: s.Last(ct) == LastRun(s.ScheduleOf(ct), ticks, n)
      invariant forall ct: CycleType, i | 0 <= i < n :: ct in fired[i] <==> Fires(s.ScheduleOf(ct), ticks, i)
    {
      var now := s.Tick(ticks[n]);
      forall ct: CycleType
        ensures ct in now <==> Fires(s.ScheduleOf(ct), ticks, n)
        ensures s.Last(ct) == LastRun(s.ScheduleOf(ct), ticks, n + 1)
      {
        FiresIsDue(s.ScheduleOf(ct), ticks, n);
        LastRunStep(s.ScheduleOf(ct), ticks, n + 1);
      }
      fired := fired + [now];
    }
  }

  lemma FiresIsDue(s: Schedule, ticks: seq<nat>, i: nat)
    requires i < |ticks|
    ensures Fires(s, ticks, i) <==> s.IsDue(ticks[i], LastRun(s, ticks, i))
  {
  }
}
