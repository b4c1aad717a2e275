/**
 cmd/daemon_schedule.go in a fixed-offset zone: instants are local nanoseconds, so
 a day is exactly 24 hours. DurationRange draws come from Jitter.
 */
module Schedule {
  import opened Wrappers
  import opened Text
  import opened Jitter

  const DAY: int := 1440 * MINUTE
  const COLON: Byte := 58

  /** The time_window block of the configuration. */
  datatype Window = Window(start: Str, end: Str, delay: DurationRange)

  predicate Digit(b: Byte) { 48 <= b <= 57 }

  function TwoDigits(a: Byte, b: Byte): int { (a as int - 48) * 10 + (b as int - 48) }

  /** time.Parse("15:04", v) as a minute of the day: the hour may have one digit. */
  function ParseClock(v: Str): (m: Option<nat>)
    ensures m.Some? ==> m.value < 1440
  {
    if |v| == 5 && Digit(v[0]) && Digit(v[1]) && v[2] == COLON && Digit(v[3]) && Digit(v[4])
       && TwoDigits(v[0], v[1]) < 24 && TwoDigits(v[3], v[4]) < 60 then
      Some(TwoDigits(v[0], v[1]) * 60 + TwoDigits(v[3], v[4]))
    else if |v| == 4 && Digit(v[0]) && v[1] == COLON && Digit(v[2]) && Digit(v[3])
       && TwoDigits(v[2], v[3]) < 60 then
      Some((v[0] as int - 48) * 60 + TwoDigits(v[2], v[3]))
    else None
  }

  predicate ValidClock(v: Str) { |v| == 5 && v[2] == COLON && ParseClock(v).Some? }

  datatype WindowError = BadStart | BadEnd | SameClock | BadDelay(e: RangeError)

  /** validateTimeWindow. */
  function ValidateTimeWindow(w: Window): Option<WindowError>
  {
    if !ValidClock(w.start) then Some(BadStart)
    else if !ValidClock(w.end) then Some(BadEnd)
    else if w.start == w.end then Some(SameClock)
    else match ValidateDurationRange(w.delay, MINUTE)
      case Rejected(e) => Some(BadDelay(e))
      case Accepted => None
  }

  /** The HH:MM text of a minute is unique. */
  lemma ClockInjective(s: Str, e: Str)
    requires ValidClock(s) && ValidClock(e) && ParseClock(s) == ParseClock(e)
    ensures s == e
  {
    assert TwoDigits(s[0], s[1]) == TwoDigits(e[0], e[1]);
    assert s[0] == e[0] && s[1] == e[1] && s[2] == e[2] && s[3] == e[3] && s[4] == e[4];
  }

  /** A validated window has two different minutes. */
  lemma ValidWindow(w: Window)
    requires ValidateTimeWindow(w) == None
    ensures ParseClock(w.start).Some? && ParseClock(w.end).Some?
    ensures ParseClock(w.start) != ParseClock(w.end)
  {
    if ParseClock(w.start) == ParseClock(w.end) {
      ClockInjective(w.start, w.end);
    }
  }

  function MinuteOfDay(t: int): nat { t % DAY / MINUTE }

  /** windowContainsNow once both clocks are parsed. */
  predicate Inside(t: int, start: nat, end: nat)
  {
    var m := MinuteOfDay(t);
    if start < end then start <= m < end else m >= start || m < end
  }

  /** nextTimeWindowStart once both clocks are parsed. */
  function NextStart(now: int, start: nat, end: nat): int
  {
    if Inside(now, start, end) then now
    else
      var candidate := now - now % DAY + start * MINUTE;
      if candidate > now then candidate else candidate + DAY
  }

  lemma MinuteAt(t: int, day: int, m: nat)
    requires m < 1440 && day * DAY + m * MINUTE <= t < day * DAY + (m + 1) * MINUTE
    ensures MinuteOfDay(t) == m
  {
    hide MinuteOfDay;
    DayRest(t, day);
    MinuteOfRest(t, m);
  }

  lemma DayRest(t: int, day: int)
    requires day * DAY <= t < (day + 1) * DAY
    ensures t % DAY == t - day * DAY
  {
    assert t / DAY == day;
  }

  lemma MinuteOfRest(t: int, m: nat)
    requires m * MINUTE <= t % DAY < (m + 1) * MINUTE
    ensures MinuteOfDay(t) == m
  {
    var r := t % DAY;
    assert r / MINUTE == m;
  }

  lemma TodayIs(t: int) returns (day: int, m: nat)
    ensures m == MinuteOfDay(t) < 1440
    ensures day * DAY == t - t % DAY
    ensures day * DAY + m * MINUTE <= t < day * DAY + (m + 1) * MINUTE
  {
    day := t / DAY;
    m := MinuteOfDay(t);
  }

  /**
   nextTimeWindowStart returns the earliest instant, now or later, inside the
   window, midnight wrap included; waiting for it takes less than a day.
   */
  lemma EarliestInside(now: int, start: nat, end: nat)
    requires start < 1440 && end < 1440 && start != end
    ensures NextStart(now, start, end) >= now && Inside(NextStart(now, start, end), start, end)
    ensures forall t | now <= t < NextStart(now, start, end) :: !Inside(t, start, end)
    ensures !Inside(now, start, end) ==> 0 < NextStart(now, start, end) - now < DAY
  {
    if !Inside(now, start, end) {
      hide MinuteOfDay;
      var day, m := TodayIs(now);
      var r := NextStart(now, start, end);
      var d := if start <= m then day + 1 else day;
      assert r == d * DAY + start * MINUTE;
      MinuteAt(r, d, start);
      forall t | now <= t < r ensures !Inside(t, start, end) {
        OutsideUntil(now, day, m, d, start, end, t);
      }
    }
  }

  /** From an outside reading to the next start there is only outside. */
  lemma OutsideUntil(now: int, day: int, m: nat, d: int, start: nat, end: nat, t: int)
    requires start < 1440 && end < 1440 && start != end && m < 1440
    requires MinuteOfDay(now) == m && !Inside(now, start, end)
    requires day * DAY + m * MINUTE <= now < day * DAY + (m + 1) * MINUTE
    requires d == if start <= m then day + 1 else day
    requires now <= t < d * DAY + start * MINUTE
    ensures !Inside(t, start, end)
  {
    hide MinuteOfDay;
    var day', m' := TodayIs(t);
    assert day <= day' <= d;
    assert day' == day ==> m <= m';
    assert day' == d ==> m' < start;
  }

  // ----- The daemon loops -----

  /** One turn of the environment: what the clock, the context and the random source give. */
  datatype Tick = Tick(cancelled: bool, now: int, cycleCancelled: bool, draw: nat, waitCancelled: bool)

  datatype Action = Cycle(at: int) | WaitForWindow(at: int, d: int) | WaitBetween(d: int)

  datatype Exit = Running | Cancelled | BadWindow

  /** The readings acted on, each with whether it started a cycle. */
  function Turns(trace: seq<Action>): seq<(int, bool)>
  {
    if trace == [] then [] else Turns(trace[..|trace| - 1]) + Turn(trace[|trace| - 1])
  }

  function Turn(a: Action): seq<(int, bool)>
  {
    match a
    case Cycle(at) => [(at, true)]
    case WaitForWindow(at, _) => [(at, false)]
    case WaitBetween(_) => []
  }

  lemma TurnsSnoc(trace: seq<Action>, a: Action)
    ensures Turns(trace + [a]) == Turns(trace) + Turn(a)
  {
    assert (trace + [a])[..|trace|] == trace;
  }

  /** Whether a turn ends the daemon; due says whether it runs a cycle. */
  predicate Stops(t: Tick, due: bool) { t.cancelled || (due && t.cycleCancelled) || t.waitCancelled }

  /** Every reading up to the turn that ends the daemon, with whether it calls for a cycle. */
  function Readings(env: seq<Tick>, due: Tick -> bool): seq<(int, bool)>
  {
    if env == [] || env[0].cancelled then []
    else [(env[0].now, due(env[0]))] + if Stops(env[0], due(env[0])) then [] else Readings(env[1..], due)
  }

  lemma ReadNext(env: seq<Tick>, i: nat, due: Tick -> bool, done: seq<(int, bool)>)
    requires i < |env| && done + Readings(env[i..], due) == Readings(env, due)
    ensures env[i].cancelled ==> done == Readings(env, due)
    ensures var more := done + [(env[i].now, due(env[i]))];
      !env[i].cancelled ==>
        if Stops(env[i], due(env[i])) then more == Readings(env, due)
        else more + Readings(env[i + 1..], due) == Readings(env, due)
  {
    hide Readings;
    var rest := env[i..];
    ReadFirst(rest, due);
    assert rest[0] == env[i] && rest[1..] == env[i + 1..];
    Regroup(done, [(env[i].now, due(env[i]))], Readings(env[i + 1..], due));
  }

  lemma ReadFirst(env: seq<Tick>, due: Tick -> bool)
    requires env != []
    ensures Readings(env, due) == if env[0].cancelled then [] else
      [(env[0].now, due(env[0]))] + if Stops(env[0], due(env[0])) then [] else Readings(env[1..], due)
  {
  }

  lemma Regroup<T>(a: seq<T>, b: seq<T>, c: seq<T>)
    ensures a + (b + c) == a + b + c && a + [] == a && a + b + [] == a + b
  {
  }

  /** What comes at i does not follow a cycle immediately. */
  predicate Paused(trace: seq<Action>, i: nat)
    requires i <= |trace|
  {
    i == 0 || !trace[i - 1].Cycle?
  }

  /** What action i of a daemon in a window may be. */
  ghost predicate ProperAt(trace: seq<Action>, i: nat, start: nat, end: nat, delay: DurationRange)
    requires i < |trace|
  {
    match trace[i]
    case Cycle(at) => Inside(at, start, end) && Paused(trace, i)
    case WaitForWindow(at, d) =>
      && Paused(trace, i) && 0 < d < DAY && Inside(at + d, start, end)
      && forall t | at <= t < at + d :: !Inside(t, start, end)
    case WaitBetween(d) => delay.min <= d <= delay.max && i > 0 && trace[i - 1].Cycle?
  }

  /** Run only inside the window, wait exactly for it, pause within the range. */
  ghost predicate Proper(trace: seq<Action>, start: nat, end: nat, delay: DurationRange)
  {
    forall i | 0 <= i < |trace| :: ProperAt(trace, i, start, end, delay)
  }

  lemma ProperAppend(trace: seq<Action>, a: Action, start: nat, end: nat, delay: DurationRange)
    requires Proper(trace, start, end, delay)
    requires ProperAt(trace + [a], |trace|, start, end, delay)
    ensures Proper(trace + [a], start, end, delay)
  {
    hide Inside;
    var longer := trace + [a];
    forall i | 0 <= i < |longer| ensures ProperAt(longer, i, start, end, delay) {
      assert i < |trace| ==> ProperAt(trace, i, start, end, delay);
    }
  }

  /**
   runTimeWindowDaemon over any finite run of the environment. `Running` means the
   environment's script ended before the loop did.
   */
  method RunTimeWindowDaemon(w: Window, env: seq<Tick>) returns (trace: seq<Action>, exit: Exit)
    requires ValidateTimeWindow(w) == None
    ensures Proper(trace, ParseClock(w.start).value, ParseClock(w.end).value, w.delay)
    ensures exit == Running ==> Paused(trace, |trace|)
    ensures exit != BadWindow
    ensures var due := (t: Tick) => Inside(t.now, ParseClock(w.start).value, ParseClock(w.end).value);
      && Turns(trace) == Readings(env, due)
      && (exit == Running <==> forall i | 0 <= i < |env| :: !Stops(env[i], due(env[i])))
  {
    hide Inside, NextStart, Proper, ValidateTimeWindow, Turns, Readings, ParseClock;
    ValidWindow(w);
    ghost var due := (t: Tick) => Inside(t.now, ParseClock(w.start).value, ParseClock(w.end).value);
    trace := [];
    NothingRun(env, due);
    ProperNothing(ParseClock(w.start).value, ParseClock(w.end).value, w.delay);
    for i := 0 to |env|
      invariant Proper(trace, ParseClock(w.start).value, ParseClock(w.end).value, w.delay) && Paused(trace, |trace|)
      invariant Turns(trace) + Readings(env[i..], due) == Readings(env, due)
      invariant forall k | 0 <= k < i :: !Stops(env[k], due(env[k]))
    {
      var tick := env[i];
      ReadNext(env, i, due, Turns(trace));
      if tick.cancelled {
        return trace, Cancelled;
      }
      var start, end := ParseClock(w.start), ParseClock(w.end);
      if start == None || end == None {
        return trace, BadWindow;
      }
      if !Inside(tick.now, start.value, end.value) {
        var next := NextStart(tick.now, start.value, end.value);
        EarliestInside(tick.now, start.value, end.value);
        ProperAppend(trace, WaitForWindow(tick.now, next - tick.now), start.value, end.value, w.delay);
        TurnsSnoc(trace, WaitForWindow(tick.now, next - tick.now));
        trace := trace + [WaitForWindow(tick.now, next - tick.now)];
        if tick.waitCancelled {
          return trace, Cancelled;
        }
        continue;
      }
      ProperAppend(trace, Cycle(tick.now), start.value, end.value, w.delay);
      TurnsSnoc(trace, Cycle(tick.now));
      trace := trace + [Cycle(tick.now)];
      if tick.cycleCancelled {
        return trace, Cancelled;
      }
      WindowDelay(w, tick.draw);
      var delay := Random(w.delay, tick.draw).value;
      ProperAppend(trace, WaitBetween(delay), start.value, end.value, w.delay);
      TurnsSnoc(trace, WaitBetween(delay));
      trace := trace + [WaitBetween(delay)];
      if tick.waitCancelled {
        return trace, Cancelled;
      }
    }
    exit := Running;
    NothingRun([], due);
  }

  lemma NothingRun(env: seq<Tick>, due: Tick -> bool)
    ensures Turns([]) == [] && Readings([], due) == []
    ensures env[0..] == env && env[|env|..] == [] && [] + Readings(env, due) == Readings(env, due)
  {
  }

  lemma ProperNothing(start: nat, end: nat, delay: DurationRange)
    ensures Proper([], start, end, delay)
  {
  }

  lemma WindowDelay(w: Window, draw: nat)
    requires ValidateTimeWindow(w) == None
    ensures Random(w.delay, draw).Some? && w.delay.min <= Random(w.delay, draw).value <= w.delay.max
  {
    ValidRangeDelays(w.delay, MINUTE, draw);
  }

  ghost predicate PollingAt(a: Action, pause: bool, polling: DurationRange)
  {
    if pause then a.WaitBetween? && polling.min <= a.d <= polling.max && a.d >= MINUTE else a.Cycle?
  }

  /** Cycles and pauses alternate, every pause at least a minute and within the range. */
  ghost predicate Alternates(trace: seq<Action>, polling: DurationRange)
  {
    forall i | 0 <= i < |trace| :: PollingAt(trace[i], i % 2 == 1, polling)
  }

  lemma AlternatesAppend(trace: seq<Action>, a: Action, polling: DurationRange)
    requires Alternates(trace, polling) && PollingAt(a, |trace| % 2 == 1, polling)
    ensures Alternates(trace + [a], polling)
  {
    hide PollingAt;
  }

  /** runPollingDaemon over any finite run of the environment. */
  method RunPollingDaemon(polling: DurationRange, env: seq<Tick>) returns (trace: seq<Action>, exit: Exit)
    requires ValidateDurationRange(polling, MINUTE) == Accepted
    ensures Alternates(trace, polling)
    ensures exit == Running ==> |trace| == 2 * |env|
    ensures Turns(trace) == Readings(env, t => true)
    ensures exit == Running <==> forall i | 0 <= i < |env| :: !Stops(env[i], true)
  {
    hide Alternates, Random, ValidateDurationRange, Turns, Readings;
    trace := [];
    ghost var due := (t: Tick) => true;
    NothingRun(env, due);
    assert Alternates([], polling) by {
      AlternatesNothing(polling);
    }
    for i := 0 to |env|
      invariant |trace| == 2 * i
      invariant Alternates(trace, polling)
      invariant Turns(trace) + Readings(env[i..], due) == Readings(env, due)
      invariant forall k | 0 <= k < i :: !Stops(env[k], true)
    {
      var tick := env[i];
      ReadNext(env, i, due, Turns(trace));
      if tick.cancelled {
        return trace, Cancelled;
      }
      AlternatesAppend(trace, Cycle(tick.now), polling);
      TurnsSnoc(trace, Cycle(tick.now));
      trace := trace + [Cycle(tick.now)];
      if tick.cycleCancelled {
        return trace, Cancelled;
      }
      ValidRangeDelays(polling, MINUTE, tick.draw);
      var pause := WaitBetween(Random(polling, tick.draw).value);
      AlternatesAppend(trace, pause, polling);
      TurnsSnoc(trace, pause);
      trace := trace + [pause];
      if tick.waitCancelled {
        return trace, Cancelled;
      }
    }
    exit := Running;
    NothingRun([], due);
  }

  lemma AlternatesNothing(polling: DurationRange)
    ensures Alternates([], polling)
  {
  }

  // ----- What a window is, in instants and clock texts -----

  /** On every day the window runs from its start up to, not including,
    its end; or from start to midnight and on to end. */
  lemma InsideInstants(t: int, day: int, start: nat, end: nat)
    requires start < 1440 && end < 1440 && day * 86_400_000_000_000 <= t < (day + 1) * 86_400_000_000_000
    ensures var midnight, minute := day * 86_400_000_000_000, 60_000_000_000;
      var from, to := midnight + start * minute, midnight + end * minute;
      Inside(t, start, end) <==> if start < end then from <= t < to else t >= from || t < to
  {
    var d, m := TodayIs(t);
    assert d == day by {
      DayRest(t, day);
    }
    MinutesOrdered(t, day, m, start);
    MinutesOrdered(t, day, m, end);
  }

  lemma MinutesOrdered(t: int, day: int, m: nat, n: nat)
    requires day * DAY + m * MINUTE <= t < day * DAY + (m + 1) * MINUTE
    ensures m >= n <==> t >= day * DAY + n * MINUTE
  {
    if m >= n {
      assert m * MINUTE >= n * MINUTE;
    } else {
      assert (m + 1) * MINUTE <= n * MINUTE;
    }
  }

  /** "HH:MM" is minute HH * 60 + MM, and nothing of that length but such texts is a clock. */
  lemma ClockText(h: nat, m: nat)
    requires h < 24 && m < 60
    ensures ParseClock([48 + h / 10, 48 + h % 10, 58, 48 + m / 10, 48 + m % 10]) == Some(h * 60 + m)
  {
  }

  lemma OnlyClockTexts(v: Str)
    requires |v| == 5 && ParseClock(v).Some?
    ensures var h, m := ParseClock(v).value / 60, ParseClock(v).value % 60;
      h < 24 && v == [48 + h / 10, 48 + h % 10, 58, 48 + m / 10, 48 + m % 10]
  {
    var h, m := TwoDigits(v[0], v[1]), TwoDigits(v[3], v[4]);
    assert ParseClock(v).value / 60 == h && ParseClock(v).value % 60 == m;
    assert h / 10 == v[0] as int - 48 && m / 10 == v[3] as int - 48;
  }

  /** The validator's clocks are exactly the texts "HH:MM"; time.Parse alone takes "H:MM" as well. */
  lemma ValidClocks(v: Str)
    ensures ValidClock(v) <==>
      exists h: nat, m: nat | h < 24 && m < 60 ::
        v == [48 + h / 10, 48 + h % 10, 58, 48 + m / 10, 48 + m % 10]
  {
    if ValidClock(v) {
      OnlyClockTexts(v);
    }
    forall h: nat, m: nat | h < 24 && m < 60 && v == [48 + h / 10, 48 + h % 10, 58, 48 + m / 10, 48 + m % 10]
      ensures ValidClock(v)
    {
      ClockText(h, m);
    }
  }

  lemma ShortClockText(h: nat, m: nat)
    requires h < 10 && m < 60
    ensures ParseClock([48 + h, 58, 48 + m / 10, 48 + m % 10]) == Some(h * 60 + m)
  {
  }

  lemma OnlyShortClockTexts(v: Str)
    requires |v| != 5 && ParseClock(v).Some?
    ensures var h, m := ParseClock(v).value / 60, ParseClock(v).value % 60;
      h < 10 && v == [48 + h, 58, 48 + m / 10, 48 + m % 10]
  {
    var h, m := v[0] as int - 48, TwoDigits(v[2], v[3]);
    assert ParseClock(v).value / 60 == h && ParseClock(v).value % 60 == m;
    assert m / 10 == v[2] as int - 48;
  }
}
