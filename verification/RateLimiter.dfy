/**
 The adaptive rate limiter: a request window per model, a pause after a rate-limit error and
 a ramp-up after the pause. Each time the lock is held is one event of a run; the clock is
 an argument of the event, and capacity levels are real numbers.
 */
module RateLimiter {

  const MINUTE := 60_000_000_000  // nanoseconds

  const DEFAULT_RPM := 100_000

  datatype Limiter = Limiter(
    rpmLimit: int, requestCount: int, windowStart: int,
    backoffUntil: int, inBackoff: bool, rampUpStart: int, rampUpLevel: real)

  datatype Decision =
    | Admitted
    | AdmittedUnlocked    // admitted although the limit is reached, after releasing the lock
    | Sleep(duration: int)

  function NewLimiter(rpm: int, now: int): Limiter {
    Limiter(rpm, 0, now, 0, false, 0, 1.0)
  }

  /** What a window admits at a capacity level. */
  function EffectiveLimit(rpm: int, level: real): (n: int)
    ensures n >= 1
    ensures n as real <= rpm as real * level || n == 1
    ensures rpm >= 1 && level <= 1.0 ==> n <= rpm
  {
    var n := (rpm as real * level).Floor;
    assert rpm >= 1 && level <= 1.0 ==> rpm as real * level <= rpm as real;
    if n < 1 then 1 else n
  }

  /** The whole number just below the share, but at least one. */
  lemma EffectiveLimitIsFloor(rpm: int, level: real)
    ensures rpm as real * level < EffectiveLimit(rpm, level) as real + 1.0
    ensures rpm as real * level >= 1.0 ==> EffectiveLimit(rpm, level) as real <= rpm as real * level
  {
  }

  /** The limiter once its pause is over. */
  function Resumed(l: Limiter, now: int): Limiter {
    if l.inBackoff then l.(inBackoff := false, rampUpStart := now, rampUpLevel := 0.1) else l
  }

  /** The limiter in the window that `now` belongs to. */
  function InWindow(l: Limiter, now: int): Limiter {
    if now - l.windowStart < MINUTE then l
    else
      var level := if l.rampUpLevel >= 1.0 then l.rampUpLevel
                   else if l.rampUpLevel + 0.2 > 1.0 then 1.0 else l.rampUpLevel + 0.2;
      l.(requestCount := 0, windowStart := now, rampUpLevel := level)
  }

  /** One look at the limiter by a waiting request. */
  function Look(l: Limiter, now: int): (Limiter, Decision) {
    if l.inBackoff && now < l.backoffUntil then (l, Sleep(l.backoffUntil - now)) else
      var m := InWindow(Resumed(l, now), now);
      var waitTime := m.windowStart + MINUTE - now;
      if m.requestCount >= EffectiveLimit(m.rpmLimit, m.rampUpLevel) && waitTime > 0 then (m, Sleep(waitTime))
      else (m.(requestCount := m.requestCount + 1),
            if m.requestCount >= EffectiveLimit(m.rpmLimit, m.rampUpLevel) then AdmittedUnlocked else Admitted)
  }

  /** A rate-limit error arrives; during a pause it changes nothing. */
  function RateLimited(l: Limiter, now: int): Limiter {
    if l.inBackoff then l else l.(inBackoff := true, backoffUntil := now + MINUTE, rampUpLevel := 0.1)
  }

  datatype Event = LookAt(now: int) | RateLimitAt(now: int)

  /** An admitted request, and the start of the window it was counted in. */
  datatype Admission = Admission(at: int, window: int)

  datatype History = History(limiter: Limiter, admissions: seq<Admission>)

  function Next(h: History, e: Event): History {
    match e
    case RateLimitAt(now) => h.(limiter := RateLimited(h.limiter, now))
    case LookAt(now) =>
      var (m, d) := Look(h.limiter, now);
      History(m, h.admissions + if d.Sleep? then [] else [Admission(now, m.windowStart)])
  }

  function Run(l: Limiter, events: seq<Event>): History {
    if events == [] then History(l, []) else Next(Run(l, events[..|events| - 1]), events[|events| - 1])
  }

  /** What others do to the limiter, and then one look of a waiting request. */
  datatype Turn = Turn(others: seq<Event>, now: int)

  function EventsOf(turns: seq<Turn>): seq<Event> {
    if turns == [] then [] else
      var last := turns[|turns| - 1];
      EventsOf(turns[..|turns| - 1]) + last.others + [LookAt(last.now)]
  }

  /** What the request gets at its look `i`. */
  function DecisionAt(l: Limiter, turns: seq<Turn>, i: nat): Decision
    requires i < |turns|
  {
    Look(Run(l, EventsOf(turns[..i]) + turns[i].others).limiter, turns[i].now).1
  }

  /** A pause that is under way ends after the window it began in. */
  predicate PauseOutlastsWindow(l: Limiter) {
    l.inBackoff ==> l.backoffUntil >= l.windowStart + MINUTE
  }

  /** A request with the limiter to itself sleeps at most once, for at most as long as needed. */
  lemma TwoLooks(l: Limiter, first: int, second: int)
    requires PauseOutlastsWindow(l)
    requires Look(l, first).1.Sleep? ==> second >= first + Look(l, first).1.duration
    ensures Look(l, first).1.Sleep? ==> Look(l, first).1.duration > 0 && Look(Look(l, first).0, second).1 == Admitted
  {
  }

  /** The first `n` looks all end in a sleep. */
  ghost predicate SleepsThrough(l: Limiter, turns: seq<Turn>, n: nat)
    requires n <= |turns|
  {
    forall i :: 0 <= i < n ==> DecisionAt(l, turns, i).Sleep?
  }

  /** Look `n` is the first that admits the request. */
  ghost predicate EndsWith(l: Limiter, turns: seq<Turn>, n: nat)
    requires n <= |turns|
  {
    n > 0 && SleepsThrough(l, turns, n - 1) && !DecisionAt(l, turns, n - 1).Sleep?
  }

  /** No one else touches the limiter, and the second look comes after the sleep is over. */
  ghost predicate Alone(l: Limiter, turns: seq<Turn>) {
    && PauseOutlastsWindow(l) && |turns| >= 2 && turns[0].others == turns[1].others == []
    && var d := Look(l, turns[0].now).1; (d.Sleep? ==> turns[1].now >= turns[0].now + d.duration)
  }

  /** How a request that has waited ends: admitted by its last look, or asleep after every turn. */
  ghost predicate Waited(l: Limiter, turns: seq<Turn>, used: nat, admitted: bool, after: Limiter) {
    && used <= |turns| && after == Run(l, EventsOf(turns[..used])).limiter
    && (if admitted then EndsWith(l, turns, used) else used == |turns| && SleepsThrough(l, turns, used))
    && (Alone(l, turns) ==> admitted && used <= 2)
  }

  lemma AdmittedEnds(l: Limiter, turns: seq<Turn>, used: nat, after: Limiter)
    requires 0 < used <= |turns| && after == Run(l, EventsOf(turns[..used])).limiter
    requires SleepsThrough(l, turns, used - 1) && !DecisionAt(l, turns, used - 1).Sleep?
    ensures Waited(l, turns, used, true, after)
  {
    AloneEnds(l, turns);
  }

  lemma AsleepEnds(l: Limiter, turns: seq<Turn>, after: Limiter)
    requires after == Run(l, EventsOf(turns[..|turns|])).limiter && SleepsThrough(l, turns, |turns|)
    ensures Waited(l, turns, |turns|, false, after)
  {
    AloneEnds(l, turns);
  }

  lemma AloneEnds(l: Limiter, turns: seq<Turn>)
    ensures Alone(l, turns) && DecisionAt(l, turns, 0).Sleep? ==> !DecisionAt(l, turns, 1).Sleep?
  {
    if Alone(l, turns) { SecondLookAdmits(l, turns); }
  }

  lemma SecondLookAdmits(l: Limiter, turns: seq<Turn>)
    requires Alone(l, turns)
    ensures DecisionAt(l, turns, 0).Sleep? ==> !DecisionAt(l, turns, 1).Sleep?
  {
    assert turns[..0] == [] && turns[..1] == [turns[0]] && [turns[0]][..0] == [];
    assert EventsOf(turns[..0]) + [] == [] && EventsOf(turns[..1]) == [LookAt(turns[0].now)];
    assert EventsOf(turns[..1]) + [] == [LookAt(turns[0].now)];
    RunOneMore(l, [], LookAt(turns[0].now));
    assert [] + [LookAt(turns[0].now)] == [LookAt(turns[0].now)];
    TwoLooks(l, turns[0].now, turns[1].now);
  }

  /** The limit is never passed over after the lock is released: a reached limit always means a sleep. */
  lemma FallThroughUnreachable(l: Limiter, now: int)
    ensures !Look(l, now).1.AdmittedUnlocked?
  {
  }

  // ---------- The objects ----------

  class ModelLimiter {
    const rpmLimit: int
    var requestCount: int
    var windowStart: int
    var backoffUntil: int
    var inBackoff: bool
    var rampUpStart: int
    var rampUpLevel: real

    function Value(): Limiter
      reads this
    {
      Limiter(rpmLimit, requestCount, windowStart, backoffUntil, inBackoff, rampUpStart, rampUpLevel)
    }

    constructor (rpm: int, now: int)
      ensures Value() == NewLimiter(rpm, now)
    {
      rpmLimit, requestCount, windowStart, rampUpLevel := rpm, 0, now, 1.0;
      backoffUntil, inBackoff, rampUpStart := 0, false, 0;
    }

    /** The body of the waiting loop. */
    method TryAdmit(now: int) returns (d: Decision)
      modifies this
      ensures (Value(), d) == Look(old(Value()), now)
    {
      if inBackoff {
        if now < backoffUntil {
          return Sleep(backoffUntil - now);
        }
        inBackoff := false;
        rampUpStart := now;
        rampUpLevel := 0.1;
      }
      if now - windowStart >= MINUTE {
        requestCount := 0;
        windowStart := now;
        if rampUpLevel < 1.0 {
          rampUpLevel := rampUpLevel + 0.2;
          if rampUpLevel > 1.0 {
            rampUpLevel := 1.0;
          }
        }
      }
      var effectiveLimit := (rpmLimit as real * rampUpLevel).Floor;
      if effectiveLimit < 1 {
        effectiveLimit := 1;
      }
      d := Admitted;
      if requestCount >= effectiveLimit {
        var waitTime := windowStart + MINUTE - now;
        if waitTime > 0 {
          return Sleep(waitTime);
        }
        d := AdmittedUnlocked;
      }
      requestCount := requestCount + 1;
    }

    /** What others do while a request sleeps. */
    method Meanwhile(events: seq<Event>)
      modifies this
      ensures Value() == Run(old(Value()), events).limiter
    {
      ghost var l := Value();
      for n := 0 to |events|
        invariant Value() == Run(l, events[..n]).limiter
      {
        assert events[..n + 1][..n] == events[..n];
        match events[n] {
          case LookAt(now) => var _ := TryAdmit(now);
          case RateLimitAt(now) => Throttle(now);
        }
      }
      assert events[..|events|] == events;
    }

    /**
     The waiting loop, for as many turns as are given: it looks again after each sleep, and ends
     with the first look that admits it. Alone, it never looks a third time.
     */
    method WaitAdmitted(turns: seq<Turn>) returns (used: nat, admitted: bool)
      modifies this
      ensures Waited(old(Value()), turns, used, admitted, Value())
    {
      ghost var l := Value();
      used, admitted := 0, false;
      while used < |turns|
        invariant used <= |turns| && Value() == Run(l, EventsOf(turns[..used])).limiter
        invariant SleepsThrough(l, turns, used)
      {
        var d := TakeTurn(l, turns, used);
        used := used + 1;
        if !d.Sleep? {
          AdmittedEnds(l, turns, used, Value());
          return used, true;
        }
      }
      AsleepEnds(l, turns, Value());
    }

    method TakeTurn(ghost l: Limiter, turns: seq<Turn>, n: nat) returns (d: Decision)
      requires n < |turns| && Value() == Run(l, EventsOf(turns[..n])).limiter
      modifies this
      ensures Value() == Run(l, EventsOf(turns[..n + 1])).limiter && d == DecisionAt(l, turns, n)
    {
      ghost var before := EventsOf(turns[..n]);
      Meanwhile(turns[n].others);
      RunConcat(l, before, turns[n].others);
      d := TryAdmit(turns[n].now);
      RunOneMore(l, before + turns[n].others, LookAt(turns[n].now));
      assert turns[..n + 1][..n] == turns[..n];
    }

    method Throttle(now: int)
      modifies this
      ensures Value() == RateLimited(old(Value()), now)
    {
      if !inBackoff {
        inBackoff := true;
        backoffUntil := now + MINUTE;
        rampUpLevel := 0.1;
      }
    }
  }

  /** Changing an entry twice is changing it once. */
  lemma Twice(states: map<string, Limiter>, model: string, l: Limiter, m: Limiter)
    ensures states[model := l][model := m] == states[model := m]
  {
  }

  class AdaptiveRateLimiter {
    var limiters: map<string, ModelLimiter>
    const defaultRPM: int

    /** No two models share a limiter. */
    ghost predicate Valid()
      reads this
    {
      defaultRPM >= 1 && forall m, n :: m in limiters && n in limiters && limiters[m] == limiters[n] ==> m == n
    }

    ghost function States(): map<string, Limiter>
      reads this, limiters.Values
    {
      map m | m in limiters :: limiters[m].Value()
    }

    /** The limiter a request for `model` gets to see. */
    ghost function StateFor(model: string, now: int): Limiter
      reads this, limiters.Values
    {
      if model in limiters then limiters[model].Value() else NewLimiter(defaultRPM, now)
    }

    constructor (rpm: int)
      ensures Valid() && States() == map[]
      ensures defaultRPM == if rpm <= 0 then DEFAULT_RPM else rpm
    {
      limiters := map[];
      defaultRPM := if rpm <= 0 then DEFAULT_RPM else rpm;
    }

    /** The limiter of a model, made on first use. */
    method Enter(model: string, now: int) returns (limiter: ModelLimiter)
      requires Valid()
      modifies this
      ensures Valid() && model in limiters && limiters[model] == limiter
      ensures limiters.Values <= old(limiters.Values) + {limiter} && (limiter in old(limiters.Values) || fresh(limiter))
      ensures limiter.Value() == old(StateFor(model, now))
      ensures States() == old(States())[model := old(StateFor(model, now))]
    {
      if model in limiters {
        return limiters[model];
      }
      limiter := new ModelLimiter(defaultRPM, now);
      limiters := limiters[model := limiter];
    }

    /**
     A request that waits: others look at the model's limiter and report errors to it while the
     request sleeps. It ends with the first look that admits it; alone, with the second at the latest.
     */
    method Wait(model: string, entered: int, turns: seq<Turn>) returns (used: nat, admitted: bool)
      requires Valid()
      modifies this, limiters.Values
      ensures Valid() && model in limiters
      ensures Waited(old(StateFor(model, entered)), turns, used, admitted, limiters[model].Value())
      ensures States() == old(States())[model := limiters[model].Value()]
    {
      var limiter := Enter(model, entered);
      used, admitted := WaitAt(model, turns);
      Twice(old(States()), model, old(StateFor(model, entered)), limiter.Value());
    }

    method WaitAt(model: string, turns: seq<Turn>) returns (used: nat, admitted: bool)
      requires Valid() && model in limiters
      modifies limiters[model]
      ensures Waited(old(limiters[model].Value()), turns, used, admitted, limiters[model].Value())
      ensures States() == old(States())[model := limiters[model].Value()]
    {
      used, admitted := limiters[model].WaitAdmitted(turns);
      forall m | m in limiters && m != model ensures limiters[m].Value() == old(limiters[m].Value()) {
        assert limiters[m] != limiters[model];
      }
    }

    method ReportResult(model: string, isRateLimit: bool, now: int)
      requires Valid()
      modifies limiters.Values
      ensures Valid()
      ensures States() ==
              if isRateLimit && model in limiters then old(States())[model := RateLimited(old(States())[model], now)]
              else old(States())
    {
      if !isRateLimit || model !in limiters {
        return;
      }
      limiters[model].Throttle(now);
    }
  }

  // ---------- Runs ----------

  /** The clock never runs backwards. */
  predicate Chronological(start: int, events: seq<Event>) {
    && (forall i :: 0 <= i < |events| ==> start <= events[i].now)
    && forall i, j :: 0 <= i < j < |events| ==> events[i].now <= events[j].now
  }

  function EndTime(start: int, events: seq<Event>): int {
    if events == [] then start else events[|events| - 1].now
  }

  /** How many admissions a window counted. */
  function CountedIn(admissions: seq<Admission>, window: int): (n: nat)
    ensures n <= |admissions|
  {
    if admissions == [] then 0 else
      CountedIn(admissions[..|admissions| - 1], window) + if admissions[|admissions| - 1].window == window then 1 else 0
  }

  /** How many admissions fall into the minute that starts at `from`. */
  function AdmittedWithin(admissions: seq<Admission>, from: int): nat {
    if admissions == [] then 0 else
      AdmittedWithin(admissions[..|admissions| - 1], from) +
      if from <= admissions[|admissions| - 1].at < from + MINUTE then 1 else 0
  }

  // ---------- What every run keeps ----------

  ghost predicate LimiterInv(l: Limiter, rpm: int, now: int) {
    && l.rpmLimit == rpm >= 1 && l.windowStart <= now
    && 0.1 <= l.rampUpLevel <= 1.0 && 0 <= l.requestCount <= rpm
    && PauseOutlastsWindow(l) && (l.inBackoff ==> l.rampUpLevel == 0.1)
    && (!l.inBackoff ==> l.requestCount <= EffectiveLimit(rpm, l.rampUpLevel))
  }

  /** The admissions fit their windows, and windows are a minute or more apart. */
  ghost predicate WindowsInv(admissions: seq<Admission>, current: int, now: int) {
    && (forall a :: a in admissions ==> a.window <= a.at < a.window + MINUTE && a.at <= now)
    && (forall a :: a in admissions ==> a.window == current || a.window + MINUTE <= current)
    && forall a, b :: a in admissions && b in admissions && a.window < b.window ==> a.window + MINUTE <= b.window
  }

  ghost predicate Inv(h: History, rpm: int, now: int) {
    && LimiterInv(h.limiter, rpm, now)
    && WindowsInv(h.admissions, h.limiter.windowStart, now)
    && CountedIn(h.admissions, h.limiter.windowStart) == h.limiter.requestCount
    && forall w :: CountedIn(h.admissions, w) <= rpm
  }

  /** The limiter stays in its window or opens one at `now`, and counts the request if it is admitted. */
  predicate Moves(l: Limiter, m: Limiter, now: int, admitted: bool) {
    && (m.windowStart == l.windowStart || l.windowStart + MINUTE <= now == m.windowStart)
    && m.requestCount == (if m.windowStart == l.windowStart then l.requestCount else 0) + (if admitted then 1 else 0)
    && (admitted ==> now < m.windowStart + MINUTE)
  }

  lemma LookKeepsLimiter(l: Limiter, rpm: int, before: int, now: int)
    requires LimiterInv(l, rpm, before) && before <= now
    ensures var (m, d) := Look(l, now); LimiterInv(m, rpm, now) && Moves(l, m, now, !d.Sleep?)
  {
  }

  lemma {:induction false} NoneLater(admissions: seq<Admission>, window: int)
    requires forall a :: a in admissions ==> a.window < window
    ensures CountedIn(admissions, window) == 0
  {
    if admissions != [] { NoneLater(admissions[..|admissions| - 1], window); }
  }

  lemma CountedMore(admissions: seq<Admission>, a: Admission, window: int)
    ensures CountedIn(admissions + [a], window) == CountedIn(admissions, window) + if a.window == window then 1 else 0
  {
    assert (admissions + [a])[..|admissions|] == admissions;
  }

  lemma MoveKeepsWindows(s: seq<Admission>, l: Limiter, m: Limiter, rpm: int, before: int, now: int)
    requires Inv(History(l, s), rpm, before) && before <= now
    requires LimiterInv(m, rpm, now) && Moves(l, m, now, false)
    ensures Inv(History(m, s), rpm, now)
  {
    if m.windowStart != l.windowStart { NoneLater(s, m.windowStart); }
  }

  lemma AdmissionKeepsWindows(s: seq<Admission>, l: Limiter, m: Limiter, rpm: int, now: int)
    requires Inv(History(l, s), rpm, now) && LimiterInv(m, rpm, now)
    requires m.windowStart == l.windowStart && m.requestCount == l.requestCount + 1 && now < m.windowStart + MINUTE
    ensures Inv(History(m, s + [Admission(now, m.windowStart)]), rpm, now)
  {
    var a := Admission(now, m.windowStart);
    forall w ensures CountedIn(s + [a], w) <= rpm { CountedMore(s, a, w); }
    CountedMore(s, a, m.windowStart);
  }

  lemma NextKeepsInv(h: History, e: Event, rpm: int, before: int)
    requires Inv(h, rpm, before) && before <= e.now
    ensures Inv(Next(h, e), rpm, e.now)
  {
    match e
    case RateLimitAt(now) => MoveKeepsWindows(h.admissions, h.limiter, RateLimited(h.limiter, now), rpm, before, now);
    case LookAt(now) =>
      LookKeepsLimiter(h.limiter, rpm, before, now);
      var (m, d) := Look(h.limiter, now);
      LookKeepsInv(h, m, !d.Sleep?, rpm, before, now);
      assert h.admissions + [] == h.admissions;
  }

  lemma LookKeepsInv(h: History, m: Limiter, admitted: bool, rpm: int, before: int, now: int)
    requires Inv(h, rpm, before) && before <= now
    requires LimiterInv(m, rpm, now) && Moves(h.limiter, m, now, admitted)
    ensures Inv(History(m, if admitted then h.admissions + [Admission(now, m.windowStart)] else h.admissions), rpm, now)
  {
    if admitted {
      var uncounted := m.(requestCount := m.requestCount - 1);
      MoveKeepsWindows(h.admissions, h.limiter, uncounted, rpm, before, now);
      AdmissionKeepsWindows(h.admissions, uncounted, m, rpm, now);
    } else {
      MoveKeepsWindows(h.admissions, h.limiter, m, rpm, before, now);
    }
  }

  lemma {:induction false} RunKeepsInv(rpm: int, start: int, events: seq<Event>)
    requires rpm >= 1 && Chronological(start, events)
    ensures Inv(Run(NewLimiter(rpm, start), events), rpm, EndTime(start, events))
    decreases |events|
  {
    if events != [] {
      var n := |events| - 1;
      RunKeepsInv(rpm, start, events[..n]);
      NextKeepsInv(Run(NewLimiter(rpm, start), events[..n]), events[n], rpm, EndTime(start, events[..n]));
    }
  }

  /** Admissions of a minute that all belong to two windows are no more than those windows counted. */
  lemma {:induction false} TwoWindowsCover(admissions: seq<Admission>, from: int, v: int, w: int)
    requires forall a :: a in admissions && from <= a.at < from + MINUTE ==> a.window == v || a.window == w
    ensures AdmittedWithin(admissions, from) <= CountedIn(admissions, v) + CountedIn(admissions, w)
  {
    if admissions != [] { TwoWindowsCover(admissions[..|admissions| - 1], from, v, w); }
  }

  lemma {:induction false} NoneWithin(admissions: seq<Admission>, from: int)
    requires forall a :: a in admissions ==> !(from <= a.at < from + MINUTE)
    ensures AdmittedWithin(admissions, from) == 0
  {
    if admissions != [] { NoneWithin(admissions[..|admissions| - 1], from); }
  }

  /**
   Over every run no window admits more than the limit, and no minute, wherever it starts,
   sees more than twice the limit.
   */
  lemma RateHolds(rpm: int, start: int, events: seq<Event>, window: int, from: int)
    requires rpm >= 1 && Chronological(start, events)
    ensures CountedIn(Run(NewLimiter(rpm, start), events).admissions, window) <= rpm
    ensures AdmittedWithin(Run(NewLimiter(rpm, start), events).admissions, from) <= 2 * rpm
  {
    RunKeepsInv(rpm, start, events);
    var h := Run(NewLimiter(rpm, start), events);
    var s := h.admissions;
    if a :| a in s && from <= a.at < from + MINUTE {
      if b :| b in s && from <= b.at < from + MINUTE && b.window != a.window {
        TwoWindowsCover(s, from, a.window, b.window);
        assert CountedIn(s, a.window) <= rpm && CountedIn(s, b.window) <= rpm;
      } else {
        TwoWindowsCover(s, from, a.window, a.window);
        assert CountedIn(s, a.window) <= rpm;
      }
    } else {
      NoneWithin(s, from);
    }
  }

  // ---------- After a rate-limit error ----------

  lemma RunOneMore(l: Limiter, events: seq<Event>, e: Event)
    ensures Run(l, events + [e]) == Next(Run(l, events), e)
  {
    assert (events + [e])[..|events|] == events;
  }

  /** What was admitted earlier does not matter to a step. */
  lemma NextAfter(l: Limiter, earlier: seq<Admission>, s: seq<Admission>, e: Event)
    ensures var n := Next(History(l, s), e);
            Next(History(l, earlier + s), e) == History(n.limiter, earlier + n.admissions)
  {
  }

  lemma {:induction false} RunConcat(l: Limiter, a: seq<Event>, b: seq<Event>)
    ensures var h := Run(l, a); var k := Run(h.limiter, b);
            Run(l, a + b) == History(k.limiter, h.admissions + k.admissions)
    decreases |b|
  {
    if b == [] {
      assert a + b == a && Run(l, a).admissions + [] == Run(l, a).admissions;
    } else {
      var n, h := |b| - 1, Run(l, a);
      RunConcat(l, a, b[..n]);
      var k := Run(h.limiter, b[..n]);
      NextAfter(k.limiter, h.admissions, k.admissions, b[n]);
      RunOneMore(l, a + b[..n], b[n]);
      assert a + b == a + b[..n] + [b[n]];
    }
  }

  /** Nothing has been admitted since the pause began, or it is over and this is the first window after it. */
  ghost predicate PauseInv(paused: Limiter, h: History, now: int) {
    var limit := EffectiveLimit(paused.rpmLimit, 0.3);
    if h.admissions == [] then h.limiter == paused else
      var first := h.admissions[0];
      && first.at == first.window && now >= first.at >= paused.backoffUntil
      && (forall a :: a in h.admissions ==> first.at <= a.at <= now && a.window <= h.limiter.windowStart)
      && first.window <= h.limiter.windowStart <= now
      && CountedIn(h.admissions, first.window) <= limit
      && (h.limiter.windowStart == first.window ==>
            CountedIn(h.admissions, first.window) == h.limiter.requestCount && h.limiter.rpmLimit == paused.rpmLimit &&
            (!h.limiter.inBackoff ==> h.limiter.rampUpLevel == 0.3))
      && PauseOutlastsWindow(h.limiter)
  }

  lemma FirstLookAfterPause(paused: Limiter, now: int)
    requires paused.inBackoff && PauseOutlastsWindow(paused) && paused.rampUpLevel == 0.1
    ensures var (m, d) := Look(paused, now);
            if now < paused.backoffUntil then m == paused && d.Sleep?
            else d == Admitted && m == paused.(inBackoff := false, rampUpStart := now, rampUpLevel := 0.3,
                                               windowStart := now, requestCount := 1)
  {
  }

  lemma LaterLook(l: Limiter, now: int)
    requires PauseOutlastsWindow(l) && l.windowStart <= now
    ensures var (m, d) := Look(l, now);
            && m.windowStart <= now && PauseOutlastsWindow(m) && m.rpmLimit == l.rpmLimit
            && (m.windowStart == l.windowStart || m.windowStart == now > l.windowStart)
            && (m.windowStart == l.windowStart ==>
                  && m.inBackoff == l.inBackoff && m.rampUpLevel == l.rampUpLevel
                  && m.requestCount == l.requestCount + (if d.Sleep? then 0 else 1)
                  && (!d.Sleep? ==> !m.inBackoff && m.requestCount <= EffectiveLimit(m.rpmLimit, m.rampUpLevel)))
  {
  }

  lemma AdmissionKeepsPause(paused: Limiter, h: History, m: Limiter, before: int, now: int)
    requires PauseInv(paused, h, before) && before <= now && h.admissions != []
    requires m.windowStart <= now && PauseOutlastsWindow(m) && m.rpmLimit == h.limiter.rpmLimit
    requires m.windowStart == h.limiter.windowStart || m.windowStart == now > h.limiter.windowStart
    requires m.windowStart == h.limiter.windowStart ==>
               && !m.inBackoff && m.rampUpLevel == h.limiter.rampUpLevel && !h.limiter.inBackoff
               && m.requestCount == h.limiter.requestCount + 1
               && m.requestCount <= EffectiveLimit(m.rpmLimit, m.rampUpLevel)
    ensures PauseInv(paused, History(m, h.admissions + [Admission(now, m.windowStart)]), now)
  {
    var a := Admission(now, m.windowStart);
    CountedMore(h.admissions, a, h.admissions[0].window);
    assert (h.admissions + [a])[0] == h.admissions[0];
  }

  lemma NextKeepsPause(paused: Limiter, h: History, e: Event, before: int)
    requires paused.inBackoff && PauseOutlastsWindow(paused) && paused.rampUpLevel == 0.1
    requires PauseInv(paused, h, before) && before <= e.now
    ensures PauseInv(paused, Next(h, e), e.now)
  {
    match e
    case RateLimitAt(now) => ErrorKeepsPause(paused, h, before, now);
    case LookAt(now) =>
      assert h.admissions + [] == h.admissions;
      if h.admissions == [] { FirstKeepsPause(paused, now); } else { LookKeepsPause(paused, h, before, now); }
  }

  lemma ErrorKeepsPause(paused: Limiter, h: History, before: int, now: int)
    requires paused.inBackoff && PauseInv(paused, h, before) && before <= now
    ensures PauseInv(paused, h.(limiter := RateLimited(h.limiter, now)), now)
  {
  }

  lemma FirstKeepsPause(paused: Limiter, now: int)
    requires paused.inBackoff && PauseOutlastsWindow(paused) && paused.rampUpLevel == 0.1
    ensures PauseInv(paused, Next(History(paused, []), LookAt(now)), now)
  {
    FirstLookAfterPause(paused, now);
    CountedMore([], Admission(now, now), now);
    assert [] + [Admission(now, now)] == [Admission(now, now)];
  }

  lemma LookKeepsPause(paused: Limiter, h: History, before: int, now: int)
    requires PauseInv(paused, h, before) && before <= now && h.admissions != []
    ensures PauseInv(paused, Next(h, LookAt(now)), now)
  {
    var (m, d) := Look(h.limiter, now);
    LaterLook(h.limiter, now);
    if d.Sleep? {
      assert h.admissions + [] == h.admissions;
      SleepKeepsPause(paused, h, m, before, now);
    } else {
      AdmissionKeepsPause(paused, h, m, before, now);
    }
  }

  lemma SleepKeepsPause(paused: Limiter, h: History, m: Limiter, before: int, now: int)
    requires PauseInv(paused, h, before) && before <= now && h.admissions != []
    requires m.windowStart <= now && PauseOutlastsWindow(m) && m.rpmLimit == h.limiter.rpmLimit
    requires m.windowStart == h.limiter.windowStart || m.windowStart == now > h.limiter.windowStart
    requires m.windowStart == h.limiter.windowStart ==>
               m.inBackoff == h.limiter.inBackoff && m.rampUpLevel == h.limiter.rampUpLevel &&
                   m.requestCount == h.limiter.requestCount
    ensures PauseInv(paused, History(m, h.admissions), now)
  {
  }

  lemma {:induction false} RunKeepsPause(paused: Limiter, start: int, events: seq<Event>)
    requires paused.inBackoff && PauseOutlastsWindow(paused) && paused.rampUpLevel == 0.1
    requires Chronological(start, events)
    ensures PauseInv(paused, Run(paused, events), EndTime(start, events))
    decreases |events|
  {
    if events != [] {
      var n := |events| - 1;
      RunKeepsPause(paused, start, events[..n]);
      NextKeepsPause(paused, Run(paused, events[..n]), events[n], EndTime(start, events[..n]));
    }
  }

  /**
   After a rate-limit error at `t`, in every run: what is admitted later is admitted after the
   pause, which lasts a minute unless one was under way; and the first window after it admits
   at most three tenths of the limit, or one request if that is less.
   */
  lemma PauseHolds(rpm: int, start: int, pre: seq<Event>, t: int, post: seq<Event>)
    requires rpm >= 1 && Chronological(start, pre + [RateLimitAt(t)] + post)
    ensures var h := Run(NewLimiter(rpm, start), pre);
            var until := if h.limiter.inBackoff then h.limiter.backoffUntil else t + MINUTE;
            var all := Run(NewLimiter(rpm, start), pre + [RateLimitAt(t)] + post).admissions;
            h.admissions <= all &&
            var later := all[|h.admissions|..];
            && (forall a :: a in later ==> a.at >= until)
            && (later != [] ==> CountedIn(later, later[0].window) <= EffectiveLimit(rpm, 0.3))
  {
    var l, e := NewLimiter(rpm, start), RateLimitAt(t);
    var events := pre + [e] + post;
    assert events[..|pre|] == pre && events[|pre|] == e && events[|pre| + 1..] == post;
    assert Chronological(start, pre) && Chronological(t, post) by { Pieces(start, pre, e, post); }
    RunKeepsInv(rpm, start, pre);
    assert (pre + [e])[..|pre|] == pre;
    var h := Run(l, pre);
    var paused := RateLimited(h.limiter, t);
    assert EndTime(start, pre) <= t by { Pieces(start, pre, e, post); }
    RunKeepsPause(paused, t, post);
    RunConcat(l, pre + [e], post);
    var all := Run(l, events).admissions;
    assert all[|h.admissions|..] == Run(paused, post).admissions;
  }

  lemma Pieces(start: int, pre: seq<Event>, e: Event, post: seq<Event>)
    requires Chronological(start, pre + [e] + post)
    ensures Chronological(start, pre) && EndTime(start, pre) <= e.now && Chronological(e.now, post)
  {
    var all := pre + [e] + post;
    assert forall i :: 0 <= i < |pre| ==> all[i] == pre[i];
    assert all[|pre|] == e;
    assert forall i :: 0 <= i < |post| ==> all[|pre| + 1 + i] == post[i];
    forall i, j | 0 <= i < j < |post| ensures post[i].now <= post[j].now {
      assert all[|pre| + 1 + i].now <= all[|pre| + 1 + j].now;
    }
  }

  /** In every run that goes on after an error at `t`, nothing is admitted for a minute. */
  ghost predicate ErrorPauses(rpm: int, start: int, pre: seq<Event>, t: int) {
    forall post: seq<Event> :: Chronological(start, pre + [RateLimitAt(t)] + post) ==>
      NoneBefore(Run(NewLimiter(rpm, start), pre + [RateLimitAt(t)] + post).admissions,
                 |Run(NewLimiter(rpm, start), pre).admissions|, t + MINUTE)
  }

  /** From position `from` on, nothing is admitted before `until`. */
  ghost predicate NoneBefore(admissions: seq<Admission>, from: nat, until: int) {
    forall i :: from <= i < |admissions| ==> admissions[i].at >= until
  }

  lemma AfterError(rpm: int, start: int, pre: seq<Event>, t: int, post: seq<Event>)
    ensures var h := Run(NewLimiter(rpm, start), pre);
            Run(NewLimiter(rpm, start), pre + [RateLimitAt(t)] + post).admissions ==
            h.admissions + Run(RateLimited(h.limiter, t), post).admissions
  {
    RunOneMore(NewLimiter(rpm, start), pre, RateLimitAt(t));
    RunConcat(NewLimiter(rpm, start), pre + [RateLimitAt(t)], post);
  }

  /** A single look as soon as the pause is over is admitted. */
  lemma AdmittedAfterPause(paused: Limiter, t: int)
    requires paused.inBackoff && PauseOutlastsWindow(paused) && paused.rampUpLevel == 0.1 && t >= paused.backoffUntil
    ensures Run(paused, [LookAt(t)]).admissions == [Admission(t, t)]
  {
    FirstLookAfterPause(paused, t);
    RunOneMore(paused, [], LookAt(t));
    assert [] + [LookAt(t)] == [LookAt(t)];
  }

  /**
   After an error at `t` nothing is admitted for a minute, in every run, if and only if no pause
   is flagged that ends earlier: while one is, even after it is over, the error is forgotten.
   */
  lemma ErrorPausesIff(rpm: int, start: int, pre: seq<Event>, t: int)
    requires rpm >= 1 && Chronological(start, pre) && EndTime(start, pre) <= t
    ensures var l := Run(NewLimiter(rpm, start), pre).limiter;
            ErrorPauses(rpm, start, pre, t) <==> !l.inBackoff || l.backoffUntil >= t + MINUTE
  {
    var h := Run(NewLimiter(rpm, start), pre);
    if !h.limiter.inBackoff || h.limiter.backoffUntil >= t + MINUTE {
      forall post: seq<Event> | Chronological(start, pre + [RateLimitAt(t)] + post)
        ensures NoneBefore(Run(NewLimiter(rpm, start), pre + [RateLimitAt(t)] + post).admissions, |h.admissions|,
                  t + MINUTE)
      {
        ErrorThenPause(rpm, start, pre, t, post);
      }
    } else {
      RunKeepsInv(rpm, start, pre);
      ErrorForgotten(rpm, start, pre, t);
    }
  }

  lemma ErrorForgotten(rpm: int, start: int, pre: seq<Event>, t: int)
    requires Chronological(start, pre) && EndTime(start, pre) <= t
    requires var l := Run(NewLimiter(rpm, start), pre).limiter;
             l.inBackoff && PauseOutlastsWindow(l) && l.rampUpLevel == 0.1 && l.backoffUntil < t + MINUTE
    ensures !ErrorPauses(rpm, start, pre, t)
  {
    var l := Run(NewLimiter(rpm, start), pre).limiter;
    var u := if l.backoffUntil < t then t else l.backoffUntil;
    AddedAtEnd(start, pre, t, u);
    AdmittedEarly(rpm, start, pre, t, u);
  }

  lemma AdmittedEarly(rpm: int, start: int, pre: seq<Event>, t: int, u: int)
    requires var l := Run(NewLimiter(rpm, start), pre).limiter;
             l.inBackoff && PauseOutlastsWindow(l) && l.rampUpLevel == 0.1 && u >= l.backoffUntil
    requires u < t + MINUTE
    ensures !NoneBefore(Run(NewLimiter(rpm, start), pre + [RateLimitAt(t)] + [LookAt(u)]).admissions,
                        |Run(NewLimiter(rpm, start), pre).admissions|, t + MINUTE)
  {
    var h := Run(NewLimiter(rpm, start), pre);
    AdmittedAfterPause(h.limiter, u);
    AfterError(rpm, start, pre, t, [LookAt(u)]);
    var all := Run(NewLimiter(rpm, start), pre + [RateLimitAt(t)] + [LookAt(u)]).admissions;
    assert all[|h.admissions|] == Admission(u, u);
  }

  lemma ErrorThenPause(rpm: int, start: int, pre: seq<Event>, t: int, post: seq<Event>)
    requires rpm >= 1 && Chronological(start, pre + [RateLimitAt(t)] + post)
    requires var l := Run(NewLimiter(rpm, start), pre).limiter; !l.inBackoff || l.backoffUntil >= t + MINUTE
    ensures NoneBefore(Run(NewLimiter(rpm, start), pre + [RateLimitAt(t)] + post).admissions,
                       |Run(NewLimiter(rpm, start), pre).admissions|, t + MINUTE)
  {
    PauseHolds(rpm, start, pre, t, post);
    SliceAtLeast(Run(NewLimiter(rpm, start), pre + [RateLimitAt(t)] + post).admissions,
                 |Run(NewLimiter(rpm, start), pre).admissions|, t + MINUTE);
  }

  lemma SliceAtLeast(all: seq<Admission>, n: nat, until: int)
    requires n <= |all| && forall a :: a in all[n..] ==> a.at >= until
    ensures NoneBefore(all, n, until)
  {
    forall i | n <= i < |all| ensures all[i].at >= until {
      assert all[n..][i - n] == all[i];
    }
  }

  lemma AddedAtEnd(start: int, pre: seq<Event>, t: int, u: int)
    requires Chronological(start, pre) && EndTime(start, pre) <= t <= u
    ensures Chronological(start, pre + [RateLimitAt(t)] + [LookAt(u)])
  {
    var all := pre + [RateLimitAt(t)] + [LookAt(u)];
    forall i | 0 <= i < |all| ensures start <= all[i].now && (i < |pre| ==> all[i].now <= t) {
      if i < |pre| { assert all[i] == pre[i] && pre[i].now <= pre[|pre| - 1].now; }
    }
    forall i, j | 0 <= i < j < |all| ensures all[i].now <= all[j].now {
      if j < |pre| { assert all[i] == pre[i] && all[j] == pre[j]; }
    }
  }

  /**
   An error that arrives when a pause is over but no request has looked since: the next request goes
   through at once.
   */
  lemma LateErrorForgotten(rpm: int)
    requires rpm >= 1
    ensures var events := [RateLimitAt(0), RateLimitAt(MINUTE), LookAt(MINUTE)];
            Chronological(0, events) && Run(NewLimiter(rpm, 0), events).admissions == [Admission(MINUTE, MINUTE)]
  {
    var l := NewLimiter(rpm, 0);
    var a, b, c := RateLimitAt(0), RateLimitAt(MINUTE), LookAt(MINUTE);
    RunOneMore(l, [], a);
    RunOneMore(l, [a], b);
    assert [] + [a] == [a] && [a] + [b] == [a, b];
    var paused := RateLimited(l, 0);
    assert Run(l, [a, b]) == History(paused, []);
    RunConcat(l, [a, b], [c]);
    AdmittedAfterPause(paused, MINUTE);
    assert [a, b] + [c] == [a, b, c];
  }

  // ---------- What the limits let through ----------

  /** `k` requests that look at the same time. */
  function Burst(k: nat, t: int): (events: seq<Event>)
    ensures |events| == k
  {
    if k == 0 then [] else Burst(k - 1, t) + [LookAt(t)]
  }

  function Min(a: int, b: int): int {
    if a < b then a else b
  }

  /** Within a window a burst gets exactly what is left of the window's limit. */
  lemma {:induction false} BurstAdmitsRest(l: Limiter, t: int, k: nat)
    requires !l.inBackoff && t - l.windowStart < MINUTE
    requires l.requestCount <= EffectiveLimit(l.rpmLimit, l.rampUpLevel)
    ensures var got := Min(k, EffectiveLimit(l.rpmLimit, l.rampUpLevel) - l.requestCount);
            var h := Run(l, Burst(k, t));
            |h.admissions| == got && h.limiter == l.(requestCount := l.requestCount + got)
  {
    if k > 0 {
      BurstAdmitsRest(l, t, k - 1);
      OneMoreLook(l, t, k);
    } else {
      assert Run(l, Burst(0, t)) == History(l, []);
    }
  }

  lemma OneMoreLook(l: Limiter, t: int, k: nat)
    requires k > 0
    requires var m := Run(l, Burst(k - 1, t)).limiter; !m.inBackoff && t - m.windowStart < MINUTE
    ensures var h, n := Run(l, Burst(k - 1, t)), Run(l, Burst(k, t));
            var m := h.limiter;
            var got := if m.requestCount >= EffectiveLimit(m.rpmLimit, m.rampUpLevel) then 0 else 1;
            |n.admissions| == |h.admissions| + got && n.limiter == m.(requestCount := m.requestCount + got)
  {
    RunOneMore(l, Burst(k - 1, t), LookAt(t));
    NextInWindow(Run(l, Burst(k - 1, t)), t);
  }

  lemma NextInWindow(h: History, t: int)
    requires !h.limiter.inBackoff && t - h.limiter.windowStart < MINUTE
    ensures var full := h.limiter.requestCount >= EffectiveLimit(h.limiter.rpmLimit, h.limiter.rampUpLevel);
            var got := if full then 0 else 1;
            var n := Next(h, LookAt(t));
            |n.admissions| == |h.admissions| + got &&
            n.limiter == h.limiter.(requestCount := h.limiter.requestCount + got)
  {
    LookInWindow(h.limiter, t);
  }

  lemma LookInWindow(l: Limiter, t: int)
    requires !l.inBackoff && t - l.windowStart < MINUTE
    ensures var full := l.requestCount >= EffectiveLimit(l.rpmLimit, l.rampUpLevel);
            var (m, d) := Look(l, t);
            (d == Admitted <==> !full) && (d.Sleep? <==> full) &&
            m == if full then l else l.(requestCount := l.requestCount + 1)
  {
  }

  /** A new limiter lets exactly its limit through at once. */
  lemma NewLimiterAdmitsItsLimit(rpm: int, t: int, k: nat)
    requires rpm >= 1
    ensures |Run(NewLimiter(rpm, t), Burst(k, t)).admissions| == Min(k, rpm)
  {
    BurstAdmitsRest(NewLimiter(rpm, t), t, k);
  }

  /** The first window after a pause lets exactly three tenths of the limit through, but at least one request. */
  lemma FirstWindowAdmitsItsShare(paused: Limiter, t: int, k: nat)
    requires paused.inBackoff && PauseOutlastsWindow(paused) && paused.rampUpLevel == 0.1 && t >= paused.backoffUntil
    ensures |Run(paused, Burst(k, t)).admissions| == Min(k, EffectiveLimit(paused.rpmLimit, 0.3))
  {
    if k > 0 {
      var m := AfterFirstLook(paused, t, k);
      RestOfWindow(m, t, k);
    }
  }

  lemma AfterFirstLook(paused: Limiter, t: int, k: nat) returns (m: Limiter)
    requires paused.inBackoff && PauseOutlastsWindow(paused) && paused.rampUpLevel == 0.1 &&
             t >= paused.backoffUntil && k > 0
    ensures |Run(paused, Burst(k, t)).admissions| == 1 + |Run(m, Burst(k - 1, t)).admissions|
    ensures !m.inBackoff && m.windowStart == t && m.requestCount == 1
    ensures m.rpmLimit == paused.rpmLimit && m.rampUpLevel == 0.3
  {
    m := Look(paused, t).0;
    FirstLookAfterPause(paused, t);
    BurstAfterFirstLook(paused, t, k);
  }

  lemma RestOfWindow(m: Limiter, t: int, k: nat)
    requires !m.inBackoff && m.windowStart == t && m.requestCount == 1 && k > 0
    ensures 1 + |Run(m, Burst(k - 1, t)).admissions| == Min(k, EffectiveLimit(m.rpmLimit, m.rampUpLevel))
  {
    BurstAdmitsRest(m, t, k - 1);
  }

  lemma BurstAfterFirstLook(paused: Limiter, t: int, k: nat)
    requires k > 0 && !Look(paused, t).1.Sleep?
    ensures |Run(paused, Burst(k, t)).admissions| == 1 + |Run(Look(paused, t).0, Burst(k - 1, t)).admissions|
  {
    BurstHead(k, t);
    RunConcat(paused, [LookAt(t)], Burst(k - 1, t));
    RunOneMore(paused, [], LookAt(t));
    assert [] + [LookAt(t)] == [LookAt(t)];
  }

  lemma {:induction false} BurstHead(k: nat, t: int)
    requires k > 0
    ensures Burst(k, t) == [LookAt(t)] + Burst(k - 1, t)
  {
    if k > 1 {
      BurstHead(k - 1, t);
    } else {
      assert Burst(0, t) == [];
    }
  }

  /** Everything a burst admits is admitted when it arrives. */
  lemma {:induction false} BurstAdmitsAt(l: Limiter, t: int, k: nat)
    ensures forall a :: a in Run(l, Burst(k, t)).admissions ==> a.at == t
  {
    if k > 0 {
      BurstAdmitsAt(l, t, k - 1);
      RunOneMore(l, Burst(k - 1, t), LookAt(t));
    }
  }

  lemma {:induction false} AllWithin(admissions: seq<Admission>, from: int)
    requires forall a :: a in admissions ==> from <= a.at < from + MINUTE
    ensures AdmittedWithin(admissions, from) == |admissions|
  {
    if admissions != [] { AllWithin(admissions[..|admissions| - 1], from); }
  }

  lemma {:induction false} BurstTimes(k: nat, t: int)
    ensures forall e :: e in Burst(k, t) ==> e.now == t
  {
    if k > 0 { BurstTimes(k - 1, t); }
  }

  lemma BurstsInOrder(start: int, k: nat, t: int, u: int)
    requires start <= t <= u
    ensures Chronological(start, Burst(k, t) + Burst(k, u))
  {
    BurstTimes(k, t);
    BurstTimes(k, u);
    var events := Burst(k, t) + Burst(k, u);
    assert forall i :: 0 <= i < |events| ==> events[i] == if i < k then Burst(k, t)[i] else Burst(k, u)[i - k];
    forall i | 0 <= i < |events| ensures events[i].now == if i < k then t else u {
      assert events[i] in if i < k then Burst(k, t) else Burst(k, u);
    }
  }

  /** The capacity of the window after one with this capacity. */
  function Raised(level: real): real {
    if level >= 1.0 || level + 0.2 > 1.0 then 1.0 else level + 0.2
  }

  /** A window that is over does not count against the next one, which has more capacity. */
  lemma NextWindow(l: Limiter, t: int, k: nat)
    requires !l.inBackoff && l.rampUpLevel <= 1.0 && l.windowStart + MINUTE <= t && k > 0
    ensures var h := Run(l, Burst(k, t)); var level := Raised(l.rampUpLevel);
            && |h.admissions| == Min(k, EffectiveLimit(l.rpmLimit, level))
            && h.limiter == l.(windowStart := t, rampUpLevel := level, requestCount := |h.admissions|)
  {
    var m := Look(l, t).0;
    assert m == l.(windowStart := t, rampUpLevel := Raised(l.rampUpLevel), requestCount := 1);
    BurstHeadRuns(l, m, t, k);
    RushOn(l, m, t, k);
  }

  /** After a first look that opens a window a burst gets what the window admits. */
  lemma RushOn(l: Limiter, m: Limiter, t: int, k: nat)
    requires k > 0 && !m.inBackoff && m.windowStart == t && m.requestCount == 1
    requires var h := Run(l, Burst(k, t)); var rest := Run(m, Burst(k - 1, t));
             |h.admissions| == 1 + |rest.admissions| && h.limiter == rest.limiter
    ensures var h := Run(l, Burst(k, t));
            && |h.admissions| == Min(k, EffectiveLimit(m.rpmLimit, m.rampUpLevel))
            && h.limiter == m.(requestCount := |h.admissions|)
  {
    BurstAdmitsRest(m, t, k - 1);
  }

  /** A burst whose first look is admitted goes on from there. */
  lemma BurstHeadRuns(l: Limiter, m: Limiter, t: int, k: nat)
    requires k > 0 && Look(l, t).0 == m && !Look(l, t).1.Sleep?
    ensures var h := Run(l, Burst(k, t)); var rest := Run(m, Burst(k - 1, t));
            |h.admissions| == 1 + |rest.admissions| && h.limiter == rest.limiter
  {
    BurstHead(k, t);
    RunConcat(l, [LookAt(t)], Burst(k - 1, t));
    RunOneMore(l, [], LookAt(t));
    assert [] + [LookAt(t)] == [LookAt(t)];
  }

  datatype Rush = Rush(k: nat, t: int)

  /** Requests that come at once, again and again, a minute or more apart, from the end of a pause on. */
  predicate Apart(paused: Limiter, rushes: seq<Rush>) {
    && (forall i :: 0 <= i < |rushes| ==> rushes[i].k > 0)
    && (rushes != [] ==> rushes[0].t >= paused.backoffUntil)
    && forall i :: 0 <= i < |rushes| - 1 ==> rushes[i].t + MINUTE <= rushes[i + 1].t
  }

  function AllRushes(rushes: seq<Rush>): seq<Event> {
    if rushes == [] then [] else
      var n := |rushes| - 1;
      AllRushes(rushes[..n]) + Burst(rushes[n].k, rushes[n].t)
  }

  /** The capacity of window `n` after a pause. */
  function Capacity(n: nat): real {
    if n >= 5 then 1.0 else 0.1 + 0.2 * n as real
  }

  lemma RaisedCapacity(n: nat)
    ensures Raised(Capacity(n)) == Capacity(n + 1) <= 1.0
    ensures Capacity(1) == 0.3 && (n >= 5 ==> Capacity(n) == 1.0)
  {
  }

  lemma FullCapacity(rpm: int)
    requires rpm >= 1
    ensures EffectiveLimit(rpm, 1.0) == rpm
  {
  }

  lemma FirstRush(paused: Limiter, t: int, k: nat)
    requires paused.inBackoff && PauseOutlastsWindow(paused) && paused.rampUpLevel == 0.1 && t >= paused.backoffUntil
    requires k > 0
    ensures var h := Run(paused, Burst(k, t)); var m := h.limiter;
            && |h.admissions| == Min(k, EffectiveLimit(paused.rpmLimit, 0.3))
            && !m.inBackoff && m.rampUpLevel == 0.3 && m.windowStart == t && m.rpmLimit == paused.rpmLimit
  {
    FirstLookAfterPause(paused, t);
    var m := Look(paused, t).0;
    BurstHeadRuns(paused, m, t, k);
    RushOn(paused, m, t, k);
  }

  /**
   The limiter climbs back: window `n` after a pause admits a tenth and `n` fifths of the limit,
   at least one request, and from the fifth window on the whole of it.
   */
  lemma {:induction false} ClimbsBack(paused: Limiter, rushes: seq<Rush>)
    requires paused.inBackoff && PauseOutlastsWindow(paused) && paused.rampUpLevel == 0.1 && paused.rpmLimit >= 1
    requires Apart(paused, rushes) && rushes != []
    ensures var n := |rushes| - 1;
            var before := Run(paused, AllRushes(rushes[..n])).limiter;
            var h := Run(before, Burst(rushes[n].k, rushes[n].t));
            && |h.admissions| == Min(rushes[n].k, EffectiveLimit(paused.rpmLimit, Capacity(n + 1)))
            && Run(paused, AllRushes(rushes)).limiter == h.limiter
            && !h.limiter.inBackoff && h.limiter.rampUpLevel == Capacity(n + 1)
            && h.limiter.windowStart == rushes[n].t && h.limiter.rpmLimit == paused.rpmLimit
    ensures |rushes| >= 5 ==> EffectiveLimit(paused.rpmLimit, Capacity(|rushes|)) == paused.rpmLimit
    decreases |rushes|
  {
    var n := |rushes| - 1;
    var last := rushes[n];
    RunConcat(paused, AllRushes(rushes[..n]), Burst(last.k, last.t));
    RaisedCapacity(n);
    FullCapacity(paused.rpmLimit);
    if n == 0 {
      FirstRush(paused, last.t, last.k);
    } else {
      ClimbsBack(paused, rushes[..n]);
      NextWindow(Run(paused, AllRushes(rushes[..n])).limiter, last.t, last.k);
    }
  }

  /** Twice the limit does occur, whatever the limit: at the end of one window and the start of the next. */
  lemma TwiceTheLimitOccurs(rpm: int, start: int)
    requires rpm >= 1
    ensures var last := start + MINUTE - 1; var events := Burst(rpm, last) + Burst(rpm, last + 1);
            Chronological(start, events) &&
                AdmittedWithin(Run(NewLimiter(rpm, start), events).admissions, last) == 2 * rpm
  {
    var l, last := NewLimiter(rpm, start), start + MINUTE - 1;
    var first := Run(l, Burst(rpm, last));
    var second := Run(first.limiter, Burst(rpm, last + 1));
    BurstsInOrder(start, rpm, last, last + 1);
    RunConcat(l, Burst(rpm, last), Burst(rpm, last + 1));
    BurstAdmitsRest(l, last, rpm);
    NextWindow(first.limiter, last + 1, rpm);
    FullCapacity(rpm);
    BurstAdmitsAt(l, last, rpm);
    BurstAdmitsAt(first.limiter, last + 1, rpm);
    AllWithin(first.admissions + second.admissions, last);
  }
}
