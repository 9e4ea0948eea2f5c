/** Pacing of provider requests: a rolling ten-per-minute window, or fixed 6.1-second
    spacing, behind one admission semaphore. Times are in milliseconds. */
module FirecrawlAdmission {
  import opened Common

  const WINDOW := 60000
  const WINDOW_LIMIT := 10
  const START_INTERVAL := 6100

  datatype Mode = Rolling | Fixed

  /** The Retry-After header of a 429 answer, as far as it parses. */
  datatype RetryAfter = Absent | Seconds(count: nat) | Date(at: int)

  datatype Pacer = Pacer(nextStart: int, blockedUntil: int, rollingStarts: seq<int>, disabled: bool)

  /** Who holds the admission semaphore, waiting between the two critical sections. */
  datatype Holder = Nobody | Waiting(start: int)

  /** `starts` is a history variable: the time of every admission. */
  datatype State = State(clock: int, pacer: Pacer, holder: Holder, starts: seq<int>)

  datatype Event =
    | Tick(elapsed: nat)
    | Enter(tooLate: bool)                // the semaphore is taken; the deadline may exclude the needed delay
    | Cancel                              // the wait or its context ends without admission
    | Proceed(early: nat, between: nat)   // the wait ends, perhaps early; time may pass between the clock readings
    | Block(status: int, retry: RetryAfter)

  function Pruned(starts: seq<int>, now: int): seq<int> {
    if starts != [] && starts[0] + WINDOW <= now then Pruned(starts[1..], now) else starts
  }

  predicate Refuses(p: Pacer, now: int) { p.disabled || now < p.blockedUntil }

  /** First critical section: when the request may start, if it is not refused. */
  function Planned(mode: Mode, p: Pacer, now: int): (Pacer, int) {
    if mode.Fixed? then (p, Max(p.nextStart, now))
    else
      var rolling := Pruned(p.rollingStarts, now);
      (p.(rollingStarts := rolling), if |rolling| >= WINDOW_LIMIT then rolling[0] + WINDOW else now)
  }

  /** Second critical section, after the checks: reserve the start, unless the window filled up meanwhile. */
  function Reserved(mode: Mode, p: Pacer, start: int, now: int, later: int): (Pacer, bool) {
    if mode.Fixed? then (p.(nextStart := Max(start, later) + START_INTERVAL), true)
    else
      var rolling := Pruned(p.rollingStarts, now);
      if |rolling| >= WINDOW_LIMIT then (p.(rollingStarts := rolling), false)
      else (p.(rollingStarts := rolling + [later]), true)
  }

  function Blocked(p: Pacer, status: int, retry: RetryAfter, now: int): Pacer {
    if status == 401 || status == 402 || status == 403 then p.(disabled := true)
    else if status == 429 then
      p.(blockedUntil := match retry
         case Seconds(count) => now + 1000 * count
         case Date(at) => if at > now then at else now + 60000
         case Absent => now + 60000)
    else p
  }

  // ---------------------------------------------------------------- interleavings

  /** One event; an event that is not possible at that point changes nothing. */
  function Step(mode: Mode, s: State, e: Event): State {
    match e
    case Tick(elapsed) => s.(clock := s.clock + elapsed)
    case Enter(tooLate) => StepEnter(mode, s, tooLate)
    case Cancel => s.(holder := Nobody)
    case Proceed(early, between) => StepProceed(mode, s, early, between)
    case Block(status, retry) => s.(pacer := Blocked(s.pacer, status, retry, s.clock))
  }

  function StepEnter(mode: Mode, s: State, tooLate: bool): State {
    if s.holder != Nobody || Refuses(s.pacer, s.clock) then s
    else
      var (pacer, start) := Planned(mode, s.pacer, s.clock);
      s.(pacer := pacer, holder := if tooLate && start > s.clock && mode == Rolling then Nobody else Waiting(start))
  }

  function StepProceed(mode: Mode, s: State, early: nat, between: nat): State {
    if s.holder == Nobody || s.clock + early < s.holder.start then s
    else if Refuses(s.pacer, s.clock) then s.(holder := Nobody)
    else
      var (pacer, admitted) := Reserved(mode, s.pacer, s.holder.start, s.clock, s.clock + between);
      State(s.clock + between, pacer, Nobody, if admitted then s.starts + [s.clock + between] else s.starts)
  }

  const Fresh: State := State(0, Pacer(0, 0, [], false), Nobody, [])

  function RunFrom(mode: Mode, s: State, es: seq<Event>): State {
    if es == [] then s else Step(mode, RunFrom(mode, s, es[..|es| - 1]), es[|es| - 1])
  }

  /** No wait ends more than so many milliseconds early. */
  predicate WaitsWithin(es: seq<Event>, tolerance: nat) {
    forall i :: 0 <= i < |es| && es[i].Proceed? ==> es[i].early <= tolerance
  }

  lemma {:induction false} RunAppends(mode: Mode, s: State, es: seq<Event>, fs: seq<Event>)
    ensures RunFrom(mode, s, es + fs) == RunFrom(mode, RunFrom(mode, s, es), fs)
  {
    if fs == [] {
      assert es + fs == es;
    } else {
      RunAppends(mode, s, es, fs[..|fs| - 1]);
      assert (es + fs)[..|es + fs| - 1] == es + fs[..|fs| - 1];
    }
  }

  lemma RunOne(mode: Mode, s: State, e: Event)
    ensures RunFrom(mode, s, [e]) == Step(mode, s, e)
  {
    assert [e][..0] == [];
    assert RunFrom(mode, s, []) == s;
  }

  // ---------------------------------------------------------------- what every run keeps

  ghost predicate Chronological(s: State) {
    && (forall i :: 0 <= i < |s.starts| ==> s.starts[i] <= s.clock)
    && (forall i, j :: 0 <= i < j < |s.starts| ==> s.starts[i] <= s.starts[j])
  }

  /** Eleven consecutive admissions never fit into one window. */
  ghost predicate Spread(starts: seq<int>) {
    forall i, j :: 0 <= i && i + WINDOW_LIMIT <= j < |starts| ==> starts[i] + WINDOW <= starts[j]
  }

  /** The rolling list is the recent end of the history, and what was pruned is over. */
  ghost predicate Tracks(s: State) {
    var kept := |s.pacer.rollingStarts|;
    && kept <= WINDOW_LIMIT && kept <= |s.starts|
    && s.pacer.rollingStarts == s.starts[|s.starts| - kept..]
    && forall i :: 0 <= i < |s.starts| - kept ==> s.starts[i] + WINDOW <= s.clock
  }

  ghost predicate RollingInv(s: State) { Chronological(s) && Spread(s.starts) && Tracks(s) }

  ghost predicate PrunedTo(rolling: seq<int>, after: seq<int>, now: int) {
    && |after| <= |rolling| && after == rolling[|rolling| - |after|..]
    && forall i :: 0 <= i < |rolling| - |after| ==> rolling[i] + WINDOW <= now
  }

  lemma {:induction false} PruningDropsTheOld(starts: seq<int>, now: int)
    ensures PrunedTo(starts, Pruned(starts, now), now)
    ensures Pruned(starts, now) != [] ==> Pruned(starts, now)[0] + WINDOW > now
  {
    if starts != [] && starts[0] + WINDOW <= now {
      PruningDropsTheOld(starts[1..], now);
      forall i | 0 <= i < |starts| - |Pruned(starts, now)| ensures starts[i] + WINDOW <= now {
        if i > 0 { assert starts[i] == starts[1..][i - 1]; }
      }
    }
  }

  lemma PruningTracks(s: State, r: State)
    requires RollingInv(s) && r.clock == s.clock && r.starts == s.starts
    requires PrunedTo(s.pacer.rollingStarts, r.pacer.rollingStarts, s.clock)
    ensures RollingInv(r)
  {
    var before, after := s.pacer.rollingStarts, r.pacer.rollingStarts;
    assert after == s.starts[|s.starts| - |after|..];
    forall i | 0 <= i < |s.starts| - |after| ensures s.starts[i] + WINDOW <= s.clock {
      if i >= |s.starts| - |before| { assert s.starts[i] == before[i - (|s.starts| - |before|)]; }
    }
  }

  lemma AppendingTracks(s: State, r: State)
    requires RollingInv(s) && |s.pacer.rollingStarts| < WINDOW_LIMIT && s.clock <= r.clock
    requires r.starts == s.starts + [r.clock] && r.pacer.rollingStarts == s.pacer.rollingStarts + [r.clock]
    ensures RollingInv(r)
  {
    var kept := |s.pacer.rollingStarts|;
    assert r.starts[|r.starts| - (kept + 1)..] == s.starts[|s.starts| - kept..] + [r.clock];
  }

  lemma WaitingTracks(s: State, r: State)
    requires RollingInv(s) && s.clock <= r.clock && r.starts == s.starts && r.pacer.rollingStarts == s.pacer.rollingStarts
    ensures RollingInv(r)
  {
  }

  lemma {:induction false} RollingStep(s: State, e: Event)
    requires RollingInv(s)
    ensures RollingInv(Step(Rolling, s, e))
  {
    var r := Step(Rolling, s, e);
    if e.Proceed? {
      RollingProceed(s, e.early, e.between);
    } else if e.Enter? && s.holder == Nobody && !Refuses(s.pacer, s.clock) {
      PruningDropsTheOld(s.pacer.rollingStarts, s.clock);
      PruningTracks(s, r);
    } else {
      WaitingTracks(s, r);
    }
  }

  lemma RollingProceed(s: State, early: nat, between: nat)
    requires RollingInv(s)
    ensures RollingInv(StepProceed(Rolling, s, early, between))
  {
    var r := StepProceed(Rolling, s, early, between);
    var pruned := s.(pacer := s.pacer.(rollingStarts := Pruned(s.pacer.rollingStarts, s.clock)));
    PruningDropsTheOld(s.pacer.rollingStarts, s.clock);
    if s.holder == Nobody || s.clock + early < s.holder.start || Refuses(s.pacer, s.clock) {
      WaitingTracks(s, r);
    } else if |pruned.pacer.rollingStarts| < WINDOW_LIMIT {
      PruningTracks(s, pruned);
      AppendingTracks(pruned, r);
    } else {
      PruningTracks(s, pruned);
      WaitingTracks(pruned, r);
    }
  }

  lemma {:induction false} RollingRuns(es: seq<Event>)
    ensures RollingInv(RunFrom(Rolling, Fresh, es))
  {
    if es != [] {
      RollingRuns(es[..|es| - 1]);
      RollingStep(RunFrom(Rolling, Fresh, es[..|es| - 1]), es[|es| - 1]);
    }
  }

  /** The planned starts keep their distance; an admission comes at most the tolerance before its planned start. */
  ghost predicate FixedInv(s: State, tolerance: nat) {
    && Chronological(s)
    && (forall i, j :: 0 <= i < j < |s.starts| ==> s.starts[i] + (j - i) * START_INTERVAL <= s.starts[j] + tolerance)
    && (forall i :: 0 <= i < |s.starts| ==> s.starts[i] + (|s.starts| - i) * START_INTERVAL <= s.pacer.nextStart)
    && (s.holder.Waiting? ==> s.pacer.nextStart <= s.holder.start)
  }

  lemma {:induction false} FixedRuns(es: seq<Event>, tolerance: nat)
    requires WaitsWithin(es, tolerance)
    ensures FixedInv(RunFrom(Fixed, Fresh, es), tolerance)
  {
    if es != [] {
      var front, e := es[..|es| - 1], es[|es| - 1];
      assert forall i :: 0 <= i < |front| ==> front[i] == es[i];
      FixedRuns(front, tolerance);
      FixedStep(RunFrom(Fixed, Fresh, front), e, tolerance);
    }
  }

  lemma FixedStep(s: State, e: Event, tolerance: nat)
    requires FixedInv(s, tolerance) && (e.Proceed? ==> e.early <= tolerance)
    ensures FixedInv(Step(Fixed, s, e), tolerance)
  {
    var r := Step(Fixed, s, e);
    if |r.starts| > |s.starts| {
      assert forall i :: 0 <= i < |s.starts| ==> r.starts[i] == s.starts[i];
    }
  }

  // ---------------------------------------------------------------- the promises

  ghost function InWindow(starts: seq<int>, from: int): (r: set<nat>)
    ensures forall i: nat :: i in r <==> i < |starts| && from <= starts[i] < from + WINDOW
  {
    set i: nat | 0 <= i < |starts| && from <= starts[i] < from + WINDOW
  }

  lemma {:induction false} IntervalSize(s: set<nat>, low: nat, size: nat)
    requires forall i :: i in s ==> low <= i < low + size
    ensures |s| <= size
  {
    if size == 0 {
      assert s == {};
    } else {
      IntervalSize(s - {low + size - 1}, low, size - 1);
      assert |s| <= |s - {low + size - 1}| + 1;
    }
  }

  lemma SpreadBoundsWindows(s: State, from: int)
    requires Chronological(s) && Spread(s.starts)
    ensures |InWindow(s.starts, from)| <= WINDOW_LIMIT
  {
    var inside := InWindow(s.starts, from);
    if inside != {} {
      var first: nat :| first in inside && forall i :: i in inside ==> first <= i by { LeastExists(inside); }
      IntervalSize(inside, first, WINDOW_LIMIT);
    }
  }

  lemma {:induction false} LeastExists(s: set<nat>)
    requires s != {}
    ensures exists first :: first in s && forall i :: i in s ==> first <= i
  {
    var x :| x in s;
    if s - {x} == {} {
      assert s == {x};
    } else {
      LeastExists(s - {x});
      var low :| low in s - {x} && forall i :: i in s - {x} ==> low <= i;
      var least := if x < low then x else low;
      assert forall i :: i in s ==> i == x || i in s - {x};
      assert least in s && forall i :: i in s ==> least <= i;
    }
  }

  /** Rolling mode: at most ten admissions in every minute, whatever callers, waits and cancellations do. */
  lemma RollingBound(es: seq<Event>, from: int)
    ensures |InWindow(RunFrom(Rolling, Fresh, es).starts, from)| <= WINDOW_LIMIT
  {
    RollingRuns(es);
    SpreadBoundsWindows(RunFrom(Rolling, Fresh, es), from);
  }

  /** Fixed mode gives the bound, as far as waits may end early. */
  ghost predicate FixedKeepsBound(tolerance: nat) {
    forall es: seq<Event>, from: int ::
      WaitsWithin(es, tolerance) ==> |InWindow(RunFrom(Fixed, Fresh, es).starts, from)| <= WINDOW_LIMIT
  }

  /** The spacing alone bounds every minute exactly when no wait ends more than a second early. */
  lemma FixedBound(tolerance: nat)
    ensures FixedKeepsBound(tolerance) <==> tolerance <= 1000
  {
    if tolerance <= 1000 {
      forall es: seq<Event>, from: int | WaitsWithin(es, tolerance)
        ensures |InWindow(RunFrom(Fixed, Fresh, es).starts, from)| <= WINDOW_LIMIT
      {
        FixedRuns(es, tolerance);
        SpreadBoundsWindows(RunFrom(Fixed, Fresh, es), from);
      }
    } else {
      OneTooEarly();
      assert WaitsWithin(OneEarly(), tolerance);
    }
  }

  // So many starts on time, as close together as fixed mode allows.
  function OnTime(n: nat): seq<Event> {
    if n == 0 then [] else OnTime(n - 1) + [Enter(false)] + [Proceed(0, 0)] + [Tick(START_INTERVAL)]
  }

  // Ten starts on time, and the eleventh 1001 milliseconds early.
  function OneEarly(): (es: seq<Event>)
    ensures WaitsWithin(es, 1001)
  {
    OnTimeIsPunctual(9);
    OnTime(9) + [Enter(false)] + [Proceed(0, 0)] + [Tick(5099)] + [Enter(false)] + [Proceed(1001, 0)]
  }

  lemma {:induction false} OnTimeIsPunctual(n: nat)
    ensures WaitsWithin(OnTime(n), 0)
  {
    if n > 0 { OnTimeIsPunctual(n - 1); }
  }

  lemma RunAdds(s: State, es: seq<Event>, e: Event)
    ensures RunFrom(Fixed, s, es + [e]) == Step(Fixed, RunFrom(Fixed, s, es), e)
  {
    assert (es + [e])[..|es|] == es;
  }

  lemma {:induction false} OnTimeStarts(n: nat)
    ensures RunFrom(Fixed, Fresh, OnTime(n)) ==
      State(n * START_INTERVAL, Pacer(n * START_INTERVAL, 0, [], false), Nobody, seq(n, i => i * START_INTERVAL))
  {
    if n > 0 {
      OnTimeStarts(n - 1);
      var es := OnTime(n - 1);
      RunAdds(Fresh, es, Enter(false));
      RunAdds(Fresh, es + [Enter(false)], Proceed(0, 0));
      RunAdds(Fresh, es + [Enter(false)] + [Proceed(0, 0)], Tick(START_INTERVAL));
      assert seq(n, i => i * START_INTERVAL) == seq(n - 1, i => i * START_INTERVAL) + [(n - 1) * START_INTERVAL];
    }
  }

  // The last steps of that run, from the state after nine starts.
  lemma LastSteps(s: State)
    requires s.clock == 54900 && s.pacer == Pacer(54900, 0, [], false) && s.holder == Nobody
    ensures var a := Step(Fixed, Step(Fixed, Step(Fixed, s, Enter(false)), Proceed(0, 0)), Tick(5099));
      Step(Fixed, Step(Fixed, a, Enter(false)), Proceed(1001, 0)).starts == s.starts + [54900] + [59999]
  {
  }

  lemma OneEarlyStarts()
    ensures RunFrom(Fixed, Fresh, OneEarly()).starts == seq(9, i => i * START_INTERVAL) + [54900] + [59999]
  {
    OnTimeStarts(9);
    LastSteps(RunFrom(Fixed, Fresh, OnTime(9)));
    var a := OnTime(9) + [Enter(false)];
    var b := a + [Proceed(0, 0)];
    var c := b + [Tick(5099)];
    var d := c + [Enter(false)];
    RunAdds(Fresh, OnTime(9), Enter(false));
    RunAdds(Fresh, a, Proceed(0, 0));
    RunAdds(Fresh, b, Tick(5099));
    RunAdds(Fresh, c, Enter(false));
    RunAdds(Fresh, d, Proceed(1001, 0));
  }

  lemma OneTooEarly()
    ensures |InWindow(RunFrom(Fixed, Fresh, OneEarly()).starts, 0)| > WINDOW_LIMIT
  {
    OneEarlyStarts();
    ElevenInside(seq(9, i => i * START_INTERVAL) + [54900] + [59999]);
  }

  lemma ElevenInside(starts: seq<int>)
    requires |starts| == 11 && forall i :: 0 <= i < 11 ==> 0 <= starts[i] < WINDOW
    ensures |InWindow(starts, 0)| == 11
  {
    assert InWindow(starts, 0) == UpTo(11);
  }

  ghost function UpTo(n: nat): (r: set<nat>)
    ensures (forall i: nat :: i in r <==> i < n) && |r| == n
  {
    if n == 0 then {} else UpTo(n - 1) + {n - 1}
  }

  /** The event admits the waiting caller as the start with this number and time. */
  predicate Admits(s: State, e: Event, number: nat, time: int) {
    && e.Proceed? && s.holder.Waiting? && s.holder.start <= s.clock + e.early
    && !s.pacer.disabled && s.pacer.blockedUntil <= s.clock
    && |s.starts| == number && time == s.clock + e.between
  }

  lemma StartsAreAdmissions(mode: Mode, s: State, e: Event)
    requires Step(mode, s, e).starts != s.starts
    ensures e.Proceed? && Step(mode, s, e).starts == s.starts + [s.clock + e.between]
    ensures Admits(s, e, |s.starts|, s.clock + e.between) && Step(mode, s, e).holder == Nobody
  {
  }

  ghost predicate WasAdmitted(mode: Mode, es: seq<Event>, number: nat, time: int) {
    exists n :: 0 <= n < |es| && Admits(RunFrom(mode, Fresh, es[..n]), es[n], number, time)
  }

  /** In every run, each start was the admission of a caller that waited its time, outside every block and while enabled. */
  lemma {:induction false} EveryStartWasAdmitted(mode: Mode, es: seq<Event>, i: nat)
    requires i < |RunFrom(mode, Fresh, es).starts|
    ensures WasAdmitted(mode, es, i, RunFrom(mode, Fresh, es).starts[i])
  {
    if es != [] {
      var front, e := es[..|es| - 1], es[|es| - 1];
      var s, r := RunFrom(mode, Fresh, front), RunFrom(mode, Fresh, es);
      if r.starts != s.starts { StartsAreAdmissions(mode, s, e); }
      if i < |s.starts| {
        EveryStartWasAdmitted(mode, front, i);
        AdmittedStays(mode, front, e, i, s.starts[i]);
        assert front + [e] == es;
      }
    }
  }

  lemma AdmittedStays(mode: Mode, es: seq<Event>, e: Event, number: nat, time: int)
    requires WasAdmitted(mode, es, number, time)
    ensures WasAdmitted(mode, es + [e], number, time)
  {
    var n :| 0 <= n < |es| && Admits(RunFrom(mode, Fresh, es[..n]), es[n], number, time);
    assert (es + [e])[..n] == es[..n] && (es + [e])[n] == es[n];
  }

  function Held(s: State): nat { if s.holder.Waiting? then 1 else 0 }

  /** How often a caller took the semaphore and was told when to start. */
  function Entries(mode: Mode, es: seq<Event>): nat {
    if es == [] then 0
    else
      var before := RunFrom(mode, Fresh, es[..|es| - 1]);
      Entries(mode, es[..|es| - 1]) + if es[|es| - 1].Enter? && Held(before) < Held(Step(mode, before, es[|es| - 1])) then 1 else 0
  }

  /** In every run, no two starts share an entry: one admission uses up the wait it ends. */
  lemma {:induction false} EachStartHasItsEntry(mode: Mode, es: seq<Event>)
    ensures |RunFrom(mode, Fresh, es).starts| + Held(RunFrom(mode, Fresh, es)) <= Entries(mode, es)
  {
    if es != [] {
      EachStartHasItsEntry(mode, es[..|es| - 1]);
      StartsUseTheHolder(mode, RunFrom(mode, Fresh, es[..|es| - 1]), es[|es| - 1]);
    }
  }

  lemma StartsUseTheHolder(mode: Mode, s: State, e: Event)
    ensures var r := Step(mode, s, e);
      |r.starts| + Held(r) <= |s.starts| + Held(s) + if e.Enter? && Held(s) < Held(r) then 1 else 0
  {
    if Step(mode, s, e).starts != s.starts { StartsAreAdmissions(mode, s, e); }
  }

  predicate NotLimited(es: seq<Event>) { forall i :: 0 <= i < |es| && es[i].Block? ==> es[i].status != 429 }

  /** The history only grows, and what it gained is not before this time. */
  ghost predicate OnlyFrom(before: seq<int>, after: seq<int>, time: int) {
    before <= after && forall i :: |before| <= i < |after| ==> time <= after[i]
  }

  /** Until the next 429, a block stays as it is and nothing starts before its end. */
  lemma {:induction false} StartsRespectBlocks(mode: Mode, s: State, es: seq<Event>)
    requires NotLimited(es)
    ensures RunFrom(mode, s, es).pacer.blockedUntil == s.pacer.blockedUntil
    ensures OnlyFrom(s.starts, RunFrom(mode, s, es).starts, s.pacer.blockedUntil)
  {
    if es != [] {
      var front := es[..|es| - 1];
      assert forall i :: 0 <= i < |front| ==> front[i] == es[i];
      StartsRespectBlocks(mode, s, front);
      StepRespectsBlock(mode, RunFrom(mode, s, front), es[|es| - 1]);
    }
  }

  lemma StepRespectsBlock(mode: Mode, s: State, e: Event)
    requires e.Block? ==> e.status != 429
    ensures Step(mode, s, e).pacer.blockedUntil == s.pacer.blockedUntil
    ensures OnlyFrom(s.starts, Step(mode, s, e).starts, s.pacer.blockedUntil)
  {
  }

  /** After a 429, nothing starts before the time the answer names, or for a minute when it names none to come;
      the block ends exactly then. */
  lemma LimitIsObserved(mode: Mode, s: State, retry: RetryAfter, es: seq<Event>)
    requires NotLimited(es)
    ensures RunFrom(mode, s, [Block(429, retry)] + es).pacer.blockedUntil - s.clock ==
      if retry.Seconds? then 1000 * retry.count else if retry.Date? && retry.at > s.clock then retry.at - s.clock else 60000
    ensures var r := RunFrom(mode, s, [Block(429, retry)] + es);
      match retry
      case Seconds(count) => OnlyFrom(s.starts, r.starts, s.clock + 1000 * count)
      case Date(at) => OnlyFrom(s.starts, r.starts, if at > s.clock then at else s.clock + 60000)
      case Absent => OnlyFrom(s.starts, r.starts, s.clock + 60000)
  {
    RunAppends(mode, s, [Block(429, retry)], es);
    RunOne(mode, s, Block(429, retry));
    StartsRespectBlocks(mode, Step(mode, s, Block(429, retry)), es);
  }

  lemma {:induction false} DisabledForever(mode: Mode, s: State, es: seq<Event>)
    requires s.pacer.disabled
    ensures RunFrom(mode, s, es).pacer.disabled && RunFrom(mode, s, es).starts == s.starts
  {
    if es != [] { DisabledForever(mode, s, es[..|es| - 1]); }
  }

  /** After a 401, 402 or 403, no request ever starts again. */
  lemma RefusalIsFinal(mode: Mode, s: State, status: int, retry: RetryAfter, es: seq<Event>)
    requires status in {401, 402, 403}
    ensures RunFrom(mode, s, [Block(status, retry)] + es).starts == s.starts
  {
    RunAppends(mode, s, [Block(status, retry)], es);
    RunOne(mode, s, Block(status, retry));
    DisabledForever(mode, Step(mode, s, Block(status, retry)), es);
  }

  predicate Refusal(e: Event) { e.Block? && e.status in {401, 402, 403} }

  /** In every run, those answers and nothing else disable the provider. */
  lemma {:induction false} OnlyRefusalsDisable(mode: Mode, es: seq<Event>)
    ensures RunFrom(mode, Fresh, es).pacer.disabled <==> exists i :: 0 <= i < |es| && Refusal(es[i])
  {
    if es != [] {
      var front, last := es[..|es| - 1], es[|es| - 1];
      OnlyRefusalsDisable(mode, front);
      StepDisables(mode, RunFrom(mode, Fresh, front), last);
      assert forall i :: 0 <= i < |front| ==> front[i] == es[i];
      assert Refusal(last) ==> Refusal(es[|es| - 1]);
    }
  }

  lemma StepDisables(mode: Mode, s: State, e: Event)
    ensures Step(mode, s, e).pacer.disabled <==> s.pacer.disabled || Refusal(e)
  {
  }

  // When a caller is let in, and when it may start, is decided by the history alone.

  predicate Open(s: State) { !s.pacer.disabled && s.pacer.blockedUntil <= s.clock }

  /** The tenth last start is still in the window that ends now. */
  predicate WindowFull(starts: seq<int>, now: int) {
    |starts| >= WINDOW_LIMIT && starts[|starts| - WINDOW_LIMIT] + WINDOW > now
  }

  lemma PrunedIsFull(s: State)
    requires RollingInv(s)
    ensures var rolling := Pruned(s.pacer.rollingStarts, s.clock);
      && (|rolling| >= WINDOW_LIMIT <==> WindowFull(s.starts, s.clock))
      && (|rolling| >= WINDOW_LIMIT ==> rolling[0] == s.starts[|s.starts| - WINDOW_LIMIT])
  {
    var rolling := Pruned(s.pacer.rollingStarts, s.clock);
    PruningDropsTheOld(s.pacer.rollingStarts, s.clock);
    PruningTracks(s, s.(pacer := s.pacer.(rollingStarts := rolling)));
    FullWhenTen(s.starts, rolling, s.clock);
  }

  lemma FullWhenTen(starts: seq<int>, rolling: seq<int>, now: int)
    requires |rolling| <= WINDOW_LIMIT && |rolling| <= |starts| && rolling == starts[|starts| - |rolling|..]
    requires forall i :: 0 <= i < |starts| - |rolling| ==> starts[i] + WINDOW <= now
    requires rolling != [] ==> rolling[0] + WINDOW > now
    ensures |rolling| >= WINDOW_LIMIT <==> WindowFull(starts, now)
    ensures |rolling| >= WINDOW_LIMIT ==> rolling[0] == starts[|starts| - WINDOW_LIMIT]
  {
  }

  /** Rolling mode: a caller is planned for now, or for the moment the tenth last start leaves the window. */
  lemma RollingEntryIsExact(es: seq<Event>, tooLate: bool)
    requires RunFrom(Rolling, Fresh, es).holder == Nobody
    ensures var s := RunFrom(Rolling, Fresh, es);
      Step(Rolling, s, Enter(tooLate)).holder ==
        if !Open(s) || (tooLate && WindowFull(s.starts, s.clock)) then Nobody
        else Waiting(if WindowFull(s.starts, s.clock) then s.starts[|s.starts| - WINDOW_LIMIT] + WINDOW else s.clock)
  {
    RollingRuns(es);
    PrunedIsFull(RunFrom(Rolling, Fresh, es));
  }

  /** Rolling mode: a caller whose wait is over starts exactly when nothing blocks it and the window has room. */
  lemma RollingStartIsExact(es: seq<Event>, early: nat, between: nat)
    requires RunFrom(Rolling, Fresh, es).holder.Waiting?
    ensures var s := RunFrom(Rolling, Fresh, es); var r := Step(Rolling, s, Proceed(early, between));
      && (r.holder == Nobody <==> s.holder.start <= s.clock + early)
      && r.starts == if s.holder.start <= s.clock + early && Open(s) && !WindowFull(s.starts, s.clock)
                     then s.starts + [s.clock + between] else s.starts
  {
    RollingRuns(es);
    PrunedIsFull(RunFrom(Rolling, Fresh, es));
  }

  /** Fixed mode plans one interval after the last start, or now; an early wait shifts the plan by at most that much. */
  ghost predicate PlanFollows(s: State, tolerance: nat) {
    if s.starts == [] then s.pacer.nextStart == 0 <= s.clock
    else
      var last := s.starts[|s.starts| - 1];
      last + START_INTERVAL <= s.pacer.nextStart <= last + START_INTERVAL + tolerance
  }

  lemma {:induction false} PlansFollow(es: seq<Event>, tolerance: nat)
    requires WaitsWithin(es, tolerance)
    ensures PlanFollows(RunFrom(Fixed, Fresh, es), tolerance)
  {
    if es != [] {
      var front, e := es[..|es| - 1], es[|es| - 1];
      assert forall i :: 0 <= i < |front| ==> front[i] == es[i];
      PlansFollow(front, tolerance);
      PlanStep(RunFrom(Fixed, Fresh, front), e, tolerance);
    }
  }

  lemma PlanStep(s: State, e: Event, tolerance: nat)
    requires PlanFollows(s, tolerance) && (e.Proceed? ==> e.early <= tolerance)
    ensures PlanFollows(Step(Fixed, s, e), tolerance)
  {
  }

  /** Fixed mode: a caller is planned for one interval after the last start, or for now if that is later. */
  lemma FixedEntryIsExact(es: seq<Event>, tooLate: bool)
    requires RunFrom(Fixed, Fresh, es).holder == Nobody && WaitsWithin(es, 0)
    ensures var s := RunFrom(Fixed, Fresh, es);
      Step(Fixed, s, Enter(tooLate)).holder ==
        if !Open(s) then Nobody
        else if s.starts == [] then Waiting(s.clock)
        else Waiting(Max(s.starts[|s.starts| - 1] + START_INTERVAL, s.clock))
  {
    PlansFollow(es, 0);
  }

  /** Fixed mode: a caller whose wait is over starts exactly when nothing blocks it. */
  lemma FixedStartIsExact(es: seq<Event>, early: nat, between: nat)
    requires RunFrom(Fixed, Fresh, es).holder.Waiting?
    ensures var s := RunFrom(Fixed, Fresh, es); var r := Step(Fixed, s, Proceed(early, between));
      && (r.holder == Nobody <==> s.holder.start <= s.clock + early)
      && r.starts == if s.holder.start <= s.clock + early && Open(s) then s.starts + [s.clock + between] else s.starts
  {
  }

  /** The same history, and rolling lists that no later admission can tell apart. */
  ghost predicate SamePace(a: State, b: State) {
    && a.clock == b.clock && a.starts == b.starts
    && a.pacer == b.pacer.(rollingStarts := a.pacer.rollingStarts)
    && forall later: int :: later >= a.clock ==> Pruned(a.pacer.rollingStarts, later) == Pruned(b.pacer.rollingStarts, later)
  }

  lemma EnteringKeepsPace(mode: Mode, s: State, tooLate: bool)
    requires s.holder == Nobody
    ensures SamePace(Step(mode, s, Enter(tooLate)), s)
  {
    forall later: int | later >= s.clock
      ensures Pruned(Pruned(s.pacer.rollingStarts, s.clock), later) == Pruned(s.pacer.rollingStarts, later)
    {
      PruneTwice(s.pacer.rollingStarts, s.clock, later);
    }
  }

  lemma {:induction false} PassingKeepsPace(mode: Mode, a: State, b: State, es: seq<Event>)
    requires SamePace(a, b) && forall e :: e in es ==> e.Tick? || e.Block?
    ensures SamePace(RunFrom(mode, a, es), RunFrom(mode, b, es)) && RunFrom(mode, b, es).holder == b.holder
  {
    if es != [] {
      assert es[|es| - 1] in es && forall e :: e in es[..|es| - 1] ==> e in es;
      PassingKeepsPace(mode, a, b, es[..|es| - 1]);
      PassingStep(mode, RunFrom(mode, a, es[..|es| - 1]), RunFrom(mode, b, es[..|es| - 1]), es[|es| - 1]);
    }
  }

  lemma PassingStep(mode: Mode, a: State, b: State, e: Event)
    requires SamePace(a, b) && (e.Tick? || e.Block?)
    ensures SamePace(Step(mode, a, e), Step(mode, b, e)) && Step(mode, b, e).holder == b.holder
  {
  }

  lemma {:induction false} RunsKeepPace(mode: Mode, a: State, b: State, es: seq<Event>)
    requires SamePace(a, b) && a.holder == b.holder
    ensures SamePace(RunFrom(mode, a, es), RunFrom(mode, b, es)) && RunFrom(mode, a, es).holder == RunFrom(mode, b, es).holder
  {
    if es != [] {
      var front, e := es[..|es| - 1], es[|es| - 1];
      RunsKeepPace(mode, a, b, front);
      StepKeepsPace(mode, RunFrom(mode, a, front), RunFrom(mode, b, front), e);
    }
  }

  // Rolling lists stay as they were, or were pruned to the same one.
  predicate Paired(a: State, b: State, c: State, d: State) {
    && a.clock <= c.clock == d.clock && c.starts == d.starts && c.holder == d.holder
    && c.pacer == d.pacer.(rollingStarts := c.pacer.rollingStarts)
    && ((c.pacer.rollingStarts == a.pacer.rollingStarts && d.pacer.rollingStarts == b.pacer.rollingStarts) || c.pacer == d.pacer)
  }

  predicate Twins(a: Pacer, b: Pacer, now: int) {
    a == b.(rollingStarts := a.rollingStarts) && Pruned(a.rollingStarts, now) == Pruned(b.rollingStarts, now)
  }

  lemma PlannedAlike(mode: Mode, a: Pacer, b: Pacer, now: int)
    requires Twins(a, b, now)
    ensures Planned(mode, a, now).1 == Planned(mode, b, now).1
    ensures if mode.Rolling? then Planned(mode, a, now).0 == Planned(mode, b, now).0
            else Planned(mode, a, now).0 == a && Planned(mode, b, now).0 == b
  {
  }

  lemma ReservedAlike(mode: Mode, a: Pacer, b: Pacer, start: int, now: int, later: int)
    requires Twins(a, b, now)
    ensures Reserved(mode, a, start, now, later).1 == Reserved(mode, b, start, now, later).1
    ensures var c, d := Reserved(mode, a, start, now, later).0, Reserved(mode, b, start, now, later).0;
      if mode.Rolling? then c == d
      else c == d.(rollingStarts := a.rollingStarts) && d.rollingStarts == b.rollingStarts
  {
  }

  lemma StepPairs(mode: Mode, a: State, b: State, e: Event)
    requires a == b.(pacer := a.pacer) && Twins(a.pacer, b.pacer, a.clock)
    ensures Paired(a, b, Step(mode, a, e), Step(mode, b, e))
  {
    match e
    case Enter(tooLate) => PlannedAlike(mode, a.pacer, b.pacer, a.clock);
    case Proceed(early, between) =>
      if a.holder.Waiting? { ReservedAlike(mode, a.pacer, b.pacer, a.holder.start, a.clock, a.clock + between); }
    case _ =>
  }

  lemma PairedKeepPace(a: State, b: State, c: State, d: State)
    requires SamePace(a, b) && Paired(a, b, c, d)
    ensures SamePace(c, d) && c.holder == d.holder
  {
  }

  lemma StepKeepsPace(mode: Mode, a: State, b: State, e: Event)
    requires SamePace(a, b) && a.holder == b.holder
    ensures SamePace(Step(mode, a, e), Step(mode, b, e)) && Step(mode, a, e).holder == Step(mode, b, e).holder
  {
    assert Twins(a.pacer, b.pacer, a.clock);
    StepPairs(mode, a, b, e);
    PairedKeepPace(a, b, Step(mode, a, e), Step(mode, b, e));
  }

  /** A cancelled caller leaves no reservation: from then on, everything is as if it had never entered. */
  lemma CancelledReservesNothing(mode: Mode, s: State, tooLate: bool, es: seq<Event>, fs: seq<Event>)
    requires s.holder == Nobody && forall e :: e in es ==> e.Tick? || e.Block?
    ensures var a, b := RunFrom(mode, s, [Enter(tooLate)] + es + [Cancel] + fs), RunFrom(mode, s, es + fs);
      SamePace(a, b) && a.holder == b.holder
  {
    var entered := Step(mode, s, Enter(tooLate));
    RunOne(mode, s, Enter(tooLate));
    RunAppends(mode, s, [Enter(tooLate)], es);
    RunAppends(mode, s, [Enter(tooLate)] + es, [Cancel]);
    RunOne(mode, RunFrom(mode, entered, es), Cancel);
    RunAppends(mode, s, [Enter(tooLate)] + es + [Cancel], fs);
    RunAppends(mode, s, es, fs);
    EnteringKeepsPace(mode, s, tooLate);
    PassingKeepsPace(mode, entered, s, es);
    RunsKeepPace(mode, Step(mode, RunFrom(mode, entered, es), Cancel), RunFrom(mode, s, es), fs);
  }

  lemma {:induction false} PruneTwice(starts: seq<int>, now: int, later: int)
    requires now <= later
    ensures Pruned(Pruned(starts, now), later) == Pruned(starts, later)
  {
    if starts != [] && starts[0] + WINDOW <= now { PruneTwice(starts[1..], now, later); }
  }

  // ---------------------------------------------------------------- the provider object

  class LocalFirecrawl {
    const mode: Mode
    var nextStart: int
    var blockedUntil: int
    var rollingStarts: seq<int>
    var disabled: bool

    constructor (mode: Mode)
      ensures View() == Fresh.pacer && this.mode == mode
    {
      this.mode := mode;
      nextStart, blockedUntil, rollingStarts, disabled := 0, 0, [], false;
    }

    ghost function View(): Pacer
      reads this
    {
      Pacer(nextStart, blockedUntil, rollingStarts, disabled)
    }

    method PruneRollingStarts(now: int)
      modifies this`rollingStarts
      ensures rollingStarts == Pruned(old(rollingStarts), now)
    {
      while |rollingStarts| > 0 && rollingStarts[0] + WINDOW <= now
        invariant Pruned(rollingStarts, now) == Pruned(old(rollingStarts), now)
        decreases |rollingStarts|
      {
        rollingStarts := rollingStarts[1..];
      }
    }

    // Admission up to the wait: the planned start, or a refusal.
    method Plan(now: int) returns (refused: bool, start: int)
      modifies this`rollingStarts
      ensures refused <==> old(Refuses(View(), now))
      ensures refused ==> View() == old(View())
      ensures !refused ==> (View(), start) == Planned(mode, old(View()), now)
    {
      if disabled || now < blockedUntil {
        return true, now;
      }
      start := Max(nextStart, now);
      if mode == Rolling {
        PruneRollingStarts(now);
        start := now;
        if |rollingStarts| >= WINDOW_LIMIT {
          start := rollingStarts[0] + WINDOW;
        }
      }
      refused := false;
    }

    // The second critical section: a block or a disabled provider still refuses; otherwise the start is entered in the pacing.
    method Reserve(start: int, now: int, later: int) returns (admitted: bool)
      modifies this`rollingStarts, this`nextStart
      ensures old(Refuses(View(), now)) ==> !admitted && View() == old(View())
      ensures !old(Refuses(View(), now)) ==> (View(), admitted) == Reserved(mode, old(View()), start, now, later)
    {
      if disabled || now < blockedUntil {
        return false;
      }
      if mode == Rolling {
        PruneRollingStarts(now);
        if |rollingStarts| >= WINDOW_LIMIT {
          return false;
        }
        rollingStarts := rollingStarts + [later];
      } else {
        nextStart := Max(start, later) + START_INTERVAL;
      }
      admitted := true;
    }

    method Block(status: int, retry: RetryAfter, now: int)
      modifies this`disabled, this`blockedUntil
      ensures View() == Blocked(old(View()), status, retry, now)
    {
      if status == 401 || status == 402 || status == 403 {
        disabled := true;
      } else if status == 429 {
        blockedUntil := now + 60000;
        if retry.Seconds? {
          blockedUntil := now + 1000 * retry.count;
        } else if retry.Date? && retry.at > now {
          blockedUntil := retry.at;
        }
      }
    }
  }
}
