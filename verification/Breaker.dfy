/** The three-state circuit breaker.
  *
  * `CircuitBreaker` is the object the source updates in place; `Status` is its state as a
  * value and `Step` what each report does to it, so that whole runs of interleaved callers,
  * late reports, time and fault injection can be reasoned about.
  */
module Breaker {
  import opened Wrappers

  datatype State = Closed | Open | HalfOpen

  datatype Config = Config(failureThreshold: int, successThreshold: int, openDuration: real, halfOpenMax: int) {
    predicate Sane() { failureThreshold >= 1 && successThreshold >= 1 && halfOpenMax >= 1 }
  }

  /** The fields of one breaker. */
  datatype Status = Status(
    state: State, failures: int, successes: int, inFlight: int, openedAt: Option<real>,
    totalCalls: int, totalFailures: int)

  const FRESH := Status(Closed, 0, 0, 0, None, 0, 0)

  /** What the breaker is at `now`: an open one counts as half-open once its window has passed. */
  function StateAt(c: Config, s: Status, now: real): State {
    if s.state == Open && s.openedAt.Some? && now - s.openedAt.value >= c.openDuration then HalfOpen
    else s.state
  }

  function RetryAfter(c: Config, s: Status, now: real): real {
    if s.state != Open || s.openedAt.None? then 0.0
    else
      var left := c.openDuration - (now - s.openedAt.value);
      if left < 0.0 then 0.0 else left
  }

  /** Becoming half-open clears the slots taken and the successes seen. */
  function EnterHalfOpen(s: Status): Status {
    if s.state == HalfOpen then s else s.(state := HalfOpen, inFlight := 0, successes := 0)
  }

  predicate Admits(c: Config, s: Status, now: real) {
    match StateAt(c, s, now)
    case Closed => true
    case Open => false
    case HalfOpen => EnterHalfOpen(s).inFlight < c.halfOpenMax
  }

  function BeforeCallStep(c: Config, s: Status, now: real): Status {
    match StateAt(c, s, now)
    case Closed => s.(totalCalls := s.totalCalls + 1)
    case Open => s
    case HalfOpen =>
      var h := EnterHalfOpen(s);
      if h.inFlight >= c.halfOpenMax then h
      else h.(inFlight := h.inFlight + 1, totalCalls := h.totalCalls + 1)
  }

  function SuccessStep(c: Config, s: Status): Status {
    var t := s.(failures := 0);
    if s.state != HalfOpen then t
    else
      var u := t.(inFlight := if s.inFlight > 0 then s.inFlight - 1 else 0, successes := s.successes + 1);
      if u.successes >= c.successThreshold then u.(state := Closed, openedAt := None, successes := 0) else u
  }

  function FailureStep(c: Config, s: Status, now: real): Status {
    var t := s.(totalFailures := s.totalFailures + 1, successes := 0);
    if s.state == HalfOpen then t.(inFlight := 0, state := Open, openedAt := Some(now))
    else
      var u := t.(failures := s.failures + 1);
      if u.failures >= c.failureThreshold then u.(state := Open, openedAt := Some(now)) else u
  }

  function ForceOpenStep(s: Status, now: real): Status { s.(state := Open, openedAt := Some(now)) }

  function ResetStep(s: Status): Status {
    s.(state := Closed, failures := 0, successes := 0, inFlight := 0, openedAt := None)
  }

  class CircuitBreaker {
    const config: Config
    var state: State
    var failures: int
    var successes: int
    var inFlight: int
    var openedAt: Option<real>
    var totalCalls: int
    var totalFailures: int

    function Now(): Status
      reads this
    {
      Status(state, failures, successes, inFlight, openedAt, totalCalls, totalFailures)
    }

    constructor (config: Config)
      ensures this.config == config && Now() == FRESH
    {
      this.config := config;
      state, failures, successes, inFlight := Closed, 0, 0, 0;
      openedAt, totalCalls, totalFailures := None, 0, 0;
    }

    /** Ask to make a call; a refusal advertises `retryAfter`. */
    method BeforeCall(now: real) returns (admitted: bool, retryAfter: real)
      modifies this
      ensures !admitted ==> retryAfter == RetryAfter(config, Now(), now)
      ensures admitted == Admits(config, old(Now()), now)
      ensures Now() == BeforeCallStep(config, old(Now()), now)
    {
      var current := StateAt(config, Now(), now);
      if current == Open { return false, RetryAfter(config, Now(), now); }
      if current == HalfOpen {
        if state != HalfOpen {
          state, inFlight, successes := HalfOpen, 0, 0;
        }
        if inFlight >= config.halfOpenMax { return false, RetryAfter(config, Now(), now); }
        inFlight := inFlight + 1;
      }
      totalCalls := totalCalls + 1;
      return true, 0.0;
    }

    method OnSuccess()
      modifies this
      ensures Now() == SuccessStep(config, old(Now()))
    {
      failures := 0;
      if state == HalfOpen {
        inFlight := if inFlight > 0 then inFlight - 1 else 0;
        successes := successes + 1;
        if successes >= config.successThreshold {
          state, openedAt, successes := Closed, None, 0;
        }
      }
    }

    method OnFailure(now: real)
      modifies this
      ensures Now() == FailureStep(config, old(Now()), now)
      ensures old(state) == Closed ==>
                failures == old(failures) + 1 && (state == Closed <==> failures < config.failureThreshold)
    {
      totalFailures := totalFailures + 1;
      successes := 0;
      if state == HalfOpen {
        inFlight, state, openedAt := 0, Open, Some(now);
        return;
      }
      failures := failures + 1;
      if failures >= config.failureThreshold {
        state, openedAt := Open, Some(now);
      }
    }

    method ForceOpen(now: real)
      modifies this
      ensures Now() == ForceOpenStep(old(Now()), now)
    {
      state, openedAt := Open, Some(now);
    }

    method Reset()
      modifies this
      ensures Now() == ResetStep(old(Now()))
    {
      state, failures, successes, inFlight, openedAt := Closed, 0, 0, 0, None;
    }
  }

  // ------------------------------------------------------------------
  // Runs: any interleaving of callers, late reports, time and fault injection
  // ------------------------------------------------------------------

  /** What reaches a breaker, with the clock reading it was handled at. A report need not
    * belong to the latest admission: callers and late reports interleave freely. */
  datatype Event = Ask(at: real) | Succeeded(at: real) | Failed(at: real) | Forced(at: real) | WasReset(at: real)

  function Step(c: Config, s: Status, e: Event): Status {
    match e
    case Ask(now) => BeforeCallStep(c, s, now)
    case Succeeded(_) => SuccessStep(c, s)
    case Failed(now) => FailureStep(c, s, now)
    case Forced(now) => ForceOpenStep(s, now)
    case WasReset(_) => ResetStep(s)
  }

  function Run(c: Config, s: Status, es: seq<Event>): Status {
    if es == [] then s else Step(c, Run(c, s, es[..|es| - 1]), es[|es| - 1])
  }

  predicate ClockNonDecreasing(es: seq<Event>) {
    forall i, j :: 0 <= i < j < |es| ==> es[i].at <= es[j].at
  }

  predicate Invariant(c: Config, s: Status) {
    && (s.state == Closed <==> s.openedAt == None)
    && (s.state == Closed ==> 0 <= s.failures < c.failureThreshold)
    && (s.state == HalfOpen ==> 0 <= s.successes < c.successThreshold)
    && s.failures >= 0 && s.successes >= 0
    && 0 <= s.inFlight <= c.halfOpenMax
  }

  /** Every event keeps the invariant, whoever sends it and whenever. */
  lemma StepKeepsInvariant(c: Config, s: Status, e: Event)
    requires c.Sane() && Invariant(c, s)
    ensures Invariant(c, Step(c, s, e))
  {
  }

  lemma {:induction false} RunKeepsInvariant(c: Config, es: seq<Event>)
    requires c.Sane()
    ensures Invariant(c, Run(c, FRESH, es))
  {
    if es == [] {
    } else {
      RunKeepsInvariant(c, es[..|es| - 1]);
      StepKeepsInvariant(c, Run(c, FRESH, es[..|es| - 1]), es[|es| - 1]);
    }
  }

  // ------------------------------------------------------------------
  // When a closed breaker opens
  // ------------------------------------------------------------------

  /** Failure reports since the last success report or reset, read off the events alone. */
  function FailuresSince(es: seq<Event>): nat {
    if es == [] then 0
    else
      match es[|es| - 1]
      case Succeeded(_) => 0
      case WasReset(_) => 0
      case Failed(_) => FailuresSince(es[..|es| - 1]) + 1
      case Ask(_) => FailuresSince(es[..|es| - 1])
      case Forced(_) => FailuresSince(es[..|es| - 1])
  }

  /** In every run a closed breaker has counted exactly those. */
  lemma {:induction false} ClosedCountsFailures(c: Config, es: seq<Event>)
    requires c.Sane()
    ensures Run(c, FRESH, es).state == Closed ==> Run(c, FRESH, es).failures == FailuresSince(es)
  {
    if es == [] {
    } else {
      ClosedCountsFailures(c, es[..|es| - 1]);
      RunKeepsInvariant(c, es[..|es| - 1]);
    }
  }

  /** What ends CLOSED, over every run: fault injection, or a failure report that is at least the
    * threshold-th since the last success or reset, and nothing else. */
  lemma ClosedOpensIff(c: Config, es: seq<Event>, e: Event)
    requires c.Sane() && Run(c, FRESH, es).state == Closed
    ensures Run(c, FRESH, es + [e]).state == Closed
            <==> !e.Forced? && (e.Failed? ==> FailuresSince(es + [e]) < c.failureThreshold)
    ensures Run(c, FRESH, es + [e]).state == Open
            <==> e.Forced? || (e.Failed? && FailuresSince(es + [e]) >= c.failureThreshold)
    ensures e.Ask? ==> Admits(c, Run(c, FRESH, es), e.at)
  {
    assert (es + [e])[..|es|] == es;
    ClosedCountsFailures(c, es);
  }

  /** Closed at the end of the run and after every part of it. */
  predicate ClosedThroughout(c: Config, es: seq<Event>) {
    Run(c, FRESH, es).state == Closed && (es != [] ==> ClosedThroughout(c, es[..|es| - 1]))
  }

  /** At no point of the run have that many failures come without a success or a reset among them. */
  predicate NeverReaches(threshold: int, es: seq<Event>) {
    FailuresSince(es) < threshold && (es != [] ==> NeverReaches(threshold, es[..|es| - 1]))
  }

  /** Without fault injection a breaker stays closed from its start, admitting every ask, exactly as long as
    * no `failureThreshold` failures arrive without a success or a reset among them. */
  lemma {:induction false} ClosedThroughoutIff(c: Config, es: seq<Event>)
    requires c.Sane() && forall e :: e in es ==> !e.Forced?
    ensures ClosedThroughout(c, es) <==> NeverReaches(c.failureThreshold, es)
    ensures ClosedThroughout(c, es) ==> forall now :: Admits(c, Run(c, FRESH, es), now)
  {
    if es == [] {
    } else {
      hide Run, FailuresSince, Invariant;
      var k := |es| - 1;
      assert es[k] in es && es[..k] + [es[k]] == es;
      ClosedThroughoutIff(c, es[..k]);
      RunKeepsInvariant(c, es);
      if ClosedThroughout(c, es[..k]) {
        ClosedOpensIff(c, es[..k], es[k]);
        if !es[k].Failed? { OnlyFailuresCount(es); }
      }
    }
  }

  lemma OnlyFailuresCount(es: seq<Event>)
    requires es != [] && !es[|es| - 1].Failed?
    ensures FailuresSince(es) <= FailuresSince(es[..|es| - 1])
  {
  }

  /** The breaker is open and will stay shut until `until`. */
  predicate ShutUntil(c: Config, s: Status, until: real) {
    s.state == Open && s.openedAt.Some? && s.openedAt.value + c.openDuration >= until
  }

  /** No admission before the window has elapsed: from a breaker opened at t, through any events
    * but a reset, every ask before t + openDuration is refused. */
  lemma {:induction false} NoAdmissionBeforeWindow(c: Config, s: Status, es: seq<Event>, since: real)
    requires c.Sane() && s.state == Open && s.openedAt == Some(since)
    requires forall e :: e in es ==> since <= e.at < since + c.openDuration && !e.WasReset?
    ensures ShutUntil(c, Run(c, s, es), since + c.openDuration)
    ensures forall now :: now < since + c.openDuration ==> !Admits(c, Run(c, s, es), now)
  {
    if es == [] {
    } else {
      var k := |es| - 1;
      assert forall e :: e in es[..k] ==> e in es;
      NoAdmissionBeforeWindow(c, s, es[..k], since);
      assert es[k] in es;
    }
  }

  lemma {:induction false} RunAppend(c: Config, s: Status, first: seq<Event>, rest: seq<Event>)
    ensures Run(c, s, first + rest) == Run(c, Run(c, s, first), rest)
  {
    if rest == [] {
      assert first + rest == first;
    } else {
      var k := |rest| - 1;
      assert (first + rest)[..|first| + k] == first + rest[..k];
      RunAppend(c, s, first, rest[..k]);
    }
  }

  /** Window safety over every run: a call admitted at event j comes no earlier than the full open
    * window after any opening at event i, unless a reset stands between them. */
  lemma AdmissionWaitsOutWindow(c: Config, es: seq<Event>, i: nat, j: nat)
    requires c.Sane() && ClockNonDecreasing(es) && i < j < |es|
    requires Run(c, FRESH, es[..i + 1]).state == Open && Run(c, FRESH, es[..i + 1]).openedAt == Some(es[i].at)
    requires es[j].Ask? && Admits(c, Run(c, FRESH, es[..j]), es[j].at)
    requires forall k :: i < k < j ==> !es[k].WasReset?
    ensures es[j].at >= es[i].at + c.openDuration
  {
    var segment := es[i + 1..j];
    assert es[..j] == es[..i + 1] + segment;
    RunAppend(c, FRESH, es[..i + 1], segment);
    if es[j].at < es[i].at + c.openDuration {
      forall e | e in segment
        ensures es[i].at <= e.at < es[i].at + c.openDuration && !e.WasReset?
      {
        var k :| 0 <= k < |segment| && e == segment[k];
        assert e == es[i + 1 + k];
      }
      NoAdmissionBeforeWindow(c, Run(c, FRESH, es[..i + 1]), segment, es[i].at);
    }
  }

  /** Openings: the steps that leave a breaker open with the window starting now. */
  lemma OpeningStartsWindow(c: Config, s: Status, e: Event)
    requires c.Sane() && Invariant(c, s)
    requires Step(c, s, e).state == Open && (s.state != Open || e.Forced?)
    ensures Step(c, s, e).openedAt == Some(e.at)
    ensures e.Failed? || e.Forced?
  {
  }

  /** Any failure report in half-open restarts the full window. */
  lemma HalfOpenFailureReopens(c: Config, s: Status, now: real)
    requires s.state == HalfOpen
    ensures FailureStep(c, s, now).state == Open && FailureStep(c, s, now).openedAt == Some(now)
    ensures RetryAfter(c, FailureStep(c, s, now), now) == if c.openDuration < 0.0 then 0.0 else c.openDuration
    ensures forall later :: later < now + c.openDuration ==> !Admits(c, FailureStep(c, s, now), later)
  {
  }

  /** The advertised delay is exact: from now on the breaker admits exactly once it is up. */
  ghost predicate DelayExact(c: Config, s: Status, now: real) {
    forall later :: later >= now ==> (Admits(c, s, later) <==> later >= now + RetryAfter(c, s, now))
  }

  /** Half-open with its quota taken, a breaker refuses, advertises no delay, and goes on refusing. */
  lemma FullQuotaAdvertisesNothing(c: Config, s: Status, now: real, later: real)
    requires s.state == HalfOpen && s.inFlight == c.halfOpenMax
    ensures RetryAfter(c, s, now) == 0.0 && !Admits(c, s, now) && !Admits(c, s, later)
    ensures !DelayExact(c, s, now)
  {
    assert !Admits(c, s, now + RetryAfter(c, s, now));
  }

  /** For a refused call the advertised delay is exact if and only if the refusal left the breaker
    * open: a refusal by a full half-open quota advertises zero seconds and no time will do. */
  lemma RetryAfterExactIff(c: Config, s: Status, now: real)
    requires c.Sane() && Invariant(c, s) && !Admits(c, s, now)
    ensures DelayExact(c, s, now) <==> s.state == Open
    ensures s.state == HalfOpen ==> RetryAfter(c, s, now) == 0.0 && forall later :: !Admits(c, s, later)
  {
    if s.state != Open {
      assert s.state == HalfOpen;
      assert !Admits(c, s, now + RetryAfter(c, s, now));
    }
  }

  // ------------------------------------------------------------------
  // Recovery
  // ------------------------------------------------------------------

  /** Success reports received in half-open since the last event that was not one (asks aside). */
  function Streak(c: Config, s: Status, es: seq<Event>): nat {
    if es == [] then 0
    else
      var k := |es| - 1;
      var before := Run(c, s, es[..k]);
      match es[k]
      case Succeeded(_) => if before.state == HalfOpen then Streak(c, s, es[..k]) + 1 else 0
      case Ask(now) => if before.state == HalfOpen then Streak(c, s, es[..k]) else 0
      case Failed(_) => 0
      case Forced(_) => 0
      case WasReset(_) => 0
  }

  /** While half-open, the success counter is the streak. */
  lemma {:induction false} StreakIsCounter(c: Config, s: Status, es: seq<Event>)
    requires c.Sane() && Invariant(c, s) && s.state == Open
    ensures Invariant(c, Run(c, s, es))
    ensures Run(c, s, es).state == HalfOpen ==> Run(c, s, es).successes == Streak(c, s, es)
  {
    if es == [] {
    } else {
      var k := |es| - 1;
      StreakIsCounter(c, s, es[..k]);
      StepKeepsInvariant(c, Run(c, s, es[..k]), es[k]);
    }
  }

  /** A success report closes a half-open breaker exactly when it completes a streak of `successThreshold`,
    * and leaves it half-open otherwise. */
  lemma HalfOpenClosesIff(c: Config, s: Status, es: seq<Event>)
    requires c.Sane() && Invariant(c, s) && s.state == Open && Run(c, s, es).state == HalfOpen
    ensures var after := SuccessStep(c, Run(c, s, es));
            && (after.state == Closed <==> Streak(c, s, es) + 1 >= c.successThreshold)
            && (after.state == HalfOpen <==> Streak(c, s, es) + 1 < c.successThreshold)
  {
    StreakIsCounter(c, s, es);
  }

  /** A stretch es[from..to] of the run with no failure report in which at least `n` success
    * reports arrive while the breaker is half-open. */
  ghost predicate Recovers(c: Config, s: Status, es: seq<Event>, from: nat, to: nat, n: int) {
    && from <= to <= |es|
    && (forall i :: from <= i < to ==> !es[i].Failed? && !es[i].WasReset? && !es[i].Forced?)
    && HalfOpenSuccesses(c, s, es, from, to) >= n
  }

  function HalfOpenSuccesses(c: Config, s: Status, es: seq<Event>, from: nat, to: nat): nat
    requires from <= to <= |es|
  {
    if from == to then 0
    else HalfOpenSuccesses(c, s, es, from, to - 1)
         + if es[to - 1].Succeeded? && Run(c, s, es[..to - 1]).state == HalfOpen then 1 else 0
  }

  /** The streak is witnessed by a clean stretch ending at the end of the run. */
  lemma {:induction false} StreakWitness(c: Config, s: Status, es: seq<Event>) returns (from: nat)
    ensures Recovers(c, s, es, from, |es|, Streak(c, s, es))
  {
    from := |es|;
    if es == [] {
    } else {
      var k := |es| - 1;
      var before := Run(c, s, es[..k]);
      if Streak(c, s, es) > 0 {
        from := StreakWitness(c, s, es[..k]);
        PrefixSuccesses(c, s, es, from, k);
      }
    }
  }

  lemma {:induction false} PrefixSuccesses(c: Config, s: Status, es: seq<Event>, from: nat, to: nat)
    requires es != [] && from <= to <= |es| - 1
    ensures HalfOpenSuccesses(c, s, es[..|es| - 1], from, to) == HalfOpenSuccesses(c, s, es, from, to)
  {
    if from == to {
    } else {
      PrefixSuccesses(c, s, es, from, to - 1);
      assert es[..|es| - 1][..to - 1] == es[..to - 1];
    }
  }

  /** Recovery: any run from open to closed contains a reset, or a stretch with no failure report
    * in which at least `successThreshold` success reports arrived while half-open. */
  lemma {:induction false} RecoveryNeedsSuccesses(c: Config, s: Status, es: seq<Event>)
    requires c.Sane() && Invariant(c, s) && s.state == Open
    requires Run(c, s, es).state == Closed
    ensures (exists i :: 0 <= i < |es| && es[i].WasReset?)
            || (exists from, to :: Recovers(c, s, es, from, to, c.successThreshold))
  {
    if es == [] {
    } else {
      var k := |es| - 1;
      var before := Run(c, s, es[..k]);
      StreakIsCounter(c, s, es[..k]);
      if es[k].WasReset? {
      } else if before.state == Closed {
        RecoveryNeedsSuccesses(c, s, es[..k]);
        if i :| 0 <= i < k && es[..k][i].WasReset? {
          assert es[i].WasReset?;
        } else {
          var from, to :| Recovers(c, s, es[..k], from, to, c.successThreshold);
          PrefixSuccesses(c, s, es, from, to);
          assert forall i :: from <= i < to ==> es[i] == es[..k][i];
          assert Recovers(c, s, es, from, to, c.successThreshold);
        }
      } else {
        var from := StreakWitness(c, s, es);
        assert Recovers(c, s, es, from, |es|, c.successThreshold);
      }
    }
  }

  // ------------------------------------------------------------------
  // A call that never reports
  // ------------------------------------------------------------------

  /** A cancelled probe leaks its slot: with the half-open quota used up and nothing left to
    * report, every later ask is refused for ever. */
  lemma {:induction false} LeakedSlotsWedge(c: Config, s: Status, es: seq<Event>, now: real)
    requires s.state == HalfOpen && s.inFlight >= c.halfOpenMax
    requires forall e :: e in es ==> e.Ask?
    ensures Run(c, s, es) == s && !Admits(c, Run(c, s, es), now)
  {
    if es == [] {
    } else {
      assert forall e :: e in es[..|es| - 1] ==> e in es;
      assert es[|es| - 1] in es;
      LeakedSlotsWedge(c, s, es[..|es| - 1], now);
    }
  }

  ghost predicate OnlyAsks(es: seq<Event>) { forall e :: e in es ==> e.Ask? }

  /** Asking alone, however often and however late, is never admitted again. */
  ghost predicate Wedged(c: Config, s: Status) {
    forall es: seq<Event>, now: real :: OnlyAsks(es) ==> !Admits(c, Run(c, s, es), now)
  }

  /** A moment at which a breaker that is not half-open with a full quota admits. */
  function AdmissionTime(c: Config, s: Status): real {
    if s.state == Open && s.openedAt.Some? then s.openedAt.value + c.openDuration else 0.0
  }

  /** Exactly when a breaker is wedged: half-open with every slot taken. */
  lemma WedgedIff(c: Config, s: Status)
    requires c.Sane() && Invariant(c, s)
    ensures Wedged(c, s) <==> s.state == HalfOpen && s.inFlight == c.halfOpenMax
  {
    hide OnlyAsks;
    if s.state == HalfOpen && s.inFlight == c.halfOpenMax {
      forall es: seq<Event>, now: real | OnlyAsks(es) ensures !Admits(c, Run(c, s, es), now) {
        AsksAreAsks(es);
        LeakedSlotsWedge(c, s, es, now);
      }
    } else {
      AsksAreAsks([]);
      assert Run(c, s, []) == s && Admits(c, Run(c, s, []), AdmissionTime(c, s));
    }
  }

  lemma AsksAreAsks(es: seq<Event>)
    ensures OnlyAsks(es) <==> forall e :: e in es ==> e.Ask?
  {
  }

  /** Any report, late or not, any fault injection and any reset ends the wedge. */
  lemma AnythingElseUnwedges(c: Config, s: Status, e: Event)
    requires c.Sane() && Invariant(c, s) && Wedged(c, s) && !e.Ask?
    ensures !Wedged(c, Step(c, s, e))
  {
    hide Wedged;
    WedgedIff(c, s);
    StepKeepsInvariant(c, s, e);
    WedgedIff(c, Step(c, s, e));
  }

  /** A call admitted and then cancelled, so that it never reports, wedges the breaker exactly when it
    * was a half-open probe and took the last slot. */
  lemma CancelledProbeWedgesIff(c: Config, s: Status, asked: real)
    requires c.Sane() && Invariant(c, s) && Admits(c, s, asked)
    ensures Wedged(c, BeforeCallStep(c, s, asked))
            <==> StateAt(c, s, asked) == HalfOpen && EnterHalfOpen(s).inFlight + 1 == c.halfOpenMax
  {
    hide Wedged;
    StepKeepsInvariant(c, s, Ask(asked));
    WedgedIff(c, BeforeCallStep(c, s, asked));
  }

  /** Half-open slots taken; other states hold none. */
  function Slots(s: Status): int { if s.state == HalfOpen then s.inFlight else 0 }

  /** A call admitted and then settled takes no slot away: success or failure gives it back. */
  lemma SettledCallKeepsSlots(c: Config, s: Status, asked: real, reported: real)
    requires c.Sane() && Invariant(c, s) && Admits(c, s, asked)
    ensures Slots(SuccessStep(c, BeforeCallStep(c, s, asked))) <= Slots(s)
    ensures Slots(FailureStep(c, BeforeCallStep(c, s, asked), reported)) <= Slots(s)
  {
  }

  lemma RefusedCallKeepsSlots(c: Config, s: Status, asked: real)
    requires c.Sane() && Invariant(c, s) && !Admits(c, s, asked)
    ensures Slots(BeforeCallStep(c, s, asked)) == Slots(s)
  {
  }
}
