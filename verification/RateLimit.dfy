/** The sliding-window rate limiter.
  *
  * Three levels: the object (`SlidingWindowLimiter`, loops over deques), its steps on values
  * (`CheckStep`, `PruneStep`) and the naive rule they refine: remember every allowed request
  * for ever and count those inside the last window.
  */
module RateLimit {
  import opened Reals

  type Hits = map<string, seq<real>>

  /** `retryAfter`: seconds until there is room again. `resetIn`: seconds until the oldest hit
    * leaves the window (the source's comment promises the time to an empty window). */
  datatype Decision = Decision(allowed: bool, limit: int, remaining: int, retryAfter: int, resetIn: int)

  /** With a limit of zero or less and no live hit the code indexes an empty deque. */
  datatype Outcome = Decided(decision: Decision) | IndexError

  function AtLeastOne(n: int): int { if n < 1 then 1 else n }

  function HitsOf(h: Hits, key: string): seq<real> { if key in h then h[key] else [] }

  /** Pop from the left while the oldest hit is at or before the cutoff. */
  function Live(hits: seq<real>, cutoff: real): seq<real> {
    if hits != [] && hits[0] <= cutoff then Live(hits[1..], cutoff) else hits
  }

  function Decide(live: seq<real>, limit: int, now: real, window: real): Outcome {
    if |live| >= limit then
      if live == [] then IndexError
      else
        var wait := AtLeastOne(Ceil(window - (now - live[0])));
        Decided(Decision(false, limit, 0, wait, wait))
    else
      var kept := live + [now];
      Decided(Decision(true, limit, limit - |kept|, 0, AtLeastOne(Ceil(window - (now - kept[0])))))
  }

  predicate Allows(o: Outcome) { o.Decided? && o.decision.allowed }

  function CheckStep(h: Hits, window: real, key: string, limit: int, now: real): (Hits, Outcome) {
    var live := Live(HitsOf(h, key), now - window);
    var o := Decide(live, limit, now, window);
    (h[key := if Allows(o) then live + [now] else live], o)
  }

  predicate Idle(hits: seq<real>, cutoff: real) { hits == [] || hits[|hits| - 1] <= cutoff }

  function PruneStep(h: Hits, window: real, now: real): Hits {
    map k | k in h && !Idle(h[k], now - window) :: h[k]
  }

  class SlidingWindowLimiter {
    const window: real
    var hits: Hits

    constructor (window: real)
      ensures this.window == window && hits == map[]
    {
      this.window := window;
      hits := map[];
    }

    method Check(key: string, limit: int, now: real) returns (o: Outcome)
      modifies this
      ensures (hits, o) == CheckStep(old(hits), window, key, limit, now)
    {
      var queue := HitsOf(hits, key);
      var cutoff := now - window;
      while queue != [] && queue[0] <= cutoff
        invariant Live(queue, cutoff) == Live(HitsOf(old(hits), key), cutoff)
        decreases |queue|
      {
        queue := queue[1..];
      }
      hits := hits[key := queue];
      if |queue| >= limit {
        if queue == [] { return IndexError; }
        var oldest := queue[0];
        var retryAfter := AtLeastOne(Ceil(window - (now - oldest)));
        return Decided(Decision(false, limit, 0, retryAfter, AtLeastOne(Ceil(window - (now - queue[0])))));
      }
      queue := queue + [now];
      hits := hits[key := queue];
      assert hits == old(hits)[key := queue];
      var resetIn := AtLeastOne(Ceil(window - (now - queue[0])));
      return Decided(Decision(true, limit, limit - |queue|, 0, resetIn));
    }

    method Prune(now: real)
      modifies this
      ensures hits == PruneStep(old(hits), window, now)
    {
      var cutoff := now - window;
      hits := map k | k in hits && !(hits[k] == [] || hits[k][|hits[k]| - 1] <= cutoff) :: hits[k];
    }
  }

  // ------------------------------------------------------------------
  // The naive rule
  // ------------------------------------------------------------------

  /** Every remembered time after the cutoff, whatever the order. */
  function Recent(history: seq<real>, cutoff: real): seq<real> {
    if history == [] then []
    else
      var k := |history| - 1;
      Recent(history[..k], cutoff) + if history[k] > cutoff then [history[k]] else []
  }

  function NaiveOutcome(history: seq<real>, window: real, limit: int, now: real): Outcome {
    Decide(Recent(history, now - window), limit, now, window)
  }

  datatype Event = Check(key: string, limit: int, at: real) | Prune(at: real)

  /** Everything ever allowed for one key, by the naive rule. Prunes and other keys play no part. */
  function History(window: real, es: seq<Event>, key: string): seq<real> {
    if es == [] then []
    else
      var before := History(window, es[..|es| - 1], key);
      var e := es[|es| - 1];
      if e.Check? && e.key == key && Allows(NaiveOutcome(before, window, e.limit, e.at)) then before + [e.at]
      else before
  }

  // ------------------------------------------------------------------
  // Runs of the limiter
  // ------------------------------------------------------------------

  function StepHits(h: Hits, window: real, e: Event): Hits {
    match e
    case Check(key, limit, at) => CheckStep(h, window, key, limit, at).0
    case Prune(at) => PruneStep(h, window, at)
  }

  function Run(window: real, es: seq<Event>): Hits {
    if es == [] then map[] else StepHits(Run(window, es[..|es| - 1]), window, es[|es| - 1])
  }

  /** The decision for the check at position i of a run. */
  function OutcomeAt(window: real, es: seq<Event>, i: nat): Outcome
    requires i < |es| && es[i].Check?
  {
    CheckStep(Run(window, es[..i]), window, es[i].key, es[i].limit, es[i].at).1
  }

  predicate Clocked(es: seq<Event>) {
    forall i, j :: 0 <= i < j < |es| ==> es[i].at <= es[j].at
  }

  predicate Ascending(s: seq<real>) {
    forall i, j :: 0 <= i < j < |s| ==> s[i] <= s[j]
  }

  /** The deque is the tail of the history, and what it dropped has left the window. */
  predicate Tracks(hits: seq<real>, history: seq<real>, cutoff: real) {
    && |hits| <= |history|
    && hits == history[|history| - |hits|..]
    && forall i :: 0 <= i < |history| - |hits| ==> history[i] <= cutoff
  }

  lemma {:induction false} LiveIsRecent(hits: seq<real>, history: seq<real>, was: real, cutoff: real)
    requires Tracks(hits, history, was) && Ascending(history) && was <= cutoff
    ensures Tracks(Live(hits, cutoff), history, cutoff)
    ensures Live(hits, cutoff) == Recent(history, cutoff)
    decreases |hits|
  {
    var n := |history| - |hits|;
    if hits != [] && hits[0] <= cutoff {
      assert history[n] == hits[0];
      assert hits[1..] == history[n + 1..];
      LiveIsRecent(hits[1..], history, cutoff, cutoff);
    } else {
      forall i | n <= i < |history| ensures history[i] > cutoff { assert history[i] == hits[i - n]; }
      RecentIsTail(history, n, cutoff);
    }
  }

  lemma {:induction false} RecentIsTail(history: seq<real>, n: nat, cutoff: real)
    requires n <= |history|
    requires forall i :: 0 <= i < n ==> history[i] <= cutoff
    requires forall i :: n <= i < |history| ==> history[i] > cutoff
    ensures Recent(history, cutoff) == history[n..]
  {
    if history == [] {
    } else {
      var k := |history| - 1;
      if n <= k {
        RecentIsTail(history[..k], n, cutoff);
        assert history[n..] == history[..k][n..] + [history[k]];
      } else {
        RecentIsTail(history[..k], k, cutoff);
      }
    }
  }

  /** The simulation: after any clocked run each deque tracks its key's naive history. */
  ghost predicate Simulates(h: Hits, window: real, es: seq<Event>, key: string, now: real) {
    && Tracks(HitsOf(h, key), History(window, es, key), now - window)
    && Ascending(History(window, es, key))
    && forall t :: t in History(window, es, key) ==> t <= now
  }

  lemma {:induction false} RunSimulates(window: real, es: seq<Event>, key: string, now: real)
    requires Clocked(es) && (es != [] ==> es[|es| - 1].at <= now)
    ensures Simulates(Run(window, es), window, es, key, now)
  {
    if es == [] {
      assert HitsOf(map[], key) == [];
    } else {
      hide Clocked, StepHits, Simulates;
      var k := |es| - 1;
      ClockedPrefix(es);
      RunSimulates(window, es[..k], key, es[k].at);
      StepSimulates(Run(window, es[..k]), window, es, key, now);
    }
  }

  lemma StepSimulates(h: Hits, window: real, es: seq<Event>, key: string, now: real)
    requires es != [] && Simulates(h, window, es[..|es| - 1], key, es[|es| - 1].at) && es[|es| - 1].at <= now
    ensures Simulates(StepHits(h, window, es[|es| - 1]), window, es, key, now)
  {
    hide Tracks, Ascending, Live, Recent, Idle, Decide, StepHits;
    var e, history := es[|es| - 1], History(window, es[..|es| - 1], key);
    StepHitsOf(h, window, e, key);
    TracksLonger(HitsOf(h, key), history, e.at - window, now - window);
    if e.Check? && e.key == key {
      CheckTracks(HitsOf(h, key), history, window, e.at, now);
    } else if e.Prune? && Idle(HitsOf(h, key), e.at - window) {
      IdleLeaves(HitsOf(h, key), history, e.at - window);
      TracksLonger([], history, e.at - window, now - window);
    }
  }

  /** What one event does to one key's deque. */
  lemma StepHitsOf(h: Hits, window: real, e: Event, key: string)
    ensures HitsOf(StepHits(h, window, e), key) ==
      match e
      case Check(k, limit, at) =>
        if k != key then HitsOf(h, key)
        else
          var live := Live(HitsOf(h, key), at - window);
          if Allows(Decide(live, limit, at, window)) then live + [at] else live
      case Prune(at) => if Idle(HitsOf(h, key), at - window) then [] else HitsOf(h, key)
  {
    hide Live, Decide;
  }

  lemma ClockedPrefix(es: seq<Event>)
    requires Clocked(es) && es != []
    ensures Clocked(es[..|es| - 1])
    ensures forall i :: 0 <= i < |es| - 1 ==> es[i].at <= es[|es| - 1].at
  {
  }

  lemma TracksLonger(hits: seq<real>, history: seq<real>, was: real, cutoff: real)
    requires Tracks(hits, history, was) && was <= cutoff
    ensures Tracks(hits, history, cutoff)
  {
  }

  /** One check keeps the deque the tail of the history, recorded or not. */
  lemma CheckTracks(hits: seq<real>, history: seq<real>, window: real, at: real, now: real)
    requires Tracks(hits, history, at - window) && Ascending(history) && at <= now
    requires forall t :: t in history ==> t <= at
    ensures Live(hits, at - window) == Recent(history, at - window)
    ensures Tracks(Live(hits, at - window), history, now - window)
    ensures Tracks(Live(hits, at - window) + [at], history + [at], now - window)
    ensures Ascending(history + [at])
  {
    hide Live, Recent;
    LiveIsRecent(hits, history, at - window, at - window);
    var live := Live(hits, at - window);
    var n := |history| - |live|;
    assert (history + [at])[n..] == history[n..] + [at];
    forall i | 0 <= i < |history| ensures history[i] <= at { assert history[i] in history; }
  }

  /** A deque whose newest hit has left the window can be forgotten. */
  lemma IdleLeaves(hits: seq<real>, history: seq<real>, cutoff: real)
    requires Tracks(hits, history, cutoff) && Ascending(history) && Idle(hits, cutoff)
    ensures Tracks([], history, cutoff)
  {
    if hits != [] {
      assert history[|history| - 1] == hits[|hits| - 1];
      forall i | 0 <= i < |history| ensures history[i] <= cutoff {
        if i < |history| - 1 { assert history[i] <= history[|history| - 1]; }
      }
    }
  }

  /** Refinement: every decision is the naive one, over the full allowed history of that key. */
  lemma DecisionsAreNaive(window: real, es: seq<Event>, i: nat)
    requires Clocked(es) && i < |es| && es[i].Check?
    ensures OutcomeAt(window, es, i)
            == NaiveOutcome(History(window, es[..i], es[i].key), window, es[i].limit, es[i].at)
  {
    hide Run, History, Tracks, Ascending, Decide, Live, Recent;
    var e := es[i];
    RunSimulates(window, es[..i], e.key, e.at);
    CheckTracks(HitsOf(Run(window, es[..i]), e.key), History(window, es[..i], e.key), window, e.at, e.at);
  }

  /** A request is denied exactly when the naive count has reached the limit. */
  lemma DeniedIff(window: real, es: seq<Event>, i: nat)
    requires Clocked(es) && i < |es| && es[i].Check?
    ensures Allows(OutcomeAt(window, es, i))
            <==> |Recent(History(window, es[..i], es[i].key), es[i].at - window)| < es[i].limit
    ensures OutcomeAt(window, es, i) == IndexError
            <==> es[i].limit <= 0 && Recent(History(window, es[..i], es[i].key), es[i].at - window) == []
  {
    DecisionsAreNaive(window, es, i);
  }

  /** The run as one key sees it. */
  function OfKey(es: seq<Event>, key: string): seq<Event> {
    if es == [] then []
    else OfKey(es[..|es| - 1], key)
         + if es[|es| - 1].Check? && es[|es| - 1].key == key then [es[|es| - 1]] else []
  }

  /** Other keys and prunes never matter. */
  lemma {:induction false} OnlyOwnChecksMatter(window: real, es: seq<Event>, key: string)
    ensures History(window, es, key) == History(window, OfKey(es, key), key)
  {
    if es == [] {
    } else {
      var k := |es| - 1;
      OnlyOwnChecksMatter(window, es[..k], key);
      if es[k].Check? && es[k].key == key {
        assert (OfKey(es[..k], key) + [es[k]])[..|OfKey(es[..k], key)|] == OfKey(es[..k], key);
      } else {
        assert OfKey(es, key) == OfKey(es[..k], key);
      }
    }
  }

  lemma SameNextStep(window: real, xs: seq<Event>, ys: seq<Event>, e: Event, key: string)
    requires History(window, xs, key) == History(window, ys, key)
    ensures History(window, xs + [e], key) == History(window, ys + [e], key)
  {
    hide NaiveOutcome;
    assert (xs + [e])[..|xs|] == xs && (ys + [e])[..|ys|] == ys;
  }

  lemma PruneAddsNothing(window: real, es: seq<Event>, at: real, key: string)
    ensures History(window, es + [Event.Prune(at)], key) == History(window, es, key)
  {
    assert (es + [Event.Prune(at)])[..|es|] == es;
  }

  lemma {:induction false} HistoryAfterPrune(window: real, before: seq<Event>, at: real, after: seq<Event>, key: string)
    ensures History(window, before + [Event.Prune(at)] + after, key) == History(window, before + after, key)
  {
    hide History;
    var pruned := before + [Event.Prune(at)];
    if after == [] {
      assert pruned + after == pruned && before + after == before;
      PruneAddsNothing(window, before, at, key);
    } else {
      var k := |after| - 1;
      HistoryAfterPrune(window, before, at, after[..k], key);
      SameNextStep(window, pruned + after[..k], before + after[..k], after[k], key);
      assert pruned + after == pruned + after[..k] + [after[k]];
      assert before + after == before + after[..k] + [after[k]];
    }
  }

  /** Pruning is invisible: inserting a prune anywhere leaves every later decision as it was,
    * down to the remaining budget and the retry time. */
  lemma PruneInvisible(window: real, before: seq<Event>, at: real, after: seq<Event>, j: nat)
    requires Clocked(before + [Event.Prune(at)] + after) && j < |after| && after[j].Check?
    ensures Clocked(before + after)
    ensures OutcomeAt(window, before + [Event.Prune(at)] + after, |before| + 1 + j)
            == OutcomeAt(window, before + after, |before| + j)
  {
    hide OutcomeAt, NaiveOutcome, History;
    var pruned, unpruned := before + [Event.Prune(at)] + after, before + after;
    forall i | 0 <= i < |unpruned| ensures unpruned[i] == pruned[if i < |before| then i else i + 1] {}
    DecisionsAreNaive(window, pruned, |before| + 1 + j);
    DecisionsAreNaive(window, unpruned, |before| + j);
    assert pruned[..|before| + 1 + j] == before + [Event.Prune(at)] + after[..j];
    assert unpruned[..|before| + j] == before + after[..j];
    HistoryAfterPrune(window, before, at, after[..j], after[j].key);
  }

  // ------------------------------------------------------------------
  // The window theorem
  // ------------------------------------------------------------------

  /** One limit for the key, at least one. */
  ghost predicate FixedLimit(es: seq<Event>, key: string, limit: int) {
    limit >= 1 && forall e :: e in es && e.Check? && e.key == key ==> e.limit == limit
  }

  /** Any request and the one `limit` places later are at least a window apart. */
  ghost predicate Spaced(history: seq<real>, window: real, limit: int) {
    limit >= 1 && forall i, j :: 0 <= i < j < |history| && j == i + limit ==> history[j] - history[i] >= window
  }

  lemma {:induction false} RecentAtLeast(history: seq<real>, n: nat, cutoff: real)
    requires n <= |history| && forall i :: n <= i < |history| ==> history[i] > cutoff
    ensures |Recent(history, cutoff)| >= |history| - n
  {
    if n == |history| {
    } else {
      RecentAtLeast(history[..|history| - 1], n, cutoff);
    }
  }

  lemma {:induction false} RecentAtMost(history: seq<real>, n: nat, cutoff: real)
    requires n <= |history| && forall i :: 0 <= i < n ==> history[i] <= cutoff
    ensures |Recent(history, cutoff)| <= |history| - n
    ensures forall t :: t in Recent(history, cutoff) ==> t in history && t > cutoff
  {
    if history == [] {
    } else {
      var k := |history| - 1;
      RecentAtMost(history[..k], if n < k then n else k, cutoff);
    }
  }

  /** Admitting a request while fewer than `limit` are live keeps the spacing. */
  lemma AdmissionKeepsSpacing(history: seq<real>, window: real, limit: int, at: real)
    requires Spaced(history, window, limit) && Ascending(history)
    requires |Recent(history, at - window)| < limit
    ensures Spaced(history + [at], window, limit)
  {
    var first := |history| - limit;
    if first >= 0 && history[first] > at - window {
      RecentAtLeast(history, first, at - window);
    }
  }

  lemma {:induction false} AllowedAreSpaced(window: real, es: seq<Event>, key: string, limit: int)
    requires Clocked(es) && FixedLimit(es, key, limit)
    ensures Spaced(History(window, es, key), window, limit)
  {
    hide Clocked, FixedLimit, History, Recent, Spaced, Ascending, Run, Tracks;
    if es == [] {
      EmptySpaced(window, es, key, limit);
    } else {
      var k := |es| - 1;
      ClockedPrefix(es);
      FixedPrefix(es, key, limit);
      AllowedAreSpaced(window, es[..k], key, limit);
      RunSimulates(window, es[..k], key, es[k].at);
      HistoryStep(window, es, key, limit);
      if History(window, es, key) != History(window, es[..k], key) {
        AdmissionKeepsSpacing(History(window, es[..k], key), window, limit, es[k].at);
      }
    }
  }

  lemma EmptySpaced(window: real, es: seq<Event>, key: string, limit: int)
    requires es == [] && FixedLimit(es, key, limit)
    ensures Spaced(History(window, es, key), window, limit)
  {
  }

  lemma FixedPrefix(es: seq<Event>, key: string, limit: int)
    requires FixedLimit(es, key, limit) && es != []
    ensures FixedLimit(es[..|es| - 1], key, limit)
  {
    assert forall x :: x in es[..|es| - 1] ==> x in es;
  }

  lemma HistoryStep(window: real, es: seq<Event>, key: string, limit: int)
    requires es != [] && FixedLimit(es, key, limit)
    ensures
      var before, at := History(window, es[..|es| - 1], key), es[|es| - 1].at;
      History(window, es, key) != before ==>
        History(window, es, key) == before + [at] && |Recent(before, at - window)| < limit
  {
    hide Recent;
    assert es[|es| - 1] in es;
  }

  /** Allowed requests with lo < t <= hi. */
  function CountIn(history: seq<real>, lo: real, hi: real): nat {
    if history == [] then 0
    else CountIn(history[..|history| - 1], lo, hi) + if lo < history[|history| - 1] <= hi then 1 else 0
  }

  /** Allowed requests with lo <= t < hi. */
  function CountFrom(history: seq<real>, lo: real, hi: real): nat {
    if history == [] then 0
    else CountFrom(history[..|history| - 1], lo, hi) + if lo <= history[|history| - 1] < hi then 1 else 0
  }

  lemma {:induction false} CountsBelow(history: seq<real>, n: nat, lo: real, hi: real)
    requires n <= |history|
    ensures (forall i :: 0 <= i < n ==> history[i] <= lo) ==> CountIn(history, lo, hi) <= |history| - n
    ensures (forall i :: 0 <= i < n ==> history[i] < lo) ==> CountFrom(history, lo, hi) <= |history| - n
  {
    if history == [] {
    } else {
      var k := |history| - 1;
      CountsBelow(history[..k], if n < k then n else k, lo, hi);
    }
  }

  lemma {:induction false} SpacedBoundsCounts(history: seq<real>, window: real, limit: int, lo: real)
    requires Ascending(history) && Spaced(history, window, limit) && limit >= 1
    ensures CountIn(history, lo, lo + window) <= limit
    ensures CountFrom(history, lo, lo + window) <= limit
  {
    if history == [] {
    } else {
      var k := |history| - 1;
      SpacedBoundsCounts(history[..k], window, limit, lo);
      if k >= limit {
        assert history[k] - history[k - limit] >= window;
        var n := k - limit + 1;
        if history[k] <= lo + window {
          assert forall i :: 0 <= i < n ==> history[i] <= lo;
          CountsBelow(history, n, lo, lo + window);
        }
        if history[k] < lo + window {
          assert forall i :: 0 <= i < n ==> history[i] < lo;
          CountsBelow(history, n, lo, lo + window);
        }
      } else {
        CountsBelow(history, 0, lo, lo + window);
      }
    }
  }

  /** Window theorem: with one limit for the key, every half-open interval of window length,
    * wherever it starts and whichever end is open, holds at most `limit` allowed requests. */
  lemma WindowTheorem(window: real, es: seq<Event>, key: string, limit: int, lo: real)
    requires Clocked(es) && FixedLimit(es, key, limit)
    ensures CountIn(History(window, es, key), lo, lo + window) <= limit
    ensures CountFrom(History(window, es, key), lo, lo + window) <= limit
  {
    AllowedAreSpaced(window, es, key, limit);
    if es != [] { RunSimulates(window, es, key, es[|es| - 1].at); }
    SpacedBoundsCounts(History(window, es, key), window, limit, lo);
  }

  // ------------------------------------------------------------------
  // Retry-after
  // ------------------------------------------------------------------

  lemma {:induction false} SilentKeepsHistory(window: real, es: seq<Event>, i: nat, j: nat, key: string)
    requires i <= j <= |es| && forall k :: i <= k < j ==> !(es[k].Check? && es[k].key == key)
    ensures History(window, es[..j], key) == History(window, es[..i], key)
    decreases j
  {
    if i == j {
    } else {
      assert es[..j][..j - 1] == es[..j - 1];
      SilentKeepsHistory(window, es, i, j - 1, key);
    }
  }

  /** Retry-after is sound and tight: a denied key that stays silent is allowed again once the
    * time is up, and is still denied at any moment before the oldest live hit leaves. */
  lemma RetryAfterSound(window: real, es: seq<Event>, i: nat, j: nat, limit: int)
    requires Clocked(es) && i < j < |es| && es[i].Check? && es[j].Check? && es[j].key == es[i].key
    requires FixedLimit(es, es[i].key, limit)
    requires !Allows(OutcomeAt(window, es, i))
    requires forall k :: i < k < j ==> !(es[k].Check? && es[k].key == es[i].key)
    ensures OutcomeAt(window, es, i).Decided?
    ensures es[j].at >= es[i].at + OutcomeAt(window, es, i).decision.retryAfter as real ==>
              Allows(OutcomeAt(window, es, j))
    ensures
      var recent := Recent(History(window, es[..i], es[i].key), es[i].at - window);
      |recent| == limit && (Allows(OutcomeAt(window, es, j)) <==> es[j].at >= recent[0] + window)
  {
    hide Run, Recent, CheckStep, Ascending, Spaced, Simulates;
    var key, from, to := es[i].key, es[i].at - window, es[j].at - window;
    var history := History(window, es[..i], key);
    assert es[i] in es && es[j] in es;
    DecisionsAreNaive(window, es, i);
    DecisionsAreNaive(window, es, j);
    DeniedKeepsHistory(window, es, i);
    SilentKeepsHistory(window, es, i + 1, j, key);
    HistoryInWindow(window, es, i, limit);
    OldestLeaves(history, from, to);
  }

  /** Whole seconds, at least one, and no longer than it takes. */
  ghost predicate RoundsUp(seconds: int, time: real) {
    seconds as real >= time && seconds >= 1 && (seconds == 1 || (seconds - 1) as real < time)
  }

  /** The numbers a decision reports, from the key's live hits: room left, and whole seconds until the
    * oldest hit leaves. */
  lemma DecisionNumbers(window: real, es: seq<Event>, i: nat)
    requires Clocked(es) && i < |es| && es[i].Check? && OutcomeAt(window, es, i).Decided?
    ensures
      var d, at := OutcomeAt(window, es, i).decision, es[i].at;
      var live := Recent(History(window, es[..i], es[i].key), at - window);
      && d.limit == es[i].limit
      && (d.allowed ==> d.remaining == d.limit - |live| - 1 >= 0 && d.retryAfter == 0)
      && (!d.allowed ==> d.remaining == 0 && live != [] && RoundsUp(d.retryAfter, live[0] + window - at))
      && RoundsUp(d.resetIn, (if live == [] then at else live[0]) + window - at)
  {
    hide Run, History, Recent;
    DecisionsAreNaive(window, es, i);
  }

  lemma DeniedKeepsHistory(window: real, es: seq<Event>, i: nat)
    requires Clocked(es) && i < |es| && es[i].Check? && !Allows(OutcomeAt(window, es, i))
    ensures History(window, es[..i + 1], es[i].key) == History(window, es[..i], es[i].key)
  {
    hide Run;
    DecisionsAreNaive(window, es, i);
    assert es[..i + 1][..i] == es[..i];
  }

  lemma HistoryInWindow(window: real, es: seq<Event>, i: nat, limit: int)
    requires Clocked(es) && i < |es| && es[i].Check? && FixedLimit(es, es[i].key, limit)
    ensures Ascending(History(window, es[..i], es[i].key))
    ensures |Recent(History(window, es[..i], es[i].key), es[i].at - window)| <= limit
  {
    hide Run, History, Recent;
    var key := es[i].key;
    assert FixedLimit(es[..i], key, limit) by { assert forall e :: e in es[..i] ==> e in es; }
    RunSimulates(window, es[..i], key, es[i].at);
    AllowedAreSpaced(window, es[..i], key, limit);
    LiveWindow(History(window, es[..i], key), window, limit, es[i].at);
  }

  /** No more than `limit` remembered requests are ever inside the last window. */
  lemma LiveWindow(history: seq<real>, window: real, limit: int, now: real)
    requires Ascending(history) && Spaced(history, window, limit) && limit >= 1
    requires forall t :: t in history ==> t <= now
    ensures |Recent(history, now - window)| <= limit
  {
    var n := |history| - limit;
    if n > 0 {
      assert history[|history| - 1] in history;
      assert history[n - 1 + limit] - history[n - 1] >= window;
      RecentAtMost(history, n, now - window);
    } else {
      RecentAtMost(history, 0, now - window);
    }
  }

  /** As the cutoff moves on, the live list loses its oldest entry exactly when the cutoff reaches it. */
  lemma {:induction false} OldestLeaves(history: seq<real>, from: real, to: real)
    requires Ascending(history) && from <= to && Recent(history, from) != []
    ensures |Recent(history, to)| < |Recent(history, from)| <==> to >= Recent(history, from)[0]
    ensures |Recent(history, to)| <= |Recent(history, from)|
  {
    var k := |history| - 1;
    if Recent(history[..k], from) == [] {
      assert Recent(history, from) == [history[k]];
      RecentEmpty(history[..k], from, to);
    } else {
      OldestLeaves(history[..k], from, to);
      RecentAtMost(history[..k], 0, from);
      assert Recent(history[..k], from)[0] in Recent(history[..k], from);
      assert Recent(history[..k], from)[0] <= history[k];
    }
  }

  lemma {:induction false} RecentEmpty(history: seq<real>, from: real, to: real)
    requires from <= to && Recent(history, from) == []
    ensures Recent(history, to) == []
  {
    if history == [] {
    } else {
      RecentEmpty(history[..|history| - 1], from, to);
    }
  }

  // ------------------------------------------------------------------
  // The advertised reset
  // ------------------------------------------------------------------

  /** Whole seconds until a hit leaves the window. */
  function Wait(hit: real, window: real, now: real): int { AtLeastOne(Ceil(window - (now - hit))) }

  /** The hits in the window once the i-th check has been decided. */
  function LiveAfter(window: real, es: seq<Event>, i: nat): seq<real>
    requires i < |es| && es[i].Check?
  {
    Recent(History(window, es[..i + 1], es[i].key), es[i].at - window)
  }

  /** Seconds after the i-th check the key's window holds nothing, if it stays silent. */
  predicate EmptyAfter(window: real, es: seq<Event>, i: nat, seconds: int)
    requires i < |es| && es[i].Check?
  {
    Recent(History(window, es[..i + 1], es[i].key), es[i].at + seconds as real - window) == []
  }

  lemma {:induction false} RecentEmptyIff(history: seq<real>, from: real, to: real)
    requires Ascending(history) && from <= to && Recent(history, from) != []
    ensures history != [] && Recent(history, from)[|Recent(history, from)| - 1] == history[|history| - 1]
    ensures Recent(history, to) == [] <==> history[|history| - 1] <= to
  {
    var k := |history| - 1;
    if history[k] <= from {
      RecentAtMost(history, |history|, from);
    }
    if history[k] <= to { RecentAtMost(history, |history|, to); }
  }

  lemma AllowedJoinsHistory(window: real, es: seq<Event>, i: nat)
    requires Clocked(es) && i < |es| && es[i].Check? && Allows(OutcomeAt(window, es, i))
    ensures History(window, es[..i + 1], es[i].key) == History(window, es[..i], es[i].key) + [es[i].at]
  {
    hide Run;
    DecisionsAreNaive(window, es, i);
    assert es[..i + 1][..i] == es[..i];
  }

  lemma RecentSnoc(history: seq<real>, at: real, cutoff: real)
    requires at > cutoff
    ensures Recent(history + [at], cutoff) == Recent(history, cutoff) + [at]
  {
    assert (history + [at])[..|history|] == history;
  }

  /** What a decision leaves live, and the wait it advertises as the reset. */
  lemma ResetIsOldest(window: real, es: seq<Event>, i: nat)
    requires window > 0.0 && Clocked(es) && i < |es| && es[i].Check? && OutcomeAt(window, es, i).Decided?
    ensures Ascending(History(window, es[..i + 1], es[i].key))
    ensures LiveAfter(window, es, i) != []
    ensures OutcomeAt(window, es, i).decision.resetIn == Wait(LiveAfter(window, es, i)[0], window, es[i].at)
  {
    hide Run, Ceil, AtLeastOne, OutcomeAt, History, Recent;
    DecisionsAreNaive(window, es, i);
    RunSimulates(window, es[..i + 1], es[i].key, es[i].at);
    if Allows(OutcomeAt(window, es, i)) {
      AllowedJoinsHistory(window, es, i);
      RecentSnoc(History(window, es[..i], es[i].key), es[i].at, es[i].at - window);
    } else {
      DeniedKeepsHistory(window, es, i);
    }
  }

  lemma WaitCovers(oldest: real, newest: real, window: real, now: real)
    requires oldest <= newest && oldest > now - window
    ensures newest + window <= now + Wait(oldest, window, now) as real
            <==> Wait(oldest, window, now) == Wait(newest, window, now)
  {
  }

  /** The advertised reset is the time to an empty window exactly when the oldest and the newest live
    * hit round up to the same wait. */
  lemma ResetEmptiesIff(window: real, es: seq<Event>, i: nat)
    requires window > 0.0 && Clocked(es) && i < |es| && es[i].Check? && OutcomeAt(window, es, i).Decided?
    ensures
      var live, d := LiveAfter(window, es, i), OutcomeAt(window, es, i).decision;
      && live != []
      && (EmptyAfter(window, es, i, d.resetIn)
          <==> Wait(live[0], window, es[i].at) == Wait(live[|live| - 1], window, es[i].at))
  {
    hide Run, OutcomeAt, History, Recent, Wait;
    ResetIsOldest(window, es, i);
    var history, at := History(window, es[..i + 1], es[i].key), es[i].at;
    var live := LiveAfter(window, es, i);
    var wait := Wait(live[0], window, at);
    WaitIsPositive(live[0], window, at);
    RecentAtMost(history, 0, at - window);
    assert live[0] in live;
    LiveAscends(history, at - window);
    RecentEmptyIff(history, at - window, at + wait as real - window);
    WaitCovers(live[0], live[|live| - 1], window, at);
  }

  lemma WaitIsPositive(hit: real, window: real, now: real)
    ensures Wait(hit, window, now) >= 1
  {
  }

  lemma {:induction false} LiveAscends(history: seq<real>, cutoff: real)
    requires Ascending(history) && Recent(history, cutoff) != []
    ensures Recent(history, cutoff)[0] <= Recent(history, cutoff)[|Recent(history, cutoff)| - 1]
  {
    var k := |history| - 1;
    RecentEmptyIff(history, cutoff, cutoff);
    RecentAtMost(history, 0, cutoff);
    assert Recent(history, cutoff)[0] in Recent(history, cutoff);
  }

  /** Two hits 59 seconds apart in a minute's window: the reset says one second, and a second later
    * the newer hit is still there. */
  lemma ResetTooEarly(key: string, limit: int)
    requires limit >= 2
    ensures
      var es := [Event.Check(key, limit, 0.0), Event.Check(key, limit, 59.0)];
      && OutcomeAt(60.0, es, 1).Decided? && OutcomeAt(60.0, es, 1).decision.resetIn == 1
      && !EmptyAfter(60.0, es, 1, 1)
  {
    var first, second := Event.Check(key, limit, 0.0), Event.Check(key, limit, 59.0);
    var es := [first, second];
    assert es[..1] == [first] && es[..2] == es && es[..2][..1] == [first];
    DecisionsAreNaive(60.0, es, 1);
    assert History(60.0, [first], key) == [0.0] by { assert [first][..0] == []; }
    assert Recent([0.0], -1.0) == [0.0] by { assert [0.0][..0] == []; }
    assert History(60.0, es, key) == [0.0] + [59.0];
    assert ([0.0] + [59.0])[..1] == [0.0];
  }
}
