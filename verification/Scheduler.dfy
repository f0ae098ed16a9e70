/** When a repository is due again, and what one tick of the scheduler starts
    (internal/gitsync/scheduler.go). A draw is a `real`; rounding is not modelled. */
module Scheduler {
  import opened Basics
  import opened Option
  import opened Providers
  import opened ProviderGates
  import opened Sorting
  import GateRuns

  const MAX_STAGGER: int := 2 * MINUTE
  const BACKOFF_CAP: int := 60 * MINUTE
  const DEFAULT_INTERVAL: int := 15 * MINUTE

  /** `time.Duration`: leaving its range is an error of the model. */
  newtype Duration = d: int | -0x8000_0000_0000_0000 <= d < 0x8000_0000_0000_0000

  const CAP: Duration := 3_600_000_000_000

  // ---------------------------------------------------------------- backoff

  function Pow2(n: nat): nat { if n == 0 then 1 else 2 * Pow2(n - 1) }

  predicate IsCredentialError(errType: string) {
    errType == "origin_access_denied" || errType == "credential_rejected" || errType == "push_token_expired"
  }

  /** The shortest delay after `failures` failures in a row: the interval doubled per failure after the
      first, capped, and never below the interval. */
  function FloorOf(iv: int, failures: nat, errType: string): int {
    if IsCredentialError(errType) then Max(iv, BACKOFF_CAP)
    else Max(iv, Min(iv * Pow2(if failures == 0 then 0 else failures - 1), BACKOFF_CAP))
  }

  lemma {:induction false} Pow2Grows(m: nat, n: nat)
    requires m <= n
    ensures Pow2(m) <= Pow2(n)
  {
    if m < n {
      Pow2Grows(m, n - 1);
    }
  }

  lemma Doubled(iv: int, m: nat, n: nat)
    requires iv > 0 && m <= n
    ensures iv * Pow2(m) <= iv * Pow2(n) && iv * Pow2(m + 1) == 2 * (iv * Pow2(m))
  {
    Pow2Grows(m, n);
  }

  /** The loop's value stays below twice the cap unless it is the interval itself, so it cannot overflow
      however many failures there are. */
  method BackoffFloor(iv: Duration, failures: nat, errType: string) returns (floor: Duration)
    requires iv > 0
    ensures floor as int == FloorOf(iv as int, failures, errType)
  {
    if IsCredentialError(errType) {
      return if iv >= CAP then iv else CAP;
    }
    var d, i := iv, 1;
    ghost var steps := if failures == 0 then 0 else failures - 1;
    while i < failures && d < CAP
      invariant 1 <= i <= Max(failures, 1)
      invariant d as int == iv as int * Pow2(i - 1)
      invariant iv <= d && (d == iv || d < 2 * CAP)
    {
      Doubled(iv as int, i - 1, i - 1);
      d := d * 2;
      i := i + 1;
    }
    Doubled(iv as int, i - 1, steps);
    var capped := if d <= CAP then d else CAP;
    floor := if iv >= capped then iv else capped;
  }

  // ---------------------------------------------------------------- entries and their delay

  datatype TargetKey = TargetKey(canonicalURL: string, replicaURL: string, bind: Binding)

  datatype Entry = Entry(key: TargetKey, base: Time, r: real, staggered: bool, synced: bool,
                         failures: nat, lastErr: string, notBefore: Option<Time>)

  function EffectiveInterval(interval: int): (iv: int)
    ensures iv > 0 && (interval > 0 ==> iv == interval) && (interval <= 0 ==> iv == 15 * MINUTE)
  {
    if interval <= 0 then DEFAULT_INTERVAL else interval
  }

  /** A draw in [0, 1), whatever the source of randomness returns. */
  function Draw(x: real): (r: real)
    ensures 0.0 <= r < 1.0 && (0.0 <= x < 1.0 ==> r == x)
  {
    if !(x > 0.0) then 0.0 else if x >= 1.0 then 1.0 - 0.000000001 else x
  }

  /** The whole part of a fraction of `span`. */
  function Part(r: real, span: int): int { (r * span as real).Floor }

  function Delay(e: Entry, iv: int): int {
    if e.failures > 0 then
      var floor := FloorOf(iv, e.failures, e.lastErr);
      floor + Part(e.r, floor / 5)
    else if e.staggered then iv + Part(e.r, Min(iv, MAX_STAGGER))
    else iv - iv / 10 + Part(e.r, iv / 5)
  }

  lemma PartIsWithin(r: real, span: int)
    requires 0.0 <= r < 1.0 && span >= 0
    ensures 0 <= Part(r, span) <= span && (span > 0 ==> Part(r, span) < span)
  {
    var x := span as real;
    var y := r * x;
    assert 0.0 <= y by { Nonnegative(r, x); }
    assert y <= x && (span > 0 ==> y < x) by {
      Nonnegative(1.0 - r, x);
      assert x - y == (1.0 - r) * x;
      if span > 0 {
        Positive(1.0 - r, x);
      }
    }
    assert y.Floor as real <= y < (y.Floor + 1) as real;
  }

  lemma Nonnegative(a: real, b: real)
    requires a >= 0.0 && b >= 0.0
    ensures a * b >= 0.0
  {
  }

  lemma Positive(a: real, b: real)
    requires a > 0.0 && b > 0.0
    ensures a * b > 0.0
  {
  }

  /** A delay is at least nine tenths of the interval. After failures it is from the floor to a fifth
      above it; of a first scheduled run, from the interval up to the stagger above it; otherwise within
      a tenth of the interval. */
  lemma DelayBounds(e: Entry, iv: int)
    requires iv > 0 && 0.0 <= e.r < 1.0
    ensures 10 * Delay(e, iv) >= 9 * iv
    ensures e.failures > 0 ==> var f := FloorOf(iv, e.failures, e.lastErr); f >= iv && f <= Delay(e, iv) <= f + f / 5
    ensures e.failures == 0 && e.staggered ==> iv <= Delay(e, iv) < iv + Min(iv, MAX_STAGGER)
    ensures e.failures == 0 && !e.staggered ==> iv - iv / 10 <= Delay(e, iv) <= iv - iv / 10 + iv / 5
  {
    PartIsWithin(e.r, FloorOf(iv, e.failures, e.lastErr) / 5);
    PartIsWithin(e.r, Min(iv, MAX_STAGGER));
    PartIsWithin(e.r, iv / 5);
  }

  /** More failures never wait less, and a wait never exceeds the interval or the cap, whichever is longer. */
  lemma MoreFailuresWaitNoLess(iv: int, m: nat, n: nat, errType: string)
    requires iv > 0 && m <= n
    ensures iv <= FloorOf(iv, m, errType) <= FloorOf(iv, n, errType) <= Max(iv, BACKOFF_CAP)
  {
    Doubled(iv, if m == 0 then 0 else m - 1, if n == 0 then 0 else n - 1);
  }

  /** The backoff of one failure is the interval, and each further failure in a row doubles it up to an
      hour; a refused credential or an expired token waits an hour from the first. An interval beyond an
      hour stays what it is. */
  lemma FloorDoubles(iv: int, failures: nat, errType: string)
    requires iv > 0 && failures > 0
    ensures errType in {"origin_access_denied", "credential_rejected", "push_token_expired"} ==>
              FloorOf(iv, failures, errType) == Max(iv, 60 * MINUTE)
    ensures errType !in {"origin_access_denied", "credential_rejected", "push_token_expired"} ==>
              && FloorOf(iv, 1, errType) == iv
              && FloorOf(iv, failures + 1, errType) == Max(iv, Min(2 * FloorOf(iv, failures, errType), 60 * MINUTE))
  {
    Doubled(iv, 0, failures - 1);
    Doubled(iv, failures - 1, failures - 1);
  }

  /** Every whole part below the span is drawn by some `r` in [0, 1). */
  lemma EveryPartIsDrawn(span: int, k: int) returns (r: real)
    requires 0 <= k < span
    ensures 0.0 <= r < 1.0 && Part(r, span) == k
  {
    r := k as real / span as real;
    assert r * span as real == k as real;
  }

  /** The jitter is real: every delay within the spread of a new target, within the tenth about the
      interval, and within the fifth above a backoff is that of some draw. */
  lemma EveryDelayIsDrawn(e: Entry, iv: int, k: int) returns (r: real)
    requires iv > 0
    requires 0 <= k < if e.failures > 0 then FloorOf(iv, e.failures, e.lastErr) / 5 else if e.staggered then Min(iv, 2 * MINUTE) else iv / 5
    ensures 0.0 <= r < 1.0
    ensures Delay(e.(r := r), iv) ==
              k + if e.failures > 0 then FloorOf(iv, e.failures, e.lastErr) else if e.staggered then iv else iv - iv / 10
  {
    hide FloorOf;
    r := EveryPartIsDrawn(if e.failures > 0 then FloorOf(iv, e.failures, e.lastErr) / 5 else if e.staggered then Min(iv, 2 * MINUTE) else iv / 5, k);
  }

  function DueAt(e: Entry, iv: int): Time {
    var at := e.base + Delay(e, iv);
    if e.notBefore.Some? && e.notBefore.value > at then e.notBefore.value else at
  }

  predicate IsDue(e: Entry, iv: int, now: Time) { now >= DueAt(e, iv) }

  function Dispatched(e: Entry, now: Time, r: real): Entry { e.(base := now, r := Draw(r), notBefore := None) }

  /** Once dispatched, an entry is not due again for nine tenths of the interval, or its backoff. */
  lemma DispatchHoldsBack(e: Entry, now: Time, r: real, iv: int, later: Time)
    requires iv > 0 && IsDue(Dispatched(e, now, r), iv, later)
    ensures 10 * (later - now) >= 9 * iv
    ensures e.failures > 0 ==> later - now >= FloorOf(iv, e.failures, e.lastErr)
  {
    DelayBounds(Dispatched(e, now, r), iv);
  }

  // ---------------------------------------------------------------- one tick, as values

  /** An attempt of the scheduler to start a sync: of a binding that is not held back, or as the probe
      of one that is. */
  datatype Try = Try(id: string, bind: Binding, probe: bool, started: bool)

  function WithState(ids: seq<string>, entries: map<string, Entry>, g: Gates, now: Time, s: GateState): seq<string>
    requires forall id <- ids :: id in entries
  {
    if ids == [] then []
    else
      var id := ids[|ids| - 1];
      WithState(ids[..|ids| - 1], entries, g, now, s) + if g.StateOf(entries[id].key.bind, now) == s then [id] else []
  }

  function Opens(ids: seq<string>, entries: map<string, Entry>, accepts: string -> bool): (ts: seq<Try>)
    requires forall id <- ids :: id in entries
    ensures |ts| == |ids| && forall i | 0 <= i < |ts| :: ts[i] == Try(ids[i], entries[ids[i]].key.bind, false, accepts(ids[i]))
  {
    seq(|ids|, i requires 0 <= i < |ids| => Try(ids[i], entries[ids[i]].key.bind, false, accepts(ids[i])))
  }

  datatype Probed = Probed(g: Gates, tries: seq<Try>)

  /** One candidate for its credential's probe: tried only if no earlier one has started. */
  function ProbeOne(p: Probed, id: string, b: Binding, now: Time, iv: int, accepts: string -> bool): Probed {
    if p.g.StateOf(b, now) != HalfOpen then p
    else if accepts(id) then Probed(BeginProbe(p.g, b, id, now, iv).0, p.tries + [Try(id, b, true, true)])
    else p.(tries := p.tries + [Try(id, b, true, false)])
  }

  function Probes(ids: seq<string>, entries: map<string, Entry>, g: Gates, now: Time, iv: int, accepts: string -> bool): Probed
    requires forall id <- ids :: id in entries
  {
    if ids == [] then Probed(g, [])
    else
      var id := ids[|ids| - 1];
      ProbeOne(Probes(ids[..|ids| - 1], entries, g, now, iv, accepts), id, entries[id].key.bind, now, iv, accepts)
  }

  predicate SortedByFailures(ids: seq<string>, entries: map<string, Entry>)
    requires forall id <- ids :: id in entries
  {
    forall i, j | 0 <= i < j < |ids| :: entries[ids[i]].failures <= entries[ids[j]].failures
  }

  /** Of two candidates for the probe of one credential, the one with fewer failures is tried first, and
      the second only if the first did not start: at most one probe of a credential starts. */
  ghost predicate OneProbeEach(tries: seq<Try>, entries: map<string, Entry>) {
    forall i, j | 0 <= i < j < |tries| && tries[i].bind == tries[j].bind ::
      !tries[i].started
      && tries[i].id in entries && tries[j].id in entries && entries[tries[i].id].failures <= entries[tries[j].id].failures
  }

  /** After the candidates, a gate is half open if it was and no probe of it has started. */
  predicate StartedFor(tries: seq<Try>, b: Binding) { exists t <- tries :: t.bind == b && t.started }

  lemma {:induction false} ProbesKeepStates(ids: seq<string>, entries: map<string, Entry>, g: Gates, now: Time, iv: int, accepts: string -> bool)
    requires iv > 0 && forall id <- ids :: id in entries
    ensures var p := Probes(ids, entries, g, now, iv, accepts);
            && (forall b :: p.g.StateOf(b, now) == if StartedFor(p.tries, b) then Closed else g.StateOf(b, now))
            && (forall t <- p.tries :: t.probe && t.id in ids && t.bind == entries[t.id].key.bind && t.started == accepts(t.id)
                                       && g.StateOf(t.bind, now) == HalfOpen)
  {
    if ids != [] {
      var front, id := ids[..|ids| - 1], ids[|ids| - 1];
      ProbesKeepStates(front, entries, g, now, iv, accepts);
      var p, n := Probes(front, entries, g, now, iv, accepts), Probes(ids, entries, g, now, iv, accepts);
      if n.tries != p.tries {
        var last := n.tries[|p.tries|];
        assert n.tries == p.tries + [last];
        forall b ensures StartedFor(n.tries, b) <==> StartedFor(p.tries, b) || (last.bind == b && last.started) {
          assert last in n.tries;
        }
      }
    }
  }

  /** Whatever the candidates and the manager's answers: of two tries of one credential the earlier did
      not start and had no more failures, so at most one probe of a credential starts; and every
      candidate is tried unless a probe of its credential started before, one with no more failures. */
  lemma {:induction false} OneProbeForEach(ids: seq<string>, entries: map<string, Entry>, g: Gates, now: Time, iv: int, accepts: string -> bool)
    requires iv > 0 && (forall id <- ids :: id in entries) && SortedByFailures(ids, entries)
    requires forall id <- ids :: g.StateOf(entries[id].key.bind, now) == HalfOpen
    ensures var p := Probes(ids, entries, g, now, iv, accepts);
            && OneProbeEach(p.tries, entries)
            && forall id <- ids :: IsTried(p.tries, id) || IsBeaten(p.tries, entries, id)
  {
    if ids != [] {
      var front, id := ids[..|ids| - 1], ids[|ids| - 1];
      assert ids == front + [id];
      var p, n := Probes(front, entries, g, now, iv, accepts), Probes(ids, entries, g, now, iv, accepts);
      assert n == ProbeOne(p, id, entries[id].key.bind, now, iv, accepts);
      assert forall x <- front :: x in ids;
      hide Probes, SortedByFailures, OneProbeEach, IsTried, IsBeaten, StartedFor;
      FrontIsSorted(front, ids, entries, id);
      OneProbeForEach(front, entries, g, now, iv, accepts);
      ProbesKeepStates(front, entries, g, now, iv, accepts);
      TriesAreFewerFailures(p.tries, front, ids, entries, id);
      OneMoreTry(p.tries, n.tries, entries, front, id, entries[id].key.bind);
    }
  }

  lemma FrontIsSorted(front: seq<string>, ids: seq<string>, entries: map<string, Entry>, id: string)
    requires (forall x <- ids :: x in entries) && SortedByFailures(ids, entries) && ids == front + [id]
    ensures (forall x <- front :: x in entries) && SortedByFailures(front, entries)
  {
    assert forall i, j | 0 <= i < j < |front| :: ids[i] == front[i] && ids[j] == front[j];
  }

  predicate IsTried(tries: seq<Try>, id: string) { exists t <- tries :: t.id == id }

  predicate IsBeaten(tries: seq<Try>, entries: map<string, Entry>, id: string)
    requires id in entries
  {
    exists t <- tries :: t.bind == entries[id].key.bind && t.started && t.id in entries && entries[t.id].failures <= entries[id].failures
  }

  lemma TriesAreFewerFailures(tries: seq<Try>, front: seq<string>, ids: seq<string>, entries: map<string, Entry>, id: string)
    requires (forall x <- ids :: x in entries) && SortedByFailures(ids, entries) && ids == front + [id]
    requires forall t <- tries :: t.id in front
    ensures forall t <- tries :: t.id in entries && entries[t.id].failures <= entries[id].failures
  {
    forall t <- tries ensures t.id in entries && entries[t.id].failures <= entries[id].failures {
      var i :| 0 <= i < |front| && front[i] == t.id;
      assert ids[i] == t.id && ids[|front|] == id;
    }
  }

  lemma OneMoreTry(before: seq<Try>, after: seq<Try>, entries: map<string, Entry>, front: seq<string>, id: string, b: Binding)
    requires OneProbeEach(before, entries) && (forall x <- front + [id] :: x in entries) && b == entries[id].key.bind
    requires forall t <- before :: t.id in entries && entries[t.id].failures <= entries[id].failures
    requires forall x <- front :: IsTried(before, x) || IsBeaten(before, entries, x)
    requires if StartedFor(before, b) then after == before else |after| == |before| + 1 && before == after[..|before|] && after[|before|].id == id && after[|before|].bind == b
    ensures OneProbeEach(after, entries)
    ensures forall x <- front + [id] :: IsTried(after, x) || IsBeaten(after, entries, x)
  {
    assert id in front + [id] && forall x <- front :: x in front + [id];
    assert forall t <- before :: t in after;
    if !StartedFor(before, b) {
      forall i, j | 0 <= i < j < |after| && after[i].bind == after[j].bind
        ensures !after[i].started && after[i].id in entries && after[j].id in entries
                && entries[after[i].id].failures <= entries[after[j].id].failures
      {
        assert after[i] == before[i] && after[i] in before;
        if j < |before| {
          assert after[j] == before[j];
        }
      }
      assert after[|before|] in after;
    }
  }

  /** The steps of the gates that the tries of a poll amount to. */
  function ProbeSteps(tries: seq<Try>, now: Time, iv: int): seq<GateRuns.Event> {
    if tries == [] then []
    else
      var t := tries[|tries| - 1];
      ProbeSteps(tries[..|tries| - 1], now, iv)
        + [GateRuns.Look(t.bind)] + [GateRuns.Begin(t.bind, t.id, now, iv)] + [SettleStep(t.started)]
  }

  function GatesAfter(s: GateRuns.State, es: seq<GateRuns.Event>): GateRuns.State {
    if es == [] then s else GateRuns.Next(GatesAfter(s, es[..|es| - 1]), es[|es| - 1])
  }

  ghost predicate AllLegal(s: GateRuns.State, es: seq<GateRuns.Event>) {
    forall i {:trigger es[i]} | 0 <= i < |es| :: GateRuns.Legal(GatesAfter(s, es[..i]), es[i])
  }

  lemma StepsGrow(s: GateRuns.State, es: seq<GateRuns.Event>, e: GateRuns.Event)
    ensures GatesAfter(s, es + [e]) == GateRuns.Next(GatesAfter(s, es), e)
    ensures AllLegal(s, es) && GateRuns.Legal(GatesAfter(s, es), e) ==> AllLegal(s, es + [e])
  {
    hide GateRuns.Next, GateRuns.Legal;
    var all := es + [e];
    assert all[..|es|] == es;
    forall i | 0 <= i < |all| && AllLegal(s, es) && GateRuns.Legal(GatesAfter(s, es), e) ensures GateRuns.Legal(GatesAfter(s, all[..i]), all[i]) {
      if i < |es| {
        assert all[..i] == es[..i] && all[i] == es[i];
      }
    }
  }

  function SettleStep(started: bool): GateRuns.Event { if started then GateRuns.Started else GateRuns.NotStarted }

  lemma ProbeStepsGrow(tries: seq<Try>, t: Try, now: Time, iv: int)
    ensures ProbeSteps(tries + [t], now, iv) == ProbeSteps(tries, now, iv) + [GateRuns.Look(t.bind)] + [GateRuns.Begin(t.bind, t.id, now, iv)] + [SettleStep(t.started)]
  {
    assert (tries + [t])[..|tries|] == tries;
  }

  /** The gates in the middle of a poll at `now`. */
  function Polling(g: Gates, now: Time): GateRuns.State { GateRuns.State(g, Nothing, Some(now), None) }

  lemma TryIsGateSteps(g: Gates, b: Binding, id: string, now: Time, iv: int, started: bool)
    requires g.StateOf(b, now) == HalfOpen
    ensures var s0, look, begin, settle := Polling(g, now), GateRuns.Look(b), GateRuns.Begin(b, id, now, iv), SettleStep(started);
            var s1 := GateRuns.Next(s0, look);
            var s2 := GateRuns.Next(s1, begin);
            && GateRuns.Legal(s0, look) && GateRuns.Legal(s1, begin) && GateRuns.Legal(s2, settle)
            && GateRuns.Next(s2, settle) == Polling(if started then BeginProbe(g, b, id, now, iv).0 else g, now)
  {
    hide TakenBack;
    TakingBackAtOnceRestores(g, b, id, now, iv);
  }

  /** The probes of a poll are steps the gates' runs allow, each gate looked at, its probe begun and
      settled before the next: what holds of all runs of the gates holds of a scheduler's. */
  lemma {:induction false} ProbesAreGateSteps(ids: seq<string>, entries: map<string, Entry>, g: Gates, now: Time, iv: int, accepts: string -> bool)
    requires iv > 0 && forall id <- ids :: id in entries
    ensures var p := Probes(ids, entries, g, now, iv, accepts);
            var s, es := Polling(g, now), ProbeSteps(p.tries, now, iv);
            GatesAfter(s, es) == Polling(p.g, now) && AllLegal(s, es)
  {
    if ids != [] {
      var front, id := ids[..|ids| - 1], ids[|ids| - 1];
      var p, n := Probes(front, entries, g, now, iv, accepts), Probes(ids, entries, g, now, iv, accepts);
      var b := entries[id].key.bind;
      assert n == ProbeOne(p, id, b, now, iv, accepts);
      hide AllLegal, GatesAfter, Probes, ProbeSteps, GateRuns.Next, GateRuns.Legal, BeginProbe, Polling;
      ProbesAreGateSteps(front, entries, g, now, iv, accepts);
      if p.g.StateOf(b, now) == HalfOpen {
        var s, es, t := Polling(g, now), ProbeSteps(p.tries, now, iv), Try(id, b, true, accepts(id));
        var look, begin := GateRuns.Look(b), GateRuns.Begin(b, id, now, iv);
        ProbeStepsGrow(p.tries, t, now, iv);
        TryIsGateSteps(p.g, b, id, now, iv, accepts(id));
        StepsGrow(s, es, look);
        StepsGrow(s, es + [look], begin);
        StepsGrow(s, es + [look] + [begin], SettleStep(t.started));
      }
    }
  }

  // ---------------------------------------------------------------- one tick as a whole

  /** `id` among ids in order of their failures, behind its equals. */
  function Placed(ids: seq<string>, id: string, entries: map<string, Entry>): seq<string>
    requires forall x <- ids + [id] :: x in entries
  {
    if ids == [] then [id]
    else
      assert id in ids + [id] && forall x <- ids[..|ids| - 1] + [id] :: x in ids + [id];
      var last := ids[|ids| - 1];
      if entries[last].failures <= entries[id].failures then ids + [id] else Placed(ids[..|ids| - 1], id, entries) + [last]
  }

  function ByFailures(ids: seq<string>, entries: map<string, Entry>): (r: seq<string>)
    requires forall x <- ids :: x in entries
    ensures forall x :: x in r <==> x in ids
  {
    if ids == [] then []
    else
      var front, id := ids[..|ids| - 1], ids[|ids| - 1];
      PlacedHas(ByFailures(front, entries), id, entries);
      assert ids == front + [id];
      Placed(ByFailures(front, entries), id, entries)
  }

  lemma {:induction false} PlacedHas(ids: seq<string>, id: string, entries: map<string, Entry>)
    requires forall x <- ids + [id] :: x in entries
    ensures forall x :: x in Placed(ids, id, entries) <==> x in ids || x == id
  {
    if ids != [] {
      var front, last := ids[..|ids| - 1], ids[|ids| - 1];
      assert ids == front + [last] && forall x <- front + [id] :: x in ids + [id];
      PlacedHas(front, id, entries);
    }
  }

  lemma AppendKeepsOrder(ids: seq<string>, last: string, entries: map<string, Entry>)
    requires (forall x <- ids :: x in entries) && last in entries && SortedByFailures(ids, entries)
    requires forall x <- ids :: entries[x].failures <= entries[last].failures
    ensures (forall x <- ids + [last] :: x in entries) && SortedByFailures(ids + [last], entries)
  {
    forall i, j | 0 <= i < j < |ids + [last]| ensures entries[(ids + [last])[i]].failures <= entries[(ids + [last])[j]].failures {
      assert (ids + [last])[i] in ids;
    }
  }

  lemma LastIsMost(ids: seq<string>, entries: map<string, Entry>)
    requires ids != [] && (forall x <- ids :: x in entries) && SortedByFailures(ids, entries)
    ensures forall x <- ids :: entries[x].failures <= entries[ids[|ids| - 1]].failures
  {
    forall x <- ids ensures entries[x].failures <= entries[ids[|ids| - 1]].failures {
      var i :| 0 <= i < |ids| && ids[i] == x;
    }
  }

  lemma {:induction false} PlacedIsSorted(ids: seq<string>, id: string, entries: map<string, Entry>)
    requires (forall x <- ids + [id] :: x in entries) && (forall x <- ids :: x in entries) && SortedByFailures(ids, entries)
    ensures (forall x <- Placed(ids, id, entries) :: x in entries) && SortedByFailures(Placed(ids, id, entries), entries)
  {
    if ids != [] {
      hide SortedByFailures;
      assert id in ids + [id];
      var front, last := ids[..|ids| - 1], ids[|ids| - 1];
      assert ids == front + [last] && forall x <- front + [id] :: x in ids + [id];
      LastIsMost(ids, entries);
      if entries[last].failures <= entries[id].failures {
        AppendKeepsOrder(ids, id, entries);
      } else {
        FrontIsSorted(front, ids, entries, last);
        PlacedIsSorted(front, id, entries);
        PlacedHas(front, id, entries);
        AppendKeepsOrder(Placed(front, id, entries), last, entries);
      }
    }
  }

  lemma {:induction false} ByFailuresIsSorted(ids: seq<string>, entries: map<string, Entry>)
    requires forall x <- ids :: x in entries
    ensures SortedByFailures(ByFailures(ids, entries), entries)
  {
    if ids != [] {
      var front, id := ids[..|ids| - 1], ids[|ids| - 1];
      ByFailuresIsSorted(front, entries);
      assert ids == front + [id];
      PlacedIsSorted(ByFailures(front, entries), id, entries);
    }
  }

  predicate Precedes(ids: seq<string>, a: string, b: string) { exists i, j | 0 <= i < j < |ids| :: ids[i] == a && ids[j] == b }

  lemma {:induction false} PlacedBehind(ids: seq<string>, id: string, entries: map<string, Entry>, a: string)
    requires (forall x <- ids + [id] :: x in entries) && a in ids && a in entries && id in entries && entries[a].failures <= entries[id].failures
    ensures Precedes(Placed(ids, id, entries), a, id)
  {
    var front, last := ids[..|ids| - 1], ids[|ids| - 1];
    assert ids == front + [last] && last in ids + [id] && forall x <- front + [id] :: x in ids + [id];
    if entries[last].failures <= entries[id].failures {
      var i :| 0 <= i < |ids| && ids[i] == a;
      assert (ids + [id])[i] == a && (ids + [id])[|ids|] == id;
    } else {
      PlacedBehind(front, id, entries, a);
      StillPrecedes(Placed(front, id, entries), last, a, id);
    }
  }

  lemma StillPrecedes(ids: seq<string>, x: string, a: string, b: string)
    requires Precedes(ids, a, b)
    ensures Precedes(ids + [x], a, b)
  {
    var i, j :| 0 <= i < j < |ids| && ids[i] == a && ids[j] == b;
    assert (ids + [x])[i] == a && (ids + [x])[j] == b;
  }

  lemma {:induction false} PlacedKeepsOrder(ids: seq<string>, id: string, entries: map<string, Entry>, a: string, b: string)
    requires (forall x <- ids + [id] :: x in entries) && Precedes(ids, a, b)
    ensures Precedes(Placed(ids, id, entries), a, b)
  {
    var front, last := ids[..|ids| - 1], ids[|ids| - 1];
    assert ids == front + [last] && last in ids + [id] && id in ids + [id] && forall x <- front + [id] :: x in ids + [id];
    if entries[last].failures <= entries[id].failures {
      StillPrecedes(ids, id, a, b);
    } else {
      var i, j :| 0 <= i < j < |ids| && ids[i] == a && ids[j] == b;
      if j < |front| {
        assert front[i] == a && front[j] == b;
        PlacedKeepsOrder(front, id, entries, a, b);
        StillPrecedes(Placed(front, id, entries), last, a, b);
      } else {
        PlacedHas(front, id, entries);
        assert front[i] == a && a in front;
        var rest := Placed(front, id, entries);
        assert a in rest;
        var k :| 0 <= k < |rest| && rest[k] == a;
        assert (rest + [last])[k] == a && (rest + [last])[|rest|] == b;
      }
    }
  }

  /** Of two with as many failures the one that came first stays first. */
  lemma {:induction false} ByFailuresIsStable(ids: seq<string>, entries: map<string, Entry>, a: string, b: string)
    requires (forall x <- ids :: x in entries) && Precedes(ids, a, b) && a in entries && b in entries
    requires entries[a].failures <= entries[b].failures
    ensures Precedes(ByFailures(ids, entries), a, b)
  {
    var front, id := ids[..|ids| - 1], ids[|ids| - 1];
    assert ids == front + [id];
    hide Placed;
    var i, j :| 0 <= i < j < |ids| && ids[i] == a && ids[j] == b;
    assert front[i] == a;
    if j < |front| {
      assert front[j] == b;
      ByFailuresIsStable(front, entries, a, b);
      PlacedKeepsOrder(ByFailures(front, entries), id, entries, a, b);
    } else {
      PlacedBehind(ByFailures(front, entries), id, entries, a);
    }
  }

  lemma {:induction false} WithStateHas(ids: seq<string>, entries: map<string, Entry>, g: Gates, now: Time, s: GateState)
    requires forall id <- ids :: id in entries
    ensures forall x :: x in WithState(ids, entries, g, now, s) <==> x in ids && g.StateOf(entries[x].key.bind, now) == s
  {
    if ids != [] {
      WithStateHas(ids[..|ids| - 1], entries, g, now, s);
      assert ids == ids[..|ids| - 1] + [ids[|ids| - 1]];
    }
  }

  function Candidates(due: seq<string>, entries: map<string, Entry>, g: Gates, now: Time): (ids: seq<string>)
    requires forall id <- due :: id in entries
    ensures forall x :: x in ids <==> x in due && g.StateOf(entries[x].key.bind, now) == HalfOpen
  {
    WithStateHas(due, entries, g, now, HalfOpen);
    ByFailures(WithState(due, entries, g, now, HalfOpen), entries)
  }

  function OpenTries(due: seq<string>, entries: map<string, Entry>, g: Gates, now: Time, accepts: string -> bool): seq<Try>
    requires forall id <- due :: id in entries
  {
    WithStateHas(due, entries, g, now, NoGate);
    Opens(WithState(due, entries, g, now, NoGate), entries, accepts)
  }

  /** What a tick tries: every due repository without a gate, then the candidates for a probe. */
  function Tick(due: seq<string>, entries: map<string, Entry>, g: Gates, now: Time, iv: int, accepts: string -> bool): Probed
    requires forall id <- due :: id in entries
  {
    var p := Probes(Candidates(due, entries, g, now), entries, g, now, iv, accepts);
    Probed(p.g, OpenTries(due, entries, g, now, accepts) + p.tries)
  }

  /** Nothing is tried early or through a closed gate: what a tick tries is due, and its credential has
      no gate or one that is half open; then it is a probe. */
  lemma TickTriesOnlyDue(due: seq<string>, entries: map<string, Entry>, g: Gates, now: Time, iv: int, accepts: string -> bool)
    requires iv > 0 && forall id <- due :: id in entries && IsDue(entries[id], iv, now) && 0.0 <= entries[id].r < 1.0
    ensures forall t <- Tick(due, entries, g, now, iv, accepts).tries ::
              && t.id in due && t.bind == entries[t.id].key.bind && t.started == accepts(t.id)
              && g.StateOf(t.bind, now) == (if t.probe then HalfOpen else NoGate)
              && 10 * (now - entries[t.id].base) >= 9 * iv
              && (entries[t.id].failures > 0 ==> now - entries[t.id].base >= FloorOf(iv, entries[t.id].failures, entries[t.id].lastErr))
  {
    hide Probes, WithState, FloorOf, DueAt, ByFailures;
    WithStateHas(due, entries, g, now, NoGate);
    ProbesKeepStates(Candidates(due, entries, g, now), entries, g, now, iv, accepts);
    forall id <- due
      ensures 10 * (now - entries[id].base) >= 9 * iv
      ensures entries[id].failures > 0 ==> now - entries[id].base >= FloorOf(iv, entries[id].failures, entries[id].lastErr)
    {
      DueIsLate(entries[id], iv, now);
    }
  }

  lemma DueIsLate(e: Entry, iv: int, now: Time)
    requires iv > 0 && IsDue(e, iv, now) && 0.0 <= e.r < 1.0
    ensures 10 * (now - e.base) >= 9 * iv
    ensures e.failures > 0 ==> now - e.base >= FloorOf(iv, e.failures, e.lastErr)
  {
    hide FloorOf;
    DelayBounds(e, iv);
  }

  /** Nothing is forgotten: every due repository without a gate is tried, and every one behind a half
      open gate too, unless a probe of the same credential with no more failures started. Of the
      probes tried of one credential only the last can have started. */
  lemma TickTriesAllDue(due: seq<string>, entries: map<string, Entry>, g: Gates, now: Time, iv: int, accepts: string -> bool)
    requires iv > 0 && forall id <- due :: id in entries
    ensures var tries := Tick(due, entries, g, now, iv, accepts).tries;
            && (forall id <- due | g.StateOf(entries[id].key.bind, now) == NoGate :: IsTried(tries, id))
            && (forall id <- due | g.StateOf(entries[id].key.bind, now) == HalfOpen :: IsTried(tries, id) || IsBeaten(tries, entries, id))
            && OneProbeEach(Probes(Candidates(due, entries, g, now), entries, g, now, iv, accepts).tries, entries)
  {
    hide Probes, WithState, ByFailures, OneProbeEach;
    var ids := Candidates(due, entries, g, now);
    var open, probes := OpenTries(due, entries, g, now, accepts), Probes(ids, entries, g, now, iv, accepts).tries;
    WithStateHas(due, entries, g, now, NoGate);
    WithStateHas(due, entries, g, now, HalfOpen);
    ByFailuresIsSorted(WithState(due, entries, g, now, HalfOpen), entries);
    OneProbeForEach(ids, entries, g, now, iv, accepts);
    forall id <- due | g.StateOf(entries[id].key.bind, now) == NoGate ensures IsTried(open + probes, id) {
      var open0 := WithState(due, entries, g, now, NoGate);
      var i :| 0 <= i < |open0| && open0[i] == id;
      assert open[i].id == id && open[i] in open + probes;
    }
    assert forall t <- probes :: t in open + probes;
  }

  // ---------------------------------------------------------------- the scheduler as an object

  function DueSet(entries: map<string, Entry>, iv: int, now: Time): set<string> {
    set id | id in entries && IsDue(entries[id], iv, now)
  }

  /** After a suspension, what fell due meanwhile is spread out. */
  function Resumed(entries: map<string, Entry>, iv: int, now: Time, spread: string -> real): map<string, Entry> {
    map id | id in entries ::
      if id in DueSet(entries, iv, now) then HeldBack(entries[id], iv, now, spread(id)) else entries[id]
  }

  function HeldBack(e: Entry, iv: int, now: Time, x: real): Entry {
    e.(notBefore := Some(now + Part(Draw(x), Min(iv, MAX_STAGGER))))
  }

  predicate StartedIn(tries: seq<Try>, id: string) { exists t <- tries :: t.id == id && t.started }

  function AfterTries(entries: map<string, Entry>, tries: seq<Try>, now: Time, redraw: string -> real): map<string, Entry> {
    map id | id in entries :: if StartedIn(tries, id) then Dispatched(entries[id], now, redraw(id)) else entries[id]
  }

  function Fresh(key: TargetKey, now: Time, r: real): Entry { Entry(key, now, Draw(r), true, false, 0, "", None) }

  predicate Counts(entries: map<string, Entry>, repo: string, key: TargetKey, ok: bool, failed: bool) {
    (ok || failed) && repo in entries && entries[repo].key == key
  }

  function Completed(e: Entry, ok: bool, errType: string, now: Time, r: real): Entry {
    e.(failures := if ok then 0 else e.failures + 1, lastErr := if ok then "" else errType,
       staggered := ok && !e.synced, synced := true, base := now, r := Draw(r))
  }

  class Scheduler {
    const gates: ProviderGates
    var entries: map<string, Entry>
    var wasSuspended: bool

    constructor ()
      ensures entries == map[] && !wasSuspended && fresh(gates) && gates.Value() == NO_GATES
    {
      gates := new ProviderGates();
      entries, wasSuspended := map[], false;
    }

    method Reconcile(want: map<string, TargetKey>, now: Time, draw: string -> real)
      modifies this`entries, gates
      ensures entries == Reconciled(old(entries), want, now, draw)
      ensures gates.Value() == Retained(old(gates.Value()), set id | id in want :: want[id].bind, want.Keys)
    {
      ForgetGone(want);
      StartFresh(want, now, draw);
      gates.Retain(set id | id in want :: want[id].bind, want.Keys);
    }

    method ForgetGone(want: map<string, TargetKey>)
      modifies this`entries
      ensures entries == map id | id in old(entries) && id in want :: old(entries)[id]
    {
      var left := entries.Keys;
      while left != {}
        invariant left <= old(entries).Keys
        invariant entries == map id | id in old(entries) && (id in left || id in want) :: old(entries)[id]
        decreases left
      {
        var id :| id in left;
        if id !in want {
          entries := entries - {id};
        }
        left := left - {id};
      }
    }

    method StartFresh(want: map<string, TargetKey>, now: Time, draw: string -> real)
      requires entries.Keys <= want.Keys
      modifies this`entries
      ensures entries == Reconciled(old(entries), want, now, draw)
    {
      var left := want.Keys;
      while left != {}
        invariant left <= want.Keys && entries.Keys <= want.Keys
        invariant forall id <- want :: if id in left then id in entries <==> id in old(entries) else id in entries
        invariant forall id <- entries ::
                    entries[id] == if id in left then old(entries)[id] else Reconciled(old(entries), want, now, draw)[id]
        decreases left
      {
        var id :| id in left;
        if !(id in entries && entries[id].key == want[id]) {
          entries := entries[id := Fresh(want[id], now, draw(id))];
        }
        left := left - {id};
      }
    }

    /** A finished sync. Neither a cancelled one nor one of another target counts. */
    method RecordCompletion(repo: string, key: TargetKey, ok: bool, failed: bool, errType: string, rejected: bool, startedAt: Time,
                            now: Time, interval: int, redraw: real)
      requires !(ok && failed)
      modifies this`entries, gates
      ensures Counts(old(entries), repo, key, ok, failed) ==>
                && entries == old(entries)[repo := Completed(old(entries)[repo], ok, errType, now, redraw)]
                && gates.Value() == if ok then AfterSuccess(old(gates.Value()), key.bind, startedAt)
                                    else if rejected then Armed(old(gates.Value()), key.bind, now, Max(EffectiveInterval(interval), BACKOFF_CAP))
                                    else old(gates.Value())
      ensures !Counts(old(entries), repo, key, ok, failed) ==> entries == old(entries) && gates.Value() == old(gates.Value())
    {
      if !ok && !failed {
        return;
      }
      if repo !in entries || entries[repo].key != key {
        return;
      }
      var e := entries[repo];
      if ok {
        e := e.(failures := 0, lastErr := "");
        var cleared := gates.Succeeded(key.bind, startedAt);
      } else {
        e := e.(failures := e.failures + 1, lastErr := errType);
        if rejected {
          var existed := gates.Arm(key.bind, now, Max(EffectiveInterval(interval), BACKOFF_CAP));
        }
      }
      e := e.(staggered := ok && !e.synced);
      e := e.(synced := true, base := now, r := Draw(redraw));
      entries := entries[repo := e];
    }

    /** The ids that are due, each once and in order. */
    method DueIDs(iv: int, now: Time) returns (ids: seq<string>)
      ensures Distinct(ids) && IsSorted(ids) && forall id :: id in ids <==> id in DueSet(entries, iv, now)
    {
      hide IsDue;
      ids := [];
      var left := entries.Keys;
      while left != {}
        invariant left <= entries.Keys && Distinct(ids)
        invariant forall id :: id in ids <==> id in DueSet(entries, iv, now) && id !in left
        decreases left
      {
        var id :| id in left;
        if IsDue(entries[id], iv, now) {
          ids := ids + [id];
        }
        left := left - {id};
      }
      RearrangedIsDistinct(ids, Sorted(ids));
      SortedIsSorted(ids);
      ids := Sorted(ids);
    }

    /** Starts a scheduled sync, or takes back what was granted for it. */
    method Dispatch(id: string, now: Time, undo: Undo, accepts: string -> bool, redraw: string -> real) returns (started: bool)
      requires id in entries
      modifies this`entries, gates
      ensures started == accepts(id)
      ensures entries == if started then old(entries)[id := Dispatched(old(entries)[id], now, redraw(id))] else old(entries)
      ensures gates.Value() == if started then old(gates.Value()) else TakenBack(old(gates.Value()), undo)
    {
      started := accepts(id);
      if !started {
        gates.TakeBackProbe(undo);
        return;
      }
      var e := entries[id];
      entries := entries[id := e.(base := now, r := Draw(redraw(id)), notBefore := None)];
    }

    method DispatchOpen(due: seq<string>, now: Time, accepts: string -> bool, redraw: string -> real)
      returns (tries: seq<Try>, halfOpen: seq<string>)
      requires forall id <- due :: id in entries
      modifies this`entries, gates
      ensures gates.Value() == old(gates.Value())
      ensures tries == OpenTries(due, old(entries), old(gates.Value()), now, accepts)
      ensures halfOpen == WithState(due, old(entries), old(gates.Value()), now, HalfOpen)
      ensures entries == AfterTries(old(entries), tries, now, redraw)
    {
      hide OpenTries, AfterTries, WithState;
      ghost var g, before := gates.Value(), entries;
      tries, halfOpen := [], [];
      NoTries(before, g, now, accepts, redraw);
      for k := 0 to |due|
        invariant gates.Value() == g && entries == AfterTries(before, tries, now, redraw)
        invariant forall id <- due[..k] :: id in before
        invariant tries == OpenTries(due[..k], before, g, now, accepts)
        invariant halfOpen == WithState(due[..k], before, g, now, HalfOpen)
      {
        var id := due[k];
        assert due[..k + 1] == due[..k] + [id];
        AfterTriesKeep(before, tries, now, redraw);
        var b := entries[id].key.bind;
        var s := gates.State(b, now);
        WithStateGrows(due[..k], id, before, g, now, HalfOpen);
        OpenTriesGrow(due[..k], id, before, g, now, accepts);
        if s == HalfOpen {
          halfOpen := halfOpen + [id];
        } else if s == NoGate {
          var started := Dispatch(id, now, Nothing, accepts, redraw);
          AfterOneMore(before, tries, Try(id, b, false, started), now, redraw);
          tries := tries + [Try(id, b, false, started)];
        }
      }
      assert due[..|due|] == due;
    }

    method ProbeHalfOpen(ids: seq<string>, now: Time, iv: int, accepts: string -> bool, redraw: string -> real) returns (tries: seq<Try>)
      requires forall id <- ids :: id in entries
      modifies this`entries, gates
      ensures Probed(gates.Value(), tries) == Probes(ids, old(entries), old(gates.Value()), now, iv, accepts)
      ensures entries == AfterTries(old(entries), tries, now, redraw)
    {
      ghost var g, before := gates.Value(), entries;
      tries := [];
      for k := 0 to |ids|
        invariant entries == AfterTries(before, tries, now, redraw)
        invariant forall id <- ids[..k] :: id in before
        invariant Probed(gates.Value(), tries) == Probes(ids[..k], before, g, now, iv, accepts)
      {
        hide AfterTries;
        var id := ids[k];
        assert ids[..k + 1] == ids[..k] + [id] && ids[..k + 1][..k] == ids[..k];
        AfterTriesKeep(before, tries, now, redraw);
        var b := entries[id].key.bind;
        ghost var p := Probed(gates.Value(), tries);
        var s := gates.State(b, now);
        if s == HalfOpen {
          TakingBackAtOnceRestores(p.g, b, id, now, iv);
          var undo := gates.Begin(b, id, now, iv);
          var started := Dispatch(id, now, undo, accepts, redraw);
          AfterOneMore(before, tries, Try(id, b, true, started), now, redraw);
          tries := tries + [Try(id, b, true, started)];
        }
        assert Probed(gates.Value(), tries) == ProbeOne(p, id, b, now, iv, accepts);
      }
      assert ids[..|ids|] == ids;
    }

    /** One tick. Suspended, it changes nothing but the note that it was. */
    method Poll(ended: bool, suspended: bool, now: Time, interval: int, accepts: string -> bool,
                spread: string -> real, redraw: string -> real)
      returns (due: seq<string>, tries: seq<Try>)
      modifies this`entries, this`wasSuspended, gates
      ensures ended || suspended ==> tries == [] && entries == old(entries) && gates.Value() == old(gates.Value())
      ensures wasSuspended == if ended then old(wasSuspended) else suspended
      ensures !ended && !suspended ==>
                var iv := EffectiveInterval(interval);
                var seen := if old(wasSuspended) then Resumed(old(entries), iv, now, spread) else old(entries);
                && Distinct(due) && IsSorted(due) && (forall id :: id in due <==> id in DueSet(seen, iv, now))
                && Probed(gates.Value(), tries) == Tick(due, seen, old(gates.Value()), now, iv, accepts)
                && entries == AfterTries(seen, tries, now, redraw)
    {
      due, tries := [], [];
      if ended {
        return;
      }
      if suspended {
        wasSuspended := true;
        return;
      }
      var iv := EffectiveInterval(interval);
      due := DueIDs(iv, now);
      if wasSuspended {
        wasSuspended := false;
        SpreadOut(due, iv, now, spread);
        due := DueIDs(iv, now);
      }
      ghost var seen := entries;
      var halfOpen;
      tries, halfOpen := DispatchOpen(due, now, accepts, redraw);
      ghost var between := entries;
      ProbesSeeKeys(due, seen, between, tries, gates.Value(), now, iv, accepts, redraw);
      var candidates := ByFailures(halfOpen, entries);
      var probes := ProbeHalfOpen(candidates, now, iv, accepts, redraw);
      AfterBoth(seen, tries, probes, now, redraw);
      tries := tries + probes;
    }

    method SpreadOut(due: seq<string>, iv: int, now: Time, spread: string -> real)
      requires forall id :: id in due <==> id in DueSet(entries, iv, now)
      modifies this`entries
      ensures entries == Resumed(old(entries), iv, now, spread)
    {
      hide IsDue, Part, Draw;
      for k := 0 to |due|
        invariant entries.Keys == old(entries).Keys
        invariant forall id <- entries :: entries[id] == if id in due[..k] then HeldBack(old(entries)[id], iv, now, spread(id)) else old(entries)[id]
      {
        var id := due[k];
        assert due[..k + 1] == due[..k] + [id] && id in due;
        entries := entries[id := HeldBack(entries[id], iv, now, spread(id))];
      }
      assert due[..|due|] == due;
    }
  }

  function Reconciled(entries: map<string, Entry>, want: map<string, TargetKey>, now: Time, draw: string -> real): map<string, Entry> {
    map id | id in want :: if id in entries && entries[id].key == want[id] then entries[id] else Fresh(want[id], now, draw(id))
  }

  lemma WithStateGrows(ids: seq<string>, id: string, entries: map<string, Entry>, g: Gates, now: Time, s: GateState)
    requires forall x <- ids + [id] :: x in entries
    ensures (forall x <- ids :: x in entries) && id in entries
    ensures WithState(ids + [id], entries, g, now, s)
              == WithState(ids, entries, g, now, s) + if g.StateOf(entries[id].key.bind, now) == s then [id] else []
  {
    assert (ids + [id])[..|ids|] == ids && id in ids + [id] && forall x <- ids :: x in ids + [id];
  }

  lemma OpenTriesGrow(ids: seq<string>, id: string, entries: map<string, Entry>, g: Gates, now: Time, accepts: string -> bool)
    requires (forall x <- ids + [id] :: x in entries) && (forall x <- ids :: x in entries) && id in entries
    ensures OpenTries(ids + [id], entries, g, now, accepts)
              == OpenTries(ids, entries, g, now, accepts)
                 + if g.StateOf(entries[id].key.bind, now) == NoGate then [Try(id, entries[id].key.bind, false, accepts(id))] else []
  {
    hide WithState;
    WithStateGrows(ids, id, entries, g, now, NoGate);
  }

  lemma NoTries(entries: map<string, Entry>, g: Gates, now: Time, accepts: string -> bool, redraw: string -> real)
    ensures OpenTries([], entries, g, now, accepts) == [] && AfterTries(entries, [], now, redraw) == entries
    ensures WithState([], entries, g, now, HalfOpen) == []
  {
  }

  lemma AfterTriesKeep(entries: map<string, Entry>, tries: seq<Try>, now: Time, redraw: string -> real)
    ensures AfterTries(entries, tries, now, redraw).Keys == entries.Keys
    ensures forall id <- entries :: AfterTries(entries, tries, now, redraw)[id].key == entries[id].key
                                    && AfterTries(entries, tries, now, redraw)[id].failures == entries[id].failures
  {
  }

  lemma AfterOneMore(entries: map<string, Entry>, tries: seq<Try>, t: Try, now: Time, redraw: string -> real)
    requires t.id in entries
    ensures var mid := AfterTries(entries, tries, now, redraw);
            AfterTries(entries, tries + [t], now, redraw)
              == if t.started then mid[t.id := Dispatched(mid[t.id], now, redraw(t.id))] else mid
  {
    forall id ensures StartedIn(tries + [t], id) <==> StartedIn(tries, id) || (t.id == id && t.started) {
      assert t in tries + [t] && forall x <- tries :: x in tries + [t];
    }
  }

  lemma AfterBoth(entries: map<string, Entry>, a: seq<Try>, b: seq<Try>, now: Time, redraw: string -> real)
    ensures AfterTries(AfterTries(entries, a, now, redraw), b, now, redraw) == AfterTries(entries, a + b, now, redraw)
  {
    forall id ensures StartedIn(a + b, id) <==> StartedIn(a, id) || StartedIn(b, id) {
      assert forall x <- a :: x in a + b;
      assert forall x <- b :: x in a + b;
    }
  }

  predicate SameKeys(a: map<string, Entry>, b: map<string, Entry>) {
    a.Keys == b.Keys && forall id <- a :: a[id].key == b[id].key && a[id].failures == b[id].failures
  }

  lemma {:induction false} ByFailuresSeesKeys(ids: seq<string>, a: map<string, Entry>, b: map<string, Entry>)
    requires SameKeys(a, b) && forall x <- ids :: x in a
    ensures ByFailures(ids, a) == ByFailures(ids, b)
  {
    if ids != [] {
      var front, id := ids[..|ids| - 1], ids[|ids| - 1];
      assert ids == front + [id];
      ByFailuresSeesKeys(front, a, b);
      PlacedSeesKeys(ByFailures(front, a), id, a, b);
    }
  }

  lemma {:induction false} PlacedSeesKeys(ids: seq<string>, id: string, a: map<string, Entry>, b: map<string, Entry>)
    requires SameKeys(a, b) && (forall x <- ids + [id] :: x in a)
    ensures Placed(ids, id, a) == Placed(ids, id, b)
  {
    if ids != [] {
      assert forall x <- ids[..|ids| - 1] + [id] :: x in ids + [id];
      PlacedSeesKeys(ids[..|ids| - 1], id, a, b);
      assert ids[|ids| - 1] in ids + [id] && id in ids + [id];
    }
  }

  lemma {:induction false} ProbesSeeOnlyKeys(ids: seq<string>, a: map<string, Entry>, b: map<string, Entry>, g: Gates, now: Time, iv: int, accepts: string -> bool)
    requires SameKeys(a, b) && forall x <- ids :: x in a
    ensures Probes(ids, a, g, now, iv, accepts) == Probes(ids, b, g, now, iv, accepts)
  {
    if ids != [] {
      hide ProbeOne;
      ProbesSeeOnlyKeys(ids[..|ids| - 1], a, b, g, now, iv, accepts);
      assert ids[|ids| - 1] in ids;
    }
  }

  /** Dispatching changes neither keys nor failures, so the probes are those of the entries before. */
  lemma ProbesSeeKeys(due: seq<string>, seen: map<string, Entry>, between: map<string, Entry>, tries: seq<Try>, g: Gates,
                      now: Time, iv: int, accepts: string -> bool, redraw: string -> real)
    requires (forall id <- due :: id in seen) && between == AfterTries(seen, tries, now, redraw)
    ensures forall id <- WithState(due, seen, g, now, HalfOpen) :: id in between
    ensures forall id <- Candidates(due, seen, g, now) :: id in between
    ensures ByFailures(WithState(due, seen, g, now, HalfOpen), between) == Candidates(due, seen, g, now)
    ensures Probes(Candidates(due, seen, g, now), between, g, now, iv, accepts) == Probes(Candidates(due, seen, g, now), seen, g, now, iv, accepts)
  {
    hide ByFailures, Probes, WithState, AfterTries;
    AfterTriesKeep(seen, tries, now, redraw);
    WithStateHas(due, seen, g, now, HalfOpen);
    ByFailuresSeesKeys(WithState(due, seen, g, now, HalfOpen), seen, between);
    ProbesSeeOnlyKeys(Candidates(due, seen, g, now), seen, between, g, now, iv, accepts);
  }
}
