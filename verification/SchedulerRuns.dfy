/** Every sequence of completions, reconciliations and ticks a scheduler can go through, and when a
    repository is due again after what happened to it (internal/gitsync/scheduler.go). */
module SchedulerRuns {
  import opened Basics
  import opened Option
  import opened ProviderGates
  import opened Scheduler

  datatype State = State(entries: map<string, Entry>, wasSuspended: bool)

  /** A sync that ended (neither `ok` nor `failed`: cancelled), a reconciliation, a tick while syncing is
      suspended, and a tick that started what was due. The gates, the manager's answers and the draws are
      inputs. */
  datatype Event =
    | Completes(repo: string, key: TargetKey, ok: bool, failed: bool, errType: string, now: Time, draw: real)
    | Reconciles(want: map<string, TargetKey>, now: Time, draws: string -> real)
    | Suspends
    | Polls(now: Time, interval: int, g: Gates, accepts: string -> bool, spread: string -> real, draws: string -> real, due: seq<string>)

  const START := State(map[], false)

  function Seen(s: State, interval: int, now: Time, spread: string -> real): map<string, Entry> {
    if s.wasSuspended then Resumed(s.entries, EffectiveInterval(interval), now, spread) else s.entries
  }

  ghost predicate Legal(s: State, e: Event) {
    match e
    case Completes(_, _, ok, failed, _, _, _) => !(ok && failed)
    case Polls(now, interval, _, _, spread, _, due) =>
      forall id :: id in due <==> id in DueSet(Seen(s, interval, now, spread), EffectiveInterval(interval), now)
    case _ => true
  }

  ghost function Tries(s: State, e: Event): seq<Try>
    requires Legal(s, e) && e.Polls?
  {
    Tick(e.due, Seen(s, e.interval, e.now, e.spread), e.g, e.now, EffectiveInterval(e.interval), e.accepts).tries
  }

  ghost function Next(s: State, e: Event): State
    requires Legal(s, e)
  {
    match e
    case Completes(repo, key, ok, failed, errType, now, draw) =>
      if Counts(s.entries, repo, key, ok, failed) then s.(entries := s.entries[repo := Completed(s.entries[repo], ok, errType, now, draw)])
      else s
    case Reconciles(want, now, draws) => s.(entries := Reconciled(s.entries, want, now, draws))
    case Suspends => s.(wasSuspended := true)
    case Polls(now, interval, _, _, spread, draws, _) =>
      State(AfterTries(Seen(s, interval, now, spread), Tries(s, e), now, draws), false)
  }

  ghost predicate IsRun(ss: seq<State>, es: seq<Event>) {
    && |ss| == |es| + 1 && ss[0] == START
    && forall i {:trigger es[i]} | 0 <= i < |es| :: Legal(ss[i], es[i]) && ss[i + 1] == Next(ss[i], es[i])
  }

  // ---------------------------------------------------------------- one step of one entry

  predicate Succeeds(e: Event, id: string, key: TargetKey) { e.Completes? && e.repo == id && e.key == key && e.ok }

  predicate Fails(e: Event, id: string, key: TargetKey) { e.Completes? && e.repo == id && e.key == key && e.failed }

  /** The tick starts a sync of `id`. */
  ghost predicate Starts(s: State, e: Event, id: string) {
    e.Polls? && Legal(s, e) && exists t <- Tries(s, e) :: t.id == id && t.started
  }

  predicate Holds(s: State, id: string, key: TargetKey) { id in s.entries && s.entries[id].key == key }

  lemma StepOfEntry(s: State, e: Event, id: string, key: TargetKey)
    requires Legal(s, e) && Holds(s, id, key) && Holds(Next(s, e), id, key)
    ensures var (was, now) := (s.entries[id], Next(s, e).entries[id]);
            && now.failures == (if Succeeds(e, id, key) then 0 else if Fails(e, id, key) then was.failures + 1 else was.failures)
            && now.lastErr == (if Succeeds(e, id, key) then "" else if Fails(e, id, key) then e.errType else was.lastErr)
            && now.synced == (was.synced || Succeeds(e, id, key) || Fails(e, id, key))
            && now.staggered == (if Succeeds(e, id, key) then !was.synced else !Fails(e, id, key) && was.staggered)
            && now.base == (if Succeeds(e, id, key) || Fails(e, id, key) || Starts(s, e, id) then e.now else was.base)
  {
    hide Tries, DueSet, Part, Draw;
  }

  /** The jitter is drawn anew just when the time it is added to moves, and a start ends a hold. */
  lemma StepOfDraw(s: State, e: Event, id: string, key: TargetKey)
    requires Legal(s, e) && Holds(s, id, key) && Holds(Next(s, e), id, key)
    ensures var (was, now) := (s.entries[id], Next(s, e).entries[id]);
            && now.r == (if Succeeds(e, id, key) || Fails(e, id, key) then Draw(e.draw) else if Starts(s, e, id) then Draw(e.draws(id)) else was.r)
            && (Starts(s, e, id) ==> now.notBefore == None) && (!e.Polls? ==> now.notBefore == was.notBefore)
  {
    hide Tries, DueSet, Part, Draw;
  }

  lemma StartOfEntry(s: State, e: Event, id: string, key: TargetKey)
    requires Legal(s, e) && !Holds(s, id, key) && Holds(Next(s, e), id, key)
    ensures var now := Next(s, e).entries[id];
            e.Reconciles? && now.failures == 0 && now.lastErr == "" && !now.synced && now.staggered && now.base == e.now
  {
    hide Tries, DueSet, Part, Draw;
  }

  // ---------------------------------------------------------------- over a run

  lemma StepKeepsTargets(s: State, e: Event, id: string, key: TargetKey)
    requires Legal(s, e)
    ensures Holds(Next(s, e), id, key) <==> if e.Reconciles? then id in e.want && e.want[id] == key else Holds(s, id, key)
  {
    hide Tries, DueSet, Part, Draw;
  }

  /** What is scheduled is what the last reconciliation wanted, under the target it wanted. */
  lemma {:induction false} ScheduledAreWanted(ss: seq<State>, es: seq<Event>, m: nat, j: nat, id: string, key: TargetKey)
    requires IsRun(ss, es) && m < j < |ss| && es[m].Reconciles? && forall k | m < k < j :: !es[k].Reconciles?
    ensures Holds(ss[j], id, key) <==> id in es[m].want && es[m].want[id] == key
    decreases j
  {
    hide Next, Legal, Holds;
    if m + 1 < j {
      ScheduledAreWanted(ss, es, m, j - 1, id, key);
    }
    StepKeepsTargets(ss[j - 1], es[j - 1], id, key);
  }

  ghost predicate DrawsInRange(s: State) { forall id <- s.entries :: 0.0 <= s.entries[id].r < 1.0 }

  lemma StepKeepsDraws(s: State, e: Event)
    requires Legal(s, e) && DrawsInRange(s)
    ensures DrawsInRange(Next(s, e))
  {
    hide Tries, DueSet, Part, Draw;
  }

  lemma {:induction false} AlwaysInRange(ss: seq<State>, es: seq<Event>, i: nat)
    requires IsRun(ss, es) && i < |ss|
    ensures DrawsInRange(ss[i])
  {
    if i > 0 {
      hide DrawsInRange, Next, Legal;
      AlwaysInRange(ss, es, i - 1);
      StepKeepsDraws(ss[i - 1], es[i - 1]);
    } else {
      hide IsRun;
    }
  }

  /** The repository is scheduled with one target from `i` to `j`. */
  ghost predicate Stays(ss: seq<State>, i: nat, j: nat, id: string, key: TargetKey) {
    forall k | i <= k <= j < |ss| :: Holds(ss[k], id, key)
  }

  /** At `i` its target is new, or its sync has just succeeded. */
  ghost predicate CleanAt(ss: seq<State>, es: seq<Event>, i: nat, id: string, key: TargetKey)
    requires 0 < i <= |es| < |ss|
  {
    !Holds(ss[i - 1], id, key) || Succeeds(es[i - 1], id, key)
  }

  ghost function FailuresIn(es: seq<Event>, i: nat, j: nat, id: string, key: TargetKey): set<nat>
    requires i <= j <= |es|
  {
    set k: nat | i <= k < j && Fails(es[k], id, key)
  }

  lemma FailuresGrow(es: seq<Event>, i: nat, j: nat, id: string, key: TargetKey)
    requires i < j <= |es|
    ensures FailuresIn(es, i, j, id, key) == FailuresIn(es, i, j - 1, id, key) + if Fails(es[j - 1], id, key) then {j - 1} else {}
  {
  }

  lemma CleanStart(ss: seq<State>, es: seq<Event>, i: nat, id: string, key: TargetKey)
    requires IsRun(ss, es) && 0 < i < |ss| && Holds(ss[i], id, key) && CleanAt(ss, es, i, id, key)
    ensures ss[i].entries[id].failures == 0 && ss[i].entries[id].lastErr == ""
  {
    assert Legal(ss[i - 1], es[i - 1]) && ss[i] == Next(ss[i - 1], es[i - 1]);
    hide IsRun, Next, Legal;
    if Holds(ss[i - 1], id, key) {
      StepOfEntry(ss[i - 1], es[i - 1], id, key);
    } else {
      StartOfEntry(ss[i - 1], es[i - 1], id, key);
    }
  }

  /** While a target stays scheduled, its failure count is the number of its syncs that failed since it was
      new or a sync of it succeeded. Cancelled syncs, those of other repositories and targets, ticks and
      reconciliations do not count. */
  lemma {:induction false} FailuresAreCounted(ss: seq<State>, es: seq<Event>, i: nat, j: nat, id: string, key: TargetKey)
    requires IsRun(ss, es) && 0 < i <= j < |ss| && Stays(ss, i, j, id, key) && CleanAt(ss, es, i, id, key)
    requires forall k | i <= k < j :: !Succeeds(es[k], id, key)
    ensures ss[j].entries[id].failures == |FailuresIn(es, i, j, id, key)|
    decreases j
  {
    assert Holds(ss[j], id, key) && Legal(ss[j - 1], es[j - 1]);
    hide Next, Legal;
    if i == j {
      CleanStart(ss, es, i, id, key);
    } else {
      FailuresAreCounted(ss, es, i, j - 1, id, key);
      StepOfEntry(ss[j - 1], es[j - 1], id, key);
      FailuresGrow(es, i, j, id, key);
    }
  }

  /** The last of some events. */
  ghost predicate IsLast(k: nat, ks: set<nat>) { k in ks && forall m <- ks :: m <= k }

  /** And its error is that of the last of them. */
  lemma {:induction false} LastErrorIsKept(ss: seq<State>, es: seq<Event>, i: nat, j: nat, id: string, key: TargetKey)
    requires IsRun(ss, es) && 0 < i <= j < |ss| && Stays(ss, i, j, id, key) && CleanAt(ss, es, i, id, key)
    requires forall k | i <= k < j :: !Succeeds(es[k], id, key)
    ensures FailuresIn(es, i, j, id, key) == {} ==> ss[j].entries[id].lastErr == ""
    ensures forall k: nat | IsLast(k, FailuresIn(es, i, j, id, key)) :: ss[j].entries[id].lastErr == es[k].errType
    decreases j
  {
    assert Holds(ss[j], id, key) && Legal(ss[j - 1], es[j - 1]);
    hide Next, Legal;
    if i == j {
      CleanStart(ss, es, i, id, key);
    } else {
      LastErrorIsKept(ss, es, i, j - 1, id, key);
      StepOfEntry(ss[j - 1], es[j - 1], id, key);
      FailuresGrow(es, i, j, id, key);
    }
  }

  ghost function CompletionsIn(es: seq<Event>, i: nat, j: nat, id: string, key: TargetKey): set<nat>
    requires i <= j <= |es|
  {
    set k: nat | i <= k < j && (Succeeds(es[k], id, key) || Fails(es[k], id, key))
  }

  /** No sync of the target has ended since `i`, or one has, and it succeeded. */
  ghost predicate FirstRuns(es: seq<Event>, i: nat, j: nat, id: string, key: TargetKey)
    requires i <= j <= |es|
  {
    forall k, m | k in CompletionsIn(es, i, j, id, key) && m in CompletionsIn(es, i, j, id, key) :: k == m && Succeeds(es[k], id, key)
  }

  lemma CompletionsGrow(es: seq<Event>, i: nat, j: nat, id: string, key: TargetKey)
    requires i < j <= |es|
    ensures CompletionsIn(es, i, j, id, key)
              == CompletionsIn(es, i, j - 1, id, key) + if Succeeds(es[j - 1], id, key) || Fails(es[j - 1], id, key) then {j - 1} else {}
  {
  }

  lemma FirstRunsGrow(es: seq<Event>, i: nat, j: nat, id: string, key: TargetKey)
    requires i < j <= |es| && !(Succeeds(es[j - 1], id, key) && Fails(es[j - 1], id, key))
    ensures FirstRuns(es, i, j, id, key) <==>
              if Fails(es[j - 1], id, key) then false
              else if Succeeds(es[j - 1], id, key) then CompletionsIn(es, i, j - 1, id, key) == {}
              else FirstRuns(es, i, j - 1, id, key)
  {
    CompletionsGrow(es, i, j, id, key);
    hide CompletionsIn;
    var before, after := CompletionsIn(es, i, j - 1, id, key), CompletionsIn(es, i, j, id, key);
    if Fails(es[j - 1], id, key) {
      assert j - 1 in after;
    } else if Succeeds(es[j - 1], id, key) {
      if k :| k in before {
        NotYet(es, i, j, id, key);
        assert k in after && j - 1 in after;
      }
    }
  }

  lemma NotYet(es: seq<Event>, i: nat, j: nat, id: string, key: TargetKey)
    requires i < j <= |es|
    ensures j - 1 !in CompletionsIn(es, i, j - 1, id, key)
  {
  }

  /** The wide spread of a new target's runs lasts until its second sync has ended, or one has failed. */
  lemma {:induction false} StaggeredWhileNew(ss: seq<State>, es: seq<Event>, i: nat, j: nat, id: string, key: TargetKey)
    requires IsRun(ss, es) && 0 < i <= j < |ss| && Stays(ss, i, j, id, key) && !Holds(ss[i - 1], id, key)
    ensures ss[j].entries[id].synced <==> CompletionsIn(es, i, j, id, key) != {}
    ensures ss[j].entries[id].staggered <==> FirstRuns(es, i, j, id, key)
    decreases j
  {
    assert Holds(ss[j], id, key) && Legal(ss[j - 1], es[j - 1]) && ss[j] == Next(ss[j - 1], es[j - 1]);
    if i == j {
      hide IsRun, Next, Legal;
      StartOfEntry(ss[i - 1], es[i - 1], id, key);
    } else {
      hide Next, FirstRuns, CompletionsIn;
      StaggeredWhileNew(ss, es, i, j - 1, id, key);
      StepOfEntry(ss[j - 1], es[j - 1], id, key);
      CompletionsGrow(es, i, j, id, key);
      FirstRunsGrow(es, i, j, id, key);
    }
  }

  /** How long a repository waits, from what happened to it. After `n` failures in a row, the last with the
      error of event `k`: the backoff of `n` such failures and up to a fifth. Otherwise: of a new target,
      the interval and up to two minutes; else the interval, give or take a tenth. */
  lemma DelayAfter(ss: seq<State>, es: seq<Event>, h: nat, i: nat, j: nat, id: string, key: TargetKey, iv: int)
    requires IsRun(ss, es) && 0 < h <= i <= j < |ss| && Stays(ss, h, j, id, key) && iv > 0
    requires !Holds(ss[h - 1], id, key) && CleanAt(ss, es, i, id, key)
    requires forall k | i <= k < j :: !Succeeds(es[k], id, key)
    ensures id in ss[j].entries
    ensures var (failed, d) := (FailuresIn(es, i, j, id, key), Delay(ss[j].entries[id], iv));
            && (forall k: nat | IsLast(k, failed) ::
                  var floor := FloorOf(iv, |failed|, es[k].errType);
                  floor <= d <= floor + floor / 5)
            && (failed == {} && FirstRuns(es, h, j, id, key) ==> iv <= d < iv + Min(iv, 2 * MINUTE))
            && (failed == {} && !FirstRuns(es, h, j, id, key) ==> iv - iv / 10 <= d <= iv - iv / 10 + iv / 5)
  {
    hide IsRun, FirstRuns, Delay, FloorOf;
    FailuresAreCounted(ss, es, i, j, id, key);
    LastErrorIsKept(ss, es, i, j, id, key);
    StaggeredWhileNew(ss, es, h, j, id, key);
    AlwaysInRange(ss, es, j);
    assert Holds(ss[j], id, key);
    DelayBounds(ss[j].entries[id], iv);
  }

  /** The event sets the time from which the delay is measured: the repository's target is new, its sync
      ended, or a tick started one. */
  ghost predicate Sets(s: State, e: Event, id: string, key: TargetKey) {
    !Holds(s, id, key) || Succeeds(e, id, key) || Fails(e, id, key) || Starts(s, e, id)
  }

  lemma {:induction false} MeasuredFrom(ss: seq<State>, es: seq<Event>, m: nat, j: nat, id: string, key: TargetKey)
    requires IsRun(ss, es) && m < j < |ss| && Stays(ss, m + 1, j, id, key)
    requires Sets(ss[m], es[m], id, key)
    requires forall k | m < k < j :: !Sets(ss[k], es[k], id, key)
    ensures id in ss[j].entries && !es[m].Suspends? && ss[j].entries[id].base == es[m].now
    decreases j
  {
    assert Holds(ss[j], id, key) && Legal(ss[j - 1], es[j - 1]);
    hide Next, Legal, Starts;
    if m + 1 == j {
      if Holds(ss[m], id, key) {
        StepOfEntry(ss[m], es[m], id, key);
      } else {
        StartOfEntry(ss[m], es[m], id, key);
      }
    } else {
      MeasuredFrom(ss, es, m, j - 1, id, key);
      StepOfEntry(ss[j - 1], es[j - 1], id, key);
    }
  }

  /** After a suspension an entry is due only if it was before, and keeps all but its hold. */
  lemma SeenAreOurs(s: State, interval: int, now: Time, spread: string -> real, id: string)
    requires id in s.entries
    ensures var (iv, seen) := (EffectiveInterval(interval), Seen(s, interval, now, spread));
            && id in seen && seen[id] == s.entries[id].(notBefore := seen[id].notBefore)
            && (IsDue(seen[id], iv, now) ==> IsDue(s.entries[id], iv, now))
            && (!s.wasSuspended || !IsDue(s.entries[id], iv, now) ==> seen[id] == s.entries[id])
            && (s.wasSuspended && IsDue(s.entries[id], iv, now) ==>
                  seen[id].notBefore.Some? && now <= seen[id].notBefore.value < now + Min(iv, 2 * MINUTE))
  {
    hide Delay, Part;
    var iv := EffectiveInterval(interval);
    PartIsWithin(Draw(spread(id)), Min(iv, MAX_STAGGER));
  }

  lemma TickWaits(s: State, e: Event, id: string)
    requires DrawsInRange(s) && Starts(s, e, id)
    ensures e.Polls? && id in s.entries && IsDue(s.entries[id], EffectiveInterval(e.interval), e.now) && e.accepts(id)
    ensures e.g.StateOf(s.entries[id].key.bind, e.now) != Closed
  {
    var iv, seen := EffectiveInterval(e.interval), Seen(s, e.interval, e.now, e.spread);
    var t :| t in Tries(s, e) && t.id == id && t.started;
    hide Tick, IsDue, Seen;
    forall x <- e.due ensures x in seen && IsDue(seen[x], iv, e.now) && 0.0 <= seen[x].r < 1.0 {
      assert x in DueSet(seen, iv, e.now);
      SeenHasOurs(s, e.interval, e.now, e.spread);
      SeenAreOurs(s, e.interval, e.now, e.spread, x);
    }
    TickTriesOnlyDue(e.due, seen, e.g, e.now, iv, e.accepts);
    SeenAreOurs(s, e.interval, e.now, e.spread, id);
  }

  lemma SeenHasOurs(s: State, interval: int, now: Time, spread: string -> real)
    ensures Seen(s, interval, now, spread).Keys == s.entries.Keys
  {
  }

  /** A tick starts a sync no sooner than the wait asks: after `n` failures in a row the backoff of `n`
      failures lies between the last one's end and the start; of a new target, or after a success of one,
      the interval; after later successes nine tenths of it. */
  lemma NextRunWaits(ss: seq<State>, es: seq<Event>, h: nat, i: nat, m: nat, j: nat, id: string, key: TargetKey)
    requires IsRun(ss, es) && 0 < h <= i <= j < |es| && h <= m + 1 <= j && Stays(ss, h, j, id, key)
    requires !Holds(ss[h - 1], id, key) && CleanAt(ss, es, i, id, key)
    requires forall k | i <= k < j :: !Succeeds(es[k], id, key)
    requires Sets(ss[m], es[m], id, key)
    requires forall k | m < k < j :: !Sets(ss[k], es[k], id, key)
    requires Starts(ss[j], es[j], id)
    ensures es[j].Polls? && !es[m].Suspends?
    ensures var (iv, failed, wait) := (EffectiveInterval(es[j].interval), FailuresIn(es, i, j, id, key), es[j].now - es[m].now);
            && (forall k: nat | IsLast(k, failed) :: wait >= FloorOf(iv, |failed|, es[k].errType))
            && (failed == {} ==> wait >= if FirstRuns(es, h, j, id, key) then iv else iv - iv / 10)
  {
    hide FirstRuns, Delay, FloorOf, Sets, Starts, Legal, Draw, Next;
    AlwaysInRange(ss, es, j);
    hide IsRun;
    TickWaits(ss[j], es[j], id);
    MeasuredFrom(ss, es, m, j, id, key);
    DelayAfter(ss, es, h, i, j, id, key, EffectiveInterval(es[j].interval));
  }

  /** A tick that is not the first after a suspension looks at exactly the repositories whose wait is over;
      the first one after it puts those off for up to two minutes, and leaves the others alone. */
  lemma ComesDue(ss: seq<State>, es: seq<Event>, j: nat, id: string)
    requires IsRun(ss, es) && j < |es| && es[j].Polls? && id in ss[j].entries
    ensures var (e, iv, now) := (ss[j].entries[id], EffectiveInterval(es[j].interval), es[j].now);
            var over := now >= e.base + Delay(e, iv) && (e.notBefore.Some? ==> now >= e.notBefore.value);
            if !ss[j].wasSuspended then id in es[j].due <==> over
            else if over then
              id in ss[j + 1].entries
              && (!Starts(ss[j], es[j], id) ==>
                    exists until | now <= until < now + Min(iv, 2 * MINUTE) :: ss[j + 1].entries[id] == e.(notBefore := Some(until)))
            else id !in es[j].due
  {
    var s, e := ss[j], es[j];
    assert Legal(s, e) && ss[j + 1] == Next(s, e);
    hide IsRun, Delay, Part, Draw, Tick;
    SeenAreOurs(s, e.interval, e.now, e.spread, id);
    SeenHasOurs(s, e.interval, e.now, e.spread);
  }
}
