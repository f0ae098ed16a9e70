/** The push stage refines one push that prunes: the same replica and the same count when it succeeds,
    and nothing deleted when it stops short (internal/gitsync/pushbatch.go). */
module PushStage {
  import opened Basics
  import opened Option
  import opened Sorting
  import opened Text
  import opened PushReport
  import opened PushBatch

  // ---------------------------------------------------------------- pushes

  datatype PushState = Done | Pending | Failed

  /** Where a push stage stands: the replica, how it fares, and the refs counted as changed. */
  datatype Progress = Progress(replica: Refs, state: PushState, changed: nat)

  /** How a push process ends: it runs to its end, or it is cancelled, refused a start or fails with
      some of its work done and some of it reported. */
  datatype End = Completes | Stops(cancelled: bool, applied: set<string>, reported: nat)

  function RefusedOf(mirror: Refs, replica: Refs, names: set<string>): set<string> {
    set n | n in names && Refused(mirror, replica.Keys + names, n)
  }

  function Stopped(end: End): PushState
    requires end.Stops?
  {
    if end.cancelled then Pending else Failed
  }

  /** One explicit push without prune: what git refuses is left alone and fails the push. */
  function SendBatch(mirror: Refs, p: Progress, batch: seq<string>, end: End): Progress {
    var refused := RefusedOf(mirror, p.replica, Names(batch));
    var sent := Names(batch) - refused;
    match end
    case Completes =>
      Progress(Aligned(mirror, p.replica, sent), if refused == {} then Done else Failed,
               p.changed + |Differing(mirror, p.replica) * sent|)
    case Stops(_, applied, reported) =>
      Progress(Aligned(mirror, p.replica, sent * applied), Stopped(end), p.changed + reported)
  }

  /** The push of everything, with prune. */
  function SendAll(mirror: Refs, p: Progress, end: End): Progress {
    match end
    case Completes => Progress(mirror, Done, p.changed + |Differing(mirror, p.replica)|)
    case Stops(_, applied, reported) => Progress(Aligned(mirror, p.replica, applied), Stopped(end), p.changed + reported)
  }

  /** The first `k` batches, as far as they get. */
  function Batched(mirror: Refs, replica: Refs, batches: seq<seq<string>>, ends: nat -> End, k: nat): Progress
    requires k <= |batches|
  {
    if k == 0 then Progress(replica, Done, 0)
    else
      var p := Batched(mirror, replica, batches, ends, k - 1);
      if p.state.Done? then SendBatch(mirror, p, batches[k - 1], ends(k - 1)) else p
  }

  function Stage(mirror: Refs, replica: Refs, batches: seq<seq<string>>, ends: nat -> End): Progress {
    var p := Batched(mirror, replica, batches, ends, |batches|);
    if p.state.Done? then SendAll(mirror, p, ends(|batches|)) else p
  }

  // ---------------------------------------------------------------- the stage

  /** What planning the push returned: a usable plan, or why there is none. */
  datatype Planning = Planned(plan: Plan) | Unplanned(cancelled: bool)

  function Flat(chunks: seq<string>): string {
    if chunks == [] then "" else Flat(chunks[..|chunks| - 1]) + chunks[|chunks| - 1]
  }

  predicate AnyRejected(text: string) { CountIf(Lines(text), IsRejection) > 0 }

  function InOrder(plan: Plan): Plan { plan.(upserts := Sorted(plan.upserts), deletes := Sorted(plan.deletes)) }

  /** What planning must return when git's report is `text`: a plan only if git ran to its end, refused
      nothing and every status line could be read. */
  function PlanningOf(ended: bool, expired: bool, text: string, runFails: bool, endedMeanwhile: bool): Planning {
    if ended then Unplanned(true)
    else if expired then Unplanned(false)
    else if runFails || AnyRejected(text) then Unplanned(endedMeanwhile)
    else if PlanOf(text).bad then Unplanned(false)
    else Planned(InOrder(PlanOf(text)))
  }

  /** Over any text: there is a plan if and only if git ran to its end in time, no line is that of a refused
      ref, and the report can be used; else planning is pending only if its context ended. */
  lemma PlannedIff(ended: bool, expired: bool, text: string, runFails: bool, endedMeanwhile: bool)
    ensures var (r, refused) := (PlanningOf(ended, expired, text, runFails, endedMeanwhile), exists line <- Lines(text) :: "!\t" <= line);
            && (r.Planned? <==> !ended && !expired && !runFails && !refused && !PlanOf(text).bad)
            && (r.Planned? ==>
                  && multiset(r.plan.upserts) == multiset(PlanOf(text).upserts) && IsSorted(r.plan.upserts)
                  && multiset(r.plan.deletes) == multiset(PlanOf(text).deletes) && IsSorted(r.plan.deletes)
                  && r.plan.shadows == PlanOf(text).shadows)
            && (r.Unplanned? ==> (r.cancelled <==> ended || (!expired && (runFails || refused) && endedMeanwhile)))
  {
    hide PlanOf, Lines, CountIf;
    RejectedIff(text);
    SortedIsSorted(PlanOf(text).upserts);
    SortedIsSorted(PlanOf(text).deletes);
  }

  /** Planning a push: git's report goes to the plan and to a counter as it comes. */
  method PlanPush(ended: bool, expired: bool, chunks: seq<string>, runFails: bool, endedMeanwhile: bool) returns (r: Planning)
    ensures r == PlanningOf(ended, expired, Flat(chunks), runFails, endedMeanwhile)
  {
    hide PlanOf, Lines, CountIf;
    if ended {
      return Unplanned(true);
    }
    if expired {
      return Unplanned(false);
    }
    var plan := new PushPlan();
    var counter := new PushCounter();
    for k := 0 to |chunks|
      invariant plan.Valid() && counter.Valid() && plan.written == Flat(chunks[..k]) == counter.written
      invariant fresh(plan) && fresh(counter)
    {
      assert chunks[..k + 1][..k] == chunks[..k];
      plan.Write(chunks[k]);
      counter.Write(chunks[k]);
    }
    assert chunks[..|chunks|] == chunks;
    counter.Settle();
    if runFails || counter.rejected > 0 {
      return Unplanned(endedMeanwhile);
    }
    var bad := plan.Unusable();
    if bad {
      return Unplanned(false);
    }
    r := Planned(Plan(Sorted(plan.upserts), Sorted(plan.deletes), plan.shadows, plan.retained, plan.bad));
  }

  /** Whether to plan at all: more refs are counted than fit a batch, or they could not be counted. */
  predicate MayExceedBatch(counted: Option<nat>, limit: int) { counted.None? || counted.value > limit }

  /** Whether the stage asks for a plan. */
  predicate AsksForPlan(limit: int, collecting: bool, counted: Option<nat>) {
    limit > 0 && collecting && MayExceedBatch(counted, limit)
  }

  /** What a stage may come to: nothing is pushed without the plan it asked for; its batches are the free
      refs of that plan if it writes more than a batch may hold, and none otherwise. */
  ghost predicate IsStage(p: Progress, batches: seq<seq<string>>, mirror: Refs, replica: Refs, limit: int, collecting: bool,
                          counted: Option<nat>, planning: Planning, ends: nat -> End) {
    if AsksForPlan(limit, collecting, counted) && planning.Unplanned? then
      batches == [] && p == Progress(replica, if planning.cancelled then Pending else Failed, 0)
    else
      && p == Stage(mirror, replica, batches, ends)
      && (if AsksForPlan(limit, collecting, counted) && |planning.plan.upserts| > limit then
            IsPartition(batches, FreeOf(planning.plan), limit, MAX_BATCH_ARG_BYTES)
          else batches == [])
  }

  /** Batches exactly when the plan writes more refs than a batch may hold; otherwise the one push that
      prunes is the whole stage. */
  method RunStage(mirror: Refs, replica: Refs, limit: int, collecting: bool, counted: Option<nat>, planning: Planning, ends: nat -> End)
    returns (p: Progress, batches: seq<seq<string>>)
    ensures IsStage(p, batches, mirror, replica, limit, collecting, counted, planning, ends)
  {
    hide IsPartition, FreeOf, SendBatch, SendAll;
    batches := [];
    if AsksForPlan(limit, collecting, counted) {
      if planning.Unplanned? {
        p := Progress(replica, if planning.cancelled then Pending else Failed, 0);
        return;
      }
      var plan := planning.plan;
      if |plan.upserts| > limit {
        var free, _ := SplitConflicts(plan.upserts, plan.deletes, plan.shadows);
        assert free == FreeOf(plan) by { FreeIsChosen(plan); }
        batches := PartitionBatches(free, limit, MAX_BATCH_ARG_BYTES);
      }
    }
    p := Progress(replica, Done, 0);
    for k := 0 to |batches|
      invariant p == Batched(mirror, replica, batches, ends, k) && p.state.Done?
    {
      p := SendBatch(mirror, p, batches[k], ends(k));
      if !p.state.Done? {
        StoppedStays(mirror, replica, batches, ends, k + 1, |batches|);
        return;
      }
    }
    p := SendAll(mirror, p, ends(|batches|));
  }

  lemma FreeIsChosen(plan: Plan)
    ensures FreeOf(plan) == Chosen(plan.upserts, plan.deletes, plan.shadows, false)
  {
  }

  lemma {:induction false} StoppedStays(mirror: Refs, replica: Refs, batches: seq<seq<string>>, ends: nat -> End, j: nat, k: nat)
    requires j <= k <= |batches| && !Batched(mirror, replica, batches, ends, j).state.Done?
    ensures Batched(mirror, replica, batches, ends, k) == Batched(mirror, replica, batches, ends, j)
  {
    if j < k {
      StoppedStays(mirror, replica, batches, ends, j, k - 1);
    }
  }

  function FreeOf(plan: Plan): seq<string> { Chosen(plan.upserts, plan.deletes, plan.shadows, false) }

  // ---------------------------------------------------------------- what a plan says

  /** Both sides are refs git can hold: branches and tags, none inside another. */
  ghost predicate Sides(mirror: Refs, replica: Refs) {
    && Storable(mirror.Keys) && Storable(replica.Keys)
    && forall n | n in mirror || n in replica :: IsPushed(n)
  }

  /** The plan lists what the push would write and delete, once each, and every shadow on either side. */
  ghost predicate IsPlan(plan: Plan, mirror: Refs, replica: Refs) {
    && Distinct(plan.upserts) && Distinct(plan.deletes)
    && (forall n :: n in plan.upserts <==> n in mirror && (n !in replica || replica[n] != mirror[n]))
    && (forall n :: n in plan.deletes <==> n in replica && n !in mirror)
    && (forall n :: n in plan.shadows <==> (n in mirror || n in replica) && IsShadow(n))
  }

  lemma FreeIs(plan: Plan, n: string)
    ensures n in FreeOf(plan) <==> n in plan.upserts && !Blocked(n, plan.deletes, plan.shadows)
  {
    ChosenHas(plan.upserts, plan.deletes, plan.shadows, false, n);
  }

  /** The names that can stand on the replica on the way: its own, and any of the free refs. */
  ghost predicate OnTheWay(plan: Plan, replica: Refs, standing: set<string>) {
    replica.Keys <= standing <= replica.Keys + Names(FreeOf(plan))
  }

  /** Whatever part of the free refs was sent, the replica's names can be held together. */
  lemma InterimIsStorable(plan: Plan, mirror: Refs, replica: Refs, standing: set<string>)
    requires Sides(mirror, replica) && IsPlan(plan, mirror, replica) && OnTheWay(plan, replica, standing)
    ensures Storable(standing)
  {
    hide Under, Shadowed, IsShadow, IsPushed, Chosen;
    forall a, b | a in standing && b in standing ensures !Under(a, b) {
      FreeIs(plan, a);
      FreeIs(plan, b);
      if a !in mirror {
        assert a in plan.deletes;
      }
      if b !in mirror {
        assert b in plan.deletes;
      }
    }
  }

  lemma ShadowIsShadow(n: string)
    requires IsPushed(n)
    ensures IsShadow("refs/heads/" + n) && IsShadow("refs/tags/" + n)
  {
    var h, t := "refs/heads/" + n, "refs/tags/" + n;
    assert h[11..] == n && t[10..] == n;
    assert !("refs/heads/" <= t) by { assert t[5] == 't'; }
    assert "refs/" <= n by { assert n[..5] == "refs/"; }
  }

  /** The split is exact. Of the refs to write that are short enough to list, the free ones are just
      those that every push on the way accepts, the held ones just those that every such push refuses. */
  lemma FreeIffNeverRefused(plan: Plan, mirror: Refs, replica: Refs, standing: set<string>, u: string)
    requires Sides(mirror, replica) && IsPlan(plan, mirror, replica) && OnTheWay(plan, replica, standing)
    requires u in plan.upserts && |u| <= 1024
    ensures u in FreeOf(plan) <==> !Refused(mirror, standing + {u}, u)
  {
    hide Under, IsShadow, IsPushed, Chosen;
    FreeIs(plan, u);
    ShadowIsShadow(u);
    if u in FreeOf(plan) {
      forall d <- standing + {u} ensures !Clash(d, u) {
        FreeIs(plan, d);
        if d !in mirror {
          assert d in plan.deletes;
        }
      }
      forall s | s == "refs/heads/" + u || s == "refs/tags/" + u ensures s !in mirror && s !in standing {
        FreeIs(plan, s);
      }
    } else {
      if d :| d in plan.deletes && Clash(d, u) {
        assert d in standing;
      } else {
        var s :| (s == "refs/heads/" + u || s == "refs/tags/" + u) && s in plan.shadows;
        assert s in mirror || s in standing;
      }
    }
  }

  lemma FreeIsNeverRefused(plan: Plan, mirror: Refs, replica: Refs, sent: set<string>, batch: set<string>)
    requires Sides(mirror, replica) && IsPlan(plan, mirror, replica)
    requires sent <= Names(FreeOf(plan)) && batch <= Names(FreeOf(plan))
    ensures RefusedOf(mirror, Aligned(mirror, replica, sent), batch) == {}
  {
    hide Refused, Blocked, Chosen, IsPlan, Sides;
    var standing := Aligned(mirror, replica, sent).Keys + batch;
    SentIsOnTheWay(plan, mirror, replica, sent, batch);
    forall u <- batch ensures !Refused(mirror, standing, u) {
      FreeIs(plan, u);
      BlockedIfLong(u, plan);
      assert standing + {u} == standing;
      FreeIffNeverRefused(plan, mirror, replica, standing, u);
    }
  }

  lemma SentIsOnTheWay(plan: Plan, mirror: Refs, replica: Refs, sent: set<string>, batch: set<string>)
    requires IsPlan(plan, mirror, replica) && sent <= Names(FreeOf(plan)) && batch <= Names(FreeOf(plan))
    ensures OnTheWay(plan, replica, Aligned(mirror, replica, sent).Keys + batch)
  {
    hide Chosen, Blocked;
    forall n <- sent ensures n in mirror {
      FreeIs(plan, n);
    }
  }

  lemma BlockedIfLong(u: string, plan: Plan)
    ensures !Blocked(u, plan.deletes, plan.shadows) ==> |u| <= MAX_BATCH_REF_LEN
  {
  }

  // ---------------------------------------------------------------- a run of batches

  lemma AlignedTwice(mirror: Refs, replica: Refs, a: set<string>, b: set<string>)
    ensures Aligned(mirror, Aligned(mirror, replica, a), b) == Aligned(mirror, replica, a + b)
  {
  }

  /** A batch can be run where only free refs were sent before. */
  ghost predicate Ready(plan: Plan, mirror: Refs, replica: Refs, batches: seq<seq<string>>) {
    && Sides(mirror, replica) && IsPlan(plan, mirror, replica)
    && forall i | 0 <= i < |batches| :: Names(batches[i]) <= Names(FreeOf(plan))
  }

  lemma {:induction false} InConcat(batches: seq<seq<string>>, i: nat)
    requires i < |batches|
    ensures Names(batches[i]) <= Names(Concat(batches))
  {
    if i < |batches| - 1 {
      InConcat(batches[..|batches| - 1], i);
    }
  }

  lemma PartitionIsReady(plan: Plan, mirror: Refs, replica: Refs, batches: seq<seq<string>>)
    requires Sides(mirror, replica) && IsPlan(plan, mirror, replica) && Concat(batches) == FreeOf(plan)
    ensures Ready(plan, mirror, replica, batches)
  {
    forall i | 0 <= i < |batches| ensures Names(batches[i]) <= Names(FreeOf(plan)) {
      InConcat(batches, i);
    }
  }

  /** Sending a batch of free refs: those it applied join the ones sent before. */
  lemma SendsFree(plan: Plan, mirror: Refs, replica: Refs, p: Progress, batch: seq<string>, end: End, sent: set<string>)
    returns (applied: set<string>)
    requires Sides(mirror, replica) && IsPlan(plan, mirror, replica)
    requires Names(batch) <= Names(FreeOf(plan)) && sent <= Names(FreeOf(plan))
    requires p.replica == Aligned(mirror, replica, sent)
    ensures applied <= Names(batch)
    ensures var n := SendBatch(mirror, p, batch, end);
            && n.replica == Aligned(mirror, replica, sent + applied)
            && (n.state.Done? <==> end.Completes?)
            && (n.state.Done? ==> n.changed + |Differing(mirror, n.replica)| == p.changed + |Differing(mirror, p.replica)|)
  {
    hide IsPlan, Sides, FreeOf, RefusedOf, Aligned, Differing;
    var names := Names(batch);
    FreeIsNeverRefused(plan, mirror, replica, sent, names);
    assert names - {} == names;
    applied := match end case Completes => names case Stops(_, some, _) => names * some;
    AlignedTwice(mirror, replica, sent, applied);
    FewerDiffer(mirror, p.replica, names);
  }

  /** After any number of batches, however they ended, the replica is the old one with some of the free
      refs as they are in the mirror; and while all went well, what was counted and what still differs
      add up to what differed at first. */
  lemma {:induction false} SentSoFar(plan: Plan, mirror: Refs, replica: Refs, batches: seq<seq<string>>, ends: nat -> End, k: nat)
    returns (sent: set<string>)
    requires Ready(plan, mirror, replica, batches) && k <= |batches|
    ensures var p := Batched(mirror, replica, batches, ends, k);
            && sent <= Names(FreeOf(plan)) && p.replica == Aligned(mirror, replica, sent)
            && (p.state.Done? ==> p.changed + |Differing(mirror, p.replica)| == |Differing(mirror, replica)|)
            && (p.state.Done? <==> forall i: nat | i < k :: ends(i).Completes?)
  {
    hide IsPlan, Sides, FreeOf, SendBatch, Differing;
    if k == 0 {
      sent := {};
      assert Aligned(mirror, replica, {}) == replica;
    } else {
      hide Aligned;
      sent := SentSoFar(plan, mirror, replica, batches, ends, k - 1);
      var p := Batched(mirror, replica, batches, ends, k - 1);
      if p.state.Done? {
        var applied := SendsFree(plan, mirror, replica, p, batches[k - 1], ends(k - 1), sent);
        sent := sent + applied;
      }
    }
  }

  lemma FewerDiffer(mirror: Refs, replica: Refs, names: set<string>)
    ensures |Differing(mirror, replica) * names| + |Differing(mirror, Aligned(mirror, replica, names))| == |Differing(mirror, replica)|
  {
    assert Differing(mirror, Aligned(mirror, replica, names)) == Differing(mirror, replica) - names;
  }

  // ---------------------------------------------------------------- the theorems

  /** The batches a stage runs: none, or its plan's free refs cut within the bounds. */
  ghost predicate IsBatched(batches: seq<seq<string>>, plan: Plan, limit: int) {
    batches == [] || IsPartition(batches, FreeOf(plan), limit, MAX_BATCH_ARG_BYTES)
  }

  lemma BatchedIsReady(plan: Plan, mirror: Refs, replica: Refs, batches: seq<seq<string>>, limit: int)
    requires Sides(mirror, replica) && IsPlan(plan, mirror, replica) && IsBatched(batches, plan, limit)
    ensures Ready(plan, mirror, replica, batches)
  {
    if batches != [] {
      PartitionIsReady(plan, mirror, replica, batches);
    }
  }

  /** Batched or not, a stage that reports success has made the replica the mirror and counted every
      ref that differed, once, as one push that prunes does; and it reports success just when no
      process stops. */
  lemma StageRefinesOnePush(plan: Plan, mirror: Refs, replica: Refs, batches: seq<seq<string>>, limit: int, ends: nat -> End)
    requires Sides(mirror, replica) && IsPlan(plan, mirror, replica) && IsBatched(batches, plan, limit)
    ensures var p := Stage(mirror, replica, batches, ends);
            && (p.state.Done? ==> p == SendAll(mirror, Progress(replica, Done, 0), Completes))
            && (p.state.Done? <==> forall i: nat | i <= |batches| :: ends(i).Completes?)
  {
    hide Ready, Batched, Differing, Aligned, FreeOf;
    BatchedIsReady(plan, mirror, replica, batches, limit);
    var sent := SentSoFar(plan, mirror, replica, batches, ends, |batches|);
  }

  /** No ref was deleted, each holds its old value or the mirror's, and none is in another's way. */
  ghost predicate NothingLost(now: Refs, mirror: Refs, replica: Refs) {
    && replica.Keys <= now.Keys
    && (forall n <- now :: (n in replica && now[n] == replica[n]) || (n in mirror && now[n] == mirror[n]))
    && Storable(now.Keys)
  }

  /** While only batches have run, whatever became of them, no ref of the replica was deleted, each ref
      holds its old value or the mirror's, and no two of them are in each other's way. */
  lemma {:induction false} NothingDeletedBeforeTheLastPush(plan: Plan, mirror: Refs, replica: Refs, batches: seq<seq<string>>, limit: int, ends: nat -> End, k: nat)
    requires Sides(mirror, replica) && IsPlan(plan, mirror, replica) && IsBatched(batches, plan, limit) && k <= |batches|
    ensures NothingLost(Batched(mirror, replica, batches, ends, k).replica, mirror, replica)
  {
    hide Batched, Chosen, Storable, Blocked, IsPartition;
    BatchedIsReady(plan, mirror, replica, batches, limit);
    var sent := SentSoFar(plan, mirror, replica, batches, ends, k);
    SentIsOnTheWay(plan, mirror, replica, sent, {});
    assert Aligned(mirror, replica, sent).Keys + {} == Aligned(mirror, replica, sent).Keys;
    InterimIsStorable(plan, mirror, replica, Aligned(mirror, replica, sent).Keys);
    forall n <- sent ensures n in mirror {
      FreeIs(plan, n);
    }
  }

  /** No batch contains a ref git would refuse where that batch is sent, and the text of each batch is
      within the bound. */
  lemma NoBatchIsRefused(plan: Plan, mirror: Refs, replica: Refs, batches: seq<seq<string>>, limit: int, ends: nat -> End, k: nat)
    requires Sides(mirror, replica) && IsPlan(plan, mirror, replica) && IsBatched(batches, plan, limit) && k < |batches|
    ensures RefusedOf(mirror, Batched(mirror, replica, batches, ends, k).replica, Names(batches[k])) == {}
    ensures |ArgText(batches[k])| <= 64 * 1024
  {
    hide Batched, RefusedOf, FreeOf, Blocked, Concat, AllFull, ArgText;
    CostIsText(batches[k]);
    BatchedIsReady(plan, mirror, replica, batches, limit);
    var sent := SentSoFar(plan, mirror, replica, batches, ends, k);
    FreeIsNeverRefused(plan, mirror, replica, sent, Names(batches[k]));
    if |batches[k]| == 1 {
      var u := batches[k][0];
      assert u in Names(batches[k]);
      FreeIs(plan, u);
      BlockedIfLong(u, plan);
      assert batches[k] == [] + [u];
      CostGrows([], u);
    }
  }

  lemma {:induction false} DistinctCount(names: seq<string>)
    requires Distinct(names)
    ensures |Names(names)| == |names|
  {
    if names != [] {
      var front, last := names[..|names| - 1], names[|names| - 1];
      DistinctCount(front);
      assert Names(names) == Names(front) + {last};
    }
  }

  lemma {:induction false} SubsetSize(a: set<string>, b: set<string>)
    requires a <= b
    ensures |a| <= |b|
  {
    if a != {} {
      var x :| x in a;
      SubsetSize(a - {x}, b - {x});
    }
  }

  /** A mirror that fits one batch is never batched, planned or not: not planning it changes nothing. */
  lemma NotPlanningChangesNothing(plan: Plan, mirror: Refs, replica: Refs, limit: int)
    requires IsPlan(plan, mirror, replica) && !MayExceedBatch(Some(|mirror|), limit)
    ensures !(|plan.upserts| > limit)
  {
    DistinctCount(plan.upserts);
    SubsetSize(Names(plan.upserts), mirror.Keys);
  }

  /** A stage that a process stops ends as that process does: pending if it was cancelled, failed if not. */
  lemma StoppedByTheFirst(plan: Plan, mirror: Refs, replica: Refs, batches: seq<seq<string>>, limit: int, ends: nat -> End, k: nat)
    requires Sides(mirror, replica) && IsPlan(plan, mirror, replica) && IsBatched(batches, plan, limit)
    requires k <= |batches| && ends(k).Stops? && forall i: nat | i < k :: ends(i).Completes?
    ensures Stage(mirror, replica, batches, ends).state == if ends(k).cancelled then Pending else Failed
  {
    hide Sides, IsPlan, IsBatched, Ready, Batched, SendBatch, SendAll, Differing, Aligned, FreeOf;
    BatchedIsReady(plan, mirror, replica, batches, limit);
    var sent := SentSoFar(plan, mirror, replica, batches, ends, k);
    SendingStops(mirror, replica, batches, ends, k);
    if k < |batches| {
      StoppedStays(mirror, replica, batches, ends, k + 1, |batches|);
    }
  }

  lemma SendingStops(mirror: Refs, replica: Refs, batches: seq<seq<string>>, ends: nat -> End, k: nat)
    requires k <= |batches| && ends(k).Stops? && Batched(mirror, replica, batches, ends, k).state.Done?
    ensures k < |batches| ==> Batched(mirror, replica, batches, ends, k + 1).state == if ends(k).cancelled then Pending else Failed
    ensures SendAll(mirror, Batched(mirror, replica, batches, ends, k), ends(k)).state == if ends(k).cancelled then Pending else Failed
  {
  }

  /** When a stage is batched. If batches are asked for and the refs are too many, or not counted, a plan
      that writes more than a batch may hold is cut: the batches are all its free refs in order, none of
      them too large. In every other case there is no batch. A plan that is missing when it is needed
      leaves the replica as it was. */
  lemma BatchedWhen(p: Progress, batches: seq<seq<string>>, mirror: Refs, replica: Refs, limit: int, collecting: bool,
                    counted: Option<nat>, planning: Planning, ends: nat -> End)
    requires IsStage(p, batches, mirror, replica, limit, collecting, counted, planning, ends)
    ensures var due := limit > 0 && collecting && (counted == None || counted.value > limit);
            && (due && planning.Unplanned? ==>
                  batches == [] && p.replica == replica && p.changed == 0 && p.state == if planning.cancelled then Pending else Failed)
            && (due && planning.Planned? && |planning.plan.upserts| > limit ==>
                  && Concat(batches) == Chosen(planning.plan.upserts, planning.plan.deletes, planning.plan.shadows, false)
                  && forall b <- batches :: 1 <= |b| <= limit && (|b| == 1 || |ArgText(b)| <= 64 * 1024))
            && (!due || (planning.Planned? && |planning.plan.upserts| <= limit) ==> batches == [])
            && (!due || planning.Planned? ==> p == Stage(mirror, replica, batches, ends))
  {
    hide Stage, Concat, AllFull, ArgText, Chosen;
    forall b <- batches ensures 1 <= |b| && Cost(b) == |ArgText(b)| {
      CostIsText(b);
    }
  }

  /** The refs a push of the mirror creates or updates. */
  function ToWrite(mirror: Refs, replica: Refs): set<string> {
    set n | n in mirror && (n !in replica || replica[n] != mirror[n])
  }

  /** With the mirror's refs counted, or not countable, a stage that can plan is batched if and only if it
      has more refs to write than a batch may hold: saving the plan of a small mirror never costs a batch. */
  lemma BatchedIffMoreThanABatch(p: Progress, batches: seq<seq<string>>, mirror: Refs, replica: Refs, limit: int,
                                 counted: Option<nat>, plan: Plan, ends: nat -> End)
    requires IsStage(p, batches, mirror, replica, limit, true, counted, Planned(plan), ends)
    requires limit > 0 && IsPlan(plan, mirror, replica) && (counted.None? || counted.value == |mirror|)
    ensures Concat(batches) == if |ToWrite(mirror, replica)| > limit then FreeOf(plan) else []
    ensures forall b <- batches :: 1 <= |b| <= limit
  {
    hide Stage, Concat, AllFull, ArgText, Chosen;
    DistinctCount(plan.upserts);
    assert Names(plan.upserts) == ToWrite(mirror, replica);
    SubsetSize(ToWrite(mirror, replica), mirror.Keys);
    BatchedWhen(p, batches, mirror, replica, limit, true, counted, Planned(plan), ends);
    ConcatOfNone();
  }

  // ---------------------------------------------------------------- the plan git reports

  /** The flag git gives a ref of either side in the report of a forced push that prunes. */
  predicate RightFlag(e: Entry, mirror: Refs, replica: Refs) {
    if e.name !in mirror then e.name in replica && e.flag == '-'
    else if e.name !in replica then e.flag == '*'
    else if mirror[e.name] == replica[e.name] then e.flag == '='
    else e.flag == ' ' || e.flag == '+'
  }

  /** A report of every ref of either side, each once, with its flag. */
  ghost predicate Reports(es: seq<Entry>, mirror: Refs, replica: Refs) {
    && (forall i, j | 0 <= i < j < |es| :: es[i].name != es[j].name)
    && (forall n | n in mirror || n in replica :: exists e <- es :: e.name == n)
    && (forall e <- es :: RightFlag(e, mirror, replica))
  }

  predicate Keeps(e: Entry) { e.flag != '=' || IsShadow(e.name) }

  function KeptBytes(es: seq<Entry>): nat {
    if es == [] then 0
    else KeptBytes(es[..|es| - 1]) + if Keeps(es[|es| - 1]) then |es[|es| - 1].name| else 0
  }

  function NamesWith(es: seq<Entry>, flag: char -> bool): seq<string> {
    if es == [] then []
    else NamesWith(es[..|es| - 1], flag) + if flag(es[|es| - 1].flag) then [es[|es| - 1].name] else []
  }

  function ShadowsOf(es: seq<Entry>): set<string> { set e | e in es && IsShadow(e.name) :: e.name }

  /** What noting the entries keeps: the plan is refused just when the names to keep outgrow the bound. */
  lemma {:induction false} NotedAllIs(es: seq<Entry>)
    ensures var p := NotedAll(es);
            && p.retained == KeptBytes(es) && (p.bad <==> KeptBytes(es) > MAX_PLAN_BYTES)
            && (!p.bad ==> p.upserts == NamesWith(es, Writes) && p.deletes == NamesWith(es, f => f == '-') && p.shadows == ShadowsOf(es))
  {
    hide IsShadow;
    if es != [] {
      var front, e := es[..|es| - 1], es[|es| - 1];
      NotedAllIs(front);
      assert ShadowsOf(es) == ShadowsOf(front) + if IsShadow(e.name) then {e.name} else {} by {
        assert es == front + [e];
      }
    }
  }

  lemma {:induction false} NamesWithAre(es: seq<Entry>, flag: char -> bool)
    requires forall i, j | 0 <= i < j < |es| :: es[i].name != es[j].name
    ensures Distinct(NamesWith(es, flag))
    ensures forall n :: n in NamesWith(es, flag) <==> exists e <- es :: flag(e.flag) && e.name == n
  {
    if es != [] {
      var front, e := es[..|es| - 1], es[|es| - 1];
      NamesWithAre(front, flag);
      assert forall x :: x in es <==> x in front || x == e;
      assert e.name !in NamesWith(front, flag);
    }
  }

  /** The entry about a ref of either side says by its flag how the sides stand. */
  lemma FlagTells(es: seq<Entry>, mirror: Refs, replica: Refs, n: string)
    requires Reports(es, mirror, replica)
    ensures (exists e <- es :: Writes(e.flag) && e.name == n) <==> n in mirror && (n !in replica || replica[n] != mirror[n])
    ensures (exists e <- es :: e.flag == '-' && e.name == n) <==> n in replica && n !in mirror
    ensures (exists e <- es :: e.name == n) <==> n in mirror || n in replica
  {
    forall e <- es | e.name == n ensures RightFlag(e, mirror, replica) {
    }
    if n in mirror || n in replica {
      var e :| e in es && e.name == n;
      assert RightFlag(e, mirror, replica);
    }
  }

  /** The plan read from git's report is the plan of the push, unless the names to keep outgrow the
      bound; then the plan is refused. */
  lemma ReportGivesThePlan(url: string, es: seq<Entry>, mirror: Refs, replica: Refs)
    requires '\n' !in url && (forall e <- es :: Reportable(e)) && Reports(es, mirror, replica)
    ensures var plan := PlanOf(Report(url, es));
            if KeptBytes(es) > MAX_PLAN_BYTES then plan.bad else !plan.bad && IsPlan(plan, mirror, replica)
  {
    hide NotedAll, Reportable, IsShadow, Writes, PlanOf, Report, NamesWith, KeptBytes;
    ReportIsReadBack(url, es);
    NotedAllIs(es);
    DistinctNames(es, mirror, replica);
    NamesWithAre(es, Writes);
    NamesWithAre(es, f => f == '-');
    hide Reports;
    forall n
      ensures (exists e <- es :: Writes(e.flag) && e.name == n) <==> n in mirror && (n !in replica || replica[n] != mirror[n])
      ensures (exists e <- es :: e.flag == '-' && e.name == n) <==> n in replica && n !in mirror
      ensures n in ShadowsOf(es) <==> (n in mirror || n in replica) && IsShadow(n)
    {
      FlagTells(es, mirror, replica, n);
    }
  }

  lemma DistinctNames(es: seq<Entry>, mirror: Refs, replica: Refs)
    requires Reports(es, mirror, replica)
    ensures forall i, j | 0 <= i < j < |es| :: es[i].name != es[j].name
  {
  }

  /** The names of a plan are sorted before it is used: it is the plan of the same push in any order. */
  lemma AnyOrderWillDo(plan: Plan, sorted: Plan, mirror: Refs, replica: Refs)
    requires IsPlan(plan, mirror, replica) && sorted.shadows == plan.shadows
    requires multiset(sorted.upserts) == multiset(plan.upserts) && multiset(sorted.deletes) == multiset(plan.deletes)
    ensures IsPlan(sorted, mirror, replica)
  {
    RearrangedIsDistinct(plan.upserts, sorted.upserts);
    RearrangedIsDistinct(plan.deletes, sorted.deletes);
  }

  // ---------------------------------------------------------------- what the counter reads

  /** A report of the refs `names`, each once, with its flag. */
  ghost predicate ReportsOf(es: seq<Entry>, mirror: Refs, replica: Refs, names: set<string>) {
    && (forall i, j | 0 <= i < j < |es| :: es[i].name != es[j].name)
    && (forall n <- names :: exists e <- es :: e.name == n)
    && (forall e <- es :: e.name in names && RightFlag(e, mirror, replica))
  }

  lemma {:induction false} CountOfRendered(head: string, es: seq<Entry>)
    requires !IsStatus(head) && forall e <- es :: Reportable(e)
    ensures CountIf([head] + Rendered(es), IsChange) == |NamesWith(es, Changing)|
    ensures CountIf([head] + Rendered(es), IsRejection) == 0
  {
    hide Reportable, Named, Changing, Render;
    if es == [] {
      CountOfLines([], head);
      assert [head] + Rendered(es) == [] + [head];
    } else {
      var front, e := es[..|es| - 1], es[|es| - 1];
      CountOfRendered(head, front);
      FlagIsRead(e);
      CountOfLines([head] + Rendered(front), Render(e));
      assert [head] + Rendered(es) == [head] + Rendered(front) + [Render(e)];
    }
  }

  lemma FlagIsRead(e: Entry)
    requires Reportable(e)
    ensures (IsChange(Render(e)) <==> Changing(e.flag)) && !IsRejection(Render(e)) && '\n' !in Render(e)
  {
    hide Named;
    ReadsBack(e);
  }

  lemma ReportedLines(url: string, es: seq<Entry>)
    requires '\n' !in url && forall e <- es :: Reportable(e)
    ensures Lines(Report(url, es)) == ["To " + url] + Rendered(es) + ["Done"] + [""]
  {
    hide Reportable, Render, Joined;
    var head, body := "To " + url, ["To " + url] + Rendered(es);
    forall e <- es ensures '\n' !in Render(e) {
      FlagIsRead(e);
    }
    LinesOfJoined(body + ["Done"]);
  }

  /** Reading the report of a push with the counter gives the refs it changed: of those the push is
      about, the ones that differed. And nothing in it counts as rejected. */
  lemma ReportIsCounted(url: string, es: seq<Entry>, mirror: Refs, replica: Refs, names: set<string>)
    requires '\n' !in url && (forall e <- es :: Reportable(e)) && ReportsOf(es, mirror, replica, names)
    ensures Changes(Report(url, es)) == |Differing(mirror, replica) * names|
    ensures !AnyRejected(Report(url, es))
  {
    hide Reportable, Lines, CountIf, NamesWith, Changing;
    ReportedLines(url, es);
    CountOfRendered("To " + url, es);
    CountOfLines(["To " + url] + Rendered(es), "Done");
    CountOfLines(["To " + url] + Rendered(es) + ["Done"], "");
    NamesWithAre(es, Changing);
    DistinctCount(NamesWith(es, Changing));
    ChangedAreDiffering(es, mirror, replica, names);
  }

  lemma ChangedAreDiffering(es: seq<Entry>, mirror: Refs, replica: Refs, names: set<string>)
    requires ReportsOf(es, mirror, replica, names)
    ensures Names(NamesWith(es, Changing)) == Differing(mirror, replica) * names
  {
    hide NamesWith;
    NamesWithAre(es, Changing);
    forall n ensures n in NamesWith(es, Changing) <==> n in Differing(mirror, replica) * names {
      if e :| e in es && e.name == n {
        assert RightFlag(e, mirror, replica);
        assert forall other <- es :: other.name == n ==> other == e;
      }
    }
  }

  /** The tally of a push is what its report says, batch by batch and for the last push. */
  lemma TallyIsReported(mirror: Refs, p: Progress, batch: seq<string>, url: string, es: seq<Entry>)
    requires '\n' !in url && forall e <- es :: Reportable(e)
    ensures RefusedOf(mirror, p.replica, Names(batch)) == {} && ReportsOf(es, mirror, p.replica, Names(batch)) ==>
              SendBatch(mirror, p, batch, Completes).changed == p.changed + Changes(Report(url, es))
    ensures ReportsOf(es, mirror, p.replica, mirror.Keys + p.replica.Keys) ==>
              SendAll(mirror, p, Completes).changed == p.changed + Changes(Report(url, es))
  {
    hide ReportsOf, Changes, Report, Reportable, RefusedOf;
    if ReportsOf(es, mirror, p.replica, Names(batch)) {
      ReportIsCounted(url, es, mirror, p.replica, Names(batch));
      assert Names(batch) - {} == Names(batch);
    }
    if ReportsOf(es, mirror, p.replica, mirror.Keys + p.replica.Keys) {
      ReportIsCounted(url, es, mirror, p.replica, mirror.Keys + p.replica.Keys);
      assert Differing(mirror, p.replica) * (mirror.Keys + p.replica.Keys) == Differing(mirror, p.replica);
    }
  }

  // ---------------------------------------------------------------- from the report to the replica

  /** What git reports of the planned push makes a plan just when it fits; and then it is the plan of the
      push. */
  lemma PlanningIs(mirror: Refs, replica: Refs, url: string, es: seq<Entry>, ended: bool, expired: bool, runFails: bool, endedMeanwhile: bool)
    requires '\n' !in url && (forall e <- es :: Reportable(e)) && Reports(es, mirror, replica)
    ensures var r := PlanningOf(ended, expired, Report(url, es), runFails, endedMeanwhile);
            && (r.Planned? <==> !ended && !expired && !runFails && KeptBytes(es) <= MAX_PLAN_BYTES)
            && (r.Planned? ==> IsPlan(r.plan, mirror, replica))
            && (r.Unplanned? ==> (r.cancelled <==> ended || (!expired && runFails && endedMeanwhile)))
  {
    hide Reportable, PlanOf, Report, KeptBytes, IsPlan, AnyRejected;
    ReportGivesThePlan(url, es, mirror, replica);
    ReportsAll(es, mirror, replica);
    ReportIsCounted(url, es, mirror, replica, mirror.Keys + replica.Keys);
    var plan := PlanOf(Report(url, es));
    if !plan.bad {
      AnyOrderWillDo(plan, InOrder(plan), mirror, replica);
    }
  }

  lemma ReportsAll(es: seq<Entry>, mirror: Refs, replica: Refs)
    requires Reports(es, mirror, replica)
    ensures ReportsOf(es, mirror, replica, mirror.Keys + replica.Keys)
  {
    forall e <- es ensures e.name in mirror.Keys + replica.Keys {
      assert RightFlag(e, mirror, replica);
    }
  }

  /** From git's report of the planned push to the replica: the stage succeeds just when no process
      stops and the plan it asked for, if it did, could be made; then replica and count are those of one
      push that prunes. Without the plan it changes nothing and is pending only if its context ended. If
      it ends before its last push, nothing is lost. */
  lemma StageFromReport(mirror: Refs, replica: Refs, url: string, es: seq<Entry>, limit: int, collecting: bool, counted: Option<nat>,
                        ended: bool, expired: bool, runFails: bool, endedMeanwhile: bool,
                        p: Progress, batches: seq<seq<string>>, ends: nat -> End)
    requires Sides(mirror, replica)
    requires '\n' !in url && (forall e <- es :: Reportable(e)) && Reports(es, mirror, replica)
    requires IsStage(p, batches, mirror, replica, limit, collecting, counted,
                     PlanningOf(ended, expired, Report(url, es), runFails, endedMeanwhile), ends)
    ensures var made := !ended && !expired && !runFails && KeptBytes(es) <= MAX_PLAN_BYTES;
            var due := limit > 0 && collecting && (counted == None || counted.value > limit);
            && (p.state.Done? <==> (due ==> made) && forall i: nat | i <= |batches| :: ends(i).Completes?)
            && (due && !made ==> p == Progress(replica, if ended || (!expired && runFails && endedMeanwhile) then Pending else Failed, 0))
    ensures p.state.Done? ==> p.replica == mirror && p.changed == |Differing(mirror, replica)|
    ensures (exists i: nat | i < |batches| :: !ends(i).Completes?) ==> NothingLost(p.replica, mirror, replica)
  {
    hide Reportable, Reports, Report, KeptBytes, IsPlan, PlanningOf, Differing, Sides, IsPartition, FreeOf, Storable, Aligned;
    PlanningIs(mirror, replica, url, es, ended, expired, runFails, endedMeanwhile);
    if batches != [] {
      var plan := PlanningOf(ended, expired, Report(url, es), runFails, endedMeanwhile).plan;
      StageRefinesOnePush(plan, mirror, replica, batches, limit, ends);
      if i: nat :| i < |batches| && !ends(i).Completes? {
        NothingDeletedBeforeTheLastPush(plan, mirror, replica, batches, limit, ends, |batches|);
        StopsEarly(plan, mirror, replica, batches, limit, ends);
      }
    }
  }

  /** If some batch stops, the stage ends where the batches do. */
  lemma StopsEarly(plan: Plan, mirror: Refs, replica: Refs, batches: seq<seq<string>>, limit: int, ends: nat -> End)
    requires Sides(mirror, replica) && IsPlan(plan, mirror, replica) && IsBatched(batches, plan, limit)
    requires exists i: nat | i < |batches| :: !ends(i).Completes?
    ensures Stage(mirror, replica, batches, ends) == Batched(mirror, replica, batches, ends, |batches|)
  {
    hide Ready, Batched, Differing, Aligned, FreeOf;
    BatchedIsReady(plan, mirror, replica, batches, limit);
    var sent := SentSoFar(plan, mirror, replica, batches, ends, |batches|);
  }
}
