/** What holds of the whole over every interleaving: one runner a repository, two refusals that are
    dead, no stale finisher, no lost trigger, and an idle signal that is right and sent once. */
module SyncSystemSafety {
  import opened Basics
  import Providers
  import opened ClientState
  import opened ClientRuns
  import opened Slots
  import opened Manager
  import opened SyncSystem

  // ---------------------------------------------------------------- one runner a repository

  /** Only a trigger and the end of a pass change who is in flight. */
  lemma RunnersStay(s: System, mv: Move)
    requires Enabled(s, mv) && !mv.Trigger? && !mv.SettleRun?
    ensures var n := Go(s, mv);
            && n.m == s.m && n.owner == s.owner && n.nextId == s.nextId && n.runners.Keys == s.runners.Keys
            && forall r <- s.runners :: n.runners[r].repo == s.runners[r].repo && (s.runners[r].ctxDone ==> n.runners[r].ctxDone)
  {
    hide Triggered, PassSettled, Step, Apply, ClaimTask, Resized;
  }

  lemma OwnedKept(s: System, mv: Move)
    requires SystemInv(s) && Enabled(s, mv)
    ensures Owned(Go(s, mv).runners, Go(s, mv).owner, Go(s, mv).nextId) && Go(s, mv).m.inflight == Go(s, mv).owner.Keys && Sound(Go(s, mv).m)
  {
    hide Inv, Slotted, AttemptsClaimed, Remembered, Folded, EndedOnPurpose, Go, Enabled;
    match mv
    case Trigger(id, rerunIfBusy) => OwnedAfterTrigger(s, id, rerunIfBusy);
    case SettleRun(r) => OwnedAfterSettle(s, r);
    case _ => RunnersStay(s, mv);
  }

  lemma OwnedAfterTrigger(s: System, id: string, rerunIfBusy: bool)
    requires SystemInv(s)
    ensures var n := Go(s, Trigger(id, rerunIfBusy));
            Owned(n.runners, n.owner, n.nextId) && n.m.inflight == n.owner.Keys && Sound(n.m)
  {
    hide Inv, Slotted, AttemptsClaimed, Remembered, Folded, EndedOnPurpose;
  }

  lemma OwnedAfterSettle(s: System, r: nat)
    requires SystemInv(s) && Enabled(s, SettleRun(r))
    ensures var n := Go(s, SettleRun(r));
            Owned(n.runners, n.owner, n.nextId) && n.m.inflight == n.owner.Keys && Sound(n.m)
  {
    hide Inv, Slotted, AttemptsClaimed, Remembered, Folded, EndedOnPurpose;
    var id := s.runners[r].repo;
    assert s.owner[id] == r;
    assert (s.owner - {id}).Keys == s.owner.Keys - {id};
  }

  // ---------------------------------------------------------------- slots

  lemma SlottedAfterOp(s: System, op: Op, r: nat, runners: map<nat, Runner>)
    requires Slotted(s.runners, s.pool) && LegalOp(s.pool, op) && r in s.runners && runners.Keys == s.runners.Keys
    requires op.Acquire? || op.Wake? || op.Abandon? || op.Release?
    requires op.id == r
    requires forall q <- runners | q != r :: runners[q].pc == s.runners[q].pc
    requires var n := Apply(s.pool, op);
             && (HoldsSlot(runners[r].pc) <==> r in n.holding)
             && (Waits(runners[r].pc) <==> Slots.Waiting(n, r))
    ensures Slotted(runners, Apply(s.pool, op))
  {
    hide Apply, Accounted, Slots.Waiting;
    OpKeepsAccounts(s.pool, op);
    OpMovesOnlyItsOwn(s.pool, op);
  }

  lemma SlottedAfterTrigger(s: System, id: string, rerunIfBusy: bool)
    requires SystemInv(s)
    ensures var n := Triggered(s, id, rerunIfBusy); n.pool == s.pool && Slotted(n.runners, n.pool)
  {
    hide Inv, AttemptsClaimed, Remembered, Folded, Accounted, Slots.Waiting;
  }

  lemma SlottedAfterSettle(s: System, r: nat)
    requires SystemInv(s) && Enabled(s, SettleRun(r))
    ensures var n := PassSettled(s, r); n.pool == s.pool && Slotted(n.runners, n.pool)
  {
    hide Inv, AttemptsClaimed, Remembered, Folded, Accounted, Slots.Waiting;
  }

  /** The pool operation a move makes. */
  predicate Makes(mv: Move, op: Op) {
    match mv
    case AskSlot(r) => op == Acquire(r)
    case WakeUp(r) => op == Wake(r)
    case LeaveQueue(r) => op == Abandon(r)
    case ReturnSlot(r) => op == Release(r)
    case _ => false
  }

  lemma SlottedIsAccounted(s: System)
    requires Slotted(s.runners, s.pool)
    ensures Accounted(s.pool)
  {
  }

  lemma OpIsLegal(s: System, mv: Move, op: Op)
    requires Slotted(s.runners, s.pool) && Enabled(s, mv) && Makes(mv, op)
    ensures LegalOp(s.pool, op)
  {
    hide Accounted;
    var r := op.id;
    assert HoldsSlot(s.runners[r].pc) <==> r in s.pool.holding;
    assert Waits(s.runners[r].pc) <==> Slots.Waiting(s.pool, r);
  }

  lemma SlottedAfterSlotMove(s: System, mv: Move, op: Op)
    requires SystemInv(s) && Enabled(s, mv) && Makes(mv, op)
    ensures Slotted(Go(s, mv).runners, Go(s, mv).pool)
  {
    hide Inv, Sound, Owned, Slotted, AttemptsClaimed, Remembered, Folded, EndedOnPurpose, Apply, Accounted, Slots.Waiting, LegalOp;
    OpIsLegal(s, mv, op);
    SlottedIsAccounted(s);
    OpMovesOnlyItsOwn(s.pool, op);
    SlottedAfterOp(s, op, op.id, Go(s, mv).runners);
  }

  lemma SlottedKept(s: System, mv: Move)
    requires SystemInv(s) && Enabled(s, mv)
    ensures Slotted(Go(s, mv).runners, Go(s, mv).pool)
  {
    hide Inv, Sound, Owned, AttemptsClaimed, Remembered, Folded, EndedOnPurpose, Slotted, Step, Apply, ClaimTask, Accounted, Resized, Slots.Waiting, Triggered, PassSettled;
    match mv
    case Trigger(id, rerunIfBusy) => SlottedAfterTrigger(s, id, rerunIfBusy);
    case SettleRun(r) => SlottedAfterSettle(s, r);
    case AskSlot(r) => SlottedAfterSlotMove(s, mv, Acquire(r));
    case WakeUp(r) => SlottedAfterSlotMove(s, mv, Wake(r));
    case LeaveQueue(r) => SlottedAfterSlotMove(s, mv, Abandon(r));
    case ReturnSlot(r) => SlottedAfterSlotMove(s, mv, Release(r));
    case Outside(e) => SlottedAfterResize(s, e);
    case _ => SlottedAfterQuietMove(s, mv);
  }

  predicate Quiet(mv: Move) {
    mv.MarkSyncing? || mv.StopWaiting? || mv.Skip? || mv.ClaimRun? || mv.FinishRun? || mv.ClearMark? || mv.StartRun? || mv.EndContext?
  }

  lemma SlottedAfterQuietMove(s: System, mv: Move)
    requires Slotted(s.runners, s.pool) && Enabled(s, mv) && Quiet(mv)
    ensures Slotted(Go(s, mv).runners, Go(s, mv).pool)
  {
    hide Slotted, Step, ClaimTask, Triggered, PassSettled, Apply, Resized;
    SlottedWithoutOp(s, Go(s, mv).runners);
  }

  lemma SlottedAfterResize(s: System, e: Event)
    requires Slotted(s.runners, s.pool)
    ensures Slotted(s.runners, Resized(s.pool, e))
  {
    hide Apply, Accounted, Slots.Waiting, Rejection;
    if e.Configure? && Rejection(e.msg).None? {
      var op := Resize(e.msg.limits.value.maxConcurrency);
      OpKeepsAccounts(s.pool, op);
      OpMovesOnlyItsOwn(s.pool, op);
    }
  }

  /** Moving between counters that hold alike, or wait alike, needs no slot to change hands. */
  lemma SlottedWithoutOp(s: System, runners: map<nat, Runner>)
    requires Slotted(s.runners, s.pool) && runners.Keys == s.runners.Keys
    requires forall r <- runners :: HoldsSlot(runners[r].pc) == HoldsSlot(s.runners[r].pc) && Waits(runners[r].pc) == Waits(s.runners[r].pc)
    ensures Slotted(runners, s.pool)
  {
  }

  // ---------------------------------------------------------------- attempts

  /** Only claims, finishes and swaps touch the registry, and only claims the tasks handed out. */
  lemma OthersKeepAttempts(w: World, e: Event)
    requires !e.Claim? && !e.Finish? && !e.Swap?
    ensures Step(w, e).s.attempts == w.s.attempts && Step(w, e).claimed == w.claimed
  {
  }

  lemma SwapsKeepSerials(w: World, e: Event)
    requires e.Swap?
    ensures Step(w, e).claimed == w.claimed && Step(w, e).s.attempts.Keys == w.s.attempts.Keys
    ensures forall id <- w.s.attempts :: Step(w, e).s.attempts[id].serial == w.s.attempts[id].serial
  {
  }

  /** A claim registers its repository's attempt, under the number in its task, or nothing. */
  lemma ClaimRegisters(w: World, id: string, pinned: bool, admitted: bool)
    requires Inv(w) && id !in w.s.attempts
    ensures var (n, r) := (Step(w, Claim(id, pinned, admitted)), ClaimTask(w.s, id, pinned, admitted).1);
            if r.Granted? then
              && r.task.repoID == id && r.task.attemptSeq !in w.claimed
              && n.claimed == w.claimed[r.task.attemptSeq := r.task]
              && n.s.attempts.Keys == w.s.attempts.Keys + {id} && n.s.attempts[id].serial == r.task.attemptSeq
              && forall other <- w.s.attempts :: n.s.attempts[other] == w.s.attempts[other]
            else n.claimed == w.claimed && n.s.attempts == w.s.attempts
  {
  }

  lemma ClaimedAfterClaim(s: System, r: nat, pinned: bool, admitted: bool)
    requires SystemInv(s) && Enabled(s, ClaimRun(r, pinned, admitted))
    ensures var n := Go(s, ClaimRun(r, pinned, admitted)); AttemptsClaimed(n.runners, n.owner, n.w)
  {
    hide Inv, Slotted, Remembered, Folded, EndedOnPurpose, Sound, Step, ClaimTask, HasAttempt;
    var id := s.runners[r].repo;
    var n := Go(s, ClaimRun(r, pinned, admitted));
    NoAttemptBeforeClaim(s, r);
    ClaimRegisters(s.w, id, pinned, admitted);
    forall q <- n.runners ensures HasAttempt(n.runners[q], n.w) {
      assert HasAttempt(s.runners[q], s.w);
      assert q != r ==> s.runners[q].repo != id;
      HasAttemptAfterClaim(s.runners[q], n.runners[q], s.w, id, pinned, admitted, q == r);
    }
    forall other <- n.w.s.attempts ensures HasClaimer(other, n.owner, n.runners) {
      if other != id {
        assert HasClaimer(other, s.owner, s.runners);
      }
    }
  }

  lemma HasAttemptAfterClaim(before: Runner, after: Runner, w: World, id: string, pinned: bool, admitted: bool, claimer: bool)
    requires Inv(w) && id !in w.s.attempts && HasAttempt(before, w)
    requires if claimer then
               var result := ClaimTask(w.s, id, pinned, admitted).1;
               before.repo == id && after == before.(pc := if result.Granted? then Running(result.task) else Releasing(true))
             else before.repo != id && after == before
    ensures HasAttempt(after, Step(w, Claim(id, pinned, admitted)))
  {
    hide Inv, Step, ClaimTask;
    ClaimRegisters(w, id, pinned, admitted);
  }

  /** A repository whose runner has yet to claim has no attempt registered. */
  lemma NoAttemptBeforeClaim(s: System, r: nat)
    requires Owned(s.runners, s.owner, s.nextId) && AttemptsClaimed(s.runners, s.owner, s.w)
    requires r in s.runners && !s.runners[r].pc.Running?
    ensures s.runners[r].repo !in s.w.s.attempts
  {
    assert s.owner[s.runners[r].repo] == r;
    assert !HasClaimer(s.runners[r].repo, s.owner, s.runners);
  }

  /** A finish ends its own repository's attempt and no other. */
  lemma FinishUnregisters(w: World, t: SyncTask, res: SyncResult, now: Time)
    requires t.repoID in w.s.attempts && w.s.attempts[t.repoID].serial == t.attemptSeq
    ensures var n := Step(w, Finish(t, res, now));
            n.s.attempts == w.s.attempts - {t.repoID} && n.claimed == w.claimed
  {
  }

  lemma ClaimedAfterFinish(s: System, r: nat, res: SyncResult, now: Time)
    requires SystemInv(s) && Enabled(s, FinishRun(r, res, now))
    ensures var n := Go(s, FinishRun(r, res, now)); AttemptsClaimed(n.runners, n.owner, n.w)
  {
    hide Inv, Slotted, Remembered, Folded, Step;
    var t := s.runners[r].pc.task;
    var n := Go(s, FinishRun(r, res, now));
    assert HasAttempt(s.runners[r], s.w);
    FinishUnregisters(s.w, t, res, now);
    forall q <- n.runners ensures HasAttempt(n.runners[q], n.w) {
      assert HasAttempt(s.runners[q], s.w);
      assert q != r ==> s.runners[q].repo != t.repoID;
    }
    forall other <- n.w.s.attempts ensures HasClaimer(other, n.owner, n.runners) {
      assert HasClaimer(other, s.owner, s.runners);
      assert s.owner[other] != r;
    }
  }

  lemma ClaimedAfterTrigger(s: System, id: string, rerunIfBusy: bool)
    requires SystemInv(s)
    ensures var n := Triggered(s, id, rerunIfBusy); AttemptsClaimed(n.runners, n.owner, n.w)
  {
    hide Inv, Slotted, Remembered, Folded, HasAttempt;
    var n := Triggered(s, id, rerunIfBusy);
    forall q <- n.runners ensures HasAttempt(n.runners[q], n.w) {
      if q !in s.runners {
        assert HasAttempt(Runner(id, Starting, false), n.w) by { StartingHasAttempt(id, n.w); }
      }
    }
    forall other <- n.w.s.attempts ensures HasClaimer(other, n.owner, n.runners) {
      assert HasClaimer(other, s.owner, s.runners);
    }
  }

  lemma StartingHasAttempt(id: string, w: World)
    ensures HasAttempt(Runner(id, Starting, false), w)
  {
  }

  lemma ClaimedAfterSettle(s: System, r: nat)
    requires SystemInv(s) && Enabled(s, SettleRun(r))
    ensures var n := PassSettled(s, r); AttemptsClaimed(n.runners, n.owner, n.w)
  {
    hide Inv, Slotted, Remembered, Folded;
    var n := PassSettled(s, r);
    NoAttemptBeforeClaim(s, r);
    forall q <- n.runners ensures HasAttempt(n.runners[q], n.w) {
      assert HasAttempt(s.runners[q], s.w);
    }
    forall other <- n.w.s.attempts ensures HasClaimer(other, n.owner, n.runners) {
      assert HasClaimer(other, s.owner, s.runners);
    }
  }

  /** Moving runners among the counters before a claim and after a finish changes nothing here. */
  lemma ClaimedUnlessRunning(s: System, runners: map<nat, Runner>, w: World)
    requires AttemptsClaimed(s.runners, s.owner, s.w)
    requires runners.Keys == s.runners.Keys
    requires forall r <- runners :: runners[r].repo == s.runners[r].repo
    requires forall r <- runners :: runners[r].pc == s.runners[r].pc || (!runners[r].pc.Running? && !s.runners[r].pc.Running?)
    requires w.claimed == s.w.claimed && w.s.attempts.Keys == s.w.s.attempts.Keys
    requires forall id <- w.s.attempts :: w.s.attempts[id].serial == s.w.s.attempts[id].serial
    ensures AttemptsClaimed(runners, s.owner, w)
  {
    forall r <- runners ensures HasAttempt(runners[r], w) {
      assert HasAttempt(s.runners[r], s.w);
    }
    forall id <- w.s.attempts ensures HasClaimer(id, s.owner, runners) {
      assert HasClaimer(id, s.owner, s.runners);
    }
  }

  lemma ClaimedAfterOutside(s: System, e: Event)
    requires AttemptsClaimed(s.runners, s.owner, s.w) && !e.Claim? && !e.Finish?
    ensures AttemptsClaimed(s.runners, s.owner, Step(s.w, e))
  {
    hide Step, AttemptsClaimed;
    if e.Swap? {
      SwapsKeepSerials(s.w, e);
    } else {
      OthersKeepAttempts(s.w, e);
    }
    ClaimedUnlessRunning(s, s.runners, Step(s.w, e));
  }

  lemma ClaimedAfterQuietMove(s: System, mv: Move)
    requires SystemInv(s) && Enabled(s, mv)
    requires !mv.ClaimRun? && !mv.FinishRun? && !mv.Trigger? && !mv.SettleRun? && !mv.Outside?
    ensures AttemptsClaimed(Go(s, mv).runners, Go(s, mv).owner, Go(s, mv).w)
  {
    hide Inv, Sound, Owned, Slotted, AttemptsClaimed, Remembered, Folded, EndedOnPurpose, Step, Apply;
    match mv {
      case MarkSyncing(r) => OthersKeepAttempts(s.w, Mark(s.runners[r].repo, true));
      case ClearMark(r) => OthersKeepAttempts(s.w, Mark(s.runners[r].repo, false));
      case StartRun(r, at) => OthersKeepAttempts(s.w, Start(s.runners[r].pc.task, at));
      case _ =>
    }
    ClaimedUnlessRunning(s, Go(s, mv).runners, Go(s, mv).w);
  }

  lemma ClaimedKept(s: System, mv: Move)
    requires SystemInv(s) && Enabled(s, mv)
    ensures AttemptsClaimed(Go(s, mv).runners, Go(s, mv).owner, Go(s, mv).w)
  {
    hide Inv, Sound, Owned, Slotted, AttemptsClaimed, Remembered, Folded, EndedOnPurpose, Step, ClaimTask, Apply, Triggered, PassSettled, Resized;
    match mv
    case ClaimRun(r, pinned, admitted) => ClaimedAfterClaim(s, r, pinned, admitted);
    case FinishRun(r, res, now) => ClaimedAfterFinish(s, r, res, now);
    case Trigger(id, rerunIfBusy) => ClaimedAfterTrigger(s, id, rerunIfBusy);
    case SettleRun(r) => ClaimedAfterSettle(s, r);
    case Outside(e) => ClaimedAfterOutside(s, e);
    case _ => ClaimedAfterQuietMove(s, mv);
  }

  // ---------------------------------------------------------------- triggers

  /** The runner of another repository is another runner. */
  lemma OthersElsewhere(s: System, r: nat, id: string)
    requires Owned(s.runners, s.owner, s.nextId) && r in s.runners && id in s.owner && s.runners[r].repo != id
    ensures s.owner[id] != r
  {
  }

  lemma RememberedAfterTrigger(s: System, mv: Move, id: string)
    requires SystemInv(s) && mv.Trigger? && id in Go(s, mv).owed
    ensures var n := Go(s, mv); id in n.owner && n.owner[id] in n.runners && StillToServe(n, id, n.runners[n.owner[id]])
  {
    hide Inv, Sound, Slotted, AttemptsClaimed, Folded, EndedOnPurpose, Step, ClaimTask, Apply, Resized;
    if id in s.owed {
      assert StillToServe(s, id, s.runners[s.owner[id]]);
    }
  }

  lemma RememberedAfterSettle(s: System, mv: Move, id: string)
    requires SystemInv(s) && Enabled(s, mv) && mv.SettleRun? && id in Go(s, mv).owed
    ensures var n := Go(s, mv); id in n.owner && n.owner[id] in n.runners && StillToServe(n, id, n.runners[n.owner[id]])
  {
    hide Inv, Sound, Slotted, AttemptsClaimed, Folded, EndedOnPurpose, Step, ClaimTask, Apply, Resized;
    assert StillToServe(s, id, s.runners[s.owner[id]]);
    if s.runners[mv.r].repo != id {
      OthersElsewhere(s, mv.r, id);
    }
  }

  /** Short of a claim, a skip or the end of its pass, a runner on its way to its claim stays on it, or
      its context ended. */
  lemma StillOnItsWay(s: System, mv: Move, r: nat)
    requires EndedOnPurpose(s.runners) && Enabled(s, mv) && r in s.runners && !mv.Trigger? && !mv.SettleRun?
    requires !((mv.Skip? || mv.ClaimRun?) && mv.r == r)
    ensures r in Go(s, mv).runners
    ensures Go(s, mv).runners[r].pc.Starting? || Go(s, mv).runners[r].pc.Arriving? || Go(s, mv).runners[r].pc.Waiting?
         || Go(s, mv).runners[r].pc.Holding? || Go(s, mv).runners[r].ctxDone
         || !(s.runners[r].pc.Starting? || s.runners[r].pc.Arriving? || s.runners[r].pc.Waiting? || s.runners[r].pc.Holding?)
  {
    hide Triggered, PassSettled, Step, Apply, ClaimTask, Resized, Legal;
  }

  lemma RememberedOtherwise(s: System, mv: Move, id: string)
    requires SystemInv(s) && Enabled(s, mv) && !mv.Trigger? && !mv.SettleRun? && id in Go(s, mv).owed
    ensures var n := Go(s, mv); id in n.owner && n.owner[id] in n.runners && StillToServe(n, id, n.runners[n.owner[id]])
  {
    hide Inv, Sound, Slotted, AttemptsClaimed, Folded, EndedOnPurpose, Go, Enabled;
    RunnersStay(s, mv);
    OwedOnlyShrinks(s, mv);
    var r := s.owner[id];
    assert StillToServe(s, id, s.runners[r]);
    StillOnItsWay(s, mv, r);
  }

  lemma OwedOnlyShrinks(s: System, mv: Move)
    requires Enabled(s, mv) && !mv.Trigger? && !mv.SettleRun?
    ensures Go(s, mv).owed == if mv.Skip? || mv.ClaimRun? then s.owed - {s.runners[mv.r].repo} else s.owed
  {
    hide Triggered, PassSettled, Step, Apply, ClaimTask, Resized, Legal;
  }

  lemma RememberedAfter(s: System, mv: Move, id: string)
    requires SystemInv(s) && Enabled(s, mv) && id in Go(s, mv).owed
    ensures var n := Go(s, mv); id in n.owner && n.owner[id] in n.runners && StillToServe(n, id, n.runners[n.owner[id]])
  {
    hide SystemInv, Go, Enabled, StillToServe;
    match mv
    case Trigger(_, _) => RememberedAfterTrigger(s, mv, id);
    case SettleRun(_) => RememberedAfterSettle(s, mv, id);
    case _ => RememberedOtherwise(s, mv, id);
  }

  lemma RememberedKept(s: System, mv: Move)
    requires SystemInv(s) && Enabled(s, mv)
    ensures Remembered(Go(s, mv))
  {
    hide SystemInv, Go, StillToServe;
    forall id <- Go(s, mv).owed
      ensures var n := Go(s, mv); id in n.owner && n.owner[id] in n.runners && StillToServe(n, id, n.runners[n.owner[id]])
    {
      RememberedAfter(s, mv, id);
    }
  }

  lemma FoldedAfterTrigger(s: System, mv: Move, id: string)
    requires SystemInv(s) && mv.Trigger? && id in Go(s, mv).owner
    ensures var n := Go(s, mv); n.owner[id] in n.runners && WithinBudget(n, id, n.runners[n.owner[id]])
  {
    hide Inv, Slotted, AttemptsClaimed, Remembered, EndedOnPurpose, Step, ClaimTask, Apply, Resized;
    if id in s.owner {
      assert WithinBudget(s, id, s.runners[s.owner[id]]);
    }
  }

  lemma FoldedAfterSettle(s: System, mv: Move, id: string)
    requires SystemInv(s) && Enabled(s, mv) && mv.SettleRun? && id in Go(s, mv).owner
    ensures var n := Go(s, mv); n.owner[id] in n.runners && WithinBudget(n, id, n.runners[n.owner[id]])
  {
    hide Inv, Slotted, AttemptsClaimed, Remembered, EndedOnPurpose, Step, ClaimTask, Apply, Resized;
    assert WithinBudget(s, id, s.runners[s.owner[id]]);
    if s.runners[mv.r].repo != id {
      OthersElsewhere(s, mv.r, id);
    }
  }

  /** Asking for a slot begins a pass; no other move of a runner does. */
  lemma PassesAfter(s: System, mv: Move)
    requires Enabled(s, mv) && !mv.Trigger? && !mv.SettleRun?
    ensures Go(s, mv).passes == if mv.AskSlot? then s.passes[s.runners[mv.r].repo := PassesOf(s, s.runners[mv.r].repo) + 1] else s.passes
    ensures forall r <- s.runners :: r in Go(s, mv).runners &&
              (PassBegun(Go(s, mv).runners[r].pc) <==> PassBegun(s.runners[r].pc) || mv == AskSlot(r))
    ensures mv.AskSlot? ==> mv.r in s.runners && !PassBegun(s.runners[mv.r].pc)
  {
    hide Triggered, PassSettled, Step, Apply, ClaimTask, Resized, Legal;
  }

  lemma FoldedOtherwise(s: System, mv: Move, id: string)
    requires SystemInv(s) && Enabled(s, mv) && !mv.Trigger? && !mv.SettleRun? && id in Go(s, mv).owner
    ensures var n := Go(s, mv); n.owner[id] in n.runners && WithinBudget(n, id, n.runners[n.owner[id]])
  {
    hide Inv, Sound, Slotted, AttemptsClaimed, Remembered, EndedOnPurpose, Go, Enabled, PassBegun;
    RunnersStay(s, mv);
    PassesAfter(s, mv);
    assert WithinBudget(s, id, s.runners[s.owner[id]]);
  }

  lemma FoldedAfter(s: System, mv: Move, id: string)
    requires SystemInv(s) && Enabled(s, mv) && id in Go(s, mv).owner
    ensures var n := Go(s, mv); n.owner[id] in n.runners && WithinBudget(n, id, n.runners[n.owner[id]])
  {
    hide SystemInv, Go, Enabled, WithinBudget;
    match mv
    case Trigger(_, _) => FoldedAfterTrigger(s, mv, id);
    case SettleRun(_) => FoldedAfterSettle(s, mv, id);
    case _ => FoldedOtherwise(s, mv, id);
  }

  lemma FoldedKept(s: System, mv: Move)
    requires SystemInv(s) && Enabled(s, mv)
    ensures Folded(Go(s, mv))
  {
    hide SystemInv, Go, WithinBudget;
    forall id <- Go(s, mv).owner
      ensures var n := Go(s, mv); n.owner[id] in n.runners && WithinBudget(n, id, n.runners[n.owner[id]])
    {
      FoldedAfter(s, mv, id);
    }
  }

  lemma EndedOnPurposeKept(s: System, mv: Move)
    requires SystemInv(s) && Enabled(s, mv)
    ensures EndedOnPurpose(Go(s, mv).runners)
  {
    hide Inv, Sound, Owned, Slotted, AttemptsClaimed, Remembered, Folded, Step, ClaimTask, Apply, Resized;
  }

  // ---------------------------------------------------------------- the client's part

  lemma RunnersTaskWasClaimed(s: System, r: nat)
    requires AttemptsClaimed(s.runners, s.owner, s.w) && r in s.runners && s.runners[r].pc.Running?
    ensures HasAttempt(s.runners[r], s.w)
    ensures var t := s.runners[r].pc.task; t.attemptSeq in s.w.claimed && s.w.claimed[t.attemptSeq] == t
  {
    assert HasAttempt(s.runners[r], s.w);
  }

  lemma ClientKept(s: System, mv: Move)
    requires SystemInv(s) && Enabled(s, mv)
    ensures Inv(Go(s, mv).w)
  {
    hide Inv, Sound, Owned, Slotted, AttemptsClaimed, Remembered, Folded, EndedOnPurpose, Step, ClaimTask, Apply, Resized, HasAttempt;
    match mv
    case MarkSyncing(r) => StepKeepsInv(s.w, Mark(s.runners[r].repo, true));
    case ClearMark(r) => StepKeepsInv(s.w, Mark(s.runners[r].repo, false));
    case ClaimRun(r, pinned, admitted) => StepKeepsInv(s.w, Claim(s.runners[r].repo, pinned, admitted));
    case StartRun(r, at) =>
      RunnersTaskWasClaimed(s, r);
      StepKeepsInv(s.w, Start(s.runners[r].pc.task, at));
    case FinishRun(r, res, now) =>
      RunnersTaskWasClaimed(s, r);
      StepKeepsInv(s.w, Finish(s.runners[r].pc.task, res, now));
    case Outside(e) => StepKeepsInv(s.w, e);
    case _ =>
  }

  lemma MoveKeepsInv(s: System, mv: Move)
    requires SystemInv(s) && Enabled(s, mv)
    ensures SystemInv(Go(s, mv))
  {
    hide Inv, Sound, Owned, Slotted, AttemptsClaimed, Remembered, Folded, EndedOnPurpose, Go, Enabled;
    ClientKept(s, mv);
    OwnedKept(s, mv);
    SlottedKept(s, mv);
    ClaimedKept(s, mv);
    RememberedKept(s, mv);
    FoldedKept(s, mv);
    EndedOnPurposeKept(s, mv);
  }

  lemma {:induction false} SystemInvAlways(ss: seq<System>, ms: seq<Move>, i: nat)
    requires IsSystemRun(ss, ms) && i < |ss|
    ensures SystemInv(ss[i])
  {
    if i == 0 {
      InitialHasInv(ss[0].w);
    } else {
      hide SystemInv, Go, Enabled;
      SystemInvAlways(ss, ms, i - 1);
      MoveKeepsInv(ss[i - 1], ms[i - 1]);
    }
  }

  // ---------------------------------------------------------------- the theorems

  /** No repository ever has two runners, and a repository in flight has one. */
  lemma NeverTwoRunners(ss: seq<System>, ms: seq<Move>, i: nat, r: nat, q: nat)
    requires IsSystemRun(ss, ms) && i < |ss| && r in ss[i].runners && q in ss[i].runners
    ensures ss[i].runners[r].repo == ss[i].runners[q].repo ==> r == q
    ensures ss[i].runners[r].repo in ss[i].m.inflight
  {
    hide IsSystemRun;
    SystemInvAlways(ss, ms, i);
  }

  /** The two defensive refusals of a claim are never taken: wherever a runner reaches its claim, the
      provider is in step and no attempt is running for the repository. */
  lemma ClaimRefusalsAreDead(ss: seq<System>, ms: seq<Move>, i: nat)
    requires IsSystemRun(ss, ms) && i < |ms| && ms[i].ClaimRun?
    ensures var id := ss[i].runners[ms[i].r].repo;
            var result := ClaimTask(ss[i].w.s, id, ms[i].pinned, ms[i].admitted).1;
            result != Refused(OutOfStep) && result != Refused(AlreadyRunning)
  {
    hide Go;
    SystemInvAlways(ss, ms, i);
    var s, r := ss[i], ms[i].r;
    NoAttemptBeforeClaim(s, r);
    ClaimNeverOutOfStep(s.w, s.runners[r].repo, ms[i].pinned, ms[i].admitted);
  }

  /** A finisher is never stale: the attempt registered for its repository is its own, and ends. */
  lemma FinisherIsNeverStale(ss: seq<System>, ms: seq<Move>, i: nat)
    requires IsSystemRun(ss, ms) && i < |ms| && ms[i].FinishRun?
    ensures var t := ss[i].runners[ms[i].r].pc.task;
            && t.repoID in ss[i].w.s.attempts && ss[i].w.s.attempts[t.repoID].serial == t.attemptSeq
            && !Stale(ss[i].w.s, t)
            && t.repoID !in ss[i + 1].w.s.attempts
  {
    SystemInvAlways(ss, ms, i);
    var s, r := ss[i], ms[i].r;
    RunnersTaskWasClaimed(s, r);
    FinishUnregisters(s.w, s.runners[r].pc.task, ms[i].res, ms[i].now);
  }

  /** The registered attempts are, one for one, those of the runners that have claimed; each holds a
      slot, and all the slots held are accounted for. */
  lemma AttemptsHoldSlots(ss: seq<System>, ms: seq<Move>, i: nat, id: string)
    requires IsSystemRun(ss, ms) && i < |ss| && id in ss[i].w.s.attempts
    ensures id in ss[i].owner && ss[i].owner[id] in ss[i].runners
    ensures var r := ss[i].owner[id];
            && ss[i].runners[r].pc.Running? && ss[i].runners[r].repo == id && r in ss[i].pool.holding
            && ss[i].runners[r].pc.task.attemptSeq == ss[i].w.s.attempts[id].serial
    ensures ss[i].pool.p.held == |ss[i].pool.holding| + |ss[i].pool.granted|
  {
    hide IsSystemRun;
    SystemInvAlways(ss, ms, i);
    assert HasClaimer(id, ss[i].owner, ss[i].runners);
    RunnersTaskWasClaimed(ss[i], ss[i].owner[id]);
    assert HoldsSlot(ss[i].runners[ss[i].owner[id]].pc);
  }

  /** No trigger is lost: when a runner ends, no trigger of its repository is still waiting for a pass
      that would serve it, unless the runner's context ended. */
  lemma NoTriggerIsLost(ss: seq<System>, ms: seq<Move>, i: nat)
    requires IsSystemRun(ss, ms) && i < |ms| && ms[i].SettleRun?
    ensures var r := ms[i].r;
            var id := ss[i].runners[r].repo;
            r !in ss[i + 1].runners ==> id !in ss[i].owed || ss[i].runners[r].ctxDone
  {
    SystemInvAlways(ss, ms, i);
    var s, r := ss[i], ms[i].r;
    assert s.owner[s.runners[r].repo] == r;
  }

  /** What `owed` means: a repository gets on the list at a trigger that starts a run or asks for a
      rerun, and off it when its runner reaches its claim or ends. */
  lemma OwedIsTriggeredSince(s: System, mv: Move, id: string)
    requires Enabled(s, mv)
    ensures mv == Trigger(id, true) && (id !in s.m.inflight || (id in s.owner && s.owner[id] in s.runners)) ==> id in Go(s, mv).owed
    ensures id in s.owed && id !in Go(s, mv).owed ==>
              && (mv.Skip? || mv.ClaimRun? || mv.SettleRun?)
              && s.runners[mv.r].repo == id
  {
    hide Step, Apply, ClaimTask, Resized;
  }

  /** A burst of triggers folds: since the last one at most two passes begin, the one that was under
      way or due and a single trailing rerun; and nothing more is marked once the second has begun. */
  lemma BurstsFoldIntoOneRerun(ss: seq<System>, ms: seq<Move>, i: nat, id: string)
    requires IsSystemRun(ss, ms) && i < |ss| && id in ss[i].m.inflight
    ensures id in ss[i].owner && ss[i].owner[id] in ss[i].runners
    ensures PassesOf(ss[i], id) <= 2
    ensures PassesOf(ss[i], id) == 2 ==> id !in ss[i].m.rerun && PassBegun(ss[i].runners[ss[i].owner[id]].pc)
  {
    hide IsSystemRun;
    SystemInvAlways(ss, ms, i);
    assert WithinBudget(ss[i], id, ss[i].runners[ss[i].owner[id]]);
  }

  /** The idle channel is closed exactly when nothing is in flight, marks are only of repositories in
      flight, and every close is of an open channel. */
  lemma IdleIsSignalledOnce(ss: seq<System>, ms: seq<Move>, i: nat)
    requires IsSystemRun(ss, ms) && i < |ss|
    ensures (ss[i].m.idle <==> ss[i].runners == map[]) && ss[i].m.rerun <= ss[i].m.inflight
    ensures i < |ms| && ms[i].SettleRun? && ss[i + 1].m.idle ==> !ss[i].m.idle
  {
    SystemInvAlways(ss, ms, i);
    var s := ss[i];
    if s.runners != map[] {
      var r :| r in s.runners;
      assert s.runners[r].repo in s.owner;
    }
    if s.m.inflight != {} {
      var id :| id in s.m.inflight;
      assert s.owner[id] in s.runners;
    }
  }

  /** A trigger starts a runner if and only if its repository has none; otherwise it marks a rerun if it asks
      for one, and does nothing if not. */
  lemma TriggerStartsOrMarks(ss: seq<System>, ms: seq<Move>, i: nat)
    requires IsSystemRun(ss, ms) && i < |ms| && ms[i].Trigger?
    ensures var (s, n, id) := (ss[i], ss[i + 1], ms[i].id);
            if forall r <- s.runners :: s.runners[r].repo != id then
              && n.runners == s.runners[s.nextId := Runner(id, Starting, false)]
              && n.m.inflight == s.m.inflight + {id} && n.m.rerun == s.m.rerun
            else
              && n.runners == s.runners && n.m.inflight == s.m.inflight
              && n.m.rerun == if ms[i].rerunIfBusy then s.m.rerun + {id} else s.m.rerun
  {
    SystemInvAlways(ss, ms, i);
    hide Inv, Slotted, AttemptsClaimed, Remembered, Folded, EndedOnPurpose;
    var s, id := ss[i], ms[i].id;
    assert ss[i + 1] == Triggered(s, id, ms[i].rerunIfBusy);
    if id in s.m.inflight {
      assert s.owner[id] in s.runners && s.runners[s.owner[id]].repo == id;
    }
  }

  /** A runner goes on after a pass if and only if a rerun was marked and its context lives; either way the
      mark is gone. */
  lemma PassFollowsIff(ss: seq<System>, ms: seq<Move>, i: nat)
    requires IsSystemRun(ss, ms) && i < |ms| && ms[i].SettleRun?
    ensures var (s, n, r) := (ss[i], ss[i + 1], ms[i].r);
            var id := s.runners[r].repo;
            && (r in n.runners <==> id in s.m.rerun && !s.runners[r].ctxDone)
            && (r in n.runners ==> n.runners == s.runners[r := Runner(id, Starting, false)] && n.m.inflight == s.m.inflight)
            && (r !in n.runners ==> n.runners == s.runners - {r} && n.m.inflight == s.m.inflight - {id})
            && n.m.rerun == s.m.rerun - {id}
  {
    assert Enabled(ss[i], ms[i]) && ss[i + 1] == PassSettled(ss[i], ms[i].r);
    hide IsSystemRun;
  }

  /** Once a configuration was accepted, the slots are as many as the last accepted one asks for. */
  lemma {:induction false} SlotsFollowLimits(ss: seq<System>, ms: seq<Move>, i: nat)
    requires IsSystemRun(ss, ms) && i < |ss| && ss[i].w.s.configAccepted
    ensures ss[i].pool.p.limit == Max(ss[i].w.s.limits.maxConcurrency, 1)
  {
    if i > 0 {
      hide Go, Enabled;
      StepOfLimits(ss[i - 1], ms[i - 1]);
      if ss[i - 1].w.s.configAccepted {
        SlotsFollowLimits(ss, ms, i - 1);
      }
    }
  }

  lemma StepOfLimits(s: System, mv: Move)
    requires Enabled(s, mv)
    ensures var n := Go(s, mv);
            if mv.Outside? && mv.e.Configure? && Rejection(mv.e.msg).None? then
              n.pool.p.limit == Max(n.w.s.limits.maxConcurrency, 1)
            else n.pool.p.limit == s.pool.p.limit && n.w.s.limits == s.w.s.limits && n.w.s.configAccepted == s.w.s.configAccepted
  {
    hide Step, Apply, Rejection, ClaimTask, Triggered, PassSettled, Legal;
    match mv
    case Trigger(id, rerunIfBusy) => PoolStaysOnTrigger(s, id, rerunIfBusy);
    case SettleRun(r) => PoolStaysOnSettle(s, r);
    case MarkSyncing(r) => OthersKeepLimits(s.w, Mark(s.runners[r].repo, true));
    case ClearMark(r) => OthersKeepLimits(s.w, Mark(s.runners[r].repo, false));
    case ClaimRun(r, pinned, admitted) => OthersKeepLimits(s.w, Claim(s.runners[r].repo, pinned, admitted));
    case StartRun(r, at) => OthersKeepLimits(s.w, Start(s.runners[r].pc.task, at));
    case FinishRun(r, res, now) => OthersKeepLimits(s.w, Finish(s.runners[r].pc.task, res, now));
    case AskSlot(r) => StepOfLimit(s.pool, Acquire(r));
    case WakeUp(r) => StepOfLimit(s.pool, Wake(r));
    case LeaveQueue(r) => StepOfLimit(s.pool, Abandon(r));
    case ReturnSlot(r) => StepOfLimit(s.pool, Release(r));
    case Outside(e) =>
      OthersKeepLimits(s.w, e);
      if e.Configure? && Rejection(e.msg).None? {
        StepOfLimit(s.pool, Resize(e.msg.limits.value.maxConcurrency));
      }
    case _ =>
  }

  lemma PoolStaysOnTrigger(s: System, id: string, rerunIfBusy: bool)
    ensures var n := Triggered(s, id, rerunIfBusy); n.pool == s.pool && n.w == s.w
  {
  }

  lemma PoolStaysOnSettle(s: System, r: nat)
    requires r in s.runners
    ensures var n := PassSettled(s, r); n.pool == s.pool && n.w == s.w
  {
  }

  /** Only an accepted configuration sets the limits, to its own. */
  lemma OthersKeepLimits(w: World, e: Event)
    ensures var n := Step(w, e).s;
            if e.Configure? && Rejection(e.msg).None? then n.limits == e.msg.limits.value
            else n.limits == w.s.limits && n.configAccepted == w.s.configAccepted
  {
    hide Rejection, FreshRepos, Installed, Surviving, Rebound, Revoked, Providers.Build, Providers.ProviderSet.Equal, RecordAttempt, Recorded;
  }
}
