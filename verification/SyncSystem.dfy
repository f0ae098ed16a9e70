/** The manager, the slot pool and the client together: every interleaving of triggers, runners,
    configurations and provider swaps, one locked section at a time (internal/gitsync/manager.go
    with slots.go, attempts.go and client.go).

    A runner is the goroutine `launch` starts. Its program counter names the next locked section it
    will enter, so whatever the others do in between is covered. */
module SyncSystem {
  import opened Basics
  import opened ClientState
  import opened ClientRuns
  import opened Slots
  import opened Manager

  datatype PC =
    | Starting                   // in flight; about to mark the repository as syncing
    | Arriving                   // about to ask for a slot
    | Waiting                    // queued for a slot, or granted one and not yet awake
    | GivingUp                   // its context ended while it waited
    | Holding                    // has a slot; about to check and claim
    | Running(task: SyncTask)    // has claimed the task
    | Releasing(slot: bool)      // did not run; about to clear the mark
    | Returning                  // about to give the slot back
    | Settling                   // about to end the pass

  datatype Runner = Runner(repo: string, pc: PC, ctxDone: bool)

  /** `owner` is the runner of each repository in flight. `owed` and `passes` are history: the
      repositories triggered since their last pass got to its claim, and how many passes have begun
      since the last trigger (counting one that was under way then). */
  datatype System = System(w: World, m: ManagerState, pool: Pooled, runners: map<nat, Runner>, nextId: nat,
                           owner: map<string, nat>, owed: set<string>, passes: map<string, nat>)

  datatype Move =
    | Trigger(id: string, rerunIfBusy: bool)
    | EndContext(r: nat)
    | MarkSyncing(r: nat)
    | AskSlot(r: nat)
    | WakeUp(r: nat)
    | StopWaiting(r: nat)
    | LeaveQueue(r: nat)
    | Skip(r: nat)
    | ClaimRun(r: nat, pinned: bool, admitted: bool)
    | StartRun(r: nat, at: Time)
    | FinishRun(r: nat, res: SyncResult, now: Time)
    | ClearMark(r: nat)
    | ReturnSlot(r: nat)
    | SettleRun(r: nat)
    | Outside(e: Event)

  function PassesOf(s: System, id: string): nat { if id in s.passes then s.passes[id] else 0 }

  predicate PassBegun(pc: PC) { !pc.Starting? && !pc.Arriving? }

  predicate HoldsSlot(pc: PC) { pc.Holding? || pc.Running? || pc.Returning? || pc == Releasing(true) }

  predicate Waits(pc: PC) { pc.Waiting? || pc.GivingUp? }

  function At(s: System, r: nat, pc: PC): System
    requires r in s.runners
  {
    s.(runners := s.runners[r := s.runners[r].(pc := pc)])
  }

  ghost predicate Enabled(s: System, mv: Move) {
    match mv
    case Trigger(_, _) => true
    case EndContext(r) => r in s.runners
    case MarkSyncing(r) => r in s.runners && s.runners[r].pc.Starting?
    case AskSlot(r) => r in s.runners && s.runners[r].pc.Arriving?
    case WakeUp(r) => r in s.runners && s.runners[r].pc.Waiting? && r in s.pool.granted
    case StopWaiting(r) => r in s.runners && s.runners[r].pc.Waiting? && s.runners[r].ctxDone
    case LeaveQueue(r) => r in s.runners && s.runners[r].pc.GivingUp?
    case Skip(r) => r in s.runners && s.runners[r].pc.Holding?
    case ClaimRun(r, _, _) => r in s.runners && s.runners[r].pc.Holding?
    case StartRun(r, _) => r in s.runners && s.runners[r].pc.Running?
    case FinishRun(r, res, _) => r in s.runners && s.runners[r].pc.Running? && res.state != Unset
    case ClearMark(r) => r in s.runners && s.runners[r].pc.Releasing?
    case ReturnSlot(r) => r in s.runners && s.runners[r].pc.Returning?
    case SettleRun(r) => r in s.runners && s.runners[r].pc.Settling?
    case Outside(e) => (e.Configure? || e.Swap? || e.Connected? || e.Disconnected? || e.ProbeBegins? || e.ProbeCommits? || e.ProbeEnds?) && Legal(s.w, e)
  }

  function Go(s: System, mv: Move): System
    requires Enabled(s, mv)
  {
    match mv
    case Trigger(id, rerunIfBusy) => Triggered(s, id, rerunIfBusy)
    case EndContext(r) => s.(runners := s.runners[r := s.runners[r].(ctxDone := true)])
    case MarkSyncing(r) => At(s, r, Arriving).(w := Step(s.w, Mark(s.runners[r].repo, true)))
    case AskSlot(r) =>
      var id := s.runners[r].repo;
      var pool := Apply(s.pool, Acquire(r));
      At(s, r, if r in pool.holding then Holding else Waiting).(pool := pool, passes := s.passes[id := PassesOf(s, id) + 1])
    case WakeUp(r) => At(s, r, Holding).(pool := Apply(s.pool, Wake(r)))
    case StopWaiting(r) => At(s, r, GivingUp)
    case LeaveQueue(r) => At(s, r, Releasing(false)).(pool := Apply(s.pool, Abandon(r)))
    case Skip(r) => At(s, r, Releasing(true)).(owed := s.owed - {s.runners[r].repo})
    case ClaimRun(r, pinned, admitted) =>
      var id := s.runners[r].repo;
      var result := ClaimTask(s.w.s, id, pinned, admitted).1;
      At(s, r, if result.Granted? then Running(result.task) else Releasing(true))
        .(w := Step(s.w, Claim(id, pinned, admitted)), owed := s.owed - {id})
    case StartRun(r, at) => s.(w := Step(s.w, Start(s.runners[r].pc.task, at)))
    case FinishRun(r, res, now) => At(s, r, Returning).(w := Step(s.w, Finish(s.runners[r].pc.task, res, now)))
    case ClearMark(r) =>
      At(s, r, if s.runners[r].pc.slot then Returning else Settling).(w := Step(s.w, Mark(s.runners[r].repo, false)))
    case ReturnSlot(r) => At(s, r, Settling).(pool := Apply(s.pool, Release(r)))
    case SettleRun(r) => PassSettled(s, r)
    case Outside(e) => s.(w := Step(s.w, e), pool := Resized(s.pool, e))
  }

  /** An accepted configuration resizes the pool while it holds the client's lock. */
  function Resized(pool: Pooled, e: Event): Pooled {
    if e.Configure? && Rejection(e.msg).None? then Apply(pool, Resize(e.msg.limits.value.maxConcurrency)) else pool
  }

  /** `launch`: a new runner, or a trailing rerun of the one there is. */
  function Triggered(s: System, id: string, rerunIfBusy: bool): System {
    var (m, started) := Launched(s.m, id, rerunIfBusy);
    if started then
      s.(m := m, runners := s.runners[s.nextId := Runner(id, Starting, false)], nextId := s.nextId + 1,
         owner := s.owner[id := s.nextId], owed := s.owed + {id}, passes := s.passes[id := 0])
    else if rerunIfBusy && id in s.owner && s.owner[id] in s.runners then
      s.(m := m, owed := s.owed + {id},
         passes := s.passes[id := if PassBegun(s.runners[s.owner[id]].pc) then 1 else 0])
    else s.(m := m)
  }

  function PassSettled(s: System, r: nat): System
    requires r in s.runners
  {
    var id := s.runners[r].repo;
    var (m, again) := Settled(s.m, id, s.runners[r].ctxDone);
    if again then At(s, r, Starting).(m := m)
    else s.(m := m, runners := s.runners - {r}, owner := s.owner - {id}, owed := s.owed - {id})
  }

  ghost predicate InitialSystem(s: System) {
    && Initial(s.w) && s.m == NEW_MANAGER && s.runners == map[] && s.owner == map[]
    && (exists limit :: s.pool == Pooled(Pool(Max(limit, 1), 0, []), {}, {}))
    && s.owed == {} && s.passes == map[]
  }

  ghost predicate IsSystemRun(ss: seq<System>, ms: seq<Move>) {
    && |ss| == |ms| + 1
    && InitialSystem(ss[0])
    && forall i {:trigger ms[i]} | 0 <= i < |ms| :: Enabled(ss[i], ms[i]) && ss[i + 1] == Go(ss[i], ms[i])
  }

  // ---------------------------------------------------------------- the invariant

  /** There is one runner for each repository in flight, and no other. */
  ghost predicate Owned(runners: map<nat, Runner>, owner: map<string, nat>, nextId: nat) {
    && (forall r <- runners :: r < nextId && runners[r].repo in owner && owner[runners[r].repo] == r)
    && (forall id <- owner :: owner[id] in runners && runners[owner[id]].repo == id)
  }

  /** Program counters agree with the slot pool's books. */
  ghost predicate Slotted(runners: map<nat, Runner>, pool: Pooled) {
    && Accounted(pool)
    && (forall r <- runners :: (HoldsSlot(runners[r].pc) <==> r in pool.holding)
                            && (Waits(runners[r].pc) <==> Slots.Waiting(pool, r)))
    && (forall r | r in pool.holding || Slots.Waiting(pool, r) :: r in runners)
  }

  /** A runner that has claimed holds a task handed out to its repository, whose attempt is the one
      registered. */
  ghost predicate HasAttempt(r: Runner, w: World) {
    r.pc.Running? ==>
      var t := r.pc.task;
      && t.repoID == r.repo && t.attemptSeq in w.claimed && w.claimed[t.attemptSeq] == t
      && t.repoID in w.s.attempts && w.s.attempts[t.repoID].serial == t.attemptSeq
  }

  predicate HasClaimer(id: string, owner: map<string, nat>, runners: map<nat, Runner>) {
    id in owner && owner[id] in runners && runners[owner[id]].pc.Running?
  }

  /** The attempts registered are exactly those of the runners that have claimed. */
  ghost predicate AttemptsClaimed(runners: map<nat, Runner>, owner: map<string, nat>, w: World) {
    && (forall r <- runners :: HasAttempt(runners[r], w))
    && (forall id <- w.s.attempts :: HasClaimer(id, owner, runners))
  }

  /** A trigger not yet served is remembered: by the rerun mark or by a pass that has not reached its
      claim, unless the runner's context ended. */
  ghost predicate Remembered(s: System) {
    forall id <- s.owed :: id in s.owner && s.owner[id] in s.runners && StillToServe(s, id, s.runners[s.owner[id]])
  }

  predicate StillToServe(s: System, id: string, r: Runner) {
    id in s.m.rerun || r.ctxDone || r.pc.Starting? || r.pc.Arriving? || r.pc.Waiting? || r.pc.Holding?
  }

  /** Passes begun since the last trigger, the rerun marked and the pass about to begin: at most two. */
  ghost predicate Folded(s: System) {
    forall id <- s.owner :: s.owner[id] in s.runners && WithinBudget(s, id, s.runners[s.owner[id]])
  }

  predicate WithinBudget(s: System, id: string, r: Runner) {
    PassesOf(s, id) + (if id in s.m.rerun then 1 else 0) + (if PassBegun(r.pc) then 0 else 1) <= 2
  }

  /** Only a runner whose context ended gives up its wait. */
  ghost predicate EndedOnPurpose(runners: map<nat, Runner>) {
    forall r <- runners | runners[r].pc.GivingUp? || runners[r].pc == Releasing(false) :: runners[r].ctxDone
  }

  ghost predicate SystemInv(s: System) {
    && Inv(s.w)
    && Sound(s.m)
    && s.m.inflight == s.owner.Keys
    && Owned(s.runners, s.owner, s.nextId)
    && Slotted(s.runners, s.pool)
    && AttemptsClaimed(s.runners, s.owner, s.w)
    && Remembered(s)
    && Folded(s)
    && EndedOnPurpose(s.runners)
  }
}
