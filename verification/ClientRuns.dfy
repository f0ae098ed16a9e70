/** Every sequence of critical sections the connector can go through, and what holds in all the
    states it reaches: no attempt keeps a credential that nothing can revoke, no result is
    attributed to the wrong target or credential, and records belong to what is configured. */
module ClientRuns {
  import opened Basics
  import opened Option
  import opened Providers
  import opened ClientState

  /** One critical section with the outside inputs it read. */
  datatype Event =
    | Claim(id: string, pinned: bool, admitted: bool)
    | Finish(task: SyncTask, res: SyncResult, now: Time)
    | Start(task: SyncTask, at: Time)
    | Mark(id: string, syncing: bool)
    | Configure(msg: ConfigMsg)
    | Swap(listed: seq<Listed>)
    | Connected
    | Disconnected
    | ProbeBegins(now: Time)
    | ProbeCommits(result: Option<OriginResult>)
    | ProbeEnds

  function Next(s: State, e: Event): State {
    match e
    case Claim(id, pinned, admitted) => ClaimTask(s, id, pinned, admitted).0
    case Finish(t, res, now) => FinishSync(s, t, res, now)
    case Start(t, at) => StartAttempt(s, t, at)
    case Mark(id, syncing) => SetSyncing(s, id, syncing)
    case Configure(m) => ApplyConfig(s, m)
    case Swap(listed) => SwapProviders(s, listed)
    case Connected => Connect(s)
    case Disconnected => Disconnect(s)
    case ProbeBegins(now) => BeginProbe(s, now)
    case ProbeCommits(result) => CommitProbe(s, result)
    case ProbeEnds => EndProbe(s)
  }

  /** A finished attempt whose outcome was kept: what it returned and what was recorded for it. */
  datatype KeptResult = KeptResult(task: SyncTask, res: SyncResult, recorded: SyncResult)

  /** The state with its history: every task handed out, by sequence number, and every outcome kept. */
  datatype World = World(s: State, claimed: map<nat, SyncTask>, kept: seq<KeptResult>)

  function Step(w: World, e: Event): World {
    match e
    case Claim(id, pinned, admitted) =>
      var (s, r) := ClaimTask(w.s, id, pinned, admitted);
      World(s, if r.Granted? then w.claimed[r.task.attemptSeq := r.task] else w.claimed, w.kept)
    case Finish(t, res, _) =>
      World(Next(w.s, e), w.claimed,
            if Keeps(w.s, t, res) then w.kept + [KeptResult(t, res, Recorded(w.s.repos[t.repoID], res))] else w.kept)
    case _ => World(Next(w.s, e), w.claimed, w.kept)
  }

  lemma StepIsNext(w: World, e: Event)
    ensures Step(w, e).s == Next(w.s, e)
  {
  }

  /** What the callers guarantee: only tasks that were handed out are started or finished (even twice,
      or long after), a sync returns one of three states, and inputs went through their validators. */
  ghost predicate Legal(w: World, e: Event) {
    match e
    case Finish(t, res, _) => t.attemptSeq in w.claimed && w.claimed[t.attemptSeq] == t && res.state != Unset
    case Start(t, _) => t.attemptSeq in w.claimed && w.claimed[t.attemptSeq] == t
    case Configure(m) => WellFormed(m)
    case Swap(listed) => ValidStore(listed)
    case _ => true
  }

  /** A client as `NewClient` makes it: providers from the startup store, run records from disk. */
  ghost predicate Initial(w: World) {
    && (exists listed | ValidStore(listed) :: (w.s.providers, w.s.providerGen) == Build(listed, NO_PROVIDERS, 0))
    && w.s.repos == map[] && w.s.attempts == map[] && w.s.attemptSeq == 0 && w.s.providerEpoch == 0
    && !w.s.configAccepted && w.s.probing == Probing(0, false, None, 0, None)
    && w.claimed == map[] && w.kept == []
  }

  ghost predicate IsRun(ws: seq<World>, es: seq<Event>) {
    && |ws| == |es| + 1
    && Initial(ws[0])
    && forall i {:trigger es[i]} | 0 <= i < |es| :: Legal(ws[i], es[i]) && ws[i + 1] == Step(ws[i], es[i])
  }

  // ---------------------------------------------------------------- the invariant

  /** The repository's binding is exactly what matching its host in `providers` gives. */
  predicate Bound(r: RepoState, providers: ProviderSet) {
    match providers.Match(r.originHostKey)
    case Some(name) => r.matched && r.provider == name && r.bind == Binding(name, providers.GenOf(name)) && r.canonicalURL == r.originURL
    case None => !r.matched && r.provider == "" && r.bind == UNBOUND && r.canonicalURL == ""
  }

  ghost predicate ReposBound(repos: map<string, RepoState>, providers: ProviderSet) {
    forall id <- repos ::
      && repos[id].repoID == id
      && Bound(repos[id], providers)
      && (repos[id].replicaUsable <==> repos[id].replicaURL != "")
  }

  /** The provider credential a task carries is the one its binding stands for while that is in force. */
  predicate CarriesCurrent(t: SyncTask, providers: ProviderSet) {
    providers.InForce(t.bind) ==> SameCredential(t.origin, providers.byName[t.bind.provider].entry)
  }

  ghost predicate TasksSound(claimed: map<nat, SyncTask>, drawn: nat, providers: ProviderSet, gen: nat) {
    forall k <- claimed ::
      && 1 <= k <= drawn && claimed[k].attemptSeq == k
      && 1 <= claimed[k].bind.gen <= gen
      && claimed[k].replicaURL != ""
      && CarriesCurrent(claimed[k], providers)
  }

  /** An attempt stands for a task handed out, and is cancelled or still in force. */
  ghost predicate Revocable(id: string, a: Attempt, claimed: map<nat, SyncTask>, providers: ProviderSet) {
    && a.serial in claimed && claimed[a.serial].repoID == id && claimed[a.serial].bind == a.bind
    && (a.superseded <==> a.cancelled)
    && (a.cancelled || providers.InForce(a.bind))
  }

  ghost predicate AttemptsRevocable(attempts: map<string, Attempt>, claimed: map<nat, SyncTask>, providers: ProviderSet) {
    forall id <- attempts :: Revocable(id, attempts[id], claimed, providers)
  }

  predicate SameIdentity(t: SyncTask, r: RepoState) {
    t.repoID == r.repoID && t.bind == r.bind && t.canonicalURL == r.originURL && t.replicaURL == r.replicaURL
  }

  ghost predicate Vouched(kept: seq<KeptResult>, r: RepoState) {
    exists k <- kept :: k.recorded == r.result && SameIdentity(k.task, r)
  }

  /** A repository's result is absent, the invalid-replica marker, or a kept outcome of an attempt
      at its present binding, origin and replica. */
  ghost predicate Attributed(kept: seq<KeptResult>, r: RepoState) {
    || r.result == NO_RESULT
    || (r.result == INVALID_REPLICA && r.matched && !r.replicaUsable)
    || (r.matched && r.replicaUsable && Vouched(kept, r))
  }

  ghost predicate ResultsAttributed(kept: seq<KeptResult>, repos: map<string, RepoState>) {
    forall id <- repos :: Attributed(kept, repos[id])
  }

  ghost predicate RecordsOwned(runs: map<string, RunRecord>, repos: map<string, RepoState>) {
    repos != map[] ==> forall id <- runs :: id in repos && runs[id].target == Some(repos[id].target)
  }

  /** The cached origin check was made from the providers in force, and a probe that is running with
      others has been told to stop. */
  predicate ProbesCurrent(p: Probing, epoch: nat) {
    && (p.check.Some? ==> p.check.value.epoch == epoch)
    && (p.probe.Some? ==> p.probe.value.cancelled || p.probe.value.epoch == epoch)
    && (p.probe.Some? ==> p.probe.value.epoch <= epoch)
  }

  ghost predicate Inv(w: World) {
    && w.s.providers.Valid(w.s.providerGen)
    && ReposBound(w.s.repos, w.s.providers)
    && TasksSound(w.claimed, w.s.attemptSeq, w.s.providers, w.s.providerGen)
    && AttemptsRevocable(w.s.attempts, w.claimed, w.s.providers)
    && ResultsAttributed(w.kept, w.s.repos)
    && RecordsOwned(w.s.runs, w.s.repos)
    && ProbesCurrent(w.s.probing, w.s.providerEpoch)
  }

  // ---------------------------------------------------------------- claims

  /** A claim never finds the provider out of step: that refusal is dead. */
  lemma ClaimNeverOutOfStep(w: World, id: string, pinned: bool, admitted: bool)
    requires Inv(w)
    ensures ClaimTask(w.s, id, pinned, admitted).1 != Refused(OutOfStep)
  {
    if Syncable(w.s, id) {
      assert Bound(w.s.repos[id], w.s.providers);
    }
  }

  /** Registering the next attempt under a fresh sequence number disturbs no other. */
  lemma GrantKeepsAttempts(w: World, id: string, t: SyncTask)
    requires Inv(w) && t.attemptSeq == w.s.attemptSeq + 1 && t.repoID == id && w.s.providers.InForce(t.bind)
    ensures AttemptsRevocable(w.s.attempts[id := Attempt(t.attemptSeq, t.bind, false, false)],
                              w.claimed[t.attemptSeq := t], w.s.providers)
  {
    assert t.attemptSeq !in w.claimed;
    forall other <- w.s.attempts | other != id
      ensures Revocable(other, w.s.attempts[other], w.claimed[t.attemptSeq := t], w.s.providers)
    {
      assert Revocable(other, w.s.attempts[other], w.claimed, w.s.providers);
    }
  }

  lemma GrantKeepsTasks(w: World, t: SyncTask)
    requires Inv(w) && t.attemptSeq == w.s.attemptSeq + 1 && t.replicaURL != ""
    requires w.s.providers.InForce(t.bind) && t.origin == w.s.providers.byName[t.bind.provider].entry
    ensures TasksSound(w.claimed[t.attemptSeq := t], t.attemptSeq, w.s.providers, w.s.providerGen)
  {
  }

  lemma ClaimKeepsInv(w: World, id: string, pinned: bool, admitted: bool)
    requires Inv(w)
    ensures Inv(Step(w, Claim(id, pinned, admitted)))
  {
    var (s, r) := ClaimTask(w.s, id, pinned, admitted);
    if r.Granted? {
      assert Bound(w.s.repos[id], w.s.providers);
      GrantKeepsTasks(w, r.task);
      GrantKeepsAttempts(w, id, r.task);
    } else {
      assert s == w.s || s == w.s.(attemptSeq := w.s.attemptSeq + 1);
    }
  }

  // ---------------------------------------------------------------- finishes

  /** A kept outcome is of an attempt at the repository's present binding and target. */
  lemma KeptIsCurrent(w: World, t: SyncTask, res: SyncResult)
    requires Inv(w) && t.attemptSeq in w.claimed && w.claimed[t.attemptSeq] == t && Keeps(w.s, t, res)
    ensures var r := w.s.repos[t.repoID];
            && SameIdentity(t, r) && r.matched && r.replicaUsable
            && w.s.providers.InForce(t.bind)
            && SameCredential(t.origin, w.s.providers.byName[t.bind.provider].entry)
  {
    assert Bound(w.s.repos[t.repoID], w.s.providers);
  }

  lemma VouchedGrows(kept: seq<KeptResult>, k: KeptResult, r: RepoState)
    requires Attributed(kept, r)
    ensures Attributed(kept + [k], r)
  {
    if Vouched(kept, r) {
      var j :| j in kept && j.recorded == r.result && SameIdentity(j.task, r);
      assert j in kept + [k];
    }
  }

  /** Changing one repository, at the same target and binding, disturbs no other. */
  lemma OneRepoKeepsRepos(w: World, id: string, r: RepoState, kept: seq<KeptResult>)
    requires Inv(w) && id in w.s.repos
    requires r == w.s.repos[id].(result := r.result, syncing := r.syncing, attemptStartedAt := r.attemptStartedAt)
    requires Attributed(kept, r)
    requires kept == w.kept || (|kept| == |w.kept| + 1 && kept[..|w.kept|] == w.kept)
    ensures ReposBound(w.s.repos[id := r], w.s.providers)
    ensures ResultsAttributed(kept, w.s.repos[id := r])
    ensures forall runs | RecordsOwned(runs, w.s.repos) :: RecordsOwned(runs, w.s.repos[id := r])
  {
    assert Bound(w.s.repos[id], w.s.providers) ==> Bound(r, w.s.providers);
    forall other <- w.s.repos | other != id ensures Attributed(kept, w.s.repos[other]) {
      assert Attributed(w.kept, w.s.repos[other]);
      if kept != w.kept {
        assert kept == w.kept + [kept[|w.kept|]];
        VouchedGrows(w.kept, kept[|w.kept|], w.s.repos[other]);
      }
    }
  }

  lemma EndingKeepsAttempts(w: World, id: string)
    requires AttemptsRevocable(w.s.attempts, w.claimed, w.s.providers)
    ensures AttemptsRevocable(w.s.attempts - {id}, w.claimed, w.s.providers)
  {
  }

  lemma KeptKeepsInv(w: World, t: SyncTask, res: SyncResult, now: Time)
    requires Inv(w) && Legal(w, Finish(t, res, now)) && Keeps(w.s, t, res)
    ensures Inv(Step(w, Finish(t, res, now)))
  {
    KeptIsCurrent(w, t, res);
    EndingKeepsAttempts(w, t.repoID);
    var r := w.s.repos[t.repoID];
    var new_ := KeptResult(t, res, Recorded(r, res));
    var r' := Idle(r).(result := Recorded(r, res));
    assert new_ in w.kept + [new_];
    OneRepoKeepsRepos(w, t.repoID, r', w.kept + [new_]);
  }

  lemma FinishKeepsInv(w: World, t: SyncTask, res: SyncResult, now: Time)
    requires Inv(w) && Legal(w, Finish(t, res, now))
    ensures Inv(Step(w, Finish(t, res, now)))
  {
    if Keeps(w.s, t, res) {
      KeptKeepsInv(w, t, res, now);
    } else {
      EndingKeepsAttempts(w, t.repoID);
      if t.repoID in w.s.repos {
        RemarkKeepsAttribution(w.kept, w.s.repos[t.repoID], Idle(w.s.repos[t.repoID]));
        OneRepoKeepsRepos(w, t.repoID, Idle(w.s.repos[t.repoID]), w.kept);
      }
    }
  }

  // ---------------------------------------------------------------- marks

  lemma RemarkKeepsAttribution(kept: seq<KeptResult>, r: RepoState, r': RepoState)
    requires r' == r.(syncing := r'.syncing, attemptStartedAt := r'.attemptStartedAt)
    ensures Attributed(kept, r) ==> Attributed(kept, r')
  {
    if Vouched(kept, r) {
      var k :| k in kept && k.recorded == r.result && SameIdentity(k.task, r);
      assert SameIdentity(k.task, r');
    }
  }

  lemma MarksKeepInv(w: World, e: Event)
    requires Inv(w) && (e.Start? || e.Mark?)
    ensures Inv(Step(w, e))
  {
    var id := if e.Start? then e.task.repoID else e.id;
    if id in w.s.repos {
      var r' := Next(w.s, e).repos[id];
      RemarkKeepsAttribution(w.kept, w.s.repos[id], r');
      OneRepoKeepsRepos(w, id, r', w.kept);
      assert w.s.repos[id := w.s.repos[id]] == w.s.repos;
    }
  }

  // ---------------------------------------------------------------- probes

  lemma ProbesKeepInv(w: World, e: Event)
    requires Inv(w) && (e.Connected? || e.Disconnected? || e.ProbeBegins? || e.ProbeCommits? || e.ProbeEnds?)
    ensures Inv(Step(w, e))
  {
  }

  // ---------------------------------------------------------------- configurations

  lemma {:induction false} FreshReposAreFresh(rs: seq<Inbound>)
    requires forall r <- rs :: (r.replica.ReplicaOK? ==> r.replica.url != "") && (r.origin.Some? ==> r.origin.value.1 != "")
    ensures forall id <- FreshRepos(rs).0 :: exists r <- rs :: r.repoID == id && FreshRepos(rs).0[id] == FreshRepo(r)
    ensures forall id <- FreshRepos(rs).0 ::
              var f := FreshRepos(rs).0[id];
              f.repoID == id && f.result == NO_RESULT && f.bind == UNBOUND && (f.replicaUsable <==> f.replicaURL != "")
  {
    if rs != [] {
      var last := |rs| - 1;
      FreshReposAreFresh(rs[..last]);
      forall id <- FreshRepos(rs).0 ensures exists r <- rs :: r.repoID == id && FreshRepos(rs).0[id] == FreshRepo(r) {
        if id in FreshRepos(rs[..last]).0 && FreshRepos(rs).0[id] == FreshRepos(rs[..last]).0[id] {
          var r :| r in rs[..last] && r.repoID == id && FreshRepos(rs[..last]).0[id] == FreshRepo(r);
          assert r in rs;
        } else {
          assert rs[last] in rs;
        }
      }
    }
  }

  /** A repository installed by a configuration is bound as its host matches, and carries a result
      only from the same binding, origin and replica. */
  lemma InstallIsSound(w: World, built: RepoState)
    requires Inv(w)
    requires built.result == NO_RESULT && built.bind == UNBOUND && (built.replicaUsable <==> built.replicaURL != "")
    ensures var st := Install(w.s, built);
            && Bound(st, w.s.providers) && Attributed(w.kept, st)
            && st.repoID == built.repoID && st.target == built.target
            && (st.replicaUsable <==> st.replicaURL != "")
  {
    var st := BindRepo(built, w.s.providers);
    if built.repoID in w.s.repos && SameSyncIdentity(w.s.repos[built.repoID], st) {
      var was := w.s.repos[built.repoID];
      assert Bound(was, w.s.providers) && Attributed(w.kept, was);
    }
  }

  lemma ConfigureKeepsInv(w: World, m: ConfigMsg)
    requires Inv(w) && WellFormed(m)
    ensures Inv(Step(w, Configure(m)))
  {
    var w' := Step(w, Configure(m));
    if Rejection(m).None? {
      var built := FreshRepos(m.repositories.value).0;
      FreshReposAreFresh(m.repositories.value);
      forall id <- w'.s.repos
        ensures w'.s.repos[id].repoID == id && Bound(w'.s.repos[id], w.s.providers) && Attributed(w.kept, w'.s.repos[id])
        ensures w'.s.repos[id].replicaUsable <==> w'.s.repos[id].replicaURL != ""
      {
        InstallIsSound(w, built[id]);
      }
    }
  }

  // ---------------------------------------------------------------- swaps

  lemma BindRepoBinds(r: RepoState, next: ProviderSet)
    ensures Bound(BindRepo(r, next), next)
  {
  }

  lemma BindRepoIsSound(kept: seq<KeptResult>, r: RepoState, prev: ProviderSet, gen: nat, next: ProviderSet, gen': nat)
    requires prev.Valid(gen) && next.Valid(gen')
    requires Bound(r, prev) && Attributed(kept, r)
    ensures Bound(BindRepo(r, next), next) && Attributed(kept, BindRepo(r, next))
  {
    var b := BindRepo(r, next);
    BindRepoBinds(r, next);
    if b.bind != r.bind {
      assert b.result == NO_RESULT || b.result == INVALID_REPLICA;
    } else if r.matched {
      BoundIsNamed(r, prev, gen);
      assert b.matched;
      if r.replicaUsable && Vouched(kept, r) {
        var k :| k in kept && k.recorded == r.result && SameIdentity(k.task, r);
        assert SameIdentity(k.task, b);
      }
    }
  }

  /** A bound repository names a provider, so its binding is never the unbound one. */
  lemma BoundIsNamed(r: RepoState, providers: ProviderSet, gen: nat)
    requires providers.Valid(gen) && Bound(r, providers) && r.matched
    ensures r.bind.provider != "" && r.bind.gen >= 1 && providers.InForce(r.bind)
  {
  }

  /** A task that a swap leaves in force still carries the credential in force: a generation the new
      set shares with the old one stands for the same credential. */
  lemma InheritedTaskIsCurrent(t: SyncTask, prev: ProviderSet, gen: nat, next: ProviderSet)
    requires Inherits(next, prev, gen) && t.bind.gen <= gen && CarriesCurrent(t, prev)
    ensures CarriesCurrent(t, next)
  {
  }

  lemma SwapKeepsTasks(w: World, listed: seq<Listed>)
    requires Inv(w) && ValidStore(listed)
    ensures var (next, drawn) := Build(listed, w.s.providers, w.s.providerGen);
            TasksSound(w.claimed, w.s.attemptSeq, next, drawn)
  {
    BuildIsValid(listed, w.s.providers, w.s.providerGen);
    var next := Build(listed, w.s.providers, w.s.providerGen).0;
    forall k <- w.claimed ensures CarriesCurrent(w.claimed[k], next) {
      InheritedTaskIsCurrent(w.claimed[k], w.s.providers, w.s.providerGen, next);
    }
  }

  /** A swap leaves every attempt cancelled or in force under the new set. */
  lemma SwapKeepsAttempts(w: World, next: ProviderSet)
    requires AttemptsRevocable(w.s.attempts, w.claimed, w.s.providers)
    ensures AttemptsRevocable(Revoked(w.s.attempts, next), w.claimed, next)
  {
    forall id <- w.s.attempts ensures Revocable(id, Revoke(w.s.attempts[id], next), w.claimed, next) {
      assert Revocable(id, w.s.attempts[id], w.claimed, w.s.providers);
    }
  }

  /** Rebinding changes what `bindRepo` derives, and nothing else. */
  lemma BindRepoKeepsTarget(r: RepoState, next: ProviderSet)
    ensures var b := BindRepo(r, next);
            && b.repoID == r.repoID && b.target == r.target && b.originURL == r.originURL && b.originHostKey == r.originHostKey
            && b.replicaUsable == r.replicaUsable && b.replicaURL == r.replicaURL && b.syncing == r.syncing
  {
  }

  lemma SwapKeepsRepos(w: World, next: ProviderSet, drawn: nat)
    requires Inv(w) && next.Valid(drawn)
    ensures var repos := Rebound(w.s.repos, next, {});
            ReposBound(repos, next) && ResultsAttributed(w.kept, repos) && RecordsOwned(w.s.runs, repos)
  {
    var repos := Rebound(w.s.repos, next, {});
    forall id <- repos
      ensures repos[id].repoID == id && Bound(repos[id], next) && Attributed(w.kept, repos[id])
      ensures repos[id].target == w.s.repos[id].target && (repos[id].replicaUsable <==> repos[id].replicaURL != "")
    {
      var r := w.s.repos[id];
      BindRepoKeepsTarget(r, next);
      BindRepoIsSound(w.kept, r, w.s.providers, w.s.providerGen, next, drawn);
    }
    assert repos.Keys == w.s.repos.Keys;
  }

  lemma SwapKeepsInv(w: World, listed: seq<Listed>)
    requires Inv(w) && ValidStore(listed)
    ensures Inv(Step(w, Swap(listed)))
  {
    hide ReposBound, TasksSound, AttemptsRevocable, ResultsAttributed, RecordsOwned;
    hide Build, Rebound, Revoked, ProviderSet.Equal, ProviderSet.Valid, Inherits;
    BuildIsValid(listed, w.s.providers, w.s.providerGen);
    SwapKeepsTasks(w, listed);
    var (next, drawn) := Build(listed, w.s.providers, w.s.providerGen);
    if next.Equal(w.s.providers) {
      EqualSwapDrawsNothing(listed, w.s.providers, w.s.providerGen);
      assert Step(w, Swap(listed)) == w;
    } else {
      SwapKeepsAttempts(w, next);
      SwapKeepsRepos(w, next, drawn);
    }
  }

  // ---------------------------------------------------------------- all runs

  lemma StepKeepsInv(w: World, e: Event)
    requires Inv(w) && Legal(w, e)
    ensures Inv(Step(w, e))
  {
    match e
    case Claim(id, pinned, admitted) => ClaimKeepsInv(w, id, pinned, admitted);
    case Finish(t, res, now) => FinishKeepsInv(w, t, res, now);
    case Configure(m) => ConfigureKeepsInv(w, m);
    case Swap(listed) => SwapKeepsInv(w, listed);
    case Start(_, _) => MarksKeepInv(w, e);
    case Mark(_, _) => MarksKeepInv(w, e);
    case _ => ProbesKeepInv(w, e);
  }

  lemma InitialHasInv(w: World)
    requires Initial(w)
    ensures Inv(w)
  {
    var listed :| ValidStore(listed) && (w.s.providers, w.s.providerGen) == Build(listed, NO_PROVIDERS, 0);
    BuildIsValid(listed, NO_PROVIDERS, 0);
  }

  lemma {:induction false} InvAlways(ws: seq<World>, es: seq<Event>, i: nat)
    requires IsRun(ws, es) && i < |ws|
    ensures Inv(ws[i])
  {
    if i == 0 {
      InitialHasInv(ws[0]);
    } else {
      InvAlways(ws, es, i - 1);
      StepKeepsInv(ws[i - 1], es[i - 1]);
    }
  }
}
