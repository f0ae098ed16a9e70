/** The connector itself: the fields `Client.mu` guards and the methods that hold the lock, each
    proved to take the state where the step function of ClientState says. */
module Client {
  import opened Basics
  import opened Option
  import opened Providers
  import opened ClientState

  /** A registered attempt. The registry and `setProviders` share the object, so flagging it is seen
      by the finisher. */
  class RunningAttempt {
    const serial: nat
    const bind: Binding
    var superseded: bool
    var cancelled: bool
    var done: bool

    constructor (serial: nat, bind: Binding)
      ensures this.serial == serial && this.bind == bind && !superseded && !cancelled && !done
    {
      this.serial, this.bind := serial, bind;
      superseded, cancelled, done := false, false, false;
    }

    ghost function Value(): Attempt
      reads this
    {
      Attempt(serial, bind, superseded, cancelled)
    }
  }

  class Client {
    var providers: ProviderSet
    var providerGen: nat
    var providerEpoch: nat
    var repos: map<string, RepoState>
    var attempts: map<string, RunningAttempt>
    var attemptSeq: nat
    var runs: map<string, RunRecord>
    var configAccepted: bool
    var configVersion: Option<string>
    var configErr: Option<ConfigError>
    var limits: Limits
    var probing: Probing

    /** Each repository has an attempt object of its own, and none that has ended. */
    ghost predicate Valid()
      reads this`attempts, attempts.Values
    {
      && (forall i, j | i in attempts && j in attempts && i != j :: attempts[i] != attempts[j])
      && (forall i <- attempts :: !attempts[i].done)
    }

    ghost function Registry(): (r: map<string, Attempt>)
      reads this`attempts, attempts.Values
      ensures r.Keys == attempts.Keys
    {
      map id <- attempts :: attempts[id].Value()
    }

    ghost function Abstract(): State
      reads this, attempts.Values
    {
      State(providers, providerGen, providerEpoch, repos, Registry(), attemptSeq, runs,
            configAccepted, configVersion, configErr, limits, probing)
    }

    /** A client made from the startup store, with the run records found on disk. */
    constructor (local: seq<Listed>, loaded: map<string, RunRecord>)
      ensures Valid() && fresh(attempts.Values)
      ensures var (set_, drawn) := Build(local, NO_PROVIDERS, 0);
              Abstract() == State(set_, drawn, 0, map[], map[], 0, loaded, false, None, None, DEFAULT_LIMITS,
                                  Probing(0, false, None, 0, None))
      ensures limits.interval == 15 * MINUTE && limits.maxConcurrency == 4 && limits.pushBatchRefs == 0
    {
      var set_, drawn := BuildProviderSet(local, NO_PROVIDERS, 0);
      providers, providerGen, providerEpoch := set_, drawn, 0;
      repos, attempts, attemptSeq, runs := map[], map[], 0, loaded;
      configAccepted, configVersion, configErr, limits := false, None, None, DEFAULT_LIMITS;
      probing := Probing(0, false, None, 0, None);
    }

    method ClaimTask(id: string, pinned: bool, admitted: bool) returns (r: ClaimResult)
      requires Valid()
      modifies this
      ensures Valid() && fresh(attempts.Values - old(attempts.Values))
      ensures (Abstract(), r) == ClientState.ClaimTask(old(Abstract()), id, pinned, admitted)
      ensures r.Granted? <==>
                && id in old(repos) && old(repos)[id].matched && old(repos)[id].replicaURL != "" && pinned
                && old(repos)[id].provider in old(providers).byName
                && old(providers).byName[old(repos)[id].provider].gen == old(repos)[id].bind.gen
                && id !in old(attempts) && admitted
      ensures r.Granted? ==>
                var (repo, e) := (old(repos)[id], old(providers).byName[old(repos)[id].provider].entry);
                && r.task.repoID == id && r.task.attemptSeq == old(attemptSeq) + 1
                && r.task.origin == e && r.task.bind == repo.bind
                && r.task.canonicalURL == repo.canonicalURL && r.task.replicaURL == repo.replicaURL
                && r.task.pushToken == repo.pushToken && r.task.tokenExpiresAt == repo.expiresAt
                && id in attempts && attempts == old(attempts)[id := attempts[id]]
                && attempts[id].serial == r.task.attemptSeq && attempts[id].bind == repo.bind && !attempts[id].superseded && !attempts[id].cancelled
      ensures !r.Granted? ==> attempts == old(attempts)
      ensures old(attemptSeq) <= attemptSeq <= old(attemptSeq) + 1
    {
      if id !in repos || !repos[id].matched || repos[id].replicaURL == "" {
        return Refused(NotSyncable);
      }
      var repo := repos[id];
      if !pinned {
        return Refused(NotPinned);
      }
      if repo.provider !in providers.byName || providers.byName[repo.provider].gen != repo.bind.gen {
        return Refused(OutOfStep);
      }
      var entry := providers.byName[repo.provider].entry;
      attemptSeq := attemptSeq + 1;
      assert Registry() == old(Registry());
      var task := SyncTask(id, repo.canonicalURL, entry, repo.replicaURL, repo.pushToken, repo.expiresAt, repo.bind, attemptSeq);
      if id in attempts {
        return Refused(AlreadyRunning);
      }
      if !admitted {
        return Refused(GateClosed);
      }
      var attempt := new RunningAttempt(attemptSeq, repo.bind);
      attempts := attempts[id := attempt];
      assert Registry() == old(Registry())[id := Attempt(attemptSeq, repo.bind, false, false)];
      return Granted(task);
    }

    /** Ends the attempt a finishing task claimed, unless a newer one is registered. */
    method EndAttempt(id: string, serial: nat) returns (superseded: bool, stale: bool)
      requires Valid()
      modifies this`attempts, attempts.Values
      ensures Valid() && attempts.Values <= old(attempts.Values)
      ensures stale <==> id in old(Registry()) && old(Registry())[id].serial != serial
      ensures superseded <==> id in old(Registry()) && old(Registry())[id].serial == serial && old(Registry())[id].superseded
      ensures stale ==> attempts == old(attempts) && unchanged(old(attempts.Values))
      ensures !stale ==> attempts == old(attempts) - {id} && (id in old(attempts) ==> old(attempts)[id].done)
      ensures Registry() == if stale then old(Registry()) else old(Registry()) - {id}
    {
      if id !in attempts {
        return false, false;
      }
      var attempt := attempts[id];
      if attempt.serial != serial {
        return false, true;
      }
      attempts := attempts - {id};
      attempt.done := true;
      return attempt.superseded, false;
    }

    /** The part of `finishSync` after the attempt has ended: the repository is idle again, and an
        outcome of its present target and binding is recorded. */
    method RecordOutcome(t: SyncTask, res: SyncResult, superseded: bool, now: Time) returns (kept: bool)
      requires t.repoID in repos && TargetMatches(repos[t.repoID], t)
      modifies this`repos, this`runs
      ensures kept == (!superseded && old(repos)[t.repoID].bind == t.bind && res.state != Pending)
      ensures var r := old(repos)[t.repoID];
              repos == old(repos)[t.repoID := if kept then Idle(r).(result := Recorded(r, res)) else Idle(r)]
      ensures var r := old(repos)[t.repoID];
              runs == if kept then old(runs)[t.repoID := RecordAttempt(if t.repoID in old(runs) then old(runs)[t.repoID] else NO_RECORD, r.target, Recorded(r, res), now)]
                      else old(runs)
    {
      var r := repos[t.repoID];
      if superseded || r.bind != t.bind {
        repos := repos[t.repoID := r.(syncing := false, attemptStartedAt := None)];
        return false;
      }
      r := r.(syncing := false, attemptStartedAt := None);
      kept := res.state != Pending;
      if kept {
        var recorded := res;
        if res.state == Succeeded && res.warningsUndecided && r.result.state == Succeeded {
          recorded := res.(warnings := r.result.warnings);
        }
        r := r.(result := recorded);
        var rec := if t.repoID in runs then runs[t.repoID] else NO_RECORD;
        runs := runs[t.repoID := RecordAttempt(rec, r.target, recorded, now)];
      }
      repos := repos[t.repoID := r];
    }

    method FinishSync(t: SyncTask, res: SyncResult, now: Time) returns (kept: bool)
      requires Valid()
      modifies this`attempts, this`repos, this`runs, attempts.Values
      ensures Valid() && attempts.Values <= old(attempts.Values)
      ensures kept == Keeps(old(Abstract()), t, res)
      ensures Abstract() == ClientState.FinishSync(old(Abstract()), t, res, now)
    {
      hide RecordAttempt, Recorded, Idle, Registry, Valid;
      ghost var was := Abstract();
      var superseded, stale := EndAttempt(t.repoID, t.attemptSeq);
      ghost var left := if Stale(was, t) then was.attempts else was.attempts - {t.repoID};
      assert superseded == Superseded(was, t);
      if stale || t.repoID !in repos || repos[t.repoID].originURL != t.canonicalURL || repos[t.repoID].replicaURL != t.replicaURL {
        assert Abstract() == was.(attempts := left);
        return false;
      }
      kept := RecordOutcome(t, res, superseded, now);
      assert Registry() == left;
      assert Abstract() == was.(attempts := left, repos := repos, runs := runs);
    }

    method StartAttempt(t: SyncTask, at: Time)
      requires Valid()
      modifies this`repos
      ensures Valid() && Abstract() == ClientState.StartAttempt(old(Abstract()), t, at)
    {
      if t.repoID in repos && TargetMatches(repos[t.repoID], t) && repos[t.repoID].bind == t.bind {
        repos := repos[t.repoID := repos[t.repoID].(attemptStartedAt := Some(at))];
      }
    }

    method SetSyncing(id: string, syncing: bool)
      requires Valid()
      modifies this`repos
      ensures Valid() && Abstract() == ClientState.SetSyncing(old(Abstract()), id, syncing)
    {
      if id in repos {
        var r := repos[id].(syncing := syncing);
        if !syncing {
          r := r.(attemptStartedAt := None);
        }
        repos := repos[id := r];
      }
    }

    // -------------------------------------------------------------- configuration

    method RejectConfig(m: ConfigMsg, reason: RejectReason)
      requires Valid()
      modifies this`configErr
      ensures Valid()
      ensures Abstract() == old(Abstract()).(configErr := Some(ConfigError(if m.versionOK then m.version else None, reason)))
    {
      configErr := Some(ConfigError(if m.versionOK then m.version else None, reason));
    }

    /** The repositories of a list, or why it is rejected. Nothing is installed by this. */
    static method BuildRepos(rs: seq<Inbound>) returns (next: map<string, RepoState>, bad: Option<RejectReason>)
      ensures bad == FreshRepos(rs).1
      ensures bad.None? ==> next == FreshRepos(rs).0
    {
      next, bad := map[], None;
      for i := 0 to |rs|
        invariant (next, None) == FreshRepos(rs[..i])
      {
        assert rs[..i + 1][..i] == rs[..i];
        var r := rs[i];
        if !r.idValid {
          RejectionSticks(rs, i + 1);
          return next, Some(InvalidRepoID);
        }
        if r.repoID in next {
          RejectionSticks(rs, i + 1);
          return next, Some(DuplicateRepoID);
        }
        next := next[r.repoID := FreshRepo(r)];
      }
      assert rs[..|rs|] == rs;
    }

    /** The first bad repository decides the reason, whatever follows it. */
    static lemma {:induction false} RejectionSticks(rs: seq<Inbound>, i: nat)
      requires i <= |rs| && FreshRepos(rs[..i]).1.Some?
      ensures FreshRepos(rs).1 == FreshRepos(rs[..i]).1
    {
      if i == |rs| {
        assert rs[..i] == rs;
      } else {
        assert rs[..|rs| - 1][..i] == rs[..i];
        RejectionSticks(rs[..|rs| - 1], i);
      }
    }

    /** Why a message is rejected whole, checked in the source's order, or the set it builds. */
    static method Check(m: ConfigMsg) returns (next: map<string, RepoState>, bad: Option<RejectReason>)
      ensures bad == Rejection(m)
      ensures bad.None? ==> next == FreshRepos(m.repositories.value).0
    {
      next := map[];
      if !m.pinSet {
        return next, Some(ReplicaHostNotPinned);
      }
      if m.repositories.None? {
        return next, Some(MalformedMessage);
      }
      var rs := m.repositories.value;
      if |rs| > MAX_CONFIG_REPOS {
        return next, Some(TooManyRepositories);
      }
      for i := 0 to |rs|
        invariant forall r <- rs[..i] :: !r.replica.ReplicaMismatch?
      {
        if rs[i].replica.ReplicaMismatch? {
          assert rs[i] in rs;
          return next, Some(ReplicaHostMismatch);
        }
      }
      assert rs[..|rs|] == rs;
      if !m.versionOK {
        return next, Some(InvalidConfigVersion);
      }
      if m.limits.None? {
        return next, Some(LimitsOutOfRange);
      }
      next, bad := BuildRepos(rs);
    }

    /** Puts a new set in force: every field of the state a configuration replaces. */
    method InstallConfig(m: ConfigMsg, next: map<string, RepoState>)
      requires Valid() && m.limits.Some?
      modifies this`repos, this`configVersion, this`configAccepted, this`configErr, this`limits, this`runs
      ensures Valid()
      ensures Abstract() == Configured(old(Abstract()), m, next)
    {
      hide Installed, Surviving, Registry, Valid;
      ghost var was := Abstract();
      var installed := InstallAll(next);
      ReplaceConfig(m, installed);
      ReconcileRuns(installed);
      assert Abstract() == Configured(was, m, next);
    }

    method ReplaceConfig(m: ConfigMsg, installed: map<string, RepoState>)
      requires m.limits.Some?
      modifies this`repos, this`configVersion, this`configAccepted, this`configErr, this`limits
      ensures repos == installed && configVersion == m.version && configAccepted && configErr == None && limits == m.limits.value
    {
      repos := installed;
      configVersion, configAccepted, configErr, limits := m.version, true, None, m.limits.value;
    }

    method ApplyConfig(m: ConfigMsg) returns (accepted: bool)
      requires Valid()
      modifies this`repos, this`configVersion, this`configAccepted, this`configErr, this`limits, this`runs
      ensures Valid()
      ensures accepted == Rejection(m).None?
      ensures Abstract() == ClientState.ApplyConfig(old(Abstract()), m)
    {
      hide FreshRepos, Rejection, Registry, Configured;
      var next, bad := Check(m);
      if bad.Some? {
        RejectConfig(m, bad.value);
        return false;
      }
      InstallConfig(m, next);
      return true;
    }

    /** Binds every new repository and carries over what an unchanged sync target keeps. */
    method InstallAll(next: map<string, RepoState>) returns (installed: map<string, RepoState>)
      requires Valid()
      ensures installed == Installed(Abstract(), next)
    {
      hide Registry, Install;
      ghost var s := Abstract();
      installed := next;
      var todo := next.Keys;
      while todo != {}
        invariant todo <= next.Keys == installed.Keys
        invariant forall id <- next :: installed[id] == if id in todo then next[id] else Install(s, next[id])
      {
        var id :| id in todo;
        var st := InstallOne(installed[id]);
        installed := installed[id := st];
        todo := todo - {id};
      }
    }

    method InstallOne(built: RepoState) returns (st: RepoState)
      requires Valid()
      ensures st == Install(Abstract(), built)
    {
      st := BindRepo(built, providers);
      assert st.repoID == built.repoID;
      if st.repoID in repos && SameSyncIdentity(repos[st.repoID], st) {
        var was := repos[st.repoID];
        if st.result.state == Unset {
          st := st.(result := was.result);
        }
        st := st.(syncing := was.syncing, attemptStartedAt := was.attemptStartedAt);
      }
    }

    /** Drops the records the new set makes meaningless. */
    method ReconcileRuns(next: map<string, RepoState>)
      modifies this`runs
      ensures old(Valid()) ==> Valid()
      ensures Registry() == old(Registry())
      ensures runs == Surviving(old(runs), next)
    {
      var todo := runs.Keys;
      while todo != {}
        invariant todo <= old(runs).Keys
        invariant runs == map id <- old(runs) | id in todo || RecordSurvives(id, old(runs)[id], next) :: old(runs)[id]
      {
        var id :| id in todo;
        var listed := id in next;
        if (|next| > 0 && !listed) || (listed && runs[id].target != Some(next[id].target)) {
          runs := runs - {id};
        }
        todo := todo - {id};
      }
    }

    // -------------------------------------------------------------- swapping the providers

    method RebindOne(id: string, set_: ProviderSet) returns (needed: bool)
      requires id in repos
      modifies this`repos
      ensures repos == old(repos)[id := BindRepo(old(repos)[id], set_)]
      ensures needed == NeedsSync(old(repos)[id], set_, id in attempts)
    {
      var r := repos[id];
      var nr := BindRepo(r, set_);
      repos := repos[id := nr];
      var queued := r.syncing && id !in attempts;
      needed := nr.matched && nr.bind != r.bind && !queued;
    }

    /** Rebinds every repository and picks the ones a new credential makes worth syncing now. */
    method RebindAll(set_: ProviderSet) returns (resync: set<string>)
      requires Valid()
      modifies this`repos
      ensures Valid() && Registry() == old(Registry())
      ensures repos == Rebound(old(repos), set_, {})
      ensures resync == Needing(old(repos), set_, old(Registry()).Keys, {})
    {
      hide BindRepo, NeedsSync, Rebound, Needing, Registry, Valid;
      resync := {};
      var todo := repos.Keys;
      ghost var running := attempts.Keys;
      RebindsNone(repos, set_, running);
      while todo != {}
        invariant todo <= old(repos).Keys == repos.Keys
        invariant repos == Rebound(old(repos), set_, todo) && forall id <- todo :: repos[id] == old(repos)[id]
        invariant resync == Needing(old(repos), set_, running, todo)
      {
        var id :| id in todo;
        RebindsNext(old(repos), set_, running, todo, id);
        var needed := RebindOne(id, set_);
        if needed {
          resync := resync + {id};
        }
        todo := todo - {id};
      }
    }

    /** Flags and cancels, in place, every attempt whose credential the set no longer holds. */
    method CancelSuperseded(set_: ProviderSet) returns (stopped: set<string>)
      requires Valid()
      modifies attempts.Values
      ensures Valid()
      ensures Registry() == Revoked(old(Registry()), set_) && stopped == Unsupported(old(Registry()), set_)
    {
      stopped := {};
      var todo := attempts.Keys;
      while todo != {}
        invariant todo <= attempts.Keys
        invariant forall id <- attempts :: attempts[id].Value() ==
                    if id in todo then old(attempts[id].Value()) else Revoke(old(attempts[id].Value()), set_)
        invariant forall id <- attempts :: !attempts[id].done
        invariant stopped == set id <- attempts | id !in todo && !set_.InForce(attempts[id].bind)
      {
        hide Registry, Revoked, Unsupported;
        var id :| id in todo;
        var attempt := attempts[id];
        if attempt.bind.provider !in set_.byName || set_.byName[attempt.bind.provider].gen != attempt.bind.gen {
          attempt.superseded := true;
          attempt.cancelled := true;
          stopped := stopped + {id};
        }
        todo := todo - {id};
      }
    }

    /** Forgets the origin check, which was made from the previous providers, and stops the probe. */
    method DropProbe()
      modifies this`probing
      ensures probing == WithoutCheck(old(probing))
    {
      if probing.probe.Some? {
        probing := probing.(probe := Some(probing.probe.value.(cancelled := true)));
      }
      probing := probing.(check := None, lastProbe := 0);
    }

    /** Puts a set that differs from the present one in force, field by field. */
    method ReplaceProviders(set_: ProviderSet) returns (resync: set<string>, stopped: set<string>)
      requires Valid()
      modifies this`providers, this`providerEpoch, this`repos, this`probing, attempts.Values
      ensures Valid()
      ensures providers == set_ && providerEpoch == old(providerEpoch) + 1 && probing == WithoutCheck(old(probing))
      ensures repos == Rebound(old(repos), set_, {})
      ensures Registry() == Revoked(old(Registry()), set_)
      ensures resync == Needing(old(repos), set_, old(Registry()).Keys, {})
      ensures stopped == Unsupported(old(Registry()), set_)
    {
      hide Rebound, Needing, Revoked, Unsupported, Registry, Valid, WithoutCheck;
      resync := RebindAll(set_);
      stopped := CancelSuperseded(set_);
      providers := set_;
      providerEpoch := providerEpoch + 1;
      DropProbe();
    }

    method SetProviders(listed: seq<Listed>) returns (resync: set<string>, stopped: set<string>)
      requires Valid()
      modifies this`providers, this`providerGen, this`providerEpoch, this`repos, this`probing, attempts.Values
      ensures Valid()
      ensures Abstract() == SwapProviders(old(Abstract()), listed)
      ensures resync == Resync(old(Abstract()), listed) && stopped == Stopped(old(Abstract()), listed)
    {
      hide Build, Rebound, Needing, Revoked, Unsupported, ProviderSet.Equal, WithoutCheck, Registry;
      ghost var was := Abstract();
      var set_, drawn := BuildProviderSet(listed, providers, providerGen);
      providerGen := drawn;
      if set_.Equal(providers) {
          return {}, {};
      }
      resync, stopped := ReplaceProviders(set_);
      assert Abstract() == Swapped(was, set_, drawn);
    }

    // -------------------------------------------------------------- the connection and the probe

    method OnConnected()
      requires Valid()
      modifies this`probing
      ensures Valid() && Abstract() == Connect(old(Abstract()))
    {
      probing := probing.(connGen := probing.connGen + 1, connOpen := true);
    }

    method OnDisconnected()
      requires Valid()
      modifies this`probing
      ensures Valid() && Abstract() == Disconnect(old(Abstract()))
    {
      probing := probing.(connOpen := false);
    }

    method MaybeProbe(now: Time) returns (started: bool)
      requires Valid()
      modifies this`probing
      ensures Valid() && started == ProbeDue(old(Abstract()), now) && Abstract() == BeginProbe(old(Abstract()), now)
    {
      if !probing.connOpen || |providers.byName| == 0 {
        return false;
      }
      var spacing := if configAccepted then ORIGIN_CHECK_INTERVAL else HEARTBEAT;
      if probing.probe.Some? {
        return false;
      }
      var since := now - probing.lastProbe;
      if since >= 0 && since < spacing - spacing / 10 {
        return false;
      }
      probing := probing.(lastProbe := now, probe := Some(Probe(probing.connGen, providerEpoch, now, false, Dialling)));
      return true;
    }

    method FinishProbe(result: Option<OriginResult>)
      requires Valid()
      modifies this`probing
      ensures Valid() && Abstract() == CommitProbe(old(Abstract()), result)
    {
      if probing.probe.Some? && probing.probe.value.phase.Dialling? {
        var p := probing.probe.value;
        var live := probing.connGen == p.connGen && probing.connOpen;
        var current := providerEpoch == p.epoch;
        if live && current {
          probing := probing.(check := if result.Some? then Some(OriginCheck(result.value, p.epoch)) else None);
        }
        probing := probing.(probe := Some(p.(phase := Ending(!live || !current))));
      }
    }

    method LeaveProbe()
      requires Valid()
      modifies this`probing
      ensures Valid() && Abstract() == EndProbe(old(Abstract()))
    {
      if probing.probe.Some? && probing.probe.value.phase.Ending? {
        var p := probing.probe.value;
        if p.phase.discarded && probing.lastProbe == p.start {
          probing := probing.(lastProbe := 0);
        }
        probing := probing.(probe := None);
      }
    }
  }
}
