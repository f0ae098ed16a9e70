/** What the connector's steps do to a repository, its record and the reported state, in the fields a
    status shows (internal/gitsync/client.go, config.go, providerswap.go, originprobe.go). */
module ClientEffects {
  import opened Basics
  import opened Option
  import opened Providers
  import opened ClientState
  import opened ClientRuns

  // ---------------------------------------------------------------- a finish

  /** The attempt that finishes has made way for a newer one. */
  predicate IsOutdated(s: State, t: SyncTask) { t.repoID in s.attempts && s.attempts[t.repoID].serial != t.attemptSeq }

  /** The repository still has the task's origin and replica. */
  predicate IsAbout(s: State, t: SyncTask) {
    t.repoID in s.repos && s.repos[t.repoID].originURL == t.canonicalURL && s.repos[t.repoID].replicaURL == t.replicaURL
  }

  /** Whether an outcome counts: of the present attempt, target and binding, not of a replaced credential,
      and not of a cancelled sync. */
  predicate Counts(s: State, t: SyncTask, res: SyncResult) {
    && !IsOutdated(s, t) && IsAbout(s, t) && s.repos[t.repoID].bind == t.bind && res.state != Pending
    && (t.repoID in s.attempts ==> !s.attempts[t.repoID].superseded)
  }

  /** A finish ends its own attempt and no other, clears the marks of the repository it is about, and
      leaves that repository's result unless its outcome counts. */
  lemma FinishChanges(ws: seq<World>, es: seq<Event>, i: nat)
    requires IsRun(ws, es) && i < |es| && es[i].Finish?
    ensures var (s, s', t, res) := (ws[i].s, ws[i + 1].s, es[i].task, es[i].res);
            && s'.attempts == (if IsOutdated(s, t) then s.attempts else s.attempts - {t.repoID})
            && s'.repos.Keys == s.repos.Keys
            && (forall id <- s.repos | id != t.repoID :: s'.repos[id] == s.repos[id])
            && (t.repoID in s.repos ==>
                  var (r, r') := (s.repos[t.repoID], s'.repos[t.repoID]);
                  var ended := !IsOutdated(s, t) && IsAbout(s, t);
                  && r' == r.(syncing := r'.syncing, attemptStartedAt := r'.attemptStartedAt, result := r'.result)
                  && r'.syncing == (!ended && r.syncing) && r'.attemptStartedAt == (if ended then None else r.attemptStartedAt)
                  && (!Counts(s, t, res) ==> r'.result == r.result))
  {
    assert ws[i + 1] == Step(ws[i], es[i]);
    hide IsRun, RecordAttempt, Recorded;
  }

  /** It changes one record, and only if its outcome counts. */
  lemma RecordsChange(ws: seq<World>, es: seq<Event>, i: nat)
    requires IsRun(ws, es) && i < |es| && es[i].Finish?
    ensures var (s, s', t, res) := (ws[i].s, ws[i + 1].s, es[i].task, es[i].res);
            && (Counts(s, t, res) ==> t.repoID in s'.runs && s'.runs == s.runs[t.repoID := s'.runs[t.repoID]])
            && (!Counts(s, t, res) ==> s'.runs == s.runs && ws[i + 1].kept == ws[i].kept)
  {
    assert ws[i + 1] == Step(ws[i], es[i]);
    hide IsRun, RecordAttempt, Recorded, Idle;
  }

  /** An outcome that counts is shown as it is, but a success that could not decide its warnings keeps
      those shown before if they are a success's. */
  lemma ResultShown(ws: seq<World>, es: seq<Event>, i: nat)
    requires IsRun(ws, es) && i < |es| && es[i].Finish? && Counts(ws[i].s, es[i].task, es[i].res)
    ensures es[i].task.repoID in ws[i + 1].s.repos
    ensures var (was, now, res) := (ws[i].s.repos[es[i].task.repoID].result, ws[i + 1].s.repos[es[i].task.repoID].result, es[i].res);
            && now.state == res.state && now.errorType == res.errorType && now.errorDetail == res.errorDetail
            && now.originCredentialRejected == res.originCredentialRejected && now.stats == res.stats
            && now.warnings == if res.state == Succeeded && res.warningsUndecided && was.state == Succeeded then was.warnings else res.warnings
  {
    hide RecordAttempt;
  }

  /** `at` to the second, rounded down. */
  predicate IsSecondOf(second: Option<Time>, at: Time) {
    second.Some? && second.value % SECOND == 0 && second.value <= at < second.value + SECOND
  }

  /** Milliseconds, rounded toward zero. */
  predicate IsMillisOf(ms: Option<int>, took: int) {
    ms.Some? && if took >= 0 then ms.value * 1_000_000 <= took < (ms.value + 1) * 1_000_000
                else (ms.value - 1) * 1_000_000 < took <= ms.value * 1_000_000
  }

  /** The record of an outcome that counts: its own start, duration and push count always, its end if it
      succeeded, and of the origin what it learnt; what it did not learn stays from before if that was of
      the same target. */
  lemma RecordShown(ws: seq<World>, es: seq<Event>, i: nat)
    requires IsRun(ws, es) && i < |es| && es[i].Finish? && Counts(ws[i].s, es[i].task, es[i].res)
    ensures var (id, stats, target) := (es[i].task.repoID, es[i].res.stats, ws[i].s.repos[es[i].task.repoID].target);
            var before := if id in ws[i].s.runs && ws[i].s.runs[id].target in {None, Some(target)} then ws[i].s.runs[id] else NO_RECORD;
            var began := if stats.startedAt.Some? then stats.startedAt.value else es[i].now - stats.duration;
            && id in ws[i + 1].s.runs
            && var rec := ws[i + 1].s.runs[id];
               && rec.target == Some(target)
               && IsSecondOf(rec.lastAttemptAt, began) && IsMillisOf(rec.durationMS, stats.duration)
               && rec.refsPushed == stats.refsPushed
               && (if es[i].res.state == Succeeded then IsSecondOf(rec.lastSuccessAt, began + stats.duration)
                   else rec.lastSuccessAt == before.lastSuccessAt)
               && (if stats.newestCommitAt.Some? then IsSecondOf(rec.newestOriginCommitAt, stats.newestCommitAt.value)
                   else rec.newestOriginCommitAt == before.newestOriginCommitAt)
               && rec.originDefaultBranch == (if stats.defaultBranch != "" then stats.defaultBranch else before.originDefaultBranch)
  {
    hide Inv, Legal;
    var stats := es[i].res.stats;
    var began := if stats.startedAt.Some? then stats.startedAt.value else es[i].now - stats.duration;
    InSeconds(began);
    InSeconds(began + stats.duration);
    if stats.newestCommitAt.Some? {
      InSeconds(stats.newestCommitAt.value);
    }
    hide Seconds;
  }

  lemma InSeconds(t: Time)
    ensures IsSecondOf(Some(Seconds(t)), t)
  {
    assert t == t / SECOND * SECOND + t % SECOND;
    assert (t / SECOND * SECOND) % SECOND == 0;
  }

  /** A claimed task notes its start only on the repository that still has its target and binding; a mark
      is set or cleared on the repository it names. Nothing else changes. */
  lemma MarksChange(ws: seq<World>, es: seq<Event>, i: nat)
    requires IsRun(ws, es) && i < |es| && (es[i].Start? || es[i].Mark?)
    ensures var (s, s', e) := (ws[i].s, ws[i + 1].s, es[i]);
            && s' == s.(repos := s'.repos) && s'.repos.Keys == s.repos.Keys
            && forall id <- s.repos ::
                 s'.repos[id] ==
                   if e.Start? && id == e.task.repoID && IsAbout(s, e.task) && s.repos[id].bind == e.task.bind then
                     s.repos[id].(attemptStartedAt := Some(e.at))
                   else if e.Mark? && id == e.id then
                     s.repos[id].(syncing := e.syncing, attemptStartedAt := if e.syncing then s.repos[id].attemptStartedAt else None)
                   else s.repos[id]
  {
  }

  /** What is shown of a bound repository whose replica cannot be used, and of one that was not synced. */
  function Faulty(): SyncResult {
    SyncResult(Failed, "unclassified", "invalid replica configuration", false, [], false, SyncStats(None, 0, None, None, ""))
  }

  function Nothing(): SyncResult { SyncResult(Unset, "", "", false, [], false, SyncStats(None, 0, None, None, "")) }

  // ---------------------------------------------------------------- a configuration

  ghost predicate AllOnce(rs: seq<Inbound>) {
    && (forall k | 0 <= k < |rs| :: rs[k].idValid)
    && (forall j, k | 0 <= j < k < |rs| :: rs[j].repoID != rs[k].repoID)
  }

  /** A list is built if and only if every id is valid and none occurs twice; what is built are the listed
      repositories. */
  lemma {:induction false} BuiltIff(rs: seq<Inbound>)
    ensures FreshRepos(rs).1.None? <==> AllOnce(rs)
    ensures AllOnce(rs) ==>
              && (forall id :: id in FreshRepos(rs).0 <==> exists r <- rs :: r.repoID == id)
              && forall r <- rs :: FreshRepos(rs).0[r.repoID] == FreshRepo(r)
  {
    hide FreshRepo, AllOnce;
    if rs == [] {
      NoneAtFault();
    } else {
      var front, last := rs[..|rs| - 1], rs[|rs| - 1];
      assert rs == front + [last];
      BuiltIff(front);
      OnceMore(front, last);
    }
  }

  lemma NoneAtFault()
    ensures AllOnce([])
  {
  }

  /** Otherwise the first repository at fault gives the reason. */
  lemma {:induction false} BadFor(rs: seq<Inbound>) returns (k: nat)
    requires !AllOnce(rs)
    ensures k < |rs| && AllOnce(rs[..k]) && !AllOnce(rs[..k + 1])
    ensures FreshRepos(rs).1 == Some(if rs[k].idValid then DuplicateRepoID else InvalidRepoID)
  {
    hide FreshRepo, AllOnce;
    if rs == [] {
      NoneAtFault();
    } else {
      var front, last := rs[..|rs| - 1], rs[|rs| - 1];
      assert rs == front + [last] == rs[..|front| + 1];
      BuiltIff(front);
      if AllOnce(front) {
        k := |front|;
        OnceMore(front, last);
      } else {
        k := BadFor(front);
        assert front[..k] == rs[..k] && front[..k + 1] == rs[..k + 1] && front[k] == rs[k];
      }
    }
  }

  lemma OnceMore(front: seq<Inbound>, last: Inbound)
    ensures AllOnce(front + [last]) <==> AllOnce(front) && last.idValid && !exists r <- front :: r.repoID == last.repoID
  {
    var rs := front + [last];
    assert rs[|front|] == last && forall k | 0 <= k < |front| :: rs[k] == front[k];
    if r :| r in front && r.repoID == last.repoID {
      var k :| 0 <= k < |front| && front[k] == r;
      assert rs[k].repoID == rs[|front|].repoID;
    }
  }

  /** A configuration is accepted if and only if the replica host is pinned, the message decodes and lists
      at most 4096 repositories, none on another replica host, with a usable version, limits in range, and
      valid ids that occur once. A rejected one changes nothing but the reported error. */
  lemma AcceptedIff(ws: seq<World>, es: seq<Event>, i: nat)
    requires IsRun(ws, es) && i < |es| && es[i].Configure?
    ensures var (m, s, s') := (es[i].msg, ws[i].s, ws[i + 1].s);
            var accepted :=
              && m.pinSet && m.repositories.Some? && |m.repositories.value| <= 4096
              && (forall r <- m.repositories.value :: !r.replica.ReplicaMismatch?)
              && m.versionOK && m.limits.Some? && AllOnce(m.repositories.value);
            if accepted then
              && s'.configAccepted && s'.configErr == None && s'.configVersion == m.version && s'.limits == m.limits.value
              && s' == s.(repos := s'.repos, runs := s'.runs, configAccepted := true, configErr := None,
                          configVersion := m.version, limits := m.limits.value)
            else
              && s' == s.(configErr := s'.configErr) && s'.configErr.Some?
              && s'.configErr.value.version == if m.versionOK then m.version else None
  {
    hide FreshRepos, Installed, Surviving;
    if es[i].msg.repositories.Some? {
      BuiltIff(es[i].msg.repositories.value);
    }
  }

  /** The reason is the first check that fails, in this order. */
  lemma RejectedFor(m: ConfigMsg)
    ensures Rejection(m) ==
              if !m.pinSet then Some(ReplicaHostNotPinned)
              else if m.repositories == None then Some(MalformedMessage)
              else if |m.repositories.value| > 4096 then Some(TooManyRepositories)
              else if exists k | 0 <= k < |m.repositories.value| :: m.repositories.value[k].replica == ReplicaMismatch then Some(ReplicaHostMismatch)
              else if !m.versionOK then Some(InvalidConfigVersion)
              else if m.limits == None then Some(LimitsOutOfRange)
              else FreshRepos(m.repositories.value).1
  {
    hide FreshRepos;
    if m.repositories.Some? {
      assert forall r :: r in m.repositories.value <==> exists k | 0 <= k < |m.repositories.value| :: m.repositories.value[k] == r;
    }
  }

  lemma ConfiguredAre(s: State, m: ConfigMsg, r: Inbound)
    requires Rejection(m).None? && r in m.repositories.value
    ensures var now := ApplyConfig(s, m).repos;
            && (forall id :: id in now <==> exists q <- m.repositories.value :: q.repoID == id)
            && r.repoID in now && now[r.repoID] == Install(s, FreshRepo(r))
  {
    hide FreshRepos, FreshRepo, Install, Surviving;
    BuiltIff(m.repositories.value);
  }

  /** What an accepted message makes of a repository it lists: the origin if it parses, the replica and the
      push token only if both are usable, and its marks and result from before only if binding, origin and
      replica are unchanged. */
  lemma RepositoryConfigured(ws: seq<World>, es: seq<Event>, i: nat, r: Inbound)
    requires IsRun(ws, es) && i < |es| && es[i].Configure? && Rejection(es[i].msg).None? && r in es[i].msg.repositories.value
    ensures var (was, now) := (ws[i].s.repos, ws[i + 1].s.repos);
            && (forall id :: id in now <==> exists q <- es[i].msg.repositories.value :: q.repoID == id)
            && r.repoID in now
            && var (n, usable) := (now[r.repoID], r.replica.ReplicaOK? && r.tokenValid);
               && n.repoID == r.repoID && n.expiresAt == r.expiresAt
               && n.originURL == (if r.origin.Some? then r.origin.value.0 else "")
               && n.originHostKey == (if r.origin.Some? then r.origin.value.1 else "")
               && n.target == Target(n.originURL, if r.replica.ReplicaOK? then r.replica.url else "")
               && n.replicaUsable == usable
               && n.replicaURL == (if usable then r.replica.url else "") && n.pushToken == (if usable then r.pushToken else "")
               && var same := r.repoID in was && was[r.repoID].bind == n.bind && was[r.repoID].canonicalURL == n.canonicalURL
                              && was[r.repoID].replicaURL == n.replicaURL;
                  && n.syncing == (same && was[r.repoID].syncing)
                  && n.attemptStartedAt == (if same then was[r.repoID].attemptStartedAt else None)
                  && n.result == if n.matched && !usable then Faulty() else if same then was[r.repoID].result else Nothing()
  {
    assert ws[i + 1].s == ApplyConfig(ws[i].s, es[i].msg);
    hide IsRun, ApplyConfig, BindRepo, Rejection;
    ConfiguredAre(ws[i].s, es[i].msg, r);
    BindingChanges(FreshRepo(r), ws[i].s.providers);
  }

  /** A record survives an accepted configuration if and only if its repository is listed with the target
      it was made against, or nothing is listed at all. */
  lemma RecordSurvivesIff(ws: seq<World>, es: seq<Event>, i: nat, id: string)
    requires IsRun(ws, es) && i < |es| && es[i].Configure? && Rejection(es[i].msg).None?
    ensures var (s, s') := (ws[i].s, ws[i + 1].s);
            && (id in s'.runs <==>
                  id in s.runs && (s'.repos == map[] || (id in s'.repos && s.runs[id].target == Some(s'.repos[id].target))))
            && (id in s'.runs ==> s'.runs[id] == s.runs[id])
  {
    hide Installed, FreshRepos;
  }

  // ---------------------------------------------------------------- a swap

  /** Binding derives four fields anew; the last result goes if the binding changed, and an unusable replica
      is reported of every bound repository. Nothing else changes. */
  lemma BindingChanges(r: RepoState, providers: ProviderSet)
    ensures var b := BindRepo(r, providers);
            && b == r.(bind := b.bind, provider := b.provider, canonicalURL := b.canonicalURL, matched := b.matched, result := b.result)
            && b.result == (if b.matched && !r.replicaUsable then Faulty() else if b.bind == r.bind then r.result else Nothing())
  {
  }

  lemma SwapBindsAnew(s: State, listed: seq<Listed>, id: string)
    requires id in s.repos
    ensures var (n, next) := (SwapProviders(s, listed), Build(listed, s.providers, s.providerGen).0);
            && n.repos.Keys == s.repos.Keys && n.runs == s.runs && n.attempts.Keys == s.attempts.Keys && n.attemptSeq == s.attemptSeq
            && n.repos[id] == if n.providerEpoch == s.providerEpoch then s.repos[id] else BindRepo(s.repos[id], next)
  {
    hide Build, ProviderSet.Equal, BindRepo, Revoke, WithoutCheck;
  }

  /** A swap that changes the set derives every repository's binding anew; one that does not leaves every
      repository alone. */
  lemma RepositoryRebound(ws: seq<World>, es: seq<Event>, i: nat, id: string)
    requires IsRun(ws, es) && i < |es| && es[i].Swap? && id in ws[i].s.repos
    ensures var (s, s') := (ws[i].s, ws[i + 1].s);
            && s'.repos.Keys == s.repos.Keys && s'.runs == s.runs && s'.attempts.Keys == s.attempts.Keys && s'.attemptSeq == s.attemptSeq
            && var (r, r') := (s.repos[id], s'.repos[id]);
               && r' == r.(bind := r'.bind, provider := r'.provider, canonicalURL := r'.canonicalURL, matched := r'.matched, result := r'.result)
               && (s'.providerEpoch == s.providerEpoch ==> r' == r)
               && (s'.providerEpoch != s.providerEpoch ==>
                     r'.result == if r'.matched && !r.replicaUsable then Faulty() else if r'.bind == r.bind then r.result else Nothing())
  {
    var s := ws[i].s;
    assert ws[i + 1].s == SwapProviders(s, es[i].listed);
    hide IsRun, Build, SwapProviders, BindRepo;
    SwapBindsAnew(s, es[i].listed, id);
    BindingChanges(s.repos[id], Build(es[i].listed, s.providers, s.providerGen).0);
  }

  /** It resyncs the repositories with a new provider or credential, unless they are queued. */
  lemma ResyncIff(ws: seq<World>, es: seq<Event>, i: nat, id: string)
    requires IsRun(ws, es) && i < |es| && es[i].Swap?
    ensures var (s, s') := (ws[i].s, ws[i + 1].s);
            id in Resync(s, es[i].listed) <==>
              && id in s.repos && id in s'.repos && s'.repos[id].matched && s'.repos[id].bind != s.repos[id].bind
              && (s.repos[id].syncing ==> id in s.attempts)
  {
    assert ws[i + 1].s == SwapProviders(ws[i].s, es[i].listed);
    hide IsRun, Build, ProviderSet.Equal, BindRepo, Revoke, WithoutCheck;
  }

  // ---------------------------------------------------------------- the origin probe

  /** The time that must have passed since the last probe: five minutes once a configuration was accepted,
      half a minute before; a tenth less will do. */
  function Spacing(s: State): int { if s.configAccepted then 270 * SECOND else 27 * SECOND }

  /** A probe begins if and only if the connection is open, there is something to probe, none is running, and
      the last began long enough ago or, by a clock that went back, in the future. */
  lemma ProbeBeginsIff(ws: seq<World>, es: seq<Event>, i: nat)
    requires IsRun(ws, es) && i < |es| && es[i].ProbeBegins?
    ensures var (s, s', now) := (ws[i].s, ws[i + 1].s, es[i].now);
            if s.probing.connOpen && s.providers.byName != map[] && s.probing.probe == None
               && (now < s.probing.lastProbe || now >= s.probing.lastProbe + Spacing(s))
            then s' == s.(probing := s.probing.(lastProbe := now, probe := Some(Probe(s.probing.connGen, s.providerEpoch, now, false, Dialling))))
            else s' == s
  {
  }

  /** What a probe found is reported if and only if the connection it began on is still there and the
      providers it used are still in force; else it changes nothing and, at its end, gives its turn back. */
  lemma ProbeReports(ws: seq<World>, es: seq<Event>, i: nat)
    requires IsRun(ws, es) && i < |es| && (es[i].ProbeCommits? || es[i].ProbeEnds?) && ws[i].s.probing.probe.Some?
    ensures var (s, s', p) := (ws[i].s, ws[i + 1].s, ws[i].s.probing.probe.value);
            var lasts := s.probing.connOpen && s.probing.connGen == p.connGen && s.providerEpoch == p.epoch;
            s' == s.(probing :=
              if es[i].ProbeCommits? && p.phase.Dialling? then
                s.probing.(probe := Some(p.(phase := Ending(!lasts))),
                           check := if !lasts then s.probing.check
                                    else if es[i].result == None then None
                                    else Some(OriginCheck(es[i].result.value, s.providerEpoch)))
              else if es[i].ProbeEnds? && p.phase.Ending? then
                s.probing.(probe := None, lastProbe := if p.phase.discarded && s.probing.lastProbe == p.start then 0 else s.probing.lastProbe)
              else s.probing)
  {
  }

  lemma StepOfConnection(s: State, e: Event)
    ensures Next(s, e).probing.connGen == s.probing.connGen + (if e.Connected? then 1 else 0)
    ensures Next(s, e).probing.connOpen == (if e.Connected? then true else !e.Disconnected? && s.probing.connOpen)
  {
    hide Build, Rebound, Revoked, ProviderSet.Equal, FinishSync, ApplyConfig;
    if e.Configure? {
      ConfigKeepsTurn(s, e.msg);
    }
    if e.Finish? {
      FinishKeepsTurn(s, e.task, e.res, e.now);
    }
  }

  /** The connection a probe began on is still there if and only if none was opened or closed since. */
  lemma {:induction false} LastsIff(ws: seq<World>, es: seq<Event>, i: nat, j: nat)
    requires IsRun(ws, es) && i <= j < |ws| && ws[i].s.probing.connOpen
    ensures ws[i].s.probing.connGen <= ws[j].s.probing.connGen
    ensures (ws[j].s.probing.connGen == ws[i].s.probing.connGen && ws[j].s.probing.connOpen)
              <==> forall k | i <= k < j :: !es[k].Connected? && !es[k].Disconnected?
    ensures ws[j].s.probing.connGen == ws[i].s.probing.connGen ==> forall k | i <= k < j :: !es[k].Connected?
    decreases j
  {
    hide Step, Next, Legal, Initial;
    if i < j {
      LastsIff(ws, es, i, j - 1);
      StepIsNext(ws[j - 1], es[j - 1]);
      StepOfConnection(ws[j - 1].s, es[j - 1]);
    }
  }

  /** A swap that changes the providers forgets the check made with the old ones, tells the probe using them
      to stop, and lets the next begin at once. */
  lemma SwapForgetsCheck(ws: seq<World>, es: seq<Event>, i: nat)
    requires IsRun(ws, es) && i < |es| && es[i].Swap?
    ensures var (p, p') := (ws[i].s.probing, ws[i + 1].s.probing);
            p' == if ws[i + 1].s.providerEpoch == ws[i].s.providerEpoch then p
                  else p.(check := None, lastProbe := 0, probe := if p.probe == None then None else Some(p.probe.value.(cancelled := true)))
  {
    assert ws[i + 1].s == SwapProviders(ws[i].s, es[i].listed);
    hide IsRun, Build, Rebound, Revoked, ProviderSet.Equal;
  }

  /** Something other than a new probe lets the next one begin early: a swap that changed the providers, or
      the end of a probe that was discarded. */
  predicate FreesTurn(s: State, s': State, e: Event) {
    s'.providerEpoch != s.providerEpoch || (e.ProbeEnds? && s.probing.probe.Some? && s.probing.probe.value.phase == Ending(true))
  }

  lemma TurnStays(w: World, e: Event)
    requires !FreesTurn(w.s, Step(w, e).s, e) && !(e.ProbeBegins? && ProbeDue(w.s, e.now))
    ensures Step(w, e).s.probing.lastProbe == w.s.probing.lastProbe
  {
    hide Build, Rebound, Revoked, ProviderSet.Equal, ApplyConfig, FinishSync;
    if e.Configure? {
      ConfigKeepsTurn(w.s, e.msg);
    }
    if e.Finish? {
      FinishKeepsTurn(w.s, e.task, e.res, e.now);
    }
  }

  lemma ConfigKeepsTurn(s: State, m: ConfigMsg)
    ensures ApplyConfig(s, m).probing == s.probing
  {
  }

  lemma FinishKeepsTurn(s: State, t: SyncTask, res: SyncResult, now: Time)
    ensures FinishSync(s, t, res, now).probing == s.probing
  {
  }

  lemma {:induction false} TurnStaysOver(ws: seq<World>, es: seq<Event>, i: nat, j: nat)
    requires IsRun(ws, es) && i < j <= |es| && es[i].ProbeBegins? && ProbeDue(ws[i].s, es[i].now)
    requires forall k | i < k < j :: !FreesTurn(ws[k].s, ws[k + 1].s, es[k]) && !(es[k].ProbeBegins? && ProbeDue(ws[k].s, es[k].now))
    ensures ws[j].s.probing.lastProbe == es[i].now
    decreases j
  {
    hide Step, Legal, Initial, ProbeDue;
    if i + 1 < j {
      TurnStaysOver(ws, es, i, j - 1);
      TurnStays(ws[j - 1], es[j - 1]);
    } else {
      Begins(ws[i], es[i]);
    }
  }

  lemma Begins(w: World, e: Event)
    requires e.ProbeBegins? && ProbeDue(w.s, e.now)
    ensures Step(w, e).s.probing.lastProbe == e.now
  {
  }

  /** Two probes that begin one after the other are spaced, unless the providers changed or the first was
      discarded in between, or the clock went back. */
  lemma ProbesAreSpaced(ws: seq<World>, es: seq<Event>, i: nat, j: nat)
    requires IsRun(ws, es) && i < j < |es|
    requires es[i].ProbeBegins? && ProbeDue(ws[i].s, es[i].now) && es[j].ProbeBegins? && ProbeDue(ws[j].s, es[j].now)
    requires forall k | i < k < j :: !FreesTurn(ws[k].s, ws[k + 1].s, es[k]) && !(es[k].ProbeBegins? && ProbeDue(ws[k].s, es[k].now))
    ensures es[j].now >= es[i].now + Spacing(ws[j].s) || es[j].now < es[i].now
  {
    hide IsRun;
    TurnStaysOver(ws, es, i, j);
  }
}
