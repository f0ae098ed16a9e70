/** The state the connector keeps under `Client.mu`, and what each critical section does to it
    (internal/gitsync/attempts.go, providerswap.go, client.go, config.go, originprobe.go).

    A section runs with the lock held from end to end, so each is one function from a state, and
    the outside inputs it reads, to the next state. Times are nanoseconds; a zero `time.Time` is
    `None`. URL checks, JSON decoding and the clock are inputs. */
module ClientState {
  import opened Basics
  import opened Option
  import opened Providers

  // ---------------------------------------------------------------- values

  datatype Outcome = Unset | Pending | Succeeded | Failed

  datatype SyncStats = SyncStats(startedAt: Option<Time>, duration: int, refsPushed: Option<int>,
                                 newestCommitAt: Option<Time>, defaultBranch: string)

  datatype SyncResult = SyncResult(state: Outcome, errorType: string, errorDetail: string,
                                   originCredentialRejected: bool, warnings: seq<string>,
                                   warningsUndecided: bool, stats: SyncStats)

  const NO_STATS := SyncStats(None, 0, None, None, "")
  const NO_RESULT := SyncResult(Unset, "", "", false, [], false, NO_STATS)
  const INVALID_REPLICA :=
    SyncResult(Failed, "unclassified", "invalid replica configuration", false, [], false, NO_STATS)

  /** What a run record was made against. The source stores a digest of the pair that keeps the two
      parts apart; the pair itself stands for it. */
  datatype Target = Target(origin: string, replica: string)

  datatype RunRecord = RunRecord(target: Option<Target>, lastAttemptAt: Option<Time>, lastSuccessAt: Option<Time>,
                                 durationMS: Option<int>, refsPushed: Option<int>,
                                 newestOriginCommitAt: Option<Time>, originDefaultBranch: string)

  const NO_RECORD := RunRecord(None, None, None, None, None, None, "")

  datatype RepoState = RepoState(repoID: string, expiresAt: string, originURL: string, originHostKey: string,
                                 target: Target, replicaUsable: bool, replicaURL: string, pushToken: string,
                                 bind: Binding, provider: string, canonicalURL: string, matched: bool,
                                 result: SyncResult, syncing: bool, attemptStartedAt: Option<Time>)

  datatype SyncTask = SyncTask(repoID: string, canonicalURL: string, origin: LocalEntry, replicaURL: string,
                               pushToken: string, tokenExpiresAt: string, bind: Binding, attemptSeq: nat)

  /** A running attempt. `cancelled` says its context was ended because its credential went. */
  datatype Attempt = Attempt(serial: nat, bind: Binding, superseded: bool, cancelled: bool)

  datatype Limits = Limits(interval: int, maxConcurrency: int, pushBatchRefs: int)

  const DEFAULT_LIMITS := Limits(15 * MINUTE, 4, 0)

  datatype ConfigError = ConfigError(version: Option<string>, reason: RejectReason)
  datatype RejectReason = ReplicaHostNotPinned | MalformedMessage | TooManyRepositories | ReplicaHostMismatch
                        | InvalidConfigVersion | LimitsOutOfRange | InvalidRepoID | DuplicateRepoID

  datatype OriginResult = Reachable | Unreachable | AccessDenied

  /** The cached origin check. `epoch` is history: the provider epoch of the set that was probed. */
  datatype OriginCheck = OriginCheck(result: OriginResult, epoch: nat)

  /** The probe goroutine: what it captured when it began, and where it is. */
  datatype Probe = Probe(connGen: nat, epoch: nat, start: Time, cancelled: bool, phase: ProbePhase)
  datatype ProbePhase = Dialling | Ending(discarded: bool)

  datatype Probing = Probing(connGen: nat, connOpen: bool, check: Option<OriginCheck>, lastProbe: Time,
                             probe: Option<Probe>)

  datatype State = State(providers: ProviderSet, providerGen: nat, providerEpoch: nat,
                         repos: map<string, RepoState>,
                         attempts: map<string, Attempt>, attemptSeq: nat,
                         runs: map<string, RunRecord>,
                         configAccepted: bool, configVersion: Option<string>, configErr: Option<ConfigError>,
                         limits: Limits, probing: Probing)

  // ---------------------------------------------------------------- claiming and ending attempts

  datatype Refusal = NotSyncable | NotPinned | OutOfStep | AlreadyRunning | GateClosed

  datatype ClaimResult = Refused(why: Refusal) | Granted(task: SyncTask)

  predicate Syncable(s: State, id: string) {
    id in s.repos && s.repos[id].matched && s.repos[id].replicaURL != ""
  }

  function TaskFor(r: RepoState, id: string, e: LocalEntry, serial: nat): SyncTask {
    SyncTask(id, r.canonicalURL, e, r.replicaURL, r.pushToken, r.expiresAt, r.bind, serial)
  }

  /** `pinned` is the second check of the replica URL against the pin, `admitted` the provider gate's
      answer. The sequence number is drawn before the last two refusals. */
  function ClaimTask(s: State, id: string, pinned: bool, admitted: bool): (State, ClaimResult) {
    if !Syncable(s, id) then (s, Refused(NotSyncable))
    else if !pinned then (s, Refused(NotPinned))
    else
      var r := s.repos[id];
      if r.provider !in s.providers.byName || s.providers.byName[r.provider].gen != r.bind.gen then (s, Refused(OutOfStep))
      else
        var serial := s.attemptSeq + 1;
        var drawn := s.(attemptSeq := serial);
        if id in s.attempts then (drawn, Refused(AlreadyRunning))
        else if !admitted then (drawn, Refused(GateClosed))
        else (drawn.(attempts := s.attempts[id := Attempt(serial, r.bind, false, false)]),
              Granted(TaskFor(r, id, s.providers.byName[r.provider].entry, serial)))
  }

  predicate TargetMatches(r: RepoState, t: SyncTask) {
    r.originURL == t.canonicalURL && r.replicaURL == t.replicaURL
  }

  function Idle(r: RepoState): RepoState {
    r.(syncing := false, attemptStartedAt := None)
  }

  /** Whether the registered attempt is a newer one than the finishing task's. */
  predicate Stale(s: State, t: SyncTask) {
    t.repoID in s.attempts && s.attempts[t.repoID].serial != t.attemptSeq
  }

  predicate Superseded(s: State, t: SyncTask) {
    t.repoID in s.attempts && s.attempts[t.repoID].serial == t.attemptSeq && s.attempts[t.repoID].superseded
  }

  /** Whether `finishSync` keeps the outcome `res` of `t`. */
  predicate Keeps(s: State, t: SyncTask, res: SyncResult) {
    && !Stale(s, t)
    && t.repoID in s.repos
    && TargetMatches(s.repos[t.repoID], t)
    && !Superseded(s, t)
    && s.repos[t.repoID].bind == t.bind
    && res.state != Pending
  }

  /** A success that could not decide its warnings keeps those of the success before it. */
  function Recorded(r: RepoState, res: SyncResult): SyncResult {
    if res.state == Succeeded && res.warningsUndecided && r.result.state == Succeeded
    then res.(warnings := r.result.warnings) else res
  }

  function FinishSync(s: State, t: SyncTask, res: SyncResult, now: Time): State {
    if Stale(s, t) then s
    else
      var ended := s.(attempts := s.attempts - {t.repoID});
      if t.repoID !in s.repos || !TargetMatches(s.repos[t.repoID], t) then ended
      else
        var r := s.repos[t.repoID];
        if !Keeps(s, t, res) then ended.(repos := s.repos[t.repoID := Idle(r)])
        else
          var rec := if t.repoID in s.runs then s.runs[t.repoID] else NO_RECORD;
          ended.(repos := s.repos[t.repoID := Idle(r).(result := Recorded(r, res))],
                 runs := s.runs[t.repoID := RecordAttempt(rec, r.target, Recorded(r, res), now)])
  }

  function StartAttempt(s: State, t: SyncTask, at: Time): State {
    if t.repoID in s.repos && TargetMatches(s.repos[t.repoID], t) && s.repos[t.repoID].bind == t.bind
    then s.(repos := s.repos[t.repoID := s.repos[t.repoID].(attemptStartedAt := Some(at))]) else s
  }

  function SetSyncing(s: State, id: string, syncing: bool): State {
    if id !in s.repos then s
    else
      var r := s.repos[id];
      s.(repos := s.repos[id := if syncing then r.(syncing := true) else Idle(r)])
  }

  // ---------------------------------------------------------------- run records

  /** UTC at second precision: truncated, as the status reports it. */
  function Seconds(t: Time): Time { t - t % SECOND }

  /** Go's integer division, which truncates toward zero. */
  function Milliseconds(d: int): int { if d >= 0 then d / 1_000_000 else -(-d / 1_000_000) }

  function RecordAttempt(rec: RunRecord, target: Target, res: SyncResult, now: Time): RunRecord {
    var prior := if rec.target.Some? && rec.target != Some(target) then NO_RECORD else rec;
    var took := res.stats.duration;
    var started := if res.stats.startedAt.Some? then res.stats.startedAt.value else now - took;
    RunRecord(Some(target),
              Some(Seconds(started)),
              if res.state == Succeeded then Some(Seconds(started + took)) else prior.lastSuccessAt,
              Some(Milliseconds(took)),
              res.stats.refsPushed,
              if res.stats.newestCommitAt.Some? then Some(Seconds(res.stats.newestCommitAt.value)) else prior.newestOriginCommitAt,
              if res.stats.defaultBranch != "" then res.stats.defaultBranch else prior.originDefaultBranch)
  }

  // ---------------------------------------------------------------- binding and configuration

  /** `r` bound against a provider set. A changed binding forgets the last result; a bound repository
      whose replica is unusable always carries that as its result. */
  function BindRepo(r: RepoState, providers: ProviderSet): RepoState {
    var bound := match providers.Match(r.originHostKey)
      case Some(name) => r.(bind := Binding(name, providers.GenOf(name)), provider := name,
                            canonicalURL := r.originURL, matched := true)
      case None => r.(bind := UNBOUND, provider := "", canonicalURL := "", matched := false);
    var reset := if bound.bind != r.bind then bound.(result := NO_RESULT) else bound;
    if reset.matched && !reset.replicaUsable then reset.(result := INVALID_REPLICA) else reset
  }

  predicate SameSyncIdentity(a: RepoState, b: RepoState) {
    a.bind == b.bind && a.canonicalURL == b.canonicalURL && a.replicaURL == b.replicaURL
  }

  /** One repository of a decoded message: the checks on its id, origin URL, replica URL and push
      token come with their verdicts. */
  datatype ReplicaCheck = ReplicaOK(url: string) | ReplicaInvalid | ReplicaMismatch
  datatype Inbound = Inbound(repoID: string, idValid: bool, origin: Option<(string, string)>,
                             replica: ReplicaCheck, pushToken: string, tokenValid: bool, expiresAt: string)

  /** A `git_sync_config` as it reaches `applyConfig`. `version` is what a rejection echoes. */
  datatype ConfigMsg = ConfigMsg(pinSet: bool, version: Option<string>, versionOK: bool,
                                 repositories: Option<seq<Inbound>>, limits: Option<Limits>)

  const MAX_CONFIG_REPOS := 4096

  /** A replica URL that passed the check is not empty, and an origin that parsed has a host key. */
  ghost predicate WellFormed(m: ConfigMsg) {
    m.repositories.Some? ==>
      forall r <- m.repositories.value ::
        (r.replica.ReplicaOK? ==> r.replica.url != "") && (r.origin.Some? ==> r.origin.value.1 != "")
  }

  function FreshRepo(r: Inbound): RepoState {
    var url := if r.replica.ReplicaOK? then r.replica.url else "";
    var (originURL, hostKey) := if r.origin.Some? then r.origin.value else ("", "");
    var usable := r.replica.ReplicaOK? && r.tokenValid;
    RepoState(r.repoID, r.expiresAt, originURL, hostKey, Target(originURL, url), usable,
              if usable then url else "", if usable then r.pushToken else "",
              UNBOUND, "", "", false, NO_RESULT, false, None)
  }

  /** The repositories a list builds, or the reason the first bad one rejects it all. */
  function FreshRepos(rs: seq<Inbound>): (r: (map<string, RepoState>, Option<RejectReason>)) {
    if rs == [] then (map[], None)
    else
      var (before, bad) := FreshRepos(rs[..|rs| - 1]);
      var last := rs[|rs| - 1];
      if bad.Some? then (before, bad)
      else if !last.idValid then (before, Some(InvalidRepoID))
      else if last.repoID in before then (before, Some(DuplicateRepoID))
      else (before[last.repoID := FreshRepo(last)], None)
  }

  /** Why a message is rejected as a whole, or `None` when it is acceptable. */
  function Rejection(m: ConfigMsg): (r: Option<RejectReason>)
    ensures r.None? ==> m.repositories.Some? && m.limits.Some?
  {
    if !m.pinSet then Some(ReplicaHostNotPinned)
    else if m.repositories.None? then Some(MalformedMessage)
    else
      var rs := m.repositories.value;
      if |rs| > MAX_CONFIG_REPOS then Some(TooManyRepositories)
      else if exists r <- rs :: r.replica.ReplicaMismatch? then Some(ReplicaHostMismatch)
      else if !m.versionOK then Some(InvalidConfigVersion)
      else if m.limits.None? then Some(LimitsOutOfRange)
      else FreshRepos(rs).1
  }

  /** A new repository bound, with the result and marks it inherits from an unchanged sync target. */
  function Install(s: State, built: RepoState): RepoState {
    var st := BindRepo(built, s.providers);
    if built.repoID in s.repos && SameSyncIdentity(s.repos[built.repoID], st) then
      var was := s.repos[built.repoID];
      st.(result := if st.result.state == Unset then was.result else st.result,
          syncing := was.syncing, attemptStartedAt := was.attemptStartedAt)
    else st
  }

  /** Whether a record survives the configuration: not one of another target, and not of a repository
      that a non-empty configuration leaves out. */
  predicate RecordSurvives(id: string, rec: RunRecord, next: map<string, RepoState>) {
    if id in next then rec.target == Some(next[id].target) else |next| == 0
  }

  function Installed(s: State, built: map<string, RepoState>): map<string, RepoState> {
    map id <- built :: Install(s, built[id])
  }

  function Surviving(runs: map<string, RunRecord>, next: map<string, RepoState>): map<string, RunRecord> {
    map id <- runs | RecordSurvives(id, runs[id], next) :: runs[id]
  }

  /** The state once an acceptable message, which built `built`, is installed. */
  function Configured(s: State, m: ConfigMsg, built: map<string, RepoState>): State
    requires m.limits.Some?
  {
    var next := Installed(s, built);
    s.(repos := next, configVersion := m.version, configAccepted := true, configErr := None,
       limits := m.limits.value,
       runs := Surviving(s.runs, next))
  }

  function ApplyConfig(s: State, m: ConfigMsg): State {
    match Rejection(m)
    case Some(reason) =>
      s.(configErr := Some(ConfigError(if m.versionOK then m.version else None, reason)))
    case None => Configured(s, m, FreshRepos(m.repositories.value).0)
  }

  // ---------------------------------------------------------------- swapping the providers

  /** Whether a swap cancels the attempt: its provider is gone or has another generation. */
  function Revoke(a: Attempt, providers: ProviderSet): Attempt {
    if providers.InForce(a.bind) then a else a.(superseded := true, cancelled := true)
  }

  /** Whether a swap makes a repository worth syncing now: newly bound, or bound to another
      credential, unless it is queued (marked, with nothing claimed) and will claim that anyway. */
  predicate NeedsSync(r: RepoState, next: ProviderSet, running: bool) {
    var nr := BindRepo(r, next);
    nr.matched && nr.bind != r.bind && !(r.syncing && !running)
  }

  /** The repositories bound to the set `next`, those in `todo` not yet. */
  function Rebound(repos: map<string, RepoState>, next: ProviderSet, todo: set<string>): map<string, RepoState> {
    map id <- repos :: if id in todo then repos[id] else BindRepo(repos[id], next)
  }

  /** Those of the repositories, except the ones in `todo`, that the set makes worth syncing. */
  function Needing(repos: map<string, RepoState>, next: ProviderSet, running: set<string>, todo: set<string>): set<string> {
    set id <- repos | id !in todo && NeedsSync(repos[id], next, id in running)
  }

  function Revoked(attempts: map<string, Attempt>, next: ProviderSet): map<string, Attempt> {
    map id <- attempts :: Revoke(attempts[id], next)
  }

  function Unsupported(attempts: map<string, Attempt>, next: ProviderSet): set<string> {
    set id <- attempts | !next.InForce(attempts[id].bind)
  }

  lemma RebindsNext(repos: map<string, RepoState>, next: ProviderSet, running: set<string>, todo: set<string>, id: string)
    requires id in todo && todo <= repos.Keys
    ensures Rebound(repos, next, todo - {id}) == Rebound(repos, next, todo)[id := BindRepo(repos[id], next)]
    ensures Needing(repos, next, running, todo - {id})
              == Needing(repos, next, running, todo) + if NeedsSync(repos[id], next, id in running) then {id} else {}
  {
    hide BindRepo, NeedsSync;
  }

  lemma RebindsNone(repos: map<string, RepoState>, next: ProviderSet, running: set<string>)
    ensures Rebound(repos, next, repos.Keys) == repos && Needing(repos, next, running, repos.Keys) == {}
  {
    hide BindRepo, NeedsSync;
  }

  function SwapProviders(s: State, listed: seq<Listed>): State {
    var built := Build(listed, s.providers, s.providerGen);
    Swapped(s, built.0, built.1)
  }

  /** The state once the set `next` is in force, or unchanged when it is the one already. */
  function Swapped(s: State, next: ProviderSet, drawn: nat): State {
    if next.Equal(s.providers) then s.(providerGen := drawn)
    else
      s.(providers := next, providerGen := drawn, providerEpoch := s.providerEpoch + 1,
         repos := Rebound(s.repos, next, {}), attempts := Revoked(s.attempts, next),
         probing := WithoutCheck(s.probing))
  }

  /** Probing once the providers changed: no cached check, and the probe running told to stop. */
  function WithoutCheck(p: Probing): Probing {
    p.(check := None, lastProbe := 0, probe := if p.probe.Some? then Some(p.probe.value.(cancelled := true)) else None)
  }

  /** The repositories a swap starts a sync of, and the ones whose attempt it cancels. */
  function Resync(s: State, listed: seq<Listed>): set<string> {
    var next := Build(listed, s.providers, s.providerGen).0;
    if next.Equal(s.providers) then {}
    else Needing(s.repos, next, s.attempts.Keys, {})
  }

  function Stopped(s: State, listed: seq<Listed>): set<string> {
    var next := Build(listed, s.providers, s.providerGen).0;
    if next.Equal(s.providers) then {} else Unsupported(s.attempts, next)
  }

  // ---------------------------------------------------------------- the origin probe

  const HEARTBEAT: int := 30 * SECOND
  const ORIGIN_CHECK_INTERVAL: int := 5 * MINUTE

  /** Whether a probe may begin: connected, something to probe, none running, and a tenth short of
      the spacing gone by. A clock that stepped back counts as elapsed. */
  predicate ProbeDue(s: State, now: Time) {
    var spacing := if s.configAccepted then ORIGIN_CHECK_INTERVAL else HEARTBEAT;
    var since := now - s.probing.lastProbe;
    && s.probing.connOpen && |s.providers.byName| != 0 && s.probing.probe.None?
    && !(0 <= since < spacing - spacing / 10)
  }

  function BeginProbe(s: State, now: Time): State {
    if !ProbeDue(s, now) then s
    else
      s.(probing := s.probing.(lastProbe := now,
                               probe := Some(Probe(s.probing.connGen, s.providerEpoch, now, false, Dialling))))
  }

  predicate ProbeLive(s: State, p: Probe) { s.probing.connGen == p.connGen && s.probing.connOpen }

  /** The commit of a finished probe: `result` is what it found, `None` when nothing could be run. */
  function CommitProbe(s: State, result: Option<OriginResult>): State {
    match s.probing.probe
    case None => s
    case Some(p) =>
      if p.phase.Ending? then s
      else
        var live, current := ProbeLive(s, p), s.providerEpoch == p.epoch;
        var check := if live && current
                     then (if result.Some? then Some(OriginCheck(result.value, p.epoch)) else None)
                     else s.probing.check;
        s.(probing := s.probing.(check := check, probe := Some(p.(phase := Ending(!live || !current)))))
  }

  /** The goroutine's end: a discarded probe gives its cadence slot back. */
  function EndProbe(s: State): State {
    match s.probing.probe
    case Some(Probe(_, _, start, _, Ending(discarded))) =>
      s.(probing := s.probing.(probe := None,
                               lastProbe := if discarded && s.probing.lastProbe == start then 0 else s.probing.lastProbe))
    case _ => s
  }

  function Connect(s: State): State {
    s.(probing := s.probing.(connGen := s.probing.connGen + 1, connOpen := true))
  }

  function Disconnect(s: State): State { s.(probing := s.probing.(connOpen := false)) }
}
