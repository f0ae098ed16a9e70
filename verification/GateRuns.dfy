/** Every interleaving of what uses the gates: how passes and probes are kept in check
    (internal/gitsync/providergate.go with scheduler.go).

    A poll holds the scheduler's lock and reads the clock once. Looking at a gate, beginning its probe
    and learning whether it started are steps of their own: rejections, successes and reconfigurations
    wait for the lock, but claims, manual requests and dropped passes come in between. */
module GateRuns {
  import opened Basics
  import opened Option
  import opened Providers
  import opened ProviderGates

  datatype Event =
    | Reject(b: Binding, at: Time, tier: int)
    | Succeed(b: Binding, startedAt: Time)
    | PollBegins(at: Time)
    | Look(b: Binding)         // finds the gate half open at the poll's time
    | Begin(b: Binding, repo: string, at: Time, window: int)
    | Started
    | NotStarted
    | PollEnds
    | Manual(b: Binding, repo: string, at: Time)
    | Claim(b: Binding, repo: string, at: Time, window: int)
    | Drop(repo: string)
    | Retain(inUse: set<Binding>, repos: set<string>)

  /** `poll` is the time of the poll under way, `looked` the gate it last found half open, and `mid` the
      probe begun and not yet known to have started. */
  datatype State = State(g: Gates, mid: Undo, poll: Option<Time>, looked: Option<Binding>)

  const START := State(NO_GATES, Nothing, None, None)

  /** These take the scheduler's lock. */
  predicate Waits(e: Event) { e.Reject? || e.Succeed? || e.Retain? || e.PollBegins? }

  predicate Legal(s: State, e: Event) {
    && (Waits(e) ==> s.poll.None?)
    && (e.Look? ==> s.poll.Some? && s.mid.Nothing? && s.g.StateOf(e.b, s.poll.value) == HalfOpen)
    && (e.Begin? ==> s.poll == Some(e.at) && s.mid.Nothing? && s.looked == Some(e.b))
    && (e.Started? || e.NotStarted? ==> s.mid.TakeBack?)
    && (e.PollEnds? ==> s.poll.Some? && s.mid.Nothing?)
  }

  function Next(s: State, e: Event): State {
    match e
    case Reject(b, at, tier) => s.(g := Armed(s.g, b, at, tier))
    case Succeed(b, startedAt) => s.(g := AfterSuccess(s.g, b, startedAt))
    case PollBegins(at) => s.(poll := Some(at), looked := None)
    case Look(b) => s.(looked := Some(b))
    case Begin(b, repo, at, window) => var p := BeginProbe(s.g, b, repo, at, window); s.(g := p.0, mid := p.1, looked := None)
    case Started => s.(mid := Nothing)
    case NotStarted => s.(g := TakenBack(s.g, s.mid), mid := Nothing)
    case PollEnds => s.(poll := None, looked := None)
    case Manual(b, repo, at) => s.(g := AfterManual(s.g, b, repo, at))
    case Claim(b, repo, at, window) => s.(g := AfterClaim(s.g, b, repo, at, window))
    case Drop(repo) => s.(g := Dropped(s.g, repo))
    case Retain(inUse, repos) => s.(g := Retained(s.g, inUse, repos))
  }

  ghost predicate IsGateRun(ss: seq<State>, es: seq<Event>) {
    && |ss| == |es| + 1 && ss[0] == START
    && forall i {:trigger es[i]} | 0 <= i < |es| :: Legal(ss[i], es[i]) && ss[i + 1] == Next(ss[i], es[i])
  }

  /** The hypothesis that a poll is one step: nothing comes between beginning a probe and knowing
      whether it started. */
  ghost predicate PollIsOneStep(ss: seq<State>, es: seq<Event>)
    requires |ss| == |es| + 1
  {
    forall i | 0 <= i < |es| && ss[i].mid.TakeBack? :: es[i].Started? || es[i].NotStarted?
  }

  // ---------------------------------------------------------------- passes name gates

  /** What a poll looked at or began belongs to a poll under way, and its gate is still there. */
  predicate InPoll(s: State) {
    && (s.looked.Some? ==> s.poll.Some? && s.looked.value in s.g.gates)
    && (s.mid.TakeBack? ==> s.poll.Some? && s.mid.b in s.g.gates)
  }

  predicate PassesNameGates(s: State) {
    && (forall r <- s.g.passes :: s.g.passes[r] in s.g.gates)
    && (s.mid.TakeBack? && s.mid.had.Some? ==> s.mid.had.value in s.g.gates)
  }

  lemma StepKeepsInPoll(s: State, e: Event)
    requires InPoll(s) && Legal(s, e)
    ensures InPoll(Next(s, e))
  {
  }

  lemma StepKeepsPassesNamed(s: State, e: Event)
    requires InPoll(s) && PassesNameGates(s) && Legal(s, e)
    ensures PassesNameGates(Next(s, e))
  {
  }

  lemma {:induction false} AlwaysInPoll(ss: seq<State>, es: seq<Event>, i: nat)
    requires IsGateRun(ss, es) && i < |ss|
    ensures InPoll(ss[i])
  {
    if i > 0 {
      hide InPoll, Legal, Next;
      AlwaysInPoll(ss, es, i - 1);
      StepKeepsInPoll(ss[i - 1], es[i - 1]);
    } else {
      hide IsGateRun;
    }
  }

  /** In every reachable state, whatever interleaves, every outstanding pass names an existing gate. */
  lemma {:induction false} PassesAlwaysNameGates(ss: seq<State>, es: seq<Event>, i: nat)
    requires IsGateRun(ss, es) && i < |ss|
    ensures PassesNameGates(ss[i])
  {
    if i > 0 {
      hide InPoll, PassesNameGates, Legal, Next;
      PassesAlwaysNameGates(ss, es, i - 1);
      AlwaysInPoll(ss, es, i - 1);
      StepKeepsPassesNamed(ss[i - 1], es[i - 1]);
    } else {
      hide IsGateRun;
    }
  }

  // ---------------------------------------------------------------- no more claims than grants

  function One(p: bool): nat { if p then 1 else 0 }

  /** The event grants `repo` a pass through the gate of `b`. */
  predicate Grants(s: State, e: Event, repo: string, b: Binding) {
    || (e.Begin? && e.repo == repo && e.b == b && b in s.g.gates)
    || (e.Manual? && e.repo == repo && e.b == b && b in s.g.gates && AdmitsManual(s.g, b, repo, e.at))
  }

  /** The event is a claim that the gate of `b` lets through. */
  predicate ClaimsThrough(s: State, e: Event, repo: string, b: Binding) {
    e.Claim? && e.repo == repo && e.b == b && b in s.g.gates && MayClaim(s.g, b, repo)
  }

  predicate TakesBack(s: State, e: Event, repo: string, b: Binding) {
    e.NotStarted? && s.mid.TakeBack? && s.mid.repo == repo && s.mid.b == b
  }

  function GrantsTo(ss: seq<State>, es: seq<Event>, n: nat, repo: string, b: Binding): nat
    requires n <= |es| < |ss|
  {
    if n == 0 then 0 else GrantsTo(ss, es, n - 1, repo, b) + One(Grants(ss[n - 1], es[n - 1], repo, b))
  }

  function ClaimsOf(ss: seq<State>, es: seq<Event>, n: nat, repo: string, b: Binding): nat
    requires n <= |es| < |ss|
  {
    if n == 0 then 0 else ClaimsOf(ss, es, n - 1, repo, b) + One(ClaimsThrough(ss[n - 1], es[n - 1], repo, b))
  }

  function TakenBackFrom(ss: seq<State>, es: seq<Event>, n: nat, repo: string, b: Binding): nat
    requires n <= |es| < |ss|
  {
    if n == 0 then 0 else TakenBackFrom(ss, es, n - 1, repo, b) + One(TakesBack(ss[n - 1], es[n - 1], repo, b))
  }

  /** The passes of `repo` through the gate of `b` that a claim could still use: the one it holds, and
      the one a probe being begun would give back. */
  function Usable(s: State, repo: string, b: Binding): nat {
    One(s.g.HasPass(repo, b)) + One(s.mid.TakeBack? && s.mid.repo == repo && s.mid.had == Some(b))
  }

  lemma StepUsesGrants(s: State, e: Event, repo: string, b: Binding)
    requires Legal(s, e)
    ensures Usable(Next(s, e), repo, b) + One(ClaimsThrough(s, e, repo, b)) <= Usable(s, repo, b) + One(Grants(s, e, repo, b))
  {
    hide Clears, RecentlyLetThrough;
  }

  /** Whatever interleaves, a repository claims through a gate no more often than it was granted a
      pass through it. */
  lemma {:induction false} ClaimsNeverExceedGrants(ss: seq<State>, es: seq<Event>, n: nat, repo: string, b: Binding)
    requires IsGateRun(ss, es) && n <= |es|
    ensures ClaimsOf(ss, es, n, repo, b) + Usable(ss[n], repo, b) <= GrantsTo(ss, es, n, repo, b)
  {
    if n > 0 {
      hide Usable, Legal, Next, Grants, ClaimsThrough;
      ClaimsNeverExceedGrants(ss, es, n - 1, repo, b);
      StepUsesGrants(ss[n - 1], es[n - 1], repo, b);
    }
  }

  /** A probe begun and not yet known to have started has its pass. */
  predicate MidHasPass(s: State) { s.mid.TakeBack? ==> s.g.HasPass(s.mid.repo, s.mid.b) }

  lemma StepTakesBackGrants(s: State, e: Event, repo: string, b: Binding)
    requires Legal(s, e) && (e.NotStarted? ==> MidHasPass(s))
    ensures Usable(Next(s, e), repo, b) + One(ClaimsThrough(s, e, repo, b)) + One(TakesBack(s, e, repo, b))
              <= Usable(s, repo, b) + One(Grants(s, e, repo, b))
  {
    hide Clears, RecentlyLetThrough;
  }

  /** Taking a probe back takes a pass away just when the probe's own pass is still there. */
  lemma TakesAPassAwayIff(s: State)
    requires Legal(s, NotStarted)
    ensures Usable(Next(s, NotStarted), s.mid.repo, s.mid.b) + 1 == Usable(s, s.mid.repo, s.mid.b) <==> MidHasPass(s)
  {
  }

  /** If each probe taken back still has its pass, a probe taken back does not count as a grant: claims
      are at most the grants that stood. */
  lemma {:induction false} ClaimsNeverExceedGrantsThatStood(ss: seq<State>, es: seq<Event>, n: nat, repo: string, b: Binding)
    requires IsGateRun(ss, es) && n <= |es|
    requires forall i | 0 <= i < |es| && es[i].NotStarted? :: MidHasPass(ss[i])
    ensures ClaimsOf(ss, es, n, repo, b) + TakenBackFrom(ss, es, n, repo, b) + Usable(ss[n], repo, b) <= GrantsTo(ss, es, n, repo, b)
  {
    if n > 0 {
      hide Usable, Legal, Next, Grants, ClaimsThrough, TakesBack, MidHasPass;
      ClaimsNeverExceedGrantsThatStood(ss, es, n - 1, repo, b);
      StepTakesBackGrants(ss[n - 1], es[n - 1], repo, b);
    }
  }

  /** With a poll as one step that is always so. */
  lemma {:induction false} OneStepKeepsThePass(ss: seq<State>, es: seq<Event>, n: nat)
    requires IsGateRun(ss, es) && PollIsOneStep(ss, es) && n < |ss|
    ensures MidHasPass(ss[n])
  {
    if n > 0 {
      OneStepKeepsThePass(ss, es, n - 1);
      BeginsWithPass(ss[n - 1], es[n - 1]);
    } else {
      hide IsGateRun, PollIsOneStep;
    }
  }

  lemma BeginsWithPass(s: State, e: Event)
    requires Legal(s, e) && (s.mid.TakeBack? ==> e.Started? || e.NotStarted?)
    ensures MidHasPass(Next(s, e))
  {
  }

  /** A poll begins a probe of `r`, which holds a manual pass; `r` claims before the probe turns out not
      to start, and claims again. */
  function InterruptedPoll(b: Binding, r: string): seq<Event> {
    [Reject(b, 0, 10), Manual(b, r, 0), PollBegins(10), Look(b), Begin(b, r, 10, 10), Claim(b, r, 10, 10), NotStarted, Claim(b, r, 10, 10)]
  }

  function InterruptedStates(b: Binding, r: string): seq<State> {
    var shut, turn, mid := map[b := Gate(0, 10)], map[b := Gate(0, 20)], TakeBack(b, r, 20, 10, Some(b));
    var granted := Gates(shut, map[r := b], map[r := 0]);
    [START,
     State(Gates(shut, map[], map[]), Nothing, None, None),
     State(granted, Nothing, None, None),
     State(granted, Nothing, Some(10), None),
     State(granted, Nothing, Some(10), Some(b)),
     State(Gates(turn, map[r := b], map[r := 0]), mid, Some(10), None),
     State(Gates(turn, map[], map[r := 0]), mid, Some(10), None),
     State(granted, Nothing, Some(10), None),
     State(Gates(turn, map[], map[r := 0]), Nothing, Some(10), None)]
  }

  ghost predicate Follows(ss: seq<State>, es: seq<Event>, i: nat)
    requires i < |es| < |ss|
  {
    Legal(ss[i], es[i]) && ss[i + 1] == Next(ss[i], es[i])
  }

  lemma InterruptedPollBegins(b: Binding, r: string)
    requires b.provider != ""
    ensures forall i: nat | i < 4 :: Follows(InterruptedStates(b, r), InterruptedPoll(b, r), i)
  {
    var ss, es := InterruptedStates(b, r), InterruptedPoll(b, r);
    assert Follows(ss, es, 0) && Follows(ss, es, 1) && Follows(ss, es, 2) && Follows(ss, es, 3);
  }

  lemma InterruptedPollEnds(b: Binding, r: string)
    requires b.provider != ""
    ensures forall i: nat | 4 <= i < 8 :: Follows(InterruptedStates(b, r), InterruptedPoll(b, r), i)
  {
    var ss, es := InterruptedStates(b, r), InterruptedPoll(b, r);
    assert Follows(ss, es, 4) && Follows(ss, es, 5) && Follows(ss, es, 6) && Follows(ss, es, 7);
  }

  lemma InterruptedPollRuns(b: Binding, r: string)
    requires b.provider != ""
    ensures IsGateRun(InterruptedStates(b, r), InterruptedPoll(b, r))
  {
    hide Legal, Next;
    InterruptedPollBegins(b, r);
    InterruptedPollEnds(b, r);
    var ss, es := InterruptedStates(b, r), InterruptedPoll(b, r);
    forall i | 0 <= i < |es| ensures Legal(ss[i], es[i]) && ss[i + 1] == Next(ss[i], es[i]) {
      assert Follows(ss, es, i);
    }
  }

  /** Without that it fails: in this run two claims get through, though one of the two
      passes granted was taken back. */
  lemma ClaimInsideAPoll(b: Binding, r: string)
    requires b.provider != ""
    ensures var (ss, es) := (InterruptedStates(b, r), InterruptedPoll(b, r));
            && IsGateRun(ss, es) && !PollIsOneStep(ss, es)
            && ClaimsOf(ss, es, 8, r, b) == 2 && TakenBackFrom(ss, es, 8, r, b) == 1 && GrantsTo(ss, es, 8, r, b) == 2
  {
    hide Legal, Next;
    InterruptedPollRuns(b, r);
    var ss, es := InterruptedStates(b, r), InterruptedPoll(b, r);
    assert ClaimsOf(ss, es, 1, r, b) == 0 && TakenBackFrom(ss, es, 1, r, b) == 0;
    assert ClaimsOf(ss, es, 3, r, b) == 0 && TakenBackFrom(ss, es, 3, r, b) == 0;
    assert ClaimsOf(ss, es, 5, r, b) == 0 && TakenBackFrom(ss, es, 5, r, b) == 0;
    assert ClaimsOf(ss, es, 6, r, b) == 1 && TakenBackFrom(ss, es, 6, r, b) == 0;
    assert ClaimsOf(ss, es, 7, r, b) == 1 && TakenBackFrom(ss, es, 7, r, b) == 1;
    assert GrantsTo(ss, es, 1, r, b) == 0;
    assert GrantsTo(ss, es, 2, r, b) == 1;
    assert GrantsTo(ss, es, 4, r, b) == 1;
    assert GrantsTo(ss, es, 5, r, b) == 2;
    assert GrantsTo(ss, es, 7, r, b) == 2;
  }

  // ---------------------------------------------------------------- probes are spaced

  predicate OnSchedulersClock(e: Event) { e.Reject? || e.PollBegins? }

  /** Polls and rejections read the clock under the scheduler's lock, and it does not run backwards.
      What claims read may be out of order. */
  ghost predicate ClockRuns(es: seq<Event>) {
    forall i, j | 0 <= i < j < |es| && OnSchedulersClock(es[i]) && OnSchedulersClock(es[j]) :: es[i].at <= es[j].at
  }

  /** The interval stays `iv`, and a rejection closes its gate for no less. */
  predicate HasInterval(e: Event, iv: int) {
    (e.Reject? ==> e.tier >= iv) && (e.Begin? || e.Claim? ==> e.window == iv)
  }

  /** The gate of `b` lets no probe begin before `t`: now, after a probe is taken back, or by a poll that
      has already looked. */
  predicate ShutUntil(s: State, b: Binding, t: Time) {
    && b in s.g.gates && s.g.gates[b].until >= t
    && (s.mid.TakeBack? && s.mid.b == b ==> s.mid.movedFrom >= t)
    && (s.looked == Some(b) ==> s.poll.Some? && s.poll.value >= t)
  }

  lemma StepKeepsShut(s: State, e: Event, b: Binding, t: Time, iv: int)
    requires InPoll(s) && Legal(s, e) && ShutUntil(s, b, t) && b in Next(s, e).g.gates && iv >= 0
    requires HasInterval(e, iv) && (e.Reject? ==> e.at + iv >= t)
    ensures ShutUntil(Next(s, e), b, t)
  {
  }

  lemma {:induction false} StaysShut(ss: seq<State>, es: seq<Event>, b: Binding, t: Time, iv: int, m: nat, j: nat)
    requires IsGateRun(ss, es) && m <= j < |es| && ShutUntil(ss[m], b, t) && iv >= 0
    requires forall k | m <= k <= j :: b in ss[k].g.gates
    requires forall k | m <= k < j :: HasInterval(es[k], iv) && (es[k].Reject? ==> es[k].at + iv >= t)
    ensures ShutUntil(ss[j], b, t)
    decreases j
  {
    if m < j {
      hide ShutUntil, InPoll, Legal, Next, HasInterval;
      StaysShut(ss, es, b, t, iv, m, j - 1);
      AlwaysInPoll(ss, es, j - 1);
      StepKeepsShut(ss[j - 1], es[j - 1], b, t, iv);
    }
  }

  /** A probe of `b` begun and being started, its gate closed until `t`. */
  predicate Starting(s: State, b: Binding, t: Time) {
    b in s.g.gates && s.g.gates[b].until >= t && s.mid.TakeBack? && s.mid.b == b && s.looked.None?
  }

  lemma StepWhileStarting(s: State, e: Event, b: Binding, t: Time, iv: int)
    requires InPoll(s) && Legal(s, e) && Starting(s, b, t) && iv >= 0 && HasInterval(e, iv) && !e.NotStarted?
    ensures if e.Started? then ShutUntil(Next(s, e), b, t) else Starting(Next(s, e), b, t)
  {
  }

  lemma {:induction false} ShutWhileStarting(ss: seq<State>, es: seq<Event>, i: nat, k: nat, iv: int)
    requires IsGateRun(ss, es) && i < k <= |es| && es[i].Begin? && iv >= 0
    requires forall n | i <= n < k :: HasInterval(es[n], iv)
    requires forall n | i < n < k :: !es[n].Started? && !es[n].NotStarted?
    ensures Starting(ss[k], es[i].b, es[i].at + iv)
  {
    if i + 1 < k {
      hide InPoll, Legal, Next, HasInterval, Starting;
      ShutWhileStarting(ss, es, i, k - 1, iv);
      AlwaysInPoll(ss, es, k - 1);
      StepWhileStarting(ss[k - 1], es[k - 1], es[i].b, es[i].at + iv, iv);
    } else {
      AlwaysInPoll(ss, es, i);
      assert ss[i + 1] == Next(ss[i], es[i]);
    }
  }

  /** When the poll under way began. */
  lemma {:induction false} PollBegan(ss: seq<State>, es: seq<Event>, i: nat) returns (c: nat)
    requires IsGateRun(ss, es) && i < |ss| && ss[i].poll.Some?
    ensures c < i && es[c] == PollBegins(ss[i].poll.value)
  {
    assert ss[i] == Next(ss[i - 1], es[i - 1]);
    if es[i - 1].PollBegins? {
      c := i - 1;
    } else {
      c := PollBegan(ss, es, i - 1);
    }
  }

  /** When the poll found half open the gate whose probe it is about to begin. */
  lemma {:induction false} LookedAt(ss: seq<State>, es: seq<Event>, j: nat) returns (l: nat)
    requires IsGateRun(ss, es) && j < |ss| && ss[j].looked.Some?
    ensures l < j && es[l] == Look(ss[j].looked.value) && ss[l].poll == ss[j].poll
    ensures forall k | l < k <= j :: ss[k].looked.Some?
  {
    assert ss[j] == Next(ss[j - 1], es[j - 1]);
    AlwaysInPoll(ss, es, j - 1);
    if es[j - 1].Look? {
      l := j - 1;
    } else {
      l := LookedAt(ss, es, j - 1);
    }
  }

  /** Within one life of a gate, after a probe begun at `i` that starts (at `m`), no probe of the same
      credential begins before an interval has passed, by the polls' own clock. Claims and requests come
      between any two steps, also between a poll's look at the gate and its beginning the probe, and
      whatever their clocks say. */
  lemma ProbesAreSpaced(ss: seq<State>, es: seq<Event>, i: nat, m: nat, j: nat, iv: int)
    requires IsGateRun(ss, es) && ClockRuns(es) && i < m < j < |es| && iv >= 0
    requires es[i].Begin? && es[m].Started? && es[j].Begin? && es[j].b == es[i].b
    requires forall k | i < k < m :: !es[k].Started? && !es[k].NotStarted?
    requires forall k | i < k <= j :: es[i].b in ss[k].g.gates
    requires forall k | i <= k < j :: HasInterval(es[k], iv)
    ensures es[j].at >= es[i].at + iv
  {
    var b, t := es[i].b, es[i].at + iv;
    ShutWhileStarting(ss, es, i, m, iv);
    AlwaysInPoll(ss, es, m);
    assert ss[m + 1] == Next(ss[m], es[m]);
    StepWhileStarting(ss[m], es[m], b, t, iv);
    var c := PollBegan(ss, es, i);
    var l := LookedAt(ss, es, j);
    LookIsLater(ss, es, i, m, l, j, iv);
    forall k | m < k < l && es[k].Reject? ensures es[k].at + iv >= t {
      assert OnSchedulersClock(es[c]) && OnSchedulersClock(es[k]);
    }
    StaysShut(ss, es, b, t, iv, m + 1, l);
  }

  /** A look is of a poll without a probe being started: the one at `j` came after the probe of `i` had
      started. */
  lemma LookIsLater(ss: seq<State>, es: seq<Event>, i: nat, m: nat, l: nat, j: nat, iv: int)
    requires IsGateRun(ss, es) && i < m < j < |es| && l < j && es[i].Begin? && es[m].Started? && es[l].Look? && iv >= 0
    requires forall k | i < k < m :: !es[k].Started? && !es[k].NotStarted?
    requires forall k | i <= k < m :: HasInterval(es[k], iv)
    requires forall k | l < k <= j :: ss[k].looked.Some?
    ensures m < l
  {
    assert ss[i + 1] == Next(ss[i], es[i]) && Legal(ss[l], es[l]);
    if i < l < m {
      ShutWhileStarting(ss, es, i, l, iv);
    }
  }

  // ---------------------------------------------------------------- manual requests are spaced

  /** Requests are handled one after the other, on a clock that does not run backwards. */
  ghost predicate RequestsInOrder(es: seq<Event>) {
    forall i, j | 0 <= i < j < |es| && es[i].Manual? && es[j].Manual? :: es[i].at <= es[j].at
  }

  lemma StepKeepsMark(s: State, e: Event, repo: string, t: Time)
    requires repo in s.g.manual && s.g.manual[repo] >= t && (e.Manual? ==> e.at >= t) && (e.Retain? ==> repo in e.repos)
    ensures repo in Next(s, e).g.manual && Next(s, e).g.manual[repo] >= t
  {
  }

  lemma {:induction false} MarkStays(ss: seq<State>, es: seq<Event>, repo: string, i: nat, j: nat)
    requires IsGateRun(ss, es) && RequestsInOrder(es) && i < j <= |es| && es[i].Manual? && es[i].repo == repo
    requires Grants(ss[i], es[i], repo, es[i].b)
    requires forall k | i < k < j && es[k].Retain? :: repo in es[k].repos
    ensures repo in ss[j].g.manual && ss[j].g.manual[repo] >= es[i].at
  {
    if i + 1 < j {
      hide Legal, Next, Grants;
      MarkStays(ss, es, repo, i, j - 1);
      StepKeepsMark(ss[j - 1], es[j - 1], repo, es[i].at);
    } else {
      assert ss[i + 1] == Next(ss[i], es[i]);
    }
  }

  /** While a repository stays configured, the passes its immediate requests are granted are at least
      the gap apart, whichever gates they are for. */
  lemma ManualPassesAreSpaced(ss: seq<State>, es: seq<Event>, repo: string, i: nat, j: nat)
    requires IsGateRun(ss, es) && RequestsInOrder(es) && i < j < |es|
    requires es[i].Manual? && es[j].Manual? && es[i].repo == repo == es[j].repo
    requires Grants(ss[i], es[i], repo, es[i].b) && Grants(ss[j], es[j], repo, es[j].b)
    requires forall k | i < k < j && es[k].Retain? :: repo in es[k].repos
    ensures es[j].at >= es[i].at + MANUAL_PASS_GAP
  {
    MarkStays(ss, es, repo, i, j);
  }

  // ---------------------------------------------------------------- a gate opens only on proof

  /** The gate of `b`, if there is one, was last armed at `t` or later. */
  predicate ArmedSince(g: Gates, b: Binding, t: Time) { b in g.gates ==> g.gates[b].armedAt >= t }

  lemma StepKeepsArmed(s: State, e: Event, b: Binding, t: Time)
    requires Legal(s, e) && ArmedSince(s.g, b, t) && (e.Reject? ==> e.at >= t)
    ensures ArmedSince(Next(s, e).g, b, t)
  {
  }

  lemma {:induction false} ArmedSinceRejection(ss: seq<State>, es: seq<Event>, k: nat, i: nat)
    requires IsGateRun(ss, es) && ClockRuns(es) && k < i <= |es| && es[k].Reject? && es[k].b.provider != ""
    ensures ArmedSince(ss[i].g, es[k].b, es[k].at)
    decreases i
  {
    if k + 1 < i {
      hide Legal, Next, ArmedSince;
      ArmedSinceRejection(ss, es, k, i - 1);
      assert OnSchedulersClock(es[k]) && (es[i - 1].Reject? ==> OnSchedulersClock(es[i - 1]));
      StepKeepsArmed(ss[i - 1], es[i - 1], es[k].b, es[k].at);
    } else {
      assert ss[k + 1] == Next(ss[k], es[k]);
    }
  }

  predicate NoPassFor(g: Gates, b: Binding) { forall r <- g.passes :: g.passes[r] != b }

  lemma {:induction false} NoGateForUnbound(ss: seq<State>, es: seq<Event>, i: nat)
    requires IsGateRun(ss, es) && i < |ss|
    ensures forall b <- ss[i].g.gates :: b.provider != ""
  {
    if i > 0 {
      NoGateForUnbound(ss, es, i - 1);
      assert ss[i] == Next(ss[i - 1], es[i - 1]);
    }
  }

  /** A gate goes only when its credential is no longer in use, or on the success of a sync that began
      after every refusal of the credential so far; and no pass through it is left. */
  lemma GateOpensOnlyOnProof(ss: seq<State>, es: seq<Event>, i: nat, b: Binding)
    requires IsGateRun(ss, es) && ClockRuns(es) && i < |es| && b in ss[i].g.gates && b !in ss[i + 1].g.gates
    ensures (es[i].Retain? && b !in es[i].inUse) || (es[i].Succeed? && es[i].b == b)
    ensures es[i].Succeed? ==> forall k | 0 <= k < i && es[k].Reject? && es[k].b == b :: es[i].startedAt > es[k].at
    ensures NoPassFor(ss[i + 1].g, b)
  {
    NoGateForUnbound(ss, es, i);
    PassesAlwaysNameGates(ss, es, i + 1);
    assert ss[i + 1] == Next(ss[i], es[i]);
    forall k | 0 <= k < i && es[k].Reject? && es[k].b == b && es[i].Succeed? ensures es[i].startedAt > es[k].at {
      ArmedSinceRejection(ss, es, k, i);
    }
  }

  // ---------------------------------------------------------------- what each step does to one gate, pass and mark

  /** The event makes the gate of `b` stay away: nothing uses its credential, or a sync that began after
      the last refusal succeeded. */
  predicate Opens(s: State, e: Event, b: Binding) {
    && b in s.g.gates
    && ((e.Retain? && b !in e.inUse) || (e.Succeed? && e.b == b && e.startedAt > s.g.gates[b].armedAt))
  }

  /** A claim of `repo` that holds its pass through the gate. */
  predicate Passes(s: State, e: Event, repo: string) {
    e.Claim? && e.repo == repo && e.b in s.g.gates && repo in s.g.passes && s.g.passes[repo] == e.b
  }

  /** A request of `repo` that finds a gate, and its last pass a minute ago or longer. */
  predicate LetIn(s: State, e: Event, repo: string) {
    e.Manual? && e.repo == repo && e.b in s.g.gates && (repo in s.g.manual ==> e.at - s.g.manual[repo] >= 60 * SECOND)
  }

  /** A gate is there after a refusal, and until something opens it; until when it is closed is set by
      refusals, by probes begun and taken back, and by the claim that passes once it has elapsed. */
  lemma StepOfGate(s: State, e: Event, b: Binding)
    requires InPoll(s) && Legal(s, e) && b.provider != ""
    ensures var refused := e.Reject? && e.b == b;
            && (b in Next(s, e).g.gates <==> refused || (b in s.g.gates && !Opens(s, e, b)))
            && (b in Next(s, e).g.gates ==>
                  Next(s, e).g.gates[b] ==
                    if refused then Gate(e.at, e.at + e.tier)
                    else
                      var was := s.g.gates[b];
                      if e.Begin? && e.b == b then was.(until := e.at + e.window)
                      else if e.NotStarted? && s.mid.b == b && was.until == s.mid.movedTo then was.(until := s.mid.movedFrom)
                      else if e.Claim? && e.b == b && Passes(s, e, e.repo) && e.at >= was.until then was.(until := e.at + e.window)
                      else was)
  {
  }

  /** A pass comes with a probe begun or a request let in, goes with the claim that uses it, with its gate
      and with its repository, and is restored when a probe is taken back. */
  lemma StepOfPass(s: State, e: Event, repo: string, b: Binding)
    requires InPoll(s) && PassesNameGates(s) && Legal(s, e)
    ensures Next(s, e).g.HasPass(repo, b) <==>
              if (e.Begin? && e.repo == repo) || LetIn(s, e, repo) then e.b == b
              else if e.NotStarted? && s.mid.repo == repo then s.mid.had == Some(b)
              else && s.g.HasPass(repo, b) && !Passes(s, e, repo) && !Opens(s, e, b)
                   && !(e.Drop? && e.repo == repo) && !(e.Retain? && repo !in e.repos)
  {
  }

  lemma StepOfMark(s: State, e: Event, repo: string)
    requires Legal(s, e)
    ensures repo in Next(s, e).g.manual <==> LetIn(s, e, repo) || (repo in s.g.manual && !(e.Retain? && repo !in e.repos))
    ensures repo in Next(s, e).g.manual ==> Next(s, e).g.manual[repo] == if LetIn(s, e, repo) then e.at else s.g.manual[repo]
  {
  }

  /** The refusal that armed the gate of `b`. */
  lemma {:induction false} ArmedBy(ss: seq<State>, es: seq<Event>, i: nat, b: Binding) returns (k: nat)
    requires IsGateRun(ss, es) && i < |ss| && b in ss[i].g.gates
    ensures k < i && es[k].Reject? && es[k].b == b && es[k].at == ss[i].g.gates[b].armedAt
  {
    assert ss[i] == Next(ss[i - 1], es[i - 1]);
    NoGateForUnbound(ss, es, i);
    AlwaysInPoll(ss, es, i - 1);
    StepOfGate(ss[i - 1], es[i - 1], b);
    if es[i - 1].Reject? && es[i - 1].b == b {
      k := i - 1;
    } else {
      hide Next, Legal, Opens, Passes;
      k := ArmedBy(ss, es, i - 1, b);
    }
  }

  /** The success of a sync opens the gate of its credential if and only if the sync began after every
      refusal of that credential so far. */
  lemma SuccessOpensIff(ss: seq<State>, es: seq<Event>, i: nat)
    requires IsGateRun(ss, es) && ClockRuns(es) && i < |es| && es[i].Succeed? && es[i].b in ss[i].g.gates
    ensures es[i].b !in ss[i + 1].g.gates <==>
              forall k | 0 <= k < i && es[k].Reject? && es[k].b == es[i].b :: es[i].startedAt > es[k].at
    ensures es[i].b !in ss[i + 1].g.gates ==> NoPassFor(ss[i + 1].g, es[i].b)
  {
    var b := es[i].b;
    NoGateForUnbound(ss, es, i);
    var k := ArmedBy(ss, es, i, b);
    assert Legal(ss[i], es[i]) && ss[i + 1] == Next(ss[i], es[i]);
    AlwaysInPoll(ss, es, i);
    StepOfGate(ss[i], es[i], b);
    if b !in ss[i + 1].g.gates {
      GateOpensOnlyOnProof(ss, es, i, b);
    }
  }
}
