/** What the connector promises about credentials, results and records, over every run. */
module ClientSafety {
  import opened Basics
  import opened Option
  import opened Providers
  import opened ClientState
  import opened ClientRuns

  // ---------------------------------------------------------------- credentials

  /** In every reachable state a registered attempt has been cancelled, or its provider is in force with
      the generation it was claimed at and with the very credential its task carries; and every
      repository is bound as its host matches. */
  lemma NoUnrevocableCredential(ws: seq<World>, es: seq<Event>, i: nat, id: string)
    requires IsRun(ws, es) && i < |ws|
    ensures id in ws[i].s.attempts ==>
              var a := ws[i].s.attempts[id];
              && a.serial in ws[i].claimed && ws[i].claimed[a.serial].repoID == id && ws[i].claimed[a.serial].bind == a.bind
              && (a.cancelled ||
                  (&& a.bind.provider in ws[i].s.providers.byName
                   && ws[i].s.providers.byName[a.bind.provider].gen == a.bind.gen
                   && var (held, now) := (ws[i].claimed[a.serial].origin, ws[i].s.providers.byName[a.bind.provider].entry);
                      held.auth == now.auth && held.username == now.username && held.token == now.token))
    ensures id in ws[i].s.repos ==> Bound(ws[i].s.repos[id], ws[i].s.providers)
  {
    InvAlways(ws, es, i);
    if id in ws[i].s.attempts {
      assert Revocable(id, ws[i].s.attempts[id], ws[i].claimed, ws[i].s.providers);
    }
  }

  lemma StepInherits(w: World, e: Event)
    requires Inv(w) && Legal(w, e)
    ensures w.s.providerGen <= Step(w, e).s.providerGen && Inherits(Step(w, e).s.providers, w.s.providers, w.s.providerGen)
  {
    if e.Swap? {
      SwapInherits(w.s, e.listed);
    } else {
      OnlySwapsReplaceProviders(w.s, e);
    }
  }

  lemma SwapInherits(s: State, listed: seq<Listed>)
    requires s.providers.Valid(s.providerGen) && ValidStore(listed)
    ensures var n := SwapProviders(s, listed);
            s.providerGen <= n.providerGen && Inherits(n.providers, s.providers, s.providerGen)
  {
    hide Build, Rebound, Revoked, WithoutCheck, ProviderSet.Valid;
    BuildIsValid(listed, s.providers, s.providerGen);
  }

  lemma OnlySwapsReplaceProviders(s: State, e: Event)
    requires !e.Swap?
    ensures var n := Next(s, e);
            n.providers == s.providers && n.providerGen == s.providerGen && n.providerEpoch == s.providerEpoch
  {
  }

  lemma InheritedIsInForce(next: ProviderSet, prev: ProviderSet, gen: nat, b: Binding)
    requires Inherits(next, prev, gen) && b.gen <= gen && next.InForce(b)
    ensures prev.InForce(b) && prev.byName[b.provider].hostKey == next.byName[b.provider].hostKey
    ensures SameCredential(prev.byName[b.provider].entry, next.byName[b.provider].entry)
  {
  }

  /** Only a swap that changes the configuration replaces the providers, and it begins a new epoch. */
  lemma StepOfEpoch(s: State, e: Event)
    ensures s.providerEpoch <= Next(s, e).providerEpoch
    ensures s.providerEpoch == Next(s, e).providerEpoch ==> Next(s, e).providers == s.providers
  {
    if !e.Swap? {
      OnlySwapsReplaceProviders(s, e);
    }
  }

  lemma StepOfProbe(s: State, e: Event)
    ensures Next(s, e).probing.probe.Some? ==>
              (if s.probing.probe.Some? then Next(s, e).probing.probe.value.epoch == s.probing.probe.value.epoch
               else e.ProbeBegins? && ProbeDue(s, e.now) && Next(s, e).probing.probe.value.epoch == s.providerEpoch)
    ensures Next(s, e).probing.check.Some? ==>
              || Next(s, e).probing.check == s.probing.check
              || (s.probing.probe.Some? && Next(s, e).probing.check.value.epoch == s.probing.probe.value.epoch)
  {
  }

  /** Across all the swaps of a run, a generation in force at two moments stands for the same provider
      name, host and credential at both, and was in force at every moment between them. */
  lemma {:induction false} GenerationDenotesOneCredential(ws: seq<World>, es: seq<Event>, i: nat, j: nat, b: Binding)
    requires IsRun(ws, es) && i <= j < |ws|
    requires b.gen <= ws[i].s.providerGen && ws[j].s.providers.InForce(b)
    ensures ws[i].s.providers.InForce(b)
    ensures ws[i].s.providers.byName[b.provider].hostKey == ws[j].s.providers.byName[b.provider].hostKey
    ensures var (was, now) := (ws[i].s.providers.byName[b.provider].entry, ws[j].s.providers.byName[b.provider].entry);
            was.auth == now.auth && was.username == now.username && was.token == now.token
    decreases j
  {
    hide Inv, Inherits, ProviderSet.Valid;
    if i < j {
      GenerationOnlyGrows(ws, es, i, j - 1);
      InvAlways(ws, es, j - 1);
      StepInherits(ws[j - 1], es[j - 1]);
      InheritedIsInForce(ws[j].s.providers, ws[j - 1].s.providers, ws[j - 1].s.providerGen, b);
      GenerationDenotesOneCredential(ws, es, i, j - 1, b);
    }
  }

  lemma {:induction false} GenerationOnlyGrows(ws: seq<World>, es: seq<Event>, i: nat, j: nat)
    requires IsRun(ws, es) && i <= j < |ws|
    ensures ws[i].s.providerGen <= ws[j].s.providerGen
    decreases j
  {
    if i < j {
      GenerationOnlyGrows(ws, es, i, j - 1);
      InvAlways(ws, es, j - 1);
      StepInherits(ws[j - 1], es[j - 1]);
    }
  }

  /** Two providers that ever hold one generation are the same provider. */
  lemma GenerationHasOneName(ws: seq<World>, es: seq<Event>, i: nat, j: nat, b: Binding, c: Binding)
    requires IsRun(ws, es) && i <= j < |ws| && b.gen == c.gen
    requires ws[i].s.providers.InForce(b) && ws[j].s.providers.InForce(c)
    ensures b == c
  {
    InvAlways(ws, es, i);
    GenerationDenotesOneCredential(ws, es, i, j, c);
  }

  /** A credential that is replaced, and even restored afterwards, never makes an attempt claimed
      before the replacement count: its outcome is dropped however it ended. */
  lemma ReplacedCredentialNeverCounts(ws: seq<World>, es: seq<Event>, i: nat, j: nat, k: nat, t: SyncTask, res: SyncResult)
    requires IsRun(ws, es) && i <= j <= k < |ws|
    requires t.attemptSeq in ws[i].claimed && ws[i].claimed[t.attemptSeq] == t
    requires !ws[j].s.providers.InForce(t.bind)
    ensures !ws[k].s.providers.InForce(t.bind) && !Keeps(ws[k].s, t, res)
  {
    InvAlways(ws, es, i);
    GenerationOnlyGrows(ws, es, i, j);
    if ws[k].s.providers.InForce(t.bind) {
      GenerationDenotesOneCredential(ws, es, j, k, t.bind);
    }
    InvAlways(ws, es, k);
    if t.repoID in ws[k].s.repos && ws[k].s.repos[t.repoID].matched {
      BoundIsNamed(ws[k].s.repos[t.repoID], ws[k].s.providers, ws[k].s.providerGen);
    }
  }

  // ---------------------------------------------------------------- results

  ghost predicate KeptAt(ws: seq<World>, es: seq<Event>, j: nat, k: KeptResult)
    requires |ws| == |es| + 1 && j < |es|
  {
    && es[j].Finish? && es[j].task == k.task && es[j].res == k.res
    && Keeps(ws[j].s, k.task, k.res)
    && k.recorded == Recorded(ws[j].s.repos[k.task.repoID], k.res)
  }

  lemma {:induction false} KeptCameFromFinish(ws: seq<World>, es: seq<Event>, i: nat, k: KeptResult)
    requires IsRun(ws, es) && i < |ws| && k in ws[i].kept
    ensures exists j | 0 <= j < i :: KeptAt(ws, es, j, k)
  {
    if i > 0 {
      if k in ws[i - 1].kept {
        KeptCameFromFinish(ws, es, i - 1, k);
      } else {
        assert KeptAt(ws, es, i - 1, k);
      }
    }
  }

  /** Whatever reconfigurations and swaps happened, a repository's result is absent, the invalid
      replica marker, or what an earlier finish recorded for an attempt whose binding, origin and
      replica are the repository's present ones. */
  lemma ResultBelongsToItsTarget(ws: seq<World>, es: seq<Event>, i: nat, id: string)
    requires IsRun(ws, es) && i < |ws| && id in ws[i].s.repos
    ensures var r := ws[i].s.repos[id];
            || r.result == NO_RESULT
            || (r.result == INVALID_REPLICA && r.matched && !r.replicaUsable)
            || exists k: KeptResult, j | 0 <= j < i ::
                 && KeptAt(ws, es, j, k) && k.recorded == r.result
                 && k.task.repoID == id && k.task.bind == r.bind && k.task.canonicalURL == r.originURL && k.task.replicaURL == r.replicaURL
  {
    InvAlways(ws, es, i);
    var r := ws[i].s.repos[id];
    assert Attributed(ws[i].kept, r);
    if r.result != NO_RESULT && !(r.result == INVALID_REPLICA && r.matched && !r.replicaUsable) {
      var k :| k in ws[i].kept && k.recorded == r.result && SameIdentity(k.task, r);
      KeptCameFromFinish(ws, es, i, k);
    }
  }

  /** A finish whose outcome is kept is of the repository's present target, was claimed with its
      present binding, and used the very credential that is in force. */
  lemma KeptUsedTheCredentialInForce(ws: seq<World>, es: seq<Event>, j: nat)
    requires IsRun(ws, es) && j < |es| && es[j].Finish? && Keeps(ws[j].s, es[j].task, es[j].res)
    ensures var t := es[j].task;
            && t.repoID in ws[j].s.repos
            && t.bind == ws[j].s.repos[t.repoID].bind
            && t.canonicalURL == ws[j].s.repos[t.repoID].originURL && t.replicaURL == ws[j].s.repos[t.repoID].replicaURL
            && t.bind.provider in ws[j].s.providers.byName && ws[j].s.providers.byName[t.bind.provider].gen == t.bind.gen
            && var now := ws[j].s.providers.byName[t.bind.provider].entry;
               t.origin.auth == now.auth && t.origin.username == now.username && t.origin.token == now.token
  {
    InvAlways(ws, es, j);
    KeptIsCurrent(ws[j], es[j].task, es[j].res);
  }

  predicate SameTaskIdentity(a: SyncTask, b: SyncTask) {
    a.repoID == b.repoID && a.bind == b.bind && a.canonicalURL == b.canonicalURL && a.replicaURL == b.replicaURL
  }

  /** Recorded warnings, which an undecided success carries over from the one before it, were reported
      by some kept attempt at the same target under the same credential. */
  lemma {:induction false} WarningsWereReported(ws: seq<World>, es: seq<Event>, i: nat, k: KeptResult)
    requires IsRun(ws, es) && i < |ws| && k in ws[i].kept
    ensures exists j <- ws[i].kept :: j.res.warnings == k.recorded.warnings && SameTaskIdentity(j.task, k.task)
    decreases i
  {
    if i > 0 {
      var w, e := ws[i - 1], es[i - 1];
      if k in w.kept {
        WarningsWereReported(ws, es, i - 1, k);
        var j :| j in w.kept && j.res.warnings == k.recorded.warnings && SameTaskIdentity(j.task, k.task);
        assert j in ws[i].kept;
      } else {
        var r := w.s.repos[k.task.repoID];
        InvAlways(ws, es, i - 1);
        KeptIsCurrent(w, k.task, k.res);
        if k.recorded != k.res {
          assert Attributed(w.kept, r);
          var v :| v in w.kept && v.recorded == r.result && SameIdentity(v.task, r);
          WarningsWereReported(ws, es, i - 1, v);
          var j :| j in w.kept && j.res.warnings == v.recorded.warnings && SameTaskIdentity(j.task, v.task);
          assert j in ws[i].kept;
        }
      }
    }
  }

  // ---------------------------------------------------------------- run records

  datatype Entry = Entry(target: Target, recorded: SyncResult, now: Time)

  /** The outcomes of `id` kept by the events from `i` up to `j`, oldest first. */
  ghost function KeptBetween(ws: seq<World>, es: seq<Event>, i: nat, j: nat, id: string): seq<Entry>
    requires |ws| == |es| + 1 && i <= j < |ws|
    decreases j
  {
    if i == j then []
    else
      var before := KeptBetween(ws, es, i, j - 1, id);
      var s := ws[j - 1].s;
      match es[j - 1]
      case Finish(t, res, now) =>
        if t.repoID == id && Keeps(s, t, res) then before + [Entry(s.repos[id].target, Recorded(s.repos[id], res), now)] else before
      case _ => before
  }

  function Fold(rec: RunRecord, entries: seq<Entry>): RunRecord {
    if entries == [] then rec
    else
      var last := entries[|entries| - 1];
      RecordAttempt(Fold(rec, entries[..|entries| - 1]), last.target, last.recorded, last.now)
  }

  /** The record of `id` at moment `j` has existed since just after moment `i`, or since it was loaded
      when `i` is 0, and it started from `base`. */
  ghost predicate RecordSince(ws: seq<World>, i: nat, j: nat, id: string, base: RunRecord)
    requires i <= j < |ws|
  {
    && (forall k | i < k <= j :: id in ws[k].s.runs)
    && (if id in ws[i].s.runs then i == 0 && base == ws[0].s.runs[id] else base == NO_RECORD)
  }

  lemma StepOfRecord(w: World, e: Event, id: string)
    requires Legal(w, e) && id in Step(w, e).s.runs
    ensures var kept := e.Finish? && e.task.repoID == id && Keeps(w.s, e.task, e.res);
            && (!kept ==> id in w.s.runs && Step(w, e).s.runs[id] == w.s.runs[id])
            && (kept ==>
                  var rec := if id in w.s.runs then w.s.runs[id] else NO_RECORD;
                  Step(w, e).s.runs[id] == RecordAttempt(rec, w.s.repos[id].target, Recorded(w.s.repos[id], e.res), e.now))
  {
  }

  lemma FoldStep(rec: RunRecord, before: seq<Entry>, e: Entry)
    ensures Fold(rec, before + [e]) == RecordAttempt(Fold(rec, before), e.target, e.recorded, e.now)
  {
    assert (before + [e])[..|before|] == before;
  }

  /** One more event extends the fold of a record by what that event kept. */
  lemma RecordFollowsEvent(ws: seq<World>, es: seq<Event>, i: nat, j: nat, id: string, base: RunRecord)
    requires IsRun(ws, es) && i < j < |ws| && id in ws[j].s.runs
    requires Fold(base, KeptBetween(ws, es, i, j - 1, id)) == if id in ws[j - 1].s.runs then ws[j - 1].s.runs[id] else NO_RECORD
    ensures ws[j].s.runs[id] == Fold(base, KeptBetween(ws, es, i, j, id))
  {
    hide RecordAttempt, Fold, Recorded;
    var w, e := ws[j - 1], es[j - 1];
    StepOfRecord(w, e, id);
    if e.Finish? && e.task.repoID == id && Keeps(w.s, e.task, e.res) {
      FoldStep(base, KeptBetween(ws, es, i, j - 1, id), Entry(w.s.repos[id].target, Recorded(w.s.repos[id], e.res), e.now));
    }
  }

  /** Every run record is the fold of `recordAttempt` over exactly the outcomes kept since it was
      loaded or created, in order. */
  lemma {:induction false} RecordIsFold(ws: seq<World>, es: seq<Event>, j: nat, id: string) returns (i: nat, base: RunRecord)
    requires IsRun(ws, es) && j < |ws| && id in ws[j].s.runs
    ensures i <= j && RecordSince(ws, i, j, id, base)
    ensures ws[j].s.runs[id] == Fold(base, KeptBetween(ws, es, i, j, id))
    decreases j
  {
    hide IsRun;
    if j == 0 {
      return 0, ws[0].s.runs[id];
    }
    if id in ws[j - 1].s.runs {
      i, base := RecordIsFold(ws, es, j - 1, id);
    } else {
      i, base := j - 1, NO_RECORD;
    }
    RecordFollowsEvent(ws, es, i, j, id, base);
  }

  /** While any repository is configured, every record is of a configured repository and was made
      against that repository's present origin and replica. */
  lemma RecordsAreOfConfiguredTargets(ws: seq<World>, es: seq<Event>, i: nat, id: string)
    requires IsRun(ws, es) && i < |ws| && ws[i].s.repos != map[] && id in ws[i].s.runs
    ensures id in ws[i].s.repos && ws[i].s.runs[id].target == Some(ws[i].s.repos[id].target)
  {
    InvAlways(ws, es, i);
  }

  /** The last-success time of a record that stays moves only on a kept success, to the second in
      which that success ended. Failures, cancellations and superseded results leave it alone. */
  lemma LastSuccessMovesOnSuccess(ws: seq<World>, es: seq<Event>, i: nat, id: string)
    requires IsRun(ws, es) && i < |es| && id in ws[i].s.runs && id in ws[i + 1].s.runs
    requires ws[i].s.runs[id].lastSuccessAt != ws[i + 1].s.runs[id].lastSuccessAt
    ensures es[i].Finish? && es[i].task.repoID == id && Keeps(ws[i].s, es[i].task, es[i].res) && es[i].res.state == Succeeded
    ensures es[i].res.stats.startedAt.Some? ==>
              ws[i + 1].s.runs[id].lastSuccessAt == Some(Seconds(es[i].res.stats.startedAt.value + es[i].res.stats.duration))
  {
    hide Next, Step;
    InvAlways(ws, es, i);
    StepOfRecord(ws[i], es[i], id);
  }

  // ---------------------------------------------------------------- the origin check

  /** The cached origin check was made from the very providers in force, and a probe still running
      with others has been cancelled. */
  lemma {:induction false} OriginCheckIsOfTheProvidersInForce(ws: seq<World>, es: seq<Event>, i: nat)
    requires IsRun(ws, es) && i < |ws|
    ensures ws[i].s.probing.check.Some? ==>
              exists j | 0 <= j < i ::
                && es[j].ProbeBegins? && ProbeDue(ws[j].s, es[j].now) && ws[j].s.providerEpoch == ws[i].s.probing.check.value.epoch
                && ws[j].s.providers == ws[i].s.providers
    ensures ws[i].s.probing.probe.Some? ==>
              ws[i].s.probing.probe.value.cancelled || ws[i].s.probing.probe.value.epoch == ws[i].s.providerEpoch
  {
    InvAlways(ws, es, i);
    if ws[i].s.probing.check.Some? {
      var j := CheckBegan(ws, es, i);
      EpochNamesOneSet(ws, es, j, i);
    }
  }

  /** The probe behind a cached check, or behind the running goroutine, began at some earlier step. */
  lemma {:induction false} ProbeBegan(ws: seq<World>, es: seq<Event>, i: nat) returns (j: nat)
    requires IsRun(ws, es) && i < |ws| && ws[i].s.probing.probe.Some?
    ensures j < i && es[j].ProbeBegins? && ProbeDue(ws[j].s, es[j].now) && ws[j].s.providerEpoch == ws[i].s.probing.probe.value.epoch
  {
    StepOfProbe(ws[i - 1].s, es[i - 1]);
    if ws[i - 1].s.probing.probe.Some? {
      j := ProbeBegan(ws, es, i - 1);
    } else {
      j := i - 1;
    }
  }

  lemma {:induction false} CheckBegan(ws: seq<World>, es: seq<Event>, i: nat) returns (j: nat)
    requires IsRun(ws, es) && i < |ws| && ws[i].s.probing.check.Some?
    ensures j < i && es[j].ProbeBegins? && ProbeDue(ws[j].s, es[j].now) && ws[j].s.providerEpoch == ws[i].s.probing.check.value.epoch
  {
    StepOfProbe(ws[i - 1].s, es[i - 1]);
    if ws[i - 1].s.probing.check == ws[i].s.probing.check {
      j := CheckBegan(ws, es, i - 1);
    } else {
      j := ProbeBegan(ws, es, i - 1);
    }
  }

  lemma {:induction false} EpochNamesOneSet(ws: seq<World>, es: seq<Event>, i: nat, j: nat)
    requires IsRun(ws, es) && i <= j < |ws|
    ensures ws[i].s.providerEpoch <= ws[j].s.providerEpoch
    ensures ws[i].s.providerEpoch == ws[j].s.providerEpoch ==> ws[i].s.providers == ws[j].s.providers
    decreases j
  {
    hide Step, Next, Legal, Initial, Build;
    if i < j {
      EpochNamesOneSet(ws, es, i, j - 1);
      StepOfEpoch(ws[j - 1].s, es[j - 1]);
      StepIsNext(ws[j - 1], es[j - 1]);
    }
  }

  // ---------------------------------------------------------------- what a swap restarts

  /** A swap that cancels the attempt of a repository at its own binding either resyncs that
      repository with the new credential or leaves it unbound. */
  lemma CancelledRepositoriesResync(ws: seq<World>, es: seq<Event>, i: nat, id: string)
    requires IsRun(ws, es) && i < |es| && es[i].Swap? && id in Stopped(ws[i].s, es[i].listed)
    requires id in ws[i].s.repos && ws[i].s.attempts[id].bind == ws[i].s.repos[id].bind
    ensures ws[i + 1].s.attempts[id].cancelled
    ensures id in Resync(ws[i].s, es[i].listed) || !ws[i + 1].s.repos[id].matched
  {
    InvAlways(ws, es, i + 1);
    assert Bound(ws[i + 1].s.repos[id], ws[i + 1].s.providers);
  }
}
