/** The grace period over a whole process: configurations come and go, sweeps run or are paused, syncs
    create mirrors (internal/gitsync/gc.go).

    A sweep is one step here, and so is accepting a configuration together with noting when; the clock
    is strictly increasing. The races inside a sweep are the subject of `MirrorRaces`. */
module MirrorGrace {
  import opened Basics
  import opened Option
  import opened MirrorFates
  import opened MirrorTree

  function Noted(noted: map<string, Time>, names: set<string>, at: Time): map<string, Time> {
    map n | n in noted.Keys + names :: if n in names then at else noted[n]
  }

  /** When each mirror was last seen in an accepted configuration. */
  class ConfiguredMarks {
    var configured: map<string, Time>

    constructor ()
      ensures configured == map[]
    {
      configured := map[];
    }

    method NoteConfigured(keep: set<string>, at: Time)
      modifies this
      ensures configured == Noted(old(configured), keep, at)
    {
      var left := keep;
      while left != {}
        invariant left <= keep && configured == Noted(old(configured), keep - left, at)
        decreases left
      {
        var name :| name in left;
        configured := configured[name := at];
        left := left - {name};
      }
    }
  }

  /** `configured` is the accepted configuration, as the names of its mirrors. */
  datatype World = World(tree: Tree, configured: Option<set<string>>, rejected: bool, critical: bool,
                         noted: map<string, Time>, inflight: set<string>)

  datatype Event =
    | Accept(names: set<string>, at: Time)
    | Reject
    | SetCritical(on: bool)
    | Launch(name: string)
    | Exit(name: string)
    | Create(name: string, id: nat)
    | Sweep(at: Time, listed: seq<string>, leftovers: seq<string>, f: Faults)

  predicate Allowed(w: World) { !w.rejected && !w.critical }

  predicate HasKeep(w: World) { w.configured.Some? && w.configured.value != {} }

  predicate Configured(w: World, name: string) { w.configured.Some? && name in w.configured.value }

  predicate Orphaned(w: World, name: string) { Allowed(w) && HasKeep(w) && name !in w.configured.value }

  predicate Sweeps(w: World, at: Time) { Allowed(w) && HasKeep(w) && at >= CLOCK_FLOOR }

  function ParamsOf(w: World, at: Time): Params
    requires HasKeep(w)
  {
    Params(w.configured.value, at, GRACE, n => n in w.inflight, w.noted, n => n !in w.inflight && Orphaned(w, n))
  }

  function Swept(w: World, at: Time, listed: seq<string>, leftovers: seq<string>, f: Faults): Tree {
    if Sweeps(w, at) then SweptAll(Recovered(w.tree, leftovers, f), CandidatesOf(listed), ParamsOf(w, at), f) else w.tree
  }

  ghost predicate Legal(w: World, e: Event) {
    match e
    case Sweep(_, listed, leftovers, _) => Distinct(listed) && Distinct(leftovers)
    case Create(name, _) => name in w.inflight
    case _ => true
  }

  function Next(w: World, e: Event): World {
    match e
    case Accept(names, at) =>
      w.(configured := Some(names), rejected := false,
         noted := Noted(w.noted, names, at))
    case Reject => w.(rejected := true)
    case SetCritical(on) => w.(critical := on)
    case Launch(name) => w.(inflight := w.inflight + {name})
    case Exit(name) => w.(inflight := w.inflight - {name})
    case Create(name, id) => w.(tree := w.tree.(mirrors := w.tree.mirrors[name := Folder(id, NoMark)]))
    case Sweep(at, listed, leftovers, f) => w.(tree := Swept(w, at, listed, leftovers, f))
  }

  ghost predicate IsRun(ws: seq<World>, es: seq<Event>) {
    && |ws| == |es| + 1 && ws[0].configured.None? && ws[0].noted == map[] && ws[0].inflight == {}
    && forall i {:trigger es[i]} | 0 <= i < |es| :: Legal(ws[i], es[i]) && ws[i + 1] == Next(ws[i], es[i])
  }

  predicate Timed(e: Event) { e.Accept? || e.Sweep? }

  ghost predicate ClockRuns(es: seq<Event>) {
    forall i, j | 0 <= i < j < |es| && Timed(es[i]) && Timed(es[j]) :: es[i].at < es[j].at
  }

  predicate Names(e: Event, name: string) { e.Accept? && name in e.names }

  lemma StepKeepsNote(w: World, e: Event, name: string, t: Time)
    requires name in w.noted && w.noted[name] >= t && (e.Accept? ==> e.at >= t)
    ensures name in Next(w, e).noted && Next(w, e).noted[name] >= t
  {
    hide Swept;
  }

  /** A configuration that named a mirror is remembered, whatever happens after. */
  lemma {:induction false} NotedSince(ws: seq<World>, es: seq<Event>, k: nat, i: nat, name: string)
    requires IsRun(ws, es) && ClockRuns(es) && k < i <= |es| && Names(es[k], name)
    ensures name in ws[i].noted && ws[i].noted[name] >= es[k].at
    decreases i
  {
    if k + 1 < i {
      hide Next, Legal;
      NotedSince(ws, es, k, i - 1, name);
      StepKeepsNote(ws[i - 1], es[i - 1], name, es[k].at);
    } else {
      hide Swept;
      assert ws[k + 1] == Next(ws[k], es[k]);
    }
  }

  lemma RecoveredKeepsMirrors(t: Tree, names: seq<string>, f: Faults)
    ensures Recovered(t, names, f).mirrors == t.mirrors
  {
  }

  /** One sweep of the run: what it takes was due, in nobody's way and orphaned. */
  lemma TakesOnlyTheDue(w: World, e: Event, name: string)
    requires e.Sweep? && Legal(w, e) && name in w.tree.mirrors && name !in Next(w, e).tree.mirrors
    ensures Sweeps(w, e.at) && HasKeep(w) && IsMirrorName(name) && Judge(w.tree, name, ParamsOf(w, e.at)).Due?
    ensures name !in w.inflight && Orphaned(w, name)
  {
    hide Judge, SweptAll, Recovered, CandidatesOf, IsMirrorName;
    RecoveredKeepsMirrors(w.tree, e.leftovers, e.f);
    CandidatesAreMirrors(e.listed);
    if Sweeps(w, e.at) {
      var t := Recovered(w.tree, e.leftovers, e.f);
      SweepTakesOnlyTheDue(t, CandidatesOf(e.listed), ParamsOf(w, e.at), e.f, name);
      JudgedAlike(t, w.tree, name, ParamsOf(w, e.at));
    }
  }

  /** The grace period holds: a mirror that a sweep takes carries a mark at least the whole period old,
      from a plausible clock; and no configuration accepted after that mark named it, however the
      sweeps in between were paused. */
  lemma GraceHolds(ws: seq<World>, es: seq<Event>, i: nat, name: string)
    requires IsRun(ws, es) && ClockRuns(es) && i < |es| && es[i].Sweep?
    requires name in ws[i].tree.mirrors && name !in ws[i + 1].tree.mirrors
    ensures ws[i].tree.mirrors[name].Folder? && ws[i].tree.mirrors[name].marker.Mark?
    ensures var since := ws[i].tree.mirrors[name].marker.at;
            && 1_735_689_600 * SECOND <= since && since + 7 * 24 * 60 * MINUTE <= es[i].at
            && !Configured(ws[i], name) && name !in ws[i].inflight
            && forall k | 0 <= k < i && Names(es[k], name) :: es[k].at <= since
  {
    hide Next, Judge;
    assert ws[i + 1] == Next(ws[i], es[i]);
    TakesOnlyTheDue(ws[i], es[i], name);
    DueMeans(ws[i].tree, name, ParamsOf(ws[i], es[i].at));
    forall k | 0 <= k < i && Names(es[k], name) ensures es[k].at <= ws[i].tree.mirrors[name].marker.at {
      NotedSince(ws, es, k, i, name);
    }
  }

  /** What is remembered of a mirror is a configuration that named it. */
  lemma {:induction false} NotedBy(ws: seq<World>, es: seq<Event>, i: nat, name: string) returns (k: nat)
    requires IsRun(ws, es) && i < |ws| && name in ws[i].noted
    ensures k < i && Names(es[k], name) && es[k].at == ws[i].noted[name]
  {
    assert ws[i] == Next(ws[i - 1], es[i - 1]);
    if Names(es[i - 1], name) {
      k := i - 1;
    } else {
      hide Swept;
      k := NotedBy(ws, es, i - 1, name);
    }
  }

  /** Whether a sweep may take anything: the last configuration was accepted and lists something, no critical
      update is pending, and the clock reads a time after 2024. */
  predicate MaySweep(w: World, at: Time) {
    !w.rejected && !w.critical && w.configured.Some? && w.configured.value != {} && at >= 1_735_689_600 * SECOND
  }

  /** A sweep that may not take anything changes nothing. One that may takes a listed mirror if and only if it
      is a real directory of no configured repository and no sync, carries a mark at least seven days old
      that no configuration since has made stale, and can be moved. */
  lemma TakenIff(ws: seq<World>, es: seq<Event>, i: nat, name: string)
    requires IsRun(ws, es) && ClockRuns(es) && i < |es| && es[i].Sweep?
    requires name in ws[i].tree.mirrors && IsMirrorName(name) && name in es[i].listed
    requires ws[i].tree.trash.NoTrash? ==> !es[i].f.mkdir(name)
    ensures !MaySweep(ws[i], es[i].at) ==> ws[i + 1] == ws[i]
    ensures var (w, node, f) := (ws[i], ws[i].tree.mirrors[name], es[i].f);
            name !in ws[i + 1].tree.mirrors <==>
              && MaySweep(w, es[i].at) && name !in w.configured.value && name !in w.inflight && !f.lstat(name)
              && node.Folder? && node.marker.Mark?
              && node.marker.at >= 1_735_689_600 * SECOND && node.marker.at + 7 * 24 * 60 * MINUTE <= es[i].at
              && (forall k | 0 <= k < i && es[k].Accept? && name in es[k].names :: es[k].at <= node.marker.at)
              && CanBeMoved(Recovered(w.tree, es[i].leftovers, f).trash, name, f)
  {
    var w, e := ws[i], es[i];
    assert Legal(w, e) && ws[i + 1] == Next(w, e);
    if MaySweep(w, e.at) {
      if w.tree.mirrors[name].Folder? && w.tree.mirrors[name].marker.Mark? {
        StaleIff(ws, es, i, name, w.tree.mirrors[name].marker.at);
      }
      hide IsRun, ClockRuns, CandidatesOf, SweptAll, Recovered, CanBeMoved, IsMirrorName;
      SweepTakesIff(w, e, name);
    }
  }

  /** The mark is stale just when some configuration accepted since named the mirror. */
  lemma StaleIff(ws: seq<World>, es: seq<Event>, i: nat, name: string, since: Time)
    requires IsRun(ws, es) && ClockRuns(es) && i < |ws|
    ensures (name in ws[i].noted ==> ws[i].noted[name] <= since) <==>
              forall k | 0 <= k < i && es[k].Accept? && name in es[k].names :: es[k].at <= since
  {
    hide Next, Legal;
    forall k | 0 <= k < i && Names(es[k], name) ensures name in ws[i].noted && ws[i].noted[name] >= es[k].at {
      NotedSince(ws, es, k, i, name);
    }
    if name in ws[i].noted {
      var k := NotedBy(ws, es, i, name);
    }
  }

  lemma SweepTakesIff(w: World, e: Event, name: string)
    requires e.Sweep? && Legal(w, e) && MaySweep(w, e.at) && name in w.tree.mirrors && IsMirrorName(name) && name in e.listed
    requires w.tree.trash.NoTrash? ==> !e.f.mkdir(name)
    ensures var node := w.tree.mirrors[name];
            name !in Next(w, e).tree.mirrors <==>
              && name !in w.configured.value && name !in w.inflight && !e.f.lstat(name) && node.Folder? && node.marker.Mark?
              && node.marker.at >= 1_735_689_600 * SECOND && node.marker.at + 7 * 24 * 60 * MINUTE <= e.at
              && (name in w.noted ==> w.noted[name] <= node.marker.at)
              && CanBeMoved(Recovered(w.tree, e.leftovers, e.f).trash, name, e.f)
  {
    var t := Recovered(w.tree, e.leftovers, e.f);
    assert t.mirrors == w.tree.mirrors && (t.trash.NoTrash? ==> w.tree.trash.NoTrash?);
    CandidatesAreMirrors(e.listed);
    CandidatesAre(e.listed);
    hide CandidatesOf, SweptAll, Recovered, CanBeMoved, IsMirrorName;
    MirrorFate(t, CandidatesOf(e.listed), ParamsOf(w, e.at), e.f, name);
  }

  /** Between two moments the mirror got a mark it did not have. */
  predicate GotMark(before: Tree, after: Tree, name: string, at: Time) {
    && name in before.mirrors && name in after.mirrors && after.mirrors[name] != before.mirrors[name]
    && before.mirrors[name].Folder? && after.mirrors[name] == Folder(before.mirrors[name].id, Mark(at))
  }

  /** A sweep writes a mark only on an orphan. */
  lemma MarksOrphans(w: World, e: Event, name: string)
    requires e.Sweep? && Legal(w, e) && GotMark(w.tree, Next(w, e).tree, name, e.at)
    ensures !Configured(w, name)
  {
    hide SweptAll, Recovered, CandidatesOf, IsMirrorName;
    RecoveredKeepsMirrors(w.tree, e.leftovers, e.f);
    CandidatesAreMirrors(e.listed);
    if Sweeps(w, e.at) {
      SweepTakesOnlyTheDue(Recovered(w.tree, e.leftovers, e.f), CandidatesOf(e.listed), ParamsOf(w, e.at), e.f, name);
    }
  }

  lemma StaysUnconfigured(w: World, e: Event, name: string)
    requires !Configured(w, name) && !Names(e, name)
    ensures !Configured(Next(w, e), name)
  {
    hide Swept;
  }

  lemma {:induction false} UnconfiguredSince(ws: seq<World>, es: seq<Event>, j: nat, k: nat, name: string)
    requires IsRun(ws, es) && j <= k <= |es| && !Configured(ws[j], name)
    requires forall m | j <= m < k :: !Names(es[m], name)
    ensures !Configured(ws[k], name)
    decreases k
  {
    if j < k {
      hide Next, Legal, Configured, Names;
      UnconfiguredSince(ws, es, j, k - 1, name);
      StaysUnconfigured(ws[k - 1], es[k - 1], name);
    }
  }

  /** If this process wrote the mark, the repository was out of the configuration the whole time from
      the mark to the removal. */
  lemma OrphanedThroughout(ws: seq<World>, es: seq<Event>, j: nat, i: nat, name: string, k: nat)
    requires IsRun(ws, es) && ClockRuns(es) && j < i < |es| && es[j].Sweep? && es[i].Sweep?
    requires GotMark(ws[j].tree, ws[j + 1].tree, name, es[j].at)
    requires name in ws[i].tree.mirrors && name !in ws[i + 1].tree.mirrors
    requires ws[i].tree.mirrors[name].Folder? && ws[i].tree.mirrors[name].marker == Mark(es[j].at)
    requires j <= k <= i
    ensures !Configured(ws[k], name)
  {
    hide Next, Configured, Sweeps;
    assert ws[j + 1] == Next(ws[j], es[j]);
    MarksOrphans(ws[j], es[j], name);
    GraceHolds(ws, es, i, name);
    UnconfiguredSince(ws, es, j, k, name);
  }
}
