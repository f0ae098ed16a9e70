/** Collection against syncs and configurations, every lock and file operation its own step
    (internal/gitsync/gc.go with manager.go).

    `claimMirror` holds the manager's lock from its checks to the move; launches and exits wait for it,
    but a configuration can be accepted in between, because the client's lock is not held then. */
module MirrorRaces {
  import opened Option

  /** A directory is its identity; `next` is the first not used yet. `using` is the directory each
      running sync works in, `removed` history. */
  datatype State = State(inflight: set<string>, using: map<string, nat>, configured: set<string>, paused: bool,
                         mirrors: map<string, nat>, trash: map<string, nat>, claiming: Option<string>,
                         next: nat, removed: set<nat>)

  datatype Event =
    | Launch(name: string)
    | Open(name: string)       // a running sync finds or makes its directory
    | Rebuild(name: string)    // a running sync replaces a directory it cannot use
    | Exit(name: string)
    | Accept(names: set<string>)
    | Pause(on: bool)
    | Check(name: string)      // both checks pass, the manager's lock held
    | Move(tomb: string)       // the rename into the trash
    | GiveUp                   // the rename failed
    | Remove(tomb: string)     // a directory in the trash is removed

  predicate Orphaned(s: State, name: string) { !s.paused && s.configured != {} && name !in s.configured }

  predicate Legal(s: State, e: Event) {
    match e
    case Launch(_) => s.claiming.None?
    case Open(name) => name in s.inflight && name !in s.using
    case Rebuild(name) => name in s.using
    case Exit(_) => s.claiming.None?
    case Accept(_) => true
    case Pause(_) => true
    case Check(name) => s.claiming.None? && name !in s.inflight && Orphaned(s, name)
    case Move(tomb) => s.claiming.Some? && s.claiming.value in s.mirrors && tomb !in s.trash
    case GiveUp => s.claiming.Some?
    case Remove(tomb) => tomb in s.trash
  }

  function Next(s: State, e: Event): State
    requires Legal(s, e)
  {
    match e
    case Launch(name) => s.(inflight := s.inflight + {name})
    case Open(name) =>
      if name in s.mirrors then s.(using := s.using[name := s.mirrors[name]])
      else s.(mirrors := s.mirrors[name := s.next], using := s.using[name := s.next], next := s.next + 1)
    case Rebuild(name) => s.(mirrors := s.mirrors[name := s.next], using := s.using[name := s.next], next := s.next + 1)
    case Exit(name) => s.(inflight := s.inflight - {name}, using := s.using - {name})
    case Accept(names) => s.(configured := names)
    case Pause(on) => s.(paused := on)
    case Check(name) => s.(claiming := Some(name))
    case Move(tomb) =>
      s.(mirrors := s.mirrors - {s.claiming.value}, trash := s.trash[tomb := s.mirrors[s.claiming.value]], claiming := None)
    case GiveUp => s.(claiming := None)
    case Remove(tomb) => s.(trash := s.trash - {tomb}, removed := s.removed + {s.trash[tomb]})
  }

  /** Any mirrors and leftovers at the start, each its own directory; nothing is running. */
  ghost predicate Initial(s: State) {
    && s.inflight == {} && s.using == map[] && s.configured == {} && s.claiming.None? && s.removed == {}
    && Separate(s.mirrors, s.trash, s.removed, s.next)
  }

  ghost predicate IsRun(ss: seq<State>, es: seq<Event>) {
    && |ss| == |es| + 1 && Initial(ss[0])
    && forall i {:trigger es[i]} | 0 <= i < |es| :: Legal(ss[i], es[i]) && ss[i + 1] == Next(ss[i], es[i])
  }

  // ---------------------------------------------------------------- the invariant

  ghost predicate OneToOne(m: map<string, nat>) { forall a, b | a in m && b in m && m[a] == m[b] :: a == b }

  /** Each directory is in one place, and those removed are in none. */
  ghost predicate Separate(mirrors: map<string, nat>, trash: map<string, nat>, removed: set<nat>, next: nat) {
    && OneToOne(mirrors) && OneToOne(trash)
    && (forall n, t | n in mirrors && t in trash :: mirrors[n] != trash[t])
    && (forall n <- mirrors :: mirrors[n] < next && mirrors[n] !in removed)
    && (forall t <- trash :: trash[t] < next && trash[t] !in removed)
    && (forall id <- removed :: id < next)
  }

  /** A running sync works in the directory that is its mirror, and nobody claims it. */
  ghost predicate InPlace(s: State) {
    && (forall n <- s.using :: n in s.inflight && n in s.mirrors && s.mirrors[n] == s.using[n])
    && (s.claiming.Some? ==> s.claiming.value !in s.inflight)
  }

  ghost predicate Inv(s: State) { Separate(s.mirrors, s.trash, s.removed, s.next) && InPlace(s) }

  lemma FreshIsSeparate(mirrors: map<string, nat>, trash: map<string, nat>, removed: set<nat>, next: nat, name: string)
    requires Separate(mirrors, trash, removed, next)
    ensures Separate(mirrors[name := next], trash, removed, next + 1)
  {
  }

  lemma MovingIsSeparate(mirrors: map<string, nat>, trash: map<string, nat>, removed: set<nat>, next: nat, name: string, tomb: string)
    requires Separate(mirrors, trash, removed, next) && name in mirrors && tomb !in trash
    ensures Separate(mirrors - {name}, trash[tomb := mirrors[name]], removed, next)
  {
    var after := trash[tomb := mirrors[name]];
    forall a, b | a in after && b in after && after[a] == after[b] ensures a == b {
      assert a != tomb ==> mirrors[name] != trash[a];
      assert b != tomb ==> mirrors[name] != trash[b];
    }
  }

  lemma RemovingIsSeparate(mirrors: map<string, nat>, trash: map<string, nat>, removed: set<nat>, next: nat, tomb: string)
    requires Separate(mirrors, trash, removed, next) && tomb in trash
    ensures Separate(mirrors, trash - {tomb}, removed + {trash[tomb]}, next)
  {
  }

  lemma StepKeepsSeparate(s: State, e: Event)
    requires Separate(s.mirrors, s.trash, s.removed, s.next) && Legal(s, e)
    ensures var n := Next(s, e); Separate(n.mirrors, n.trash, n.removed, n.next)
  {
    hide Separate;
    match e
    case Open(name) => FreshIsSeparate(s.mirrors, s.trash, s.removed, s.next, name);
    case Rebuild(name) => FreshIsSeparate(s.mirrors, s.trash, s.removed, s.next, name);
    case Move(tomb) => MovingIsSeparate(s.mirrors, s.trash, s.removed, s.next, s.claiming.value, tomb);
    case Remove(tomb) => RemovingIsSeparate(s.mirrors, s.trash, s.removed, s.next, tomb);
    case _ =>
  }

  lemma StepKeepsInPlace(s: State, e: Event)
    requires InPlace(s) && Legal(s, e)
    ensures InPlace(Next(s, e))
  {
  }

  lemma StepKeepsInv(s: State, e: Event)
    requires Inv(s) && Legal(s, e)
    ensures Inv(Next(s, e))
  {
    hide Separate, InPlace, Next;
    StepKeepsSeparate(s, e);
    StepKeepsInPlace(s, e);
  }

  lemma {:induction false} InvAlways(ss: seq<State>, es: seq<Event>, i: nat)
    requires IsRun(ss, es) && i < |ss|
    ensures Inv(ss[i])
  {
    if i > 0 {
      hide Inv, Legal, Next, Initial;
      InvAlways(ss, es, i - 1);
      StepKeepsInv(ss[i - 1], es[i - 1]);
    }
  }

  // ---------------------------------------------------------------- the theorems

  /** A mirror is moved aside only while no sync of it is queued or running, and no sync works in the
      directory that is moved. */
  lemma MovedOnlyWhileIdle(ss: seq<State>, es: seq<Event>, i: nat)
    requires IsRun(ss, es) && i < |es| && es[i].Move?
    ensures var name := ss[i].claiming.value;
            && name !in ss[i].inflight
            && (forall n <- ss[i].using :: ss[i].using[n] != ss[i].mirrors[name])
            && name !in ss[i + 1].mirrors && ss[i + 1].trash[es[i].tomb] == ss[i].mirrors[name]
  {
    InvAlways(ss, es, i);
    assert ss[i + 1] == Next(ss[i], es[i]);
  }

  /** The directory is gone from the mirrors, set aside or removed. */
  predicate OutOfUse(s: State, id: nat) { id in s.removed || exists t <- s.trash :: s.trash[t] == id }

  lemma StaysOutOfUse(s: State, e: Event, id: nat)
    requires Legal(s, e) && OutOfUse(s, id)
    ensures OutOfUse(Next(s, e), id)
  {
    if id !in s.removed {
      var t :| t in s.trash && s.trash[t] == id;
      if e == Remove(t) {
        assert id in Next(s, e).removed;
      } else {
        assert t in Next(s, e).trash && Next(s, e).trash[t] == id;
      }
    }
  }

  /** What was once moved aside is never a mirror again, nor the directory of any sync: a sync that starts
      later works in a fresh one. What is removed at any point is in nobody's use. */
  lemma {:induction false} MovedIsNeverUsedAgain(ss: seq<State>, es: seq<Event>, i: nat, j: nat, id: nat)
    requires IsRun(ss, es) && i <= j < |ss| && OutOfUse(ss[i], id)
    ensures OutOfUse(ss[j], id) && id !in ss[j].mirrors.Values && id !in ss[j].using.Values
    decreases j
  {
    InvAlways(ss, es, j);
    if i < j {
      MovedIsNeverUsedAgain(ss, es, i, j - 1, id);
      StaysOutOfUse(ss[j - 1], es[j - 1], id);
      assert ss[j] == Next(ss[j - 1], es[j - 1]);
    }
    forall n <- ss[j].mirrors ensures ss[j].mirrors[n] != id {
    }
  }

  lemma RemovedIsInNobodysUse(ss: seq<State>, es: seq<Event>, i: nat)
    requires IsRun(ss, es) && i < |es| && es[i].Remove?
    ensures var id := ss[i].trash[es[i].tomb];
            id !in ss[i].mirrors.Values && id !in ss[i].using.Values
  {
    MovedIsNeverUsedAgain(ss, es, i, i, ss[i].trash[es[i].tomb]);
  }

  /** From the check to the move, `name` is the one being claimed. */
  ghost predicate ClaimedFrom(ss: seq<State>, es: seq<Event>, c: nat, i: nat)
    requires c < i <= |es| < |ss|
  {
    es[c].Check? && forall k | c < k <= i :: ss[k].claiming == Some(es[c].name)
  }

  function LastAccepted(es: seq<Event>, c: nat, i: nat): Option<set<string>>
    requires c <= i <= |es|
  {
    if c == i then None else if es[i - 1].Accept? then Some(es[i - 1].names) else LastAccepted(es, c, i - 1)
  }

  lemma {:induction false} ConfiguredSince(ss: seq<State>, es: seq<Event>, c: nat, i: nat)
    requires IsRun(ss, es) && c <= i <= |es|
    ensures ss[i].configured == if LastAccepted(es, c, i).Some? then LastAccepted(es, c, i).value else ss[c].configured
    decreases i
  {
    if c < i {
      ConfiguredSince(ss, es, c, i - 1);
      assert ss[i] == Next(ss[i - 1], es[i - 1]);
    }
  }

  /** From the check to the move no sync of the mirror runs, and none can be launched. */
  lemma NothingStartsWhileClaimed(ss: seq<State>, es: seq<Event>, c: nat, i: nat, k: nat)
    requires IsRun(ss, es) && c < i < |es| && ClaimedFrom(ss, es, c, i) && c <= k <= i
    ensures es[c].name !in ss[k].inflight && es[c].name !in ss[k].using && es[k] != Launch(es[c].name)
  {
    InvAlways(ss, es, k);
    assert Legal(ss[c], es[c]) && Legal(ss[k], es[k]);
  }

  /** The first sync of the mirror to work after the move makes a directory of its own: none it works in is
      the one that was moved. */
  lemma MovedDirectoryIsLost(ss: seq<State>, es: seq<Event>, i: nat, j: nat)
    requires IsRun(ss, es) && i < j < |ss| && es[i].Move?
    ensures var id := ss[i].mirrors[ss[i].claiming.value];
            id !in ss[j].using.Values && id !in ss[j].mirrors.Values
  {
    assert ss[i + 1] == Next(ss[i], es[i]);
    var id := ss[i].mirrors[ss[i].claiming.value];
    assert es[i].tomb in ss[i + 1].trash && ss[i + 1].trash[es[i].tomb] == id;
    MovedIsNeverUsedAgain(ss, es, i + 1, j, id);
  }

  /** At the check the repository was not configured; at the move it is configured if and only if a
      configuration accepted in between names it. That does no harm: no sync of it has started by then,
      and what a later one works in is not the directory that was moved. */
  lemma MovedWhileConfiguredIff(ss: seq<State>, es: seq<Event>, c: nat, i: nat)
    requires IsRun(ss, es) && c < i < |es| && ClaimedFrom(ss, es, c, i) && es[i].Move?
    ensures es[c].name !in ss[c].configured
    ensures var accepted := LastAccepted(es, c, i);
            es[c].name in ss[i].configured <==> accepted.Some? && es[c].name in accepted.value
    ensures forall k | c <= k <= i :: es[c].name !in ss[k].inflight && es[k] != Launch(es[c].name)
    ensures forall j | i < j < |ss| :: ss[i].mirrors[es[c].name] !in ss[j].using.Values
  {
    ConfiguredSince(ss, es, c, i);
    assert Legal(ss[i], es[i]);
    forall k | c <= k <= i ensures es[c].name !in ss[k].inflight && es[k] != Launch(es[c].name) {
      NothingStartsWhileClaimed(ss, es, c, i, k);
    }
    forall j | i < j < |ss| ensures ss[i].mirrors[es[c].name] !in ss[j].using.Values {
      MovedDirectoryIsLost(ss, es, i, j);
    }
  }

  /** It does happen: the configuration that names the repository again is accepted after the check. */
  lemma MovedWhileConfigured(name: string, other: string, tomb: string)
    requires name != other
    ensures var s0 := State({}, map[], {}, false, map[name := 0], map[], None, 1, {});
            var s2 := Next(Next(s0, Accept({other})), Check(name));
            var s3 := Next(s2, Accept({name, other}));
            Initial(s0) && Legal(s3, Move(tomb)) && name in s3.configured && name !in Next(s3, Move(tomb)).mirrors
  {
  }
}
