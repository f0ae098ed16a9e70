/** One cleanup sweep over the mirrors root: which directories it marks, moves aside and removes
    (internal/gitsync/gc.go).

    A directory has an identity, so that one moved aside and one created later under its name differ.
    What the file system refuses is an input (`Faults`); times are nanoseconds. */
module MirrorTree {
  import opened Basics
  import opened Option

  const CLOCK_FLOOR: Time := 1_735_689_600_000_000_000
  const GRACE: int := 7 * 24 * 3_600_000_000_000

  // ---------------------------------------------------------------- the tree

  datatype Marker = NoMark | Unreadable | Mark(at: Time)

  datatype Node = Folder(id: nat, marker: Marker) | NotAFolder

  datatype Trash = NoTrash | TrashFolder(nodes: map<string, Node>) | UnsafeTrash

  /** The entries of the root by name, the trash directory apart. */
  datatype Tree = Tree(mirrors: map<string, Node>, trash: Trash)

  predicate IsHex(c: char) { '0' <= c <= '9' || 'a' <= c <= 'f' }

  predicate IsHexOf(s: string, n: nat) { |s| == n && forall c <- s :: IsHex(c) }

  predicate IsMirrorName(n: string) { |n| == 68 && IsHexOf(n[..64], 64) && n[64..] == ".git" }

  predicate IsTombstone(n: string) { |n| == 85 && IsMirrorName(n[..68]) && n[68] == '.' && IsHexOf(n[69..], 16) }

  /** What a sweep depends on: the mirrors of the accepted configuration, the clock, whether a sync of a
      mirror is queued or running, when it was last configured, and whether it may be claimed. */
  datatype Params = Params(keep: set<string>, now: Time, grace: int, busy: string -> bool,
                           last: map<string, Time>, claims: string -> bool)

  /** What fails, by name, and the random part of each tombstone's name. The trash directory is
      inspected once at the start, and again, and made if need be, for each mirror to move. */
  datatype Faults = Faults(lstat: string -> bool, mark: string -> bool, clear: string -> bool,
                           inspect: bool, ensure: string -> bool, mkdir: string -> bool,
                           move: string -> bool, remove: string -> bool, suffix: string -> string)

  datatype Counts = Counts(marked: nat, cleared: nat, busy: nat, removed: nat, skipped: nat, failed: nat)

  const NO_COUNTS := Counts(0, 0, 0, 0, 0, 0)

  // ---------------------------------------------------------------- judging a mirror

  /** When the mirror was first seen orphaned, if its mark can be believed. */
  function ReadMark(m: Marker, now: Time): Option<Time> {
    if m.Mark? && CLOCK_FLOOR <= m.at <= now then Some(m.at) else None
  }

  predicate IsStale(name: string, since: Time, last: map<string, Time>) { name in last && since < last[name] }

  datatype Verdict = Absent | Skip | Clear | InUse | MarkNow | Due | Leave

  function Judge(t: Tree, name: string, p: Params): Verdict {
    if name in t.mirrors then JudgeNode(t.mirrors[name], name, p) else Absent
  }

  function JudgeNode(node: Node, name: string, p: Params): Verdict {
    if node.NotAFolder? then Skip
    else if name in p.keep then Clear
    else if p.busy(name) then InUse
    else
      var since := ReadMark(node.marker, p.now);
      if since.None? || IsStale(name, since.value, p.last) then MarkNow
      else if p.now - since.value >= p.grace then Due
      else Leave
  }

  /** An orphan is due only if it is in nobody's way and was seen orphaned the whole grace period ago,
      with no configuration since that named it. */
  lemma DueMeans(t: Tree, name: string, p: Params)
    requires Judge(t, name, p).Due?
    ensures name !in p.keep && !p.busy(name)
    ensures name in t.mirrors && t.mirrors[name].Folder? && t.mirrors[name].marker.Mark?
    ensures var since := t.mirrors[name].marker.at;
            CLOCK_FLOOR <= since && since + p.grace <= p.now && (name in p.last ==> p.last[name] <= since)
  {
  }

  // ---------------------------------------------------------------- one mirror

  function Marked(t: Tree, name: string, marker: Marker): Tree
    requires name in t.mirrors && t.mirrors[name].Folder?
  {
    t.(mirrors := t.mirrors[name := t.mirrors[name].(marker := marker)])
  }

  function Tombstone(name: string, f: Faults): string { name + "." + f.suffix(name) }

  /** The trash after `ensureTrash`, if it is a real directory then. */
  function EnsuredTrash(t: Trash, name: string, f: Faults): Option<map<string, Node>> {
    if f.ensure(name) then None
    else match t
      case NoTrash => if f.mkdir(name) then None else Some(map[])
      case TrashFolder(nodes) => Some(nodes)
      case UnsafeTrash => None
  }

  /** Moving aside, and then removing what was moved. */
  function Retired(t: Tree, name: string, f: Faults): Tree
    requires name in t.mirrors
  {
    var nodes := EnsuredTrash(t.trash, name, f);
    var tomb := Tombstone(name, f);
    if nodes.None? then t
    else if f.move(name) || tomb in nodes.value then t.(trash := TrashFolder(nodes.value))
    else
      Tree(t.mirrors - {name},
           TrashFolder(if f.remove(tomb) then nodes.value[tomb := t.mirrors[name]] else nodes.value))
  }

  function SweptOne(t: Tree, name: string, p: Params, f: Faults): Tree {
    if f.lstat(name) then t
    else match Judge(t, name, p)
      case Clear => if f.clear(name) then t else Marked(t, name, NoMark)
      case MarkNow => if f.mark(name) then t else Marked(t, name, Mark(p.now))
      case Due => if p.claims(name) then Retired(t, name, f) else t
      case _ => t
  }

  function SweptAll(t: Tree, names: seq<string>, p: Params, f: Faults): Tree {
    if names == [] then t
    else SweptOne(SweptAll(t, names[..|names| - 1], p, f), names[|names| - 1], p, f)
  }

  /** The trash after leftovers are removed: only real directories with a tombstone's name. */
  predicate Leftover(n: string, node: Node, f: Faults) {
    IsTombstone(n) && !f.lstat(n) && node.Folder? && !f.remove(n)
  }

  function Recovered(t: Tree, names: seq<string>, f: Faults): Tree {
    if t.trash.TrashFolder? && !f.inspect then t.(trash := TrashFolder(Kept(t.trash.nodes, names, f))) else t
  }

  function Kept(nodes: map<string, Node>, names: seq<string>, f: Faults): map<string, Node> {
    map n | n in nodes && !(n in names && Leftover(n, nodes[n], f)) :: nodes[n]
  }

  // ---------------------------------------------------------------- what a sweep does, mirror by mirror

  /** Sweeping one mirror leaves every other mirror alone. */
  lemma OthersStay(t: Tree, name: string, p: Params, f: Faults, other: string)
    requires other != name
    ensures other in SweptOne(t, name, p, f).mirrors <==> other in t.mirrors
    ensures other in t.mirrors ==> SweptOne(t, name, p, f).mirrors[other] == t.mirrors[other]
  {
    hide Judge, EnsuredTrash, Tombstone;
  }

  function NodeOf(t: Tree, name: string): Option<Node> { if name in t.mirrors then Some(t.mirrors[name]) else None }

  /** The move of a mirror that is due and claimed succeeds: it can be renamed, the trash is a real
      directory or can be made, and the tombstone's name is free. */
  predicate MoveSucceeds(t: Tree, name: string, f: Faults) {
    var nodes := EnsuredTrash(t.trash, name, f);
    !f.move(name) && nodes.Some? && Tombstone(name, f) !in nodes.value
  }

  /** What a sweep makes of a mirror, from the mirror itself and whether it could be moved. */
  function Outcome(node: Node, name: string, p: Params, f: Faults, movable: bool): Option<Node> {
    if f.lstat(name) then Some(node)
    else match JudgeNode(node, name, p)
      case Clear => Some(if f.clear(name) then node else Folder(node.id, NoMark))
      case MarkNow => Some(if f.mark(name) then node else Folder(node.id, Mark(p.now)))
      case Due => if p.claims(name) && movable then None else Some(node)
      case _ => Some(node)
  }

  lemma OneHasOutcome(t: Tree, name: string, p: Params, f: Faults)
    requires name in t.mirrors
    ensures NodeOf(SweptOne(t, name, p, f), name) == Outcome(t.mirrors[name], name, p, f, MoveSucceeds(t, name, f))
  {
  }

  lemma {:induction false} NotListedStays(t: Tree, names: seq<string>, p: Params, f: Faults, name: string)
    requires name !in names
    ensures NodeOf(SweptAll(t, names, p, f), name) == NodeOf(t, name)
  {
    if names != [] {
      hide SweptOne;
      var front, last := names[..|names| - 1], names[|names| - 1];
      assert names == front + [last];
      NotListedStays(t, front, p, f, name);
      OthersStay(SweptAll(t, front, p, f), last, p, f, name);
    }
  }

  /** Over a whole sweep the outcome of each mirror is a function of the mirror as it was before the sweep
      and of whether it could be moved when its turn came. */
  lemma {:induction false} SweepIsOneByOne(t: Tree, names: seq<string>, p: Params, f: Faults, k: nat)
    requires Distinct(names) && k < |names| && names[k] in t.mirrors
    ensures NodeOf(SweptAll(t, names, p, f), names[k])
              == Outcome(t.mirrors[names[k]], names[k], p, f, MoveSucceeds(SweptAll(t, names[..k], p, f), names[k], f))
  {
    hide SweptOne, Outcome, MoveSucceeds;
    var front, last := names[..|names| - 1], names[|names| - 1];
    var before := SweptAll(t, front, p, f);
    if k < |names| - 1 {
      SweepIsOneByOne(t, front, p, f, k);
      assert front[..k] == names[..k];
      OthersStay(before, last, p, f, names[k]);
    } else {
      assert last !in front;
      NotListedStays(t, front, p, f, last);
      OneHasOutcome(before, last, p, f);
    }
  }

  lemma TombstonesDiffer(a: string, b: string, f: Faults)
    requires IsMirrorName(a) && IsMirrorName(b) && a != b
    ensures Tombstone(a, f) != Tombstone(b, f)
  {
    assert Tombstone(a, f)[..68] == a && Tombstone(b, f)[..68] == b;
  }

  /** The trash is there already, or can be made for this mirror as for any other. */
  predicate TrashReady(t: Tree, name: string, f: Faults) { t.trash.NoTrash? ==> !f.mkdir(name) }

  lemma OtherKeepsMove(t: Tree, other: string, p: Params, f: Faults, name: string)
    requires IsMirrorName(other) && IsMirrorName(name) && other != name && TrashReady(t, name, f)
    ensures TrashReady(SweptOne(t, other, p, f), name, f)
    ensures MoveSucceeds(SweptOne(t, other, p, f), name, f) <==> MoveSucceeds(t, name, f)
  {
    hide IsMirrorName, Judge, Tombstone;
    TombstonesDiffer(other, name, f);
  }

  /** Whether a mirror can be moved does not depend on what else is swept either: tombstones of different
      mirrors never collide. Only a trash directory that could not be made for this mirror may have
      been made for one before it. */
  lemma {:induction false} MoveDependsOnItself(t: Tree, names: seq<string>, p: Params, f: Faults, name: string)
    requires (forall n <- names :: IsMirrorName(n) && n != name) && IsMirrorName(name) && TrashReady(t, name, f)
    ensures TrashReady(SweptAll(t, names, p, f), name, f)
    ensures MoveSucceeds(SweptAll(t, names, p, f), name, f) <==> MoveSucceeds(t, name, f)
  {
    if names != [] {
      hide SweptOne, IsMirrorName, MoveSucceeds, TrashReady;
      var front, last := names[..|names| - 1], names[|names| - 1];
      assert names == front + [last];
      MoveDependsOnItself(t, front, p, f, name);
      OtherKeepsMove(SweptAll(t, front, p, f), last, p, f, name);
    }
  }

  predicate SameMirror(a: Tree, b: Tree, name: string) {
    (name in a.mirrors <==> name in b.mirrors) && (name in a.mirrors ==> a.mirrors[name] == b.mirrors[name])
  }

  lemma JudgedAlike(a: Tree, b: Tree, name: string, p: Params)
    requires SameMirror(a, b, name)
    ensures Judge(a, name, p) == Judge(b, name, p)
  {
  }

  /** Over a whole sweep: a mirror that is gone was due and was claimed; one that stays is the same
      directory, and its mark changed only to none (it is configured) or to now (it is newly orphaned,
      or back since its mark). Nothing that was not listed is touched. */
  lemma {:induction false} SweepTakesOnlyTheDue(t: Tree, names: seq<string>, p: Params, f: Faults, name: string)
    requires Distinct(names)
    ensures var n := SweptAll(t, names, p, f);
            && (name !in t.mirrors ==> name !in n.mirrors)
            && (name in t.mirrors && name !in n.mirrors ==> name in names && Judge(t, name, p).Due? && p.claims(name))
            && (name in t.mirrors && name in n.mirrors ==>
                  || n.mirrors[name] == t.mirrors[name]
                  || (name in names && t.mirrors[name].Folder? && name in p.keep && n.mirrors[name] == Folder(t.mirrors[name].id, NoMark))
                  || (name in names && t.mirrors[name].Folder? && Judge(t, name, p).MarkNow? && n.mirrors[name] == Folder(t.mirrors[name].id, Mark(p.now))))
  {
    hide SweptAll, MoveSucceeds;
    if name !in names {
      NotListedStays(t, names, p, f, name);
    } else if name in t.mirrors {
      var k :| 0 <= k < |names| && names[k] == name;
      SweepIsOneByOne(t, names, p, f, k);
    } else {
      NothingComesBack(t, names, p, f, name);
    }
  }

  lemma {:induction false} NothingComesBack(t: Tree, names: seq<string>, p: Params, f: Faults, name: string)
    requires name !in t.mirrors
    ensures name !in SweptAll(t, names, p, f).mirrors
  {
    if names != [] {
      NothingComesBack(t, names[..|names| - 1], p, f, name);
    }
  }

  // ---------------------------------------------------------------- what it counts

  function CountOne(c: Counts, t: Tree, name: string, p: Params, f: Faults): Counts {
    if f.lstat(name) then c.(failed := c.failed + 1)
    else match Judge(t, name, p)
      case Absent => c
      case Leave => c
      case Skip => c.(skipped := c.skipped + 1)
      case Clear => if t.mirrors[name].marker.NoMark? || f.clear(name) then c else c.(cleared := c.cleared + 1)
      case InUse => c.(busy := c.busy + 1)
      case MarkNow => if f.mark(name) then c.(failed := c.failed + 1) else c.(marked := c.marked + 1)
      case Due =>
        if !p.claims(name) then c.(busy := c.busy + 1)
        else if name in SweptOne(t, name, p, f).mirrors || f.remove(Tombstone(name, f)) then c.(failed := c.failed + 1)
        else c.(removed := c.removed + 1)
  }

  function CountAll(t: Tree, names: seq<string>, p: Params, f: Faults, c: Counts): Counts {
    if names == [] then c
    else
      var front := names[..|names| - 1];
      CountOne(CountAll(t, front, p, f, c), SweptAll(t, front, p, f), names[|names| - 1], p, f)
  }

  function CountLeftover(c: Counts, n: string, nodes: map<string, Node>, f: Faults): Counts {
    if !IsTombstone(n) then c.(skipped := c.skipped + 1)
    else if f.lstat(n) then c.(failed := c.failed + 1)
    else if n !in nodes then c
    else if nodes[n].NotAFolder? then c.(skipped := c.skipped + 1)
    else if f.remove(n) then c.(failed := c.failed + 1)
    else c.(removed := c.removed + 1)
  }

  function CountLeftovers(c: Counts, trash: Trash, names: seq<string>, f: Faults): Counts {
    if f.inspect then c.(failed := c.failed + 1)
    else if trash.NoTrash? then c
    else if trash.UnsafeTrash? then c.(skipped := c.skipped + 1)
    else if names == [] then c
    else CountLeftover(CountLeftovers(c, trash, names[..|names| - 1], f), names[|names| - 1], trash.nodes, f)
  }

  /** The mirrors removed and the directories gone agree: one fewer in root and trash together for each
      removal counted. */
  lemma RemovalsAreCounted(t: Tree, name: string, p: Params, f: Faults, c: Counts)
    requires !f.lstat(name) && CountOne(c, t, name, p, f).removed > c.removed
    ensures name in t.mirrors && SweptOne(t, name, p, f).mirrors == t.mirrors - {name}
    ensures SweptOne(t, name, p, f).trash == TrashFolder(EnsuredTrash(t.trash, name, f).value)
  {
  }

  // ---------------------------------------------------------------- the sweeper

  function CandidatesOf(names: seq<string>): seq<string> {
    if names == [] then []
    else CandidatesOf(names[..|names| - 1]) + if IsMirrorName(names[|names| - 1]) then [names[|names| - 1]] else []
  }

  lemma {:induction false} CandidatesAreMirrors(names: seq<string>)
    requires Distinct(names)
    ensures Distinct(CandidatesOf(names)) && forall n <- CandidatesOf(names) :: n in names && IsMirrorName(n)
  {
    hide IsMirrorName;
    if names != [] {
      CandidatesAreMirrors(names[..|names| - 1]);
    }
  }

  lemma CountLeftoverSame(c: Counts, n: string, a: map<string, Node>, b: map<string, Node>, f: Faults)
    requires (n in a <==> n in b) && (n in a ==> a[n] == b[n])
    ensures CountLeftover(c, n, a, f) == CountLeftover(c, n, b, f)
  {
  }

  class Sweeper {
    var mirrors: map<string, Node>
    var trash: Trash
    var res: Counts

    function Value(): Tree
      reads this`mirrors, this`trash
    {
      Tree(mirrors, trash)
    }

    constructor (t: Tree)
      ensures Value() == t && res == NO_COUNTS
    {
      mirrors, trash, res := t.mirrors, t.trash, NO_COUNTS;
    }

    /** One pass. `listed` and `leftovers` are what listing the two directories returned; the context ends
        after so many entries of each. */
    method SweepMirrors(rootOK: bool, listed: seq<string>, leftovers: seq<string>, recoverUpTo: nat, sweepUpTo: nat, p: Params, f: Faults)
      requires res == NO_COUNTS && Distinct(leftovers) && recoverUpTo <= |leftovers| && sweepUpTo <= |CandidatesOf(listed)|
      modifies this
      ensures p.now < CLOCK_FLOOR || !rootOK ==> Value() == old(Value()) && res == NO_COUNTS
      ensures p.now >= CLOCK_FLOOR && rootOK ==>
                Value() == SweptAll(Recovered(old(Value()), leftovers[..recoverUpTo], f), CandidatesOf(listed)[..sweepUpTo], p, f)
      ensures p.now >= CLOCK_FLOOR && rootOK ==>
                res == CountAll(Recovered(old(Value()), leftovers[..recoverUpTo], f), CandidatesOf(listed)[..sweepUpTo], p, f,
                                CountLeftovers(NO_COUNTS, old(trash), leftovers[..recoverUpTo], f))
    {
      if p.now < CLOCK_FLOOR || !rootOK {
        return;
      }
      RecoverTombstones(leftovers[..recoverUpTo], f);
      var names := MirrorCandidates(listed);
      ghost var start, counts := Value(), res;
      for k := 0 to sweepUpTo
        invariant Value() == SweptAll(start, names[..k], p, f) && res == CountAll(start, names[..k], p, f, counts)
      {
        hide SweptOne, CountOne;
        assert names[..k + 1][..k] == names[..k];
        SweepOne(names[k], p, f);
      }
    }

    method MirrorCandidates(listed: seq<string>) returns (out: seq<string>)
      ensures out == CandidatesOf(listed)
    {
      out := [];
      for k := 0 to |listed|
        invariant out == CandidatesOf(listed[..k])
      {
        assert listed[..k + 1][..k] == listed[..k];
        if IsMirrorName(listed[k]) {
          out := out + [listed[k]];
        }
      }
      assert listed[..|listed|] == listed;
    }

    method SweepOne(name: string, p: Params, f: Faults)
      modifies this
      ensures Value() == SweptOne(old(Value()), name, p, f) && res == CountOne(old(res), old(Value()), name, p, f)
    {
      if f.lstat(name) {
        res := res.(failed := res.failed + 1);
        return;
      }
      if name !in mirrors {
        return;
      }
      if mirrors[name].NotAFolder? {
        res := res.(skipped := res.skipped + 1);
        return;
      }
      if name in p.keep {
        ClearMarker(name, f);
        return;
      }
      if p.busy(name) {
        res := res.(busy := res.busy + 1);
        return;
      }
      var since := ReadMark(mirrors[name].marker, p.now);
      if since.None? {
        WriteMarker(name, p.now, f);
        return;
      }
      if name in p.last && since.value < p.last[name] {
        WriteMarker(name, p.now, f);
        return;
      }
      if p.now - since.value >= p.grace {
        RemoveDue(name, p, f);
      }
    }

    method ClearMarker(name: string, f: Faults)
      requires name in mirrors && mirrors[name].Folder?
      modifies this`mirrors, this`res
      ensures mirrors == if f.clear(name) then old(mirrors) else old(mirrors)[name := Folder(old(mirrors)[name].id, NoMark)]
      ensures res == if old(mirrors)[name].marker.NoMark? || f.clear(name) then old(res) else old(res).(cleared := old(res).cleared + 1)
    {
      if mirrors[name].marker.NoMark? {
        assert mirrors == mirrors[name := Folder(mirrors[name].id, NoMark)];
        return;
      }
      if f.clear(name) {
        return;
      }
      mirrors := mirrors[name := mirrors[name].(marker := NoMark)];
      res := res.(cleared := res.cleared + 1);
    }

    method WriteMarker(name: string, now: Time, f: Faults)
      requires name in mirrors && mirrors[name].Folder?
      modifies this`mirrors, this`res
      ensures mirrors == if f.mark(name) then old(mirrors) else old(mirrors)[name := Folder(old(mirrors)[name].id, Mark(now))]
      ensures res == if f.mark(name) then old(res).(failed := old(res).failed + 1) else old(res).(marked := old(res).marked + 1)
    {
      if f.mark(name) {
        res := res.(failed := res.failed + 1);
        return;
      }
      mirrors := mirrors[name := mirrors[name].(marker := Mark(now))];
      res := res.(marked := res.marked + 1);
    }

    method RemoveDue(name: string, p: Params, f: Faults)
      requires name in mirrors && mirrors[name].Folder?
      modifies this
      ensures Value() == if p.claims(name) then Retired(old(Value()), name, f) else old(Value())
      ensures res == if !p.claims(name) then old(res).(busy := old(res).busy + 1)
                     else if name in mirrors || f.remove(Tombstone(name, f)) then old(res).(failed := old(res).failed + 1)
                     else old(res).(removed := old(res).removed + 1)
    {
      if !p.claims(name) {
        res := res.(busy := res.busy + 1);
        return;
      }
      var tomb := MoveToTrash(name, f);
      if tomb.None? {
        res := res.(failed := res.failed + 1);
        return;
      }
      if f.remove(tomb.value) {
        res := res.(failed := res.failed + 1);
        return;
      }
      trash := TrashFolder(trash.nodes - {tomb.value});
      res := res.(removed := res.removed + 1);
    }

    /** Moves a mirror into the trash and says under which name, or leaves it and says nothing. */
    method MoveToTrash(name: string, f: Faults) returns (tomb: Option<string>)
      requires name in mirrors
      modifies this`mirrors, this`trash
      ensures var nodes, dest := EnsuredTrash(old(trash), name, f), Tombstone(name, f);
              if nodes.None? then tomb == None && Value() == old(Value())
              else if f.move(name) || dest in nodes.value then
                tomb == None && Value() == Tree(old(mirrors), TrashFolder(nodes.value))
              else
                && tomb == Some(dest) && dest !in nodes.value
                && Value() == Tree(old(mirrors) - {name}, TrashFolder(nodes.value[dest := old(mirrors)[name]]))
    {
      if f.ensure(name) || trash.UnsafeTrash? {
        return None;
      }
      if trash.NoTrash? {
        if f.mkdir(name) {
          return None;
        }
        trash := TrashFolder(map[]);
      }
      var dest := name + "." + f.suffix(name);
      if f.move(name) || dest in trash.nodes {
        return None;
      }
      trash := TrashFolder(trash.nodes[dest := mirrors[name]]);
      mirrors := mirrors - {name};
      tomb := Some(dest);
    }

    method RecoverTombstones(leftovers: seq<string>, f: Faults)
      requires Distinct(leftovers)
      modifies this`trash, this`res
      ensures Value() == Recovered(old(Value()), leftovers, f) && res == CountLeftovers(old(res), old(trash), leftovers, f)
    {
      if f.inspect {
        res := res.(failed := res.failed + 1);
        return;
      }
      if trash.NoTrash? {
        return;
      }
      if trash.UnsafeTrash? {
        res := res.(skipped := res.skipped + 1);
        return;
      }
      ghost var nodes := trash.nodes;
      for k := 0 to |leftovers|
        invariant trash == TrashFolder(Kept(nodes, leftovers[..k], f))
        invariant res == CountLeftovers(old(res), TrashFolder(nodes), leftovers[..k], f)
      {
        hide CountLeftover, Leftover, IsTombstone;
        var n := leftovers[k];
        assert leftovers[..k + 1] == leftovers[..k] + [n] && leftovers[..k + 1][..k] == leftovers[..k] && n !in leftovers[..k];
        CountLeftoverSame(res, n, trash.nodes, nodes, f);
        RecoverOne(n, f);
      }
      assert leftovers[..|leftovers|] == leftovers;
    }

    method RecoverOne(n: string, f: Faults)
      requires trash.TrashFolder?
      modifies this`trash, this`res
      ensures trash == TrashFolder(Kept(old(trash.nodes), [n], f)) && res == CountLeftover(old(res), n, old(trash.nodes), f)
    {
      hide IsTombstone;
      if !IsTombstone(n) {
        res := res.(skipped := res.skipped + 1);
      } else if f.lstat(n) {
        res := res.(failed := res.failed + 1);
      } else if n !in trash.nodes {
      } else if trash.nodes[n].NotAFolder? {
        res := res.(skipped := res.skipped + 1);
      } else if f.remove(n) {
        res := res.(failed := res.failed + 1);
      } else {
        trash := TrashFolder(trash.nodes - {n});
        res := res.(removed := res.removed + 1);
      }
    }
  }
}
