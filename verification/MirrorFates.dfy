/** What becomes of each directory in a sweep, from the directory, its mark, the clock and the
    configuration (internal/gitsync/gc.go). */
module MirrorFates {
  import opened Basics
  import opened Option
  import opened MirrorTree

  // ---------------------------------------------------------------- names

  predicate Hexadecimal(s: string) { forall c <- s :: c in "0123456789abcdef" }

  lemma HexIff(s: string, n: nat)
    ensures IsHexOf(s, n) <==> |s| == n && Hexadecimal(s)
  {
    assert forall c <- s :: IsHex(c) <==> c in "0123456789abcdef";
  }

  /** A mirror's directory is named by 64 hexadecimal digits and `.git`. */
  lemma MirrorNameIff(n: string)
    ensures IsMirrorName(n) <==> exists h :: |h| == 64 && Hexadecimal(h) && n == h + ".git"
  {
    if IsMirrorName(n) {
      HexIff(n[..64], 64);
      assert n == n[..64] + ".git";
    }
    if h :| |h| == 64 && Hexadecimal(h) && n == h + ".git" {
      HexIff(h, 64);
      assert n[..64] == h && n[64..] == ".git";
    }
  }

  /** Its name in the trash ends in a dot and 16 more. */
  lemma TombstoneIff(n: string)
    ensures IsTombstone(n) <==> exists h, x :: |h| == 64 && Hexadecimal(h) && |x| == 16 && Hexadecimal(x) && n == h + ".git." + x
  {
    if IsTombstone(n) {
      HexIff(n[..68][..64], 64);
      HexIff(n[69..], 16);
      assert n == n[..68][..64] + ".git." + n[69..];
    }
    if h, x :| |h| == 64 && Hexadecimal(h) && |x| == 16 && Hexadecimal(x) && n == h + ".git." + x {
      HexIff(h, 64);
      HexIff(x, 16);
      assert n[..68] == h + ".git" && n[..68][..64] == h && n[..68][64..] == ".git" && n[69..] == x;
    }
  }

  /** A sweep looks at exactly the listed names of that form, in the order listed. */
  lemma {:induction false} CandidatesAre(listed: seq<string>)
    ensures CandidatesOf(listed) == Filter(listed, IsMirrorName)
    ensures forall n :: n in CandidatesOf(listed) <==> n in listed && IsMirrorName(n)
  {
    hide IsMirrorName;
    if listed != [] {
      CandidatesAre(listed[..|listed| - 1]);
      assert listed == listed[..|listed| - 1] + [listed[|listed| - 1]];
    }
  }

  // ---------------------------------------------------------------- a mirror's fate

  /** A real directory of no configured repository and of no sync, that could be inspected. */
  predicate IsOrphan(node: Node, name: string, p: Params, f: Faults) {
    !f.lstat(name) && node.Folder? && name !in p.keep && !p.busy(name)
  }

  /** Its mark was written by a clock that makes sense, and no configuration has named it since. */
  predicate HasGoodMark(node: Node, name: string, p: Params) {
    && node.Folder? && node.marker.Mark?
    && 1_735_689_600 * SECOND <= node.marker.at <= p.now
    && (name in p.last ==> p.last[name] <= node.marker.at)
  }

  /** It has been an orphan for the whole grace period. */
  predicate IsExpired(node: Node, name: string, p: Params, f: Faults) {
    IsOrphan(node, name, p, f) && HasGoodMark(node, name, p) && p.now - node.marker.at >= p.grace
  }

  /** It can be renamed into a real trash directory, there or made, where its new name is free. */
  predicate CanBeMoved(trash: Trash, name: string, f: Faults) {
    && !f.move(name) && !f.ensure(name)
    && (trash.NoTrash? ==> !f.mkdir(name)) && !trash.UnsafeTrash?
    && (trash.TrashFolder? ==> name + "." + f.suffix(name) !in trash.nodes)
  }

  lemma OutcomeIs(node: Node, name: string, p: Params, f: Faults, movable: bool)
    ensures Outcome(node, name, p, f, movable) ==
              if IsExpired(node, name, p, f) && p.claims(name) && movable then None
              else if IsOrphan(node, name, p, f) && !HasGoodMark(node, name, p) && !f.mark(name) then Some(Folder(node.id, Mark(p.now)))
              else if !f.lstat(name) && node.Folder? && name in p.keep && !f.clear(name) then Some(Folder(node.id, NoMark))
              else Some(node)
  {
  }

  lemma MovesIff(t: Tree, name: string, f: Faults)
    ensures MoveSucceeds(t, name, f) <==> CanBeMoved(t.trash, name, f)
  {
  }

  /** Over a whole sweep, whatever becomes of the others: a mirror goes if and only if it has been an orphan
      for the grace period, may be claimed and can be moved. An orphan without a good mark is marked now, a
      configured one loses its mark, and every other keeps what it had. */
  lemma MirrorFate(t: Tree, names: seq<string>, p: Params, f: Faults, name: string)
    requires Distinct(names) && (forall n <- names :: IsMirrorName(n)) && name in names && name in t.mirrors
    requires t.trash.NoTrash? ==> !f.mkdir(name)
    ensures var node := t.mirrors[name];
            NodeOf(SweptAll(t, names, p, f), name) ==
              if IsExpired(node, name, p, f) && p.claims(name) && CanBeMoved(t.trash, name, f) then None
              else if IsOrphan(node, name, p, f) && !HasGoodMark(node, name, p) && !f.mark(name) then Some(Folder(node.id, Mark(p.now)))
              else if !f.lstat(name) && node.Folder? && name in p.keep && !f.clear(name) then Some(Folder(node.id, NoMark))
              else Some(node)
  {
    hide SweptAll, Outcome, MoveSucceeds, IsMirrorName, IsExpired, IsOrphan, HasGoodMark, CanBeMoved;
    var k :| 0 <= k < |names| && names[k] == name;
    SweepIsOneByOne(t, names, p, f, k);
    MoveDependsOnItself(t, names[..k], p, f, name);
    MovesIff(t, name, f);
    OutcomeIs(t.mirrors[name], name, p, f, MoveSucceeds(t, name, f));
  }

  // ---------------------------------------------------------------- the trash

  function InTrash(trash: Trash): map<string, Node> { if trash.TrashFolder? then trash.nodes else map[] }

  /** Of what an earlier sweep left in the trash, an entry goes if and only if the trash could be inspected,
      the entry is listed, is a real directory with the name of one set aside, and could be removed. Every
      other entry, and every mirror, stays. */
  lemma LeftoverFate(t: Tree, listed: seq<string>, f: Faults, n: string)
    requires n in InTrash(t.trash)
    ensures var after := Recovered(t, listed, f);
            && after.mirrors == t.mirrors
            && (n !in InTrash(after.trash) <==>
                  !f.inspect && n in listed && IsTombstone(n) && !f.lstat(n) && t.trash.nodes[n].Folder? && !f.remove(n))
            && (n in InTrash(after.trash) ==> InTrash(after.trash)[n] == t.trash.nodes[n])
  {
  }

  /** One mirror of a sweep adds to the trash at most itself, under its own name there, and only if it was
      moved and could not be removed. */
  lemma TrashAfterOne(t: Tree, name: string, p: Params, f: Faults)
    ensures var tomb := name + "." + f.suffix(name);
            InTrash(SweptOne(t, name, p, f).trash) ==
              if name in t.mirrors && name !in SweptOne(t, name, p, f).mirrors && f.remove(tomb)
              then InTrash(t.trash)[tomb := t.mirrors[name]] else InTrash(t.trash)
  {
  }

  /** A sweep takes nothing out of the trash that is there when it starts on the mirrors. */
  lemma {:induction false} TrashStays(t: Tree, names: seq<string>, p: Params, f: Faults, n: string)
    requires n in InTrash(t.trash)
    ensures n in InTrash(SweptAll(t, names, p, f).trash)
    ensures n !in (set m | m in names :: m + "." + f.suffix(m)) ==> InTrash(SweptAll(t, names, p, f).trash)[n] == t.trash.nodes[n]
  {
    if names != [] {
      hide SweptOne, InTrash;
      var front, last := names[..|names| - 1], names[|names| - 1];
      assert names == front + [last];
      TrashStays(t, front, p, f, n);
      TrashAfterOne(SweptAll(t, front, p, f), last, p, f);
    }
  }

  // ---------------------------------------------------------------- what is counted

  /** A mirror is counted once: as it could not be inspected, is not a directory, lost its mark, is in use or
      not to be claimed, was marked, or is gone; or as an operation on it failed. One left alone is not. */
  lemma CountedAs(c: Counts, t: Tree, name: string, p: Params, f: Faults)
    requires name in t.mirrors
    ensures var node := t.mirrors[name];
            var (expired, gone) := (IsExpired(node, name, p, f), IsExpired(node, name, p, f) && p.claims(name) && CanBeMoved(t.trash, name, f));
            var unmarked := IsOrphan(node, name, p, f) && !HasGoodMark(node, name, p);
            CountOne(c, t, name, p, f) ==
              if f.lstat(name) || (unmarked && f.mark(name)) || (expired && p.claims(name) && (!gone || f.remove(name + "." + f.suffix(name))))
              then c.(failed := c.failed + 1)
              else if node.NotAFolder? then c.(skipped := c.skipped + 1)
              else if name in p.keep then (if node.marker == NoMark || f.clear(name) then c else c.(cleared := c.cleared + 1))
              else if p.busy(name) || (expired && !p.claims(name)) then c.(busy := c.busy + 1)
              else if unmarked then c.(marked := c.marked + 1)
              else if gone then c.(removed := c.removed + 1)
              else c
  {
    MovesIff(t, name, f);
    OneHasOutcome(t, name, p, f);
    OutcomeIs(t.mirrors[name], name, p, f, MoveSucceeds(t, name, f));
    hide SweptOne, Outcome, MoveSucceeds, CanBeMoved;
  }

  /** An entry of the trash is counted by why it stays or that it went. */
  lemma LeftoverCountedAs(c: Counts, n: string, nodes: map<string, Node>, f: Faults)
    ensures CountLeftover(c, n, nodes, f) ==
              if IsTombstone(n) && n in nodes && !f.lstat(n) && nodes[n].Folder? && !f.remove(n) then c.(removed := c.removed + 1)
              else if !IsTombstone(n) || (!f.lstat(n) && n in nodes && nodes[n] == NotAFolder) then c.(skipped := c.skipped + 1)
              else if f.lstat(n) || n in nodes then c.(failed := c.failed + 1)
              else c
  {
    hide IsTombstone;
  }
}
