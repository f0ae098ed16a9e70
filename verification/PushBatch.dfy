/** Splitting one push of the mirror into batches that never delete, and a last push that prunes
    (internal/gitsync/pushbatch.go).

    The mirror and the replica are maps from branch and tag names to object ids. What git itself
    refuses of an explicit push is part of the model (`Refused`); a process that stops for any other
    reason may have done any part of its work. Nobody else writes the replica meanwhile. */
module PushBatch {
  import opened Basics

  const MAX_BATCH_ARG_BYTES := 64 * 1024
  const MAX_BATCH_REF_LEN := 1024

  type Refs = map<string, nat>

  function Names(refs: seq<string>): set<string> { set n | n in refs }

  // ---------------------------------------------------------------- what git can hold and refuses

  /** `n` lies in the directory `dir`: git cannot hold refs of both names. */
  predicate Under(n: string, dir: string) { dir + "/" <= n }

  predicate Clash(a: string, b: string) { Under(a, b) || Under(b, a) }

  ghost predicate Storable(names: set<string>) {
    forall a, b | a in names && b in names :: !Under(a, b)
  }

  /** Another name that git's lookup of `n` accepts as well. */
  predicate Shadowed(n: string, names: set<string>) { "refs/heads/" + n in names || "refs/tags/" + n in names }

  /** What git refuses of the refspec `+n:n` in a push that does not prune: a name the mirror lacks, an
      ambiguous one, or one that cannot be held beside the names that stand on the replica. */
  predicate Refused(mirror: Refs, standing: set<string>, n: string) {
    n !in mirror || Shadowed(n, mirror.Keys) || Shadowed(n, standing) || exists d <- standing :: Clash(d, n)
  }

  /** The replica after the given names are made as they are in the mirror. */
  function Aligned(mirror: Refs, replica: Refs, names: set<string>): Refs {
    map n | n in mirror.Keys + replica.Keys && (if n in names then n in mirror else n in replica) ::
      if n in names then mirror[n] else replica[n]
  }

  /** The names a push of the whole mirror would write or delete. */
  function Differing(mirror: Refs, replica: Refs): set<string> {
    set n | n in mirror.Keys + replica.Keys && (n !in mirror || n !in replica || mirror[n] != replica[n])
  }

  // ---------------------------------------------------------------- splitting off what conflicts

  function DirsOf(n: string, upTo: nat): set<string>
    requires upTo <= |n|
  {
    set i | 0 <= i < upTo && n[i] == '/' :: n[..i]
  }

  lemma DirsAreAbove(n: string, dir: string)
    ensures dir in DirsOf(n, |n|) <==> Under(n, dir)
  {
    if Under(n, dir) {
      assert n[|dir|] == (dir + "/")[|dir|];
      assert n[..|dir|] == (dir + "/")[..|dir|] == dir;
    }
    forall i | 0 <= i < |n| && n[i] == '/' && n[..i] == dir ensures Under(n, dir) {
      assert n[..i + 1] == n[..i] + [n[i]];
    }
  }

  predicate Blocked(u: string, deletes: seq<string>, shadows: set<string>) {
    |u| > MAX_BATCH_REF_LEN || Shadowed(u, shadows) || exists d <- deletes :: Clash(d, u)
  }

  function Chosen(upserts: seq<string>, deletes: seq<string>, shadows: set<string>, blocked: bool): seq<string> {
    if upserts == [] then []
    else
      var front, u := upserts[..|upserts| - 1], upserts[|upserts| - 1];
      Chosen(front, deletes, shadows, blocked) + if Blocked(u, deletes, shadows) == blocked then [u] else []
  }

  lemma {:induction false} ChosenHas(upserts: seq<string>, deletes: seq<string>, shadows: set<string>, blocked: bool, u: string)
    ensures u in Chosen(upserts, deletes, shadows, blocked) <==> u in upserts && Blocked(u, deletes, shadows) == blocked
  {
    hide Blocked;
    if upserts != [] {
      ChosenHas(upserts[..|upserts| - 1], deletes, shadows, blocked, u);
      assert upserts == upserts[..|upserts| - 1] + [upserts[|upserts| - 1]];
    }
  }

  /** They are chosen in the order given. */
  lemma {:induction false} ChosenInOrder(upserts: seq<string>, deletes: seq<string>, shadows: set<string>, blocked: bool)
    ensures Chosen(upserts, deletes, shadows, blocked) == Filter(upserts, u => Blocked(u, deletes, shadows) == blocked)
  {
    hide Blocked;
    if upserts != [] {
      ChosenInOrder(upserts[..|upserts| - 1], deletes, shadows, blocked);
    }
  }

  /** Every ref that must not go in a batch is held, every other is free, each in the order given. */
  method SplitConflicts(upserts: seq<string>, deletes: seq<string>, shadows: set<string>)
    returns (free: seq<string>, held: seq<string>)
    ensures free == Chosen(upserts, deletes, shadows, false)
    ensures held == Chosen(upserts, deletes, shadows, true)
  {
    hide Under, Blocked;
    var deleted: set<string>, dirs: set<string> := {}, {};
    for k := 0 to |deletes|
      invariant deleted == Names(deletes[..k])
      invariant forall x :: x in dirs <==> exists d <- deletes[..k] :: Under(d, x)
    {
      var d := deletes[k];
      ghost var before := dirs;
      deleted := deleted + {d};
      for i := 0 to |d|
        invariant dirs == before + DirsOf(d, i)
      {
        if d[i] == '/' {
          dirs := dirs + {d[..i]};
        }
      }
      assert deletes[..k + 1] == deletes[..k] + [d];
      forall x ensures x in dirs <==> exists d <- deletes[..k + 1] :: Under(d, x) {
        DirsAreAbove(d, x);
      }
    }
    assert deletes[..|deletes|] == deletes;
    free, held := [], [];
    for k := 0 to |upserts|
      invariant free == Chosen(upserts[..k], deletes, shadows, false)
      invariant held == Chosen(upserts[..k], deletes, shadows, true)
    {
      var u := upserts[k];
      var conflict := Conflicts(u, deletes, deleted, dirs, shadows);
      if conflict {
        held := held + [u];
      } else {
        free := free + [u];
      }
      assert upserts[..k + 1] == upserts[..k] + [u];
    }
    assert upserts[..|upserts|] == upserts;
  }

  /** The body of the loop over the refs to write. */
  method Conflicts(u: string, deletes: seq<string>, deleted: set<string>, dirs: set<string>, shadows: set<string>)
    returns (conflict: bool)
    requires deleted == Names(deletes)
    requires forall x :: x in dirs <==> exists d <- deletes :: Under(d, x)
    ensures conflict == Blocked(u, deletes, shadows)
  {
    hide Under;
    conflict := |u| > MAX_BATCH_REF_LEN;
    if u in dirs {
      conflict := true;
    }
    if "refs/heads/" + u in shadows || "refs/tags/" + u in shadows {
      conflict := true;
    }
    ghost var sofar := conflict;
    var i := 0;
    while i < |u| && !conflict
      invariant 0 <= i <= |u|
      invariant conflict <==> sofar || exists x <- DirsOf(u, i) :: x in deleted
    {
      assert DirsOf(u, i + 1) == DirsOf(u, i) + if u[i] == '/' then {u[..i]} else {};
      if u[i] == '/' {
        conflict := u[..i] in deleted;
      }
      i := i + 1;
    }
    if conflict && !sofar {
      var x :| x in DirsOf(u, i) && x in deleted;
      assert x in DirsOf(u, |u|);
      DirsAreAbove(u, x);
    }
    forall d <- deletes ensures Under(u, d) <==> d in DirsOf(u, |u|) {
      DirsAreAbove(u, d);
    }
  }

  // ---------------------------------------------------------------- cutting into batches

  /** The refspec `+ref:ref` and its separator. */
  function RefCost(ref: string): nat { 2 * |ref| + 3 }

  function Cost(batch: seq<string>): nat {
    if batch == [] then 0 else Cost(batch[..|batch| - 1]) + RefCost(batch[|batch| - 1])
  }

  /** The text of a batch's refspecs as they go into the argument list, a separator after each. */
  function ArgText(batch: seq<string>): string {
    if batch == [] then ""
    else ArgText(batch[..|batch| - 1]) + "+" + batch[|batch| - 1] + ":" + batch[|batch| - 1] + " "
  }

  lemma {:induction false} CostIsText(batch: seq<string>)
    ensures Cost(batch) == |ArgText(batch)|
  {
    if batch != [] {
      CostIsText(batch[..|batch| - 1]);
    }
  }

  lemma CostGrows(batch: seq<string>, ref: string)
    ensures Cost(batch + [ref]) == Cost(batch) + RefCost(ref)
  {
    assert (batch + [ref])[..|batch|] == batch;
  }

  function Concat(batches: seq<seq<string>>): seq<string> {
    if batches == [] then [] else Concat(batches[..|batches| - 1]) + batches[|batches| - 1]
  }

  lemma ConcatGrows(batches: seq<seq<string>>, batch: seq<string>)
    ensures Concat(batches + [batch]) == Concat(batches) + batch
  {
    assert (batches + [batch])[..|batches|] == batches;
  }

  predicate Fits(batch: seq<string>, maxRefs: int, maxBytes: int) {
    |batch| == 1 || (1 <= |batch| <= maxRefs && Cost(batch) <= maxBytes)
  }

  predicate IsFull(batch: seq<string>, next: string, maxRefs: int, maxBytes: int) {
    |batch| >= maxRefs || Cost(batch) + RefCost(next) > maxBytes
  }

  predicate AllFit(batches: seq<seq<string>>, maxRefs: int, maxBytes: int) {
    forall i | 0 <= i < |batches| :: batches[i] != [] && Fits(batches[i], maxRefs, maxBytes)
  }

  predicate AllFull(batches: seq<seq<string>>, maxRefs: int, maxBytes: int) {
    forall i | 0 < i < |batches| :: batches[i] != [] && IsFull(batches[i - 1], batches[i][0], maxRefs, maxBytes)
  }

  /** The batches are the refs, in order: none lost, none repeated. Each is within both bounds, or a
      single ref; and each is as long as the bounds allow. */
  ghost predicate IsPartition(batches: seq<seq<string>>, refs: seq<string>, maxRefs: int, maxBytes: int) {
    Concat(batches) == refs && AllFit(batches, maxRefs, maxBytes) && AllFull(batches, maxRefs, maxBytes)
  }

  lemma FitGrows(batches: seq<seq<string>>, last: seq<string>, maxRefs: int, maxBytes: int)
    ensures AllFit(batches + [last], maxRefs, maxBytes) <==> AllFit(batches, maxRefs, maxBytes) && last != [] && Fits(last, maxRefs, maxBytes)
  {
    hide Fits;
    var grown := batches + [last];
    assert grown[|batches|] == last;
    assert forall i | 0 <= i < |batches| :: grown[i] == batches[i];
  }

  lemma FullGrows(batches: seq<seq<string>>, last: seq<string>, maxRefs: int, maxBytes: int)
    ensures AllFull(batches + [last], maxRefs, maxBytes) <==>
              AllFull(batches, maxRefs, maxBytes) && (batches != [] ==> last != [] && IsFull(batches[|batches| - 1], last[0], maxRefs, maxBytes))
  {
    hide IsFull;
    var grown := batches + [last];
    assert grown[|batches|] == last;
    assert forall i | 0 <= i < |batches| :: grown[i] == batches[i];
    if AllFull(grown, maxRefs, maxBytes) {
      forall i | 0 < i < |batches| ensures batches[i] != [] && IsFull(batches[i - 1], batches[i][0], maxRefs, maxBytes) {
        assert grown[i] == batches[i] && grown[i - 1] == batches[i - 1];
      }
    }
  }

  lemma FitsWhen(batch: seq<string>, ref: string, maxRefs: int, maxBytes: int)
    requires batch == [] || (|batch| < maxRefs && Cost(batch) + RefCost(ref) <= maxBytes)
    ensures Fits(batch + [ref], maxRefs, maxBytes)
  {
    CostGrows(batch, ref);
  }

  /** The batches cut so far with the one under construction. */
  function With(out: seq<seq<string>>, cur: seq<string>): seq<seq<string>> { if cur == [] then out else out + [cur] }

  /** Taking in the next ref keeps a partition a partition. */
  lemma NextRef(out: seq<seq<string>>, cur: seq<string>, refs: seq<string>, ref: string, maxRefs: int, maxBytes: int)
    requires IsPartition(With(out, cur), refs, maxRefs, maxBytes) && (cur == [] ==> out == [])
    ensures if cur != [] && IsFull(cur, ref, maxRefs, maxBytes) then
              IsPartition(With(out + [cur], [ref]), refs + [ref], maxRefs, maxBytes)
            else IsPartition(With(out, cur + [ref]), refs + [ref], maxRefs, maxBytes)
  {
    hide Concat, AllFit, AllFull, Fits;
    FitsWhen([], ref, maxRefs, maxBytes);
    assert [] + [ref] == [ref];
    if cur != [] && IsFull(cur, ref, maxRefs, maxBytes) {
      FitGrows(out + [cur], [ref], maxRefs, maxBytes);
      FullGrows(out + [cur], [ref], maxRefs, maxBytes);
      ConcatGrows(out + [cur], [ref]);
    } else {
      FitsWhen(cur, ref, maxRefs, maxBytes);
      FitGrows(out, cur, maxRefs, maxBytes);
      FitGrows(out, cur + [ref], maxRefs, maxBytes);
      FullGrows(out, cur, maxRefs, maxBytes);
      FullGrows(out, cur + [ref], maxRefs, maxBytes);
      ConcatGrows(out, cur);
      ConcatGrows(out, cur + [ref]);
    }
  }

  /** The batch under construction is one buffer, used again for the next after it was copied out. */
  method PartitionBatches(refs: seq<string>, maxRefs: int, maxBytes: int) returns (out: seq<seq<string>>)
    ensures IsPartition(out, refs, maxRefs, maxBytes)
  {
    hide IsPartition, Cost, With, Concat, AllFit, AllFull;
    var cur, n, size := new string[|refs|], 0, 0;
    out := [];
    CostOfNone();
    NoneIsPartition(maxRefs, maxBytes);
    for k := 0 to |refs|
      invariant n <= k && size == Cost(cur[..n]) && (n == 0 ==> out == [])
      invariant IsPartition(With(out, cur[..n]), refs[..k], maxRefs, maxBytes)
    {
      var ref := refs[k];
      var cost := RefCost(ref);
      assert refs[..k + 1] == refs[..k] + [ref];
      NextRef(out, cur[..n], refs[..k], ref, maxRefs, maxBytes);
      if n > 0 && (n >= maxRefs || size + cost > maxBytes) {
        out := out + [cur[..n]];
        n, size := 0, 0;
        assert [] + [ref] == [ref];
      }
      ghost var batch := cur[..n];
      CostGrows(batch, ref);
      cur[n] := ref;
      n, size := n + 1, size + cost;
      assert cur[..n] == batch + [ref];
    }
    assert refs[..|refs|] == refs;
    WithAll(out, cur[..n]);
    if n > 0 {
      out := out + [cur[..n]];
    }
  }

  lemma NoneIsPartition(maxRefs: int, maxBytes: int)
    ensures IsPartition(With([], []), [], maxRefs, maxBytes)
  {
  }

  lemma WithAll(out: seq<seq<string>>, cur: seq<string>)
    ensures With(out, cur) == if cur == [] then out else out + [cur]
  {
  }

  lemma CostOfNone()
    ensures Cost([]) == 0
  {
  }

  lemma {:induction false} ConcatFront(batches: seq<seq<string>>)
    requires batches != []
    ensures Concat(batches) == batches[0] + Concat(batches[1..])
  {
    hide Concat;
    if |batches| > 1 {
      var front, last := batches[..|batches| - 1], batches[|batches| - 1];
      ConcatFront(front);
      assert batches == front + [last];
      ConcatGrows(front, last);
      assert batches[1..] == front[1..] + [last];
      ConcatGrows(front[1..], last);
    } else {
      assert batches == [] + [batches[0]] && batches[1..] == [];
      ConcatGrows([], batches[0]);
      ConcatOfNone();
    }
  }

  lemma {:induction false} LongerCostsMore(batch: seq<string>, k: nat)
    requires k <= |batch|
    ensures Cost(batch[..k]) <= Cost(batch)
  {
    if k == |batch| {
      assert batch[..k] == batch;
    } else {
      LongerCostsMore(batch[..|batch| - 1], k);
      assert batch[..|batch| - 1][..k] == batch[..k];
    }
  }

  lemma FirstIsNoShorter(a: seq<seq<string>>, b: seq<seq<string>>, refs: seq<string>, maxRefs: int, maxBytes: int)
    requires IsPartition(a, refs, maxRefs, maxBytes) && IsPartition(b, refs, maxRefs, maxBytes) && a != [] && b != []
    ensures |a[0]| >= |b[0]|
  {
    hide Cost, RefCost, Concat;
    var n := |a[0]|;
    ConcatFront(a);
    ConcatFront(b);
    if n < |b[0]| {
      assert |a| > 1 by {
        if |a| == 1 {
          assert a[1..] == [];
          ConcatOfNone();
        }
      }
      ConcatFront(a[1..]);
      assert refs[..|b[0]|] == b[0] && refs[..n] == a[0];
      assert a[1][0] == refs[n] == b[0][n];
      assert b[0][..n + 1] == a[0] + [a[1][0]];
      assert IsFull(a[0], a[1][0], maxRefs, maxBytes);
      CostGrows(a[0], a[1][0]);
      LongerCostsMore(b[0], n + 1);
    }
  }

  lemma ConcatOfNone()
    ensures Concat([]) == []
  {
  }

  lemma TailIsPartition(a: seq<seq<string>>, refs: seq<string>, maxRefs: int, maxBytes: int)
    requires IsPartition(a, refs, maxRefs, maxBytes) && a != []
    ensures |a[0]| <= |refs| && a[0] == refs[..|a[0]|] && IsPartition(a[1..], refs[|a[0]|..], maxRefs, maxBytes)
  {
    hide Fits, IsFull, Concat;
    assert forall i | 0 <= i < |a[1..]| :: a[1..][i] == a[i + 1];
    ConcatFront(a);
    forall i | 0 < i < |a[1..]| ensures a[1..][i] != [] && IsFull(a[1..][i - 1], a[1..][i][0], maxRefs, maxBytes) {
      assert a[1..][i] == a[i + 1] && a[1..][i - 1] == a[i];
    }
  }

  /** What the batches must be leaves no choice: there is one way to cut the refs. */
  lemma {:induction false} OneWayToCut(a: seq<seq<string>>, b: seq<seq<string>>, refs: seq<string>, maxRefs: int, maxBytes: int)
    requires IsPartition(a, refs, maxRefs, maxBytes) && IsPartition(b, refs, maxRefs, maxBytes)
    ensures a == b
  {
    if a == [] {
      if b != [] {
        ConcatFront(b);
      }
    } else if b == [] {
      ConcatFront(a);
    } else {
      hide IsPartition;
      FirstIsNoShorter(a, b, refs, maxRefs, maxBytes);
      FirstIsNoShorter(b, a, refs, maxRefs, maxBytes);
      TailIsPartition(a, refs, maxRefs, maxBytes);
      TailIsPartition(b, refs, maxRefs, maxBytes);
      OneWayToCut(a[1..], b[1..], refs[|a[0]|..], maxRefs, maxBytes);
      assert a == [a[0]] + a[1..] && b == [b[0]] + b[1..];
    }
  }
}
