/** The counting semaphore whose capacity can change while it is in use
    (internal/gitsync/slots.go). */
module Slots {
  import opened Basics

  // ---------------------------------------------------------------- the pool as a value

  /** The waiters are listed by identity, oldest first. */
  datatype Pool = Pool(limit: int, held: int, queue: seq<nat>)

  /** How many waiters `grantLocked` serves: as many as there is room for. */
  function Room(p: Pool): nat {
    if p.held >= p.limit then 0
    else if p.limit - p.held <= |p.queue| then p.limit - p.held else |p.queue|
  }

  function Serve(p: Pool): Pool { Pool(p.limit, p.held + Room(p), p.queue[Room(p)..]) }

  /** The waiters that `Serve` grants a slot. */
  function Served(p: Pool): set<nat> { set i | 0 <= i < Room(p) :: p.queue[i] }

  function Without(queue: seq<nat>, id: nat): seq<nat> {
    if queue == [] then [] else if queue[0] == id then queue[1..] else [queue[0]] + Without(queue[1..], id)
  }

  // ---------------------------------------------------------------- every use of the pool

  /** The pool with who holds a slot and who was granted one but has not woken to it. */
  datatype Pooled = Pooled(p: Pool, holding: set<nat>, granted: set<nat>)

  datatype Op = Acquire(id: nat) | Wake(id: nat) | Abandon(id: nat) | Release(id: nat) | Resize(limit: int)

  ghost predicate LegalOp(s: Pooled, op: Op) {
    match op
    case Acquire(id) => id !in s.holding && id !in s.granted && id !in s.p.queue
    case Wake(id) => id in s.granted
    case Abandon(id) => id in s.granted || id in s.p.queue
    case Release(id) => id in s.holding
    case Resize(_) => true
  }

  /** The pool after `grantLocked`, with the waiters it served. */
  function Granting(p: Pool, holding: set<nat>, granted: set<nat>): Pooled {
    Pooled(Serve(p), holding, granted + Served(p))
  }

  function Apply(s: Pooled, op: Op): Pooled {
    var p := s.p;
    match op
    case Acquire(id) =>
      if p.queue == [] && p.held < p.limit then Pooled(p.(held := p.held + 1), s.holding + {id}, s.granted)
      else Pooled(p.(queue := p.queue + [id]), s.holding, s.granted)
    case Wake(id) => Pooled(p, s.holding + {id}, s.granted - {id})
    case Abandon(id) =>
      if id in s.granted then Granting(p.(held := p.held - 1), s.holding, s.granted - {id})
      else Pooled(p.(queue := Without(p.queue, id)), s.holding, s.granted)
    case Release(id) => Granting(p.(held := p.held - 1), s.holding - {id}, s.granted)
    case Resize(limit) => Granting(p.(limit := Max(limit, 1)), s.holding, s.granted)
  }

  /** Every slot is accounted for, and nobody waits while there is room. */
  ghost predicate Accounted(s: Pooled) {
    && s.p.limit >= 1
    && s.p.held == |s.holding| + |s.granted|
    && (s.p.queue != [] ==> s.p.held >= s.p.limit)
    && s.holding !! s.granted
    && Distinct(s.p.queue)
    && forall id <- s.p.queue :: id !in s.holding && id !in s.granted
  }

  lemma {:induction false} WithoutRemoves(queue: seq<nat>, id: nat)
    requires Distinct(queue)
    ensures Distinct(Without(queue, id)) && id !in Without(queue, id) && |Without(queue, id)| <= |queue|
    ensures forall x | x != id :: x in Without(queue, id) <==> x in queue
  {
    if queue != [] {
      assert forall i, j | 0 <= i < j < |queue[1..]| :: queue[1..][i] == queue[i + 1] && queue[1..][j] == queue[j + 1];
      WithoutRemoves(queue[1..], id);
      assert forall x :: x in queue <==> x == queue[0] || x in queue[1..];
      if queue[0] != id {
        var rest := Without(queue[1..], id);
        assert queue[0] !in rest;
        assert forall x :: x in Without(queue, id) <==> x == queue[0] || x in rest;
      }
    }
  }

  /** As many are served as the room says, and each of them was waiting. */
  lemma {:induction false} CountPrefix(queue: seq<nat>, k: nat)
    requires Distinct(queue) && k <= |queue|
    ensures |set i | 0 <= i < k :: queue[i]| == k
  {
    if k > 0 {
      CountPrefix(queue, k - 1);
      assert (set i | 0 <= i < k :: queue[i]) == (set i | 0 <= i < k - 1 :: queue[i]) + {queue[k - 1]};
    }
  }

  lemma GrantingAccounts(p: Pool, holding: set<nat>, granted: set<nat>)
    requires p.limit >= 1 && p.held == |holding| + |granted| && holding !! granted && Distinct(p.queue)
    requires forall id <- p.queue :: id !in holding && id !in granted
    ensures Accounted(Granting(p, holding, granted))
  {
    CountPrefix(p.queue, Room(p));
    assert Served(p) !! granted && Served(p) !! holding;
    assert |granted + Served(p)| == |granted| + |Served(p)|;
  }

  lemma ArrivingAccounts(s: Pooled, id: nat)
    requires Accounted(s) && LegalOp(s, Acquire(id))
    ensures Accounted(Apply(s, Acquire(id)))
  {
    if !(s.p.queue == [] && s.p.held < s.p.limit) {
      assert forall x :: x in s.p.queue + [id] <==> x in s.p.queue || x == id;
    }
  }

  lemma LeavingAccounts(s: Pooled, id: nat)
    requires Accounted(s) && id in s.p.queue && id !in s.granted
    ensures Accounted(Apply(s, Abandon(id)))
  {
    hide Without;
    WithoutRemoves(s.p.queue, id);
  }

  lemma WakingAccounts(s: Pooled, id: nat)
    requires Accounted(s) && id in s.granted
    ensures Accounted(Apply(s, Wake(id)))
  {
  }

  lemma ReleasingAccounts(s: Pooled, id: nat)
    requires Accounted(s) && id in s.holding
    ensures Accounted(Apply(s, Release(id)))
  {
    hide Room, Served, Serve, Granting;
    GrantingAccounts(s.p.(held := s.p.held - 1), s.holding - {id}, s.granted);
  }

  lemma HandingOnAccounts(s: Pooled, id: nat)
    requires Accounted(s) && id in s.granted
    ensures Accounted(Apply(s, Abandon(id)))
  {
    hide Room, Served, Serve, Granting;
    GrantingAccounts(s.p.(held := s.p.held - 1), s.holding, s.granted - {id});
  }

  lemma ResizingAccounts(s: Pooled, limit: int)
    requires Accounted(s)
    ensures Accounted(Apply(s, Resize(limit)))
  {
    hide Room, Served, Serve, Granting;
    GrantingAccounts(s.p.(limit := Max(limit, 1)), s.holding, s.granted);
  }

  /** Every operation keeps the slots accounted for. */
  lemma OpKeepsAccounts(s: Pooled, op: Op)
    requires Accounted(s) && LegalOp(s, op)
    ensures Accounted(Apply(s, op))
  {
    hide Apply, Accounted;
    match op
    case Acquire(id) => ArrivingAccounts(s, id);
    case Wake(id) => WakingAccounts(s, id);
    case Abandon(id) =>
      if id in s.granted {
        HandingOnAccounts(s, id);
      } else {
        LeavingAccounts(s, id);
      }
    case Release(id) => ReleasingAccounts(s, id);
    case Resize(limit) => ResizingAccounts(s, limit);
  }

  predicate Waiting(s: Pooled, id: nat) { id in s.granted || id in s.p.queue }

  lemma GrantingOnlyMoves(p: Pool, holding: set<nat>, granted: set<nat>)
    ensures var n := Granting(p, holding, granted);
            n.holding == holding && forall x :: Waiting(n, x) <==> x in granted || x in p.queue
  {
    var n, k := Granting(p, holding, granted), Room(p);
    forall x ensures Waiting(n, x) <==> x in granted || x in p.queue {
      if x in p.queue {
        var i :| 0 <= i < |p.queue| && p.queue[i] == x;
        assert i < k || p.queue[k..][i - k] == x;
      }
    }
  }

  /** What an operation does to the others: holders keep their slots, and whoever waits still waits,
      granted or not. The one it is about moves as asked. */
  lemma OpMovesOnlyItsOwn(s: Pooled, op: Op)
    requires Accounted(s) && LegalOp(s, op)
    ensures var n := Apply(s, op);
            && (forall x | op.Resize? || x != op.id :: (x in n.holding <==> x in s.holding) && (Waiting(n, x) <==> Waiting(s, x)))
            && (op.Acquire? ==> (op.id in n.holding <==> !Waiting(n, op.id)))
            && (op.Wake? ==> op.id in n.holding && !Waiting(n, op.id))
            && (op.Abandon? || op.Release? ==> op.id !in n.holding && !Waiting(n, op.id))
  {
    hide Room, Served, Serve, Granting, Without;
    var p := s.p;
    match op
    case Acquire(id) =>
      assert forall x :: x in p.queue + [id] <==> x in p.queue || x == id;
    case Wake(id) =>
    case Abandon(id) =>
      if id in s.granted {
        GrantingOnlyMoves(p.(held := p.held - 1), s.holding, s.granted - {id});
      } else {
        WithoutRemoves(p.queue, id);
      }
    case Release(id) => GrantingOnlyMoves(p.(held := p.held - 1), s.holding - {id}, s.granted);
    case Resize(limit) => GrantingOnlyMoves(p.(limit := Max(limit, 1)), s.holding, s.granted);
  }

  ghost predicate IsPoolRun(ss: seq<Pooled>, ops: seq<Op>) {
    && |ss| == |ops| + 1
    && (exists limit :: ss[0] == Pooled(Pool(Max(limit, 1), 0, []), {}, {}))
    && forall i {:trigger ops[i]} | 0 <= i < |ops| :: LegalOp(ss[i], ops[i]) && ss[i + 1] == Apply(ss[i], ops[i])
  }

  /** In every state: held slots are the holders and the granted waiters yet to wake, and a waiter
      exists only while the pool is full. */
  lemma {:induction false} SlotsAccountedAlways(ss: seq<Pooled>, ops: seq<Op>, i: nat)
    requires IsPoolRun(ss, ops) && i < |ss|
    ensures Accounted(ss[i])
  {
    if i > 0 {
      SlotsAccountedAlways(ss, ops, i - 1);
      OpKeepsAccounts(ss[i - 1], ops[i - 1]);
    }
  }

  /** Only a resize changes the capacity: to what it asks for, or to one. */
  lemma StepOfLimit(s: Pooled, op: Op)
    ensures Apply(s, op).p.limit == if !op.Resize? then s.p.limit else if op.limit >= 1 then op.limit else 1
  {
    hide Room, Served, Without;
  }

  /** The capacity is that of the last resize. */
  lemma {:induction false} LimitIsTheLast(ss: seq<Pooled>, ops: seq<Op>, i: nat, j: nat)
    requires IsPoolRun(ss, ops) && i < j < |ss| && ops[i].Resize? && forall k | i < k < j :: !ops[k].Resize?
    ensures ss[j].p.limit == if ops[i].limit >= 1 then ops[i].limit else 1
    decreases j
  {
    hide Apply, LegalOp;
    if i + 1 < j {
      LimitIsTheLast(ss, ops, i, j - 1);
    }
    StepOfLimit(ss[j - 1], ops[j - 1]);
  }

  predicate HasSlot(s: Pooled, id: nat) { id in s.holding || id in s.granted }

  lemma NobodyServedWithoutRoom(p: Pool)
    ensures Serve(p).limit == p.limit
    ensures Room(p) == 0 ==> Served(p) == {} && Serve(p).held == p.held
    ensures Room(p) > 0 ==> Serve(p).held <= p.limit
  {
  }

  /** Whenever an operation gives a slot to someone who had none, no more are held than the limit. */
  lemma GrantsStayWithinLimit(s: Pooled, op: Op, id: nat)
    requires LegalOp(s, op) && !HasSlot(s, id) && HasSlot(Apply(s, op), id)
    ensures Apply(s, op).p.held <= Apply(s, op).p.limit
  {
    hide Room, Serve, Served;
    NobodyServedWithoutRoom(s.p.(held := s.p.held - 1));
    if op.Resize? {
      NobodyServedWithoutRoom(s.p.(limit := Max(op.limit, 1)));
    }
  }

  /** A slot is only ever lost by its holder's release or its own waiter's abandoning: shrinking the
      pool revokes nothing. */
  lemma OnlyTheHolderLosesASlot(s: Pooled, op: Op, id: nat)
    requires LegalOp(s, op) && HasSlot(s, id) && !HasSlot(Apply(s, op), id)
    ensures op == Release(id) || op == Abandon(id)
  {
  }

  // ---------------------------------------------------------------- first come, first served

  ghost predicate Before(queue: seq<nat>, a: nat, b: nat) {
    exists i, j | 0 <= i < j < |queue| :: queue[i] == a && queue[j] == b
  }

  lemma {:induction false} WithoutKeepsOrder(queue: seq<nat>, id: nat, a: nat, b: nat)
    requires Distinct(queue) && Before(queue, a, b) && a != id && b != id
    ensures Before(Without(queue, id), a, b)
  {
    var rest := Without(queue[1..], id);
    var i, j :| 0 <= i < j < |queue| && queue[i] == a && queue[j] == b;
    assert queue[1..][j - 1] == b;
    if queue[0] == id {
      assert queue[1..][i - 1] == a;
    } else if i == 0 {
      WithoutRemoves(queue[1..], id);
      assert b in rest;
      var k :| 0 <= k < |rest| && rest[k] == b;
      assert Without(queue, id)[0] == a && Without(queue, id)[k + 1] == b;
    } else {
      assert queue[1..][i - 1] == a;
      WithoutKeepsOrder(queue[1..], id, a, b);
      var k, l :| 0 <= k < l < |rest| && rest[k] == a && rest[l] == b;
      assert Without(queue, id)[k + 1] == a && Without(queue, id)[l + 1] == b;
    }
  }

  /** One operation: of two waiters still queued the order stays, and the later one is not granted a
      slot while the earlier one keeps waiting. */
  lemma OpKeepsOrder(s: Pooled, op: Op, a: nat, b: nat)
    requires Accounted(s) && LegalOp(s, op) && Before(s.p.queue, a, b) && a in Apply(s, op).p.queue
    ensures b in Apply(s, op).p.queue ==> Before(Apply(s, op).p.queue, a, b)
    ensures b !in Apply(s, op).granted && b !in Apply(s, op).holding
  {
    hide Room, Serve, Served, Without;
    var p := s.p;
    var i, j :| 0 <= i < j < |p.queue| && p.queue[i] == a && p.queue[j] == b;
    match op
    case Acquire(id) =>
      if !(p.queue == [] && p.held < p.limit) {
        assert (p.queue + [id])[i] == a && (p.queue + [id])[j] == b;
      }
    case Wake(id) =>
    case Abandon(id) =>
      if id in s.granted {
        ServeKeepsOrder(p.(held := p.held - 1), i, j);
      } else {
        WithoutRemoves(p.queue, id);
        if b != id {
          WithoutKeepsOrder(p.queue, id, a, b);
        }
      }
    case Release(_) => ServeKeepsOrder(p.(held := p.held - 1), i, j);
    case Resize(limit) => ServeKeepsOrder(p.(limit := Max(limit, 1)), i, j);
  }

  lemma ServeKeepsOrder(p: Pool, i: nat, j: nat)
    requires Distinct(p.queue) && i < j < |p.queue| && p.queue[i] in Serve(p).queue
    ensures Before(Serve(p).queue, p.queue[i], p.queue[j]) && p.queue[j] !in Served(p)
  {
    var k := Room(p);
    var m :| 0 <= m < |p.queue[k..]| && p.queue[k..][m] == p.queue[i];
    assert p.queue[k + m] == p.queue[i];
    assert p.queue[k..][i - k] == p.queue[i] && p.queue[k..][j - k] == p.queue[j];
  }

  /** Grants follow arrival: while a waiter stays queued, none that queued behind it gets a slot. */
  lemma {:induction false} GrantsFollowArrival(ss: seq<Pooled>, ops: seq<Op>, i: nat, j: nat, a: nat, b: nat)
    requires IsPoolRun(ss, ops) && i < j < |ss| && Before(ss[i].p.queue, a, b)
    requires forall k | i <= k <= j :: a in ss[k].p.queue
    requires forall k | i <= k < j :: b in ss[k].p.queue
    ensures b !in ss[j].granted && b !in ss[j].holding
    ensures b in ss[j].p.queue ==> Before(ss[j].p.queue, a, b)
    decreases j
  {
    hide Apply, Accounted, Before, LegalOp;
    if i < j - 1 {
      GrantsFollowArrival(ss, ops, i, j - 1, a, b);
    }
    SlotsAccountedAlways(ss, ops, j - 1);
    OpKeepsOrder(ss[j - 1], ops[j - 1], a, b);
  }

  // ---------------------------------------------------------------- the pool as an object

  class SlotWaiter {
    const id: nat
    var granted: bool

    constructor (id: nat)
      ensures this.id == id && !granted
    {
      this.id := id;
      granted := false;
    }
  }

  ghost function Ids(waiters: seq<SlotWaiter>): (r: seq<nat>)
    ensures |r| == |waiters| && forall i | 0 <= i < |r| :: r[i] == waiters[i].id
  {
    seq(|waiters|, i requires 0 <= i < |waiters| => waiters[i].id)
  }

  class SlotPool {
    var limit: int
    var held: int
    var waiters: seq<SlotWaiter>

    ghost predicate Valid()
      reads this, waiters
    {
      && (forall i, j | 0 <= i < j < |waiters| :: waiters[i] != waiters[j] && waiters[i].id != waiters[j].id)
      && (forall w <- waiters :: !w.granted)
    }

    ghost function Value(): Pool
      reads this
    {
      Pool(limit, held, Ids(waiters))
    }

    constructor (limit: int)
      ensures Valid() && Value() == Pool(Max(limit, 1), 0, [])
    {
      this.limit, held, waiters := Max(limit, 1), 0, [];
    }

    /** Hands slots to the oldest waiters while there is room. */
    method GrantLocked()
      requires Valid()
      modifies this`held, this`waiters, waiters
      ensures Valid()
      ensures Value() == Serve(old(Value()))
      ensures waiters == old(waiters)[Room(old(Value()))..]
      ensures forall i | 0 <= i < |old(waiters)| :: old(waiters)[i].granted <==> i < Room(old(Value()))
    {
      ghost var k := 0;
      ghost var room := Room(Value());
      while held < limit
        invariant 0 <= k <= room
        invariant held == old(held) + k && waiters == old(waiters)[k..]
        invariant forall i | 0 <= i < |old(waiters)| :: old(waiters)[i].granted <==> i < k
        decreases |waiters|
      {
        if waiters == [] {
          break;
        }
        var w := waiters[0];
        assert w == old(waiters)[k];
        waiters := waiters[1..];
        w.granted := true;
        held := held + 1;
        k := k + 1;
      }
      assert k == room;
      assert Ids(waiters) == Ids(old(waiters))[k..];
    }

    /** The first half of `acquire`: a slot at once, or a place at the end of the queue. */
    method TryAcquire(id: nat) returns (w: SlotWaiter?)
      requires Valid() && id !in Ids(waiters)
      modifies this
      ensures Valid()
      ensures w == null <==> old(waiters) == [] && old(held) < old(limit)
      ensures w == null ==> Value() == old(Value()).(held := old(held) + 1)
      ensures w != null ==> fresh(w) && w.id == id && waiters == old(waiters) + [w] && Value() == old(Value()).(queue := old(Value()).queue + [id])
    {
      if |waiters| == 0 && held < limit {
        held := held + 1;
        return null;
      }
      w := new SlotWaiter(id);
      waiters := waiters + [w];
      assert Ids(waiters) == Ids(old(waiters)) + [id];
    }

    /** Ends a wait cut short: a slot granted meanwhile is handed on, otherwise the waiter leaves. */
    method Abandon(w: SlotWaiter)
      requires Valid() && (w.granted || w in waiters)
      modifies this`held, this`waiters, waiters
      ensures Valid()
      ensures Value() == if old(w.granted) then Serve(old(Value()).(held := old(held) - 1))
                         else old(Value()).(queue := Without(old(Value()).queue, w.id))
      ensures w !in waiters
    {
      if w.granted {
        held := held - 1;
        GrantLocked();
        return;
      }
      ghost var before := waiters;
      var i := 0;
      while waiters[i] != w
        invariant 0 <= i < |waiters| && w !in waiters[..i]
        decreases |waiters| - i
      {
        i := i + 1;
      }
      WithoutAt(Ids(waiters), i);
      waiters := waiters[..i] + waiters[i + 1..];
      assert Ids(waiters) == Ids(before)[..i] + Ids(before)[i + 1..];
    }

    static lemma {:induction false} WithoutAt(queue: seq<nat>, i: nat)
      requires Distinct(queue) && i < |queue|
      ensures Without(queue, queue[i]) == queue[..i] + queue[i + 1..]
    {
      if i > 0 {
        assert forall m, n | 0 <= m < n < |queue[1..]| :: queue[1..][m] == queue[m + 1] && queue[1..][n] == queue[n + 1];
        WithoutAt(queue[1..], i - 1);
        assert queue[1..][i - 1] == queue[i];
        assert queue[..i] + queue[i + 1..] == [queue[0]] + (queue[1..][..i - 1] + queue[1..][i..]);
      }
    }

    method Release()
      requires Valid()
      modifies this`held, this`waiters, waiters
      ensures Valid() && Value() == Serve(old(Value()).(held := old(held) - 1))
    {
      held := held - 1;
      GrantLocked();
    }

    method Resize(limit: int)
      requires Valid()
      modifies this, waiters
      ensures Valid() && Value() == Serve(old(Value()).(limit := Max(limit, 1)))
    {
      this.limit := Max(limit, 1);
      GrantLocked();
    }
  }
}
