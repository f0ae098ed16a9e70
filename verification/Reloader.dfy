/** Noticing a changed provider configuration and applying it once it has held
    (internal/gitsync/reload.go).

    A read of the files is a bundle: what it found, and a digest of the bytes it saw. A missing file
    and one that cannot be opened have the same digest (internal/gitsync/configload.go:129-136). */
module Reloader {
  import opened Option

  type Digest = nat
  type Store = nat

  datatype Kind = Usable(store: Store) | Missing | Invalid(category: string)

  datatype Bundle = Bundle(kind: Kind, digest: Digest, loose: bool)

  const ISSUE_FILE := "file"

  /** `inForce` is what was last handed to the client, an empty configuration being `None`; `applied`
      its digest; `armed` whether the settle timer runs. `lastRead` is history: the digest of the
      latest read. */
  datatype State = State(applied: Digest, pending: bool, pendingSeen: Digest, pendingLoose: bool,
                         lastBad: Option<Digest>, badFrom: Option<Digest>,
                         armed: bool, inForce: Option<Store>, lastRead: Option<Digest>)

  datatype Event = Tick(look: Bundle) | Settle(read: Bundle) | Hup(read: Bundle)

  // ---------------------------------------------------------------- the steps

  predicate IsRemembered(s: State, d: Digest) { s.lastBad == Some(d) || s.badFrom == Some(d) }

  function Await(s: State, b: Bundle): State {
    s.(pending := true, pendingSeen := b.digest, pendingLoose := b.loose, armed := true)
  }

  /** A first sighting. */
  function Sighted(s: State, b: Bundle): State {
    if b.digest == s.applied then s.(lastBad := None, badFrom := None)
    else if IsRemembered(s, b.digest) then s
    else Await(s, b)
  }

  function InForce(s: State, d: Digest, store: Option<Store>): State {
    s.(applied := d, inForce := store, lastBad := None, badFrom := None)
  }

  /** Acting on a configuration that has held. */
  function Decided(s: State, b: Bundle): State {
    match b.kind
    case Usable(store) => InForce(s, b.digest, Some(store))
    case Missing => InForce(s, b.digest, None)
    case Invalid(_) => s.(lastBad := Some(b.digest))
  }

  /** The confirming read refused what the look could not judge. */
  predicate RefusesTheLook(s: State, b: Bundle) {
    b.kind == Invalid(ISSUE_FILE) && s.pendingLoose && b.digest != s.pendingSeen
  }

  function Confirmed(s: State, b: Bundle): State {
    if b.digest == s.applied then s
    else if RefusesTheLook(s, b) then Decided(s.(badFrom := Some(s.pendingSeen)), b)
    else if b.digest != s.pendingSeen then Sighted(s, b)
    else Decided(s, b)
  }

  function Forced(s: State, b: Bundle): State {
    if b.digest == s.applied then s
    else if b.kind.Missing? then Await(s, b)
    else Decided(s, b)
  }

  function Read(s: State, b: Bundle): State { s.(lastRead := Some(b.digest)) }

  predicate Legal(s: State, e: Event) { e.Settle? ==> s.armed }

  function Next(s: State, e: Event): State {
    match e
    case Tick(b) => if s.pending then s else Read(Sighted(s, b), b)
    case Settle(b) => Read(Confirmed(s.(armed := false, pending := false), b), b)
    case Hup(b) => Read(Forced(s.(armed := false, pending := false), b), b)
  }

  // ---------------------------------------------------------------- the reloader as an object

  class ReloaderLoop {
    var applied: Digest
    var pending: bool
    var pendingSeen: Digest
    var pendingLoose: bool
    var lastBad: Digest
    var haveLastBad: bool
    var badFrom: Digest
    var haveBadFrom: bool
    var armed: bool
    var inForce: Option<Store>
    ghost var lastRead: Option<Digest>

    ghost function Value(): State
      reads this
    {
      State(applied, pending, pendingSeen, pendingLoose, if haveLastBad then Some(lastBad) else None,
            if haveBadFrom then Some(badFrom) else None, armed, inForce, lastRead)
    }

    constructor (applied: Digest, inForce: Option<Store>)
      ensures Value() == Started(applied, inForce)
    {
      this.applied, this.inForce := applied, inForce;
      pending, pendingSeen, pendingLoose := false, 0, false;
      lastBad, haveLastBad, badFrom, haveBadFrom := 0, false, 0, false;
      armed, lastRead := false, None;
    }

    method OnTick(look: Bundle)
      modifies this
      ensures Value() == Next(old(Value()), Tick(look))
    {
      if pending {
        return;
      }
      var arm := Sight(look);
      if arm {
        armed := true;
      }
      lastRead := Some(look.digest);
    }

    method OnSettle(read: Bundle)
      requires armed
      modifies this
      ensures Value() == Next(old(Value()), Settle(read))
    {
      armed := false;
      var rearm := Confirm(read);
      if rearm {
        armed := true;
      }
      lastRead := Some(read.digest);
    }

    method OnHup(read: Bundle)
      modifies this
      ensures Value() == Next(old(Value()), Hup(read))
    {
      armed := false;
      pending := false;
      var rearm := Force(read);
      if rearm {
        armed := true;
      }
      lastRead := Some(read.digest);
    }

    method Sight(b: Bundle) returns (arm: bool)
      modifies this`pending, this`pendingSeen, this`pendingLoose, this`haveLastBad, this`haveBadFrom
      ensures Value().(armed := armed || arm) == Sighted(old(Value()), b)
    {
      if b.digest == applied {
        haveLastBad, haveBadFrom := false, false;
        return false;
      }
      if haveLastBad && b.digest == lastBad {
        return false;
      }
      if haveBadFrom && b.digest == badFrom {
        return false;
      }
      pending, pendingSeen, pendingLoose := true, b.digest, b.loose;
      arm := true;
    }

    method Confirm(b: Bundle) returns (rearm: bool)
      requires !armed
      modifies this
      ensures lastRead == old(lastRead)
      ensures !armed && Value().(armed := rearm) == Confirmed(old(Value().(pending := false)), b)
    {
      pending := false;
      if b.digest == applied {
        return false;
      }
      if b.kind.Invalid? && b.kind.category == ISSUE_FILE && pendingLoose && b.digest != pendingSeen {
        badFrom, haveBadFrom := pendingSeen, true;
        Decide(b);
        return false;
      }
      if b.digest != pendingSeen {
        rearm := Sight(b);
        return;
      }
      Decide(b);
      rearm := false;
    }

    method Force(b: Bundle) returns (rearm: bool)
      requires !armed
      modifies this
      ensures lastRead == old(lastRead)
      ensures !armed && Value().(armed := rearm) == Forced(old(Value()), b)
    {
      if b.kind == Missing && b.digest != applied {
        pending, pendingSeen, pendingLoose := true, b.digest, b.loose;
        return true;
      }
      if b.digest == applied {
        return false;
      }
      Decide(b);
      rearm := false;
    }

    method Decide(b: Bundle)
      modifies this`applied, this`inForce, this`lastBad, this`haveLastBad, this`haveBadFrom
      ensures Value() == Decided(old(Value()), b)
    {
      match b.kind {
        case Usable(store) =>
          applied, haveLastBad, haveBadFrom := b.digest, false, false;
          inForce := Some(store);
        case Missing =>
          applied, haveLastBad, haveBadFrom := b.digest, false, false;
          inForce := None;
        case Invalid(_) =>
          lastBad, haveLastBad := b.digest, true;
      }
    }
  }

  function Started(applied: Digest, inForce: Option<Store>): State {
    State(applied, false, 0, false, None, None, false, inForce, None)
  }

  // ---------------------------------------------------------------- what every run keeps

  ghost predicate IsRun(ss: seq<State>, es: seq<Event>) {
    && |ss| == |es| + 1 && (exists d, store :: ss[0] == Started(d, store))
    && forall i {:trigger es[i]} | 0 <= i < |es| :: Legal(ss[i], es[i]) && ss[i + 1] == Next(ss[i], es[i])
  }

  /** The timer runs just when a change is pending, and what is pending is what the last read saw. */
  predicate Inv(s: State) {
    (s.pending <==> s.armed) && (s.pending ==> s.lastRead == Some(s.pendingSeen))
  }

  lemma StepKeepsInv(s: State, e: Event)
    requires Inv(s) && Legal(s, e)
    ensures Inv(Next(s, e))
  {
  }

  lemma {:induction false} PendingIffArmed(ss: seq<State>, es: seq<Event>, i: nat)
    requires IsRun(ss, es) && i < |ss|
    ensures Inv(ss[i])
  {
    if i > 0 {
      hide Inv, Legal, Next;
      PendingIffArmed(ss, es, i - 1);
      StepKeepsInv(ss[i - 1], es[i - 1]);
    }
  }

  /** The step hands a configuration to the client, or marks another digest as the one in force. */
  predicate Applies(s: State, e: Event) { Next(s, e).inForce != s.inForce || Next(s, e).applied != s.applied }

  function Seen(e: Event): Bundle { match e case Tick(b) => b case Settle(b) => b case Hup(b) => b }

  /** What applying `b` hands to the client: its store, or nothing for a missing file. */
  function StoreOf(b: Bundle): Option<Store>
    requires !b.kind.Invalid?
  {
    if b.kind.Usable? then Some(b.kind.store) else None
  }

  /** Whatever is applied was just read and is usable, or the file is missing; the last good one stays in
      force over any unusable content. Looking alone applies nothing. */
  lemma AppliesWhatItRead(s: State, e: Event)
    requires Applies(s, e)
    ensures !e.Tick? && !Seen(e).kind.Invalid?
    ensures Next(s, e).applied == Seen(e).digest
    ensures Next(s, e).inForce == StoreOf(Seen(e))
  {
  }

  /** Without a SIGHUP a configuration is applied only when the last two reads saw the same digest. */
  lemma AppliedOnlyAfterItHeld(ss: seq<State>, es: seq<Event>, i: nat)
    requires IsRun(ss, es) && i < |es| && Applies(ss[i], es[i]) && !es[i].Hup?
    ensures es[i].Settle? && ss[i].lastRead == Some(Seen(es[i]).digest)
  {
    PendingIffArmed(ss, es, i);
  }

  /** `lastRead` is indeed the latest read: each event sets it to the digest it read, except a tick that
      finds a settle under way and reads nothing. */
  lemma LastReadIsTheLatest(ss: seq<State>, es: seq<Event>, i: nat)
    requires IsRun(ss, es) && i < |es|
    ensures ss[i + 1].lastRead == if es[i].Tick? && ss[i].pending then ss[i].lastRead else Some(Seen(es[i]).digest)
  {
  }

  /** The empty configuration is applied only after a settle, never at once on a SIGHUP. */
  lemma EmptyOnlyAfterASettle(ss: seq<State>, es: seq<Event>, i: nat)
    requires IsRun(ss, es) && i < |es| && Applies(ss[i], es[i]) && ss[i + 1].inForce.None?
    ensures es[i].Settle? && es[i].read.kind.Missing? && ss[i].lastRead == Some(es[i].read.digest)
  {
    PendingIffArmed(ss, es, i);
  }

  // ---------------------------------------------------------------- exactly when

  /** In every run: looking applies nothing; a SIGHUP puts usable content that is not in force in force at
      once; a settle does so with usable content, or a missing file, that the read before it saw as well.
      Nothing else changes what is in force. */
  lemma AppliedIff(ss: seq<State>, es: seq<Event>, i: nat)
    requires IsRun(ss, es) && i < |es|
    ensures var (s, b) := (ss[i], Seen(es[i]));
            var applies :=
              && b.digest != s.applied
              && match es[i]
                 case Tick(_) => false
                 case Settle(_) => !b.kind.Invalid? && s.lastRead == Some(b.digest)
                 case Hup(_) => b.kind.Usable?;
            if applies then ss[i + 1].applied == b.digest && ss[i + 1].inForce == (if b.kind.Usable? then Some(b.kind.store) else None)
            else ss[i + 1].applied == s.applied && ss[i + 1].inForce == s.inForce
  {
    PendingIffArmed(ss, es, i);
  }

  /** A wait begins with content that is not in force and was not found bad before: at a look, at a settle
      that sees other content than the read before it, and at a SIGHUP that finds no file. A settle that
      refuses what the look could not judge begins none. */
  lemma AwaitsIff(ss: seq<State>, es: seq<Event>, i: nat)
    requires IsRun(ss, es) && i < |es|
    ensures var (s, n, b) := (ss[i], ss[i + 1], Seen(es[i]));
            var isNew := b.digest != s.applied && s.lastBad != Some(b.digest) && s.badFrom != Some(b.digest);
            if es[i].Tick? && s.pending then n == s
            else
              && (n.pending <==>
                    match es[i]
                    case Tick(_) => isNew
                    case Settle(_) => isNew && s.lastRead != Some(b.digest) && !(s.pendingLoose && b.kind == Invalid("file"))
                    case Hup(_) => b.digest != s.applied && b.kind == Missing)
              && (n.pending ==> n.pendingSeen == b.digest && n.pendingLoose == b.loose && n.armed)
              && (!n.pending ==> !n.armed)
  {
    PendingIffArmed(ss, es, i);
  }

  /** Unusable content is remembered when a settle or a SIGHUP decides on it, together with what the look
      before it had seen if that could not be judged. Applying anything, and a look that finds what is in
      force, forget both. */
  lemma RememberedIs(ss: seq<State>, es: seq<Event>, i: nat)
    requires IsRun(ss, es) && i < |es| && !(es[i].Tick? && ss[i].pending)
    ensures var (s, n, b) := (ss[i], ss[i + 1], Seen(es[i]));
            var refused := es[i].Settle? && b.digest != s.applied && s.lastRead != Some(b.digest) && s.pendingLoose && b.kind == Invalid("file");
            var held := b.digest != s.applied && (es[i].Hup? || refused || (es[i].Settle? && s.lastRead == Some(b.digest)));
            var forgotten := n.applied != s.applied || (es[i].Tick? && b.digest == s.applied);
            && n.lastBad == (if forgotten then None else if held && b.kind.Invalid? then Some(b.digest) else s.lastBad)
            && n.badFrom == (if forgotten then None else if refused then s.lastRead else s.badFrom)
  {
    PendingIffArmed(ss, es, i);
  }

  // ---------------------------------------------------------------- convergence

  /** Every read from `i` to `j` shows `b`, and nobody sends SIGHUP. */
  ghost predicate ReadsOnly(es: seq<Event>, b: Bundle, i: nat, j: nat)
    requires i <= j <= |es|
  {
    forall k | i <= k < j :: es[k] == Tick(b) || es[k] == Settle(b)
  }

  /** How many more reads until `b` is in force. */
  function Owes(s: State, b: Bundle): nat {
    if s.applied == b.digest then 0 else if s.pending && s.pendingSeen == b.digest then 1 else 2
  }

  /** A content that will be taken up: in force, awaiting its second sighting, or not remembered as bad. */
  predicate WillTakeUp(s: State, d: Digest) {
    s.applied == d || (s.pending && s.pendingSeen == d) || !IsRemembered(s, d)
  }

  /** A read happens: at a settle, and at a tick unless a settle is under way. */
  predicate ReadsAt(s: State, e: Event) { e.Settle? || (e.Tick? && !s.pending) }

  function ReadsBetween(ss: seq<State>, es: seq<Event>, i: nat, j: nat): nat
    requires i <= j <= |es| < |ss|
  {
    if i == j then 0 else ReadsBetween(ss, es, i, j - 1) + if ReadsAt(ss[j - 1], es[j - 1]) then 1 else 0
  }

  lemma StepTowards(s: State, e: Event, b: Bundle)
    requires Inv(s) && Legal(s, e) && (e == Tick(b) || e == Settle(b)) && !b.kind.Invalid? && WillTakeUp(s, b.digest)
    ensures WillTakeUp(Next(s, e), b.digest)
    ensures Owes(Next(s, e), b) <= if ReadsAt(s, e) && Owes(s, b) > 0 then Owes(s, b) - 1 else Owes(s, b)
  {
  }

  lemma {:induction false} OwesLess(ss: seq<State>, es: seq<Event>, b: Bundle, i: nat, j: nat)
    requires IsRun(ss, es) && i <= j <= |es| && ReadsOnly(es, b, i, j) && !b.kind.Invalid? && WillTakeUp(ss[i], b.digest)
    ensures WillTakeUp(ss[j], b.digest)
    ensures Owes(ss[j], b) == 0 || Owes(ss[j], b) + ReadsBetween(ss, es, i, j) <= Owes(ss[i], b)
    decreases j
  {
    if i < j {
      hide Inv, Legal, Next, WillTakeUp, Owes;
      OwesLess(ss, es, b, i, j - 1);
      PendingIffArmed(ss, es, j - 1);
      StepTowards(ss[j - 1], es[j - 1], b);
    }
  }

  lemma StaysOut(s: State, e: Event, b: Bundle)
    requires Legal(s, e) && Inv(s) && (e == Tick(b) || e == Settle(b)) && !b.kind.Invalid? && !WillTakeUp(s, b.digest)
    ensures !WillTakeUp(Next(s, e), b.digest)
  {
  }

  lemma {:induction false} StaysOutForGood(ss: seq<State>, es: seq<Event>, b: Bundle, i: nat, j: nat)
    requires IsRun(ss, es) && i <= j <= |es| && ReadsOnly(es, b, i, j) && !b.kind.Invalid? && !WillTakeUp(ss[i], b.digest)
    ensures !WillTakeUp(ss[j], b.digest)
    decreases j
  {
    if i < j {
      hide Inv, Legal, Next, WillTakeUp;
      StaysOutForGood(ss, es, b, i, j - 1);
      PendingIffArmed(ss, es, j - 1);
      StaysOut(ss[j - 1], es[j - 1], b);
    }
  }

  /** If the content came into force since the start, it is its store that is in force. */
  predicate HandedOver(start: State, now: State, b: Bundle)
    requires !b.kind.Invalid?
  {
    now.applied == b.digest && start.applied != b.digest ==> now.inForce == StoreOf(b)
  }

  lemma StepHandsOver(start: State, s: State, e: Event, b: Bundle)
    requires (e == Tick(b) || e == Settle(b)) && Legal(s, e) && !b.kind.Invalid? && HandedOver(start, s, b)
    ensures HandedOver(start, Next(s, e), b)
  {
  }

  lemma {:induction false} HandsOver(ss: seq<State>, es: seq<Event>, b: Bundle, i: nat, j: nat)
    requires IsRun(ss, es) && i <= j <= |es| && ReadsOnly(es, b, i, j) && !b.kind.Invalid?
    ensures HandedOver(ss[i], ss[j], b)
    decreases j
  {
    if i < j {
      hide Legal, Next, HandedOver;
      HandsOver(ss, es, b, i, j - 1);
      StepHandsOver(ss[i], ss[j - 1], es[j - 1], b);
    }
  }

  /** A usable content, or a missing file, that every read shows is in force after two reads (one tick
      and at most two settles) if and only if it was not remembered as bad: if it was, no number of
      reads takes it up. */
  lemma ConvergesIff(ss: seq<State>, es: seq<Event>, b: Bundle, i: nat, j: nat)
    requires IsRun(ss, es) && i <= j <= |es| && ReadsOnly(es, b, i, j) && !b.kind.Invalid?
    requires ReadsBetween(ss, es, i, j) >= 2
    ensures ss[j].applied == b.digest <==> WillTakeUp(ss[i], b.digest)
    ensures ss[j].applied == b.digest && ss[i].applied != b.digest ==> ss[j].inForce == StoreOf(b)
  {
    hide Legal, Next;
    HandsOver(ss, es, b, i, j);
    if WillTakeUp(ss[i], b.digest) {
      OwesLess(ss, es, b, i, j);
    } else {
      StaysOutForGood(ss, es, b, i, j);
    }
  }

  function Unopenable(d: Digest): Bundle { Bundle(Invalid(ISSUE_FILE), d, false) }

  function Deleted(d: Digest): Bundle { Bundle(Missing, d, false) }

  /** The condition can fail: a file that could not be opened and is then deleted has the same digest, is
      remembered as bad, and the empty configuration is never applied, however often it is read. */
  lemma DeletedAfterUnopenable(d: Digest, store: Option<Store>)
    requires d != 0
    ensures var s0 := Started(0, store);
            var s2 := Next(Next(s0, Tick(Unopenable(d))), Settle(Unopenable(d)));
            && s2.inForce == store && !s2.pending && !WillTakeUp(s2, d)
            && Next(s2, Tick(Deleted(d))) == s2.(lastRead := Some(d))
  {
  }

  /** A usable file whose mode the look could not judge takes one settle more: the confirming read
      tightens it and sees another digest. */
  lemma LooseFileIsTakenUp(s: State, look: Bundle, b: Bundle)
    requires Inv(s) && !s.pending && b.kind.Usable? && look.digest != b.digest
    requires look.digest != s.applied && b.digest != s.applied && !IsRemembered(s, look.digest) && !IsRemembered(s, b.digest)
    ensures var n := Next(Next(Next(s, Tick(look)), Settle(b)), Settle(b));
            n.applied == b.digest && n.inForce == Some(b.kind.store) && !n.pending
  {
  }

  /** One that cannot be tightened is refused once, and looking at it again starts nothing. */
  lemma RefusedLookIsNotRepeated(s: State, look: Bundle, b: Bundle)
    requires Inv(s) && !s.pending && look.loose && b.kind == Invalid(ISSUE_FILE)
    requires look.digest != b.digest && look.digest != s.applied && b.digest != s.applied && !IsRemembered(s, look.digest)
    ensures var n := Next(Next(s, Tick(look)), Settle(b));
            && !n.pending && n.inForce == s.inForce && n.applied == s.applied
            && Next(n, Tick(look)).(lastRead := None) == n.(lastRead := None)
  {
  }
}
