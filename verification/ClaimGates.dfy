/** Claims together with the gates they ask: the client and the gates as one machine
    (internal/gitsync/attempts.go with providergate.go).

    A claim asks the gate of the repository's binding inside the client's lock, and only when nothing
    else refuses; the gate then answers, and takes the pass, in a step of its own lock. Every other step
    of the client and of the gates comes between claims in any order. */
module ClaimGates {
  import opened Basics
  import opened Option
  import opened Providers
  import opened ClientState
  import ProviderGates
  import ClientRuns
  import GateRuns

  datatype Joint = Joint(c: ClientRuns.World, g: GateRuns.State)

  datatype Event =
    | Claim(id: string, pinned: bool, at: Time, window: int)
    | OfClient(ce: ClientRuns.Event)
    | OfGates(ge: GateRuns.Event)

  /** Nothing but the gate could refuse the claim. */
  predicate Asks(s: State, id: string, pinned: bool) {
    && id in s.repos && s.repos[id].matched && s.repos[id].replicaURL != "" && pinned
    && s.repos[id].provider in s.providers.byName
    && s.providers.byName[s.repos[id].provider].gen == s.repos[id].bind.gen
    && id !in s.attempts
  }

  function Next(j: Joint, e: Event): Joint {
    match e
    case Claim(id, pinned, at, window) =>
      if Asks(j.c.s, id, pinned) then
        var b := j.c.s.repos[id].bind;
        Joint(ClientRuns.Step(j.c, ClientRuns.Claim(id, pinned, ProviderGates.MayClaim(j.g.g, b, id))),
              GateRuns.Next(j.g, GateRuns.Claim(b, id, at, window)))
      else
        // The gate is not asked, so its answer does not matter.
        j.(c := ClientRuns.Step(j.c, ClientRuns.Claim(id, pinned, true)))
    case OfClient(ce) => j.(c := ClientRuns.Step(j.c, ce))
    case OfGates(ge) => j.(g := GateRuns.Next(j.g, ge))
  }

  ghost predicate Legal(j: Joint, e: Event) {
    match e
    case Claim(_, _, _, _) => true
    case OfClient(ce) => !ce.Claim? && ClientRuns.Legal(j.c, ce)
    case OfGates(ge) => !ge.Claim? && GateRuns.Legal(j.g, ge)
  }

  ghost predicate IsJointRun(js: seq<Joint>, es: seq<Event>) {
    && |js| == |es| + 1 && ClientRuns.Initial(js[0].c) && js[0].g == GateRuns.START
    && forall i {:trigger es[i]} | 0 <= i < |es| :: Legal(js[i], es[i]) && js[i + 1] == Next(js[i], es[i])
  }

  lemma {:induction false} ClientInvAlways(js: seq<Joint>, es: seq<Event>, i: nat)
    requires IsJointRun(js, es) && i < |js|
    ensures ClientRuns.Inv(js[i].c)
  {
    hide ClientRuns.Inv, ClientRuns.Initial, ClientRuns.Step, ClientRuns.Legal, GateRuns.Next, GateRuns.Legal;
    if i == 0 {
      ClientRuns.InitialHasInv(js[0].c);
    } else {
      ClientInvAlways(js, es, i - 1);
      var (c, e) := (js[i - 1].c, es[i - 1]);
      assert Legal(js[i - 1], e) && js[i] == Next(js[i - 1], e);
      match e
      case Claim(id, pinned, _, _) =>
        var admitted := !Asks(c.s, id, pinned) || ProviderGates.MayClaim(js[i - 1].g.g, c.s.repos[id].bind, id);
        ClaimIsLegal(c, id, pinned, admitted);
        ClientRuns.StepKeepsInv(c, ClientRuns.Claim(id, pinned, admitted));
      case OfClient(ce) => ClientRuns.StepKeepsInv(c, ce);
      case OfGates(_) =>
    }
  }

  lemma ClaimIsLegal(c: ClientRuns.World, id: string, pinned: bool, admitted: bool)
    ensures ClientRuns.Legal(c, ClientRuns.Claim(id, pinned, admitted))
  {
  }

  // ---------------------------------------------------------------- when a claim is granted

  /** The step hands out a task: it draws a number and registers the repository's attempt with it. */
  predicate Registers(j: Joint, e: Event) {
    e.Claim? && e.id !in j.c.s.attempts && e.id in Next(j, e).c.s.attempts
  }

  /** In every run a claim is granted if and only if its repository is configured, has a replica, has its
      origin's host among the providers in force, is pinned and not running, and the gate of its
      credential, if there is one, finds its pass. */
  lemma GrantedIff(js: seq<Joint>, es: seq<Event>, i: nat)
    requires IsJointRun(js, es) && i < |es| && es[i].Claim?
    ensures var (s, g, id) := (js[i].c.s, js[i].g.g, es[i].id);
            Registers(js[i], es[i]) <==>
              && id in s.repos && s.repos[id].replicaURL != "" && es[i].pinned && id !in s.attempts
              && s.repos[id].originHostKey != ""
              && (exists name <- s.providers.byName :: s.providers.byName[name].hostKey == s.repos[id].originHostKey)
              && (s.repos[id].bind !in g.gates || (id in g.passes && g.passes[id] == s.repos[id].bind))
  {
    ClientInvAlways(js, es, i);
    var s := js[i].c.s;
    if es[i].id in s.repos {
      assert ClientRuns.Bound(s.repos[es[i].id], s.providers);
    }
  }

  /** What a granted claim hands out is the repository's and its provider's, field by field, and the new
      attempt is the only change of the registry. */
  lemma GrantedTask(js: seq<Joint>, es: seq<Event>, i: nat)
    requires IsJointRun(js, es) && i < |es| && Registers(js[i], es[i])
    ensures var (s, s', id) := (js[i].c.s, js[i + 1].c.s, es[i].id);
            && id in s.repos && s.repos[id].bind.provider in s.providers.byName
            && s'.attemptSeq == s.attemptSeq + 1 && s'.attemptSeq in js[i + 1].c.claimed
            && var (r, t) := (s.repos[id], js[i + 1].c.claimed[s'.attemptSeq]);
               && t.repoID == id && t.attemptSeq == s'.attemptSeq && t.bind == r.bind
               && t.origin == s.providers.byName[r.bind.provider].entry
               && s.providers.byName[r.bind.provider].gen == r.bind.gen
               && s.providers.byName[r.bind.provider].hostKey == r.originHostKey
               && t.canonicalURL == r.originURL && t.replicaURL == r.replicaURL
               && t.pushToken == r.pushToken && t.tokenExpiresAt == r.expiresAt
               && s'.attempts == s.attempts[id := Attempt(t.attemptSeq, t.bind, false, false)]
  {
    ClientInvAlways(js, es, i);
    var s := js[i].c.s;
    assert ClientRuns.Bound(s.repos[es[i].id], s.providers);
  }

  /** A claim that is refused leaves registry, tasks and gates as they were, so it uses up no pass; one
      that is granted uses up its repository's pass if its credential has a gate. */
  lemma PassIsUsedUpIffGranted(js: seq<Joint>, es: seq<Event>, i: nat)
    requires IsJointRun(js, es) && i < |es| && es[i].Claim?
    ensures !Registers(js[i], es[i]) ==>
              && js[i + 1].c.s == js[i].c.s.(attemptSeq := js[i + 1].c.s.attemptSeq)
              && js[i + 1].c.claimed == js[i].c.claimed && js[i + 1].g == js[i].g
    ensures Registers(js[i], es[i]) ==>
              && es[i].id in js[i].c.s.repos
              && var (b, id) := (js[i].c.s.repos[es[i].id].bind, es[i].id);
                 if b in js[i].g.g.gates
                 then id in js[i].g.g.passes && js[i].g.g.passes[id] == b && js[i + 1].g.g.passes == js[i].g.g.passes - {id}
                 else js[i + 1].g == js[i].g
  {
  }

  // ---------------------------------------------------------------- over a whole run

  /** The step registers an attempt of `id` with the binding `b` while that credential has a gate. */
  predicate RegistersThrough(j: Joint, e: Event, id: string, b: Binding) {
    Registers(j, e) && e.id == id && id in j.c.s.repos && j.c.s.repos[id].bind == b && b in j.g.g.gates
  }

  function Registered(js: seq<Joint>, es: seq<Event>, n: nat, id: string, b: Binding): nat
    requires n <= |es| < |js|
  {
    if n == 0 then 0
    else Registered(js, es, n - 1, id, b) + if RegistersThrough(js[n - 1], es[n - 1], id, b) then 1 else 0
  }

  /** The step is a probe begun, or an immediate request let through, for `id` at the gate of `b`. */
  predicate GrantsPass(j: Joint, e: Event, id: string, b: Binding) {
    && e.OfGates? && b in j.g.g.gates
    && (e.ge.Begin? || (e.ge.Manual? && (id in j.g.g.manual ==> e.ge.at - j.g.g.manual[id] >= ProviderGates.MANUAL_PASS_GAP)))
    && e.ge.repo == id && e.ge.b == b
  }

  function PassesGranted(js: seq<Joint>, es: seq<Event>, n: nat, id: string, b: Binding): nat
    requires n <= |es| < |js|
  {
    if n == 0 then 0
    else PassesGranted(js, es, n - 1, id, b) + if GrantsPass(js[n - 1], es[n - 1], id, b) then 1 else 0
  }

  lemma StepUsesUpPasses(j: Joint, e: Event, id: string, b: Binding)
    requires Legal(j, e)
    ensures GateRuns.Usable(Next(j, e).g, id, b) + (if RegistersThrough(j, e, id, b) then 1 else 0)
              <= GateRuns.Usable(j.g, id, b) + if GrantsPass(j, e, id, b) then 1 else 0
  {
    hide ClientRuns.Legal, GateRuns.Usable;
    match e
    case Claim(cid, pinned, at, window) =>
      if Asks(j.c.s, cid, pinned) {
        hide GateRuns.Next;
        var ge := GateRuns.Claim(j.c.s.repos[cid].bind, cid, at, window);
        GateRuns.StepUsesGrants(j.g, ge, id, b);
      }
    case OfClient(_) =>
    case OfGates(ge) =>
      hide ClientRuns.Step, GateRuns.Next, GateRuns.Legal;
      GateRuns.StepUsesGrants(j.g, ge, id, b);
  }

  /** Over every run, however claims, swaps, polls, requests and refusals interleave: the attempts a
      repository starts with a credential while that credential has a gate are at most the passes it was
      granted through that gate. */
  lemma {:induction false} AttemptsNeverExceedPasses(js: seq<Joint>, es: seq<Event>, n: nat, id: string, b: Binding)
    requires IsJointRun(js, es) && n <= |es|
    ensures Registered(js, es, n, id, b) + GateRuns.Usable(js[n].g, id, b) <= PassesGranted(js, es, n, id, b)
  {
    if n > 0 {
      hide GateRuns.Usable, Legal, Next, RegistersThrough, GrantsPass;
      AttemptsNeverExceedPasses(js, es, n - 1, id, b);
      StepUsesUpPasses(js[n - 1], es[n - 1], id, b);
    }
  }
}
