/** The gate of each refused credential, and the one-shot passes through it
    (internal/gitsync/providergate.go). Times are nanoseconds. */
module ProviderGates {
  import opened Basics
  import opened Option
  import opened Providers

  const MANUAL_PASS_GAP: int := MINUTE

  // ---------------------------------------------------------------- the gates as a value

  datatype Gate = Gate(armedAt: Time, until: Time)

  datatype GateState = NoGate | Closed | HalfOpen

  datatype Gates = Gates(gates: map<Binding, Gate>, passes: map<string, Binding>, manual: map<string, Time>) {
    function StateOf(b: Binding, now: Time): GateState {
      if b !in gates then NoGate else if now < gates[b].until then Closed else HalfOpen
    }

    predicate HasPass(repo: string, b: Binding) { repo in passes && passes[repo] == b }
  }

  const NO_GATES := Gates(map[], map[], map[])

  function Armed(g: Gates, b: Binding, now: Time, tier: int): Gates {
    if b.provider == "" then g else g.(gates := g.gates[b := Gate(now, now + tier)])
  }

  predicate Clears(g: Gates, b: Binding, startedAt: Time) { b in g.gates && startedAt > g.gates[b].armedAt }

  function WithoutPasses(passes: map<string, Binding>, b: Binding): map<string, Binding> {
    map r | r in passes && passes[r] != b :: passes[r]
  }

  function AfterSuccess(g: Gates, b: Binding, startedAt: Time): Gates {
    if Clears(g, b, startedAt) then g.(gates := g.gates - {b}, passes := WithoutPasses(g.passes, b)) else g
  }

  /** What beginning a probe would need to be taken back. */
  datatype Undo = Nothing | TakeBack(b: Binding, repo: string, movedTo: Time, movedFrom: Time, had: Option<Binding>)

  function BeginProbe(g: Gates, b: Binding, repo: string, now: Time, window: int): (Gates, Undo) {
    if b !in g.gates then (g, Nothing)
    else
      (g.(gates := g.gates[b := g.gates[b].(until := now + window)], passes := g.passes[repo := b]),
       TakeBack(b, repo, now + window, g.gates[b].until, if repo in g.passes then Some(g.passes[repo]) else None))
  }

  function TakenBack(g: Gates, u: Undo): Gates {
    if u.Nothing? then g
    else
      var gates := if u.b in g.gates && g.gates[u.b].until == u.movedTo then g.gates[u.b := g.gates[u.b].(until := u.movedFrom)]
                   else g.gates;
      g.(gates := gates, passes := if u.had.Some? then g.passes[u.repo := u.had.value] else g.passes - {u.repo})
  }

  predicate RecentlyLetThrough(g: Gates, repo: string, now: Time) {
    repo in g.manual && now - g.manual[repo] < MANUAL_PASS_GAP
  }

  predicate AdmitsManual(g: Gates, b: Binding, repo: string, now: Time) {
    b !in g.gates || !RecentlyLetThrough(g, repo, now)
  }

  function AfterManual(g: Gates, b: Binding, repo: string, now: Time): Gates {
    if b in g.gates && AdmitsManual(g, b, repo, now) then
      g.(manual := g.manual[repo := now], passes := g.passes[repo := b])
    else g
  }

  predicate MayClaim(g: Gates, b: Binding, repo: string) { b !in g.gates || g.HasPass(repo, b) }

  function AfterClaim(g: Gates, b: Binding, repo: string, now: Time, window: int): Gates {
    if b !in g.gates || !g.HasPass(repo, b) then g
    else
      var gate := g.gates[b];
      g.(passes := g.passes - {repo},
         gates := g.gates[b := gate.(until := if now < gate.until then gate.until else now + window)])
  }

  function Dropped(g: Gates, repo: string): Gates { g.(passes := g.passes - {repo}) }

  function Retained(g: Gates, inUse: set<Binding>, repos: set<string>): Gates {
    var gates := map b | b in g.gates && b in inUse :: g.gates[b];
    Gates(gates,
          map r | r in g.passes && g.passes[r] in gates && r in repos :: g.passes[r],
          map r | r in g.manual && r in repos :: g.manual[r])
  }

  /** Beginning a probe and taking it back at once leaves no trace. */
  lemma TakingBackAtOnceRestores(g: Gates, b: Binding, repo: string, now: Time, window: int)
    ensures var (n, u) := BeginProbe(g, b, repo, now, window); TakenBack(n, u) == g
  {
    if b in g.gates {
      var (n, u) := BeginProbe(g, b, repo, now, window);
      assert n.gates[b := n.gates[b].(until := u.movedFrom)] == g.gates;
      if repo !in g.passes {
        assert n.passes - {repo} == g.passes;
      }
    }
  }

  // ---------------------------------------------------------------- the gates as an object

  class ProviderGates {
    var gates: map<Binding, Gate>
    var passes: map<string, Binding>
    var manual: map<string, Time>

    function Value(): Gates
      reads this
    {
      Gates(gates, passes, manual)
    }

    constructor ()
      ensures Value() == NO_GATES
    {
      gates, passes, manual := map[], map[], map[];
    }

    method State(b: Binding, now: Time) returns (s: GateState)
      ensures s == Value().StateOf(b, now)
      ensures (s == NoGate <==> b !in gates) && (s == Closed <==> b in gates && now < gates[b].until)
    {
      if b !in gates {
        return NoGate;
      }
      s := if now < gates[b].until then Closed else HalfOpen;
    }

    method Arm(b: Binding, now: Time, tier: int) returns (existed: bool)
      modifies this`gates
      ensures Value() == Armed(old(Value()), b, now, tier)
      ensures existed == (b.provider != "" && b in old(gates))
    {
      if b.provider == "" {
        return false;
      }
      existed := b in gates;
      gates := gates[b := Gate(now, now + tier)];
    }

    method Succeeded(b: Binding, startedAt: Time) returns (cleared: bool)
      modifies this`gates, this`passes
      ensures Value() == AfterSuccess(old(Value()), b, startedAt)
      ensures cleared == Clears(old(Value()), b, startedAt)
    {
      if b !in gates || !(startedAt > gates[b].armedAt) {
        return false;
      }
      gates := gates - {b};
      DropPassesLocked(b);
      cleared := true;
    }

    method DropPassesLocked(b: Binding)
      modifies this`passes
      ensures passes == WithoutPasses(old(passes), b)
    {
      var left := passes.Keys;
      while left != {}
        invariant left <= old(passes).Keys
        invariant passes == map r | r in old(passes) && (r in left || old(passes)[r] != b) :: old(passes)[r]
        decreases left
      {
        var repo :| repo in left;
        if passes[repo] == b {
          passes := passes - {repo};
        }
        left := left - {repo};
      }
    }

    method Begin(b: Binding, repo: string, now: Time, window: int) returns (undo: Undo)
      modifies this`gates, this`passes
      ensures (Value(), undo) == BeginProbe(old(Value()), b, repo, now, window)
    {
      if b !in gates {
        return Nothing;
      }
      undo := TakeBack(b, repo, now + window, gates[b].until, if repo in passes then Some(passes[repo]) else None);
      gates := gates[b := gates[b].(until := now + window)];
      passes := passes[repo := b];
    }

    method TakeBackProbe(u: Undo)
      modifies this`gates, this`passes
      ensures Value() == TakenBack(old(Value()), u)
    {
      if u.Nothing? {
        return;
      }
      if u.b in gates && gates[u.b].until == u.movedTo {
        gates := gates[u.b := gates[u.b].(until := u.movedFrom)];
      }
      if u.had.Some? {
        passes := passes[u.repo := u.had.value];
      } else {
        passes := passes - {u.repo};
      }
    }

    method AdmitManual(b: Binding, repo: string, now: Time) returns (admitted: bool)
      modifies this`manual, this`passes
      ensures Value() == AfterManual(old(Value()), b, repo, now)
      ensures admitted == AdmitsManual(old(Value()), b, repo, now)
      ensures admitted <==> b !in old(gates) || (repo in old(manual) ==> now - old(manual)[repo] >= 60 * SECOND)
    {
      if b !in gates {
        return true;
      }
      if repo in manual && now - manual[repo] < MANUAL_PASS_GAP {
        return false;
      }
      manual := manual[repo := now];
      passes := passes[repo := b];
      admitted := true;
    }

    method Claim(b: Binding, repo: string, now: Time, window: int) returns (may: bool)
      modifies this`gates, this`passes
      ensures Value() == AfterClaim(old(Value()), b, repo, now, window)
      ensures may == MayClaim(old(Value()), b, repo)
    {
      if b !in gates {
        return true;
      }
      if repo !in passes || passes[repo] != b {
        return false;
      }
      passes := passes - {repo};
      if !(now < gates[b].until) {
        gates := gates[b := gates[b].(until := now + window)];
      } else {
        assert gates == gates[b := gates[b]];
      }
      may := true;
    }

    method DropPass(repo: string)
      modifies this`passes
      ensures Value() == Dropped(old(Value()), repo)
    {
      passes := passes - {repo};
    }

    /** One loop for each of the three maps. */
    method Retain(inUse: set<Binding>, repos: set<string>)
      modifies this
      ensures Value() == Retained(old(Value()), inUse, repos)
    {
      RetainGates(inUse);
      RetainPasses(repos);
      var names := manual.Keys;
      while names != {}
        invariant names <= old(manual).Keys && gates == Retained(old(Value()), inUse, repos).gates
        invariant passes == Retained(old(Value()), inUse, repos).passes
        invariant manual == map r | r in old(manual) && (r in names || r in repos) :: old(manual)[r]
        decreases names
      {
        var repo :| repo in names;
        if repo !in repos {
          manual := manual - {repo};
        }
        names := names - {repo};
      }
    }

    method RetainGates(inUse: set<Binding>)
      modifies this`gates
      ensures gates == map b | b in old(gates) && b in inUse :: old(gates)[b]
    {
      var left := gates.Keys;
      while left != {}
        invariant left <= old(gates).Keys
        invariant gates == map b | b in old(gates) && (b in left || b in inUse) :: old(gates)[b]
        decreases left
      {
        var b :| b in left;
        if b !in inUse {
          gates := gates - {b};
        }
        left := left - {b};
      }
    }

    method RetainPasses(repos: set<string>)
      modifies this`passes
      ensures passes == map r | r in old(passes) && old(passes)[r] in gates && r in repos :: old(passes)[r]
    {
      var names := passes.Keys;
      while names != {}
        invariant names <= old(passes).Keys
        invariant passes == map r | r in old(passes) && (r in names || (old(passes)[r] in gates && r in repos)) :: old(passes)[r]
        decreases names
      {
        var repo :| repo in names;
        if passes[repo] !in gates || repo !in repos {
          passes := passes - {repo};
        }
        names := names - {repo};
      }
    }
  }
}
