/** The local provider configuration: snapshots indexed by host, and the generation numbers that
    stand for credentials (internal/gitsync/providers.go).

    Host keys are canonicalised by the URL library, which is not part of this model: a listed
    provider carries the key the library gave for its base URL, or none when it gave an error. */
module Providers {
  import opened Option

  datatype LocalEntry = LocalEntry(baseURL: string, auth: string, username: string, token: string)

  /** Which provider, and which generation of its credential, a repository is bound to. */
  datatype Binding = Binding(provider: string, gen: nat)

  const UNBOUND := Binding("", 0)

  datatype ProviderEntry = ProviderEntry(entry: LocalEntry, hostKey: string, gen: nat)

  /** One provider as a store lists it, with its canonical host key. */
  datatype Listed = Listed(name: string, entry: LocalEntry, hostKey: Option<string>)

  predicate SameCredential(a: LocalEntry, b: LocalEntry) {
    a.auth == b.auth && a.username == b.username && a.token == b.token
  }

  datatype ProviderSet = ProviderSet(byName: map<string, ProviderEntry>, byHost: map<string, string>) {
    /** The provider serving `hostKey`; an empty key matches nothing. */
    function Match(hostKey: string): Option<string> {
      if hostKey != "" && hostKey in byHost then Some(byHost[hostKey]) else None
    }

    /** The generation of `name`, zero for a name the set lacks. */
    function GenOf(name: string): nat { if name in byName then byName[name].gen else 0 }

    /** Whether two snapshots are the same configuration. A base URL's path is part of it. */
    predicate Equal(o: ProviderSet) {
      && |byName| == |o.byName|
      && forall name <- byName ::
           && name in o.byName
           && byName[name].hostKey == o.byName[name].hostKey
           && byName[name].entry.baseURL == o.byName[name].entry.baseURL
           && SameCredential(byName[name].entry, o.byName[name].entry)
    }

    /** Whether `b` names a provider of this set together with its current generation. */
    predicate InForce(b: Binding) {
      b.provider in byName && byName[b.provider].gen == b.gen
    }

    /** The snapshot is well formed, and its generations were all drawn from `1..gen`. */
    ghost predicate Valid(gen: nat) {
      && (forall host <- byHost :: byHost[host] in byName && byName[byHost[host]].hostKey == host)
      && (forall name <- byName :: name != "" && byName[name].hostKey in byHost && byHost[byName[name].hostKey] == name)
      && (forall name <- byName :: 1 <= byName[name].gen <= gen)
      && (forall n, m | n in byName && m in byName && byName[n].gen == byName[m].gen :: n == m)
    }
  }

  const NO_PROVIDERS := ProviderSet(map[], map[])

  /** What the loader guarantees of a store: named providers, one name each, one host each. */
  ghost predicate ValidStore(listed: seq<Listed>) {
    && (forall i | 0 <= i < |listed| :: listed[i].name != "")
    && (forall i, j | 0 <= i < j < |listed| :: listed[i].name != listed[j].name)
    && (forall i, j | 0 <= i < j < |listed| && listed[i].hostKey.Some? :: listed[i].hostKey != listed[j].hostKey)
  }

  /** Whether the listed provider keeps the generation it had in `prev`. */
  predicate KeepsGen(l: Listed, prev: ProviderSet) {
    && l.hostKey.Some?
    && l.name in prev.byName
    && prev.byName[l.name].hostKey == l.hostKey.value
    && SameCredential(prev.byName[l.name].entry, l.entry)
  }

  /** `before`, with counter `drawn`, after the listed provider `l` is added to it. */
  function AddListed(before: ProviderSet, drawn: nat, l: Listed, prev: ProviderSet): (ProviderSet, nat) {
    match l.hostKey
    case None => (before, drawn)
    case Some(host) =>
      var next := if KeepsGen(l, prev) then drawn else drawn + 1;
      var gen := if KeepsGen(l, prev) then prev.byName[l.name].gen else next;
      (ProviderSet(before.byName[l.name := ProviderEntry(l.entry, host, gen)], before.byHost[host := l.name]), next)
  }

  /** The snapshot of `listed`, visited in that order, and the generation counter afterwards. */
  function Build(listed: seq<Listed>, prev: ProviderSet, gen: nat): (r: (ProviderSet, nat)) {
    if listed == [] then (NO_PROVIDERS, gen)
    else
      var (before, drawn) := Build(listed[..|listed| - 1], prev, gen);
      AddListed(before, drawn, listed[|listed| - 1], prev)
  }

  /** Builds the snapshot of a store as the source does, in whatever order the store is listed. */
  method BuildProviderSet(listed: seq<Listed>, prev: ProviderSet, gen: nat) returns (set_: ProviderSet, drawn: nat)
    ensures (set_, drawn) == Build(listed, prev, gen)
  {
    var byName: map<string, ProviderEntry> := map[];
    var byHost: map<string, string> := map[];
    drawn := gen;
    for i := 0 to |listed|
      invariant (ProviderSet(byName, byHost), drawn) == Build(listed[..i], prev, gen)
    {
      assert listed[..i + 1][..i] == listed[..i];
      var l := listed[i];
      if l.hostKey.Some? {
        var host := l.hostKey.value;
        var g: nat;
        if l.name in prev.byName && prev.byName[l.name].hostKey == host && SameCredential(prev.byName[l.name].entry, l.entry) {
          g := prev.byName[l.name].gen;
        } else {
          drawn := drawn + 1;
          g := drawn;
        }
        byName := byName[l.name := ProviderEntry(l.entry, host, g)];
        byHost := byHost[host := l.name];
      }
    }
    assert listed[..|listed|] == listed;
    set_ := ProviderSet(byName, byHost);
  }

  /** What a swap does to a provider: it keeps its generation together with its name, host and
      credential, or it gets a number never drawn before. */
  ghost predicate Inherits(next: ProviderSet, prev: ProviderSet, gen: nat) {
    forall name <- next.byName | next.byName[name].gen <= gen ::
      && name in prev.byName
      && next.byName[name].gen == prev.byName[name].gen
      && next.byName[name].hostKey == prev.byName[name].hostKey
      && SameCredential(next.byName[name].entry, prev.byName[name].entry)
  }

  /** A snapshot holds nothing that was not listed. */
  lemma {:induction false} BuildHoldsOnlyListed(listed: seq<Listed>, prev: ProviderSet, gen: nat)
    ensures forall name <- Build(listed, prev, gen).0.byName :: exists l <- listed :: l.name == name
    ensures forall host <- Build(listed, prev, gen).0.byHost :: exists l <- listed :: l.hostKey == Some(host)
  {
    if listed != [] {
      var last := |listed| - 1;
      BuildHoldsOnlyListed(listed[..last], prev, gen);
      var (next, _) := Build(listed, prev, gen);
      var (before, _) := Build(listed[..last], prev, gen);
      forall name <- next.byName ensures exists l <- listed :: l.name == name {
        if name in before.byName {
          var l :| l in listed[..last] && l.name == name;
          assert l in listed;
        } else {
          assert listed[last] in listed;
        }
      }
      forall host <- next.byHost ensures exists l <- listed :: l.hostKey == Some(host) {
        if host in before.byHost {
          var l :| l in listed[..last] && l.hostKey == Some(host);
          assert l in listed;
        } else {
          assert listed[last] in listed;
        }
      }
    }
  }

  /** Adding one provider, with a name and a host the snapshot lacks, keeps it well formed. */
  lemma AddingKeepsValid(before: ProviderSet, drawn: nat, name: string, e: ProviderEntry, next: nat)
    requires before.Valid(drawn) && drawn <= next
    requires name != "" && name !in before.byName && e.hostKey !in before.byHost
    requires 1 <= e.gen <= next && forall n <- before.byName :: before.byName[n].gen != e.gen
    ensures ProviderSet(before.byName[name := e], before.byHost[e.hostKey := name]).Valid(next)
  {
  }

  /** The last provider listed has a name and a host that the ones before it have not. */
  lemma LastIsNew(listed: seq<Listed>, prev: ProviderSet, gen: nat)
    requires ValidStore(listed) && listed != []
    ensures var l := listed[|listed| - 1];
            var before := Build(listed[..|listed| - 1], prev, gen).0;
            l.name !in before.byName && (l.hostKey.Some? ==> l.hostKey.value !in before.byHost)
  {
    BuildHoldsOnlyListed(listed[..|listed| - 1], prev, gen);
  }

  /** A kept generation is no other provider's: it was that provider's alone in the previous set. */
  lemma KeptGenIsNew(before: ProviderSet, prev: ProviderSet, gen: nat, l: Listed)
    requires prev.Valid(gen) && Inherits(before, prev, gen) && KeepsGen(l, prev) && l.name !in before.byName
    ensures forall n <- before.byName :: before.byName[n].gen != prev.byName[l.name].gen
  {
  }

  /** Every snapshot is well formed, and a generation it shares with the previous one stands for the
      same name, host and credential. */
  lemma {:induction false} BuildIsValid(listed: seq<Listed>, prev: ProviderSet, gen: nat)
    requires ValidStore(listed) && prev.Valid(gen)
    ensures var (next, drawn) := Build(listed, prev, gen);
            gen <= drawn && next.Valid(drawn) && Inherits(next, prev, gen)
  {
    if listed != [] {
      var last := |listed| - 1;
      BuildIsValid(listed[..last], prev, gen);
      LastIsNew(listed, prev, gen);
      var before := Build(listed[..last], prev, gen);
      BuildStepIsValid(before.0, before.1, prev, gen, listed[last]);
    }
  }

  lemma BuildStepIsValid(before: ProviderSet, drawn: nat, prev: ProviderSet, gen: nat, l: Listed)
    requires prev.Valid(gen) && gen <= drawn && before.Valid(drawn) && Inherits(before, prev, gen)
    requires l.name != "" && l.name !in before.byName && (l.hostKey.Some? ==> l.hostKey.value !in before.byHost)
    ensures var (next, drawn') := AddListed(before, drawn, l, prev);
            gen <= drawn' && next.Valid(drawn') && Inherits(next, prev, gen)
  {
    if l.hostKey.Some? {
      if KeepsGen(l, prev) {
        KeptGenIsNew(before, prev, gen, l);
        AddingKeepsValid(before, drawn, l.name, ProviderEntry(l.entry, l.hostKey.value, prev.byName[l.name].gen), drawn);
      } else {
        AddingKeepsValid(before, drawn, l.name, ProviderEntry(l.entry, l.hostKey.value, drawn + 1), drawn + 1);
      }
    }
  }

  /** The names of a snapshot are the listed ones that have a host key, each with its own entry. */
  lemma {:induction false} BuildHoldsEveryListed(listed: seq<Listed>, prev: ProviderSet, gen: nat, i: nat)
    requires ValidStore(listed) && i < |listed| && listed[i].hostKey.Some?
    ensures var (next, _) := Build(listed, prev, gen);
            && listed[i].name in next.byName
            && next.byName[listed[i].name].entry == listed[i].entry
            && next.byName[listed[i].name].hostKey == listed[i].hostKey.value
  {
    if i < |listed| - 1 {
      BuildHoldsEveryListed(listed[..|listed| - 1], prev, gen, i);
    }
  }

  /** A listed provider has a generation from before if and only if the previous set had that name with
      the same host, authentication, user name and token; it then is the one it had there. */
  lemma {:induction false} GenerationKeptIff(listed: seq<Listed>, prev: ProviderSet, gen: nat, i: nat)
    requires ValidStore(listed) && prev.Valid(gen) && i < |listed| && listed[i].hostKey.Some?
    ensures var (l, next) := (listed[i], Build(listed, prev, gen).0);
            && l.name in next.byName
            && (next.byName[l.name].gen <= gen <==>
                  && l.name in prev.byName
                  && prev.byName[l.name].hostKey == l.hostKey.value
                  && prev.byName[l.name].entry.auth == l.entry.auth
                  && prev.byName[l.name].entry.username == l.entry.username
                  && prev.byName[l.name].entry.token == l.entry.token)
            && (next.byName[l.name].gen <= gen ==> next.byName[l.name].gen == prev.byName[l.name].gen)
  {
    var last := |listed| - 1;
    if i < last {
      GenerationKeptIff(listed[..last], prev, gen, i);
    } else {
      BuildIsValid(listed[..last], prev, gen);
    }
  }

  /** A swap judged equal to the configuration in force draws no generation. */
  lemma {:induction false} EqualSwapDrawsNothing(listed: seq<Listed>, prev: ProviderSet, gen: nat)
    requires ValidStore(listed) && prev.Valid(gen)
    requires Build(listed, prev, gen).0.Equal(prev)
    ensures Build(listed, prev, gen).1 == gen
  {
    var (next, _) := Build(listed, prev, gen);
    forall i | 0 <= i < |listed| && listed[i].hostKey.Some? ensures KeepsGen(listed[i], prev) {
      BuildHoldsEveryListed(listed, prev, gen, i);
    }
    AllKeptDrawsNothing(listed, prev, gen);
  }

  lemma {:induction false} AllKeptDrawsNothing(listed: seq<Listed>, prev: ProviderSet, gen: nat)
    requires forall i | 0 <= i < |listed| && listed[i].hostKey.Some? :: KeepsGen(listed[i], prev)
    ensures Build(listed, prev, gen).1 == gen
  {
    if listed != [] {
      AllKeptDrawsNothing(listed[..|listed| - 1], prev, gen);
      assert listed[|listed| - 1].hostKey.Some? ==> KeepsGen(listed[|listed| - 1], prev);
    }
  }
}
