/** What a provider file put in force means for the credentials, in the fields of its entries: which
    set follows from it, when anything changed, and which attempts are stopped
    (internal/gitsync/providerswap.go, providers.go). */
module ClientSwaps {
  import opened Basics
  import opened Option
  import opened Providers
  import opened ClientState
  import opened ClientRuns

  // ---------------------------------------------------------------- the set that is built

  /** A snapshot has exactly the names of the listed providers that have a host. */
  lemma {:induction false} BuildHasTheNames(listed: seq<Listed>, prev: ProviderSet, gen: nat, name: string)
    ensures name in Build(listed, prev, gen).0.byName <==> exists l <- listed :: l.name == name && l.hostKey.Some?
  {
    if listed != [] {
      var last := |listed| - 1;
      BuildHasTheNames(listed[..last], prev, gen, name);
      if l :| l in listed && l.name == name && l.hostKey.Some? {
        assert l in listed[..last] || l == listed[last];
      }
      if l :| l in listed[..last] && l.name == name && l.hostKey.Some? {
        assert l in listed;
      }
      assert listed[last] in listed;
    }
  }

  /** The file lists exactly the providers of the set, each unchanged. */
  ghost predicate ListsTheSame(listed: seq<Listed>, set_: ProviderSet) {
    && (forall name <- set_.byName :: exists l <- listed :: l.name == name && l.hostKey.Some?)
    && (forall l <- listed | l.hostKey.Some? ::
          && l.name in set_.byName
          && set_.byName[l.name].hostKey == l.hostKey.value
          && set_.byName[l.name].entry == l.entry)
  }

  lemma BuildListsTheSame(listed: seq<Listed>, prev: ProviderSet, gen: nat)
    requires ValidStore(listed)
    ensures ListsTheSame(listed, Build(listed, prev, gen).0)
  {
    hide Build;
    var next := Build(listed, prev, gen).0;
    forall name <- next.byName ensures exists l <- listed :: l.name == name && l.hostKey.Some? {
      BuildHasTheNames(listed, prev, gen, name);
    }
    forall i | 0 <= i < |listed| && listed[i].hostKey.Some?
      ensures var l := listed[i];
              l.name in next.byName && next.byName[l.name].entry == l.entry && next.byName[l.name].hostKey == l.hostKey.value
    {
      BuildHoldsEveryListed(listed, prev, gen, i);
    }
  }

  lemma EqualIffListsTheSame(listed: seq<Listed>, next: ProviderSet, prev: ProviderSet)
    requires ListsTheSame(listed, next)
    ensures next.Equal(prev) <==> ListsTheSame(listed, prev)
  {
    if next.Equal(prev) {
      SameNames(next.byName.Keys, prev.byName.Keys);
    }
    if ListsTheSame(listed, prev) {
      assert next.byName.Keys == prev.byName.Keys;
    }
  }

  /** As many names in all, and none of its own: the same names. */
  lemma SameNames(a: set<string>, b: set<string>)
    requires a <= b && |a| == |b|
    ensures a == b
  {
    assert b == a + (b - a);
  }

  // ---------------------------------------------------------------- the swap

  /** After a swap, and after one that changed nothing, the set in force holds each listed provider with
      its own base URL, authentication, user name, token and host, and no other provider. The epoch moves
      if and only if that is not so already. */
  lemma ListedIsInForce(s: State, listed: seq<Listed>)
    requires ValidStore(listed)
    ensures ListsTheSame(listed, SwapProviders(s, listed).providers)
    ensures SwapProviders(s, listed).providerEpoch == s.providerEpoch + if ListsTheSame(listed, s.providers) then 0 else 1
  {
    hide Build, Rebound, Revoked, WithoutCheck, ProviderSet.Equal, ListsTheSame;
    BuildListsTheSame(listed, s.providers, s.providerGen);
    EqualIffListsTheSame(listed, Build(listed, s.providers, s.providerGen).0, s.providers);
  }

  /** Whether the file still lists the provider with its host and credential. */
  predicate StillLists(listed: seq<Listed>, name: string, was: ProviderEntry) {
    exists l <- listed ::
      && l.name == name && l.hostKey == Some(was.hostKey)
      && l.entry.auth == was.entry.auth && l.entry.username == was.entry.username && l.entry.token == was.entry.token
  }

  lemma InForceIffStillListed(listed: seq<Listed>, prev: ProviderSet, gen: nat, b: Binding)
    requires ValidStore(listed) && prev.Valid(gen) && prev.InForce(b)
    ensures Build(listed, prev, gen).0.InForce(b) <==> StillLists(listed, b.provider, prev.byName[b.provider])
  {
    hide Build;
    var next := Build(listed, prev, gen).0;
    BuildHasTheNames(listed, prev, gen, b.provider);
    forall i | 0 <= i < |listed| && listed[i].hostKey.Some? && listed[i].name == b.provider
      ensures next.InForce(b) <==> StillLists(listed, b.provider, prev.byName[b.provider])
    {
      GenerationKeptIff(listed, prev, gen, i);
      if l :| l in listed && l.name == b.provider && l != listed[i] {
        assert false;
      }
    }
  }

  /** In every run a swap cancels a running attempt if and only if the file no longer lists its provider
      with the same host, authentication, user name and token. Only a swap cancels. */
  lemma CancelsWhatChanged(ws: seq<World>, es: seq<Event>, i: nat, id: string)
    requires IsRun(ws, es) && i < |es| && id in ws[i].s.attempts && !ws[i].s.attempts[id].cancelled
    requires id in ws[i + 1].s.attempts && ws[i + 1].s.attempts[id].serial == ws[i].s.attempts[id].serial
    ensures ws[i].s.attempts[id].bind.provider in ws[i].s.providers.byName
    ensures var b := ws[i].s.attempts[id].bind;
            ws[i + 1].s.attempts[id].cancelled <==>
              es[i].Swap? && !StillLists(es[i].listed, b.provider, ws[i].s.providers.byName[b.provider])
  {
    hide StillLists;
    InvAlways(ws, es, i);
    var s := ws[i].s;
    assert Revocable(id, s.attempts[id], ws[i].claimed, s.providers);
    if es[i].Swap? {
      SwapCancels(s, es[i].listed, id);
    } else {
      OthersDoNotCancel(ws[i], es[i], id);
    }
  }

  lemma SwapCancels(s: State, listed: seq<Listed>, id: string)
    requires ValidStore(listed) && s.providers.Valid(s.providerGen)
    requires id in s.attempts && !s.attempts[id].cancelled && s.providers.InForce(s.attempts[id].bind)
    ensures var b := s.attempts[id].bind;
            var n := SwapProviders(s, listed);
            id in n.attempts && (n.attempts[id].cancelled <==> !StillLists(listed, b.provider, s.providers.byName[b.provider]))
  {
    hide Build, Rebound, WithoutCheck, ProviderSet.Equal, ProviderSet.Valid, ListsTheSame;
    var b := s.attempts[id].bind;
    InForceIffStillListed(listed, s.providers, s.providerGen, b);
    var (next, drawn) := Build(listed, s.providers, s.providerGen);
    if next.Equal(s.providers) {
      BuildListsTheSame(listed, s.providers, s.providerGen);
      EqualIffListsTheSame(listed, next, s.providers);
      SameFileStillLists(listed, s.providers, b.provider);
    }
  }

  lemma SameFileStillLists(listed: seq<Listed>, set_: ProviderSet, name: string)
    requires ListsTheSame(listed, set_) && name in set_.byName
    ensures StillLists(listed, name, set_.byName[name])
  {
    var l :| l in listed && l.name == name && l.hostKey.Some?;
  }

  lemma OthersDoNotCancel(w: World, e: Event, id: string)
    requires !e.Swap? && id in w.s.attempts && id in Step(w, e).s.attempts
    requires Step(w, e).s.attempts[id].serial == w.s.attempts[id].serial
    ensures Step(w, e).s.attempts[id].cancelled == w.s.attempts[id].cancelled
  {
  }

  /** A cancelled attempt stays cancelled until it ends. */
  lemma {:induction false} CancelledUntilItEnds(ws: seq<World>, es: seq<Event>, i: nat, j: nat, id: string)
    requires IsRun(ws, es) && i <= j < |ws|
    requires id in ws[i].s.attempts && ws[i].s.attempts[id].cancelled
    requires forall k | i <= k <= j :: id in ws[k].s.attempts && ws[k].s.attempts[id].serial == ws[i].s.attempts[id].serial
    ensures ws[j].s.attempts[id].cancelled
    decreases j
  {
    if i < j {
      hide Step;
      CancelledUntilItEnds(ws, es, i, j - 1, id);
      if es[j - 1].Swap? {
        SwapKeepsCancelled(ws[j - 1], es[j - 1], id);
      } else {
        OthersDoNotCancel(ws[j - 1], es[j - 1], id);
      }
    }
  }

  lemma SwapKeepsCancelled(w: World, e: Event, id: string)
    requires e.Swap? && id in w.s.attempts && w.s.attempts[id].cancelled
    ensures id in Step(w, e).s.attempts && Step(w, e).s.attempts[id].cancelled
  {
    hide Build, Rebound, WithoutCheck, ProviderSet.Equal;
  }

  // ---------------------------------------------------------------- what is bound to what

  /** In every reachable state a repository is matched if and only if a provider in force has its origin's
      host; it then is bound to that provider and its generation and fetches from its own origin URL, and
      otherwise is bound to nothing. */
  lemma BoundByHost(ws: seq<World>, es: seq<Event>, i: nat, id: string)
    requires IsRun(ws, es) && i < |ws| && id in ws[i].s.repos
    ensures var (r, byName) := (ws[i].s.repos[id], ws[i].s.providers.byName);
            && (r.matched <==> r.originHostKey != "" && exists name <- byName :: byName[name].hostKey == r.originHostKey)
            && (r.matched ==>
                  && r.provider in byName && byName[r.provider].hostKey == r.originHostKey
                  && r.bind == Binding(r.provider, byName[r.provider].gen) && r.canonicalURL == r.originURL)
            && (!r.matched ==> r.provider == "" && r.bind == Binding("", 0) && r.canonicalURL == "")
  {
    InvAlways(ws, es, i);
    assert Bound(ws[i].s.repos[id], ws[i].s.providers);
  }
}
