/** The sync manager: one run per repository, with triggers that arrive meanwhile folded into a
    single trailing rerun (internal/gitsync/manager.go). */
module Manager {

  // ---------------------------------------------------------------- what its lock guards

  /** `idle` says the idle channel is closed. */
  datatype ManagerState = ManagerState(inflight: set<string>, rerun: set<string>, idle: bool)

  const NEW_MANAGER := ManagerState({}, {}, true)

  /** The locked section of `launch`, and whether it started a run. */
  function Launched(m: ManagerState, id: string, rerunIfBusy: bool): (ManagerState, bool) {
    if id in m.inflight then (if rerunIfBusy then m.(rerun := m.rerun + {id}) else m, false)
    else (m.(inflight := m.inflight + {id}, idle := if m.inflight == {} then false else m.idle), true)
  }

  /** The locked section that ends a pass of `runRepo`, and whether another pass follows. */
  function Settled(m: ManagerState, id: string, ctxDone: bool): (ManagerState, bool) {
    if id in m.rerun && !ctxDone then (m.(rerun := m.rerun - {id}), true)
    else
      var left := m.inflight - {id};
      (ManagerState(left, m.rerun - {id}, if left == {} then true else m.idle), false)
  }

  /** The idle channel is closed exactly when nothing is in flight, and only what is in flight can be
      marked for a rerun. */
  predicate Sound(m: ManagerState) {
    (m.idle <==> m.inflight == {}) && m.rerun <= m.inflight
  }

  // ---------------------------------------------------------------- the object

  /** A channel that is only ever closed. Closing one twice would panic. */
  class IdleChannel {
    var closed: bool

    constructor (closed: bool)
      ensures this.closed == closed
    {
      this.closed := closed;
    }

    method Close()
      requires !closed
      modifies this
      ensures closed
    {
      closed := true;
    }
  }

  class SyncManager {
    var inflight: set<string>
    var rerun: set<string>
    var idleCh: IdleChannel

    ghost predicate Valid()
      reads this, idleCh
    {
      Sound(Value())
    }

    ghost function Value(): ManagerState
      reads this, idleCh
    {
      ManagerState(inflight, rerun, idleCh.closed)
    }

    constructor ()
      ensures Valid() && Value() == NEW_MANAGER && fresh(idleCh)
    {
      var idle := new IdleChannel(true);
      inflight, rerun, idleCh := {}, {}, idle;
    }

    /** Marks `id` in flight, or leaves it a trailing rerun. A drain that took the old idle channel
        keeps it: a new one is made when the first run starts. */
    method Launch(id: string, rerunIfBusy: bool) returns (started: bool)
      requires Valid()
      modifies this
      ensures Valid()
      ensures (Value(), started) == Launched(old(Value()), id, rerunIfBusy)
      ensures if started && old(inflight) == {} then fresh(idleCh) else idleCh == old(idleCh)
    {
      if id in inflight {
        if rerunIfBusy {
          rerun := rerun + {id};
        }
        return false;
      }
      if inflight == {} {
        var idle := new IdleChannel(false);
        idleCh := idle;
      }
      inflight := inflight + {id};
      return true;
    }

    /** Ends a pass of `id`: another follows when one was asked for, unless the context ended. */
    method Settle(id: string, ctxDone: bool) returns (again: bool)
      requires Valid() && id in inflight
      modifies this`inflight, this`rerun, idleCh
      ensures Valid()
      ensures (Value(), again) == Settled(old(Value()), id, ctxDone)
    {
      again := id in rerun && !ctxDone;
      rerun := rerun - {id};
      if !again {
        RemoveInflight(id);
      }
    }

    method RemoveInflight(id: string)
      requires id in inflight && !idleCh.closed
      modifies this`inflight, idleCh
      ensures inflight == old(inflight) - {id}
      ensures idleCh.closed <==> inflight == {}
    {
      inflight := inflight - {id};
      if inflight == {} {
        idleCh.Close();
      }
    }
  }
}
