/** The listener manager as the program keeps it: one object whose critical sections
    update its fields. Each section is proved to be the step of the same name in
    ListenerManager, so it keeps the invariant that holds after every interleaving. */
module ListenerObject {
  import opened ListenerManager

  class Listeners {
    var listeners: map<string, EntryId>
    var entries: map<EntryId, Entry>
    var closed: bool
    var cancelled: bool
    var wg: int
    var stops: map<Caller, Stopping>
    var closing: Closing

    ghost function View(): Manager
      reads this
    {
      Manager(listeners, entries, closed, cancelled, wg, stops, closing)
    }

    constructor ()
      ensures View() == Initial() && Inv(View())
    {
      listeners, entries, stops := map[], map[], map[];
      closed, cancelled, wg, closing := false, false, 0, NotEntered;
      new;
      InitialInv();
    }

    /** Start. `e` is the new managedListener object; `bound` tells whether the socket opens. */
    method Start(leaseId: string, e: EntryId, bound: bool) returns (ok: bool)
      requires Inv(View()) && Enabled(View(), Action.Start(leaseId, e, bound))
      modifies this
      ensures View() == Do(old(View()), Action.Start(leaseId, e, bound)) && Inv(View())
      ensures ok <==> leaseId != "" && !old(closed) && !old(cancelled) && leaseId !in old(listeners) && bound
      ensures ok <==> View() != old(View())
    {
      DoKeeps(View(), Action.Start(leaseId, e, bound));
      if leaseId == "" || closed || cancelled || leaseId in listeners || !bound {
        return false;
      }
      listeners := listeners[leaseId := e];
      entries := entries[e := Entry(leaseId, Serving, false)];
      wg := wg + 1;
      return true;
    }

    /** The critical section at the end of serve: only the entry that is still the current
        one is deleted. */
    method Unlink(e: EntryId)
      requires Inv(View()) && Enabled(View(), ServeUnlinks(e))
      modifies this
      ensures View() == Do(old(View()), ServeUnlinks(e)) && Inv(View())
      ensures forall id :: id in old(listeners) && old(listeners)[id] != e ==>
              id in listeners && listeners[id] == old(listeners)[id]
    {
      DoKeeps(View(), ServeUnlinks(e));
      var leaseId := entries[e].leaseId;
      if leaseId in listeners && listeners[leaseId] == e {
        listeners := listeners - {leaseId};
      }
      entries := entries[e := entries[e].(phase := Unlinked)];
    }

    /** The two deferred calls of serve: close(done), then wg.Done. */
    method CloseDone(e: EntryId)
      requires Inv(View()) && Enabled(View(), ServeClosesDone(e))
      modifies this
      ensures View() == Do(old(View()), ServeClosesDone(e)) && Inv(View())
    {
      DoKeeps(View(), ServeClosesDone(e));
      entries := entries[e := entries[e].(phase := DoneClosed)];
    }

    method WgDone(e: EntryId)
      requires Inv(View()) && Enabled(View(), ServeWgDone(e))
      modifies this
      ensures View() == Do(old(View()), ServeWgDone(e)) && Inv(View()) && wg >= 0
    {
      DoKeeps(View(), ServeWgDone(e));
      entries := entries[e := entries[e].(phase := Finished)];
      wg := wg - 1;
    }

    /** The critical section of Stop: take the entry out of the map. */
    method Take(t: Caller, leaseId: string) returns (found: bool)
      requires Inv(View()) && Enabled(View(), StopTakes(t, leaseId))
      modifies this
      ensures View() == Do(old(View()), StopTakes(t, leaseId)) && Inv(View())
      ensures found <==> leaseId in old(listeners)
      ensures leaseId !in listeners
    {
      DoKeeps(View(), StopTakes(t, leaseId));
      if leaseId !in listeners {
        stops := stops[t := NotFound];
        return false;
      }
      stops := stops[t := Taken(listeners[leaseId])];
      listeners := listeners - {leaseId};
      return true;
    }

    /** Stop closes the socket it has taken, outside the lock. */
    method CloseTaken(t: Caller)
      requires Inv(View()) && Enabled(View(), StopClosesSocket(t))
      modifies this
      ensures View() == Do(old(View()), StopClosesSocket(t)) && Inv(View())
    {
      DoKeeps(View(), StopClosesSocket(t));
      var e := stops[t].e;
      entries := entries[e := entries[e].(socketClosed := true)];
      stops := stops[t := Waiting(e)];
    }

    /** The critical section of Close: mark the manager closed and move every entry from
        the map to the batch whose sockets are closed next. */
    method Empty()
      requires Inv(View()) && Enabled(View(), CloseEmpties)
      modifies this
      ensures View() == Do(old(View()), CloseEmpties) && Inv(View())
    {
      DoKeeps(View(), CloseEmpties);
      closed := true;
      var batch := Collect();
      closing := Emptied(batch);
    }

    /** Delete every entry from the map and return them all. */
    method Collect() returns (batch: set<EntryId>)
      modifies this`listeners
      ensures listeners == map[]
      ensures batch == set id | id in old(listeners) :: old(listeners)[id]
    {
      batch := {};
      while listeners != map[]
        invariant Batched(old(listeners), listeners, batch)
        decreases |listeners|
      {
        var leaseId :| leaseId in listeners;
        OneCollected(old(listeners), listeners, batch, leaseId);
        batch := batch + {listeners[leaseId]};
        listeners := listeners - {leaseId};
      }
    }
  }

  /** What is no longer in the map is in the batch. */
  ghost predicate Batched(all: map<string, EntryId>, left: map<string, EntryId>, batch: set<EntryId>) {
    && (forall id :: id in left ==> id in all && left[id] == all[id])
    && batch == set id | id in all && id !in left :: all[id]
  }

  lemma OneCollected(all: map<string, EntryId>, left: map<string, EntryId>, batch: set<EntryId>, id: string)
    requires Batched(all, left, batch) && id in left
    ensures Batched(all, left - {id}, batch + {left[id]})
    ensures |left - {id}| < |left|
  {
    assert (left - {id}).Keys == left.Keys - {id};
    var after := set i | i in all && i !in left - {id} :: all[i];
    forall e ensures e in after <==> e in batch + {left[id]} {
      if e in after {
        var i :| i in all && i !in left - {id} && all[i] == e;
      }
      if e in batch {
        var i :| i in all && i !in left && all[i] == e;
      }
    }
  }
}
