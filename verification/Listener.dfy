/** The listener manager under every interleaving of its callers and serve goroutines.

    A step is one critical section or one blocking operation of one goroutine: Start is
    one step, because it holds the lock throughout; serve, Stop and Close are cut where
    they release the lock, close a socket or a channel, or wait. */
module ListenerManager {

  /** The identity of one managedListener object, and of one goroutine calling Stop. */
  type EntryId = nat
  type Caller = nat

  /** Where the serve goroutine of an entry is: inside Serve, back from it, past its
      critical section, past closing `done`, past wg.Done. */
  datatype Phase = Serving | Returned | Unlinked | DoneClosed | Finished

  datatype Entry = Entry(leaseId: string, phase: Phase, socketClosed: bool)

  datatype Stopping = NotFound | Taken(e: EntryId) | Waiting(e: EntryId) | Stopped(e: EntryId)

  /** The body of closeOnce: not entered, the map emptied, the context cancelled with
      sockets still to close, returned. */
  datatype Closing = NotEntered | Emptied(batch: set<EntryId>) | Cancelled(batch: set<EntryId>) | Closed

  datatype Manager = Manager(
    listeners: map<string, EntryId>,
    entries: map<EntryId, Entry>,
    closed: bool,
    cancelled: bool,
    wg: int,
    stops: map<Caller, Stopping>,
    closing: Closing)

  datatype Action =
    | Start(leaseId: string, e: EntryId, bound: bool)
    | ServeReturns(e: EntryId)
    | ServeUnlinks(e: EntryId)
    | ServeClosesDone(e: EntryId)
    | ServeWgDone(e: EntryId)
    | StopTakes(t: Caller, leaseId: string)
    | StopClosesSocket(t: Caller)
    | StopReturns(t: Caller)
    | ContextExpires
    | CloseEmpties
    | CloseCancels
    | CloseClosesSocket(e: EntryId)
    | CloseReturns

  function Initial(): Manager {
    Manager(map[], map[], false, false, 0, map[], NotEntered)
  }

  predicate InPhase(m: Manager, e: EntryId, phase: Phase) {
    e in m.entries && m.entries[e].phase == phase
  }

  predicate Past(m: Manager, e: EntryId) {
    InPhase(m, e, DoneClosed) || InPhase(m, e, Finished)
  }

  /** When an action can be taken: a goroutine is at that point, and what it waits for
      has happened. Start can always be called, with an object never used before. */
  predicate Enabled(m: Manager, a: Action) {
    match a
    case Start(_, e, _) => e !in m.entries
    case ServeReturns(e) => InPhase(m, e, Serving)
    case ServeUnlinks(e) => InPhase(m, e, Returned)
    case ServeClosesDone(e) => InPhase(m, e, Unlinked)
    case ServeWgDone(e) => InPhase(m, e, DoneClosed)
    case StopTakes(t, _) => t !in m.stops
    case StopClosesSocket(t) => t in m.stops && m.stops[t].Taken? && m.stops[t].e in m.entries
    case StopReturns(t) => t in m.stops && m.stops[t].Waiting? && Past(m, m.stops[t].e)
    case ContextExpires => true
    case CloseEmpties => m.closing == NotEntered
    case CloseCancels => m.closing.Emptied?
    case CloseClosesSocket(e) => m.closing.Cancelled? && e in m.closing.batch && e in m.entries
    case CloseReturns => m.closing.Cancelled? && m.closing.batch == {} && m.wg == 0
  }

  function AtPhase(m: Manager, e: EntryId, phase: Phase): Manager
    requires e in m.entries
  {
    m.(entries := m.entries[e := m.entries[e].(phase := phase)])
  }

  function SocketClosed(m: Manager, e: EntryId): Manager
    requires e in m.entries
  {
    m.(entries := m.entries[e := m.entries[e].(socketClosed := true)])
  }

  function Do(m: Manager, a: Action): Manager
    requires Enabled(m, a)
  {
    match a
    case Start(id, e, bound) =>
      if id == "" || m.closed || m.cancelled || id in m.listeners || !bound then m
      else m.(listeners := m.listeners[id := e], entries := m.entries[e := Entry(id, Serving, false)], wg := m.wg + 1)
    case ServeReturns(e) => AtPhase(m, e, Returned)
    case ServeUnlinks(e) =>
      var id := m.entries[e].leaseId;
      var m1 := if id in m.listeners && m.listeners[id] == e then m.(listeners := m.listeners - {id}) else m;
      AtPhase(m1, e, Unlinked)
    case ServeClosesDone(e) => AtPhase(m, e, DoneClosed)
    case ServeWgDone(e) => AtPhase(m, e, Finished).(wg := m.wg - 1)
    case StopTakes(t, id) =>
      if id in m.listeners then m.(listeners := m.listeners - {id}, stops := m.stops[t := Taken(m.listeners[id])])
      else m.(stops := m.stops[t := NotFound])
    case StopClosesSocket(t) =>
      var e := m.stops[t].e;
      SocketClosed(m, e).(stops := m.stops[t := Waiting(e)])
    case StopReturns(t) => m.(stops := m.stops[t := Stopped(m.stops[t].e)])
    case ContextExpires => m.(cancelled := true)
    case CloseEmpties =>
      m.(closed := true, listeners := map[], closing := Emptied(set id | id in m.listeners :: m.listeners[id]))
    case CloseCancels => m.(cancelled := true, closing := Cancelled(m.closing.batch))
    case CloseClosesSocket(e) => SocketClosed(m, e).(closing := Cancelled(m.closing.batch - {e}))
    case CloseReturns => m.(closing := Closed)
  }

  ghost predicate Legal(m: Manager, run: seq<Action>)
    decreases |run|
  {
    |run| > 0 ==> Enabled(m, run[0]) && Legal(Do(m, run[0]), run[1..])
  }

  ghost function Run(m: Manager, run: seq<Action>): Manager
    requires Legal(m, run)
    decreases |run|
  {
    if |run| == 0 then m else Run(Do(m, run[0]), run[1..])
  }

  // ---------- The invariant ----------

  /** The entry is the one filed under its lease id. */
  predicate Linked(m: Manager, e: EntryId) {
    e in m.entries && m.entries[e].leaseId in m.listeners && m.listeners[m.entries[e].leaseId] == e
  }

  /** Some Stop call or the Close call has taken the entry and will close its socket. */
  ghost predicate Claimed(m: Manager, e: EntryId) {
    || (exists t :: t in m.stops && m.stops[t] == Taken(e))
    || ((m.closing.Emptied? || m.closing.Cancelled?) && e in m.closing.batch)
  }

  ghost function Unfinished(m: Manager): set<EntryId> {
    set e | e in m.entries && m.entries[e].phase != Finished
  }

  /** Filed entries are under their own id, still before their critical section, and
      nobody has closed their socket. */
  ghost predicate LinksOk(m: Manager) {
    forall id :: id in m.listeners ==>
      var e := m.listeners[id];
      && e in m.entries && m.entries[e].leaseId == id && !m.entries[e].socketClosed
      && (m.entries[e].phase == Serving || m.entries[e].phase == Returned)
  }

  /** A Stop call holds an existing entry; it waits only after closing the socket, and it
      has returned only if the entry's serve goroutine is past closing `done`. */
  ghost predicate StopsOk(m: Manager) {
    forall t :: t in m.stops ==> StopOk(m, m.stops[t])
  }

  ghost predicate StopOk(m: Manager, stop: Stopping) {
    match stop
    case NotFound => true
    case Taken(e) => e in m.entries && !Linked(m, e)
    case Waiting(e) => e in m.entries && !Linked(m, e) && m.entries[e].socketClosed
    case Stopped(e) => Past(m, e)
  }

  ghost predicate ClosingOk(m: Manager) {
    && (m.closed <==> m.closing != NotEntered)
    && (m.closed ==> m.listeners == map[])
    && (m.closing.Cancelled? || m.closing == Closed ==> m.cancelled)
    && (m.closing.Emptied? || m.closing.Cancelled? ==> forall e :: e in m.closing.batch ==> e in m.entries)
    && (m.closing == Closed ==> m.wg == 0)
  }

  /** Filed, or its socket closed, or about to be closed. */
  ghost predicate Cared(m: Manager, e: EntryId) {
    e in m.entries && (Linked(m, e) || m.entries[e].socketClosed || Claimed(m, e))
  }

  /** No listener is forgotten: while its goroutine is inside Serve, an entry is filed,
      or its socket has been closed, or somebody is about to close it. */
  ghost predicate NoneForgotten(m: Manager) {
    forall e :: InPhase(m, e, Serving) ==> Cared(m, e)
  }

  ghost predicate Inv(m: Manager) {
    && LinksOk(m)
    && StopsOk(m)
    && ClosingOk(m)
    && NoneForgotten(m)
    && m.wg == |Unfinished(m)|
  }

  lemma UnfinishedAfter(m: Manager, m': Manager, e: EntryId, entry: Entry)
    requires m'.entries == m.entries[e := entry]
    ensures Unfinished(m') == if entry.phase == Finished then Unfinished(m) - {e} else Unfinished(m) + {e}
  {
  }

  lemma StartCounts(m: Manager, leaseId: string, e: EntryId, bound: bool)
    requires m.wg == |Unfinished(m)| && e !in m.entries
    ensures var m' := Do(m, Start(leaseId, e, bound)); m'.wg == |Unfinished(m')|
  {
    var m' := Do(m, Start(leaseId, e, bound));
    if m' != m {
      UnfinishedAfter(m, m', e, Entry(leaseId, Serving, false));
      assert e !in Unfinished(m);
    }
  }

  lemma SameCount(m: Manager, m': Manager)
    requires m.wg == |Unfinished(m)| && m'.entries == m.entries && m'.wg == m.wg
    ensures m'.wg == |Unfinished(m')|
  {
    assert Unfinished(m') == Unfinished(m);
  }

  lemma CountKeeps(m: Manager, a: Action)
    requires m.wg == |Unfinished(m)| && Enabled(m, a)
    ensures Do(m, a).wg == |Unfinished(Do(m, a))|
  {
    var m' := Do(m, a);
    match a
    case Start(id, e, bound) => StartCounts(m, id, e, bound);
    case ServeReturns(e) => PhaseCount(m, m', e);
    case ServeUnlinks(e) => PhaseCount(m, m', e);
    case ServeClosesDone(e) => PhaseCount(m, m', e);
    case ServeWgDone(e) => PhaseCount(m, m', e);
    case StopClosesSocket(t) => PhaseCount(m, m', m.stops[t].e);
    case CloseClosesSocket(e) => PhaseCount(m, m', e);
    case _ => SameCount(m, m');
  }

  lemma PhaseCount(m: Manager, m': Manager, e: EntryId)
    requires e in m.entries && e in m'.entries && m'.entries == m.entries[e := m'.entries[e]]
    requires m.entries[e].phase == Finished ==> m'.entries[e].phase == Finished
    ensures |Unfinished(m')|
            == |Unfinished(m)| - (if m.entries[e].phase != m'.entries[e].phase == Finished then 1 else 0)
  {
    UnfinishedAfter(m, m', e, m'.entries[e]);
    if m.entries[e].phase != Finished {
      assert e in Unfinished(m);
      assert Unfinished(m) + {e} == Unfinished(m);
    } else {
      assert Unfinished(m) - {e} == Unfinished(m);
    }
  }

  lemma TakeCares(m: Manager, t: Caller, id: string, e: EntryId)
    requires Cared(m, e) && Enabled(m, StopTakes(t, id))
    ensures Cared(Do(m, StopTakes(t, id)), e)
  {
    var m' := Do(m, StopTakes(t, id));
    if Linked(m, e) && m.entries[e].leaseId == id {
      assert m'.stops[t] == Taken(e);
    } else if Claimed(m, e) {
      StillClaimed(m, m', e);
    }
  }

  lemma StopCloseCares(m: Manager, t: Caller, e: EntryId)
    requires Cared(m, e) && Enabled(m, StopClosesSocket(t))
    ensures Cared(Do(m, StopClosesSocket(t)), e)
  {
    if Claimed(m, e) && m.stops[t] != Taken(e) {
      StillClaimed(m, Do(m, StopClosesSocket(t)), e);
    }
  }

  lemma CloseCares(m: Manager, x: EntryId, e: EntryId)
    requires Cared(m, e) && Enabled(m, CloseClosesSocket(x))
    ensures Cared(Do(m, CloseClosesSocket(x)), e)
  {
    if Claimed(m, e) && x != e {
      StillClaimed(m, Do(m, CloseClosesSocket(x)), e);
    }
  }

  lemma EmptyCares(m: Manager, e: EntryId)
    requires Cared(m, e) && Enabled(m, CloseEmpties)
    ensures Cared(Do(m, CloseEmpties), e)
  {
    if Claimed(m, e) {
      StillClaimed(m, Do(m, CloseEmpties), e);
    }
  }

  /** The actions that touch neither a Stop call's entry nor Close's batch. */
  lemma OtherCares(m: Manager, a: Action, e: EntryId)
    requires Inv(m) && Enabled(m, a) && InPhase(m, e, Serving) && Cared(m, e)
    requires !a.StopTakes? && !a.StopClosesSocket? && !a.CloseEmpties? && !a.CloseClosesSocket?
    requires InPhase(Do(m, a), e, Serving)
    ensures Cared(Do(m, a), e)
  {
    if Claimed(m, e) {
      StillClaimed(m, Do(m, a), e);
    }
  }

  lemma ForgottenKeeps(m: Manager, a: Action)
    requires Inv(m) && Enabled(m, a)
    ensures NoneForgotten(Do(m, a))
  {
    forall e | InPhase(Do(m, a), e, Serving) ensures Cared(Do(m, a), e) {
      if e in m.entries {
        match a
        case StopTakes(t, id) => TakeCares(m, t, id, e);
        case StopClosesSocket(t) => StopCloseCares(m, t, e);
        case CloseEmpties => EmptyCares(m, e);
        case CloseClosesSocket(x) => CloseCares(m, x, e);
        case _ => OtherCares(m, a, e);
      }
    }
  }

  lemma StillClaimed(m: Manager, m': Manager, e: EntryId)
    requires Claimed(m, e)
    requires forall t :: t in m.stops && m.stops[t] == Taken(e) ==> t in m'.stops && m'.stops[t] == Taken(e)
    requires m.closing.Emptied? && e in m.closing.batch ==>
             (m'.closing.Emptied? || m'.closing.Cancelled?) && e in m'.closing.batch
    requires m.closing.Cancelled? && e in m.closing.batch ==> m'.closing.Cancelled? && e in m'.closing.batch
    ensures Claimed(m', e)
  {
  }

  lemma LinksKeep(m: Manager, a: Action)
    requires LinksOk(m) && StopsOk(m) && ClosingOk(m) && Enabled(m, a)
    requires m.closing.Cancelled? ==> forall e :: e in m.closing.batch ==> !Linked(m, e)
    ensures LinksOk(Do(m, a))
  {
  }

  /** A Stop call that is left alone stays as good as it was. */
  lemma StopKeeps(m: Manager, a: Action, stop: Stopping)
    requires LinksOk(m) && StopOk(m, stop) && Enabled(m, a)
    ensures StopOk(Do(m, a), stop)
  {
  }

  lemma StopsKeep(m: Manager, a: Action)
    requires LinksOk(m) && StopsOk(m) && Enabled(m, a)
    ensures StopsOk(Do(m, a))
  {
    var m' := Do(m, a);
    forall t | t in m'.stops ensures StopOk(m', m'.stops[t]) {
      if t in m.stops && m'.stops[t] == m.stops[t] {
        StopKeeps(m, a, m.stops[t]);
      }
    }
  }

  lemma DoKeeps(m: Manager, a: Action)
    requires Inv(m) && Enabled(m, a)
    ensures Inv(Do(m, a))
  {
    CountKeeps(m, a);
    ForgottenKeeps(m, a);
    LinksKeep(m, a);
    StopsKeep(m, a);
  }

  /** The invariant holds after every interleaving. */
  lemma {:induction false} AlwaysInv(m: Manager, run: seq<Action>)
    requires Inv(m) && Legal(m, run)
    ensures Inv(Run(m, run))
    decreases |run|
  {
    if |run| > 0 {
      DoKeeps(m, run[0]);
      AlwaysInv(Do(m, run[0]), run[1..]);
    }
  }

  lemma InitialInv()
    ensures Inv(Initial())
  {
    assert Unfinished(Initial()) == {};
  }

  // ---------- What callers rely on ----------

  /** An entry leaves the map only by a Stop of its id, by Close, or by its own serve
      goroutine: one that finishes late never removes a newer entry under the same id. */
  lemma OnlyOwnersUnlink(m: Manager, a: Action, id: string)
    requires Inv(m) && Enabled(m, a) && id in m.listeners
    requires id !in Do(m, a).listeners || Do(m, a).listeners[id] != m.listeners[id]
    ensures a == ServeUnlinks(m.listeners[id]) || a == CloseEmpties || (a.StopTakes? && a.leaseId == id)
  {
  }

  /** After any interleaving: two entries of one lease id whose sockets are open, which
      serve and which nobody is stopping are the same entry, the one Get returns. */
  lemma OneLiveEntryPerLease(run: seq<Action>, e: EntryId, e': EntryId)
    requires Legal(Initial(), run)
    requires var m := Run(Initial(), run);
             && InPhase(m, e, Serving) && !m.entries[e].socketClosed && !Claimed(m, e)
             && InPhase(m, e', Serving) && !m.entries[e'].socketClosed && !Claimed(m, e')
             && m.entries[e].leaseId == m.entries[e'].leaseId
    ensures e == e' && Linked(Run(Initial(), run), e)
  {
    InitialInv();
    AlwaysInv(Initial(), run);
  }

  /** The wait group counts exactly the serve goroutines that have not finished. */
  lemma WaitGroupCounts(run: seq<Action>)
    requires Legal(Initial(), run)
    ensures var m := Run(Initial(), run);
            m.wg == |Unfinished(m)| && (m.wg == 0 <==> forall e :: e in m.entries ==> m.entries[e].phase == Finished)
  {
    InitialInv();
    AlwaysInv(Initial(), run);
    var m := Run(Initial(), run);
    if m.wg == 0 {
      forall e | e in m.entries ensures m.entries[e].phase == Finished {
        assert e !in Unfinished(m);
      }
    } else {
      var e :| e in Unfinished(m);
    }
  }

  /** Stop returns nil only for an entry whose Serve has ended and which is not in the map. */
  lemma StopWaitsForServe(run: seq<Action>, t: Caller)
    requires Legal(Initial(), run)
    requires var m := Run(Initial(), run); t in m.stops && m.stops[t].Stopped?
    ensures var m := Run(Initial(), run); Past(m, m.stops[t].e) && !Linked(m, m.stops[t].e)
  {
    InitialInv();
    AlwaysInv(Initial(), run);
  }

  /** When Close has closed its last socket, every goroutine still inside Serve has a
      closed socket or a Stop call about to close it: nothing keeps Close waiting for a
      listener that nobody will close. */
  lemma CloseReachesEveryListener(run: seq<Action>, e: EntryId)
    requires Legal(Initial(), run)
    requires var m := Run(Initial(), run); m.closing == Cancelled({}) && InPhase(m, e, Serving)
    ensures var m := Run(Initial(), run);
            m.entries[e].socketClosed || exists t :: t in m.stops && m.stops[t] == Taken(e)
  {
    InitialInv();
    AlwaysInv(Initial(), run);
  }

  /** Once Close has returned the map is empty and stays empty: no listener is ever
      created again and every goroutine has finished. */
  lemma {:induction false} ClosedForever(m: Manager, run: seq<Action>)
    requires Inv(m) && m.closing == Closed && Legal(m, run)
    ensures var m' := Run(m, run);
            && m'.closing == Closed && m'.listeners == map[] && m'.entries.Keys == m.entries.Keys
            && forall e :: e in m'.entries ==> m'.entries[e].phase == Finished
    decreases |run|
  {
    AllFinished(m);
    if |run| > 0 {
      DoKeeps(m, run[0]);
      assert Do(m, run[0]).entries.Keys == m.entries.Keys;
      ClosedForever(Do(m, run[0]), run[1..]);
    }
  }

  lemma AllFinished(m: Manager)
    requires Inv(m) && m.closing == Closed
    ensures forall e :: e in m.entries ==> m.entries[e].phase == Finished
  {
    forall e | e in m.entries ensures m.entries[e].phase == Finished {
      assert e !in Unfinished(m);
    }
  }
}
