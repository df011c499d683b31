/** `_operation_slot` under every interleaving of threads: a semaphore of two, one lock per repository URL,
    and a guard around the table of those locks. Each step of a thread is one indivisible operation. */
module OperationSlot {
  import opened Results

  type Url = string
  type Thread = nat
  type Lock = nat  // the identity of a lock object

  const SLOTS := 2

  /** Where a thread inside `_operation_slot` stands. */
  datatype Phase =
    | TookSlot(url: Url)                          // waits for the guard
    | Guarded(url: Url)                           // holds the guard
    | Found(url: Url, lock: Lock)                 // holds the guard, has the lock object of its URL
    | Tried(url: Url, lock: Lock, acquired: bool) // holds the guard, has tried the lock
    | Refused(url: Url)                           // gives the slot back
    | Running(url: Url, lock: Lock)               // in the body of the `with` statement
    | Leaving(url: Url, lock: Lock)               // waits for the guard again
    | Releasing(url: Url, lock: Lock)             // holds the guard
    | Released(url: Url, lock: Lock)              // holds the guard, has released the lock
    | Cleared(url: Url)                           // holds the guard, has cleared the table
    | Returning(url: Url)                         // gives the slot back

  /** `inside` lists the threads between taking a slot and giving it back. */
  datatype State = State(
    free: nat, guard: Option<Thread>, table: map<Url, Lock>, held: map<Lock, Thread>, unused: Lock,
    inside: map<Thread, Phase>)

  predicate Initial(s: State) {
    s.free == SLOTS && s.guard == None && s.table == map[] && s.held == map[] && s.inside == map[]
  }

  /** A thread asks for a slot. Without one it is refused on the spot. */
  ghost predicate Enters(s: State, t: Thread, url: Url, s': State) {
    && t !in s.inside
    && s' == if s.free == 0 then s else s.(free := s.free - 1, inside := s.inside[t := TookSlot(url)])
  }

  function Goes(s: State, t: Thread, phase: Phase): State {
    s.(inside := s.inside[t := phase])
  }

  function GivesSlotBack(s: State, t: Thread): State {
    s.(free := s.free + 1, inside := s.inside - {t})
  }

  /** One step of a thread inside. */
  ghost predicate Advances(s: State, t: Thread, s': State) {
    && t in s.inside
    && match s.inside[t]
       case TookSlot(url) => s.guard == None && s' == Goes(s, t, Guarded(url)).(guard := Some(t))
       case Guarded(url) =>
         if url in s.table then s' == Goes(s, t, Found(url, s.table[url]))
         else s' == Goes(s, t, Found(url, s.unused)).(table := s.table[url := s.unused], unused := s.unused + 1)
       case Found(url, lock) =>
         if lock in s.held then s' == Goes(s, t, Tried(url, lock, false))
         else s' == Goes(s, t, Tried(url, lock, true)).(held := s.held[lock := t])
       case Tried(url, lock, acquired) =>
         s' == Goes(s, t, if acquired then Running(url, lock) else Refused(url)).(guard := None)
       case Refused(url) => s' == GivesSlotBack(s, t)
       case Running(url, lock) => s' == Goes(s, t, Leaving(url, lock))
       case Leaving(url, lock) => s.guard == None && s' == Goes(s, t, Releasing(url, lock)).(guard := Some(t))
       case Releasing(url, lock) => s' == Goes(s, t, Released(url, lock)).(held := s.held - {lock})
       case Released(url, lock) =>
         s' == Goes(s, t, Cleared(url)).(
           table := if url in s.table && s.table[url] == lock then s.table - {url} else s.table)
       case Cleared(url) => s' == Goes(s, t, Returning(url)).(guard := None)
       case Returning(url) => s' == GivesSlotBack(s, t)
  }

  ghost predicate Next(s: State, s': State) {
    || (exists t: Thread, url: Url :: Enters(s, t, url, s'))
    || (exists t: Thread :: Advances(s, t, s'))
  }

  // ---------- the invariant ----------

  predicate HoldsGuard(phase: Phase) {
    phase.Guarded? || phase.Found? || phase.Tried? || phase.Releasing? || phase.Released? || phase.Cleared?
  }

  predicate HoldsLock(phase: Phase) {
    phase.Running? || phase.Leaving? || phase.Releasing? || (phase.Tried? && phase.acquired)
  }

  /** The phases in which the lock of the thread is the one in the table. */
  predicate KnowsLock(phase: Phase) {
    HoldsLock(phase) || phase.Found? || phase.Tried? || phase.Released?
  }

  ghost predicate SlotsAreCounted(s: State) {
    s.free + |s.inside| == SLOTS
  }

  ghost predicate GuardIsHeld(s: State) {
    && (forall t :: t in s.inside ==> (HoldsGuard(s.inside[t]) <==> s.guard == Some(t)))
    && (s.guard.Some? ==> s.guard.value in s.inside)
  }

  ghost predicate LocksAreHeld(s: State) {
    && (forall t :: t in s.inside && HoldsLock(s.inside[t]) ==>
          s.inside[t].lock in s.held && s.held[s.inside[t].lock] == t)
    && (forall lock :: lock in s.held ==>
          s.held[lock] in s.inside && HoldsLock(s.inside[s.held[lock]]) && s.inside[s.held[lock]].lock == lock)
    && (forall t :: t in s.inside && s.inside[t].Released? ==> s.inside[t].lock !in s.held)
  }

  ghost predicate TableIsCurrent(s: State) {
    && (forall t :: t in s.inside && KnowsLock(s.inside[t]) ==>
          s.inside[t].url in s.table && s.table[s.inside[t].url] == s.inside[t].lock)
    && (forall url :: url in s.table ==> s.table[url] < s.unused)
    && (forall url, url' :: url in s.table && url' in s.table && s.table[url] == s.table[url'] ==> url == url')
  }

  /** A lock that nobody holds is in the table only while the thread that put it there, or releases it,
      holds the guard. */
  ghost predicate UnheldIsGuarded(s: State) {
    forall url :: url in s.table && s.table[url] !in s.held ==>
      && s.guard.Some? && s.guard.value in s.inside
      && var phase := s.inside[s.guard.value];
      (phase.Found? || phase.Released?) && phase.url == url
  }

  ghost predicate Inv(s: State) {
    SlotsAreCounted(s) && GuardIsHeld(s) && LocksAreHeld(s) && TableIsCurrent(s) && UnheldIsGuarded(s)
  }

  lemma EntryKeepsCount<K, V>(m: map<K, V>, k: K, v: V)
    ensures |m[k := v]| == if k in m then |m| else |m| + 1
    ensures k in m ==> |m - {k}| == |m| - 1
  {
    var grown := m[k := v];
    assert grown.Keys == m.Keys + {k};
    assert |grown| == |grown.Keys| && |m| == |m.Keys|;
    if k in m {
      assert m.Keys + {k} == m.Keys;
      assert (m - {k}).Keys == m.Keys - {k};
      assert |m - {k}| == |(m - {k}).Keys|;
    }
  }

  lemma EnteringKeepsInv(s: State, t: Thread, url: Url, s': State)
    requires Inv(s) && Enters(s, t, url, s')
    ensures Inv(s')
  {
    EntryKeepsCount(s.inside, t, TookSlot(url));
  }

  lemma TakingGuardKeepsTable(s: State, t: Thread, s': State)
    requires Inv(s) && Advances(s, t, s')
    requires s.inside[t].TookSlot? || s.inside[t].Leaving?
    ensures TableIsCurrent(s') && UnheldIsGuarded(s')
  {
    assert s'.inside == s.inside[t := s'.inside[t]];
  }

  lemma TakingGuardKeepsLocks(s: State, t: Thread, s': State)
    requires Inv(s) && Advances(s, t, s')
    requires s.inside[t].TookSlot? || s.inside[t].Leaving?
    ensures LocksAreHeld(s') && GuardIsHeld(s')
  {
    assert s'.inside == s.inside[t := s'.inside[t]];
  }

  lemma TakingGuardKeepsInv(s: State, t: Thread, s': State)
    requires Inv(s) && Advances(s, t, s')
    requires s.inside[t].TookSlot? || s.inside[t].Leaving?
    ensures Inv(s')
  {
    EntryKeepsCount(s.inside, t, s'.inside[t]);
    TakingGuardKeepsTable(s, t, s');
    TakingGuardKeepsLocks(s, t, s');
  }

  lemma FindingKeepsTable(s: State, t: Thread, s': State)
    requires Inv(s) && Advances(s, t, s')
    requires s.inside[t].Guarded?
    ensures TableIsCurrent(s')
  {
    var phase := s'.inside[t];
    assert s'.inside == s.inside[t := phase];
    assert phase.url in s'.table && s'.table[phase.url] == phase.lock;
    assert s'.table.Keys == s.table.Keys + {phase.url};
    forall url | url in s.table
      ensures s'.table[url] == s.table[url]
    {}
  }

  lemma FindingKeepsLocks(s: State, t: Thread, s': State)
    requires Inv(s) && Advances(s, t, s')
    requires s.inside[t].Guarded?
    ensures LocksAreHeld(s') && GuardIsHeld(s')
  {
    assert s'.inside == s.inside[t := s'.inside[t]];
    assert s'.held == s.held && s'.guard == s.guard;
  }

  lemma FindingKeepsGuarded(s: State, t: Thread, s': State)
    requires Inv(s) && Advances(s, t, s')
    requires s.inside[t].Guarded?
    ensures UnheldIsGuarded(s')
  {
    forall url | url in s'.table && s'.table[url] !in s'.held
      ensures url == s'.inside[t].url
    {
      assert url in s.table ==> s.table[url] == s'.table[url];
    }
  }

  lemma FindingKeepsInv(s: State, t: Thread, s': State)
    requires Inv(s) && Advances(s, t, s')
    requires s.inside[t].Guarded?
    ensures Inv(s')
  {
    EntryKeepsCount(s.inside, t, s'.inside[t]);
    FindingKeepsTable(s, t, s');
    FindingKeepsLocks(s, t, s');
    FindingKeepsGuarded(s, t, s');
  }

  lemma TryingKeepsTable(s: State, t: Thread, s': State)
    requires Inv(s) && Advances(s, t, s')
    requires s.inside[t].Found?
    ensures TableIsCurrent(s') && UnheldIsGuarded(s')
  {
    assert s'.inside == s.inside[t := s'.inside[t]];
  }

  lemma TryingKeepsLocks(s: State, t: Thread, s': State)
    requires Inv(s) && Advances(s, t, s')
    requires s.inside[t].Found?
    ensures LocksAreHeld(s') && GuardIsHeld(s')
  {
    assert s'.inside == s.inside[t := s'.inside[t]];
  }

  lemma TryingKeepsInv(s: State, t: Thread, s': State)
    requires Inv(s) && Advances(s, t, s')
    requires s.inside[t].Found?
    ensures Inv(s')
  {
    EntryKeepsCount(s.inside, t, s'.inside[t]);
    TryingKeepsTable(s, t, s');
    TryingKeepsLocks(s, t, s');
  }

  lemma LeavingGuardKeepsTable(s: State, t: Thread, s': State)
    requires Inv(s) && Advances(s, t, s')
    requires s.inside[t].Tried? || s.inside[t].Cleared?
    ensures TableIsCurrent(s') && UnheldIsGuarded(s')
  {
    assert s.guard == Some(t);
    assert s'.table == s.table && s'.held == s.held;
    forall url | url in s.table
      ensures s.table[url] in s.held
    {}
  }

  lemma LeavingGuardKeepsLocks(s: State, t: Thread, s': State)
    requires Inv(s) && Advances(s, t, s')
    requires s.inside[t].Tried? || s.inside[t].Cleared?
    ensures LocksAreHeld(s') && GuardIsHeld(s')
  {
    assert s.guard == Some(t) && s'.held == s.held;
    assert s'.inside == s.inside[t := s'.inside[t]];
    assert HoldsLock(s'.inside[t]) <==> HoldsLock(s.inside[t]);
  }

  lemma LeavingGuardKeepsInv(s: State, t: Thread, s': State)
    requires Inv(s) && Advances(s, t, s')
    requires s.inside[t].Tried? || s.inside[t].Cleared?
    ensures Inv(s')
  {
    EntryKeepsCount(s.inside, t, s'.inside[t]);
    LeavingGuardKeepsTable(s, t, s');
    LeavingGuardKeepsLocks(s, t, s');
  }

  lemma LeavingBodyKeepsInv(s: State, t: Thread, s': State)
    requires Inv(s) && Advances(s, t, s')
    requires s.inside[t].Running?
    ensures Inv(s')
  {
    EntryKeepsCount(s.inside, t, s'.inside[t]);
  }

  lemma ReleasingKeepsInv(s: State, t: Thread, s': State)
    requires Inv(s) && Advances(s, t, s')
    requires s.inside[t].Releasing?
    ensures Inv(s')
  {
    EntryKeepsCount(s.inside, t, s'.inside[t]);
  }

  lemma ClearingKeepsTable(s: State, t: Thread, s': State)
    requires Inv(s) && Advances(s, t, s')
    requires s.inside[t].Released?
    ensures TableIsCurrent(s') && UnheldIsGuarded(s')
  {
    assert s'.inside == s.inside[t := s'.inside[t]];
  }

  lemma ClearingKeepsLocks(s: State, t: Thread, s': State)
    requires Inv(s) && Advances(s, t, s')
    requires s.inside[t].Released?
    ensures LocksAreHeld(s') && GuardIsHeld(s')
  {
    assert s'.inside == s.inside[t := s'.inside[t]];
  }

  lemma ClearingKeepsInv(s: State, t: Thread, s': State)
    requires Inv(s) && Advances(s, t, s')
    requires s.inside[t].Released?
    ensures Inv(s')
  {
    EntryKeepsCount(s.inside, t, s'.inside[t]);
    ClearingKeepsTable(s, t, s');
    ClearingKeepsLocks(s, t, s');
  }

  lemma GivingBackKeepsInv(s: State, t: Thread, s': State)
    requires Inv(s) && Advances(s, t, s')
    requires s.inside[t].Refused? || s.inside[t].Returning?
    ensures Inv(s')
  {
    EntryKeepsCount(s.inside, t, s.inside[t]);
  }

  lemma StepKeepsInv(s: State, s': State)
    requires Inv(s) && Next(s, s')
    ensures Inv(s')
  {
    if t: Thread, url: Url :| Enters(s, t, url, s') {
      EnteringKeepsInv(s, t, url, s');
    } else {
      var t: Thread :| Advances(s, t, s');
      match s.inside[t] {
        case TookSlot(_) => TakingGuardKeepsInv(s, t, s');
        case Guarded(_) => FindingKeepsInv(s, t, s');
        case Found(_, _) => TryingKeepsInv(s, t, s');
        case Tried(_, _, _) => LeavingGuardKeepsInv(s, t, s');
        case Refused(_) => GivingBackKeepsInv(s, t, s');
        case Running(_, _) => LeavingBodyKeepsInv(s, t, s');
        case Leaving(_, _) => TakingGuardKeepsInv(s, t, s');
        case Releasing(_, _) => ReleasingKeepsInv(s, t, s');
        case Released(_, _) => ClearingKeepsInv(s, t, s');
        case Cleared(_) => LeavingGuardKeepsInv(s, t, s');
        case Returning(_) => GivingBackKeepsInv(s, t, s');
      }
    }
  }

  // ---------- whole runs ----------

  ghost predicate IsRun(run: seq<State>) {
    && run != [] && Initial(run[0])
    && forall i :: 0 <= i < |run| - 1 ==> Next(run[i], run[i + 1])
  }

  lemma {:induction false} EveryRunKeepsInv(run: seq<State>)
    requires IsRun(run)
    ensures Inv(run[|run| - 1])
  {
    if |run| > 1 {
      var init, last := run[..|run| - 1], |run| - 2;
      forall i | 0 <= i < |init| - 1
        ensures Next(init[i], init[i + 1])
      {
        assert Next(run[i], run[i + 1]);
      }
      EveryRunKeepsInv(init);
      StepKeepsInv(run[last], run[last + 1]);
    }
  }

  function RunningThreads(s: State): set<Thread> {
    set t | t in s.inside && s.inside[t].Running?
  }

  /** In every reachable state of every interleaving at most two operations run, at most one for each URL;
      free slots and holders add up to two; a lock that nobody holds stays in the table only under the
      guard; and once everyone has left, every slot is free again and no lock is left behind. */
  lemma SlotSafety(run: seq<State>)
    requires IsRun(run)
    ensures var s := run[|run| - 1];
            && |RunningThreads(s)| <= SLOTS
            && (forall t, t' :: (t in RunningThreads(s) && t' in RunningThreads(s)
                  && s.inside[t].url == s.inside[t'].url) ==> t == t')
            && s.free + |s.inside| == SLOTS
            && (s.guard == None ==> forall url :: url in s.table ==> s.table[url] in s.held)
            && (s.inside == map[] ==> s.free == SLOTS && s.table == map[] && s.held == map[] && s.guard == None)
  {
    EveryRunKeepsInv(run);
    var s := run[|run| - 1];
    FewerThan(RunningThreads(s), s.inside.Keys);
    if s.inside == map[] {
      assert s.table == map[] by {
        if url :| url in s.table {
          assert false;
        }
      }
      assert s.held == map[] by {
        if lock :| lock in s.held {
          assert false;
        }
      }
    }
  }

  lemma {:induction false} FewerThan<T>(fewer: set<T>, more: set<T>)
    requires fewer <= more
    ensures |fewer| <= |more|
  {
    if fewer != {} {
      var x :| x in fewer;
      FewerThan(fewer - {x}, more - {x});
    }
  }

  ghost predicate CanStep(s: State, t: Thread) {
    exists s' :: Advances(s, t, s')
  }

  /** The step of a thread that does not wait for the guard. */
  lemma UnblockedCanStep(s: State, t: Thread)
    requires t in s.inside
    requires s.guard == None || !(s.inside[t].TookSlot? || s.inside[t].Leaving?)
    ensures CanStep(s, t)
  {
    match s.inside[t] {
      case TookSlot(url) => assert Advances(s, t, Goes(s, t, Guarded(url)).(guard := Some(t)));
      case Guarded(url) =>
        if url in s.table {
          assert Advances(s, t, Goes(s, t, Found(url, s.table[url])));
        } else {
          assert Advances(
              s, t, Goes(s, t, Found(url, s.unused)).(table := s.table[url := s.unused], unused := s.unused + 1));
        }
      case Found(url, lock) =>
        if lock in s.held {
          assert Advances(s, t, Goes(s, t, Tried(url, lock, false)));
        } else {
          assert Advances(s, t, Goes(s, t, Tried(url, lock, true)).(held := s.held[lock := t]));
        }
      case Tried(url, lock, acquired) =>
        assert Advances(s, t, Goes(s, t, if acquired then Running(url, lock) else Refused(url)).(guard := None));
      case Refused(_) => assert Advances(s, t, GivesSlotBack(s, t));
      case Running(url, lock) => assert Advances(s, t, Goes(s, t, Leaving(url, lock)));
      case Leaving(url, lock) => assert Advances(s, t, Goes(s, t, Releasing(url, lock)).(guard := Some(t)));
      case Releasing(url, lock) =>
        assert Advances(s, t, Goes(s, t, Released(url, lock)).(held := s.held - {lock}));
      case Released(url, lock) =>
        assert Advances(
            s, t, Goes(s, t, Cleared(url)).(
              table := if url in s.table && s.table[url] == lock then s.table - {url} else s.table));
      case Cleared(url) => assert Advances(s, t, Goes(s, t, Returning(url)).(guard := None));
      case Returning(_) => assert Advances(s, t, GivesSlotBack(s, t));
    }
  }

  /** No deadlock: as long as a thread is inside, some thread inside can take a step. */
  lemma SomeoneCanStep(run: seq<State>) returns (t: Thread)
    requires IsRun(run) && run[|run| - 1].inside != map[]
    ensures t in run[|run| - 1].inside && CanStep(run[|run| - 1], t)
  {
    EveryRunKeepsInv(run);
    var s := run[|run| - 1];
    if s.guard.Some? {
      t := s.guard.value;
    } else {
      t :| t in s.inside;
    }
    UnblockedCanStep(s, t);
  }
}
