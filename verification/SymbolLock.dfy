/** The per-symbol locks of the order use case: a dictionary filled on demand, and the order
    placement that runs under the lock found there. The threads interleave at the dictionary
    accesses, since looking a lock up and storing a new one are separate steps. */
module SymbolLock {
  import opened Wrappers

  type LockId = nat

  /** `_get_lock`: a thread that found no lock is about to store one, then every thread reads the
      dictionary, waits for the lock it read, and holds it while it executes. */
  datatype Phase = Creating | Fetching | Acquiring(lock: LockId) | Holding(lock: LockId)

  datatype Thread = Thread(symbol: string, phase: Phase)

  datatype State = State(locks: map<string, LockId>, held: set<LockId>, threads: map<nat, Thread>, next: LockId)

  datatype Event = Enter(t: nat, symbol: string) | Create(t: nat) | Fetch(t: nat) | Acquire(t: nat) | Release(t: nat)

  predicate Enabled(s: State, e: Event) {
    match e
    case Enter(t, _) => t !in s.threads
    case Create(t) => t in s.threads && s.threads[t].phase.Creating?
    case Fetch(t) => t in s.threads && s.threads[t].phase.Fetching? && s.threads[t].symbol in s.locks
    case Acquire(t) => t in s.threads && s.threads[t].phase.Acquiring? && s.threads[t].phase.lock !in s.held
    case Release(t) => t in s.threads && s.threads[t].phase.Holding?
  }

  function MoveTo(s: State, t: nat, phase: Phase): State
    requires t in s.threads
  {
    s.(threads := s.threads[t := s.threads[t].(phase := phase)])
  }

  function Apply(s: State, e: Event): State
    requires Enabled(s, e)
  {
    match e
    case Enter(t, symbol) =>
      s.(threads := s.threads[t := Thread(symbol, if symbol in s.locks then Fetching else Creating)])
    case Create(t) =>
      MoveTo(s, t, Fetching).(locks := s.locks[s.threads[t].symbol := s.next], next := s.next + 1)
    case Fetch(t) => MoveTo(s, t, Acquiring(s.locks[s.threads[t].symbol]))
    case Acquire(t) => MoveTo(s, t, Holding(s.threads[t].phase.lock)).(held := s.held + {s.threads[t].phase.lock})
    case Release(t) =>
      s.(threads := map x | x in s.threads && x != t :: s.threads[x], held := s.held - {s.threads[t].phase.lock})
  }

  const EMPTY := State(map[], {}, map[], 0)

  function Exec(events: seq<Event>): Option<State> {
    if events == [] then Some(EMPTY)
    else
      var n := |events| - 1;
      var before := Exec(events[..n]);
      if before.Some? && Enabled(before.value, events[n]) then Some(Apply(before.value, events[n])) else None
  }

  class SymbolLocks {
    var locks: map<string, LockId>
    var held: set<LockId>
    var threads: map<nat, Thread>
    var next: LockId

    function View(): State
      reads this
    {
      State(locks, held, threads, next)
    }

    constructor ()
      ensures View() == EMPTY
    {
      locks, held, threads, next := map[], {}, map[], 0;
    }

    /** `if symbol not in self._symbol_locks`. */
    method LookUp(t: nat, symbol: string)
      requires Enabled(View(), Enter(t, symbol))
      modifies this
      ensures View() == Apply(old(View()), Enter(t, symbol))
    {
      if symbol !in locks {
        threads := threads[t := Thread(symbol, Creating)];
      } else {
        threads := threads[t := Thread(symbol, Fetching)];
      }
    }

    method StoreNew(t: nat)
      requires Enabled(View(), Create(t))
      modifies this
      ensures View() == Apply(old(View()), Create(t))
    {
      locks := locks[threads[t].symbol := next];
      threads := threads[t := threads[t].(phase := Fetching)];
      next := next + 1;
    }

    method ReadBack(t: nat)
      requires Enabled(View(), Fetch(t))
      modifies this
      ensures View() == Apply(old(View()), Fetch(t))
    {
      threads := threads[t := threads[t].(phase := Acquiring(locks[threads[t].symbol]))];
    }

    method AcquireLock(t: nat)
      requires Enabled(View(), Acquire(t))
      modifies this
      ensures View() == Apply(old(View()), Acquire(t))
    {
      var lock := threads[t].phase.lock;
      held := held + {lock};
      threads := threads[t := threads[t].(phase := Holding(lock))];
    }

    method ReleaseLock(t: nat)
      requires Enabled(View(), Release(t))
      modifies this
      ensures View() == Apply(old(View()), Release(t))
    {
      held := held - {threads[t].phase.lock};
      threads := map x | x in threads && x != t :: threads[x];
    }
  }

  // ---- Mutual exclusion ----

  /** Two threads never hold for the same symbol. */
  ghost predicate Exclusive(s: State) {
    forall t, u :: t in s.threads && u in s.threads && t != u
      && s.threads[t].phase.Holding? && s.threads[u].phase.Holding?
      ==> s.threads[t].symbol != s.threads[u].symbol
  }

  /** Thread `u` has the symbol of `t` and is past reading its lock. */
  ghost predicate StaleReader(s: State, t: nat, u: nat)
    requires t in s.threads && u in s.threads
  {
    u != t && s.threads[u].symbol == s.threads[t].symbol
    && (s.threads[u].phase.Acquiring? || s.threads[u].phase.Holding?)
  }

  ghost predicate NoStaleReader(s: State, t: nat)
    requires t in s.threads
  {
    forall u :: u in s.threads ==> !StaleReader(s, t, u)
  }

  /** Every store of a new lock comes before anyone has read another one for the symbol. */
  ghost predicate Careful(events: seq<Event>) {
    forall n :: 0 <= n < |events| && events[n].Create? && Exec(events[..n]).Some?
      && Enabled(Exec(events[..n]).value, events[n])
      ==> NoStaleReader(Exec(events[..n]).value, events[n].t)
  }

  ghost predicate ThreadOk(s: State, t: nat)
    requires t in s.threads
  {
    match s.threads[t].phase
    case Creating => true
    case Fetching => s.threads[t].symbol in s.locks
    case Acquiring(lock) => s.threads[t].symbol in s.locks && s.locks[s.threads[t].symbol] == lock
    case Holding(lock) => s.threads[t].symbol in s.locks && s.locks[s.threads[t].symbol] == lock && lock in s.held
  }

  ghost predicate Inv(s: State) {
    && (forall t :: t in s.threads ==> ThreadOk(s, t))
    && (forall t, u :: t in s.threads && u in s.threads && t != u
          && s.threads[t].phase.Holding? && s.threads[u].phase.Holding?
          ==> s.threads[t].phase.lock != s.threads[u].phase.lock)
    && (forall symbol :: symbol in s.locks ==> s.locks[symbol] < s.next)
    && (forall a, b :: a in s.locks && b in s.locks && a != b ==> s.locks[a] != s.locks[b])
    && (forall lock :: lock in s.held ==> lock < s.next && Held(s, lock))
  }

  ghost predicate Held(s: State, lock: LockId) {
    exists t :: t in s.threads && s.threads[t].phase == Holding(lock)
  }

  lemma StepThreads(s: State, e: Event)
    requires Inv(s) && Enabled(s, e)
    requires e.Create? ==> NoStaleReader(s, e.t)
    ensures forall t :: t in Apply(s, e).threads ==> ThreadOk(Apply(s, e), t)
  {
    var s' := Apply(s, e);
    if e.t in s.threads {
      assert ThreadOk(s, e.t);
    }
    forall t | t in s'.threads ensures ThreadOk(s', t) {
      if t in s.threads {
        assert ThreadOk(s, t);
      }
    }
  }

  lemma StepHeld(s: State, e: Event)
    requires Inv(s) && Enabled(s, e)
    ensures forall lock :: lock in Apply(s, e).held ==> lock < Apply(s, e).next && Held(Apply(s, e), lock)
  {
    var s' := Apply(s, e);
    if e.t in s.threads {
      assert ThreadOk(s, e.t);
    }
    forall lock | lock in s'.held ensures lock < s'.next && Held(s', lock) {
      if lock in s.held {
        var t :| t in s.threads && s.threads[t].phase == Holding(lock);
        assert t in s'.threads && s'.threads[t] == s.threads[t];
      } else {
        assert s'.threads[e.t].phase == Holding(lock);
      }
    }
  }

  lemma StepInv(s: State, e: Event)
    requires Inv(s) && Enabled(s, e)
    requires e.Create? ==> NoStaleReader(s, e.t)
    ensures Inv(Apply(s, e))
  {
    StepThreads(s, e);
    StepHeld(s, e);
    if e.t in s.threads {
      assert ThreadOk(s, e.t);
    }
  }

  lemma InvIsExclusive(s: State)
    requires Inv(s)
    ensures Exclusive(s)
  {
    assert forall t :: t in s.threads ==> ThreadOk(s, t);
  }

  /** Orders for one symbol exclude each other on every careful run. */
  lemma {:induction false} LocksExclude(events: seq<Event>)
    requires Exec(events).Some? && Careful(events)
    ensures Inv(Exec(events).value) && Exclusive(Exec(events).value)
  {
    if events != [] {
      var n := |events| - 1;
      assert forall m :: 0 <= m < n ==> events[..n][..m] == events[..m] && events[..n][m] == events[m];
      LocksExclude(events[..n]);
      StepInv(Exec(events[..n]).value, events[n]);
    }
    InvIsExclusive(Exec(events).value);
  }

  ghost predicate Overlaps(events: seq<Event>) {
    Exec(events).Some? && !Exclusive(Exec(events).value)
  }

  /** And only on those: the first careless store of a run can always be followed by two
      threads holding for the same symbol. */
  lemma {:induction false} CarelessStoreBreaks(events: seq<Event>, t: nat) returns (run: seq<Event>)
    requires Exec(events).Some? && Careful(events)
    requires Enabled(Exec(events).value, Create(t)) && !NoStaleReader(Exec(events).value, t)
    ensures events + [Create(t)] <= run && Overlaps(run)
  {
    LocksExclude(events);
    var s := Exec(events).value;
    var u :| u in s.threads && StaleReader(s, t, u);
    run := events + [Create(t)] + [Fetch(t), Acquire(t)];
    var after := StoreAndHold(events, s, t);
    run := OverlapFrom(run, s, t, u, after);
  }

  lemma OverlapFrom(events: seq<Event>, s: State, t: nat, u: nat, after: State) returns (run: seq<Event>)
    requires Inv(s) && Enabled(s, Create(t)) && u in s.threads && StaleReader(s, t, u)
    requires after.threads == s.threads[t := s.threads[t].(phase := Holding(s.next))]
    requires after.held == s.held + {s.next}
    requires Exec(events) == Some(after)
    ensures events <= run && Overlaps(run)
  {
    StaleReaderOverlaps(s, t, u, after);
    if s.threads[u].phase.lock in s.held {
      run := events;
    } else {
      run := events + [Acquire(u)];
      Extend(events, Acquire(u));
    }
  }

  lemma StoreAndHold(events: seq<Event>, s: State, t: nat) returns (after: State)
    requires Exec(events) == Some(s) && Inv(s) && Enabled(s, Create(t))
    ensures Exec(events + [Create(t)] + [Fetch(t), Acquire(t)]) == Some(after)
    ensures after.threads == s.threads[t := s.threads[t].(phase := Holding(s.next))]
    ensures after.held == s.held + {s.next}
  {
    after := NewLockIsFree(s, t);
    var stored := events + [Create(t)];
    Extend(events, Create(t));
    Extend(stored, Fetch(t));
    Extend(stored + [Fetch(t)], Acquire(t));
    assert stored + [Fetch(t), Acquire(t)] == stored + [Fetch(t)] + [Acquire(t)];
  }

  /** The thread past reading the old lock holds it, waits for a thread that does, or can take it. */
  lemma StaleReaderOverlaps(s: State, t: nat, u: nat, after: State)
    requires Inv(s) && Enabled(s, Create(t)) && u in s.threads && StaleReader(s, t, u)
    requires after.threads == s.threads[t := s.threads[t].(phase := Holding(s.next))]
    requires after.held == s.held + {s.next}
    ensures if s.threads[u].phase.lock in s.held then !Exclusive(after)
            else Enabled(after, Acquire(u)) && !Exclusive(Apply(after, Acquire(u)))
  {
    assert ThreadOk(s, u);
    var lock := s.threads[u].phase.lock;
    if lock in s.held {
      var h :| h in s.threads && s.threads[h].phase == Holding(lock);
      assert ThreadOk(s, h);
      assert after.threads[h] == s.threads[h] && after.threads[t].phase.Holding?;
    } else {
      assert after.threads[u] == s.threads[u] && lock < s.next;
      var last := Apply(after, Acquire(u));
      assert last.threads[t].phase.Holding? && last.threads[u].phase.Holding?;
    }
  }

  /** Storing, reading back and acquiring a new lock meets no obstacle. */
  lemma NewLockIsFree(s: State, t: nat) returns (after: State)
    requires Inv(s) && Enabled(s, Create(t))
    ensures var a := Apply(s, Create(t));
      Enabled(a, Fetch(t)) && Enabled(Apply(a, Fetch(t)), Acquire(t)) &&
      after == Apply(Apply(a, Fetch(t)), Acquire(t))
    ensures after.threads == s.threads[t := s.threads[t].(phase := Holding(s.next))]
    ensures after.held == s.held + {s.next}
  {
    after := Apply(Apply(Apply(s, Create(t)), Fetch(t)), Acquire(t));
  }

  /** Once a symbol has a lock it keeps having one, and only threads that had found none before
      can still store another: only the first orders of a symbol race. */
  lemma {:induction false} LatecomersNeverStore(events: seq<Event>, more: seq<Event>, t: nat, symbol: string)
    requires Exec(events).Some? && symbol in Exec(events).value.locks
    requires Exec(events + more).Some?
    ensures var before, after := Exec(events).value, Exec(events + more).value;
      && symbol in after.locks
      && (t in after.threads && after.threads[t] == Thread(symbol, Creating) ==>
            t in before.threads && before.threads[t] == Thread(symbol, Creating))
    decreases |more|
  {
    if more == [] {
      assert events + more == events;
    } else {
      var n := |more| - 1;
      assert (events + more)[..|events| + n] == events + more[..n];
      LatecomersNeverStore(events, more[..n], t, symbol);
    }
  }

  function RacingOrders(symbol: string): seq<Event> {
    [Enter(0, symbol), Enter(1, symbol), Create(0), Fetch(0), Acquire(0), Create(1), Fetch(1), Acquire(1)]
  }

  /** Two first orders that both look before either stores end up under different locks. */
  lemma FirstOrdersCanOverlap(symbol: string)
    ensures var events := RacingOrders(symbol);
      && Exec(events).Some? && !Exclusive(Exec(events).value)
      && Exec(events).value.threads == map[0 := Thread(symbol, Holding(0)), 1 := Thread(symbol, Holding(1))]
  {
    var first := [Enter(0, symbol), Enter(1, symbol)];
    Extend([], Enter(0, symbol));
    Extend([Enter(0, symbol)], Enter(1, symbol));
    Extend(first, Create(0));
    Extend(first + [Create(0)], Fetch(0));
    Extend(first + [Create(0)] + [Fetch(0)], Acquire(0));
    var half := first + [Create(0)] + [Fetch(0)] + [Acquire(0)];
    Extend(half, Create(1));
    Extend(half + [Create(1)], Fetch(1));
    Extend(half + [Create(1)] + [Fetch(1)], Acquire(1));
    var events := RacingOrders(symbol);
    assert events == half + [Create(1)] + [Fetch(1)] + [Acquire(1)];
    var s := Exec(events).value;
    assert s.threads[0] == Thread(symbol, Holding(0)) && s.threads[1] == Thread(symbol, Holding(1));
  }

  lemma Extend(events: seq<Event>, e: Event)
    requires Exec(events).Some? && Enabled(Exec(events).value, e)
    ensures Exec(events + [e]) == Some(Apply(Exec(events).value, e))
  {
    assert (events + [e])[..|events|] == events;
  }
}
