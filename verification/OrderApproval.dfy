/** Orders as the use case runs them: a thread asks for approval while it holds the lock it
    found for its symbol. What the locks exclude, the approval manager need not expect. */
module OrderApproval {
  import opened Wrappers
  import L = SymbolLock
  import A = Approval

  /** `owner` maps each request to the thread that made it. */
  datatype State = State(lock: L.State, approvals: A.State, owner: map<nat, nat>)

  datatype Event =
    | Locking(step: L.Event)
    | Ask(t: nat, r: nat, symbol: string)
    | Approving(event: A.Event)

  /** The thread has no request of its own under way. */
  ghost predicate Idle(s: State, t: nat) {
    forall r :: r in s.owner && s.owner[r] == t && r in s.approvals.requests ==> !A.Active(s.approvals.requests[r])
  }

  /** A thread asks only while it holds its lock, for its own symbol, one request at a time, and
      releases the lock only once its request has ended. */
  ghost predicate Enabled(s: State, e: Event) {
    match e
    case Locking(step) => L.Enabled(s.lock, step) && (step.Release? ==> Idle(s, step.t))
    case Ask(t, r, symbol) =>
      && t in s.lock.threads && s.lock.threads[t].phase.Holding? && s.lock.threads[t].symbol == symbol
      && Idle(s, t) && A.Enabled(s.approvals, A.Start(r, symbol))
    case Approving(event) => !event.Start? && A.Enabled(s.approvals, event)
  }

  ghost function Apply(timeout: nat, s: State, e: Event): State
    requires Enabled(s, e)
  {
    match e
    case Locking(step) => s.(lock := L.Apply(s.lock, step))
    case Ask(t, r, symbol) =>
      s.(approvals := A.Apply(timeout, s.approvals, A.Start(r, symbol)), owner := s.owner[r := t])
    case Approving(event) => s.(approvals := A.Apply(timeout, s.approvals, event))
  }

  ghost function Exec(timeout: nat, events: seq<Event>): Option<State> {
    if events == [] then Some(State(L.EMPTY, A.State(map[], map[]), map[]))
    else
      var n := |events| - 1;
      var before := Exec(timeout, events[..n]);
      if before.Some? && Enabled(before.value, events[n]) then Some(Apply(timeout, before.value, events[n])) else None
  }

  // ---- The two runs within one ----

  function LockRun(events: seq<Event>): seq<L.Event> {
    if events == [] then []
    else
      var n := |events| - 1;
      LockRun(events[..n]) + if events[n].Locking? then [events[n].step] else []
  }

  function ApprovalRun(events: seq<Event>): seq<A.Event> {
    if events == [] then []
    else
      var n := |events| - 1;
      ApprovalRun(events[..n])
      + match events[n]
        case Locking(_) => []
        case Ask(_, r, symbol) => [A.Start(r, symbol)]
        case Approving(event) => [event]
  }

  lemma {:induction false} RunsWithin(timeout: nat, events: seq<Event>)
    requires Exec(timeout, events).Some?
    ensures L.Exec(LockRun(events)) == Some(Exec(timeout, events).value.lock)
    ensures A.Exec(timeout, ApprovalRun(events)) == Some(Exec(timeout, events).value.approvals)
  {
    if events != [] {
      var n := |events| - 1;
      RunsWithin(timeout, events[..n]);
      match events[n]
      case Locking(step) =>
        L.Extend(LockRun(events[..n]), step);
        assert ApprovalRun(events) == ApprovalRun(events[..n]);
      case Ask(_, r, symbol) =>
        A.Extend(timeout, ApprovalRun(events[..n]), A.Start(r, symbol));
        assert LockRun(events) == LockRun(events[..n]);
      case Approving(event) =>
        A.Extend(timeout, ApprovalRun(events[..n]), event);
        assert LockRun(events) == LockRun(events[..n]);
    }
  }

  // ---- Careful locks serialise requests ----

  ghost predicate Owned(s: State, r: nat) {
    && r in s.approvals.requests && r in s.owner
    && s.owner[r] in s.lock.threads
    && s.lock.threads[s.owner[r]].phase.Holding?
    && s.lock.threads[s.owner[r]].symbol == s.approvals.requests[r].symbol
  }

  ghost predicate UnderWay(s: State, r: nat, symbol: string) {
    r in s.approvals.requests && s.approvals.requests[r].symbol == symbol && A.Active(s.approvals.requests[r])
  }

  /** Every request under way belongs to a thread that holds the lock for its symbol. */
  ghost predicate Inv(s: State) {
    forall r :: r in s.approvals.requests && A.Active(s.approvals.requests[r]) ==> Owned(s, r)
  }

  lemma LockingKeepsInv(timeout: nat, s: State, step: L.Event)
    requires Inv(s) && Enabled(s, Locking(step))
    ensures Inv(Apply(timeout, s, Locking(step)))
  {
    var s' := Apply(timeout, s, Locking(step));
    forall r | r in s.approvals.requests && A.Active(s.approvals.requests[r]) ensures Owned(s', r) {
      assert Owned(s, r);
      assert step.t != s.owner[r];
    }
  }

  lemma ApprovingKeepsInv(timeout: nat, s: State, event: A.Event)
    requires Inv(s) && Enabled(s, Approving(event))
    ensures Inv(Apply(timeout, s, Approving(event)))
  {
    var s' := Apply(timeout, s, Approving(event));
    forall r | r in s'.approvals.requests && A.Active(s'.approvals.requests[r]) ensures Owned(s', r) {
      assert r in s.approvals.requests && A.Active(s.approvals.requests[r]);
      assert Owned(s, r);
    }
  }

  lemma AskKeepsInv(timeout: nat, s: State, t: nat, r: nat, symbol: string)
    requires Inv(s) && Enabled(s, Ask(t, r, symbol))
    ensures Inv(Apply(timeout, s, Ask(t, r, symbol)))
  {
    var s' := Apply(timeout, s, Ask(t, r, symbol));
    forall q | q in s'.approvals.requests && A.Active(s'.approvals.requests[q]) ensures Owned(s', q) {
      if q != r {
        assert Owned(s, q);
      }
    }
  }

  /** Under exclusive locks no other request for the symbol is under way when a thread asks. */
  lemma AskIsAlone(s: State, t: nat, r: nat, symbol: string)
    requires Inv(s) && L.Exclusive(s.lock) && Enabled(s, Ask(t, r, symbol))
    ensures !A.Outstanding(s.approvals, symbol)
  {
    HolderOwnsThemAll(s, t, symbol);
    assert forall q :: q in s.approvals.requests ==> !UnderWay(s, q, symbol);
  }

  lemma HolderOwnsThemAll(s: State, t: nat, symbol: string)
    requires Inv(s) && L.Exclusive(s.lock)
    requires t in s.lock.threads && s.lock.threads[t].phase.Holding? && s.lock.threads[t].symbol == symbol
    ensures forall q :: UnderWay(s, q, symbol) ==> q in s.owner && s.owner[q] == t
  {
    forall q | UnderWay(s, q, symbol) ensures q in s.owner && s.owner[q] == t {
      assert Owned(s, q);
    }
  }

  lemma CarefulBefore(events: seq<L.Event>, n: nat)
    requires L.Careful(events) && n <= |events|
    ensures L.Careful(events[..n])
  {
    assert forall m :: 0 <= m < n ==> events[..n][..m] == events[..m] && events[..n][m] == events[m];
  }

  lemma SerialisedNext(timeout: nat, events: seq<A.Event>, e: A.Event)
    requires A.Serialised(timeout, events) && A.Exec(timeout, events).Some?
    requires e.Start? ==> !A.Outstanding(A.Exec(timeout, events).value, e.symbol)
    ensures A.Serialised(timeout, events + [e])
  {
    var all := events + [e];
    assert all[..|events|] == events;
    assert forall n :: 0 <= n < |events| ==> all[..n] == events[..n] && all[n] == events[n];
  }

  /** On every run whose locks are stored carefully, no request starts while one for its symbol
      is outstanding. */
  lemma {:induction false} CarefulLocksSerialise(timeout: nat, events: seq<Event>)
    requires Exec(timeout, events).Some? && L.Careful(LockRun(events))
    ensures Inv(Exec(timeout, events).value)
    ensures A.Serialised(timeout, ApprovalRun(events))
  {
    if events != [] {
      var n := |events| - 1;
      var s := Exec(timeout, events[..n]).value;
      assert LockRun(events)[..|LockRun(events[..n])|] == LockRun(events[..n]);
      CarefulBefore(LockRun(events), |LockRun(events[..n])|);
      CarefulLocksSerialise(timeout, events[..n]);
      RunsWithin(timeout, events[..n]);
      match events[n]
      case Locking(step) =>
        LockingKeepsInv(timeout, s, step);
        assert ApprovalRun(events) == ApprovalRun(events[..n]);
      case Ask(t, r, symbol) =>
        L.LocksExclude(LockRun(events[..n]));
        AskIsAlone(s, t, r, symbol);
        AskKeepsInv(timeout, s, t, r, symbol);
        SerialisedNext(timeout, ApprovalRun(events[..n]), A.Start(r, symbol));
      case Approving(event) =>
        ApprovingKeepsInv(timeout, s, event);
        SerialisedNext(timeout, ApprovalRun(events[..n]), event);
    }
  }

  /** So on those runs an order is approved if and only if the last callback for its symbol
      before its deciding poll approved it, and no order ends in the KeyError. */
  lemma {:induction false} CarefulOrdersAreApprovedRight(timeout: nat, events: seq<Event>, r: nat)
    requires Exec(timeout, events).Some? && L.Careful(LockRun(events))
    requires r in Exec(timeout, events).value.approvals.requests
    ensures var q := Exec(timeout, events).value.approvals.requests[r];
      && !q.phase.Crashed?
      && (q.phase.Returned? ==> (q.phase.verdict <==> A.DecidedBy(ApprovalRun(events), r, q.symbol, true)))
  {
    RunsWithin(timeout, events);
    CarefulLocksSerialise(timeout, events);
    A.ApprovedMeansLastCallbackApproved(timeout, ApprovalRun(events), r);
  }

  // ---- And careless ones need not ----

  function Lifted(steps: seq<L.Event>): seq<Event> {
    seq(|steps|, i requires 0 <= i < |steps| => Locking(steps[i]))
  }

  lemma {:induction false} LiftedRuns(timeout: nat, steps: seq<L.Event>)
    requires L.Exec(steps).Some?
    ensures Exec(timeout, Lifted(steps)) == Some(State(L.Exec(steps).value, A.State(map[], map[]), map[]))
  {
    if steps != [] {
      var n := |steps| - 1;
      LiftedRuns(timeout, steps[..n]);
      assert Lifted(steps)[..n] == Lifted(steps[..n]);
    }
  }

  lemma Extend(timeout: nat, events: seq<Event>, e: Event)
    requires Exec(timeout, events).Some? && Enabled(Exec(timeout, events).value, e)
    ensures Exec(timeout, events + [e]) == Some(Apply(timeout, Exec(timeout, events).value, e))
  {
    assert (events + [e])[..|events|] == events;
  }

  /** For any symbol, two first orders that race for its lock can end in the KeyError. */
  lemma RacingOrdersCanCrash(timeout: nat, symbol: string) returns (run: seq<Event>)
    ensures Exec(timeout, run).Some?
    ensures var requests := Exec(timeout, run).value.approvals.requests;
      1 in requests && requests[1].symbol == symbol && requests[1].phase.Crashed?
  {
    L.FirstOrdersCanOverlap(symbol);
    run := Lifted(L.RacingOrders(symbol));
    LiftedRuns(timeout, L.RacingOrders(symbol));
    Extend(timeout, run, Ask(0, 0, symbol));
    run := run + [Ask(0, 0, symbol)];
    Extend(timeout, run, Ask(1, 1, symbol));
    run := run + [Ask(1, 1, symbol)];
    Extend(timeout, run, Approving(A.SendFails(0)));
    run := run + [Approving(A.SendFails(0))];
    Extend(timeout, run, Approving(A.SendFails(1)));
    run := run + [Approving(A.SendFails(1))];
  }
}
