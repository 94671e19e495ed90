/** What every interleaving of the job runner keeps. */
module JobRunnerProofs {
  import opened Wrappers
  import opened JobRunner

  // ---- The invariant ----

  function TaskOf(slot: Slot): Option<Task> {
    match slot
    case Idle => None
    case OnOuter(id, _) => Some(Outer(id))
    case OnInner(id) => Some(Inner(id))
  }

  ghost predicate SlotOk(s: State, slot: Slot) {
    match slot
    case Idle => true
    case OnOuter(id, phase) =>
      && id in s.jobs && !s.jobs[id].lost
      && (match phase
          case Launching => s.jobs[id].status.Pending? && s.jobs[id].future.NotSubmitted?
          case Marked => s.jobs[id].status.Running? && s.jobs[id].future.NotSubmitted?
          case _ => s.jobs[id].status.Running? && !s.jobs[id].future.NotSubmitted? && !s.jobs[id].future.Cancelled?)
    case OnInner(id) => id in s.jobs && s.jobs[id].future.Executing?
  }

  ghost predicate QueuedOk(s: State, task: Task) {
    && task.id in s.jobs
    && (match task
        case Outer(id) => s.jobs[id].status.Pending? && s.jobs[id].future.NotSubmitted? && !s.jobs[id].lost
        case Inner(id) => s.jobs[id].future.Queued? || s.jobs[id].future.Cancelled?)
  }

  ghost predicate Holds(s: State, slot: Slot) {
    exists w :: 0 <= w < |s.slots| && s.slots[w] == slot
  }

  ghost predicate InFlight(s: State, id: JobId) {
    Holds(s, OnOuter(id, Marked)) || Holds(s, OnOuter(id, Waiting)) || Holds(s, OnOuter(id, Expired))
  }

  ghost predicate JobOk(s: State, id: JobId)
    requires id in s.jobs
  {
    var j := s.jobs[id];
    && (j.status.Pending? ==> j.future.NotSubmitted?)
    && (j.status.Pending? && !j.lost ==> Outer(id) in s.queue || Holds(s, OnOuter(id, Launching)))
    && (j.status.Running? && !j.lost ==> InFlight(s, id))
    && (j.lost ==> !j.status.Terminal())
    && (j.future.Queued? ==> Inner(id) in s.queue)
    && (j.future.Executing? ==> Holds(s, OnInner(id)))
    && (j.status.Success? ==> j.future == Done(Returned(j.status.result)))
    && (j.status.Failed? ==> !j.future.NotSubmitted? && !j.future.Queued?)
    && j.writes == (if j.status.Terminal() then 1 else 0)
    && j.runs == (if j.future.Executing? || j.future.Done? then 1 else 0)
  }

  ghost predicate TasksDistinct(s: State) {
    && (forall v, w :: 0 <= v < w < |s.slots| && !s.slots[v].Idle? ==> TaskOf(s.slots[v]) != TaskOf(s.slots[w]))
    && (forall i, k :: 0 <= i < k < |s.queue| ==> s.queue[i] != s.queue[k])
    && (forall w, i :: 0 <= w < |s.slots| && 0 <= i < |s.queue| ==> TaskOf(s.slots[w]) != Some(s.queue[i]))
  }

  ghost predicate Inv(s: State) {
    && (forall w :: 0 <= w < |s.slots| ==> SlotOk(s, s.slots[w]))
    && (forall i :: 0 <= i < |s.queue| ==> QueuedOk(s, s.queue[i]))
    && TasksDistinct(s)
    && (forall id: JobId :: id in s.jobs ==> JobOk(s, id))
  }

  lemma InitInv(workers: nat)
    ensures Inv(Init(workers))
  {
  }

  /** Changing slot `w` loses only what it held and gains only what is put there. */
  lemma SlotChange(s: State, t: State, w: nat, slot: Slot)
    requires w < |s.slots| && t.slots == s.slots[w := slot]
    ensures Holds(t, slot)
    ensures forall x :: Holds(s, x) && x != s.slots[w] ==> Holds(t, x)
  {
    assert t.slots[w] == slot;
    forall x | Holds(s, x) && x != s.slots[w] ensures Holds(t, x) {
      var v :| 0 <= v < |s.slots| && s.slots[v] == x;
      assert t.slots[v] == x;
    }
  }

  /** A slot that keeps its task, drops it, or takes the head of the queue. */
  lemma SlotKeepsDistinct(s: State, t: State, w: nat, slot: Slot, taken: nat)
    requires TasksDistinct(s) && w < |s.slots| && taken <= 1 && taken <= |s.queue|
    requires t.slots == s.slots[w := slot] && t.queue == s.queue[taken..]
    requires TaskOf(slot).None? || TaskOf(slot) == TaskOf(s.slots[w])
          || (taken == 1 && TaskOf(slot) == Some(s.queue[0]))
    ensures TasksDistinct(t)
  {
    assert forall v :: 0 <= v < |s.slots| && v != w ==> t.slots[v] == s.slots[v];
    assert forall i :: 0 <= i < |t.queue| ==> t.queue[i] == s.queue[i + taken];
  }

  lemma EnqueueKeepsDistinct(s: State, t: State, task: Task)
    requires TasksDistinct(s) && t.slots == s.slots && t.queue == s.queue + [task]
    requires task !in s.queue && forall w :: 0 <= w < |s.slots| ==> TaskOf(s.slots[w]) != Some(task)
    ensures TasksDistinct(t)
  {
    assert forall i :: 0 <= i < |s.queue| ==> t.queue[i] == s.queue[i] && s.queue[i] in s.queue;
  }

  lemma StepDistinct(s: State, e: Event)
    requires Inv(s) && Enabled(s, e)
    ensures TasksDistinct(Apply(s, e))
  {
    var t := Apply(s, e);
    match e
    case Submit(id) =>
      assert Outer(id) !in s.queue;
      assert forall w :: 0 <= w < |s.slots| ==> SlotOk(s, s.slots[w]);
      EnqueueKeepsDistinct(s, t, Outer(id));
    case Take(w) => SlotKeepsDistinct(s, t, w, t.slots[w], 1);
    case SubmitFn(w) =>
      var id := s.slots[w].id;
      assert SlotOk(s, s.slots[w]);
      assert Inner(id) !in s.queue;
      assert forall v :: 0 <= v < |s.slots| ==> SlotOk(s, s.slots[v]);
      var mid := s.(slots := t.slots);
      SlotKeepsDistinct(s, mid, w, t.slots[w], 0);
      EnqueueKeepsDistinct(mid, t, Inner(id));
    case MarkRunning(w) => SlotKeepsDistinct(s, t, w, t.slots[w], 0);
    case Expire(w) => SlotKeepsDistinct(s, t, w, t.slots[w], 0);
    case FnEnds(w, ending) => SlotKeepsDistinct(s, t, w, Idle, 0);
    case Collect(w) => SlotKeepsDistinct(s, t, w, Idle, 0);
    case GiveUp(w) => SlotKeepsDistinct(s, t, w, Idle, 0);
    case StoreFails(w, _) => SlotKeepsDistinct(s, t, w, Idle, 0);
    case WriteFails(w) => SlotKeepsDistinct(s, t, w, Idle, 0);
  }

  /** The job a step is about. */
  function Subject(s: State, e: Event): JobId
    requires Enabled(s, e)
  {
    match e
    case Submit(id) => id
    case Take(w) => s.queue[0].id
    case _ => s.slots[e.w].id
  }

  lemma OthersUntouched(s: State, e: Event)
    requires Enabled(s, e)
    ensures Apply(s, e).jobs.Keys == s.jobs.Keys + {Subject(s, e)}
    ensures forall id: JobId :: id in s.jobs && id != Subject(s, e) ==> Apply(s, e).jobs[id] == s.jobs[id]
  {
  }

  lemma StepSlots(s: State, e: Event)
    requires Inv(s) && Enabled(s, e)
    ensures forall w :: 0 <= w < |Apply(s, e).slots| ==> SlotOk(Apply(s, e), Apply(s, e).slots[w])
  {
    var t := Apply(s, e);
    OthersUntouched(s, e);
    forall v | 0 <= v < |t.slots| ensures SlotOk(t, t.slots[v]) {
      assert SlotOk(s, s.slots[v]);
      if !e.Submit? {
        assert SlotOk(s, s.slots[e.w]);
        if e.Take? { assert QueuedOk(s, s.queue[0]); }
        if v != e.w {
          assert t.slots[v] == s.slots[v];
          assert !s.slots[v].Idle? ==> TaskOf(s.slots[v]) != TaskOf(s.slots[e.w]);
        }
      }
    }
  }

  lemma StepQueue(s: State, e: Event)
    requires Inv(s) && Enabled(s, e)
    ensures forall i :: 0 <= i < |Apply(s, e).queue| ==> QueuedOk(Apply(s, e), Apply(s, e).queue[i])
  {
    var t := Apply(s, e);
    OthersUntouched(s, e);
    forall i | 0 <= i < |t.queue| ensures QueuedOk(t, t.queue[i]) {
      var k := if e.Take? then i + 1 else i;
      if k < |s.queue| {
        assert t.queue[i] == s.queue[k];
        assert QueuedOk(s, s.queue[k]);
        if e.Take? { assert QueuedOk(s, s.queue[0]); }
        if e.WriteFails? { assert TaskOf(s.slots[e.w]) != Some(s.queue[k]); }
      }
      if !e.Submit? {
        assert SlotOk(s, s.slots[e.w]);
      }
    }
  }

  /** What a step leaves in place for the jobs it is not about. */
  lemma OthersKeepTasks(s: State, e: Event, id: JobId)
    requires Inv(s) && Enabled(s, e) && id != Subject(s, e)
    ensures forall slot :: Holds(s, slot) && TaskOf(slot).Some? && TaskOf(slot).value.id == id ==>
              Holds(Apply(s, e), slot)
    ensures forall task: Task :: task in s.queue && task.id == id ==> task in Apply(s, e).queue
  {
    var t := Apply(s, e);
    if !e.Submit? {
      SlotChange(s, t, e.w, t.slots[e.w]);
    }
  }

  lemma OtherJobOk(s: State, e: Event, id: JobId)
    requires Inv(s) && Enabled(s, e) && id in s.jobs && id != Subject(s, e)
    ensures id in Apply(s, e).jobs && JobOk(Apply(s, e), id)
  {
    OthersUntouched(s, e);
    OthersKeepTasks(s, e, id);
    assert JobOk(s, id);
  }

  /** The steps that put a task into the queue or take one out of it. */
  lemma QueueStepOk(s: State, e: Event)
    requires Inv(s) && Enabled(s, e) && (e.Submit? || e.SubmitFn? || e.Take?)
    ensures Subject(s, e) in Apply(s, e).jobs && JobOk(Apply(s, e), Subject(s, e))
  {
    var t, id := Apply(s, e), Subject(s, e);
    if e.Take? {
      SlotChange(s, t, e.w, t.slots[e.w]);
      assert QueuedOk(s, s.queue[0]) && JobOk(s, id);
      assert forall task :: task in s.queue && task != s.queue[0] ==> task in t.queue;
    } else {
      assert t.queue[|s.queue|] == if e.Submit? then Outer(id) else Inner(id);
      if e.SubmitFn? {
        SlotChange(s, t, e.w, t.slots[e.w]);
        assert SlotOk(s, s.slots[e.w]) && JobOk(s, id);
      }
    }
  }

  /** The steps that only move a busy worker on. */
  lemma WorkerStepOk(s: State, e: Event)
    requires Inv(s) && Enabled(s, e) && !(e.Submit? || e.SubmitFn? || e.Take?)
    ensures Subject(s, e) in Apply(s, e).jobs && JobOk(Apply(s, e), Subject(s, e))
  {
    var t := Apply(s, e);
    SlotChange(s, t, e.w, t.slots[e.w]);
    assert SlotOk(s, s.slots[e.w]) && JobOk(s, Subject(s, e));
    assert t.queue == s.queue;
  }

  lemma StepInv(s: State, e: Event)
    requires Inv(s) && Enabled(s, e)
    ensures Inv(Apply(s, e)) && |Apply(s, e).slots| == |s.slots|
  {
    StepSlots(s, e);
    StepQueue(s, e);
    StepDistinct(s, e);
    forall id | id in Apply(s, e).jobs ensures JobOk(Apply(s, e), id) {
      OthersUntouched(s, e);
      if id == Subject(s, e) {
        if e.Submit? || e.SubmitFn? || e.Take? {
          QueueStepOk(s, e);
        } else {
          WorkerStepOk(s, e);
        }
      } else {
        OtherJobOk(s, e, id);
      }
    }
  }

  lemma {:induction false} ReachableInv(s: State, events: seq<Event>)
    requires Inv(s) && Exec(s, events).Some?
    ensures Inv(Exec(s, events).value) && |Exec(s, events).value.slots| == |s.slots|
  {
    if events != [] {
      var n := |events| - 1;
      ReachableInv(s, events[..n]);
      StepInv(Exec(s, events[..n]).value, events[n]);
    }
  }

  // ---- Life of a job ----

  /** One step moves a status along pending, running, success or failed, and never elsewhere;
      a finished row is never written again. */
  lemma StatusMovesForward(s: State, e: Event, id: JobId)
    requires Inv(s) && Enabled(s, e) && id in s.jobs
    ensures id in Apply(s, e).jobs
    ensures var j, j' := s.jobs[id], Apply(s, e).jobs[id];
      && (j.status == j'.status ||
          (j.status.Pending? && j'.status.Running?) ||
          (j.status.Running? && j'.status.Terminal()))
      && j'.writes == j.writes + (if j'.status.Terminal() && !j.status.Terminal() then 1 else 0)
  {
    OthersUntouched(s, e);
    if !e.Submit? && !e.Take? {
      assert SlotOk(s, s.slots[e.w]);
    }
  }

  /** A finished job keeps its status for good, so a late result is never stored. */
  lemma {:induction false} TerminalAbsorbs(s: State, events: seq<Event>, id: JobId)
    requires Inv(s) && id in s.jobs && s.jobs[id].status.Terminal()
    requires Exec(s, events).Some?
    ensures id in Exec(s, events).value.jobs
    ensures Exec(s, events).value.jobs[id].status == s.jobs[id].status
  {
    if events != [] {
      var n := |events| - 1;
      TerminalAbsorbs(s, events[..n], id);
      ReachableInv(s, events[..n]);
      StatusMovesForward(Exec(s, events[..n]).value, events[n], id);
    }
  }

  /** In every reachable state: at most one run of each function, one terminal write exactly for
      the finished jobs, and a SUCCESS row carries what its one run returned. */
  lemma EveryJobOnce(workers: nat, events: seq<Event>, id: JobId)
    requires Exec(Init(workers), events).Some? && id in Exec(Init(workers), events).value.jobs
    ensures var j := Exec(Init(workers), events).value.jobs[id];
      && j.runs <= 1
      && j.writes == (if j.status.Terminal() then 1 else 0)
      && (j.status.Success? ==> j.runs == 1 && j.future == Done(Returned(j.status.result)))
      && (j.status.Pending? ==> j.runs == 0)
  {
    InitInv(workers);
    ReachableInv(Init(workers), events);
    assert JobOk(Exec(Init(workers), events).value, id);
  }

  /** A job whose function was cancelled in the queue ends as a timeout without ever running. */
  lemma CancelledNeverRuns(workers: nat, events: seq<Event>, more: seq<Event>, id: JobId)
    requires Exec(Init(workers), events).Some?
    requires id in Exec(Init(workers), events).value.jobs
    requires Exec(Init(workers), events).value.jobs[id].future.Cancelled?
    requires Exec(Exec(Init(workers), events).value, more).Some?
    ensures id in Exec(Exec(Init(workers), events).value, more).value.jobs
    ensures Exec(Exec(Init(workers), events).value, more).value.jobs[id].future.Cancelled?
    ensures Exec(Exec(Init(workers), events).value, more).value.jobs[id].runs == 0
  {
    InitInv(workers);
    ReachableInv(Init(workers), events);
    StaysCancelled(Exec(Init(workers), events).value, more, id);
    ReachableInv(Exec(Init(workers), events).value, more);
    assert JobOk(Exec(Exec(Init(workers), events).value, more).value, id);
  }

  lemma {:induction false} StaysCancelled(s: State, more: seq<Event>, id: JobId)
    requires Inv(s) && id in s.jobs && s.jobs[id].future.Cancelled? && Exec(s, more).Some?
    ensures id in Exec(s, more).value.jobs && Exec(s, more).value.jobs[id].future.Cancelled?
  {
    if more != [] {
      var n := |more| - 1;
      StaysCancelled(s, more[..n], id);
      ReachableInv(s, more[..n]);
      var before := Exec(s, more[..n]).value;
      OthersUntouched(before, more[n]);
      if !more[n].Submit? {
        assert SlotOk(before, before.slots[more[n].w]);
      }
    }
  }

  // ---- First in, first out ----

  /** The tasks a run hands to the pool, in order. */
  function HandedIn(s: State, events: seq<Event>): seq<Task> {
    if events == [] then []
    else
      var n := |events| - 1;
      var before := Exec(s, events[..n]);
      HandedIn(s, events[..n])
      + match events[n]
        case Submit(id) => [Outer(id)]
        case SubmitFn(w) => if before.Some? && w < |before.value.slots| && before.value.slots[w].OnOuter? then
                              [Inner(before.value.slots[w].id)] else []
        case _ => []
  }

  /** The tasks the workers of a run take, in order. */
  function TakenOut(s: State, events: seq<Event>): seq<Task> {
    if events == [] then []
    else
      var n := |events| - 1;
      var before := Exec(s, events[..n]);
      TakenOut(s, events[..n])
      + if events[n].Take? && before.Some? && before.value.queue != [] then [before.value.queue[0]] else []
  }

  /** The pool serves in the order of submission: what was taken and what still waits is, in this
      order, what was handed in. */
  lemma {:induction false} ServedInOrder(workers: nat, events: seq<Event>)
    requires Exec(Init(workers), events).Some?
    ensures HandedIn(Init(workers), events)
         == TakenOut(Init(workers), events) + Exec(Init(workers), events).value.queue
  {
    if events != [] {
      var n := |events| - 1;
      ServedInOrder(workers, events[..n]);
      var before, after := Exec(Init(workers), events[..n]).value, Exec(Init(workers), events).value;
      if events[n].Take? {
        assert before.queue == [before.queue[0]] + after.queue;
      }
    }
  }

  // ---- What is stored ----

  /** A worker that collects stores what its function left: the value it returned as SUCCESS, the
      error it raised as FAILED. */
  lemma CollectStores(s: State, w: nat)
    requires Enabled(s, Collect(w))
    ensures var id := s.slots[w].id;
      var before, after := s.jobs[id], Apply(s, Collect(w)).jobs[id];
      match before.future.ending
      case Returned(v) => after.status.Success? && after.status.result == v
      case Raised(e) => after.status.Failed? && after.status.error == e
  {
  }

  /** The step that finishes a row with a failure: a timeout, a result that could not be stored,
      or the function's own exception. */
  ghost predicate FailsWith(s: State, e: Event, id: JobId, error: string)
    requires Enabled(s, e)
  {
    && Subject(s, e) == id
    && match e
       case GiveUp(_) => error == "timeout"
       case StoreFails(_, raised) => error == raised
       case Collect(_) => id in s.jobs && s.jobs[id].future == Done(Raised(error))
       case _ => false
  }

  lemma StepToFailed(s: State, e: Event, id: JobId)
    requires Inv(s) && Enabled(s, e) && id in Apply(s, e).jobs && Apply(s, e).jobs[id].status.Failed?
    ensures if id in s.jobs && s.jobs[id].status == Apply(s, e).jobs[id].status then true
            else FailsWith(s, e, id, Apply(s, e).jobs[id].status.error)
  {
    OthersUntouched(s, e);
    if e.Collect? {
      CollectStores(s, e.w);
    }
    if !e.Submit? {
      assert SlotOk(s, s.slots[e.w]);
    }
  }

  /** Every FAILED row has its cause in the run. */
  lemma {:induction false} FailedHasCause(workers: nat, events: seq<Event>, id: JobId) returns (n: nat)
    requires Exec(Init(workers), events).Some? && id in Exec(Init(workers), events).value.jobs
    requires Exec(Init(workers), events).value.jobs[id].status.Failed?
    ensures n < |events| && Exec(Init(workers), events[..n]).Some?
    ensures Enabled(Exec(Init(workers), events[..n]).value, events[n])
    ensures FailsWith(Exec(Init(workers), events[..n]).value, events[n], id,
                      Exec(Init(workers), events).value.jobs[id].status.error)
  {
    n := |events| - 1;
    InitInv(workers);
    ReachableInv(Init(workers), events[..n]);
    var before := Exec(Init(workers), events[..n]).value;
    StepToFailed(before, events[n], id);
    if id in before.jobs && before.jobs[id].status == Exec(Init(workers), events).value.jobs[id].status {
      var last := n;
      n := FailedHasCause(workers, events[..last], id);
      assert events[..last][..n] == events[..n] && events[..last][n] == events[n];
    }
  }

  lemma StepToDone(s: State, e: Event, id: JobId)
    requires Inv(s) && Enabled(s, e) && id in Apply(s, e).jobs && Apply(s, e).jobs[id].future.Done?
    ensures if id in s.jobs && s.jobs[id].future == Apply(s, e).jobs[id].future then true
            else e.FnEnds? && Subject(s, e) == id && e.ending == Apply(s, e).jobs[id].future.ending
  {
    OthersUntouched(s, e);
    if !e.Submit? {
      assert SlotOk(s, s.slots[e.w]);
    }
  }

  /** A future that is done holds what its function's own end left in it. */
  lemma {:induction false} DoneHasEnd(workers: nat, events: seq<Event>, id: JobId) returns (n: nat)
    requires Exec(Init(workers), events).Some? && id in Exec(Init(workers), events).value.jobs
    requires Exec(Init(workers), events).value.jobs[id].future.Done?
    ensures n < |events| && Exec(Init(workers), events[..n]).Some?
    ensures Enabled(Exec(Init(workers), events[..n]).value, events[n])
    ensures events[n].FnEnds? && Subject(Exec(Init(workers), events[..n]).value, events[n]) == id
    ensures events[n].ending == Exec(Init(workers), events).value.jobs[id].future.ending
  {
    n := |events| - 1;
    InitInv(workers);
    ReachableInv(Init(workers), events[..n]);
    var before := Exec(Init(workers), events[..n]).value;
    StepToDone(before, events[n], id);
    if id in before.jobs && before.jobs[id].future == Exec(Init(workers), events).value.jobs[id].future {
      var last := n;
      n := DoneHasEnd(workers, events[..last], id);
      assert events[..last][..n] == events[..n] && events[..last][n] == events[n];
    }
  }

  lemma {:induction false} ExecSplit(s: State, events: seq<Event>, n: nat)
    requires n <= |events| && Exec(s, events).Some?
    ensures Exec(s, events[..n]).Some?
    ensures Exec(Exec(s, events[..n]).value, events[n..]) == Exec(s, events)
    decreases |events|
  {
    if n == |events| {
      assert events[..n] == events && events[n..] == [];
    } else {
      var m := |events| - 1;
      assert events[..m][..n] == events[..n];
      ExecSplit(s, events[..m], n);
      assert events[n..][..|events[n..]| - 1] == events[..m][n..] && events[n..][|events[n..]| - 1] == events[m];
    }
  }

  /** A job whose wait ended on a returned value and whose result was stored stays SUCCESS with
      that value, whatever follows. */
  lemma {:induction false} CollectedSucceeds(workers: nat, events: seq<Event>, n: nat, v: string)
    requires Exec(Init(workers), events).Some? && n < |events| && events[n].Collect?
    requires Exec(Init(workers), events[..n]).Some? && Enabled(Exec(Init(workers), events[..n]).value, events[n])
    requires var s := Exec(Init(workers), events[..n]).value;
      s.jobs[Subject(s, events[n])].future == Done(Returned(v))
    ensures var s := Exec(Init(workers), events[..n]).value;
      var id := Subject(s, events[n]);
      && id in Exec(Init(workers), events).value.jobs
      && Exec(Init(workers), events).value.jobs[id].status == Success(v)
  {
    var s := Exec(Init(workers), events[..n]).value;
    var id, after := Subject(s, events[n]), Apply(s, events[n]);
    InitInv(workers);
    ReachableInv(Init(workers), events[..n]);
    StepInv(s, events[n]);
    CollectStores(s, events[n].w);
    ExecSplit(Init(workers), events, n + 1);
    assert events[..n + 1][..n] == events[..n];
    TerminalAbsorbs(after, events[n + 1..], id);
  }

  /** And every SUCCESS was stored so: the function ended with the value in the row. */
  lemma {:induction false} SuccessHasEnd(workers: nat, events: seq<Event>, id: JobId) returns (n: nat)
    requires Exec(Init(workers), events).Some? && id in Exec(Init(workers), events).value.jobs
    requires Exec(Init(workers), events).value.jobs[id].status.Success?
    ensures n < |events| && Exec(Init(workers), events[..n]).Some?
    ensures Enabled(Exec(Init(workers), events[..n]).value, events[n])
    ensures events[n].FnEnds? && Subject(Exec(Init(workers), events[..n]).value, events[n]) == id
    ensures events[n].ending == Returned(Exec(Init(workers), events).value.jobs[id].status.result)
  {
    EveryJobOnce(workers, events, id);
    n := DoneHasEnd(workers, events, id);
  }

  // ---- Lost jobs ----

  /** A job is lost by the failure of one of its own status writes and by nothing else. */
  lemma LosesIff(s: State, e: Event, id: JobId)
    requires Inv(s) && Enabled(s, e) && id in s.jobs
    ensures id in Apply(s, e).jobs
    ensures Apply(s, e).jobs[id].lost <==> s.jobs[id].lost || (e.WriteFails? && Subject(s, e) == id)
    ensures s.jobs[id].lost ==> Apply(s, e).jobs[id].status == s.jobs[id].status
  {
    OthersUntouched(s, e);
    if !e.Submit? {
      assert SlotOk(s, s.slots[e.w]);
    }
  }

  /** A lost job keeps the status it had for good: no later step writes its row. */
  lemma {:induction false} LostStays(s: State, events: seq<Event>, id: JobId)
    requires Inv(s) && id in s.jobs && s.jobs[id].lost && Exec(s, events).Some?
    ensures id in Exec(s, events).value.jobs
    ensures Exec(s, events).value.jobs[id].lost && Exec(s, events).value.jobs[id].status == s.jobs[id].status
  {
    if events != [] {
      var n := |events| - 1;
      LostStays(s, events[..n], id);
      ReachableInv(s, events[..n]);
      LosesIff(Exec(s, events[..n]).value, events[n], id);
    }
  }

  /** As long as no status write fails for good, no job is lost. */
  lemma {:induction false} NothingLost(workers: nat, events: seq<Event>, id: JobId)
    requires Exec(Init(workers), events).Some? && id in Exec(Init(workers), events).value.jobs
    requires forall i :: 0 <= i < |events| ==> !events[i].WriteFails?
    ensures !Exec(Init(workers), events).value.jobs[id].lost
  {
    if events != [] {
      var n := |events| - 1;
      InitInv(workers);
      ReachableInv(Init(workers), events[..n]);
      var before := Exec(Init(workers), events[..n]).value;
      OthersUntouched(before, events[n]);
      if id in before.jobs {
        NothingLost(workers, events[..n], id);
        LosesIff(before, events[n], id);
      }
    }
  }

  // ---- Termination ----

  function TaskWeight(task: Task): nat {
    if task.Outer? then 7 else 2
  }

  function SlotWeight(slot: Slot): nat {
    match slot
    case Idle => 0
    case OnInner(_) => 1
    case OnOuter(_, Launching) => 6
    case OnOuter(_, Marked) => 5
    case OnOuter(_, Waiting) => 2
    case OnOuter(_, Expired) => 1
  }

  function QueueWeight(queue: seq<Task>): nat {
    if queue == [] then 0 else TaskWeight(queue[0]) + QueueWeight(queue[1..])
  }

  function SlotsWeight(slots: seq<Slot>): nat {
    if slots == [] then 0 else SlotWeight(slots[0]) + SlotsWeight(slots[1..])
  }

  /** How many steps the work on hand can still take. */
  function Measure(s: State): nat {
    QueueWeight(s.queue) + SlotsWeight(s.slots)
  }

  lemma {:induction false} QueueWeightSnoc(queue: seq<Task>, task: Task)
    ensures QueueWeight(queue + [task]) == QueueWeight(queue) + TaskWeight(task)
  {
    if queue == [] {
      assert [] + [task] == [task];
    } else {
      assert (queue + [task])[1..] == queue[1..] + [task];
      QueueWeightSnoc(queue[1..], task);
    }
  }

  lemma {:induction false} SlotsWeightUpdate(slots: seq<Slot>, w: nat, slot: Slot)
    requires w < |slots|
    ensures SlotsWeight(slots[w := slot]) + SlotWeight(slots[w]) == SlotsWeight(slots) + SlotWeight(slot)
  {
    if w > 0 {
      assert slots[w := slot][1..] == slots[1..][w - 1 := slot];
      SlotsWeightUpdate(slots[1..], w - 1, slot);
    } else {
      assert slots[w := slot][1..] == slots[1..];
    }
  }

  lemma StepDecreases(s: State, e: Event)
    requires Enabled(s, e)
    ensures if e.Submit? then Measure(Apply(s, e)) == Measure(s) + 7 else Measure(Apply(s, e)) < Measure(s)
  {
    match e
    case Submit(id) => QueueWeightSnoc(s.queue, Outer(id));
    case SubmitFn(w) =>
      QueueWeightSnoc(s.queue, Inner(s.slots[w].id));
      SlotsWeightUpdate(s.slots, w, Apply(s, e).slots[w]);
    case _ => SlotsWeightUpdate(s.slots, e.w, Apply(s, e).slots[e.w]);
  }

  function Submits(events: seq<Event>): nat {
    if events == [] then 0
    else Submits(events[..|events| - 1]) + if events[|events| - 1].Submit? then 1 else 0
  }

  /** No run takes more than seven further steps per submitted job. */
  lemma {:induction false} RunsAreShort(workers: nat, events: seq<Event>)
    requires Exec(Init(workers), events).Some?
    ensures |events| + Measure(Exec(Init(workers), events).value) <= 8 * Submits(events)
  {
    if events == [] {
      IdleWeighsNothing(workers);
    } else {
      var n := |events| - 1;
      RunsAreShort(workers, events[..n]);
      StepDecreases(Exec(Init(workers), events[..n]).value, events[n]);
    }
  }

  lemma {:induction false} IdleWeighsNothing(workers: nat)
    ensures SlotsWeight(seq(workers, _ => Idle)) == 0
  {
    if workers > 0 {
      assert seq(workers, _ => Idle)[1..] == seq(workers - 1, _ => Idle);
      IdleWeighsNothing(workers - 1);
    }
  }

  /** When nothing but new submissions is possible, every job has ended, unless it was lost to a
      status write that failed, and the pool is empty. */
  lemma QuiescentMeansFinished(s: State)
    requires Inv(s) && |s.slots| > 0
    requires forall e: Event :: !e.Submit? ==> !Enabled(s, e)
    ensures s.queue == [] && forall w :: 0 <= w < |s.slots| ==> s.slots[w].Idle?
    ensures forall id: JobId :: id in s.jobs ==> s.jobs[id].status.Terminal() || s.jobs[id].lost
  {
    forall w | 0 <= w < |s.slots| ensures s.slots[w].Idle? {
      if !s.slots[w].Idle? {
        SomethingToDo(s, w);
      }
    }
    if s.queue != [] {
      IdleWorkerTakes(s, 0);
    }
    forall id | id in s.jobs ensures s.jobs[id].status.Terminal() || s.jobs[id].lost {
      assert JobOk(s, id);
    }
  }

  lemma IdleWorkerTakes(s: State, w: nat)
    requires Inv(s) && w < |s.slots| && s.slots[w].Idle? && s.queue != []
    ensures Enabled(s, Take(w))
  {
    assert QueuedOk(s, s.queue[0]);
  }

  /** Every busy slot has a step of its own, if only a timeout. */
  lemma SomethingToDo(s: State, w: nat)
    requires Inv(s) && w < |s.slots| && !s.slots[w].Idle?
    ensures exists e: Event :: !e.Submit? && Enabled(s, e)
  {
    assert SlotOk(s, s.slots[w]);
    match s.slots[w]
    case OnInner(id) => assert Enabled(s, FnEnds(w, Raised("")));
    case OnOuter(id, Launching) => assert Enabled(s, MarkRunning(w));
    case OnOuter(id, Marked) => assert Enabled(s, SubmitFn(w));
    case OnOuter(id, Waiting) =>
      assert Enabled(s, Collect(w)) || Enabled(s, Expire(w));
    case OnOuter(id, Expired) => assert Enabled(s, GiveUp(w));
  }

  // ---- Starvation ----

  /** All workers hold a `_run` that waits for a function still in the queue behind them. */
  ghost predicate AllWaitOnQueued(s: State) {
    forall w :: 0 <= w < |s.slots| ==>
      s.slots[w].OnOuter? && s.slots[w].phase.Waiting? && Inner(s.slots[w].id) in s.queue
  }

  ghost predicate OnlyTimeoutsLeft(s: State) {
    forall e: Event :: !e.Submit? && !e.Expire? ==> !Enabled(s, e)
  }

  ghost function UnfinishedJobs(s: State): set<JobId> {
    set id | id in s.jobs && Unfinished(s, id)
  }

  ghost predicate Unfinished(s: State, id: JobId) {
    id in s.jobs && !s.jobs[id].status.Terminal() && !s.jobs[id].lost
  }

  /** The exact deadlock of the nested pool: with work outstanding, nothing but a timeout can
      happen if and only if every worker waits on a function that is still queued. */
  lemma StuckIff(s: State, id: JobId)
    requires Inv(s) && |s.slots| > 0 && Unfinished(s, id)
    ensures OnlyTimeoutsLeft(s) <==> AllWaitOnQueued(s)
  {
    if AllWaitOnQueued(s) {
      forall e: Event | !e.Submit? && !e.Expire? ensures !Enabled(s, e) {
        if Enabled(s, e) {
          WaitingOnQueuedIsNotDone(s, e.w);
        }
      }
    }
    if OnlyTimeoutsLeft(s) {
      forall w | 0 <= w < |s.slots| ensures s.slots[w].Idle? || QuietlyWaiting(s, w) {
        BusyAndQuiet(s, w);
      }
      QuietMeansQueued(s, id);
      assert QueuedOk(s, s.queue[0]);
      forall w | 0 <= w < |s.slots| ensures !s.slots[w].Idle? {
        assert !Enabled(s, Take(w));
      }
    }
  }

  lemma QuietMeansQueued(s: State, id: JobId)
    requires Inv(s) && Unfinished(s, id)
    requires forall w :: 0 <= w < |s.slots| ==> s.slots[w].Idle? || QuietlyWaiting(s, w)
    ensures s.queue != []
  {
    assert JobOk(s, id);
    if Outer(id) !in s.queue {
      assert InFlight(s, id) || Holds(s, OnOuter(id, Launching));
      var w :| 0 <= w < |s.slots| && s.slots[w].OnOuter? && s.slots[w].id == id;
      assert QuietlyWaiting(s, w);
    }
  }

  ghost predicate QuietlyWaiting(s: State, w: nat)
    requires w < |s.slots|
  {
    s.slots[w].OnOuter? && s.slots[w].phase.Waiting? && Inner(s.slots[w].id) in s.queue
  }

  lemma WaitingOnQueuedIsNotDone(s: State, w: nat)
    requires Inv(s) && w < |s.slots| && QuietlyWaiting(s, w)
    ensures s.slots[w].id in s.jobs && s.jobs[s.slots[w].id].future.Queued?
  {
    assert SlotOk(s, s.slots[w]);
    var i :| 0 <= i < |s.queue| && s.queue[i] == Inner(s.slots[w].id);
    assert QueuedOk(s, s.queue[i]);
  }

  lemma BusyAndQuiet(s: State, w: nat)
    requires Inv(s) && OnlyTimeoutsLeft(s) && w < |s.slots|
    ensures s.slots[w].Idle? || QuietlyWaiting(s, w)
  {
    assert SlotOk(s, s.slots[w]);
    match s.slots[w]
    case Idle =>
    case OnInner(id) => NotRunning(s, w);
    case OnOuter(id, phase) =>
      assert !Enabled(s, MarkRunning(w)) && !Enabled(s, SubmitFn(w)) && !Enabled(s, GiveUp(w));
      assert !Enabled(s, Collect(w));
      assert JobOk(s, id);
      if s.jobs[id].future.Executing? {
        var v :| 0 <= v < |s.slots| && s.slots[v] == OnInner(id);
        NotRunning(s, v);
      }
  }

  lemma NotRunning(s: State, w: nat)
    requires Inv(s) && OnlyTimeoutsLeft(s) && w < |s.slots|
    ensures !s.slots[w].OnInner?
  {
    assert SlotOk(s, s.slots[w]);
    assert !Enabled(s, FnEnds(w, Raised("")));
  }

  lemma {:induction false} DistinctFit<T>(xs: seq<T>, all: set<T>)
    requires forall i, k :: 0 <= i < k < |xs| ==> xs[i] != xs[k]
    requires forall i :: 0 <= i < |xs| ==> xs[i] in all
    ensures |xs| <= |all|
  {
    if xs != [] {
      DistinctFit(xs[1..], all - {xs[0]});
    }
  }

  /** With fewer unfinished jobs than workers the pool always has a step other than a timeout. */
  lemma FewJobsNeverStarve(s: State, id: JobId)
    requires Inv(s) && Unfinished(s, id)
    requires |UnfinishedJobs(s)| < |s.slots|
    ensures !OnlyTimeoutsLeft(s)
  {
    StuckIff(s, id);
    if AllWaitOnQueued(s) {
      var ids := seq(|s.slots|, w requires 0 <= w < |s.slots| => s.slots[w].id);
      forall w | 0 <= w < |ids| ensures Unfinished(s, ids[w]) {
        assert SlotOk(s, s.slots[w]);
      }
      forall v, w | 0 <= v < w < |ids| ensures ids[v] != ids[w] {
        assert TaskOf(s.slots[v]) != TaskOf(s.slots[w]);
      }
      DistinctFit(ids, UnfinishedJobs(s));
    }
  }

  // ---- The bound is sharp: as many jobs as workers can starve ----

  function LaunchOne(k: nat): seq<Event> {
    [Submit(k), Take(k), MarkRunning(k)]
  }

  function LaunchAll(n: nat): seq<Event> {
    if n == 0 then [] else LaunchAll(n - 1) + LaunchOne(n - 1)
  }

  /** `workers` jobs, all started before the first of them submits its function. */
  function StarvingRun(workers: nat, submitted: nat): seq<Event>
    requires submitted <= workers
  {
    if submitted == 0 then LaunchAll(workers) else StarvingRun(workers, submitted - 1) + [SubmitFn(submitted - 1)]
  }

  function StarvingSlots(workers: nat, launched: nat, submitted: nat): seq<Slot>
    requires submitted <= launched <= workers
  {
    seq(workers, (w: nat) => if w < submitted then OnOuter(w, Waiting)
                             else if w < launched then OnOuter(w, Marked) else Idle)
  }

  function StarvingJobs(launched: nat, submitted: nat): (jobs: map<JobId, Job>)
    ensures forall id: JobId :: id in jobs <==> id < launched
    ensures forall id: JobId :: id in jobs ==> jobs[id] == StarvingJob(id, submitted)
  {
    if launched == 0 then map[]
    else StarvingJobs(launched - 1, submitted)[launched - 1 := StarvingJob(launched - 1, submitted)]
  }

  function StarvingJob(id: JobId, submitted: nat): Job {
    Job(Running, if id < submitted then Queued else NotSubmitted, 0, 0, false)
  }

  function StarvingState(workers: nat, launched: nat, submitted: nat): State
    requires submitted <= launched <= workers
  {
    State(StarvingSlots(workers, launched, submitted), seq(submitted, (i: nat) => Inner(i)),
          StarvingJobs(launched, submitted))
  }

  lemma SubmittedOne(workers: nat, k: nat)
    requires k < workers
    ensures var before := StarvingState(workers, workers, k);
      Enabled(before, SubmitFn(k)) && Apply(before, SubmitFn(k)) == StarvingState(workers, workers, k + 1)
  {
    var before, after := StarvingState(workers, workers, k), StarvingState(workers, workers, k + 1);
    var t := Apply(before, SubmitFn(k));
    assert t.slots == after.slots;
    assert t.queue == after.queue;
    assert t.jobs == after.jobs by {
      assert forall id: JobId :: id in t.jobs ==> t.jobs[id] == StarvingJob(id, k + 1);
    }
  }

  lemma ExecSnoc(s: State, events: seq<Event>, e: Event)
    requires Exec(s, events).Some? && Enabled(Exec(s, events).value, e)
    ensures Exec(s, events + [e]) == Some(Apply(Exec(s, events).value, e))
  {
    assert (events + [e])[..|events|] == events;
  }

  lemma ExecThree(s: State, events: seq<Event>, d: Event, e: Event, f: Event)
    requires Exec(s, events).Some? && Enabled(Exec(s, events).value, d)
    requires Enabled(Apply(Exec(s, events).value, d), e)
    requires Enabled(Apply(Apply(Exec(s, events).value, d), e), f)
    ensures Exec(s, events + [d, e, f]) == Some(Apply(Apply(Apply(Exec(s, events).value, d), e), f))
  {
    ExecSnoc(s, events, d);
    ExecSnoc(s, events + [d], e);
    ExecSnoc(s, events + [d] + [e], f);
    assert events + [d] + [e] + [f] == events + [d, e, f];
  }

  lemma LaunchNext(workers: nat, k: nat, events: seq<Event>)
    requires k < workers && Exec(Init(workers), events) == Some(StarvingState(workers, k, 0))
    ensures Exec(Init(workers), events + LaunchOne(k)) == Some(StarvingState(workers, k + 1, 0))
  {
    LaunchedOne(workers, k);
    ExecThree(Init(workers), events, Submit(k), Take(k), MarkRunning(k));
  }

  lemma LaunchedAll(workers: nat, k: nat)
    requires k < workers && Exec(Init(workers), LaunchAll(k)) == Some(StarvingState(workers, k, 0))
    ensures Exec(Init(workers), LaunchAll(k + 1)) == Some(StarvingState(workers, k + 1, 0))
  {
    LaunchNext(workers, k, LaunchAll(k));
  }

  lemma NothingLaunched(workers: nat)
    ensures Exec(Init(workers), LaunchAll(0)) == Some(StarvingState(workers, 0, 0))
  {
    var start, goal := Init(workers), StarvingState(workers, 0, 0);
    assert start.slots == goal.slots && start.queue == goal.queue && start.jobs == goal.jobs;
    assert LaunchAll(0) == [];
  }

  lemma {:induction false} LaunchReaches(workers: nat, n: nat)
    requires n <= workers
    ensures Exec(Init(workers), LaunchAll(n)) == Some(StarvingState(workers, n, 0))
  {
    if n == 0 {
      NothingLaunched(workers);
    } else {
      var k := n - 1;
      LaunchReaches(workers, k);
      LaunchedAll(workers, k);
    }
  }

  lemma LaunchedOne(workers: nat, k: nat)
    requires k < workers
    ensures var base := StarvingState(workers, k, 0);
      Enabled(base, Submit(k)) &&
      var a := Apply(base, Submit(k));
      Enabled(a, Take(k)) &&
      var b := Apply(a, Take(k));
      Enabled(b, MarkRunning(k)) && Apply(b, MarkRunning(k)) == StarvingState(workers, k + 1, 0)
  {
    var a := Apply(StarvingState(workers, k, 0), Submit(k));
    assert a.queue == [Outer(k)] && a.queue[1..] == [];
    var c := Apply(Apply(a, Take(k)), MarkRunning(k));
    var goal := StarvingState(workers, k + 1, 0);
    assert c.slots == goal.slots;
    assert c.jobs == goal.jobs;
  }

  lemma {:induction false} StarvingReaches(workers: nat, n: nat)
    requires n <= workers
    ensures Exec(Init(workers), StarvingRun(workers, n)) == Some(StarvingState(workers, workers, n))
  {
    if n == 0 {
      LaunchReaches(workers, workers);
    } else {
      var k := n - 1;
      StarvingReaches(workers, k);
      SubmittedOne(workers, k);
      ExecSnoc(Init(workers), StarvingRun(workers, k), SubmitFn(k));
    }
  }

  /** For every pool size there is a run of that many jobs that leaves nothing but timeouts,
      with no function ever started. */
  lemma StarvationIsReachable(workers: nat)
    requires workers > 0
    ensures Exec(Init(workers), StarvingRun(workers, workers)).Some?
    ensures var s := Exec(Init(workers), StarvingRun(workers, workers)).value;
      && OnlyTimeoutsLeft(s)
      && |s.slots| == workers
      && (forall id: JobId :: id in s.jobs <==> id < workers)
      && (forall id: JobId :: id in s.jobs ==> Unfinished(s, id) && s.jobs[id].runs == 0)
  {
    StarvingReaches(workers, workers);
    var s := StarvingState(workers, workers, workers);
    InitInv(workers);
    ReachableInv(Init(workers), StarvingRun(workers, workers));
    forall w | 0 <= w < |s.slots| ensures Inner(s.slots[w].id) in s.queue {
      assert s.queue[w] == Inner(w);
    }
    StuckIff(s, 0);
  }
}
