/** The background job runner: every job runs as an outer task that submits the job's function
    to the same bounded pool and waits for it with a timeout. The threads of the pool interleave
    at the steps below; each step is a method of the runner, specified by `Apply`. */
module JobRunner {
  import opened Wrappers

  type JobId = nat

  datatype Status = Pending | Running | Success(result: string) | Failed(error: string) {
    predicate Terminal() { Success? || Failed? }
  }

  /** How a job's function ends: with a result, or with an exception (a result that cannot be
      turned into JSON counts as one). */
  datatype Ending = Returned(value: string) | Raised(error: string)

  datatype Future = NotSubmitted | Queued | Executing | Done(ending: Ending) | Cancelled

  /** A row of `background_jobs` with the future of its function; `writes` counts the terminal
      status writes, `runs` the times the function was started, and `lost` says that `_run` ended
      on a status write that failed. */
  datatype Job = Job(status: Status, future: Future, writes: nat, runs: nat, lost: bool)

  datatype Task = Outer(id: JobId) | Inner(id: JobId)

  /** Where `_run` stands: just started, marked RUNNING, waiting for its function, or past a
      wait that timed out. */
  datatype Phase = Launching | Marked | Waiting | Expired

  datatype Slot = Idle | OnOuter(id: JobId, phase: Phase) | OnInner(id: JobId)

  datatype State = State(slots: seq<Slot>, queue: seq<Task>, jobs: map<JobId, Job>)

  datatype Event =
    | Submit(id: JobId)
    | Take(w: nat)
    | MarkRunning(w: nat)
    | SubmitFn(w: nat)
    | FnEnds(w: nat, ending: Ending)
    | Collect(w: nat)
    | Expire(w: nat)
    | GiveUp(w: nat)
    | StoreFails(w: nat, error: string)
    | WriteFails(w: nat)

  predicate OuterAt(s: State, w: nat, phase: Phase) {
    w < |s.slots| && s.slots[w].OnOuter? && s.slots[w].phase == phase && s.slots[w].id in s.jobs
  }

  predicate Enabled(s: State, e: Event) {
    match e
    case Submit(id) => id !in s.jobs
    case Take(w) => w < |s.slots| && s.slots[w].Idle? && s.queue != [] && s.queue[0].id in s.jobs
    case MarkRunning(w) => OuterAt(s, w, Launching)
    case SubmitFn(w) => OuterAt(s, w, Marked)
    case FnEnds(w, _) => w < |s.slots| && s.slots[w].OnInner? && s.slots[w].id in s.jobs
    case Collect(w) => OuterAt(s, w, Waiting) && s.jobs[s.slots[w].id].future.Done?
    case Expire(w) => OuterAt(s, w, Waiting) && !s.jobs[s.slots[w].id].future.Done?
    case GiveUp(w) => OuterAt(s, w, Expired)
    case StoreFails(w, _) =>
      OuterAt(s, w, Waiting) && s.jobs[s.slots[w].id].future.Done? && s.jobs[s.slots[w].id].future.ending.Returned?
    case WriteFails(w) =>
      || OuterAt(s, w, Launching)
      || (OuterAt(s, w, Waiting) && s.jobs[s.slots[w].id].future.Done?)
      || OuterAt(s, w, Expired)
  }

  function Finish(j: Job, status: Status): Job {
    j.(status := status, writes := j.writes + 1)
  }

  /** `future.cancel()`: only a function still in the queue can be cancelled. */
  function TryCancel(j: Job): Job {
    if j.future.Queued? then j.(future := Cancelled) else j
  }

  function Outcome(ending: Ending): Status {
    match ending
    case Returned(v) => Success(v)
    case Raised(e) => Failed(e)
  }

  function Apply(s: State, e: Event): State
    requires Enabled(s, e)
  {
    match e
    case Submit(id) =>
      s.(jobs := s.jobs[id := Job(Pending, NotSubmitted, 0, 0, false)], queue := s.queue + [Outer(id)])
    case Take(w) =>
      var task, rest := s.queue[0], s.(queue := s.queue[1..]);
      if task.Outer? then rest.(slots := s.slots[w := OnOuter(task.id, Launching)])
      else if s.jobs[task.id].future.Cancelled? then rest
      else
        var j := s.jobs[task.id];
        rest.(slots := s.slots[w := OnInner(task.id)],
              jobs := s.jobs[task.id := j.(future := Executing, runs := j.runs + 1)])
    case MarkRunning(w) =>
      var id := s.slots[w].id;
      s.(slots := s.slots[w := OnOuter(id, Marked)], jobs := s.jobs[id := s.jobs[id].(status := Running)])
    case SubmitFn(w) =>
      var id := s.slots[w].id;
      s.(slots := s.slots[w := OnOuter(id, Waiting)], queue := s.queue + [Inner(id)],
         jobs := s.jobs[id := s.jobs[id].(future := Queued)])
    case FnEnds(w, ending) =>
      var id := s.slots[w].id;
      s.(slots := s.slots[w := Idle], jobs := s.jobs[id := s.jobs[id].(future := Done(ending))])
    case Collect(w) =>
      var id := s.slots[w].id;
      s.(slots := s.slots[w := Idle],
         jobs := s.jobs[id := Finish(s.jobs[id], Outcome(s.jobs[id].future.ending))])
    case Expire(w) =>
      s.(slots := s.slots[w := OnOuter(s.slots[w].id, Expired)])
    case GiveUp(w) =>
      var id := s.slots[w].id;
      s.(slots := s.slots[w := Idle], jobs := s.jobs[id := Finish(TryCancel(s.jobs[id]), Failed("timeout"))])
    case StoreFails(w, error) =>
      var id := s.slots[w].id;
      s.(slots := s.slots[w := Idle], jobs := s.jobs[id := Finish(s.jobs[id], Failed(error))])
    case WriteFails(w) =>
      var id := s.slots[w].id;
      var j := if s.slots[w].phase.Expired? then TryCancel(s.jobs[id]) else s.jobs[id];
      s.(slots := s.slots[w := Idle], jobs := s.jobs[id := j.(lost := true)])
  }

  function Init(workers: nat): State {
    State(seq(workers, _ => Idle), [], map[])
  }

  /** The state a sequence of events leads to, if every event is enabled in its turn. */
  function Exec(s: State, events: seq<Event>): Option<State> {
    if events == [] then Some(s)
    else
      var n := |events| - 1;
      var before := Exec(s, events[..n]);
      if before.Some? && Enabled(before.value, events[n]) then Some(Apply(before.value, events[n])) else None
  }

  /** The runner: the pool's threads and queue, and the job rows. */
  class BackgroundJobRunner {
    var slots: seq<Slot>
    var queue: seq<Task>
    var jobs: map<JobId, Job>

    function View(): State
      reads this
    {
      State(slots, queue, jobs)
    }

    constructor (maxWorkers: nat)
      ensures View() == Init(maxWorkers)
    {
      slots, queue, jobs := seq(maxWorkers, _ => Idle), [], map[];
    }

    /** `submit`: save the row, then hand `_run` to the pool. */
    method SubmitJob(id: JobId)
      requires Enabled(View(), Submit(id))
      modifies this
      ensures View() == Apply(old(View()), Submit(id))
    {
      jobs := jobs[id := Job(Pending, NotSubmitted, 0, 0, false)];
      queue := queue + [Outer(id)];
    }

    /** An idle pool thread takes the next queue item; a cancelled one is discarded. */
    method TakeNext(w: nat)
      requires Enabled(View(), Take(w))
      modifies this
      ensures View() == Apply(old(View()), Take(w))
    {
      var task := queue[0];
      queue := queue[1..];
      match task
      case Outer(id) =>
        slots := slots[w := OnOuter(id, Launching)];
      case Inner(id) =>
        var j := jobs[id];
        if !j.future.Cancelled? {
          jobs := jobs[id := j.(future := Executing, runs := j.runs + 1)];
          slots := slots[w := OnInner(id)];
        }
    }

    /** `_run`, first statement: mark the row RUNNING. */
    method RunMarks(w: nat)
      requires Enabled(View(), MarkRunning(w))
      modifies this
      ensures View() == Apply(old(View()), MarkRunning(w))
    {
      var id := slots[w].id;
      jobs := jobs[id := jobs[id].(status := Running)];
      slots := slots[w := OnOuter(id, Marked)];
    }

    /** `_run`: submit the function to the same pool and start waiting. */
    method RunSubmits(w: nat)
      requires Enabled(View(), SubmitFn(w))
      modifies this
      ensures View() == Apply(old(View()), SubmitFn(w))
    {
      var id := slots[w].id;
      queue := queue + [Inner(id)];
      jobs := jobs[id := jobs[id].(future := Queued)];
      slots := slots[w := OnOuter(id, Waiting)];
    }

    method FunctionEnds(w: nat, ending: Ending)
      requires Enabled(View(), FnEnds(w, ending))
      modifies this
      ensures View() == Apply(old(View()), FnEnds(w, ending))
    {
      var id := slots[w].id;
      jobs := jobs[id := jobs[id].(future := Done(ending))];
      slots := slots[w := Idle];
    }

    /** `_run` after a wait that returned the future as done: store its result or exception. */
    method RunCollects(w: nat)
      requires Enabled(View(), Collect(w))
      modifies this
      ensures View() == Apply(old(View()), Collect(w))
    {
      var id := slots[w].id;
      match jobs[id].future.ending
      case Returned(v) =>
        jobs := jobs[id := Finish(jobs[id], Success(v))];
        slots := slots[w := Idle];
      case Raised(e) =>
        jobs := jobs[id := Finish(jobs[id], Failed(e))];
        slots := slots[w := Idle];
    }

    method WaitExpires(w: nat)
      requires Enabled(View(), Expire(w))
      modifies this
      ensures View() == Apply(old(View()), Expire(w))
    {
      slots := slots[w := OnOuter(slots[w].id, Expired)];
    }

    /** `_run` after a wait that timed out: try to cancel, then store the failure. */
    method RunGivesUp(w: nat)
      requires Enabled(View(), GiveUp(w))
      modifies this
      ensures View() == Apply(old(View()), GiveUp(w))
    {
      var id := slots[w].id;
      if jobs[id].future.Queued? {
        jobs := jobs[id := jobs[id].(future := Cancelled)];
      }
      jobs := jobs[id := Finish(jobs[id], Failed("timeout"))];
      slots := slots[w := Idle];
    }

    /** `_run` when storing the result raises: the exception handler stores a failure instead. */
    method RunCannotStore(w: nat, error: string)
      requires Enabled(View(), StoreFails(w, error))
      modifies this
      ensures View() == Apply(old(View()), StoreFails(w, error))
    {
      var id := slots[w].id;
      jobs := jobs[id := Finish(jobs[id], Failed(error))];
      slots := slots[w := Idle];
    }

    /** `_run` when a status write raises that nothing catches: the exception ends in the outer
        future, which nobody reads, and the row keeps the status it had. */
    method RunIsLost(w: nat)
      requires Enabled(View(), WriteFails(w))
      modifies this
      ensures View() == Apply(old(View()), WriteFails(w))
    {
      var id := slots[w].id;
      if slots[w].phase.Expired? && jobs[id].future.Queued? {
        jobs := jobs[id := jobs[id].(future := Cancelled)];
      }
      jobs := jobs[id := jobs[id].(lost := true)];
      slots := slots[w := Idle];
    }
  }
}
