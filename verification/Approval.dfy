/** Human approval of orders: requests that wait and callbacks that arrive in between. Symbols
    are taken as already upper-cased, which is what both sides of the source do first. */
module Approval {
  import opened Wrappers

  datatype Kind = Approve | Cancel | Unknown

  /** Where `request_approval` stands: sending its message, polling, past the loop with its
      verdict taken, returned, or ended by the KeyError of deleting an absent entry. */
  datatype Phase = Sending | Waiting | Deciding(verdict: bool) | Returned(verdict: bool) | Crashed

  datatype Request = Request(symbol: string, approved: Option<bool>, polls: nat, phase: Phase)

  datatype State = State(requests: map<nat, Request>, pending: map<string, nat>)

  datatype Event =
    | Start(r: nat, symbol: string)
    | SendOk(r: nat)
    | SendFails(r: nat)
    | Callback(kind: Kind, symbol: string)
    | Poll(r: nat)
    | Finish(r: nat)

  predicate Active(q: Request) {
    q.phase.Sending? || q.phase.Waiting? || q.phase.Deciding?
  }

  predicate Enabled(s: State, e: Event) {
    match e
    case Start(r, _) => r !in s.requests
    case SendOk(r) => r in s.requests && s.requests[r].phase.Sending?
    case SendFails(r) => r in s.requests && s.requests[r].phase.Sending?
    case Callback(_, _) => true
    case Poll(r) => r in s.requests && s.requests[r].phase.Waiting?
    case Finish(r) => r in s.requests && s.requests[r].phase.Deciding?
  }

  function Without(pending: map<string, nat>, symbol: string): map<string, nat> {
    map k | k in pending && k != symbol :: pending[k]
  }

  /** `del self._pending[symbol]`, then return. */
  function Leave(s: State, r: nat, verdict: bool): State
    requires r in s.requests
  {
    var q := s.requests[r];
    if q.symbol in s.pending then
      State(s.requests[r := q.(phase := Returned(verdict))], Without(s.pending, q.symbol))
    else s.(requests := s.requests[r := q.(phase := Crashed)])
  }

  function Verdict(kind: Kind, before: Option<bool>): Option<bool> {
    match kind case Approve => Some(true) case Cancel => Some(false) case Unknown => before
  }

  /** The polling loop's next turn, twice a second for `timeout` seconds: sleep once more, or
      leave the loop with what was answered. */
  function PollOnce(timeout: nat, q: Request): Request {
    if q.polls < 2 * timeout && q.approved.None? then q.(polls := q.polls + 1)
    else q.(phase := Deciding(q.approved == Some(true)))
  }

  function Apply(timeout: nat, s: State, e: Event): State
    requires Enabled(s, e)
  {
    match e
    case Start(r, symbol) => State(s.requests[r := Request(symbol, None, 0, Sending)], s.pending[symbol := r])
    case SendOk(r) => s.(requests := s.requests[r := s.requests[r].(phase := Waiting)])
    case SendFails(r) => Leave(s, r, false)
    case Callback(kind, symbol) =>
      if symbol in s.pending && s.pending[symbol] in s.requests then
        var r := s.pending[symbol];
        s.(requests := s.requests[r := s.requests[r].(approved := Verdict(kind, s.requests[r].approved))])
      else s
    case Poll(r) => s.(requests := s.requests[r := PollOnce(timeout, s.requests[r])])
    case Finish(r) => Leave(s, r, s.requests[r].phase.verdict)
  }

  function Exec(timeout: nat, events: seq<Event>): Option<State> {
    if events == [] then Some(State(map[], map[]))
    else
      var n := |events| - 1;
      var before := Exec(timeout, events[..n]);
      if before.Some? && Enabled(before.value, events[n]) then Some(Apply(timeout, before.value, events[n])) else None
  }

  /** The manager: requests by number stand for the coroutines and their `PendingApproval`. */
  class ApprovalManager {
    var requests: map<nat, Request>
    var pending: map<string, nat>
    const timeout: nat

    function View(): State
      reads this
    {
      State(requests, pending)
    }

    constructor (timeout: nat)
      ensures View() == State(map[], map[]) && this.timeout == timeout
    {
      requests, pending, this.timeout := map[], map[], timeout;
    }

    method RequestApproval(r: nat, symbol: string)
      requires Enabled(View(), Start(r, symbol))
      modifies this
      ensures View() == Apply(timeout, old(View()), Start(r, symbol))
    {
      requests := requests[r := Request(symbol, None, 0, Sending)];
      pending := pending[symbol := r];
    }

    method MessageSent(r: nat, ok: bool)
      requires Enabled(View(), if ok then SendOk(r) else SendFails(r))
      modifies this
      ensures View() == Apply(timeout, old(View()), if ok then SendOk(r) else SendFails(r))
    {
      if ok {
        requests := requests[r := requests[r].(phase := Waiting)];
      } else {
        RemoveAndReturn(r, false);
      }
    }

    /** `handle_callback`: a symbol that is not pending changes nothing. */
    method HandleCallback(kind: Kind, symbol: string)
      modifies this
      ensures View() == Apply(timeout, old(View()), Callback(kind, symbol))
    {
      if symbol in pending && pending[symbol] in requests {
        var r := pending[symbol];
        match kind
        case Approve => requests := requests[r := requests[r].(approved := Some(true))];
        case Cancel => requests := requests[r := requests[r].(approved := Some(false))];
        case Unknown => assert requests[r := requests[r]] == requests;
      }
    }

    method PollAgain(r: nat)
      requires Enabled(View(), Poll(r))
      modifies this
      ensures View() == Apply(timeout, old(View()), Poll(r))
    {
      var q := requests[r];
      if q.polls < 2 * timeout && q.approved.None? {
        requests := requests[r := q.(polls := q.polls + 1)];
      } else {
        requests := requests[r := q.(phase := Deciding(q.approved == Some(true)))];
      }
    }

    method Conclude(r: nat)
      requires Enabled(View(), Finish(r))
      modifies this
      ensures View() == Apply(timeout, old(View()), Finish(r))
    {
      RemoveAndReturn(r, requests[r].phase.verdict);
    }

    method RemoveAndReturn(r: nat, verdict: bool)
      requires r in requests
      modifies this
      ensures View() == Leave(old(View()), r, verdict)
    {
      var q := requests[r];
      if q.symbol in pending {
        requests := requests[r := q.(phase := Returned(verdict))];
        pending := Without(pending, q.symbol);
      } else {
        requests := requests[r := q.(phase := Crashed)];
      }
    }
  }

  // ---- What a run answers ----

  ghost predicate Outstanding(s: State, symbol: string) {
    exists r :: r in s.requests && s.requests[r].symbol == symbol && Active(s.requests[r])
  }

  /** Every request starts while none for its symbol is outstanding: what the use case's
      per-symbol lock is there to ensure. */
  ghost predicate Serialised(timeout: nat, events: seq<Event>) {
    forall n :: 0 <= n < |events| && events[n].Start? && Exec(timeout, events[..n]).Some?
      ==> !Outstanding(Exec(timeout, events[..n]).value, events[n].symbol)
  }

  /** The last approve or cancel for a symbol since the last request for it. */
  function LastVerdict(events: seq<Event>, symbol: string): Option<bool> {
    if events == [] then None
    else VerdictAfter(LastVerdict(events[..|events| - 1], symbol), events[|events| - 1], symbol)
  }

  function VerdictAfter(before: Option<bool>, e: Event, symbol: string): Option<bool> {
    match e
    case Start(_, other) => if other == symbol then None else before
    case Callback(Approve, other) => if other == symbol then Some(true) else before
    case Callback(Cancel, other) => if other == symbol then Some(false) else before
    case _ => before
  }

  /** The last poll of request `r`, which is the one that left its loop once the request has
      decided, and whether the last callback before it approved. */
  ghost predicate DecidedBy(events: seq<Event>, r: nat, symbol: string, approved: bool) {
    exists n :: 0 <= n < |events| && events[n] == Poll(r)
      && (forall m :: n < m < |events| ==> events[m] != Poll(r))
      && (LastVerdict(events[..n], symbol) == Some(true) <==> approved)
  }

  lemma DecidedOneWay(events: seq<Event>, r: nat, symbol: string)
    ensures !(DecidedBy(events, r, symbol, true) && DecidedBy(events, r, symbol, false))
  {
  }

  lemma DecidedStays(events: seq<Event>, e: Event, r: nat, symbol: string, approved: bool)
    requires DecidedBy(events, r, symbol, approved) && e != Poll(r)
    ensures DecidedBy(events + [e], r, symbol, approved)
  {
    var n :| 0 <= n < |events| && events[n] == Poll(r)
             && (forall m :: n < m < |events| ==> events[m] != Poll(r))
             && (LastVerdict(events[..n], symbol) == Some(true) <==> approved);
    assert (events + [e])[..n] == events[..n] && (events + [e])[n] == Poll(r);
  }

  lemma DecidedNow(events: seq<Event>, r: nat, symbol: string)
    ensures DecidedBy(events + [Poll(r)], r, symbol, LastVerdict(events, symbol) == Some(true))
  {
    assert (events + [Poll(r)])[..|events|] == events && (events + [Poll(r)])[|events|] == Poll(r);
  }

  ghost predicate NeverPolled(events: seq<Event>, r: nat) {
    forall n :: 0 <= n < |events| ==> events[n] != Poll(r)
  }

  /** What the phase of a request says about the polls behind it. */
  ghost predicate PhaseOk(events: seq<Event>, r: nat, symbol: string, phase: Phase) {
    match phase
    case Sending => NeverPolled(events, r)
    case Waiting => true
    case Deciding(verdict) => DecidedBy(events, r, symbol, verdict)
    case Returned(verdict) => DecidedBy(events, r, symbol, verdict) || (!verdict && NeverPolled(events, r))
    case Crashed => false
  }

  ghost predicate RequestOk(timeout: nat, s: State, events: seq<Event>, r: nat)
    requires r in s.requests
  {
    var q := s.requests[r];
    && q.polls <= 2 * timeout
    && PhaseOk(events, r, q.symbol, q.phase)
    && (Active(q) ==> q.symbol in s.pending && s.pending[q.symbol] == r
                      && q.approved == LastVerdict(events, q.symbol))
  }

  ghost predicate Inv(timeout: nat, s: State, events: seq<Event>) {
    && (forall r :: r in s.requests ==> RequestOk(timeout, s, events, r))
    && (forall symbol :: symbol in s.pending ==>
          s.pending[symbol] in s.requests && s.requests[s.pending[symbol]].symbol == symbol
          && Active(s.requests[s.pending[symbol]]))
    && (forall r: nat :: r !in s.requests ==> NeverPolled(events, r))
  }

  lemma PhaseKept(events: seq<Event>, e: Event, r: nat, symbol: string, phase: Phase)
    requires PhaseOk(events, r, symbol, phase) && e != Poll(r)
    ensures PhaseOk(events + [e], r, symbol, phase)
  {
    if (phase.Deciding? || phase.Returned?) && DecidedBy(events, r, symbol, phase.verdict) {
      DecidedStays(events, e, r, symbol, phase.verdict);
    }
  }

  /** The entry of an active request outlives every step of the others. */
  lemma EntryKept(timeout: nat, s: State, events: seq<Event>, e: Event, r: nat)
    requires Inv(timeout, s, events) && Enabled(s, e) && r in s.requests && Active(s.requests[r])
    requires e.Start? ==> !Outstanding(s, e.symbol)
    requires !e.Callback? ==> e.r != r
    ensures var t, symbol := Apply(timeout, s, e), s.requests[r].symbol;
      && symbol in t.pending && t.pending[symbol] == r && r in t.requests
      && t.requests[r].approved == LastVerdict(events + [e], symbol)
  {
    LastVerdictSnoc(events, e, s.requests[r].symbol);
    assert RequestOk(timeout, s, events, r);
    if e.SendFails? || e.Finish? {
      assert RequestOk(timeout, s, events, e.r);
    }
  }

  /** A request that another one's step, or a callback, leaves where it stands. */
  lemma OtherKept(timeout: nat, s: State, events: seq<Event>, e: Event, r: nat)
    requires Inv(timeout, s, events) && Enabled(s, e) && r in s.requests
    requires e.Start? ==> !Outstanding(s, e.symbol)
    requires !e.Callback? ==> e.r != r
    ensures r in Apply(timeout, s, e).requests && RequestOk(timeout, Apply(timeout, s, e), events + [e], r)
  {
    assert RequestOk(timeout, s, events, r);
    var q, q' := s.requests[r], Apply(timeout, s, e).requests[r];
    assert q'.phase == q.phase && q'.symbol == q.symbol && q'.polls == q.polls;
    PhaseKept(events, e, r, q.symbol, q.phase);
    if Active(q) {
      EntryKept(timeout, s, events, e, r);
    }
  }

  /** The request the event is about. */
  lemma SubjectKept(timeout: nat, s: State, events: seq<Event>, e: Event)
    requires Inv(timeout, s, events) && Enabled(s, e) && !e.Callback?
    ensures e.r in Apply(timeout, s, e).requests && RequestOk(timeout, Apply(timeout, s, e), events + [e], e.r)
  {
    assert (events + [e])[..|events|] == events;
    if !e.Start? {
      assert RequestOk(timeout, s, events, e.r);
      var q := s.requests[e.r];
      if e.Poll? {
        DecidedNow(events, e.r, q.symbol);
      } else if e.Finish? {
        DecidedStays(events, e, e.r, q.symbol, q.phase.verdict);
      }
    }
  }

  lemma StepKeepsPending(timeout: nat, s: State, events: seq<Event>, e: Event)
    requires Inv(timeout, s, events) && Enabled(s, e)
    ensures var t := Apply(timeout, s, e);
      forall symbol :: symbol in t.pending ==>
        t.pending[symbol] in t.requests && t.requests[t.pending[symbol]].symbol == symbol
        && Active(t.requests[t.pending[symbol]])
  {
    if e.SendFails? || e.Finish? {
      assert RequestOk(timeout, s, events, e.r);
    }
  }

  lemma StepInv(timeout: nat, s: State, events: seq<Event>, e: Event)
    requires Inv(timeout, s, events) && Enabled(s, e)
    requires e.Start? ==> !Outstanding(s, e.symbol)
    ensures Inv(timeout, Apply(timeout, s, e), events + [e])
  {
    var t := Apply(timeout, s, e);
    forall r | r in t.requests ensures RequestOk(timeout, t, events + [e], r) {
      if !e.Callback? && e.r == r {
        SubjectKept(timeout, s, events, e);
      } else {
        OtherKept(timeout, s, events, e, r);
      }
    }
    StepKeepsPending(timeout, s, events, e);
  }

  lemma SerialisedBefore(timeout: nat, events: seq<Event>, n: nat)
    requires Serialised(timeout, events) && n <= |events|
    ensures Serialised(timeout, events[..n])
  {
    assert forall m :: 0 <= m < n ==> events[..n][..m] == events[..m] && events[..n][m] == events[m];
  }

  lemma {:induction false} SerialisedRunsKeepInv(timeout: nat, events: seq<Event>)
    requires Exec(timeout, events).Some? && Serialised(timeout, events)
    ensures Inv(timeout, Exec(timeout, events).value, events)
  {
    if events != [] {
      var n := |events| - 1;
      SerialisedBefore(timeout, events, n);
      SerialisedRunsKeepInv(timeout, events[..n]);
      StepInv(timeout, Exec(timeout, events[..n]).value, events[..n], events[n]);
      assert events == events[..n] + [events[n]];
    }
  }

  /** On serialised runs a request that returns answers True if and only if it polled and the
      last callback for its symbol before its deciding poll approved; none crashes, and each
      entry is gone once its request has returned. */
  lemma {:induction false} ApprovedMeansLastCallbackApproved(timeout: nat, events: seq<Event>, r: nat)
    requires Exec(timeout, events).Some? && Serialised(timeout, events)
    requires r in Exec(timeout, events).value.requests
    ensures var s := Exec(timeout, events).value;
      var q := s.requests[r];
      && (q.phase.Returned? ==> (q.phase.verdict <==> DecidedBy(events, r, q.symbol, true)))
      && !q.phase.Crashed?
      && (q.phase.Returned? ==> q.symbol !in s.pending || s.pending[q.symbol] != r)
  {
    SerialisedRunsKeepInv(timeout, events);
    var q := Exec(timeout, events).value.requests[r];
    assert RequestOk(timeout, Exec(timeout, events).value, events, r);
    DecidedOneWay(events, r, q.symbol);
  }

  lemma StrayCallbackChangesNothing(timeout: nat, s: State, kind: Kind, symbol: string)
    requires symbol !in s.pending
    ensures Apply(timeout, s, Callback(kind, symbol)) == s
  {
  }

  function Polls(events: seq<Event>, r: nat): nat {
    if events == [] then 0
    else Polls(events[..|events| - 1], r) + if events[|events| - 1] == Poll(r) then 1 else 0
  }

  /** The wait ends: no request polls more than 2 * timeout + 1 times, serialised or not. */
  lemma {:induction false} WaitEnds(timeout: nat, events: seq<Event>, r: nat)
    requires Exec(timeout, events).Some?
    ensures Polls(events, r) <= 2 * timeout + 1
    ensures var s := Exec(timeout, events).value;
      if r !in s.requests || s.requests[r].phase.Sending? then Polls(events, r) == 0
      else if s.requests[r].phase.Waiting? then Polls(events, r) == s.requests[r].polls <= 2 * timeout
      else true
    ensures var s := Exec(timeout, events).value;
      r in s.requests && s.requests[r].phase.Sending? ==> s.requests[r].polls == 0
  {
    if events != [] {
      var n := |events| - 1;
      WaitEnds(timeout, events[..n], r);
    }
  }

  // ---- How long a request waits ----

  /** A request that has decided with no answer has used up its polls: two a second for the whole
      timeout, and the one that ends the loop. */
  lemma {:induction false} UnansweredWaitsItOut(timeout: nat, events: seq<Event>, r: nat)
    requires Exec(timeout, events).Some? && r in Exec(timeout, events).value.requests
    requires var q := Exec(timeout, events).value.requests[r];
      q.phase.Deciding? && q.approved.None?
    ensures Polls(events, r) == 2 * timeout + 1
    ensures !Exec(timeout, events).value.requests[r].phase.verdict
  {
    var n := |events| - 1;
    WaitEnds(timeout, events[..n], r);
    var before := Exec(timeout, events[..n]).value;
    if r in before.requests && before.requests[r].phase.Deciding? {
      assert before.requests[r].approved.None?;
      UnansweredWaitsItOut(timeout, events[..n], r);
    }
  }

  /** The last poll of the request and what the last callback before it had said. */
  ghost predicate LeftWith(events: seq<Event>, r: nat, symbol: string, last: Option<bool>) {
    exists n :: 0 <= n < |events| && events[n] == Poll(r)
      && (forall m :: n < m < |events| ==> events[m] != Poll(r))
      && LastVerdict(events[..n], symbol) == last
  }

  /** What made the request leave its loop: an answer, or all of its polls without one. */
  ghost predicate WaitedOut(timeout: nat, events: seq<Event>, r: nat, symbol: string, approved: bool) {
    LeftWith(events, r, symbol, Some(approved))
    || (!approved && LeftWith(events, r, symbol, None) && Polls(events, r) == 2 * timeout + 1)
  }

  /** A decided or returned request either waited, or never got its message out. */
  ghost predicate Explained(timeout: nat, events: seq<Event>, r: nat, q: Request) {
    q.phase.Deciding? || q.phase.Returned? ==>
      WaitedOut(timeout, events, r, q.symbol, q.phase.verdict) || (!q.phase.verdict && NeverPolled(events, r))
  }

  lemma LeftStays(events: seq<Event>, e: Event, r: nat, symbol: string, last: Option<bool>)
    requires LeftWith(events, r, symbol, last) && e != Poll(r)
    ensures LeftWith(events + [e], r, symbol, last) && Polls(events + [e], r) == Polls(events, r)
  {
    var n :| 0 <= n < |events| && events[n] == Poll(r)
             && (forall m :: n < m < |events| ==> events[m] != Poll(r))
             && LastVerdict(events[..n], symbol) == last;
    assert (events + [e])[..n] == events[..n] && (events + [e])[n] == Poll(r);
    assert (events + [e])[..|events|] == events;
  }

  lemma WaitedOutStays(timeout: nat, events: seq<Event>, e: Event, r: nat, symbol: string, approved: bool)
    requires WaitedOut(timeout, events, r, symbol, approved) && e != Poll(r)
    ensures WaitedOut(timeout, events + [e], r, symbol, approved)
  {
    if LeftWith(events, r, symbol, Some(approved)) {
      LeftStays(events, e, r, symbol, Some(approved));
    } else {
      LeftStays(events, e, r, symbol, None);
    }
  }

  lemma LeftNow(events: seq<Event>, r: nat, symbol: string)
    ensures LeftWith(events + [Poll(r)], r, symbol, LastVerdict(events, symbol))
    ensures Polls(events + [Poll(r)], r) == Polls(events, r) + 1
  {
    assert (events + [Poll(r)])[..|events|] == events && (events + [Poll(r)])[|events|] == Poll(r);
  }

  /** The poll that leaves the loop: the entry holds the last verdict, and without one all the
      other polls are spent. */
  lemma LeavingPoll(timeout: nat, events: seq<Event>, r: nat)
    requires Exec(timeout, events).Some? && Serialised(timeout, events)
    requires Enabled(Exec(timeout, events).value, Poll(r))
    requires PollOnce(timeout, Exec(timeout, events).value.requests[r]).phase.Deciding?
    ensures var q := Exec(timeout, events).value.requests[r];
      WaitedOut(timeout, events + [Poll(r)], r, q.symbol, PollOnce(timeout, q).phase.verdict)
  {
    var q := Exec(timeout, events).value.requests[r];
    EntryHoldsLast(timeout, events, r);
    LeftNow(events, r, q.symbol);
    if q.approved.None? {
      UnansweredLeaves(timeout, events, r);
    }
    WaitedOutNow(timeout, events + [Poll(r)], r, q, PollOnce(timeout, q).phase.verdict);
  }

  lemma WaitedOutNow(timeout: nat, events: seq<Event>, r: nat, q: Request, verdict: bool)
    requires LeftWith(events, r, q.symbol, q.approved)
    requires verdict == (q.approved == Some(true))
    requires q.approved.None? ==> Polls(events, r) == 2 * timeout + 1
    ensures WaitedOut(timeout, events, r, q.symbol, verdict)
  {
    match q.approved
    case None =>
    case Some(answer) => assert q.approved == Some(verdict);
  }

  lemma EntryHoldsLast(timeout: nat, events: seq<Event>, r: nat)
    requires Exec(timeout, events).Some? && Serialised(timeout, events)
    requires r in Exec(timeout, events).value.requests && Active(Exec(timeout, events).value.requests[r])
    ensures var q := Exec(timeout, events).value.requests[r];
      q.approved == LastVerdict(events, q.symbol)
  {
    SerialisedRunsKeepInv(timeout, events);
    assert RequestOk(timeout, Exec(timeout, events).value, events, r);
  }

  lemma UnansweredLeaves(timeout: nat, events: seq<Event>, r: nat)
    requires Exec(timeout, events).Some? && Enabled(Exec(timeout, events).value, Poll(r))
    requires Exec(timeout, events).value.requests[r].approved.None?
    requires PollOnce(timeout, Exec(timeout, events).value.requests[r]).phase.Deciding?
    ensures Polls(events, r) == 2 * timeout
  {
    Extend(timeout, events, Poll(r));
    LeftNow(events, r, "");
    UnansweredWaitsItOut(timeout, events + [Poll(r)], r);
  }

  /** On serialised runs, a decided or returned request either never got its message out, or left
      its loop on the last verdict, approve or cancel, or waited the whole timeout without one. */
  lemma {:induction false} AnswersAreWaitedFor(timeout: nat, events: seq<Event>, r: nat)
    requires Exec(timeout, events).Some? && Serialised(timeout, events)
    requires r in Exec(timeout, events).value.requests
    ensures Explained(timeout, events, r, Exec(timeout, events).value.requests[r])
  {
    var n, q := |events| - 1, Exec(timeout, events).value.requests[r];
    var before, e := Exec(timeout, events[..n]).value, events[n];
    assert events == events[..n] + [e];
    SerialisedBefore(timeout, events, n);
    SerialisedRunsKeepInv(timeout, events[..n]);
    if r in before.requests {
      assert RequestOk(timeout, before, events[..n], r);
      AnswersAreWaitedFor(timeout, events[..n], r);
      if e == Poll(r) {
        if q.phase.Deciding? {
          LeavingPoll(timeout, events[..n], r);
        }
      } else if q.phase.Deciding? || q.phase.Returned? {
        PassedOn(timeout, before, events[..n], e, r);
      }
    }
  }

  lemma PassedOn(timeout: nat, s: State, events: seq<Event>, e: Event, r: nat)
    requires Inv(timeout, s, events) && Enabled(s, e) && r in s.requests && e != Poll(r)
    requires Explained(timeout, events, r, s.requests[r])
    ensures r in Apply(timeout, s, e).requests
    ensures Explained(timeout, events + [e], r, Apply(timeout, s, e).requests[r])
  {
    assert RequestOk(timeout, s, events, r);
    var q := s.requests[r];
    if (q.phase.Deciding? || q.phase.Returned?) && WaitedOut(timeout, events, r, q.symbol, q.phase.verdict) {
      WaitedOutStays(timeout, events, e, r, q.symbol, q.phase.verdict);
    }
  }

  /** An approve that stands at a poll of a waiting request is what it answers, whatever comes
      after: approving in time is enough. */
  lemma {:induction false} ApprovedInTimeSucceeds(timeout: nat, events: seq<Event>, r: nat, n: nat)
    requires Exec(timeout, events).Some? && Serialised(timeout, events) && n < |events|
    requires Exec(timeout, events[..n]).Some? && events[n] == Poll(r)
    requires Enabled(Exec(timeout, events[..n]).value, Poll(r))
    requires LastVerdict(events[..n], Exec(timeout, events[..n]).value.requests[r].symbol) == Some(true)
    ensures r in Exec(timeout, events).value.requests
    ensures SaysYes(Exec(timeout, events).value.requests[r])
    decreases |events|
  {
    var m := |events| - 1;
    SerialisedBefore(timeout, events, m);
    if n == m {
      EntryHoldsLast(timeout, events[..m], r);
    } else {
      assert events[..m][..n] == events[..n] && events[..m][n] == events[n];
      ApprovedInTimeSucceeds(timeout, events[..m], r, n);
      SerialisedRunsKeepInv(timeout, events[..m]);
      YesStays(timeout, Exec(timeout, events[..m]).value, events[..m], events[m], r);
    }
  }

  ghost predicate SaysYes(q: Request) {
    q.phase == Deciding(true) || q.phase == Returned(true)
  }

  lemma YesStays(timeout: nat, s: State, events: seq<Event>, e: Event, r: nat)
    requires Inv(timeout, s, events) && Enabled(s, e) && r in s.requests && SaysYes(s.requests[r])
    ensures r in Apply(timeout, s, e).requests && SaysYes(Apply(timeout, s, e).requests[r])
  {
    assert RequestOk(timeout, s, events, r);
  }

  // ---- What overlapping requests lead to ----

  lemma Extend(timeout: nat, events: seq<Event>, e: Event)
    requires Exec(timeout, events).Some? && Enabled(Exec(timeout, events).value, e)
    ensures Exec(timeout, events + [e]) == Some(Apply(timeout, Exec(timeout, events).value, e))
  {
    assert (events + [e])[..|events|] == events;
  }

  /** How many steps a request can still take before it leaves. */
  function StepsLeft(timeout: nat, q: Request): nat {
    match q.phase
    case Sending => 1
    case Waiting => if q.polls < 2 * timeout then 2 * timeout - q.polls + 2 else 2
    case _ => 1
  }

  /** An active request can be run on its own until it has left, taking the entry of its symbol
      with it, whoever put it there. */
  lemma {:induction false} RunOut(timeout: nat, events: seq<Event>, s: State, r: nat) returns (run: seq<Event>)
    requires Exec(timeout, events) == Some(s) && r in s.requests && Active(s.requests[r])
    requires s.requests[r].symbol in s.pending
    ensures events <= run && Exec(timeout, run).Some?
    ensures var t := Exec(timeout, run).value;
      && s.requests[r].symbol !in t.pending
      && t.requests.Keys == s.requests.Keys
      && forall x :: x in s.requests && x != r ==> t.requests[x] == s.requests[x]
    decreases StepsLeft(timeout, s.requests[r])
  {
    match s.requests[r].phase
    case Sending =>
      run := events + [SendFails(r)];
      Extend(timeout, events, SendFails(r));
    case Deciding(_) =>
      run := events + [Finish(r)];
      Extend(timeout, events, Finish(r));
    case Waiting =>
      Extend(timeout, events, Poll(r));
      run := RunOut(timeout, events + [Poll(r)], Apply(timeout, s, Poll(r)), r);
  }

  ghost predicate Crashes(timeout: nat, events: seq<Event>, r: nat) {
    Exec(timeout, events).Some? && r in Exec(timeout, events).value.requests
    && Exec(timeout, events).value.requests[r].phase.Crashed?
  }

  /** Serialisation is needed: every request that starts while another of its symbol is
      outstanding can end in the KeyError. */
  lemma {:induction false} OverlapCanCrash(timeout: nat, events: seq<Event>, r: nat, symbol: string)
    returns (run: seq<Event>)
    requires Exec(timeout, events).Some? && Enabled(Exec(timeout, events).value, Start(r, symbol))
    requires Outstanding(Exec(timeout, events).value, symbol)
    ensures events + [Start(r, symbol)] <= run && Crashes(timeout, run, r)
  {
    var s := Exec(timeout, events).value;
    var older :| older in s.requests && s.requests[older].symbol == symbol && Active(s.requests[older]);
    var started := Apply(timeout, s, Start(r, symbol));
    Extend(timeout, events, Start(r, symbol));
    assert started.requests[older] == s.requests[older] && started.pending[symbol] == r;
    run := RunOut(timeout, events + [Start(r, symbol)], started, older);
    assert Exec(timeout, run).value.requests[r] == started.requests[r];
    Extend(timeout, run, SendFails(r));
    run := run + [SendFails(r)];
  }

  function OverlapEvents(older: nat, r: nat, symbol: string): seq<Event> {
    [Start(r, symbol), Callback(Cancel, symbol), Poll(older), Finish(older)]
  }

  /** And safety goes with it: an older request that had been approved when the overlap began
      returns True although the last callback for the symbol cancelled. */
  lemma {:induction false} OverlapCanApproveTheCancelled(
      timeout: nat, events: seq<Event>, older: nat, r: nat, symbol: string)
    requires Exec(timeout, events).Some? && Enabled(Exec(timeout, events).value, Start(r, symbol))
    requires older in Exec(timeout, events).value.requests
    requires var q := Exec(timeout, events).value.requests[older];
      q.symbol == symbol && q.phase.Waiting? && q.approved == Some(true)
    ensures var run := events + OverlapEvents(older, r, symbol);
      && Exec(timeout, run).Some? && older in Exec(timeout, run).value.requests
      && Exec(timeout, run).value.requests[older].phase == Returned(true)
      && LastVerdict(run, symbol) == Some(false) && DecidedBy(run, older, symbol, false)
  {
    OverlapState(timeout, events, older, r, symbol);
    OverlapVerdict(events, older, r, symbol);
  }

  lemma OverlapState(timeout: nat, events: seq<Event>, older: nat, r: nat, symbol: string)
    requires Exec(timeout, events).Some? && Enabled(Exec(timeout, events).value, Start(r, symbol))
    requires older in Exec(timeout, events).value.requests
    requires var q := Exec(timeout, events).value.requests[older];
      q.symbol == symbol && q.phase.Waiting? && q.approved == Some(true)
    ensures var run := events + OverlapEvents(older, r, symbol);
      Exec(timeout, run).Some? && older in Exec(timeout, run).value.requests
      && Exec(timeout, run).value.requests[older].phase == Returned(true)
  {
    var one := events + [Start(r, symbol)];
    var two := one + [Callback(Cancel, symbol)];
    Extend(timeout, events, Start(r, symbol));
    Extend(timeout, one, Callback(Cancel, symbol));
    Extend(timeout, two, Poll(older));
    Extend(timeout, two + [Poll(older)], Finish(older));
    assert two + [Poll(older)] + [Finish(older)] == events + OverlapEvents(older, r, symbol);
  }

  lemma OverlapVerdict(events: seq<Event>, older: nat, r: nat, symbol: string)
    ensures var run := events + OverlapEvents(older, r, symbol);
      LastVerdict(run, symbol) == Some(false) && DecidedBy(run, older, symbol, false)
  {
    var two := events + [Start(r, symbol)] + [Callback(Cancel, symbol)];
    var three := two + [Poll(older)];
    LastVerdictSnoc(events + [Start(r, symbol)], Callback(Cancel, symbol), symbol);
    LastVerdictSnoc(two, Poll(older), symbol);
    LastVerdictSnoc(three, Finish(older), symbol);
    DecidedNow(two, older, symbol);
    DecidedStays(three, Finish(older), older, symbol, false);
    assert three + [Finish(older)] == events + OverlapEvents(older, r, symbol);
  }

  lemma LastVerdictSnoc(events: seq<Event>, e: Event, symbol: string)
    ensures LastVerdict(events + [e], symbol) == VerdictAfter(LastVerdict(events, symbol), e, symbol)
  {
    assert (events + [e])[..|events|] == events;
  }

  /** Both are reachable: for any symbol a request can be waiting with an approval while a
      second one starts. */
  lemma OverlapIsReachable(timeout: nat, symbol: string)
    ensures var events := [Start(0, symbol), SendOk(0), Callback(Approve, symbol)];
      && Exec(timeout, events).Some? && Serialised(timeout, events)
      && Enabled(Exec(timeout, events).value, Start(1, symbol))
      && Exec(timeout, events).value.requests == map[0 := Request(symbol, Some(true), 0, Waiting)]
  {
    var a, b, c := Start(0, symbol), SendOk(0), Callback(Approve, symbol);
    Extend(timeout, [], a);
    Extend(timeout, [a], b);
    Extend(timeout, [a] + [b], c);
    assert [a] + [b] + [c] == [a, b, c] && [] + [a] == [a];
    assert [a, b, c][..0] == [];
  }
}
