/** Notification throttling by message type and content key. */
module Throttler {
  import opened Wrappers

  /** `once` covers the once-per-activation and once-per-event types, keyed by type alone. */
  datatype Rule = Rule(noThrottle: bool, once: bool, oncePerHash: bool, minInterval: real)

  const GENERIC := Rule(false, false, false, 0.0)

  const RULES: map<string, Rule> := map[
    "circuit_breaker" := Rule(false, true, false, 86400.0),
    "position_closed" := Rule(false, false, true, 86400.0),
    "position_opened" := Rule(false, false, true, 86400.0),
    "ib_disconnected" := Rule(false, true, false, 900.0),
    "ib_reconnected" := Rule(false, true, false, 900.0),
    "scan_failed" := Rule(false, false, true, 3600.0),
    "signal_ignored" := Rule(false, false, false, 300.0),
    "digest" := Rule(true, false, false, 0.0),
    "generic" := GENERIC]

  function RuleFor(messageType: string): (r: Rule)
    ensures r.minInterval >= 0.0
  {
    if messageType in RULES then RULES[messageType] else GENERIC
  }

  type Key = (string, string)

  type Memory = map<Key, real>

  datatype Event =
    | Notify(messageType: string, content: string, hash: Option<string>, force: bool, now: real)
    | Reset(messageType: string)
    | ClearAll

  function KeyOf(e: Event): Key
    requires e.Notify?
  {
    if RuleFor(e.messageType).once then (e.messageType, "")
    else if e.hash.Some? && e.hash.value != "" then (e.messageType, e.hash.value)
    else (e.messageType, if |e.content| > 80 then e.content[..80] else e.content)
  }

  /** Forced messages and unthrottled types bypass the memory altogether. */
  predicate Bypasses(e: Event)
    requires e.Notify?
  {
    e.force || RuleFor(e.messageType).noThrottle
  }

  /** Whether the rule lets a message through at `now` after one was sent at `last`. */
  predicate Allowed(rule: Rule, last: real, now: real) {
    !rule.once && !rule.oncePerHash && now - last >= rule.minInterval
  }

  predicate Sends(memory: Memory, e: Event)
    requires e.Notify?
  {
    Bypasses(e) || KeyOf(e) !in memory || Allowed(RuleFor(e.messageType), memory[KeyOf(e)], e.now)
  }

  function Forget(memory: Memory, messageType: string): Memory {
    map k | k in memory && k.0 != messageType :: memory[k]
  }

  function After(memory: Memory, e: Event): Memory {
    match e
    case Notify(_, _, _, _, now) => if !Bypasses(e) && Sends(memory, e) then memory[KeyOf(e) := now] else memory
    case Reset(messageType) => Forget(memory, messageType)
    case ClearAll => map[]
  }

  class NotificationThrottler {
    var state: Memory

    constructor ()
      ensures state == map[]
    {
      state := map[];
    }

    method NotifyIfChanged(messageType: string, content: string, hash: Option<string>, force: bool, now: real)
      returns (send: bool)
      modifies this
      ensures send == Sends(old(state), Notify(messageType, content, hash, force, now))
      ensures state == After(old(state), Notify(messageType, content, hash, force, now))
    {
      if force {
        return true;
      }
      var rule := RuleFor(messageType);
      if rule.noThrottle {
        return true;
      }
      var key := KeyOf(Notify(messageType, content, hash, force, now));
      if key in state {
        if rule.once {
          return false;
        }
        if rule.oncePerHash {
          return false;
        }
        if now - state[key] < rule.minInterval {
          return false;
        }
      }
      state := state[key := now];
      return true;
    }

    method ResetState(messageType: string)
      modifies this
      ensures state == After(old(state), Reset(messageType))
    {
      state := map k | k in state && k.0 != messageType :: state[k];
    }

    method Clear()
      modifies this
      ensures state == After(old(state), ClearAll)
    {
      state := map[];
    }
  }

  // ---- Traces ----

  function MemoryAfter(events: seq<Event>): Memory {
    if events == [] then map[] else After(MemoryAfter(events[..|events| - 1]), events[|events| - 1])
  }

  /** The i-th event is a message that was sent and remembered. */
  predicate SentAt(events: seq<Event>, i: nat)
    requires i < |events|
  {
    events[i].Notify? && !Bypasses(events[i]) && Sends(MemoryAfter(events[..i]), events[i])
  }

  predicate Clears(e: Event, messageType: string) {
    e.ClearAll? || (e.Reset? && e.messageType == messageType)
  }

  /** Sent at `i` under this key and not reset since. */
  ghost predicate StandsAt(events: seq<Event>, i: nat, key: Key)
    requires i < |events|
  {
    && SentAt(events, i) && KeyOf(events[i]) == key
    && forall m :: i < m < |events| ==> !Clears(events[m], key.0)
  }

  lemma StandsSnoc(events: seq<Event>, i: nat, key: Key)
    requires i + 1 < |events|
    ensures StandsAt(events, i, key)
       <==> StandsAt(events[..|events| - 1], i, key) && !Clears(events[|events| - 1], key.0)
  {
    var n := |events| - 1;
    assert events[..n][..i] == events[..i];
    assert forall m :: 0 <= m < n ==> events[..n][m] == events[m];
  }

  /** What is remembered under a key is a message that stands. */
  lemma {:induction false} RememberedStands(events: seq<Event>, key: Key) returns (i: nat)
    requires key in MemoryAfter(events)
    ensures i < |events| && StandsAt(events, i, key) && events[i].now == MemoryAfter(events)[key]
  {
    var n := |events| - 1;
    if SentAt(events, n) && KeyOf(events[n]) == key {
      i := n;
    } else {
      i := RememberedStands(events[..n], key);
      StandsSnoc(events, i, key);
      assert events[..n][i] == events[i];
    }
  }

  /** A standing message is remembered, or a later one is. */
  lemma {:induction false} StandingIsRemembered(events: seq<Event>, i: nat, key: Key)
    requires i < |events| && StandsAt(events, i, key)
    ensures key in MemoryAfter(events) && events[i].now <= MemoryAfter(events)[key]
  {
    var n := |events| - 1;
    if i < n {
      StandsSnoc(events, i, key);
      StandingIsRemembered(events[..n], i, key);
      assert events[..n][i] == events[i] && !Clears(events[n], key.0);
    }
  }

  /** The memory holds, for each key, the last standing message, and it is the latest one. */
  lemma {:induction false} MemoryIsLastStanding(events: seq<Event>, key: Key)
    ensures key in MemoryAfter(events) ==>
      exists i :: 0 <= i < |events| && StandsAt(events, i, key) && events[i].now == MemoryAfter(events)[key]
    ensures forall i :: 0 <= i < |events| && StandsAt(events, i, key) ==>
      key in MemoryAfter(events) && events[i].now <= MemoryAfter(events)[key]
  {
    if key in MemoryAfter(events) {
      var i := RememberedStands(events, key);
    }
    forall i | 0 <= i < |events| && StandsAt(events, i, key)
      ensures key in MemoryAfter(events) && events[i].now <= MemoryAfter(events)[key]
    {
      StandingIsRemembered(events, i, key);
    }
  }

  /** A message goes out exactly when it bypasses the throttle, or when no message that stands
      under its key forbids it: none at all for the once types, none within the interval for
      the others. */
  lemma {:induction false} SendsIff(events: seq<Event>, e: Event)
    requires e.Notify?
    ensures Sends(MemoryAfter(events), e) <==>
      (Bypasses(e) || forall i :: 0 <= i < |events| && StandsAt(events, i, KeyOf(e)) ==>
                        Allowed(RuleFor(e.messageType), events[i].now, e.now))
  {
    MemoryIsLastStanding(events, KeyOf(e));
  }

  // ---- The rules by type ----

  /** Announced once until reset. */
  predicate OncePerEvent(messageType: string) {
    messageType in {"circuit_breaker", "ib_disconnected", "ib_reconnected"}
  }

  /** Announced once per content until reset. */
  predicate OncePerContent(messageType: string) {
    messageType in {"position_closed", "position_opened", "scan_failed"}
  }

  /** The content that tells messages of a type apart: the hash, if one is given, or the first 80
      characters. */
  function ContentOf(e: Event): string
    requires e.Notify?
  {
    if e.hash.Some? && e.hash.value != "" then e.hash.value
    else if |e.content| <= 80 then e.content
    else e.content[..80]
  }

  /** Two messages the throttle takes for the same. */
  predicate SameMessage(d: Event, e: Event)
    requires d.Notify? && e.Notify?
  {
    d.messageType == e.messageType && (OncePerEvent(e.messageType) || ContentOf(d) == ContentOf(e))
  }

  lemma RuleByType(messageType: string)
    ensures RuleFor(messageType).noThrottle <==> messageType == "digest"
    ensures RuleFor(messageType).once <==> OncePerEvent(messageType)
    ensures RuleFor(messageType).oncePerHash <==> OncePerContent(messageType)
    ensures !OncePerEvent(messageType) && !OncePerContent(messageType) ==>
      RuleFor(messageType).minInterval == if messageType == "signal_ignored" then 300.0 else 0.0
  {
  }

  lemma KeyBySameMessage(d: Event, e: Event)
    requires d.Notify? && e.Notify?
    ensures KeyOf(d) == KeyOf(e) <==> SameMessage(d, e)
  {
    RuleByType(d.messageType);
    RuleByType(e.messageType);
  }

  /** The i-th event was a throttled message that went out, the same as `e`, with neither its type
      nor everything reset since. */
  ghost predicate StillStands(events: seq<Event>, i: nat, e: Event)
    requires i < |events| && e.Notify?
  {
    && events[i].Notify? && !events[i].force && events[i].messageType != "digest"
    && SameMessage(events[i], e) && Sends(MemoryAfter(events[..i]), events[i])
    && forall m :: i < m < |events| ==> events[m] != ClearAll && events[m] != Reset(e.messageType)
  }

  /** By type: forced messages and digests always go out; event types if none of the type stands;
      content types if none with the content stands; ignored signals if every standing one with
      the content is 300 s old; the rest unless the clock went back. */
  lemma SendsByType(events: seq<Event>, e: Event)
    requires e.Notify?
    ensures Sends(MemoryAfter(events), e) <==>
      (e.force || e.messageType == "digest" ||
       forall i :: 0 <= i < |events| && StillStands(events, i, e) ==>
         !OncePerEvent(e.messageType) && !OncePerContent(e.messageType)
         && e.now - events[i].now >= if e.messageType == "signal_ignored" then 300.0 else 0.0)
  {
    RuleByType(e.messageType);
    SendsIff(events, e);
    forall i | 0 <= i < |events| ensures StandsAt(events, i, KeyOf(e)) <==> StillStands(events, i, e) {
      if events[i].Notify? {
        RuleByType(events[i].messageType);
        KeyBySameMessage(events[i], e);
      }
    }
  }

  /** Two accepted messages under one key with no reset of their type in between: never of a
      once type, never with the same content key of a once-per-hash type, and otherwise at
      least the rule's interval apart. */
  lemma {:induction false} AcceptedApart(events: seq<Event>, i: nat, j: nat)
    requires i < j < |events| && SentAt(events, i) && SentAt(events, j)
    requires KeyOf(events[i]) == KeyOf(events[j])
    requires forall m :: i < m < j ==> !Clears(events[m], events[j].messageType)
    ensures var rule := RuleFor(events[j].messageType);
      !rule.once && !rule.oncePerHash && events[j].now - events[i].now >= rule.minInterval
  {
    var before := events[..j];
    assert before[..i] == events[..i] && before[i] == events[i];
    assert StandsAt(before, i, KeyOf(events[j]));
    SendsIff(before, events[j]);
  }

  // ---- Resets do not leak ----

  ghost predicate SameElsewhere(a: Memory, b: Memory, messageType: string) {
    forall k: Key :: k.0 != messageType ==> (k in a <==> k in b) && (k in a ==> a[k] == b[k])
  }

  function MemoryFrom(memory: Memory, events: seq<Event>): Memory {
    if events == [] then memory else After(MemoryFrom(memory, events[..|events| - 1]), events[|events| - 1])
  }

  /** Whatever follows, resetting one type changes no answer for a message of another type. */
  lemma {:induction false} ResetIsLocal(memory: Memory, messageType: string, later: seq<Event>, e: Event)
    requires e.Notify? && e.messageType != messageType
    ensures SameElsewhere(MemoryFrom(Forget(memory, messageType), later), MemoryFrom(memory, later), messageType)
    ensures Sends(MemoryFrom(Forget(memory, messageType), later), e) <==> Sends(MemoryFrom(memory, later), e)
  {
    if later != [] {
      var n := |later| - 1;
      ResetIsLocal(memory, messageType, later[..n], e);
    }
  }
}
