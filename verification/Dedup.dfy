/** Duplicate-order suppression with pruning, against the full history of recorded orders. */
module Dedup {
  import opened Text

  const WINDOW := 30.0

  type Key = (string, string)

  type Recent = map<Key, real>

  function KeyOf(symbol: string, action: string): Key {
    (Upper(symbol), Upper(action))
  }

  function IsRecent(recent: Recent, key: Key, now: real): bool {
    // a timestamp of zero is falsy
    key in recent && recent[key] != 0.0 && now - recent[key] < WINDOW
  }

  /** `at` is the clock when the order is stored, `later` when the cutoff is computed. */
  function AfterRecord(recent: Recent, key: Key, at: real, later: real): Recent {
    var stored := recent[key := at];
    map k | k in stored && stored[k] > later - WINDOW * 2.0 :: stored[k]
  }

  class OrderDeduplicator {
    var recent: Recent

    constructor ()
      ensures recent == map[]
    {
      recent := map[];
    }

    method IsDuplicate(symbol: string, action: string, now: real) returns (duplicate: bool)
      ensures duplicate == IsRecent(recent, KeyOf(symbol, action), now)
      ensures var key := (Upper(symbol), Upper(action));
        duplicate <==> key in recent && recent[key] != 0.0 && now - recent[key] < 30.0
    {
      var key := KeyOf(symbol, action);
      if key in recent {
        var last := recent[key];
        if last != 0.0 && now - last < WINDOW {
          return true;
        }
      }
      return false;
    }

    method Record(symbol: string, action: string, at: real, later: real)
      modifies this
      ensures recent == AfterRecord(old(recent), KeyOf(symbol, action), at, later)
    {
      recent := recent[KeyOf(symbol, action) := at];
      var cutoff := later - WINDOW * 2.0;
      recent := map k | k in recent && recent[k] > cutoff :: recent[k];
    }
  }

  /** Recording forgets exactly what is 60 s old or older. */
  lemma ForgetsIff(recent: Recent, key: Key, at: real, later: real, k: Key)
    ensures k in AfterRecord(recent, key, at, later) <==>
      if k == key then at > later - 60.0 else k in recent && recent[k] > later - 60.0
    ensures k in AfterRecord(recent, key, at, later) ==>
      AfterRecord(recent, key, at, later)[k] == if k == key then at else recent[k]
  {
  }

  // ---- Histories ----

  datatype Entry = Entry(symbol: string, action: string, at: real, later: real)

  /** A positive clock that never goes back, up to `now`. */
  ghost predicate ClockOk(log: seq<Entry>, now: real) {
    && (forall i :: 0 <= i < |log| ==> 0.0 < log[i].at <= log[i].later <= now)
    && (forall i, j :: 0 <= i < j < |log| ==> log[i].later <= log[j].at)
  }

  function Remembered(log: seq<Entry>): Recent {
    if log == [] then map[]
    else
      var e := log[|log| - 1];
      AfterRecord(Remembered(log[..|log| - 1]), KeyOf(e.symbol, e.action), e.at, e.later)
  }

  /** The unpruned meaning: an order with this symbol and action, in any case, was recorded less
      than 30 s ago. */
  ghost predicate RecordedWithin(log: seq<Entry>, symbol: string, action: string, now: real) {
    exists i :: 0 <= i < |log| && now - log[i].at < 30.0
      && Upper(log[i].symbol) == Upper(symbol) && Upper(log[i].action) == Upper(action)
  }

  /** What is remembered is the latest record; what is forgotten is too old to matter. */
  lemma {:induction false} MemoryIsLatest(log: seq<Entry>, now: real, key: Key)
    requires ClockOk(log, now)
    ensures key in Remembered(log) ==>
      exists i :: 0 <= i < |log| && KeyOf(log[i].symbol, log[i].action) == key && log[i].at == Remembered(log)[key]
    ensures forall i :: 0 <= i < |log| && KeyOf(log[i].symbol, log[i].action) == key ==>
      if key in Remembered(log) then log[i].at <= Remembered(log)[key] else log[i].at <= now - WINDOW * 2.0
  {
    if log != [] {
      var n := |log| - 1;
      MemoryIsLatest(log[..n], log[n].at, key);
      if key in Remembered(log[..n]) {
        var i :| 0 <= i < n && KeyOf(log[..n][i].symbol, log[..n][i].action) == key
                 && log[..n][i].at == Remembered(log[..n])[key];
        assert log[i].at == Remembered(log[..n])[key];
      }
      assert forall i :: 0 <= i < n ==> log[..n][i] == log[i];
    }
  }

  /** Pruning is unobservable: for every history and every later query the answer is that of
      the full history. */
  lemma {:induction false} PrunedMemoryIsExact(log: seq<Entry>, symbol: string, action: string, now: real)
    requires ClockOk(log, now)
    ensures IsRecent(Remembered(log), KeyOf(symbol, action), now)
       <==> RecordedWithin(log, symbol, action, now)
  {
    MemoryIsLatest(log, now, KeyOf(symbol, action));
  }
}
