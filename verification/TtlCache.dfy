/** The market-data cache: per-context time to live, lazy eviction, joined string keys. */
module TtlCache {
  import opened Wrappers
  import opened Text

  const DEFAULT_TTL := 120.0

  const TTL: map<string, real> := map[
    "trade_entry" := 0.0, "on_demand" := 120.0, "dashboard_chart" := 300.0,
    "scanner" := 900.0, "backtest" := 3600.0, "fundamentals" := 86400.0]

  function TtlOf(context: string): real {
    if context in TTL then TTL[context] else DEFAULT_TTL
  }

  function CacheKey(symbol: string, context: string, extra: string): string {
    Upper(symbol) + ":" + context + ":" + extra
  }

  datatype Slot<D> = Slot(data: Option<D>, expiresAt: real)

  type Cache<D> = map<string, Slot<D>>

  /** `_set_cached`: failed on-demand lookups and contexts without a lifetime are not kept. */
  predicate Stores<D>(data: Option<D>, context: string) {
    !(data.None? && context == "on_demand") && TtlOf(context) != 0.0
  }

  function AfterSet<D>(cache: Cache<D>, key: string, data: Option<D>, context: string, now: real): Cache<D> {
    if Stores(data, context) then cache[key := Slot(data, now + TtlOf(context))] else cache
  }

  function Lookup<D>(cache: Cache<D>, key: string, now: real): Option<D> {
    if key in cache && now < cache[key].expiresAt then cache[key].data else None
  }

  function AfterGet<D>(cache: Cache<D>, key: string, now: real): Cache<D> {
    if key in cache && now >= cache[key].expiresAt then map k | k in cache && k != key :: cache[k] else cache
  }

  class DataLayer<D> {
    var cache: Cache<D>

    constructor ()
      ensures cache == map[]
    {
      cache := map[];
    }

    method GetCached(key: string, now: real) returns (data: Option<D>)
      modifies this
      ensures data == Lookup(old(cache), key, now)
      ensures cache == AfterGet(old(cache), key, now)
    {
      if key in cache {
        var slot := cache[key];
        if now < slot.expiresAt {
          return slot.data;
        }
        cache := map k | k in cache && k != key :: cache[k];
      }
      return None;
    }

    method SetCached(key: string, data: Option<D>, context: string, now: real)
      modifies this
      ensures cache == AfterSet(old(cache), key, data, context, now)
    {
      if data.None? && context == "on_demand" {
        return;
      }
      var ttl := TtlOf(context);
      if ttl == 0.0 {
        return;
      }
      cache := cache[key := Slot(data, now + ttl)];
    }
  }

  // ---- Histories ----

  datatype Event<D> =
    | Set(key: string, data: Option<D>, context: string, at: real)
    | Get(key: string, at: real)

  ghost predicate ClockOk<D>(events: seq<Event<D>>, now: real) {
    && (forall i :: 0 <= i < |events| ==> events[i].at <= now)
    && (forall i, j :: 0 <= i < j < |events| ==> events[i].at <= events[j].at)
  }

  function CacheAfter<D>(events: seq<Event<D>>): Cache<D> {
    if events == [] then map[]
    else
      var before := CacheAfter(events[..|events| - 1]);
      match events[|events| - 1]
      case Set(key, data, context, at) => AfterSet(before, key, data, context, at)
      case Get(key, at) => AfterGet(before, key, at)
  }

  /** The last entry stored under a key, eviction never having been invented. */
  function LastStored<D>(events: seq<Event<D>>, key: string): Option<Event<D>> {
    if events == [] then None
    else
      var e := events[|events| - 1];
      if e.Set? && e.key == key && Stores(e.data, e.context) then Some(e) else LastStored(events[..|events| - 1], key)
  }

  function Answer<D>(last: Option<Event<D>>, now: real): Option<D>
    requires last.Some? ==> last.value.Set?
  {
    if last.Some? && now < last.value.at + TtlOf(last.value.context) then last.value.data else None
  }

  lemma {:induction false} LastStoredFacts<D>(events: seq<Event<D>>, key: string)
    ensures var last := LastStored(events, key);
      last.Some? ==> last.value in events && last.value.Set? && last.value.key == key
                     && Stores(last.value.data, last.value.context)
  {
    if events != [] {
      LastStoredFacts(events[..|events| - 1], key);
    }
  }

  lemma {:induction false} CacheHoldsLast<D>(events: seq<Event<D>>, key: string, now: real)
    requires ClockOk(events, now)
    ensures var cache, last := CacheAfter(events), LastStored(events, key);
      && (key in cache ==> last.Some? && last.value.Set?)
      && (key in cache ==> cache[key] == Slot(last.value.data, last.value.at + TtlOf(last.value.context)))
      && (key !in cache && last.Some? ==> last.value.Set? && now >= last.value.at + TtlOf(last.value.context))
  {
    if events != [] {
      var n := |events| - 1;
      CacheHoldsLast(events[..n], key, events[n].at);
    }
  }

  /** A lookup answers from the store history alone: the last value stored under the key, while
      younger than its context's lifetime. Evicting on lookup is unobservable. */
  lemma {:induction false} LookupIsLastFresh<D>(events: seq<Event<D>>, key: string, now: real)
    requires ClockOk(events, now)
    ensures LastStored(events, key).Some? ==> LastStored(events, key).value.Set?
    ensures Lookup(CacheAfter(events), key, now) == Answer(LastStored(events, key), now)
  {
    LastStoredFacts(events, key);
    CacheHoldsLast(events, key, now);
  }

  /** A key under which nothing was stored with a lifetime never hits. */
  lemma {:induction false} NothingStoredNoHit<D>(events: seq<Event<D>>, key: string, now: real)
    requires ClockOk(events, now)
    requires forall i :: 0 <= i < |events| && events[i].Set? && events[i].key == key ==> TtlOf(events[i].context) == 0.0
    ensures Lookup(CacheAfter(events), key, now) == None
  {
    LastStoredFacts(events, key);
    LookupIsLastFresh(events, key, now);
  }

  /** A lookup evicts its own entry once that has expired, and nothing else. */
  lemma EvictsIff<D>(cache: Cache<D>, key: string, now: real, k: string)
    ensures k in AfterGet(cache, key, now) <==> k in cache && (k == key ==> now < cache[k].expiresAt)
    ensures k in AfterGet(cache, key, now) ==> AfterGet(cache, key, now)[k] == cache[k]
  {
  }

  /** The lifetimes in seconds; a context that is not listed has two minutes. */
  lemma Lifetimes(context: string)
    ensures TtlOf(context) ==
      if context == "trade_entry" then 0.0 else if context == "dashboard_chart" then 300.0
      else if context == "scanner" then 900.0 else if context == "backtest" then 3600.0
      else if context == "fundamentals" then 86400.0 else 120.0
  {
  }

  /** Everything is stored but what is fetched at trade entry and what failed on demand. */
  lemma StoredIff<D>(data: Option<D>, context: string)
    ensures Stores(data, context) <==> context != "trade_entry" && (data.Some? || context != "on_demand")
  {
    Lifetimes(context);
  }

  // ---- Keys ----

  lemma FirstColon(a: string, x: string, b: string, y: string)
    requires ':' !in a && ':' !in b && a + ":" + x == b + ":" + y
    ensures a == b && x == y
  {
    var s, t := a + ":" + x, b + ":" + y;
    assert s[|a|] == ':' && t[|b|] == ':';
    assert forall i :: 0 <= i < |a| ==> s[i] == a[i];
    assert forall i :: 0 <= i < |b| ==> t[i] == b[i];
    assert |a| == |b|;
    assert a == s[..|a|] == t[..|b|] == b;
    assert x == s[|a| + 1..] == t[|b| + 1..] == y;
  }

  lemma UpperKeepsColons(s: string)
    ensures ':' in Upper(s) <==> ':' in s
  {
    if ':' in Upper(s) {
      var i :| 0 <= i < |s| && Upper(s)[i] == ':';
      assert s[i] == ':';
    }
    if ':' in s {
      var i :| 0 <= i < |s| && s[i] == ':';
      assert Upper(s)[i] == ':';
    }
  }

  /** With colon-free symbols and contexts, two lookups share a slot exactly when they agree on
      the upper-cased symbol, the context and the extra part. */
  lemma KeysCollideIff(symbol: string, context: string, extra: string,
                       symbol': string, context': string, extra': string)
    requires ':' !in symbol && ':' !in context && ':' !in symbol' && ':' !in context'
    ensures CacheKey(symbol, context, extra) == CacheKey(symbol', context', extra')
       <==> Upper(symbol) == Upper(symbol') && context == context' && extra == extra'
  {
    UpperKeepsColons(symbol);
    UpperKeepsColons(symbol');
    if CacheKey(symbol, context, extra) == CacheKey(symbol', context', extra') {
      assert CacheKey(symbol, context, extra) == Upper(symbol) + ":" + (context + ":" + extra);
      assert CacheKey(symbol', context', extra') == Upper(symbol') + ":" + (context' + ":" + extra');
      FirstColon(Upper(symbol), context + ":" + extra, Upper(symbol'), context' + ":" + extra');
      FirstColon(context, extra, context', extra');
    }
  }

  /** The event's key was built, as every key of the data layer is, from a symbol, the context
      it is stored under and an extra part. */
  ghost predicate KeyFromContext<D>(e: Event<D>) {
    e.Set? ==> exists symbol, extra ::
      ':' !in symbol && ':' !in e.context && e.key == CacheKey(symbol, e.context, extra)
  }

  /** A lookup under a context without a lifetime never hits, whatever was stored under it or
      under any other context: their keys differ. */
  lemma {:induction false} TradeEntryNeverHits<D>(
      events: seq<Event<D>>, symbol: string, context: string, extra: string, now: real)
    requires ClockOk(events, now) && forall i :: 0 <= i < |events| ==> KeyFromContext(events[i])
    requires ':' !in symbol && ':' !in context && TtlOf(context) == 0.0
    ensures Lookup(CacheAfter(events), CacheKey(symbol, context, extra), now) == None
  {
    var key := CacheKey(symbol, context, extra);
    forall i | 0 <= i < |events| && events[i].Set? && events[i].key == key
      ensures TtlOf(events[i].context) == 0.0
    {
      var e := events[i];
      assert KeyFromContext(e);
      var symbol', extra' :| ':' !in symbol' && ':' !in e.context && e.key == CacheKey(symbol', e.context, extra');
      KeysCollideIff(symbol, context, extra, symbol', e.context, extra');
    }
    NothingStoredNoHit(events, key, now);
  }

  /** So prices looked up at trade entry are always fetched anew. */
  lemma {:induction false} TradeEntryIsAlwaysFresh<D>(events: seq<Event<D>>, symbol: string, extra: string, now: real)
    requires ClockOk(events, now) && forall i :: 0 <= i < |events| ==> KeyFromContext(events[i])
    requires ':' !in symbol
    ensures Lookup(CacheAfter(events), CacheKey(symbol, "trade_entry", extra), now) == None
  {
    Lifetimes("trade_entry");
    TradeEntryNeverHits(events, symbol, "trade_entry", extra, now);
  }
}
