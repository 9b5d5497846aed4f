/**
 * The durable price cache: the `price_cache` table of database.py, one row
 * per ticker (the ticker is the primary key), written by `INSERT OR REPLACE`.
 *
 * Timestamps are whole seconds; `now` stands for SQLite's `datetime('now')`
 * and is always a parameter. A modifier such as `'-60 minutes'` becomes
 * `now - 60 * 60`.
 */
module PriceCache {
  import opened Wrappers
  import opened Sets

  const DefaultCurrency: string := "USD"
  const SecondsPerMinute: int := 60
  const SecondsPerHour: int := 3600
  const SecondsPerDay: int := 86400

  /** One row: `last_price`, `last_update`, `company_name`, `currency`. */
  datatype CacheEntry = CacheEntry(price: real, lastUpdate: int, companyName: Option<string>, currency: string)

  /** One dict of `update_price_cache_batch`'s `price_data`; `currency` is
      None when the dict has no 'currency' key. */
  datatype PriceUpdate = PriceUpdate(ticker: string, price: real, companyName: Option<string>, currency: Option<string>)

  /** The dict `get_cache_statistics` returns. */
  datatype CacheStats = CacheStats(totalCached: nat, fresh1h: nat, fresh24h: nat, oldest: Option<int>, newest: Option<int>)

  /** A position of the given currency joined with its cache row, as
      `get_positions_with_cache` returns it (the other position columns are
      carried through unchanged and are not modelled). */
  datatype PositionView = PositionView(ticker: string, cachedPrice: Option<real>, cacheUpdate: Option<int>,
                                        companyName: Option<string>, cacheAgeMinutes: Option<int>)

  datatype PositionRef = PositionRef(ticker: string, currency: string)

  type Table = map<string, CacheEntry>

  /** The row one update writes at time `now`; `d.get('currency', 'USD')`. */
  function EntryOf(u: PriceUpdate, now: int): (e: CacheEntry)
    ensures e.lastUpdate == now && e.price == u.price && e.companyName == u.companyName
    ensures u.currency == None ==> e.currency == DefaultCurrency
    ensures u.currency.Some? ==> e.currency == u.currency.value
  {
    CacheEntry(u.price, now, u.companyName, if u.currency.Some? then u.currency.value else DefaultCurrency)
  }

  function Tickers(us: seq<PriceUpdate>): set<string> {
    set i | 0 <= i < |us| :: us[i].ticker
  }

  /** `executemany` of `INSERT OR REPLACE` over the batch, in order. */
  function ApplyBatch(m: Table, us: seq<PriceUpdate>, now: int): Table {
    if us == [] then m
    else
      var u := us[|us| - 1];
      ApplyBatch(m, us[..|us| - 1], now)[u.ticker := EntryOf(u, now)]
  }

  /** The batch adds exactly the given tickers to the table's keys. */
  lemma {:induction false} ApplyBatchKeys(m: Table, us: seq<PriceUpdate>, now: int)
    ensures ApplyBatch(m, us, now).Keys == m.Keys + Tickers(us)
  {
    if us != [] {
      var init := us[..|us| - 1];
      ApplyBatchKeys(m, init, now);
      assert Tickers(us) == Tickers(init) + {us[|us| - 1].ticker};
    }
  }

  /** A ticker the batch does not mention keeps its row. */
  lemma {:induction false} ApplyBatchUntouched(m: Table, us: seq<PriceUpdate>, now: int, t: string)
    requires t in m && t !in Tickers(us)
    ensures t in ApplyBatch(m, us, now) && ApplyBatch(m, us, now)[t] == m[t]
  {
    if us != [] {
      var init := us[..|us| - 1];
      assert Tickers(us) == Tickers(init) + {us[|us| - 1].ticker};
      ApplyBatchUntouched(m, init, now, t);
    }
  }

  /** Each given ticker ends up with the row of the last dict that names it. */
  lemma {:induction false} ApplyBatchLastWins(m: Table, us: seq<PriceUpdate>, now: int, i: nat)
    requires i < |us|
    requires forall j :: i < j < |us| ==> us[j].ticker != us[i].ticker
    ensures us[i].ticker in ApplyBatch(m, us, now)
    ensures ApplyBatch(m, us, now)[us[i].ticker] == EntryOf(us[i], now)
  {
    if i < |us| - 1 {
      var init := us[..|us| - 1];
      assert init[i] == us[i];
      forall j | i < j < |init| ensures init[j].ticker != init[i].ticker {
        assert init[j] == us[j];
      }
      ApplyBatchLastWins(m, init, now, i);
    }
  }

  /** Writing the same batch twice at the same moment leaves the table as one
      write did. */
  lemma ApplyBatchIdempotent(m: Table, us: seq<PriceUpdate>, now: int)
    ensures ApplyBatch(ApplyBatch(m, us, now), us, now) == ApplyBatch(m, us, now)
  {
    var once := ApplyBatch(m, us, now);
    var twice := ApplyBatch(once, us, now);
    ApplyBatchKeys(m, us, now);
    ApplyBatchKeys(once, us, now);
    forall t | t in twice.Keys ensures twice[t] == once[t] {
      if t in Tickers(us) {
        var i := LastIndexOf(us, t);
        ApplyBatchLastWins(m, us, now, i);
        ApplyBatchLastWins(once, us, now, i);
      } else {
        ApplyBatchUntouched(once, us, now, t);
      }
    }
  }

  /** The position of the last dict for ticker `t` in the batch. */
  function LastIndexOf(us: seq<PriceUpdate>, t: string): (i: nat)
    requires t in Tickers(us)
    ensures i < |us| && us[i].ticker == t
    ensures forall j :: i < j < |us| ==> us[j].ticker != t
  {
    if us[|us| - 1].ticker == t then |us| - 1
    else
      assert t in Tickers(us[..|us| - 1]) by {
        var k :| 0 <= k < |us| && us[k].ticker == t;
        assert us[..|us| - 1][k] == us[k];
      }
      LastIndexOf(us[..|us| - 1], t)
  }

  /** `get_cached_price`: the row for `ticker` when it was written strictly
      after `now - max_age_minutes`, and nothing otherwise (missing and stale
      rows look the same). */
  function GetCachedPrice(m: Table, ticker: string, maxAgeMinutes: nat, now: int): (r: Option<CacheEntry>)
    ensures r.Some? <==> ticker in m && m[ticker].lastUpdate > now - maxAgeMinutes * SecondsPerMinute
    ensures r.Some? ==> r.value == m[ticker]
  {
    if ticker in m && m[ticker].lastUpdate > now - maxAgeMinutes * SecondsPerMinute then Some(m[ticker]) else None
  }

  /** Cache-then-read: right after an upsert at `written`, a lookup at `now`
      returns the new row exactly while `now` is less than `maxAgeMinutes`
      after the write. */
  lemma {:induction false} ReadAfterUpsert(m: Table, u: PriceUpdate, written: int, maxAgeMinutes: nat, now: int)
    ensures var r := GetCachedPrice(ApplyBatch(m, [u], written), u.ticker, maxAgeMinutes, now);
            (r.Some? <==> now - written < maxAgeMinutes * SecondsPerMinute)
            && (r.Some? ==> r.value.price == u.price && r.value.lastUpdate == written)
  {
    assert [u][..0] == [];
  }

  /** The rows `clear_old_cache` deletes: tickers held neither as a position
      nor on the watch-list, last written strictly before the cutoff. */
  function Evictable(m: Table, positions: set<string>, watchlist: set<string>, cutoff: int): set<string> {
    set t | t in m && t !in positions && t !in watchlist && m[t].lastUpdate < cutoff
  }

  /** `COUNT(CASE WHEN datetime(last_update) > cutoff THEN 1 END)` */
  function FreshCount(m: Table, cutoff: int): (n: nat)
    ensures n <= |m|
  {
    var recent := set t | t in m && m[t].lastUpdate > cutoff;
    assert recent <= m.Keys;
    SubsetCard(recent, m.Keys);
    |recent|
  }

  /** A later cutoff never counts more rows (so `fresh_1h <= fresh_24h`). */
  lemma FreshCountMonotone(m: Table, early: int, late: int)
    requires early <= late
    ensures FreshCount(m, late) <= FreshCount(m, early)
  {
    var a := set t | t in m && m[t].lastUpdate > late;
    var b := set t | t in m && m[t].lastUpdate > early;
    SubsetCard(a, b);
  }

  function UpdateTimes(m: Table): set<int> {
    set t | t in m :: m[t].lastUpdate
  }

  lemma UpdateTimesNonEmpty(m: Table)
    requires m != map[]
    ensures UpdateTimes(m) != {}
  {
    var t0 := PickElement(m.Keys);
    assert m[t0].lastUpdate in UpdateTimes(m);
  }

  /** `MIN(last_update)`, NULL on an empty table. */
  function Oldest(m: Table): (r: Option<int>)
    ensures r.None? <==> m == map[]
    ensures r.Some? ==> (exists t :: t in m && m[t].lastUpdate == r.value)
    ensures r.Some? ==> forall t :: t in m ==> r.value <= m[t].lastUpdate
  {
    if m == map[] then None
    else
      var times := UpdateTimes(m);
      UpdateTimesNonEmpty(m);
      HasMinimum(times);
      var lo :| lo in times && forall y :: y in times ==> lo <= y;
      assert forall t :: t in m ==> m[t].lastUpdate in times;
      Some(lo)
  }

  /** `MAX(last_update)`, NULL on an empty table. */
  function Newest(m: Table): (r: Option<int>)
    ensures r.None? <==> m == map[]
    ensures r.Some? ==> (exists t :: t in m && m[t].lastUpdate == r.value)
    ensures r.Some? ==> forall t :: t in m ==> m[t].lastUpdate <= r.value
  {
    if m == map[] then None
    else
      var times := UpdateTimes(m);
      UpdateTimesNonEmpty(m);
      HasMaximum(times);
      var hi :| hi in times && forall y :: y in times ==> y <= hi;
      assert forall t :: t in m ==> m[t].lastUpdate in times;
      Some(hi)
  }

  /** `get_cache_statistics`: row count, rows fresher than one hour and than
      24 hours, and the oldest and newest write. */
  function CacheStatistics(m: Table, now: int): (s: CacheStats)
    ensures s.totalCached == |m|
    ensures s.fresh1h <= s.fresh24h <= s.totalCached
    ensures s.fresh1h == FreshCount(m, now - SecondsPerHour) && s.fresh24h == FreshCount(m, now - SecondsPerDay)
    ensures (s.oldest.Some? <==> m != map[]) && (s.newest.Some? <==> m != map[])
    ensures s.oldest.Some? && s.newest.Some? ==> s.oldest.value <= s.newest.value
  {
    FreshCountMonotone(m, now - SecondsPerDay, now - SecondsPerHour);
    CacheStats(|m|, FreshCount(m, now - SecondsPerHour), FreshCount(m, now - SecondsPerDay), Oldest(m), Newest(m))
  }

  /** `CAST((julianday('now') - julianday(last_update)) * 24 * 60 AS INTEGER)`:
      whole minutes since the write, truncated toward zero. */
  function AgeMinutes(written: int, now: int): (a: int)
    ensures now >= written ==> 0 <= a * SecondsPerMinute <= now - written < (a + 1) * SecondsPerMinute
    ensures now < written ==> (a - 1) * SecondsPerMinute < now - written <= a * SecondsPerMinute <= 0
  {
    if now >= written then (now - written) / SecondsPerMinute else -((written - now) / SecondsPerMinute)
  }

  /** `WHERE p.currency = ?`: the positions of one currency, in the order
      given. */
  function InCurrency(positions: seq<PositionRef>, currency: string): (q: seq<PositionRef>)
    ensures |q| <= |positions|
    ensures forall k :: 0 <= k < |q| ==> q[k] in positions && q[k].currency == currency
    ensures forall p :: p in positions && p.currency == currency ==> p in q
  {
    if positions == [] then []
    else
      assert forall p :: p in positions <==> p == positions[0] || p in positions[1..];
      (if positions[0].currency == currency then [positions[0]] else []) + InCurrency(positions[1..], currency)
  }

  /** The LEFT JOIN of one position with its cache row: every cache column
      is NULL when the ticker is not cached. */
  ghost predicate JoinedWith(v: PositionView, p: PositionRef, m: Table, now: int) {
    && v.ticker == p.ticker
    && (p.ticker in m ==>
          && v.cachedPrice == Some(m[p.ticker].price) && v.cacheUpdate == Some(m[p.ticker].lastUpdate)
          && v.companyName == m[p.ticker].companyName
          && v.cacheAgeMinutes == Some(AgeMinutes(m[p.ticker].lastUpdate, now)))
    && (p.ticker !in m ==>
          v.cachedPrice == None && v.cacheUpdate == None && v.companyName == None && v.cacheAgeMinutes == None)
  }

  /** One position LEFT JOINed with its cache row. */
  function ViewOf(p: PositionRef, m: Table, now: int): (v: PositionView)
    ensures JoinedWith(v, p, m, now)
  {
    if p.ticker in m then
      PositionView(p.ticker, Some(m[p.ticker].price), Some(m[p.ticker].lastUpdate),
                   m[p.ticker].companyName, Some(AgeMinutes(m[p.ticker].lastUpdate, now)))
    else PositionView(p.ticker, None, None, None, None)
  }

  /** `get_positions_with_cache`: the positions of one currency (in the
      order given, which stands for `ORDER BY purchase_date DESC`), each
      LEFT JOINed with its cache row. */
  function PositionsWithCache(positions: seq<PositionRef>, m: Table, currency: string, now: int): (r: seq<PositionView>)
    ensures |r| == |InCurrency(positions, currency)| <= |positions|
    ensures forall k :: 0 <= k < |r| ==> JoinedWith(r[k], InCurrency(positions, currency)[k], m, now)
  {
    if positions == [] then []
    else
      var rest := PositionsWithCache(positions[1..], m, currency, now);
      var p := positions[0];
      if p.currency != currency then rest
      else
        assert InCurrency(positions, currency) == [p] + InCurrency(positions[1..], currency);
        [ViewOf(p, m, now)] + rest
  }

  /** Row by row: a row has a cached price and an age exactly when its
      ticker is cached, both taken from the cache row, and it comes from a
      position of the requested currency. */
  lemma PositionsWithCacheRows(positions: seq<PositionRef>, m: Table, currency: string, now: int)
    ensures var r := PositionsWithCache(positions, m, currency, now);
            && (forall v :: v in r ==> (v.cachedPrice.Some? <==> v.ticker in m) && (v.cacheAgeMinutes.Some? <==> v.ticker in m))
            && (forall v :: v in r && v.ticker in m ==>
                  v.cachedPrice == Some(m[v.ticker].price) && v.cacheAgeMinutes == Some(AgeMinutes(m[v.ticker].lastUpdate, now)))
            && (forall v :: v in r ==> exists p :: p in positions && p.ticker == v.ticker && p.currency == currency)
  {
    var r := PositionsWithCache(positions, m, currency, now);
    var q := InCurrency(positions, currency);
    forall v | v in r
      ensures (v.cachedPrice.Some? <==> v.ticker in m) && (v.cacheAgeMinutes.Some? <==> v.ticker in m)
      ensures v.ticker in m ==>
                v.cachedPrice == Some(m[v.ticker].price) && v.cacheAgeMinutes == Some(AgeMinutes(m[v.ticker].lastUpdate, now))
      ensures exists p :: p in positions && p.ticker == v.ticker && p.currency == currency
    {
      var k :| 0 <= k < |r| && r[k] == v;
      assert JoinedWith(r[k], q[k], m, now);
      assert q[k] in positions && q[k].currency == currency;
    }
  }

  /** The `price_cache` table, changed in place by the write operations. */
  class PriceCacheTable {
    var entries: Table

    constructor ()
      ensures entries == map[]
    {
      entries := map[];
    }

    /** `update_price_cache`: upsert one ticker, stamped `now`. */
    method UpdatePriceCache(ticker: string, price: real, companyName: Option<string>, currency: string, now: int)
      modifies this
      ensures ticker in entries && entries[ticker] == CacheEntry(price, now, companyName, currency)
      ensures forall t :: t != ticker ==> (t in entries <==> t in old(entries)) && (t in entries ==> entries[t] == old(entries)[t])
    {
      entries := entries[ticker := CacheEntry(price, now, companyName, currency)];
    }

    /** `update_price_cache_batch`: nothing happens for an empty batch;
        otherwise one `INSERT OR REPLACE` per dict, in order. */
    method UpdatePriceCacheBatch(updates: seq<PriceUpdate>, now: int)
      modifies this
      ensures entries == ApplyBatch(old(entries), updates, now)
      ensures updates == [] ==> entries == old(entries)
    {
      if updates == [] {
        return;
      }
      var i := 0;
      while i < |updates|
        invariant 0 <= i <= |updates|
        invariant entries == ApplyBatch(old(entries), updates[..i], now)
      {
        var u := updates[i];
        assert updates[..i + 1][..i] == updates[..i];
        entries := entries[u.ticker := EntryOf(u, now)];
        i := i + 1;
      }
      assert updates[..i] == updates;
    }

    /** `clear_old_cache`: delete the rows no position and no watch-list
        entry refers to that are older than `maxAgeDays`, and report how
        many went. */
    method ClearOldCache(positions: set<string>, watchlist: set<string>, maxAgeDays: nat, now: int) returns (deleted: nat)
      modifies this
      ensures forall t :: t in entries <==>
                t in old(entries) && (t in positions || t in watchlist || old(entries)[t].lastUpdate >= now - maxAgeDays * SecondsPerDay)
      ensures forall t :: t in entries ==> entries[t] == old(entries)[t]
      ensures deleted == |Evictable(old(entries), positions, watchlist, now - maxAgeDays * SecondsPerDay)|
      ensures deleted == |old(entries)| - |entries|
    {
      var doomed := Evictable(entries, positions, watchlist, now - maxAgeDays * SecondsPerDay);
      var kept := entries - doomed;
      assert entries.Keys == kept.Keys + doomed;
      assert kept.Keys !! doomed;
      deleted := |doomed|;
      entries := kept;
    }
  }
}
