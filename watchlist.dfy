/**
 * Take-profit levels of the `watchlist` table in database.py: each row has
 * four levels hp1..hp4 (REAL, nullable) and four "triggered" flags, and
 * `process_triggered_hp` walks a row from one level to the next until none
 * is left and the row is deleted.
 *
 * The table is the sequence of its rows in rowid order; `UNIQUE(ticker,
 * currency)` and the primary key `id` are part of `Valid()`.
 */
module Watchlist {
  import opened Wrappers

  datatype WatchRow = WatchRow(
    id: int, ticker: string, currency: string,
    hp1: Option<real>, hp2: Option<real>, hp3: Option<real>, hp4: Option<real>,
    hp1Triggered: bool, hp2Triggered: bool, hp3Triggered: bool, hp4Triggered: bool)

  /** What one `process_triggered_hp` does to the row it found. */
  datatype HpStep = Unchanged | Advance(row: WatchRow) | Remove

  /** Python truthiness of a REAL column: NULL and 0.0 are false. */
  predicate Truthy(x: Option<real>) {
    x.Some? && x.value != 0.0
  }

  /** Level `k` (1..4) of the row. */
  function Level(r: WatchRow, k: int): Option<real>
    requires 1 <= k <= 4
  {
    match k
    case 1 => r.hp1
    case 2 => r.hp2
    case 3 => r.hp3
    case _ => r.hp4
  }

  /** Flag `hpK_triggered` of the row. */
  predicate Triggered(r: WatchRow, k: int)
    requires 1 <= k <= 4
  {
    match k
    case 1 => r.hp1Triggered
    case 2 => r.hp2Triggered
    case 3 => r.hp3Triggered
    case _ => r.hp4Triggered
  }

  /** The lowest triggered level, or 0 when no flag is set. */
  function LowestTriggered(r: WatchRow): (k: nat)
    ensures k <= 4
    ensures k == 0 <==> forall j :: 1 <= j <= 4 ==> !Triggered(r, j)
    ensures k > 0 ==> Triggered(r, k) && forall j :: 1 <= j < k ==> !Triggered(r, j)
  {
    assert Triggered(r, 1) == r.hp1Triggered && Triggered(r, 2) == r.hp2Triggered;
    assert Triggered(r, 3) == r.hp3Triggered && Triggered(r, 4) == r.hp4Triggered;
    if r.hp1Triggered then 1
    else if r.hp2Triggered then 2
    else if r.hp3Triggered then 3
    else if r.hp4Triggered then 4
    else 0
  }

  /** The row with level `k` set to NULL and its flag to 0. */
  function ClearLevel(r: WatchRow, k: int): (c: WatchRow)
    requires 1 <= k <= 4
    ensures c.id == r.id && c.ticker == r.ticker && c.currency == r.currency
    ensures forall j :: 1 <= j <= 4 ==> Level(c, j) == (if j == k then None else Level(r, j))
    ensures forall j :: 1 <= j <= 4 ==> (Triggered(c, j) <==> j != k && Triggered(r, j))
  {
    match k
    case 1 => r.(hp1 := None, hp1Triggered := false)
    case 2 => r.(hp2 := None, hp2Triggered := false)
    case 3 => r.(hp3 := None, hp3Triggered := false)
    case _ => r.(hp4 := None, hp4Triggered := false)
  }

  /** The branches of `process_triggered_hp` once the row has been found. */
  function ProcessStep(r: WatchRow): HpStep {
    if r.hp1Triggered then
      if Truthy(r.hp2) then Advance(r.(hp1 := None, hp1Triggered := false)) else Remove
    else if r.hp2Triggered then
      if Truthy(r.hp3) then Advance(r.(hp2 := None, hp2Triggered := false)) else Remove
    else if r.hp3Triggered then
      if Truthy(r.hp4) then Advance(r.(hp3 := None, hp3Triggered := false)) else Remove
    else if r.hp4Triggered then Remove
    else Unchanged
  }

  /** The state machine in one rule: the lowest triggered level k is handled;
      if level k+1 is set, level k and its flag are cleared, otherwise the
      row goes; with no flag set nothing changes. */
  lemma ProcessStepHandlesLowestLevel(r: WatchRow)
    ensures var k := LowestTriggered(r);
            && (k == 0 <==> ProcessStep(r) == Unchanged)
            && (0 < k < 4 && Truthy(Level(r, k + 1)) ==> ProcessStep(r) == Advance(ClearLevel(r, k)))
            && (0 < k && (k == 4 || !Truthy(Level(r, k + 1))) <==> ProcessStep(r) == Remove)
  {
  }

  function FlagCount(r: WatchRow): nat {
    (if r.hp1Triggered then 1 else 0) + (if r.hp2Triggered then 1 else 0)
    + (if r.hp3Triggered then 1 else 0) + (if r.hp4Triggered then 1 else 0)
  }

  /** Advancing clears one flag and sets none, so repeated processing of a
      row reaches Unchanged or Remove after at most four steps. */
  lemma AdvanceClearsOneFlag(r: WatchRow)
    requires ProcessStep(r).Advance?
    ensures FlagCount(ProcessStep(r).row) == FlagCount(r) - 1
    ensures ProcessStep(r).row.id == r.id && ProcessStep(r).row.ticker == r.ticker
    ensures ProcessStep(r).row.currency == r.currency
  {
  }

  /** `update_watchlist_alert_status`: every argument that `is True` sets its
      flag to 1; flags are never cleared here. */
  function WithAlerts(r: WatchRow, h1: bool, h2: bool, h3: bool, h4: bool): (c: WatchRow)
    ensures c.id == r.id && c.ticker == r.ticker && c.currency == r.currency
    ensures forall j :: 1 <= j <= 4 ==> Level(c, j) == Level(r, j)
    ensures forall j :: 1 <= j <= 4 ==>
              (Triggered(c, j) <==> Triggered(r, j) || (j == 1 && h1) || (j == 2 && h2) || (j == 3 && h3) || (j == 4 && h4))
  {
    r.(hp1Triggered := r.hp1Triggered || h1, hp2Triggered := r.hp2Triggered || h2,
       hp3Triggered := r.hp3Triggered || h3, hp4Triggered := r.hp4Triggered || h4)
  }

  /** `SET hpK_triggered = 1` */
  function WithTriggered(r: WatchRow, k: int): (c: WatchRow)
    requires 1 <= k <= 4
    ensures c.id == r.id && c.ticker == r.ticker && c.currency == r.currency
    ensures forall j :: 1 <= j <= 4 ==> Level(c, j) == Level(r, j)
    ensures forall j :: 1 <= j <= 4 ==> (Triggered(c, j) <==> j == k || Triggered(r, j))
  {
    match k
    case 1 => r.(hp1Triggered := true)
    case 2 => r.(hp2Triggered := true)
    case 3 => r.(hp3Triggered := true)
    case _ => r.(hp4Triggered := true)
  }

  predicate Matches(r: WatchRow, ticker: string, currency: string) {
    r.ticker == ticker && r.currency == currency
  }

  /** `fetchone()` of `WHERE ticker = ? AND currency = ?`: the first match. */
  function FindRow(rows: seq<WatchRow>, ticker: string, currency: string): (i: Option<nat>)
    ensures i.Some? ==> i.value < |rows| && Matches(rows[i.value], ticker, currency)
    ensures i.Some? ==> forall j :: 0 <= j < i.value ==> !Matches(rows[j], ticker, currency)
    ensures i.None? ==> forall j :: 0 <= j < |rows| ==> !Matches(rows[j], ticker, currency)
  {
    if rows == [] then None
    else if Matches(rows[0], ticker, currency) then Some(0)
    else
      match FindRow(rows[1..], ticker, currency)
      case None => None
      case Some(k) => Some(k + 1)
  }

  ghost predicate UniqueKeys(rows: seq<WatchRow>) {
    forall i, j :: 0 <= i < j < |rows| ==>
      rows[i].id != rows[j].id && (rows[i].ticker != rows[j].ticker || rows[i].currency != rows[j].currency)
  }

  class WatchlistTable {
    var rows: seq<WatchRow>

    ghost predicate Valid()
      reads this
    {
      UniqueKeys(rows)
    }

    constructor ()
      ensures Valid() && rows == []
    {
      rows := [];
    }

    /** `update_watchlist_alert_status`: when at least one argument is True,
        one UPDATE of the row with that id; otherwise nothing happens. */
    method UpdateWatchlistAlertStatus(id: int, h1: bool, h2: bool, h3: bool, h4: bool)
      requires Valid()
      modifies this
      ensures Valid() && |rows| == |old(rows)|
      ensures forall i :: 0 <= i < |rows| ==>
                rows[i] == if old(rows)[i].id == id then WithAlerts(old(rows)[i], h1, h2, h3, h4) else old(rows)[i]
      ensures !(h1 || h2 || h3 || h4) ==> rows == old(rows)
    {
      if h1 || h2 || h3 || h4 {
        var before := rows;
        rows := seq(|before|, i requires 0 <= i < |before| =>
                  if before[i].id == id then WithAlerts(before[i], h1, h2, h3, h4) else before[i]);
      } else {
        assert forall i :: 0 <= i < |rows| ==> WithAlerts(rows[i], false, false, false, false) == rows[i];
      }
    }

    /** `mark_hp_triggered`: set flag `hp{level}_triggered` on the row for
        ticker and currency. A level other than 1..4 names no column, the
        UPDATE fails and nothing changes (`ok` is false). */
    method MarkHpTriggered(ticker: string, currency: string, level: int) returns (ok: bool)
      requires Valid()
      modifies this
      ensures Valid() && |rows| == |old(rows)|
      ensures ok <==> 1 <= level <= 4
      ensures !ok ==> rows == old(rows)
      ensures ok ==> forall i :: 0 <= i < |rows| ==>
                rows[i] == if Matches(old(rows)[i], ticker, currency) then WithTriggered(old(rows)[i], level) else old(rows)[i]
    {
      if !(1 <= level <= 4) {
        return false;
      }
      var before := rows;
      rows := seq(|before|, i requires 0 <= i < |before| =>
                if Matches(before[i], ticker, currency) then WithTriggered(before[i], level) else before[i]);
      ok := true;
    }

    /** `process_triggered_hp`: returns whether the row was deleted. A missing
        row or a row with no flag set changes nothing and returns false. */
    method ProcessTriggeredHp(ticker: string, currency: string) returns (removed: bool)
      requires Valid()
      modifies this
      ensures Valid()
      ensures FindRow(old(rows), ticker, currency).None? ==> rows == old(rows) && !removed
      ensures FindRow(old(rows), ticker, currency).Some? ==>
                var i := FindRow(old(rows), ticker, currency).value;
                match ProcessStep(old(rows)[i])
                case Unchanged => rows == old(rows) && !removed
                case Advance(c) => rows == old(rows)[i := c] && !removed
                case Remove => rows == old(rows)[..i] + old(rows)[i + 1..] && removed
    {
      var found := FindRow(rows, ticker, currency);
      if found.None? {
        return false;
      }
      var i := found.value;
      match ProcessStep(rows[i]) {
        case Unchanged =>
          removed := false;
        case Advance(c) =>
          AdvanceClearsOneFlag(rows[i]);
          rows := rows[i := c];
          removed := false;
        case Remove =>
          rows := rows[..i] + rows[i + 1..];
          removed := true;
      }
    }
  }
}
