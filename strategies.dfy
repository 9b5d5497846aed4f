/**
 * The `opened_levels` column of `strategy_to_play` in database.py: a JSON
 * list of level numbers that `mark_level_as_opened` extends.
 */
module Strategies {
  import opened Wrappers

  /** `if level not in levels: levels.append(level)` */
  function AppendIfAbsent(levels: seq<int>, level: int): (r: seq<int>)
    ensures level in r
    ensures forall x :: x in r <==> x in levels || x == level
    ensures level in levels ==> r == levels
    ensures level !in levels ==> r == levels + [level]
  {
    if level in levels then levels else levels + [level]
  }

  predicate Distinct(xs: seq<int>) {
    forall i, j :: 0 <= i < j < |xs| ==> xs[i] != xs[j]
  }

  /** The list never holds a level twice, and marking twice is marking once. */
  lemma AppendIfAbsentKeepsDistinct(levels: seq<int>, level: int)
    requires Distinct(levels)
    ensures Distinct(AppendIfAbsent(levels, level))
    ensures AppendIfAbsent(AppendIfAbsent(levels, level), level) == AppendIfAbsent(levels, level)
  {
  }

  /** The list that a stored column value decodes to; NULL and '' read as `[]`. */
  function Decoded(stored: Option<seq<int>>): seq<int> {
    if stored.Some? then stored.value else []
  }

  class StrategyTable {
    /** Strategy id to its `opened_levels` value; `None` is NULL or empty text. */
    var openedLevels: map<int, Option<seq<int>>>

    constructor ()
      ensures openedLevels == map[]
    {
      openedLevels := map[];
    }

    /** `mark_level_as_opened`: for an existing strategy, add the level to its
        list unless present and store the list (a NULL column becomes a
        list); an unknown id changes nothing. */
    method MarkLevelAsOpened(strategyId: int, level: int)
      modifies this
      ensures strategyId !in old(openedLevels) ==> openedLevels == old(openedLevels)
      ensures strategyId in old(openedLevels) ==>
                openedLevels == old(openedLevels)[strategyId := Some(AppendIfAbsent(Decoded(old(openedLevels)[strategyId]), level))]
    {
      if strategyId in openedLevels {
        var levels := Decoded(openedLevels[strategyId]);
        if level !in levels {
          levels := levels + [level];
        }
        openedLevels := openedLevels[strategyId := Some(levels)];
      }
    }
  }
}
