/** The column layout of `src/keyhint/window.py`: the sections of a hint
    are dealt into columns greedily, in order, so that a column stays below
    a height limit derived from the screen. */
module Columns {
  import opened Dict
  import opened Hints

  /** One section of a hint: its title and its bindings. */
  type Section = (string, Dict<string, string>)

  /** The drawn height of a section: its title row and one row per binding. */
  function SectionHeight(s: Section, titleHeight: nat, rowHeight: nat): nat {
    titleHeight + rowHeight * |s.1|
  }

  /** The height of a column: the sum of its sections' heights. */
  function ColumnHeight(c: seq<Section>, titleHeight: nat, rowHeight: nat): nat {
    if c == [] then 0
    else ColumnHeight(c[..|c| - 1], titleHeight, rowHeight) + SectionHeight(c[|c| - 1], titleHeight, rowHeight)
  }

  /** The sections of all columns, column after column. */
  function Flatten(cols: seq<seq<Section>>): seq<Section> {
    if cols == [] then [] else cols[0] + Flatten(cols[1..])
  }

  lemma {:induction false} FlattenAppend(cols: seq<seq<Section>>, c: seq<Section>)
    ensures Flatten(cols + [c]) == Flatten(cols) + c
  {
    if cols != [] {
      assert (cols + [c])[1..] == cols[1..] + [c];
      FlattenAppend(cols[1..], c);
    } else {
      assert Flatten([c]) == c + Flatten([]);
    }
  }

  /** Within the height limit: a column that holds two or more sections is
      lower than `maxHeight`; a single section may be taller. */
  ghost predicate Bounded(c: seq<Section>, titleHeight: nat, rowHeight: nat, maxHeight: int) {
    |c| >= 2 ==> ColumnHeight(c, titleHeight, rowHeight) < maxHeight
  }

  /** Greedy: every column after the first has a first section, and that
      section did not fit below the column before it. */
  ghost predicate Greedy(cols: seq<seq<Section>>, titleHeight: nat, rowHeight: nat, maxHeight: int) {
    forall k :: 1 <= k < |cols| ==>
      cols[k] != [] &&
      ColumnHeight(cols[k - 1], titleHeight, rowHeight) + SectionHeight(cols[k][0], titleHeight, rowHeight) >= maxHeight
  }

  /** What the loop of `_distribute_hints_in_columns` keeps after dealing
      the sections `done`: the closed columns `cols` and the open column
      `current` hold them in order, and every column so far is bounded and
      was closed only when the next section did not fit. */
  ghost predicate Dealt(cols: seq<seq<Section>>, current: seq<Section>, done: seq<Section>,
                        titleHeight: nat, rowHeight: nat, maxHeight: int)
  {
    && Flatten(cols) + current == done
    && (done != [] <==> current != [])
    && ((cols != [] && cols[0] == []) <==> (done != [] && SectionHeight(done[0], titleHeight, rowHeight) >= maxHeight))
    && (forall k :: 0 <= k < |cols| ==> Bounded(cols[k], titleHeight, rowHeight, maxHeight))
    && Bounded(current, titleHeight, rowHeight, maxHeight)
    && Greedy(cols, titleHeight, rowHeight, maxHeight)
    && (cols != [] ==>
          ColumnHeight(cols[|cols| - 1], titleHeight, rowHeight) + SectionHeight(current[0], titleHeight, rowHeight)
          >= maxHeight)
  }

  /** The state of the loop after `i` sections: what `Dealt` says of them,
      with `height` the height of the open column. */
  ghost predicate DealState(cols: seq<seq<Section>>, current: seq<Section>, height: int, groups: Groups, i: nat,
                            titleHeight: nat, rowHeight: nat, maxHeight: int)
  {
    && i <= |groups|
    && Dealt(cols, current, groups[..i], titleHeight, rowHeight, maxHeight)
    && height == ColumnHeight(current, titleHeight, rowHeight)
  }

  /** A section that fits joins the open column. */
  lemma DealFits(cols: seq<seq<Section>>, current: seq<Section>, height: int, groups: Groups, i: nat,
                 titleHeight: nat, rowHeight: nat, maxHeight: int)
    requires i < |groups| && DealState(cols, current, height, groups, i, titleHeight, rowHeight, maxHeight)
    requires height + SectionHeight(groups[i], titleHeight, rowHeight) < maxHeight
    ensures DealState(cols, current + [groups[i]], height + SectionHeight(groups[i], titleHeight, rowHeight),
                      groups, i + 1, titleHeight, rowHeight, maxHeight)
  {
    var s, done := groups[i], groups[..i];
    assert groups[..i + 1] == done + [s];
    assert (current + [s])[..|current|] == current;
    if current != [] {
      assert (current + [s])[0] == current[0];
      assert (done + [s])[0] == done[0];
    }
  }

  /** A section that does not fit closes the open column and opens a new
      one. */
  lemma DealOverflows(cols: seq<seq<Section>>, current: seq<Section>, height: int, groups: Groups, i: nat,
                      titleHeight: nat, rowHeight: nat, maxHeight: int)
    requires i < |groups| && DealState(cols, current, height, groups, i, titleHeight, rowHeight, maxHeight)
    requires height + SectionHeight(groups[i], titleHeight, rowHeight) >= maxHeight
    ensures DealState(cols + [current], [groups[i]], SectionHeight(groups[i], titleHeight, rowHeight),
                      groups, i + 1, titleHeight, rowHeight, maxHeight)
  {
    var s, done := groups[i], groups[..i];
    assert groups[..i + 1] == done + [s];
    FlattenAppend(cols, current);
    var cols' := cols + [current];
    assert cols'[..|cols|] == cols;
    assert cols'[|cols|] == current;
    if done != [] {
      assert (done + [s])[0] == done[0];
      if cols == [] {
        assert current == done;
      }
    }
  }

  /** `_distribute_hints_in_columns`.  `maxHeight` is `screen_height // 1.3`,
      which is integral.  A section is added to the current column when the
      column stays strictly lower than `maxHeight`; otherwise the current
      column is closed, even when it is still empty, and the section opens a
      new one.  So a first section that does not fit leaves an empty first
      column. */
  method DistributeInColumns(groups: Groups, titleHeight: nat, rowHeight: nat, maxHeight: int)
      returns (cols: seq<seq<Section>>)
    ensures Flatten(cols) == groups
    ensures groups == [] <==> cols == []
    ensures (cols != [] && cols[0] == []) <==>
              (groups != [] && SectionHeight(groups[0], titleHeight, rowHeight) >= maxHeight)
    ensures forall k :: 0 <= k < |cols| ==> Bounded(cols[k], titleHeight, rowHeight, maxHeight)
    ensures Greedy(cols, titleHeight, rowHeight, maxHeight)
  {
    cols := [];
    var current: seq<Section> := [];
    var height: int := 0;
    var i := 0;
    while i < |groups|
      invariant DealState(cols, current, height, groups, i, titleHeight, rowHeight, maxHeight)
    {
      var sh := SectionHeight(groups[i], titleHeight, rowHeight);
      if height + sh < maxHeight {
        DealFits(cols, current, height, groups, i, titleHeight, rowHeight, maxHeight);
        current := current + [groups[i]];
        height := height + sh;
      } else {
        DealOverflows(cols, current, height, groups, i, titleHeight, rowHeight, maxHeight);
        cols := cols + [current];
        current := [groups[i]];
        height := sh;
      }
      i := i + 1;
    }
    DealClose(cols, current, height, groups, titleHeight, rowHeight, maxHeight);
    if |current| > 0 {
      cols := cols + [current];
    }
  }

  /** Closing the last column when it is not empty. */
  lemma DealClose(cols: seq<seq<Section>>, current: seq<Section>, height: int, groups: Groups,
                  titleHeight: nat, rowHeight: nat, maxHeight: int)
    requires DealState(cols, current, height, groups, |groups|, titleHeight, rowHeight, maxHeight)
    ensures var cols' := if |current| > 0 then cols + [current] else cols;
            && Flatten(cols') == groups
            && (groups == [] <==> cols' == [])
            && ((cols' != [] && cols'[0] == []) <==>
                  (groups != [] && SectionHeight(groups[0], titleHeight, rowHeight) >= maxHeight))
            && (forall k :: 0 <= k < |cols'| ==> Bounded(cols'[k], titleHeight, rowHeight, maxHeight))
            && Greedy(cols', titleHeight, rowHeight, maxHeight)
  {
    assert groups[..|groups|] == groups;
    if current != [] {
      FlattenAppend(cols, current);
      var cols' := cols + [current];
      assert cols'[..|cols|] == cols;
      assert cols'[|cols|] == current;
      if cols == [] {
        assert current == groups;
      }
    } else {
      assert groups == [];
    }
  }
}
