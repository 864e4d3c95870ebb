/** The grid arithmetic of the Tk hint window
    (`keyhint/handlers/show_hints_handler.py`) and of the PySimpleGUI window
    of `pyshortcuts/display.py`: the frame each group title and each binding
    is placed in, the value of the row counter `current_row` when it is
    placed, the paddings, and the window title.  A binding is gridded at that
    row; a group title is gridded without a row, so Tk puts it in the frame's
    next unoccupied row, and the counter only decides its padding and when a
    frame is full. */
module TkLayout {
  import opened Text
  import opened Dict
  import opened KeyNames
  import opened Hints

  /** What is drawn, in drawing order: a group title, or one binding. */
  datatype Item = Title(group: string) | Key(key: string, desc: string)

  function KeyItems(bindings: seq<(string, string)>): (r: seq<Item>)
    ensures |r| == |bindings|
    ensures forall i :: 0 <= i < |r| ==> r[i] == Key(bindings[i].0, bindings[i].1)
  {
    seq(|bindings|, i requires 0 <= i < |bindings| => Key(bindings[i].0, bindings[i].1))
  }

  /** The two nested loops of `_create_layout` visit each group title
      followed by its bindings, group after group. */
  function Items(groups: seq<(string, Dict<string, string>)>): (r: seq<Item>)
    ensures groups != [] ==> r != [] && r[0] == Title(groups[0].0)
    ensures groups == [] ==> r == []
  {
    if groups == [] then [] else [Title(groups[0].0)] + KeyItems(groups[0].1) + Items(groups[1..])
  }

  /** A placed label: its frame (the grid column of the window, counted
      from 0), the value of `current_row` when it is placed, and its
      vertical padding. */
  datatype Cell = Cell(item: Item, frame: nat, row: nat, pady: (int, int))

  /** Whether the label opens a new frame when the next free row is `row`:
      a group title needs four free rows, a binding one. */
  predicate Opens(item: Item, row: int, maxRows: int) {
    match item
    case Title(_) => row > maxRows - 4
    case Key(_, _) => row >= maxRows
  }

  /** `_create_group_title_row`: no space above a title at the top of a
      frame, 15 pixels otherwise; bindings have 2 above and below. */
  function Padding(item: Item, row: int): (r: (int, int))
    ensures item.Title? ==> (r == (0, 5) <==> row == 1)
    ensures item.Title? && row != 1 ==> r == (15, 5)
    ensures item.Key? ==> r == (2, 2)
  {
    if item.Key? then (2, 2) else if row == 1 then (0, 5) else (15, 5)
  }

  /** The free position before cell `i`: the row below the previous cell,
      or row 1 of frame 0 at the start. */
  function Before(cells: seq<Cell>, i: nat): (nat, nat)
    requires i <= |cells|
  {
    if i == 0 then (0, 1) else (cells[i - 1].frame, cells[i - 1].row + 1)
  }

  /** A cell is placed at the free position, or at the top of the next frame
      when its label opens one. */
  predicate Follows(pos: (nat, nat), c: Cell, maxRows: int) {
    if Opens(c.item, pos.1, maxRows) then c.frame == pos.0 + 1 && c.row == 1
    else c.frame == pos.0 && c.row == pos.1
  }

  predicate FollowsAt(cells: seq<Cell>, i: nat, maxRows: int)
    requires i < |cells|
  {
    Follows(Before(cells, i), cells[i], maxRows)
  }

  /** The cells hold the items in order, each placed after the one before. */
  ghost predicate Laid(items: seq<Item>, cells: seq<Cell>, maxRows: int) {
    && |cells| == |items|
    && (forall i :: 0 <= i < |cells| ==> cells[i].item == items[i])
    && (forall i :: 0 <= i < |cells| ==> FollowsAt(cells, i, maxRows))
  }

  /** The largest `row + 1` of a binding among the first `n` cells, or 0. */
  function MaxKeyRow(cells: seq<Cell>, n: nat): (r: nat)
    requires n <= |cells|
    ensures forall i :: 0 <= i < n && cells[i].item.Key? ==> cells[i].row + 1 <= r
    ensures r == 0 <==> forall i :: 0 <= i < n ==> !cells[i].item.Key?
    ensures r != 0 ==> exists i :: 0 <= i < n && cells[i].item.Key? && r == cells[i].row + 1
  {
    if n == 0 then 0
    else
      var m := MaxKeyRow(cells, n - 1);
      if cells[n - 1].item.Key? && cells[n - 1].row + 1 > m then cells[n - 1].row + 1 else m
  }

  /** The first `|cells|` items are laid out, within the row limits and
      with the paddings `_create_layout` uses. */
  ghost predicate LaidPrefix(items: seq<Item>, cells: seq<Cell>, maxRows: int) {
    && |cells| <= |items|
    && (forall j :: 0 <= j < |cells| ==> cells[j].item == items[j])
    && (forall j :: 0 <= j < |cells| ==> FollowsAt(cells, j, maxRows))
    && (forall j :: 0 <= j < |cells| && cells[j].item.Title? ==> cells[j].row == 1 || cells[j].row <= maxRows - 4)
    && (forall j :: 0 <= j < |cells| && cells[j].item.Key? ==> cells[j].row == 1 || cells[j].row < maxRows)
    && (forall j :: 0 <= j < |cells| ==> cells[j].pady == Padding(cells[j].item, cells[j].row))
  }

  /** The state of `_create_layout`'s loop after `|cells|` items: they are
      laid out, `frames - 1` and `row` give the free position, and
      `actualMaxRows` is the largest binding row so far plus one. */
  ghost predicate LayState(items: seq<Item>, cells: seq<Cell>, frames: nat, row: nat, actualMaxRows: nat, maxRows: int) {
    && LaidPrefix(items, cells, maxRows)
    && frames >= 1 && (frames - 1, row) == Before(cells, |cells|)
    && actualMaxRows == MaxKeyRow(cells, |cells|)
  }

  /** One pass of the loop: the next item goes to the free position, or to
      the top of a new frame when it does not fit. */
  lemma PlaceNext(items: seq<Item>, cells: seq<Cell>, frames: nat, row: nat, actualMaxRows: nat, maxRows: int, c: Cell)
    requires LayState(items, cells, frames, row, actualMaxRows, maxRows) && |cells| < |items|
    requires c.item == items[|cells|] && Follows((frames - 1, row), c, maxRows)
    requires c.pady == Padding(c.item, c.row)
    ensures LayState(items, cells + [c], c.frame + 1, c.row + 1,
                     if c.item.Key? && c.row + 1 > actualMaxRows then c.row + 1 else actualMaxRows, maxRows)
  {
    LaidNext(items, cells, maxRows, c);
    assert Before(cells + [c], |cells| + 1) == (c.frame, c.row + 1);
    MaxKeyRowPrefix(cells, [c], |cells|);
  }

  /** The next item, placed after the last cell, extends the laid-out
      prefix. */
  lemma LaidNext(items: seq<Item>, cells: seq<Cell>, maxRows: int, c: Cell)
    requires LaidPrefix(items, cells, maxRows) && |cells| < |items|
    requires c.item == items[|cells|] && Follows(Before(cells, |cells|), c, maxRows)
    requires c.pady == Padding(c.item, c.row)
    ensures LaidPrefix(items, cells + [c], maxRows)
  {
    var cells' := cells + [c];
    FollowsAfter(cells, c, maxRows);
    CellBounds(Before(cells, |cells|), c, maxRows);
    forall j | 0 <= j < |cells'|
      ensures cells'[j].item == items[j]
      ensures cells'[j].item.Title? ==> cells'[j].row == 1 || cells'[j].row <= maxRows - 4
      ensures cells'[j].item.Key? ==> cells'[j].row == 1 || cells'[j].row < maxRows
      ensures cells'[j].pady == Padding(cells'[j].item, cells'[j].row)
    {
      if j < |cells| {
        assert cells'[j] == cells[j];
      } else {
        assert cells'[j] == c;
      }
    }
  }

  /** Appending a cell placed after the last one keeps every cell placed
      after its predecessor. */
  lemma FollowsAfter(cells: seq<Cell>, c: Cell, maxRows: int)
    requires forall j :: 0 <= j < |cells| ==> FollowsAt(cells, j, maxRows)
    requires Follows(Before(cells, |cells|), c, maxRows)
    ensures forall j :: 0 <= j < |cells| + 1 ==> FollowsAt(cells + [c], j, maxRows)
  {
    var cells' := cells + [c];
    forall j | 0 <= j < |cells| ensures FollowsAt(cells', j, maxRows) {
      assert cells'[j] == cells[j];
      assert Before(cells', j) == Before(cells, j);
      assert FollowsAt(cells, j, maxRows);
    }
    assert Before(cells', |cells|) == Before(cells, |cells|);
    assert FollowsAt(cells', |cells|, maxRows);
  }

  /** A placed cell is within the row limits: a title not at the top has
      four rows left, a binding not at the top one. */
  lemma CellBounds(pos: (nat, nat), c: Cell, maxRows: int)
    requires Follows(pos, c, maxRows)
    ensures c.item.Title? ==> c.row == 1 || c.row <= maxRows - 4
    ensures c.item.Key? ==> c.row == 1 || c.row < maxRows
  {
  }

  /** `HintsWindow._create_layout`: the labels of the hint's groups, laid
      out by `PlaceItems`. */
  method CreateLayout(groups: Groups, maxRows: int) returns (cells: seq<Cell>, frames: nat, actualMaxRows: nat)
    ensures Laid(Items(groups), cells, maxRows)
    ensures frames >= 1 && forall i :: 0 <= i < |cells| ==> cells[i].frame < frames
    ensures actualMaxRows == MaxKeyRow(cells, |cells|)
  {
    cells, frames, actualMaxRows := PlaceItems(Items(groups), maxRows);
  }

  /** The loop of `_create_layout` over the labels in drawing order:
      `frames` is the final `current_col`, `actualMaxRows` the final
      `acutal_max_rows`. */
  method PlaceItems(items: seq<Item>, maxRows: int) returns (cells: seq<Cell>, frames: nat, actualMaxRows: nat)
    ensures Laid(items, cells, maxRows)
    ensures frames >= 1 && forall i :: 0 <= i < |cells| ==> cells[i].frame < frames
    ensures frames == if cells == [] then 1 else cells[|cells| - 1].frame + 1
    ensures forall i :: 0 <= i < |cells| && cells[i].item.Title? ==> cells[i].row == 1 || cells[i].row <= maxRows - 4
    ensures forall i :: 0 <= i < |cells| && cells[i].item.Key? ==> cells[i].row == 1 || cells[i].row < maxRows
    ensures forall i :: 0 <= i < |cells| ==> cells[i].pady == Padding(cells[i].item, cells[i].row)
    ensures actualMaxRows == MaxKeyRow(cells, |cells|)
  {
    cells := [];
    frames := 1;
    var row: nat := 1;
    actualMaxRows := 0;
    var i := 0;
    while i < |items|
      invariant i == |cells| && LayState(items, cells, frames, row, actualMaxRows, maxRows)
    {
      var item := items[i];
      ghost var framesBefore, rowBefore := frames, row;
      if Opens(item, row, maxRows) {
        frames := frames + 1;
        row := 1;
      }
      var c := Cell(item, frames - 1, row, Padding(item, row));
      PlaceNext(items, cells, framesBefore, rowBefore, actualMaxRows, maxRows, c);
      cells := cells + [c];
      row := row + 1;
      if item.Key? {
        actualMaxRows := if actualMaxRows > row then actualMaxRows else row;
      }
      i := i + 1;
    }
    LaidPrefixFull(items, cells, maxRows);
  }

  lemma LaidPrefixFull(items: seq<Item>, cells: seq<Cell>, maxRows: int)
    requires LaidPrefix(items, cells, maxRows) && |cells| == |items|
    ensures Laid(items, cells, maxRows)
    ensures forall i :: 0 <= i < |cells| ==> cells[i].frame <= Before(cells, |cells|).0
  {
    FramesGrow(items, cells, maxRows);
    if cells != [] {
      assert Before(cells, |cells|).0 == cells[|cells| - 1].frame;
    }
  }

  lemma {:induction false} MaxKeyRowPrefix(cells: seq<Cell>, more: seq<Cell>, n: nat)
    requires n <= |cells|
    ensures MaxKeyRow(cells + more, n) == MaxKeyRow(cells, n)
  {
    if n > 0 {
      MaxKeyRowPrefix(cells, more, n - 1);
      assert (cells + more)[n - 1] == cells[n - 1];
    }
  }

  /** Frames are filled left to right without gaps: each label is in the
      frame of the previous one or the next. */
  lemma {:induction false} FramesContiguous(items: seq<Item>, cells: seq<Cell>, maxRows: int, f: nat)
    requires Laid(items, cells, maxRows) && cells != []
    requires cells[0].frame <= f <= cells[|cells| - 1].frame
    ensures exists i :: 0 <= i < |cells| && cells[i].frame == f
    decreases |cells|
  {
    var n := |cells|;
    if f < cells[n - 1].frame {
      var prefix := cells[..n - 1];
      assert FollowsAt(cells, n - 1, maxRows);
      assert forall i :: 0 <= i < n - 1 ==> prefix[i] == cells[i];
      assert forall i :: 0 <= i < n - 1 ==> FollowsAt(prefix, i, maxRows) == FollowsAt(cells, i, maxRows);
      FramesContiguous(items[..n - 1], prefix, maxRows, f);
      var i :| 0 <= i < |prefix| && prefix[i].frame == f;
      assert cells[i].frame == f;
    }
  }

  /** The first frame stays empty exactly when the first group's title does
      not fit in it, which happens for every non-empty hint when fewer than
      five rows are allowed. */
  lemma FirstFrameEmpty(groups: Groups, cells: seq<Cell>, maxRows: int)
    requires Laid(Items(groups), cells, maxRows) && groups != []
    ensures cells[0].frame == 1 <==> maxRows < 5
    ensures maxRows < 5 ==> forall i :: 0 <= i < |cells| ==> cells[i].frame >= 1
  {
    assert cells[0].item == Title(groups[0].0);
    assert FollowsAt(cells, 0, maxRows);
    if maxRows < 5 {
      FramesGrow(Items(groups), cells, maxRows);
    }
  }

  lemma {:induction false} FramesGrow(items: seq<Item>, cells: seq<Cell>, maxRows: int)
    requires Laid(items, cells, maxRows)
    ensures forall i, j :: 0 <= i <= j < |cells| ==> cells[i].frame <= cells[j].frame
  {
    forall i, j | 0 <= i <= j < |cells| ensures cells[i].frame <= cells[j].frame {
      FramesGrowFrom(items, cells, maxRows, i, j);
    }
  }

  lemma {:induction false} FramesGrowFrom(items: seq<Item>, cells: seq<Cell>, maxRows: int, i: nat, j: nat)
    requires Laid(items, cells, maxRows) && i <= j < |cells|
    ensures cells[i].frame <= cells[j].frame
    decreases j - i
  {
    if i < j {
      FramesGrowFrom(items, cells, maxRows, i, j - 1);
      assert FollowsAt(cells, j, maxRows);
    }
  }

  /** The window title: the application name, followed by the context in
      parentheses unless the context is called "default" in any case. */
  function TitleText(appName: string, contextName: string): (r: string)
    ensures appName <= r
    ensures r == appName <==> Lower(contextName) == "default"
    ensures r != appName ==> r[|appName|..] == " (" + contextName + ")"
  {
    if Lower(contextName) == "default" then appName else appName + " (" + contextName + ")"
  }

  // ---------------------------------------------------------------------
  // `pyshortcuts/display.py`.

  /** One row of the PySimpleGUI layout: a heading, or the two columns of
      key labels and descriptions. */
  datatype Row = Heading(text: string, pad: (int, int)) | KeyColumns(left: seq<string>, right: seq<string>)

  /** `_create_layout_keys`: keys on the left, beautified when asked,
      descriptions on the right, binding by binding. */
  function LayoutKeys(bindings: seq<(string, string)>, beautify: bool): (r: Row)
    ensures r.KeyColumns? && |r.left| == |r.right| == |bindings|
    ensures forall i :: 0 <= i < |bindings| ==> r.right[i] == bindings[i].1
    ensures forall i :: 0 <= i < |bindings| ==> r.left[i] == if beautify then BeautifyKeys(bindings[i].0) else bindings[i].0
  {
    KeyColumns(seq(|bindings|, i requires 0 <= i < |bindings| => if beautify then BeautifyKeys(bindings[i].0) else bindings[i].0),
               seq(|bindings|, i requires 0 <= i < |bindings| => bindings[i].1))
  }

  /** `_create_layout`: a heading row and a key row per group, the group
      counter starting at -1 so that only the first heading is unpadded.
      `headingPad` stands for the configured `heading_pad`, which PySimpleGUI
      reads as `((left, right), (top, bottom))`; the model keeps it as one
      opaque pair and states only where it is used, not its inner shape. */
  method DisplayLayout(groups: Groups, beautify: bool, headingPad: (int, int)) returns (rows: seq<Row>)
    ensures |rows| == 2 * |groups|
    ensures forall k :: 0 <= k < |groups| ==>
              rows[2 * k] == Heading(groups[k].0, if k == 0 then (0, 0) else headingPad)
    ensures forall k :: 0 <= k < |groups| ==> rows[2 * k + 1] == LayoutKeys(groups[k].1, beautify)
  {
    rows := [];
    var counter := -1;
    var k := 0;
    while k < |groups|
      invariant 0 <= k <= |groups| && |rows| == 2 * k && counter == k - 1
      invariant forall m :: 0 <= m < k ==> rows[2 * m] == Heading(groups[m].0, if m == 0 then (0, 0) else headingPad)
      invariant forall m :: 0 <= m < k ==> rows[2 * m + 1] == LayoutKeys(groups[m].1, beautify)
    {
      counter := counter + 1;
      var pad := if counter == 0 then (0, 0) else headingPad;
      rows := rows + [Heading(groups[k].0, pad), LayoutKeys(groups[k].1, beautify)];
      k := k + 1;
    }
  }
}
