/** Worked instances of the sheet pipeline. */
module SheetExamples {
  import opened Wrappers
  import opened Seqs
  import opened Dict
  import opened Sheets
  import opened Sorting
  import opened Text

  function Plain(id: string, includes: seq<string>, section: Sections): Sheet {
    Sheet(id, None, None, Some(includes), Some([]), Some(section))
  }

  function Binding(): Bindings {
    [("k", "v")]
  }

  /** `b` includes `a`, and `c` includes `b`. */
  function Chain(): seq<Sheet> {
    [Plain("a", [], [("s", Binding())]), Plain("b", ["a"], []), Plain("c", ["b"], [])]
  }

  /** `Chain()` once `b` is expanded. */
  function ChainB(): seq<Sheet> {
    Chain()[1 := Chain()[1].(section := Some([("[a] s", Binding())]))]
  }

  /** `ChainB()` once `c` is expanded. */
  function ChainC(): seq<Sheet> {
    ChainB()[2 := ChainB()[2].(section := Some([("[b] [a] s", Binding())]))]
  }

  lemma ExpandChainB()
    ensures IncludeAll(Chain(), 1, Incs(Chain()[1]), SheetNoun) == Success(ChainB())
  {
    IncludeChainB();
    assert Incs(Chain()[1]) == ["a"];
    assert ["a"][1..] == [];
  }

  lemma IncludeChainB()
    ensures IncludeOne(Chain(), 1, "a", SheetNoun) == Success(ChainB())
  {
    var s0 := Chain();
    assert FindFirst(s0, HasId("a")) == Some(0);
    assert IncludePrefix("a") + "s" == "[a] s";
    var added := Prefixed(s0[0].section.value, IncludePrefix("a"));
    assert added[0] == ("[a] s", Binding());
    assert added == [("[a] s", Binding())];
    assert Update([], added) == added;
    assert IncludeOne(s0, 1, "a", SheetNoun) == Success(ChainB());
  }

  lemma ExpandChainC()
    ensures IncludeAll(ChainB(), 2, Incs(ChainB()[2]), SheetNoun) == Success(ChainC())
  {
    IncludeChainC();
    assert Incs(ChainB()[2]) == ["b"];
    assert ["b"][1..] == [];
  }

  lemma IncludeChainC()
    ensures IncludeOne(ChainB(), 2, "b", SheetNoun) == Success(ChainC())
  {
    var s1 := ChainB();
    assert FindFirst(s1, HasId("b")) == Some(1);
    assert IncludePrefix("b") + "[a] s" == "[b] [a] s";
    var added := Prefixed(s1[1].section.value, IncludePrefix("b"));
    assert added[0] == ("[b] [a] s", Binding());
    assert added == [("[b] [a] s", Binding())];
    assert Update([], added) == added;
    assert IncludeOne(s1, 2, "b", SheetNoun) == Success(ChainC());
  }

  /** Includes cascade: `b` is expanded before `c`, so `c` receives `a`'s
      section under both prefixes. */
  lemma ExpandCascade()
    ensures ExpandIncludes(Chain(), SheetNoun).Success?
    ensures Get(ExpandIncludes(Chain(), SheetNoun).value[2].section.value, "[b] [a] s") == Some(Binding())
  {
    assert IncludeAll(Chain(), 0, Incs(Chain()[0]), SheetNoun) == Success(Chain());
    ExpandChainB();
    ExpandChainC();
    assert ExpandFrom(ChainC(), 3, SheetNoun) == Success(ChainC());
    assert ExpandFrom(ChainB(), 2, SheetNoun) == Success(ChainC());
    assert ExpandFrom(Chain(), 1, SheetNoun) == Success(ChainC());
    assert ExpandFrom(Chain(), 0, SheetNoun) == Success(ChainC());
    GetAt(ChainC()[2].section.value, 0);
  }

  /** A hidden sheet `h` and a visible sheet `v` that includes it. */
  function HiddenPair(): seq<Sheet> {
    [Plain("h", [], [("s", Binding())]).(hidden := Some(true)), Plain("v", ["h"], [])]
  }

  function VisibleExpanded(): Sheet {
    Plain("v", ["h"], [("[h] s", Binding())])
  }

  lemma ExpandHiddenPair()
    ensures ExpandIncludes(HiddenPair(), SheetNoun) == Success([HiddenPair()[0], VisibleExpanded()])
  {
    var s0 := HiddenPair();
    var s1 := [HiddenPair()[0], VisibleExpanded()];
    assert IncludeAll(s0, 0, Incs(s0[0]), SheetNoun) == Success(s0);
    assert FindFirst(s0, HasId("h")) == Some(0);
    assert IncludePrefix("h") + "s" == "[h] s";
    var added := Prefixed(s0[0].section.value, IncludePrefix("h"));
    assert added[0] == ("[h] s", Binding());
    assert added == [("[h] s", Binding())];
    assert Update([], added) == added;
    assert s0[1].(section := Some(added)) == VisibleExpanded();
    assert s0[1 := VisibleExpanded()] == s1;
    assert IncludeOne(s0, 1, "h", SheetNoun) == Success(s1);
    assert IncludeAll(s0, 1, Incs(s0[1]), SheetNoun) == Success(s1);
    assert ExpandFrom(s1, 2, SheetNoun) == Success(s1);
  }

  /** Includes are expanded before hidden sheets are dropped: a hidden sheet
      does not appear in the result, yet its sections reach the sheets that
      include it. */
  lemma HiddenSheetCanBeIncluded()
    ensures LoadSheets(HiddenPair(), []) == Success([VisibleExpanded()])
  {
    MergeHiddenPair();
    ExpandHiddenPair();
    HiddenPairVisible();
    PruneVisibleExpanded();
  }

  lemma MergeHiddenPair()
    ensures MergeAll(SortById(HiddenPair()), SortById([])) == Success(HiddenPair())
  {
    SortHiddenPair();
    assert MergeAll(HiddenPair(), []) == Success(HiddenPair());
  }

  lemma HiddenPairVisible()
    ensures RemoveHidden([HiddenPair()[0], VisibleExpanded()]) == [VisibleExpanded()]
  {
    var xs := [HiddenPair()[0], VisibleExpanded()];
    assert !Visible()(xs[0]) && Visible()(xs[1]);
    assert xs[1..] == [VisibleExpanded()];
  }

  lemma SortHiddenPair()
    ensures SortById(HiddenPair()) == HiddenPair() && SortById([]) == []
  {
    var s0 := HiddenPair();
    assert StrLe("h", "v");
    assert SortBy([s0[1]], IdLe()) == [s0[1]];
    assert SortBy(s0, IdLe()) == Insert(s0[0], [s0[1]], IdLe());
  }

  lemma PruneVisibleExpanded()
    ensures RemoveEmptySections([VisibleExpanded()]) == Success([VisibleExpanded()])
  {
    var sec := VisibleExpanded().section.value;
    assert FilterValues(sec, NonEmpty()) == sec;
    assert PruneSections(VisibleExpanded()) == Success(VisibleExpanded());
    var xs := [VisibleExpanded()];
    assert xs[1..] == [];
    assert RemoveEmptySections(xs[1..]) == Success([]);
    assert xs[0] == VisibleExpanded();
    assert RemoveEmptySections(xs) == Success([VisibleExpanded()] + []);
    assert [VisibleExpanded()] + [] == [VisibleExpanded()];
    assert RemoveEmptySections([VisibleExpanded()]) == Success([VisibleExpanded()]);
  }
}
