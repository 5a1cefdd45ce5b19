/**
 * Properties relating the transitions of `Sequencer` to each other and to
 * the invariants the manager keeps, laws that pin down the code's quirks
 * (index and skip marks that stay on their positions), and two
 * start-then-skip runs.
 */
module Laws {
  import opened Wrappers
  import opened Runner
  import opened Sequencer

  // ----- add -----

  /** Add never takes a list of at most `Capacity` entries past it. */
  lemma AddWithinCapacity(s: Manager, chosen: string, norm: string -> string)
    requires |s.exeList| <= Capacity
    ensures |AddProgram(s, chosen, norm).state.exeList| <= Capacity
  {
  }

  /** Add keeps the keys of the list pairwise distinct. */
  lemma AddKeepsKeysDistinct(s: Manager, chosen: string, norm: string -> string)
    requires DistinctKeys(norm, s.exeList)
    ensures DistinctKeys(norm, AddProgram(s, chosen, norm).state.exeList)
  {
  }

  /** Adding the same path a second time leaves the list as the first add left it. */
  lemma AddTwiceIsAddOnce(s: Manager, chosen: string, norm: string -> string)
    ensures var once := AddProgram(s, chosen, norm).state;
            AddProgram(once, chosen, norm).state == once
  {
  }

  // ----- remove and move -----

  /** Removing an entry keeps the keys of the list pairwise distinct. */
  lemma RemoveKeepsKeysDistinct(s: Manager, norm: string -> string)
    requires WellFormed(s) && DistinctKeys(norm, s.exeList)
    ensures DistinctKeys(norm, RemoveProgram(s).state.exeList)
  {
  }

  /** Exchanging two entries keeps the keys pairwise distinct. */
  lemma SwapKeepsKeysDistinct(xs: seq<string>, i: nat, j: nat, norm: string -> string)
    requires i < |xs| && j < |xs| && DistinctKeys(norm, xs)
    ensures DistinctKeys(norm, Swap(xs, i, j))
  {
    var ys := Swap(xs, i, j);
    forall a, b | 0 <= a < b < |ys|
      ensures Key(norm, ys[a]) != Key(norm, ys[b])
    {
      var a' := if a == i then j else if a == j then i else a;
      var b' := if b == i then j else if b == j then i else b;
      assert ys[a] == xs[a'] && ys[b] == xs[b'];
    }
  }

  /** Moving the selected entry up keeps the keys pairwise distinct. */
  lemma MoveUpKeepsKeysDistinct(s: Manager, norm: string -> string)
    requires WellFormed(s) && DistinctKeys(norm, s.exeList)
    ensures DistinctKeys(norm, MoveUp(s).state.exeList)
  {
    if s.selection.Some? && s.selection.value > 0 {
      var i := s.selection.value;
      MoveUpShape(s);
      SwapKeepsKeysDistinct(s.exeList, i, i - 1, norm);
    }
  }

  /** Moving the selected entry down keeps the keys pairwise distinct. */
  lemma MoveDownKeepsKeysDistinct(s: Manager, norm: string -> string)
    requires WellFormed(s) && DistinctKeys(norm, s.exeList)
    ensures DistinctKeys(norm, MoveDown(s).state.exeList)
  {
    if s.selection.Some? && s.selection.value + 1 < |s.exeList| {
      var i := s.selection.value;
      MoveDownShape(s);
      SwapKeepsKeysDistinct(s.exeList, i, i + 1, norm);
    }
  }

  /** Exchanging two entries back restores the list. */
  lemma SwapBack(xs: seq<string>, i: nat, j: nat)
    requires i < |xs| && j < |xs|
    ensures Swap(Swap(xs, i, j), j, i) == xs
  {
    var zs := Swap(Swap(xs, i, j), j, i);
    assert forall k :: 0 <= k < |xs| ==> zs[k] == xs[k];
  }

  /** An effective move up is the exchange with the row above, the selection following. */
  lemma MoveUpShape(s: Manager)
    requires WellFormed(s) && s.selection.Some? && s.selection.value > 0
    ensures MoveUp(s).state
         == s.(exeList := Swap(s.exeList, s.selection.value, s.selection.value - 1),
               selection := Some(s.selection.value - 1))
  {
  }

  /** An effective move down is the exchange with the row below, the selection following. */
  lemma MoveDownShape(s: Manager)
    requires WellFormed(s) && s.selection.Some? && s.selection.value + 1 < |s.exeList|
    ensures MoveDown(s).state
         == s.(exeList := Swap(s.exeList, s.selection.value, s.selection.value + 1),
               selection := Some(s.selection.value + 1))
  {
  }

  /** Moving the selected entry down and then up again restores the state. */
  lemma MoveUpUndoesMoveDown(s: Manager)
    requires WellFormed(s) && s.selection.Some? && s.selection.value + 1 < |s.exeList|
    ensures WellFormed(MoveDown(s).state)
    ensures MoveUp(MoveDown(s).state).state == s
  {
    var i := s.selection.value;
    MoveDownShape(s);
    MoveUpShape(MoveDown(s).state);
    SwapBack(s.exeList, i, i + 1);
  }

  /** Moving the selected entry up and then down again restores the state. */
  lemma MoveDownUndoesMoveUp(s: Manager)
    requires WellFormed(s) && s.selection.Some? && s.selection.value > 0
    ensures WellFormed(MoveUp(s).state)
    ensures MoveDown(MoveUp(s).state).state == s
  {
    var i := s.selection.value;
    MoveUpShape(s);
    MoveDownShape(MoveUp(s).state);
    SwapBack(s.exeList, i, i - 1);
  }

  /**
   * A skip mark stays on its position when entries move: after the entry
   * at `i` moves up, the marks are as before, so a mark on `i` now lies on
   * the entry that was at `i - 1`, and one on `i - 1` on the moved entry.
   */
  lemma MoveLeavesSkipOnPosition(s: Manager)
    requires WellFormed(s) && s.selection.Some? && s.selection.value > 0
    ensures var i := s.selection.value;
            var r := MoveUp(s).state;
            && r.skippedIndices == s.skippedIndices
            && r.exeList[i] == s.exeList[i - 1] && r.exeList[i - 1] == s.exeList[i]
  {
    MoveUpShape(s);
  }

  /**
   * Removing the last entry while it is current leaves the current index
   * past the end of the list: the index is not clamped.
   */
  lemma RemoveLeavesIndexPastEnd(s: Manager)
    requires WellFormed(s) && s.exeList != []
    requires s.selection == Some(|s.exeList| - 1) && s.currentIndex == |s.exeList| - 1
    ensures var r := RemoveProgram(s).state;
            && r.exeList == s.exeList[..|s.exeList| - 1]
            && r.currentIndex == |r.exeList|
  {
  }

  /**
   * Removing an entry does not shift the skip marks: every mark at or after
   * the removed position `j` now lies on the entry that followed the one
   * it was on.
   */
  lemma RemoveLeavesSkipOnPosition(s: Manager)
    requires WellFormed(s) && s.selection.Some?
    ensures var j := s.selection.value;
            var r := RemoveProgram(s).state;
            && r.skippedIndices == s.skippedIndices
            && forall k :: j <= k < |r.exeList| ==> r.exeList[k] == s.exeList[k + 1]
  {
  }

  // ----- mark next, run, start, skip -----

  /** Mark next only ever selects the entry right after the current one, in range and not skipped. */
  lemma MarkNextSelectsUnskipped(s: Manager)
    ensures var r := MarkNext(s);
            r.selection != s.selection ==>
              && r.selection == Some(s.currentIndex + 1)
              && s.currentIndex + 1 < |s.exeList|
              && s.currentIndex + 1 !in s.skippedIndices
  {
  }

  /** Marking the next program twice is marking it once. */
  lemma MarkNextIdempotent(s: Manager)
    ensures MarkNext(MarkNext(s)) == MarkNext(s)
  {
  }

  /**
   * What the launched process does never changes the list, the current
   * index or the skipped indices; unless an exception escapes, it does not
   * change the selection either.
   */
  lemma RunResultOnlyAffectsSelection(s: Manager, index: nat, r1: ProcessResult, r2: ProcessResult)
    requires index < |s.exeList|
    ensures RunAt(s, index, r1).state.exeList == RunAt(s, index, r2).state.exeList
    ensures RunAt(s, index, r1).state.currentIndex == RunAt(s, index, r2).state.currentIndex
    ensures RunAt(s, index, r1).state.skippedIndices == RunAt(s, index, r2).state.skippedIndices
    ensures !RunAt(s, index, r1).notice.report.Escaped? && !RunAt(s, index, r2).notice.report.Escaped?
            ==> RunAt(s, index, r1).state == RunAt(s, index, r2).state
  {
  }

  /** With a non-empty list and a selection on one of its rows, start always runs a program. */
  lemma StartRunsOnNonEmptyList(s: Manager, result: ProcessResult)
    requires WellFormed(s) && |s.exeList| > 0
    ensures Start(s, result).notice.Ran?
    ensures Start(s, result).state.currentIndex < |s.exeList|
  {
  }

  /**
   * Start repairs a current index left past the end by a removal: with
   * nothing selected it runs the first program.
   */
  lemma StartResetsStaleIndex(s: Manager, result: ProcessResult)
    requires s.selection.None? && |s.exeList| > 0 && s.currentIndex >= |s.exeList|
    ensures Start(s, result).state.currentIndex == 0
    ensures Start(s, result).effect == Dispatched(Dispatch(s.exeList[0]))
  {
  }

  /** After a skip that moves, the current index is in range and is itself marked skipped. */
  lemma SkipMarksItsDestination(s: Manager)
    requires s.currentIndex + 1 < |s.exeList|
    ensures var r := Skip(s).state;
            && r.currentIndex < |r.exeList|
            && r.currentIndex in r.skippedIndices
            && r.skippedIndices - {r.currentIndex} == s.skippedIndices - {r.currentIndex}
  {
  }

  /** A skip with the current index at or past the last entry changes nothing. */
  lemma SkipAtEndChangesNothing(s: Manager)
    requires s.currentIndex + 1 >= |s.exeList|
    ensures Skip(s) == Step(s, EndOfList, NoEffect)
  {
  }

  /**
   * Skip and then start runs the entry two places after the old current
   * index, when that entry exists and was not skipped: the entry the skip
   * moved onto is the one passed over.
   */
  lemma SkipThenStartRunsTheOneAfter(s: Manager, result: ProcessResult)
    requires s.currentIndex + 2 < |s.exeList| && s.currentIndex + 2 !in s.skippedIndices
    ensures var r := Start(Skip(s).state, result);
            && r.state.currentIndex == s.currentIndex + 2
            && r.effect == Dispatched(Dispatch(s.exeList[s.currentIndex + 2]))
  {
  }

  // ----- two start-then-skip runs -----

  /**
   * Four programs, row 1 selected: start runs the second one and marks
   * row 2; skip then moves onto the third, marks it skipped and selects
   * the fourth.
   */
  lemma ScenarioStartAtOneThenSkip(a: string, b: string, c: string, d: string, result: ProcessResult)
    ensures var started := Start(Manager([a, b, c, d], 0, {}, Some(1)), result);
            && started.state.exeList == [a, b, c, d]
            && started.state.currentIndex == 1 && started.state.skippedIndices == {}
            && started.effect == Dispatched(Dispatch(b))
            && (!started.notice.report.Escaped? ==> started.state.selection == Some(2))
            && Skip(started.state).state == Manager([a, b, c, d], 2, {2}, Some(3))
  {
    var started := Start(Manager([a, b, c, d], 0, {}, Some(1)), result).state;
    assert started == Manager([a, b, c, d], 1, {}, started.selection);
    SkipFromSecondOfFour(a, b, c, d, started.selection);
  }

  /** Skip from row 1 of four, whatever is selected. */
  lemma SkipFromSecondOfFour(a: string, b: string, c: string, d: string, sel: Option<nat>)
    ensures Skip(Manager([a, b, c, d], 1, {}, sel)).state == Manager([a, b, c, d], 2, {2}, Some(3))
  {
  }

  /**
   * Three programs, nothing selected: start runs the first one and marks
   * row 1; skip then moves the current index to 1, marks 1 skipped and
   * selects 2.
   */
  lemma ScenarioStartThenSkip(a: string, b: string, c: string, result: ProcessResult)
    ensures var started := Start(Manager([a, b, c], 0, {}, None), result);
            && started.state.exeList == [a, b, c]
            && started.state.currentIndex == 0 && started.state.skippedIndices == {}
            && started.effect == Dispatched(Dispatch(a))
            && (!started.notice.report.Escaped? ==> started.state.selection == Some(1))
            && Skip(started.state).state == Manager([a, b, c], 1, {1}, Some(2))
  {
    var started := Start(Manager([a, b, c], 0, {}, None), result).state;
    assert started == Manager([a, b, c], 0, {}, started.selection);
    SkipFromFirstOfThree(a, b, c, started.selection);
  }

  /** Skip from row 0 of three, whatever is selected. */
  lemma SkipFromFirstOfThree(a: string, b: string, c: string, sel: Option<nat>)
    ensures Skip(Manager([a, b, c], 0, {}, sel)).state == Manager([a, b, c], 1, {1}, Some(2))
  {
  }
}
