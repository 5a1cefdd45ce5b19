/**
 * The run-sequencing state of `ExeManagerApp`: the ordered program list,
 * the current index, the set of skipped indices and the Listbox selection,
 * with one transition per button. Each transition returns the new state,
 * the message the user sees and the outside effect it asks for (saving
 * the list, or running one program).
 */
module Sequencer {
  import opened Wrappers
  import opened Text
  import Storage
  import opened Runner

  /** The most programs `add_program` accepts. */
  const Capacity: nat := 10

  datatype Manager = Manager(
    exeList: seq<string>,
    currentIndex: nat,
    skippedIndices: set<nat>,
    selection: Option<nat>)

  /** The Listbox shows exactly the list, so a selected row is a list index. */
  predicate WellFormed(s: Manager) {
    s.selection.Some? ==> s.selection.value < |s.exeList|
  }

  /** The state after start-up: the loaded list, index 0, nothing skipped or selected. */
  function Initial(loaded: seq<string>): (s: Manager)
    ensures WellFormed(s) && s.exeList == loaded
    ensures s.currentIndex == 0 && s.skippedIndices == {} && s.selection == None
  {
    Manager(loaded, 0, {}, None)
  }

  datatype Notice =
    | Silent
    | LimitReached      // "Cannot add more than 10 programs."
    | DuplicateEntry    // "This program is already in the list."
    | NoPrograms        // "The list is empty or selection is out of range."
    | EndOfList         // "There are no more programs to skip."
    | Ran(report: Report)

  datatype Effect =
    | NoEffect
    | Saved(text: string)          // the list file is rewritten with this text
    | Dispatched(action: Action)   // the action chosen for one program (nothing runs when unsupported)

  datatype Step = Step(state: Manager, notice: Notice, effect: Effect)

  /** The comparison key of a path: normalised by `norm`, then lower-cased. */
  function Key(norm: string -> string, p: string): (k: string)
    ensures |k| == |norm(p)|
  {
    Lower(norm(p))
  }

  /** Two paths whose normalised forms differ only in letter case have the same key. */
  lemma SameUpToCaseSameKey(norm: string -> string, p: string, q: string)
    requires |norm(p)| == |norm(q)|
    requires forall i :: 0 <= i < |norm(p)| ==> LowerChar(norm(p)[i]) == LowerChar(norm(q)[i])
    ensures Key(norm, p) == Key(norm, q)
  {
    LowerAt(norm(p));
    LowerAt(norm(q));
  }

  /** Two paths with the same key have normalised forms that differ only in letter case. */
  lemma SameKeySameUpToCase(norm: string -> string, p: string, q: string)
    requires Key(norm, p) == Key(norm, q)
    ensures |norm(p)| == |norm(q)|
    ensures forall i :: 0 <= i < |norm(p)| ==> LowerChar(norm(p)[i]) == LowerChar(norm(q)[i])
  {
    LowerAt(norm(p));
    LowerAt(norm(q));
  }

  /** Some entry of `xs` has the key `key`. */
  function HasKey(norm: string -> string, xs: seq<string>, key: string): (b: bool)
    ensures b <==> exists i :: 0 <= i < |xs| && Key(norm, xs[i]) == key
  {
    if xs == [] then false
    else if Key(norm, xs[0]) == key then true
    else
      assert forall i :: 1 <= i < |xs| ==> xs[i] == xs[1..][i - 1];
      HasKey(norm, xs[1..], key)
  }

  /** No two entries share a key. */
  predicate DistinctKeys(norm: string -> string, xs: seq<string>) {
    forall i, j :: 0 <= i < j < |xs| ==> Key(norm, xs[i]) != Key(norm, xs[j])
  }

  function Save(s: Manager): Effect {
    Saved(Storage.Encode(s.exeList))
  }

  /**
   * `add_program`: `chosen` is what the file dialog returned, the empty
   * string when it was cancelled; the dialog is not opened at capacity.
   */
  function AddProgram(s: Manager, chosen: string, norm: string -> string): (r: Step)
    ensures |s.exeList| >= Capacity ==> r == Step(s, LimitReached, NoEffect)
    ensures |s.exeList| < Capacity && chosen == [] ==> r == Step(s, Silent, NoEffect)
    ensures |s.exeList| < Capacity && chosen != []
            && (exists i :: 0 <= i < |s.exeList| && Key(norm, s.exeList[i]) == Key(norm, chosen))
            ==> r == Step(s, DuplicateEntry, NoEffect)
    ensures r.state.exeList != s.exeList ==>
            && |s.exeList| < Capacity && chosen != []
            && forall i :: 0 <= i < |s.exeList| ==> Key(norm, s.exeList[i]) != Key(norm, chosen)
    ensures |s.exeList| < Capacity && chosen != []
            && (forall i :: 0 <= i < |s.exeList| ==> Key(norm, s.exeList[i]) != Key(norm, chosen))
            ==> && |r.state.exeList| == |s.exeList| + 1
                && r.state.exeList[..|s.exeList|] == s.exeList
                && r.state.exeList[|s.exeList|] == chosen
                && r.state.currentIndex == s.currentIndex
                && r.state.skippedIndices == s.skippedIndices
                && r.state.selection == s.selection
                && r.notice == Silent
                && r.effect == Save(r.state)
  {
    if |s.exeList| >= Capacity then Step(s, LimitReached, NoEffect)
    else if chosen == [] then Step(s, Silent, NoEffect)
    else if HasKey(norm, s.exeList, Key(norm, chosen)) then Step(s, DuplicateEntry, NoEffect)
    else
      var t := s.(exeList := s.exeList + [chosen]);
      Step(t, Silent, Save(t))
  }

  /**
   * A click that Tk resolves to row `row` of the Listbox selects that row
   * alone (the Listbox allows a single selection). A row index past the
   * end is ignored; Tk itself turns a click below the last row into a
   * click on the last row.
   */
  function SelectRow(s: Manager, row: nat): (r: Step)
    ensures r.state.exeList == s.exeList && r.state.currentIndex == s.currentIndex
    ensures r.state.skippedIndices == s.skippedIndices
    ensures row < |s.exeList| ==> r.state.selection == Some(row)
    ensures row >= |s.exeList| ==> r.state.selection == s.selection
    ensures r.notice == Silent && r.effect == NoEffect
  {
    if row < |s.exeList| then Step(s.(selection := Some(row)), Silent, NoEffect)
    else Step(s, Silent, NoEffect)
  }

  /** The user clears the selection of the Listbox: no row stays selected. */
  function ClearSelection(s: Manager): (r: Step)
    ensures r.state.exeList == s.exeList && r.state.currentIndex == s.currentIndex
    ensures r.state.skippedIndices == s.skippedIndices
    ensures r.state.selection == None
    ensures r.notice == Silent && r.effect == NoEffect
  {
    Step(s.(selection := None), Silent, NoEffect)
  }

  /**
   * `remove_program`: deletes the selected row. The current index and the
   * skipped indices are kept as they were, whatever they now point at;
   * the selection goes with the deleted row.
   */
  function RemoveProgram(s: Manager): (r: Step)
    requires WellFormed(s)
    ensures s.selection.None? ==> r == Step(s, Silent, NoEffect)
    ensures s.selection.Some? ==>
            var i := s.selection.value;
            && |r.state.exeList| == |s.exeList| - 1
            && (forall j :: 0 <= j < i ==> r.state.exeList[j] == s.exeList[j])
            && (forall j :: i <= j < |r.state.exeList| ==> r.state.exeList[j] == s.exeList[j + 1])
            && multiset(r.state.exeList) + multiset{s.exeList[i]} == multiset(s.exeList)
            && r.state.currentIndex == s.currentIndex
            && r.state.skippedIndices == s.skippedIndices
            && r.state.selection == None
            && r.notice == Silent
            && r.effect == Save(r.state)
  {
    match s.selection
    case None => Step(s, Silent, NoEffect)
    case Some(i) =>
      assert s.exeList == s.exeList[..i] + [s.exeList[i]] + s.exeList[i + 1..];
      var t := s.(exeList := s.exeList[..i] + s.exeList[i + 1..], selection := None);
      Step(t, Silent, Save(t))
  }

  /** Exchanges the entries at `i` and `j`. */
  function Swap(xs: seq<string>, i: nat, j: nat): (ys: seq<string>)
    requires i < |xs| && j < |xs|
    ensures |ys| == |xs| && ys[i] == xs[j] && ys[j] == xs[i]
    ensures forall k :: 0 <= k < |xs| && k != i && k != j ==> ys[k] == xs[k]
    ensures multiset(ys) == multiset(xs)
  {
    xs[i := xs[j]][j := xs[i]]
  }

  /**
   * `move_up`: the selected entry changes places with the one above it and
   * stays selected. Skipped indices stay with their positions.
   */
  function MoveUp(s: Manager): (r: Step)
    requires WellFormed(s)
    ensures (s.selection.None? || s.selection.value == 0) ==> r == Step(s, Silent, NoEffect)
    ensures s.selection.Some? && s.selection.value > 0 ==>
            var i := s.selection.value;
            && |r.state.exeList| == |s.exeList|
            && r.state.exeList[i - 1] == s.exeList[i]
            && r.state.exeList[i] == s.exeList[i - 1]
            && (forall k :: 0 <= k < |s.exeList| && k != i - 1 && k != i ==> r.state.exeList[k] == s.exeList[k])
            && multiset(r.state.exeList) == multiset(s.exeList)
            && r.state.selection == Some(i - 1)
            && r.effect == Save(r.state)
    ensures r.state.currentIndex == s.currentIndex && r.state.skippedIndices == s.skippedIndices
    ensures r.notice == Silent
  {
    match s.selection
    case Some(i) =>
      if i > 0 then
        var t := s.(exeList := Swap(s.exeList, i, i - 1), selection := Some(i - 1));
        Step(t, Silent, Save(t))
      else Step(s, Silent, NoEffect)
    case None => Step(s, Silent, NoEffect)
  }

  /** `move_down`: the mirror image of `MoveUp`. */
  function MoveDown(s: Manager): (r: Step)
    requires WellFormed(s)
    ensures (s.selection.None? || s.selection.value + 1 >= |s.exeList|) ==> r == Step(s, Silent, NoEffect)
    ensures s.selection.Some? && s.selection.value + 1 < |s.exeList| ==>
            var i := s.selection.value;
            && |r.state.exeList| == |s.exeList|
            && r.state.exeList[i + 1] == s.exeList[i]
            && r.state.exeList[i] == s.exeList[i + 1]
            && (forall k :: 0 <= k < |s.exeList| && k != i + 1 && k != i ==> r.state.exeList[k] == s.exeList[k])
            && multiset(r.state.exeList) == multiset(s.exeList)
            && r.state.selection == Some(i + 1)
            && r.effect == Save(r.state)
    ensures r.state.currentIndex == s.currentIndex && r.state.skippedIndices == s.skippedIndices
    ensures r.notice == Silent
  {
    match s.selection
    case Some(i) =>
      if i < |s.exeList| - 1 then
        var t := s.(exeList := Swap(s.exeList, i, i + 1), selection := Some(i + 1));
        Step(t, Silent, Save(t))
      else Step(s, Silent, NoEffect)
    case None => Step(s, Silent, NoEffect)
  }

  /** The index after the current one is a program that has not been skipped. */
  predicate NextEligible(s: Manager) {
    s.currentIndex + 1 < |s.exeList| && s.currentIndex + 1 !in s.skippedIndices
  }

  /**
   * `mark_next_program`: selects the entry after the current one when it
   * exists and is not skipped; otherwise the selection stays as it was.
   */
  function MarkNext(s: Manager): (r: Manager)
    ensures r.exeList == s.exeList && r.currentIndex == s.currentIndex
    ensures r.skippedIndices == s.skippedIndices
    ensures NextEligible(s) ==> r.selection == Some(s.currentIndex + 1)
    ensures !NextEligible(s) ==> r.selection == s.selection
  {
    if NextEligible(s) then s.(selection := Some(s.currentIndex + 1)) else s
  }

  /**
   * `run_program_at_index`: selects row `index`, hands its path to the
   * runner, reports what happened and marks the next program, unless the
   * report is an exception that left the handler first.
   */
  function RunAt(s: Manager, index: nat, result: ProcessResult): (r: Step)
    requires index < |s.exeList|
    ensures r.state.exeList == s.exeList && r.state.currentIndex == s.currentIndex
    ensures r.state.skippedIndices == s.skippedIndices
    ensures r.effect == Dispatched(Dispatch(s.exeList[index]))
    ensures r.notice == Ran(Outcome(s.exeList[index], result))
    ensures r.notice.report.Escaped? ==> r.state.selection == Some(index)
    ensures !r.notice.report.Escaped? && NextEligible(s) ==> r.state.selection == Some(s.currentIndex + 1)
    ensures !r.notice.report.Escaped? && !NextEligible(s) ==> r.state.selection == Some(index)
  {
    var path := s.exeList[index];
    var report := Outcome(path, result);
    Step(AfterRun(s, index, report.Escaped?), Ran(report), Dispatched(Dispatch(path)))
  }

  /**
   * The state after row `index` was run: that row is selected, then the
   * next program is marked unless the run `escaped` the handler.
   */
  function AfterRun(s: Manager, index: nat, escaped: bool): (t: Manager)
    ensures t.exeList == s.exeList && t.currentIndex == s.currentIndex
    ensures t.skippedIndices == s.skippedIndices
    ensures escaped ==> t.selection == Some(index)
    ensures !escaped && NextEligible(s) ==> t.selection == Some(s.currentIndex + 1)
    ensures !escaped && !NextEligible(s) ==> t.selection == Some(index)
  {
    var selected := s.(selection := Some(index));
    if escaped then selected else MarkNext(selected)
  }

  /**
   * `start_running_programs`: the current index becomes the selected row,
   * or 0 with nothing selected, and that program is run when it exists.
   */
  function Start(s: Manager, result: ProcessResult): (r: Step)
    ensures r.state.currentIndex == (if s.selection.Some? then s.selection.value else 0)
    ensures r.state.exeList == s.exeList && r.state.skippedIndices == s.skippedIndices
    ensures r.state.currentIndex >= |s.exeList| ==>
            r.notice == NoPrograms && r.effect == NoEffect && r.state.selection == s.selection
    ensures r.state.currentIndex < |s.exeList| ==>
            && r.effect == Dispatched(Dispatch(s.exeList[r.state.currentIndex]))
            && r.notice == Ran(Outcome(s.exeList[r.state.currentIndex], result))
            && r.state.selection.Some?
            && r.state.selection.value < |s.exeList|
    ensures var i := r.state.currentIndex;
            i < |s.exeList| && !r.notice.report.Escaped? && i + 1 < |s.exeList| && i + 1 !in s.skippedIndices
            ==> r.state.selection == Some(i + 1)
    ensures var i := r.state.currentIndex;
            i < |s.exeList| && (r.notice.report.Escaped? || i + 1 >= |s.exeList| || i + 1 in s.skippedIndices)
            ==> r.state.selection == Some(i)
  {
    var index := if s.selection.Some? then s.selection.value else 0;
    var t := s.(currentIndex := index);
    if index < |t.exeList| then RunAt(t, index, result) else Step(t, NoPrograms, NoEffect)
  }

  /**
   * `skip_program`: moves the current index one place on and records the
   * index it moves TO as skipped, then marks the next program.
   */
  function Skip(s: Manager): (r: Step)
    ensures r.effect == NoEffect
    ensures r.state.exeList == s.exeList
    ensures s.currentIndex + 1 >= |s.exeList| ==> r.state == s && r.notice == EndOfList
    ensures s.currentIndex + 1 < |s.exeList| ==>
            && r.state.currentIndex == s.currentIndex + 1
            && r.state.skippedIndices == s.skippedIndices + {s.currentIndex + 1}
            && r.notice == Silent
    ensures s.currentIndex + 1 < |s.exeList| && s.currentIndex + 2 < |s.exeList|
            && s.currentIndex + 2 !in s.skippedIndices
            ==> r.state.selection == Some(s.currentIndex + 2)
    ensures s.currentIndex + 1 < |s.exeList|
            && (s.currentIndex + 2 >= |s.exeList| || s.currentIndex + 2 in s.skippedIndices)
            ==> r.state.selection == s.selection
  {
    if s.currentIndex + 1 < |s.exeList| then
      var next := s.currentIndex + 1;
      var t := s.(currentIndex := next, skippedIndices := s.skippedIndices + {next});
      Step(MarkNext(t), Silent, NoEffect)
    else Step(s, EndOfList, NoEffect)
  }
}
