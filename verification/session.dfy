/**
 * A session of button presses and Listbox clicks: the commands the window
 * forwards to the manager, one after another, and the invariants that
 * hold across any sequence of them.
 */
module Session {
  import opened Wrappers
  import opened Runner
  import Storage
  import opened Sequencer
  import Laws

  datatype Command =
    | Add(chosen: string)           // "Add Program", with what the file dialog returned
    | Remove                        // "Remove Selected"
    | Up                            // the up arrow
    | Down                          // the down arrow
    | StartRun(result: ProcessResult)  // "Start", with what the launched process did
    | SkipOne                       // "Skip"
    | Select(row: nat)              // a click on a row of the Listbox
    | Deselect                      // the Listbox selection cleared

  /** One button press. */
  function Apply(s: Manager, c: Command, norm: string -> string): (r: Step)
    requires WellFormed(s)
    ensures WellFormed(r.state)
    ensures |s.exeList| <= Capacity ==> |r.state.exeList| <= Capacity
    ensures r.effect.Saved? ==> r.effect.text == Storage.Encode(r.state.exeList)
    ensures r.state.exeList != s.exeList ==> r.effect.Saved?
  {
    match c
    case Add(chosen) => AddProgram(s, chosen, norm)
    case Remove => RemoveProgram(s)
    case Up => MoveUp(s)
    case Down => MoveDown(s)
    case StartRun(result) => Start(s, result)
    case SkipOne => Skip(s)
    case Select(row) => SelectRow(s, row)
    case Deselect => ClearSelection(s)
  }

  /** The state after pressing the buttons `cs` in order. */
  function Replay(s: Manager, cs: seq<Command>, norm: string -> string): (r: Manager)
    requires WellFormed(s)
    ensures WellFormed(r)
    decreases |cs|
  {
    if cs == [] then s else Replay(Apply(s, cs[0], norm).state, cs[1..], norm)
  }

  /** No sequence of commands takes the list past `Capacity` entries. */
  lemma {:induction false} ReplayWithinCapacity(s: Manager, cs: seq<Command>, norm: string -> string)
    requires WellFormed(s) && |s.exeList| <= Capacity
    ensures |Replay(s, cs, norm).exeList| <= Capacity
    decreases |cs|
  {
    if cs != [] {
      ReplayWithinCapacity(Apply(s, cs[0], norm).state, cs[1..], norm);
    }
  }

  /** One command keeps the keys of the list pairwise distinct. */
  lemma ApplyKeepsKeysDistinct(s: Manager, c: Command, norm: string -> string)
    requires WellFormed(s) && DistinctKeys(norm, s.exeList)
    ensures DistinctKeys(norm, Apply(s, c, norm).state.exeList)
  {
    match c
    case Add(chosen) => Laws.AddKeepsKeysDistinct(s, chosen, norm);
    case Remove => Laws.RemoveKeepsKeysDistinct(s, norm);
    case Up => Laws.MoveUpKeepsKeysDistinct(s, norm);
    case Down => Laws.MoveDownKeepsKeysDistinct(s, norm);
    case StartRun(_) =>
    case SkipOne =>
    case Select(_) =>
    case Deselect =>
  }

  /** No sequence of commands lets two entries share a key if none did at the start. */
  lemma {:induction false} ReplayKeepsKeysDistinct(s: Manager, cs: seq<Command>, norm: string -> string)
    requires WellFormed(s) && DistinctKeys(norm, s.exeList)
    ensures DistinctKeys(norm, Replay(s, cs, norm).exeList)
    decreases |cs|
  {
    if cs != [] {
      ApplyKeepsKeysDistinct(s, cs[0], norm);
      ReplayKeepsKeysDistinct(Apply(s, cs[0], norm).state, cs[1..], norm);
    }
  }

  /**
   * Whenever a command saves the list, loading the file gives back the list
   * on screen, provided every path is storable.
   */
  lemma SavedListReloads(s: Manager, c: Command, norm: string -> string)
    requires WellFormed(s)
    requires forall i :: 0 <= i < |Apply(s, c, norm).state.exeList| ==> Storage.Storable(Apply(s, c, norm).state.exeList[i])
    requires Apply(s, c, norm).effect.Saved?
    ensures Storage.Decode(Apply(s, c, norm).effect.text) == Apply(s, c, norm).state.exeList
  {
    Storage.DecodeEncode(Apply(s, c, norm).state.exeList);
  }

  /** A click on a row followed by "Remove Selected" deletes exactly that row. */
  lemma SelectThenRemove(loaded: seq<string>, row: nat, norm: string -> string)
    requires row < |loaded|
    ensures var r := Replay(Initial(loaded), [Select(row), Remove], norm);
            && r.exeList == loaded[..row] + loaded[row + 1..]
            && r.currentIndex == 0 && r.skippedIndices == {} && r.selection == None
  {
    var s := Initial(loaded);
    var t := Apply(s, Select(row), norm).state;
    assert t == Manager(loaded, 0, {}, Some(row));
    var u := Apply(t, Remove, norm).state;
    assert [Select(row), Remove][1..] == [Remove];
    assert Replay(s, [Select(row), Remove], norm) == Replay(t, [Remove], norm);
    assert [Remove][1..] == [];
    assert Replay(t, [Remove], norm) == u;
    assert u.exeList == loaded[..row] + loaded[row + 1..];
  }
}
