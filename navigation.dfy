/**
 * The stage navigator of the results panel: which stage is selected, which one is
 * pinned, which one is displayed, and what the four navigation buttons and the pin
 * button do to that state. Everything here is a function of values; the panel
 * class (results_panel.dfy) holds the two fields and its methods are proved
 * against these functions.
 */
module Navigation {
  import opened Options

  /** A pipeline stage, identified by object identity (Java's `equals` on CvStage). */
  type StageId = nat

  /** The two nullable fields `selectedStage` and `pinnedStage`. */
  datatype NavState = NavState(selected: Option<StageId>, pinned: Option<StageId>)

  /** The four navigation commands of the toolbar. */
  datatype Command = First | Previous | Next | Last

  /** What the four navigation actions report as enabled. */
  datatype Enabled = Enabled(first: bool, previous: bool, next: bool, last: bool)

  /** A stage sequence in which no stage occurs twice. */
  predicate Distinct(stages: seq<StageId>) {
    forall i, j :: 0 <= i < j < |stages| ==> stages[i] != stages[j]
  }

  /** `stages.contains(s)`: false for null. */
  predicate Contains(stages: seq<StageId>, s: Option<StageId>) {
    s.Some? && s.value in stages
  }

  /** The stage whose result is shown: the pin when there is one, else the selection. */
  function DisplayStage(n: NavState): Option<StageId> {
    if n.pinned.Some? then n.pinned else n.selected
  }

  /** `List.indexOf`: the first position of `s`, or -1 when `s` is null or absent. */
  function IndexOf(stages: seq<StageId>, s: Option<StageId>): (i: int)
    ensures -1 <= i < |stages|
    ensures i == -1 <==> !Contains(stages, s)
    ensures 0 <= i ==> s == Some(stages[i])
    ensures 0 <= i ==> forall j :: 0 <= j < i ==> Some(stages[j]) != s
  {
    if stages == [] then -1
    else if s == Some(stages[0]) then 0
    else
      var k := IndexOf(stages[1..], s);
      assert forall j :: 1 <= j < |stages| ==> stages[j] == stages[1..][j - 1];
      if k < 0 then -1 else k + 1
  }

  /**
   * `refresh()` on the stage list it reads: no stages clears both fields; a missing
   * or stale selection is replaced by the first stage and unpins; a stale pin is cleared.
   */
  function Refreshed(stages: seq<StageId>, n: NavState): (r: NavState)
    ensures stages == [] ==> r == NavState(None, None)
    ensures stages != [] ==> Contains(stages, r.selected)
    ensures stages != [] ==> r.pinned.None? || Contains(stages, r.pinned)
  {
    if stages == [] then NavState(None, None)
    else if !Contains(stages, n.selected) then NavState(Some(stages[0]), None)
    else if !Contains(stages, n.pinned) then n.(pinned := None)
    else n
  }

  /** The position each command passes to `stages.get`. */
  function TargetIndex(cmd: Command, stages: seq<StageId>, n: NavState): int {
    match cmd
    case First => 0
    case Previous => IndexOf(stages, DisplayStage(n)) - 1
    case Next => IndexOf(stages, DisplayStage(n)) + 1
    case Last => |stages| - 1
  }

  /**
   * The stage a navigation command fetches with `stages.get(k)`, or None when `k`
   * is out of range (Java throws IndexOutOfBoundsException there).
   */
  function Target(cmd: Command, stages: seq<StageId>, n: NavState): Option<StageId> {
    var k := TargetIndex(cmd, stages, n);
    if 0 <= k < |stages| then Some(stages[k]) else None
  }

  /**
   * The state after a navigation command: the target replaces the pin when one is
   * set, otherwise the selection. None when the command throws.
   */
  function Navigated(cmd: Command, stages: seq<StageId>, n: NavState): Option<NavState> {
    match Target(cmd, stages, n)
    case None => None
    case Some(t) =>
      if n.pinned.Some? then Some(n.(pinned := Some(t))) else Some(n.(selected := Some(t)))
  }

  /** The enabled state `updateAllEverything` gives the four navigation actions. */
  function Enablement(stages: seq<StageId>, n: NavState): Enabled {
    if n.selected.None? then Enabled(false, false, false, false)
    else
      var index := IndexOf(stages, DisplayStage(n));
      Enabled(index > 0, index > 0, index < |stages| - 1, index < |stages| - 1)
  }

  predicate IsEnabled(cmd: Command, stages: seq<StageId>, n: NavState) {
    var e := Enablement(stages, n);
    match cmd
    case First => e.first
    case Previous => e.previous
    case Next => e.next
    case Last => e.last
  }

  /** The pin action: pins the selection when unpinned, unpins otherwise. */
  function PinToggled(n: NavState): NavState {
    if n.pinned.None? then n.(pinned := n.selected) else n.(pinned := None)
  }

  /**
   * Pressing the buttons `cmds` in order: a disabled button ignores the press and
   * the enabled states are recomputed after every command. None when a press throws.
   */
  function Clicks(cmds: seq<Command>, stages: seq<StageId>, n: NavState): Option<NavState>
    decreases |cmds|
  {
    if cmds == [] then Some(n)
    else if !IsEnabled(cmds[0], stages, n) then Clicks(cmds[1..], stages, n)
    else match Navigated(cmds[0], stages, n)
      case None => None
      case Some(m) => Clicks(cmds[1..], stages, m)
  }

  // ---------------------------------------------------------------------------
  // Refresh

  /** Refresh keeps the selection exactly when it is a member, and the pin exactly when both are. */
  lemma RefreshOutcome(stages: seq<StageId>, n: NavState)
    requires stages != []
    ensures var r := Refreshed(stages, n);
      (r.selected == n.selected <==> Contains(stages, n.selected)) &&
      (!Contains(stages, n.selected) ==> r == NavState(Some(stages[0]), None)) &&
      (Contains(stages, n.selected) ==>
        r.pinned == (if Contains(stages, n.pinned) then n.pinned else None))
  {
  }

  /** Refreshing against the same stages a second time changes nothing. */
  lemma RefreshIdempotent(stages: seq<StageId>, n: NavState)
    ensures Refreshed(stages, Refreshed(stages, n)) == Refreshed(stages, n)
  {
  }

  /** After a refresh the displayed stage, if any, is a member and has an in-range index. */
  lemma RefreshDisplaysMember(stages: seq<StageId>, n: NavState)
    requires stages != []
    ensures var i := IndexOf(stages, DisplayStage(Refreshed(stages, n))); 0 <= i < |stages|
  {
  }

  // ---------------------------------------------------------------------------
  // Navigation

  /** When each command throws: first and last on an empty list, previous and next off either end. */
  lemma NavigationFailsExactly(cmd: Command, stages: seq<StageId>, n: NavState)
    ensures var index := IndexOf(stages, DisplayStage(n));
      Navigated(cmd, stages, n).None? <==>
        match cmd
        case First => stages == []
        case Last => stages == []
        case Previous => index < 1
        case Next => index + 1 >= |stages|
  {
  }

  /**
   * A successful command moves the pin when pinned and leaves the selection alone;
   * unpinned, it moves the selection and stays unpinned.
   */
  lemma NavigationMovesOneField(cmd: Command, stages: seq<StageId>, n: NavState)
    requires Navigated(cmd, stages, n).Some?
    ensures var m := Navigated(cmd, stages, n).value;
      DisplayStage(m) == Target(cmd, stages, n) && Contains(stages, DisplayStage(m)) &&
      (n.pinned.Some? ==> m.selected == n.selected && m.pinned.Some?) &&
      (n.pinned.None? ==> m.pinned.None? && m.selected == Target(cmd, stages, n))
  {
  }

  /** First and last fetch the two ends of the list. */
  lemma TargetsOfFirstAndLast(stages: seq<StageId>, n: NavState)
    requires stages != []
    ensures Target(First, stages, n) == Some(stages[0])
    ensures Target(Last, stages, n) == Some(stages[|stages| - 1])
  {
  }

  /** Previous and next fetch the neighbours of the displayed stage's index. */
  lemma TargetsOfPreviousAndNext(stages: seq<StageId>, n: NavState)
    ensures var index := IndexOf(stages, DisplayStage(n));
      (1 <= index ==> Target(Previous, stages, n) == Some(stages[index - 1])) &&
      (index + 1 < |stages| ==> Target(Next, stages, n) == Some(stages[index + 1]))
  {
    var index := IndexOf(stages, DisplayStage(n));
    assert TargetIndex(Previous, stages, n) == index - 1;
    assert TargetIndex(Next, stages, n) == index + 1;
  }

  /** An enabled command never throws, and afterwards the displayed stage has an in-range index. */
  lemma EnabledCommandSucceeds(cmd: Command, stages: seq<StageId>, n: NavState)
    requires IsEnabled(cmd, stages, n)
    ensures Navigated(cmd, stages, n).Some?
    ensures var m := Navigated(cmd, stages, n).value;
      m.selected.Some? && 0 <= IndexOf(stages, DisplayStage(m)) < |stages|
  {
    var index := IndexOf(stages, DisplayStage(n));
    assert -1 <= index < |stages|;
    NavigationFailsExactly(cmd, stages, n);
    NavigationMovesOneField(cmd, stages, n);
  }

  /** Previous followed by next restores the state, when no stage occurs twice. */
  lemma NextUndoesPrevious(stages: seq<StageId>, n: NavState)
    requires Distinct(stages)
    requires IsEnabled(Previous, stages, n)
    ensures Navigated(Previous, stages, n).Some?
    ensures Navigated(Next, stages, Navigated(Previous, stages, n).value) == Some(n)
  {
    var index := IndexOf(stages, DisplayStage(n));
    var m := Navigated(Previous, stages, n).value;
    IndexOfDistinct(stages, index - 1);
    assert IndexOf(stages, DisplayStage(m)) == index - 1;
  }

  /** Next followed by previous restores the state, when no stage occurs twice. */
  lemma PreviousUndoesNext(stages: seq<StageId>, n: NavState)
    requires Distinct(stages)
    requires Contains(stages, DisplayStage(n))
    requires IsEnabled(Next, stages, n)
    ensures Navigated(Next, stages, n).Some?
    ensures Navigated(Previous, stages, Navigated(Next, stages, n).value) == Some(n)
  {
    var index := IndexOf(stages, DisplayStage(n));
    var m := Navigated(Next, stages, n).value;
    IndexOfDistinct(stages, index + 1);
    assert IndexOf(stages, DisplayStage(m)) == index + 1;
  }

  /** In a list without repeats every member's index is its position. */
  lemma IndexOfDistinct(stages: seq<StageId>, k: int)
    requires Distinct(stages)
    requires 0 <= k < |stages|
    ensures IndexOf(stages, Some(stages[k])) == k
  {
    var i := IndexOf(stages, Some(stages[k]));
    assert 0 <= i && stages[i] == stages[k];
  }

  /**
   * Pressing any buttons, a disabled one ignoring the press, never throws;
   * the selection stays null or non-null; while pinned the selection never
   * moves; and the displayed stage is a member unless nothing moved at all.
   */
  lemma {:induction false} ClicksStayInBounds(cmds: seq<Command>, stages: seq<StageId>, n: NavState)
    ensures Clicks(cmds, stages, n).Some?
    ensures var m := Clicks(cmds, stages, n).value;
      (m.selected.Some? <==> n.selected.Some?) &&
      (n.pinned.Some? ==> m.selected == n.selected && m.pinned.Some?) &&
      (n.pinned.None? ==> m.pinned.None?) &&
      (m == n || 0 <= IndexOf(stages, DisplayStage(m)) < |stages|) &&
      (cmds != [] && IsEnabled(cmds[0], stages, n) ==> 0 <= IndexOf(stages, DisplayStage(m)) < |stages|)
    decreases |cmds|
  {
    if cmds != [] {
      if !IsEnabled(cmds[0], stages, n) {
        ClicksStayInBounds(cmds[1..], stages, n);
      } else {
        EnabledCommandSucceeds(cmds[0], stages, n);
        NavigationMovesOneField(cmds[0], stages, n);
        var m := Navigated(cmds[0], stages, n).value;
        ClicksStayInBounds(cmds[1..], stages, m);
        var r := Clicks(cmds[1..], stages, m).value;
        assert r == m || 0 <= IndexOf(stages, DisplayStage(r)) < |stages|;
      }
    }
  }

  // ---------------------------------------------------------------------------
  // Enablement

  /** Nothing is enabled without a selection or without stages. */
  lemma DisabledWithoutSelection(stages: seq<StageId>, n: NavState)
    requires n.selected.None? || stages == []
    ensures Enablement(stages, n) == Enabled(false, false, false, false)
  {
  }

  /**
   * With a selection whose displayed stage is not in the list (index -1), first and
   * previous are disabled and next and last are enabled whenever there are stages;
   * next then goes to the first stage.
   */
  lemma NonMemberDisplay(stages: seq<StageId>, n: NavState)
    requires n.selected.Some? && !Contains(stages, DisplayStage(n))
    ensures var e := Enablement(stages, n);
      !e.first && !e.previous && (e.next <==> stages != []) && (e.last <==> stages != [])
    ensures stages != [] ==> Target(Next, stages, n) == Some(stages[0])
  {
  }

  /**
   * For a displayed member of a repeat-free list, first/previous are disabled exactly
   * at the first stage and next/last exactly at the last one.
   */
  lemma EnablementAtEnds(stages: seq<StageId>, n: NavState)
    requires Distinct(stages)
    requires n.selected.Some? && Contains(stages, DisplayStage(n))
    ensures var e := Enablement(stages, n);
      (!e.first <==> DisplayStage(n) == Some(stages[0])) &&
      (!e.previous <==> DisplayStage(n) == Some(stages[0])) &&
      (!e.next <==> DisplayStage(n) == Some(stages[|stages| - 1])) &&
      (!e.last <==> DisplayStage(n) == Some(stages[|stages| - 1]))
  {
    IndexOfDistinct(stages, 0);
    IndexOfDistinct(stages, |stages| - 1);
  }

  // ---------------------------------------------------------------------------
  // Pin

  /** The pin action never changes the selection; pinning keeps the displayed stage. */
  lemma PinKeepsSelection(n: NavState)
    ensures PinToggled(n).selected == n.selected
    ensures n.pinned.None? ==> PinToggled(n).pinned == n.selected
    ensures n.pinned.Some? ==> PinToggled(n).pinned.None?
    ensures n.pinned.None? ==> DisplayStage(PinToggled(n)) == DisplayStage(n)
    ensures n.pinned.Some? ==> DisplayStage(PinToggled(n)) == n.selected
  {
  }

  /**
   * Toggling twice restores an unpinned state; from a pinned state it leaves the
   * selection pinned, which is the original state only when the pin was the selection.
   */
  lemma PinTwice(n: NavState)
    ensures n.pinned.None? ==> PinToggled(PinToggled(n)) == n
    ensures n.pinned.Some? ==> PinToggled(PinToggled(n)) == n.(pinned := n.selected)
  {
  }

  // ---------------------------------------------------------------------------
  // Scenarios

  /** Three stages, unpinned on the first: next twice shows the last; only first/previous stay enabled. */
  lemma ScenarioNextTwice()
    ensures var stages := [1, 2, 3];
      var n1 := Navigated(Next, stages, NavState(Some(1), None));
      n1.Some? &&
      var n2 := Navigated(Next, stages, n1.value);
      n2.Some? && DisplayStage(n2.value) == Some(3) &&
      Enablement(stages, n2.value) == Enabled(true, true, false, false)
  {
    var stages := [1, 2, 3];
    assert IndexOf(stages, Some(1)) == 0;
    assert IndexOf(stages, Some(2)) == 1;
    assert IndexOf(stages, Some(3)) == 2;
  }

  /** Pinning the second stage and pressing first moves the pin; unpinning shows the selection again. */
  lemma ScenarioPinThenFirst()
    ensures var stages := [1, 2, 3];
      var pinned := PinToggled(NavState(Some(2), None));
      var moved := Navigated(First, stages, pinned);
      moved.Some? && moved.value == NavState(Some(2), Some(1)) &&
      DisplayStage(PinToggled(moved.value)) == Some(2)
  {
  }

  /** The list shrinking under the selection reselects the first stage and unpins. */
  lemma ScenarioShrink(pin: Option<StageId>)
    ensures Refreshed([1], NavState(Some(2), pin)) == NavState(Some(1), None)
  {
  }
}
