/**
 * The grouping tool component: its state (sizing option and input, the
 * generated groups and their names, the modal, the drag in progress, the
 * inline error and the id of the grouping on screen) and its handlers.
 * Props (`students`, `currentClassId`) are handler parameters; the
 * `onGroupingSaved` callback is reported as a returned flag.
 */
module GroupingToolView {
  import opened Domain
  import opened Text
  import opened Generator
  import opened History

  /** The text shown when the sizing input holds something other than digits. */
  const InvalidNumberMessage: string := "Please enter a valid number."

  class GroupingTool {
    var groupingOption: GroupingOption
    var groupCountInput: string
    var groupCount: int
    var studentsPerGroup: int
    var groups: seq<seq<Student>>
    var groupNames: map<int, string>
    var showModal: bool
    var draggedStudentId: Option<int>
    var inputError: string
    var groupingId: Option<int>

    /** Every group on screen has a name, so a save labels every group. */
    ghost predicate Valid()
      reads this
    {
      Named(groups, groupNames)
    }

    /** The initial state of the component. */
    constructor ()
      ensures Valid()
      ensures groupingOption == ByGroups && groupCountInput == "" && groupCount == 2 && studentsPerGroup == 4
      ensures groups == [] && groupNames == map[] && !showModal
      ensures draggedStudentId == None && inputError == "" && groupingId == None
    {
      groupingOption := ByGroups;
      groupCountInput := "";
      groupCount := 2;
      studentsPerGroup := 4;
      groups := [];
      groupNames := map[];
      showModal := false;
      draggedStudentId := None;
      inputError := "";
      groupingId := None;
    }

    /**
     * `generateGroups`. `high`, `medium` and `low` are the capability buckets
     * as the shuffle left them and `newId` is the clock reading used as the
     * grouping id. A rejected request changes only the inline error (and not
     * even that when there are no students, which raises an alert instead).
     */
    method GenerateGroups(students: seq<Student>, high: seq<Student>, medium: seq<Student>, low: seq<Student>, newId: int)
      returns (outcome: Result<Generated, GenerationError>)
      requires Valid()
      requires IsShuffleOf(high, Bucket(students, High))
      requires IsShuffleOf(medium, Bucket(students, Medium))
      requires IsShuffleOf(low, Bucket(students, Low))
      modifies this
      ensures Valid()
      ensures outcome.Err? <==> NumberOfGroups(|students|, groupingOption, groupCount, studentsPerGroup).Err?
      ensures outcome.Err? ==>
        groups == old(groups) && groupNames == old(groupNames) && showModal == old(showModal)
        && groupingId == old(groupingId) && draggedStudentId == old(draggedStudentId)
      ensures outcome.Err? && outcome.error == NoStudents ==> inputError == old(inputError)
      ensures outcome.Err? && outcome.error != NoStudents ==> inputError == ErrorMessage(outcome.error)
      ensures outcome.Ok? ==>
        groups == outcome.value.groups && groupNames == outcome.value.names
        && showModal && groupingId == Some(newId) && inputError == "" && draggedStudentId == old(draggedStudentId)
      ensures outcome.Ok? ==> BalancedPartition(groups, students)
      ensures outcome.Ok? ==>
        |groups| == NumberOfGroups(|students|, groupingOption, groupCount, studentsPerGroup).value
        && DefaultNamed(groupNames, |groups|)
      ensures groupingOption == old(groupingOption) && groupCountInput == old(groupCountInput)
      ensures groupCount == old(groupCount) && studentsPerGroup == old(studentsPerGroup)
    {
      outcome := Generate(students, groupingOption, groupCount, studentsPerGroup, high, medium, low);
      Show(outcome, newId);
    }

    /**
     * The state updates of `generateGroups` once the outcome is known: an
     * error is shown inline (no students raise an alert instead), new
     * groups are shown with their default names under the new id.
     */
    method Show(outcome: Result<Generated, GenerationError>, newId: int)
      requires outcome.Ok? ==> Named(outcome.value.groups, outcome.value.names)
      modifies this
      ensures outcome.Err? ==>
        groups == old(groups) && groupNames == old(groupNames) && showModal == old(showModal)
        && groupingId == old(groupingId)
      ensures outcome.Err? && outcome.error == NoStudents ==> inputError == old(inputError)
      ensures outcome.Err? && outcome.error != NoStudents ==> inputError == ErrorMessage(outcome.error)
      ensures outcome.Ok? ==>
        groups == outcome.value.groups && groupNames == outcome.value.names
        && showModal && groupingId == Some(newId) && inputError == ""
      ensures draggedStudentId == old(draggedStudentId)
      ensures groupingOption == old(groupingOption) && groupCountInput == old(groupCountInput)
      ensures groupCount == old(groupCount) && studentsPerGroup == old(studentsPerGroup)
    {
      if outcome.Err? {
        if outcome.error != NoStudents {
          inputError := ErrorMessage(outcome.error);
        }
        return;
      }
      groupingId := Some(newId);
      groups := outcome.value.groups;
      groupNames := outcome.value.names;
      showModal := true;
      inputError := "";
    }

    /** The entry a save writes: the grouping on screen with its sizing parameter. */
    function CurrentEntry(studentCount: nat, now: int): (e: HistoryEntry)
      requires Valid() && groupingId.Some?
      reads this
      ensures e.id == groupingId.value && e.timestamp == now && e.groupingMethod == groupingOption
      ensures e.value == SizingValue(groupingOption, groupCount, studentsPerGroup)
      ensures e.numberOfStudents == studentCount
      ensures e.groups == Labelled(groups, groupNames) && StudentLists(e.groups) == groups
    {
      LabelledRoundTrip(groups, groupNames);
      HistoryEntry(groupingId.value, now, groupingOption,
        if groupingOption == ByGroups then groupCount else studentsPerGroup,
        studentCount, Labelled(groups, groupNames))
    }

    /**
     * `saveGroupingHistory`: with a class and a grouping id, the stored
     * history of the class gets the current grouping inserted or updated by
     * id; otherwise nothing is written. Unparsable stored text makes the
     * parse throw (`threw`), and nothing is written either.
     */
    method SaveGroupingHistory(store: HistoryStore, classId: Option<int>, studentCount: nat, now: int)
      returns (threw: bool)
      requires Valid()
      modifies store
      ensures classId.None? || groupingId.None? ==> !threw && store.data == old(store.data)
      ensures classId.Some? && groupingId.Some? ==> (threw <==> old(store.Read(classId.value)).Malformed?)
      ensures threw ==> store.data == old(store.data)
      ensures classId.Some? && groupingId.Some? && !threw ==>
        var previous := if old(store.Read(classId.value)).Parsed? then old(store.Read(classId.value)).records else [];
        store.data == old(store.data)[classId.value := Parsed(Upserted(previous, CurrentEntry(studentCount, now)))]
    {
      threw := false;
      if classId.None? || groupingId.None? {
        return;
      }
      var stored := store.Read(classId.value);
      if stored.Malformed? {
        threw := true;
        return;
      }
      var history := if stored.Parsed? then stored.records else [];
      var entry := CurrentEntry(studentCount, now);
      var existingIndex := IndexOfId(history, entry.id);
      if existingIndex != -1 {
        history := history[existingIndex := entry];
      } else {
        history := history + [entry];
      }
      store.Write(classId.value, history);
    }

    /**
     * `closeModal`: saves only when a grouping id is set (and then tells the
     * parent, `saved`), and always hides the modal and clears the grouping id
     * and the drag, unless the save threw, which abandons the handler.
     */
    method CloseModal(store: HistoryStore, classId: Option<int>, studentCount: nat, now: int)
      returns (saved: bool, threw: bool)
      requires Valid()
      modifies this, store
      ensures Valid()
      ensures saved <==> old(groupingId).Some? && !threw
      ensures threw ==> old(groupingId).Some? && classId.Some? && old(store.Read(classId.value)).Malformed?
      ensures old(groupingId).None? || classId.None? || threw ==> store.data == old(store.data)
      ensures old(groupingId).Some? && classId.Some? && !threw ==>
        var previous := if old(store.Read(classId.value)).Parsed? then old(store.Read(classId.value)).records else [];
        store.data == old(store.data)[classId.value := Parsed(Upserted(previous, old(CurrentEntry(studentCount, now))))]
      ensures !threw ==> !showModal && groupingId == None && draggedStudentId == None
      ensures threw ==> showModal == old(showModal) && groupingId == old(groupingId) && draggedStudentId == old(draggedStudentId)
      ensures groups == old(groups) && groupNames == old(groupNames) && inputError == old(inputError)
      ensures groupingOption == old(groupingOption) && groupCountInput == old(groupCountInput)
      ensures groupCount == old(groupCount) && studentsPerGroup == old(studentsPerGroup)
    {
      saved, threw := false, false;
      if groupingId.Some? {
        threw := SaveGroupingHistory(store, classId, studentCount, now);
        if threw {
          return;
        }
        saved := true;
      }
      showModal := false;
      groupingId := None;
      draggedStudentId := None;
    }

    /** The Escape key while the modal is open: hides it, and saves nothing. */
    method PressEscape()
      modifies this
      ensures !showModal
      ensures groupingId == old(groupingId) && draggedStudentId == old(draggedStudentId)
      ensures groups == old(groups) && groupNames == old(groupNames) && inputError == old(inputError)
      ensures groupingOption == old(groupingOption) && groupCountInput == old(groupCountInput)
      ensures groupCount == old(groupCount) && studentsPerGroup == old(studentsPerGroup)
    {
      showModal := false;
    }

    /** `handleDragStart`: remembers which student is being dragged. */
    method HandleDragStart(studentId: int)
      modifies this
      ensures draggedStudentId == Some(studentId)
      ensures groups == old(groups) && groupNames == old(groupNames) && showModal == old(showModal)
      ensures groupingId == old(groupingId) && inputError == old(inputError)
      ensures groupingOption == old(groupingOption) && groupCountInput == old(groupCountInput)
      ensures groupCount == old(groupCount) && studentsPerGroup == old(studentsPerGroup)
    {
      draggedStudentId := Some(studentId);
    }

    /**
     * `handleDragEnd` for a drop on group `dest`: without a drag nothing
     * happens; an unknown student or a drop on the source group only ends
     * the drag; otherwise the student moves from its source group to the end
     * of `dest` and the drag ends.
     */
    method HandleDragEnd(dest: nat)
      requires Valid() && dest < |groups|
      modifies this
      ensures Valid()
      ensures old(draggedStudentId).None? ==> draggedStudentId == None && groups == old(groups)
      ensures draggedStudentId == None
      ensures old(draggedStudentId).Some? ==>
        var source := GroupIndexOf(old(groups), old(draggedStudentId).value);
        if source != -1 && source != dest then groups == Moved(old(groups), old(draggedStudentId).value, dest)
        else groups == old(groups)
      ensures multiset(Flatten(groups)) == multiset(Flatten(old(groups)))
      ensures |groups| == |old(groups)|
      ensures groupNames == old(groupNames) && showModal == old(showModal)
      ensures groupingId == old(groupingId) && inputError == old(inputError)
      ensures groupingOption == old(groupingOption) && groupCountInput == old(groupCountInput)
      ensures groupCount == old(groupCount) && studentsPerGroup == old(studentsPerGroup)
    {
      if draggedStudentId.None? {
        return;
      }
      var id := draggedStudentId.value;
      var source := GroupIndexOf(groups, id);
      if source == -1 || source == dest {
        draggedStudentId := None;
        return;
      }
      MoveKeepsStudents(groups, id, dest);
      var newGroups := groups[source := RemoveAt(groups[source], StudentIndex(groups[source], id))];
      newGroups := newGroups[dest := newGroups[dest] + [Dragged(groups, id)]];
      groups := newGroups;
      draggedStudentId := None;
    }

    /**
     * `handleInputChange`: digits-only text is kept and parsed base 10 into
     * the parameter of the chosen strategy (the empty text giving 0) and the
     * error is cleared; any other text only sets the error.
     */
    method HandleInputChange(value: string)
      modifies this
      ensures AllDigits(value) ==> groupCountInput == value && inputError == ""
      ensures AllDigits(value) && groupingOption == ByGroups ==>
        groupCount == DigitsValue(value) && studentsPerGroup == old(studentsPerGroup)
      ensures AllDigits(value) && groupingOption == ByStudents ==>
        studentsPerGroup == DigitsValue(value) && groupCount == old(groupCount)
      ensures !AllDigits(value) ==>
        inputError == InvalidNumberMessage && groupCountInput == old(groupCountInput)
        && groupCount == old(groupCount) && studentsPerGroup == old(studentsPerGroup)
      ensures groupingOption == old(groupingOption) && groups == old(groups) && groupNames == old(groupNames)
      ensures showModal == old(showModal) && groupingId == old(groupingId) && draggedStudentId == old(draggedStudentId)
    {
      if AllDigits(value) {
        groupCountInput := value;
        var parsed := if value == "" then 0 else DigitsValue(value);
        if groupingOption == ByGroups {
          groupCount := parsed;
        } else {
          studentsPerGroup := parsed;
        }
        inputError := "";
      } else {
        inputError := InvalidNumberMessage;
      }
    }

    /**
     * Clicking the radio button of a sizing option. A radio that is already
     * checked fires no change, so nothing happens. Otherwise the option is
     * selected, the input is emptied, the option's parameter returns to its
     * default (2 groups, 4 students) and the error is cleared.
     */
    method ChooseOption(option: GroupingOption)
      modifies this
      ensures option == old(groupingOption) ==>
        groupCountInput == old(groupCountInput) && inputError == old(inputError)
        && groupCount == old(groupCount) && studentsPerGroup == old(studentsPerGroup)
      ensures option != old(groupingOption) ==> groupCountInput == "" && inputError == ""
      ensures option != old(groupingOption) && option == ByGroups ==>
        groupCount == 2 && studentsPerGroup == old(studentsPerGroup)
      ensures option != old(groupingOption) && option == ByStudents ==>
        studentsPerGroup == 4 && groupCount == old(groupCount)
      ensures groupingOption == option
      ensures groups == old(groups) && groupNames == old(groupNames) && showModal == old(showModal)
      ensures groupingId == old(groupingId) && draggedStudentId == old(draggedStudentId)
    {
      if option == groupingOption {
        return;
      }
      groupingOption := option;
      groupCountInput := "";
      if option == ByGroups {
        groupCount := 2;
      } else {
        studentsPerGroup := 4;
      }
      inputError := "";
    }

    /** `handleGroupNameChange`: the group at `index` takes the new name; no other name changes. */
    method HandleGroupNameChange(index: int, newName: string)
      requires Valid()
      modifies this
      ensures Valid()
      ensures groupNames == old(groupNames)[index := newName]
      ensures groups == old(groups) && showModal == old(showModal) && groupingId == old(groupingId)
      ensures draggedStudentId == old(draggedStudentId) && inputError == old(inputError)
      ensures groupingOption == old(groupingOption) && groupCountInput == old(groupCountInput)
      ensures groupCount == old(groupCount) && studentsPerGroup == old(studentsPerGroup)
    {
      groupNames := groupNames[index := newName];
    }
  }
}
