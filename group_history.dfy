/**
 * The history view component: the list of saved groupings of the current
 * class, the grouping opened from it for editing (its groups, their names,
 * the drag in progress) and its handlers. The `currentClassId` prop and the
 * clock are handler parameters.
 */
module GroupHistoryView {
  import opened Domain
  import opened History

  /**
   * The search loop of the drop handler: the first group holding a student
   * with this id loses the first such student, which is returned; with no
   * such student the groups come back unchanged and `source` is -1.
   */
  method TakeFirst(groups: seq<seq<Student>>, id: int)
    returns (source: int, remaining: seq<seq<Student>>, moved: Option<Student>)
    ensures source == GroupIndexOf(groups, id)
    ensures source == -1 ==> remaining == groups && moved == None
    ensures source != -1 ==>
      moved == Some(Dragged(groups, id))
      && remaining == groups[source := RemoveAt(groups[source], StudentIndex(groups[source], id))]
  {
    source, remaining, moved := -1, groups, None;
    var i := 0;
    while i < |groups|
      invariant 0 <= i <= |groups|
      invariant forall g :: 0 <= g < i ==> StudentIndex(groups[g], id) == -1
      decreases |groups| - i
    {
      var studentIndex := StudentIndex(groups[i], id);
      if studentIndex != -1 {
        source := i;
        moved := Some(groups[i][studentIndex]);
        remaining := groups[i := RemoveAt(groups[i], studentIndex)];
        break;
      }
      i := i + 1;
    }
    GroupIndexOfIs(groups, id, source);
  }

  /** The first group holding the id, as found by a scan that saw none before `source`. */
  lemma {:induction false} GroupIndexOfIs(groups: seq<seq<Student>>, id: int, source: int)
    requires -1 <= source < |groups|
    requires source >= 0 ==> StudentIndex(groups[source], id) >= 0
    requires forall g :: 0 <= g < (if source == -1 then |groups| else source) ==> StudentIndex(groups[g], id) == -1
    ensures GroupIndexOf(groups, id) == source
  {
  }

  class GroupHistory {
    var groupHistory: seq<HistoryEntry>
    var selectedGrouping: Option<HistoryEntry>
    var groups: seq<seq<Student>>
    var groupNames: map<int, string>
    var draggedStudentId: Option<int>
    var groupingId: Option<int>

    /**
     * A grouping is open exactly when a grouping id is set, and then the id
     * is the open grouping's, the editor holds one list per group of it and
     * every list has a name.
     */
    ghost predicate Valid()
      reads this
    {
      && (selectedGrouping.Some? <==> groupingId.Some?)
      && (selectedGrouping.Some? ==>
            && groupingId.value == selectedGrouping.value.id
            && |groups| == |selectedGrouping.value.groups|
            && Named(groups, groupNames))
    }

    /** The initial state: empty list, nothing open. */
    constructor ()
      ensures Valid()
      ensures groupHistory == [] && selectedGrouping == None && groups == [] && groupNames == map[]
      ensures draggedStudentId == None && groupingId == None
    {
      groupHistory := [];
      selectedGrouping := None;
      groups := [];
      groupNames := map[];
      draggedStudentId := None;
      groupingId := None;
    }

    /**
     * `loadGroupHistory`: no class, nothing stored or unparsable text give
     * the empty list; otherwise the stored entries, newest first.
     */
    method LoadGroupHistory(store: HistoryStore, classId: Option<int>)
      requires Valid()
      modifies this
      ensures Valid()
      ensures classId.None? || !store.Read(classId.value).Parsed? ==> groupHistory == []
      ensures classId.Some? && store.Read(classId.value).Parsed? ==>
        multiset(groupHistory) == multiset(store.Read(classId.value).records) && NewestFirstOrder(groupHistory)
      ensures classId.Some? && store.Read(classId.value).Parsed? ==>
        groupHistory == NewestFirst(store.Read(classId.value).records)
      ensures selectedGrouping == old(selectedGrouping) && groups == old(groups) && groupNames == old(groupNames)
      ensures draggedStudentId == old(draggedStudentId) && groupingId == old(groupingId)
    {
      if classId.None? {
        groupHistory := [];
        return;
      }
      var stored := store.Read(classId.value);
      if stored.Parsed? {
        groupHistory := NewestFirst(stored.records);
      } else {
        groupHistory := [];
      }
    }

    /** `loadGrouping`: opens an entry, its groups and names become the editor's. */
    method LoadGrouping(grouping: HistoryEntry)
      modifies this
      ensures Valid()
      ensures selectedGrouping == Some(grouping) && groupingId == Some(grouping.id) && draggedStudentId == None
      ensures groups == StudentLists(grouping.groups)
      ensures forall i :: i in groupNames <==> 0 <= i < |grouping.groups|
      ensures forall i :: 0 <= i < |grouping.groups| ==> groupNames[i] == grouping.groups[i].name
      ensures groupHistory == old(groupHistory)
    {
      selectedGrouping := Some(grouping);
      groups := StudentLists(grouping.groups);
      groupNames := NameMap(grouping.groups);
      groupingId := Some(grouping.id);
      draggedStudentId := None;
    }

    /** `handleDragStart`: remembers which student is being dragged. */
    method HandleDragStart(studentId: int)
      requires Valid()
      modifies this
      ensures Valid()
      ensures draggedStudentId == Some(studentId)
      ensures groupHistory == old(groupHistory) && selectedGrouping == old(selectedGrouping)
      ensures groups == old(groups) && groupNames == old(groupNames) && groupingId == old(groupingId)
    {
      draggedStudentId := Some(studentId);
    }

    /**
     * `handleDragEnd` for a drop on group `dest`. Without a drag or an open
     * grouping nothing happens; a destination outside the groups or a
     * student found in no group is rejected with the drag left as it was; a
     * drop on the source group ends the drag and keeps the groups; otherwise
     * the student moves to the end of `dest`, the open grouping takes the new
     * lists, and the drag ends.
     */
    method HandleDragEnd(dest: int)
      requires Valid()
      modifies this
      ensures Valid()
      ensures old(draggedStudentId).None? || old(selectedGrouping).None? || !(0 <= dest < |old(groups)|) ==>
        groups == old(groups) && selectedGrouping == old(selectedGrouping) && draggedStudentId == old(draggedStudentId)
      ensures old(draggedStudentId).Some? && old(selectedGrouping).Some? && 0 <= dest < |old(groups)| ==>
        var id := old(draggedStudentId).value;
        var source := GroupIndexOf(old(groups), id);
        && (source == -1 ==>
              groups == old(groups) && selectedGrouping == old(selectedGrouping) && draggedStudentId == old(draggedStudentId))
        && (source == dest ==>
              groups == old(groups) && selectedGrouping == old(selectedGrouping) && draggedStudentId == None)
        && (source != -1 && source != dest ==>
              groups == Moved(old(groups), id, dest) && draggedStudentId == None
              && selectedGrouping == Some(old(selectedGrouping).value.(groups := WithStudents(old(selectedGrouping).value.groups, groups))))
      ensures multiset(Flatten(groups)) == multiset(Flatten(old(groups)))
      ensures groupHistory == old(groupHistory) && groupNames == old(groupNames) && groupingId == old(groupingId)
    {
      if draggedStudentId.None? || selectedGrouping.None? {
        return;
      }
      if dest < 0 || dest >= |groups| {
        return;
      }
      var id := draggedStudentId.value;
      var source, newGroups, moved := TakeFirst(groups, id);
      if source == -1 || moved.None? {
        return;
      }
      if source == dest {
        draggedStudentId := None;
        return;
      }
      MoveKeepsStudents(groups, id, dest);
      newGroups := newGroups[dest := newGroups[dest] + [moved.value]];
      assert newGroups == Moved(groups, id, dest);
      ShowMove(newGroups);
    }

    /** The state updates of a completed drop: the editor and the open grouping take the new lists. */
    method ShowMove(newGroups: seq<seq<Student>>)
      requires Valid() && selectedGrouping.Some? && |newGroups| == |groups|
      modifies this
      ensures Valid()
      ensures groups == newGroups && draggedStudentId == None
      ensures selectedGrouping == Some(old(selectedGrouping).value.(groups := WithStudents(old(selectedGrouping).value.groups, newGroups)))
      ensures groupHistory == old(groupHistory) && groupNames == old(groupNames) && groupingId == old(groupingId)
    {
      groups := newGroups;
      var selected := selectedGrouping.value;
      selectedGrouping := Some(selected.(groups := WithStudents(selected.groups, newGroups)));
      draggedStudentId := None;
    }

    /**
     * `saveGroupingHistory` of the history view: with a class and an open
     * grouping whose entry is still stored, that entry (every entry of that
     * id) is replaced by the edited one and the list is reloaded; otherwise
     * nothing is written. Unparsable stored text makes the parse throw.
     */
    method SaveGroupingHistory(store: HistoryStore, classId: Option<int>, now: int) returns (threw: bool)
      requires Valid()
      modifies this, store
      ensures Valid()
      ensures threw <==> classId.Some? && groupingId.Some? && old(store.Read(classId.value)).Malformed?
      ensures classId.None? || groupingId.None? || threw ==> store.data == old(store.data) && groupHistory == old(groupHistory)
      ensures classId.Some? && groupingId.Some? && !threw ==>
        var history := if old(store.Read(classId.value)).Parsed? then old(store.Read(classId.value)).records else [];
        var index := IndexOfId(history, groupingId.value);
        && (index == -1 ==> store.data == old(store.data) && groupHistory == old(groupHistory))
        && (index != -1 ==>
              var updated := ReplacedById(history, groupingId.value, EditedEntry(history[index], groups, groupNames, now));
              store.data == old(store.data)[classId.value := Parsed(updated)] && groupHistory == NewestFirst(updated))
      ensures selectedGrouping == old(selectedGrouping) && groups == old(groups) && groupNames == old(groupNames)
      ensures draggedStudentId == old(draggedStudentId) && groupingId == old(groupingId)
    {
      threw := false;
      if classId.None? || groupingId.None? {
        return;
      }
      var stored := store.Read(classId.value);
      if stored.Malformed? {
        threw := true;
        return;
      }
      var history := if stored.Parsed? then stored.records else [];
      var index := IndexOfId(history, groupingId.value);
      if index == -1 {
        return;
      }
      var newEntry := EditedEntry(history[index], groups, groupNames, now);
      var updated := ReplacedById(history, groupingId.value, newEntry);
      store.Write(classId.value, updated);
      LoadGroupHistory(store, classId);
    }

    /**
     * `handleDeleteGrouping`: with a class and parsable stored history, the
     * entries of that id are removed from the store and from the list, and
     * an open grouping of that id is closed; anything else changes nothing.
     */
    method HandleDeleteGrouping(store: HistoryStore, classId: Option<int>, id: int)
      requires Valid()
      modifies this, store
      ensures Valid()
      ensures classId.None? || !old(store.Read(classId.value)).Parsed? ==>
        store.data == old(store.data) && groupHistory == old(groupHistory) && selectedGrouping == old(selectedGrouping)
        && groups == old(groups) && groupNames == old(groupNames) && groupingId == old(groupingId)
        && draggedStudentId == old(draggedStudentId)
      ensures classId.Some? && old(store.Read(classId.value)).Parsed? ==>
        var updated := Deleted(old(store.Read(classId.value)).records, id);
        store.data == old(store.data)[classId.value := Parsed(updated)] && groupHistory == updated
      ensures (classId.Some? && old(store.Read(classId.value)).Parsed? && old(selectedGrouping).Some?
                && old(selectedGrouping).value.id == id) ==>
        selectedGrouping == None && groups == [] && groupNames == map[] && groupingId == None && draggedStudentId == None
      ensures classId.Some? && old(store.Read(classId.value)).Parsed? && !(old(selectedGrouping).Some? && old(selectedGrouping).value.id == id) ==>
        selectedGrouping == old(selectedGrouping) && groups == old(groups) && groupNames == old(groupNames)
        && groupingId == old(groupingId) && draggedStudentId == old(draggedStudentId)
    {
      if classId.None? {
        return;
      }
      var stored := store.Read(classId.value);
      if !stored.Parsed? {
        return;
      }
      var updated := Deleted(stored.records, id);
      store.Write(classId.value, updated);
      groupHistory := updated;
      if selectedGrouping.Some? && selectedGrouping.value.id == id {
        selectedGrouping := None;
        groups := [];
        groupNames := map[];
        groupingId := None;
        draggedStudentId := None;
      }
    }

    /**
     * `closeModal` (also what Escape does here): saves when a grouping is
     * open, then closes it and ends the drag, unless the save threw. The
     * editor's lists and names are left as they were.
     */
    method CloseModal(store: HistoryStore, classId: Option<int>, now: int) returns (threw: bool)
      requires Valid()
      modifies this, store
      ensures Valid()
      ensures threw <==> old(groupingId).Some? && classId.Some? && old(store.Read(classId.value)).Malformed?
      ensures old(groupingId).None? || classId.None? || threw ==>
        store.data == old(store.data) && groupHistory == old(groupHistory)
      ensures old(groupingId).Some? && classId.Some? && !threw ==>
        var history := if old(store.Read(classId.value)).Parsed? then old(store.Read(classId.value)).records else [];
        var index := IndexOfId(history, old(groupingId).value);
        && (index == -1 ==> store.data == old(store.data) && groupHistory == old(groupHistory))
        && (index != -1 ==>
              var updated := ReplacedById(history, old(groupingId).value, EditedEntry(history[index], old(groups), old(groupNames), now));
              store.data == old(store.data)[classId.value := Parsed(updated)] && groupHistory == NewestFirst(updated))
      ensures !threw ==> selectedGrouping == None && groupingId == None && draggedStudentId == None
      ensures threw ==>
        selectedGrouping == old(selectedGrouping) && groupingId == old(groupingId) && draggedStudentId == old(draggedStudentId)
      ensures groups == old(groups) && groupNames == old(groupNames)
    {
      threw := false;
      if groupingId.Some? {
        threw := SaveGroupingHistory(store, classId, now);
        if threw {
          return;
        }
      }
      selectedGrouping := None;
      groupingId := None;
      draggedStudentId := None;
    }

    /**
     * `handleGroupNameChange`: the name at `index` changes, and so does the
     * name of the open grouping's group at that index; nothing else does.
     */
    method HandleGroupNameChange(index: int, newName: string)
      requires Valid()
      modifies this
      ensures Valid()
      ensures groupNames == old(groupNames)[index := newName]
      ensures old(selectedGrouping).None? ==> selectedGrouping == None
      ensures old(selectedGrouping).Some? ==>
        selectedGrouping == Some(old(selectedGrouping).value.(groups := RenamedAt(old(selectedGrouping).value.groups, index, newName)))
      ensures groupHistory == old(groupHistory) && groups == old(groups)
      ensures draggedStudentId == old(draggedStudentId) && groupingId == old(groupingId)
    {
      groupNames := groupNames[index := newName];
      if selectedGrouping.Some? {
        var selected := selectedGrouping.value;
        selectedGrouping := Some(selected.(groups := RenamedAt(selected.groups, index, newName)));
      }
    }
  }
}
