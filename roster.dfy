/**
 * The roster of the home page: the classes with their students and the
 * selected class. The updates are pure functions over the class list; the
 * two home pages (the current one and its older variant, which has no
 * rename and no load flag) are classes whose handlers assign their results.
 */
module Roster {
  import opened Domain

  /** A student record as stored: presence may be missing, and capability missing or falsy (both are `None`). */
  datatype RawStudent = RawStudent(id: int, name: string, present: Option<bool>, capabilityLevel: Option<Capability>)

  datatype RawClass = RawClass(id: int, name: string, students: seq<RawStudent>)

  /** A missing capability becomes medium and a missing presence becomes present. */
  function NormalizeStudent(raw: RawStudent): (s: Student)
    ensures s.id == raw.id && s.name == raw.name
    ensures s.capabilityLevel == if raw.capabilityLevel.Some? then raw.capabilityLevel.value else Medium
    ensures s.present == if raw.present.Some? then raw.present.value else true
  {
    Student(raw.id, raw.name,
      if raw.present.Some? then raw.present.value else true,
      if raw.capabilityLevel.Some? then raw.capabilityLevel.value else Medium)
  }

  /** The classes as loaded: each class keeps its id, name and student order, every student normalized. */
  function Normalize(raw: seq<RawClass>): (r: seq<Class>)
    ensures |r| == |raw|
    ensures forall i :: 0 <= i < |raw| ==>
      r[i].id == raw[i].id && r[i].name == raw[i].name && |r[i].students| == |raw[i].students|
    ensures forall i, j :: 0 <= i < |raw| && 0 <= j < |raw[i].students| ==>
      r[i].students[j] == NormalizeStudent(raw[i].students[j])
  {
    seq(|raw|, i requires 0 <= i < |raw| =>
      Class(raw[i].id, raw[i].name,
        seq(|raw[i].students|, j requires 0 <= j < |raw[i].students| => NormalizeStudent(raw[i].students[j]))))
  }

  /** A class as stored with every field present. */
  function Complete(c: Class): RawClass
  {
    RawClass(c.id, c.name, seq(|c.students|, j requires 0 <= j < |c.students| =>
      RawStudent(c.students[j].id, c.students[j].name, Some(c.students[j].present), Some(c.students[j].capabilityLevel))))
  }

  /** Normalizing classes stored complete gives the same classes back. */
  lemma NormalizeComplete(classes: seq<Class>)
    ensures Normalize(seq(|classes|, i requires 0 <= i < |classes| => Complete(classes[i]))) == classes
  {
    var raw := seq(|classes|, i requires 0 <= i < |classes| => Complete(classes[i]));
    var r := Normalize(raw);
    forall i | 0 <= i < |classes|
      ensures r[i] == classes[i]
    {
      assert raw[i] == Complete(classes[i]);
      assert r[i].students == classes[i].students;
    }
  }

  /** The id of the first class, the selection after a load or after the current class is removed. */
  function FirstClassId(classes: seq<Class>): (r: Option<int>)
    ensures r.None? <==> classes == []
    ensures r.Some? ==> r.value == classes[0].id
  {
    if classes == [] then None else Some(classes[0].id)
  }

  /** The first class with that id, if any. */
  function FindClass(classes: seq<Class>, id: int): (r: Option<Class>)
    ensures r.None? <==> forall i :: 0 <= i < |classes| ==> classes[i].id != id
    ensures r.Some? ==> r.value in classes && r.value.id == id
    ensures r.Some? ==>
      exists i :: 0 <= i < |classes| && classes[i] == r.value && (forall k :: 0 <= k < i ==> classes[k].id != id)
  {
    if classes == [] then None
    else if classes[0].id == id then Some(classes[0])
    else
      var r := FindClass(classes[1..], id);
      if r.Some? then
        var i :| 0 <= i < |classes[1..]| && classes[1..][i] == r.value && forall k :: 0 <= k < i ==> classes[1..][k].id != id;
        assert classes[i + 1] == r.value;
        r
      else r
  }

  /** The class list holds a class with this id. */
  predicate HasClass(classes: seq<Class>, id: int)
  {
    exists i :: 0 <= i < |classes| && classes[i].id == id
  }

  /** The classes with a new empty class of this id and name appended. */
  function AddClass(classes: seq<Class>, id: int, name: string): (r: seq<Class>)
    ensures |r| == |classes| + 1 && r[..|classes|] == classes
    ensures r[|classes|] == Class(id, name, [])
    ensures HasClass(r, id)
  {
    classes + [Class(id, name, [])]
  }

  /** The classes without those of this id, the others in their order. */
  function RemoveClass(classes: seq<Class>, id: int): (r: seq<Class>)
    ensures |r| <= |classes|
    ensures !HasClass(r, id)
    ensures forall c :: c in r ==> c in classes
    ensures forall i :: 0 <= i < |classes| && classes[i].id != id ==> classes[i] in r
  {
    if classes == [] then []
    else
      var rest := RemoveClass(classes[1..], id);
      assert forall i :: 1 <= i < |classes| ==> classes[i] == classes[1..][i - 1];
      if classes[0].id == id then rest else [classes[0]] + rest
  }

  /** Removal works class by class, so the remaining classes keep their order. */
  lemma {:induction false} RemoveClassAppend(a: seq<Class>, b: seq<Class>, id: int)
    ensures RemoveClass(a + b, id) == RemoveClass(a, id) + RemoveClass(b, id)
  {
    if a == [] {
      assert a + b == b;
    } else {
      assert (a + b)[1..] == a[1..] + b;
      RemoveClassAppend(a[1..], b, id);
    }
  }

  /** Removing an id no class has changes nothing. */
  lemma {:induction false} RemoveAbsentClass(classes: seq<Class>, id: int)
    requires !HasClass(classes, id)
    ensures RemoveClass(classes, id) == classes
  {
    if classes != [] {
      assert !HasClass(classes[1..], id) by {
        forall i | 0 <= i < |classes[1..]| ensures classes[1..][i].id != id {
          assert classes[1..][i] == classes[i + 1];
        }
      }
      RemoveAbsentClass(classes[1..], id);
      assert [classes[0]] + classes[1..] == classes;
    }
  }

  /** Removing the class just added gives back the classes before (when its id was new). */
  lemma AddThenRemoveClass(classes: seq<Class>, id: int, name: string)
    requires !HasClass(classes, id)
    ensures RemoveClass(AddClass(classes, id, name), id) == classes
  {
    RemoveClassAppend(classes, [Class(id, name, [])], id);
    RemoveAbsentClass(classes, id);
  }

  /** The selection after removing `id`: the first remaining class if the current one went, else unchanged. */
  function SelectionAfterRemove(remaining: seq<Class>, current: Option<int>, id: int): (r: Option<int>)
    ensures current != Some(id) ==> r == current
    ensures current == Some(id) ==> r == FirstClassId(remaining)
  {
    if current == Some(id) then FirstClassId(remaining) else current
  }

  /** Every class with this id takes the new name; the rest stay. */
  function RenameClass(classes: seq<Class>, id: int, name: string): (r: seq<Class>)
    ensures |r| == |classes|
    ensures forall i :: 0 <= i < |classes| ==> r[i].id == classes[i].id && r[i].students == classes[i].students
    ensures forall i :: 0 <= i < |classes| ==> r[i].name == if classes[i].id == id then name else classes[i].name
  {
    seq(|classes|, i requires 0 <= i < |classes| => if classes[i].id == id then classes[i].(name := name) else classes[i])
  }

  /** Renaming back to the old name of a class with a unique id restores the roster. */
  lemma RenameBack(classes: seq<Class>, k: nat, name: string)
    requires k < |classes|
    requires forall i :: 0 <= i < |classes| && i != k ==> classes[i].id != classes[k].id
    ensures RenameClass(RenameClass(classes, classes[k].id, name), classes[k].id, classes[k].name) == classes
  {
    var r := RenameClass(RenameClass(classes, classes[k].id, name), classes[k].id, classes[k].name);
    assert forall i :: 0 <= i < |classes| ==> r[i] == classes[i];
  }

  /** The students of the class with id `classId` replaced by `update` of them; other classes untouched. */
  function UpdateStudents(classes: seq<Class>, classId: int, update: seq<Student> -> seq<Student>): (r: seq<Class>)
    ensures |r| == |classes|
    ensures forall i :: 0 <= i < |classes| ==> r[i].id == classes[i].id && r[i].name == classes[i].name
    ensures forall i :: 0 <= i < |classes| ==>
      r[i].students == if classes[i].id == classId then update(classes[i].students) else classes[i].students
  {
    seq(|classes|, i requires 0 <= i < |classes| =>
      if classes[i].id == classId then classes[i].(students := update(classes[i].students)) else classes[i])
  }

  /**
   * The students without those of this id, the others in their order: the
   * same `filter` by id as `History.Deleted`, over students instead of entries.
   */
  function WithoutStudent(students: seq<Student>, id: int): (r: seq<Student>)
    ensures |r| <= |students|
    ensures forall i :: 0 <= i < |r| ==> r[i].id != id
  {
    if students == [] then []
    else (if students[0].id == id then [] else [students[0]]) + WithoutStudent(students[1..], id)
  }

  /** Removing a student keeps every other student as often as it occurred. */
  lemma {:induction false} WithoutStudentCounts(students: seq<Student>, id: int)
    ensures forall s: Student :: s.id != id ==> multiset(WithoutStudent(students, id))[s] == multiset(students)[s]
  {
    if students != [] {
      WithoutStudentCounts(students[1..], id);
      assert students == [students[0]] + students[1..];
    }
  }

  /** Every student with this id has its presence flipped; the rest stay. */
  function Toggled(students: seq<Student>, id: int): (r: seq<Student>)
    ensures |r| == |students|
    ensures forall i :: 0 <= i < |students| ==>
      r[i] == if students[i].id == id then students[i].(present := !students[i].present) else students[i]
  {
    seq(|students|, i requires 0 <= i < |students| =>
      if students[i].id == id then students[i].(present := !students[i].present) else students[i])
  }

  /** Toggling a student twice gives back the original list. */
  lemma ToggleTwice(students: seq<Student>, id: int)
    ensures Toggled(Toggled(students, id), id) == students
  {
  }

  /** `addStudent` on the class list: a present student appended to the current class only. */
  function AddStudent(classes: seq<Class>, current: Option<int>, id: int, name: string, level: Capability)
    : (r: seq<Class>)
    ensures current.None? ==> r == classes
    ensures current.Some? ==> r == UpdateStudents(classes, current.value, s => s + [Student(id, name, true, level)])
  {
    if current.None? then classes
    else UpdateStudents(classes, current.value, s => s + [Student(id, name, true, level)])
  }

  /** `removeStudent` on the class list: the id filtered out of the current class only. */
  function RemoveStudent(classes: seq<Class>, current: Option<int>, id: int): (r: seq<Class>)
    ensures current.None? ==> r == classes
    ensures current.Some? ==> r == UpdateStudents(classes, current.value, s => WithoutStudent(s, id))
  {
    if current.None? then classes else UpdateStudents(classes, current.value, s => WithoutStudent(s, id))
  }

  /** `toggleStudentExclusion` on the class list: presence flipped in the current class only. */
  function ToggleStudent(classes: seq<Class>, current: Option<int>, id: int): (r: seq<Class>)
    ensures current.None? ==> r == classes
    ensures current.Some? ==> r == UpdateStudents(classes, current.value, s => Toggled(s, id))
  {
    if current.None? then classes else UpdateStudents(classes, current.value, s => Toggled(s, id))
  }

  /** Toggling the same student twice restores the whole roster. */
  lemma ToggleStudentTwice(classes: seq<Class>, current: Option<int>, id: int)
    ensures ToggleStudent(ToggleStudent(classes, current, id), current, id) == classes
  {
    if current.Some? {
      var once := ToggleStudent(classes, current, id);
      var twice := ToggleStudent(once, current, id);
      forall i | 0 <= i < |classes| ensures twice[i] == classes[i] {
        if classes[i].id == current.value {
          ToggleTwice(classes[i].students, id);
        }
      }
    }
  }

  /** Adding a student and removing it again restores the current class when its id was new there. */
  lemma AddThenRemoveStudent(students: seq<Student>, s: Student)
    requires forall i :: 0 <= i < |students| ==> students[i].id != s.id
    ensures WithoutStudent(students + [s], s.id) == students
  {
    WithoutStudentAppend(students, [s], s.id);
    WithoutAbsentStudent(students, s.id);
  }

  lemma {:induction false} WithoutStudentAppend(a: seq<Student>, b: seq<Student>, id: int)
    ensures WithoutStudent(a + b, id) == WithoutStudent(a, id) + WithoutStudent(b, id)
  {
    if a == [] {
      assert a + b == b;
    } else {
      assert (a + b)[1..] == a[1..] + b;
      WithoutStudentAppend(a[1..], b, id);
    }
  }

  lemma {:induction false} WithoutAbsentStudent(students: seq<Student>, id: int)
    requires forall i :: 0 <= i < |students| ==> students[i].id != id
    ensures WithoutStudent(students, id) == students
  {
    if students != [] {
      WithoutAbsentStudent(students[1..], id);
      assert [students[0]] + students[1..] == students;
    }
  }

  /** The present students, in roster order: the students handed to the grouping tool. */
  function PresentStudents(students: seq<Student>): (r: seq<Student>)
    ensures |r| <= |students|
    ensures forall i :: 0 <= i < |r| ==> r[i].present
    ensures forall s: Student :: s.present ==> multiset(r)[s] == multiset(students)[s]
  {
    if students == [] then []
    else
      assert students == [students[0]] + students[1..];
      (if students[0].present then [students[0]] else []) + PresentStudents(students[1..])
  }

  /** The present students keep their roster order. */
  lemma {:induction false} PresentStudentsAppend(a: seq<Student>, b: seq<Student>)
    ensures PresentStudents(a + b) == PresentStudents(a) + PresentStudents(b)
  {
    if a == [] {
      assert a + b == b;
    } else {
      assert (a + b)[1..] == a[1..] + b;
      PresentStudentsAppend(a[1..], b);
    }
  }

  /** A roster where everyone is present is handed over whole. */
  lemma {:induction false} AllPresent(students: seq<Student>)
    requires forall i :: 0 <= i < |students| ==> students[i].present
    ensures PresentStudents(students) == students
  {
    if students != [] {
      AllPresent(students[1..]);
      assert [students[0]] + students[1..] == students;
    }
  }

  /**
   * The state both home pages share: the classes and the selected class id.
   * Valid: a selected id always belongs to a listed class.
   */
  ghost predicate SelectionListed(classes: seq<Class>, current: Option<int>)
  {
    current.Some? ==> HasClass(classes, current.value)
  }

  /** The page component (`ClientHome`): classes, selection, refresh key and the load flag. */
  class Home {
    var classes: seq<Class>
    var currentClassId: Option<int>
    var groupHistoryRefreshKey: int
    var hasLoaded: bool

    ghost predicate Valid()
      reads this
    {
      SelectionListed(classes, currentClassId)
    }

    constructor ()
      ensures Valid()
      ensures classes == [] && currentClassId == None && groupHistoryRefreshKey == 0 && !hasLoaded
    {
      classes := [];
      currentClassId := None;
      groupHistoryRefreshKey := 0;
      hasLoaded := false;
    }

    /** The class the page shows, if the selected id names one. */
    function CurrentClass(): (r: Option<Class>)
      reads this
      requires Valid()
      ensures currentClassId.None? ==> r.None?
      ensures currentClassId.Some? ==> r.Some? && r.value.id == currentClassId.value && r.value in classes
    {
      if currentClassId.None? then None else FindClass(classes, currentClassId.value)
    }

    /** The students handed to the grouping tool: the current class's present students, in order. */
    function GroupingStudents(): (r: seq<Student>)
      reads this
      requires Valid()
      ensures forall i :: 0 <= i < |r| ==> r[i].present
      ensures CurrentClass().Some? ==> forall s: Student :: s.present ==>
        multiset(r)[s] == multiset(CurrentClass().value.students)[s]
    {
      if CurrentClass().Some? then PresentStudents(CurrentClass().value.students) else []
    }

    /**
     * The mount effect: missing data leaves the empty roster, unparsable
     * data gives the empty roster, parsed data is normalized and the first
     * class selected; the page is then marked loaded.
     */
    method Load(stored: Stored<seq<RawClass>>)
      requires Valid()
      modifies this
      ensures Valid() && hasLoaded
      ensures stored.Missing? ==> classes == old(classes) && currentClassId == old(currentClassId)
      ensures stored.Malformed? ==> classes == [] && currentClassId == None
      ensures stored.Parsed? ==> classes == Normalize(stored.records) && currentClassId == FirstClassId(classes)
      ensures groupHistoryRefreshKey == old(groupHistoryRefreshKey)
    {
      match stored {
        case Missing =>
        case Malformed =>
          classes := [];
          currentClassId := None;
        case Parsed(records) =>
          classes := Normalize(records);
          currentClassId := FirstClassId(classes);
      }
      hasLoaded := true;
    }

    /** `addClass`: appends an empty class with the new id and selects it. */
    method AddClassNamed(name: string, newId: int)
      requires Valid()
      modifies this
      ensures Valid()
      ensures classes == AddClass(old(classes), newId, name) && currentClassId == Some(newId)
      ensures groupHistoryRefreshKey == old(groupHistoryRefreshKey) && hasLoaded == old(hasLoaded)
    {
      classes := AddClass(classes, newId, name);
      currentClassId := Some(newId);
    }

    /** `removeClass`: drops the classes with that id; a removed selection moves to the first class left. */
    method RemoveClassById(id: int)
      requires Valid()
      modifies this
      ensures Valid()
      ensures classes == RemoveClass(old(classes), id)
      ensures currentClassId == SelectionAfterRemove(classes, old(currentClassId), id)
      ensures groupHistoryRefreshKey == old(groupHistoryRefreshKey) && hasLoaded == old(hasLoaded)
    {
      var updated := RemoveClass(classes, id);
      if currentClassId.Some? && currentClassId.value != id {
        var k :| 0 <= k < |classes| && classes[k].id == currentClassId.value;
        assert classes[k] in updated;
      }
      classes := updated;
      if currentClassId == Some(id) {
        currentClassId := FirstClassId(updated);
      }
    }

    /** `renameClass`: only the name of the classes with that id changes. */
    method RenameClassById(id: int, newName: string)
      requires Valid()
      modifies this
      ensures Valid()
      ensures classes == RenameClass(old(classes), id, newName) && currentClassId == old(currentClassId)
      ensures groupHistoryRefreshKey == old(groupHistoryRefreshKey) && hasLoaded == old(hasLoaded)
    {
      if currentClassId.Some? {
        var k :| 0 <= k < |classes| && classes[k].id == currentClassId.value;
        assert RenameClass(classes, id, newName)[k].id == currentClassId.value;
      }
      classes := RenameClass(classes, id, newName);
    }

    /** `onSelectClass`: selects one of the listed classes. */
    method SelectClass(id: int)
      requires Valid() && HasClass(classes, id)
      modifies this
      ensures Valid()
      ensures currentClassId == Some(id) && classes == old(classes)
      ensures groupHistoryRefreshKey == old(groupHistoryRefreshKey) && hasLoaded == old(hasLoaded)
    {
      currentClassId := Some(id);
    }

    /** `addStudent`: a present student with the new id appended to the current class, if any. */
    method AddStudentNamed(name: string, level: Capability, newId: int)
      requires Valid()
      modifies this
      ensures Valid()
      ensures classes == AddStudent(old(classes), currentClassId, newId, name, level)
      ensures currentClassId == old(currentClassId)
      ensures groupHistoryRefreshKey == old(groupHistoryRefreshKey) && hasLoaded == old(hasLoaded)
    {
      KeepsSelection(classes, currentClassId, AddStudent(classes, currentClassId, newId, name, level));
      classes := AddStudent(classes, currentClassId, newId, name, level);
    }

    /** `removeStudent`: the id filtered out of the current class, if any. */
    method RemoveStudentById(id: int)
      requires Valid()
      modifies this
      ensures Valid()
      ensures classes == RemoveStudent(old(classes), currentClassId, id)
      ensures currentClassId == old(currentClassId)
      ensures groupHistoryRefreshKey == old(groupHistoryRefreshKey) && hasLoaded == old(hasLoaded)
    {
      KeepsSelection(classes, currentClassId, RemoveStudent(classes, currentClassId, id));
      classes := RemoveStudent(classes, currentClassId, id);
    }

    /** `toggleStudentExclusion`: presence of that student flipped in the current class, if any. */
    method ToggleStudentExclusion(id: int)
      requires Valid()
      modifies this
      ensures Valid()
      ensures classes == ToggleStudent(old(classes), currentClassId, id)
      ensures currentClassId == old(currentClassId)
      ensures groupHistoryRefreshKey == old(groupHistoryRefreshKey) && hasLoaded == old(hasLoaded)
    {
      KeepsSelection(classes, currentClassId, ToggleStudent(classes, currentClassId, id));
      classes := ToggleStudent(classes, currentClassId, id);
    }

    /** `triggerGroupHistoryRefresh`: a new key makes the history view reload. */
    method TriggerGroupHistoryRefresh()
      modifies this
      ensures groupHistoryRefreshKey == old(groupHistoryRefreshKey) + 1
      ensures classes == old(classes) && currentClassId == old(currentClassId) && hasLoaded == old(hasLoaded)
    {
      groupHistoryRefreshKey := groupHistoryRefreshKey + 1;
    }
  }

  /** A student update keeps every class id, so a listed selection stays listed. */
  lemma KeepsSelection(before: seq<Class>, current: Option<int>, after: seq<Class>)
    requires SelectionListed(before, current)
    requires |after| == |before| && forall i :: 0 <= i < |before| ==> after[i].id == before[i].id
    ensures SelectionListed(after, current)
  {
    if current.Some? {
      var k :| 0 <= k < |before| && before[k].id == current.value;
      assert after[k].id == current.value;
    }
  }

  /** The older page component (`pages/index`): the same roster without rename and load flag. */
  class LegacyHome {
    var classes: seq<Class>
    var currentClassId: Option<int>
    var groupHistoryRefreshKey: int

    ghost predicate Valid()
      reads this
    {
      SelectionListed(classes, currentClassId)
    }

    constructor ()
      ensures Valid()
      ensures classes == [] && currentClassId == None && groupHistoryRefreshKey == 0
    {
      classes := [];
      currentClassId := None;
      groupHistoryRefreshKey := 0;
    }

    function CurrentClass(): (r: Option<Class>)
      reads this
      requires Valid()
      ensures currentClassId.None? ==> r.None?
      ensures currentClassId.Some? ==> r.Some? && r.value.id == currentClassId.value && r.value in classes
    {
      if currentClassId.None? then None else FindClass(classes, currentClassId.value)
    }

    function GroupingStudents(): (r: seq<Student>)
      reads this
      requires Valid()
      ensures forall i :: 0 <= i < |r| ==> r[i].present
      ensures CurrentClass().Some? ==> forall s: Student :: s.present ==>
        multiset(r)[s] == multiset(CurrentClass().value.students)[s]
    {
      if CurrentClass().Some? then PresentStudents(CurrentClass().value.students) else []
    }

    method Load(stored: Stored<seq<RawClass>>)
      requires Valid()
      modifies this
      ensures Valid()
      ensures stored.Missing? ==> classes == old(classes) && currentClassId == old(currentClassId)
      ensures stored.Malformed? ==> classes == [] && currentClassId == None
      ensures stored.Parsed? ==> classes == Normalize(stored.records) && currentClassId == FirstClassId(classes)
      ensures groupHistoryRefreshKey == old(groupHistoryRefreshKey)
    {
      match stored {
        case Missing =>
        case Malformed =>
          classes := [];
          currentClassId := None;
        case Parsed(records) =>
          classes := Normalize(records);
          currentClassId := FirstClassId(classes);
      }
    }

    method AddClassNamed(name: string, newId: int)
      requires Valid()
      modifies this
      ensures Valid()
      ensures classes == AddClass(old(classes), newId, name) && currentClassId == Some(newId)
      ensures groupHistoryRefreshKey == old(groupHistoryRefreshKey)
    {
      classes := AddClass(classes, newId, name);
      currentClassId := Some(newId);
    }

    method RemoveClassById(id: int)
      requires Valid()
      modifies this
      ensures Valid()
      ensures classes == RemoveClass(old(classes), id)
      ensures currentClassId == SelectionAfterRemove(classes, old(currentClassId), id)
      ensures groupHistoryRefreshKey == old(groupHistoryRefreshKey)
    {
      var updated := RemoveClass(classes, id);
      if currentClassId.Some? && currentClassId.value != id {
        var k :| 0 <= k < |classes| && classes[k].id == currentClassId.value;
        assert classes[k] in updated;
      }
      classes := updated;
      if currentClassId == Some(id) {
        currentClassId := FirstClassId(updated);
      }
    }

    method SelectClass(id: int)
      requires Valid() && HasClass(classes, id)
      modifies this
      ensures Valid()
      ensures currentClassId == Some(id) && classes == old(classes)
      ensures groupHistoryRefreshKey == old(groupHistoryRefreshKey)
    {
      currentClassId := Some(id);
    }

    method AddStudentNamed(name: string, level: Capability, newId: int)
      requires Valid()
      modifies this
      ensures Valid()
      ensures classes == AddStudent(old(classes), currentClassId, newId, name, level)
      ensures currentClassId == old(currentClassId)
      ensures groupHistoryRefreshKey == old(groupHistoryRefreshKey)
    {
      KeepsSelection(classes, currentClassId, AddStudent(classes, currentClassId, newId, name, level));
      classes := AddStudent(classes, currentClassId, newId, name, level);
    }

    method RemoveStudentById(id: int)
      requires Valid()
      modifies this
      ensures Valid()
      ensures classes == RemoveStudent(old(classes), currentClassId, id)
      ensures currentClassId == old(currentClassId)
      ensures groupHistoryRefreshKey == old(groupHistoryRefreshKey)
    {
      KeepsSelection(classes, currentClassId, RemoveStudent(classes, currentClassId, id));
      classes := RemoveStudent(classes, currentClassId, id);
    }

    method ToggleStudentExclusion(id: int)
      requires Valid()
      modifies this
      ensures Valid()
      ensures classes == ToggleStudent(old(classes), currentClassId, id)
      ensures currentClassId == old(currentClassId)
      ensures groupHistoryRefreshKey == old(groupHistoryRefreshKey)
    {
      KeepsSelection(classes, currentClassId, ToggleStudent(classes, currentClassId, id));
      classes := ToggleStudent(classes, currentClassId, id);
    }

    method TriggerGroupHistoryRefresh()
      modifies this
      ensures groupHistoryRefreshKey == old(groupHistoryRefreshKey) + 1
      ensures classes == old(classes) && currentClassId == old(currentClassId)
    {
      groupHistoryRefreshKey := groupHistoryRefreshKey + 1;
    }
  }
}
