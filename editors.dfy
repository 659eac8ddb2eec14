/**
 * The small edit/commit state machines of the page: the inline group-name
 * and class-name editors, the group card, the class manager's add form and
 * two-step delete, and the student manager's add form.
 *
 * Each component's local state is a class; each handler is a method. A call
 * a handler makes to a callback of its parent is returned as an `Option`
 * holding the arguments, `None` when the handler does not call it. A prop is
 * a field the parent sets with `SetProps`.
 */
module Editors {
  import opened Domain
  import opened Text

  /** The keys the handlers tell apart. */
  datatype Key = Enter | Escape | OtherKey

  /**
   * The commit rule of the group-name editor and of both add forms: a text
   * whose trim is empty is refused, any other is committed trimmed.
   */
  function Committed(text: string): (r: Option<string>)
    ensures r.None? <==> IsBlank(text)
    ensures r.Some? ==> r.value == Trim(text) && r.value != []
  {
    TrimEmptyIffBlank(text);
    var trimmed := Trim(text);
    if trimmed == [] then None else Some(trimmed)
  }

  /** Committing a committed name commits it unchanged. */
  lemma CommittedIsStable(text: string)
    requires Committed(text).Some?
    ensures Committed(Committed(text).value) == Committed(text)
  {
    var name := Committed(text).value;
    TrimIdempotent(text);
    assert Trim(name) == name;
  }

  /**
   * The rename rule of the class-name editor and of the group card: the
   * trimmed text is proposed only when it is non-empty and differs from the
   * current name.
   */
  function RenameTo(text: string, current: string): (r: Option<string>)
    ensures r.None? <==> IsBlank(text) || Trim(text) == current
    ensures r.Some? ==> r.value == Trim(text) && r.value != [] && r.value != current
  {
    TrimEmptyIffBlank(text);
    var trimmed := Trim(text);
    if trimmed != [] && trimmed != current then Some(trimmed) else None
  }

  /** Once a rename went through, blurring again with the same text proposes nothing. */
  lemma RenameSettles(text: string, current: string)
    requires RenameTo(text, current).Some?
    ensures RenameTo(text, RenameTo(text, current).value) == None
  {
  }

  /**
   * The rename rule and the commit rule agree except on an unchanged name,
   * which only the commit rule passes on.
   */
  lemma {:induction false} RenameIsChangedCommit(text: string, current: string)
    ensures RenameTo(text, current) == (if Committed(text) == Some(current) then None else Committed(text))
  {
    TrimEmptyIffBlank(text);
  }

  /** `EditableGroupName`: the group heading that turns into a text field when clicked. */
  class EditableGroupName {
    var groupIndex: int
    var groupName: string
    var isEditing: bool
    var tempName: string

    /** Mounting: not editing, the field holding the given name. */
    constructor (groupIndex: int, groupName: string)
      ensures this.groupIndex == groupIndex && this.groupName == groupName
      ensures !isEditing && tempName == groupName
    {
      this.groupIndex := groupIndex;
      this.groupName := groupName;
      isEditing := false;
      tempName := groupName;
    }

    /** A re-render with new props: the field keeps its own text. */
    method SetProps(groupIndex: int, groupName: string)
      modifies this
      ensures this.groupIndex == groupIndex && this.groupName == groupName
      ensures isEditing == old(isEditing) && tempName == old(tempName)
    {
      this.groupIndex := groupIndex;
      this.groupName := groupName;
    }

    /** `handleNameClick` (also Enter on the heading): start editing. */
    method HandleNameClick()
      modifies this
      ensures isEditing
      ensures tempName == old(tempName) && groupIndex == old(groupIndex) && groupName == old(groupName)
    {
      isEditing := true;
    }

    /** The field's `onChange`. */
    method HandleChange(value: string)
      modifies this
      ensures tempName == value
      ensures isEditing == old(isEditing) && groupIndex == old(groupIndex) && groupName == old(groupName)
    {
      tempName := value;
    }

    /**
     * `handleBlur`: a blank text reverts to the name and calls nothing;
     * any other calls `onGroupNameChange(groupIndex, trimmed)`, even when
     * the name did not change. Editing ends either way.
     */
    method HandleBlur() returns (nameChange: Option<(int, string)>)
      modifies this
      ensures nameChange.None? <==> IsBlank(old(tempName))
      ensures nameChange.Some? ==> nameChange.value == (groupIndex, Committed(old(tempName)).value)
      ensures tempName == if nameChange.None? then groupName else old(tempName)
      ensures !isEditing && groupIndex == old(groupIndex) && groupName == old(groupName)
    {
      var committed := Committed(tempName);
      if committed.None? {
        tempName := groupName;
        nameChange := None;
      } else {
        nameChange := Some((groupIndex, committed.value));
      }
      isEditing := false;
    }

    /** `handleKeyDown`: Enter blurs the field; Escape reverts and stops editing, calling nothing. */
    method HandleKeyDown(key: Key) returns (nameChange: Option<(int, string)>)
      modifies this
      ensures key == Enter ==> nameChange == (if IsBlank(old(tempName)) then None
                                              else Some((groupIndex, Trim(old(tempName)))))
      ensures key == Enter ==> tempName == (if IsBlank(old(tempName)) then groupName else old(tempName)) && !isEditing
      ensures key == Escape ==> nameChange.None? && tempName == groupName && !isEditing
      ensures key == OtherKey ==> nameChange.None? && tempName == old(tempName) && isEditing == old(isEditing)
      ensures groupIndex == old(groupIndex) && groupName == old(groupName)
    {
      nameChange := None;
      if key == Enter {
        nameChange := HandleBlur();
      }
      if key == Escape {
        tempName := groupName;
        isEditing := false;
      }
    }
  }

  /** `EditableClassName`: the class label that turns into a text field on double-click. */
  class EditableClassName {
    var classId: int
    var name: string
    var isEditing: bool
    var tempName: string

    constructor (classId: int, name: string)
      ensures this.classId == classId && this.name == name
      ensures !isEditing && tempName == name
    {
      this.classId := classId;
      this.name := name;
      isEditing := false;
      tempName := name;
    }

    /** A re-render with new props: the field keeps its own text. */
    method SetProps(classId: int, name: string)
      modifies this
      ensures this.classId == classId && this.name == name
      ensures isEditing == old(isEditing) && tempName == old(tempName)
    {
      this.classId := classId;
      this.name := name;
    }

    /** The label's `onDoubleClick`: start editing. */
    method HandleDoubleClick()
      modifies this
      ensures isEditing
      ensures tempName == old(tempName) && classId == old(classId) && name == old(name)
    {
      isEditing := true;
    }

    /** The field's `onChange`. */
    method HandleChange(value: string)
      modifies this
      ensures tempName == value
      ensures isEditing == old(isEditing) && classId == old(classId) && name == old(name)
    {
      tempName := value;
    }

    /**
     * `handleBlur`: `onRename(classId, trimmed)` only for a non-empty trim
     * that differs from the name; otherwise the text reverts. Editing ends.
     */
    method HandleBlur() returns (rename: Option<(int, string)>)
      modifies this
      ensures rename.None? <==> RenameTo(old(tempName), name).None?
      ensures rename.Some? ==> rename.value == (classId, RenameTo(old(tempName), name).value)
      ensures tempName == if rename.None? then name else old(tempName)
      ensures !isEditing && classId == old(classId) && name == old(name)
    {
      var proposed := RenameTo(tempName, name);
      if proposed.Some? {
        rename := Some((classId, proposed.value));
      } else {
        tempName := name;
        rename := None;
      }
      isEditing := false;
    }

    /** `handleKeyDown`: Enter blurs the field; Escape reverts and stops editing, renaming nothing. */
    method HandleKeyDown(key: Key) returns (rename: Option<(int, string)>)
      modifies this
      ensures key == Enter ==> (rename.None? <==> IsBlank(old(tempName)) || Trim(old(tempName)) == name)
      ensures key == Enter ==> rename.Some? ==> rename.value == (classId, Trim(old(tempName)))
      ensures key == Enter ==> tempName == (if rename.None? then name else old(tempName)) && !isEditing
      ensures key == Escape ==> rename.None? && tempName == name && !isEditing
      ensures key == OtherKey ==> rename.None? && tempName == old(tempName) && isEditing == old(isEditing)
      ensures classId == old(classId) && name == old(name)
    {
      rename := None;
      if key == Enter {
        rename := HandleBlur();
      }
      if key == Escape {
        tempName := name;
        isEditing := false;
      }
    }
  }

  /** `GroupCard`: a group's heading, renamed through `onRenameGroup(group.id, name)`. */
  class GroupCard {
    var groupId: int
    var groupName: string
    var isEditing: bool
    var tempName: string

    constructor (groupId: int, groupName: string)
      ensures this.groupId == groupId && this.groupName == groupName
      ensures !isEditing && tempName == groupName
    {
      this.groupId := groupId;
      this.groupName := groupName;
      isEditing := false;
      tempName := groupName;
    }

    /** A re-render with new props: the field keeps its own text. */
    method SetProps(groupId: int, groupName: string)
      modifies this
      ensures this.groupId == groupId && this.groupName == groupName
      ensures isEditing == old(isEditing) && tempName == old(tempName)
    {
      this.groupId := groupId;
      this.groupName := groupName;
    }

    /** `handleNameClick`: start editing. */
    method HandleNameClick()
      modifies this
      ensures isEditing
      ensures tempName == old(tempName) && groupId == old(groupId) && groupName == old(groupName)
    {
      isEditing := true;
    }

    /** `handleNameChange`. */
    method HandleNameChange(value: string)
      modifies this
      ensures tempName == value
      ensures isEditing == old(isEditing) && groupId == old(groupId) && groupName == old(groupName)
    {
      tempName := value;
    }

    /**
     * `handleBlur`: editing ends; `onRenameGroup(group.id, trimmed)` only
     * for a non-empty trim that differs from the name, otherwise the text
     * reverts.
     */
    method HandleBlur() returns (rename: Option<(int, string)>)
      modifies this
      ensures rename.None? <==> RenameTo(old(tempName), groupName).None?
      ensures rename.Some? ==> rename.value == (groupId, RenameTo(old(tempName), groupName).value)
      ensures tempName == if rename.None? then groupName else old(tempName)
      ensures !isEditing && groupId == old(groupId) && groupName == old(groupName)
    {
      isEditing := false;
      var proposed := RenameTo(tempName, groupName);
      if proposed.Some? {
        rename := Some((groupId, proposed.value));
      } else {
        tempName := groupName;
        rename := None;
      }
    }

    /** `handleKeyDown`: Enter blurs the field; other keys do nothing. */
    method HandleKeyDown(key: Key) returns (rename: Option<(int, string)>)
      modifies this
      ensures key == Enter ==> (rename.None? <==> IsBlank(old(tempName)) || Trim(old(tempName)) == groupName)
      ensures key == Enter ==> rename.Some? ==> rename.value == (groupId, Trim(old(tempName)))
      ensures key == Enter ==> tempName == (if rename.None? then groupName else old(tempName)) && !isEditing
      ensures key != Enter ==> rename.None? && tempName == old(tempName) && isEditing == old(isEditing)
      ensures groupId == old(groupId) && groupName == old(groupName)
    {
      rename := None;
      if key == Enter {
        rename := HandleBlur();
      }
    }
  }

  /** `ClassManager`: the add-class form and the pending delete awaiting confirmation. */
  class ClassManager {
    var newClassName: string
    var confirmDeleteClassId: Option<int>

    constructor ()
      ensures newClassName == [] && confirmDeleteClassId == None
    {
      newClassName := [];
      confirmDeleteClassId := None;
    }

    /** The add field's `onChange`. */
    method HandleChange(value: string)
      modifies this
      ensures newClassName == value && confirmDeleteClassId == old(confirmDeleteClassId)
    {
      newClassName := value;
    }

    /**
     * `handleAddClass`: a non-blank field calls `onAddClass(trimmed)` and is
     * cleared; a blank one calls nothing and is left as it is.
     */
    method HandleAddClass() returns (addClass: Option<string>)
      modifies this
      ensures addClass.None? <==> IsBlank(old(newClassName))
      ensures addClass.Some? ==> addClass.value == Trim(old(newClassName)) && addClass.value != []
      ensures newClassName == if addClass.Some? then [] else old(newClassName)
      ensures confirmDeleteClassId == old(confirmDeleteClassId)
    {
      addClass := Committed(newClassName);
      if addClass.Some? {
        newClassName := [];
      }
    }

    /** `handleKeyDown`: Enter adds as the button does; other keys do nothing. */
    method HandleKeyDown(key: Key) returns (addClass: Option<string>)
      modifies this
      ensures key == Enter ==> (addClass == Committed(old(newClassName))
        && newClassName == (if addClass.Some? then [] else old(newClassName)))
      ensures key != Enter ==> addClass.None? && newClassName == old(newClassName)
      ensures confirmDeleteClassId == old(confirmDeleteClassId)
    {
      addClass := None;
      if key == Enter {
        addClass := HandleAddClass();
      }
    }

    /** A class's remove button: only records which class awaits confirmation. */
    method RequestDelete(classId: int)
      modifies this
      ensures confirmDeleteClassId == Some(classId) && newClassName == old(newClassName)
    {
      confirmDeleteClassId := Some(classId);
    }

    /** The Delete button of the confirmation: `onRemoveClass(pending)`, then nothing pending. */
    method ConfirmDelete() returns (removeClass: Option<int>)
      modifies this
      ensures removeClass == old(confirmDeleteClassId)
      ensures confirmDeleteClassId == None && newClassName == old(newClassName)
    {
      removeClass := confirmDeleteClassId;
      confirmDeleteClassId := None;
    }

    /** The Cancel button and a click on the overlay: nothing pending, nothing removed. */
    method DismissDelete()
      modifies this
      ensures confirmDeleteClassId == None && newClassName == old(newClassName)
    {
      confirmDeleteClassId := None;
    }

    /** The name the confirmation asks about: that of the first listed class with the pending id. */
    function PendingClassName(classes: seq<Class>): (r: Option<string>)
      reads this
      ensures confirmDeleteClassId.None? ==> r.None?
      ensures r.None? && confirmDeleteClassId.Some? ==> forall c :: c in classes ==> c.id != confirmDeleteClassId.value
      ensures r.Some? ==> exists i :: (0 <= i < |classes| && classes[i].id == confirmDeleteClassId.value
        && classes[i].name == r.value && forall j :: 0 <= j < i ==> classes[j].id != confirmDeleteClassId.value)
    {
      if confirmDeleteClassId.None? then None else FirstNamed(classes, confirmDeleteClassId.value)
    }
  }

  /** The name of the first class with this id, if any class has it. */
  function FirstNamed(classes: seq<Class>, id: int): (r: Option<string>)
    ensures r.None? ==> forall c :: c in classes ==> c.id != id
    ensures r.Some? ==> exists i :: (0 <= i < |classes| && classes[i].id == id
      && classes[i].name == r.value && forall j :: 0 <= j < i ==> classes[j].id != id)
  {
    if classes == [] then None
    else if classes[0].id == id then Some(classes[0].name)
    else
      var r := FirstNamed(classes[1..], id);
      assert r.Some? ==> exists i :: (1 <= i < |classes| && classes[i].id == id
        && classes[i].name == r.value && forall j :: 0 <= j < i ==> classes[j].id != id) by {
        if r.Some? {
          var i :| 0 <= i < |classes[1..]| && classes[1..][i].id == id
            && classes[1..][i].name == r.value && forall j :: 0 <= j < i ==> classes[1..][j].id != id;
          assert forall j :: 0 <= j < i + 1 ==> classes[j].id != id by {
            forall j | 0 <= j < i + 1 ensures classes[j].id != id {
              if j > 0 { assert classes[j] == classes[1..][j - 1]; }
            }
          }
        }
      }
      r
  }

  /** `StudentManager`: the add-student form with its capability choice. */
  class StudentManager {
    var newStudentName: string
    var newStudentCapability: Capability

    /** Mounting: an empty name and the medium capability selected. */
    constructor ()
      ensures newStudentName == [] && newStudentCapability == Medium
    {
      newStudentName := [];
      newStudentCapability := Medium;
    }

    /** The name field's `onChange`. */
    method HandleNameChange(value: string)
      modifies this
      ensures newStudentName == value && newStudentCapability == old(newStudentCapability)
    {
      newStudentName := value;
    }

    /** The capability selector's `onChange`. */
    method HandleCapabilityChange(level: Capability)
      modifies this
      ensures newStudentCapability == level && newStudentName == old(newStudentName)
    {
      newStudentCapability := level;
    }

    /**
     * `handleAddStudent`: a non-blank name calls `onAddStudent(trimmed,
     * capability)` and resets the form to an empty name and medium; a blank
     * one calls nothing and leaves the form as it is.
     */
    method HandleAddStudent() returns (addStudent: Option<(string, Capability)>)
      modifies this
      ensures addStudent.None? <==> IsBlank(old(newStudentName))
      ensures addStudent.Some? ==> (addStudent.value == (Trim(old(newStudentName)), old(newStudentCapability))
        && addStudent.value.0 != [])
      ensures addStudent.Some? ==> newStudentName == [] && newStudentCapability == Medium
      ensures addStudent.None? ==> (newStudentName == old(newStudentName)
        && newStudentCapability == old(newStudentCapability))
    {
      var committed := Committed(newStudentName);
      if committed.Some? {
        addStudent := Some((committed.value, newStudentCapability));
        newStudentName := [];
        newStudentCapability := Medium;
      } else {
        addStudent := None;
      }
    }

    /** `handleKeyDown` on the name field: Enter adds as the button does. */
    method HandleKeyDown(key: Key) returns (addStudent: Option<(string, Capability)>)
      modifies this
      ensures key == Enter ==> (addStudent.None? <==> IsBlank(old(newStudentName)))
      ensures key == Enter && addStudent.Some? ==>
        addStudent.value == (Trim(old(newStudentName)), old(newStudentCapability))
        && newStudentName == [] && newStudentCapability == Medium
      ensures key != Enter || addStudent.None? ==>
        newStudentName == old(newStudentName) && newStudentCapability == old(newStudentCapability)
      ensures key != Enter ==> addStudent.None?
    {
      addStudent := None;
      if key == Enter {
        addStudent := HandleAddStudent();
      }
    }
  }
}
