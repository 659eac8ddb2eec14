/**
 * The roster export: a CSV text made of a student section (one row per
 * student, or one placeholder row per class without students) and a
 * grouping section (one row per saved grouping of each class, or one
 * placeholder row per class without history), separated by a blank line.
 * The locale rendering of a timestamp is a parameter.
 */
module CsvExport {
  import opened Domain
  import opened Text

  /** The parts with the separator between each two of them (JavaScript's `join`). */
  function Join(parts: seq<string>, separator: string): string
  {
    if parts == [] then ""
    else if |parts| == 1 then parts[0]
    else Join(parts[..|parts| - 1], separator) + separator + parts[|parts| - 1]
  }

  /** A joined text starts with its first part. */
  lemma {:induction false} JoinStartsWithFirst(parts: seq<string>, separator: string)
    requires parts != []
    ensures |parts[0]| <= |Join(parts, separator)| && Join(parts, separator)[..|parts[0]|] == parts[0]
  {
    if |parts| > 1 {
      var init := parts[..|parts| - 1];
      JoinStartsWithFirst(init, separator);
      assert init[0] == parts[0];
      var j := Join(init, separator);
      assert Join(parts, separator) == j + separator + parts[|parts| - 1];
      assert (j + separator + parts[|parts| - 1])[..|parts[0]|] == j[..|parts[0]|];
    }
  }

  /** Joining one part more appends the separator and that part. */
  lemma JoinSnoc(parts: seq<string>, last: string, separator: string)
    requires parts != []
    ensures Join(parts + [last], separator) == Join(parts, separator) + separator + last
  {
    assert (parts + [last])[..|parts|] == parts;
  }

  /** The text wrapped in double quotes, with nothing inside escaped. */
  function Quote(text: string): (r: string)
    ensures |r| == |text| + 2 && r[0] == '"' && r[|r| - 1] == '"' && r[1..|r| - 1] == text
  {
    "\"" + text + "\""
  }

  function YesNo(present: bool): string
  {
    if present then "Yes" else "No"
  }

  /** The stored spelling of a capability level. */
  function CapabilityText(level: Capability): string
  {
    match level
    case High => "high"
    case Medium => "medium"
    case Low => "low"
  }

  /** The stored spelling of a sizing strategy. */
  function MethodText(option: GroupingOption): string
  {
    match option
    case ByGroups => "byGroups"
    case ByStudents => "byStudents"
  }

  /** A whole number as a template literal renders it. */
  function IntText(n: int): (r: string)
    ensures r != []
  {
    if n < 0 then "-" + DecimalString(-n) else DecimalString(n)
  }

  const StudentHeader: string := "Class Name,Student Name,Present,Capability Level"
  const GroupingHeader: string := "Class Name,Grouping Timestamp,Grouping Method,Grouping Value,Group Details"

  /** One row of the student section. */
  function StudentRow(cls: Class, student: Student): string
  {
    Quote(cls.name) + "," + Quote(student.name) + "," + YesNo(student.present) + "," + CapabilityText(student.capabilityLevel)
  }

  /** The rows one class contributes: one per student, or a single placeholder row. */
  function ClassStudentRows(cls: Class): (r: seq<string>)
    ensures |r| == if cls.students == [] then 1 else |cls.students|
    ensures cls.students == [] ==> r == [Quote(cls.name) + ",,,"]
    ensures forall i :: 0 <= i < |cls.students| ==> r[i] == StudentRow(cls, cls.students[i])
  {
    if cls.students == [] then [Quote(cls.name) + ",,,"]
    else seq(|cls.students|, i requires 0 <= i < |cls.students| => StudentRow(cls, cls.students[i]))
  }

  /** The rows of the student section: class after class, in list order. */
  function StudentRows(classes: seq<Class>): seq<string>
  {
    if classes == [] then [] else StudentRows(classes[..|classes| - 1]) + ClassStudentRows(classes[|classes| - 1])
  }

  /** The number of rows a list of classes needs when each class has at least one. */
  function RowsNeeded(sizes: seq<nat>): nat
  {
    if sizes == [] then 0 else RowsNeeded(sizes[..|sizes| - 1]) + (if sizes[|sizes| - 1] == 0 then 1 else sizes[|sizes| - 1])
  }

  function StudentCounts(classes: seq<Class>): (r: seq<nat>)
    ensures |r| == |classes| && forall i :: 0 <= i < |classes| ==> r[i] == |classes[i].students|
  {
    seq(|classes|, i requires 0 <= i < |classes| => |classes[i].students|)
  }

  /** The student section has, per class, max(1, number of students) rows. */
  lemma {:induction false} StudentRowCount(classes: seq<Class>)
    ensures |StudentRows(classes)| == RowsNeeded(StudentCounts(classes))
  {
    if classes != [] {
      var init := classes[..|classes| - 1];
      StudentRowCount(init);
      assert StudentCounts(classes)[..|classes| - 1] == StudentCounts(init);
    }
  }

  /** The student section text: the header, then the rows, one per line. */
  function StudentSection(classes: seq<Class>): string
  {
    Join([StudentHeader] + StudentRows(classes), "\n")
  }

  /**
   * `generateStudentCSVSection`: the nested loops pushing one row per
   * student (or one placeholder row per empty class), then the join.
   */
  method GenerateStudentSection(classes: seq<Class>) returns (text: string, rows: seq<string>)
    ensures rows == StudentRows(classes)
    ensures text == Join([StudentHeader] + rows, "\n")
  {
    rows := [];
    for i := 0 to |classes|
      invariant rows == StudentRows(classes[..i])
    {
      assert classes[..i + 1][..i] == classes[..i];
      rows := PushStudentRows(rows, classes[i]);
    }
    assert classes[..|classes|] == classes;
    text := Join([StudentHeader] + rows, "\n");
  }

  /** The inner loop of the student section: the rows of one class pushed after `rows`. */
  method PushStudentRows(rows: seq<string>, cls: Class) returns (pushed: seq<string>)
    ensures pushed == rows + ClassStudentRows(cls)
  {
    pushed := rows;
    if |cls.students| > 0 {
      for j := 0 to |cls.students|
        invariant pushed == rows + ClassStudentRows(cls)[..j]
      {
        var row := StudentRow(cls, cls.students[j]);
        RowsPrefixStep(ClassStudentRows(cls), j, row);
        pushed := pushed + [row];
      }
      assert ClassStudentRows(cls)[..|cls.students|] == ClassStudentRows(cls);
    } else {
      pushed := pushed + [Quote(cls.name) + ",,,"];
    }
  }

  /** One more row of a prefix. */
  lemma RowsPrefixStep(rows: seq<string>, j: nat, row: string)
    requires j < |rows| && rows[j] == row
    ensures rows[..j + 1] == rows[..j] + [row]
  {
  }

  /** The names of a group's students, in the group's order. */
  function Names(students: seq<Student>): (r: seq<string>)
    ensures |r| == |students| && forall i :: 0 <= i < |students| ==> r[i] == students[i].name
  {
    seq(|students|, i requires 0 <= i < |students| => students[i].name)
  }

  /** One group of the details column: "Group k: n1 / n2 ...", with k counted from 1. */
  function GroupDetail(index: nat, group: Group): string
  {
    "Group " + DecimalString(index + 1) + ": " + Join(Names(group.students), " / ")
  }

  /** The details column: every group of the entry, in order, separated by " | ". */
  function GroupDetails(groups: seq<Group>): (r: string)
  {
    Join(seq(|groups|, i requires 0 <= i < |groups| => GroupDetail(i, groups[i])), " | ")
  }

  /** The details of a grouping start with its first group, labelled "Group 1". */
  lemma GroupDetailsStartWithFirstGroup(groups: seq<Group>)
    requires groups != []
    ensures var first := GroupDetail(0, groups[0]);
      |first| <= |GroupDetails(groups)| && GroupDetails(groups)[..|first|] == first
    ensures GroupDetail(0, groups[0])[..8] == "Group 1:"
  {
    var parts := seq(|groups|, i requires 0 <= i < |groups| => GroupDetail(i, groups[i]));
    JoinStartsWithFirst(parts, " | ");
    assert DecimalString(1) == "1";
  }

  /** One row of the grouping section. */
  function EntryRow(cls: Class, entry: HistoryEntry, localTime: int -> string): string
  {
    Quote(cls.name) + "," + Quote(localTime(entry.timestamp)) + "," + MethodText(entry.groupingMethod) + ","
      + IntText(entry.value) + "," + Quote(GroupDetails(entry.groups))
  }

  /** The saved groupings the export reads for a class: unreadable or missing text reads as none. */
  function StoredEntries(histories: map<int, Stored<seq<HistoryEntry>>>, classId: int): (r: seq<HistoryEntry>)
    ensures classId in histories && histories[classId].Parsed? ==> r == histories[classId].records
    ensures !(classId in histories && histories[classId].Parsed?) ==> r == []
  {
    if classId in histories && histories[classId].Parsed? then histories[classId].records else []
  }

  /** The rows one class contributes: one per saved grouping, or a single placeholder row. */
  function ClassGroupingRows(cls: Class, entries: seq<HistoryEntry>, localTime: int -> string): (r: seq<string>)
    ensures |r| == if entries == [] then 1 else |entries|
    ensures entries == [] ==> r == [Quote(cls.name) + ",,,,"]
    ensures forall i :: 0 <= i < |entries| ==> r[i] == EntryRow(cls, entries[i], localTime)
  {
    if entries == [] then [Quote(cls.name) + ",,,,"]
    else seq(|entries|, i requires 0 <= i < |entries| => EntryRow(cls, entries[i], localTime))
  }

  function GroupingRows(classes: seq<Class>, histories: map<int, Stored<seq<HistoryEntry>>>, localTime: int -> string)
    : seq<string>
  {
    if classes == [] then []
    else
      var cls := classes[|classes| - 1];
      GroupingRows(classes[..|classes| - 1], histories, localTime)
        + ClassGroupingRows(cls, StoredEntries(histories, cls.id), localTime)
  }

  function HistoryCounts(classes: seq<Class>, histories: map<int, Stored<seq<HistoryEntry>>>): (r: seq<nat>)
    ensures |r| == |classes|
    ensures forall i :: 0 <= i < |classes| ==> r[i] == |StoredEntries(histories, classes[i].id)|
  {
    seq(|classes|, i requires 0 <= i < |classes| => |StoredEntries(histories, classes[i].id)|)
  }

  /** The grouping section has, per class, max(1, number of saved groupings) rows. */
  lemma {:induction false} GroupingRowCount(
    classes: seq<Class>, histories: map<int, Stored<seq<HistoryEntry>>>, localTime: int -> string)
    ensures |GroupingRows(classes, histories, localTime)| == RowsNeeded(HistoryCounts(classes, histories))
  {
    if classes != [] {
      var init := classes[..|classes| - 1];
      GroupingRowCount(init, histories, localTime);
      assert HistoryCounts(classes, histories)[..|classes| - 1] == HistoryCounts(init, histories);
    }
  }

  /**
   * `generateGroupingCSVSection`: for each class, its stored history is
   * read (unreadable text counts as none) and one row pushed per entry, or
   * one placeholder row; then the join.
   */
  method GenerateGroupingSection(classes: seq<Class>, histories: map<int, Stored<seq<HistoryEntry>>>, localTime: int -> string)
    returns (text: string, rows: seq<string>)
    ensures rows == GroupingRows(classes, histories, localTime)
    ensures text == Join([GroupingHeader] + rows, "\n")
  {
    rows := [];
    for i := 0 to |classes|
      invariant rows == GroupingRows(classes[..i], histories, localTime)
    {
      var cls := classes[i];
      assert classes[..i + 1][..i] == classes[..i];
      var entries: seq<HistoryEntry> := [];
      if cls.id in histories && histories[cls.id].Parsed? {
        entries := histories[cls.id].records;
      }
      rows := PushGroupingRows(rows, cls, entries, localTime);
    }
    assert classes[..|classes|] == classes;
    text := Join([GroupingHeader] + rows, "\n");
  }

  /** The inner loop of the grouping section: the rows of one class's entries pushed after `rows`. */
  method PushGroupingRows(rows: seq<string>, cls: Class, entries: seq<HistoryEntry>, localTime: int -> string)
    returns (pushed: seq<string>)
    ensures pushed == rows + ClassGroupingRows(cls, entries, localTime)
  {
    pushed := rows;
    if |entries| > 0 {
      for j := 0 to |entries|
        invariant pushed == rows + ClassGroupingRows(cls, entries, localTime)[..j]
      {
        var row := EntryRow(cls, entries[j], localTime);
        RowsPrefixStep(ClassGroupingRows(cls, entries, localTime), j, row);
        pushed := pushed + [row];
      }
      assert ClassGroupingRows(cls, entries, localTime)[..|entries|] == ClassGroupingRows(cls, entries, localTime);
    } else {
      pushed := pushed + [Quote(cls.name) + ",,,,"];
    }
  }

  function GroupingSection(classes: seq<Class>, histories: map<int, Stored<seq<HistoryEntry>>>, localTime: int -> string)
    : string
  {
    Join([GroupingHeader] + GroupingRows(classes, histories, localTime), "\n")
  }

  /** Each section starts with its header line. */
  lemma SectionStartsWithHeader(header: string, rows: seq<string>)
    ensures |header| <= |Join([header] + rows, "\n")| && Join([header] + rows, "\n")[..|header|] == header
  {
    JoinStartsWithFirst([header] + rows, "\n");
  }

  /** The exported text: the student section, a blank line, the grouping section. */
  method Export(classes: seq<Class>, histories: map<int, Stored<seq<HistoryEntry>>>, localTime: int -> string)
    returns (csv: string)
    ensures csv == StudentSection(classes) + "\n\n" + GroupingSection(classes, histories, localTime)
  {
    var studentSection, studentRows := GenerateStudentSection(classes);
    var groupingSection, groupingRows := GenerateGroupingSection(classes, histories, localTime);
    csv := studentSection + "\n\n" + groupingSection;
  }
}
