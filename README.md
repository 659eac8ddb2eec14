# Student grouper: a verified model of its grouping, history, roster and export logic

The student grouper is a single-page web application for teachers. A teacher
keeps classes of students. Each student has a capability level (high, medium or
low) and a present flag. The teacher splits the present students of a class into
balanced groups and edits the result by renaming groups and dragging students
between them. Each grouping is saved in a per-class history that can be reopened,
edited and deleted, and everything can be exported as a CSV file. All data lives
in the browser's key/value store.

This project models that logic in Dafny and proves what it promises:

- `domain.dfy` (module `Domain`) holds the entities. These are the student, the
  class, the group and the history entry, plus `Option`, `Result` and `Stored`.
  `Stored` is what a store key holds once read: nothing, unparsable text, or
  parsed records. The module also defines the flattening of a grouping into its
  members.
- `text.dfy` (module `Text`) covers the string operations the forms rely on:
  ECMAScript `trim` and its whitespace set, blank tests, the decimal rendering
  of a number, and base-10 parsing of a digits-only input.
- `generator.dfy` (module `Generator`) is the group generator:
  - validation of the sizing parameter and the number of groups it yields;
  - the capability buckets;
  - the round-robin interleave of the shuffled buckets, as a loop method;
  - the deal of the interleaved list into groups by position modulo the group
    count, as a loop method;
  - the default group names, as a loop method.

  The shuffle is random in the application. Here each shuffled bucket is an
  input that must be a permutation of its bucket, so every property holds for
  every outcome of the shuffle.
- `history.dfy` (module `History`) holds the pure operations on a class's history:
  - upsert by id (the grouping tool's save);
  - replace by id (the history view's save);
  - delete by id;
  - the newest-first sort;
  - the conversion between a saved entry's groups and the editor's lists and name map;
  - moving a dragged student between groups.

  It also holds the store of histories as a class (`HistoryStore`), one key per class id.
- `grouping_tool.dfy` (module `GroupingToolView`) models the grouping tool
  component as a class. Its fields are the component's state, and its methods
  are the handlers: generate, save, close, Escape, drag start and drop, input
  change, option choice and group rename.
- `group_history.dfy` (module `GroupHistoryView`) models the history view
  component the same way: load, open, drag and drop, save, delete, close and
  rename.
- `roster.dfy` (module `Roster`) covers the home page's class list as pure
  updates: load normalisation, add, remove and rename a class, and add, remove
  and toggle a student. The current page (`Home`) and its older variant
  (`LegacyHome`, with no rename and no load flag) are classes whose handlers
  assign those updates and keep the selected class one of the listed classes.
- `csv_export.dfy` (module `CsvExport`) is the CSV export. Its two sections are
  built by nested loop methods, proved equal to row functions whose row counts
  are computed.
- `editors.dfy` (module `Editors`) holds the small edit and commit state machines:
  - the inline group-name and class-name editors;
  - the group card;
  - the class manager's add form and two-step delete;
  - the student manager's add form.

Clocks and the shuffle are handler parameters. A callback a handler calls on
its parent is returned as an `Option` of its arguments. The browser store is
the `HistoryStore` object, or a `Stored` value read from it.

## Model

| member | source | states |
|---|---|---|
| Text.Trim | components/ClassManager.tsx:29-30 | The result is the part of the text that starts at the first non-whitespace character, with only whitespace before it and after it. It neither starts nor ends with whitespace. |
| Text.TrimEmptyIffBlank | components/ClassManager.tsx:29 | The trimmed text is empty exactly when the text is all whitespace, which is when the forms treat it as falsy. |
| Text.TrimIdempotent | components/EditableClassName.tsx:17-18 | Trimming a trimmed text changes nothing. |
| Text.DigitsValueOfDecimal | components/GroupingTool.tsx:240-247 | Parsing base 10 the decimal text of a number gives the number back. |
| Text.DecimalStringInjective | components/GroupingTool.tsx:115 | Distinct numbers render as distinct decimal texts. |
| Domain.TotalSizeIsFlattenedLength | components/GroupHistory.tsx:184 | Summing the group lengths counts exactly the members of the flattened grouping. |
| Generator.NumberOfGroups | components/GroupingTool.tsx:35-97 | The request is accepted exactly when there are students and the parameter lies between 1 and the number of students. Each rejection yields its own error. An accepted count is the parameter (by groups) or the ceiling of students over the parameter (by students), between 1 and the number of students. |
| Generator.CeilingDivision | components/GroupingTool.tsx:96 | The integer expression used for the ceiling is the fewest groups of at most k that hold n students, and it lies between 1 and n. |
| Generator.Bucket | components/GroupingTool.tsx:62-64 | A bucket holds exactly the students of its level, each as often as in the roster. |
| Generator.BucketsPartition | components/GroupingTool.tsx:62-64 | The three buckets together hold exactly the students. |
| Generator.InterleavedIsPermutation | components/GroupingTool.tsx:80-87 | The round-robin interleave is a permutation of the three buckets together. |
| Generator.Interleave | components/GroupingTool.tsx:81-87 | The push loop builds exactly the interleaved list, a permutation of the buckets. |
| Generator.ShuffledBucketsPartition | components/GroupingTool.tsx:70-87 | Whatever order the shuffle leaves, the interleaved list is a permutation of the students. |
| Generator.DealIsBalanced | components/GroupingTool.tsx:104-108 | Dealing by index modulo k gives group sizes that differ by at most one. With at most n groups, no group is empty. |
| Generator.DealtGroupsBalanced | components/GroupingTool.tsx:104-108 | Groups with the sizes of a deal are balanced, and non-empty when there are no more groups than students. |
| Generator.Distribute | components/GroupingTool.tsx:101-108 | The deal loop makes the requested number of groups. Each student at position i ends at place i / k of group i mod k, the group sizes are those of the deal, and the groups hold exactly the combined list. |
| Generator.GroupLabelsDistinct | components/GroupingTool.tsx:112-116 | Different group positions get different default names. |
| Generator.DefaultNames | components/GroupingTool.tsx:112-116 | Every group index k, and no other key, is named "Group k+1". |
| Generator.Generate | components/GroupingTool.tsx:32-116 | The generator fails exactly when validation fails, and with its error. On success it returns the validated number of groups. Those groups hold exactly the students, none is empty and their sizes differ by at most one. They are the round-robin deal of the interleaved buckets and carry the default names. |
| History.IndexOfId | components/GroupingTool.tsx:152 | The search returns -1 exactly when no entry has the id, and otherwise the first position holding it. |
| History.Upserted | components/GroupingTool.tsx:152-159 | The first entry with the id is replaced, or the entry is appended when there is none. Afterwards the entry is found under its id, entries of other ids are untouched, and unique ids stay unique. When the id was present, every other position keeps its entry and the entry stays at the same position. |
| History.UpsertTouchesOnlyItsId | components/GroupingTool.tsx:152-159 | Apart from entries of the saved id, the history after a save is the history before it. |
| History.Deleted | components/GroupHistory.tsx:220 | No entry of the deleted id remains, and the list does not grow. |
| History.DeletedCounts | components/GroupHistory.tsx:220 | Every entry of another id is kept as often as it occurred. None of the deleted id is kept. |
| History.DeletedAppend | components/GroupHistory.tsx:220 | Deleting works entry by entry, so the kept entries keep their order. |
| History.DeletedAbsent | components/GroupHistory.tsx:220 | Deleting an id no entry has changes nothing. |
| History.DeletedIdempotent | components/GroupHistory.tsx:220 | Deleting twice is deleting once. |
| History.ReplacedById | components/GroupHistory.tsx:188-190 | Replacing by id keeps the length of the history. |
| History.ReplacedByIdPositions | components/GroupHistory.tsx:188-190 | Each entry of the id becomes the replacement, and every other entry stays at its position. |
| History.ReplaceTouchesOnlyItsId | components/GroupHistory.tsx:188-190 | When the replacement keeps the id, entries of other ids are untouched. |
| History.ReplacedByIdAbsent | components/GroupHistory.tsx:173-178 | With no entry of the id, replacing changes nothing. This is the case the save refuses. |
| History.Insert | components/GroupHistory.tsx:38-40 | Inserting adds exactly the one entry. |
| History.InsertKeepsOrder | components/GroupHistory.tsx:38-40 | Inserting into a newest-first list keeps it newest first. |
| History.NewestFirst | components/GroupHistory.tsx:38-40 | The sort returns a permutation of the history, ordered by descending timestamp. |
| History.NewestFirstOfSorted | components/GroupHistory.tsx:38-40 | A list already newest first comes back unchanged. |
| History.InsertSavedAt | components/GroupHistory.tsx:38-40 | An inserted entry comes ahead of every entry with the same timestamp, and the other entries with that timestamp keep their order. |
| History.NewestFirstIsStable | components/GroupHistory.tsx:38-40 | The sort is stable: for every timestamp, the entries saved at that time keep their relative order from the saved history. |
| History.StudentLists | components/GroupHistory.tsx:60 | One list per saved group, holding that group's students. |
| History.NameMap | components/GroupHistory.tsx:63-66 | The name map has exactly the group positions as keys, each mapped to its group's name. |
| History.Labelled | components/GroupingTool.tsx:137-141 | Saving makes one group per list: group i has id i, the name at i and the list at i. |
| History.LabelledRoundTrip | components/GroupHistory.tsx:57-73 | Reopening a saved grouping gives back the lists and the names that were saved. |
| History.LoadedRoundTrip | components/GroupHistory.tsx:167-171 | Saving a reopened grouping whose group ids are their positions gives back its groups. |
| History.EditedEntry | components/GroupHistory.tsx:180-185 | The edited entry keeps the stored id, method and value. It gets the new timestamp and the edited lists, and its student count is the members of the lists. Its groups are the edited lists labelled with their positions and edited names. |
| History.RenamedAt | components/GroupHistory.tsx:276-283 | Only the group at the index takes the new name. Ids and members stay. |
| History.WithStudents | components/GroupHistory.tsx:139-147 | Each group keeps its id and name and takes the list at its index. |
| History.StudentIndex | components/GroupingTool.tsx:225 | The search returns -1 exactly when no student of the group has the id, and otherwise the first position holding it. |
| History.GroupIndexOf | components/GroupingTool.tsx:206-208 | The search returns -1 exactly when no group holds the id, and otherwise the first group holding it. |
| History.RemoveAt | components/GroupingTool.tsx:224-227 | Removing one element loses exactly that element. |
| History.Dragged | components/GroupingTool.tsx:224-227 | The dragged student has the dragged id. |
| History.Moved | components/GroupingTool.tsx:220-230 | After a drop the source group loses the dragged student, the destination gets it at its end, and every other group is unchanged. |
| History.MoveKeepsStudents | components/GroupingTool.tsx:220-230 | A drop keeps every student with its multiplicity, and the total count. |
| History.HistoryStore.Write | components/GroupingTool.tsx:161 | A write changes only the key of its class. |
| GroupingToolView.GroupingTool.constructor | components/GroupingTool.tsx:20-29 | The initial state: by groups, empty input, 2 groups, 4 per group, nothing generated, no modal, no drag, no error, no id. |
| GroupingToolView.GroupingTool.GenerateGroups | components/GroupingTool.tsx:32-124 | A rejected request changes only the inline error, or nothing at all when there are no students. An accepted one shows a balanced partition of the students under the new id and clears the error. The number of groups is the one computed from the option and its parameter, and group i is named "Group i+1". |
| GroupingToolView.GroupingTool.Show | components/GroupingTool.tsx:118-123 | The state updates after generation: an error shows its message, and a result shows its groups and names in the modal under the new id. |
| GroupingToolView.GroupingTool.CurrentEntry | components/GroupingTool.tsx:137-150 | The saved entry carries the grouping id, the time, the method, the chosen parameter, the student count and the groups on screen, each labelled with its position and its current name. |
| GroupingToolView.GroupingTool.SaveGroupingHistory | components/GroupingTool.tsx:127-164 | Without a class or an id nothing is written. Unparsable stored text throws and writes nothing. Otherwise the class's history (empty when missing) gets the current entry upserted by id, and no other key changes. |
| GroupingToolView.GroupingTool.CloseModal | components/GroupingTool.tsx:167-175 | The modal saves and notifies only when an id is set. With a class and readable stored history, the store then holds that history with the current entry upserted by id. Without a class, or when the save threw, the store is unchanged. Afterwards the modal is hidden and the id and the drag are cleared, unless the save threw. |
| GroupingToolView.GroupingTool.PressEscape | components/GroupingTool.tsx:178-194 | Escape only hides the modal. It saves nothing and keeps the id. |
| GroupingToolView.GroupingTool.HandleDragStart | components/GroupingTool.tsx:197-199 | The dragged id is recorded and nothing else changes. |
| GroupingToolView.GroupingTool.HandleDragEnd | components/GroupingTool.tsx:202-234 | Without a drag, nothing happens. A student found nowhere, or a drop on its own group, only ends the drag. Otherwise the student moves to the end of the destination. Every student is kept, and the names, modal and id stay. |
| GroupingToolView.GroupingTool.HandleInputChange | components/GroupingTool.tsx:237-260 | Digits-only text is kept and parsed base 10 (empty gives 0) into the active strategy's parameter, and the error is cleared. Other text only sets the error. |
| GroupingToolView.GroupingTool.ChooseOption | components/GroupingTool.tsx:277-303 | Clicking the radio of the option already selected changes nothing, since a checked radio fires no change. Clicking the other one selects it, empties the input, resets that option's parameter to its default and clears the error. |
| GroupingToolView.GroupingTool.HandleGroupNameChange | components/GroupingTool.tsx:263-270 | Only the name at the index changes, and every group keeps a name. |
| GroupHistoryView.TakeFirst | components/GroupHistory.tsx:100-110 | The search loop finds the first group holding the id and removes that student's first occurrence. It returns -1, with the groups unchanged, when there is none. |
| GroupHistoryView.GroupHistory.constructor | components/GroupHistory.tsx:17-22 | The initial state: an empty list, nothing open, no drag. |
| GroupHistoryView.GroupHistory.LoadGroupHistory | components/GroupHistory.tsx:25-49 | No class, nothing stored, or unparsable text give the empty list. Otherwise the list is the stored entries sorted newest first, a permutation of them. |
| GroupHistoryView.GroupHistory.LoadGrouping | components/GroupHistory.tsx:57-73 | Opening an entry makes its lists and names the editor's, sets its id and clears the drag. |
| GroupHistoryView.GroupHistory.HandleDragStart | components/GroupHistory.tsx:76-78 | The dragged id is recorded and nothing else changes. |
| GroupHistoryView.GroupHistory.HandleDragEnd | components/GroupHistory.tsx:81-154 | Without a drag or an open grouping, nothing happens. A destination out of range, or a student in no group, is rejected with the drag kept. A drop on the source group ends the drag. Otherwise the student moves to the end of the destination and the open grouping takes the new lists. Every student is kept. |
| GroupHistoryView.GroupHistory.ShowMove | components/GroupHistory.tsx:133-150 | A completed drop sets the editor's lists and the open grouping's groups, and ends the drag. |
| GroupHistoryView.GroupHistory.SaveGroupingHistory | components/GroupHistory.tsx:157-198 | Nothing is written without a class or an id, when the entry is no longer stored, or when the stored text throws. Otherwise every entry of the id is replaced by the edited entry, only that class's key changes, and the list is reloaded newest first. |
| GroupHistoryView.GroupHistory.HandleDeleteGrouping | components/GroupHistory.tsx:201-239 | With a class and parsable history, the entries of the id leave the store and the list, and an open grouping of that id is closed. Anything else changes nothing. |
| GroupHistoryView.GroupHistory.CloseModal | components/GroupHistory.tsx:242-270 | Closing (also by Escape) saves when a grouping is open. With a class and readable history still holding the grouping's id, every entry of that id is replaced by the edited entry and the list is reloaded newest first. Otherwise the store and the list are unchanged. Afterwards the grouping is closed and the drag ended, unless the save threw. |
| GroupHistoryView.GroupHistory.HandleGroupNameChange | components/GroupHistory.tsx:273-288 | The name at the index changes, both in the editor's map and in the open grouping. Nothing else changes. |
| Roster.NormalizeStudent | components/ClientHome.tsx:29-33 | A missing capability becomes medium and a missing presence becomes present. Everything else is kept. |
| Roster.Normalize | components/ClientHome.tsx:26-34 | Loading keeps each class's id, name and student order, and normalizes every student. |
| Roster.NormalizeComplete | components/ClientHome.tsx:26-34 | Loading any list of classes stored with every field present gives back the same classes. |
| Roster.FirstClassId | components/ClientHome.tsx:36-40 | The id of the first class, or none exactly when there are no classes. |
| Roster.FindClass | components/ClientHome.tsx:58 | The first class with the id, or none exactly when no class has it. |
| Roster.AddClass | components/ClientHome.tsx:61-65 | A new empty class is appended after the existing classes. |
| Roster.RemoveClass | components/ClientHome.tsx:69 | No class of the id remains, and every other class is kept. |
| Roster.RemoveClassAppend | components/ClientHome.tsx:69 | Removal works class by class, so the remaining classes keep their order. |
| Roster.RemoveAbsentClass | components/ClientHome.tsx:69 | Removing an id no class has changes nothing. |
| Roster.AddThenRemoveClass | components/ClientHome.tsx:61-74 | Removing a class just added under a fresh id restores the list. |
| Roster.SelectionAfterRemove | components/ClientHome.tsx:71-73 | Removing the selected class selects the first remaining class, or none. Any other removal keeps the selection. |
| Roster.RenameClass | components/ClientHome.tsx:77-81 | Only the names of classes with the id change. Ids and students stay. |
| Roster.RenameBack | components/ClientHome.tsx:77-81 | Renaming a class back to its old name restores the list. |
| Roster.UpdateStudents | components/ClientHome.tsx:92-96 | Only the students of the classes with the id change. Ids and names stay. |
| Roster.WithoutStudent | components/ClientHome.tsx:106 | No student of the id remains. |
| Roster.WithoutStudentCounts | components/ClientHome.tsx:106 | Every other student is kept as often as it occurred. |
| Roster.WithoutStudentAppend | components/ClientHome.tsx:106 | Removal works student by student, so the others keep their order. |
| Roster.WithoutAbsentStudent | components/ClientHome.tsx:106 | Removing an id no student has changes nothing. |
| Roster.Toggled | components/ClientHome.tsx:121-123 | Exactly the students with the id have their presence flipped. |
| Roster.ToggleTwice | components/ClientHome.tsx:121-123 | Toggling twice restores the students. |
| Roster.AddStudent | components/ClientHome.tsx:84-98 | With a selected class, a present student is appended to that class only. Without one, nothing changes. |
| Roster.RemoveStudent | components/ClientHome.tsx:101-111 | With a selected class, the id is removed from that class only. Without one, nothing changes. |
| Roster.ToggleStudent | components/ClientHome.tsx:114-129 | With a selected class, presence flips in that class only. Without one, nothing changes. |
| Roster.ToggleStudentTwice | components/ClientHome.tsx:114-129 | Toggling the same student twice restores the whole list of classes. |
| Roster.AddThenRemoveStudent | components/ClientHome.tsx:84-111 | Removing a student just added under a fresh id restores the class's students. |
| Roster.PresentStudents | components/ClientHome.tsx:162 | Only present students are handed on, each as often as in the roster. |
| Roster.PresentStudentsAppend | components/ClientHome.tsx:162 | The present students keep their roster order. |
| Roster.AllPresent | components/ClientHome.tsx:162 | When every student is present, the whole roster is handed over. |
| Roster.KeepsSelection | components/ClientHome.tsx:84-129 | Student updates keep every class id, so the selection stays listed. |
| Roster.Home.constructor | components/ClientHome.tsx:15-19 | The initial state: no classes, no selection, key 0, not loaded. |
| Roster.Home.CurrentClass | components/ClientHome.tsx:58 | A selection names a listed class with that id, and no selection gives none. |
| Roster.Home.GroupingStudents | components/ClientHome.tsx:161-162 | The grouping tool gets exactly the present students of the current class. |
| Roster.Home.Load | components/ClientHome.tsx:22-49 | Missing data leaves the roster. Unparsable data empties it. Parsed data is normalized with the first class selected. The page is then marked loaded. |
| Roster.Home.AddClassNamed | components/ClientHome.tsx:61-65 | The new class is appended and selected. |
| Roster.Home.RemoveClassById | components/ClientHome.tsx:68-74 | The classes of the id are removed, and a removed selection moves to the first class left. The selection stays listed. |
| Roster.Home.RenameClassById | components/ClientHome.tsx:77-81 | The classes of the id are renamed, and the selection is kept. |
| Roster.Home.SelectClass | components/ClientHome.tsx:146 | A listed class becomes the selection. |
| Roster.Home.AddStudentNamed | components/ClientHome.tsx:84-98 | The student is added to the current class, and the selection stays listed. |
| Roster.Home.RemoveStudentById | components/ClientHome.tsx:101-111 | The student is removed from the current class, and the selection stays listed. |
| Roster.Home.ToggleStudentExclusion | components/ClientHome.tsx:114-129 | The presence flips in the current class, and the selection stays listed. |
| Roster.Home.TriggerGroupHistoryRefresh | components/ClientHome.tsx:132-134 | The refresh key goes up by one, and nothing else changes. |
| Roster.LegacyHome.constructor | pages/index.tsx:12-14 | The initial state: no classes, no selection, key 0. |
| Roster.LegacyHome.CurrentClass | pages/index.tsx:47 | A selection names a listed class with that id. |
| Roster.LegacyHome.GroupingStudents | pages/index.tsx:146-147 | The grouping tool gets exactly the present students of the current class. |
| Roster.LegacyHome.Load | pages/index.tsx:16-41 | The same load as the current page, without the load flag. |
| Roster.LegacyHome.AddClassNamed | pages/index.tsx:49-53 | The new class is appended and selected. |
| Roster.LegacyHome.RemoveClassById | pages/index.tsx:55-62 | The classes of the id are removed, and a removed selection moves to the first class left. |
| Roster.LegacyHome.SelectClass | pages/index.tsx:132 | A listed class becomes the selection. |
| Roster.LegacyHome.AddStudentNamed | pages/index.tsx:64-78 | The student is added to the current class. |
| Roster.LegacyHome.RemoveStudentById | pages/index.tsx:80-90 | The student is removed from the current class. |
| Roster.LegacyHome.ToggleStudentExclusion | pages/index.tsx:92-107 | The presence flips in the current class. |
| Roster.LegacyHome.TriggerGroupHistoryRefresh | pages/index.tsx:110-112 | The refresh key goes up by one. |
| CsvExport.JoinStartsWithFirst | components/CSVExportButton.tsx:31 | A joined text starts with its first part. |
| CsvExport.JoinSnoc | components/CSVExportButton.tsx:31 | Joining one more part appends the separator and the part. |
| CsvExport.Quote | components/CSVExportButton.tsx:19-20 | A quoted field is the text between two double quotes. |
| CsvExport.ClassStudentRows | components/CSVExportButton.tsx:17-29 | A class with students gives one row per student, in order. A class without students gives one row with its name and empty columns. |
| CsvExport.StudentRowCount | components/CSVExportButton.tsx:13-32 | The student section has one row per student, plus one for each empty class. |
| CsvExport.GenerateStudentSection | components/CSVExportButton.tsx:13-32 | The nested loops push exactly the class rows in class order, and the text is the header and rows joined by newlines. |
| CsvExport.PushStudentRows | components/CSVExportButton.tsx:16-30 | One class's pass appends exactly that class's rows. |
| CsvExport.Names | components/CSVExportButton.tsx:63 | The student names of a group, in order. |
| CsvExport.GroupDetailsStartWithFirstGroup | components/CSVExportButton.tsx:61-66 | The details of a grouping start with the first group, labelled "Group 1:". |
| CsvExport.StoredEntries | components/CSVExportButton.tsx:40-53 | Parsed stored entries are used, and missing or unparsable data gives none. |
| CsvExport.ClassGroupingRows | components/CSVExportButton.tsx:54-78 | A class with history gives one row per entry, in stored order. A class without gives one row with its name and empty columns. |
| CsvExport.GroupingRowCount | components/CSVExportButton.tsx:35-81 | The grouping section has one row per entry, plus one for each class without history. |
| CsvExport.GenerateGroupingSection | components/CSVExportButton.tsx:35-81 | The loops push exactly the class rows in class order, and the text is the header and rows joined by newlines. |
| CsvExport.PushGroupingRows | components/CSVExportButton.tsx:55-73 | One class's pass appends exactly that class's rows. |
| CsvExport.SectionStartsWithHeader | components/CSVExportButton.tsx:80 | Each section starts with its header. |
| CsvExport.Export | components/CSVExportButton.tsx:84-87 | The file is the student section, a blank line and the grouping section. |
| Editors.Committed | components/ClassManager.tsx:29-30 | A text is committed exactly when it is not blank, and it is committed trimmed and non-empty. |
| Editors.CommittedIsStable | components/ClassManager.tsx:29-30 | Committing a committed name commits it unchanged. |
| Editors.RenameTo | components/EditableClassName.tsx:17-22 | A rename is proposed exactly when the trimmed text is non-empty and differs from the current name, and it is the trimmed text. |
| Editors.RenameIsChangedCommit | components/GroupCard.tsx:32-37 | The rename rule is the commit rule with an unchanged name dropped. |
| Editors.EditableGroupName.constructor | components/EditableGroupName.tsx:13-14 | The editor mounts not editing, with the field holding the name. |
| Editors.EditableGroupName.SetProps | components/EditableGroupName.tsx:12-14 | New props do not reset the field's text. |
| Editors.EditableGroupName.HandleNameClick | components/EditableGroupName.tsx:16-18 | A click starts editing. |
| Editors.EditableGroupName.HandleChange | components/EditableGroupName.tsx:43 | Typing sets the field's text. |
| Editors.EditableGroupName.HandleBlur | components/EditableGroupName.tsx:20-27 | Blank text reverts and calls nothing. Other text calls the change with the index and the trimmed text, even when unchanged. Editing ends. |
| Editors.EditableGroupName.HandleKeyDown | components/EditableGroupName.tsx:29-37 | Enter acts as a blur. Escape reverts and stops editing without calling anything. Other keys do nothing. |
| Editors.EditableClassName.constructor | components/EditableClassName.tsx:13-14 | The editor mounts not editing, with the field holding the name. |
| Editors.EditableClassName.SetProps | components/EditableClassName.tsx:12-14 | New props do not reset the field's text. |
| Editors.EditableClassName.HandleDoubleClick | components/EditableClassName.tsx:49 | A double click starts editing. |
| Editors.EditableClassName.HandleChange | components/EditableClassName.tsx:40 | Typing sets the field's text. |
| Editors.EditableClassName.HandleBlur | components/EditableClassName.tsx:16-24 | The rename goes out only for a non-blank, changed trim. Otherwise the text reverts. Editing ends. |
| Editors.EditableClassName.HandleKeyDown | components/EditableClassName.tsx:26-34 | Enter acts as a blur. Escape reverts and stops editing without renaming. Other keys do nothing. |
| Editors.GroupCard.constructor | components/GroupCard.tsx:19-20 | The card mounts not editing, with the field holding the name. |
| Editors.GroupCard.SetProps | components/GroupCard.tsx:18-20 | New props do not reset the field's text. |
| Editors.GroupCard.HandleNameClick | components/GroupCard.tsx:22-24 | A click starts editing. |
| Editors.GroupCard.HandleNameChange | components/GroupCard.tsx:26-28 | Typing sets the field's text. |
| Editors.GroupCard.HandleBlur | components/GroupCard.tsx:30-38 | Editing ends. The rename goes out, with the group id, only for a non-blank, changed trim. Otherwise the text reverts. |
| Editors.GroupCard.HandleKeyDown | components/GroupCard.tsx:40-44 | Enter acts as a blur, and other keys do nothing. |
| Editors.ClassManager.constructor | components/ClassManager.tsx:25-26 | The manager mounts with an empty field and nothing pending. |
| Editors.ClassManager.HandleChange | components/ClassManager.tsx:79 | Typing sets the field. |
| Editors.ClassManager.HandleAddClass | components/ClassManager.tsx:28-33 | A non-blank field adds the trimmed name and is cleared. A blank one adds nothing and is kept. |
| Editors.ClassManager.HandleKeyDown | components/ClassManager.tsx:35-39 | Enter adds as the button does, and other keys do nothing. |
| Editors.ClassManager.RequestDelete | components/ClassManager.tsx:62-67 | The remove button only records the class awaiting confirmation. |
| Editors.ClassManager.ConfirmDelete | components/ClassManager.tsx:99-104 | Confirming removes the pending class, then nothing is pending. |
| Editors.ClassManager.DismissDelete | components/ClassManager.tsx:108 | Cancelling leaves nothing pending and removes nothing. |
| Editors.ClassManager.PendingClassName | components/ClassManager.tsx:95 | The confirmation names the first listed class with the pending id, or nothing when there is none. |
| Editors.FirstNamed | components/ClassManager.tsx:95 | The name of the first class with the id, or none exactly when no class has it. |
| Editors.StudentManager.constructor | components/StudentManager.tsx:18-19 | The form mounts with an empty name and medium capability. |
| Editors.StudentManager.HandleNameChange | components/StudentManager.tsx:73 | Typing sets the name. |
| Editors.StudentManager.HandleCapabilityChange | components/StudentManager.tsx:79 | Choosing sets the capability. |
| Editors.StudentManager.HandleAddStudent | components/StudentManager.tsx:21-27 | A non-blank name adds the trimmed name with the chosen capability and resets the form to empty and medium. A blank one adds nothing and leaves the form. |
| Editors.StudentManager.HandleKeyDown | components/StudentManager.tsx:30-34 | Enter adds as the button does, and other keys do nothing. |

## Left out

- The shuffle is not modelled as an algorithm. A random-comparator sort is any reordering of a bucket, so the shuffled buckets are inputs that must be permutations of the buckets.
- Console logging, alerts and the body-scroll locking effects are not modelled. An alert-only path is modelled as its state effect, which is none.
- Clocks are parameters: the id and timestamp a save or an add takes from the clock. Timestamps are whole numbers, and converting the stored ISO text to an instant and back is not modelled.
- The locale formatting of a timestamp in the CSV export is a parameter function.
- The browser store is a map from class id to a `Stored` value. JSON serialisation and parsing are not modelled. An empty stored string reads as `Missing`, as the source's truthiness test treats it. Parsed data of the wrong shape (not an array, or null) is not modelled.
- The CSV download (Blob, object URL, link click) is not modelled. The export ends at the text of the file.
- The persistence effects that write the class list back to the store are not modelled. Only the `hasLoaded` flag that guards them in the current page is kept.
- Removing a class does not delete its stored history in the source, and the model does not either.
- Generator.NumberOfGroups: the sizing parameters are whole numbers parsed exactly in base 10. A digit string of 309 or more digits parses to Infinity in the source, which its integer test rejects with the "valid number" message. The model instead reads such a string as a huge whole number and gives the "cannot exceed" message. The precision loss of long digit strings below that length is not modelled either.
- GroupingToolView.GroupingTool.HandleDragEnd: it requires the destination to be one of the groups. The source only rejects a destination of -1 and would fail on any other missing index.
- GroupHistoryView.GroupHistory.HandleDragEnd: a destination that does not parse as a number is modelled as an integer outside the groups. That input is rejected the same way. The source's later check that the destination group exists can never fail after its range check, so it is not modelled.
- GroupHistoryView.GroupHistory.CloseModal: Escape is modelled as this close. The key handler is re-registered only when the open grouping changes, and the stale state it may then see is not modelled.
- Roster.Home.SelectClass and Roster.LegacyHome.SelectClass: they require a listed class, because the selector only offers listed classes.
- The older page passes no rename callback to the class manager, so it has no rename handler in the model.
- The heading's Enter key (components/EditableGroupName.tsx:56-58) is the same as Editors.EditableGroupName.HandleNameClick and has no member of its own.
- History.NewestFirst: it is an insertion sort on the entries' whole-number timestamps, where the source sorts on dates parsed from their text. Its stability is proved by History.NewestFirstIsStable.
- The purely presentational components (layout, info button, instructions, the drag-and-drop wrappers and the shuffling animation) are not part of this model.
