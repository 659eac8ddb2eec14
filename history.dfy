/**
 * The grouping history of a class and the editing of a grouping's groups:
 * lookup and upsert by id, replace by id, delete by id, the newest-first
 * order the history list is shown in, the conversion between the groups of
 * a saved entry and the editor's lists and name map, and moving one student
 * between groups. The browser store holding one history per class is the
 * `HistoryStore` class at the end.
 */
module History {
  import opened Domain

  /** The first position whose entry has this id, or -1 (the history's `findIndex`). */
  function IndexOfId(history: seq<HistoryEntry>, id: int): (r: int)
    ensures -1 <= r < |history|
    ensures r == -1 <==> forall i :: 0 <= i < |history| ==> history[i].id != id
    ensures r >= 0 ==> history[r].id == id && forall i :: 0 <= i < r ==> history[i].id != id
  {
    if history == [] then -1
    else if history[0].id == id then 0
    else
      var r := IndexOfId(history[1..], id);
      if r == -1 then -1 else r + 1
  }

  /** `k` is the first position holding `id`, so it is what `findIndex` returns. */
  lemma IndexOfIdIs(history: seq<HistoryEntry>, id: int, k: nat)
    requires k < |history| && history[k].id == id
    requires forall i :: 0 <= i < k ==> history[i].id != id
    ensures IndexOfId(history, id) == k
  {
  }

  /** No two entries share an id. */
  predicate UniqueIds(history: seq<HistoryEntry>)
  {
    forall i, j :: 0 <= i < j < |history| ==> history[i].id != history[j].id
  }

  /**
   * The grouping tool's save: the first entry with the new entry's id is
   * replaced in place, and when there is none the entry is appended.
   */
  function Upserted(history: seq<HistoryEntry>, entry: HistoryEntry): (r: seq<HistoryEntry>)
    ensures IndexOfId(history, entry.id) >= 0 ==> |r| == |history|
    ensures IndexOfId(history, entry.id) == -1 ==> |r| == |history| + 1
    ensures IndexOfId(r, entry.id) >= 0 && r[IndexOfId(r, entry.id)] == entry
    ensures forall i :: 0 <= i < |history| && i != IndexOfId(history, entry.id) ==> r[i] == history[i]
    ensures IndexOfId(history, entry.id) >= 0 ==> IndexOfId(r, entry.id) == IndexOfId(history, entry.id)
    ensures forall i :: 0 <= i < |history| && history[i].id != entry.id ==> r[i] == history[i]
    ensures UniqueIds(history) ==> UniqueIds(r)
  {
    var index := IndexOfId(history, entry.id);
    if index != -1 then
      IndexOfIdIs(history[index := entry], entry.id, index);
      history[index := entry]
    else
      IndexOfIdIs(history + [entry], entry.id, |history|);
      history + [entry]
  }

  /** The history without the entries of this id, the others in their order. */
  function Deleted(history: seq<HistoryEntry>, id: int): (r: seq<HistoryEntry>)
    ensures |r| <= |history|
    ensures forall i :: 0 <= i < |r| ==> r[i].id != id
  {
    if history == [] then []
    else (if history[0].id == id then [] else [history[0]]) + Deleted(history[1..], id)
  }

  /** Deleting keeps every entry of another id as often as it occurred, and none of this id. */
  lemma {:induction false} DeletedCounts(history: seq<HistoryEntry>, id: int)
    ensures forall e: HistoryEntry :: e.id != id ==> multiset(Deleted(history, id))[e] == multiset(history)[e]
    ensures forall e: HistoryEntry :: e.id == id ==> multiset(Deleted(history, id))[e] == 0
  {
    if history != [] {
      DeletedCounts(history[1..], id);
      assert history == [history[0]] + history[1..];
    }
  }

  /** Deleting works entry by entry: the kept entries keep their order. */
  lemma {:induction false} DeletedAppend(a: seq<HistoryEntry>, b: seq<HistoryEntry>, id: int)
    ensures Deleted(a + b, id) == Deleted(a, id) + Deleted(b, id)
  {
    if a == [] {
      assert a + b == b;
    } else {
      assert (a + b)[1..] == a[1..] + b;
      DeletedAppend(a[1..], b, id);
    }
  }

  /** Deleting an id no entry has leaves the history as it was. */
  lemma {:induction false} DeletedAbsent(history: seq<HistoryEntry>, id: int)
    requires IndexOfId(history, id) == -1
    ensures Deleted(history, id) == history
  {
    if history != [] {
      DeletedAbsent(history[1..], id);
      assert [history[0]] + history[1..] == history;
    }
  }

  /** Deleting twice is deleting once. */
  lemma DeletedIdempotent(history: seq<HistoryEntry>, id: int)
    ensures Deleted(Deleted(history, id), id) == Deleted(history, id)
  {
    DeletedAbsent(Deleted(history, id), id);
  }

  /** Overwriting an entry of id `id` with another of that id is invisible once `id` is deleted. */
  lemma {:induction false} DeletedIgnoresUpdate(history: seq<HistoryEntry>, i: nat, entry: HistoryEntry)
    requires i < |history| && history[i].id == entry.id
    ensures Deleted(history[i := entry], entry.id) == Deleted(history, entry.id)
  {
    if i > 0 {
      DeletedIgnoresUpdate(history[1..], i - 1, entry);
      assert history[i := entry][1..] == history[1..][i - 1 := entry];
    }
  }

  /** Saving in the grouping tool touches no entry with another id. */
  lemma UpsertTouchesOnlyItsId(history: seq<HistoryEntry>, entry: HistoryEntry)
    ensures Deleted(Upserted(history, entry), entry.id) == Deleted(history, entry.id)
  {
    var index := IndexOfId(history, entry.id);
    if index != -1 {
      DeletedIgnoresUpdate(history, index, entry);
    } else {
      DeletedAppend(history, [entry], entry.id);
      assert Deleted([entry], entry.id) == [];
    }
  }

  /** The history view's save: every entry of this id becomes the replacement, the others stay. */
  function ReplacedById(history: seq<HistoryEntry>, id: int, replacement: HistoryEntry): (r: seq<HistoryEntry>)
    ensures |r| == |history|
  {
    if history == [] then []
    else [if history[0].id == id then replacement else history[0]] + ReplacedById(history[1..], id, replacement)
  }

  /**
   * Replacing by id keeps every position: the entries with that id become
   * the replacement, all others stay.
   */
  lemma {:induction false} ReplacedByIdPositions(history: seq<HistoryEntry>, id: int, replacement: HistoryEntry)
    ensures forall i :: 0 <= i < |history| && history[i].id == id ==> ReplacedById(history, id, replacement)[i] == replacement
    ensures forall i :: 0 <= i < |history| && history[i].id != id ==> ReplacedById(history, id, replacement)[i] == history[i]
  {
    if history != [] {
      ReplacedByIdPositions(history[1..], id, replacement);
      var r := ReplacedById(history, id, replacement);
      forall i | 0 <= i < |history|
        ensures r[i] == if history[i].id == id then replacement else history[i]
      {
        if i > 0 {
          assert r[i] == ReplacedById(history[1..], id, replacement)[i - 1];
        }
      }
    }
  }

  /** When the replacement keeps the id, replacing is invisible once that id is deleted. */
  lemma {:induction false} ReplaceTouchesOnlyItsId(history: seq<HistoryEntry>, replacement: HistoryEntry)
    ensures Deleted(ReplacedById(history, replacement.id, replacement), replacement.id) == Deleted(history, replacement.id)
  {
    if history != [] {
      ReplaceTouchesOnlyItsId(history[1..], replacement);
    }
  }

  /** With no entry of that id, replacing by id changes nothing. */
  lemma {:induction false} ReplacedByIdAbsent(history: seq<HistoryEntry>, id: int, replacement: HistoryEntry)
    requires IndexOfId(history, id) == -1
    ensures ReplacedById(history, id, replacement) == history
  {
    if history != [] {
      ReplacedByIdAbsent(history[1..], id, replacement);
      assert [history[0]] + history[1..] == history;
    }
  }

  /** The list is ordered by timestamp, newest first. */
  predicate NewestFirstOrder(history: seq<HistoryEntry>)
  {
    forall i, j :: 0 <= i < j < |history| ==> history[i].timestamp >= history[j].timestamp
  }

  /** Places `entry` before the first entry that is not newer than it. */
  function Insert(entry: HistoryEntry, sorted: seq<HistoryEntry>): (r: seq<HistoryEntry>)
    ensures multiset(r) == multiset(sorted) + multiset{entry}
  {
    if sorted == [] then [entry]
    else if sorted[0].timestamp <= entry.timestamp then [entry] + sorted
    else
      assert sorted == [sorted[0]] + sorted[1..];
      [sorted[0]] + Insert(entry, sorted[1..])
  }

  /** Inserting into a newest-first list keeps it newest first. */
  lemma {:induction false} InsertKeepsOrder(entry: HistoryEntry, sorted: seq<HistoryEntry>)
    requires NewestFirstOrder(sorted)
    ensures NewestFirstOrder(Insert(entry, sorted))
  {
    if sorted != [] && sorted[0].timestamp > entry.timestamp {
      var rest := Insert(entry, sorted[1..]);
      InsertKeepsOrder(entry, sorted[1..]);
      forall x | x in rest ensures x.timestamp <= sorted[0].timestamp {
        assert x in multiset(rest);
        if x != entry {
          assert x in multiset(sorted[1..]);
        }
      }
    }
  }

  /**
   * The list's sort by descending timestamp: a stable sort, newest
   * first, written as an insertion sort.
   */
  function NewestFirst(history: seq<HistoryEntry>): (r: seq<HistoryEntry>)
    ensures multiset(r) == multiset(history)
    ensures NewestFirstOrder(r)
  {
    if history == [] then []
    else
      assert history == [history[0]] + history[1..];
      InsertKeepsOrder(history[0], NewestFirst(history[1..]));
      Insert(history[0], NewestFirst(history[1..]))
  }

  /** A list already newest first is left as it is. */
  lemma {:induction false} NewestFirstOfSorted(history: seq<HistoryEntry>)
    requires NewestFirstOrder(history)
    ensures NewestFirst(history) == history
  {
    if history != [] {
      NewestFirstOfSorted(history[1..]);
      var rest := history[1..];
      if rest != [] {
        assert rest[0] == history[1];
      }
    }
  }

  /** The entries saved at time `t`, in their order in `history`. */
  function SavedAt(history: seq<HistoryEntry>, t: int): seq<HistoryEntry>
  {
    if history == [] then []
    else (if history[0].timestamp == t then [history[0]] else []) + SavedAt(history[1..], t)
  }

  /**
   * Inserting `entry` puts it ahead of every entry saved at the same time,
   * since it goes before the first entry not newer than itself.
   */
  lemma {:induction false} InsertSavedAt(entry: HistoryEntry, sorted: seq<HistoryEntry>, t: int)
    ensures SavedAt(Insert(entry, sorted), t)
      == (if entry.timestamp == t then [entry] else []) + SavedAt(sorted, t)
  {
    var r := Insert(entry, sorted);
    if sorted == [] {
    } else if sorted[0].timestamp <= entry.timestamp {
      assert r[0] == entry && r[1..] == sorted;
    } else {
      var rest := Insert(entry, sorted[1..]);
      assert r[0] == sorted[0] && r[1..] == rest;
      InsertSavedAt(entry, sorted[1..], t);
      var head := if sorted[0].timestamp == t then [sorted[0]] else [];
      var mine := if entry.timestamp == t then [entry] else [];
      assert SavedAt(r, t) == head + SavedAt(rest, t);
      assert SavedAt(sorted, t) == head + SavedAt(sorted[1..], t);
      assert head == [] || mine == [];
    }
  }

  /**
   * The sort is stable: for every timestamp, the entries saved at that time
   * keep their relative order.
   */
  lemma {:induction false} NewestFirstIsStable(history: seq<HistoryEntry>, t: int)
    ensures SavedAt(NewestFirst(history), t) == SavedAt(history, t)
  {
    if history != [] {
      InsertSavedAt(history[0], NewestFirst(history[1..]), t);
      NewestFirstIsStable(history[1..], t);
    }
  }

  /** The student lists of a saved entry's groups, one list per group, in order. */
  function StudentLists(groups: seq<Group>): (r: seq<seq<Student>>)
    ensures |r| == |groups|
    ensures forall i :: 0 <= i < |groups| ==> r[i] == groups[i].students
  {
    seq(|groups|, i requires 0 <= i < |groups| => groups[i].students)
  }

  /** The name map a loaded grouping starts with: index to the group's name. */
  function NameMap(groups: seq<Group>): (r: map<int, string>)
    ensures forall i :: i in r <==> 0 <= i < |groups|
    ensures forall i :: 0 <= i < |groups| ==> r[i] == groups[i].name
  {
    map i | 0 <= i < |groups| :: groups[i].name
  }

  /** Every group position has a name. */
  predicate Named(groups: seq<seq<Student>>, names: map<int, string>)
  {
    forall i :: 0 <= i < |groups| ==> i in names
  }

  /** The groups as saved: `{ id: index, name: groupNames[index], students: group }`. */
  function Labelled(groups: seq<seq<Student>>, names: map<int, string>): (r: seq<Group>)
    requires Named(groups, names)
    ensures |r| == |groups|
    ensures forall i :: 0 <= i < |groups| ==> r[i].id == i && r[i].name == names[i] && r[i].students == groups[i]
  {
    seq(|groups|, i requires 0 <= i < |groups| => Group(i, names[i], groups[i]))
  }

  /** Saving and then loading a grouping gives back its lists and names. */
  lemma LabelledRoundTrip(groups: seq<seq<Student>>, names: map<int, string>)
    requires Named(groups, names)
    ensures StudentLists(Labelled(groups, names)) == groups
    ensures forall i :: i in NameMap(Labelled(groups, names)) <==> 0 <= i < |groups|
    ensures forall i :: 0 <= i < |groups| ==> NameMap(Labelled(groups, names))[i] == names[i]
  {
  }

  /** Loading and then saving a grouping whose group ids are their positions gives back its groups. */
  lemma LoadedRoundTrip(groups: seq<Group>)
    requires forall i :: 0 <= i < |groups| ==> groups[i].id == i
    ensures Labelled(StudentLists(groups), NameMap(groups)) == groups
  {
  }

  /**
   * The history view's updated entry: the stored entry with its id, method
   * and value, a new timestamp, the edited groups and their total size.
   */
  function EditedEntry(existing: HistoryEntry, groups: seq<seq<Student>>, names: map<int, string>, now: int)
    : (r: HistoryEntry)
    requires Named(groups, names)
    ensures r.id == existing.id && r.groupingMethod == existing.groupingMethod && r.value == existing.value
    ensures r.timestamp == now
    ensures r.numberOfStudents == |Flatten(groups)|
    ensures r.groups == Labelled(groups, names) && StudentLists(r.groups) == groups
  {
    TotalSizeIsFlattenedLength(groups);
    existing.(timestamp := now, groups := Labelled(groups, names), numberOfStudents := TotalSize(groups))
  }

  /** The renamed groups of the open grouping: only the group at `index` gets the new name. */
  function RenamedAt(groups: seq<Group>, index: int, name: string): (r: seq<Group>)
    ensures |r| == |groups|
    ensures forall i :: 0 <= i < |groups| ==> r[i].id == groups[i].id && r[i].students == groups[i].students
    ensures forall i :: 0 <= i < |groups| ==> r[i].name == if i == index then name else groups[i].name
  {
    seq(|groups|, i requires 0 <= i < |groups| => if i == index then groups[i].(name := name) else groups[i])
  }

  /** The open grouping after a move: each group keeps its id and name and takes the list at its index. */
  function WithStudents(groups: seq<Group>, lists: seq<seq<Student>>): (r: seq<Group>)
    requires |lists| == |groups|
    ensures StudentLists(r) == lists
    ensures forall i :: 0 <= i < |groups| ==> r[i].id == groups[i].id && r[i].name == groups[i].name
  {
    seq(|groups|, i requires 0 <= i < |groups| => groups[i].(students := lists[i]))
  }

  /**
   * The first position in one group holding a student with this id, or -1:
   * the same `findIndex` by id as `IndexOfId`, over students instead of entries.
   */
  function StudentIndex(group: seq<Student>, id: int): (r: int)
    ensures -1 <= r < |group|
    ensures r == -1 <==> forall i :: 0 <= i < |group| ==> group[i].id != id
    ensures r >= 0 ==> group[r].id == id && forall i :: 0 <= i < r ==> group[i].id != id
  {
    if group == [] then -1
    else if group[0].id == id then 0
    else
      var r := StudentIndex(group[1..], id);
      if r == -1 then -1 else r + 1
  }

  /** The first group holding a student with this id, or -1. */
  function GroupIndexOf(groups: seq<seq<Student>>, id: int): (r: int)
    ensures -1 <= r < |groups|
    ensures r == -1 <==> forall g :: 0 <= g < |groups| ==> StudentIndex(groups[g], id) == -1
    ensures r >= 0 ==> StudentIndex(groups[r], id) >= 0 && forall g :: 0 <= g < r ==> StudentIndex(groups[g], id) == -1
  {
    if groups == [] then -1
    else if StudentIndex(groups[0], id) != -1 then 0
    else
      var r := GroupIndexOf(groups[1..], id);
      if r == -1 then -1 else r + 1
  }

  /** `splice(index, 1)`: the list without its element at `index`. */
  function RemoveAt(s: seq<Student>, index: nat): (r: seq<Student>)
    requires index < |s|
    ensures |r| == |s| - 1
    ensures multiset(r) + multiset{s[index]} == multiset(s)
  {
    assert s == s[..index] + [s[index]] + s[index + 1..];
    s[..index] + s[index + 1..]
  }

  /** The student a drag of `id` takes: the first one with that id in the first group holding one. */
  function Dragged(groups: seq<seq<Student>>, id: int): (s: Student)
    requires GroupIndexOf(groups, id) >= 0
    ensures s.id == id
  {
    var source := GroupIndexOf(groups, id);
    groups[source][StudentIndex(groups[source], id)]
  }

  /**
   * A drop of the dragged student `id` on group `dest`: its first occurrence
   * leaves the first group holding it and is appended to `dest`.
   */
  function Moved(groups: seq<seq<Student>>, id: int, dest: nat): (r: seq<seq<Student>>)
    requires dest < |groups| && GroupIndexOf(groups, id) >= 0
    ensures |r| == |groups|
    ensures var source := GroupIndexOf(groups, id);
      forall g :: 0 <= g < |groups| && g != source && g != dest ==> r[g] == groups[g]
    ensures var source := GroupIndexOf(groups, id);
      source != dest ==> r[dest] == groups[dest] + [Dragged(groups, id)]
    ensures var source := GroupIndexOf(groups, id);
      source != dest ==> r[source] == RemoveAt(groups[source], StudentIndex(groups[source], id))
  {
    var source := GroupIndexOf(groups, id);
    var without := groups[source := RemoveAt(groups[source], StudentIndex(groups[source], id))];
    without[dest := without[dest] + [Dragged(groups, id)]]
  }

  /** A move keeps every student, with multiplicity: the groups hold the same students. */
  lemma MoveKeepsStudents(groups: seq<seq<Student>>, id: int, dest: nat)
    requires dest < |groups| && GroupIndexOf(groups, id) >= 0
    ensures multiset(Flatten(Moved(groups, id, dest))) == multiset(Flatten(groups))
    ensures |Flatten(Moved(groups, id, dest))| == |Flatten(groups)|
  {
    var source := GroupIndexOf(groups, id);
    var s := Dragged(groups, id);
    var removed := RemoveAt(groups[source], StudentIndex(groups[source], id));
    var without := groups[source := removed];
    var m0, m1 := multiset(Flatten(groups)), multiset(Flatten(without));
    var m2 := multiset(Flatten(Moved(groups, id, dest)));
    FlattenUpdate(groups, source, removed);
    assert multiset(groups[source]) == multiset(removed) + multiset{s};
    assert (m1 + multiset{s}) + multiset(removed) == m0 + multiset(removed);
    MultisetCancel(m1 + multiset{s}, m0, multiset(removed));
    FlattenUpdate(without, dest, without[dest] + [s]);
    assert Moved(groups, id, dest) == without[dest := without[dest] + [s]];
    assert multiset(without[dest] + [s]) == multiset(without[dest]) + multiset{s};
    MultisetCancel(m2, m1 + multiset{s}, multiset(without[dest]));
    assert |multiset(Flatten(Moved(groups, id, dest)))| == |multiset(Flatten(groups))|;
  }

  /**
   * The browser store of grouping histories, one key per class id
   * (`groupHistory-<classId>`); what a key holds once read and parsed.
   */
  class HistoryStore {
    var data: map<int, Stored<seq<HistoryEntry>>>

    constructor (initial: map<int, Stored<seq<HistoryEntry>>>)
      ensures data == initial
    {
      data := initial;
    }

    /** `getItem` followed by `JSON.parse`. */
    function Read(classId: int): Stored<seq<HistoryEntry>>
      reads this
    {
      if classId in data then data[classId] else Missing
    }

    /** `setItem` of the serialized history: only this class's key changes. */
    method Write(classId: int, history: seq<HistoryEntry>)
      modifies this
      ensures data == old(data)[classId := Parsed(history)]
      ensures Read(classId) == Parsed(history)
    {
      data := data[classId := Parsed(history)];
    }
  }
}
