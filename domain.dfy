/**
 * The entities of the student grouper: students, classes, groups and the
 * grouping history entries saved per class, plus the small wrapper types the
 * rest of the model uses for absent values, failures and stored records.
 */
module Domain {

  /** Absent value (`null` / `undefined` in the source). */
  datatype Option<+T> = None | Some(value: T)

  /** An operation that either yields a value or fails with an error. */
  datatype Result<+T, +E> = Ok(value: T) | Err(error: E)

  /**
   * What a key of the browser store holds once read: nothing, text that
   * does not parse as the expected JSON, or the parsed records.
   */
  datatype Stored<+T> = Missing | Malformed | Parsed(records: T)

  datatype Capability = High | Medium | Low

  datatype Student = Student(id: int, name: string, present: bool, capabilityLevel: Capability)

  datatype Class = Class(id: int, name: string, students: seq<Student>)

  /** The two sizing strategies, `'byGroups'` and `'byStudents'`. */
  datatype GroupingOption = ByGroups | ByStudents

  /** A group inside a saved grouping: its position at save time, its name, its members. */
  datatype Group = Group(id: int, name: string, students: seq<Student>)

  /** One saved grouping of a class; `timestamp` is the instant of the last save. */
  datatype HistoryEntry = HistoryEntry(
    id: int,
    timestamp: int,
    groupingMethod: GroupingOption,
    value: int,
    numberOfStudents: int,
    groups: seq<Group>)

  /** All members of a list of groups, group after group. */
  function Flatten(groups: seq<seq<Student>>): seq<Student>
  {
    if groups == [] then [] else Flatten(groups[..|groups| - 1]) + groups[|groups| - 1]
  }

  /** The total membership of the groups, counted as the source's `reduce` does. */
  function TotalSize(groups: seq<seq<Student>>): nat
  {
    if groups == [] then 0 else TotalSize(groups[..|groups| - 1]) + |groups[|groups| - 1]|
  }

  lemma {:induction false} TotalSizeIsFlattenedLength(groups: seq<seq<Student>>)
    ensures TotalSize(groups) == |Flatten(groups)|
  {
    if groups != [] {
      TotalSizeIsFlattenedLength(groups[..|groups| - 1]);
    }
  }

  lemma {:induction false} FlattenAppend(groups: seq<seq<Student>>, g: seq<Student>)
    ensures Flatten(groups + [g]) == Flatten(groups) + g
  {
    assert (groups + [g])[..|groups|] == groups;
  }

  /** Changing one group changes the flattened members by exactly that group's change. */
  lemma {:induction false} FlattenUpdate(groups: seq<seq<Student>>, k: nat, g: seq<Student>)
    requires k < |groups|
    ensures multiset(Flatten(groups[k := g])) + multiset(groups[k]) == multiset(Flatten(groups)) + multiset(g)
  {
    var n := |groups| - 1;
    var init := groups[..n];
    var updated := groups[k := g];
    assert Flatten(groups) == Flatten(init) + groups[n];
    if k == n {
      assert updated[..n] == init;
      assert Flatten(updated) == Flatten(init) + g;
    } else {
      FlattenUpdate(init, k, g);
      assert updated[..n] == init[k := g] && updated[n] == groups[n];
      assert Flatten(updated) == Flatten(init[k := g]) + groups[n];
      assert init[k] == groups[k];
      var a, b, c := multiset(Flatten(init[k := g])), multiset(groups[k]), multiset(Flatten(init));
      var extra := multiset(groups[n]);
      assert multiset(Flatten(updated)) == a + extra;
      assert multiset(Flatten(groups)) == c + extra;
      forall y ensures (a + extra + b)[y] == (c + extra + multiset(g))[y] {
        assert (a + b)[y] == (c + multiset(g))[y];
      }
      assert a + extra + b == c + extra + multiset(g);
    }
  }

  /** Adding the same members to two multisets cancels: equal sums mean equal multisets. */
  lemma MultisetCancel(a: multiset<Student>, b: multiset<Student>, c: multiset<Student>)
    requires a + c == b + c
    ensures a == b
  {
    forall y ensures a[y] == b[y] {
      assert (a + c)[y] == (b + c)[y];
    }
  }
}
