/**
 * The group generator of the grouping tool (`generateGroups`): validation of
 * the sizing parameter, derivation of the number of groups, splitting the
 * students into capability buckets, the round-robin interleave of the
 * shuffled buckets, dealing the interleaved list into groups by position
 * modulo the group count, and the default group names.
 *
 * The shuffle of each bucket is random in the source; here the shuffled
 * buckets are inputs that must be permutations of the buckets, so every
 * property below holds for every outcome of the shuffle.
 */
module Generator {
  import opened Domain
  import opened Text

  datatype GenerationError =
    | NoStudents
    | InvalidGroupCount
    | GroupCountExceedsStudents
    | InvalidGroupSize
    | GroupSizeExceedsStudents

  /** The alert (for NoStudents) or inline error text shown for a rejected generation. */
  function ErrorMessage(e: GenerationError): string
  {
    match e
    case NoStudents => "No students available to group."
    case InvalidGroupCount => "Please enter a valid number of groups (at least 1)."
    case GroupCountExceedsStudents => "Number of groups cannot exceed the number of students."
    case InvalidGroupSize => "Please enter a valid number of students per group (at least 1)."
    case GroupSizeExceedsStudents => "Students per group cannot exceed the number of students."
  }

  /** The sizing parameter the chosen strategy reads. */
  function SizingValue(option: GroupingOption, groupCount: int, studentsPerGroup: int): int
  {
    if option == ByGroups then groupCount else studentsPerGroup
  }

  /** `r` is `Math.ceil(n / k)`: the fewest groups of at most `k` that hold `n` students. */
  predicate IsCeilingOf(r: int, n: nat, k: int)
  {
    k >= 1 && (r - 1) * k < n <= r * k
  }

  /** Integer division is unique: a quotient and remainder in range are the ones `/` and `%` give. */
  lemma DivModUnique(n: int, k: int, q: int, r: int)
    requires k > 0 && 0 <= r < k && n == q * k + r
    ensures n / k == q && n % k == r
  {
    var q', r' := n / k, n % k;
    assert n == q' * k + r';
    var d := q - q';
    assert d * k == r' - r;
    if d >= 1 {
      assert false;
    } else if d <= -1 {
      assert false;
    }
  }

  lemma MulMonotone(a: int, b: int, k: int)
    requires a <= b && k >= 0
    ensures a * k <= b * k
  {
    assert b * k - a * k == (b - a) * k;
  }

  lemma CeilingDivision(n: nat, k: int)
    requires 1 <= k <= n
    ensures IsCeilingOf((n + k - 1) / k, n, k)
    ensures 1 <= (n + k - 1) / k <= n
  {
    var r := (n + k - 1) / k;
    var m := (n + k - 1) % k;
    assert n + k - 1 == r * k + m && 0 <= m < k;
    assert (r - 1) * k == r * k - k;
    if r < 1 {
      MulMonotone(r, 0, k);
    }
    if r > n {
      MulMonotone(n, r - 1, k);
      MulMonotone(1, k, n);
    }
  }

  /**
   * Validation of a generation request and the number of groups it yields:
   * no students, a parameter below one, or a parameter above the number of
   * students is rejected; otherwise the count is the parameter itself (by
   * groups) or the ceiling of students over parameter (by students).
   */
  function NumberOfGroups(n: nat, option: GroupingOption, groupCount: int, studentsPerGroup: int)
    : (r: Result<nat, GenerationError>)
    ensures r.Ok? <==> n > 0 && 1 <= SizingValue(option, groupCount, studentsPerGroup) <= n
    ensures r.Ok? ==> 1 <= r.value <= n
    ensures r.Ok? && option == ByGroups ==> r.value == groupCount
    ensures r.Ok? && option == ByStudents ==> IsCeilingOf(r.value, n, studentsPerGroup)
    ensures n == 0 ==> r == Err(NoStudents)
    ensures n > 0 && option == ByGroups && groupCount < 1 ==> r == Err(InvalidGroupCount)
    ensures n > 0 && option == ByGroups && groupCount > n ==> r == Err(GroupCountExceedsStudents)
    ensures n > 0 && option == ByStudents && studentsPerGroup < 1 ==> r == Err(InvalidGroupSize)
    ensures n > 0 && option == ByStudents && studentsPerGroup > n ==> r == Err(GroupSizeExceedsStudents)
  {
    if n == 0 then Err(NoStudents)
    else if option == ByGroups then
      if groupCount < 1 then Err(InvalidGroupCount)
      else if groupCount > n then Err(GroupCountExceedsStudents)
      else Ok(groupCount)
    else
      if studentsPerGroup < 1 then Err(InvalidGroupSize)
      else if studentsPerGroup > n then Err(GroupSizeExceedsStudents)
      else
        var k := studentsPerGroup;
        CeilingDivision(n, k);
        Ok((n + k - 1) / k)
  }

  /** The students of one capability level, in roster order (`students.filter`). */
  function Bucket(students: seq<Student>, level: Capability): (r: seq<Student>)
    ensures forall s :: multiset(r)[s] == if s.capabilityLevel == level then multiset(students)[s] else 0
  {
    if students == [] then []
    else
      var last := students[|students| - 1];
      var init := students[..|students| - 1];
      assert students == init + [last];
      Bucket(init, level) + (if last.capabilityLevel == level then [last] else [])
  }

  /** The three buckets together hold exactly the students. */
  lemma BucketsPartition(students: seq<Student>)
    ensures multiset(Bucket(students, High)) + multiset(Bucket(students, Medium)) + multiset(Bucket(students, Low))
            == multiset(students)
  {
    var total := multiset(Bucket(students, High)) + multiset(Bucket(students, Medium)) + multiset(Bucket(students, Low));
    forall s ensures total[s] == multiset(students)[s] {
    }
  }

  /** The outcome of shuffling a bucket: any reordering of it. */
  predicate IsShuffleOf(shuffled: seq<Student>, bucket: seq<Student>)
  {
    multiset(shuffled) == multiset(bucket)
  }

  function Max3(a: nat, b: nat, c: nat): nat
  {
    if a >= b && a >= c then a else if b >= c then b else c
  }

  /** `bucket[i]` when the bucket has one (`if (bucket[i])`), nothing otherwise. */
  function At(bucket: seq<Student>, i: nat): seq<Student>
  {
    if i < |bucket| then [bucket[i]] else []
  }

  /** Round `i` of the interleave: the i-th high, medium and low student, each if there is one. */
  function Round(high: seq<Student>, medium: seq<Student>, low: seq<Student>, i: nat): seq<Student>
  {
    At(high, i) + At(medium, i) + At(low, i)
  }

  /** The first `k` rounds of the interleave. */
  function Rounds(high: seq<Student>, medium: seq<Student>, low: seq<Student>, k: nat): seq<Student>
  {
    if k == 0 then [] else Rounds(high, medium, low, k - 1) + Round(high, medium, low, k - 1)
  }

  /** The combined list: as many rounds as the longest bucket has students. */
  function Interleaved(high: seq<Student>, medium: seq<Student>, low: seq<Student>): seq<Student>
  {
    Rounds(high, medium, low, Max3(|high|, |medium|, |low|))
  }

  function Prefix(s: seq<Student>, k: nat): seq<Student>
  {
    if k <= |s| then s[..k] else s
  }

  lemma {:induction false} RoundsHoldPrefixes(high: seq<Student>, medium: seq<Student>, low: seq<Student>, k: nat)
    ensures multiset(Rounds(high, medium, low, k))
            == multiset(Prefix(high, k)) + multiset(Prefix(medium, k)) + multiset(Prefix(low, k))
  {
    if k > 0 {
      var i := k - 1;
      RoundsHoldPrefixes(high, medium, low, i);
      RoundsStep(high, medium, low, i);
      PrefixStep(high, i);
      PrefixStep(medium, i);
      PrefixStep(low, i);
      Regroup(multiset(Prefix(high, i)), multiset(Prefix(medium, i)), multiset(Prefix(low, i)),
              multiset(At(high, i)), multiset(At(medium, i)), multiset(At(low, i)));
    }
  }

  lemma RoundsStep(high: seq<Student>, medium: seq<Student>, low: seq<Student>, i: nat)
    ensures multiset(Rounds(high, medium, low, i + 1))
            == multiset(Rounds(high, medium, low, i)) + (multiset(At(high, i)) + multiset(At(medium, i)) + multiset(At(low, i)))
  {
    assert Rounds(high, medium, low, i + 1) == Rounds(high, medium, low, i) + Round(high, medium, low, i);
  }

  lemma RoundsSnoc(high: seq<Student>, medium: seq<Student>, low: seq<Student>, i: nat)
    ensures Rounds(high, medium, low, i + 1) == Rounds(high, medium, low, i) + At(high, i) + At(medium, i) + At(low, i)
  {
  }

  lemma Regroup(p: multiset<Student>, q: multiset<Student>, r: multiset<Student>,
                a: multiset<Student>, b: multiset<Student>, c: multiset<Student>)
    ensures p + q + r + (a + b + c) == (p + a) + (q + b) + (r + c)
  {
  }

  lemma PrefixStep(s: seq<Student>, i: nat)
    ensures multiset(Prefix(s, i + 1)) == multiset(Prefix(s, i)) + multiset(At(s, i))
  {
    if i < |s| {
      assert s[..i + 1] == s[..i] + [s[i]];
    } else {
      assert Prefix(s, i) == s by {
        assert s[..|s|] == s;
      }
    }
  }

  /** The interleaved list is a permutation of the three buckets together. */
  lemma InterleavedIsPermutation(high: seq<Student>, medium: seq<Student>, low: seq<Student>)
    ensures multiset(Interleaved(high, medium, low)) == multiset(high) + multiset(medium) + multiset(low)
  {
    var k := Max3(|high|, |medium|, |low|);
    RoundsHoldPrefixes(high, medium, low, k);
    PrefixAll(high, k);
    PrefixAll(medium, k);
    PrefixAll(low, k);
  }

  lemma PrefixAll(s: seq<Student>, k: nat)
    requires |s| <= k
    ensures Prefix(s, k) == s
  {
    assert s[..|s|] == s;
  }

  /** The push loop that builds `combinedStudents` from the shuffled buckets. */
  method Interleave(high: seq<Student>, medium: seq<Student>, low: seq<Student>) returns (combined: seq<Student>)
    ensures combined == Interleaved(high, medium, low)
    ensures multiset(combined) == multiset(high) + multiset(medium) + multiset(low)
  {
    combined := [];
    var maxLength := Max3(|high|, |medium|, |low|);
    for i := 0 to maxLength
      invariant combined == Rounds(high, medium, low, i)
    {
      ghost var before := combined;
      if i < |high| {
        combined := combined + [high[i]];
      }
      assert combined == before + At(high, i);
      if i < |medium| {
        combined := combined + [medium[i]];
      }
      assert combined == before + At(high, i) + At(medium, i);
      if i < |low| {
        combined := combined + [low[i]];
      }
      RoundsSnoc(high, medium, low, i);
    }
    InterleavedIsPermutation(high, medium, low);
  }

  /** How many of the first `n` positions fall to group `g` when dealt by `index % k`. */
  function GroupSize(n: nat, k: nat, g: nat): nat
    requires k >= 1
  {
    n / k + (if g < n % k then 1 else 0)
  }

  lemma GroupSizeStep(i: nat, k: nat)
    requires k >= 1
    ensures GroupSize(i, k, i % k) == i / k
    ensures forall g :: 0 <= g < k ==> GroupSize(i + 1, k, g) == GroupSize(i, k, g) + (if g == i % k then 1 else 0)
  {
    var q, r := i / k, i % k;
    assert i == q * k + r;
    if r + 1 < k {
      DivModUnique(i + 1, k, q, r + 1);
    } else {
      assert i + 1 == (q + 1) * k + 0;
      DivModUnique(i + 1, k, q + 1, 0);
    }
  }

  /**
   * The deal is balanced: group sizes differ by at most one and, with no more
   * groups than students, every group receives someone.
   */
  lemma DealIsBalanced(n: nat, k: nat)
    requires 1 <= k
    ensures forall g1, g2 :: 0 <= g1 < k && 0 <= g2 < k ==> GroupSize(n, k, g1) <= GroupSize(n, k, g2) + 1
    ensures k <= n ==> forall g :: 0 <= g < k ==> GroupSize(n, k, g) >= 1
  {
    if k <= n {
      var q := n / k;
      assert n == q * k + n % k && n % k < k;
      ProductSign(q, k);
    }
  }

  lemma ProductSign(q: int, k: int)
    requires k >= 0
    ensures q <= 0 ==> q * k <= 0
  {
    if q <= 0 {
      MulMonotone(q, 0, k);
    }
  }

  /** Groups with the sizes of a deal are balanced and, when `n` is at least their number, non-empty. */
  lemma DealtGroupsBalanced(groups: seq<seq<Student>>, n: nat)
    requires |groups| >= 1
    requires forall g :: 0 <= g < |groups| ==> |groups[g]| == GroupSize(n, |groups|, g)
    ensures forall g1, g2 :: 0 <= g1 < |groups| && 0 <= g2 < |groups| ==> |groups[g1]| <= |groups[g2]| + 1
    ensures |groups| <= n ==> forall g :: 0 <= g < |groups| ==> groups[g] != []
  {
    DealIsBalanced(n, |groups|);
  }

  lemma FlattenEmptyGroups(k: nat)
    ensures Flatten(seq(k, _ => [])) == []
  {
    if k > 0 {
      assert seq<seq<Student>>(k, _ => [])[..k - 1] == seq(k - 1, _ => []);
      FlattenEmptyGroups(k - 1);
    }
  }

  /** The first `i` students of `combined` have been dealt into `k` groups by position. */
  ghost predicate Dealt(groups: seq<seq<Student>>, combined: seq<Student>, i: nat, k: nat)
    requires 1 <= k && i <= |combined|
  {
    && |groups| == k
    && (forall g :: 0 <= g < k ==> |groups[g]| == GroupSize(i, k, g))
    && (forall j :: 0 <= j < i ==> j / k < |groups[j % k]| && groups[j % k][j / k] == combined[j])
  }

  lemma DealStep(groups: seq<seq<Student>>, combined: seq<Student>, i: nat, k: nat)
    requires 1 <= k && i < |combined|
    requires Dealt(groups, combined, i, k)
    ensures Dealt(groups[i % k := groups[i % k] + [combined[i]]], combined, i + 1, k)
  {
    var g := i % k;
    var next := groups[g := groups[g] + [combined[i]]];
    GroupSizeStep(i, k);
    forall j | 0 <= j < i + 1
      ensures j / k < |next[j % k]| && next[j % k][j / k] == combined[j]
    {
      if j == i {
        assert |groups[g]| == i / k;
      } else if j % k == g {
        assert groups[g][j / k] == combined[j];
      } else {
        assert next[j % k] == groups[j % k];
      }
    }
  }

  lemma DealKeepsMembers(groups: seq<seq<Student>>, combined: seq<Student>, i: nat, g: nat)
    requires i < |combined| && g < |groups|
    requires multiset(Flatten(groups)) == multiset(combined[..i])
    ensures multiset(Flatten(groups[g := groups[g] + [combined[i]]])) == multiset(combined[..i + 1])
  {
    var x := combined[i];
    FlattenUpdate(groups, g, groups[g] + [x]);
    var after := multiset(Flatten(groups[g := groups[g] + [x]]));
    var m, gm := multiset(Flatten(groups)), multiset(groups[g]);
    assert multiset(groups[g] + [x]) == gm + multiset{x};
    assert after + gm == (m + multiset{x}) + gm;
    MultisetCancel(after, m + multiset{x}, gm);
    assert combined[..i + 1] == combined[..i] + [x];
  }

  /**
   * The student at position `i` of `combined` sits at place `i / k` of group
   * `i % k`, where `k` is the number of groups: a round-robin deal.
   */
  ghost predicate DealtInOrder(groups: seq<seq<Student>>, combined: seq<Student>)
    requires |groups| >= 1
  {
    forall i :: 0 <= i < |combined| ==>
      i / |groups| < |groups[i % |groups|]| && groups[i % |groups|][i / |groups|] == combined[i]
  }

  /**
   * The `forEach` that deals the combined list: the student at position `i`
   * is appended to group `i % numGroups`, so it ends at place `i / numGroups`
   * of that group.
   */
  method Distribute(combined: seq<Student>, numGroups: nat) returns (groups: seq<seq<Student>>)
    requires numGroups >= 1
    ensures |groups| == numGroups
    ensures forall g :: 0 <= g < numGroups ==> |groups[g]| == GroupSize(|combined|, numGroups, g)
    ensures DealtInOrder(groups, combined)
    ensures multiset(Flatten(groups)) == multiset(combined)
  {
    groups := seq(numGroups, _ => []);
    FlattenEmptyGroups(numGroups);
    for i := 0 to |combined|
      invariant Dealt(groups, combined, i, numGroups)
      invariant multiset(Flatten(groups)) == multiset(combined[..i])
    {
      var g := i % numGroups;
      DealStep(groups, combined, i, numGroups);
      DealKeepsMembers(groups, combined, i, g);
      groups := groups[g := groups[g] + [combined[i]]];
    }
    assert combined[..|combined|] == combined;
  }

  /** The default name of the group at `index`: "Group " and its 1-based position. */
  function GroupLabel(index: nat): string
  {
    "Group " + DecimalString(index + 1)
  }

  /** Different positions get different default names. */
  lemma GroupLabelsDistinct(i: nat, j: nat)
    requires i != j
    ensures GroupLabel(i) != GroupLabel(j)
  {
    DecimalStringInjective(i + 1, j + 1);
    assert GroupLabel(i)[6..] == DecimalString(i + 1);
    assert GroupLabel(j)[6..] == DecimalString(j + 1);
  }

  /** One name per group index `k`, and it is "Group k+1". */
  ghost predicate DefaultNamed(names: map<int, string>, count: nat)
  {
    && (forall i :: i in names <==> 0 <= i < count)
    && (forall i :: 0 <= i < count ==> names[i] == GroupLabel(i))
  }

  /** The loop filling `initialGroupNames`: every group index gets its default name. */
  method DefaultNames(numGroups: nat) returns (names: map<int, string>)
    ensures DefaultNamed(names, numGroups)
  {
    names := map[];
    for i := 0 to numGroups
      invariant forall j :: j in names <==> 0 <= j < i
      invariant forall j :: 0 <= j < i ==> names[j] == GroupLabel(j)
    {
      names := names[i := GroupLabel(i)];
    }
  }

  /** Whatever the shuffle did, the interleaved list is a permutation of the students. */
  lemma ShuffledBucketsPartition(students: seq<Student>, high: seq<Student>, medium: seq<Student>, low: seq<Student>)
    requires IsShuffleOf(high, Bucket(students, High))
    requires IsShuffleOf(medium, Bucket(students, Medium))
    requires IsShuffleOf(low, Bucket(students, Low))
    ensures multiset(Interleaved(high, medium, low)) == multiset(students)
    ensures |Interleaved(high, medium, low)| == |students|
  {
    BucketsPartition(students);
    InterleavedIsPermutation(high, medium, low);
    assert |multiset(Interleaved(high, medium, low))| == |multiset(students)|;
  }

  /**
   * The groups hold exactly the students (with multiplicity), none is
   * empty, and no two differ in size by more than one.
   */
  ghost predicate BalancedPartition(groups: seq<seq<Student>>, students: seq<Student>)
  {
    && multiset(Flatten(groups)) == multiset(students)
    && (forall g :: 0 <= g < |groups| ==> groups[g] != [])
    && (forall g1, g2 :: 0 <= g1 < |groups| && 0 <= g2 < |groups| ==> |groups[g1]| <= |groups[g2]| + 1)
  }

  datatype Generated = Generated(groups: seq<seq<Student>>, names: map<int, string>)

  /**
   * `generateGroups` without its state updates: validate, bucket, interleave
   * the shuffled buckets, deal, name. `high`, `medium` and `low` are the
   * buckets as the shuffle left them.
   */
  method Generate(
    students: seq<Student>, option: GroupingOption, groupCount: int, studentsPerGroup: int,
    high: seq<Student>, medium: seq<Student>, low: seq<Student>)
    returns (r: Result<Generated, GenerationError>)
    requires IsShuffleOf(high, Bucket(students, High))
    requires IsShuffleOf(medium, Bucket(students, Medium))
    requires IsShuffleOf(low, Bucket(students, Low))
    ensures r.Err? <==> NumberOfGroups(|students|, option, groupCount, studentsPerGroup).Err?
    ensures r.Err? ==> r.error == NumberOfGroups(|students|, option, groupCount, studentsPerGroup).error
    ensures r.Ok? ==> |r.value.groups| == NumberOfGroups(|students|, option, groupCount, studentsPerGroup).value
    ensures r.Ok? ==> BalancedPartition(r.value.groups, students)
    ensures r.Ok? ==> |Interleaved(high, medium, low)| == |students|
    ensures r.Ok? ==> DealtInOrder(r.value.groups, Interleaved(high, medium, low))
    ensures r.Ok? ==> DefaultNamed(r.value.names, |r.value.groups|)
  {
    var count := NumberOfGroups(|students|, option, groupCount, studentsPerGroup);
    if count.Err? {
      return Err(count.error);
    }
    var numGroups := count.value;
    var combined := Interleave(high, medium, low);
    ShuffledBucketsPartition(students, high, medium, low);
    var groups := Distribute(combined, numGroups);
    DealtGroupsBalanced(groups, |students|);
    var names := DefaultNames(numGroups);
    r := Ok(Generated(groups, names));
  }
}
