/** components/WorkoutHistoryList.tsx: the list of recent completed
    workouts. Each completion can be expanded to show its logged sets,
    grouped per exercise and ordered by the exercise's position in the
    workout. The history request is the parameter `fetched` of `Mount`. */
module WorkoutHistory {
  import opened Wrappers
  import opened Text
  import opened Collections

  datatype Exercise = Exercise(name: string, exerciseGroup: Option<string>, order: int)

  datatype HistorySet = HistorySet(
    id: string,
    setNumber: int,
    reps: int,
    weight: real,
    weightUnit: string,
    exercise: Exercise)

  datatype Completion = Completion(id: string, status: string, loggedSets: seq<HistorySet>)

  // ----------------------------------------------------------- expansion

  /** The updater `toggleExpanded` hands to `setExpandedIds`. */
  function Toggle(expanded: set<string>, id: string): (r: set<string>)
    ensures id in r <==> id !in expanded
    ensures forall x :: x != id ==> (x in r <==> x in expanded)
  {
    if id in expanded then expanded - {id} else expanded + {id}
  }

  /** Toggling the same completion twice collapses or expands it back. */
  lemma ToggleTwice(expanded: set<string>, id: string)
    ensures Toggle(Toggle(expanded, id), id) == expanded
  {
  }

  // ------------------------------------------------------------ grouping

  /** `${name}-${order}`. */
  function ExerciseKey(e: Exercise): string {
    e.name + "-" + IntToString(e.order)
  }

  function SetKey(s: HistorySet): string {
    ExerciseKey(s.exercise)
  }

  /** In `name-digits` the dash after the name is the last one. */
  lemma LastDash(name: string, digits: string)
    requires AllDigits(digits)
    ensures (name + "-" + digits)[|name|] == '-'
    ensures forall i :: |name| < i < |name + "-" + digits| ==> (name + "-" + digits)[i] != '-'
  {
    var k := name + "-" + digits;
    forall i | |name| < i < |k|
      ensures k[i] != '-'
    {
      assert k[i] == digits[i - |name| - 1];
      assert IsDigit(digits[i - |name| - 1]);
    }
  }

  /** For orders that are not negative the key tells the name and the order
      apart, so two sets share a group exactly when they share both. */
  lemma ExerciseKeyInjective(a: Exercise, b: Exercise)
    requires a.order >= 0 && b.order >= 0
    ensures ExerciseKey(a) == ExerciseKey(b) <==> a.name == b.name && a.order == b.order
  {
    if ExerciseKey(a) == ExerciseKey(b) {
      var da, db := NatToString(a.order), NatToString(b.order);
      var k := ExerciseKey(a);
      assert k == a.name + "-" + da && k == b.name + "-" + db;
      LastDash(a.name, da);
      LastDash(b.name, db);
      assert |a.name| == |b.name|;
      assert a.name == k[..|a.name|] && b.name == k[..|b.name|];
      assert da == k[|a.name| + 1..] && db == k[|b.name| + 1..];
      NatToStringInjective(a.order, b.order);
    }
  }

  /** A negative order makes two different exercises share a key. */
  lemma ExerciseKeyCollision()
    ensures ExerciseKey(Exercise("a", None, -1)) == ExerciseKey(Exercise("a-", None, 1))
  {
    assert NatToString(1) == "1";
  }

  /** One entry of `exerciseGroups`: a key and its sets. */
  datatype Group = Group(key: string, sets: seq<HistorySet>)

  /** The sort key of a group, the order of its first set; groups are never
      empty, so the fallback is never used. */
  function FirstOrder(g: Group): int {
    if g.sets == [] then 0 else g.sets[0].exercise.order
  }

  function GroupSets(g: Group): seq<HistorySet> {
    g.sets
  }

  function GroupKey(g: Group): string {
    g.key
  }

  /** `Array.from(exerciseGroups.entries())`: the groups in the order their
      keys were first seen. */
  function Entries(sets: seq<HistorySet>): (es: seq<Group>)
    ensures |es| == |FirstSeen(sets, SetKey)|
    ensures forall i :: 0 <= i < |es| ==>
      es[i] == Group(FirstSeen(sets, SetKey)[i], FilterKey(sets, SetKey, FirstSeen(sets, SetKey)[i]))
  {
    Map(FirstSeen(sets, SetKey), (k: string) => Group(k, FilterKey(sets, SetKey, k)))
  }

  /** The grouping and the sort of one completion's logged sets. */
  method SortedGroups(loggedSets: seq<HistorySet>) returns (groups: seq<Group>)
    ensures groups == SortBy(Entries(loggedSets), FirstOrder)
  {
    var exerciseGroups := GroupBy(loggedSets, SetKey);
    var entries := seq(|exerciseGroups.keys|, i requires 0 <= i < |exerciseGroups.keys| =>
      Group(exerciseGroups.keys[i], exerciseGroups.entries[exerciseGroups.keys[i]]));
    assert entries == Entries(loggedSets);
    groups := SortBy(entries, FirstOrder);
  }

  /** The groups' keys are the distinct keys of the sets, first seen
      first. */
  lemma EntriesKeys(loggedSets: seq<HistorySet>)
    ensures Map(Entries(loggedSets), GroupKey) == FirstSeen(loggedSets, SetKey)
  {
  }

  /** Each group holds, in their original order, exactly the sets with its
      key, and at least one. */
  lemma EntriesContents(loggedSets: seq<HistorySet>)
    ensures forall g :: g in Entries(loggedSets) ==> g.sets == FilterKey(loggedSets, SetKey, g.key) && g.sets != []
  {
    var es := Entries(loggedSets);
    var ks := FirstSeen(loggedSets, SetKey);
    forall g | g in es
      ensures g.sets == FilterKey(loggedSets, SetKey, g.key) && g.sets != []
    {
      var i :| 0 <= i < |es| && es[i] == g;
      FilterKeySeen(loggedSets, SetKey, ks[i]);
    }
  }

  /** Every set has a group. */
  lemma EntriesCover(loggedSets: seq<HistorySet>)
    ensures forall s :: s in loggedSets ==> exists g :: g in Entries(loggedSets) && g.key == SetKey(s)
  {
    var es := Entries(loggedSets);
    var ks := FirstSeen(loggedSets, SetKey);
    FirstSeenMembers(loggedSets, SetKey);
    forall s | s in loggedSets
      ensures exists g :: g in es && g.key == SetKey(s)
    {
      var i :| 0 <= i < |ks| && ks[i] == SetKey(s);
      assert es[i] in es;
    }
  }

  /** The sorted groups are the same groups. */
  lemma SortedSameGroups(es: seq<Group>)
    ensures forall g :: g in SortBy(es, FirstOrder) <==> g in es
    ensures Distinct(Map(es, GroupKey)) ==> Distinct(Map(SortBy(es, FirstOrder), GroupKey))
  {
    var groups := SortBy(es, FirstOrder);
    assert forall g :: g in groups <==> g in multiset(groups);
    assert forall g :: g in es <==> g in multiset(es);
    MapMultiset(es, groups, GroupKey);
    if Distinct(Map(es, GroupKey)) {
      DistinctMultiset(Map(es, GroupKey), Map(groups, GroupKey));
    }
  }

  /** The grouping: each group holds, in their original order, exactly the
      sets with its key; no key has two groups; every set has a group; and
      the groups are sorted by exercise order. */
  lemma GroupsPartition(loggedSets: seq<HistorySet>)
    ensures var groups := SortBy(Entries(loggedSets), FirstOrder);
      && SortedBy(groups, FirstOrder)
      && Distinct(Map(groups, GroupKey))
      && (forall g :: g in groups ==> g.sets == FilterKey(loggedSets, SetKey, g.key) && g.sets != [])
      && (forall s :: s in loggedSets ==> exists g :: g in groups && g.key == SetKey(s))
  {
    EntriesKeys(loggedSets);
    EntriesContents(loggedSets);
    EntriesCover(loggedSets);
    SortedSameGroups(Entries(loggedSets));
  }

  /** No logged set is lost or duplicated by the grouping and the sort. */
  lemma GroupsConserve(loggedSets: seq<HistorySet>)
    ensures multiset(FlatMap(SortBy(Entries(loggedSets), FirstOrder), GroupSets)) == multiset(loggedSets)
  {
    var es := Entries(loggedSets);
    var ks := FirstSeen(loggedSets, SetKey);
    FlatMapMultiset(SortBy(es, FirstOrder), es, GroupSets);
    forall i | 0 <= i < |ks|
      ensures multiset(GroupSets(es[i])) == multiset(Map(FilterKey(loggedSets, SetKey, ks[i]), Same))
    {
      MapSame(FilterKey(loggedSets, SetKey, ks[i]));
    }
    GroupsFlatten(loggedSets, SetKey, ks, es, GroupSets, Same);
    RegroupPermutation(loggedSets, SetKey);
    MapSame(Regroup(loggedSets, SetKey, ks));
  }

  function Same(s: HistorySet): HistorySet {
    s
  }

  lemma MapSame(xs: seq<HistorySet>)
    ensures Map(xs, Same) == xs
  {
  }

  /** When orders are not negative, all sets of a group belong to one
      exercise position and the groups come in ascending exercise order. */
  lemma GroupsByOrder(loggedSets: seq<HistorySet>)
    requires forall s :: s in loggedSets ==> s.exercise.order >= 0
    ensures var groups := SortBy(Entries(loggedSets), FirstOrder);
      && (forall g, s :: g in groups && s in g.sets ==> s.exercise.order == FirstOrder(g))
      && (forall i, j :: 0 <= i < j < |groups| ==> FirstOrder(groups[i]) <= FirstOrder(groups[j]))
  {
    var groups := SortBy(Entries(loggedSets), FirstOrder);
    GroupsPartition(loggedSets);
    forall g, s | g in groups && s in g.sets
      ensures s.exercise.order == FirstOrder(g)
    {
      FilterKeySound(loggedSets, SetKey, g.key);
      ExerciseKeyInjective(s.exercise, g.sets[0].exercise);
    }
  }

  // ---------------------------------------------------------- component

  const HistoryUrl := "/api/workouts/history?limit=5"

  class HistoryList {
    var completions: seq<Completion>
    var isLoading: bool
    var expandedIds: set<string>
    /** The history requests made, in order. */
    var requests: seq<string>

    constructor()
      ensures completions == [] && isLoading && expandedIds == {} && requests == []
    {
      completions := [];
      isLoading := true;
      expandedIds := {};
      requests := [];
    }

    /** The mount effect for a given `count`. The history is requested only
        when `count` is positive; `fetched` is its result, `None` for a
        failed response or an error, which keeps the current completions. */
    method Mount(count: int, fetched: Option<seq<Completion>>)
      modifies this
      ensures requests == old(requests) + (if count > 0 then [HistoryUrl] else [])
      ensures completions == if count > 0 && fetched.Some? then fetched.value else old(completions)
      ensures !isLoading && expandedIds == old(expandedIds)
    {
      if count > 0 {
        isLoading := true;
        requests := requests + [HistoryUrl];
        if fetched.Some? {
          completions := fetched.value;
        }
        isLoading := false;
      } else {
        isLoading := false;
      }
    }

    method ToggleExpanded(id: string)
      modifies this
      ensures expandedIds == Toggle(old(expandedIds), id)
      ensures completions == old(completions) && isLoading == old(isLoading) && requests == old(requests)
    {
      expandedIds := Toggle(expandedIds, id);
    }
  }
}
