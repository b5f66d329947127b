/** The group-and-order aggregation that `server.js` (`/kmath`),
    `public/kmath/kmathRoutes.js` (`/`) and `public/math3/math3Routes.js` (`/`)
    each carry a copy of: a `groupMap` object gets one entry per group name,
    the lessons are filed under their groups in array order, and the group
    names are sorted by the order recorded for them.

    `groupMap` is a Dafny map together with its keys in insertion order, the
    order a JavaScript object remembers. Group names are assumed not to be
    names that `Object.prototype` already has ("toString", "__proto__", ...). */
module Grouping {
  import opened Content
  import StableSort

  /** `{ title: lesson.lessonTitle, index }`: a lesson filed under its group. */
  datatype Entry = Entry(title: string, index: nat)

  /** `{ lessons: [...], order: group.order }`: the value of one `groupMap` key. */
  datatype Bucket = Bucket(lessons: seq<Entry>, order: int)

  // ---------------------------------------------------------------------------
  // What the two loops compute

  /** The distinct group names. */
  function Names(groups: seq<Group>): set<string>
  {
    set g | g in groups :: g.name
  }

  /** The keys of `groupMap` in insertion order: each name where it first occurs. */
  function KeysOf(groups: seq<Group>): seq<string>
  {
    if |groups| == 0 then []
    else
      var keys := KeysOf(groups[..|groups| - 1]);
      var name := groups[|groups| - 1].name;
      if name in keys then keys else keys + [name]
  }

  /** The order stored under `name`: a later group of the same name overwrites
      an earlier one. */
  function OrderOf(groups: seq<Group>, name: string): int
  {
    if |groups| == 0 then 0
    else if groups[|groups| - 1].name == name then groups[|groups| - 1].order
    else OrderOf(groups[..|groups| - 1], name)
  }

  /** The lessons filed under `name`, in array order, each with its position. */
  function MembersOf(lessons: seq<Lesson>, name: string): seq<Entry>
  {
    if |lessons| == 0 then []
    else
      var last := lessons[|lessons| - 1];
      MembersOf(lessons[..|lessons| - 1], name) +
        (if last.group == name then [Entry(last.lessonTitle, |lessons| - 1)] else [])
  }

  /** `groupMap` after both loops. */
  function GroupMapOf(groups: seq<Group>, lessons: seq<Lesson>): map<string, Bucket>
  {
    map n | n in Names(groups) :: Bucket(MembersOf(lessons, n), OrderOf(groups, n))
  }

  // ---------------------------------------------------------------------------
  // The two loops

  /** The first loop: every group stores an empty lesson list and its order
      under its name. Assigning to a key that is already present replaces its value but keeps
      its place among the keys. */
  method RegisterGroups(groups: seq<Group>) returns (keys: seq<string>, groupMap: map<string, Bucket>)
    ensures keys == KeysOf(groups)
    ensures groupMap == map n | n in Names(groups) :: Bucket([], OrderOf(groups, n))
  {
    keys, groupMap := [], map[];
    for i := 0 to |groups|
      invariant keys == KeysOf(groups[..i])
      invariant groupMap == map n | n in Names(groups[..i]) :: Bucket([], OrderOf(groups[..i], n))
    {
      var group := groups[i];
      assert groups[..i + 1] == groups[..i] + [group];
      KeysOfStep(groups[..i], group);
      KeysOfDistinctNames(groups[..i]);
      RegisterStep(groups[..i], group, groupMap);
      if group.name !in groupMap {
        keys := keys + [group.name];
      }
      groupMap := groupMap[group.name := Bucket([], group.order)];
    }
    assert groups[..|groups|] == groups;
  }

  lemma KeysOfStep(seen: seq<Group>, group: Group)
    ensures KeysOf(seen + [group]) ==
      if group.name in KeysOf(seen) then KeysOf(seen) else KeysOf(seen) + [group.name]
  {
    assert (seen + [group])[..|seen|] == seen;
  }

  lemma OrderOfStep(seen: seq<Group>, group: Group, n: string)
    ensures OrderOf(seen + [group], n) == if n == group.name then group.order else OrderOf(seen, n)
  {
    assert (seen + [group])[..|seen|] == seen;
  }

  /** One turn of the first loop keeps the map in step with the groups seen
      so far. */
  lemma RegisterStep(seen: seq<Group>, group: Group, groupMap: map<string, Bucket>)
    requires groupMap == map n | n in Names(seen) :: Bucket([], OrderOf(seen, n))
    ensures groupMap[group.name := Bucket([], group.order)]
         == map n | n in Names(seen + [group]) :: Bucket([], OrderOf(seen + [group], n))
  {
    assert Names(seen + [group]) == Names(seen) + {group.name};
    var updated := groupMap[group.name := Bucket([], group.order)];
    var target := map n | n in Names(seen + [group]) :: Bucket([], OrderOf(seen + [group], n));
    assert updated.Keys == target.Keys;
    forall n | n in target ensures updated[n] == target[n] {
      OrderOfStep(seen, group, n);
    }
  }

  /** The second loop: each lesson whose group has an entry is appended to
      that entry's list as its title and array position. Every stored value
      is an object and so truthy: the guard is key membership. */
  method FileLessons(lessons: seq<Lesson>, groupMap: map<string, Bucket>) returns (filed: map<string, Bucket>)
    ensures filed.Keys == groupMap.Keys
    ensures forall n | n in filed ::
      filed[n] == Bucket(groupMap[n].lessons + MembersOf(lessons, n), groupMap[n].order)
  {
    filed := groupMap;
    for j := 0 to |lessons|
      invariant filed.Keys == groupMap.Keys
      invariant forall n | n in filed ::
        filed[n] == Bucket(groupMap[n].lessons + MembersOf(lessons[..j], n), groupMap[n].order)
    {
      var lesson := lessons[j];
      assert lessons[..j + 1][..j] == lessons[..j];
      if lesson.group in filed {
        var bucket := filed[lesson.group];
        filed := filed[lesson.group := bucket.(lessons := bucket.lessons + [Entry(lesson.lessonTitle, j)])];
      }
    }
    assert lessons[..|lessons|] == lessons;
  }

  /** Both loops: the keys in insertion order and the finished `groupMap`. */
  method BuildGroupMap(groups: seq<Group>, lessons: seq<Lesson>) returns (keys: seq<string>, groupMap: map<string, Bucket>)
    ensures keys == KeysOf(groups)
    ensures groupMap == GroupMapOf(groups, lessons)
  {
    var registered;
    keys, registered := RegisterGroups(groups);
    groupMap := FileLessons(lessons, registered);
    forall n | n in groupMap ensures groupMap[n] == GroupMapOf(groups, lessons)[n] {
      assert registered[n] == Bucket([], OrderOf(groups, n));
    }
  }

  // ---------------------------------------------------------------------------
  // Properties of the finished groupMap

  predicate Distinct<T(==)>(s: seq<T>)
  {
    forall i, j | 0 <= i < j < |s| :: s[i] != s[j]
  }

  /** The keys are exactly the distinct group names, each once. */
  lemma {:induction false} KeysOfDistinctNames(groups: seq<Group>)
    ensures forall n :: n in KeysOf(groups) <==> n in Names(groups)
    ensures Distinct(KeysOf(groups))
  {
    if |groups| > 0 {
      var init := groups[..|groups| - 1];
      KeysOfDistinctNames(init);
      assert groups == init + [groups[|groups| - 1]];
      assert Names(groups) == Names(init) + {groups[|groups| - 1].name};
    }
  }

  /** With duplicate names the order of the last group of that name wins. */
  lemma {:induction false} OrderOfLastWins(groups: seq<Group>, k: nat)
    requires k < |groups|
    requires forall k' | k < k' < |groups| :: groups[k'].name != groups[k].name
    ensures OrderOf(groups, groups[k].name) == groups[k].order
  {
    if k < |groups| - 1 {
      var init := groups[..|groups| - 1];
      assert init[k] == groups[k];
      OrderOfLastWins(init, k);
    }
  }

  /** Every entry filed under `name` is the lesson at its recorded index, that
      lesson's group is `name`, and the indices strictly increase. */
  lemma {:induction false} MembersOfSound(lessons: seq<Lesson>, name: string)
    ensures forall k | 0 <= k < |MembersOf(lessons, name)| ::
      var e := MembersOf(lessons, name)[k];
      e.index < |lessons| && lessons[e.index].group == name && e.title == lessons[e.index].lessonTitle
    ensures forall k, k' | 0 <= k < k' < |MembersOf(lessons, name)| ::
      MembersOf(lessons, name)[k].index < MembersOf(lessons, name)[k'].index
  {
    if |lessons| > 0 {
      var init := lessons[..|lessons| - 1];
      MembersOfSound(init, name);
      assert forall i | 0 <= i < |init| :: init[i] == lessons[i];
    }
  }

  /** Every lesson of group `name` is filed under it. */
  lemma {:induction false} MembersOfComplete(lessons: seq<Lesson>, name: string, j: nat)
    requires j < |lessons| && lessons[j].group == name
    ensures exists k :: 0 <= k < |MembersOf(lessons, name)| && MembersOf(lessons, name)[k].index == j
  {
    var init := lessons[..|lessons| - 1];
    if j == |lessons| - 1 {
      assert MembersOf(lessons, name)[|MembersOf(init, name)|].index == j;
    } else {
      assert init[j] == lessons[j];
      MembersOfComplete(init, name, j);
      var k :| 0 <= k < |MembersOf(init, name)| && MembersOf(init, name)[k].index == j;
      assert MembersOf(lessons, name)[k] == MembersOf(init, name)[k];
    }
  }

  /** A lesson is filed iff its group is a known name, and then exactly once:
      unknown groups are dropped, known ones partition the kept lessons. */
  lemma LessonFiledOnce(groups: seq<Group>, lessons: seq<Lesson>, j: nat)
    ensures
      var gm := GroupMapOf(groups, lessons);
      (exists n, k :: n in gm && 0 <= k < |gm[n].lessons| && gm[n].lessons[k].index == j)
      <==> (j < |lessons| && lessons[j].group in Names(groups))
    ensures
      var gm := GroupMapOf(groups, lessons);
      forall n, k, n', k' |
        && n in gm && 0 <= k < |gm[n].lessons| && gm[n].lessons[k].index == j
        && n' in gm && 0 <= k' < |gm[n'].lessons| && gm[n'].lessons[k'].index == j
        :: n == n' && k == k'
  {
    var gm := GroupMapOf(groups, lessons);
    forall n | n in gm {
      MembersOfSound(lessons, n);
    }
    if j < |lessons| && lessons[j].group in Names(groups) {
      var n := lessons[j].group;
      MembersOfComplete(lessons, n, j);
      var k :| 0 <= k < |MembersOf(lessons, n)| && MembersOf(lessons, n)[k].index == j;
      assert gm[n].lessons[k].index == j;
    }
  }

  // ---------------------------------------------------------------------------
  // Object.keys and the sort

  /** The numeric value of a key that is an array index (0 for other keys). */
  function IndexKey(name: string): int
  {
    match ArrayIndex(name)
    case Some(i) => i
    case None => 0
  }

  function IndexKeys(keys: seq<string>): seq<string>
  {
    if |keys| == 0 then []
    else (if ArrayIndex(keys[0]).Some? then [keys[0]] else []) + IndexKeys(keys[1..])
  }

  function NamedKeys(keys: seq<string>): seq<string>
  {
    if |keys| == 0 then []
    else (if ArrayIndex(keys[0]).None? then [keys[0]] else []) + NamedKeys(keys[1..])
  }

  /** `Object.keys` of an object whose keys were created in the order `keys`:
      keys that are array indices first, ascending, then the others in
      insertion order. */
  function ObjectKeys(keys: seq<string>): (r: seq<string>)
    ensures multiset(r) == multiset(keys)
  {
    SplitKeysPermutes(keys);
    StableSort.Sort(IndexKeys(keys), IndexKey) + NamedKeys(keys)
  }

  lemma {:induction false} SplitKeysPermutes(keys: seq<string>)
    ensures multiset(IndexKeys(keys)) + multiset(NamedKeys(keys)) == multiset(keys)
  {
    if |keys| > 0 {
      var head, tail := keys[0], keys[1..];
      SplitKeysPermutes(tail);
      assert keys == [head] + tail;
      assert multiset(keys) == multiset{head} + multiset(tail);
      if ArrayIndex(head).Some? {
        assert IndexKeys(keys) == [head] + IndexKeys(tail) && NamedKeys(keys) == NamedKeys(tail);
      } else {
        assert IndexKeys(keys) == IndexKeys(tail) && NamedKeys(keys) == [head] + NamedKeys(tail);
      }
    }
  }

  lemma {:induction false} IndexKeysAreIndices(keys: seq<string>)
    ensures forall k | k in IndexKeys(keys) :: ArrayIndex(k).Some?
  {
    if |keys| > 0 {
      IndexKeysAreIndices(keys[1..]);
    }
  }

  lemma {:induction false} NamedKeysAreNotIndices(keys: seq<string>)
    ensures forall k | k in NamedKeys(keys) :: ArrayIndex(k).None?
  {
    if |keys| > 0 {
      NamedKeysAreNotIndices(keys[1..]);
    }
  }

  lemma SortedIndexKeys(keys: seq<string>)
    ensures forall k | k in StableSort.Sort(IndexKeys(keys), IndexKey) :: ArrayIndex(k).Some?
    ensures StableSort.Sorted(StableSort.Sort(IndexKeys(keys), IndexKey), IndexKey)
    ensures multiset(StableSort.Sort(IndexKeys(keys), IndexKey)) == multiset(IndexKeys(keys))
  {
    IndexKeysAreIndices(keys);
    var idx := IndexKeys(keys);
    forall k | k in StableSort.Sort(idx, IndexKey) ensures ArrayIndex(k).Some? {
      assert k in multiset(idx);
    }
  }

  lemma {:induction false} NamedKeysAppend(a: seq<string>, b: seq<string>)
    ensures NamedKeys(a + b) == NamedKeys(a) + NamedKeys(b)
  {
    if |a| > 0 {
      assert (a + b)[0] == a[0] && (a + b)[1..] == a[1..] + b;
      NamedKeysAppend(a[1..], b);
    } else {
      assert a + b == b;
    }
  }

  lemma {:induction false} NamedKeysOfIndices(s: seq<string>)
    requires forall k | k in s :: ArrayIndex(k).Some?
    ensures NamedKeys(s) == []
  {
    if |s| > 0 {
      assert s[0] in s;
      NamedKeysOfIndices(s[1..]);
    }
  }

  lemma {:induction false} KeysWithoutIndices(s: seq<string>)
    requires forall k | k in s :: ArrayIndex(k).None?
    ensures NamedKeys(s) == s && IndexKeys(s) == []
  {
    if |s| > 0 {
      assert s[0] in s;
      KeysWithoutIndices(s[1..]);
      assert s == [s[0]] + s[1..];
    }
  }

  /** The keys that are not array indices keep their insertion order. */
  lemma ObjectKeysNamedOrder(keys: seq<string>)
    ensures NamedKeys(ObjectKeys(keys)) == NamedKeys(keys)
    ensures (forall k | k in keys :: ArrayIndex(k).None?) ==> ObjectKeys(keys) == keys
  {
    var sorted := StableSort.Sort(IndexKeys(keys), IndexKey);
    SortedIndexKeys(keys);
    NamedKeysAppend(sorted, NamedKeys(keys));
    NamedKeysOfIndices(sorted);
    NamedKeysAreNotIndices(keys);
    KeysWithoutIndices(NamedKeys(keys));
    if forall k | k in keys :: ArrayIndex(k).None? {
      KeysWithoutIndices(keys);
    }
  }

  /** `Object.keys` puts the array indices first and ascending, then the other
      keys in insertion order. */
  lemma ObjectKeysOrder(keys: seq<string>)
    ensures forall i, j | 0 <= i < j < |ObjectKeys(keys)| && ArrayIndex(ObjectKeys(keys)[j]).Some? ::
      ArrayIndex(ObjectKeys(keys)[i]).Some? && IndexKey(ObjectKeys(keys)[i]) <= IndexKey(ObjectKeys(keys)[j])
    ensures NamedKeys(ObjectKeys(keys)) == NamedKeys(keys)
    ensures (forall k | k in keys :: ArrayIndex(k).None?) ==> ObjectKeys(keys) == keys
  {
    ObjectKeysNamedOrder(keys);
    SortedIndexKeys(keys);
    NamedKeysAreNotIndices(keys);
    var sorted := StableSort.Sort(IndexKeys(keys), IndexKey);
    var all := ObjectKeys(keys);
    assert all == sorted + NamedKeys(keys);
    forall j | |sorted| <= j < |all| ensures ArrayIndex(all[j]).None? {
      assert all[j] in NamedKeys(keys);
    }
    forall i, j | 0 <= i < j < |all| && ArrayIndex(all[j]).Some?
      ensures ArrayIndex(all[i]).Some? && IndexKey(all[i]) <= IndexKey(all[j])
    {
      assert all[i] == sorted[i] && all[j] == sorted[j];
      assert sorted[i] in sorted;
    }
  }

  /** The key used by the comparator: `groupMap[name].order`. */
  function OrderKey(groups: seq<Group>): string -> int
  {
    name => OrderOf(groups, name)
  }

  /** `sortedGroups`: `Object.keys(groupMap)` stably sorted by order; it holds
      each key of the group map as often as the map does, non-decreasing in
      order. */
  function SortedGroups(groups: seq<Group>): (r: seq<string>)
    ensures StableSort.Sorted(r, OrderKey(groups))
    ensures multiset(r) == multiset(KeysOf(groups))
  {
    StableSort.Sort(ObjectKeys(KeysOf(groups)), OrderKey(groups))
  }

  /** The comparator's key as the handlers read it: `groupMap[name].order`. */
  function OrderFromMap(groupMap: map<string, Bucket>): string -> int
  {
    name => if name in groupMap then groupMap[name].order else 0
  }

  /** Sorting the keys of the built `groupMap` by the orders stored in it gives
      `SortedGroups`, which depends on the groups alone. */
  lemma SortByMapOrder(groups: seq<Group>, lessons: seq<Lesson>)
    ensures StableSort.Sort(ObjectKeys(KeysOf(groups)), OrderFromMap(GroupMapOf(groups, lessons)))
         == SortedGroups(groups)
  {
    var keys := ObjectKeys(KeysOf(groups));
    KeysOfDistinctNames(groups);
    ObjectKeysOrder(KeysOf(groups));
    forall i | 0 <= i < |keys|
      ensures OrderFromMap(GroupMapOf(groups, lessons))(keys[i]) == OrderKey(groups)(keys[i])
    {
      assert keys[i] in multiset(KeysOf(groups));
    }
    StableSort.SortKeyCongruence(keys, OrderFromMap(GroupMapOf(groups, lessons)), OrderKey(groups));
  }

  lemma {:induction false} DistinctCount<T>(s: seq<T>, x: T)
    requires Distinct(s)
    ensures multiset(s)[x] <= 1
  {
    if |s| > 0 {
      DistinctCount(s[1..], x);
      assert s == [s[0]] + s[1..];
      if s[0] == x {
        assert x !in s[1..];
      }
    }
  }

  /** A permutation of a sequence without repeats has no repeats. */
  lemma DistinctPermutation<T>(a: seq<T>, b: seq<T>)
    requires Distinct(a) && multiset(a) == multiset(b)
    ensures Distinct(b)
  {
    forall i, j | 0 <= i < j < |b| ensures b[i] != b[j] {
      DistinctCount(a, b[i]);
      assert b == b[..j] + [b[j]] + b[j + 1..];
      assert b[i] in b[..j];
      assert multiset(b)[b[i]] >= multiset(b[..j])[b[i]] + multiset([b[j]])[b[i]];
    }
  }

  /** `sortedGroups` lists every distinct group name, each once. */
  lemma SortedGroupsNames(groups: seq<Group>)
    ensures forall n :: n in SortedGroups(groups) <==> n in Names(groups)
    ensures Distinct(SortedGroups(groups))
  {
    var keys := KeysOf(groups);
    KeysOfDistinctNames(groups);
    DistinctPermutation(keys, SortedGroups(groups));
    forall n ensures n in SortedGroups(groups) <==> n in keys {
      assert n in SortedGroups(groups) <==> n in multiset(SortedGroups(groups));
    }
  }

  /** `sortedGroups` is non-decreasing in the groups' orders. */
  lemma SortedGroupsOrdered(groups: seq<Group>)
    ensures forall i, j | 0 <= i < j < |SortedGroups(groups)| ::
      OrderOf(groups, SortedGroups(groups)[i]) <= OrderOf(groups, SortedGroups(groups)[j])
  {
    assert StableSort.Sorted(SortedGroups(groups), OrderKey(groups));
  }

  /** `sortedGroups` lists every distinct group name exactly once, is
      non-decreasing in order, and keeps `Object.keys` order among equal orders. */
  lemma SortedGroupsSpec(groups: seq<Group>)
    ensures forall n :: n in SortedGroups(groups) <==> n in Names(groups)
    ensures Distinct(SortedGroups(groups))
    ensures forall i, j | 0 <= i < j < |SortedGroups(groups)| ::
      OrderOf(groups, SortedGroups(groups)[i]) <= OrderOf(groups, SortedGroups(groups)[j])
    ensures forall v :: StableSort.KeyFilter(SortedGroups(groups), OrderKey(groups), v)
                     == StableSort.KeyFilter(ObjectKeys(KeysOf(groups)), OrderKey(groups), v)
  {
    SortedGroupsNames(groups);
    SortedGroupsOrdered(groups);
    forall v ensures StableSort.KeyFilter(SortedGroups(groups), OrderKey(groups), v)
                  == StableSort.KeyFilter(ObjectKeys(KeysOf(groups)), OrderKey(groups), v) {
      StableSort.SortStable(ObjectKeys(KeysOf(groups)), OrderKey(groups), v);
    }
  }

  // ---------------------------------------------------------------------------
  // Group blocks: one heading and lesson list per sorted group

  /** One `<div class="group">`: the group's name and its lesson links. */
  datatype GroupBlock = GroupBlock(heading: string, links: seq<Link>)

  /** The link to the lesson at array position `index`, under `prefix`. */
  function LessonHref(prefix: string, index: nat): (href: string)
    ensures |href| > |prefix| + 8 && href[..|prefix| + 8] == prefix + "/lesson/"
    ensures index < MaxArrayLength ==> ArrayIndex(href[|prefix| + 8..]) == Some(index)
  {
    var href := prefix + "/lesson/" + NatToString(index);
    assert href[|prefix| + 8..] == NatToString(index);
    if index < MaxArrayLength then
      NatToStringIsIndex(index);
      href
    else
      href
  }

  /** Different lessons have different links. */
  lemma LessonHrefInjective(prefix: string, j: nat, j': nat)
    requires LessonHref(prefix, j) == LessonHref(prefix, j')
    ensures j == j'
  {
    var n := |prefix + "/lesson/"|;
    assert LessonHref(prefix, j)[n..] == NatToString(j);
    assert LessonHref(prefix, j')[n..] == NatToString(j');
    NatToStringInjective(j, j');
  }

  function LessonLinks(prefix: string, entries: seq<Entry>): seq<Link>
  {
    seq(|entries|, k requires 0 <= k < |entries| => Link(LessonHref(prefix, entries[k].index), entries[k].title))
  }

  /** One block per name of `sorted`, in that order: headed by the name and
      linking, in their order, the lessons filed under it. */
  function GroupBlocks(prefix: string, groupMap: map<string, Bucket>, sorted: seq<string>): (blocks: seq<GroupBlock>)
    requires forall i | 0 <= i < |sorted| :: sorted[i] in groupMap
    ensures |blocks| == |sorted|
    ensures forall i | 0 <= i < |sorted| ::
      && blocks[i].heading == sorted[i]
      && |blocks[i].links| == |groupMap[sorted[i]].lessons|
      && forall k | 0 <= k < |blocks[i].links| ::
           blocks[i].links[k].text == groupMap[sorted[i]].lessons[k].title
  {
    seq(|sorted|, i requires 0 <= i < |sorted| => GroupBlock(sorted[i], LessonLinks(prefix, groupMap[sorted[i]].lessons)))
  }

  /** The whole listing for `groups` and `lessons`, links under `prefix`: block
      `i` is headed by the `i`-th sorted group. */
  function GroupListing(prefix: string, groups: seq<Group>, lessons: seq<Lesson>): (blocks: seq<GroupBlock>)
    ensures |blocks| == |SortedGroups(groups)|
    ensures forall i | 0 <= i < |blocks| :: blocks[i].heading == SortedGroups(groups)[i]
  {
    SortedGroupsNames(groups);
    GroupBlocks(prefix, GroupMapOf(groups, lessons), SortedGroups(groups))
  }

  /** One block per group name, each name once, in non-decreasing order. */
  lemma GroupListingBlocks(prefix: string, groups: seq<Group>, lessons: seq<Lesson>)
    ensures forall n :: (exists i :: 0 <= i < |GroupListing(prefix, groups, lessons)| &&
                                    GroupListing(prefix, groups, lessons)[i].heading == n)
                        <==> n in Names(groups)
    ensures forall i, j | 0 <= i < j < |GroupListing(prefix, groups, lessons)| ::
      GroupListing(prefix, groups, lessons)[i].heading != GroupListing(prefix, groups, lessons)[j].heading
    ensures forall i, j | 0 <= i < j < |GroupListing(prefix, groups, lessons)| ::
      OrderOf(groups, GroupListing(prefix, groups, lessons)[i].heading)
        <= OrderOf(groups, GroupListing(prefix, groups, lessons)[j].heading)
  {
    SortedGroupsNames(groups);
    SortedGroupsOrdered(groups);
    HeadingsFollowNames(groups, SortedGroups(groups), GroupListing(prefix, groups, lessons));
  }

  /** Blocks headed, in order, by the names of `sorted`: what holds of the
      names holds of the headings. */
  lemma HeadingsFollowNames(groups: seq<Group>, sorted: seq<string>, blocks: seq<GroupBlock>)
    requires |blocks| == |sorted| && forall i | 0 <= i < |blocks| :: blocks[i].heading == sorted[i]
    requires forall n :: n in sorted <==> n in Names(groups)
    requires Distinct(sorted)
    requires forall i, j | 0 <= i < j < |sorted| :: OrderOf(groups, sorted[i]) <= OrderOf(groups, sorted[j])
    ensures forall n :: (exists i :: 0 <= i < |blocks| && blocks[i].heading == n) <==> n in Names(groups)
    ensures forall i, j | 0 <= i < j < |blocks| :: blocks[i].heading != blocks[j].heading
    ensures forall i, j | 0 <= i < j < |blocks| :: OrderOf(groups, blocks[i].heading) <= OrderOf(groups, blocks[j].heading)
  {
    forall n | n in Names(groups) ensures exists i :: 0 <= i < |blocks| && blocks[i].heading == n {
      var i :| 0 <= i < |sorted| && sorted[i] == n;
      assert blocks[i].heading == n;
    }
  }

  /** The link at position `k` of block `i` is that of the `k`-th lesson filed
      under the block's group. */
  lemma GroupListingLinkAt(prefix: string, groups: seq<Group>, lessons: seq<Lesson>, i: nat, k: nat)
    requires i < |GroupListing(prefix, groups, lessons)|
    requires k < |GroupListing(prefix, groups, lessons)[i].links|
    ensures
      var block := GroupListing(prefix, groups, lessons)[i];
      var entries := MembersOf(lessons, block.heading);
      && block.heading == SortedGroups(groups)[i]
      && block.heading in Names(groups)
      && k < |entries|
      && block.links[k] == Link(LessonHref(prefix, entries[k].index), entries[k].title)
  {
    SortedGroupsNames(groups);
  }

  /** Each link of a block leads to `prefix/lesson/<j>` for a lesson `j` of
      that block's group, and is labelled with that lesson's title. */
  lemma GroupListingLinksSound(prefix: string, groups: seq<Group>, lessons: seq<Lesson>, i: nat, k: nat)
    requires i < |GroupListing(prefix, groups, lessons)|
    requires k < |GroupListing(prefix, groups, lessons)[i].links|
    ensures exists j :: && 0 <= j < |lessons|
                        && GroupListing(prefix, groups, lessons)[i].links[k] == Link(LessonHref(prefix, j), lessons[j].lessonTitle)
                        && lessons[j].group == GroupListing(prefix, groups, lessons)[i].heading
  {
    GroupListingLinkAt(prefix, groups, lessons, i, k);
    var block := GroupListing(prefix, groups, lessons)[i];
    MembersOfSound(lessons, block.heading);
    var e := MembersOf(lessons, block.heading)[k];
    assert block.links[k] == Link(LessonHref(prefix, e.index), lessons[e.index].lessonTitle);
  }

  /** Within a block the lessons keep their array order. */
  lemma GroupListingLinksOrdered(prefix: string, groups: seq<Group>, lessons: seq<Lesson>, i: nat, k: nat, k': nat, j: nat, j': nat)
    requires i < |GroupListing(prefix, groups, lessons)|
    requires k < k' < |GroupListing(prefix, groups, lessons)[i].links|
    requires GroupListing(prefix, groups, lessons)[i].links[k].href == LessonHref(prefix, j)
    requires GroupListing(prefix, groups, lessons)[i].links[k'].href == LessonHref(prefix, j')
    ensures j < j'
  {
    GroupListingLinkAt(prefix, groups, lessons, i, k);
    GroupListingLinkAt(prefix, groups, lessons, i, k');
    var entries := MembersOf(lessons, GroupListing(prefix, groups, lessons)[i].heading);
    MembersOfSound(lessons, GroupListing(prefix, groups, lessons)[i].heading);
    LessonHrefInjective(prefix, j, entries[k].index);
    LessonHrefInjective(prefix, j', entries[k'].index);
  }

  /** A link to lesson `j` in block `i` sits where the groupMap files lesson
      `j` under that block's group. */
  lemma GroupListingLinkFiles(prefix: string, groups: seq<Group>, lessons: seq<Lesson>, i: nat, k: nat, j: nat)
    requires i < |GroupListing(prefix, groups, lessons)|
    requires k < |GroupListing(prefix, groups, lessons)[i].links|
    requires GroupListing(prefix, groups, lessons)[i].links[k].href == LessonHref(prefix, j)
    ensures
      var n := SortedGroups(groups)[i];
      var gm := GroupMapOf(groups, lessons);
      && n in gm && k < |gm[n].lessons| && gm[n].lessons[k].index == j
  {
    GroupListingLinkAt(prefix, groups, lessons, i, k);
    var block := GroupListing(prefix, groups, lessons)[i];
    LessonHrefInjective(prefix, j, MembersOf(lessons, block.heading)[k].index);
  }

  /** A lesson whose group is known is linked from some block. */
  lemma GroupListingLessonLinked(prefix: string, groups: seq<Group>, lessons: seq<Lesson>, j: nat)
    requires j < |lessons| && lessons[j].group in Names(groups)
    ensures
      var blocks := GroupListing(prefix, groups, lessons);
      exists i, k :: 0 <= i < |blocks| && 0 <= k < |blocks[i].links| && blocks[i].links[k].href == LessonHref(prefix, j)
  {
    LessonFiledOnce(groups, lessons, j);
    GroupListingShape(prefix, groups, lessons);
    FiledLessonLinked(prefix, GroupListing(prefix, groups, lessons), SortedGroups(groups), GroupMapOf(groups, lessons), j);
  }

  /** Block `i` is headed by the `i`-th sorted group and links, in order, the
      lessons the groupMap files under it. */
  lemma GroupListingShape(prefix: string, groups: seq<Group>, lessons: seq<Lesson>)
    ensures
      var blocks, sorted, gm := GroupListing(prefix, groups, lessons), SortedGroups(groups), GroupMapOf(groups, lessons);
      && |blocks| == |sorted|
      && (forall n | n in gm :: n in sorted)
      && forall i | 0 <= i < |sorted| ::
           && sorted[i] in gm
           && |blocks[i].links| == |gm[sorted[i]].lessons|
           && forall k | 0 <= k < |blocks[i].links| ::
                blocks[i].links[k].href == LessonHref(prefix, gm[sorted[i]].lessons[k].index)
  {
    SortedGroupsNames(groups);
  }

  /** In blocks laid out as `GroupListingShape` says, a lesson the map files is
      linked from some block. */
  lemma FiledLessonLinked(prefix: string, blocks: seq<GroupBlock>, sorted: seq<string>, gm: map<string, Bucket>, j: nat)
    requires |blocks| == |sorted|
    requires forall n | n in gm :: n in sorted
    requires forall i | 0 <= i < |sorted| ::
      && sorted[i] in gm
      && |blocks[i].links| == |gm[sorted[i]].lessons|
      && forall k | 0 <= k < |blocks[i].links| ::
           blocks[i].links[k].href == LessonHref(prefix, gm[sorted[i]].lessons[k].index)
    requires exists n, k :: n in gm && 0 <= k < |gm[n].lessons| && gm[n].lessons[k].index == j
    ensures exists i, k :: 0 <= i < |blocks| && 0 <= k < |blocks[i].links| && blocks[i].links[k].href == LessonHref(prefix, j)
  {
    var n, k :| n in gm && 0 <= k < |gm[n].lessons| && gm[n].lessons[k].index == j;
    var i :| 0 <= i < |sorted| && sorted[i] == n;
    assert blocks[i].links[k].href == LessonHref(prefix, j);
  }

  /** A lesson is linked iff its group is known, and then from exactly one
      place on the page. */
  lemma GroupListingLinksLessonOnce(prefix: string, groups: seq<Group>, lessons: seq<Lesson>, j: nat)
    ensures
      var blocks := GroupListing(prefix, groups, lessons);
      (exists i, k :: 0 <= i < |blocks| && 0 <= k < |blocks[i].links| && blocks[i].links[k].href == LessonHref(prefix, j))
      <==> (j < |lessons| && lessons[j].group in Names(groups))
    ensures
      var blocks := GroupListing(prefix, groups, lessons);
      forall i, k, i', k' |
        && 0 <= i < |blocks| && 0 <= k < |blocks[i].links| && blocks[i].links[k].href == LessonHref(prefix, j)
        && 0 <= i' < |blocks| && 0 <= k' < |blocks[i'].links| && blocks[i'].links[k'].href == LessonHref(prefix, j)
        :: i == i' && k == k'
  {
    LessonFiledOnce(groups, lessons, j);
    SortedGroupsNames(groups);
    var blocks := GroupListing(prefix, groups, lessons);
    var sorted := SortedGroups(groups);
    if j < |lessons| && lessons[j].group in Names(groups) {
      GroupListingLessonLinked(prefix, groups, lessons, j);
    }
    forall i, k | 0 <= i < |blocks| && 0 <= k < |blocks[i].links| && blocks[i].links[k].href == LessonHref(prefix, j)
      ensures j < |lessons| && lessons[j].group in Names(groups)
    {
      GroupListingLinkFiles(prefix, groups, lessons, i, k, j);
    }
    forall i, k, i', k' |
      && 0 <= i < |blocks| && 0 <= k < |blocks[i].links| && blocks[i].links[k].href == LessonHref(prefix, j)
      && 0 <= i' < |blocks| && 0 <= k' < |blocks[i'].links| && blocks[i'].links[k'].href == LessonHref(prefix, j)
      ensures i == i' && k == k'
    {
      GroupListingLinkFiles(prefix, groups, lessons, i, k, j);
      GroupListingLinkFiles(prefix, groups, lessons, i', k', j);
      assert sorted[i] == sorted[i'];
    }
  }
}
