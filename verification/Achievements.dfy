/** Merging achievement syncs, src/achievements.rs. Upper-casing is a parameter: nothing depends on which
    function it is. */
module Achievements {
  import opened Options

  const I64_MAX: int := 0x7fff_ffff_ffff_ffff

  /** A JSON field as the merge sees it. */
  datatype Field = Absent | Other | Integer(value: int)

  /** One achievement: the fields the merge reads, and everything else it carries along. */
  datatype Achievement = Achievement(name: Option<string>, unlockTime: Field, unlockedAt: Field, rest: string)

  type Casing = string -> string

  /** The older field is consulted only when the newer one is missing altogether. */
  function UnlockTime(a: Achievement): Option<int> {
    var field := if a.unlockTime.Absent? then a.unlockedAt else a.unlockTime;
    if field.Integer? then Some(field.value) else None
  }

  function UnlockedAt(a: Achievement): int {
    UnlockTime(a).Or(I64_MAX)
  }

  function KeyOf(a: Achievement, upper: Casing): Option<string> {
    if a.name.Some? then Some(upper(a.name.value)) else None
  }

  /** Where a key already has its entry, if it has one. */
  function Find(merged: seq<Achievement>, key: string, upper: Casing): (at: nat)
    ensures at <= |merged|
    ensures at < |merged| ==> KeyOf(merged[at], upper) == Some(key)
    ensures forall i | 0 <= i < at :: KeyOf(merged[i], upper) != Some(key)
  {
    if merged == [] || KeyOf(merged[0], upper) == Some(key) then 0
    else
      var rest := Find(merged[1..], key, upper);
      assert forall i | 1 <= i < 1 + rest :: merged[i] == merged[1..][i - 1];
      1 + rest
  }

  /** One more achievement: nameless ones are dropped, a known name keeps its earlier time, a new one goes last. */
  function Added(merged: seq<Achievement>, a: Achievement, upper: Casing): seq<Achievement> {
    if a.name.None? then merged
    else
      var at := Find(merged, upper(a.name.value), upper);
      if at == |merged| then merged + [a]
      else if UnlockedAt(a) < UnlockedAt(merged[at]) then merged[at := a]
      else merged
  }

  function AllAdded(merged: seq<Achievement>, list: seq<Achievement>, upper: Casing): seq<Achievement>
    decreases |list|
  {
    if list == [] then merged else AllAdded(Added(merged, list[0], upper), list[1..], upper)
  }

  function Merged(existing: seq<Achievement>, incoming: seq<Achievement>, upper: Casing): seq<Achievement> {
    AllAdded([], existing + incoming, upper)
  }

  method MergeAchievements(existing: seq<Achievement>, incoming: seq<Achievement>, upper: Casing)
    returns (merged: seq<Achievement>)
    ensures merged == Merged(existing, incoming, upper)
  {
    merged := [];
    var list := existing + incoming;
    var i := 0;
    while i < |list|
      invariant 0 <= i <= |list|
      invariant Merged(existing, incoming, upper) == AllAdded(merged, list[i..], upper)
    {
      var a := list[i];
      if a.name.Some? {
        var key := upper(a.name.value);
        var j := 0;
        while j < |merged| && KeyOf(merged[j], upper) != Some(key)
          invariant 0 <= j <= |merged|
          invariant forall k | 0 <= k < j :: KeyOf(merged[k], upper) != Some(key)
        {
          j := j + 1;
        }
        assert j == Find(merged, key, upper);
        if j == |merged| {
          merged := merged + [a];
        } else if UnlockedAt(a) < UnlockedAt(merged[j]) {
          merged := merged[j := a];
        }
      }
      i := i + 1;
    }
  }

  // ---------------------------------------------------------------------------
  // What a merge means
  // ---------------------------------------------------------------------------

  ghost predicate UniqueNames(list: seq<Achievement>, upper: Casing) {
    && (forall i | 0 <= i < |list| :: list[i].name.Some?)
    && (forall i, j | 0 <= i < j < |list| :: KeyOf(list[i], upper) != KeyOf(list[j], upper))
  }

  function Earlier(a: int, b: int): int {
    if b < a then b else a
  }

  /** Each name's earliest time, missing times last. */
  function Times(list: seq<Achievement>, upper: Casing): map<string, int> {
    if list == [] then map[]
    else Noted(Times(list[..|list| - 1], upper), list[|list| - 1], upper)
  }

  function Noted(times: map<string, int>, a: Achievement, upper: Casing): map<string, int> {
    if a.name.None? then times
    else
      var key := upper(a.name.value);
      times[key := if key in times then Earlier(times[key], UnlockedAt(a)) else UnlockedAt(a)]
  }

  /** Both sides' names, each at the earlier of its times. */
  function Union(a: map<string, int>, b: map<string, int>): map<string, int> {
    map key | key in a.Keys + b.Keys ::
      if key !in a then b[key] else if key !in b then a[key] else Earlier(a[key], b[key])
  }

  /** The map holds exactly the list's names, each at its entry's time. */
  ghost predicate Records(times: map<string, int>, list: seq<Achievement>, upper: Casing) {
    && (forall i | 0 <= i < |list| :: RecordedAt(times, list[i], upper))
    && (forall key | key in times :: HasName(list, key, upper))
  }

  predicate HasName(list: seq<Achievement>, key: string, upper: Casing) {
    exists i | 0 <= i < |list| :: KeyOf(list[i], upper) == Some(key)
  }

  lemma NameIndex(list: seq<Achievement>, key: string, upper: Casing) returns (i: nat)
    requires HasName(list, key, upper)
    ensures i < |list| && KeyOf(list[i], upper) == Some(key)
  {
    i :| i < |list| && KeyOf(list[i], upper) == Some(key);
  }

  lemma IndexName(list: seq<Achievement>, i: nat, key: string, upper: Casing)
    requires i < |list| && KeyOf(list[i], upper) == Some(key)
    ensures HasName(list, key, upper)
  {
  }

  predicate RecordedAt(times: map<string, int>, a: Achievement, upper: Casing) {
    a.name.Some? && upper(a.name.value) in times && times[upper(a.name.value)] == UnlockedAt(a)
  }

  lemma NotedRecords(times: map<string, int>, list: seq<Achievement>, a: Achievement, upper: Casing)
    requires Records(times, list, upper) && UniqueNames(list + [a], upper)
    ensures Records(Noted(times, a, upper), list + [a], upper)
  {
    var more, n := list + [a], |list|;
    assert more[n] == a;
    forall i | 0 <= i < n
      ensures RecordedAt(Noted(times, a, upper), more[i], upper)
    {
      assert more[i] == list[i] && RecordedAt(times, list[i], upper);
      assert KeyOf(more[i], upper) != KeyOf(more[n], upper);
    }
    forall key | key in times
      ensures HasName(more, key, upper) && KeyOf(a, upper) != Some(key)
    {
      var i := NameIndex(list, key, upper);
      assert KeyOf(more[i], upper) == Some(key) && KeyOf(more[i], upper) != KeyOf(more[n], upper);
    }
    forall key | key in Noted(times, a, upper)
      ensures HasName(more, key, upper)
    {
      if key !in times {
        IndexName(more, n, key, upper);
      }
    }
  }

  lemma {:induction false} TimesOfUnique(list: seq<Achievement>, upper: Casing)
    requires UniqueNames(list, upper)
    ensures Records(Times(list, upper), list, upper)
  {
    if list != [] {
      var n := |list| - 1;
      hide Records, Noted;
      assert list == list[..n] + [list[n]];
      TimesOfUnique(list[..n], upper);
      NotedRecords(Times(list[..n], upper), list[..n], list[n], upper);
    }
  }

  lemma RecordsDetermine(s: map<string, int>, t: map<string, int>, list: seq<Achievement>, upper: Casing)
    requires Records(s, list, upper) && Records(t, list, upper)
    ensures s == t
  {
  }

  /** Replacing an entry by an earlier one of the same name notes its time. */
  lemma ReplacedRecords(times: map<string, int>, merged: seq<Achievement>, at: nat, a: Achievement, upper: Casing)
    requires Records(times, merged, upper) && UniqueNames(merged, upper)
    requires at < |merged| && a.name.Some? && KeyOf(merged[at], upper) == KeyOf(a, upper)
    requires UnlockedAt(a) < UnlockedAt(merged[at])
    ensures Records(Noted(times, a, upper), merged[at := a], upper)
    ensures UniqueNames(merged[at := a], upper)
  {
    hide HasName;
    var more := merged[at := a];
    assert RecordedAt(times, merged[at], upper);
    forall i | 0 <= i < |more|
      ensures RecordedAt(Noted(times, a, upper), more[i], upper)
    {
      if i != at {
        assert RecordedAt(times, merged[i], upper) && KeyOf(merged[i], upper) != KeyOf(merged[at], upper);
      }
    }
    forall key | key in Noted(times, a, upper)
      ensures HasName(more, key, upper)
    {
      assert HasName(merged, key, upper);
      var i := NameIndex(merged, key, upper);
      IndexName(more, i, key, upper);
    }
  }

  lemma TimesOfOneMore(merged: seq<Achievement>, a: Achievement, upper: Casing)
    ensures Times(merged + [a], upper) == Noted(Times(merged, upper), a, upper)
  {
  }

  /** A name already noted at an earlier time stays as it is. */
  lemma LaterNotesNothing(times: map<string, int>, entry: Achievement, a: Achievement, upper: Casing)
    requires RecordedAt(times, entry, upper) && a.name.Some? && KeyOf(entry, upper) == KeyOf(a, upper)
    requires UnlockedAt(entry) <= UnlockedAt(a)
    ensures Noted(times, a, upper) == times
  {
  }

  /** Adding one achievement keeps names unique and notes exactly its time. */
  lemma AddedNotes(merged: seq<Achievement>, a: Achievement, upper: Casing)
    requires UniqueNames(merged, upper)
    ensures UniqueNames(Added(merged, a, upper), upper)
    ensures Times(Added(merged, a, upper), upper) == Noted(Times(merged, upper), a, upper)
  {
    hide Times;
    if a.name.Some? {
      var at := Find(merged, upper(a.name.value), upper);
      var more := Added(merged, a, upper);
      TimesOfUnique(merged, upper);
      if at == |merged| {
        TimesOfOneMore(merged, a, upper);
        hide Noted;
      } else {
        hide Noted;
        if UnlockedAt(a) < UnlockedAt(merged[at]) {
          ReplacedRecords(Times(merged, upper), merged, at, a, upper);
          TimesOfUnique(more, upper);
          RecordsDetermine(Times(more, upper), Noted(Times(merged, upper), a, upper), more, upper);
        } else {
          assert RecordedAt(Times(merged, upper), merged[at], upper);
          LaterNotesNothing(Times(merged, upper), merged[at], a, upper);
        }
      }
    }
  }

  lemma {:induction false} AllAddedNotes(merged: seq<Achievement>, list: seq<Achievement>, upper: Casing)
    requires UniqueNames(merged, upper)
    ensures UniqueNames(AllAdded(merged, list, upper), upper)
    ensures Times(AllAdded(merged, list, upper), upper) == Union(Times(merged, upper), Times(list, upper))
    decreases |list|
  {
    if list == [] {
      assert Union(Times(merged, upper), map[]) == Times(merged, upper);
    } else {
      var next := Added(merged, list[0], upper);
      AddedNotes(merged, list[0], upper);
      AllAddedNotes(next, list[1..], upper);
      TimesFromFront(list, upper);
      hide Times;
      UnionOfNoted(Times(merged, upper), list[0], Times(list[1..], upper), upper);
    }
  }

  lemma UnionOfNoted(times: map<string, int>, a: Achievement, more: map<string, int>, upper: Casing)
    ensures Union(Noted(times, a, upper), more) == Union(times, Union(Noted(map[], a, upper), more))
  {
  }

  lemma {:induction false} TimesFromFront(list: seq<Achievement>, upper: Casing)
    requires list != []
    ensures Times(list, upper) == Union(Noted(map[], list[0], upper), Times(list[1..], upper))
  {
    var n := |list| - 1;
    if n == 0 {
      assert list[..0] == [] && list[1..] == [];
      assert Union(Noted(map[], list[0], upper), map[]) == Noted(map[], list[0], upper);
    } else {
      TimesFromFront(list[..n], upper);
      assert list[..n][1..] == list[1..][..n - 1];
      assert Times(list[1..], upper) == Noted(Times(list[1..][..n - 1], upper), list[n], upper);
      NotedAfterUnion(Noted(map[], list[0], upper), Times(list[1..][..n - 1], upper), list[n], upper);
    }
  }

  lemma NotedAfterUnion(a: map<string, int>, b: map<string, int>, last: Achievement, upper: Casing)
    ensures Noted(Union(a, b), last, upper) == Union(a, Noted(b, last, upper))
  {
  }

  /** A merge holds each name once, and each name of either side at its earliest time. */
  lemma MergeKeepsEarliest(existing: seq<Achievement>, incoming: seq<Achievement>, upper: Casing)
    ensures UniqueNames(Merged(existing, incoming, upper), upper)
    ensures Times(Merged(existing, incoming, upper), upper) == Union(Times(existing, upper), Times(incoming, upper))
  {
    AllAddedNotes([], existing + incoming, upper);
    TimesConcat(existing, incoming, upper);
    assert Union(map[], Times(existing + incoming, upper)) == Times(existing + incoming, upper);
  }

  lemma {:induction false} TimesConcat(a: seq<Achievement>, b: seq<Achievement>, upper: Casing)
    ensures Times(a + b, upper) == Union(Times(a, upper), Times(b, upper))
  {
    if b == [] {
      assert a + b == a;
      assert Union(Times(a, upper), map[]) == Times(a, upper);
    } else {
      var n := |b| - 1;
      TimesConcat(a, b[..n], upper);
      assert (a + b)[..|a + b| - 1] == a + b[..n];
      NotedAfterUnion(Times(a, upper), Times(b[..n], upper), b[n], upper);
    }
  }

  // ---------------------------------------------------------------------------
  // Syncs converge
  // ---------------------------------------------------------------------------

  /** The stored list after a series of sync payloads. */
  function Synced(stored: seq<Achievement>, payloads: seq<seq<Achievement>>, upper: Casing): seq<Achievement> {
    if payloads == [] then stored
    else Merged(Synced(stored, payloads[..|payloads| - 1], upper), payloads[|payloads| - 1], upper)
  }

  ghost predicate IsEarliest(key: string, time: int, payloads: set<seq<Achievement>>, upper: Casing) {
    && (exists p | p in payloads :: key in Times(p, upper) && Times(p, upper)[key] == time)
    && (forall p | p in payloads && key in Times(p, upper) :: time <= Times(p, upper)[key])
  }

  ghost predicate Mentioned(key: string, payloads: set<seq<Achievement>>, upper: Casing) {
    exists p | p in payloads :: key in Times(p, upper)
  }

  function SetOf(payloads: seq<seq<Achievement>>): set<seq<Achievement>> {
    set p | p in payloads
  }

  /** After any series of syncs, the stored names are those some payload mentioned, each at the earliest time any
      payload gave it. */
  lemma {:induction false} SyncedIsEarliest(payloads: seq<seq<Achievement>>, upper: Casing)
    ensures forall key :: key in Times(Synced([], payloads, upper), upper) <==> Mentioned(key, SetOf(payloads), upper)
    ensures forall key | key in Times(Synced([], payloads, upper), upper) ::
              IsEarliest(key, Times(Synced([], payloads, upper), upper)[key], SetOf(payloads), upper)
  {
    if payloads != [] {
      var n := |payloads| - 1;
      var last, before := payloads[n], payloads[..n];
      var earlier, now := Times(Synced([], before, upper), upper), Times(Synced([], payloads, upper), upper);
      SyncedIsEarliest(before, upper);
      MergeKeepsEarliest(Synced([], before, upper), last, upper);
      assert payloads == before + [last];
      assert SetOf(payloads) == SetOf(before) + {last};
      assert now == Union(earlier, Times(last, upper));
      hide Times, Merged;
      forall key
        ensures key in now <==> Mentioned(key, SetOf(payloads), upper)
        ensures key in now ==> IsEarliest(key, now[key], SetOf(payloads), upper)
      {
        OneMorePayload(key, earlier, last, SetOf(before), upper);
      }
    }
  }

  lemma OneMorePayload(key: string, earlier: map<string, int>, last: seq<Achievement>, before: set<seq<Achievement>>,
                       upper: Casing)
    requires key in earlier <==> Mentioned(key, before, upper)
    requires key in earlier ==> IsEarliest(key, earlier[key], before, upper)
    ensures var now := Union(earlier, Times(last, upper));
            && (key in now <==> Mentioned(key, before + {last}, upper))
            && (key in now ==> IsEarliest(key, now[key], before + {last}, upper))
  {
  }

  /** Any order and any repetition of the same payloads ends in the same names at the same times. */
  lemma SyncsConverge(payloads: seq<seq<Achievement>>, others: seq<seq<Achievement>>, upper: Casing)
    requires SetOf(payloads) == SetOf(others)
    ensures Times(Synced([], payloads, upper), upper) == Times(Synced([], others, upper), upper)
  {
    SyncedIsEarliest(payloads, upper);
    SyncedIsEarliest(others, upper);
    hide Times, Synced;
    var a, b := Times(Synced([], payloads, upper), upper), Times(Synced([], others, upper), upper);
    assert forall key :: key in a <==> key in b;
    forall key | key in a
      ensures a[key] == b[key]
    {
      assert IsEarliest(key, a[key], SetOf(payloads), upper) && IsEarliest(key, b[key], SetOf(payloads), upper);
    }
  }

  // ---------------------------------------------------------------------------
  // A repeated sync changes nothing at all
  // ---------------------------------------------------------------------------

  /** Every named entry of the list is already there, no later. */
  ghost predicate Covers(merged: seq<Achievement>, list: seq<Achievement>, upper: Casing) {
    forall a | a in list && a.name.Some? ::
      var at := Find(merged, upper(a.name.value), upper);
      at < |merged| && UnlockedAt(merged[at]) <= UnlockedAt(a)
  }

  lemma {:induction false} CoveredAddsNothing(merged: seq<Achievement>, list: seq<Achievement>, upper: Casing)
    requires Covers(merged, list, upper)
    ensures AllAdded(merged, list, upper) == merged
    decreases |list|
  {
    if list != [] {
      assert list[0] in list;
      CoveredAddsNothing(merged, list[1..], upper);
    }
  }

  lemma {:induction false} RebuildsItself(merged: seq<Achievement>, n: nat, upper: Casing)
    requires UniqueNames(merged, upper) && n <= |merged|
    ensures AllAdded(merged[..n], merged[n..], upper) == merged
    decreases |merged| - n
  {
    if n < |merged| {
      var key := upper(merged[n].name.value);
      forall i | 0 <= i < n
        ensures KeyOf(merged[..n][i], upper) != Some(key)
      {
        assert KeyOf(merged[i], upper) != KeyOf(merged[n], upper);
      }
      assert merged[..n] + [merged[n]] == merged[..n + 1];
      RebuildsItself(merged, n + 1, upper);
    }
  }

  lemma {:induction false} AllAddedConcat(merged: seq<Achievement>, a: seq<Achievement>, b: seq<Achievement>,
                                          upper: Casing)
    ensures AllAdded(merged, a + b, upper) == AllAdded(AllAdded(merged, a, upper), b, upper)
    decreases |a|
  {
    if a == [] {
      assert a + b == b;
    } else {
      assert (a + b)[1..] == a[1..] + b;
      AllAddedConcat(Added(merged, a[0], upper), a[1..], b, upper);
    }
  }

  lemma MergedCovers(existing: seq<Achievement>, incoming: seq<Achievement>, upper: Casing)
    ensures Covers(Merged(existing, incoming, upper), incoming, upper)
  {
    var merged := Merged(existing, incoming, upper);
    MergeKeepsEarliest(existing, incoming, upper);
    hide Merged, Times;
    forall a | a in incoming && a.name.Some?
      ensures var at := Find(merged, upper(a.name.value), upper);
              at < |merged| && UnlockedAt(merged[at]) <= UnlockedAt(a)
    {
      var i :| 0 <= i < |incoming| && incoming[i] == a;
      TimesAtMost(incoming, i, upper);
      FoundNoLater(merged, upper(a.name.value), UnlockedAt(a), upper);
    }
  }

  lemma FoundNoLater(merged: seq<Achievement>, key: string, time: int, upper: Casing)
    requires UniqueNames(merged, upper) && key in Times(merged, upper) && Times(merged, upper)[key] <= time
    ensures var at := Find(merged, key, upper);
            at < |merged| && UnlockedAt(merged[at]) <= time
  {
    hide Times;
    TimesOfUnique(merged, upper);
    var k := NameIndex(merged, key, upper);
    var at := Find(merged, key, upper);
    assert at <= k;
    assert RecordedAt(Times(merged, upper), merged[at], upper);
  }

  lemma {:induction false} TimesAtMost(list: seq<Achievement>, i: nat, upper: Casing)
    requires i < |list| && list[i].name.Some?
    ensures var key := upper(list[i].name.value);
            key in Times(list, upper) && Times(list, upper)[key] <= UnlockedAt(list[i])
  {
    var n := |list| - 1;
    if i < n {
      TimesAtMost(list[..n], i, upper);
    }
  }

  /** Merging the same payload again gives back the very same list. */
  lemma RepeatedSyncChangesNothing(existing: seq<Achievement>, incoming: seq<Achievement>, upper: Casing)
    ensures Merged(Merged(existing, incoming, upper), incoming, upper) == Merged(existing, incoming, upper)
  {
    var merged := Merged(existing, incoming, upper);
    MergeKeepsEarliest(existing, incoming, upper);
    MergedCovers(existing, incoming, upper);
    AllAddedConcat([], merged, incoming, upper);
    RebuildsItself(merged, 0, upper);
    assert merged[..0] == [] && merged[0..] == merged;
    CoveredAddsNothing(merged, incoming, upper);
  }
}
