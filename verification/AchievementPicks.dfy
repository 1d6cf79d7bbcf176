/** Which entry a merge keeps of each achievement: the first of those with the earliest time. */
module AchievementPicks {
  import opened Achievements
  import opened Options

  /** The newer field decides if it is there at all, and the older one otherwise. */
  lemma UnlockTimeExactly(a: Achievement, time: int)
    ensures UnlockTime(a) == Some(time)
            <==> a.unlockTime == Integer(time) || (a.unlockTime == Absent && a.unlockedAt == Integer(time))
  {
  }

  predicate SameName(a: Achievement, b: Achievement, upper: Casing) {
    a.name.Some? && b.name.Some? && upper(a.name.value) == upper(b.name.value)
  }

  /** No entry of its name is earlier than the k-th, and none before it is as early; one without a time comes last. */
  ghost predicate Picked(list: seq<Achievement>, k: nat, upper: Casing) {
    && k < |list| && list[k].name.Some?
    && forall i | 0 <= i < |list| && SameName(list[i], list[k], upper) ::
         Precedes(list[k], list[i]) || (i >= k && !Precedes(list[i], list[k]))
  }

  /** Unlocked earlier; a time comes before no time, unless it is the last there is. */
  predicate Precedes(a: Achievement, b: Achievement) {
    match UnlockTime(b)
    case Some(time) => UnlockTime(a).Some? && UnlockTime(a).value < time
    case None => UnlockTime(a).Some? && UnlockTime(a).value < I64_MAX
  }

  /** Times are 64-bit integers. */
  predicate Timely(list: seq<Achievement>) {
    forall a | a in list :: UnlockTime(a).Some? ==> UnlockTime(a).value <= I64_MAX
  }

  lemma PrecedesIsEarlier(a: Achievement, b: Achievement)
    requires UnlockTime(a).Some? ==> UnlockTime(a).value <= I64_MAX
    requires UnlockTime(b).Some? ==> UnlockTime(b).value <= I64_MAX
    ensures Precedes(a, b) <==> UnlockedAt(a) < UnlockedAt(b)
  {
  }

  ghost predicate Comes(list: seq<Achievement>, a: Achievement, upper: Casing) {
    exists k | 0 <= k < |list| :: list[k] == a && Picked(list, k, upper)
  }

  lemma AddedAtEnd(list: seq<Achievement>, a: Achievement, upper: Casing)
    ensures AllAdded([], list + [a], upper) == Added(AllAdded([], list, upper), a, upper)
  {
    AllAddedConcat([], list, [a], upper);
    assert [a][1..] == [];
    hide Added;
  }

  /** A name that is there is in the merge. */
  lemma NamesAreMerged(list: seq<Achievement>, i: nat, upper: Casing)
    requires i < |list| && list[i].name.Some?
    ensures HasName(AllAdded([], list, upper), upper(list[i].name.value), upper)
    ensures UniqueNames(AllAdded([], list, upper), upper)
  {
    TimesAtMost(list, i, upper);
    AllAddedNotes([], list, upper);
    TimesOfUnique(AllAdded([], list, upper), upper);
    hide AllAdded, Times, HasName;
  }

  lemma StillPicked(list: seq<Achievement>, a: Achievement, k: nat, upper: Casing)
    requires Picked(list, k, upper)
    requires SameName(a, list[k], upper) ==> !Precedes(a, list[k])
    ensures Picked(list + [a], k, upper)
  {
    hide Precedes;
  }

  lemma NowPicked(list: seq<Achievement>, a: Achievement, upper: Casing)
    requires a.name.Some? && Timely(list + [a])
    requires forall i | 0 <= i < |list| && SameName(list[i], a, upper) :: Precedes(a, list[i])
    ensures Picked(list + [a], |list|, upper)
  {
    hide SameName;
  }

  lemma {:induction false} MergePicks(list: seq<Achievement>, upper: Casing)
    requires Timely(list)
    ensures forall a | a in AllAdded([], list, upper) :: Comes(list, a, upper)
  {
    if list != [] {
      var n := |list| - 1;
      var init, last := list[..n], list[n];
      var before := AllAdded([], init, upper);
      assert list == init + [last];
      MergePicks(init, upper);
      AddedAtEnd(init, last, upper);
      forall a | a in Added(before, last, upper)
        ensures Comes(list, a, upper)
      {
        AddedPicks(init, last, a, upper);
      }
    }
  }

  lemma AddedPicks(list: seq<Achievement>, last: Achievement, a: Achievement, upper: Casing)
    requires Timely(list + [last])
    requires forall b | b in AllAdded([], list, upper) :: Comes(list, b, upper)
    requires a in Added(AllAdded([], list, upper), last, upper)
    ensures Comes(list + [last], a, upper)
  {
    var before, more := AllAdded([], list, upper), list + [last];
    AllAddedNotes([], list, upper);
    assert UniqueNames(before, upper);
    hide AllAdded, Times, Union, UniqueNames, Picked, Comes, SameName, Precedes, Timely, Added;
    var j :| 0 <= j < |Added(before, last, upper)| && Added(before, last, upper)[j] == a;
    if j < |before| && before[j] == a && (SameName(last, a, upper) ==> !Precedes(last, a)) {
      StillComes(list, last, a, upper);
    } else {
      LastIsAdded(list, before, last, j, upper);
      forall i | 0 <= i < |list| && SameName(list[i], last, upper)
        ensures Precedes(last, list[i])
      {
        LastPrecedes(list, before, last, j, i, upper);
      }
      NowPicked(list, last, upper);
      EndComes(list, last, upper);
    }
  }

  lemma EndComes(list: seq<Achievement>, last: Achievement, upper: Casing)
    requires Picked(list + [last], |list|, upper)
    ensures Comes(list + [last], last, upper)
  {
    assert (list + [last])[|list|] == last;
    hide Picked;
  }

  lemma StillComes(list: seq<Achievement>, last: Achievement, a: Achievement, upper: Casing)
    requires Comes(list, a, upper) && (SameName(last, a, upper) ==> !Precedes(last, a))
    ensures Comes(list + [last], a, upper)
  {
    var k :| 0 <= k < |list| && list[k] == a && Picked(list, k, upper);
    hide Precedes, SameName;
    StillPicked(list, last, k, upper);
    assert (list + [last])[k] == a;
  }

  lemma LastIsAdded(list: seq<Achievement>, before: seq<Achievement>, last: Achievement, j: nat, upper: Casing)
    requires Timely(list + [last]) && UniqueNames(before, upper)
    requires forall b | b in before :: Comes(list, b, upper)
    requires var after := Added(before, last, upper);
             j < |after| && !(j < |before| && before[j] == after[j]
                              && (SameName(last, after[j], upper) ==> !Precedes(last, after[j])))
    ensures last.name.Some? && Added(before, last, upper)[j] == last && j == Find(before, upper(last.name.value), upper)
    ensures j < |before| ==> Precedes(last, before[j])
  {
    assert forall b | b in before :: b in list by {
      forall b | b in before
        ensures b in list
      {
        assert Comes(list, b, upper);
      }
    }
    assert forall b | b in list :: b in list + [last];
    if last.name.Some? {
      var at := Find(before, upper(last.name.value), upper);
      if at < |before| {
        assert before[at] in before;
        PrecedesIsEarlier(last, before[at]);
      }
    }
  }

  lemma LastPrecedes(list: seq<Achievement>, before: seq<Achievement>, last: Achievement, j: nat, i: nat, upper: Casing)
    requires Timely(list + [last]) && before == AllAdded([], list, upper) && last.name.Some?
    requires forall b | b in before :: Comes(list, b, upper)
    requires j == Find(before, upper(last.name.value), upper) && (j < |before| ==> Precedes(last, before[j]))
    requires i < |list| && SameName(list[i], last, upper)
    ensures Precedes(last, list[i])
  {
    NamesAreMerged(list, i, upper);
    var n := NameIndex(before, upper(last.name.value), upper);
    assert j < |before| && before[j] in before;
    hide AllAdded;
    var k :| 0 <= k < |list| && list[k] == before[j] && Picked(list, k, upper);
    assert SameName(list[i], list[k], upper);
    assert list[k] in list + [last] && list[i] in list + [last] && last in list + [last];
    PrecedesIsEarlier(last, list[k]);
    PrecedesIsEarlier(list[k], list[i]);
    PrecedesIsEarlier(list[i], list[k]);
    PrecedesIsEarlier(last, list[i]);
    hide Precedes, Timely;
  }

  /** The merged list holds, once for each name, the first of both sides' entries with its earliest time, whole. */
  lemma MergedIsFirstEarliest(existing: seq<Achievement>, incoming: seq<Achievement>, upper: Casing)
    requires Timely(existing + incoming)
    ensures var merged, list := Merged(existing, incoming, upper), existing + incoming;
            && UniqueNames(merged, upper)
            && (forall a | a in merged :: Comes(list, a, upper))
            && forall i | 0 <= i < |list| && list[i].name.Some? :: exists a | a in merged :: SameName(a, list[i], upper)
  {
    var merged, list := Merged(existing, incoming, upper), existing + incoming;
    MergePicks(list, upper);
    MergeKeepsEarliest(existing, incoming, upper);
    forall i | 0 <= i < |list| && list[i].name.Some?
      ensures exists a | a in merged :: SameName(a, list[i], upper)
    {
      NamesAreMerged(list, i, upper);
      var j := NameIndex(merged, upper(list[i].name.value), upper);
      assert merged[j] in merged;
    }
    hide AllAdded, Comes;
  }

  /** A real time takes the place of a missing one, unless it is the last there is. */
  lemma TimeBeatsNoneExactly(a: Achievement, b: Achievement, upper: Casing)
    requires SameName(a, b, upper) && UnlockTime(a).Some? && UnlockTime(a).value <= I64_MAX && UnlockTime(b).None?
    ensures Merged([b], [a], upper) == if UnlockTime(a).value < 0x7fff_ffff_ffff_ffff then [a] else [b]
  {
    assert [b] + [a] == [b, a] && [b, a][1..] == [a] && [a][1..] == [];
    assert Added([], b, upper) == [b];
    assert AllAdded([], [b, a], upper) == AllAdded([b], [a], upper) == Added([b], a, upper);
  }
}
