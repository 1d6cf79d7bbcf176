/** A sync repeated later, with anything else having happened in between. */
module SouvenirHistory {
  import opened Achievements
  import opened Options
  import opened Souvenirs
  import opened SouvenirRuns
  import opened SouvenirRetries

  /** The rows hold what this payload entry asks for, acknowledged like this. */
  ghost predicate SettledAt(rows: Rows, user: string, game: string, e: Entry, ack: Acknowledgement, t: Text) {
    var o := OwnerOf(user, e, t);
    && o.client != ""
    && Normalized(e.names, t) != []
    && KeyBelongsTo(user, e.imageKey)
    && o in rows
    && rows[o].imageKey == e.imageKey
    && rows[o].uploaded
    && rows[o].status.Ready?
    && rows[o].remoteGame == Some(game)
    && rows[o].names == Names(e, t)
    && rows[o].capturedAt == e.capturedAt
    && ack == Acknowledgement(o.client, rows[o].id)
  }

  ghost predicate Settled(rows: Rows, user: string, game: string, entries: seq<Entry>, acks: seq<Acknowledgement>,
                          t: Text) {
    |acks| == |entries| && forall i | 0 <= i < |entries| :: SettledAt(rows, user, game, entries[i], acks[i], t)
  }

  ghost predicate AllUnlocked(entries: seq<Entry>, unlocked: set<string>, t: Text) {
    forall i, name | 0 <= i < |entries| && name in Names(entries[i], t) :: name in unlocked
  }

  /** Equal but for the shop a souvenir is filed under. */
  predicate SameButShop(rows: Rows, others: Rows) {
    rows.Keys == others.Keys && forall o | o in rows :: SameRowButShop(rows[o], others[o])
  }

  predicate SameRowButShop(row: Souvenir, other: Souvenir) {
    other == row.(shop := other.shop, objectId := other.objectId)
  }

  // ---------------------------------------------------------------------------
  // A settled payload is acknowledged again
  // ---------------------------------------------------------------------------

  lemma SettledIsUnobstructed(rows: Rows, before: Rows, user: string, game: Game, e: Entry, ack: Acknowledgement,
                              unlocked: set<string>, t: Text)
    requires Inv(rows) && SameButShop(rows, before) && SettledAt(rows, user, game.remoteId, e, ack, t)
    requires forall name | name in Names(e, t) :: name in unlocked
    ensures Obstacle(before, user, game, e, unlocked, t).None?
    ensures var o := OwnerOf(user, e, t);
            && before[o].id == ack.id
            && SameButShop(rows, before[o := Written(before[o], game, e, t)])
  {
    var own := OwnerOf(user, e, t);
    hide Names, Normalized, KeyBelongsTo, Sound, Shared;
    forall o | o in before && Holder(before, o, user, game.remoteId) && before[o].id != before[own].id
      ensures !Shared(Names(e, t), before[o].names)
    {
      assert SameRowButShop(rows[o], before[o]) && SameRowButShop(rows[own], before[own]);
      assert Rivals(rows, own, o);
    }
    assert SameRowButShop(rows[own], before[own]);
    hide OwnIdentity;
  }

  lemma SettledInit(rows: Rows, user: string, game: string, entries: seq<Entry>, acks: seq<Acknowledgement>,
                    unlocked: set<string>, t: Text)
    requires entries != [] && Settled(rows, user, game, entries, acks, t) && AllUnlocked(entries, unlocked, t)
    ensures var n := |entries| - 1;
            && |acks| == |entries|
            && Settled(rows, user, game, entries[..n], acks[..n], t)
            && AllUnlocked(entries[..n], unlocked, t)
            && SettledAt(rows, user, game, entries[n], acks[n], t)
            && (forall name | name in Names(entries[n], t) :: name in unlocked)
            && acks[n].clientId == OwnerOf(user, entries[n], t).client
            && acks == acks[..n] + [acks[n]]
  {
  }

  lemma {:induction false} SettledIsAcknowledged(rows: Rows, user: string, game: Game, entries: seq<Entry>,
                                                 acks: seq<Acknowledgement>, unlocked: set<string>, t: Text)
    requires Inv(rows) && Settled(rows, user, game.remoteId, entries, acks, t) && AllUnlocked(entries, unlocked, t)
    ensures var (after, claim) := ClaimAll(rows, user, game, entries, unlocked, t);
            claim == Claimed(acks) && SameButShop(rows, after)
  {
    SameAsItself(rows);
    if entries != [] {
      hide Inv, Settled, AllUnlocked, SettledAt, SameButShop, Obstacle, Written, Names;
      var n := |entries| - 1;
      SettledInit(rows, user, game.remoteId, entries, acks, unlocked, t);
      SettledIsAcknowledged(rows, user, game, entries[..n], acks[..n], unlocked, t);
      var before := ClaimAll(rows, user, game, entries[..n], unlocked, t).0;
      SettledIsUnobstructed(rows, before, user, game, entries[n], acks[n], unlocked, t);
    }
  }

  lemma SameAsItself(rows: Rows)
    ensures SameButShop(rows, rows)
  {
  }

  // ---------------------------------------------------------------------------
  // A successful sync settles its payload
  // ---------------------------------------------------------------------------

  ghost predicate DistinctClients(entries: seq<Entry>, t: Text) {
    forall i, j | 0 <= i < j < |entries| :: Client(entries[i], t) != Client(entries[j], t)
  }

  lemma {:induction false} AckAt(rows: Rows, user: string, entries: seq<Entry>, t: Text, i: nat)
    requires i < |entries| && forall e | e in entries :: OwnerOf(user, e, t) in rows
    ensures |AcksOf(rows, user, entries, t)| == |entries|
    ensures var o := OwnerOf(user, entries[i], t);
            AcksOf(rows, user, entries, t)[i] == Acknowledgement(o.client, rows[o].id)
  {
    if |entries| > 1 {
      var n := |entries| - 1;
      AckAt(rows, user, entries[..n], t, if i < n then i else 0);
      assert i < n ==> entries[..n][i] == entries[i];
    }
  }

  lemma ClaimSettles(rows: Rows, user: string, game: Game, entries: seq<Entry>, unlocked: set<string>, t: Text)
    requires Inv(rows) && DistinctClients(entries, t)
    requires ClaimAll(rows, user, game, entries, unlocked, t).1.Claimed?
    ensures var (after, claim) := ClaimAll(rows, user, game, entries, unlocked, t);
            Settled(after, user, game.remoteId, entries, claim.acks, t) && AllUnlocked(entries, unlocked, t)
  {
    InvDistinguishes(rows);
    ClaimedExactly(rows, user, game, entries, unlocked, t);
    hide ClaimAll, Inv, Passes, DistinctIds, AcksOf, Applied, Names;
    var after, acks := Applied(rows, user, game, entries, t), AcksOf(rows, user, entries, t);
    assert entries == [] ==> acks == [] by { NoAcks(rows, user, t); }
    forall i | 0 <= i < |entries|
      ensures |acks| == |entries| && SettledAt(after, user, game.remoteId, entries[i], acks[i], t)
      ensures forall name | name in Names(entries[i], t) :: name in unlocked
    {
      PassesOnceAt(rows, user, game, entries, i, unlocked, t);
      SettlesAt(rows, user, game, entries, i, unlocked, t);
      assert Redeemable(rows, user, entries[i], unlocked, t);
    }
    hide SettledAt;
  }

  lemma NoAcks(rows: Rows, user: string, t: Text)
    ensures AcksOf(rows, user, [], t) == []
  {
  }

  lemma NamedOnce(entries: seq<Entry>, i: nat, t: Text)
    requires i < |entries| && DistinctClients(entries, t)
    ensures LastFor(entries, Client(entries[i], t), t) == i
  {
  }

  lemma SettlesAt(rows: Rows, user: string, game: Game, entries: seq<Entry>, i: nat, unlocked: set<string>, t: Text)
    requires i < |entries| && DistinctClients(entries, t) && forall e | e in entries :: OwnerOf(user, e, t) in rows
    requires Redeemable(rows, user, entries[i], unlocked, t)
    ensures var acks := AcksOf(rows, user, entries, t);
            |acks| == |entries| && SettledAt(Applied(rows, user, game, entries, t), user, game.remoteId, entries[i],
                                             acks[i], t)
  {
    AckAt(rows, user, entries, t, i);
    var o := OwnerOf(user, entries[i], t);
    AppliedAt(rows, user, game, entries, t, o);
    NamedOnce(entries, i, t);
    hide Applied, AcksOf, Names, Normalized, KeyBelongsTo, LastFor, DistinctClients;
  }

  // ---------------------------------------------------------------------------
  // Nothing else unsettles it
  // ---------------------------------------------------------------------------

  /** Not a deletion of one of the payload's souvenirs, no reset of the game's achievements, and no payload of the
      same user that asks for one of its souvenirs anew. */
  ghost predicate Undisturbing(op: Op, user: string, p: Payload, acks: seq<Acknowledgement>, t: Text) {
    match op
    case SyncAchievements(other, q) =>
      other != user || forall f | f in p.souvenirs :: LeavesAsIs(q.game, q.souvenirs, p.game, f, t)
    case ResetAchievements(other, game) => other != user || game != p.game
    case Remove(other, id) => other != user || forall ack | ack in acks :: ack.id != id
    case _ => true
  }

  /** An entry for the same client and picture asks for the same. */
  ghost predicate LeavesAsIs(game: string, entries: seq<Entry>, was: string, f: Entry, t: Text) {
    forall e | e in entries && Client(e, t) == Client(f, t) && e.imageKey == f.imageKey
      :: game == was && Names(e, t) == Names(f, t) && e.capturedAt == f.capturedAt
  }

  /** Claims that ask for the same leave it settled, and so do those of other clients. */
  lemma {:induction false} ClaimsKeepSettled(rows: Rows, user: string, game: Game, entries: seq<Entry>,
                                             unlocked: set<string>, t: Text,
                                             was: string, f: Entry, ack: Acknowledgement)
    requires SettledAt(rows, user, was, f, ack, t) && LeavesAsIs(game.remoteId, entries, was, f, t)
    ensures SettledAt(ClaimAll(rows, user, game, entries, unlocked, t).0, user, was, f, ack, t)
  {
    if entries != [] {
      hide Names, Normalized, KeyBelongsTo, Captured;
      var e := entries[|entries| - 1];
      assert e in entries;
      ClaimsKeepSettled(rows, user, game, entries[..|entries| - 1], unlocked, t, was, f, ack);
    }
  }

  lemma {:induction false} ClaimsTouchOnlyTheirs(rows: Rows, user: string, game: Game, entries: seq<Entry>,
                                                 unlocked: set<string>, t: Text, o: Owner)
    requires o in rows && forall e | e in entries :: OwnerOf(user, e, t) != o
    ensures o in ClaimAll(rows, user, game, entries, unlocked, t).0
    ensures ClaimAll(rows, user, game, entries, unlocked, t).0[o] == rows[o]
  {
    if entries != [] {
      ClaimsTouchOnlyTheirs(rows, user, game, entries[..|entries| - 1], unlocked, t, o);
      assert OwnerOf(user, entries[|entries| - 1], t) != o;
      hide Written, Names, Normalized, KeyBelongsTo, Captured;
    }
  }

  /** Any step but a sync by its user leaves a ready, undeleted row's contents alone. */
  lemma QuietStepKeepsRow(store: Store, op: Op, t: Text, o: Owner)
    requires o in store.rows && store.rows[o].status.Ready? && store.rows[o].uploaded
    requires op.SyncAchievements? ==> op.user != o.user
    requires op.Remove? ==> op.user != o.user || op.id != store.rows[o].id
    ensures o in Step(store, op, t).rows
    ensures Step(store, op, t).rows[o] == store.rows[o].(size := Step(store, op, t).rows[o].size)
  {
    if op.SyncAchievements? {
      var now := Advanced(store, op.user, op.payload, t);
      ClaimsTouchOnlyTheirs(store.rows, op.user, Game(op.payload.game, now.shop, now.objectId), op.payload.souvenirs,
                            Unlocked(now.achievements, t), t, o);
    }
    hide ClaimAll, Advanced;
  }

  lemma SettledSurvives(rows: Rows, after: Rows, user: string, game: string, e: Entry, ack: Acknowledgement, t: Text)
    requires SettledAt(rows, user, game, e, ack, t)
    requires var o := OwnerOf(user, e, t); o in after && SameCapturedPicture(rows[o], after[o])
    ensures SettledAt(after, user, game, e, ack, t)
  {
  }

  predicate SameCapturedPicture(row: Souvenir, other: Souvenir) {
    other == row.(shop := other.shop, objectId := other.objectId, size := other.size)
  }

  lemma SyncKeepsSettled(store: Store, op: Op, was: string, f: Entry, ack: Acknowledgement, t: Text)
    requires op.SyncAchievements? && SettledAt(store.rows, op.user, was, f, ack, t)
    requires LeavesAsIs(op.payload.game, op.payload.souvenirs, was, f, t)
    ensures SettledAt(Step(store, op, t).rows, op.user, was, f, ack, t)
  {
    var now := Advanced(store, op.user, op.payload, t);
    ClaimsKeepSettled(store.rows, op.user, Game(op.payload.game, now.shop, now.objectId), op.payload.souvenirs,
                      Unlocked(now.achievements, t), t, was, f, ack);
    hide SettledAt, ClaimAll, Advanced, Unlocked, LeavesAsIs;
  }

  lemma StepKeepsSettled(store: Store, op: Op, user: string, p: Payload, acks: seq<Acknowledgement>, t: Text)
    requires Inv(store.rows) && Settled(store.rows, user, p.game, p.souvenirs, acks, t)
    requires Undisturbing(op, user, p, acks, t)
    ensures Settled(Step(store, op, t).rows, user, p.game, p.souvenirs, acks, t)
  {
    hide SettledAt, Inv, Step;
    forall i | 0 <= i < |p.souvenirs|
      ensures SettledAt(Step(store, op, t).rows, user, p.game, p.souvenirs[i], acks[i], t)
    {
      var e, o := p.souvenirs[i], OwnerOf(user, p.souvenirs[i], t);
      assert SettledAt(store.rows, user, p.game, e, acks[i], t);
      SettledRow(store.rows, user, p.game, e, acks[i], t);
      assert e in p.souvenirs && acks[i] in acks;
      if op.SyncAchievements? && op.user == user {
        SyncKeepsSettled(store, op, p.game, e, acks[i], t);
      } else {
        QuietStepKeepsRow(store, op, t, o);
        SettledSurvives(store.rows, Step(store, op, t).rows, user, p.game, e, acks[i], t);
      }
    }
  }

  lemma SettledRow(rows: Rows, user: string, game: string, e: Entry, ack: Acknowledgement, t: Text)
    requires SettledAt(rows, user, game, e, ack, t)
    ensures var o := OwnerOf(user, e, t);
            o in rows && rows[o].status.Ready? && rows[o].uploaded && ack == Acknowledgement(o.client, rows[o].id)
  {
  }

  // ---------------------------------------------------------------------------
  // Achievements only grow
  // ---------------------------------------------------------------------------

  function UnlockedIn(store: Store, user: string, game: string, t: Text): set<string> {
    if (user, game) in store.progress then Unlocked(store.progress[(user, game)].achievements, t) else {}
  }

  lemma {:induction false} UnlockedAreNamed(list: seq<Achievement>, t: Text)
    ensures Unlocked(list, t) == Times(list, t.upper).Keys
  {
    if list != [] {
      var n := |list| - 1;
      UnlockedAreNamed(list[..n], t);
      assert list == list[..n] + [list[n]];
      forall name
        ensures name in Unlocked(list, t)
                <==> name in Unlocked(list[..n], t) || (list[n].name.Some? && name == t.upper(list[n].name.value))
      {
        OneMoreUnlocked(list, name, t);
      }
      hide Unlocked;
    }
  }

  lemma OneMoreUnlocked(list: seq<Achievement>, name: string, t: Text)
    requires list != []
    ensures var n := |list| - 1;
            name in Unlocked(list, t)
            <==> name in Unlocked(list[..n], t) || (list[n].name.Some? && name == t.upper(list[n].name.value))
  {
  }

  lemma MergingUnlocksMore(existing: seq<Achievement>, incoming: seq<Achievement>, t: Text)
    ensures Unlocked(existing, t) <= Unlocked(Merged(existing, incoming, t.upper), t)
  {
    MergeKeepsEarliest(existing, incoming, t.upper);
    UnlockedAreNamed(existing, t);
    UnlockedAreNamed(Merged(existing, incoming, t.upper), t);
    hide Merged, Times, Unlocked;
  }

  lemma AdvancingUnlocksMore(store: Store, user: string, p: Payload, t: Text)
    ensures UnlockedIn(store, user, p.game, t) <= Unlocked(Advanced(store, user, p, t).achievements, t)
  {
    if (user, p.game) in store.progress {
      MergingUnlocksMore(store.progress[(user, p.game)].achievements, p.achievements, t);
    }
    hide Unlocked, Merged;
  }

  lemma StepUnlocksMore(store: Store, op: Op, user: string, game: string, t: Text)
    requires op.ResetAchievements? ==> op.user != user || op.game != game
    ensures UnlockedIn(store, user, game, t) <= UnlockedIn(Step(store, op, t), user, game, t)
  {
    if op.SyncAchievements? {
      AdvancingUnlocksMore(store, op.user, op.payload, t);
    }
    hide Unlocked, Advanced, ClaimAll;
  }

  // ---------------------------------------------------------------------------
  // The same payload later
  // ---------------------------------------------------------------------------

  lemma SamePayloadAgain(store: Store, user: string, p: Payload, acks: seq<Acknowledgement>, t: Text)
    requires Inv(store.rows) && Settled(store.rows, user, p.game, p.souvenirs, acks, t)
    requires AllUnlocked(p.souvenirs, UnlockedIn(store, user, p.game, t), t)
    ensures var (after, claim) := Sync(store, user, p, t);
            claim == Claimed(acks) && SameButShop(store.rows, after.rows)
  {
    var now := Advanced(store, user, p, t);
    AdvancingUnlocksMore(store, user, p, t);
    assert AllUnlocked(p.souvenirs, Unlocked(now.achievements, t), t);
    SettledIsAcknowledged(store.rows, user, Game(p.game, now.shop, now.objectId), p.souvenirs, acks,
                          Unlocked(now.achievements, t), t);
    hide Inv, Settled, AllUnlocked, Unlocked, Advanced, ClaimAll, SameButShop;
  }

  lemma {:induction false} RunKeepsSettled(store: Store, ops: seq<Op>, user: string, p: Payload,
                                           acks: seq<Acknowledgement>, t: Text)
    requires Inv(store.rows) && Settled(store.rows, user, p.game, p.souvenirs, acks, t)
    requires AllUnlocked(p.souvenirs, UnlockedIn(store, user, p.game, t), t)
    requires forall op | op in ops :: Undisturbing(op, user, p, acks, t)
    ensures var after := After(store, ops, t);
            && Inv(after.rows)
            && Settled(after.rows, user, p.game, p.souvenirs, acks, t)
            && AllUnlocked(p.souvenirs, UnlockedIn(after, user, p.game, t), t)
  {
    if ops != [] {
      var n := |ops| - 1;
      RunKeepsSettled(store, ops[..n], user, p, acks, t);
      var before := After(store, ops[..n], t);
      StepKeepsInv(before, ops[n], t);
      StepKeepsSettled(before, ops[n], user, p, acks, t);
      assert Undisturbing(ops[n], user, p, acks, t);
      StepUnlocksMore(before, ops[n], user, p.game, t);
      hide Inv, Settled, Step, UnlockedIn, Undisturbing, Names;
    }
  }

  /** A successful sync whose client ids are all different is acknowledged with the same ids whenever it is
      repeated, whatever ran in between, as long as none of its souvenirs was deleted, no later payload asked for
      one of them with other names, another time or for another game, and its game was not reset; the repetition
      changes no souvenir, apart from where it is filed. So a retry inside a larger payload does no harm. */
  lemma SyncRepeatsLater(store: Store, user: string, p: Payload, ops: seq<Op>, t: Text)
    requires Inv(store.rows) && DistinctClients(p.souvenirs, t) && Sync(store, user, p, t).1.Claimed?
    requires forall op | op in ops :: Undisturbing(op, user, p, Sync(store, user, p, t).1.acks, t)
    ensures var (once, first) := Sync(store, user, p, t);
            var later := After(once, ops, t);
            var (twice, second) := Sync(later, user, p, t);
            second == first && SameButShop(later.rows, twice.rows)
  {
    var (once, first) := Sync(store, user, p, t);
    var now := Advanced(store, user, p, t);
    var game := Game(p.game, now.shop, now.objectId);
    ClaimSettles(store.rows, user, game, p.souvenirs, Unlocked(now.achievements, t), t);
    ClaimAllKeepsInv(store.rows, user, game, p.souvenirs, Unlocked(now.achievements, t), t);
    assert UnlockedIn(once, user, p.game, t) == Unlocked(now.achievements, t);
    hide Inv, Settled, AllUnlocked, UnlockedIn, Undisturbing, SameButShop, ClaimAll, Advanced, Unlocked;
    RunKeepsSettled(once, ops, user, p, first.acks, t);
    SamePayloadAgain(After(once, ops, t), user, p, first.acks, t);
    hide Sync, After;
  }
}
