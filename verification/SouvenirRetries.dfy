/** The souvenir calls repeated, as a launcher that lost an answer repeats them. */
module SouvenirRetries {
  import opened Achievements
  import opened Options
  import opened Souvenirs
  import opened SouvenirRuns

  // ---------------------------------------------------------------------------
  // Authorizing again
  // ---------------------------------------------------------------------------

  /** The reservation is there after every step. */
  ghost predicate Stays(store: Store, ops: seq<Op>, t: Text, o: Owner) {
    forall n | 0 <= n <= |ops| :: o in After(store, ops[..n], t).rows
  }

  lemma {:induction false} ClaimsKeepKeys(rows: Rows, user: string, game: Game, entries: seq<Entry>,
                                          unlocked: set<string>, t: Text)
    ensures var after := ClaimAll(rows, user, game, entries, unlocked, t).0;
            && after.Keys == rows.Keys
            && forall o | o in rows :: SameReservation(rows[o], after[o])
  {
    if entries != [] {
      ClaimsKeepKeys(rows, user, game, entries[..|entries| - 1], unlocked, t);
      hide Obstacle, Names;
    }
  }

  predicate SameReservation(was: Souvenir, now: Souvenir) {
    was.id == now.id && was.imageKey == now.imageKey && was.uploaded == now.uploaded
  }

  lemma StepKeepsKey(store: Store, op: Op, t: Text, o: Owner)
    requires o in store.rows && o in Step(store, op, t).rows
    ensures var now := Step(store, op, t).rows[o];
            now.id == store.rows[o].id && now.imageKey == store.rows[o].imageKey
              && (store.rows[o].uploaded ==> now.uploaded)
  {
    if op.SyncAchievements? {
      var now := Advanced(store, op.user, op.payload, t);
      ClaimsKeepKeys(store.rows, op.user, Game(op.payload.game, now.shop, now.objectId), op.payload.souvenirs,
                     Unlocked(now.achievements, t), t);
    }
  }

  lemma {:induction false} RunKeepsKey(store: Store, ops: seq<Op>, t: Text, o: Owner)
    requires Stays(store, ops, t, o)
    ensures o in store.rows && o in After(store, ops, t).rows
    ensures After(store, ops, t).rows[o].imageKey == store.rows[o].imageKey
  {
    assert ops[..|ops|] == ops;
    assert o in After(store, ops[..0], t).rows;
    if ops != [] {
      var init := ops[..|ops| - 1];
      forall n | 0 <= n <= |init|
        ensures o in After(store, init[..n], t).rows
      {
        assert init[..n] == ops[..n];
      }
      RunKeepsKey(store, init, t, o);
      StepKeepsKey(After(store, init, t), ops[|ops| - 1], t, o);
    }
  }

  /** The same client id always gets the same key, whatever happened in between, as long as its reservation was
      neither swept nor deleted; and it is told to upload exactly if the picture is not here yet. */
  lemma AuthorizeRepeats(store: Store, user: string, first: Request, now: int, ops: seq<Op>, again: Request, later: int,
                         t: Text)
    requires Reserve(store.rows, user, first, now).1.Upload? || Reserve(store.rows, user, first, now).1.AlreadyHere?
    requires ClientOf(again) == ClientOf(first)
    requires again.extension.Some? && 0 < again.length <= MAX_SOUVENIR_BYTES
    requires Stays(store.(rows := Reserve(store.rows, user, first, now).0), ops, t, Owner(user, ClientOf(first)))
    ensures var reserved := store.(rows := Reserve(store.rows, user, first, now).0);
            var rows := After(reserved, ops, t).rows;
            && Owner(user, ClientOf(first)) in rows
            && Reserve(rows, user, again, later)
               == (rows, if rows[Owner(user, ClientOf(first))].uploaded
                         then AlreadyHere(Reserve(store.rows, user, first, now).1.key)
                         else Upload(Reserve(store.rows, user, first, now).1.key))
  {
    var reserved := store.(rows := Reserve(store.rows, user, first, now).0);
    RunKeepsKey(reserved, ops, t, Owner(user, ClientOf(first)));
    hide After, Stays;
  }

  // ---------------------------------------------------------------------------
  // What a payload leaves behind
  // ---------------------------------------------------------------------------

  function OwnerOf(user: string, e: Entry, t: Text): Owner {
    Owner(user, t.trim(e.clientId))
  }

  /** The writes of a payload, without its checks. */
  function Applied(rows: Rows, user: string, game: Game, entries: seq<Entry>, t: Text): (after: Rows)
    ensures after.Keys == rows.Keys
    ensures forall o | o in rows :: SameReservation(rows[o], after[o])
  {
    if entries == [] then rows
    else
      var before, e := Applied(rows, user, game, entries[..|entries| - 1], t), entries[|entries| - 1];
      var o := OwnerOf(user, e, t);
      if o !in before then before
      else
        hide Names;
        before[o := Written(before[o], game, e, t)]
  }

  function AcksOf(rows: Rows, user: string, entries: seq<Entry>, t: Text): seq<Acknowledgement>
    requires forall e | e in entries :: OwnerOf(user, e, t) in rows
  {
    if entries == [] then []
    else
      var o := OwnerOf(user, entries[|entries| - 1], t);
      AcksOf(rows, user, entries[..|entries| - 1], t) + [Acknowledgement(o.client, rows[o].id)]
  }

  /** Every claim in turn meets no obstacle. */
  predicate Passes(rows: Rows, user: string, game: Game, entries: seq<Entry>, unlocked: set<string>, t: Text) {
    forall i | 0 <= i < |entries| :: ObstacleAt(rows, user, game, entries, i, unlocked, t).None?
  }

  function ObstacleAt(rows: Rows, user: string, game: Game, entries: seq<Entry>, i: nat, unlocked: set<string>,
                      t: Text): Option<Conflict>
    requires i < |entries|
  {
    Obstacle(Applied(rows, user, game, entries[..i], t), user, game, entries[i], unlocked, t)
  }

  lemma PassesInit(rows: Rows, user: string, game: Game, entries: seq<Entry>, unlocked: set<string>, t: Text)
    requires entries != []
    ensures var n := |entries| - 1;
            Passes(rows, user, game, entries, unlocked, t)
            <==> Passes(rows, user, game, entries[..n], unlocked, t)
                 && ObstacleAt(rows, user, game, entries, n, unlocked, t).None?
  {
    var n := |entries| - 1;
    forall i | 0 <= i < n
      ensures ObstacleAt(rows, user, game, entries[..n], i, unlocked, t)
              == ObstacleAt(rows, user, game, entries, i, unlocked, t)
    {
      assert entries[..n][..i] == entries[..i];
    }
    hide ObstacleAt;
  }

  lemma UnobstructedIsReserved(rows: Rows, user: string, game: Game, e: Entry, unlocked: set<string>, t: Text)
    requires Obstacle(rows, user, game, e, unlocked, t).None?
    ensures OwnerOf(user, e, t) in rows
  {
  }

  /** A payload is claimed exactly if no entry meets an obstacle in its turn. */
  lemma {:induction false} ClaimedExactly(rows: Rows, user: string, game: Game, entries: seq<Entry>,
                                          unlocked: set<string>, t: Text)
    ensures var (after, claim) := ClaimAll(rows, user, game, entries, unlocked, t);
            && (claim.Claimed? <==> Passes(rows, user, game, entries, unlocked, t))
            && (claim.Claimed? ==>
                && after == Applied(rows, user, game, entries, t)
                && (forall e | e in entries :: OwnerOf(user, e, t) in rows)
                && claim.acks == AcksOf(rows, user, entries, t))
  {
    hide Obstacle, Written, SameReservation;
    if entries != [] {
      var n := |entries| - 1;
      ClaimedExactly(rows, user, game, entries[..n], unlocked, t);
      PassesInit(rows, user, game, entries, unlocked, t);
      if ObstacleAt(rows, user, game, entries, n, unlocked, t).None? {
        UnobstructedIsReserved(Applied(rows, user, game, entries[..n], t), user, game, entries[n], unlocked, t);
      }
      assert entries == entries[..n] + [entries[n]];
      AppliedKeepsIds(rows, user, game, entries[..n], t);
      hide Passes;
    }
  }

  lemma AppliedKeepsIds(rows: Rows, user: string, game: Game, entries: seq<Entry>, t: Text)
    ensures forall o | o in rows :: Applied(rows, user, game, entries, t)[o].id == rows[o].id
  {
  }

  // ---------------------------------------------------------------------------
  // Which entry a row ends up with
  // ---------------------------------------------------------------------------

  function Client(e: Entry, t: Text): string {
    t.trim(e.clientId)
  }

  /** The last entry for a client, or the number of entries where there is none. */
  function LastFor(entries: seq<Entry>, client: string, t: Text): (at: nat)
    ensures at <= |entries|
    ensures at < |entries| ==> Client(entries[at], t) == client
    ensures forall i | 0 <= i < |entries| && (i > at || at == |entries|) :: Client(entries[i], t) != client
  {
    if entries == [] then 0
    else
      var n := |entries| - 1;
      if Client(entries[n], t) == client then n
      else
        var before := LastFor(entries[..n], client, t);
        assert forall i | 0 <= i < n :: entries[..n][i] == entries[i];
        if before == n then n + 1 else before
  }

  function Left(row: Souvenir, game: Game, entries: seq<Entry>, client: string, t: Text): Souvenir {
    var at := LastFor(entries, client, t);
    if at < |entries| then Written(row, game, entries[at], t) else row
  }

  lemma LeftByLast(row: Souvenir, game: Game, entries: seq<Entry>, client: string, t: Text)
    requires entries != []
    ensures var n := |entries| - 1;
            Left(row, game, entries, client, t)
            == if Client(entries[n], t) == client
               then Written(Left(row, game, entries[..n], client, t), game, entries[n], t)
               else Left(row, game, entries[..n], client, t)
  {
    hide Names;
    var n := |entries| - 1;
    assert forall i | 0 <= i < n :: entries[..n][i] == entries[i];
  }

  lemma {:induction false} AppliedAt(rows: Rows, user: string, game: Game, entries: seq<Entry>, t: Text, o: Owner)
    requires o in rows
    ensures Applied(rows, user, game, entries, t)[o]
            == if o.user == user then Left(rows[o], game, entries, o.client, t) else rows[o]
  {
    if entries != [] {
      AppliedAt(rows, user, game, entries[..|entries| - 1], t, o);
      LeftByLast(rows[o], game, entries, o.client, t);
      hide Left, Written;
    }
  }

  // ---------------------------------------------------------------------------
  // The same payload again, at once
  // ---------------------------------------------------------------------------

  /** What a claim checks of its own reservation. */
  predicate Redeemable(rows: Rows, user: string, e: Entry, unlocked: set<string>, t: Text) {
    var o := OwnerOf(user, e, t);
    && o.client != ""
    && Normalized(e.names, t) != []
    && KeyBelongsTo(user, e.imageKey)
    && (forall name | name in Names(e, t) :: name in unlocked)
    && o in rows
    && rows[o].imageKey == e.imageKey
    && rows[o].uploaded
  }

  /** What it checks of the others. */
  predicate Blocked(rows: Rows, user: string, game: string, own: Owner, names: seq<string>) {
    exists o | o in rows && o != own :: Holder(rows, o, user, game) && Shared(names, rows[o].names)
  }

  predicate DistinctIds(rows: Rows) {
    forall o, p | o in rows && p in rows && o != p :: rows[o].id != rows[p].id
  }

  lemma ObstacleSplits(rows: Rows, user: string, game: Game, e: Entry, unlocked: set<string>, t: Text)
    requires DistinctIds(rows)
    ensures Obstacle(rows, user, game, e, unlocked, t).None?
            <==> Redeemable(rows, user, e, unlocked, t)
                 && !Blocked(rows, user, game.remoteId, OwnerOf(user, e, t), Names(e, t))
    ensures Redeemable(rows, user, e, unlocked, t) && Obstacle(rows, user, game, e, unlocked, t).Some?
            ==> Obstacle(rows, user, game, e, unlocked, t) == Some(AlreadyAssigned)
  {
  }

  lemma SameRedeemable(rows: Rows, others: Rows, user: string, e: Entry, unlocked: set<string>, t: Text)
    requires rows.Keys == others.Keys && forall o | o in rows :: SameReservation(rows[o], others[o])
    ensures Redeemable(rows, user, e, unlocked, t) == Redeemable(others, user, e, unlocked, t)
    ensures DistinctIds(rows) == DistinctIds(others)
  {
  }

  /** The client is not named up to entry i, but is later. */
  predicate FirstNamedAfter(entries: seq<Entry>, i: nat, client: string, t: Text)
    requires i < |entries|
  {
    LastFor(entries[..i + 1], client, t) == i + 1 && LastFor(entries, client, t) < |entries|
  }

  /** The entry shares no name with what any client first named after it ends up with. */
  predicate ClearAhead(entries: seq<Entry>, i: nat, t: Text)
    requires i < |entries|
  {
    forall j | i < j < |entries| && FirstNamedAfter(entries, i, Client(entries[j], t), t)
      && LastFor(entries, Client(entries[j], t), t) == j
      :: !Shared(Names(entries[i], t), Names(entries[j], t))
  }

  predicate Untangled(entries: seq<Entry>, t: Text) {
    forall i | 0 <= i < |entries| :: ClearAhead(entries, i, t)
  }

  lemma OneMoreEntry(entries: seq<Entry>, i: nat, client: string, t: Text)
    requires i < |entries| && Client(entries[i], t) != client
    ensures LastFor(entries[..i], client, t) == i <==> LastFor(entries[..i + 1], client, t) == i + 1
    ensures LastFor(entries[..i], client, t) < i ==> LastFor(entries, client, t) < |entries|
  {
  }

  predicate SameCapture(a: Souvenir, b: Souvenir) {
    a.status == b.status && a.remoteGame == b.remoteGame && a.names == b.names
  }

  /** How a row stands when the repeated payload has reached entry i: as it stood the first time, unless its
      client is only named later, and then as the first time left it. */
  lemma RowAgain(rows: Rows, user: string, game: Game, entries: seq<Entry>, i: nat, t: Text, o: Owner)
    requires i < |entries| && o in rows && o.user == user && o.client != Client(entries[i], t)
    ensures var row := Applied(Applied(rows, user, game, entries, t), user, game, entries[..i], t)[o];
            if FirstNamedAfter(entries, i, o.client, t)
            then row.status.Ready? && row.remoteGame == Some(game.remoteId)
              && row.names == Names(entries[LastFor(entries, o.client, t)], t)
            else SameCapture(row, Applied(rows, user, game, entries[..i], t)[o])
  {
    var again := Applied(rows, user, game, entries, t);
    AppliedAt(rows, user, game, entries, t, o);
    AppliedAt(rows, user, game, entries[..i], t, o);
    AppliedAt(again, user, game, entries[..i], t, o);
    OneMoreEntry(entries, i, o.client, t);
    hide Names, Applied, LastFor;
  }

  /** The second time, entry i is blocked exactly by clients first named after it. */
  lemma BlockedAgain(rows: Rows, user: string, game: Game, entries: seq<Entry>, i: nat, t: Text)
    requires i < |entries| && forall e | e in entries :: OwnerOf(user, e, t) in rows
    requires !Blocked(Applied(rows, user, game, entries[..i], t), user, game.remoteId, OwnerOf(user, entries[i], t),
                      Names(entries[i], t))
    ensures Blocked(Applied(Applied(rows, user, game, entries, t), user, game, entries[..i], t), user, game.remoteId,
                    OwnerOf(user, entries[i], t), Names(entries[i], t))
            <==> !ClearAhead(entries, i, t)
  {
    var again := Applied(Applied(rows, user, game, entries, t), user, game, entries[..i], t);
    var own, names := OwnerOf(user, entries[i], t), Names(entries[i], t);
    hide Applied, Names, Shared, LastFor;
    if Blocked(again, user, game.remoteId, own, names) {
      var o :| o in again && o != own && Holder(again, o, user, game.remoteId) && Shared(names, again[o].names);
      RowAgain(rows, user, game, entries, i, t, o);
      assert FirstNamedAfter(entries, i, o.client, t);
      NamedLater(entries, i, o.client, t);
      assert !ClearAhead(entries, i, t);
    }
    if !ClearAhead(entries, i, t) {
      var j :| i < j < |entries| && FirstNamedAfter(entries, i, Client(entries[j], t), t)
          && LastFor(entries, Client(entries[j], t), t) == j
               && Shared(names, Names(entries[j], t));
      var o := OwnerOf(user, entries[j], t);
      NamedLater(entries, i, o.client, t);
      assert entries[j] in entries;
      RowAgain(rows, user, game, entries, i, t, o);
      assert Holder(again, o, user, game.remoteId) && Shared(names, again[o].names);
    }
  }

  lemma NamedLater(entries: seq<Entry>, i: nat, client: string, t: Text)
    requires i < |entries| && FirstNamedAfter(entries, i, client, t)
    ensures Client(entries[i], t) != client && LastFor(entries, client, t) > i
  {
    hide LastFor, Client;
    var sofar := entries[..i + 1];
    assert forall j | 0 <= j <= i :: sofar[j] == entries[j];
  }

  /** Writing what is already written changes nothing. */
  lemma AppliedTwice(rows: Rows, user: string, game: Game, entries: seq<Entry>, t: Text)
    ensures var once := Applied(rows, user, game, entries, t); Applied(once, user, game, entries, t) == once
  {
    var once := Applied(rows, user, game, entries, t);
    forall o | o in rows
      ensures Applied(once, user, game, entries, t)[o] == once[o]
    {
      AppliedAt(rows, user, game, entries, t, o);
      AppliedAt(once, user, game, entries, t, o);
      hide Applied, Names, LastFor;
    }
  }

  lemma PassesOnceAt(rows: Rows, user: string, game: Game, entries: seq<Entry>, i: nat, unlocked: set<string>, t: Text)
    requires DistinctIds(rows) && Passes(rows, user, game, entries, unlocked, t) && i < |entries|
    ensures Redeemable(rows, user, entries[i], unlocked, t)
    ensures !Blocked(Applied(rows, user, game, entries[..i], t), user, game.remoteId, OwnerOf(user, entries[i], t),
                     Names(entries[i], t))
  {
    assert ObstacleAt(rows, user, game, entries, i, unlocked, t).None?;
    var before := Applied(rows, user, game, entries[..i], t);
    SameRedeemable(rows, before, user, entries[i], unlocked, t);
    ObstacleSplits(before, user, game, entries[i], unlocked, t);
    hide Applied, Names, Redeemable, Blocked, DistinctIds;
  }

  lemma PassesAgainAt(rows: Rows, user: string, game: Game, entries: seq<Entry>, i: nat, unlocked: set<string>, t: Text)
    requires DistinctIds(rows) && Passes(rows, user, game, entries, unlocked, t) && i < |entries|
    requires forall e | e in entries :: OwnerOf(user, e, t) in rows
    ensures var obstacle := ObstacleAt(Applied(rows, user, game, entries, t), user, game, entries, i, unlocked, t);
            && (obstacle.None? <==> ClearAhead(entries, i, t))
            && (obstacle.Some? ==> obstacle.value == AlreadyAssigned)
  {
    hide Applied, Names, Redeemable, Blocked, DistinctIds, ClearAhead, Passes, Obstacle, OwnerOf;
    var once := Applied(rows, user, game, entries, t);
    var again := Applied(once, user, game, entries[..i], t);
    PassesOnceAt(rows, user, game, entries, i, unlocked, t);
    BlockedAgain(rows, user, game, entries, i, t);
    SameRedeemable(rows, again, user, entries[i], unlocked, t);
    ObstacleSplits(again, user, game, entries[i], unlocked, t);
  }

  /** A refusal comes from the first entry that meets an obstacle. */
  lemma {:induction false} RefusedByAnObstacle(rows: Rows, user: string, game: Game, entries: seq<Entry>,
                                               unlocked: set<string>, t: Text)
    requires ClaimAll(rows, user, game, entries, unlocked, t).1.Refused?
    ensures exists i | 0 <= i < |entries| ::
              ObstacleAt(rows, user, game, entries, i, unlocked, t)
                == Some(ClaimAll(rows, user, game, entries, unlocked, t).1.conflict)
  {
    hide Obstacle, Written;
    var n := |entries| - 1;
    var before := ClaimAll(rows, user, game, entries[..n], unlocked, t);
    if before.1.Refused? {
      RefusedByAnObstacle(rows, user, game, entries[..n], unlocked, t);
      var i :| 0 <= i < n && ObstacleAt(rows, user, game, entries[..n], i, unlocked, t) == Some(before.1.conflict);
      assert entries[..n][..i] == entries[..i];
      assert ObstacleAt(rows, user, game, entries, i, unlocked, t) == Some(before.1.conflict);
    } else {
      ClaimedExactly(rows, user, game, entries[..n], unlocked, t);
      assert ObstacleAt(rows, user, game, entries, n, unlocked, t).Some?;
    }
  }

  /** The claims of a payload, repeated at once: they go through again exactly if the payload is untangled, and
      then everything is as it was. */
  lemma ClaimsRepeatExactly(rows: Rows, user: string, game: Game, entries: seq<Entry>, unlocked: set<string>, t: Text)
    requires DistinctIds(rows) && ClaimAll(rows, user, game, entries, unlocked, t).1.Claimed?
    ensures var first := ClaimAll(rows, user, game, entries, unlocked, t);
            var second := ClaimAll(first.0, user, game, entries, unlocked, t);
            if Untangled(entries, t) then second == first else second.1 == Refused(AlreadyAssigned)
  {
    ClaimedExactly(rows, user, game, entries, unlocked, t);
    var once := Applied(rows, user, game, entries, t);
    ClaimedExactly(once, user, game, entries, unlocked, t);
    AppliedTwice(rows, user, game, entries, t);
    forall i | 0 <= i < |entries|
      ensures ObstacleAt(once, user, game, entries, i, unlocked, t).None? <==> ClearAhead(entries, i, t)
      ensures ObstacleAt(once, user, game, entries, i, unlocked, t).Some?
              ==> ObstacleAt(once, user, game, entries, i, unlocked, t).value == AlreadyAssigned
    {
      PassesAgainAt(rows, user, game, entries, i, unlocked, t);
    }
    if ClaimAll(once, user, game, entries, unlocked, t).1.Refused? {
      RefusedByAnObstacle(once, user, game, entries, unlocked, t);
    }
    SameAcks(rows, once, user, entries, t);
    hide ClaimAll, Applied, ObstacleAt, ClearAhead, AcksOf;
  }

  lemma {:induction false} SameAcks(rows: Rows, once: Rows, user: string, entries: seq<Entry>, t: Text)
    requires rows.Keys == once.Keys && forall o | o in rows :: SameReservation(rows[o], once[o])
    requires forall e | e in entries :: OwnerOf(user, e, t) in rows
    ensures AcksOf(rows, user, entries, t) == AcksOf(once, user, entries, t)
  {
    if entries != [] {
      SameAcks(rows, once, user, entries[..|entries| - 1], t);
    }
  }

  lemma AdvancedTwice(store: Store, user: string, p: Payload, t: Text)
    ensures var once := Sync(store, user, p, t).0; Advanced(once, user, p, t) == Advanced(store, user, p, t)
  {
    var was := if (user, p.game) in store.progress then store.progress[(user, p.game)].achievements else [];
    RepeatedSyncChangesNothing(was, p.achievements, t.upper);
    hide ClaimAll, Merged;
  }

  /** A whole sync that succeeded, repeated at once: it is acknowledged again, the same way and changing nothing,
      exactly if its payload is untangled; otherwise it is refused as already assigned. */
  lemma SyncRepeatsExactly(store: Store, user: string, p: Payload, t: Text)
    requires Inv(store.rows) && Sync(store, user, p, t).1.Claimed?
    ensures var (once, first) := Sync(store, user, p, t);
            var (twice, second) := Sync(once, user, p, t);
            if Untangled(p.souvenirs, t) then second == first && twice == once else second == Refused(AlreadyAssigned)
  {
    var now := Advanced(store, user, p, t);
    AdvancedTwice(store, user, p, t);
    InvDistinguishes(store.rows);
    ClaimsRepeatExactly(store.rows, user, Game(p.game, now.shop, now.objectId), p.souvenirs,
                        Unlocked(now.achievements, t), t);
    hide ClaimAll, Advanced, Untangled, Inv;
  }

  lemma InvDistinguishes(rows: Rows)
    requires Inv(rows)
    ensures DistinctIds(rows)
  {
  }
}
