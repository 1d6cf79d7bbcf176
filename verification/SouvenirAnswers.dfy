/** What each souvenir call answers, and what becomes of every souvenir and every game's unlocks at every step, said on
    the rows. */
module SouvenirAnswers {
  import opened Achievements
  import opened Options
  import opened Paths
  import opened Souvenirs
  import opened SouvenirRuns
  import opened SouvenirRetries
  import opened SouvenirHistory

  // ---------------------------------------------------------------------------
  // Names and keys
  // ---------------------------------------------------------------------------

  /** Where a name is first spelled, or the number of names where it is not. */
  function FirstSpelled(names: seq<string>, name: string, t: Text): (at: nat)
    ensures at <= |names|
    ensures at < |names| ==> t.upper(t.trim(names[at])) == name
    ensures forall i | 0 <= i < at :: t.upper(t.trim(names[i])) != name
  {
    if names == [] || t.upper(t.trim(names[0])) == name then 0
    else
      var rest := FirstSpelled(names[1..], name, t);
      assert forall i | 1 <= i < 1 + rest :: names[i] == names[1..][i - 1];
      1 + rest
  }

  lemma FirstIsFirst(names: seq<string>, name: string, t: Text, at: nat)
    requires at < |names| && t.upper(t.trim(names[at])) == name
    requires forall i | 0 <= i < at :: t.upper(t.trim(names[i])) != name
    ensures FirstSpelled(names, name, t) == at
  {
  }

  /** Names keep the order in which they are first mentioned. */
  lemma {:induction false} NormalizedInOrder(names: seq<string>, t: Text, i: nat, j: nat)
    requires i < j < |Normalized(names, t)|
    ensures FirstSpelled(names, Normalized(names, t)[i], t) < FirstSpelled(names, Normalized(names, t)[j], t) < |names|
  {
    var n := |names| - 1;
    var init, list := Normalized(names[..n], t), Normalized(names, t);
    NormalizedIsSet(names[..n], t);
    NormalizedIsSet(names, t);
    hide Normalized, FirstSpelled;
    assert init <= list by { GrowsByOne(names, t); }
    SpelledEarly(names, init[i], t);
    if j < |init| {
      NormalizedInOrder(names[..n], t, i, j);
      SpelledEarly(names, init[j], t);
    } else {
      GrowsByOne(names, t);
      SpelledLast(names, list[j], t);
    }
  }

  lemma GrowsByOne(names: seq<string>, t: Text)
    requires names != []
    ensures var init, list := Normalized(names[..|names| - 1], t), Normalized(names, t);
            && init <= list && |list| <= |init| + 1
            && (|list| > |init| ==> list[|init|] == t.upper(t.trim(names[|names| - 1])) && list[|init|] !in init
                                    && list[|init|] != "")
  {
  }

  lemma SpelledEarly(names: seq<string>, name: string, t: Text)
    requires names != [] && Spelled(names[..|names| - 1], name, t)
    ensures FirstSpelled(names, name, t) == FirstSpelled(names[..|names| - 1], name, t) < |names| - 1
  {
    var init := names[..|names| - 1];
    var at := FirstSpelled(init, name, t);
    assert forall i | 0 <= i < |init| :: names[i] == init[i];
    var i :| 0 <= i < |init| && t.upper(t.trim(init[i])) == name;
    FirstIsFirst(names, name, t, at);
  }

  lemma SpelledLast(names: seq<string>, name: string, t: Text)
    requires names != [] && !Spelled(names[..|names| - 1], name, t) && t.upper(t.trim(names[|names| - 1])) == name
    ensures FirstSpelled(names, name, t) == |names| - 1
  {
    var init := names[..|names| - 1];
    assert forall i | 0 <= i < |init| :: names[i] == init[i];
    FirstIsFirst(names, name, t, |names| - 1);
  }

  /** A claim lists the first fifty of them. */
  lemma NamesAreFirstFifty(e: Entry, t: Text)
    ensures var all := Normalized(e.names, t);
            Names(e, t) == if |all| < 50 then all else all[..50]
  {
  }

  lemma StartsExactly(folder: string, key: string)
    ensures folder <= key <==> exists rest :: key == folder + rest
  {
    if folder <= key {
      assert key == folder + key[|folder|..];
    }
  }

  /** A key belongs to a user exactly if it is in the user's own folder, climbs nowhere, and is made of letters, digits
      and four signs. */
  lemma KeyBelongsExactly(user: string, key: string)
    ensures KeyBelongsTo(user, key)
            <==> && (exists rest :: key == "images/souvenirs/" + user + "/" + rest)
                 && (!exists before, after :: key == before + ".." + after)
                 && forall c | c in key :: PlainCharacter(c)
  {
    PlainTextExactly(key);
    StartsExactly("images/souvenirs/" + user + "/", key);
    hide PlainText, PlainCharacter;
  }

  // ---------------------------------------------------------------------------
  // Reserving
  // ---------------------------------------------------------------------------

  /** An authorize is refused for its extension, its length or the quota, in that order, and only a client id that has
      no reservation yet is held against the quota; it then gets an empty pending row and a key in the user's own
      folder, and otherwise the key it was given before. Nothing else is written. */
  lemma AuthorizeAnswersExactly(rows: Rows, user: string, r: Request, now: int)
    ensures var (after, reply) := Reserve(rows, user, r, now);
            var o := Owner(user, if r.clientId in {None, Some("")} then r.invented else r.clientId.value);
            var proper := r.extension.Some? && 0 < r.length <= 20_971_520;
            var key := "images/souvenirs/" + user + "/" + r.file + "." + r.extension.Or("");
            var unused := forall p | p in rows :: rows[p].id != r.id && rows[p].imageKey != key;
            && (reply.BadRequest? <==> r.extension.None? || r.length <= 0)
            && (reply.TooLarge? <==> r.extension.Some? && r.length > 20_971_520)
            && (proper && o in rows ==>
                  reply == if rows[o].uploaded then AlreadyHere(rows[o].imageKey) else Upload(rows[o].imageKey))
            && (reply.LimitReached? <==> proper && o !in rows && !r.quota)
            && (reply.StoreRefused? <==> proper && o !in rows && r.quota && !unused)
            && if proper && o !in rows && r.quota && unused then
                 reply == Upload(key)
                 && after == rows[o := Souvenir(r.id, r.remoteGame, None, None, key, false, 0, Pending, [], now, now)]
               else after == rows
  {
    var folder, extension := "images/souvenirs/" + user + "/", r.extension.Or("");
    assert folder + (r.file + "." + extension) == folder + r.file + "." + extension;
    assert ClientOf(r) == if r.clientId in {None, Some("")} then r.invented else r.clientId.value;
    hide ClientOf, StorageKey;
  }

  // ---------------------------------------------------------------------------
  // Claiming
  // ---------------------------------------------------------------------------

  /** The reasons to refuse a claim. */
  ghost predicate Objects(reason: Conflict, rows: Rows, user: string, game: Game, e: Entry, unlocked: set<string>,
                          t: Text) {
    var o := OwnerOf(user, e, t);
    match reason
    case MissingClientId => t.trim(e.clientId) == ""
    case PayloadMismatch =>
      (forall name | name in e.names :: t.upper(t.trim(name)) == "") || !KeyBelongsTo(user, e.imageKey)
    case AchievementNotFound => !(forall name | name in Names(e, t) :: name in unlocked)
    case ReservationNotFound => o !in rows
    case ReservationMismatch => o in rows && rows[o].imageKey != e.imageKey
    case UploadIncomplete => o in rows && !rows[o].uploaded
    case AlreadyAssigned =>
      o in rows && exists p, name | p in rows && name in rows[p].names ::
        p.user == user && rows[p].status.Ready? && rows[p].remoteGame == Some(game.remoteId)
        && rows[p].id != rows[o].id && name in Names(e, t)
  }

  /** The order they are looked for in. */
  function Place(reason: Conflict): nat {
    match reason
    case MissingClientId => 0
    case PayloadMismatch => 1
    case AchievementNotFound => 2
    case ReservationNotFound => 3
    case ReservationMismatch => 4
    case UploadIncomplete => 5
    case AlreadyAssigned => 6
  }

  lemma BlankExactly(names: seq<string>, t: Text)
    ensures Normalized(names, t) == [] <==> forall name | name in names :: t.upper(t.trim(name)) == ""
  {
    NormalizedIsSet(names, t);
    if Normalized(names, t) == [] {
      forall name | name in names
        ensures t.upper(t.trim(name)) == ""
      {
        assert Spelled(names, t.upper(t.trim(name)), t);
      }
    } else {
      var some := Normalized(names, t)[0];
      assert some in Normalized(names, t);
      var i :| 0 <= i < |names| && t.upper(t.trim(names[i])) == some;
      assert names[i] in names;
    }
  }

  lemma CapturedExactly(rows: Rows, user: string, game: Game, id: string, names: seq<string>)
    ensures Captured(rows, user, game.remoteId, id, names)
            <==> exists p, name | p in rows && name in rows[p].names ::
                   p.user == user && rows[p].status.Ready? && rows[p].remoteGame == Some(game.remoteId)
                   && rows[p].id != id && name in names
  {
    if p, name :| p in rows && name in rows[p].names && p.user == user && rows[p].status.Ready?
                  && rows[p].remoteGame == Some(game.remoteId) && rows[p].id != id && name in names {
      assert Holder(rows, p, user, game.remoteId) && Shared(names, rows[p].names);
    }
  }

  lemma ObstacleObjects(rows: Rows, user: string, game: Game, e: Entry, unlocked: set<string>, t: Text)
    ensures var found := Obstacle(rows, user, game, e, unlocked, t);
            && (found.Some? ==> Objects(found.value, rows, user, game, e, unlocked, t))
            && forall other | found.None? || Place(other) < Place(found.value) ::
                 !Objects(other, rows, user, game, e, unlocked, t)
  {
    BlankExactly(e.names, t);
    var o := OwnerOf(user, e, t);
    if o in rows {
      CapturedExactly(rows, user, game, rows[o].id, Names(e, t));
    }
    hide Normalized, Names, KeyBelongsTo, Captured;
  }

  /** A claim goes through exactly if nothing objects, and is otherwise refused for the first reason that does. */
  lemma ObstacleExactly(rows: Rows, user: string, game: Game, e: Entry, unlocked: set<string>, t: Text,
                        reason: Conflict)
    ensures Obstacle(rows, user, game, e, unlocked, t) == Some(reason)
            <==> && Objects(reason, rows, user, game, e, unlocked, t)
                 && forall other | Place(other) < Place(reason) :: !Objects(other, rows, user, game, e, unlocked, t)
    ensures Obstacle(rows, user, game, e, unlocked, t).None?
            <==> forall other :: !Objects(other, rows, user, game, e, unlocked, t)
  {
    ObstacleObjects(rows, user, game, e, unlocked, t);
    hide Obstacle, Objects;
  }

  lemma FirstObstacle(rows: Rows, user: string, game: Game, entries: seq<Entry>, unlocked: set<string>, t: Text)
    returns (n: nat)
    ensures n <= |entries| && forall i | 0 <= i < n :: ObstacleAt(rows, user, game, entries, i, unlocked, t).None?
    ensures n < |entries| ==> ObstacleAt(rows, user, game, entries, n, unlocked, t).Some?
  {
    hide ObstacleAt;
    n := 0;
    while n < |entries| && ObstacleAt(rows, user, game, entries, n, unlocked, t).None?
      invariant n <= |entries| && forall i | 0 <= i < n :: ObstacleAt(rows, user, game, entries, i, unlocked, t).None?
    {
      n := n + 1;
    }
  }

  /** The claims of a payload before the first one with an obstacle stay, and that obstacle is the answer. */
  lemma ClaimsStopExactly(rows: Rows, user: string, game: Game, entries: seq<Entry>, unlocked: set<string>, t: Text)
    returns (n: nat)
    ensures n <= |entries| && forall i | 0 <= i < n :: ObstacleAt(rows, user, game, entries, i, unlocked, t).None?
    ensures n < |entries| ==> ObstacleAt(rows, user, game, entries, n, unlocked, t).Some?
    ensures var (after, claim) := ClaimAll(rows, user, game, entries, unlocked, t);
            && after == Applied(rows, user, game, entries[..n], t)
            && (claim.Claimed? <==> n == |entries|)
            && (n < |entries| ==>
                  claim == Refused(ObstacleAt(rows, user, game, entries, n, unlocked, t).value))
  {
    n := FirstObstacle(rows, user, game, entries, unlocked, t);
    var init := entries[..n];
    forall i | 0 <= i < n
      ensures ObstacleAt(rows, user, game, init, i, unlocked, t).None?
    {
      SameObstacle(rows, user, game, entries, n, i, unlocked, t);
    }
    ClaimedExactly(rows, user, game, init, unlocked, t);
    if n == |entries| {
      assert init == entries;
    } else {
      StopsHere(rows, user, game, entries, n, unlocked, t);
    }
    hide ObstacleAt, ClaimAll, Applied, AcksOf;
  }

  lemma SameObstacle(rows: Rows, user: string, game: Game, entries: seq<Entry>, n: nat, i: nat, unlocked: set<string>,
                     t: Text)
    requires i < n <= |entries|
    ensures ObstacleAt(rows, user, game, entries[..n], i, unlocked, t)
            == ObstacleAt(rows, user, game, entries, i, unlocked, t)
  {
    assert entries[..n][..i] == entries[..i];
    hide Obstacle, Applied;
  }

  lemma StopsHere(rows: Rows, user: string, game: Game, entries: seq<Entry>, n: nat, unlocked: set<string>, t: Text)
    requires n < |entries| && ObstacleAt(rows, user, game, entries, n, unlocked, t).Some?
    requires ClaimAll(rows, user, game, entries[..n], unlocked, t).1.Claimed?
    requires ClaimAll(rows, user, game, entries[..n], unlocked, t).0 == Applied(rows, user, game, entries[..n], t)
    ensures ClaimAll(rows, user, game, entries, unlocked, t)
            == (Applied(rows, user, game, entries[..n], t),
                Refused(ObstacleAt(rows, user, game, entries, n, unlocked, t).value))
  {
    hide Obstacle, Applied, Written;
    assert entries[..n + 1][..n] == entries[..n];
    RefusalStays(rows, user, game, entries, n + 1, unlocked, t);
  }

  // ---------------------------------------------------------------------------
  // Every step
  // ---------------------------------------------------------------------------

  /** The step deletes the souvenir, or sweeps a reservation made before the cutoff that nothing ever claimed. */
  predicate Drops(rows: Rows, op: Op, o: Owner)
    requires o in rows
  {
    || (op.Remove? && op.user == o.user && op.id == rows[o].id)
    || (op.SweepAbandoned? && rows[o].status.Pending? && rows[o].createdAt < op.cutoff)
  }

  /** The rows a step starts with stay, except for those it drops, and the only one it adds is a reservation. */
  lemma StepDropsExactly(store: Store, op: Op, t: Text, o: Owner)
    ensures o in store.rows ==> (o !in Step(store, op, t).rows <==> Drops(store.rows, op, o))
    ensures o !in store.rows && o in Step(store, op, t).rows ==>
              op.Authorize? && o.user == op.user && Step(store, op, t).rows[o].status.Pending?
  {
    hide Obstacle, Written, Advanced, Unlocked, StorageKey;
    if op.SyncAchievements? {
      var now := Advanced(store, op.user, op.payload, t);
      ClaimsKeepKeys(store.rows, op.user, Game(op.payload.game, now.shop, now.objectId), op.payload.souvenirs,
                     Unlocked(now.achievements, t), t);
      hide ClaimAll;
    }
  }

  /** The souvenir is filed as the entry says: under the game, with the entry's names and time, and under the game's
      shop if that is known and the one it had if not. Its picture and reservation are as before. */
  predicate Files(was: Souvenir, now: Souvenir, game: Game, e: Entry, t: Text) {
    && now.status.Ready? && now.remoteGame == Some(game.remoteId) && now.names == Names(e, t)
    && now.capturedAt == e.capturedAt
    && now.shop == (if game.shop == None then was.shop else game.shop)
    && now.objectId == (if game.objectId == None then was.objectId else game.objectId)
    && now.id == was.id && now.imageKey == was.imageKey && now.uploaded == was.uploaded && now.size == was.size
    && now.createdAt == was.createdAt
  }

  /** The game a payload is about: the shop it names, or else the one stored for the game. */
  function GameOf(store: Store, user: string, p: Payload): Game {
    var stored := if (user, p.game) in store.progress then store.progress[(user, p.game)] else Progress(None, None, []);
    Game(p.game, if p.shop == None then stored.shop else p.shop,
         if p.objectId == None then stored.objectId else p.objectId)
  }

  lemma GameIsAdvanced(store: Store, user: string, p: Payload, t: Text)
    ensures var now := Advanced(store, user, p, t); GameOf(store, user, p) == Game(p.game, now.shop, now.objectId)
  {
    hide Merged;
  }

  /** A souvenir that stays is as it was, unless its bytes land, or its owner's sync claims it: the last of the entries
      for it before the sync's first obstacle says how it is filed. */
  lemma StepChangesExactly(store: Store, op: Op, t: Text, o: Owner) returns (n: nat)
    requires o in store.rows && o in Step(store, op, t).rows
    ensures var was, now := store.rows[o], Step(store, op, t).rows[o];
            if op.MarkUploaded? && was.imageKey == op.key then now == was.(uploaded := true, size := op.written)
            else if op.SyncAchievements? && op.user == o.user then
              var entries := op.payload.souvenirs;
              && n <= |entries| && (Sync(store, op.user, op.payload, t).1.Claimed? <==> n == |entries|)
              && var at := LastFor(entries[..n], o.client, t);
                 if at < n then Files(was, now, GameOf(store, op.user, op.payload), entries[at], t) else now == was
            else now == was
  {
    n := 0;
    hide Obstacle, Advanced, Unlocked, StorageKey, Names;
    if op.SyncAchievements? {
      var game := GameOf(store, op.user, op.payload);
      var now := Advanced(store, op.user, op.payload, t);
      GameIsAdvanced(store, op.user, op.payload, t);
      n := ClaimsStopExactly(store.rows, op.user, game, op.payload.souvenirs, Unlocked(now.achievements, t), t);
      AppliedAt(store.rows, op.user, game, op.payload.souvenirs[..n], t, o);
      hide ClaimAll, Applied, GameOf, ObstacleAt;
    }
  }

  // ---------------------------------------------------------------------------
  // Unlocks
  // ---------------------------------------------------------------------------

  function StoredTimes(store: Store, at: (string, string), t: Text): map<string, int> {
    if at in store.progress then Times(store.progress[at].achievements, t.upper) else map[]
  }

  /** A sync adds the payload's unlocks to its own game's whatever becomes of its souvenirs, a reset forgets its own
      game's, and nothing else touches any. */
  lemma StepUnlocksExactly(store: Store, op: Op, t: Text, at: (string, string))
    ensures var after := Step(store, op, t);
            if op.SyncAchievements? && at == (op.user, op.payload.game) then
              && at in after.progress
              && StoredTimes(after, at, t) == Union(StoredTimes(store, at, t), Times(op.payload.achievements, t.upper))
              && Game(at.1, after.progress[at].shop, after.progress[at].objectId) == GameOf(store, op.user, op.payload)
            else if op.ResetAchievements? && at == (op.user, op.game) then at !in after.progress
            else
              && (at in after.progress <==> at in store.progress)
              && (at in store.progress ==> after.progress[at] == store.progress[at])
  {
    hide ClaimAll, Unlocked, Merged, Times, StorageKey;
    if op.SyncAchievements? && at == (op.user, op.payload.game) {
      var was := if at in store.progress then store.progress[at].achievements else [];
      MergeKeepsEarliest(was, op.payload.achievements, t.upper);
      assert Times([], t.upper) == map[] by { NoTimes(t.upper); }
    }
  }

  lemma NoTimes(upper: Casing)
    ensures Times([], upper) == map[]
  {
  }

  /** A sync's souvenirs are held against the unlocks its game then has, those of the same payload among them. */
  lemma SyncClaimsAgainstAll(store: Store, user: string, p: Payload, t: Text)
    ensures var all := Union(StoredTimes(store, (user, p.game), t), Times(p.achievements, t.upper)).Keys;
            var (after, claim) := Sync(store, user, p, t);
            (after.rows, claim) == ClaimAll(store.rows, user, GameOf(store, user, p), p.souvenirs, all, t)
  {
    StepUnlocksExactly(store, SyncAchievements(user, p), t, (user, p.game));
    UnlockedAreNamed(Advanced(store, user, p, t).achievements, t);
    GameIsAdvanced(store, user, p, t);
    hide ClaimAll, Unlocked, Times, GameOf, Advanced, Union;
  }
}
