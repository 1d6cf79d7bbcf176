/** What every run of the souvenir handlers keeps: one ready souvenir per achievement. */
module SouvenirRuns {
  import opened Souvenirs

  // ---------------------------------------------------------------------------
  // Names
  // ---------------------------------------------------------------------------

  ghost predicate Distinct(names: seq<string>) {
    forall i, j | 0 <= i < j < |names| :: names[i] != names[j]
  }

  predicate Spelled(names: seq<string>, name: string, t: Text) {
    exists i | 0 <= i < |names| :: t.upper(t.trim(names[i])) == name
  }

  /** Normalising keeps every spelling once, blanks aside, and adds none. */
  lemma {:induction false} NormalizedIsSet(names: seq<string>, t: Text)
    ensures Distinct(Normalized(names, t))
    ensures forall name :: name in Normalized(names, t) <==> name != "" && Spelled(names, name, t)
  {
    if names != [] {
      var n := |names| - 1;
      NormalizedIsSet(names[..n], t);
      forall name
        ensures Spelled(names, name, t) <==> Spelled(names[..n], name, t) || name == t.upper(t.trim(names[n]))
      {
        OneMoreSpelling(names, name, t);
      }
      hide Spelled;
    }
  }

  lemma OneMoreSpelling(names: seq<string>, name: string, t: Text)
    requires names != []
    ensures Spelled(names, name, t)
            <==> Spelled(names[..|names| - 1], name, t) || name == t.upper(t.trim(names[|names| - 1]))
  {
  }

  // ---------------------------------------------------------------------------
  // The invariant
  // ---------------------------------------------------------------------------

  ghost predicate Sound(s: Souvenir) {
    if s.status.Pending? then s.names == []
    else s.uploaded && s.remoteGame.Some? && 1 <= |s.names| <= MAX_NAMES && Distinct(s.names)
  }

  ghost predicate OwnIdentity(rows: Rows, o: Owner, p: Owner)
    requires o in rows && p in rows
  {
    rows[o].id != rows[p].id && rows[o].imageKey != rows[p].imageKey
  }

  /** Two ready souvenirs of one user and game. */
  predicate Rivals(rows: Rows, o: Owner, p: Owner)
    requires o in rows && p in rows
  {
    o.user == p.user && rows[o].status.Ready? && rows[p].status.Ready? && rows[o].remoteGame == rows[p].remoteGame
  }

  ghost predicate Inv(rows: Rows) {
    && (forall o | o in rows :: Sound(rows[o]))
    && (forall o, p | o in rows && p in rows && o != p :: OwnIdentity(rows, o, p))
    && (forall o, p | o in rows && p in rows && o != p && Rivals(rows, o, p) :: !Shared(rows[o].names, rows[p].names))
  }

  lemma ReserveKeepsInv(rows: Rows, user: string, r: Request, now: int)
    requires Inv(rows)
    ensures Inv(Reserve(rows, user, r, now).0)
  {
    hide Shared, StorageKey;
  }

  lemma LandedKeepsInv(rows: Rows, key: string, written: nat)
    requires Inv(rows)
    ensures Inv(Landed(rows, key, written))
  {
    var after := Landed(rows, key, written);
    hide Shared, Distinct;
    forall o, p | o in after && p in after && o != p && Rivals(after, o, p)
      ensures !Shared(after[o].names, after[p].names)
    {
      assert Rivals(rows, o, p);
    }
  }

  lemma FewerKeepInv(rows: Rows, fewer: Rows)
    requires Inv(rows)
    requires forall o | o in fewer :: o in rows && fewer[o] == rows[o]
    ensures Inv(fewer)
  {
    hide Shared, Sound;
    forall o, p | o in fewer && p in fewer && o != p
      ensures OwnIdentity(fewer, o, p)
    {
      assert OwnIdentity(rows, o, p);
    }
    forall o, p | o in fewer && p in fewer && o != p && Rivals(fewer, o, p)
      ensures !Shared(fewer[o].names, fewer[p].names)
    {
      assert Rivals(rows, o, p);
    }
  }

  lemma NamesAreSound(e: Entry, t: Text)
    requires Normalized(e.names, t) != []
    ensures 1 <= |Names(e, t)| <= MAX_NAMES && Distinct(Names(e, t))
  {
    NormalizedIsSet(e.names, t);
  }

  /** An unobstructed claim gives its souvenir names no other ready one has. */
  lemma ClaimKeepsInv(rows: Rows, user: string, game: Game, e: Entry, unlocked: set<string>, t: Text)
    requires Inv(rows) && Obstacle(rows, user, game, e, unlocked, t).None?
    ensures var o := Owner(user, t.trim(e.clientId));
            Inv(rows[o := Written(rows[o], game, e, t)])
  {
    var own := Owner(user, t.trim(e.clientId));
    var after := rows[own := Written(rows[own], game, e, t)];
    NamesAreSound(e, t);
    var names := Names(e, t);
    assert !Captured(rows, user, game.remoteId, rows[own].id, names);
    hide Distinct, Names, Normalized, KeyBelongsTo, Obstacle;
    forall o, p | o in after && p in after && o != p
      ensures OwnIdentity(after, o, p)
    {
      assert OwnIdentity(rows, o, p);
    }
    forall o | o in rows && o != own && Holder(rows, o, user, game.remoteId)
      ensures !Shared(names, rows[o].names) && !Shared(rows[o].names, names)
    {
      assert OwnIdentity(rows, o, own);
      assert !Shared(names, rows[o].names);
    }
    hide Shared, OwnIdentity;
    forall o, p | o in after && p in after && o != p && Rivals(after, o, p)
      ensures !Shared(after[o].names, after[p].names)
    {
      if o != own && p != own {
        assert Rivals(rows, o, p);
      }
    }
  }

  lemma {:induction false} ClaimAllKeepsInv(rows: Rows, user: string, game: Game, entries: seq<Entry>,
                                            unlocked: set<string>, t: Text)
    requires Inv(rows)
    ensures Inv(ClaimAll(rows, user, game, entries, unlocked, t).0)
  {
    if entries != [] {
      var n := |entries| - 1;
      ClaimAllKeepsInv(rows, user, game, entries[..n], unlocked, t);
      var before := ClaimAll(rows, user, game, entries[..n], unlocked, t).0;
      if Obstacle(before, user, game, entries[n], unlocked, t).None? {
        ClaimKeepsInv(before, user, game, entries[n], unlocked, t);
      }
      hide Inv, Obstacle, Written;
    }
  }

  // ---------------------------------------------------------------------------
  // Runs
  // ---------------------------------------------------------------------------

  datatype Op =
    | Authorize(user: string, request: Request, now: int)
    | MarkUploaded(key: string, written: nat)
    | SyncAchievements(user: string, payload: Payload)
    | ResetAchievements(user: string, game: string)
    | SweepAbandoned(cutoff: int)
    | Remove(user: string, id: string)

  function Step(store: Store, op: Op, t: Text): Store {
    match op
    case Authorize(user, request, now) => store.(rows := Reserve(store.rows, user, request, now).0)
    case MarkUploaded(key, written) => store.(rows := Landed(store.rows, key, written))
    case SyncAchievements(user, payload) => Sync(store, user, payload, t).0
    case ResetAchievements(user, game) => Forgotten(store, user, game)
    case SweepAbandoned(cutoff) => store.(rows := Swept(store.rows, cutoff))
    case Remove(user, id) => store.(rows := Removed(store.rows, user, id))
  }

  function After(store: Store, ops: seq<Op>, t: Text): Store {
    if ops == [] then store else Step(After(store, ops[..|ops| - 1], t), ops[|ops| - 1], t)
  }

  lemma StepKeepsInv(store: Store, op: Op, t: Text)
    requires Inv(store.rows)
    ensures Inv(Step(store, op, t).rows)
  {
    match op
    case Authorize(user, request, now) => ReserveKeepsInv(store.rows, user, request, now);
    case MarkUploaded(key, written) => LandedKeepsInv(store.rows, key, written);
    case SyncAchievements(user, payload) =>
      var now := Advanced(store, user, payload, t);
      ClaimAllKeepsInv(store.rows, user, Game(payload.game, now.shop, now.objectId), payload.souvenirs,
                       Unlocked(now.achievements, t), t);
    case ResetAchievements(user, game) =>
    case SweepAbandoned(cutoff) => FewerKeepInv(store.rows, Swept(store.rows, cutoff));
    case Remove(user, id) => FewerKeepInv(store.rows, Removed(store.rows, user, id));
  }

  lemma {:induction false} RunKeepsInv(store: Store, ops: seq<Op>, t: Text)
    requires Inv(store.rows)
    ensures Inv(After(store, ops, t).rows)
  {
    if ops != [] {
      RunKeepsInv(store, ops[..|ops| - 1], t);
      StepKeepsInv(After(store, ops[..|ops| - 1], t), ops[|ops| - 1], t);
    }
  }

  /** In every reachable state an achievement of one user and game has at most one ready souvenir, and a ready
      souvenir has its picture and 1 to 50 different names. */
  lemma OneSouvenirPerAchievement(ops: seq<Op>, t: Text, o: Owner, p: Owner, name: string)
    requires var rows := After(Store(map[], map[]), ops, t).rows;
             o in rows && p in rows && Rivals(rows, o, p) && name in rows[o].names && name in rows[p].names
    ensures o == p
    ensures var s := After(Store(map[], map[]), ops, t).rows[o];
            s.uploaded && 1 <= |s.names| <= 50 && Distinct(s.names)
  {
    var rows := After(Store(map[], map[]), ops, t).rows;
    RunKeepsInv(Store(map[], map[]), ops, t);
    assert Shared(rows[o].names, rows[p].names);
    hide After;
  }
}
