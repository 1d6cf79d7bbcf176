/** Souvenirs, src/souvenirs.rs: a capture is reserved, its picture is uploaded, and the achievement sync of
    src/achievements.rs claims it. The launcher repeats every one of these calls until it hears back. Trimming and
    upper-casing are parameters: nothing depends on which functions they are. */
module Souvenirs {
  import opened Achievements
  import opened Options
  import opened Paths

  const MAX_SOUVENIR_BYTES: int := 20 * 1024 * 1024
  const MAX_NAMES: nat := 50

  datatype Status = Pending | Ready

  /** Rows are keyed by their unique index on owner and client id. */
  datatype Owner = Owner(user: string, client: string)

  datatype Souvenir = Souvenir(
    id: string,
    remoteGame: Option<string>,
    shop: Option<string>,
    objectId: Option<string>,
    imageKey: string,
    uploaded: bool,
    size: nat,
    status: Status,
    names: seq<string>,
    capturedAt: int,
    createdAt: int)

  type Rows = map<Owner, Souvenir>

  datatype Text = Text(trim: string -> string, upper: string -> string)

  // ---------------------------------------------------------------------------
  // Names and keys
  // ---------------------------------------------------------------------------

  /** Trimmed and upper-cased, without blanks or repeats, in order of first appearance. */
  function Normalized(names: seq<string>, t: Text): seq<string> {
    if names == [] then []
    else
      var init := Normalized(names[..|names| - 1], t);
      var last := t.upper(t.trim(names[|names| - 1]));
      init + if last == "" || last in init then [] else [last]
  }

  function Truncated(names: seq<string>): seq<string> {
    if |names| <= MAX_NAMES then names else names[..MAX_NAMES]
  }

  predicate KeyBelongsTo(user: string, key: string) {
    "images/souvenirs/" + user + "/" <= key && PlainText(key)
  }

  function StorageKey(user: string, file: string): string {
    "images/souvenirs/" + user + "/" + file
  }

  method NormalizeNames(names: seq<string>, t: Text) returns (result: seq<string>)
    ensures result == Normalized(names, t)
  {
    var seen: set<string> := {};
    result := [];
    for i := 0 to |names|
      invariant result == Normalized(names[..i], t)
      invariant forall name :: name in seen <==> name in result
    {
      var name := t.upper(t.trim(names[i]));
      assert names[..i + 1][..i] == names[..i];
      if name != "" && name !in seen {
        seen := seen + {name};
        result := result + [name];
      }
    }
    assert names[..|names|] == names;
  }

  // ---------------------------------------------------------------------------
  // Reserving
  // ---------------------------------------------------------------------------

  /** What an authorize asks for. `extension` is the normalised one when it is an allowed one; `invented` is the
      client id used where the launcher sends none. `id` and `file` are drawn, and `quota` answers for the gate. */
  datatype Request = Request(extension: Option<string>, length: int, clientId: Option<string>,
                             remoteGame: Option<string>, invented: string, id: string, file: string, quota: bool)

  datatype Reservation =
    | Upload(key: string)
    | AlreadyHere(key: string)
    | BadRequest
    | TooLarge
    | LimitReached
    | StoreRefused

  function ClientOf(r: Request): string {
    if r.clientId.Some? && r.clientId.value != "" then r.clientId.value else r.invented
  }

  /** The primary key and the unique index on image keys. */
  predicate Insertable(rows: Rows, id: string, key: string) {
    forall o | o in rows :: rows[o].id != id && rows[o].imageKey != key
  }

  function Reserve(rows: Rows, user: string, r: Request, now: int): (Rows, Reservation) {
    var o := Owner(user, ClientOf(r));
    if r.extension.None? || r.length <= 0 then (rows, BadRequest)
    else if r.length > MAX_SOUVENIR_BYTES then (rows, TooLarge)
    else if o in rows then (rows, if rows[o].uploaded then AlreadyHere(rows[o].imageKey) else Upload(rows[o].imageKey))
    else if !r.quota then (rows, LimitReached)
    else
      var key := StorageKey(user, r.file + "." + r.extension.value);
      if !Insertable(rows, r.id, key) then (rows, StoreRefused)
      else (rows[o := Souvenir(r.id, r.remoteGame, None, None, key, false, 0, Pending, [], now, now)], Upload(key))
  }

  /** The bytes are on disk. */
  function Landed(rows: Rows, key: string, written: nat): Rows {
    map o | o in rows :: if rows[o].imageKey == key then rows[o].(uploaded := true, size := written) else rows[o]
  }

  // ---------------------------------------------------------------------------
  // Claiming
  // ---------------------------------------------------------------------------

  datatype Game = Game(remoteId: string, shop: Option<string>, objectId: Option<string>)

  /** One souvenir of a sync payload. */
  datatype Entry = Entry(clientId: string, imageKey: string, capturedAt: int, names: seq<string>)

  datatype Conflict =
    | MissingClientId
    | PayloadMismatch
    | AchievementNotFound
    | ReservationNotFound
    | ReservationMismatch
    | UploadIncomplete
    | AlreadyAssigned

  datatype Acknowledgement = Acknowledgement(clientId: string, id: string)

  datatype Claim = Claimed(acks: seq<Acknowledgement>) | Refused(conflict: Conflict)

  function Names(e: Entry, t: Text): seq<string> {
    Truncated(Normalized(e.names, t))
  }

  predicate Shared(a: seq<string>, b: seq<string>) {
    exists name :: name in a && name in b
  }

  /** Another ready souvenir of this user and game already lists one of these names. */
  predicate Captured(rows: Rows, user: string, game: string, id: string, names: seq<string>) {
    exists o | o in rows :: Holder(rows, o, user, game) && rows[o].id != id && Shared(names, rows[o].names)
  }

  predicate Holder(rows: Rows, o: Owner, user: string, game: string)
    requires o in rows
  {
    o.user == user && rows[o].remoteGame == Some(game) && rows[o].status.Ready?
  }

  /** What a claim writes. */
  function Written(row: Souvenir, game: Game, e: Entry, t: Text): Souvenir {
    row.(status := Ready, remoteGame := Some(game.remoteId),
         shop := if game.shop.Some? then game.shop else row.shop,
         objectId := if game.objectId.Some? then game.objectId else row.objectId,
         names := Names(e, t), capturedAt := e.capturedAt)
  }

  /** What stands in the way of a claim, in the order it is checked. */
  function Obstacle(rows: Rows, user: string, game: Game, e: Entry, unlocked: set<string>, t: Text): Option<Conflict> {
    var o, names := Owner(user, t.trim(e.clientId)), Names(e, t);
    if o.client == "" then Some(MissingClientId)
    else if Normalized(e.names, t) == [] || !KeyBelongsTo(user, e.imageKey) then Some(PayloadMismatch)
    else if exists name :: name in names && name !in unlocked then Some(AchievementNotFound)
    else if o !in rows then Some(ReservationNotFound)
    else if rows[o].imageKey != e.imageKey then Some(ReservationMismatch)
    else if !rows[o].uploaded then Some(UploadIncomplete)
    else if Captured(rows, user, game.remoteId, rows[o].id, names) then Some(AlreadyAssigned)
    else None
  }

  /** The claims of one payload, one after another; the ones before a refusal stay. */
  function ClaimAll(rows: Rows, user: string, game: Game, entries: seq<Entry>, unlocked: set<string>,
                    t: Text): (Rows, Claim) {
    if entries == [] then (rows, Claimed([]))
    else
      var (before, claim) := ClaimAll(rows, user, game, entries[..|entries| - 1], unlocked, t);
      if claim.Refused? then (before, claim)
      else
        var e := entries[|entries| - 1];
        var o, obstacle := Owner(user, t.trim(e.clientId)), Obstacle(before, user, game, e, unlocked, t);
        if obstacle.Some? then (before, Refused(obstacle.value))
        else (before[o := Written(before[o], game, e, t)],
              Claimed(claim.acks + [Acknowledgement(o.client, before[o].id)]))
  }

  // ---------------------------------------------------------------------------
  // The sync
  // ---------------------------------------------------------------------------

  datatype Progress = Progress(shop: Option<string>, objectId: Option<string>, achievements: seq<Achievement>)

  datatype Payload = Payload(game: string, shop: Option<string>, objectId: Option<string>,
                             achievements: seq<Achievement>, souvenirs: seq<Entry>)

  datatype Store = Store(rows: Rows, progress: map<(string, string), Progress>)

  function Unlocked(list: seq<Achievement>, t: Text): set<string> {
    set i | 0 <= i < |list| && list[i].name.Some? :: t.upper(list[i].name.value)
  }

  function Advanced(store: Store, user: string, p: Payload, t: Text): Progress {
    var at := (user, p.game);
    if at in store.progress then
      var was := store.progress[at];
      Progress(p.shop.Else(was.shop), p.objectId.Else(was.objectId), Merged(was.achievements, p.achievements, t.upper))
    else Progress(p.shop, p.objectId, Merged([], p.achievements, t.upper))
  }

  /** The achievements are stored first, whatever becomes of the souvenirs. */
  function Sync(store: Store, user: string, p: Payload, t: Text): (Store, Claim) {
    var now := Advanced(store, user, p, t);
    var (rows, claim) := ClaimAll(store.rows, user, Game(p.game, now.shop, now.objectId), p.souvenirs,
                                  Unlocked(now.achievements, t), t);
    (Store(rows, store.progress[(user, p.game) := now]), claim)
  }

  // ---------------------------------------------------------------------------
  // Housekeeping
  // ---------------------------------------------------------------------------

  /** Reservations made before the cutoff that nothing ever claimed. */
  function Swept(rows: Rows, cutoff: int): Rows {
    map o | o in rows && !(rows[o].status.Pending? && rows[o].createdAt < cutoff) :: rows[o]
  }

  /** An achievement reset forgets a game's unlocks; its souvenirs stay. */
  function Forgotten(store: Store, user: string, game: string): Store {
    store.(progress := store.progress - {(user, game)})
  }

  function Removed(rows: Rows, user: string, id: string): Rows {
    map o | o in rows && !(o.user == user && rows[o].id == id) :: rows[o]
  }

  // ---------------------------------------------------------------------------
  // The handlers
  // ---------------------------------------------------------------------------

  class Server {
    var rows: Rows
    var progress: map<(string, string), Progress>
    const t: Text

    ghost function State(): Store
      reads this
    {
      Store(rows, progress)
    }

    constructor (t: Text)
      ensures State() == Store(map[], map[]) && this.t == t
    {
      rows, progress, this.t := map[], map[], t;
    }

    method Authorize(user: string, r: Request, now: int) returns (reply: Reservation)
      modifies this`rows
      ensures (rows, reply) == Reserve(old(rows), user, r, now)
    {
      if r.extension.None? || r.length <= 0 {
        return BadRequest;
      }
      if r.length > MAX_SOUVENIR_BYTES {
        return TooLarge;
      }
      var o := Owner(user, ClientOf(r));
      if o in rows {
        if rows[o].uploaded {
          return AlreadyHere(rows[o].imageKey);
        }
        return Upload(rows[o].imageKey);
      }
      if !r.quota {
        return LimitReached;
      }
      var key := StorageKey(user, r.file + "." + r.extension.value);
      if !Insertable(rows, r.id, key) {
        return StoreRefused;
      }
      rows := rows[o := Souvenir(r.id, r.remoteGame, None, None, key, false, 0, Pending, [], now, now)];
      reply := Upload(key);
    }

    method MarkUploaded(key: string, written: nat)
      modifies this`rows
      ensures rows == Landed(old(rows), key, written)
    {
      rows := map o | o in rows ::
        if rows[o].imageKey == key then rows[o].(uploaded := true, size := written) else rows[o];
    }

    method AlreadyCaptured(user: string, game: string, id: string, names: seq<string>) returns (captured: bool)
      ensures captured == Captured(rows, user, game, id, names)
    {
      var taken := set o, i | o in rows && Holder(rows, o, user, game) && rows[o].id != id
          && 0 <= i < |rows[o].names| :: rows[o].names[i];
      captured := exists name :: name in names && name in taken;
      if captured {
        ghost var name :| name in names && name in taken;
        ghost var o :| o in rows && Holder(rows, o, user, game) && rows[o].id != id && name in rows[o].names;
        assert Shared(names, rows[o].names);
      }
    }

    method ClaimOne(user: string, game: Game, e: Entry, client: string, unlocked: set<string>) returns (outcome: Claim)
      requires client == t.trim(e.clientId) != ""
      modifies this`rows
      ensures var obstacle := Obstacle(old(rows), user, game, e, unlocked, t);
              if obstacle.Some? then rows == old(rows) && outcome == Refused(obstacle.value)
              else
                var o := Owner(user, client);
                && rows == old(rows)[o := Written(old(rows)[o], game, e, t)]
                && outcome == Claimed([Acknowledgement(client, old(rows)[o].id)])
    {
      var names := NormalizeNames(e.names, t);
      if names == [] || !KeyBelongsTo(user, e.imageKey) {
        return Refused(PayloadMismatch);
      }
      names := Truncated(names);
      if exists name :: name in names && name !in unlocked {
        return Refused(AchievementNotFound);
      }
      var o := Owner(user, client);
      if o !in rows {
        return Refused(ReservationNotFound);
      }
      var row := rows[o];
      if row.imageKey != e.imageKey {
        return Refused(ReservationMismatch);
      }
      if !row.uploaded {
        return Refused(UploadIncomplete);
      }
      var captured := AlreadyCaptured(user, game.remoteId, row.id, names);
      if captured {
        return Refused(AlreadyAssigned);
      }
      rows := rows[o := row.(status := Ready, remoteGame := Some(game.remoteId), shop := game.shop.Else(row.shop),
                             objectId := game.objectId.Else(row.objectId), names := names, capturedAt := e.capturedAt)];
      outcome := Claimed([Acknowledgement(client, row.id)]);
    }

    method ClaimFromSync(user: string, game: Game, entries: seq<Entry>, unlocked: set<string>) returns (claim: Claim)
      modifies this`rows
      ensures (rows, claim) == ClaimAll(old(rows), user, game, entries, unlocked, t)
    {
      var acks: seq<Acknowledgement> := [];
      for i := 0 to |entries|
        invariant (rows, Claimed(acks)) == ClaimAll(old(rows), user, game, entries[..i], unlocked, t)
      {
        var client := t.trim(entries[i].clientId);
        assert entries[..i + 1][..i] == entries[..i];
        if client == "" {
          RefusalStays(old(rows), user, game, entries, i + 1, unlocked, t);
          return Refused(MissingClientId);
        }
        var outcome := ClaimOne(user, game, entries[i], client, unlocked);
        if outcome.Refused? {
          RefusalStays(old(rows), user, game, entries, i + 1, unlocked, t);
          return outcome;
        }
        acks := acks + outcome.acks;
      }
      assert entries[..|entries|] == entries;
      claim := Claimed(acks);
    }

    method SyncAchievements(user: string, p: Payload) returns (claim: Claim)
      modifies this
      ensures (State(), claim) == Sync(old(State()), user, p, t)
    {
      var at := (user, p.game);
      var was := if at in progress then progress[at] else Progress(None, None, []);
      var merged := MergeAchievements(was.achievements, p.achievements, t.upper);
      var shop, objectId := p.shop.Else(was.shop), p.objectId.Else(was.objectId);
      progress := progress[at := Progress(shop, objectId, merged)];
      claim := ClaimFromSync(user, Game(p.game, shop, objectId), p.souvenirs, Unlocked(merged, t));
    }

    method ResetAchievements(user: string, game: string)
      modifies this`progress
      ensures State() == Forgotten(old(State()), user, game)
    {
      progress := progress - {(user, game)};
    }

    method SweepAbandoned(cutoff: int) returns (count: nat)
      modifies this`rows
      ensures rows == Swept(old(rows), cutoff) && count == |old(rows)| - |rows|
    {
      var stale := set o | o in rows && rows[o].status.Pending? && rows[o].createdAt < cutoff;
      count := |stale|;
      Without(rows, stale);
      var left := stale;
      while left != {}
        invariant left <= stale && rows == old(rows) - (stale - left)
        decreases |left|
      {
        var o :| o in left;
        OneMoreGone(old(rows), stale, left, o);
        rows := rows - {o};
        left := left - {o};
      }
      SweptAre(old(rows), cutoff, stale);
      assert stale - {} == stale;
      hide Swept;
    }

    method Remove(user: string, id: string) returns (freed: Option<nat>)
      modifies this`rows
      ensures rows == Removed(old(rows), user, id)
      ensures freed.None? <==> rows == old(rows)
      ensures freed.Some? ==> exists o | o in old(rows) ::
              o.user == user && old(rows)[o].id == id && freed.value == old(rows)[o].size
    {
      if !exists o | o in rows :: o.user == user && rows[o].id == id {
        return None;
      }
      var found :| found in rows && found.user == user && rows[found].id == id;
      freed := Some(rows[found].size);
      rows := map o | o in rows && !(o.user == user && rows[o].id == id) :: rows[o];
      assert found in old(rows) && found !in rows;
    }
  }

  lemma Without(rows: Rows, gone: set<Owner>)
    requires gone <= rows.Keys
    ensures |rows - gone| == |rows| - |gone|
  {
  }

  lemma OneMoreGone(rows: Rows, gone: set<Owner>, left: set<Owner>, o: Owner)
    requires o in left && left <= gone
    ensures rows - (gone - left) - {o} == rows - (gone - (left - {o}))
  {
  }

  lemma SweptAre(rows: Rows, cutoff: int, stale: set<Owner>)
    requires stale == set o | o in rows && rows[o].status.Pending? && rows[o].createdAt < cutoff
    ensures rows - stale == Swept(rows, cutoff)
  {
  }

  /** Nothing after a refusal is looked at. */
  lemma {:induction false} RefusalStays(rows: Rows, user: string, game: Game, entries: seq<Entry>, n: nat,
                                        unlocked: set<string>, t: Text)
    requires n <= |entries| && ClaimAll(rows, user, game, entries[..n], unlocked, t).1.Refused?
    ensures ClaimAll(rows, user, game, entries, unlocked, t) == ClaimAll(rows, user, game, entries[..n], unlocked, t)
    decreases |entries|
  {
    if n < |entries| {
      assert entries[..|entries| - 1][..n] == entries[..n];
      RefusalStays(rows, user, game, entries[..|entries| - 1], n, unlocked, t);
    } else {
      assert entries[..n] == entries;
    }
  }
}
